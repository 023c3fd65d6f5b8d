/**
 * The java.lang.String operations the binding relies on, over `seq<char>`:
 * `startsWith`, `contains`, `replace(target, "")`, `split(literal)` and `trim`.
 */
module JavaStrings {

  /** `s.startsWith(prefix)`. */
  predicate StartsWith(s: string, prefix: string) {
    |prefix| <= |s| && s[..|prefix|] == prefix
  }

  /** `s.contains(t)`: `t` occurs at some position of `s`. */
  predicate Contains(s: string, t: string)
    decreases |s|
  {
    StartsWith(s, t) || (s != [] && Contains(s[1..], t))
  }

  /**
   * `s.replace(t, "")`: every occurrence of `t`, found left to right without
   * overlap, is deleted (an empty `t` leaves `s` as it is).
   */
  function RemoveAll(s: string, t: string): (r: string)
    ensures |r| <= |s|
    ensures !Contains(s, t) ==> r == s
    ensures t != [] && StartsWith(s, t) ==> |r| <= |s| - |t|
    decreases |s|
  {
    if t == [] then s
    else if StartsWith(s, t) then RemoveAll(s[|t|..], t)
    else if s == [] then s
    else [s[0]] + RemoveAll(s[1..], t)
  }

  /** The text between the occurrences of `sep` in `s`, found left to right, including empty pieces. */
  function Pieces(s: string, sep: string): (r: seq<string>)
    requires sep != []
    ensures |r| >= 1
    ensures StartsWith(s, r[0])
    ensures |r| == 1 ==> r[0] == s
    ensures !StartsWith(s, sep) && s != [] ==> r[0] != []
    ensures !Contains(s, sep) <==> |r| == 1
    ensures forall i :: 0 <= i < |r| ==> !Contains(r[i], sep)
    decreases |s|
  {
    if StartsWith(s, sep) then [[]] + Pieces(s[|sep|..], sep)
    else if s == [] then [[]]
    else
      var rest := Pieces(s[1..], sep);
      PrependKeepsOut(s, rest[0], sep);
      [[s[0]] + rest[0]] + rest[1..]
  }

  /** A piece that starts after a position where `sep` does not begin stays free of `sep`. */
  lemma {:induction false} PrependKeepsOut(s: string, p: string, sep: string)
    requires s != [] && sep != []
    requires !StartsWith(s, sep) && StartsWith(s[1..], p) && !Contains(p, sep)
    ensures !Contains([s[0]] + p, sep)
  {
    var q := [s[0]] + p;
    assert StartsWith(s, q);
    assert q[1..] == p;
  }

  /** Java drops the empty strings at the end of a split result. */
  function DropTrailingEmpty(xs: seq<string>): (r: seq<string>)
    ensures |r| <= |xs| && r == xs[..|r|]
    ensures r != [] ==> r[|r| - 1] != []
    ensures forall i :: |r| <= i < |xs| ==> xs[i] == []
  {
    if xs == [] then []
    else if xs[|xs| - 1] == [] then DropTrailingEmpty(xs[..|xs| - 1])
    else xs
  }

  /**
   * `s.split(sep)` for a separator that is a literal text (limit 0): no match
   * gives `[s]`; otherwise the pieces, without the trailing empty ones.
   */
  function Split(s: string, sep: string): (r: seq<string>)
    requires sep != []
    ensures !Contains(s, sep) ==> r == [s]
    ensures Pieces(s, sep)[0] != [] ==> r != [] && r[0] == Pieces(s, sep)[0]
    ensures |r| >= 2 ==> Contains(s, sep) && r[|r| - 1] != []
    ensures forall i :: 0 <= i < |r| ==> !Contains(r[i], sep)
  {
    var p := Pieces(s, sep);
    if |p| == 1 then p else DropTrailingEmpty(p)
  }

  /** When the last piece is not empty, nothing is dropped. */
  lemma SplitKeepsNonEmptyLast(s: string, sep: string)
    requires sep != []
    requires var p := Pieces(s, sep); p[|p| - 1] != []
    ensures Split(s, sep) == Pieces(s, sep)
  {
  }

  /** Java's `trim`: characters up to U+0020 go at both ends. */
  function Trim(s: string): (r: string)
    ensures r == [] || (r[0] > ' ' && r[|r| - 1] > ' ')
    ensures |r| <= |s|
    decreases |s|
  {
    if s == [] then s
    else if s[0] <= ' ' then Trim(s[1..])
    else if s[|s| - 1] <= ' ' then Trim(s[..|s| - 1])
    else s
  }

  /** Every character of `s` before `i` and from `j` on is one that `trim` removes. */
  predicate BlankOutside(s: string, i: nat, j: nat) {
    forall k :: 0 <= k < |s| && !(i <= k < j) ==> s[k] <= ' '
  }

  /**
   * `trim` cuts a contiguous middle out of the text: everything it drops is
   * at most U+0020, and (by its contract) it keeps no such character at either end.
   */
  lemma {:induction false} TrimIsInfix(s: string)
    ensures exists i: nat, j: nat :: i <= j <= |s| && Trim(s) == s[i..j] && BlankOutside(s, i, j)
    decreases |s|
  {
    if s == [] {
      assert Trim(s) == s[0..0] && BlankOutside(s, 0, 0);
    } else if s[0] <= ' ' {
      TrimIsInfix(s[1..]);
      var i: nat, j: nat :| i <= j <= |s[1..]| && Trim(s[1..]) == s[1..][i..j] && BlankOutside(s[1..], i, j);
      BlankAfterFirst(s, i, j);
      assert Trim(s) == s[i + 1..j + 1];
    } else if s[|s| - 1] <= ' ' {
      TrimIsInfix(s[..|s| - 1]);
      var i: nat, j: nat :| i <= j <= |s| - 1 && Trim(s[..|s| - 1]) == s[..|s| - 1][i..j] && BlankOutside(s[..|s| - 1], i, j);
      BlankBeforeLast(s, i, j);
      assert Trim(s) == s[i..j];
    } else {
      assert Trim(s) == s[0..|s|] && BlankOutside(s, 0, |s|);
    }
  }

  /** A blank first character joins the blank text outside the middle of the rest. */
  lemma BlankAfterFirst(s: string, i: nat, j: nat)
    requires s != [] && s[0] <= ' ' && i <= j <= |s| - 1 && BlankOutside(s[1..], i, j)
    ensures BlankOutside(s, i + 1, j + 1) && s[1..][i..j] == s[i + 1..j + 1]
  {
    forall k | 0 <= k < |s| && !(i + 1 <= k < j + 1) ensures s[k] <= ' ' {
      if k > 0 { assert s[k] == s[1..][k - 1]; }
    }
  }

  /** A blank last character joins the blank text outside the middle of the rest. */
  lemma BlankBeforeLast(s: string, i: nat, j: nat)
    requires s != [] && s[|s| - 1] <= ' ' && i <= j <= |s| - 1 && BlankOutside(s[..|s| - 1], i, j)
    ensures BlankOutside(s, i, j) && s[..|s| - 1][i..j] == s[i..j]
  {
    forall k | 0 <= k < |s| && !(i <= k < j) ensures s[k] <= ' ' {
      if k < |s| - 1 { assert s[k] == s[..|s| - 1][k]; }
    }
  }

  /** Joins pieces back with the separator between them. */
  function Join(xs: seq<string>, sep: string): string
    requires xs != []
    decreases |xs|
  {
    if |xs| == 1 then xs[0] else xs[0] + sep + Join(xs[1..], sep)
  }

  /** Splitting loses nothing: the pieces joined with the separator give the text back. */
  lemma {:induction false} JoinPieces(s: string, sep: string)
    requires sep != []
    ensures Join(Pieces(s, sep), sep) == s
    decreases |s|
  {
    if StartsWith(s, sep) {
      var tail := s[|sep|..];
      JoinPieces(tail, sep);
      JoinAfterEmpty(Pieces(tail, sep), sep);
      assert s == sep + tail;
    } else if s != [] {
      var rest := Pieces(s[1..], sep);
      JoinPieces(s[1..], sep);
      JoinExtendsFirst(s[0], rest, sep);
      assert s == [s[0]] + s[1..];
    }
  }

  /** Joining pieces free of a one-character separator and splitting again gives the pieces back. */
  lemma {:induction false} PiecesOfJoin(xs: seq<string>, c: char)
    requires xs != [] && forall i :: 0 <= i < |xs| ==> c !in xs[i]
    ensures Pieces(Join(xs, [c]), [c]) == xs
    decreases |xs|
  {
    if |xs| == 1 {
      AbsentFirstChar(xs[0], [c]);
    } else {
      PiecesOfJoin(xs[1..], c);
      PiecesAfterFreePrefix(xs[0], [c], Join(xs[1..], [c]));
      assert [xs[0]] + xs[1..] == xs;
    }
  }

  /** `split` gives back pieces joined at a one-character separator when the last piece is not empty. */
  lemma SplitOfJoin(xs: seq<string>, c: char)
    requires xs != [] && forall i :: 0 <= i < |xs| ==> c !in xs[i]
    requires xs[|xs| - 1] != []
    ensures Join(xs, [c]) != [] && Split(Join(xs, [c]), [c]) == xs
  {
    var s := Join(xs, [c]);
    PiecesOfJoin(xs, c);
    PiecesOfEmpty([c]);
    SplitOfPieces(s, [c], xs);
  }

  /**
   * `split` at a one-character separator that is absent from the text before
   * its first occurrence and does not end the text: that text, then the
   * pieces of the rest.
   */
  lemma SplitAfterFreePrefix(a: string, c: char, b: string)
    requires c !in a && b != [] && b[|b| - 1] != c
    ensures Split(a + [c] + b, [c]) == [a] + Pieces(b, [c])
  {
    var s, xs := a + [c] + b, [a] + Pieces(b, [c]);
    assert xs[|xs| - 1] != [] by {
      LastPieceNonEmpty(b, c);
      LastOfPrepended(a, Pieces(b, [c]));
    }
    assert Pieces(s, [c]) == xs by {
      PiecesAfterFreePrefix(a, [c], b);
    }
    SplitOfPieces(s, [c], xs);
  }

  /** Putting a piece in front keeps the last piece. */
  lemma LastOfPrepended(a: string, p: seq<string>)
    requires p != [] && p[|p| - 1] != []
    ensures ([a] + p)[|[a] + p| - 1] != []
  {
    assert ([a] + p)[|p|] == p[|p| - 1];
  }

  /** The empty text is one empty piece. */
  lemma PiecesOfEmpty(sep: string)
    requires sep != []
    ensures Pieces([], sep) == [[]]
  {
  }

  /** Pieces whose last one is not empty are the split result. */
  lemma SplitOfPieces(s: string, sep: string, xs: seq<string>)
    requires sep != [] && Pieces(s, sep) == xs && xs[|xs| - 1] != []
    ensures Split(s, sep) == xs
  {
    SplitKeepsNonEmptyLast(s, sep);
  }

  /** An empty first piece contributes only the separator. */
  lemma JoinAfterEmpty(xs: seq<string>, sep: string)
    requires xs != []
    ensures Join([[]] + xs, sep) == sep + Join(xs, sep)
  {
    assert ([[]] + xs)[1..] == xs;
  }

  /** A character put in front of the first piece ends up in front of the joined text. */
  lemma JoinExtendsFirst(c: char, xs: seq<string>, sep: string)
    requires xs != []
    ensures Join([[c] + xs[0]] + xs[1..], sep) == [c] + Join(xs, sep)
  {
    var ys := [[c] + xs[0]] + xs[1..];
    assert ys[0] == [c] + xs[0];
    if |xs| > 1 {
      assert ys[1..] == xs[1..];
      assert [c] + xs[0] + sep + Join(xs[1..], sep) == [c] + (xs[0] + sep + Join(xs[1..], sep));
    }
  }

  /** `Contains` with a one-character needle is plain membership. */
  lemma {:induction false} ContainsChar(s: string, c: char)
    ensures Contains(s, [c]) <==> c in s
    decreases |s|
  {
    if s != [] {
      ContainsChar(s[1..], c);
      assert s == [s[0]] + s[1..];
    }
  }

  /** A first piece in which the separator's first character does not occur is split off unchanged. */
  lemma {:induction false} PiecesAfterFreePrefix(a: string, sep: string, b: string)
    requires sep != [] && sep[0] !in a
    ensures Pieces(a + sep + b, sep) == [a] + Pieces(b, sep)
    decreases |a|
  {
    var s := a + sep + b;
    if a == [] {
      assert s == sep + b;
      assert StartsWith(s, sep);
      assert s[|sep|..] == b;
    } else {
      assert s[0] == a[0] && a[0] != sep[0];
      assert s[..|sep|][0] == s[0];
      assert !StartsWith(s, sep);
      PiecesAfterFreePrefix(a[1..], sep, b);
      TailOfConcat(a, sep);
      TailOfConcat(a + sep, b);
      PrependToFirstPiece(a[0], a[1..], Pieces(b, sep));
      assert [a[0]] + a[1..] == a;
    }
  }

  /** Concatenation is associative. */
  lemma AppendAssoc<T>(a: seq<T>, b: seq<T>, c: seq<T>)
    ensures a + b + c == a + (b + c)
  {
  }

  /** Dropping the first character of a concatenation whose left part is not empty. */
  lemma TailOfConcat(x: string, y: string)
    requires x != []
    ensures (x + y)[1..] == x[1..] + y
  {
  }

  /** Putting a character in front of the first of several pieces. */
  lemma PrependToFirstPiece(c: char, p: string, xs: seq<string>)
    ensures [[c] + ([p] + xs)[0]] + ([p] + xs)[1..] == [[c] + p] + xs
  {
    assert ([p] + xs)[0] == p && ([p] + xs)[1..] == xs;
  }

  /** `t` occurs in any text that has it in the middle. */
  lemma {:induction false} ContainsMiddle(a: string, t: string, b: string)
    ensures Contains(a + t + b, t)
    decreases |a|
  {
    if a == [] {
      assert a + t + b == t + b;
      assert (t + b)[..|t|] == t;
    } else {
      ContainsMiddle(a[1..], t, b);
      assert (a + t + b)[1..] == a[1..] + t + b;
    }
  }

  /** A text that does not end with the separator `c` has a non-empty last piece. */
  lemma {:induction false} LastPieceNonEmpty(s: string, c: char)
    requires s != [] && s[|s| - 1] != c
    ensures var p := Pieces(s, [c]); p[|p| - 1] != []
    decreases |s|
  {
    if StartsWith(s, [c]) {
      LastPieceNonEmpty(s[1..], c);
    } else if |s| > 1 {
      LastPieceNonEmpty(s[1..], c);
    }
  }

  /** Deleting a leading occurrence of `t`, then the rest of its occurrences. */
  lemma RemoveAllLeading(t: string, s: string)
    requires t != []
    ensures RemoveAll(t + s, t) == RemoveAll(s, t)
  {
    assert StartsWith(t + s, t);
    assert (t + s)[|t|..] == s;
  }

  /**
   * `replace(t, "")` keeps exactly the text between the occurrences of `t`,
   * found left to right: the pieces of the split, joined with nothing between.
   */
  lemma {:induction false} RemoveAllIsJoinedPieces(s: string, t: string)
    requires t != []
    ensures RemoveAll(s, t) == Join(Pieces(s, t), [])
    decreases |s|
  {
    if StartsWith(s, t) {
      RemoveAllIsJoinedPieces(s[|t|..], t);
      JoinAfterEmpty(Pieces(s[|t|..], t), []);
    } else if s != [] {
      RemoveAllIsJoinedPieces(s[1..], t);
      JoinExtendsFirst(s[0], Pieces(s[1..], t), []);
    }
  }

  /** An occurrence of `t` after a text without `t`'s first character is deleted, and that text kept. */
  lemma {:induction false} RemoveAllAfterFreePrefix(a: string, t: string, b: string)
    requires t != [] && t[0] !in a
    ensures RemoveAll(a + t + b, t) == a + RemoveAll(b, t)
    decreases |a|
  {
    if a == [] {
      assert a + t + b == t + b;
      RemoveAllLeading(t, b);
    } else {
      var r := RemoveAll(b, t);
      calc {
        RemoveAll(a + t + b, t);
        { assert a + t + b == [a[0]] + (a[1..] + t + b); }
        RemoveAll([a[0]] + (a[1..] + t + b), t);
        { RemoveAllKeepsHead(a[0], a[1..] + t + b, t); }
        [a[0]] + RemoveAll(a[1..] + t + b, t);
        { RemoveAllAfterFreePrefix(a[1..], t, b); }
        [a[0]] + (a[1..] + r);
        { assert [a[0]] + a[1..] == a; }
        a + r;
      }
    }
  }

  /** A character that cannot start `t` is kept in front. */
  lemma RemoveAllKeepsHead(c: char, s: string, t: string)
    requires t != [] && t[0] != c
    ensures RemoveAll([c] + s, t) == [c] + RemoveAll(s, t)
  {
    assert ([c] + s)[1..] == s;
  }

  /** A text shorter than `t` cannot hold it. */
  lemma {:induction false} ShortAbsent(s: string, t: string)
    requires |s| < |t|
    ensures !Contains(s, t)
    decreases |s|
  {
    if s != [] {
      ShortAbsent(s[1..], t);
    }
  }

  /**
   * `t` is absent when it does not start the text, its first character does
   * not occur again before position `k`, and the text from `k` on is too
   * short to hold it.
   */
  lemma {:induction false} AbsentBeforeShortTail(s: string, t: string, k: nat)
    requires t != [] && 1 <= k <= |s| && !StartsWith(s, t) && t[0] !in s[1..k] && |s| - k < |t|
    ensures !Contains(s, t)
    decreases k
  {
    if k == 1 {
      ShortAbsent(s[1..], t);
    } else {
      assert s[1..][0] == s[1] && s[1] in s[1..k];
      assert s[1..][1..k - 1] == s[2..k];
      AbsentBeforeShortTail(s[1..], t, k - 1);
    }
  }

  /** `t` cannot occur where its first character does not. */
  lemma {:induction false} AbsentFirstChar(s: string, t: string)
    requires t != [] && t[0] !in s
    ensures !Contains(s, t)
    decreases |s|
  {
    if s != [] {
      assert s[0] != t[0];
      AbsentFirstChar(s[1..], t);
    }
  }

  /** `t` cannot occur where its first two characters never stand side by side. */
  lemma {:induction false} AbsentFirstPair(s: string, t: string)
    requires |t| >= 2
    requires forall i :: 0 <= i < |s| - 1 ==> s[i] != t[0] || s[i + 1] != t[1]
    ensures !Contains(s, t)
    decreases |s|
  {
    if s != [] {
      if |s| >= 2 {
        assert s[0] != t[0] || s[1] != t[1];
      }
      forall i | 0 <= i < |s[1..]| - 1 ensures s[1..][i] != t[0] || s[1..][i + 1] != t[1] {
        assert s[1..][i] == s[i + 1] && s[1..][i + 1] == s[i + 2];
      }
      AbsentFirstPair(s[1..], t);
    }
  }
}
