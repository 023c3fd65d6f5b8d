/**
 * The regular expressions of the path and query parsers, written as predicates.
 * `String.matches` must consume the whole text; Java's `.` matches every
 * character except a line terminator.
 */
module Patterns {
  import opened JavaStrings

  /** `[A-Z]`. */
  predicate IsUpper(c: char) {
    'A' <= c <= 'Z'
  }

  /** `[a-zA-Z]`. */
  predicate IsLetter(c: char) {
    ('a' <= c <= 'z') || ('A' <= c <= 'Z')
  }

  /** The characters Java's `.` does not match. */
  predicate IsLineTerminator(c: char) {
    c == '\n' || c == '\r' || c == '\U{85}' || c == '\U{2028}' || c == '\U{2029}'
  }

  /** `.*` over the whole of `s`. */
  predicate AnyChars(s: string) {
    forall i :: 0 <= i < |s| ==> !IsLineTerminator(s[i])
  }

  /** `.*` matches a concatenation exactly when it matches both parts. */
  lemma AnyCharsAppend(a: string, b: string)
    ensures AnyChars(a + b) <==> AnyChars(a) && AnyChars(b)
  {
    if AnyChars(a) && AnyChars(b) {
      forall i | 0 <= i < |a + b| ensures !IsLineTerminator((a + b)[i]) {
        if i >= |a| { assert (a + b)[i] == b[i - |a|]; }
      }
    }
    if AnyChars(a + b) {
      forall i | 0 <= i < |a| ensures !IsLineTerminator(a[i]) {
        assert (a + b)[i] == a[i];
      }
      forall i | 0 <= i < |b| ensures !IsLineTerminator(b[i]) {
        assert (a + b)[|a| + i] == b[i];
      }
    }
  }

  /** The length of the longest run of letters that `s` starts with. */
  function LeadingLetters(s: string): (k: nat)
    ensures k <= |s|
    ensures forall i :: 0 <= i < k ==> IsLetter(s[i])
    ensures k < |s| ==> !IsLetter(s[k])
    decreases |s|
  {
    if s != [] && IsLetter(s[0]) then 1 + LeadingLetters(s[1..]) else 0
  }

  /** A name followed by anything that does not start with a letter has exactly the name as leading letters. */
  lemma {:induction false} LeadingLettersOf(name: string, rest: string)
    requires IsName(name) && (rest == [] || !IsLetter(rest[0]))
    ensures LeadingLetters(name + rest) == |name|
    decreases |name|
  {
    var s := name + rest;
    assert s[0] == name[0];
    if |name| > 1 {
      assert IsName(name[1..]) by {
        forall i | 0 <= i < |name[1..]| ensures IsLetter(name[1..][i]) {
          assert name[1..][i] == name[i + 1];
        }
      }
      LeadingLettersOf(name[1..], rest);
      assert s[1..] == name[1..] + rest;
    } else {
      assert s[1..] == rest;
    }
  }

  /** `^[a-zA-Z]+$` */
  predicate IsName(s: string) {
    s != [] && forall i :: 0 <= i < |s| ==> IsLetter(s[i])
  }

  /** `^[a-zA-Z]+/.*$` */
  predicate IsNameThenPath(s: string) {
    var k := LeadingLetters(s);
    0 < k < |s| && s[k] == '/' && AnyChars(s[k + 1..])
  }

  /** `^[a-zA-Z]+\(.+\)$` */
  predicate IsFinalKeyed(s: string) {
    var k := LeadingLetters(s);
    0 < k && k + 3 <= |s| && s[k] == '(' && s[|s| - 1] == ')' && AnyChars(s[k + 1..|s| - 1])
  }

  /** `^[a-zA-Z]+\(.+\)/.*$`: a `)/` after at least one character inside the parenthesis. */
  predicate IsKeyedThenPath(s: string) {
    var k := LeadingLetters(s);
    0 < k && k + 2 <= |s| && s[k] == '(' && AnyChars(s[k + 1..]) && Contains(s[k + 2..], ")/")
  }

  /** `^[a-zA-Z]+(/[a-zA-Z]+)*$` */
  predicate IsExpandPath(s: string)
    decreases |s|
  {
    var k := LeadingLetters(s);
    0 < k && (k == |s| || (s[k] == '/' && IsExpandPath(s[k + 1..])))
  }

  /**
   * The first four path patterns exclude each other, so their order at the
   * branches of the path parser does not matter among them. The keyed pattern
   * with a path after it is the exception: see `KeyedPatternsOverlap`.
   */
  lemma PathPatternsDisjoint(s: string)
    ensures IsName(s) ==> !IsNameThenPath(s) && !IsFinalKeyed(s) && !IsKeyedThenPath(s)
    ensures IsNameThenPath(s) ==> !IsFinalKeyed(s) && !IsKeyedThenPath(s)
  {
    var k := LeadingLetters(s);
    if IsName(s) {
      assert k == |s|;
    }
  }

  /**
   * A text can match both the final keyed pattern and the keyed pattern with a
   * path after it; the parser takes the first, so the second branch never sees it.
   */
  lemma KeyedPatternsOverlap(name: string, a: string, b: string)
    requires IsName(name) && a != [] && AnyChars(a) && AnyChars(b)
    ensures var s := name + "(" + a + ")/" + b + ")";
      IsFinalKeyed(s) && IsKeyedThenPath(s)
  {
    var x := "(" + a + ")/" + b + ")";
    assert name + "(" + a + ")/" + b + ")" == name + x;
    LeadingLettersOf(name, x);
    OverlapIsFinalKeyed(name, x, a, b);
    OverlapIsKeyedThenPath(name, x, a, b);
  }

  // Proof steps of KeyedPatternsOverlap, one per pattern, kept apart for solver cost.

  lemma OverlapIsFinalKeyed(name: string, x: string, a: string, b: string)
    requires x == "(" + a + ")/" + b + ")" && AnyChars(a) && AnyChars(b) && a != []
    requires IsName(name) && LeadingLetters(name + x) == |name|
    ensures IsFinalKeyed(name + x)
  {
    var s, k := name + x, |name|;
    assert s[k] == '(' && s[|s| - 1] == ')';
    assert s[k + 1..|s| - 1] == a + ")/" + b by {
      assert s[k + 1..|s| - 1] == x[1..|x| - 1];
    }
    AnyCharsAppend(a, ")/");
    AnyCharsAppend(a + ")/", b);
  }

  lemma OverlapIsKeyedThenPath(name: string, x: string, a: string, b: string)
    requires x == "(" + a + ")/" + b + ")" && AnyChars(a) && AnyChars(b) && a != []
    requires IsName(name) && LeadingLetters(name + x) == |name|
    ensures IsKeyedThenPath(name + x)
  {
    var s, k := name + x, |name|;
    assert s[k] == '(';
    assert s[k + 1..] == a + ")/" + b + ")" by {
      assert s[k + 1..] == x[1..];
    }
    AnyCharsAppend(a, ")/");
    AnyCharsAppend(a + ")/", b);
    AnyCharsAppend(a + ")/" + b, ")");
    assert s[k + 2..] == a[1..] + ")/" + (b + ")") by {
      assert s[k + 2..] == x[2..];
    }
    ContainsMiddle(a[1..], ")/", b + ")");
  }

  /** Letters separated by single slashes, neither leading nor trailing. */
  ghost predicate IsSlashSeparatedNames(s: string) {
    && s != []
    && (forall i :: 0 <= i < |s| ==> IsLetter(s[i]) || s[i] == '/')
    && s[0] != '/' && s[|s| - 1] != '/'
    && (forall i :: 0 <= i < |s| - 1 && s[i] == '/' ==> s[i + 1] != '/')
  }

  /** The `$expand` pattern accepts exactly the slash-separated runs of letters. */
  lemma {:induction false} ExpandPathShape(s: string)
    ensures IsExpandPath(s) <==> IsSlashSeparatedNames(s)
    decreases |s|
  {
    var k := LeadingLetters(s);
    if k == 0 {
      if s != [] { assert !IsLetter(s[0]); }
    } else if k < |s| {
      var t := s[k + 1..];
      ExpandPathShape(t);
      if IsExpandPath(s) {
        assert IsSlashSeparatedNames(t);
        forall i | 0 <= i < |s| - 1 && s[i] == '/' ensures s[i + 1] != '/' {
          if i > k { assert s[i] == t[i - k - 1] && s[i + 1] == t[i - k]; }
        }
        forall i | 0 <= i < |s| ensures IsLetter(s[i]) || s[i] == '/' {
          if i > k { assert s[i] == t[i - k - 1]; }
        }
        assert s[|s| - 1] == t[|t| - 1];
      }
      if IsSlashSeparatedNames(s) {
        assert s[k] == '/';
        assert k < |s| - 1;
        assert s[k + 1] != '/';
        forall i | 0 <= i < |t| ensures IsLetter(t[i]) || t[i] == '/' {
          assert t[i] == s[k + 1 + i];
        }
        forall i | 0 <= i < |t| - 1 && t[i] == '/' ensures t[i + 1] != '/' {
          assert t[i] == s[k + 1 + i] && t[i + 1] == s[k + 2 + i];
        }
        assert t[|t| - 1] == s[|s| - 1];
        assert IsSlashSeparatedNames(t);
      }
    }
  }
}
