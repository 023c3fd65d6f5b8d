/**
 * The resource-path parser: a path such as `/Datastreams(1)/Observations`
 * becomes the ordered list of its segments. The parser works one leading
 * segment at a time, appends it to a list its caller owns and recurses on
 * what is left; a failure is thrown after the segments found so far have
 * already been appended.
 */
module ResourcePath {
  import opened Wrappers
  import opened JavaStrings
  import opened Patterns
  import opened StaVocabulary

  /** Why decoding stopped. */
  datatype PathError =
      /** A `$` segment outside the option vocabulary (an unchecked exception of `Option.valueOf`). */
    | UnknownOption(token: string)
      /** A bare name outside all three vocabularies. */
    | UnknownResource(token: string)
      /** A keyed segment that does not split on `(` into exactly two parts. */
    | MalformedIdentifier
      /** A keyed segment whose name is not an entity set. */
    | NotAnEntitySet(token: string)
      /** A segment of none of the recognised shapes. */
    | MalformedPath

  /** What one decoding leaves behind: the segments appended, in order, and the failure that ended it, if any. */
  datatype Decoded = Decoded(appended: seq<PathSegment>, failure: Option<PathError>)

  /** A segment without an identifier. */
  function Bare(c: Component): PathSegment {
    PathSegment(c, None)
  }

  /** The text before the first `sep` of a text that does not start with `sep` is non-empty and a prefix of it. */
  lemma SplitHead(s: string, sep: string)
    requires sep != [] && s != [] && s[0] != sep[0]
    ensures var r := Split(s, sep); r != [] && r[0] != [] && StartsWith(s, r[0])
  {
    if |sep| <= |s| {
      assert s[..|sep|][0] != sep[0];
    }
    assert !StartsWith(s, sep);
  }

  /** A text with a `(` in it never names an entity set. */
  lemma ParenIsNoEntitySet(first: string)
    requires |Split(first, "(")| >= 2
    ensures EntitySetByName(first) == None
  {
    ContainsChar(first, '(');
    if EntitySetByName(first).Some? {
      EntitySetNameHasNoParen(EntitySetByName(first).value);
    }
  }

  /** What the parser does with the leading part of a non-empty path. */
  datatype Step =
      /** Drop a leading `/` and go on with the rest. */
    | Skip(rest: string)
      /** Append a segment and go on with the rest. */
    | Emit(segment: PathSegment, rest: string)
      /** Append a segment and stop. */
    | Last(segment: PathSegment)
      /** Throw without appending. */
    | Fail(error: PathError)

  /**
   * One call of `decodeResourcePath` on a non-empty path. The shapes are
   * tried in a fixed order: leading slash, option, bare name, name followed
   * by more path, keyed final segment, keyed segment followed by more path.
   */
  function NextStep(path: string): (s: Step)
    requires path != []
    ensures s.Skip? || s.Emit? ==> |s.rest| < |path|
  {
    if path[0] == '/' then Skip(path[1..])
    else if path[0] == '$' then
      SplitHead(path, "/");
      var token := Split(path, "/")[0];
      match PathOptionByName(token)
      case Some(o) => Last(Bare(OptionComponent(o)))
      case None => Fail(UnknownOption(token))
    else if IsName(path) then
      match ResolveName(path)
      case Some(c) => Last(Bare(c))
      case None => Fail(UnknownResource(path))
    else if IsNameThenPath(path) then
      SplitHead(path, "/");
      var first := Split(path, "/")[0];
      match ResolveName(first)
      case None => Fail(UnknownResource(first))
      // every occurrence of `first` is removed from the path, not only the leading one
      case Some(c) => Emit(Bare(c), RemoveAll(path, first))
    else if IsFinalKeyed(path) then
      var esid := Split(path, "(");
      if |esid| != 2 then Fail(MalformedIdentifier)
      else
        match EntitySetByName(esid[0])
        case Some(s) => Last(PathSegment(EntitySetComponent(s), Some(esid[1][..|esid[1]| - 1])))
        case None => Fail(NotAnEntitySet(path))
    else if IsKeyedThenPath(path) then
      SplitHead(path, ")/");
      var first := Split(path, ")/")[0];
      var esid := Split(first, "(");
      if |esid| != 2 then Fail(MalformedIdentifier)
      else
        // the lookup is of `first`, which still holds the `(`: it never succeeds
        ParenIsNoEntitySet(first);
        match EntitySetByName(first)
        case Some(_) => assert false; Fail(MalformedPath)
        case None => Fail(NotAnEntitySet(first))
    else Fail(MalformedPath)
  }

  /** The segments `decodeResourcePath` appends for `path`, in order, and the failure that ends it, if any. */
  function DecodePath(path: string): (d: Decoded)
    ensures |d.appended| <= |path|
    decreases |path|
  {
    if path == [] then Decoded([], None)
    else
      match NextStep(path)
      case Skip(rest) => DecodePath(rest)
      case Emit(segment, rest) =>
        var d := DecodePath(rest);
        Decoded([segment] + d.appended, d.failure)
      case Last(segment) => Decoded([segment], None)
      case Fail(e) => Decoded([], Some(e))
  }

  /** The list of segments a caller hands to the parser. */
  class PathList {
    var segments: seq<PathSegment>

    constructor ()
      ensures segments == []
    {
      segments := [];
    }

    method Add(segment: PathSegment)
      modifies this
      ensures segments == old(segments) + [segment]
    {
      segments := segments + [segment];
    }
  }

  /**
   * `decodeResourcePath`: appends the segments of `path` to `list` and
   * reports the failure that stopped it; segments appended before a failure
   * stay in the list.
   */
  method DecodeResourcePath(path: string, list: PathList) returns (failure: Option<PathError>)
    modifies list
    ensures list.segments == old(list.segments) + DecodePath(path).appended
    ensures failure == DecodePath(path).failure
    decreases |path|
  {
    if path == [] {
      failure := None;
    } else {
      match NextStep(path)
      case Skip(rest) =>
        failure := DecodeResourcePath(rest, list);
      case Emit(segment, rest) =>
        list.Add(segment);
        failure := DecodeResourcePath(rest, list);
        AppendAssoc(old(list.segments), [segment], DecodePath(rest).appended);
      case Last(segment) =>
        list.Add(segment);
        failure := None;
      case Fail(e) =>
        failure := Some(e);
    }
  }

  /**
   * The grammar's promises about the result: only an entity set carries an
   * identifier, the identifier is non-empty and free of `(`, and a keyed
   * segment or an option is always the last segment.
   */
  predicate WellShaped(segments: seq<PathSegment>) {
    forall i :: 0 <= i < |segments| ==>
      && (segments[i].component.OptionComponent? || segments[i].id.Some? ==> i == |segments| - 1)
      && (segments[i].id.Some? ==>
            segments[i].component.EntitySetComponent? && segments[i].id.value != [] && '(' !in segments[i].id.value)
  }

  /** A final keyed segment `name(tail` splits into `name` and the pieces of `tail`. */
  lemma FinalKeyedPieces(path: string)
    requires IsFinalKeyed(path)
    ensures var k := LeadingLetters(path); Split(path, "(") == [path[..k]] + Pieces(path[k + 1..], "(")
  {
    var k := LeadingLetters(path);
    var name := path[..k];
    var tail := path[k + 1..];
    assert path == name + "(" + tail;
    assert '(' !in name by {
      forall i | 0 <= i < |name| ensures name[i] != '(' {
        assert IsLetter(path[i]);
      }
    }
    SplitAfterFreePrefix(name, '(', tail);
  }

  /** How a final keyed segment `name(inner)` splits on `(`. */
  lemma FinalKeyedSplit(path: string)
    requires IsFinalKeyed(path)
    ensures var k := LeadingLetters(path); var inner := path[k + 1..|path| - 1]; var esid := Split(path, "(");
      && ('(' !in inner ==> |esid| == 2 && esid[0] == path[..k] && esid[1] != [] && esid[1][..|esid[1]| - 1] == inner)
      && ('(' in inner ==> |esid| > 2)
  {
    var k := LeadingLetters(path);
    var tail := path[k + 1..];
    var inner := path[k + 1..|path| - 1];
    assert tail == inner + ")";
    FinalKeyedPieces(path);
    ContainsChar(tail, '(');
    if '(' !in inner {
      assert '(' !in tail;
      assert tail[..|tail| - 1] == inner;
    } else {
      assert '(' in tail;
    }
  }

  /**
   * A final keyed segment `name(inner)`: an entity set with identifier
   * `inner` when `inner` has no `(` and `name` is an entity set; otherwise
   * nothing is appended and decoding fails.
   */
  lemma FinalKeyedDecode(path: string)
    requires IsFinalKeyed(path)
    ensures var k := LeadingLetters(path); var name := path[..k]; var inner := path[k + 1..|path| - 1];
      && ('(' in inner ==> DecodePath(path) == Decoded([], Some(MalformedIdentifier)))
      && ('(' !in inner && EntitySetByName(name).Some? ==>
            DecodePath(path) == Decoded([PathSegment(EntitySetComponent(EntitySetByName(name).value), Some(inner))], None))
      && ('(' !in inner && EntitySetByName(name).None? ==>
            DecodePath(path) == Decoded([], Some(NotAnEntitySet(path))))
  {
    var k := LeadingLetters(path);
    var inner := path[k + 1..|path| - 1];
    assert IsLetter(path[0]) && !IsLetter(path[k]);
    assert path[0] != '/' && path[0] != '$' && !IsName(path) && !IsNameThenPath(path);
    FinalKeyedSplit(path);
  }

  /** Every path the parser accepts, in part or whole, yields well-shaped segments. */
  lemma {:induction false} DecodedIsWellShaped(path: string)
    ensures WellShaped(DecodePath(path).appended)
    decreases |path|
  {
    if path == [] {
    } else if path[0] == '/' {
      DecodedIsWellShaped(path[1..]);
    } else if path[0] == '$' {
    } else if IsName(path) {
    } else if IsNameThenPath(path) {
      SplitHead(path, "/");
      var first := Split(path, "/")[0];
      if ResolveName(first).Some? {
        var c := ResolveName(first).value;
        var rest := DecodePath(RemoveAll(path, first));
        DecodedIsWellShaped(RemoveAll(path, first));
        assert DecodePath(path).appended == [Bare(c)] + rest.appended;
        PrependKeepsShape(c, rest.appended);
      }
    } else if IsFinalKeyed(path) {
      FinalKeyedDecode(path);
      var k := LeadingLetters(path);
      var inner := path[k + 1..|path| - 1];
      assert inner != [];
    }
  }

  /** A bare entity, entity set or property in front of well-shaped segments keeps them well shaped. */
  lemma PrependKeepsShape(c: Component, segments: seq<PathSegment>)
    requires !c.OptionComponent? && WellShaped(segments)
    ensures WellShaped([Bare(c)] + segments)
  {
    var all := [Bare(c)] + segments;
    forall i | 0 <= i < |all|
      ensures (all[i].component.OptionComponent? || all[i].id.Some? ==> i == |all| - 1)
      ensures (all[i].id.Some? ==> all[i].component.EntitySetComponent? && all[i].id.value != [] && '(' !in all[i].id.value)
    {
      if i > 0 { assert all[i] == segments[i - 1]; }
    }
  }

  /** A keyed segment followed by more path is never accepted: nothing is appended and decoding fails. */
  lemma KeyedThenPathFails(path: string)
    requires IsKeyedThenPath(path) && !IsFinalKeyed(path)
    ensures DecodePath(path).appended == []
    ensures DecodePath(path).failure == Some(MalformedIdentifier)
         || (DecodePath(path).failure.Some? && DecodePath(path).failure.value.NotAnEntitySet?)
  {
    var k := LeadingLetters(path);
    assert IsLetter(path[0]) && !IsLetter(path[k]);
    assert path[0] != '/' && path[0] != '$' && !IsName(path) && !IsNameThenPath(path);
    SplitHead(path, ")/");
    var first := Split(path, ")/")[0];
    if |Split(first, "(")| == 2 {
      ParenIsNoEntitySet(first);
    }
    var step := NextStep(path);
    assert step.Fail? && (step.error == MalformedIdentifier || step.error.NotAnEntitySet?);
    assert DecodePath(path) == Decoded([], Some(step.error));
  }

  /** Nothing is appended and nothing fails exactly when the path is made of slashes only. */
  lemma {:induction false} EmptyResultOnlyForSlashes(path: string)
    ensures DecodePath(path) == Decoded([], None) <==> forall i :: 0 <= i < |path| ==> path[i] == '/'
    decreases |path|
  {
    if path != [] {
      if path[0] == '/' {
        EmptyResultOnlyForSlashes(path[1..]);
        if forall i :: 0 <= i < |path[1..]| ==> path[1..][i] == '/' {
          forall i | 0 <= i < |path| ensures path[i] == '/' {
            if i > 0 { assert path[i] == path[1..][i - 1]; }
          }
        }
      } else {
        NonSlashStartNotEmpty(path);
      }
    }
  }

  /** A path that does not start with `/` appends something or fails. */
  lemma NonSlashStartNotEmpty(path: string)
    requires path != [] && path[0] != '/'
    ensures DecodePath(path) != Decoded([], None)
  {
    var step := NextStep(path);
    OnlySlashSkipped(path);
    assert step.Emit? ==> DecodePath(path).appended == [step.segment] + DecodePath(step.rest).appended;
  }

  /** Only a leading `/` is skipped; every other first character appends, stops or throws. */
  lemma OnlySlashSkipped(path: string)
    requires path != []
    ensures NextStep(path).Skip? <==> path[0] == '/'
  {
    if path[0] != '/' {
      assert path[0] == '$' || IsName(path) || IsNameThenPath(path) || IsFinalKeyed(path)
        || IsKeyedThenPath(path) || NextStep(path) == Fail(MalformedPath);
    }
  }

  /** A text of letters holds neither a `/` nor a line terminator. */
  lemma NameHasNoSlash(n: string)
    requires IsName(n)
    ensures '/' !in n && AnyChars(n)
  {
    forall i | 0 <= i < |n| ensures n[i] != '/' && !IsLineTerminator(n[i]) {
      assert IsLetter(n[i]);
    }
  }

  /** A path that starts with `/` decodes as the path after it. */
  lemma SlashStep(rest: string)
    ensures DecodePath("/" + rest) == DecodePath(rest)
  {
    assert ("/" + rest)[0] == '/' && ("/" + rest)[1..] == rest;
  }

  /** The shape of an option followed by nothing or by `/` and more path, and the token split off it. */
  lemma OptionShape(o: PathOption, rest: string)
    requires rest == [] || rest[0] == '/'
    ensures var path := PathOptionName(o) + rest; path[0] == '$' && Split(path, "/")[0] == PathOptionName(o)
  {
    var token := PathOptionName(o);
    NameHasNoSlash(token[1..]);
    assert '/' !in token by {
      assert token == [token[0]] + token[1..];
    }
    if rest == [] {
      AbsentFirstChar(token, "/");
      assert token + rest == token;
    } else {
      PiecesAfterFreePrefix(token, "/", rest[1..]);
      assert token + rest == token + "/" + rest[1..];
    }
  }

  /** An option ends decoding: whatever follows its `/` is never looked at. */
  lemma OptionEndsPath(o: PathOption, rest: string)
    requires rest == [] || rest[0] == '/'
    ensures DecodePath(PathOptionName(o) + rest) == Decoded([Bare(OptionComponent(o))], None)
  {
    OptionShape(o, rest);
    PathOptionNameRoundTrip(o);
  }

  /** The shape of a name followed by `/` and more path, and the first piece split off it. */
  lemma NavigationShape(n: string, rest: string)
    requires IsName(n) && AnyChars(rest)
    ensures var path := n + "/" + rest;
      && path[0] != '/' && path[0] != '$' && !IsName(path) && IsNameThenPath(path)
      && Split(path, "/")[0] == n
  {
    var path := n + "/" + rest;
    LeadingLettersOf(n, "/" + rest);
    assert path == n + ("/" + rest);
    assert path[0] == n[0] && path[|n|] == '/';
    assert path[|n| + 1..] == rest;
    NameHasNoSlash(n);
    PiecesAfterFreePrefix(n, "/", rest);
  }

  /**
   * A name followed by `/` and more path: the name's component is appended
   * and decoding goes on with the path from which every occurrence of the
   * name has been deleted; a name outside the vocabularies fails.
   */
  lemma NavigationStep(n: string, rest: string)
    requires IsName(n) && AnyChars(rest)
    ensures var path := n + "/" + rest; var d := DecodePath(RemoveAll(path, n));
      && (ResolveName(n).None? ==> DecodePath(path) == Decoded([], Some(UnknownResource(n))))
      && (ResolveName(n).Some? ==> DecodePath(path) == Decoded([Bare(ResolveName(n).value)] + d.appended, d.failure))
  {
    NavigationShape(n, rest);
  }

  /** A bare name is the last segment: its component, or a failure when it is in no vocabulary. */
  lemma BareNameStep(n: string)
    requires IsName(n)
    ensures ResolveName(n).None? ==> DecodePath(n) == Decoded([], Some(UnknownResource(n)))
    ensures ResolveName(n).Some? ==> DecodePath(n) == Decoded([Bare(ResolveName(n).value)], None)
  {
    assert IsLetter(n[0]);
  }

  /** Deleting a name from itself, `/` and a text free of it leaves `/` and that text. */
  lemma RemoveLeadingName(n: string, rest: string)
    requires IsName(n) && !Contains(rest, n)
    ensures RemoveAll(n + "/" + rest, n) == "/" + rest
  {
    assert n + "/" + rest == n + ("/" + rest);
    RemoveAllLeading(n, "/" + rest);
    assert IsLetter(n[0]);
    RemoveAllKeepsHead('/', rest, n);
  }

  /** The bare segments that known names resolve to. */
  function ResolvedSegments(ns: seq<string>): (r: seq<PathSegment>)
    requires forall i :: 0 <= i < |ns| ==> ResolveName(ns[i]).Some?
    ensures |r| == |ns| && forall i :: 0 <= i < |ns| ==> r[i] == Bare(ResolveName(ns[i]).value)
    decreases |ns|
  {
    if ns == [] then [] else [Bare(ResolveName(ns[0]).value)] + ResolvedSegments(ns[1..])
  }

  /** Runs of letters joined by `/` match `.*`. */
  lemma {:induction false} JoinedNamesAnyChars(ns: seq<string>)
    requires ns != [] && forall i :: 0 <= i < |ns| ==> IsName(ns[i])
    ensures AnyChars(Join(ns, "/"))
    decreases |ns|
  {
    NameHasNoSlash(ns[0]);
    if |ns| > 1 {
      JoinedNamesAnyChars(ns[1..]);
      AnyCharsAppend(ns[0], "/");
      AnyCharsAppend(ns[0] + "/", Join(ns[1..], "/"));
    }
  }

  /** No name occurs again in the text after it. */
  predicate NoNameRecurs(ns: seq<string>) {
    forall i :: 0 <= i < |ns| - 1 ==> !Contains(Join(ns[i + 1..], "/"), ns[i])
  }

  /**
   * Known names joined by `/` decode to their components, provided no name
   * reappears later in the path (each step deletes every occurrence of the
   * name it just read).
   */
  lemma {:induction false} NamesRoundTrip(ns: seq<string>)
    requires ns != [] && forall i :: 0 <= i < |ns| ==> IsName(ns[i]) && ResolveName(ns[i]).Some?
    requires NoNameRecurs(ns)
    ensures DecodePath(Join(ns, "/")) == Decoded(ResolvedSegments(ns), None)
    decreases |ns|
  {
    var n := ns[0];
    if |ns| == 1 {
      BareNameStep(n);
    } else {
      var tail := ns[1..];
      assert NoNameRecurs(tail) by {
        forall i | 0 <= i < |tail| - 1 ensures !Contains(Join(tail[i + 1..], "/"), tail[i]) {
          assert tail[i + 1..] == ns[i + 2..] && tail[i] == ns[i + 1];
        }
      }
      NamesRoundTrip(tail);
      var rest := Join(tail, "/");
      JoinedNamesAnyChars(tail);
      assert !Contains(rest, n) by {
        assert ns[1..] == tail;
      }
      NavigationStep(n, rest);
      RemoveLeadingName(n, rest);
      SlashStep(rest);
    }
  }

  /**
   * A name repeated after a slash collapses into one segment: the second
   * occurrence is deleted together with the first (`Things/Things` gives
   * just `Things`).
   */
  lemma RepeatedNameCollapses(n: string)
    requires IsName(n) && ResolveName(n).Some?
    ensures DecodePath(n + "/" + n) == Decoded([Bare(ResolveName(n).value)], None)
  {
    NameHasNoSlash(n);
    NavigationStep(n, n);
    RemoveNameTwice(n);
    SlashStep([]);
  }

  /** Deleting `n` from `n/n` leaves the slash. */
  lemma RemoveNameTwice(n: string)
    requires IsName(n)
    ensures RemoveAll(n + "/" + n, n) == "/"
  {
    assert n + "/" + n == n + ("/" + n);
    RemoveAllLeading(n, "/" + n);
    assert IsLetter(n[0]);
    RemoveAllKeepsHead('/', n, n);
    RemoveAllLeading(n, []);
    assert n + [] == n;
  }

  /** Deleting `n` from `n/ns` leaves `/s`. */
  lemma RemoveNameWithSuffix(n: string)
    requires IsName(n) && n != "s"
    ensures RemoveAll(n + "/" + (n + "s"), n) == "/s"
  {
    assert n + "/" + (n + "s") == n + ("/" + (n + "s"));
    RemoveAllLeading(n, "/" + (n + "s"));
    assert IsLetter(n[0]);
    RemoveAllKeepsHead('/', n + "s", n);
    RemoveAllLeading(n, "s");
    assert !Contains("s", n) by {
      assert !StartsWith([], n);
      assert "s"[1..] == [];
    }
  }

  /**
   * A name followed by the same name plus `s` (`Thing/Things`) keeps the first
   * segment, then fails on the stray `s` left over once every occurrence of
   * the name has been deleted.
   */
  lemma SuffixLeftOver(n: string)
    requires IsName(n) && ResolveName(n).Some?
    ensures DecodePath(n + "/" + (n + "s")) == Decoded([Bare(ResolveName(n).value)], Some(UnknownResource("s")))
  {
    NameHasNoSlash(n);
    AnyCharsAppend(n, "s");
    NavigationStep(n, n + "s");
    StrayLetterUnknown();
    RemoveNameWithSuffix(n);
    StrayLetterFails();
  }

  // Proof steps of SuffixLeftOver: facts about the literal `s`, each kept in
  // a lemma of its own so that the proof stays small.

  lemma StrayLetterUnknown()
    ensures ResolveName("s") == None
  {
  }

  /** The `/s` left over is no name of any vocabulary. */
  lemma StrayLetterFails()
    ensures DecodePath("/s") == Decoded([], Some(UnknownResource("s")))
  {
    StrayLetterUnknown();
    SlashStep("s");
    BareNameStep("s");
  }
}
