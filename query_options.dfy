/**
 * The query string of a SensorThings request (`$count=true&$top=5&$skip=2`)
 * decoded into an insertion-ordered map from query option to value, as
 * `StaBinding.decodeQueryOptions` does it.
 */
module QueryOptions {
  import opened Wrappers
  import opened JavaStrings
  import opened JavaIntegers
  import opened Patterns

  datatype QueryOption = Count | Skip | Top | Expand | Filter | OrderBy | Select

  function QueryOptionName(q: QueryOption): (r: string)
    ensures |r| > 1 && r[0] == '$' && '=' !in r && '&' !in r
  {
    match q
    case Count => "$count"
    case Skip => "$skip"
    case Top => "$top"
    case Expand => "$expand"
    case Filter => "$filter"
    case OrderBy => "$orderby"
    case Select => "$select"
  }

  /** `Enums.getIfPresent(QueryOption.class, name)`: exact and case-sensitive. */
  function QueryOptionByName(name: string): (r: Option<QueryOption>)
    ensures r.Some? ==> QueryOptionName(r.value) == name
    ensures r.None? ==> forall q: QueryOption :: QueryOptionName(q) != name
  {
    if name == "$count" then Some(Count)
    else if name == "$skip" then Some(Skip)
    else if name == "$top" then Some(Top)
    else if name == "$expand" then Some(Expand)
    else if name == "$filter" then Some(Filter)
    else if name == "$orderby" then Some(OrderBy)
    else if name == "$select" then Some(Select)
    else None
  }

  lemma QueryOptionNameRoundTrip(q: QueryOption)
    ensures QueryOptionByName(QueryOptionName(q)) == Some(q)
  {
  }

  /**
   * The two exceptions that escape the decoder; both are unchecked, so
   * neither becomes a coded exception report.
   */
  datatype QueryError =
    | /** ArrayIndexOutOfBoundsException: the component splits into fewer than two pieces at `=`. */
      MissingValue(component: string)
    | /** NumberFormatException from `Integer.parseInt` on a `$skip` or `$top` value. */
      NotAnInteger(option: QueryOption, value: string)

  datatype Entry = Entry(option: QueryOption, value: string)

  /** The contents of a `LinkedHashMap`: its keys in insertion order, and the value of each. */
  datatype OrderedMap = OrderedMap(keys: seq<QueryOption>, values: map<QueryOption, string>)
  {
    predicate Valid() {
      && (forall i, j :: 0 <= i < j < |keys| ==> keys[i] != keys[j])
      && (forall k :: k in values <==> k in keys)
    }
  }

  const EmptyMap := OrderedMap([], map[])

  /**
   * `LinkedHashMap.put`: the option now maps to the new value, every other
   * option keeps its value, and no option already present moves; a new
   * option goes last.
   */
  function WithEntry(m: OrderedMap, e: Entry): (r: OrderedMap)
    ensures m.Valid() ==> r.Valid()
    ensures e.option in r.values && r.values[e.option] == e.value
    ensures forall k :: k in m.values && k != e.option ==> k in r.values && r.values[k] == m.values[k]
    ensures m.keys <= r.keys
    ensures forall k :: k in r.keys <==> k in m.keys || k == e.option
  {
    OrderedMap(if e.option in m.keys then m.keys else m.keys + [e.option], m.values[e.option := e.value])
  }

  /** The only values the decoder ever stores under each option. */
  predicate Storable(q: QueryOption, v: string) {
    match q
    case Count => v == "true" || v == "false"
    case Skip | Top => ParseInt(v).Some? && IntToString(ParseInt(v).value) == v
    case Expand => IsExpandPath(v)
    case Filter | OrderBy | Select => false
  }

  /**
   * The switch on a recognised option with a non-empty value: what is put
   * under the option, if anything. `$filter`, `$orderby` and `$select` are
   * accepted and dropped.
   */
  function OptionValue(q: QueryOption, value: string): (r: Result<Option<string>, QueryError>)
    ensures r.Failure? <==> (q == Skip || q == Top) && ParseInt(value).None?
    ensures r.Failure? ==> r.error == NotAnInteger(q, value)
    ensures (q == Skip || q == Top) && ParseInt(value).Some? ==>
              r == Success(Some(IntToString(ParseInt(value).value)))
    ensures q == Count ==> r == Success(if value == "true" || value == "false" then Some(value) else None)
    ensures q == Expand ==> r == Success(if IsExpandPath(value) then Some(value) else None)
    ensures (q == Filter || q == OrderBy || q == Select) ==> r == Success(None)
  {
    match q
    case Count => Success(if value == "true" || value == "false" then Some(value) else None)
    case Skip | Top =>
      (match ParseInt(value)
       case None => Failure(NotAnInteger(q, value))
       case Some(n) => Success(Some(IntToString(n))))
    case Expand => Success(if IsExpandPath(value) then Some(value) else None)
    case Filter | OrderBy | Select => Success(None)
  }

  /** A stored value is what the switch stores for it. */
  lemma OptionValueStorable(q: QueryOption, value: string)
    ensures OptionValue(q, value).Success? && OptionValue(q, value).value.Some? ==>
              Storable(q, OptionValue(q, value).value.value)
    ensures Storable(q, value) ==> OptionValue(q, value) == Success(Some(value))
  {
    if (q == Skip || q == Top) && ParseInt(value).Some? {
      ParseIntRoundTrip(ParseInt(value).value);
    }
  }

  /**
   * The effect of one `key=value` component: an exception, nothing, or one
   * entry to put. The value is the second piece of `split("=")`, so a
   * component without `=`, or with nothing after it, has no value at all.
   */
  function ComponentEffect(component: string): (r: Result<Option<Entry>, QueryError>)
    ensures r.Success? && r.value.Some? ==> Storable(r.value.value.option, r.value.value.value)
  {
    var keyValue := Split(component, "=");
    if |keyValue| < 2 then Failure(MissingValue(component))
    else if keyValue[1] == [] then Success(None)
    else
      match QueryOptionByName(keyValue[0])
      case None => Success(None)
      case Some(q) =>
        OptionValueStorable(q, keyValue[1]);
        match OptionValue(q, keyValue[1])
        case Failure(e) => Failure(e)
        case Success(None) => Success(None)
        case Success(Some(v)) => Success(Some(Entry(q, v)))
  }

  /** The components in order, each put into the map, stopping at the first exception. */
  function Apply(m: OrderedMap, components: seq<string>): Result<OrderedMap, QueryError>
    decreases |components|
  {
    if components == [] then Success(m)
    else
      match ComponentEffect(components[0])
      case Failure(e) => Failure(e)
      case Success(None) => Apply(m, components[1..])
      case Success(Some(e)) => Apply(WithEntry(m, e), components[1..])
  }

  /** The decoded query string; the empty string decodes to the empty map. */
  function DecodeQuery(options: string): Result<OrderedMap, QueryError> {
    if options == [] then Success(EmptyMap) else Apply(EmptyMap, Split(options, "&"))
  }

  /** `decodeQueryOptions` for a non-null query string. */
  method DecodeQueryOptions(options: string) returns (r: Result<OrderedMap, QueryError>)
    ensures r == DecodeQuery(options)
  {
    if options == [] {
      return Success(EmptyMap);
    }
    var components := Split(options, "&");
    var m := EmptyMap;
    for i := 0 to |components|
      invariant Apply(EmptyMap, components) == Apply(m, components[i..])
    {
      var component := components[i];
      ApplyStep(m, components, i);
      ghost var effect := ComponentEffect(component);
      var keyValue := Split(component, "=");
      if |keyValue| < 2 {
        assert effect == Failure(MissingValue(component));
        return Failure(MissingValue(component));
      }
      var value := keyValue[1];
      if value == [] {
        assert effect == Success(None);
      } else {
        var key := QueryOptionByName(keyValue[0]);
        if key.None? {
          assert effect == Success(None);
        } else {
          match key.value
          case Count =>
            if value == "true" || value == "false" {
              assert effect == Success(Some(Entry(Count, value)));
              m := WithEntry(m, Entry(Count, value));
            } else {
              assert effect == Success(None);
            }
          case Skip | Top =>
            var n := ParseInt(value);
            if n.None? {
              assert effect == Failure(NotAnInteger(key.value, value));
              return Failure(NotAnInteger(key.value, value));
            }
            assert effect == Success(Some(Entry(key.value, IntToString(n.value))));
            m := WithEntry(m, Entry(key.value, IntToString(n.value)));
          case Expand =>
            if IsExpandPath(value) {
              assert effect == Success(Some(Entry(Expand, value)));
              m := WithEntry(m, Entry(Expand, value));
            } else {
              assert effect == Success(None);
            }
          case Filter | OrderBy | Select =>
            assert effect == Success(None);
        }
      }
    }
    return Success(m);
  }

  /** `Apply` on the components from `i` on, one component at a time. */
  lemma ApplyStep(m: OrderedMap, components: seq<string>, i: nat)
    requires i < |components|
    ensures var effect := ComponentEffect(components[i]);
      && (effect.Failure? ==> Apply(m, components[i..]) == Failure(effect.error))
      && (effect == Success(None) ==> Apply(m, components[i..]) == Apply(m, components[i + 1..]))
      && (effect.Success? && effect.value.Some? ==>
            Apply(m, components[i..]) == Apply(WithEntry(m, effect.value.value), components[i + 1..]))
  {
    assert components[i..][0] == components[i] && components[i..][1..] == components[i + 1..];
  }

  /** What each component does, in order. */
  function Effects(components: seq<string>): (r: seq<Result<Option<Entry>, QueryError>>)
    ensures |r| == |components| && forall i :: 0 <= i < |components| ==> r[i] == ComponentEffect(components[i])
  {
    seq(|components|, i requires 0 <= i < |components| => ComponentEffect(components[i]))
  }

  /** Index of the first effect that is an exception, or `|effects|` when there is none. */
  function FirstFailure(effects: seq<Result<Option<Entry>, QueryError>>): (i: nat)
    ensures i <= |effects|
    ensures forall j :: 0 <= j < i ==> effects[j].Success?
    ensures i < |effects| ==> effects[i].Failure?
    decreases |effects|
  {
    if effects == [] || effects[0].Failure? then 0
    else FirstFailure(effects[1..]) + 1
  }

  /**
   * Decoding fails exactly when some component throws, with the exception
   * of the first one that does; what was decoded before it is lost.
   */
  lemma {:induction false} ApplyFailsAtFirstError(m: OrderedMap, components: seq<string>)
    ensures var effects := Effects(components);
      && (Apply(m, components).Failure? <==> FirstFailure(effects) < |components|)
      && (Apply(m, components).Failure? ==> Apply(m, components).error == effects[FirstFailure(effects)].error)
    decreases |components|
  {
    if components != [] && ComponentEffect(components[0]).Success? {
      var rest := components[1..];
      assert Effects(components)[1..] == Effects(rest);
      assert FirstFailure(Effects(components)) == FirstFailure(Effects(rest)) + 1;
      match ComponentEffect(components[0]).value
      case None => ApplyFailsAtFirstError(m, rest);
      case Some(e) => ApplyFailsAtFirstError(WithEntry(m, e), rest);
    }
  }

  /**
   * A successful decode keeps the map well formed, never moves an option
   * already present, and stores only values the switch accepts.
   */
  lemma {:induction false} ApplyKeepsMap(m: OrderedMap, components: seq<string>)
    requires m.Valid() && forall k :: k in m.values ==> Storable(k, m.values[k])
    requires Apply(m, components).Success?
    ensures var r := Apply(m, components).value;
      && r.Valid() && m.keys <= r.keys
      && forall k :: k in r.values ==> Storable(k, r.values[k])
    decreases |components|
  {
    if components != [] {
      match ComponentEffect(components[0]).value
      case None => ApplyKeepsMap(m, components[1..]);
      case Some(e) =>
        var m' := WithEntry(m, e);
        assert forall k :: k in m'.values ==> Storable(k, m'.values[k]);
        ApplyKeepsMap(m', components[1..]);
    }
  }

  /** Whatever a query string decodes to is a well-formed map of accepted values. */
  lemma DecodedMapIsValid(options: string)
    requires DecodeQuery(options).Success?
    ensures DecodeQuery(options).value.Valid()
    ensures var r := DecodeQuery(options).value;
      forall k :: k in r.values ==> k in {Count, Skip, Top, Expand} && Storable(k, r.values[k])
  {
    if options != [] {
      ApplyKeepsMap(EmptyMap, Split(options, "&"));
    }
  }

  /** A component with no `=` throws: `$filter` alone has no value to index. */
  lemma NoValueThrows(component: string)
    requires '=' !in component
    ensures ComponentEffect(component) == Failure(MissingValue(component))
  {
    AbsentFirstChar(component, "=");
  }

  /**
   * A trailing `=` with nothing after it throws too, because `split` drops
   * the trailing empty piece: `$top=` is not an empty value but no value.
   */
  lemma EmptyValueThrows(key: string)
    requires '=' !in key
    ensures ComponentEffect(key + "=") == Failure(MissingValue(key + "="))
  {
    AbsentFirstChar([], "=");
    PiecesAfterFreePrefix(key, "=", []);
    assert key + "=" + [] == key + "=";
    assert Pieces(key + "=", "=") == [key, []];
  }

  /** An unknown key is skipped, whatever its value. */
  lemma UnknownOptionSkipped(key: string, value: string)
    requires '=' !in key && '=' !in value && value != []
    requires QueryOptionByName(key).None?
    ensures ComponentEffect(key + "=" + value) == Success(None)
  {
    ComponentSplit(key, value);
  }

  lemma ComponentSplit(key: string, value: string)
    requires '=' !in key && '=' !in value && value != []
    ensures Split(key + "=" + value, "=") == [key, value]
  {
    AbsentFirstChar(value, "=");
    PiecesAfterFreePrefix(key, "=", value);
    SplitKeepsNonEmptyLast(key + "=" + value, "=");
  }

  /** `key=value` for a known option decodes through the switch on that option. */
  lemma KnownOptionComponent(q: QueryOption, value: string)
    requires '=' !in value && value != []
    ensures var r := ComponentEffect(QueryOptionName(q) + "=" + value);
      && (r.Failure? <==> OptionValue(q, value).Failure?)
      && (r.Failure? ==> r.error == NotAnInteger(q, value))
      && (r.Success? ==> (r.value.Some? <==> OptionValue(q, value).value.Some?))
      && (r.Success? && r.value.Some? ==> r.value.value == Entry(q, OptionValue(q, value).value.value))
  {
    ComponentSplit(QueryOptionName(q), value);
    QueryOptionNameRoundTrip(q);
  }

  /** Values that are stored never hold the `=` and `&` the query string is split at. */
  lemma StorableChars(q: QueryOption, v: string)
    requires Storable(q, v)
    ensures v != [] && '=' !in v && '&' !in v
  {
    match q
    case Skip | Top =>
      IntToStringChars(ParseInt(v).value);
    case Expand =>
      ExpandPathShape(v);
    case Count =>
  }

  /** `option=value`, one component as a client writes it. */
  function Render(e: Entry): string {
    QueryOptionName(e.option) + "=" + e.value
  }

  function RenderAll(es: seq<Entry>): (r: seq<string>)
    ensures |r| == |es| && forall i :: 0 <= i < |es| ==> r[i] == Render(es[i])
  {
    seq(|es|, i requires 0 <= i < |es| => Render(es[i]))
  }

  /** Each entry put in turn. */
  function PutAll(m: OrderedMap, es: seq<Entry>): OrderedMap
    decreases |es|
  {
    if es == [] then m else PutAll(WithEntry(m, es[0]), es[1..])
  }

  /** A rendered component with a storable value decodes to the entry it came from. */
  lemma RenderedComponent(e: Entry)
    requires Storable(e.option, e.value)
    ensures ComponentEffect(Render(e)) == Success(Some(e))
  {
    StorableChars(e.option, e.value);
    KnownOptionComponent(e.option, e.value);
    OptionValueStorable(e.option, e.value);
  }

  lemma {:induction false} ApplyRendered(m: OrderedMap, es: seq<Entry>)
    requires forall i :: 0 <= i < |es| ==> Storable(es[i].option, es[i].value)
    ensures Apply(m, RenderAll(es)) == Success(PutAll(m, es))
    decreases |es|
  {
    if es != [] {
      RenderedComponent(es[0]);
      assert RenderAll(es)[1..] == RenderAll(es[1..]);
      ApplyRendered(WithEntry(m, es[0]), es[1..]);
    }
  }

  /**
   * Writing entries with storable values as a query string and decoding it
   * puts each entry in turn, in the order written.
   */
  lemma QueryRoundTrip(es: seq<Entry>)
    requires es != [] && forall i :: 0 <= i < |es| ==> Storable(es[i].option, es[i].value)
    ensures DecodeQuery(Join(RenderAll(es), "&")) == Success(PutAll(EmptyMap, es))
  {
    var parts := RenderAll(es);
    forall i | 0 <= i < |parts| ensures '&' !in parts[i] {
      StorableChars(es[i].option, es[i].value);
    }
    SplitOfJoin(parts, '&');
    ApplyRendered(EmptyMap, es);
  }

  /** A repeated option keeps the place of its first occurrence and the value of its last. */
  lemma RepeatedOptionExample()
    ensures DecodeQuery("$top=1&$count=true&$top=2")
         == Success(OrderedMap([Top, Count], map[Top := "2", Count := "true"]))
  {
    var es := [Entry(Top, "1"), Entry(Count, "true"), Entry(Top, "2")];
    SmallIntegersStorable();
    QueryRoundTrip(es);
    RepeatedOptionText(es);
    RepeatedOptionPuts(es[0], es[1], es[2]);
  }

  // Proof steps of RepeatedOptionExample: facts about its literal texts, each
  // kept in a lemma of its own so that the example's proof stays small.

  lemma SmallIntegersStorable()
    ensures Storable(Top, "1") && Storable(Top, "2")
  {
    assert ParseInt("1") == Some(1) && IntToString(1) == "1";
    assert ParseInt("2") == Some(2) && IntToString(2) == "2";
  }

  lemma RepeatedOptionText(es: seq<Entry>)
    requires es == [Entry(Top, "1"), Entry(Count, "true"), Entry(Top, "2")]
    ensures Join(RenderAll(es), "&") == "$top=1&$count=true&$top=2"
  {
    var parts := RenderAll(es);
    assert parts == [Render(es[0]), Render(es[1]), Render(es[2])];
    JoinThree(Render(es[0]), Render(es[1]), Render(es[2]), "&");
    RepeatedOptionRendered();
    RepeatedOptionJoined();
  }

  lemma JoinThree(a: string, b: string, c: string, sep: string)
    ensures Join([a, b, c], sep) == a + sep + (b + sep + c)
  {
    assert [a, b, c][1..] == [b, c] && [b, c][1..] == [c];
    assert Join([c], sep) == c;
    assert Join([b, c], sep) == b + sep + c;
  }

  lemma RepeatedOptionRendered()
    ensures Render(Entry(Top, "1")) == "$top=1"
    ensures Render(Entry(Count, "true")) == "$count=true"
    ensures Render(Entry(Top, "2")) == "$top=2"
  {
  }

  lemma RepeatedOptionJoined()
    ensures "$top=1" + "&" + ("$count=true" + "&" + "$top=2") == "$top=1&$count=true&$top=2"
  {
  }

  /** Putting an option, another one, then the first again: two keys in first-put order, the first holding its last value. */
  lemma RepeatedOptionPuts(a: Entry, b: Entry, c: Entry)
    requires a.option == c.option && a.option != b.option
    ensures PutAll(EmptyMap, [a, b, c]) == OrderedMap([a.option, b.option], map[a.option := c.value, b.option := b.value])
  {
    var es := [a, b, c];
    var m1 := WithEntry(EmptyMap, a);
    var m2 := WithEntry(m1, b);
    assert m2.keys == [a.option, b.option];
    var m3 := WithEntry(m2, c);
    assert m3.keys == [a.option, b.option];
    assert m3.values == map[a.option := c.value, b.option := b.value];
    assert es[1..] == [b, c] && es[1..][1..] == [c] && [c][1..] == [];
    assert PutAll(EmptyMap, es) == PutAll(m2, [c]) == m3;
  }

  /** A query string of a single component decodes that component alone. */
  lemma SingleComponent(component: string)
    requires component != [] && '&' !in component
    ensures var effect := ComponentEffect(component);
      && (effect.Failure? ==> DecodeQuery(component) == Failure(effect.error))
      && (effect == Success(None) ==> DecodeQuery(component) == Success(EmptyMap))
      && (effect.Success? && effect.value.Some? ==> DecodeQuery(component) == Success(WithEntry(EmptyMap, effect.value.value)))
  {
    AbsentFirstChar(component, "&");
    assert Split(component, "&") == [component];
    assert [component][1..] == [];
  }

  /** `$top=05` is stored as `5`: the switch keeps `Integer.parseInt`'s value rendered back, not the text given. */
  lemma LeadingZeroTopExample()
    ensures DecodeQuery("$top=05") == Success(WithEntry(EmptyMap, Entry(Top, "5")))
  {
    LeadingZeroTopComponent();
    assert "$top=05" != [] && '&' !in "$top=05";
    SingleComponent("$top=05");
  }

  lemma LeadingZeroTopComponent()
    ensures ComponentEffect("$top=05") == Success(Some(Entry(Top, "5")))
  {
    assert ParseInt("05") == Some(5) && IntToString(5) == "5" by {
      ParseIntExample();
    }
    assert OptionValue(Top, "05") == Success(Some("5"));
    assert "$top=05" == QueryOptionName(Top) + "=" + "05";
    KnownOptionComponent(Top, "05");
  }

  /** `$top=abc` ends the decoding with the NumberFormatException of `Integer.parseInt`. */
  lemma NonNumericTopExample()
    ensures DecodeQuery("$top=abc") == Failure(NotAnInteger(Top, "abc"))
  {
    NonNumericTopComponent();
    TopAbcIsOneComponent();
    SingleComponent("$top=abc");
  }

  // Proof steps of NonNumericTopExample: facts about its literal texts, each
  // kept in a lemma of its own so that the example's proof stays small.

  lemma TopAbcIsOneComponent()
    ensures "$top=abc" != [] && '&' !in "$top=abc"
  {
  }

  lemma NonNumericTopComponent()
    ensures ComponentEffect("$top=abc") == Failure(NotAnInteger(Top, "abc"))
  {
    NonNumericValue();
    TopAbcText();
    KnownOptionComponent(Top, "abc");
  }

  lemma NonNumericValue()
    ensures ParseInt("abc").None? && '=' !in "abc"
  {
  }

  lemma TopAbcText()
    ensures "$top=abc" == QueryOptionName(Top) + "=" + "abc"
  {
  }
}
