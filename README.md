# SensorThings request parsing of the 52North iceland STA binding

This project models how `StaBinding` turns an HTTP request into an OWS service request. `StaBinding` is the SensorThings API binding of 52North iceland. The request passes through the stages below in order, and the first stage that fails decides the outcome:

1. **Decodable path** (`extractDecodablePath`). The configured service URL loses its `protocol://` and its authority. What is left, followed by the binding endpoint `/sta`, is then cut out of the request URI, at every occurrence.
2. **Version gate.** The decodable path must start with `/v1.0`. The resource path is that path with every `/v1.0` deleted.
3. **Resource path** (`decodeResourcePath`). This is a recursive parser that appends typed path segments to a list owned by its caller:
   - an entity, an entity set, an entity property, or a `$` option;
   - only an entity set written `name(id)` carries an identifier.
4. **Query string** (`decodeQueryOptions`). The string is split at `&` and at `=`. Components are checked against the OData-style option vocabulary and put into an insertion-ordered map. `parseRequest` then throws the map away.
5. **Classification and dispatch.**
   - The resource is the last entity or entity set among the last three segments.
   - Only GET proceeds. Observations selects a decoder key: "with id" when the segment has a non-empty identifier.
   - A single Datastream builds a GetDatastreams request.
   - Every other resource type leaves the request null.

`getConformanceClasses` is modelled as well.

Modules:
- `Wrappers`: `Option` and `Result`.
- `JavaStrings`: `String.startsWith`, `contains`, `replace(t, "")` (which removes every occurrence), `split` (which drops trailing empty pieces) and `trim`.
- `JavaIntegers`: `Integer.parseInt` within 32 bits, and `String.valueOf`.
- `Patterns`: the regular expressions, written as predicates.
- `StaVocabulary`: the closed vocabularies, looked up exactly and case-sensitively.
- `PathNormalizer`: stages 1 and 2.
- `ResourcePath`:
  - the spec function `DecodePath`;
  - the caller-owned `PathList` class;
  - the recursive method `DecodeResourcePath`, proved against `DecodePath`.
- `QueryOptions`:
  - the fold `DecodeQuery`;
  - the loop method `DecodeQueryOptions`, proved against `DecodeQuery`;
  - the `LinkedHashMap` contents as `OrderedMap`.
- `Binding`:
  - the staged `RequestOutcome`;
  - the `StaBinding` class, whose `ParseRequest` method is proved against `RequestOutcome`.

The code is modelled as written, including where it departs from what its comments or a reader would expect:

- `replace` deletes every occurrence. For example, `Things/Things` decodes to a single segment, and `Thing/Things` leaves a stray `s` that fails.
- The branch for a keyed segment followed by more path always fails. It looks up the text that still holds the `(`, so a path such as `Datastreams(1)/Observations` is rejected.
- A query component with no `=`, or with nothing after it, has no value at index 1. Its `ArrayIndexOutOfBoundsException` escapes the binding.
- A `$skip` or `$top` value that is not an integer ends decoding with an unchecked `NumberFormatException`, not with a coded report.
- An unknown `$` path option makes `Option.valueOf` throw an unchecked `IllegalArgumentException`.
- Resource types whose branch of the GET switch is empty give a null request, not a failure.
- The request pair written in the comments of `parseRequest` (URI `/52n-sos-webapp/sta/v1.0/Datastreams` under service URL `…/52n-sos-webapp/service`) is rejected as an unsupported version, because the URI does not hold the service path followed by `/sta`. The pair in the documentation of `extractDecodablePath` is accepted.

`RequestError.IsReported` tells which failures the binding reports as a `NoApplicableCodeException` and which ones escape unchecked.

## Model

Source cells are relative to the repository root. `StaBinding.java` stands for `core/src/main/java/org/n52/iceland/binding/sta/StaBinding.java`; each cell spells the path out in full.

| member | source | states |
|---|---|---|
| PathNormalizer.DecodablePath | core/src/main/java/org/n52/iceland/binding/sta/StaBinding.java:366-378 | A decodable path exists exactly when the service URL parses. It is never longer than the request URI, and it is the request URI unchanged when the service path plus `/sta` does not occur in it. |
| PathNormalizer.DecodablePathStripsPrefix | core/src/main/java/org/n52/iceland/binding/sta/StaBinding.java:377 | A request URI made of the service path, `/sta` and a rest in which that text does not occur again decodes to the rest. |
| PathNormalizer.ServicePathOfUrl | core/src/main/java/org/n52/iceland/binding/sta/StaBinding.java:368-375 | For a service URL `protocol://authority/path` where neither removal finds a second occurrence, the service path is `/path`. |
| PathNormalizer.DecodablePathOfUrl | core/src/main/java/org/n52/iceland/binding/sta/StaBinding.java:366-378 | For a service URL `protocol://authority/path` with a non-empty authority, where neither the removal of `protocol://` (:369) nor that of the authority (:374) finds a second occurrence, the request URI `/path/sta` + rest decodes to the rest, provided the rest does not itself contain `/path/sta`. |
| PathNormalizer.DecodablePathIsJoinedPieces | core/src/main/java/org/n52/iceland/binding/sta/StaBinding.java:377 | Every occurrence of the service path plus `/sta` is deleted, wherever it stands: the decodable path is the text between the occurrences, put together. |
| PathNormalizer.DecodablePathRepeatedPrefix | core/src/main/java/org/n52/iceland/binding/sta/StaBinding.java:377 | A URI holding the prefix twice loses both occurrences, not only the leading one. |
| PathNormalizer.DecodablePathExample | core/src/main/java/org/n52/iceland/binding/sta/StaBinding.java:360-365 | The documented example: the service URL `http://localhost:8080/52n-sos-webapp/service` with the URI `/52n-sos-webapp/service/sta/v1.0/Datastreams` gives `/v1.0/Datastreams`. |
| PathNormalizer.ServicePath | core/src/main/java/org/n52/iceland/binding/sta/StaBinding.java:368-375 | The deployment path is the service URL with every `protocol://` and (when there is one) every occurrence of the authority deleted; it is never longer than the URL. |
| PathNormalizer.ResourcePathOf | core/src/main/java/org/n52/iceland/binding/sta/StaBinding.java:179-186 | A resource path exists exactly when the decodable path starts with `/v1.0`. It is the text after that prefix with every further `/v1.0` deleted, and that text itself when it holds no `/v1.0`. |
| Binding.VersionGateExample | core/src/main/java/org/n52/iceland/binding/sta/StaBinding.java:179-181 | `/v1.0/Datastreams` passes the gate with resource path `/Datastreams`. |
| StaVocabulary.ResolveName | core/src/main/java/org/n52/iceland/binding/sta/StaBinding.java:408-419 | A name resolves to a non-option component that has exactly that name. When it does not resolve, no entity, entity set or property has that name. |
| StaVocabulary.EntityByName | core/src/main/java/org/n52/iceland/binding/sta/StaBinding.java:408-409 | `Enums.getIfPresent` on the entities: the entity with exactly that name, and none only when no entity has it. |
| StaVocabulary.EntitySetByName | core/src/main/java/org/n52/iceland/binding/sta/StaBinding.java:411-412 | The same exact lookup over the entity sets (also used at :448 and :467). |
| StaVocabulary.ParameterByName | core/src/main/java/org/n52/iceland/binding/sta/StaBinding.java:414-415 | The same exact lookup over the properties. |
| StaVocabulary.PathOptionByName | core/src/main/java/org/n52/iceland/binding/sta/StaBinding.java:400-401 | `Option.valueOf` on the path options: the option with exactly that name, and none only when no option has it. |
| StaVocabulary.ResolveNameRoundTrip | core/src/main/java/org/n52/iceland/binding/sta/StaBinding.java:408-415 | Every entity, entity set and property is found again by its own name. |
| StaVocabulary.EntitySetIsNoEntity | core/src/main/java/org/n52/iceland/binding/sta/StaBinding.java:408-412 | An entity set's name is no entity's name, so the order of the lookups (entity first) never matters. |
| StaVocabulary.ParameterIsNoEntityOrSet | core/src/main/java/org/n52/iceland/binding/sta/StaBinding.java:408-415 | A property's name is neither an entity's nor an entity set's name. |
| StaVocabulary.EntityNameRoundTrip | core/src/main/java/org/n52/iceland/binding/sta/StaBinding.java:408-409 | The entity lookup finds every entity by its name. |
| StaVocabulary.EntitySetNameRoundTrip | core/src/main/java/org/n52/iceland/binding/sta/StaBinding.java:411-412 | The entity-set lookup finds every entity set by its name. |
| StaVocabulary.ParameterNameRoundTrip | core/src/main/java/org/n52/iceland/binding/sta/StaBinding.java:414-415 | The property lookup finds every property by its name. |
| StaVocabulary.PathOptionNameRoundTrip | core/src/main/java/org/n52/iceland/binding/sta/StaBinding.java:400-401 | The path-option lookup finds every option by its name. |
| StaVocabulary.EntitySetNameHasNoParen | core/src/main/java/org/n52/iceland/binding/sta/StaBinding.java:467 | No entity-set name holds `(`, which is why the lookup at line 467 never succeeds. |
| ResourcePath.NextStep | core/src/main/java/org/n52/iceland/binding/sta/StaBinding.java:390-481 | Every step that goes on recurses on a strictly shorter path, so decoding terminates. |
| ResourcePath.DecodePath | core/src/main/java/org/n52/iceland/binding/sta/StaBinding.java:385-483 | A path yields at most as many segments as it has characters. |
| ResourcePath.PathList.constructor | core/src/main/java/org/n52/iceland/binding/sta/StaBinding.java:189 | A fresh list is empty. |
| ResourcePath.PathList.Add | core/src/main/java/org/n52/iceland/binding/sta/StaBinding.java:401 | `list.add` puts the segment at the end and leaves the earlier ones in place. |
| ResourcePath.DecodeResourcePath | core/src/main/java/org/n52/iceland/binding/sta/StaBinding.java:385-483 | The list is the old list followed by the decoded segments, in order, and earlier entries never change. The segments appended before a failure stay in the list, and the failure reported is the decoder's. |
| ResourcePath.DecodedIsWellShaped | core/src/main/java/org/n52/iceland/binding/sta/StaBinding.java:397-456 | In whatever is appended: only an entity set carries an identifier, and that identifier is non-empty and free of `(`. A keyed segment or an option is always the last segment. |
| ResourcePath.FinalKeyedDecode | core/src/main/java/org/n52/iceland/binding/sta/StaBinding.java:440-456 | `name(inner)` as the last token gives the entity set `name` with identifier `inner`. It fails with the identifier-format error when `inner` holds `(`, and with "not an EntitySet" when `name` is no entity set. |
| ResourcePath.KeyedThenPathFails | core/src/main/java/org/n52/iceland/binding/sta/StaBinding.java:458-476 | A keyed segment followed by more path appends nothing and always fails. |
| ResourcePath.ParenIsNoEntitySet | core/src/main/java/org/n52/iceland/binding/sta/StaBinding.java:461-467 | A text that splits at `(` into two or more parts is never an entity set's name. |
| Patterns.IsName | core/src/main/java/org/n52/iceland/binding/sta/StaBinding.java:405 | `^[a-zA-Z]+$`: a non-empty text of letters only. |
| Patterns.IsNameThenPath | core/src/main/java/org/n52/iceland/binding/sta/StaBinding.java:421 | `^[a-zA-Z]+/.*$`: letters, a `/`, then any text without a line terminator. |
| Patterns.IsFinalKeyed | core/src/main/java/org/n52/iceland/binding/sta/StaBinding.java:440 | `^[a-zA-Z]+\(.+\)$`: letters, `(`, at least one character that is no line terminator, and a final `)`. |
| Patterns.IsKeyedThenPath | core/src/main/java/org/n52/iceland/binding/sta/StaBinding.java:458 | `^[a-zA-Z]+\(.+\)/.*$`: letters, `(`, and a later `)/` with at least one character between. |
| Patterns.PathPatternsDisjoint | core/src/main/java/org/n52/iceland/binding/sta/StaBinding.java:405-458 | A bare name matches none of the other three path patterns, and a name followed by a path matches neither keyed pattern. |
| Patterns.KeyedPatternsOverlap | core/src/main/java/org/n52/iceland/binding/sta/StaBinding.java:440-458 | `name(a)/b)` matches both keyed patterns, so the branch order decides and the keyed-then-path branch never sees such a path. |
| ResourcePath.EmptyResultOnlyForSlashes | core/src/main/java/org/n52/iceland/binding/sta/StaBinding.java:387-392 | Nothing is appended and nothing fails exactly when the path consists of slashes only. |
| ResourcePath.OnlySlashSkipped | core/src/main/java/org/n52/iceland/binding/sta/StaBinding.java:390-481 | The parser skips exactly a leading `/`; every other first character appends a segment, stops or throws. |
| ResourcePath.NonSlashStartNotEmpty | core/src/main/java/org/n52/iceland/binding/sta/StaBinding.java:395-481 | A path that does not start with `/` appends something or fails. |
| ResourcePath.SlashStep | core/src/main/java/org/n52/iceland/binding/sta/StaBinding.java:390-392 | A leading `/` is dropped and decoding goes on with the rest. |
| ResourcePath.OptionEndsPath | core/src/main/java/org/n52/iceland/binding/sta/StaBinding.java:397-403 | A known `$` option appends its option segment and ends decoding, whatever follows its `/`. |
| ResourcePath.BareNameStep | core/src/main/java/org/n52/iceland/binding/sta/StaBinding.java:405-419 | A bare run of letters is the last segment. It is appended as its component, or decoding fails with "unavailable" when the name is in no vocabulary. |
| ResourcePath.NavigationStep | core/src/main/java/org/n52/iceland/binding/sta/StaBinding.java:421-438 | `name/rest` appends the name's component, then decodes the path with every occurrence of the name deleted. An unknown name fails and appends nothing. |
| ResourcePath.NamesRoundTrip | core/src/main/java/org/n52/iceland/binding/sta/StaBinding.java:405-438 | Known names joined by `/` decode to their components in order, provided no name reappears later in the path. |
| ResourcePath.RepeatedNameCollapses | core/src/main/java/org/n52/iceland/binding/sta/StaBinding.java:438 | `n/n` decodes to the single segment of `n`, because both occurrences are deleted. |
| ResourcePath.SuffixLeftOver | core/src/main/java/org/n52/iceland/binding/sta/StaBinding.java:438 | `n/ns` (such as `Thing/Things`) appends `n`, then fails on the stray `s`. |
| QueryOptions.QueryOptionByName | core/src/main/java/org/n52/iceland/binding/sta/StaBinding.java:507-509 | The lookup is exact: it finds the option with exactly that name, and fails only when no option has it. |
| QueryOptions.QueryOptionNameRoundTrip | core/src/main/java/org/n52/iceland/binding/sta/StaBinding.java:507-509 | Every query option is found again by its name. |
| QueryOptions.WithEntry | core/src/main/java/org/n52/iceland/binding/sta/StaBinding.java:515 | `LinkedHashMap.put`: the option maps to the new value and every other option keeps its value. The old keys keep their order, and only the new option can be added. Distinct keys are preserved. |
| QueryOptions.OptionValue | core/src/main/java/org/n52/iceland/binding/sta/StaBinding.java:512-545 | The switch fails exactly for `$skip`/`$top` with a value that is not a 32-bit integer, and the failure names the option and the value. A valid `$skip`/`$top` value is stored as its parsed int rendered back. `$count` stores `true`/`false` and nothing else, and `$expand` stores a value matching its pattern and nothing else. `$filter`, `$orderby` and `$select` store nothing. |
| QueryOptions.OptionValueStorable | core/src/main/java/org/n52/iceland/binding/sta/StaBinding.java:512-533 | What the switch stores is an accepted value: `true`/`false`, a canonical int rendering, or an expand path. An accepted value is stored unchanged. |
| QueryOptions.ComponentEffect | core/src/main/java/org/n52/iceland/binding/sta/StaBinding.java:500-549 | A component puts at most one entry, and only an accepted value for its option. |
| QueryOptions.DecodeQueryOptions | core/src/main/java/org/n52/iceland/binding/sta/StaBinding.java:490-553 | The loop over the `&` components gives exactly the fold `DecodeQuery`. |
| QueryOptions.Apply | core/src/main/java/org/n52/iceland/binding/sta/StaBinding.java:500-550 | The loop body as a fold over the components: stop at the first component that throws, skip the ones that put nothing, put the others in order. Its promises are `ApplyFailsAtFirstError` and `ApplyKeepsMap`. |
| QueryOptions.DecodeQuery | core/src/main/java/org/n52/iceland/binding/sta/StaBinding.java:490-553 | `decodeQueryOptions`: split at `&`, then fold; an empty query string gives the empty map. Its promises are `QueryRoundTrip` and `DecodedMapIsValid`. |
| QueryOptions.ApplyFailsAtFirstError | core/src/main/java/org/n52/iceland/binding/sta/StaBinding.java:500-525 | Decoding fails exactly when some component throws, and with the exception of the first one that does. |
| QueryOptions.ApplyKeepsMap | core/src/main/java/org/n52/iceland/binding/sta/StaBinding.java:498-551 | A successful decode keeps the keys distinct, never moves a key already present, and stores only accepted values. |
| QueryOptions.DecodedMapIsValid | core/src/main/java/org/n52/iceland/binding/sta/StaBinding.java:490-553 | A decoded map has distinct keys, drawn only from `$count`, `$skip`, `$top` and `$expand`, each holding an accepted value. |
| QueryOptions.NoValueThrows | core/src/main/java/org/n52/iceland/binding/sta/StaBinding.java:501-502 | A component without `=` (such as `$filter`) throws the index exception. |
| QueryOptions.EmptyValueThrows | core/src/main/java/org/n52/iceland/binding/sta/StaBinding.java:501-502 | `key=` with nothing after it throws as well, because `split` drops the trailing empty piece. |
| QueryOptions.UnknownOptionSkipped | core/src/main/java/org/n52/iceland/binding/sta/StaBinding.java:547-549 | A component whose key is no query option is skipped. |
| QueryOptions.KnownOptionComponent | core/src/main/java/org/n52/iceland/binding/sta/StaBinding.java:501-545 | `option=value` goes through the switch on that option with that value. |
| QueryOptions.SingleComponent | core/src/main/java/org/n52/iceland/binding/sta/StaBinding.java:497-500 | A query string without `&` decodes its one component alone: it fails with that component's exception, gives the empty map when the component is skipped, and otherwise the map holding just that component's entry. |
| QueryOptions.QueryRoundTrip | core/src/main/java/org/n52/iceland/binding/sta/StaBinding.java:490-553 | Entries with accepted values, written as `option=value` joined by `&`, decode to those entries put in order. |
| QueryOptions.RepeatedOptionExample | core/src/main/java/org/n52/iceland/binding/sta/StaBinding.java:498-525 | `$top=1&$count=true&$top=2` gives `$top` first, holding `2`, then `$count`: a repeated option keeps its first position and its last value. |
| QueryOptions.NonNumericTopExample | core/src/main/java/org/n52/iceland/binding/sta/StaBinding.java:523-524 | `$top=abc` fails with the number-format exception. |
| JavaIntegers.ParseIntRoundTrip | core/src/main/java/org/n52/iceland/binding/sta/StaBinding.java:521-524 | A rendered 32-bit int parses back to itself, so a stored `$skip`/`$top` value is canonical. |
| JavaIntegers.ParseIntExample | core/src/main/java/org/n52/iceland/binding/sta/StaBinding.java:521 | `Integer.parseInt` reads `05` as 5 and `+7` as 7, and `String.valueOf` writes 5 as `5`. |
| JavaIntegers.ParseInt | core/src/main/java/org/n52/iceland/binding/sta/StaBinding.java:521-524 | `Integer.parseInt`: a value, when there is one, lies in the 32-bit range, and the empty text and a lone sign are rejected. `ParseIntRoundTrip` is its partner. |
| JavaIntegers.IntToString | core/src/main/java/org/n52/iceland/binding/sta/StaBinding.java:521-524 | `String.valueOf`: a non-empty text that starts with `-` exactly for a negative number. |
| QueryOptions.LeadingZeroTopExample | core/src/main/java/org/n52/iceland/binding/sta/StaBinding.java:520-525 | The query `$top=05` decodes to the map holding `$top` = `5`: the switch stores the parsed value rendered back, not the text given. |
| QueryOptions.LeadingZeroTopComponent | core/src/main/java/org/n52/iceland/binding/sta/StaBinding.java:500-525 | The component `$top=05` puts the entry `$top` = `5`. |
| Patterns.IsExpandPath | core/src/main/java/org/n52/iceland/binding/sta/StaBinding.java:527 | `^[a-zA-Z]+(/[a-zA-Z]+)*$`: a run of letters, then either the end or a slash and again such a path; its partner `ExpandPathShape` characterises it as letter runs split by single slashes. |
| Patterns.ExpandPathShape | core/src/main/java/org/n52/iceland/binding/sta/StaBinding.java:527 | The `$expand` pattern matches exactly the non-empty runs of letters separated by single slashes. |
| JavaStrings.SplitOfJoin | core/src/main/java/org/n52/iceland/binding/sta/StaBinding.java:497 | Pieces free of a one-character separator, the last one non-empty, come back unchanged from `split` after being joined. |
| JavaStrings.JoinPieces | core/src/main/java/org/n52/iceland/binding/sta/StaBinding.java:497 | Splitting loses no text: the pieces joined at the separator give the input back. |
| JavaStrings.RemoveAllIsJoinedPieces | core/src/main/java/org/n52/iceland/binding/sta/StaBinding.java:369-377 | `replace(t, "")` keeps exactly the text between the occurrences of `t`, found left to right without overlap. |
| JavaStrings.RemoveAllAfterFreePrefix | core/src/main/java/org/n52/iceland/binding/sta/StaBinding.java:438 | An occurrence of `t` after text that cannot start `t` is deleted too, and that text is kept. |
| JavaStrings.TrimIsInfix | core/src/main/java/org/n52/iceland/binding/sta/StaBinding.java:199-200 | `trim` keeps a contiguous middle of the text and drops only characters up to U+0020 before and after it. |
| JavaStrings.RemoveAll | core/src/main/java/org/n52/iceland/binding/sta/StaBinding.java:369-377 | `replace(t, "")`: never longer than the text, the text itself when `t` does not occur, and at least `|t|` shorter when the text starts with `t`. Every occurrence is deleted: `RemoveAllIsJoinedPieces`. |
| JavaStrings.Split | core/src/main/java/org/n52/iceland/binding/sta/StaBinding.java:497-501 | `split` with a literal separator: the text alone when the separator does not occur; a non-empty first piece comes first; with two or more pieces the separator occurs and the last piece is not empty; no piece holds the separator. |
| JavaStrings.Trim | core/src/main/java/org/n52/iceland/binding/sta/StaBinding.java:199-200 | `trim`: empty, or starting and ending with a character above U+0020, and never longer than the text. `TrimIsInfix` states what it drops. |
| Binding.ConformanceClasses | core/src/main/java/org/n52/iceland/binding/sta/StaBinding.java:96-102 | The result is the one JSON conformance class exactly for service `SOS`, version `2.0.0`, and empty otherwise. |
| Binding.PathFailure | core/src/main/java/org/n52/iceland/binding/sta/StaBinding.java:397-481 | Every path failure is reported as a coded exception, except an unknown `$` option, which escapes. |
| Binding.SelectResource | core/src/main/java/org/n52/iceland/binding/sta/StaBinding.java:205-224 | The chosen resource is an entity or an entity set of the path. |
| Binding.SelectResourceBoundedScan | core/src/main/java/org/n52/iceland/binding/sta/StaBinding.java:208-217 | The classifier chooses the last entity or entity set of the path when it is among the last three segments, and fails otherwise. This holds against an independent scan over the whole path. |
| Binding.ClassifierExample | core/src/main/java/org/n52/iceland/binding/sta/StaBinding.java:209-214 | For an entity set, a property and an option, the entity set (third from last) is chosen. |
| Binding.ClassifierGivesUp | core/src/main/java/org/n52/iceland/binding/sta/StaBinding.java:209-217 | An entity set followed by three non-resource segments is not found, although the path has one. |
| Binding.Dispatch | core/src/main/java/org/n52/iceland/binding/sta/StaBinding.java:228-350 | Dispatch:<br>- It succeeds exactly for GET.<br>- A request results exactly for Observations and Datastream.<br>- It goes through a decoder exactly for Observations, keyed by version `v1.0` and carrying the resource.<br>- Every request carries the whole path and no query options. |
| Binding.OnlyGetSucceeds | core/src/main/java/org/n52/iceland/binding/sta/StaBinding.java:228-350 | A parse that succeeds was a GET. |
| Binding.ObservationsOperation | core/src/main/java/org/n52/iceland/binding/sta/StaBinding.java:245-258 | A request handed to a decoder is for Observations. Its operation is "with id" exactly when the resource carries an identifier, since the parser never yields an empty one. |
| Binding.QueryOptionsDiscarded | core/src/main/java/org/n52/iceland/binding/sta/StaBinding.java:197-201 | A query string that decodes changes nothing: the outcome, success or failure, is the one without it, and no request carries query options. |
| Binding.OutcomeOfStages | core/src/main/java/org/n52/iceland/binding/sta/StaBinding.java:174-228 | Once the path stages succeed and the query string decodes, the classifier and the dispatch decide the outcome. |
| Binding.DatastreamsOutcome | core/src/main/java/org/n52/iceland/binding/sta/StaBinding.java:228-239 | A GET whose decodable path is `/v1.0/Datastreams` and whose query string, if any, decodes yields a null request, whatever the deployment. |
| Binding.DatastreamsExample | core/src/main/java/org/n52/iceland/binding/sta/StaBinding.java:360-365 | The service URL and request URI given as the example of `extractDecodablePath` (`…/52n-sos-webapp/service` with `/52n-sos-webapp/service/sta/v1.0/Datastreams`) are parsed, and yield a null request. |
| Binding.CommentedRequestRejected | core/src/main/java/org/n52/iceland/binding/sta/StaBinding.java:170-185 | The pair written in the comments of `parseRequest` (service URL `…/52n-sos-webapp/service`, URI `/52n-sos-webapp/sta/v1.0/Datastreams`) is rejected with the unsupported-version failure: the URI does not hold `/52n-sos-webapp/service/sta`, so it is its own decodable path, and that does not start with `/v1.0`. |
| Binding.DecodeSegments | core/src/main/java/org/n52/iceland/binding/sta/StaBinding.java:188-196 | Decoding into a fresh list gives exactly the segments of `Segments`, or the path failure. The empty path and `/` give no segments. |
| Binding.Segments | core/src/main/java/org/n52/iceland/binding/sta/StaBinding.java:188-196 | The empty path and `/` give no segments; any other path gives the decoded segments, or the path failure. |
| Binding.QueryFailure | core/src/main/java/org/n52/iceland/binding/sta/StaBinding.java:197-201 | A missing or blank query string is ignored; otherwise the trimmed text is decoded and only a failure is kept. |
| Binding.RequestOutcome | core/src/main/java/org/n52/iceland/binding/sta/StaBinding.java:163-358 | The stages in order: decodable path, version gate, path decoding, query decoding, classifier, dispatch; the first failure is the outcome. |
| Binding.StaBinding.constructor | core/src/main/java/org/n52/iceland/binding/sta/StaBinding.java:80 | The service URL starts out empty. |
| Binding.StaBinding.SetServiceUrl | core/src/main/java/org/n52/iceland/binding/sta/StaBinding.java:113-116 | The service URL becomes the configured one. |
| Binding.StaBinding.ParseRequest | core/src/main/java/org/n52/iceland/binding/sta/StaBinding.java:163-358 | `parseRequest` with a list, the query decoder and the classifier computes exactly the staged outcome `RequestOutcome`. |

## Left out

- Servlet plumbing is HTTP I/O and framework calls, and is left out: `doGetOperation`, `doPostOperation`, `writeResponse`, exception-report writing, the service-operator lookup and the `Accept`/`Content-Type` headers (lines 118-172).
- The decoder registry is left out: `getDecoder`, `setStaParameters` and `decoder.decode` call into code outside this class, including a decoder that is missing or fails. The model stops at the decoder key (service version and operation) and the data handed over.
- `java.net.URL` parsing is an input: `ParseRequest` receives the protocol and authority, or `None` for a malformed URL.
- `StaSettings`, logging and request contexts are process-wide state or side effects only: `getKeys`, `isUseHttpResponseCodes` and `getDefaultContentType` return constants.
- Java `null` strings are left out. The model's strings are never null, and an absent query string is `None`. The service URL, null before configuration, starts out empty.
- `JavaIntegers.ParseInt`: accepts only the ASCII digits `0`-`9` and not the other Unicode digits `Integer.parseInt` also accepts. Strings are sequences of `char` with no UTF-16 surrogate handling.
- `StaConstants` is not part of this model. Its contents are assumed:
  - the entity, entity-set and property vocabularies of SensorThings 1.0;
  - the path options `$value`, `$ref` and `$count`;
  - the query options `$count`, `$skip`, `$top`, `$expand`, `$filter`, `$orderby` and `$select`;
  - `VERSION_1_0 = "v1.0"` and `STA_BINDING_ENDPOINT = "/sta"`.
- `SosConstants` and `Sos2Constants` are not part of this model. The service `SOS` and the version `2.0.0` are assumed.
- The last `else` of the GET switch ("STA EntitySet … is not supported") is unreachable with these vocabularies: every entity and entity set has a branch. It is not modelled.
- Service name and media type are not modelled: every decoder key shares the service name and `application/sta`, so keys carry only the version and the operation.
- There is no dedicated error kind for an invalid `$skip`/`$top` value or for a resource type whose branch is empty, because the code has none: an invalid value raises an unchecked `NumberFormatException`, and an empty branch gives a null request. POST, PATCH and DELETE are modelled as the reported I/O failures the code throws (`NotSupportedYet`, and `UnsupportedMethod` for any other method), not as a kind of their own.
