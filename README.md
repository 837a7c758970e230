# Backbone-Xray: the filter, alias and formatter engine

Backbone-Xray logs the events and method calls of a Backbone application.
The user names what to watch with *event specifiers*:

- a capitalised constructor name (`'View'`);
- a `/pattern/` for event names;
- a `'*alias'` that stands for a list of further specifiers, and may carry a
  `match` function that picks objects.

The library compiles the specifiers into `loggedEvents` (entries) and
`eventObjMatchers` (alias `match` functions). It then decides, for every
`trigger` and every wrapped method call, whether the object and the event
name are in scope. It also picks a formatter for every logged entry.

Two drafts of the library exist and both are modelled:

- `backbone-xray.js`, the current draft;
- `backbone.xray.js`, the earlier draft.

Their specifier helpers are the same: the comparator, `toRegExpString`,
the validity test, `isPatternSpecifier` and the three-way classification of
`parseEventSpecifiers`. Modules `Specifiers` and `Scope` therefore serve
both drafts. Where the drafts differ, the model either has separate modules
or takes a `Draft` parameter:

- aliases without a list;
- `addAliases`;
- formatter choice and the title format;
- the relevance test of stack lines;
- installing and removing the logging `trigger`;
- the public start, stop and pause calls.

## Modules

- `Wrappers`, `JsText`, `JsHeap`: the JavaScript values and helpers the rest
  is written in.
  - `Result` carries a thrown error kind (`TypeError`, `SyntaxError`,
    `URIError`, or a plain `Error` thrown by the library).
  - `JsHeap` is a heap of objects with ordered own properties, since for-in
    visits them in insertion order.
- `Specifiers`: validation, `_toRegExpString`, the comparator and sort, and
  `parseEventSpecifiers`.
  - The method is proved against the declarative `ParseSpec`, including
    the state a throw leaves behind.
- `Aliases`: `_expandEventAliases` and `addAliases` for both drafts.
  - The `while` loop becomes a fuel-indexed function with a `Diverged`
    outcome, so a cyclic alias can be stated and proved to diverge.
- `Objects` and `Scope`: constructor tables, `instanceof`, `getTypeOf`,
  `getBackboneTypeOf` and the scope predicates.
- `FormatterValues`, `Formatters`, `FormatterRegistry`: formatters as
  ordered property lists, and `_addFormatterFieldNames`.
  - Also `_wrapFormatters` (its render decision only), `addFormatters` and
    `getEntry`.
  - `Registry` is a class holding the module-level `config.formatters`,
    `formatterFieldNames`, `formattersWrapped` and the memoized reversal.
- `StackText` and `QueryParams`: `_trace` and `trace` (text part only),
  the two stack-line relevance tests, `util.stripIndent` and
  `util.parseQueryParams`.
- `Instrumentation`: the `Instrumentor` walk, tagging, `processDescendant`
  and `wrapMethod`, as methods of a class over a mutable heap (`Realm`).
  - Each method is proved against a specification function.
  - Also the behaviour of a call of a method wrapper and of
    `_triggerWithLogging`.
- `Activation`: the current draft's public object as a class `Xray`.
  - It covers `focusOn`, `instrument`, `startLogging`, `stopLogging`,
    `pauseLogging`, `parseEventSpecifiers`, the end of `configure`, and
    `_addInstrumentation` and `_removeInstrumentation`.
  - Also the `persistSettings` setter, `removeSetting`, and the setting
    accessors over the `localStorage` item, by which keys hold a value.
- `EarlierActivation` and `EarlierFormatters`: the earlier draft's
  `logEvents`, `startLoggingEvents`, `stopLoggingEvents`,
  `pauseLoggingEvents` and `add`/`removeInstrumentation`.
  - Also `getEventFormatter`, which reverses an `array` in place, and
    `defaultEventTitleFormat`.

## Behaviour the code has and its comments do not state

- Patterns alone log nothing (`Scope.PatternsAloneLogNothing`).
  - The comment on `focusOn` says name-only specifiers log any object.
  - `isObjLogged` has no such fallback: it needs a constructor entry or an
    alias matcher.
- `getEntry` tries formatters in their original order, because it scans
  the reversed snapshot from its end. The snapshot is the one taken by the
  first call.
  - The built-in `default` formatter accepts every event, so a formatter
    appended after it is never chosen (`Formatters.AppendedAfterDefaultUnused`).
- The collision test of `addFormatters` compares an array with `0`.
  - No shared name gives `''`, which is equal to 0.
  - Two shared names or more give `NaN`, which is not equal to 0.
  - A single shared name counts unless its text reads as zero
    (`FormatterValues.CollisionCases`).
  - The merge omits the property named by the global `name` (`window.name`),
    not the property `'name'`.
- `configure({formatters})` before the first `startLogging` sets
  `formattersWrapped`. When the added formatters bring no collision, the
  built-in formatters are then never wrapped (`FormatterRegistry.ConfigureBeforeStart`).
- `_addInstrumentation` tests `instrumentor.namespace.trigger`, but the
  namespace is the `[name, object]` pair. The pair has no `trigger`, so no
  namespace object is ever patched.
- Every `startLogging` before `configure` adds a listener to
  `'xray-configure'`. `configure` then activates the instrumentors once per
  listener.
  - The `__xrayInstrumented__` flag is set only by a logged call, so
    methods get wrapped in nests (`Instrumentation.WrapTwiceNests`,
    `Activation.Xray.FinishConfigure`).
- `stopLogging` after `xray.persistSettings = false` empties the lists
  and clears the parsed flag, then throws on `removeSetting`: the setting
  accessors read the removed stored item (`Activation.StopSettingsOutcome`).
  - Logging is then neither unpaused nor uninstalled.
  - The alias matchers stay, so objects an alias accepts are still logged,
    under every event name (`Activation.ClearedListKeepsAliasScope`).
- `stopLogging` with settings persisted replaces `xray.settings` by an
  empty plain object: `_.omit` copies only enumerable properties, and the
  setting accessors are not enumerable. `throttleTime` then reads as
  undefined too, while the stored item keeps both lists, so the next load
  restores the focus that was stopped (`Activation.StopSettingsOutcome`).
  Later parses write to that plain object, not to the store.
- With nothing stored, loading the script throws: it reads
  `persistedSettings.loggedEvents` of `null`. The branch that sets
  `xray.settings = null` is never reached.
- In the earlier draft, `stopLoggingEvents` followed by
  `startLoggingEvents` logs exactly the objects an alias matcher accepts
  (`EarlierActivation.StopThenStart`).
- In the earlier draft, `getEventFormatter` reverses `config.formatters`
  in place on every call. Successive calls alternate between the two
  orders (`EarlierFormatters.CallTwice`, `EarlierFormatters.AlternatingChoice`).
- `isForbiddenProperty` is applied to the property's value, not its name.
  It never decides anything (`Instrumentation.ForbiddenTestInert`).
- A namespace that holds itself is tagged once and pushed ten times. Only
  the depth limit ends the walk (`Instrumentation.SelfReferenceFoundTenTimes`).

## Model

| member | source | states |
|---|---|---|
| Specifiers.ValidateEventSpecifiers | backbone-xray.js:1019-1023 | succeeds exactly when every specifier is a string or a RegExp (the same test as backbone.xray.js:332-336) |
| Specifiers.ToRegExpString | backbone-xray.js:774-781 | fails exactly on null and undefined. Otherwise the result starts with `/`, a `/`-string is kept as it is, and any other string `s` becomes `/s/` |
| Specifiers.PatternSource | backbone-xray.js:768-770 | the source is the pattern text without its first and last character, and empty for text shorter than two |
| Specifiers.ToRegExpStringIdempotent | backbone-xray.js:774-781 | applying `_toRegExpString` to its own result gives that result again |
| Specifiers.PatternOfSubstring | backbone-xray.js:768-781 | a plain string, wrapped in slashes and stripped again, becomes a pattern of the very string, so names are matched by substring |
| Specifiers.PatternOfFlaggedRegExp | backbone-xray.js:768-781 | a RegExp with a flag loses the flag and gains a trailing `/` in the pattern names are matched against |
| Specifiers.CompareEventSpecifiers | backbone-xray.js:709-715 | throws exactly when the first operand is the empty string. Otherwise it ranks first (-1) exactly the capitalised strings and the functions |
| Specifiers.SortEventSpecifiers | backbone-xray.js:880-931 | the result is a permutation of the input with every capitalised string or function before every other value |
| Specifiers.SortFollowsComparator | backbone-xray.js:926 | the sort agrees with `_compareEventSpecifiers`: no value the comparator puts first (-1) follows one it puts last, the values it puts first form the front of the result, and they are exactly the input values it puts first |
| Specifiers.AliasIndex | backbone-xray.js:996 | finds an alias exactly when one has the name, and it is the first alias with that name |
| Specifiers.ParseEventSpecifiers | backbone-xray.js:981-1017 | the loop yields the declarative outcome: the de-duplicated contributions and the matchers, or after a throw the entries the shared array received and the matchers pushed so far |
| Specifiers.ParseOne | backbone-xray.js:985-1005 | one callback appends the specifier's contribution to the local array, and to the shared array only until the first alias `concat` has detached the two; it registers the alias's matcher when there is one |
| Specifiers.ContributionsMembership | backbone-xray.js:981-1009 | an entry is compiled exactly when some specifier contributed it |
| Specifiers.MatchersMembership | backbone-xray.js:981-1009 | a matcher is registered exactly when some specifier named an alias that carries it |
| Specifiers.ParseClassifies | backbone-xray.js:981-1017 | on success: no duplicates; a capitalised string is kept verbatim; a pattern-branch value appears as its `_toRegExpString`; a known alias adds all its expanded entries and its matcher |
| Specifiers.ParseSound | backbone-xray.js:981-1017 | every compiled entry comes from some specifier that is not a reference to an unknown alias |
| Specifiers.ValidatedSpecifiersParse | backbone-xray.js:1019-1023 | specifiers that pass validation always parse without a throw |
| Specifiers.ParseOrderIndependent | backbone-xray.js:981-1017 | reordering the specifiers changes neither success nor which entries and matchers result |
| Specifiers.ParseCovered | backbone-xray.js:981-1017 | specifiers that all occur in another list contribute no entry or matcher that list does not |
| Aliases.InitialExpanded | backbone-xray.js:721-724 | a missing `expanded` starts as `[]` in the current draft and as `[alias.name]` in the earlier one (backbone.xray.js:485-487) |
| Aliases.UnexpandedEntry | backbone-xray.js:717-719 | the joined list holds a `*` exactly when some single entry does |
| Aliases.ResolveSingle | backbone-xray.js:726-736 | resolving a one-entry list is resolving its entry |
| Aliases.ExpandedIsStarFree | backbone-xray.js:721-740 | when the loop ends, no entry contains `*` |
| Aliases.ExpandEndsStarFree | backbone-xray.js:727-737 | the `while` test stops only on a list in which no entry holds a `*` |
| Aliases.StarFreeUnchanged | backbone-xray.js:721-740 | a list without `*` is returned unchanged |
| Aliases.ExpandFuelIrrelevant | backbone-xray.js:721-740 | a loop that ends has an outcome that does not depend on the iteration bound |
| Aliases.LoopFuelIrrelevant | backbone-xray.js:727-737 | for any turn function, a loop of the `while (containsUnexpandedAlias)` shape that ends gives the same outcome with a larger bound |
| Aliases.SelfReferenceDiverges | backbone-xray.js:721-740 | an alias whose list is just a reference to itself never leaves the loop, for any table and any fuel |
| Aliases.SelfReferenceNeverExpands | backbone-xray.js:721-740 | any list that holds a reference to the alias being expanded never ends the loop with a list free of `'*'`: the loop throws or never stops |
| Aliases.ExpandFromDone | backbone-xray.js:1115-1119 | expanding the table keeps its aliases, and leaves every alias it processed with a `*`-free list |
| Aliases.ExpandFromFuelIrrelevant | backbone-xray.js:1115-1119 | the table outcome does not depend on the iteration bound either |
| Aliases.ExpandedTableStable | backbone-xray.js:1115-1119 | a table whose lists are present and `*`-free is returned as it is |
| Aliases.ExpansionIdempotent | backbone-xray.js:1115-1119 | expanding an expanded table again, in either draft, changes nothing |
| Aliases.UnionAfter | backbone-xray.js:1116 | `_.union` by identity keeps the old table as a prefix, adds every new alias, and repeats none |
| Aliases.UnionOfFresh | backbone-xray.js:1116 | new, distinct aliases are appended in order |
| Aliases.UnionOfKnown | backbone-xray.js:1116 | aliases already in the table add nothing |
| Aliases.UnionSplit | backbone-xray.js:1116 | the union of a concatenation is taken part by part |
| Aliases.AddKnownAliasKeepsTable | backbone-xray.js:1115-1119 | adding an alias that is already in an expanded table leaves the table as it is |
| Aliases.ExpandEntries | backbone-xray.js:727-737 | the `while` loop for one alias ends as the declarative expansion does: a `*`-free list, or a throw that keeps the list of the last completed turn |
| Aliases.ExpandAliases | backbone-xray.js:721-740 | the loops over the table yield the declarative expansion |
| Aliases.DefaultAliasesExpanded | backbone-xray.js:1115-1119 | the built-in aliases are already expanded |
| Aliases.ForwardReference | backbone-xray.js:721-740 | an alias naming a later one takes that one's list |
| Aliases.MissingAliasFails | backbone-xray.js:728-731 | in any table, an alias whose list holds a reference to an alias the table lacks makes the expansion throw there, with the table as it was |
| Aliases.NamelessListByDraft | backbone.xray.js:476-502 | an alias without a list stands for its own name in the earlier draft and for nothing in the current one; the earlier `addAliases` replaces the table |
| Scope.PatternSources | backbone-xray.js:1025-1030 | the source of every `/`-entry is matched against |
| Scope.PatternSourcesSound | backbone-xray.js:1025-1030 | every source matched against comes from a `/`-entry |
| Scope.PatternSourcesEmpty | backbone-xray.js:1025-1030 | there are no sources exactly when there is no `/`-entry |
| Scope.IsEventNameLogged | backbone-xray.js:1025-1030 | throws SyntaxError exactly when some pattern does not compile. Otherwise the name is logged exactly when there is no pattern or some pattern accepts it |
| Scope.IsObjLoggedInstance | backbone-xray.js:1044-1046 | true exactly when a capitalised entry resolves to a constructor the object is an instance of |
| Scope.DoesObjMatchAlias | backbone-xray.js:1048-1053 | true exactly when some alias matcher accepts the object |
| Scope.IsObjLogged | backbone-xray.js:1040-1042 | the disjunction of the instance test and the alias test |
| Scope.IsLoggingEventsFor | backbone-xray.js:1055-1057 | logged exactly when the object is in scope and the name check gives true. It throws only when the object is in scope and the name check throws |
| Scope.PatternsAloneLogNothing | backbone-xray.js:1040-1057 | without a constructor entry and without a matcher, nothing is logged, whatever the patterns |
| Scope.NoPatternsLogsEveryName | backbone-xray.js:1025-1057 | without a `/`-entry, the outcome is the object test alone |
| Scope.UnresolvedNameNeverMatches | backbone-xray.js:742-746 | a name that `config.constructors` does not hold never puts an object in scope |
| Scope.ParsedConstructorInScope | backbone-xray.js:981-1046 | a parsed `'Model'` specifier puts every Model instance in scope |
| Objects.LookupCtor | backbone-xray.js:742-746 | finds a constructor exactly when the table has the name, and takes the first entry of that name |
| Objects.GetTypeOf | backbone-xray.js:1080-1093 | the first exact constructor match wins. Without one, the first `instanceof` match wins. Without either, the result is `'Object'` |
| Objects.BackboneTypeOf | backbone.xray.js:175-184 | the first of Model, Collection, View, Router the object is an instance of, or the empty string |
| Objects.ExactBeforeInstance | backbone-xray.js:1080-1093 | a View whose prototype is a Model is a `'View'` to the current draft and a `'Model'` to the earlier one |
| Objects.TypeNamesAgree | backbone-xray.js:1080-1093 | for plain Backbone instances the drafts agree, except that the current one says `'Object'` where the earlier one gives the empty string |
| FormatterValues.GetOmit | backbone-xray.js:1071 | `_.omit` removes exactly that key |
| FormatterValues.GetExtend | backbone-xray.js:1072 | after `_.extend`, a key comes from the source when the source has it, and from the target otherwise |
| FormatterValues.MergeGet | backbone-xray.js:1068-1073 | the merged formatter takes the new formatter's properties, except the one named by `window.name`, and keeps its other own properties |
| FormatterValues.MergeKeepsName | backbone-xray.js:1068-1073 | merging into the formatter of the same name keeps that name |
| FormatterValues.FieldKeys | backbone-xray.js:797-803 | the field keys are exactly the formatter's keys other than `name` and `match` |
| FormatterValues.AddFieldNamesSpec | backbone-xray.js:797-803 | the field-name list never repeats, keeps its earlier names in place, gains exactly the new field keys, and never gains `name` or `match` |
| FormatterValues.AddFieldNamesIdempotent | backbone-xray.js:797-803 | recording the same formatters again changes nothing |
| FormatterValues.Intersection | backbone-xray.js:1067 | `_.intersection` holds exactly the common names, without repeats |
| JsText.Unique | backbone-xray.js:1009 | `_.uniq` keeps exactly the values of its input |
| JsText.UniqueDistinct | backbone-xray.js:1009 | `_.uniq` repeats no value |
| FormatterValues.CollisionCases | backbone-xray.js:1067 | examples of the test `intersection != 0`: no name means no collision, one name means a collision unless its text reads as zero, and two names always mean a collision |
| Formatters.EntryOf | backbone-xray.js:1106-1110 | the entry has one field per recorded name, bound to the formatter's field or else the default formatter's |
| Formatters.FindNamed | backbone-xray.js:1069-1070 | `_.findWhere` by name finds a formatter exactly when one has the name, and it is the first |
| Formatters.FirstMatch | backbone-xray.js:1101-1104 | the scan picks the first formatter whose `match` accepts. It gives none when all reject, and TypeError at the first `match` that is not a function |
| Formatters.FirstAcceptingWins | backbone-xray.js:1101-1104 | formatters after the first accepting one are never tried |
| Formatters.AppendedAfterDefaultUnused | backbone-xray.js:1075 | with the built-in list, whose `default` accepts every event, a formatter appended after it is never chosen |
| Formatters.DefaultMatches | backbone-xray.js:486-640 | the built-in formatters' `match` functions, in order |
| Formatters.MergeNamedShape | backbone-xray.js:1068-1073 | one merge turn keeps every formatter's name and well-formedness |
| Formatters.MergeAllGet | backbone-xray.js:1068-1073 | after the merge loop, a property of formatter `i` comes from the first added formatter of its name when `i` is that name's first holder; otherwise it is unchanged |
| Formatters.MergeAllShape | backbone-xray.js:1068-1073 | the merge loop keeps every name and well-formedness |
| Formatters.FirstMatchAt | backbone-xray.js:1101-1104 | once the formatters before `k` reject, formatter `k` decides the scan |
| Formatters.WrapGet | backbone-xray.js:813-816 | wrapping keeps the keys, and a field reads as its wrapper exactly when it is listed and truthy |
| Formatters.WrapKeepsFieldKeys | backbone-xray.js:805-834 | wrapping changes no field key |
| Formatters.RecordWrappedAgain | backbone-xray.js:1061-1065 | recording the wrapped formatters' field names a second time changes nothing |
| Formatters.WrapAllShape | backbone-xray.js:805-834 | wrapping keeps every formatter's name and `match` |
| Formatters.Select | backbone-xray.js:823-824 | `_.select` and `_.reject` keep exactly the values the test accepts, and only those |
| Formatters.CallbacksMembers | backbone-xray.js:824 | the callbacks are the function results plus the kept truthy callback, each exactly once |
| Formatters.RenderSpec | backbone-xray.js:823-834 | a group exactly when a result is a function or the kept callback is truthy. A plain log keeps the results. A group's title is the non-function results, and its callbacks are exactly the functions, each once |
| FormatterRegistry.Registry.constructor | backbone-xray.js:486-640 | the built-in formatters, no field names, nothing wrapped, no reversal taken |
| FormatterRegistry.Registry.AddFieldNamesOf | backbone-xray.js:797-803 | the field names grow as `AddFieldNamesSpec` describes, and nothing else changes |
| FormatterRegistry.Registry.WrapFormatters | backbone-xray.js:805-834 | records the field names, returns the formatters wrapped under the grown list, and sets the flag |
| FormatterRegistry.Registry.WrapConfigured | backbone-xray.js:955 | `config.formatters` is wrapped only if nothing was wrapped before |
| FormatterRegistry.Registry.FormattersReversed | backbone-xray.js:783-791 | returns the reversal of the formatters as they were at the first call, which fixes the snapshot |
| FormatterRegistry.EntryFromReversed | backbone-xray.js:1096-1112 | scanning the reversal from its end gives the entry of the first formatter, in original order, that accepts. A missing `default` or a formatter without `match` throws, and no accepting formatter gives no entry |
| FormatterRegistry.Registry.GetEntry | backbone-xray.js:1095-1113 | the entry from the first accepting formatter in the snapshot's original order, bound against the default formatter |
| FormatterRegistry.Registry.AddFormatters | backbone-xray.js:1059-1078 | on a collision, the wrapped added formatters are merged by name into the existing ones. Otherwise they are appended. The field names grow either way |
| FormatterRegistry.Registry.MergeInto | backbone-xray.js:1068-1073 | the merge loop over the added names |
| FormatterRegistry.ConfigureBeforeStart | backbone-xray.js:1059-1078 | formatters added before the first start, without a collision, leave the built-in formatters unwrapped |
| FormatterRegistry.StartBeforeConfigure | backbone-xray.js:945-964 | a start before any `addFormatters` wraps the built-in formatters, the `default` summary among them |
| FormatterRegistry.SummaryRecorded | backbone-xray.js:797-803 | the built-in formatters record the field `summary` |
| FormatterRegistry.DefaultSummaryWrapped | backbone-xray.js:805-834 | with `summary` recorded, the `default` formatter's summary is wrapped |
| StackText.TraceDropsFourLines | backbone-xray.js:235-253 | the trace text is everything after the fourth newline, behind a newline |
| StackText.ShortStackEmptyTrace | backbone-xray.js:235-253 | a stack of four lines or fewer leaves the trace `"\n"` |
| StackText.FirstRelevant | backbone-xray.js:241 | `_.find` gives the first accepted line |
| StackText.Trace | backbone-xray.js:235-253 | the text part is the trace text. A location comes only from the first accepted line, when that line is non-empty |
| StackText.TraceLocation | backbone-xray.js:235-253 | no accepted line means no location. Otherwise the location runs from the first `(` to the last `)` of the first accepted line |
| StackText.ParenOnLine | backbone-xray.js:247-248 | on a line without terminators, `/\((.*)\)/` captures from the first `(` to the last `)` after it |
| StackText.UnnamedLineRelevant | backbone-xray.js:662-664 | a line naming none of the library scripts is relevant |
| StackText.LibraryFrameCases | backbone-xray.js:662-664 | `backbone.js`, `underscore.min.js` and the like make a line irrelevant |
| StackText.IsRelevantLine | backbone.xray.js:158-162 | never for `events.js` or `_base.js`; otherwise exactly when the line mentions `/javascripts/` |
| StackText.MinIndentLines | backbone-xray.js:121-132 | the least indentation is taken line by line |
| StackText.StripLinesSplit | backbone-xray.js:121-132 | stripping works line by line: a line with at least `n` leading spaces and tabs loses exactly `n`, and other lines and the terminators stay |
| StackText.StripIndentSpec | backbone-xray.js:121-132 | unchanged when no line has visible text or the least indentation is 0. Otherwise every line with at least that many leading spaces and tabs loses that many |
| StackText.StripIndentIdempotent | backbone-xray.js:121-132 | stripping twice is stripping once |
| QueryParams.NextMatch | backbone-xray.js:87 | a match is found exactly when some character is neither `&` nor `=`; it ends within the text and its key is never empty |
| QueryParams.PlusToSpace | backbone-xray.js:88-89 | every `+` becomes a space and nothing else changes |
| QueryParams.Store | backbone-xray.js:95-99 | an array key appends to a stored array, and any other key is overwritten; a truthy non-array value under an array key throws TypeError |
| QueryParams.Exec | backbone-xray.js:93 | one `exec` step gives the next scanned pair and advances past it, or reports the end |
| QueryParams.ParseQueryParams | backbone-xray.js:86-103 | the exec loop yields the declarative parse: decode key and value, store, stop at the first error |
| QueryParams.SkipsDelimiter | backbone-xray.js:87 | a leading `&` or `=` is skipped, so a key is never empty |
| QueryParams.ScanRender | backbone-xray.js:87 | pairs rendered as `k=v&…` scan back to the same pairs |
| QueryParams.KeyWithoutValue | backbone-xray.js:87 | a key without `=` gets the empty value |
| QueryParams.PlainKeysLastWins | backbone-xray.js:93-99 | with plain keys, each key holds its last value, absent keys keep theirs, and no other key appears |
| QueryParams.ArrayKeysCollect | backbone-xray.js:95-97 | `k[]` keys collect their values in order under `k` |
| QueryParams.ArrayKeyStarts | backbone-xray.js:95-97 | the first `k[]` of a fresh key starts an array |
| QueryParams.PlainThenArray | backbone-xray.js:95-99 | `k=v` then `k[]=w` gives an array when `v` is empty and TypeError otherwise |
| QueryParams.BadKeyThrows | backbone-xray.js:93-94 | a malformed escape in the first key makes the call throw URIError |
| Instrumentation.IsInstrumentable | backbone-xray.js:370-374 | only objects of the heap can pass |
| Instrumentation.ForbiddenTestInert | backbone-xray.js:370-378 | the test is exactly: truthy, and an object-typed `__super__` or a plain object |
| Instrumentation.TagWith | backbone-xray.js:357 | tagging sets `__xrayName__` and changes no object's kind |
| Instrumentation.WalkFacts | backbone-xray.js:350-368 | the walk changes nothing but tags, and every pushed object is instrumentable and tagged |
| Instrumentation.SelfReferenceFoundTenTimes | backbone-xray.js:352 | a namespace that holds itself is pushed ten times: only the depth limit stops the walk |
| Instrumentation.WrapEffect | backbone-xray.js:388-439 | when the test fails, nothing happens. Otherwise the slot holds a new wrapper around the old function, with id `__xrayName__#property`, and nothing else changes |
| Instrumentation.WrapOnlyWraps | backbone-xray.js:388-439 | wrapping only adds objects and replaces a slot by a new wrapper made for it |
| Instrumentation.ProcessOnlyWraps | backbone-xray.js:380-386 | `processDescendant` only wraps |
| Instrumentation.ActivateOnlyWraps | backbone-xray.js:342-348 | `activate` only wraps; `model` and `comparator` are never touched |
| Instrumentation.WrapTwiceNests | backbone-xray.js:388-439 | an unflagged wrapper is wrapped again by the next activation, and the new wrapper's original is the first wrapper |
| Instrumentation.WrapKeepsOtherReads | backbone-xray.js:388-398 | wrapping one property leaves every other property of every existing object reading as before |
| Instrumentation.CallMethodWrapper | backbone-xray.js:399-436 | a scope-test throw propagates with no effect. A log is scheduled exactly when in scope and not paused. The heap changes only then |
| Instrumentation.FlagsKeepSuper | backbone-xray.js:424-432 | the flag assignments leave `__super__` as it was |
| Instrumentation.WrapperCallsOriginalLast | backbone-xray.js:399-436 | the original is called exactly once, after every other effect, and its outcome is the call's |
| Instrumentation.WrapperDelegatesForViews | backbone-xray.js:431-433 | `delegateEvents` runs again exactly on `initialize` of a direct View subclass, unless something before it throws |
| Instrumentation.FlagSlotMarks | backbone-xray.js:424-425 | the flag assignments mark the function in the slot, change no other object and keep every `prototype` |
| Instrumentation.LoggedCallStopsRewrapping | backbone-xray.js:424-425 | after a logged call the slot's function is flagged, so no later activation wraps it |
| Instrumentation.CallTriggerWithLogging | backbone-xray.js:255-289 | logs exactly when in scope, not an `xray-logging` event and not paused. It always calls the original trigger last and returns undefined |
| Instrumentation.Realm.CallWrapper | backbone-xray.js:399-436 | a call of a wrapper in the heap has the effects and the heap change of `CallMethodWrapper` |
| Instrumentation.RunMethodWrapper | backbone-xray.js:399-436 | the wrapper body, step by step, gives the effects, heap and outcome `CallMethodWrapper` states, and creates no object |
| Instrumentation.Instrumentor.constructor | backbone-xray.js:319-325 | tags the namespace object and collects the objects below it, as the walk from depth 1 does |
| Instrumentation.Instrumentor.FindDescendants | backbone-xray.js:350-368 | tags and pushes exactly what the walk does |
| Instrumentation.Instrumentor.TagChildren | backbone-xray.js:355-360 | the first loop: tags and pushes every instrumentable property value |
| Instrumentation.Instrumentor.DescendChildren | backbone-xray.js:362-367 | the second loop: walks every plain-object property value one level deeper |
| Instrumentation.Instrumentor.WrapMethod | backbone-xray.js:388-439 | changes the heap as `WrapEffect` describes |
| Instrumentation.Instrumentor.ProcessDescendant | backbone-xray.js:380-386 | wraps each own key of the methods parent in turn |
| Instrumentation.Instrumentor.Activate | backbone-xray.js:342-348 | processes the namespace object, then every descendant |
| Activation.FocusList | backbone-xray.js:880-931 | the arguments, or `'*backbone'` when there are none or the first one is `'*'` |
| Activation.ActivateEach | backbone-xray.js:291-299 | activates every instrumentor in order |
| Activation.ActivateRoundsOnlyWraps | backbone-xray.js:291-305 | any number of activation rounds only adds wrappers |
| Activation.ClearedListKeepsAliasScope | backbone-xray.js:966-974 | against the emptied list, an event is in scope exactly when an alias matcher accepts its object, whatever its name |
| Activation.DefaultFocusParses | backbone-xray.js:946-948 | the fallback `focusOn('*')` always validates and parses |
| Activation.Xray.constructor | backbone-xray.js:850-856 | the state after load from a stored item: both lists restored (empty when the item lacks them), settings persisted through the accessors over that item, nothing parsed or configured, the original trigger everywhere |
| Activation.Xray.SetPersistSettings | backbone-xray.js:195-208 | a truthy value rebuilds the accessors and writes the settings read at load back to the store; a falsy one removes the stored item and keeps `xray.settings` |
| Activation.RemoveSettingUndefines | backbone-xray.js:220-224 | a removal throws exactly when an accessor reads a removed item, and otherwise leaves the setting undefined |
| Activation.StopSettingsOutcome | backbone-xray.js:966-974 | the two removals of `stopLogging` throw exactly when the accessors read a removed item; they turn the accessor object into an empty plain object, dropping `throttleTime` and keeping the store, or drop both lists from a plain object; neither list is defined afterwards |
| Activation.ParseDefinesSettings | backbone-xray.js:1010-1013 | after a successful parse with persistence on, both lists read as defined, and the stored item gains both keys exactly when the accessors are in place; with persistence off nothing changes |
| Activation.Xray.ParseEventSpecifiers | backbone-xray.js:981-1017 | on success the lists are replaced, both settings are written when persisted, and the flag is set. A throw leaves the partial lists and neither the flag nor the settings |
| Activation.Xray.FocusOn | backbone-xray.js:880-931 | a `null` first argument stops: the lists and the flag are cleared and the matchers and stored item kept; it throws TypeError exactly when the stop's removals do, then leaving the settings, triggers and pause, and otherwise the settings are what the removals leave, logging is unpaused and the original triggers are back. Otherwise the sorted list replaces the specifiers; it throws exactly when validation fails, with the lists, flag and settings unchanged, and otherwise returns the parsed list with the lists, matchers and settings of the parse. It never installs |
| Activation.Xray.AddInstrumentation | backbone-xray.js:291-305 | activates every instrumentor and points the four prototypes' trigger at the logging one |
| Activation.Xray.RemoveInstrumentation | backbone-xray.js:307-317 | only the four prototypes get the original trigger back; the wrappers stay |
| Activation.Xray.StartLogging | backbone-xray.js:945-964 | the specifiers become the sorted `'*backbone'` when empty; it unpauses; a parse when the list was empty or unparsed sets the lists, matchers and settings, or throws leaving the partial lists and the triggers, listeners, world and formatters untouched; otherwise the formatters are wrapped once and the instrumentation is installed now or, before configure, a listener is added |
| Activation.Xray.EnsureParsed | backbone-xray.js:946-954 | an empty list is first focused on `'*'` (the sorted `'*backbone'`); a list already parsed keeps its lists and settings; otherwise the parse sets the lists, matchers and persisted settings and the parsed flag, or throws leaving the partial lists, the flag unset and the settings untouched; the pause flag, triggers and listeners are untouched |
| Activation.Xray.StopLogging | backbone-xray.js:966-974 | clears both lists and the flag, keeps the matchers and the stored item. When the removals throw it leaves the triggers and the pause; otherwise the settings are what the removals leave, and it unpauses and uninstalls |
| Activation.Xray.PauseLogging | backbone-xray.js:976-979 | sets the pause and nothing else |
| Activation.Xray.Instrument | backbone-xray.js:933-943 | returns the new instrumentors, one per pair, appended in order, each with the descendants of its walk; the heap is where the walks leave it and no logging field changes |
| Activation.NewInstrumentors | backbone-xray.js:936-938 | one fresh instrumentor per `[name, object]` pair, in order, each bound to the realm, walking from where the previous one left the heap |
| Activation.NamespacesWalkOnlyTags | backbone-xray.js:936-938 | building the instrumentors changes nothing in the heap but tags, and every descendant they record is instrumentable and tagged |
| Activation.Xray.FinishConfigure | backbone-xray.js:868-874 | parses if needed, setting the lists, matchers and settings, or throws leaving the partial lists, `configured`, the triggers and the world; otherwise marks configured and activates the instrumentors once per waiting listener |
| Activation.Xray.RunStartListeners | backbone-xray.js:956-960 | every listener left by a `startLogging` before `configure` activates the instrumentors once more: the world is the given number of activation rounds further on, and `trigger` is the logging one as soon as one listener ran |
| Activation.Xray.Trigger | backbone-xray.js:255-289 | the original trigger, or the logging one with the scope check on the instance and the event name; nothing but the timing mark changes |
| Activation.Xray.CallMethod | backbone-xray.js:399-436 | a wrapper call, scope-checked with the wrapper's id as event name |
| Activation.PausedTriggerLogsNothing | backbone-xray.js:255-289 | while paused, nothing is logged or timed, and the original trigger still runs |
| EarlierActivation.XrayEarlier.constructor | backbone.xray.js:195-224 | nothing persisted: empty lists, the original trigger, `config.instrumented` truthy |
| EarlierActivation.XrayEarlier.AddInstrumentation | backbone.xray.js:91-101 | the logging trigger on the listed objects, while `config.instrumented` is truthy, and on the four prototypes |
| EarlierActivation.XrayEarlier.RemoveInstrumentation | backbone.xray.js:103-113 | the original trigger back on exactly the objects install patches |
| EarlierActivation.XrayEarlier.ParseEventSpecifiers | backbone.xray.js:294-330 | the same outcome as the current draft's parse |
| EarlierActivation.XrayEarlier.StartLoggingEvents | backbone.xray.js:271-282 | throws exactly when there are no specifiers, and then changes nothing. An unparsed list is parsed: the lists, matchers and persisted keys of the parse, or TypeError with the partial lists, nothing installed and the settings kept; a parsed list keeps its lists and settings. On success the four prototypes and, while `config.instrumented` is truthy, the listed objects get the logging trigger |
| EarlierActivation.XrayEarlier.StopLoggingEvents | backbone.xray.js:284-288 | uninstalls and empties `loggedEvents`, keeping the specifiers, the flag and the matchers. It throws exactly when settings are not persisted |
| EarlierActivation.XrayEarlier.PauseLoggingEvents | backbone.xray.js:290-292 | changes nothing |
| EarlierActivation.XrayEarlier.LogEvents | backbone.xray.js:256-269 | no arguments or an undefined first argument stop: uninstalled, `loggedEvents` emptied, the specifiers, flag and matchers kept, and TypeError exactly when settings are not persisted, else `loggedEvents` removed from them. Otherwise the sorted arguments replace the specifiers; a failed validation throws with everything else unchanged; success returns the parsed list, with its matchers, both keys persisted and the logging trigger installed |
| EarlierActivation.XrayEarlier.Trigger | backbone.xray.js:115-136 | the original trigger, or the logging one, which cannot be paused; the lists, flag, settings and `config.instrumented` stay |
| EarlierActivation.StopThenStart | backbone.xray.js:271-288 | after stop and start, an event is logged exactly when an alias matcher accepts its object |
| EarlierFormatters.EventFormatterFor | backbone.xray.js:452-474 | the reference definition the scans are proved equal to: the fields (each falling back) of the formatter at the first index whose `match` accepts, all earlier ones rejecting; the defaults when every `match` rejects; TypeError exactly when a `match` that is not a function is reached first |
| EarlierFormatters.ReverseInPlace | backbone.xray.js:453 | the array holds its reversal |
| EarlierFormatters.EventFormatterTable.constructor | backbone.xray.js:186-193 | the table holds the given formatters |
| EarlierFormatters.EventFormatterTable.AddFormatters | backbone.xray.js:447-450 | a new array: the old formatters, then the added ones |
| EarlierFormatters.EventFormatterTable.GetEventFormatter | backbone.xray.js:452-474 | reverses the array, and picks in the order it had before the call |
| EarlierFormatters.ScanFromEnd | backbone.xray.js:453-466 | reading the reversed array from its last index down picks the fields of the first formatter, in original order, whose `match` accepts; no accepting formatter gives the defaults, and a formatter without `match` throws a TypeError |
| EarlierFormatters.CallTwice | backbone.xray.js:452-474 | the second call tries the formatters in reverse, and the array ends as it began |
| EarlierFormatters.AlternatingChoice | backbone.xray.js:452-474 | an example: two accepting formatters are chosen alternately |
| EarlierFormatters.DefaultEventTitleFormat | backbone.xray.js:423-445 | as written: throws exactly when `obj.name` is truthy and `obj.get` is not a function. Otherwise the title is `Type(…)` |
| EarlierFormatters.TitleForms | backbone.xray.js:423-445 | a title shows a name exactly when `get('name')` is truthy, and an id exactly when it shows no name and `id` is truthy |
| EarlierFormatters.DefaultEventTitleFormatIntended | backbone.xray.js:429 | the intended title is always `Type(…)` |
| EarlierFormatters.IntendedTitleProperties | backbone.xray.js:423-445 | the intended title uses a truthy `obj.name` first, and agrees with the written one when `obj.name` is falsy |
| EarlierFormatters.NamedObjectWithoutGetThrows | backbone.xray.js:429 | a View named `todo-list` without `get` throws as written and is titled by name as intended |

## Left out

- Persisted settings in `localStorage` (backbone-xray.js:141-224,
  backbone.xray.js:17-78) are modelled by which setting keys hold a
  defined value: in the stored item, or in a plain `xray.settings`. The
  values themselves, `JSON` round trips and `addSetting` are not kept.
- Activation.Xray.constructor: models the load with a stored item only.
  With nothing stored, backbone-xray.js:854 throws TypeError at load, so
  `xray.settings = null` (line 1140) is never reached and no state follows.
- The automatic `startLogging` at load (backbone-xray.js:1145) is
  `Activation.Xray.StartLogging` applied to the constructed state when the
  restored list is not empty; it is not a separate member.
- FormatterValues.Names: a `name` that is not a string is taken as absent,
  so two formatters with different non-string names (numbers, say) count
  as a collision, where `_.intersection` would keep them apart.
- Timing with `performance.mark` and `now()`: a floating-point clock.
  Only the count of `xray-taken` marks is kept, and an event is logged
  without an elapsed time only while there is no mark.
- Console rendering is left out: the console calls of `_wrapFormatters`,
  the default `log` and the earlier `logEvent`. What is modelled instead
  is the render directive.
- `_.defer` scheduling and `xray.log` are left out; a scheduled log entry
  appears as an effect.
- Stack capture through `throw Error()` is left out; the stack text is an
  input.
- The regex engine is a parameter (compiles, test); only the fixed patterns
  of the stack and query helpers are modelled.
- `decodeURIComponent` is a parameter.
- Backbone's event bus (`'xray-configure'`, `'xray-logging-start'`,
  `'xray-logging-stop'`) is modelled as direct calls.
- DOM and UI are left out: `openUi`, `util.parseUri` and the UI file.
- `Instrumentor.parseInstrumentedObjects` is left out: its global-path
  lookup on `window` is replaced by references given to `instrument`.
- Inherited enumerable properties in for-in loops are left out; only own
  properties are visited.
- `configure` before its last lines is left out: the deep `$.extend` of
  the configuration and `_resetConfig`. Its alias, formatter and
  instrument calls are modelled as separate operations.
- Specifiers.SortEventSpecifiers: stated as a stable partition (ranked
  values first). The comparator's throw on `''` and the order a browser's
  sort leaves within each group are not modelled.
- Aliases: the alias `while` loop is bounded by a fuel parameter, and the
  fuel-bounded outcome `Diverged` stands for a loop that never ends.
- Constructor-name resolution in the earlier draft (`this.constructors`
  read with an unbound `this`) is a parameter `resolve`.
- Instrumentation.Instrumentor.constructor: requires the namespace root to
  be an object of the heap; the assignment to a primitive root is not
  modelled.
- A throw from `delegateEvents` or from the wrapped original is carried as
  the given outcome; what those functions do is not modelled.
- The wrapper function's own `prototype` is modelled as `undefined`, which
  `_.isEmpty` treats like the empty object it is.
- EarlierFormatters.DefaultEventTitleFormat: `getTypeOf(obj)` is taken as
  the parameter `typeName`.
- EarlierActivation.XrayEarlier.constructor: the draft never assigns
  `xray.instrumented`, so its length is a parameter, 0 in practice.
- Underscore versions: `_.union(callback, fns)` with a non-array callback
  is a parameter (`unionKeepsCallback`). Otherwise Underscore 1.7 or later
  is assumed.

## Findings

| source | as written | input that shows it | evidently intended | confidence | as-written member | corrected member |
|---|---|---|---|---|---|---|
| backbone.xray.js:429 | `obj.name` or `_.isFunction(obj.get)` is the condition of the `?:`, because `?:` binds more loosely than the logical or | a View with `name` `"todo-list"` and no `get` method: `obj.get('name')` throws TypeError | `obj.name` first, and `obj.get('name')` only when `get` is a function | not executed | EarlierFormatters.DefaultEventTitleFormat | EarlierFormatters.DefaultEventTitleFormatIntended |
