# quadlets-generator: the form-data pipeline

A Dafny model of the core of a generator for Podman quadlet files and `podman run`
command lines. The browser form gives every input a flat name:

- `option.param`;
- `option.param[n]`;
- `option.param.keys[n]`;
- `option.param.values[n]`.

The pipeline has four stages:

1. `parseFormData` takes the submitted `name=value` entries in one left-to-right pass. It regroups them into a result object that maps each option name to a list of records, one record per instance of the option.
2. `generatePairs` turns the records into `(key, value)` pairs. In config mode the key is the option's catalogue name. In command mode it is the `podman run` argument, and a record with a pair map is split into one pair per map entry.
3. The formatters of the option catalogue (`Format.sepSpace`, `Format.mapping`, `Format.pair` and two inline lambdas) produce the values.
4. `generateQuadlet` writes `key=value` lines. `generatePodmanRun` writes `podman <modules> run --key value ... <image> <exec>`.

The model is functional throughout:

- JavaScript objects are insertion-ordered association lists (`Assoc`). Assigning to a present key keeps its place; assigning to a new key appends it.
- The parser is a fold (`FormParser.Run`) over a sequence of entries, with an explicit state datatype.
- A missing property, or an unset variable used as a key, is modelled as JavaScript's `undefined`: `Value.Undefined`, and the key `"undefined"`.
- Formatter type errors are `Err("TypeError")`.

The parser's quirks are kept as written:

- At `script.js:351` the new value is also written under the previous field of the record being closed.
- The pair buffer is never checked at `script.js:326-331`: a repeated or out-of-sequence pair index closes no record by itself; only a pending array does, so a pair entry that follows an array of another field starts a new record.
- A change of array field closes the record.
- An empty form still gives one empty record under the option `undefined`.

Modules, in dependency order:

- `Wrappers`, `Strings`, `Seqs`, `Assoc`: the JavaScript primitives used. These are `split`, `join`, `indexOf`, `Number` on decimal digits, `[...new Set(xs)]` and property assignment.
- `Records`: values, records, and the `String(v)` and `Boolean(v)` coercions.
- `Catalogue`: the container option catalogue and its schema rules.
- `FieldNames`: the field-name encoding of the renderers and the decoding in the parser loop.
- `FormParser`: `parseFormData`.
- `ParserFacts` and `ParserClean`: what the parser guarantees.
- `Formats`: the formatters.
- `Generate`: `generatePairs`, `generateQuadlet` and `generatePodmanRun`.
- `Fixtures`: `generateFormData` and the parser's test table.

## Model

| member | source | states |
|---|---|---|
| Assoc.Put | script.js:355 | property assignment: the keys afterwards are the old keys with the assigned key added at the end only if it was new; unique keys stay unique |
| Assoc.PutGet | script.js:338 | after `m[k] = v`, reading `k` gives `v` and every other key reads as before |
| Assoc.PutFresh | script.js:355 | assigning to a key not yet present appends the entry at the end |
| Assoc.PutFrame | script.js:355 | assigning to one key leaves every other key's value unchanged |
| Assoc.GetAt | script.js:288 | reading a key gives the value at its first occurrence |
| Assoc.PutAt | script.js:355 | assigning to a key that is already present replaces its entry in place; every other entry keeps its position |
| Seqs.DistinctElements | options.js:28 | `[...new Set(xs)]` holds each element of `xs` exactly once and nothing else |
| Seqs.DistinctFirstSeenOrder | options.js:28 | `[...new Set(xs)]` lists elements in the order of their first occurrence |
| Strings.ParseNatToString | script.js:311-313 | `Number` on the bracket text reads back the index the renderer wrote with a template literal |
| FieldNames.DecodeEncode | script.js:304-313 | decoding any of the four rendered name shapes gives back option, field, pair role and index, when option and param hold no `.`, `[` or `]` |
| FieldNames.DecodeBracketedName | script.js:306-313 | a name ending in `]` decodes to the text before `[` as field (or role) and the decimal number between the brackets as index |
| FieldNames.EncodeFirstSegment | script.js:304-305 | the first `.`-segment of a rendered name is the option, so the `submit` check looks at the option |
| FormParser.Push | script.js:286-291 | `result[k] ??= []; result[k].push(rec)`: `k` joins the keys only if new, and its list becomes the old list plus `rec` |
| FormParser.PushOther | script.js:286-291 | pushing under one option leaves every other option's list unchanged |
| FormParser.PushFresh | script.js:288-289 | the first record of an option appends the option with a one-record list |
| FormParser.PushExisting | script.js:288-289 | a further record of an option already present is appended to that option's list; the option keeps its place and every other option's entry is unchanged |
| FormParser.FlushFields | script.js:272-284 | a pending array, then pending pairs, are stored under the last field and the buffers emptied; empty buffers store nothing; every other field of the record keeps its value; results, option and field are untouched |
| FormParser.FlushRecord | script.js:286-291 | the record being filled is appended to the previous option's list and a new empty record begins |
| FormParser.EnterOptionCases | script.js:315-322 | the same option continues the record; the first option only sets it; another option closes the record, buffers included, into the previous option's list |
| ParserFacts.Accepted | script.js:301-305 | the entries kept are exactly the input's entries that are not skipped |
| ParserFacts.AcceptedConcat | script.js:299-305 | filtering a concatenation filters each part in turn, so the kept entries stay in input order |
| ParserFacts.AcceptedOne | script.js:301-305 | a single entry is kept exactly when it is not skipped |
| ParserFacts.ParseSkipsSkipped | script.js:299-305 | entries named `submit`, with first segment `submit` or with an empty value change nothing: the result equals that of the form without them |
| ParserFacts.RunSkipsSkipped | script.js:299-305 | the same, for the loop from any state |
| ParserFacts.ParseOptionOrder | script.js:286-322 | the result's options are the distinct options of the accepted entries in first-appearance order; with no accepted entry the result is exactly one empty record under `undefined` |
| ParserFacts.ParseOptionsUnique | script.js:286-322 | each option appears once in the result, and exactly the options named by accepted entries do |
| ParserFacts.RunExtends | script.js:286-291 | during the loop every option's list of records only grows at the end |
| ParserFacts.RunConcat | script.js:299-357 | the loop over two consecutive stretches of entries is the loop over the second from where the first ended |
| ParserFacts.ItemOutOfSequence | script.js:324-345 | an array item whose index differs from the number of items collected, or whose field differs from the last, closes the record and starts an array holding only this item |
| ParserFacts.ItemRestartFed | script.js:326-343 | the same on a decoded item: the result is the closed state with the array reset to this item |
| FormParser.IndexedRestart | script.js:326-343 | in the bracketed-entry branch, an array item that does not continue a non-empty pending array closes the record, buffers included, and the new array holds only this item |
| FormParser.PairKeyRestart | script.js:326-335 | a pair key whose index or field does not continue a non-empty pending array closes the record, buffers included, and becomes the remembered pair key |
| ParserFacts.ItemAppends | script.js:339-343 | the next index of the field being collected appends the value to the array and closes nothing |
| ParserFacts.CollectArray | script.js:324-345 | items of one field with consecutive indices from the number already collected all land in one array, in order, and no record is closed |
| ParserFacts.ParseArrayAlone | script.js:324-363 | a form of items `o.p[0]` … `o.p[k-1]` alone parses to one record holding the array `p` with the values in order |
| ParserFacts.RepeatedScalar | script.js:347-356 | a scalar field the record already holds closes it: the option gains one record, which also carries the new value under the previous field, and the new record holds just this field |
| ParserFacts.FreshScalar | script.js:347-356 | a scalar field new to the record is appended at its end, after the flushed buffers, with every earlier field unchanged; no record is closed |
| ParserFacts.FreshScalarFed | script.js:347-356 | the same on a decoded entry: pending buffers are stored first, then the field is appended |
| ParserFacts.FlushArrayFresh | script.js:274-277 | a pending array is stored at the end of the record under the last field when the record lacks that field |
| ParserFacts.OptionChange | script.js:315-322 | an entry of another option appends the pending record, buffers stored, to the previous option's list and adds nothing to the new option's list |
| ParserFacts.OptionChangeFed | script.js:315-322 | an entry of another option is read as if the pending record had been closed first |
| ParserFacts.CloseKeys | script.js:286-291 | closing adds the previous option, or `undefined` when none was set, to the result's keys if new |
| ParserFacts.PairKeyBuffered | script.js:335-336 | a `keys` entry only remembers its value as the pending key; it closes no record while no array is pending |
| ParserFacts.PairValueStored | script.js:337-338 | a `values` entry stores its value under the remembered key; a key already present is overwritten in place and every other pending pair keeps its value |
| ParserFacts.KeyThenValue | script.js:335-338 | a `keys` entry followed by a `values` entry leaves the value stored under that key |
| ParserFacts.RunFeed | script.js:299-357 | running over entries that each decode to a given field is feeding those decoded fields |
| ParserClean.ParseClean | script.js:269-364 | every option of the result holds at least one record; options are distinct; no record repeats a field or holds an empty value, an empty array or an empty pair map |
| Catalogue.ContainerWellFormed | options.js:62-73 | every container option has at most one `pair` parameter, every `select` carries its options, and option and parameter names are unique and safe in field names |
| Formats.SepSpaceText | options.js:10-12 | a single value comes back unchanged |
| Formats.SepSpaceSplits | options.js:10-12 | splitting the output at spaces gives back the values in order, when none holds a space |
| Formats.MappingRoundTrip | options.js:21-33 | a mapping starts with `-` exactly when `ifExists` holds; then come host, the container only when given, and the deduplicated permissions only when there are any, in that order and `:`-separated |
| Formats.MappingDeduplicates | options.js:28 | repeated permissions count once: `[r, w, r]` gives `rw` |
| Formats.PairWord | options.js:41-43 | an entry is wrapped in double quotes exactly when its value holds a space |
| Formats.PairTextRoundTrip | options.js:39-45 | reading the output back word by word gives the entries in insertion order |
| Formats.HostIpRoundTrip | options.js:174 | the first `:` of `hostname:ip` separates the hostname from the address |
| Formats.EntriesOf | options.js:40 | `Object.entries` throws only on `undefined`; a pair map gives its own entries; strings and arrays give one entry per element |
| Formats.PermissionItems | options.js:24-28 | absent permissions default to none; an array gives its items; a pair map cannot be spread into a set |
| Formats.OptionalText | options.js:23 | the container is `null` exactly when the record lacks it |
| Formats.ApplyFormat | options.js:10-45 | a formatter fails exactly when `sepSpace` gets no array, `mapping` gets a pair map as permissions, or `pair` gets no values; the default passes `value` on unchanged; the named formatters give strings |
| Generate.FirstPairs | script.js:391-394 | finds a field of the record holding a pair map, or shows that none does |
| Generate.SplitPairs | script.js:396-402 | one pair per map entry, in order, each keyed by the option's argument; the i-th value is the format applied to the record whose pair field holds just the i-th entry; it succeeds exactly when every one of those formats does |
| Generate.Collect | script.js:397-402 | the pushes succeed exactly when every formatted result does, and give one `(arg, value)` per result in order |
| Generate.ConfigOptionPairs | script.js:375-381 | in config mode each record of an option gives one pair: the option's name and the record passed through `format` |
| Generate.ConfigIgnoresArgFormat | script.js:376-381 | config mode gives the same pairs whatever the option's `argFormat` |
| Generate.ConfigPairsPerRecord | script.js:374-381 | config mode gives exactly one pair per record, options in result order and records in list order; each is the option's catalogue name and the record passed through that option's `format` |
| Generate.EmptyOptionSkipped | script.js:374-377 | an option with no records adds no pairs and is never looked up in the catalogue, whatever its name |
| Generate.UnknownOptionFails | script.js:375-379 | an option missing from the catalogue, such as `undefined`, that has a record makes generation fail in either mode |
| Generate.FlatMap | script.js:374-409 | running a per-record step over the records in turn succeeds exactly when every step does, and then gives their pairs concatenated in order |
| Generate.FlatPairs | script.js:374-409 | generation record by record, with the catalogue consulted for each record, succeeds exactly when every record is found and formatted |
| Generate.GeneratePairsPerRecord | script.js:374-409 | in either mode (command mode included) generation gives the pairs of each record in output order, each record's option looked up and its pairs formed in turn, or else the first error met |
| Generate.CommandPairsPerRecord | script.js:384-408 | command mode gives one pair per map entry for a record holding a pair map and exactly one pair otherwise, all keyed by the option's argument; each value is the option's `argFormat`, else its `format`, else the identity, applied to the record, with the pair field narrowed to that one entry when there is a map |
| Generate.AnnotationSplits | options.js:190-203 | an Annotation record with pair map entries gives one `annotation` argument per entry, holding just that entry's `key=value` word; config mode writes all the entries in one value |
| Generate.AnnotationExample | script.js:396-402 | the annotations `A: B` and `C: D` give the arguments `annotation` `A=B` and `annotation` `C=D` |
| Generate.AutoUpdatePairs | options.js:204-206 | AutoUpdate's run argument is `label` with `io.containers.autoupdate=` followed by the value; its quadlet pair is `AutoUpdate` with the plain value |
| Generate.QuadletRoundTrip | script.js:419-422 | quadlet text has one line per pair, in order, and each line reads back as the key and the displayed value |
| Generate.LineReadsBack | script.js:421 | a line cut at its first `=` gives the key and the displayed value when the key has no `=` |
| Generate.CollectArgsParts | script.js:433-447 | the loop collects the module values and the `--key value` flags in order, and the last image and last exec |
| Generate.PodmanRunWords | script.js:428-452 | the command is `podman`, the module values, `run`, the other pairs as `--key value` in order, then the last image and the last exec, falsy parts left out, joined by single spaces |
| Generate.PodmanRunStartsWithPodman | script.js:449-451 | the command always starts with `podman` |
| Fixtures.StripTag | test.js:10-11 | a name without `/` is kept whole; otherwise the result is the prefix before the first `/` |
| Fixtures.StripTagged | test.js:10-11 | a `/tag` suffix is removed whatever the tag holds |
| Fixtures.StripTagIdempotent | test.js:10-11 | stripping twice strips nothing more |
| Fixtures.GenerateFormData | test.js:7-15 | one entry per key, in order, under the stripped name and with the value unchanged |
| Fixtures.UntaggedFormData | test.js:9-11 | without tags the form data is the object's entries as they are |
| Fixtures.DeviceHost | test.js:18 | a single scalar gives one option with one record holding that field |
| Fixtures.DeviceHostContainer | test.js:19-22 | two scalars of one option stay in one record, in order |
| Fixtures.TwoOptions | test.js:23-33 | a new option name opens its own list after the first option's record |
| Fixtures.SingleItem | test.js:34-37 | one item gives one record whose field is a one-item array |
| Fixtures.ItemThenScalar | test.js:38-41 | an array followed by a scalar of the same option gives one record, array first |
| Fixtures.TwoItems | test.js:42-50 | `options[0]`, `options[1]` give one record with both values in order |
| Fixtures.TwoItemsThenScalar | test.js:51-62 | two items then a scalar give one record holding the array then the scalar |
| Fixtures.RepeatedItem | test.js:63-74 | two `options[0]` entries give two records |
| Fixtures.RepeatedItemThenScalar | test.js:75-87 | two `options[0]` entries then a scalar: the scalar attaches to the second record |
| Fixtures.ArrayThenOtherOption | test.js:88-97 | an array of one option then a scalar of another give one record under each, in order |

## Left out

- The DOM: element creation, labels, required markers, the `+`/`-` handlers, display toggling, random ids, event listeners and page bootstrap. These are UI; only the `name` strings the renderers build are modelled (`FieldNames.Encode`).
- The browser `FormData` API. Form data is a sequence of `(name, value)` string pairs; file values do not occur.
- JavaScript objects in full. Records are association lists, so the prototype chain (`field in currentParams` seeing inherited names such as `constructor`) is not modelled. Nor is the special key `__proto__`: assigning a string to it (a pair key typed as `__proto__`, stored at script.js:338) stores nothing in the source, while `Assoc.Put` stores an ordinary entry. Nor is the rule that `Object.entries` lists integer-like keys first, in numeric order. Field and option names come from the catalogue and are never integer-like, but pair-map keys are typed by the user: an annotation key such as `2` is listed first by the source (options.js:40, script.js:397), while `Formats.PairTextRoundTrip` and `Generate.SplitPairs` keep insertion order.
- Malformed names. The parser assumes valid data. `FieldNames.Decode` returns `None` outside the four rendered shapes, and `FormParser.Parse` requires every entry to be skipped or decodable. So a non-numeric index (where `Number` would give `NaN` or `0`) and names with more than three segments are not modelled.
- Number precision: indices are unbounded naturals; `Number` loses precision above 2^53.
- `allowMultiple` is carried in the catalogue but nothing in the core enforces it.
- The full catalogue as presentation data. The capability list and select labels are constants; placeholders and display names are carried but unused.
- Shell escaping of command-line values. The source does not escape either (it has a TODO for it).
- Exceptions. A thrown `TypeError` is `Err("TypeError")`; its message is not modelled.
- Formatter results are strings. `String(v)` of a value is `Records.Display`: an array joins with `,`, an object shows as `[object Object]`.
- Formats.SepSpaceText: the contract states the single-value identity only. The general property, that splitting at spaces recovers the values, is `Formats.SepSpaceSplits`.
- Generate.FirstPairs: states only that the returned field holds a pair map, not that it is the first such field; `Generate.CommandPairsPerRecord` relies only on that.
- Strings are sequences of Unicode scalar values, not JavaScript's UTF-16 code units. So string lengths, and the characters `Formats.EntriesOf` yields for a string, differ from the source's for text outside the Basic Multilingual Plane.
- Fixtures: the test object is given entry by entry (its length and each entry) rather than as one sequence literal. The test's `JSON.stringify` comparison becomes equality of the ordered results.
