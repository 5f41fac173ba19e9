# Task configuration of the scheduler, in Dafny

This project models three parts of the scheduler's configuration layer:

- **Environment-placeholder substitution** (`EnvReplacer`, src/yaml/mod.rs).
  A YAML document is walked. Each string leaf is scanned for the leftmost `env!(`. The text up to the next `)` names an environment variable. Every occurrence of `env!(NAME)` is replaced by that variable's value, and the string is scanned again.
- **The typed-value parser** (`Value::from_entry` and `Value::from_basic_entry`, src/config/value.rs).
  A YAML mapping carries a `type` tag and the fields that tag asks for. It is decoded into the closed sum `Array | Object | String | Bool | Float | Integer | Null | Source`.
  - The full vocabulary has eight tags.
  - The restricted vocabulary, used for headers, has four: `source`, `integer`, `float` and `string`.
- **The HTTP task fields** (src/config/http.rs).
  - The method name.
  - The headers map: each entry is decoded with the restricted vocabulary, failing at the first error.
  - The request body: a single `json` entry, decoded with the full vocabulary.

Modules, one per file:

| file | module | what it holds |
|---|---|---|
| wrappers.dfy | `Wrappers` | `Option` and `Result` |
| yaml_node.dfy | `Yaml` | serde_yml's value tree, its numbers, and the `get` / `insert` of its insertion-ordered mapping |
| text.dfy | `Text` | `str::find` and `str::replace` |
| env_replacer.dfy | `EnvReplacer` | `find_env`, `replace_string`, `replace_value`, `replace_sequence` and `replace_mapping` |
| env_replacer_examples.dfy | `EnvReplacerExamples` | the cases of `test_env_replacer` |
| config_value.dfy | `ConfigValue` | `Value`, `ParseEntryError` and every getter of `impl Value` |
| http_config.dfy | `HttpConfig` | `visit_str`, the headers visitor, `Headers::default` and the body visitor |
| http_config_examples.dfy | `HttpConfigExamples` | the headers and body of `test_deserialize_task` |

Where the source fills a container in a loop, the model has a method with that loop. This covers `find_env`, `replace_sequence`, `replace_mapping`, `get_object`, `get_array` and the headers visitor. Each such method's postcondition equals it to a specification function, and the lemmas state the properties of that function.

Modelling choices:

- **The environment** is a `map<string, string>` parameter, a snapshot of what `std::env::vars()` returns.
- **serde's `MapAccess`** is the finite sequence of `(key, mapping)` entries it yields, in document order.
- **Rescans** in `replace_string` are bounded by `fuel`. Running out gives a distinct `OutOfFuel` result; see "Findings".
- **serde_yml accessors** (`as_str`, `as_bool`, `as_sequence` and `as_mapping`) look through YAML tags, as serde_yml's accessors do (`Yaml.Untag`). The direct `match` on a node in `get_float`, `get_integer` and `get_string` does not look through tags, and neither does the model.

## Model

| member | source | states |
|---|---|---|
| Text.Find | src/yaml/mod.rs:97 | `str::find`: a reported index leaves room for the whole pattern; `FindSpec` and `FindLeftmost` state that it is the leftmost occurrence |
| Text.FindSpec | src/yaml/mod.rs:97-100 | `find` reports an occurrence of the pattern, and it is the leftmost; it reports none only when the pattern does not occur |
| Text.FindLeftmost | src/yaml/mod.rs:97-100 | the leftmost occurrence of the pattern is the index `find` returns |
| Text.ReplaceAll | src/yaml/mod.rs:60 | `str::replace`: left to right, non-overlapping; `ReplaceAllAbsent` and `ReplaceAllAtFirst` together determine it |
| Text.ReplaceAllAbsent | src/yaml/mod.rs:60 | `replace` leaves a string without the pattern unchanged |
| Text.ReplaceAllAtFirst | src/yaml/mod.rs:60 | `replace` keeps the text before the leftmost occurrence, substitutes it, and continues after it (every occurrence is replaced, not only the first) |
| Yaml.KeyIndex | src/config/value.rs:83-85 | the index found holds the key; `KeyIndexSpec` states it is the first such and that none means absent |
| Yaml.Get | src/config/value.rs:83-85 | `Mapping::get`: the value found lies inside the mapping; `GetSpec` states when it is found and which value it is |
| Yaml.KeyIndexSpec | src/config/value.rs:83-85 | mapping lookup finds the first entry with the key, and finds nothing only when no entry has it |
| Yaml.GetSpec | src/config/value.rs:83-85 | `Mapping::get` returns a value exactly when the key is present; with distinct keys it is that key's value |
| Yaml.Insert | src/yaml/mod.rs:86 | inserting a key that is not yet present appends the entry at the end |
| Yaml.InsertFrom | src/yaml/mod.rs:86 | after an insert, every entry was already there or is the inserted one |
| Yaml.AsStr | src/config/value.rs:88 | `as_str`: a string exactly when the node under its tags is a string, and then that string |
| Yaml.AsBool | src/config/value.rs:142 | `as_bool`: a boolean exactly when the node under its tags is a boolean, and then that boolean |
| Yaml.AsSequence | src/config/value.rs:104 | `as_sequence`: a sequence exactly when the node under its tags is a sequence, and then its items |
| Yaml.AsMapping | src/config/value.rs:120 | `as_mapping`: a mapping exactly when the node under its tags is a mapping, and then its entries |
| Yaml.AsI64 | src/config/value.rs:169 | `as_i64`: fails exactly for a float or an unsigned integer above the signed 64-bit maximum |
| Yaml.I64RoundTrip | src/config/value.rs:169 | `as_i64` reads back the integer stored for it, and a number it reads is the one stored for that integer |
| Yaml.AsF64 | src/config/value.rs:154 | `as_f64` converts every number; its result is characterised by `ConfigValue.FloatEntry` |
| EnvReplacer.FindEnvName | src/yaml/mod.rs:92-115 | what `find_env` computes; its outcomes are stated by `FindEnvNameOutcome` and `PlaceholderFound` |
| EnvReplacer.FindEnv | src/yaml/mod.rs:92-115 | the loop that accumulates the name character by character returns exactly the specification `FindEnvName` |
| EnvReplacer.FindEnvNameOutcome | src/yaml/mod.rs:92-115 | no name exactly when there is no `env!(`; `InvalidEnvSyntax` exactly when no `)` follows the leftmost `env!(`; otherwise the characters between that `env!(` and the first `)` after it |
| EnvReplacer.PlaceholderFound | src/yaml/mod.rs:92-115 | a placeholder at the leftmost `env!(` yields exactly its name |
| EnvReplacer.ReplaceStep | src/yaml/mod.rs:49-62 | one pass of `replace_string`; `PlaceholderStep`, `PlaceholderUnset`, `MarkerUnclosed` and `SelfReferenceLoops` state its results |
| EnvReplacer.ReplaceString | src/yaml/mod.rs:48-66 | `replace_string` with at most `fuel` rescans; its outcomes are stated by `ReplaceStringOutcome` and `StringFuelMonotone` |
| EnvReplacer.ReplaceStringOutcome | src/yaml/mod.rs:48-66 | a string without `env!(` is returned unchanged; an unclosed placeholder is `InvalidEnvSyntax`; an unset variable is `EnvVarNotFound` with its name; a successful result holds no `env!(`; every error is one of these two |
| EnvReplacer.PlaceholderStep | src/yaml/mod.rs:53-62 | when the variable of the leftmost placeholder is set, one pass keeps the text before it and puts the value in place of that placeholder and of every later occurrence of the same placeholder |
| EnvReplacer.PlaceholderUnset | src/yaml/mod.rs:55-58 | when the variable of the leftmost placeholder is unset, the result is `EnvVarNotFound(name)`, whatever follows |
| EnvReplacer.MarkerUnclosed | src/yaml/mod.rs:106-114 | when no `)` follows the leftmost `env!(`, the result is `InvalidEnvSyntax` |
| EnvReplacer.StringFuelMonotone | src/yaml/mod.rs:62 | once a string resolves or fails within some number of rescans, more rescans give the same outcome |
| EnvReplacer.SelfReferenceLoops | src/yaml/mod.rs:60-62 | a variable whose value is its own placeholder makes one pass rewrite the string to itself, so no number of rescans ends |
| EnvReplacer.Resolve | src/yaml/mod.rs:36-46 | null, boolean, number and tagged nodes are returned unchanged |
| EnvReplacer.ReplaceValue | src/yaml/mod.rs:36-46 | the dispatch on the kind of node returns exactly the specification `Resolve` |
| EnvReplacer.ReplaceSequence | src/yaml/mod.rs:68-78 | the push loop with its early return returns exactly `Resolve` of the sequence |
| EnvReplacer.ReplaceMapping | src/yaml/mod.rs:80-90 | the insert loop with its early return returns exactly `Resolve` of the mapping |
| EnvReplacer.ResolveItems | src/yaml/mod.rs:68-78 | what `replace_sequence` builds; `ResolveItemsElementwise` and `ResolveItemsFirstFailure` state it |
| EnvReplacer.ResolveEntries | src/yaml/mod.rs:80-90 | what `replace_mapping` builds; `ResolveEntriesKeys` and `ResolveEntriesFirstFailure` state it |
| EnvReplacer.ResolveItemsElementwise | src/yaml/mod.rs:68-78 | a resolved sequence has the same length and order, and element i is the resolution of element i |
| EnvReplacer.ResolveItemsFirstFailure | src/yaml/mod.rs:68-78 | a sequence fails exactly when an element fails, and then with the outcome of the first element that fails |
| EnvReplacer.ResolveEntriesKeys | src/yaml/mod.rs:80-90 | resolving a mapping with distinct keys keeps its keys and their order; value i is the resolution of value i; keys are never scanned |
| EnvReplacer.ResolveEntriesFirstFailure | src/yaml/mod.rs:80-90 | a mapping fails with the outcome of the first value that fails |
| EnvReplacer.ResolvedHasNoPlaceholders | src/yaml/mod.rs:36-90 | no string that the walk scans in a resolved document holds `env!(` |
| EnvReplacer.FixedPoint | src/yaml/mod.rs:36-46 | a document whose scanned strings hold no `env!(` resolves to itself, whatever the environment |
| EnvReplacer.ResolvePreservesWellFormed | src/yaml/mod.rs:80-90 | resolution keeps every mapping's keys distinct |
| EnvReplacer.Idempotent | src/yaml/mod.rs:36-90 | resolving a resolved document again changes nothing |
| EnvReplacer.FuelMonotone | src/yaml/mod.rs:48-66 | a document that resolves or fails within some number of rescans per string gives the same outcome with more |
| EnvReplacerExamples.TokenOnly | src/yaml/mod.rs:133 | `env!(TOKEN)` resolves to `example_token` |
| EnvReplacerExamples.UrlWithPath | src/yaml/mod.rs:134-138 | `env!(URL)/load` resolves to `http://localhost:3030/load` |
| EnvReplacerExamples.SequenceDocument | src/yaml/mod.rs:139-143 | `test: ["env!(TOKEN)", "env!(URL)/load"]` resolves element by element |
| EnvReplacerExamples.TwoPlaceholders | src/yaml/mod.rs:144-148 | `env!(URL)/env!(TOKEN)/` resolves to `http://localhost:3030/example_token/` in two passes |
| EnvReplacerExamples.TwoPlaceholderDocument | src/yaml/mod.rs:144-148 | the whole document of that case resolves to the expected tree |
| EnvReplacerExamples.UnsetVariable | src/yaml/mod.rs:149-155 | `env!(RANDOM_ENV)` with no such variable fails with `EnvVarNotFound("RANDOM_ENV")` |
| EnvReplacerExamples.UnclosedPlaceholder | src/yaml/mod.rs:156-160 | `env!(RANDOM_ENV` fails with `InvalidEnvSyntax` |
| EnvReplacerExamples.RepeatedPlaceholder | src/yaml/mod.rs:60-62 | a string holding the same set placeholder twice, such as `env!(TOKEN)/env!(TOKEN)`, has both replaced in one pass and then resolves |
| EnvReplacerExamples.RepeatedPlaceholderStep | src/yaml/mod.rs:60 | the pass over such a string replaces both occurrences |
| ConfigValue.Parse | src/config/value.rs:67-72 | what `from_entry` computes; the lemmas below state its outcome for each tag |
| ConfigValue.ParseByType | src/config/value.rs:245-260 | what `parse_entry_by_type` computes; `NullTag`, `UnknownTag` and the per-tag lemmas state it |
| ConfigValue.FromBasicEntry | src/config/value.rs:74-78 | `from_basic_entry`; `BasicAgreesWithFull`, `TypeTagErrors` and `BasicRoundTrip` state it |
| ConfigValue.ParseBasicByType | src/config/value.rs:262-273 | `parse_basic_entry_by_type`; `UnknownTag`, `NullTag` and `BasicAgreesWithFull` state it |
| ConfigValue.GetType | src/config/value.rs:80-92 | `get_type`; its errors are stated by `TypeTagErrors` |
| ConfigValue.GetItems | src/config/value.rs:94-108 | `get_items`: the sequence found lies inside the entry; its errors are stated by `ArrayEntry` |
| ConfigValue.GetProperties | src/config/value.rs:110-124 | `get_properties`: the mapping found lies inside the entry; its errors are stated by `ObjectEntry` |
| ConfigValue.GetValue | src/config/value.rs:126-136 | `get_value`; a missing field is stated by `ScalarNeedsValue` |
| ConfigValue.GetBool | src/config/value.rs:138-146 | `get_bool`; stated by `BooleanEntry` |
| ConfigValue.GetFloat | src/config/value.rs:148-161 | `get_float`; stated by `FloatEntry` |
| ConfigValue.GetInteger | src/config/value.rs:163-176 | `get_integer`; stated by `IntegerEntry` |
| ConfigValue.GetString | src/config/value.rs:178-185 | `get_string`; stated by `StringEntry` |
| ConfigValue.GetSource | src/config/value.rs:225-243 | `get_source`; stated by `SourceEntry` |
| ConfigValue.ParseObject | src/config/value.rs:187-206 | what `get_object` computes; `ObjectEntry` and the `Properties` lemmas state it |
| ConfigValue.ParseProperties | src/config/value.rs:191-203 | the object built from the first properties; `PropertiesAllOk`, `PropertiesKeys`, `PropertiesLastWins` and `PropertiesFirstFailure` state it |
| ConfigValue.ParseProperty | src/config/value.rs:192-200 | one property of an object; stated by `PropertyErrors` |
| ConfigValue.ParseArray | src/config/value.rs:208-223 | what `get_array` computes; `ArrayEntry` and the `Items` lemmas state it |
| ConfigValue.ParseItems | src/config/value.rs:212-220 | the array built from the first items; `ItemsElementwise` and `ItemsFirstFailure` state it |
| ConfigValue.ParseItem | src/config/value.rs:213-217 | one array item; stated by `ItemNotMapping` and `ItemsElementwise` |
| ConfigValue.FromEntry | src/config/value.rs:67-72 | `from_entry` as written returns exactly the specification `Parse` |
| ConfigValue.ParseEntryByType | src/config/value.rs:245-260 | the dispatch on the tag returns exactly the specification `ParseByType` |
| ConfigValue.GetObject | src/config/value.rs:187-206 | the insert loop with its early returns returns exactly the specification `ParseObject` |
| ConfigValue.GetArray | src/config/value.rs:208-223 | the push loop with its early returns returns exactly the specification `ParseArray` |
| ConfigValue.TypeTagErrors | src/config/value.rs:80-92 | in both vocabularies, a missing `type` is `MissingField("type")` and a non-string `type` is `InvalidType` |
| ConfigValue.NullTag | src/config/value.rs:257 | `type: null` gives `Null` whatever else the mapping holds; the restricted vocabulary rejects it with `InvalidTypeValue("null")` |
| ConfigValue.UnknownTag | src/config/value.rs:245-273 | a tag outside a vocabulary gives `InvalidTypeValue` of that tag |
| ConfigValue.BasicAgreesWithFull | src/config/value.rs:245-273 | whenever `from_basic_entry` succeeds, `from_entry` gives the same value, which is a string, integer, float or source; on the four basic tags and on a bad tag the two agree |
| ConfigValue.ScalarNeedsValue | src/config/value.rs:126-136 | `integer`, `float`, `string` and `boolean` without a `value` field give `MissingField("value")` |
| ConfigValue.IntegerEntry | src/config/value.rs:163-176 | an integer entry succeeds exactly when its value is a number that fits in 64 signed bits; otherwise `InvalidValue` |
| ConfigValue.FloatEntry | src/config/value.rs:148-161 | a float entry succeeds exactly when its value is a number, and then holds that number converted by `as_f64`; any other value is `InvalidValue` |
| ConfigValue.StringEntry | src/config/value.rs:178-185 | a string entry succeeds exactly when its value is a string, which it keeps verbatim; otherwise `InvalidValue` |
| ConfigValue.BooleanEntry | src/config/value.rs:138-146 | a boolean entry succeeds exactly when its value is a boolean; otherwise `InvalidValue` |
| ConfigValue.SourceEntry | src/config/value.rs:225-243 | `execute_time` and `last_execute_time` give their sources; a missing field gives `MissingField("source")`, a non-string gives `InvalidSource`, and any other string s gives `InvalidSourceValue(s)` |
| ConfigValue.ItemsElementwise | src/config/value.rs:208-223 | an array decodes to `values` exactly when it has as many items and item i decodes to element i |
| ConfigValue.ItemsFirstFailure | src/config/value.rs:208-223 | an array fails exactly when an item fails, and then with the first failing item's error |
| ConfigValue.ItemNotMapping | src/config/value.rs:213-215 | an item that is not a mapping is `InvalidItems`, and so is the whole array when every item before it decodes |
| ConfigValue.ArrayEntry | src/config/value.rs:94-108 | a missing `items` gives `MissingField("items")`, a non-sequence gives `InvalidItems`; on success there is one element per item, element i decoded from item i |
| ConfigValue.PropertiesAllOk | src/config/value.rs:187-206 | an object decodes exactly when every property decodes |
| ConfigValue.PropertiesKeys | src/config/value.rs:187-206 | the keys of a decoded object are exactly the keys of its properties |
| ConfigValue.PropertiesLastWins | src/config/value.rs:191-203 | each key holds the decoding of the last property with that key |
| ConfigValue.PropertiesFirstFailure | src/config/value.rs:187-206 | an object that fails does so with the first failing property's error |
| ConfigValue.PropertyErrors | src/config/value.rs:191-200 | a non-string key or a non-mapping value gives `InvalidProperties` before the value is decoded |
| ConfigValue.ObjectEntry | src/config/value.rs:110-124 | a missing `properties` gives `MissingField("properties")`, a non-mapping gives `InvalidProperties`; on success the key set is the property key set |
| ConfigValue.RoundTrip | src/config/value.rs:245-260 | every value has a configuration entry (`Encode`) once the fuel reaches its nesting depth, and every such entry decodes back to the value |
| ConfigValue.EncodeDefined | src/config/value.rs:187-223 | with fuel for its nesting depth every value, arrays and objects included, has an encoding |
| ConfigValue.EncodeMonotone | src/config/value.rs:187-223 | more fuel never changes an encoding that already exists |
| ConfigValue.BasicRoundTrip | src/config/value.rs:262-273 | every string, integer, float and source has an entry that the restricted vocabulary decodes back to it |
| HttpConfig.VisitStr | src/config/http.rs:27-44 | `visit_str`; stated by `VisitStrExact`, `MethodNameAccepted` and `LowerCaseRejected` |
| HttpConfig.MethodName | src/config/http.rs:34-38 | each method's name is one of the five accepted names |
| HttpConfig.MethodNameAccepted | src/config/http.rs:27-44 | each method is accepted under its upper-case name |
| HttpConfig.VisitStrExact | src/config/http.rs:27-44 | a string is accepted exactly when it is one of the five upper-case names, and then for its own method; any other string is `UnknownVariant` of itself |
| HttpConfig.LowerCaseRejected | src/config/http.rs:177-189 | `get`, `post`, `put`, `delete` and `patch` are rejected |
| HttpConfig.HeadersWith | src/config/http.rs:90-109 | what the headers visitor builds with a given decoder; `HeadersAllOk`, `HeadersFirstFailure`, `HeadersKeys` and `HeadersLastWins` state it |
| HttpConfig.HeadersOf | src/config/http.rs:86-110 | the headers decoded with `from_basic_entry`; `VisitHeaders` and `StringHeaderVerbatim` state it |
| HttpConfig.VisitHeadersWith | src/config/http.rs:90-109 | the insert loop with its early return returns exactly the specification `HeadersWith` |
| HttpConfig.VisitHeaders | src/config/http.rs:86-110 | the headers visitor returns exactly `HeadersOf`, the headers decoded with `from_basic_entry` |
| HttpConfig.DefaultHeaders | src/config/http.rs:71-75 | `Headers::default`; stated by `AbsentHeadersDefault` |
| HttpConfig.HeadersField | src/config/http.rs:61-62 | the `headers` field, defaulted when absent; stated by `AbsentHeadersDefault` |
| HttpConfig.AbsentHeadersDefault | src/config/http.rs:71-75 | absent headers and an empty headers mapping both give no headers |
| HttpConfig.HeadersAllOk | src/config/http.rs:92-107 | the headers decode exactly when every entry decodes |
| HttpConfig.HeadersFirstFailure | src/config/http.rs:92-107 | a failure is the error of the first entry that does not decode |
| HttpConfig.HeadersKeys | src/config/http.rs:95-109 | the header names are exactly the keys read |
| HttpConfig.HeadersLastWins | src/config/http.rs:95-101 | each header holds the decoding of the last entry with its name |
| HttpConfig.StringHeaderVerbatim | src/config/http.rs:264-266 | a `string` header is kept verbatim: header decoding does not resolve placeholders |
| HttpConfig.VisitBody | src/config/http.rs:136-157 | `BodyVisitor::visit_map`; stated by `BodyOutcome` and `BodyRoundTrip` |
| HttpConfig.BodyOutcome | src/config/http.rs:136-157 | no entry is "invalid body field"; a first key `json` gives `Json` of its decoding, with its errors passed on; any other key is an unknown field; entries after the first are not read |
| HttpConfig.BodyRoundTrip | src/config/http.rs:136-157 | every value has an encoding once the fuel reaches its nesting depth, and a `json` body holding it decodes back to the value |
| HttpConfigExamples.TestHeadersDecode | src/config/http.rs:263-275 | the four test headers decode to the expected map, with `env!(YOUR_OWN_SERVICE_KEY)` kept literal |
| HttpConfigExamples.Field2Decodes | src/config/http.rs:285-290 | `field2` decodes to an object holding the integer 100 |
| HttpConfigExamples.Field3Decodes | src/config/http.rs:291-300 | `field3` decodes to an array of an object holding `false`, and `true` |
| HttpConfigExamples.TestBodyDecodes | src/config/http.rs:278-308 | the test body decodes to the expected nested JSON value |

## Left out

- `recursive_replace_env` (src/yaml/mod.rs:23-29): it only reads the process environment with `std::env::vars()`. The environment is a map parameter instead.
- The `Display` texts of the errors, `ParseEntryError::to_de_error`, and every serde message text. Errors are modelled by their constructors only.
- The `println!` in `from_entry`: output only.
- serde's `Visitor`, `Deserializer` and `MapAccess` machinery, and `Deserialize` for `Method`, `Headers` and `Body`. A map visitor sees the sequence of its entries. Errors raised by `next_entry` while deserializing a key or a mapping are not modelled.
- `Task` as a whole, `Url` parsing of the `url` field, and the default for `success_status_codes`. They are derived by serde or done by `reqwest`.
- The YAML text parser and printer. The examples are stated on the document trees that the test texts parse to, and on the trees the expected output texts print from. Resolving `TRUE` to the boolean `true` is the parser's work.
- Float semantics. `as_f64` is an opaque conversion (`Yaml.AsF64Of`) of the number; no IEEE value is reasoned about.
- src/config/tasks.rs is not part of this model: it is an older copy of the HTTP schema. src/config/mod.rs only declares modules. src/config/source.rs is not part of this model: `Source` is the two-constructor `DateSource`.
- EnvReplacer.ReplaceString: does not model the unbounded rescan of the source, because that rescan need not end (see "Findings"). Each string gets at most `fuel` rescans, and `OutOfFuel` is reported beyond that.
- ConfigValue.Encode: takes one unit of `fuel` per level of nesting. `EncodeDefined` proves that fuel equal to the value's `Depth` always suffices, and `EncodeMonotone` that more fuel changes nothing.
- Text.Find: positions are counted in characters, not UTF-8 bytes. `find_env` only splits the string at the position found, and the split falls in the same place either way.
- HttpConfig.VisitBody: entries after the first are not read, as in the source. What serde does with them afterwards is not modelled.
- HashMap capacity hints (`with_capacity`) and ownership, as they do not change results.

## Findings

| source | as written | input that shows it | evidently intended | confidence | as-written member | corrected member |
|---|---|---|---|---|---|---|
| src/yaml/mod.rs:60-62 | `replace_string` calls itself on the rewritten string with no bound | an environment where `A` is set to `env!(A)`, and the string `env!(A)` | substitution ends with a string free of placeholders, or with an error | not executed | EnvReplacer.SelfReferenceLoops | EnvReplacer.ReplaceStringOutcome |
