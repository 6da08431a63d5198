# wp-theme-check: a verified model of the result shaping

`src/theme-check.js` hands a WordPress theme directory to an external PHP
validator and reshapes the JSON that the validator prints. This project models
the deterministic part of that file in Dafny:

- **Severity classification** (`getSymbolType`). A fixed, ordered table maps
  four marker tokens to severities: `tc-required` → error, `tc-warning` →
  warning, `tc-info` → info, `tc-recommended` → info. The first marker whose
  `indexOf` in the line is strictly greater than 0 decides the severity. A
  marker found only at position 0 never counts, and a line with no qualifying
  marker gets `undefined` (`None` here).
- **Message extraction**. The line is split on `':'`, the first field is
  dropped, and the rest is joined with `''`. So the message is the text after
  the first colon with every later colon deleted, and a line without a colon
  gives `""`.
- **Result normalisation**. This is the `.map` over the parsed validator
  records. In a `THEME_CHECK` record, every item of every result group becomes
  `{type, message}`. Every other record is returned untouched.
- **Request building**. The caller's options are shallowly merged over the
  defaults (`validator: [THEME_MENTOR, THEME_CHECK]`, `prettify: false`,
  `warning: true`). Then the record `{path: dir, excludes: [], validator}` is
  built.

Modules, one per component:

- `Wrappers`: `Option` and `Result`.
- `JsStrings`: the JavaScript built-ins the code relies on, written as
  functions over `string`: `indexOf`, one-character `split`, and `join`.
- `Classifier`: the marker table. `SymbolTypeOf` is the specification function
  and `GetSymbolType` is the loop with its early return.
- `Messages`: message extraction.
- `Results`: the parsed response as datatypes, and its normalisation.
- `Request`: the option merge and the request record.

The names in `validatorTypes` come from a fixtures module that is not part of
this model. They are modelled as the distinct constants `ThemeMentor` and
`ThemeCheck`, plus `OtherKind(id)` for any other name the analyzer emits.

The source mutates the parsed objects in place: it reassigns
`validator.result` and `resultItem.items`. No other code sees those objects
before `resolve`, so the model uses pure functions that return new records.
The predicates `GroupNormalized` and `RecordNormalized` state that only
`items` changes and that every other member is kept.

Two observations on the code's behaviour:

- A reader might expect `tc-required: Missing file X` to be classified as an
  error. The code tests `indexOf(id) > 0`, so this line, which starts with
  its marker, is unclassified. `Results.SampleLineNormalized`
  proves what the code produces: type `undefined` and message
  `" Missing file X"`. `Classifier.IndentedRequiredIsError` shows that the same
  line with one leading space is an error.
- The `validator` option reads like a set of validators. The code passes the
  caller's array through unchanged, so the model keeps it as a sequence,
  with its order and any duplicates.

## Model

| member | source | states |
|---|---|---|
| `JsStrings.IndexOf` | src/theme-check.js:16 | `indexOf` gives the first position where the marker occurs, or -1 exactly when it occurs nowhere. |
| `JsStrings.Split` | src/theme-check.js:65 | `split(':')` gives at least one piece. No piece holds the separator, and joining the pieces with `':'` gives back the line. |
| `JsStrings.SplitAtFirst` | src/theme-check.js:65 | The first piece of the split is exactly the text before the first separator. The other pieces are the split of the text after it. |
| `JsStrings.ConcatSplit` | src/theme-check.js:65-68 | Splitting on a character and joining with `''` deletes every occurrence of that character and keeps everything else in order. |
| `Classifier.GetSymbolType` | src/theme-check.js:7-20 | The loop over the marker table, with its early return, returns exactly the severity that `SymbolTypeOf` specifies. |
| `Classifier.Qualifies` | src/theme-check.js:16 | The definition of the test `indexOf(marker) > 0`. Its contract says the test holds if and only if the marker does not occur at position 0 and does occur at some later position. |
| `Classifier.LeadingMarkerIgnored` | src/theme-check.js:16 | A marker that occurs at position 0 never qualifies, even if it occurs again later in the line. |
| `Classifier.FirstMatchSome` | src/theme-check.js:15-19 | Scanning an ordered table gives severity `s` if and only if the first qualifying entry maps to `s`. |
| `Classifier.FirstMatchNone` | src/theme-check.js:15-20 | Scanning an ordered table gives `undefined` if and only if no entry qualifies. |
| `Classifier.SymbolTypeOrder` | src/theme-check.js:8-19 | The markers are tried in the order required, warning, info, recommended. The first qualifying marker decides the severity, both ways. |
| `Classifier.SymbolTypeOf` | src/theme-check.js:7-20 | The definition of `getSymbolType`'s result: the scan of the marker table. Its contract says a line is unclassified if and only if none of the four markers qualifies. `SymbolTypeOrder` says which marker decides otherwise. |
| `Classifier.RequiredIsError` | src/theme-check.js:8-18 | A qualifying `tc-required` gives `'error'`, whatever other markers the line holds. |
| `Classifier.WarningIsWarning` | src/theme-check.js:8-18 | Without a qualifying `tc-required`, a qualifying `tc-warning` gives `'warning'`. |
| `Classifier.InfoMarkersAreInfo` | src/theme-check.js:8-18 | When neither earlier marker qualifies, a qualifying `tc-info` or `tc-recommended` gives `'info'`. |
| `Classifier.IndentedRequiredIsError` | src/theme-check.js:9-18 | `" tc-required: Missing file X"`, with one leading space, is classified as an error. |
| `Messages.Message` | src/theme-check.js:65-68 | The definition of message extraction: `split(':')`, `shift()`, `join('')`. Its contract says the message never contains `':'`. `MessageWithoutColon`, `MessageAfterFirstColon` and `MessageOfTwoFieldLine` state the rest. |
| `Messages.MessageWithoutColon` | src/theme-check.js:65-68 | A line without a colon gives the empty message. |
| `Messages.MessageAfterFirstColon` | src/theme-check.js:65-68 | If the first colon is at position `i`, the message is the text after position `i` with every later colon deleted. |
| `Messages.MessageOfTwoFieldLine` | src/theme-check.js:65-68 | For `head:tail`, where neither part holds a colon, the message is `tail`, including any leading space. |
| `Results.Classify` | src/theme-check.js:64-73 | The definition of the `{type, message}` object built from one raw line. Its message never holds a colon, and its type is undefined if and only if no marker qualifies. |
| `Results.NormalizeItems` | src/theme-check.js:63-74 | Mapping a group's items succeeds exactly when every item is a string. It then keeps the count, and item `i` becomes `{type: getSymbolType(raw_i), message: extract(raw_i)}`. |
| `Results.NormalizeGroup` | src/theme-check.js:62-77 | Only `items` is reassigned. Every other member of the group is kept. |
| `Results.NormalizeGroups` | src/theme-check.js:62-77 | Mapping a record's groups keeps their number and order and normalises each one. It fails exactly when some group holds a non-string item. |
| `Results.NormalizeRecord` | src/theme-check.js:60-81 | A `THEME_CHECK` record keeps its name and other members and gets its groups normalised. A record of any other kind is returned as it is. |
| `Results.Normalize` | src/theme-check.js:60-81 | Normalisation succeeds exactly when every `THEME_CHECK` item is a string. It then keeps the number and order of the records and normalises each one. |
| `Results.OtherKindsUnchanged` | src/theme-check.js:61-80 | A record whose name is not `THEME_CHECK` comes out identical to how it went in. |
| `Results.NoThemeCheckIsIdentity` | src/theme-check.js:60-81 | A response without `THEME_CHECK` records is returned unchanged. |
| `Results.NamesPreserved` | src/theme-check.js:60-81 | Every output record has the name of the input record at the same position, so nothing is filtered out by kind. |
| `Results.NonStringItemFails` | src/theme-check.js:63-65 | A non-string item in a `THEME_CHECK` group makes the whole normalisation fail with the TypeError fault. |
| `Results.SampleLineUnclassified` | src/theme-check.js:9-20 | `tc-required: Missing file X` starts with its marker, so it is unclassified. |
| `Results.SampleLineNormalized` | src/theme-check.js:60-81 | A one-record response with that line normalises to `{type: undefined, message: " Missing file X"}`. |
| `Request.Merge` | src/theme-check.js:27-34 | The shallow merge `extend(defaults, options)`, for every input, field by field. A field the caller gives is taken as it is. A field left out takes its default: `[THEME_MENTOR, THEME_CHECK]`, `prettify = false`, `warning = true`. |
| `Request.BuildRequest` | src/theme-check.js:27-41 | The request always has `path = dir` and `excludes = []`. Its `validator` is the caller's list when given and `[THEME_MENTOR, THEME_CHECK]` otherwise. |
| `Request.MergeDefaults` | src/theme-check.js:27-34 | Without options, the defaults are both validators, `prettify = false` and `warning = true`. |
| `Request.MergeTakesCallerValues` | src/theme-check.js:27-34 | Fully given options are taken as they are. A caller's `validator` replaces the default list and is not unioned with it. |
| `Request.RequestIgnoresFlags` | src/theme-check.js:32-41 | `prettify` and `warning` have no effect on the request. |
| `Request.EmptyValidatorListKept` | src/theme-check.js:27-41 | An empty validator list from the caller stays empty in the request. |

## Left out

- The filesystem guard `existsSync`/`statSync` (src/theme-check.js:23-25) is left out. It is a call into the filesystem.
- The stdout/stderr `'data'` handlers, the `'exit'` handler and the order in which the promise settles (src/theme-check.js:45-57, 83) are left out. They are subprocess I/O and event ordering. The accumulated output appears in the model only as the parsed records that `Normalize` receives.
- `spawn('php', ...)` and the script path built by `path.resolve`/`path.join` (src/theme-check.js:43-45) are left out. They depend on the environment.
- `JSON.stringify` of the request and `JSON.parse` of the output (src/theme-check.js:37, 60) are left out. They are library calls, so the model works on the request record and on the parsed records directly.
- Output that does not parse, or whose records or groups lack a `result` or `items` array, is left out. The datatypes always have these fields. Only items of the wrong type, which make `indexOf`/`split` throw, are modelled, as `Failure(ItemNotString)`.
- `extend` is a library call. Its shallow merge is modelled field by field as "the caller's field if present, else the default". Options other than `validator`, `prettify` and `warning` are not modelled because the code never reads them.
- The concrete string values of `validatorTypes` are not part of this model. They are distinct enumeration constants here.
- Some values cannot be represented. `Json.JNumber` holds only integers, so a fractional number in a pass-through payload cannot be written. `Options.validator` cannot be `null` or a non-array, although `extend` copies `null` and `JSON.stringify` would send it on. Items are Dafny strings of Unicode scalar values, so a JSON string with a lone UTF-16 surrogate cannot be written either. For the ASCII markers and `':'`, the `> 0` test and the split pieces otherwise match JavaScript's code-unit behaviour.
