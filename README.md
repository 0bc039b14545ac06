# Tag Manager downloader: record normalization, in Dafny

This project models the record normalization layer of the Tag Manager downloader cloud function
(`functions/gtm-downloader`). The layer takes the live container versions returned by the Tag
Manager API and does two things:

- It extracts four entity lists from them: tags, variables, built-in variables and triggers.
- It turns every raw tag, variable and trigger into a flat record for the warehouse, giving each
  optional property a fixed default.

The project also models the `pipe` combinator from the function's helpers.

Everything is pure: datatypes, functions and lemmas, with no classes or loops. The source is pure
too. It uses `map`, `filter`, `flat`, `flatMap` and `reduce`, destructuring with defaults, the
spread `{ ...p }`, `if`/`else` on whether an array is there, and fresh object literals.

## How JSON is represented

- A property of a raw object is a `Json.Field<T>`: `Absent` (`undefined`), `Null` or
  `Present(v)`. The code depends on this three-way split:
  - a destructuring default (`x = d`) replaces only a missing property, so an explicit `null`
    is kept (`Json.WithDefault`);
  - `if (x)` and `filter(o => o)` test truthiness only on values the model types as arrays.
    Every array is truthy, even `[]`, so for these values truthiness is `Present?`: only
    `undefined` and `null` are false. Falsy non-array values (`""`, `0`, `false`, `NaN`) are
    not represented.
- The JSON property `type` is named `typ` and `map` is named `map_`, because `type` and `map`
  are Dafny keywords.
- Elements of a `parameter` array are `Field<Parameter>`, because the callback spreads them
  (`{ ...p }`), and spreading `null` or `undefined` gives `{}`.
- Code that throws a TypeError returns `Err` with a `Gtm.Failure`. Which error comes out follows
  the code's evaluation order:
  - the first failing element of a `flatMap` wins;
  - within a trigger, `filter` is looked at before `customEventFilter`;
  - tag records are built before trigger records.

## Modules

- `json.dfy`, module `Json`: the `Field` and `Result` types, destructuring defaults, and the
  array traversals (`map`, and a `flatMap` whose callback may throw).
- `gtm.dfy`, module `Gtm`: the raw entities, the records and the failure kinds.
- `parameters.dfy`, module `Parameters`:
  - the parameter normalizers for tags and variables, and for triggers;
  - the condition normalizer for `filter` and `customEventFilter`, with its sentinels.
- `extraction.dfy`, module `Extraction`: extracting each entity kind from the versions.
- `records.dfy`, module `Records`: the tag, variable and trigger record builders.
- `downloader.dfy`, module `Downloader`: the whole normalization step, and worked examples.
- `helpers.dfy`, module `Helpers`: `pipe`.

## Behaviour of the code worth knowing

- Parameter `type` gets no default. A raw parameter without `type` normalizes to one without
  `type`, so only `key`, `value`, `list` and `map` are guaranteed (`Parameters.Complete`).
- The elements inside `list` and `map` are copied unchanged. They are not normalized
  recursively.
- A variable whose `parameter` is missing or null keeps it missing or null. No sentinel is put in.
- A present but empty `filter`, `customEventFilter` or trigger `parameter` array stays empty.
  Only a missing or null array is replaced by the sentinel.
- Identifying properties (`accountId`, `tagId`, ...) are not checked. A missing one stays
  missing in the record. The only errors are the TypeErrors the code throws:
  - `parameter.map` on a tag without `parameter`;
  - destructuring a null or missing condition entry;
  - `parameter.map` on a condition entry without `parameter`.

## Model

| member | source | states |
|---|---|---|
| Json.WithDefault | functions/gtm-downloader/index.js:71 | A destructuring default takes effect only for a missing property: a present or null property is kept, a missing one becomes the default, and the result is missing only when both are |
| Json.MapSeq | functions/gtm-downloader/index.js:72-76 | `map` gives exactly one result per element, in order: same length, and element i is the callback applied to element i |
| Json.MapOrThrow | functions/gtm-downloader/index.js:70-78 | A `flatMap` whose callback returns one record or throws. It succeeds exactly when every element's callback succeeds, and then returns one record per element, in order. Otherwise it returns the error of the first element that failed, and every element before that one succeeded |
| Parameters.Spread | functions/gtm-downloader/index.js:74 | `{ ...p }` is a copy of an element that is an object, and the object without properties when the element is null or missing |
| Parameters.NormalizeParameter | functions/gtm-downloader/index.js:74-75 | The normalized tag/variable parameter always has `key`, `value`, `list` and `map`. `type` and every property already there (null included, and the `list`/`map` entries themselves) are copied unchanged. A missing `key`/`value` becomes null and a missing `list`/`map` becomes `[]`. A null or missing element acts as `{}` |
| Parameters.NormalizeParameterFixpoint | functions/gtm-downloader/index.js:84-85 | The normalizer leaves a parameter unchanged if and only if the parameter already has `key`, `value`, `list` and `map` |
| Parameters.NormalizeParameterIdempotent | functions/gtm-downloader/index.js:74-75 | Normalizing an already normalized parameter gives it back unchanged |
| Parameters.NormalizeParameters | functions/gtm-downloader/index.js:72-76 | The tag/variable `parameter.map` keeps length and order; element i is the normalization of raw element i, and every result is complete |
| Parameters.NormalizeParametersFixpoint | functions/gtm-downloader/index.js:82-86 | An array of complete parameters, fed back in as raw input, normalizes to itself |
| Parameters.NormalizeTriggerParameter | functions/gtm-downloader/index.js:112-115 | The trigger parameter record keeps `type`, always has `key` and `value` (null when missing), drops `list` and `map`, and equals the tag normalizer's result narrowed to three properties |
| Parameters.TriggerParameters | functions/gtm-downloader/index.js:112-116 | The trigger `parameter.map` keeps length and order, and element i is the three-property record of raw element i |
| Parameters.TriggerParametersFixpoint | functions/gtm-downloader/index.js:130-134 | Three-property records that have `key` and `value`, read back as raw elements, normalize to themselves |
| Parameters.NormalizeCondition | functions/gtm-downloader/index.js:128-136 | A condition entry succeeds exactly when it is an object that has `parameter`. It then has the entry's `type` and one three-property record per raw parameter, in order. A null or missing entry throws `ConditionNotObject`; an entry without `parameter` throws `ConditionWithoutParameter` |
| Parameters.NormalizeConditions | functions/gtm-downloader/index.js:127-150 | A missing or null condition array becomes exactly `[{type: null, parameter: [{type: null, key: null, value: null}]}]`. A present array succeeds exactly when every entry is well formed, and then gives one condition per entry, in order, so `[]` stays `[]`. Otherwise the error is that of the first malformed entry |
| Extraction.Truthy | functions/gtm-downloader/index.js:63 | `filter(o => o)` keeps no more arrays than it is given, and an array is kept if and only if it is present in the input |
| Extraction.Flat | functions/gtm-downloader/index.js:63 | `flat()` holds an element if and only if one of the arrays holds it |
| Extraction.Extract | functions/gtm-downloader/index.js:63-66 | An entity is in the list extracted by `map`, `filter(o => o)` and `flat()` if and only if some version's present array holds it |
| Extraction.ExtractIsPerVersion | functions/gtm-downloader/index.js:63-66 | The chain `map`, `filter(o => o)`, `flat()` equals the concatenation of each version's array, version by version. A missing or null array adds nothing |
| Extraction.ExtractAppend | functions/gtm-downloader/index.js:63-66 | Extracting from two version lists placed one after the other gives the two extracted lists one after the other, so order is preserved |
| Extraction.ExtractLength | functions/gtm-downloader/index.js:63-66 | The length of the extracted list is the sum of the lengths of the present arrays |
| Extraction.ExtractNone | functions/gtm-downloader/index.js:63-66 | If every version lacks the array or has it null, the result is empty and there is no error |
| Extraction.ExtractOnlyOne | functions/gtm-downloader/index.js:63-66 | If only version k has the array, the result is exactly that array |
| Extraction.Tags | functions/gtm-downloader/index.js:63 | The tag list is the version-by-version concatenation of the present `tag` arrays, and its length is their total length |
| Extraction.Variables | functions/gtm-downloader/index.js:64 | The variable list is the version-by-version concatenation of the present `variable` arrays, and its length is their total length |
| Extraction.Triggers | functions/gtm-downloader/index.js:66 | The trigger list is the version-by-version concatenation of the present `trigger` arrays, and its length is their total length |
| Extraction.BuiltInVariables | functions/gtm-downloader/index.js:65 | The built-in variable list is `flat(2)`: the present `builtInVariable` arrays concatenated, with every entry that is itself an array spliced in |
| Extraction.BuiltInVariablesUnnested | functions/gtm-downloader/index.js:65 | When no entry is an array, the second flattening level changes nothing. The list is then the entries in order, and its length is the total length of the present arrays |
| Extraction.SplicedMember | functions/gtm-downloader/index.js:65 | After the second flattening level, a built-in variable is in the list if and only if one of the entries stands for it |
| Extraction.BuiltInVariablesMember | functions/gtm-downloader/index.js:65 | A built-in variable is in the `flat(2)` list if and only if some version's present `builtInVariable` array holds it, either as an entry or inside an entry that is itself an array |
| Extraction.BuiltInVariablesMemberForward | functions/gtm-downloader/index.js:65 | Every built-in variable in the `flat(2)` list comes from a present `builtInVariable` array, as an entry or inside an entry that is itself an array |
| Extraction.BuiltInVariablesMemberBackward | functions/gtm-downloader/index.js:65 | Every built-in variable that a present `builtInVariable` array holds, as an entry or inside an entry that is itself an array, is in the `flat(2)` list |
| Records.TagRecordOf | functions/gtm-downloader/index.js:71-77 | A tag record is built exactly when the tag has `parameter`; otherwise the result is `TagWithoutParameter`. Ids, name, type, fingerprint, `tagFiringOption` and `monitoringMetadata` are copied, and stay missing if missing. `parameter` is the element-wise normalization, with the same length and order. `firingTriggerId` and `blockingTriggerId` become `[]` only when missing; null is kept |
| Records.TagRecordIdempotent | functions/gtm-downloader/index.js:71-77 | Rebuilding a tag record from its own record gives the same record |
| Records.TagRecords | functions/gtm-downloader/index.js:70-78 | All tags succeed exactly when every tag has `parameter`. Then there is one record per tag, in input order; otherwise the error is `TagWithoutParameter` |
| Records.VariableRecordOf | functions/gtm-downloader/index.js:81-88 | Ids, name, type and fingerprint are copied. `parentFolderId` becomes null only when missing. `parameter` is normalized element-wise exactly when it is an array; a missing one stays missing and a null one stays null, with no sentinel |
| Records.VariableRecordIdempotent | functions/gtm-downloader/index.js:81-88 | Rebuilding a variable record from its own record gives the same record |
| Records.VariableRecords | functions/gtm-downloader/index.js:80-89 | One record per variable, in input order |
| Records.TriggerRecordOf | functions/gtm-downloader/index.js:94-175 | A trigger record is built exactly when both condition arrays are missing, null or fully well formed. A failure names the `filter` array exactly when `filter` is the malformed one, because it is looked at first. The error is then exactly that of the first malformed entry of `filter`, or, when `filter` is fine, of the first malformed entry of `customEventFilter`. Ids, name and type are copied. `waitForTags`, `checkValidation`, `waitForTagsTimeout`, `uniqueTriggerId`, `fingerprint` and `parentFolderId` become null when missing and are never missing afterwards. `parameter` is the one all-null sentinel when missing or null, and otherwise the three-property records, with the same length. `filter` and `customEventFilter` follow the condition rules, with the sentinel when missing or null |
| Records.TriggerRecordIdempotent | functions/gtm-downloader/index.js:111-175 | Rebuilding a trigger record from its own record gives the same record, sentinels included |
| Records.TriggerRecords | functions/gtm-downloader/index.js:93-176 | All triggers succeed exactly when every trigger does. Then there is one record per trigger, in input order; otherwise the error is that of the first failing trigger |
| Downloader.NormalizeVersions | functions/gtm-downloader/index.js:63-176 | The run's normalization succeeds exactly when every extracted tag has `parameter` and every extracted trigger succeeds. A tag failure takes precedence over any trigger failure; otherwise the error is that of the first failing trigger. Each of the tag, variable and trigger tables has one record per extracted entity, in order, with length equal to the total length of the versions' arrays. Built-in variables are the extracted list, unchanged |
| Downloader.TagExample | functions/gtm-downloader/index.js:71-77 | A tag with one `{type, value}` parameter and no trigger ids gets `key: null`, `list: []`, `map: []`, empty firing and blocking lists, and missing `tagFiringOption` and `monitoringMetadata` |
| Downloader.TriggerSentinelExample | functions/gtm-downloader/index.js:117-172 | A trigger without `filter`, `customEventFilter` and `parameter` succeeds. It gets the one-element sentinel condition for both condition arrays, and the one three-property all-null parameter |
| Downloader.TriggerEmptyFiltersExample | functions/gtm-downloader/index.js:127-161 | Present but empty `filter` and `customEventFilter` arrays stay empty |
| Downloader.OnlySecondVersionHasVariables | functions/gtm-downloader/index.js:64 | With four versions where only the second has a three-element `variable` array, the variable list is exactly those three |
| Downloader.NoTriggers | functions/gtm-downloader/index.js:66 | If every version lacks `trigger`, the trigger list is empty |
| Downloader.NestedParameterExample | functions/gtm-downloader/index.js:74-75 | A parameter whose `list` holds two sub-parameters keeps both of them whole and unnormalized. Only its own missing `value` and `map` take their defaults |
| Helpers.Reduce | functions/gtm-downloader/helpers/pipe.js:4 | The fold `fns.reduce((v, f) => f(v), x)` applies the last function last, to what the fold of the others made of `x` |
| Helpers.ReduceIsNest | functions/gtm-downloader/helpers/pipe.js:4 | For every input, the fold equals the reference nesting `fn(...f1(x))` |
| Helpers.Pipe | functions/gtm-downloader/helpers/pipe.js:4 | `pipe(f1, ..., fn)` is the function `x => fn(...f1(x))`, the reference nesting unrolled from the last function inwards |
| Helpers.PipeEmpty | functions/gtm-downloader/helpers/pipe.js:4 | `pipe()` returns its input unchanged |
| Helpers.PipeSingle | functions/gtm-downloader/helpers/pipe.js:4 | `pipe(f)(x) == f(x)` |
| Helpers.PipeAppend | functions/gtm-downloader/helpers/pipe.js:4 | `pipe(fs ++ gs)(x) == pipe(gs)(pipe(fs)(x))` |
| Helpers.PipeSnoc | functions/gtm-downloader/helpers/pipe.js:4 | `pipe(fs ++ [g])(x) == g(pipe(fs)(x))`: a function added at the end runs last, once, on the result of the others |

## Left out

- Credentials and the `google.auth` setup (`helpers/auth.js`, index.js:28-40): these are calls
  into an external SDK.
- `getAccounts`, `getContainers` and `getVersions`, the rate limiter and the `Promise.all`
  fan-out (index.js:15-18, 220-258): network I/O and concurrency. The model starts from the list
  of versions these calls would return.
- `asyncPipe` (helpers/pipe.js:6): Promise chaining, which is asynchronous plumbing.
- The BigQuery inserts (index.js:183-198) are an external sink. Also, `accountRecords` and
  `containerRecords` are not defined anywhere in index.js.
- The HTTP handler (index.js:205-218), the `MOCK_DATA` fixture switch (index.js:25, 49) and the
  dotenv loading (index.js:3): I/O and configuration.
- A version, tag, variable or trigger that is itself `null`, and a value of a non-array,
  non-object type where the code expects an array or an object. A string `parameter` on a tag
  makes `parameter.map` throw a TypeError (index.js:72), because strings have no `map` method.
  On a variable or trigger the same happens for a non-empty string. An empty string `""` is
  falsy, so `if (parameter)` skips it (index.js:82, 111): a variable keeps `""`, and a trigger
  gets the all-null parameter sentinel (index.js:118-124). A string element of a `parameter` array is spread into one property per character
  (`{ ...p }`), so every field of its record takes the default. The model types these values as
  objects and arrays.
- Properties of a tag, variable or trigger that its record builder does not read (for example a
  tag's `notes` or `paused`). The builders drop them, so they are not represented.
- Properties beyond the listed fields of values the code copies whole. Examples are a
  parameter's `isWeakReference`, a built-in variable's `path`, the sub-parameters inside `list`
  and `map`, `monitoringMetadata`, and a trigger's `waitForTags`, `checkValidation`,
  `waitForTagsTimeout` and `uniqueTriggerId`. The code keeps every property these values carry.
  `Gtm.Parameter` and `Gtm.BuiltInVariable` hold only the fields the normalizers read or set,
  and the other values are modelled as strings or parameters, so the extra properties are not
  represented.
- The text of the thrown TypeErrors. A failure is modelled by its kind and the condition array
  it arose in.
- Side effects of the functions given to `pipe`. These are modelled as total, pure `T -> T`
  functions.
