/** The Tag Manager entities the downloader reads, as they arrive from the API (raw), and the
    flat records it builds from them for the warehouse. The record builders drop the properties
    of a tag, variable or trigger that they do not read, and those are not represented. Values
    the code copies whole (parameters, built-in variables, `monitoringMetadata`) keep only the
    listed fields here. The JSON property `type` is called `typ` and `map` is
    called `map_`, since both are Dafny keywords. */
module Gtm {
  import opened Json

  /** A Tag Manager parameter. Raw ones may lack any property; the normalized tag and variable
      parameters have the same shape with `key`, `value`, `list` and `map_` always there.
      `list` and `map_` hold further raw parameters, whose array elements may be `null`. */
  datatype Parameter = Parameter(
    typ: Field<string>,
    key: Field<string>,
    value: Field<string>,
    list: Field<seq<Field<Parameter>>>,
    map_: Field<seq<Field<Parameter>>>)

  /** The narrower parameter record of triggers and trigger conditions: no `list`, no `map`. */
  datatype TriggerParameter = TriggerParameter(typ: Field<string>, key: Field<string>, value: Field<string>)

  /** A raw entry of a trigger's `filter` or `customEventFilter` array. */
  datatype RawCondition = RawCondition(typ: Field<string>, parameter: Field<seq<Field<Parameter>>>)

  /** A normalized trigger condition. */
  datatype Condition = Condition(typ: Field<string>, parameter: seq<TriggerParameter>)

  datatype RawTag = RawTag(
    accountId: Field<string>,
    containerId: Field<string>,
    tagId: Field<string>,
    name: Field<string>,
    typ: Field<string>,
    parameter: Field<seq<Field<Parameter>>>,
    fingerprint: Field<string>,
    firingTriggerId: Field<seq<string>>,
    blockingTriggerId: Field<seq<string>>,
    tagFiringOption: Field<string>,
    monitoringMetadata: Field<Parameter>)

  datatype TagRecord = TagRecord(
    accountId: Field<string>,
    containerId: Field<string>,
    tagId: Field<string>,
    name: Field<string>,
    typ: Field<string>,
    parameter: seq<Parameter>,
    fingerprint: Field<string>,
    firingTriggerId: Field<seq<string>>,
    blockingTriggerId: Field<seq<string>>,
    tagFiringOption: Field<string>,
    monitoringMetadata: Field<Parameter>)

  datatype RawVariable = RawVariable(
    accountId: Field<string>,
    containerId: Field<string>,
    variableId: Field<string>,
    name: Field<string>,
    typ: Field<string>,
    parameter: Field<seq<Field<Parameter>>>,
    fingerprint: Field<string>,
    parentFolderId: Field<string>)

  datatype VariableRecord = VariableRecord(
    accountId: Field<string>,
    containerId: Field<string>,
    variableId: Field<string>,
    name: Field<string>,
    typ: Field<string>,
    parameter: Field<seq<Parameter>>,
    fingerprint: Field<string>,
    parentFolderId: Field<string>)

  datatype RawTrigger = RawTrigger(
    accountId: Field<string>,
    containerId: Field<string>,
    triggerId: Field<string>,
    name: Field<string>,
    typ: Field<string>,
    filter: Field<seq<Field<RawCondition>>>,
    customEventFilter: Field<seq<Field<RawCondition>>>,
    waitForTags: Field<Parameter>,
    checkValidation: Field<Parameter>,
    waitForTagsTimeout: Field<Parameter>,
    uniqueTriggerId: Field<Parameter>,
    fingerprint: Field<string>,
    parentFolderId: Field<string>,
    parameter: Field<seq<Field<Parameter>>>)

  datatype TriggerRecord = TriggerRecord(
    accountId: Field<string>,
    containerId: Field<string>,
    triggerId: Field<string>,
    name: Field<string>,
    typ: Field<string>,
    filter: seq<Condition>,
    customEventFilter: seq<Condition>,
    waitForTags: Field<Parameter>,
    checkValidation: Field<Parameter>,
    waitForTagsTimeout: Field<Parameter>,
    uniqueTriggerId: Field<Parameter>,
    fingerprint: Field<string>,
    parentFolderId: Field<string>,
    parameter: seq<TriggerParameter>)

  /** A built-in variable; the downloader passes these through without reshaping. */
  datatype BuiltInVariable = BuiltInVariable(
    accountId: Field<string>,
    containerId: Field<string>,
    name: Field<string>,
    typ: Field<string>)

  /** An element of a version's `builtInVariable` array. The code flattens that array one
      level deeper than the others (`flat(2)`), so an element that is itself an array of
      built-in variables is spliced in as well. */
  datatype BuiltInEntry = Single(item: BuiltInVariable) | Nested(items: seq<BuiltInVariable>)

  /** A live container version; any of its entity arrays may be missing or null. */
  datatype RawVersion = RawVersion(
    tag: Field<seq<RawTag>>,
    variable: Field<seq<RawVariable>>,
    builtInVariable: Field<seq<BuiltInEntry>>,
    trigger: Field<seq<RawTrigger>>)

  /** Which of a trigger's two condition arrays an error arose in. */
  datatype ConditionArray = FilterArray | CustomEventFilterArray

  /** The TypeErrors the record builders can throw. */
  datatype Failure =
    | TagWithoutParameter            // `parameter.map` on a tag whose `parameter` is missing or null
    | ConditionNotObject(site: ConditionArray)        // destructuring a null or missing condition entry
    | ConditionWithoutParameter(site: ConditionArray) // `parameter.map` on a condition without `parameter`
}
