/** The entity flatteners of the Tag Manager downloader: one flat record per raw tag, variable
    or trigger, with a fixed default for every optional property. */
module Records {
  import opened Json
  import opened Gtm
  import opened Parameters

  // ---------------------------------------------------------------- tags

  /** The tag properties the record copies as they are (missing ones stay missing). */
  predicate CopiesTag(t: RawTag, r: TagRecord)
  {
    && r.accountId == t.accountId && r.containerId == t.containerId && r.tagId == t.tagId
    && r.name == t.name && r.typ == t.typ && r.fingerprint == t.fingerprint
    && r.tagFiringOption == t.tagFiringOption && r.monitoringMetadata == t.monitoringMetadata
  }

  /** The tag callback: `firingTriggerId` and `blockingTriggerId` default to `[]`, every
      parameter is normalized, and a tag without `parameter` throws. */
  function TagRecordOf(t: RawTag): (r: Result<TagRecord, Failure>)
    ensures r.Ok? <==> t.parameter.Present?
    ensures r.Err? ==> r.error == TagWithoutParameter
    ensures r.Ok? ==> CopiesTag(t, r.value)
    ensures r.Ok? ==> |r.value.parameter| == |t.parameter.v|
    ensures r.Ok? ==> forall i :: 0 <= i < |t.parameter.v| ==> r.value.parameter[i] == NormalizeParameter(t.parameter.v[i])
    ensures r.Ok? && t.firingTriggerId.Absent? ==> r.value.firingTriggerId == Present([])
    ensures r.Ok? && !t.firingTriggerId.Absent? ==> r.value.firingTriggerId == t.firingTriggerId
    ensures r.Ok? && t.blockingTriggerId.Absent? ==> r.value.blockingTriggerId == Present([])
    ensures r.Ok? && !t.blockingTriggerId.Absent? ==> r.value.blockingTriggerId == t.blockingTriggerId
  {
    if !t.parameter.Present? then Err(TagWithoutParameter)
    else
      Ok(TagRecord(t.accountId, t.containerId, t.tagId, t.name, t.typ,
                   NormalizeParameters(t.parameter.v), t.fingerprint,
                   WithDefault(t.firingTriggerId, Present([])),
                   WithDefault(t.blockingTriggerId, Present([])),
                   t.tagFiringOption, t.monitoringMetadata))
  }

  /** A tag record read back as a raw tag. */
  function RawOfTag(r: TagRecord): RawTag
  {
    RawTag(r.accountId, r.containerId, r.tagId, r.name, r.typ, Present(AsElements(r.parameter)),
           r.fingerprint, r.firingTriggerId, r.blockingTriggerId, r.tagFiringOption,
           r.monitoringMetadata)
  }

  /** Flattening a flattened tag again gives the same record. */
  lemma TagRecordIdempotent(t: RawTag)
    requires TagRecordOf(t).Ok?
    ensures TagRecordOf(RawOfTag(TagRecordOf(t).value)) == TagRecordOf(t)
  {
    NormalizeParametersFixpoint(TagRecordOf(t).value.parameter);
  }

  /** `tags.flatMap(tag => ...)`: one record per tag, in order, or the TypeError of the first
      tag without `parameter`. */
  function TagRecords(tags: seq<RawTag>): (r: Result<seq<TagRecord>, Failure>)
    ensures r.Ok? <==> forall i :: 0 <= i < |tags| ==> tags[i].parameter.Present?
    ensures r.Ok? ==> |r.value| == |tags|
    ensures r.Ok? ==> forall i :: 0 <= i < |tags| ==> TagRecordOf(tags[i]) == Ok(r.value[i])
    ensures r.Err? ==> r.error == TagWithoutParameter
  {
    MapOrThrow(tags, TagRecordOf)
  }

  // ---------------------------------------------------------------- variables

  /** The variable properties the record copies as they are. */
  predicate CopiesVariable(v: RawVariable, r: VariableRecord)
  {
    && r.accountId == v.accountId && r.containerId == v.containerId
    && r.variableId == v.variableId && r.name == v.name && r.typ == v.typ
    && r.fingerprint == v.fingerprint
  }

  /** The variable callback: `parentFolderId` defaults to null; `parameter` is normalized when
      it is an array and otherwise kept as it is (missing stays missing, null stays null). */
  function VariableRecordOf(v: RawVariable): (r: VariableRecord)
    ensures CopiesVariable(v, r)
    ensures v.parentFolderId.Absent? ==> r.parentFolderId == Null
    ensures !v.parentFolderId.Absent? ==> r.parentFolderId == v.parentFolderId
    ensures r.parameter.Present? <==> v.parameter.Present?
    ensures r.parameter.Absent? <==> v.parameter.Absent?
    ensures v.parameter.Present? ==> |r.parameter.v| == |v.parameter.v|
    ensures v.parameter.Present? ==> forall i :: 0 <= i < |v.parameter.v| ==> r.parameter.v[i] == NormalizeParameter(v.parameter.v[i])
  {
    var parameter: Field<seq<Parameter>> :=
      match v.parameter
      case Present(ps) => Present(NormalizeParameters(ps))
      case Null => Null
      case Absent => Absent;
    VariableRecord(v.accountId, v.containerId, v.variableId, v.name, v.typ, parameter,
                   v.fingerprint, WithDefault(v.parentFolderId, Null))
  }

  /** A variable record read back as a raw variable. */
  function RawOfVariable(r: VariableRecord): RawVariable
  {
    var parameter: Field<seq<Field<Parameter>>> :=
      match r.parameter
      case Present(ps) => Present(AsElements(ps))
      case Null => Null
      case Absent => Absent;
    RawVariable(r.accountId, r.containerId, r.variableId, r.name, r.typ, parameter,
                r.fingerprint, r.parentFolderId)
  }

  /** Flattening a flattened variable again gives the same record. */
  lemma VariableRecordIdempotent(v: RawVariable)
    ensures VariableRecordOf(RawOfVariable(VariableRecordOf(v))) == VariableRecordOf(v)
  {
    var r := VariableRecordOf(v);
    if r.parameter.Present? {
      NormalizeParametersFixpoint(r.parameter.v);
    }
  }

  /** `variables.flatMap(variable => ...)`: one record per variable, in order. */
  function VariableRecords(vs: seq<RawVariable>): (r: seq<VariableRecord>)
    ensures |r| == |vs|
    ensures forall i :: 0 <= i < |vs| ==> r[i] == VariableRecordOf(vs[i])
  {
    MapSeq(vs, VariableRecordOf)
  }

  // ---------------------------------------------------------------- triggers

  /** A condition array the trigger callback gets through: missing, null, or all entries
      well-formed. */
  predicate ConditionsOk(f: Field<seq<Field<RawCondition>>>)
  {
    f.Present? ==> forall i :: 0 <= i < |f.v| ==> WellFormedCondition(f.v[i])
  }

  /** The trigger properties the record copies as they are. */
  predicate CopiesTrigger(t: RawTrigger, r: TriggerRecord)
  {
    && r.accountId == t.accountId && r.containerId == t.containerId
    && r.triggerId == t.triggerId && r.name == t.name && r.typ == t.typ
  }

  /** The trigger properties that default to null. */
  predicate NullDefaults(t: RawTrigger, r: TriggerRecord)
  {
    && r.waitForTags == WithDefault(t.waitForTags, Null)
    && r.checkValidation == WithDefault(t.checkValidation, Null)
    && r.waitForTagsTimeout == WithDefault(t.waitForTagsTimeout, Null)
    && r.uniqueTriggerId == WithDefault(t.uniqueTriggerId, Null)
    && r.fingerprint == WithDefault(t.fingerprint, Null)
    && r.parentFolderId == WithDefault(t.parentFolderId, Null)
  }

  /** `conditions` is the normalization of the raw array `f` found at `site`. */
  predicate NormalizedConditions(f: Field<seq<Field<RawCondition>>>, site: ConditionArray, conditions: seq<Condition>)
  {
    && (!f.Present? ==> conditions == [SentinelCondition])
    && (f.Present? ==> |conditions| == |f.v|)
    && (f.Present? ==> forall i :: 0 <= i < |f.v| ==> NormalizeCondition(f.v[i], site) == Ok(conditions[i]))
  }

  /** The trigger callback. Six properties default to null; `parameter` becomes three-property
      records, or the one all-null sentinel when missing or null; `filter` and
      `customEventFilter` are normalized, or the sentinel condition when missing or null. It
      throws for a malformed condition entry, looking at `filter` before `customEventFilter`. */
  function TriggerRecordOf(t: RawTrigger): (r: Result<TriggerRecord, Failure>)
    ensures r.Ok? <==> ConditionsOk(t.filter) && ConditionsOk(t.customEventFilter)
    ensures r.Err? ==> !r.error.TagWithoutParameter? && (r.error.site == FilterArray <==> !ConditionsOk(t.filter))
    ensures r.Err? && !ConditionsOk(t.filter) ==>
      NormalizeConditions(WithDefault(t.filter, Null), FilterArray) == Err(r.error)
    ensures r.Err? && ConditionsOk(t.filter) ==>
      NormalizeConditions(WithDefault(t.customEventFilter, Null), CustomEventFilterArray) == Err(r.error)
    ensures r.Ok? ==> CopiesTrigger(t, r.value) && NullDefaults(t, r.value)
    ensures r.Ok? ==> !r.value.waitForTags.Absent? && !r.value.checkValidation.Absent?
    ensures r.Ok? ==> !r.value.waitForTagsTimeout.Absent? && !r.value.uniqueTriggerId.Absent?
    ensures r.Ok? ==> !r.value.fingerprint.Absent? && !r.value.parentFolderId.Absent?
    ensures r.Ok? && !t.parameter.Present? ==> r.value.parameter == [NullTriggerParameter]
    ensures r.Ok? && t.parameter.Present? ==> |r.value.parameter| == |t.parameter.v|
    ensures r.Ok? && t.parameter.Present? ==> forall i :: 0 <= i < |t.parameter.v| ==> r.value.parameter[i] == NormalizeTriggerParameter(t.parameter.v[i])
    ensures r.Ok? ==> NormalizedConditions(t.filter, FilterArray, r.value.filter)
    ensures r.Ok? ==> NormalizedConditions(t.customEventFilter, CustomEventFilterArray, r.value.customEventFilter)
  {
    var parameter := WithDefault(t.parameter, Null);
    var parameter := if parameter.Present? then TriggerParameters(parameter.v) else [NullTriggerParameter];
    match NormalizeConditions(WithDefault(t.filter, Null), FilterArray)
    case Err(e) => Err(e)
    case Ok(filter) =>
      match NormalizeConditions(WithDefault(t.customEventFilter, Null), CustomEventFilterArray)
      case Err(e) => Err(e)
      case Ok(customEventFilter) =>
        Ok(TriggerRecord(t.accountId, t.containerId, t.triggerId, t.name, t.typ,
                         filter, customEventFilter,
                         WithDefault(t.waitForTags, Null), WithDefault(t.checkValidation, Null),
                         WithDefault(t.waitForTagsTimeout, Null), WithDefault(t.uniqueTriggerId, Null),
                         WithDefault(t.fingerprint, Null), WithDefault(t.parentFolderId, Null),
                         parameter))
  }

  /** Trigger parameter records whose `key` and `value` are there. */
  predicate Settled(ts: seq<TriggerParameter>)
  {
    forall i :: 0 <= i < |ts| ==> !ts[i].key.Absent? && !ts[i].value.Absent?
  }

  /** A trigger parameter array read back as a raw `parameter` array. */
  function RawOfTriggerParameters(ts: seq<TriggerParameter>): seq<Field<Parameter>>
  {
    AsElements(MapSeq(ts, Widen))
  }

  /** A condition read back as a raw condition entry. */
  function RawOfCondition(c: Condition): RawCondition
  {
    RawCondition(c.typ, Present(RawOfTriggerParameters(c.parameter)))
  }

  /** Normalized conditions, read back as a raw condition array, normalize to themselves. */
  lemma ConditionsFixpoint(cs: seq<Condition>, site: ConditionArray)
    requires forall i :: 0 <= i < |cs| ==> Settled(cs[i].parameter)
    ensures NormalizeConditions(Present(AsElements(MapSeq(cs, RawOfCondition))), site) == Ok(cs)
  {
  }

  /** Every parameter record inside a normalized condition array has `key` and `value`. */
  lemma NormalizedConditionsSettled(f: Field<seq<Field<RawCondition>>>, site: ConditionArray, cs: seq<Condition>)
    requires NormalizedConditions(f, site, cs)
    ensures forall i :: 0 <= i < |cs| ==> Settled(cs[i].parameter)
  {
  }

  /** A trigger record read back as a raw trigger. */
  function RawOfTrigger(r: TriggerRecord): RawTrigger
  {
    RawTrigger(r.accountId, r.containerId, r.triggerId, r.name, r.typ,
               Present(AsElements(MapSeq(r.filter, RawOfCondition))),
               Present(AsElements(MapSeq(r.customEventFilter, RawOfCondition))),
               r.waitForTags, r.checkValidation, r.waitForTagsTimeout, r.uniqueTriggerId,
               r.fingerprint, r.parentFolderId, Present(RawOfTriggerParameters(r.parameter)))
  }

  /** Flattening a flattened trigger again gives the same record. */
  lemma TriggerRecordIdempotent(t: RawTrigger)
    requires TriggerRecordOf(t).Ok?
    ensures TriggerRecordOf(RawOfTrigger(TriggerRecordOf(t).value)) == TriggerRecordOf(t)
  {
    var r := TriggerRecordOf(t).value;
    NormalizedConditionsSettled(t.filter, FilterArray, r.filter);
    NormalizedConditionsSettled(t.customEventFilter, CustomEventFilterArray, r.customEventFilter);
    ConditionsFixpoint(r.filter, FilterArray);
    ConditionsFixpoint(r.customEventFilter, CustomEventFilterArray);
    TriggerParametersFixpoint(r.parameter);
  }

  /** `triggers.flatMap(trigger => ...)`: one record per trigger, in order, or the TypeError
      of the first trigger with a malformed condition entry. */
  function TriggerRecords(ts: seq<RawTrigger>): (r: Result<seq<TriggerRecord>, Failure>)
    ensures r.Ok? <==> forall i :: 0 <= i < |ts| ==> TriggerRecordOf(ts[i]).Ok?
    ensures r.Ok? ==> |r.value| == |ts|
    ensures r.Ok? ==> forall i :: 0 <= i < |ts| ==> TriggerRecordOf(ts[i]) == Ok(r.value[i])
    ensures r.Err? ==> exists k :: && 0 <= k < |ts| && TriggerRecordOf(ts[k]) == Err(r.error)
                                   && forall j :: 0 <= j < k ==> TriggerRecordOf(ts[j]).Ok?
  {
    MapOrThrow(ts, TriggerRecordOf)
  }
}
