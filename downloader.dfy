/** The normalization step of the downloader's run: from the live container versions to the
    four lists of records handed to the warehouse. */
module Downloader {
  import opened Json
  import opened Gtm
  import opened Parameters
  import opened Extraction
  import opened Records

  /** The records for the tag, variable, built-in variable and trigger tables. */
  datatype Tables = Tables(
    tags: seq<TagRecord>,
    variables: seq<VariableRecord>,
    builtInVariables: seq<BuiltInVariable>,
    triggers: seq<TriggerRecord>)

  /** Extraction, then the record builders in the code's order: tags (which may throw),
      variables, built-in variables (passed through) and triggers (which may throw). */
  function NormalizeVersions(versions: seq<RawVersion>): (r: Result<Tables, Failure>)
    ensures r.Ok? <==>
      && (forall i :: 0 <= i < |Tags(versions)| ==> Tags(versions)[i].parameter.Present?)
      && (forall i :: 0 <= i < |Triggers(versions)| ==> TriggerRecordOf(Triggers(versions)[i]).Ok?)
    ensures r.Err? && (exists i :: 0 <= i < |Tags(versions)| && !Tags(versions)[i].parameter.Present?)
      ==> r.error == TagWithoutParameter
    ensures r.Err? && (forall i :: 0 <= i < |Tags(versions)| ==> Tags(versions)[i].parameter.Present?)
      ==> exists k :: && 0 <= k < |Triggers(versions)|
                      && TriggerRecordOf(Triggers(versions)[k]) == Err(r.error)
                      && forall j :: 0 <= j < k ==> TriggerRecordOf(Triggers(versions)[j]).Ok?
    ensures r.Ok? ==> |r.value.tags| == SumOfLengths(versions, TagArray)
    ensures r.Ok? ==> forall i :: 0 <= i < |Tags(versions)| ==> TagRecordOf(Tags(versions)[i]) == Ok(r.value.tags[i])
    ensures r.Ok? ==> |r.value.variables| == SumOfLengths(versions, VariableArray)
    ensures r.Ok? ==> forall i :: 0 <= i < |Variables(versions)| ==>
                        r.value.variables[i] == VariableRecordOf(Variables(versions)[i])
    ensures r.Ok? ==> r.value.builtInVariables == BuiltInVariables(versions)
    ensures r.Ok? ==> |r.value.triggers| == SumOfLengths(versions, TriggerArray)
    ensures r.Ok? ==> forall i :: 0 <= i < |Triggers(versions)| ==>
                        TriggerRecordOf(Triggers(versions)[i]) == Ok(r.value.triggers[i])
  {
    match TagRecords(Tags(versions))
    case Err(e) => Err(e)
    case Ok(tagRecords) =>
      var variableRecords := VariableRecords(Variables(versions));
      var builtInVariableRecords := BuiltInVariables(versions);
      match TriggerRecords(Triggers(versions))
      case Err(e) => Err(e)
      case Ok(triggerRecords) => Ok(Tables(tagRecords, variableRecords, builtInVariableRecords, triggerRecords))
  }

  // ---------------------------------------------------------------- worked examples

  /** A tag with one parameter that has only `type` and `value`, and no trigger ids. */
  lemma TagExample()
    ensures
      var raw := RawTag(Present("1"), Present("2"), Present("3"), Present("t"), Present("html"),
                        Present([Present(Parameter(Present("template"), Absent, Present("x"), Absent, Absent))]),
                        Present("f"), Absent, Absent, Absent, Absent);
      TagRecordOf(raw) == Ok(TagRecord(Present("1"), Present("2"), Present("3"), Present("t"), Present("html"),
                                       [Parameter(Present("template"), Null, Present("x"), Present([]), Present([]))],
                                       Present("f"), Present([]), Present([]), Absent, Absent))
  {
    var ps := [Present(Parameter(Present("template"), Absent, Present("x"), Absent, Absent))];
    assert NormalizeParameters(ps) == [NormalizeParameter(ps[0])];
  }

  /** A trigger with no `filter`, `customEventFilter` or `parameter` gets the sentinels. */
  lemma TriggerSentinelExample(t: RawTrigger)
    requires t.filter.Absent? && t.customEventFilter.Absent? && t.parameter.Absent?
    ensures TriggerRecordOf(t).Ok?
    ensures TriggerRecordOf(t).value.filter == [Condition(Null, [TriggerParameter(Null, Null, Null)])]
    ensures TriggerRecordOf(t).value.customEventFilter == [Condition(Null, [TriggerParameter(Null, Null, Null)])]
    ensures TriggerRecordOf(t).value.parameter == [TriggerParameter(Null, Null, Null)]
  {
  }

  /** Present but empty condition arrays stay empty: no sentinel is substituted. */
  lemma TriggerEmptyFiltersExample(t: RawTrigger)
    requires t.filter == Present([]) && t.customEventFilter == Present([])
    ensures TriggerRecordOf(t).Ok?
    ensures TriggerRecordOf(t).value.filter == [] && TriggerRecordOf(t).value.customEventFilter == []
  {
  }

  /** Four versions of which only the second has variables: those are all the variables. */
  lemma OnlySecondVersionHasVariables(versions: seq<RawVersion>)
    requires |versions| == 4 && versions[1].variable.Present? && |versions[1].variable.v| == 3
    requires versions[0].variable.Absent? && versions[2].variable.Null? && versions[3].variable.Absent?
    ensures Variables(versions) == versions[1].variable.v && |Variables(versions)| == 3
  {
    ExtractOnlyOne(versions, VariableArray, 1);
  }

  /** Versions that all omit `trigger` yield no triggers and no error. */
  lemma NoTriggers(versions: seq<RawVersion>)
    requires forall i :: 0 <= i < |versions| ==> versions[i].trigger.Absent?
    ensures Triggers(versions) == []
  {
    ExtractNone(versions, TriggerArray);
  }

  /** Sub-parameters in `list` and `map` are kept whole, not normalized and not truncated. */
  lemma NestedParameterExample()
    ensures
      var inner1 := Parameter(Present("template"), Present("a"), Absent, Absent, Present([]));
      var inner2 := Parameter(Present("template"), Absent, Present("b"), Absent, Absent);
      var outer := Parameter(Present("list"), Present("k"), Absent, Present([Present(inner1), Present(inner2)]), Absent);
      NormalizeParameter(Present(outer))
        == Parameter(Present("list"), Present("k"), Null, Present([Present(inner1), Present(inner2)]), Present([]))
  {
  }
}
