/** The parameter and condition normalizers of the Tag Manager downloader: the callbacks that
    give every element of a `parameter`, `filter` or `customEventFilter` array a fixed shape. */
module Parameters {
  import opened Json
  import opened Gtm

  /** The object without properties, which `{ ...p }` yields when `p` is null or missing. */
  const EmptyObject := Parameter(Absent, Absent, Absent, Absent, Absent)

  /** `{ ...p }`: a copy of the element, or the empty object for a null or missing one. */
  function Spread(p: Field<Parameter>): (r: Parameter)
    ensures p.Present? ==> r == p.v
    ensures !p.Present? ==> r.typ.Absent? && r.key.Absent? && r.value.Absent? && r.list.Absent? && r.map_.Absent?
  {
    if p.Present? then p.v else EmptyObject
  }

  /** What the tag and variable normalizer guarantees: `key`, `value`, `list` and `map` are
      always there. `type` has no default and stays missing when the raw element lacks it. */
  predicate Complete(p: Parameter)
  {
    !p.key.Absent? && !p.value.Absent? && !p.list.Absent? && !p.map_.Absent?
  }

  /** `r` has `raw`'s `type`, and every other property `raw` has, unchanged (null included). */
  predicate Keeps(raw: Parameter, r: Parameter)
  {
    && r.typ == raw.typ
    && (!raw.key.Absent? ==> r.key == raw.key)
    && (!raw.value.Absent? ==> r.value == raw.value)
    && (!raw.list.Absent? ==> r.list == raw.list)
    && (!raw.map_.Absent? ==> r.map_ == raw.map_)
  }

  /** The tag and variable parameter callback: `key` and `value` default to null, `list` and
      `map` to `[]`. Sub-parameters inside `list` and `map` are copied, not normalized. */
  function NormalizeParameter(p: Field<Parameter>): (r: Parameter)
    ensures Complete(r) && Keeps(Spread(p), r)
    ensures Spread(p).key.Absent? ==> r.key == Null
    ensures Spread(p).value.Absent? ==> r.value == Null
    ensures Spread(p).list.Absent? ==> r.list == Present([])
    ensures Spread(p).map_.Absent? ==> r.map_ == Present([])
  {
    var q := Spread(p);
    Parameter(q.typ, WithDefault(q.key, Null), WithDefault(q.value, Null),
              WithDefault(q.list, Present([])), WithDefault(q.map_, Present([])))
  }

  /** A parameter is left as it is by the normalizer exactly when it is already complete. */
  lemma NormalizeParameterFixpoint(q: Parameter)
    ensures NormalizeParameter(Present(q)) == q <==> Complete(q)
  {
  }

  /** Normalizing a normalized parameter again changes nothing. */
  lemma NormalizeParameterIdempotent(p: Field<Parameter>)
    ensures NormalizeParameter(Present(NormalizeParameter(p))) == NormalizeParameter(p)
  {
  }

  /** `parameter.map(p => ...)` for tags and variables. */
  function NormalizeParameters(ps: seq<Field<Parameter>>): (r: seq<Parameter>)
    ensures |r| == |ps|
    ensures forall i :: 0 <= i < |ps| ==> r[i] == NormalizeParameter(ps[i])
    ensures forall i :: 0 <= i < |r| ==> Complete(r[i])
  {
    MapSeq(ps, NormalizeParameter)
  }

  /** A normalized parameter array, fed back in as raw input, normalizes to itself. */
  lemma NormalizeParametersFixpoint(ps: seq<Parameter>)
    requires forall i :: 0 <= i < |ps| ==> Complete(ps[i])
    ensures NormalizeParameters(AsElements(ps)) == ps
  {
  }

  /** The sentinel trigger parameter: all three properties null. */
  const NullTriggerParameter := TriggerParameter(Null, Null, Null)

  /** The parameter record of triggers and conditions has only `type`, `key` and `value`. */
  function Narrow(p: Parameter): TriggerParameter
  {
    TriggerParameter(p.typ, p.key, p.value)
  }

  /** The trigger and condition parameter callback: `key` and `value` default to null,
      `list` and `map` are dropped. It is the tag normalizer narrowed to three properties. */
  function NormalizeTriggerParameter(p: Field<Parameter>): (r: TriggerParameter)
    ensures r.typ == Spread(p).typ && !r.key.Absent? && !r.value.Absent?
    ensures !Spread(p).key.Absent? ==> r.key == Spread(p).key
    ensures !Spread(p).value.Absent? ==> r.value == Spread(p).value
    ensures r == Narrow(NormalizeParameter(p))
  {
    var q := Spread(p);
    TriggerParameter(q.typ, WithDefault(q.key, Null), WithDefault(q.value, Null))
  }

  /** `parameter.map(p => ...)` for triggers and conditions. */
  function TriggerParameters(ps: seq<Field<Parameter>>): (r: seq<TriggerParameter>)
    ensures |r| == |ps|
    ensures forall i :: 0 <= i < |ps| ==> r[i] == NormalizeTriggerParameter(ps[i])
  {
    MapSeq(ps, NormalizeTriggerParameter)
  }

  /** The raw element a trigger parameter record reads as when it is normalized again. */
  function Widen(t: TriggerParameter): Parameter
  {
    Parameter(t.typ, t.key, t.value, Absent, Absent)
  }

  /** A trigger parameter record with `key` and `value` present normalizes to itself. */
  lemma TriggerParametersFixpoint(ts: seq<TriggerParameter>)
    requires forall i :: 0 <= i < |ts| ==> !ts[i].key.Absent? && !ts[i].value.Absent?
    ensures TriggerParameters(AsElements(MapSeq(ts, Widen))) == ts
  {
  }

  /** A `filter` or `customEventFilter` entry the callback can destructure and map over. */
  predicate WellFormedCondition(c: Field<RawCondition>)
  {
    c.Present? && c.v.parameter.Present?
  }

  /** The condition callback `({ type, parameter }) => ({ type, parameter: parameter.map(...) })`,
      which throws for a null or missing entry and for an entry without `parameter`. */
  function NormalizeCondition(c: Field<RawCondition>, site: ConditionArray): (r: Result<Condition, Failure>)
    ensures r.Ok? <==> WellFormedCondition(c)
    ensures !c.Present? ==> r == Err(ConditionNotObject(site))
    ensures c.Present? && !c.v.parameter.Present? ==> r == Err(ConditionWithoutParameter(site))
    ensures r.Ok? ==> r.value.typ == c.v.typ && |r.value.parameter| == |c.v.parameter.v|
    ensures r.Ok? ==> forall i :: 0 <= i < |c.v.parameter.v| ==>
      r.value.parameter[i] == NormalizeTriggerParameter(c.v.parameter.v[i])
  {
    if !c.Present? then Err(ConditionNotObject(site))
    else if !c.v.parameter.Present? then Err(ConditionWithoutParameter(site))
    else Ok(Condition(c.v.typ, TriggerParameters(c.v.parameter.v)))
  }

  /** The sentinel condition put in place of a missing or null condition array. */
  const SentinelCondition := Condition(Null, [NullTriggerParameter])

  /** A trigger's `filter` or `customEventFilter` array: the sentinel when the array is missing
      or null; otherwise one condition per entry, in order (so `[]` stays `[]`), or the error
      of the first entry that cannot be normalized. */
  function NormalizeConditions(f: Field<seq<Field<RawCondition>>>, site: ConditionArray): (r: Result<seq<Condition>, Failure>)
    ensures !f.Present? ==> r == Ok([SentinelCondition])
    ensures f.Present? ==> (r.Ok? <==> forall i :: 0 <= i < |f.v| ==> WellFormedCondition(f.v[i]))
    ensures f.Present? && r.Ok? ==>
      && |r.value| == |f.v|
      && forall i :: 0 <= i < |f.v| ==> NormalizeCondition(f.v[i], site) == Ok(r.value[i])
    ensures f.Present? && r.Err? ==>
      exists k :: && 0 <= k < |f.v| && !WellFormedCondition(f.v[k])
                  && NormalizeCondition(f.v[k], site) == Err(r.error)
                  && forall j :: 0 <= j < k ==> WellFormedCondition(f.v[j])
  {
    if f.Present? then MapOrThrow(f.v, (c: Field<RawCondition>) => NormalizeCondition(c, site))
    else Ok([SentinelCondition])
  }
}
