/** The collection extractor of the Tag Manager downloader: the four entity lists taken out of
    the live container versions with `versions.map(v => v.kind).filter(o => o).flat()`. */
module Extraction {
  import opened Json
  import opened Gtm

  /** `arrays.filter(o => o)`: the arrays that are there, in order; missing and null ones go. */
  function Truthy<T(!new)>(fs: seq<Field<T>>): (r: seq<T>)
    ensures |r| <= |fs|
    ensures forall x :: x in r <==> Present(x) in fs
  {
    if |fs| == 0 then []
    else
      assert fs == [fs[0]] + fs[1..];
      (if fs[0].Present? then [fs[0].v] else []) + Truthy(fs[1..])
  }

  /** `.flat()`: the elements of the arrays, array after array. */
  function Flat<T(!new)>(xss: seq<seq<T>>): (r: seq<T>)
    ensures forall x :: x in r <==> exists xs :: xs in xss && x in xs
  {
    if |xss| == 0 then []
    else
      assert xss == [xss[0]] + xss[1..];
      xss[0] + Flat(xss[1..])
  }

  /** `vs.map(sel).filter(o => o).flat()`, as the code writes it: an entity is extracted
      exactly when the array of some version holds it. */
  function Extract<V, T(!new)>(vs: seq<V>, sel: V -> Field<seq<T>>): (r: seq<T>)
    ensures forall x :: x in r <==>
      exists i :: 0 <= i < |vs| && sel(vs[i]).Present? && x in sel(vs[i]).v
  {
    var m := MapSeq(vs, sel);
    assert forall xs :: Present(xs) in m <==> exists i :: 0 <= i < |vs| && sel(vs[i]) == Present(xs);
    Flat(Truthy(m))
  }

  /** What one version adds: its array, or nothing when the array is missing or null. */
  function Contribution<T>(f: Field<seq<T>>): seq<T>
  {
    if f.Present? then f.v else []
  }

  /** The reference definition: each version's contribution, version after version. */
  function PerVersion<V, T>(vs: seq<V>, sel: V -> Field<seq<T>>): seq<T>
  {
    if |vs| == 0 then [] else Contribution(sel(vs[0])) + PerVersion(vs[1..], sel)
  }

  /** The sum of the lengths of the arrays that are there. */
  function SumOfLengths<V, T>(vs: seq<V>, sel: V -> Field<seq<T>>): nat
  {
    if |vs| == 0 then 0 else |Contribution(sel(vs[0]))| + SumOfLengths(vs[1..], sel)
  }

  /** The code's chain of `map`, `filter` and `flat` is the version-by-version concatenation. */
  lemma {:induction false} ExtractIsPerVersion<V, T(!new)>(vs: seq<V>, sel: V -> Field<seq<T>>)
    ensures Extract(vs, sel) == PerVersion(vs, sel)
  {
    if |vs| > 0 {
      ExtractIsPerVersion(vs[1..], sel);
      var m := MapSeq(vs, sel);
      assert m[1..] == MapSeq(vs[1..], sel);
      var rest := Truthy(m[1..]);
      if m[0].Present? {
        assert Truthy(m) == [m[0].v] + rest;
        assert ([m[0].v] + rest)[1..] == rest;
      } else {
        assert Truthy(m) == rest;
      }
    }
  }

  lemma {:induction false} PerVersionAppend<V, T>(vs: seq<V>, ws: seq<V>, sel: V -> Field<seq<T>>)
    ensures PerVersion(vs + ws, sel) == PerVersion(vs, sel) + PerVersion(ws, sel)
  {
    if |vs| > 0 {
      assert (vs + ws)[1..] == vs[1..] + ws;
      PerVersionAppend(vs[1..], ws, sel);
    } else {
      assert vs + ws == ws;
    }
  }

  /** Extraction distributes over concatenation of version lists: order is preserved. */
  lemma ExtractAppend<V, T(!new)>(vs: seq<V>, ws: seq<V>, sel: V -> Field<seq<T>>)
    ensures Extract(vs + ws, sel) == Extract(vs, sel) + Extract(ws, sel)
  {
    ExtractIsPerVersion(vs + ws, sel);
    ExtractIsPerVersion(vs, sel);
    ExtractIsPerVersion(ws, sel);
    PerVersionAppend(vs, ws, sel);
  }

  lemma {:induction false} PerVersionLength<V, T>(vs: seq<V>, sel: V -> Field<seq<T>>)
    ensures |PerVersion(vs, sel)| == SumOfLengths(vs, sel)
  {
    if |vs| > 0 {
      PerVersionLength(vs[1..], sel);
    }
  }

  /** The extracted list is as long as all present arrays together. */
  lemma ExtractLength<V, T(!new)>(vs: seq<V>, sel: V -> Field<seq<T>>)
    ensures |Extract(vs, sel)| == SumOfLengths(vs, sel)
  {
    ExtractIsPerVersion(vs, sel);
    PerVersionLength(vs, sel);
  }

  /** Versions that all lack the array, or have it null, yield an empty list and no error. */
  lemma {:induction false} ExtractNone<V, T(!new)>(vs: seq<V>, sel: V -> Field<seq<T>>)
    requires forall i :: 0 <= i < |vs| ==> !sel(vs[i]).Present?
    ensures Extract(vs, sel) == []
  {
    ExtractIsPerVersion(vs, sel);
    if |vs| > 0 {
      assert PerVersion(vs, sel) == PerVersion(vs[1..], sel);
      ExtractNone(vs[1..], sel);
      ExtractIsPerVersion(vs[1..], sel);
    }
  }

  /** When only version `k` has the array, the extracted list is that array. */
  lemma ExtractOnlyOne<V, T(!new)>(vs: seq<V>, sel: V -> Field<seq<T>>, k: nat)
    requires k < |vs| && sel(vs[k]).Present?
    requires forall i :: 0 <= i < |vs| && i != k ==> !sel(vs[i]).Present?
    ensures Extract(vs, sel) == sel(vs[k]).v
  {
    var before, after := vs[..k], vs[k + 1..];
    assert vs == before + [vs[k]] + after;
    ExtractAppend(before + [vs[k]], after, sel);
    ExtractAppend(before, [vs[k]], sel);
    ExtractNone(before, sel);
    ExtractNone(after, sel);
    ExtractIsPerVersion([vs[k]], sel);
    assert PerVersion([vs[k]], sel) == sel(vs[k]).v + PerVersion([vs[k]][1..], sel);
  }

  function TagArray(v: RawVersion): Field<seq<RawTag>> { v.tag }
  function VariableArray(v: RawVersion): Field<seq<RawVariable>> { v.variable }
  function BuiltInVariableArray(v: RawVersion): Field<seq<BuiltInEntry>> { v.builtInVariable }
  function TriggerArray(v: RawVersion): Field<seq<RawTrigger>> { v.trigger }

  /** Every tag of every version, in order. */
  function Tags(versions: seq<RawVersion>): (r: seq<RawTag>)
    ensures r == PerVersion(versions, TagArray)
    ensures |r| == SumOfLengths(versions, TagArray)
  {
    ExtractIsPerVersion(versions, TagArray);
    ExtractLength(versions, TagArray);
    Extract(versions, TagArray)
  }

  /** Every variable of every version, in order. */
  function Variables(versions: seq<RawVersion>): (r: seq<RawVariable>)
    ensures r == PerVersion(versions, VariableArray)
    ensures |r| == SumOfLengths(versions, VariableArray)
  {
    ExtractIsPerVersion(versions, VariableArray);
    ExtractLength(versions, VariableArray);
    Extract(versions, VariableArray)
  }

  /** Every trigger of every version, in order. */
  function Triggers(versions: seq<RawVersion>): (r: seq<RawTrigger>)
    ensures r == PerVersion(versions, TriggerArray)
    ensures |r| == SumOfLengths(versions, TriggerArray)
  {
    ExtractIsPerVersion(versions, TriggerArray);
    ExtractLength(versions, TriggerArray);
    Extract(versions, TriggerArray)
  }

  /** The built-in variables an entry of a `builtInVariable` array stands for. */
  function Splice(e: BuiltInEntry): seq<BuiltInVariable>
  {
    match e
    case Single(b) => [b]
    case Nested(bs) => bs
  }

  /** `versions.map(v => v.builtInVariable).filter(o => o).flat(2)`: the second level of
      flattening splices in the entries that are themselves arrays. */
  function BuiltInVariables(versions: seq<RawVersion>): (r: seq<BuiltInVariable>)
    ensures r == Flat(MapSeq(PerVersion(versions, BuiltInVariableArray), Splice))
  {
    ExtractIsPerVersion(versions, BuiltInVariableArray);
    Flat(MapSeq(Extract(versions, BuiltInVariableArray), Splice))
  }

  lemma {:induction false} FlatSingles(es: seq<BuiltInEntry>)
    requires forall i :: 0 <= i < |es| ==> es[i].Single?
    ensures |Flat(MapSeq(es, Splice))| == |es|
    ensures forall i :: 0 <= i < |es| ==> Flat(MapSeq(es, Splice))[i] == es[i].item
  {
    if |es| > 0 {
      assert MapSeq(es, Splice)[1..] == MapSeq(es[1..], Splice);
      FlatSingles(es[1..]);
      assert Flat(MapSeq(es, Splice)) == [es[0].item] + Flat(MapSeq(es[1..], Splice));
    }
  }

  /** When no entry is itself an array (the shape the API documents), the second level of
      flattening changes nothing: the built-in variables are the entries, in order. */
  lemma BuiltInVariablesUnnested(versions: seq<RawVersion>)
    requires forall b :: b in Extract(versions, BuiltInVariableArray) ==> b.Single?
    ensures |BuiltInVariables(versions)| == |Extract(versions, BuiltInVariableArray)|
    ensures |BuiltInVariables(versions)| == SumOfLengths(versions, BuiltInVariableArray)
    ensures forall i :: 0 <= i < |BuiltInVariables(versions)| ==>
      BuiltInVariables(versions)[i] == Extract(versions, BuiltInVariableArray)[i].item
  {
    var es := Extract(versions, BuiltInVariableArray);
    FlatSingles(es);
    ExtractLength(versions, BuiltInVariableArray);
  }

  /** Splicing the entries and flattening keeps exactly what the entries stand for. */
  lemma SplicedMember(es: seq<BuiltInEntry>, b: BuiltInVariable)
    ensures b in Flat(MapSeq(es, Splice)) <==> exists e :: e in es && b in Splice(e)
  {
    var m := MapSeq(es, Splice);
    if b in Flat(m) {
      var xs :| xs in m && b in xs;
      var j :| 0 <= j < |m| && m[j] == xs;
      assert es[j] in es && b in Splice(es[j]);
    }
    if exists e :: e in es && b in Splice(e) {
      var e :| e in es && b in Splice(e);
      var j :| 0 <= j < |es| && es[j] == e;
      assert m[j] in m;
    }
  }

  /** Entry `e` of a `builtInVariable` array stands for `b`: it is `b`, or an array holding it. */
  predicate StandsFor(e: BuiltInEntry, b: BuiltInVariable)
  {
    e == Single(b) || (e.Nested? && b in e.items)
  }

  lemma BuiltInVariablesMemberForward(versions: seq<RawVersion>, b: BuiltInVariable)
    requires b in BuiltInVariables(versions)
    ensures exists i, e :: && 0 <= i < |versions| && versions[i].builtInVariable.Present?
                           && e in versions[i].builtInVariable.v && StandsFor(e, b)
  {
    var es := Extract(versions, BuiltInVariableArray);
    SplicedMember(es, b);
    var e :| e in es && b in Splice(e);
    var i :| 0 <= i < |versions| && BuiltInVariableArray(versions[i]).Present?
             && e in BuiltInVariableArray(versions[i]).v;
    assert StandsFor(e, b);
  }

  lemma BuiltInVariablesMemberBackward(versions: seq<RawVersion>, b: BuiltInVariable, i: int, e: BuiltInEntry)
    requires 0 <= i < |versions| && versions[i].builtInVariable.Present?
    requires e in versions[i].builtInVariable.v && StandsFor(e, b)
    ensures b in BuiltInVariables(versions)
  {
    var es := Extract(versions, BuiltInVariableArray);
    assert BuiltInVariableArray(versions[i]) == versions[i].builtInVariable;
    assert e in es;
    assert b in Splice(e);
    SplicedMember(es, b);
  }

  /** A built-in variable is listed exactly when some version's `builtInVariable` array holds
      it, or holds an array that holds it. */
  lemma BuiltInVariablesMember(versions: seq<RawVersion>, b: BuiltInVariable)
    ensures b in BuiltInVariables(versions) <==>
      exists i, e :: && 0 <= i < |versions| && versions[i].builtInVariable.Present?
                     && e in versions[i].builtInVariable.v && StandsFor(e, b)
  {
    if b in BuiltInVariables(versions) {
      BuiltInVariablesMemberForward(versions, b);
    }
    if exists i, e :: && 0 <= i < |versions| && versions[i].builtInVariable.Present?
                      && e in versions[i].builtInVariable.v && StandsFor(e, b) {
      var i, e :| && 0 <= i < |versions| && versions[i].builtInVariable.Present?
                  && e in versions[i].builtInVariable.v && StandsFor(e, b);
      BuiltInVariablesMemberBackward(versions, b, i, e);
    }
  }
}
