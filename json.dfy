/** JavaScript-level notions the normalization code relies on: an object property that may
    be missing (`undefined`), explicitly `null`, or present; destructuring defaults; and the
    two array traversals the code uses, `map` and a `flatMap` whose callback may throw. */
module Json {

  /** One property of an object parsed from JSON. `Absent` is `undefined`. */
  datatype Field<+T> = Absent | Null | Present(v: T)

  /** The outcome of code that may throw: a value, or the error that was thrown. */
  datatype Result<+T, +E> = Ok(value: T) | Err(error: E)

  /** `let { x = d } = o`: the default replaces a missing property only; an explicit `null`
      is kept. */
  function WithDefault<T>(f: Field<T>, d: Field<T>): (r: Field<T>)
    ensures !f.Absent? ==> r == f
    ensures f.Absent? ==> r == d
    ensures r.Absent? <==> f.Absent? && d.Absent?
  {
    if f.Absent? then d else f
  }

  /** `Array.prototype.map`: one result per element, in order. */
  function MapSeq<A, B>(xs: seq<A>, f: A -> B): (r: seq<B>)
    ensures |r| == |xs|
    ensures forall i :: 0 <= i < |xs| ==> r[i] == f(xs[i])
  {
    if |xs| == 0 then [] else [f(xs[0])] + MapSeq(xs[1..], f)
  }

  /** Each element as a present array element: the view of a normalized array as raw input. */
  function AsElements<T>(xs: seq<T>): (r: seq<Field<T>>)
    ensures |r| == |xs|
    ensures forall i :: 0 <= i < |xs| ==> r[i] == Present(xs[i])
  {
    MapSeq(xs, (x: T) => Present(x))
  }

  /** `xs.flatMap(x => { ...; return record; })` where the callback may throw: the records of
      all elements in order, or the error of the first element whose callback throws. */
  function MapOrThrow<A, B, E>(xs: seq<A>, f: A -> Result<B, E>): (r: Result<seq<B>, E>)
    ensures r.Ok? <==> forall i :: 0 <= i < |xs| ==> f(xs[i]).Ok?
    ensures r.Ok? ==> |r.value| == |xs| && forall i :: 0 <= i < |xs| ==> f(xs[i]) == Ok(r.value[i])
    ensures r.Err? ==> exists k ::
      0 <= k < |xs| && f(xs[k]) == Err(r.error) && forall j :: 0 <= j < k ==> f(xs[j]).Ok?
  {
    if |xs| == 0 then Ok([])
    else
      match f(xs[0])
      case Err(e) => Err(e)
      case Ok(b) =>
        match MapOrThrow(xs[1..], f)
        case Err(e) =>
          ghost var k :| 0 <= k < |xs| - 1 && f(xs[1..][k]) == Err(e)
                          && forall j :: 0 <= j < k ==> f(xs[1..][j]).Ok?;
          assert f(xs[k + 1]) == Err(e) && forall j :: 0 <= j < k + 1 ==> f(xs[j]).Ok? by {
            forall j | 0 <= j < k + 1 ensures f(xs[j]).Ok? {
              if j > 0 { assert xs[j] == xs[1..][j - 1]; }
            }
          }
          Err(e)
        case Ok(bs) =>
          assert forall i :: 0 < i < |xs| ==> xs[i] == xs[1..][i - 1];
          Ok([b] + bs)
  }
}
