/** The `pipe` combinator of the downloader's helpers: `pipe(f1, ..., fn)` is the function that
    applies `f1` first and `fn` last. */
module Helpers {

  /** `fns.reduce((v, f) => f(v), x)`: a left fold of application, so the last function
      runs last, on what the ones before it made of `v`. */
  function Reduce<T>(fns: seq<T -> T>, v: T): (r: T)
    ensures |fns| > 0 ==> r == fns[|fns| - 1](Reduce(fns[..|fns| - 1], v))
  {
    if |fns| == 0 then v
    else
      assert |fns| > 1 ==> fns[1..][..|fns| - 2] == fns[..|fns| - 1][1..];
      Reduce(fns[1..], fns[0](v))
  }

  /** The reference definition `fn(...f2(f1(x)))`, unrolled from the last function inwards. */
  function Nest<T>(fns: seq<T -> T>, x: T): T
  {
    if |fns| == 0 then x else fns[|fns| - 1](Nest(fns[..|fns| - 1], x))
  }

  /** The fold is the nesting. */
  lemma {:induction false} ReduceIsNest<T(!new)>(fns: seq<T -> T>)
    ensures forall x :: Reduce(fns, x) == Nest(fns, x)
  {
    if |fns| > 0 {
      ReduceIsNest(fns[..|fns| - 1]);
    }
  }

  /** `pipe(...fns)`: the function `x => fn(...f1(x))`. */
  function Pipe<T(!new)>(fns: seq<T -> T>): (r: T -> T)
    ensures forall x :: r(x) == Nest(fns, x)
  {
    ReduceIsNest(fns);
    x => Reduce(fns, x)
  }

  /** `pipe()` is the identity. */
  lemma PipeEmpty<T(!new)>(x: T)
    ensures Pipe<T>([])(x) == x
  {
  }

  /** `pipe(f)` is `f`. */
  lemma PipeSingle<T(!new)>(f: T -> T, x: T)
    ensures Pipe([f])(x) == f(x)
  {
    assert Pipe([f])(x) == Reduce([f], x) == Reduce([f][1..], f(x));
    assert [f][1..] == [];
  }

  /** Piping two lists of functions one after the other is piping their concatenation. */
  lemma {:induction false} PipeAppend<T(!new)>(fs: seq<T -> T>, gs: seq<T -> T>, x: T)
    ensures Pipe(fs + gs)(x) == Pipe(gs)(Pipe(fs)(x))
  {
    if |fs| > 0 {
      assert (fs + gs)[1..] == fs[1..] + gs;
      PipeAppend(fs[1..], gs, fs[0](x));
    } else {
      assert fs + gs == gs;
    }
  }

  /** A function appended to the pipe runs last, on the result of all before it. */
  lemma PipeSnoc<T(!new)>(fs: seq<T -> T>, g: T -> T, x: T)
    ensures Pipe(fs + [g])(x) == g(Pipe(fs)(x))
  {
    PipeAppend(fs, [g], x);
    PipeSingle(g, Pipe(fs)(x));
  }
}
