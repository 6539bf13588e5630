/** Projections of a sequence: each element contributes some elements, in order. */
module Sequences {

  function Gather<T, U>(f: T -> seq<U>, xs: seq<T>): seq<U> {
    if xs == [] then [] else f(xs[0]) + Gather(f, xs[1..])
  }

  lemma {:induction false} GatherConcat<T, U>(f: T -> seq<U>, a: seq<T>, b: seq<T>)
    ensures Gather(f, a + b) == Gather(f, a) + Gather(f, b)
  {
    if a == [] {
      assert a + b == b;
    } else {
      GatherConcat(f, a[1..], b);
      assert (a + b)[1..] == a[1..] + b;
    }
  }

  lemma GatherOne<T, U>(f: T -> seq<U>, x: T)
    ensures Gather(f, [x]) == f(x)
  {
    assert [x][1..] == [];
  }

  lemma GatherSnoc<T, U>(f: T -> seq<U>, xs: seq<T>, x: T)
    ensures Gather(f, xs + [x]) == Gather(f, xs) + f(x)
  {
    GatherConcat(f, xs, [x]);
    GatherOne(f, x);
  }

  lemma GatherHead<T, U>(f: T -> seq<U>, xs: seq<T>)
    requires xs != []
    ensures Gather(f, xs) == f(xs[0]) + Gather(f, xs[1..])
  {
  }

  /** An element that contributes nothing can be left out. */
  lemma GatherSkip<T, U>(f: T -> seq<U>, a: seq<T>, x: T, b: seq<T>)
    requires f(x) == []
    ensures Gather(f, a + [x] + b) == Gather(f, a + b)
  {
    GatherConcat(f, a + [x], b);
    GatherSnoc(f, a, x);
    GatherConcat(f, a, b);
  }

  lemma Assoc<T>(a: seq<T>, b: seq<T>, c: seq<T>)
    ensures a + b + c == a + (b + c)
  {
  }

  lemma AppendNothing<T>(a: seq<T>)
    ensures a + [] == a && [] + a == a
  {
  }
}
