/**
  The tests use the container as an ordinary range: a range-for loop,
  `std::transform` and `std::accumulate` over `[begin(), end())`. Each is
  written here as a loop that walks `begin()` with `increment`,
  stops on `equal` and reads with `dereference`. The contracts say that
  walking the structure of arrays this way yields what the array-of-records
  view and the field vectors promise.
 */
module Algorithms {
  import opened Storage
  import opened Cursor

  /** Left fold, element by element from the front. */
  function FoldLeft<T, X>(f: (T, X) -> T, init: T, xs: seq<X>): T
  {
    if xs == [] then init else f(FoldLeft(f, init, xs[..|xs| - 1]), xs[|xs| - 1])
  }

  /** A range-for over the container: the records visited in order. */
  method VisitAll<A, B>(s: Soa<A, B>) returns (visited: seq<Record<A, B>>)
    requires Valid(s)
    ensures visited == Records(s)
  {
    var it := Begin(s);
    var last := End(s);
    visited := [];
    while !Equal(it, last)
      invariant it.Bound? && Lockstep(it) && 0 <= it.pos0 <= Size(s)
      invariant visited == Records(s)[..it.pos0]
      decreases Size(s) - it.pos0
    {
      visited := visited + [Deref(s, it)];
      it := Increment(it);
    }
  }

  /** `std::transform(begin(), end(), out, f)`. */
  method Transform<A, B, C>(s: Soa<A, B>, f: Record<A, B> -> C) returns (out: seq<C>)
    requires Valid(s)
    ensures |out| == Size(s)
    ensures forall i :: 0 <= i < |out| ==> out[i] == f(Subscript(s, i))
  {
    var it := Begin(s);
    var last := End(s);
    out := [];
    while !Equal(it, last)
      invariant it.Bound? && Lockstep(it) && 0 <= it.pos0 <= Size(s)
      invariant |out| == it.pos0
      invariant forall i :: 0 <= i < |out| ==> out[i] == f(Subscript(s, i))
      decreases Size(s) - it.pos0
    {
      out := out + [f(Deref(s, it))];
      it := Increment(it);
    }
  }

  /** Transforming every record to its field 0 yields `get<0>()`. */
  method TransformField0<A, B>(s: Soa<A, B>) returns (v: seq<A>)
    requires Valid(s)
    ensures v == Get0(s)
  {
    v := Transform(s, (r: Record<A, B>) => r.0);
  }

  /** `std::accumulate(begin(), end(), init, f)`. */
  method Accumulate<A, B, T>(s: Soa<A, B>, init: T, f: (T, Record<A, B>) -> T) returns (acc: T)
    requires Valid(s)
    ensures acc == FoldLeft(f, init, Records(s))
  {
    var it := Begin(s);
    var last := End(s);
    acc := init;
    while !Equal(it, last)
      invariant it.Bound? && Lockstep(it) && 0 <= it.pos0 <= Size(s)
      invariant acc == FoldLeft(f, init, Records(s)[..it.pos0])
      decreases Size(s) - it.pos0
    {
      assert Records(s)[..it.pos0 + 1][..it.pos0] == Records(s)[..it.pos0];
      acc := f(acc, Deref(s, it));
      it := Increment(it);
    }
    assert Records(s)[..Size(s)] == Records(s);
  }

  /** Folding a function of field 0 over the records equals folding it over
      the projected field 0. */
  lemma {:induction false} FoldColumn0<A, B, T>(g: (T, A) -> T, init: T, rs: seq<Record<A, B>>)
    ensures FoldLeft((acc: T, r: Record<A, B>) => g(acc, r.0), init, rs) == FoldLeft(g, init, Column0(rs))
  {
    if rs != [] {
      var front := rs[..|rs| - 1];
      FoldColumn0(g, init, front);
      assert Column0(rs)[..|rs| - 1] == Column0(front);
    }
  }

  /** Accumulating field 0 over `[begin(), end())` equals accumulating the
      field-0 vector `get<0>()` directly. */
  lemma FoldField0<A, B, T>(s: Soa<A, B>, g: (T, A) -> T, init: T)
    requires Valid(s)
    ensures FoldLeft((acc: T, r: Record<A, B>) => g(acc, r.0), init, Records(s)) == FoldLeft(g, init, Get0(s))
  {
    FoldColumn0(g, init, Records(s));
  }
}
