/**
  `soa::iterator_impl<Const>`: a tuple of per-field vector iterators that are
  always moved together. A vector iterator is modelled by its offset from
  the start of its vector, so an iterator is a pair of integer positions plus
  its constness. The value-initialised (default-constructed) iterator has no
  position and is `Singular`.

  Dereference reads field `k` at position `k`, while `distance_to` and
  `equal` look at field 0 only. Both are sound exactly when the positions
  agree, which is the `Lockstep` predicate below.

  The comparison and arithmetic operators that Boost's `iterator_facade`
  derives from `distance_to`, `equal` and `advance` are written out here.
 */
module Cursor {
  import opened Storage

  datatype Iterator =
    | Singular(isConst: bool)
    | Bound(isConst: bool, pos0: int, pos1: int)

  /** Every field position denotes the same logical index. */
  predicate Lockstep(it: Iterator) {
    it.Bound? ==> it.pos0 == it.pos1
  }

  /** Two iterators may be compared or subtracted: both value-initialised or
      both bound to positions. */
  predicate Comparable(a: Iterator, b: Iterator) {
    a.Singular? == b.Singular?
  }

  /** The iterator addresses an element of `s` in every field. */
  predicate Dereferenceable<A, B>(s: Soa<A, B>, it: Iterator) {
    it.Bound? && 0 <= it.pos0 < |s.vec0| && 0 <= it.pos1 < |s.vec1|
  }

  /** `begin()`: the start of every field vector. */
  function Begin<A, B>(s: Soa<A, B>): (it: Iterator)
    ensures it.Bound? && !it.isConst && Lockstep(it)
    ensures it.pos0 == 0
  {
    Bound(false, 0, 0)
  }

  /** `cbegin()`, and `begin()` on a const container. */
  function CBegin<A, B>(s: Soa<A, B>): (it: Iterator)
    ensures it.Bound? && it.isConst && Lockstep(it)
    ensures it.pos0 == 0
  {
    Bound(true, 0, 0)
  }

  /** `end()`: built from the end of each field vector separately, so it is
      in lockstep exactly when the container is valid. */
  function End<A, B>(s: Soa<A, B>): (it: Iterator)
    ensures it.Bound? && !it.isConst
    ensures Lockstep(it) <==> Valid(s)
    ensures it.pos0 == Size(s)
  {
    Bound(false, |s.vec0|, |s.vec1|)
  }

  /** `cend()`, and `end()` on a const container. */
  function CEnd<A, B>(s: Soa<A, B>): (it: Iterator)
    ensures it.Bound? && it.isConst
    ensures Lockstep(it) <==> Valid(s)
    ensures it.pos0 == Size(s)
  {
    Bound(true, |s.vec0|, |s.vec1|)
  }

  /** The converting constructor from a mutable to a const iterator. It
      keeps every position, so the result is equal to its source. */
  function ToConst(it: Iterator): (r: Iterator)
    ensures r.isConst
    ensures it.Singular? ==> r.Singular?
    ensures it.Bound? ==> r.Bound? && r.pos0 == it.pos0 && r.pos1 == it.pos1
    ensures Comparable(r, it) && Comparable(it, r)
    ensures Lockstep(r) <==> Lockstep(it)
    ensures Equal(r, it) && Equal(it, r)
    ensures DistanceTo(it, r) == 0
  {
    match it
    case Singular(_) => Singular(true)
    case Bound(_, p0, p1) => Bound(true, p0, p1)
  }

  /** `dereference()`: the record read from each field at that field's own
      position. With lockstep it is the record `operator[]` returns at the
      shared index. */
  function Deref<A, B>(s: Soa<A, B>, it: Iterator): (r: Record<A, B>)
    requires Dereferenceable(s, it)
    ensures Valid(s) && Lockstep(it) ==> r == Subscript(s, it.pos0)
  {
    (s.vec0[it.pos0], s.vec1[it.pos1])
  }

  /** `*it = v` through a mutable iterator: writes field `k` of `v` at
      position `k`. With lockstep it is `operator[](i) = v` at the shared
      index. */
  function WriteThrough<A, B>(s: Soa<A, B>, it: Iterator, v: Record<A, B>): (r: Soa<A, B>)
    requires Dereferenceable(s, it) && !it.isConst
    ensures Valid(r) <==> Valid(s)
    ensures Valid(s) && Lockstep(it) ==> r == Assign(s, it.pos0, v)
    ensures Dereferenceable(r, it) && Deref(r, it) == v
  {
    Soa(s.vec0[it.pos0 := v.0], s.vec1[it.pos1 := v.1])
  }

  /** `increment()`: every field position moves forward by one. */
  function Increment(it: Iterator): (r: Iterator)
    requires it.Bound?
    ensures r.Bound? && r.isConst == it.isConst
    ensures r.pos0 == it.pos0 + 1 && r.pos1 == it.pos1 + 1
    ensures Lockstep(r) <==> Lockstep(it)
  {
    Bound(it.isConst, it.pos0 + 1, it.pos1 + 1)
  }

  /** `decrement()`: every field position moves back by one. */
  function Decrement(it: Iterator): (r: Iterator)
    requires it.Bound?
    ensures r.Bound? && r.isConst == it.isConst
    ensures r.pos0 == it.pos0 - 1 && r.pos1 == it.pos1 - 1
    ensures Lockstep(r) <==> Lockstep(it)
  {
    Bound(it.isConst, it.pos0 - 1, it.pos1 - 1)
  }

  /** `advance(n)`, i.e. `it += n`: every field position moves by `n`. */
  function Advance(it: Iterator, n: int): (r: Iterator)
    requires it.Bound?
    ensures r.Bound? && r.isConst == it.isConst
    ensures r.pos0 == it.pos0 + n && r.pos1 == it.pos1 + n
    ensures Lockstep(r) <==> Lockstep(it)
  {
    Bound(it.isConst, it.pos0 + n, it.pos1 + n)
  }

  /** `distance_to(other)`: computed from field 0 only. Two value-initialised
      iterators are at distance zero. With lockstep the field-1 positions
      give the same answer. */
  function DistanceTo(a: Iterator, b: Iterator): (d: int)
    requires Comparable(a, b)
    ensures a.Bound? && Lockstep(a) && Lockstep(b) ==> d == b.pos1 - a.pos1
    ensures a.Bound? ==> a.pos0 + d == b.pos0
    ensures a.Singular? ==> d == 0
  {
    if a.Singular? then 0 else b.pos0 - a.pos0
  }

  /** `equal(other)`: compares field 0 only. With lockstep it is equality
      of every field position. */
  predicate Equal(a: Iterator, b: Iterator)
    requires Comparable(a, b)
    ensures Equal(a, b) <==> DistanceTo(a, b) == 0
    ensures a.Bound? && Lockstep(a) && Lockstep(b) ==> (Equal(a, b) <==> a.pos1 == b.pos1)
  {
    if a.Singular? then true else a.pos0 == b.pos0
  }

  /** `it + n`: a copy advanced by `n`. */
  function Plus(it: Iterator, n: int): (r: Iterator)
    requires it.Bound?
    ensures r.Bound? && r.isConst == it.isConst
    ensures r.pos0 == it.pos0 + n && r.pos1 == it.pos1 + n
    ensures Lockstep(r) <==> Lockstep(it)
    ensures DistanceTo(it, r) == n
  {
    Advance(it, n)
  }

  /** `it - n`: a copy advanced by `-n`. */
  function Minus(it: Iterator, n: int): (r: Iterator)
    requires it.Bound?
    ensures r.Bound? && r.isConst == it.isConst
    ensures r.pos0 == it.pos0 - n && r.pos1 == it.pos1 - n
    ensures Lockstep(r) <==> Lockstep(it)
    ensures DistanceTo(r, it) == n
  {
    Advance(it, -n)
  }

  /** `a - b`: how far `a` is past `b`, from the field-0 positions. */
  function Difference(a: Iterator, b: Iterator): (d: int)
    requires Comparable(a, b)
    ensures d == DistanceTo(b, a)
    ensures a.Bound? && Lockstep(a) && Lockstep(b) ==> d == a.pos1 - b.pos1
  {
    -DistanceTo(a, b)
  }

  /** `a != b`. */
  predicate NotEqual(a: Iterator, b: Iterator)
    requires Comparable(a, b)
  {
    !Equal(a, b)
  }

  /** `a < b`: `b` lies strictly past `a`. */
  predicate Less(a: Iterator, b: Iterator)
    requires Comparable(a, b)
  {
    DistanceTo(a, b) > 0
  }

  /** `a <= b`. */
  predicate LessEq(a: Iterator, b: Iterator)
    requires Comparable(a, b)
  {
    DistanceTo(a, b) >= 0
  }

  /** `a > b`. */
  predicate Greater(a: Iterator, b: Iterator)
    requires Comparable(a, b)
  {
    DistanceTo(a, b) < 0
  }

  /** `a >= b`. */
  predicate GreaterEq(a: Iterator, b: Iterator)
    requires Comparable(a, b)
  {
    DistanceTo(a, b) <= 0
  }

  /** The six comparisons agree with the shared logical index: exactly one of
      `<`, `==`, `>` holds, and the derived ones are their unions. For
      lockstep iterators the field-1 positions order them the same way. */
  lemma ComparisonsAgree(a: Iterator, b: Iterator)
    requires Comparable(a, b)
    ensures Less(a, b) || Equal(a, b) || Greater(a, b)
    ensures !(Less(a, b) && Equal(a, b)) && !(Less(a, b) && Greater(a, b)) && !(Equal(a, b) && Greater(a, b))
    ensures LessEq(a, b) <==> Less(a, b) || Equal(a, b)
    ensures GreaterEq(a, b) <==> Greater(a, b) || Equal(a, b)
    ensures NotEqual(a, b) <==> Less(a, b) || Greater(a, b)
    ensures Less(a, b) <==> Greater(b, a)
    ensures a.Bound? && Lockstep(a) && Lockstep(b) ==> (Less(a, b) <==> a.pos1 < b.pos1)
  {
  }

  /** `begin()` and `end()` are `size()` apart, in both directions and for
      the iterator arithmetic, and as whole values, not only in field 0. */
  lemma BeginEndArithmetic<A, B>(s: Soa<A, B>)
    requires Valid(s)
    ensures Plus(Begin(s), Size(s)) == End(s)
    ensures Minus(End(s), Size(s)) == Begin(s)
    ensures Difference(End(s), Begin(s)) == Size(s)
    ensures Difference(Begin(s), End(s)) == -(Size(s) as int)
    ensures Plus(CBegin(s), Size(s)) == CEnd(s)
    ensures Equal(Begin(s), End(s)) <==> IsEmpty(s)
  {
  }

  /** A mutable iterator and the const iterator a container hands out for
      the same place are equal (`begin() == cbegin()`). */
  lemma MutableMeetsConst<A, B>(s: Soa<A, B>)
    ensures ToConst(Begin(s)) == CBegin(s)
    ensures ToConst(End(s)) == CEnd(s)
    ensures Equal(Begin(s), CBegin(s)) && Equal(End(s), CEnd(s))
  {
  }

  /** The distance law `a + (b - a) == b`. Field 0 always lands on `b`; with
      lockstep on both sides every field does, so the result is `b` itself. */
  lemma DistanceLaw(a: Iterator, b: Iterator)
    requires a.Bound? && b.Bound?
    ensures Equal(Plus(a, Difference(b, a)), b)
    ensures Lockstep(a) && Lockstep(b) && a.isConst == b.isConst ==> Plus(a, Difference(b, a)) == b
  {
  }

  /** Without lockstep the field-0 shortcut is unsound: two iterators that
      `equal` accepts can still dereference different records. */
  lemma ShortcutNeedsLockstep()
    ensures var s := Soa([1, 2], [3, 4]);
            var a := Bound(false, 0, 0);
            var b := Bound(false, 0, 1);
            Equal(a, b) && !Lockstep(b) && Deref(s, a) != Deref(s, b)
  {
  }

  /** `decrement` undoes `increment` and vice versa; `advance` composes
      additively; `increment` and `decrement` are `advance(1)` and
      `advance(-1)`. */
  lemma MovesCompose(it: Iterator, m: int, n: int)
    requires it.Bound?
    ensures Decrement(Increment(it)) == it && Increment(Decrement(it)) == it
    ensures Advance(Advance(it, m), n) == Advance(it, m + n)
    ensures Advance(Advance(it, n), -n) == it
    ensures Increment(it) == Advance(it, 1) && Decrement(it) == Advance(it, -1)
  {
  }

  /** `k` applications of `increment`. */
  function IncrementTimes(it: Iterator, k: nat): (r: Iterator)
    requires it.Bound?
    ensures r.Bound? && r.isConst == it.isConst
    ensures Lockstep(r) <==> Lockstep(it)
  {
    if k == 0 then it else Increment(IncrementTimes(it, k - 1))
  }

  /** Stepping `k` times with `++` reaches the same iterator as `it + k`. */
  lemma {:induction false} IncrementTimesIsAdvance(it: Iterator, k: nat)
    requires it.Bound?
    ensures IncrementTimes(it, k) == Advance(it, k)
  {
    if k > 0 {
      IncrementTimesIsAdvance(it, k - 1);
    }
  }

  /** `k` applications of `decrement`. */
  function DecrementTimes(it: Iterator, k: nat): (r: Iterator)
    requires it.Bound?
    ensures r.Bound? && r.isConst == it.isConst
    ensures Lockstep(r) <==> Lockstep(it)
  {
    if k == 0 then it else Decrement(DecrementTimes(it, k - 1))
  }

  /** Stepping `k` times with `--` reaches the same iterator as `it - k`. */
  lemma {:induction false} DecrementTimesIsRetreat(it: Iterator, k: nat)
    requires it.Bound?
    ensures DecrementTimes(it, k) == Minus(it, k)
  {
    if k > 0 {
      DecrementTimesIsRetreat(it, k - 1);
    }
  }

  /** Walking from `begin()` visits the records in index order: after `i`
      increments, dereference yields `operator[](i)` and the iterator is
      still before `end()`. */
  lemma {:induction false} WalkDereferences<A, B>(s: Soa<A, B>, i: nat)
    requires Valid(s) && i < Size(s)
    ensures Dereferenceable(s, IncrementTimes(Begin(s), i))
    ensures Deref(s, IncrementTimes(Begin(s), i)) == Subscript(s, i)
    ensures Less(IncrementTimes(Begin(s), i), End(s))
  {
    IncrementTimesIsAdvance(Begin(s), i);
  }

  /** Writing through `begin() + i` is `operator[](i) = v`. */
  lemma WriteThroughAtOffset<A, B>(s: Soa<A, B>, i: nat, v: Record<A, B>)
    requires Valid(s) && i < Size(s)
    ensures Dereferenceable(s, Plus(Begin(s), i))
    ensures !Plus(Begin(s), i).isConst
    ensures WriteThrough(s, Plus(Begin(s), i), v) == Assign(s, i, v)
  {
  }

  /** `size()` increments take `begin()` to exactly `end()`, and `size()`
      decrements take `end()` back to exactly `begin()`; every iterator in
      between lies strictly inside. */
  lemma {:induction false} WalkReachesEnds<A, B>(s: Soa<A, B>, k: nat)
    requires Valid(s) && k <= Size(s)
    ensures Less(IncrementTimes(Begin(s), k), End(s)) <==> k < Size(s)
    ensures Greater(DecrementTimes(End(s), k), Begin(s)) <==> k < Size(s)
    ensures k == Size(s) ==> IncrementTimes(Begin(s), k) == End(s)
    ensures k == Size(s) ==> DecrementTimes(End(s), k) == Begin(s)
  {
    IncrementTimesIsAdvance(Begin(s), k);
    DecrementTimesIsRetreat(End(s), k);
  }
}
