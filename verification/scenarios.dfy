/** Concrete scenarios from the container's unit tests, and one `clear()` case
    that the tests do not cover, on `soa<int, double>`, modelled as
    `Soa<int, real>`. */
module Scenarios {
  import opened Storage
  import opened Cursor
  import opened Algorithms

  /** The tests' `create_soa(n)`: records `(i, i)` for `i` in `[0, n)`. */
  function CreateSoa(n: nat): (s: Soa<int, real>)
    ensures Valid(s) && Size(s) == n
  {
    Build(seq(n, i => (i, i as real)))
  }

  /** Three pushes, then indexing, field extraction and `begin() + 3`. */
  lemma ThreePushes()
    ensures var s := PushBack(PushBack(PushBack(Empty(), (1, 2.3)), (3, 4.5)), (6, 7.8));
            && Size(s) == 3
            && Subscript(s, 0) == (1, 2.3)
            && Subscript(s, 1) == (3, 4.5)
            && Subscript(s, 2) == (6, 7.8)
            && Get0(s) == [1, 3, 6]
            && Get1(s) == [2.3, 4.5, 7.8]
            && Plus(Begin(s), 3) == End(s)
  {
  }

  /** `clear()` on a three-element container leaves it empty. */
  lemma ClearEmpties()
    ensures var s := Build([(1, 2.3), (3, 4.5), (6, 7.8)]);
            Size(s) == 3 && !IsEmpty(s) && Size(Clear(s)) == 0 && IsEmpty(Clear(s))
  {
  }

  /** The test's `*(begin() + 2) = (10, 10.0)` on a five-record container:
      the write through the iterator is `operator[](2) = (10, 10.0)`. */
  function WriteThroughThirdElement(s: Soa<int, real>): (t: Soa<int, real>)
    requires Valid(s) && Size(s) == 5
    ensures t == Assign(s, 2, (10, 10.0))
  {
    WriteThroughAtOffset(s, 2, (10, 10.0));
    WriteThrough(s, Plus(Begin(s), 2), (10, 10.0))
  }

  /** After that write, `s[2] == (10, 10.0)` and every other record is
      unchanged. */
  lemma ThirdElementWritten(s: Soa<int, real>)
    requires Valid(s) && Size(s) == 5
    ensures var t := WriteThroughThirdElement(s);
            && Valid(t) && Size(t) == 5
            && Subscript(t, 2) == (10, 10.0)
            && forall j :: 0 <= j < Size(t) && j != 2 ==> Subscript(t, j) == Subscript(s, j)
  {
  }

  /** Integer addition as an accumulation step. */
  function Add(acc: int, x: int): int {
    acc + x
  }

  /** The test's accumulation step, restricted to field 0. */
  function AddField0(acc: int, r: Record<int, real>): int {
    acc + r.0
  }

  /** Summing field 0 of `create_soa(5)` over its records gives 10, as does
      summing `get<0>()`. */
  lemma SumOfField0()
    ensures FoldLeft(AddField0, 0, Records(CreateSoa(5))) == 10
    ensures FoldLeft(Add, 0, Get0(CreateSoa(5))) == 10
  {
    var rs := seq(5, i => (i, i as real));
    BuildRecords(rs);
    var r := [(0, 0.0), (1, 1.0), (2, 2.0), (3, 3.0), (4, 4.0)];
    assert rs == r;
    assert r[..4] == [(0, 0.0), (1, 1.0), (2, 2.0), (3, 3.0)];
    assert r[..4][..3] == [(0, 0.0), (1, 1.0), (2, 2.0)];
    assert r[..4][..3][..2] == [(0, 0.0), (1, 1.0)];
    assert r[..4][..3][..2][..1] == [(0, 0.0)];
    assert FoldLeft(AddField0, 0, [(0, 0.0), (1, 1.0)]) == 1;
    assert FoldLeft(AddField0, 0, r[..4]) == 6;
    var v := [0, 1, 2, 3, 4];
    assert Get0(CreateSoa(5)) == v;
    assert v[..4] == [0, 1, 2, 3] && v[..4][..3] == [0, 1, 2];
    assert v[..4][..3][..2] == [0, 1] && v[..4][..3][..2][..1] == [0];
    assert FoldLeft(Add, 0, [0, 1]) == 1;
    assert FoldLeft(Add, 0, v[..4]) == 6;
  }
}
