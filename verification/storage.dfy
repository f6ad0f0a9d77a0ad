/**
  The `soa<Ts...>` container at arity two (the tests' `soa<int, double>`),
  with generic field types `A` and `B`.

  The C++ container owns `std::tuple<std::vector<Ts>...>` and broadcasts each
  record-level operation to every vector. Here the two vectors are immutable
  sequences and every mutating member function becomes a pure function that
  returns the new container. The structural invariant is `Valid`: both
  fields have equal length. The array-of-records view `Records` is the
  reference every operation is proved against.
 */
module Storage {

  /** A logical record: one value per field. */
  type Record<A, B> = (A, B)

  /** The two backing vectors, `std::get<0>(vecs_)` and `std::get<1>(vecs_)`. */
  datatype Soa<A, B> = Soa(vec0: seq<A>, vec1: seq<B>)

  /** The lockstep invariant: every field vector has the same length. */
  predicate Valid<A, B>(s: Soa<A, B>) {
    |s.vec0| == |s.vec1|
  }

  /** The array-of-records view of a valid container: record `i` pairs
      index `i` of every field. */
  function Records<A, B>(s: Soa<A, B>): (rs: seq<Record<A, B>>)
    requires Valid(s)
    ensures |rs| == |s.vec0|
    ensures forall i :: 0 <= i < |rs| ==> rs[i] == (s.vec0[i], s.vec1[i])
  {
    seq(|s.vec0|, i requires 0 <= i < |s.vec0| => (s.vec0[i], s.vec1[i]))
  }

  /** Projection of field 0 out of a sequence of records. */
  function Column0<A, B>(rs: seq<Record<A, B>>): (v: seq<A>)
    ensures |v| == |rs|
    ensures forall i :: 0 <= i < |rs| ==> v[i] == rs[i].0
  {
    seq(|rs|, i requires 0 <= i < |rs| => rs[i].0)
  }

  /** Projection of field 1 out of a sequence of records. */
  function Column1<A, B>(rs: seq<Record<A, B>>): (v: seq<B>)
    ensures |v| == |rs|
    ensures forall i :: 0 <= i < |rs| ==> v[i] == rs[i].1
  {
    seq(|rs|, i requires 0 <= i < |rs| => rs[i].1)
  }

  /** The container holding exactly the given records, built column-wise. */
  function FromRecords<A, B>(rs: seq<Record<A, B>>): (s: Soa<A, B>)
    ensures Valid(s)
    ensures Records(s) == rs
  {
    Soa(Column0(rs), Column1(rs))
  }

  /** Splitting a valid container into records and rebuilding it column-wise
      gives back the same container. */
  lemma FromRecordsOfRecords<A, B>(s: Soa<A, B>)
    requires Valid(s)
    ensures FromRecords(Records(s)) == s
  {
    assert Column0(Records(s)) == s.vec0;
    assert Column1(Records(s)) == s.vec1;
  }

  /** The default-constructed container: every field vector empty. */
  function Empty<A, B>(): (s: Soa<A, B>)
    ensures Valid(s) && Size(s) == 0 && IsEmpty(s)
  {
    Soa([], [])
  }

  /** `get<0>()`: direct access to the field-0 vector. */
  function Get0<A, B>(s: Soa<A, B>): (v: seq<A>)
    ensures Valid(s) ==> v == Column0(Records(s))
  {
    s.vec0
  }

  /** `get<1>()`: direct access to the field-1 vector. */
  function Get1<A, B>(s: Soa<A, B>): (v: seq<B>)
    ensures Valid(s) ==> v == Column1(Records(s))
  {
    s.vec1
  }

  /** Assigning a whole vector through the mutable `get<0>()` reference.
      It replaces field 0 alone, so the container stays valid exactly when
      the new vector has field 1's length. */
  function SetField0<A, B>(s: Soa<A, B>, v: seq<A>): (r: Soa<A, B>)
    ensures Get0(r) == v && Get1(r) == Get1(s)
    ensures Valid(r) <==> |v| == |s.vec1|
    ensures Size(r) == |v|
  {
    Soa(v, s.vec1)
  }

  /** Assigning a whole vector through the mutable `get<1>()` reference.
      It replaces field 1 alone, so the container stays valid exactly when
      the new vector has `size()` elements. */
  function SetField1<A, B>(s: Soa<A, B>, v: seq<B>): (r: Soa<A, B>)
    ensures Get1(r) == v && Get0(r) == Get0(s)
    ensures Valid(r) <==> |v| == Size(s)
    ensures Size(r) == Size(s)
  {
    Soa(s.vec0, v)
  }

  /** Through the mutable field access a caller can break the lockstep
      invariant of a valid container: appending to field 0 alone leaves
      `size()` and field 1 disagreeing. */
  lemma FieldAccessCanBreakValid<A, B>(s: Soa<A, B>, x: A)
    requires Valid(s)
    ensures !Valid(SetField0(s, Get0(s) + [x]))
    ensures Size(SetField0(s, Get0(s) + [x])) == |Get1(s)| + 1
  {
  }

  /** `size()`: reads only field 0, which is the common length while the
      container is valid. */
  function Size<A, B>(s: Soa<A, B>): (n: nat)
    ensures Valid(s) ==> n == |s.vec1|
    ensures Valid(s) ==> n == |Records(s)|
  {
    |s.vec0|
  }

  /** `empty()`. */
  function IsEmpty<A, B>(s: Soa<A, B>): (b: bool)
    ensures Valid(s) ==> (b <==> Records(s) == [])
    ensures Valid(s) ==> (b <==> s.vec1 == [])
  {
    Size(s) == 0
  }

  /** `operator[](i)`, read side: the record gathered from index `i` of
      every field. The index is unchecked in the source, hence the
      precondition. */
  function Subscript<A, B>(s: Soa<A, B>, i: nat): (r: Record<A, B>)
    requires Valid(s) && i < Size(s)
    ensures r == Records(s)[i]
    ensures r.0 == Get0(s)[i] && r.1 == Get1(s)[i]
  {
    (s.vec0[i], s.vec1[i])
  }

  /** `operator[](i) = v`: assigning a record through the returned tuple of
      references overwrites index `i` of every field and nothing else. */
  function Assign<A, B>(s: Soa<A, B>, i: nat, v: Record<A, B>): (r: Soa<A, B>)
    requires Valid(s) && i < Size(s)
    ensures Valid(r)
    ensures Records(r) == Records(s)[i := v]
    ensures Size(r) == Size(s)
    ensures Subscript(r, i) == v
    ensures forall j :: 0 <= j < Size(s) && j != i ==> Subscript(r, j) == Subscript(s, j)
  {
    Soa(s.vec0[i := v.0], s.vec1[i := v.1])
  }

  /** `push_back(val)`: appends field `k` of the record to vector `k`. */
  function PushBack<A, B>(s: Soa<A, B>, v: Record<A, B>): (r: Soa<A, B>)
    ensures Valid(r) <==> Valid(s)
    ensures Size(r) == Size(s) + 1
    ensures Valid(s) ==> Records(r) == Records(s) + [v]
    ensures Valid(s) ==> Subscript(r, Size(s)) == v
    ensures Valid(s) ==> forall i :: 0 <= i < Size(s) ==> Subscript(r, i) == Subscript(s, i)
  {
    Soa(s.vec0 + [v.0], s.vec1 + [v.1])
  }

  /** `pop_back()`: drops the last element of every field; calling it on an
      empty container is undefined behaviour of `std::vector::pop_back`. */
  function PopBack<A, B>(s: Soa<A, B>): (r: Soa<A, B>)
    requires Valid(s) && Size(s) > 0
    ensures Valid(r)
    ensures Size(r) == Size(s) - 1
    ensures Records(r) == Records(s)[..Size(s) - 1]
    ensures Get0(r) == Get0(s)[..Size(r)] && Get1(r) == Get1(s)[..Size(r)]
  {
    Soa(s.vec0[..|s.vec0| - 1], s.vec1[..|s.vec1| - 1])
  }

  /** `clear()`: empties every field. */
  function Clear<A, B>(s: Soa<A, B>): (r: Soa<A, B>)
    ensures Valid(r)
    ensures Size(r) == 0 && IsEmpty(r)
    ensures Records(r) == []
  {
    Soa([], [])
  }

  /** `reserve(n)`: only capacity, which a value model cannot observe, is
      affected; size and contents are left alone. */
  function Reserve<A, B>(s: Soa<A, B>, n: nat): (r: Soa<A, B>)
    ensures Valid(r) <==> Valid(s)
    ensures Size(r) == Size(s)
    ensures Valid(s) ==> Records(r) == Records(s)
  {
    s
  }

  /** A container obtained by `push_back` of each record in turn, starting
      from the empty container (the tests' `create_soa`). */
  function Build<A, B>(rs: seq<Record<A, B>>): (s: Soa<A, B>)
    ensures Valid(s)
    ensures Size(s) == |rs|
  {
    if rs == [] then Empty() else PushBack(Build(rs[..|rs| - 1]), rs[|rs| - 1])
  }

  /** After a sequence of `push_back`s the container holds the pushed records
      in insertion order, and `get<k>()` is field `k` projected out of them. */
  lemma {:induction false} BuildRecords<A, B>(rs: seq<Record<A, B>>)
    ensures Records(Build(rs)) == rs
    ensures Get0(Build(rs)) == Column0(rs)
    ensures Get1(Build(rs)) == Column1(rs)
  {
    if rs != [] {
      var init := rs[..|rs| - 1];
      BuildRecords(init);
      assert init + [rs[|rs| - 1]] == rs;
    }
  }

  /** Building from the records of a valid container reproduces it: every
      valid container is reachable by `push_back` alone. */
  lemma BuildOfRecords<A, B>(s: Soa<A, B>)
    requires Valid(s)
    ensures Build(Records(s)) == s
  {
    BuildRecords(Records(s));
    FromRecordsOfRecords(s);
    assert Build(Records(s)) == FromRecords(Records(Build(Records(s))));
  }
}
