# soa: a structure-of-arrays container, modelled in Dafny

`soa::soa<Ts...>` stores records of N fields as N parallel `std::vector`s, one
per field, and offers a record-oriented interface over them. Each record-level
operation (`push_back`, `pop_back`, `clear`, `reserve`, `operator[]`) is
applied to every vector in lockstep. The container's random-access iterator
`iterator_impl<Const>` is a tuple of N vector iterators. `increment`,
`decrement` and `advance` move all N together. `dereference` gathers one
reference per field. `distance_to` and `equal` look only at field 0.

The whole design rests on one invariant: all field vectors have equal length,
and all iterator positions agree. `size()` reads only field 0, and the
iterator's comparisons read only field 0. Those shortcuts are sound exactly
while the invariant holds. This model makes the invariant explicit. It proves
that every record-level operation keeps the invariant, and that every field-0
shortcut agrees with every field. The mutable `get<k>()` is the exception.
It hands out the field vector itself, so the invariant survives a write
through it exactly when that write keeps the field's length
(`Storage.SetField0`, `Storage.SetField1`).

## Layout

- `storage.dfy`, module `Storage`: the container at arity two with generic
  field types `A` and `B` (the tests use `soa<int, double>`).
  - `Soa(vec0, vec1)` holds the two vectors, and `Valid` is the equal-length
    invariant.
  - Every member function of the container is a pure function returning the
    new container.
  - The array-of-records view `Records` is the reference each operation is
    proved against.
  - `Build` is a run of `push_back`s from the empty container.
- `cursor.dfy`, module `Cursor`: the iterator.
  - An `Iterator` is `Bound(isConst, pos0, pos1)`: one offset into each
    field vector, plus its constness.
  - The value-initialised (default-constructed) iterator is
    `Singular(isConst)`.
  - `Lockstep` says all positions are equal.
  - The six comparisons and `+`, `-` come from Boost's `iterator_facade` in
    the source. Here they are written out from `distance_to` and `equal`.
- `algorithms.dfy`, module `Algorithms`: the range-for, `std::transform` and
  `std::accumulate` uses from the tests. Each is a loop over
  `[begin(), end())` built from the iterator operations.
- `scenarios.dfy`, module `Scenarios`: concrete cases from the unit tests,
  and one `clear()` case that the tests do not cover, on `soa<int, double>`,
  modelled as `Soa<int, real>`. Some are stated for every container of the
  tested size.

In three places the model follows the code's exact behaviour:

- `size()` is the length of field 0 only. It equals the other fields'
  lengths only under `Valid`.
- `end()` is built from each vector's own end. It is in lockstep exactly
  when the container is valid (`Cursor.End`).
- Comparing a singular iterator with a bound one is undefined behaviour in
  the code. The model makes it a precondition (`Comparable`).

## Model

| member | source | states |
|---|---|---|
| Storage.FromRecords | include/soa.h:101 | a sequence of records split into one vector per field is a valid container whose records are exactly those records |
| Storage.FromRecordsOfRecords | include/soa.h:101 | every valid container is its own records split back into per-field vectors: the two layouts carry the same information |
| Storage.Empty | include/soa.h:101 | a default-constructed container is valid, has size zero and reports `empty()` |
| Storage.Get0 | include/soa.h:35-43 | reading `get<0>()` (either overload) on a valid container gives field 0 projected out of the records, in order |
| Storage.Get1 | include/soa.h:35-43 | reading `get<1>()` (either overload) on a valid container gives field 1 projected out of the records, in order |
| Storage.SetField0 | include/soa.h:35-38 | assigning a vector through the mutable `get<0>()` replaces field 0 alone; the container stays valid exactly when the new vector has field 1's length, and `size()` becomes the new vector's length |
| Storage.SetField1 | include/soa.h:35-38 | assigning a vector through the mutable `get<1>()` replaces field 1 alone; the container stays valid exactly when the new vector has `size()` elements |
| Storage.FieldAccessCanBreakValid | include/soa.h:35-38 | appending to field 0 alone through the mutable `get<0>()` leaves a valid container invalid, with `size()` one more than field 1's length |
| Storage.Size | include/soa.h:61 | reading only field 0 gives, on a valid container, the length of every field and the number of records |
| Storage.IsEmpty | include/soa.h:62 | on a valid container, `empty()` holds exactly when there are no records, and exactly when field 1 is empty too |
| Storage.Subscript | include/soa.h:45-53 | for an index below `size()`, `operator[]` yields record `i` of the record view, field-wise equal to `get<0>()[i]` and `get<1>()[i]` |
| Storage.Assign | include/soa.h:45-53 | writing a record through `operator[](i)` keeps the container valid and its size, sets record `i` to the new value and leaves every other index of every field unchanged |
| Storage.PushBack | include/soa.h:55-59 | appending keeps the container valid exactly when it was valid, raises `size()` by one, puts the record at index `size()-1` and leaves all earlier records unchanged |
| Storage.PopBack | include/soa.h:72-74 | on a non-empty valid container, removes the last record, lowers `size()` by one and keeps the prefix of every field vector |
| Storage.Clear | include/soa.h:68-70 | the result is valid, has size zero, reports `empty()` and holds no records |
| Storage.Reserve | include/soa.h:64-66 | neither validity, size nor the records change |
| Storage.Build | include/soa.h:55-59 | any run of `push_back`s from empty yields a valid container with one record per push |
| Storage.BuildRecords | include/soa.h:35-59 | after pushing records in order, the record view is those records and `get<k>()` is field `k` projected from them in insertion order |
| Storage.BuildOfRecords | include/soa.h:55-59 | pushing the records of any valid container into an empty one rebuilds it exactly |
| Cursor.Begin | include/soa.h:76-79 | `begin()` is a mutable iterator in lockstep at position 0 of every field; `BeginEndArithmetic` relates it to `end()` |
| Cursor.CBegin | include/soa.h:81-86 | `cbegin()`, and `begin()` on a const container, is a const iterator in lockstep at position 0; `MutableMeetsConst` relates it to `begin()` |
| Cursor.End | include/soa.h:88-91 | `end()` sits at `size()` and is in lockstep exactly when the container is valid |
| Cursor.CEnd | include/soa.h:93-98 | `cend()`, and `end()` on a const container, sits at `size()` and is in lockstep exactly when the container is valid |
| Cursor.ToConst | include/soa.h:132-134 | converting to a const iterator keeps both field positions (and singularity), so it keeps lockstep and compares equal, at distance zero, to the original |
| Cursor.Deref | include/soa.h:139-142 | reading each field at its own position yields, under lockstep on a valid container, the record `operator[]` gives at the shared index |
| Cursor.WriteThrough | include/soa.h:139-142 | assigning through `*it` keeps validity; under lockstep it is `operator[](i) = v` at the shared index; reading back through the iterator gives `v` |
| Cursor.Increment | include/soa.h:144-146 | every field position moves forward by one, constness is kept, and lockstep holds after exactly when it held before |
| Cursor.Decrement | include/soa.h:148-150 | every field position moves back by one, constness is kept, and lockstep holds after exactly when it held before |
| Cursor.Advance | include/soa.h:152-155 | every field position moves by `n`, constness is kept, and lockstep holds after exactly when it held before |
| Cursor.DistanceTo | include/soa.h:157-160 | the field-0 distance equals the field-1 distance for lockstep iterators; advancing by it reaches the other iterator's field-0 position; two singular iterators are at distance zero |
| Cursor.Equal | include/soa.h:162-165 | field-0 equality is distance zero; for lockstep iterators it is equality of field 1 as well |
| Cursor.Plus | include/soa.h:110-114 | `it + n` is a copy advanced by `n`: every field position moves by `n`, constness and lockstep are kept, and it is `n` ahead of `it` |
| Cursor.Minus | include/soa.h:110-114 | `it - n` is a copy advanced by `-n`: every field position moves by `-n`, constness and lockstep are kept, and it is `n` behind `it` |
| Cursor.Difference | include/soa.h:110-114 | `a - b` is the distance from `b` to `a`; for lockstep iterators it also equals the field-1 difference |
| Cursor.ComparisonsAgree | include/soa.h:110-114 | exactly one of `<`, `==`, `>` holds; `<=`, `>=`, `!=` are their unions; `<` and `>` are converses; for lockstep iterators field 1 orders them the same way |
| Cursor.BeginEndArithmetic | include/soa.h:76-98 | on a valid container `begin() + size() == end()` and `end() - size() == begin()` as whole iterators; `end() - begin() == size()`; `begin() == end()` exactly when empty |
| Cursor.MutableMeetsConst | include/soa.h:132-134 | converting `begin()`/`end()` to const gives `cbegin()`/`cend()`, and `begin() == cbegin()`, `end() == cend()` |
| Cursor.DistanceLaw | include/soa.h:152-160 | `a + (b - a)` always equals `b` on field 0; with lockstep on both and the same constness it is `b` itself |
| Cursor.ShortcutNeedsLockstep | include/soa.h:157-165 | a concrete pair of iterators that `equal` accepts but that dereference different records once positions disagree |
| Cursor.MovesCompose | include/soa.h:144-155 | `decrement` and `increment` undo each other; `advance` composes additively and `advance(n)` then `advance(-n)` restores the iterator; `++`/`--` are `advance(±1)` |
| Cursor.IncrementTimesIsAdvance | include/soa.h:144-155 | `k` increments reach the same iterator as `it + k` |
| Cursor.DecrementTimesIsRetreat | include/soa.h:144-155 | `k` decrements reach the same iterator as `it - k` |
| Cursor.WalkDereferences | include/soa.h:139-146 | after `i` increments from `begin()`, the iterator is before `end()` and dereferences to `operator[](i)` |
| Cursor.WriteThroughAtOffset | include/soa.h:139-142 | on a valid container, `begin() + i` for `i < size()` is a dereferenceable mutable iterator, and writing through it is `operator[](i) = v` |
| Cursor.WalkReachesEnds | include/soa.h:144-150 | walking forward from `begin()` stays before `end()` until exactly `size()` steps, which land on `end()`; walking back from `end()` mirrors it down to `begin()` |
| Algorithms.VisitAll | test/soa-tests.cpp:220-233 | a range-for from `begin()` to `end()` visits exactly the records, in index order |
| Algorithms.Transform | test/soa-tests.cpp:235-244 | transforming `[begin, end)` gives one output per record, output `i` being `f` of record `i` |
| Algorithms.TransformField0 | test/soa-tests.cpp:235-244 | transforming every record to its field 0 yields `get<0>()` |
| Algorithms.Accumulate | test/soa-tests.cpp:246-258 | accumulating over `[begin, end)` is the left fold of the records in order |
| Algorithms.FoldColumn0 | test/soa-tests.cpp:246-258 | folding a field-0 step over records equals folding it over the projected field 0 |
| Algorithms.FoldField0 | test/soa-tests.cpp:246-258 | accumulating field 0 over the container's records equals accumulating `get<0>()` |
| Scenarios.CreateSoa | test/soa-tests.cpp:23-29 | `create_soa(n)` is valid with `n` records |
| Scenarios.ThreePushes | test/soa-tests.cpp:117-127 | after pushing (1, 2.3), (3, 4.5), (6, 7.8): size 3, `s[0] == (1, 2.3)`, `s[1] == (3, 4.5)`, `s[2] == (6, 7.8)`, `get<0>() == [1, 3, 6]`, `get<1>() == [2.3, 4.5, 7.8]`, `begin() + 3 == end()` |
| Scenarios.ClearEmpties | include/soa.h:68-70 | clearing a three-record container leaves size zero and `empty()` true |
| Scenarios.WriteThroughThirdElement | test/soa-tests.cpp:213-217 | on a five-record container, assigning (10, 10.0) through `*(begin() + 2)` is `operator[](2) = (10, 10.0)` |
| Scenarios.ThirdElementWritten | test/soa-tests.cpp:213-217 | after that write, `s[2] == (10, 10.0)` and every other record is unchanged |
| Scenarios.SumOfField0 | test/soa-tests.cpp:246-258 | summing field 0 of `create_soa(5)` gives 10, over the records and over `get<0>()` alike |

## Left out

- Arity: the model fixes two fields. The source's `tuple_apply` broadcast over any number of fields is written out once per field.
- Boost `iterator_facade` operator synthesis: the six comparisons and `+`, `-`, `a - b` are written explicitly from `distance_to`, `equal` and `advance`. `+=` and `-=` are `Advance` with `n` and `-n`. The postfix `++`/`--` forms only return the old copy and are not separate members. The other facade operators are not modelled: `it[n]` is `*(it + n)`, and `n + it` is `it + n`. `->` has no counterpart in a value model.
- Live references: `std::tie` aliasing and the references `operator[]` and `*it` return are modelled as index-based reads (`Subscript`, `Deref`) and writes (`Assign`, `WriteThrough`) on immutable sequences. The `std::vector&` that the mutable `get<k>()` returns is modelled as replacing the whole field vector (`SetField0`, `SetField1`). Any sequence of vector operations through that reference ends in some new vector, which covers them all.
- Invalidation: iterator and reference invalidation on reallocation, and comparing iterators of two different containers, are not modelled. An iterator carries no identity of its container.
- Capacity: `reserve` capacity and allocation failure are not modelled. Capacity is not observable in a value model. The partial `push_back` left behind when one vector's append throws is likewise not modelled, because exceptions are out of scope.
- Iterator movement bounds: moving a vector iterator outside `[begin, end]` is undefined in C++. The model lets positions be any integer and asks for range only at dereference.
- Integer widths: `size_t` and `ptrdiff_t` are unbounded integers here. No container can reach their limits.
- Compile-time facts: `static_assert(sizeof...(Ts) > 0)`, the type-identity checks and the `sizeof` test are type-system facts, not behaviour.
- Library algorithms: `std::sort` and the sort-equivalence property are not modelled. Range-for, `std::transform` and `std::accumulate` appear only as the loops in `Algorithms`.
- Benchmark: `benchmark/soa-benchmark.cpp` is a timing harness with random data and no logic of its own.
- Floating point: field types stay generic. The concrete scenarios use `real` for the tests' `double` values and only compare them for equality.
- The accumulate test's field-1 check (test/soa-tests.cpp:251, 257: a `double` sum compared with an `int`-initialised `std::accumulate` of `get<1>()`, which truncates each partial sum) is not modelled; `Algorithms.FoldField0` and `Scenarios.SumOfField0` cover field 0 only.
