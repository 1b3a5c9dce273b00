/** ORDER BY as an insertion sort, and why its result is unique. */
module Ordering {
  import opened Prelude

  ghost predicate TotalPreorder<T(!new)>(le: (T, T) -> bool) {
    && (forall a, b :: le(a, b) || le(b, a))
    && (forall a, b, c :: le(a, b) && le(b, c) ==> le(a, c))
  }

  function Insert<T>(x: T, s: seq<T>, le: (T, T) -> bool): seq<T> {
    if s == [] || le(x, s[0]) then [x] + s else [s[0]] + Insert(x, s[1..], le)
  }

  function Sort<T>(s: seq<T>, le: (T, T) -> bool): seq<T> {
    if s == [] then [] else Insert(s[0], Sort(s[1..], le), le)
  }

  ghost predicate Sorted<T>(s: seq<T>, le: (T, T) -> bool) {
    forall i, j | 0 <= i < j < |s| :: le(s[i], s[j])
  }

  /** Sorted without ties. */
  ghost predicate StrictlySorted<T>(s: seq<T>, le: (T, T) -> bool) {
    forall i, j | 0 <= i < j < |s| :: le(s[i], s[j]) && !le(s[j], s[i])
  }

  ghost predicate Permutation<T(!new)>(a: seq<T>, b: seq<T>) {
    forall x :: Count(a, x) == Count(b, x)
  }

  lemma {:induction false} InsertCounts<T>(x: T, s: seq<T>, le: (T, T) -> bool, y: T)
    ensures Count(Insert(x, s, le), y) == Count(s, y) + if x == y then 1 else 0
  {
    if s == [] || le(x, s[0]) {
      assert ([x] + s)[1..] == s;
    } else {
      InsertCounts(x, s[1..], le, y);
      assert Insert(x, s, le)[1..] == Insert(x, s[1..], le);
    }
  }

  lemma {:induction false} SortCounts<T>(s: seq<T>, le: (T, T) -> bool, y: T)
    ensures Count(Sort(s, le), y) == Count(s, y)
  {
    if s != [] {
      SortCounts(s[1..], le, y);
      InsertCounts(s[0], Sort(s[1..], le), le, y);
    }
  }

  lemma {:induction false} CountMember<T>(s: seq<T>, x: T)
    ensures x in s <==> Count(s, x) > 0
  {
    if s != [] {
      CountMember(s[1..], x);
      assert x in s <==> x == s[0] || x in s[1..];
    }
  }

  lemma {:induction false} InsertSorted<T(!new)>(x: T, s: seq<T>, le: (T, T) -> bool)
    requires TotalPreorder(le) && Sorted(s, le)
    ensures Sorted(Insert(x, s, le), le)
  {
    if s != [] && !le(x, s[0]) {
      InsertSorted(x, s[1..], le);
      var r := Insert(x, s[1..], le);
      forall j | 0 <= j < |r|
        ensures le(s[0], r[j])
      {
        InsertCounts(x, s[1..], le, r[j]);
        CountMember(r, r[j]);
        CountMember(s[1..], r[j]);
      }
    }
  }

  lemma {:induction false} SortSorted<T(!new)>(s: seq<T>, le: (T, T) -> bool)
    requires TotalPreorder(le)
    ensures Sorted(Sort(s, le), le)
  {
    if s != [] {
      SortSorted(s[1..], le);
      InsertSorted(s[0], Sort(s[1..], le), le);
    }
  }

  lemma EmptyPermutation<T(!new)>(a: seq<T>, b: seq<T>)
    requires Permutation(a, b) && b == []
    ensures a == []
  {
    assert a != [] ==> Count(a, a[0]) == Count(b, a[0]);
  }

  /** Rows without ties have one sorted order only. */
  lemma {:induction false} SortedUnique<T(!new)>(a: seq<T>, b: seq<T>, le: (T, T) -> bool)
    requires Sorted(a, le) && StrictlySorted(b, le) && Permutation(a, b)
    ensures a == b
    decreases |b|
  {
    if b == [] {
      EmptyPermutation(a, b);
    } else {
      CountMember(b, b[0]);
      CountMember(a, b[0]);
      assert Count(a, b[0]) == Count(b, b[0]);
      CountMember(a, a[0]);
      CountMember(b, a[0]);
      assert Count(a, a[0]) == Count(b, a[0]);
      assert a[0] == b[0];
      forall x
        ensures Count(a[1..], x) == Count(b[1..], x)
      {
        assert Count(a, x) == Count(b, x);
      }
      SortedUnique(a[1..], b[1..], le);
    }
  }

  /** Sorting any arrangement of tie-free rows gives their one order. */
  lemma SortIs<T(!new)>(stored: seq<T>, b: seq<T>, le: (T, T) -> bool)
    requires TotalPreorder(le) && StrictlySorted(b, le) && Permutation(stored, b)
    ensures Sort(stored, le) == b
  {
    SortSorted(stored, le);
    forall x
      ensures Count(Sort(stored, le), x) == Count(b, x)
    {
      SortCounts(stored, le, x);
      assert Count(stored, x) == Count(b, x);
    }
    SortedUnique(Sort(stored, le), b, le);
  }

  // --- Sorting and filtering -------------------------------------------------

  lemma InsertCons<T>(x: T, head: T, tail: seq<T>, le: (T, T) -> bool)
    ensures Insert(x, [head] + tail, le) == if le(x, head) then [x, head] + tail else [head] + Insert(x, tail, le)
  {
    assert ([head] + tail)[1..] == tail;
  }

  lemma FilterInsertFirst<T(!new)>(x: T, s: seq<T>, le: (T, T) -> bool, p: T -> bool)
    requires TotalPreorder(le) && Sorted(s, le) && (s != [] ==> le(x, s[0]))
    ensures Filter(Insert(x, s, le), p) == if p(x) then Insert(x, Filter(s, p), le) else Filter(s, p)
  {
    FilterCons(x, s, p);
    if s == [] {
      assert Insert(x, s, le) == [x] + s && Insert(x, Filter(s, p), le) == [x] + Filter(s, p);
    } else {
      InsertFront(x, s, s, le);
      InsertFront(x, s, Filter(s, p), le);
      hide Filter, Insert;
      assert [] + Filter(s, p) == Filter(s, p);
    }
  }

  lemma {:induction false} FilterInsert<T(!new)>(x: T, s: seq<T>, le: (T, T) -> bool, p: T -> bool)
    requires TotalPreorder(le) && Sorted(s, le)
    ensures Filter(Insert(x, s, le), p) == if p(x) then Insert(x, Filter(s, p), le) else Filter(s, p)
  {
    hide Filter, Insert;
    if s == [] || le(x, s[0]) {
      FilterInsertFirst(x, s, le, p);
    } else {
      var head, tail := s[0], s[1..];
      FilterInsert(x, tail, le, p);
      FilterInsertLater(x, head, tail, le, p);
      assert s == [head] + tail;
    }
  }

  lemma FilterInsertLater<T>(x: T, head: T, tail: seq<T>, le: (T, T) -> bool, p: T -> bool)
    requires !le(x, head)
    requires Filter(Insert(x, tail, le), p) == if p(x) then Insert(x, Filter(tail, p), le) else Filter(tail, p)
    ensures Filter(Insert(x, [head] + tail, le), p)
            == if p(x) then Insert(x, Filter([head] + tail, p), le) else Filter([head] + tail, p)
  {
    hide Filter, Insert;
    FilterCons(head, tail, p);
    FilterCons(head, Insert(x, tail, le), p);
    InsertCons(x, head, tail, le);
    InsertCons(x, head, Filter(tail, p), le);
    assert forall r: seq<T> :: [] + r == r;
  }

  lemma InsertFront<T(!new)>(x: T, s: seq<T>, kept: seq<T>, le: (T, T) -> bool)
    requires TotalPreorder(le) && Sorted(s, le) && s != [] && le(x, s[0]) && forall y | y in kept :: y in s
    ensures Insert(x, kept, le) == [x] + kept
  {
    if kept != [] {
      assert kept[0] in kept;
      var i :| 0 <= i < |s| && s[i] == kept[0];
      assert i > 0 ==> le(s[0], s[i]);
    }
  }

  /** Filtering commutes with ORDER BY. */
  lemma {:induction false} FilterSort<T(!new)>(s: seq<T>, le: (T, T) -> bool, p: T -> bool)
    requires TotalPreorder(le)
    ensures Filter(Sort(s, le), p) == Sort(Filter(s, p), le)
  {
    if s != [] {
      var head, tail := s[0], s[1..];
      FilterSort(tail, le, p);
      FilterSortCons(head, tail, le, p);
      assert s == [head] + tail;
    }
  }

  lemma FilterSortCons<T(!new)>(head: T, tail: seq<T>, le: (T, T) -> bool, p: T -> bool)
    requires TotalPreorder(le) && Filter(Sort(tail, le), p) == Sort(Filter(tail, p), le)
    ensures Filter(Sort([head] + tail, le), p) == Sort(Filter([head] + tail, p), le)
  {
    hide Filter, Sort, Insert;
    SortSorted(tail, le);
    FilterInsert(head, Sort(tail, le), le, p);
    FilterCons(head, tail, p);
    SortCons(head, tail, le);
    SortCons(head, Filter(tail, p), le);
    assert [] + Filter(tail, p) == Filter(tail, p);
  }

  lemma SortCons<T>(head: T, tail: seq<T>, le: (T, T) -> bool)
    ensures Sort([head] + tail, le) == Insert(head, Sort(tail, le), le)
  {
    assert ([head] + tail)[1..] == tail;
  }

  lemma SortMembers<T(!new)>(s: seq<T>, le: (T, T) -> bool)
    ensures forall x :: x in Sort(s, le) <==> x in s
  {
    forall x
      ensures x in Sort(s, le) <==> x in s
    {
      SortCounts(s, le, x);
      CountMember(s, x);
      CountMember(Sort(s, le), x);
    }
  }

  lemma {:induction false} InsertCongruent<T>(x: T, s: seq<T>, le: (T, T) -> bool, le': (T, T) -> bool)
    requires forall y | y in s :: le(x, y) == le'(x, y)
    ensures Insert(x, s, le) == Insert(x, s, le')
  {
    if s != [] {
      assert s[0] in s && forall y | y in s[1..] :: y in s;
      InsertCongruent(x, s[1..], le, le');
    }
  }

  lemma {:induction false} SortCongruent<T(!new)>(s: seq<T>, le: (T, T) -> bool, le': (T, T) -> bool)
    requires forall x, y | x in s && y in s :: le(x, y) == le'(x, y)
    ensures Sort(s, le) == Sort(s, le')
  {
    if s != [] {
      assert s[0] in s && forall y | y in s[1..] :: y in s;
      SortCongruent(s[1..], le, le');
      SortMembers(s[1..], le);
      InsertCongruent(s[0], Sort(s[1..], le), le, le');
    }
  }

  lemma {:induction false} SortOfSorted<T>(s: seq<T>, le: (T, T) -> bool)
    requires Sorted(s, le)
    ensures Sort(s, le) == s
  {
    if s != [] {
      SortOfSorted(s[1..], le);
      assert |s| > 1 ==> le(s[0], s[1]);
    }
  }

  lemma {:induction false} CountMap<T, U>(s: seq<T>, le: (T, T) -> bool, f: T -> U, y: U)
    ensures Count(Map(Sort(s, le), f), y) == Count(Map(s, f), y)
  {
    if s != [] {
      CountMap(s[1..], le, f, y);
      CountMapInsert(s[0], Sort(s[1..], le), le, f, y);
      assert Map(s, f)[1..] == Map(s[1..], f);
    }
  }

  lemma {:induction false} CountMapInsert<T, U>(x: T, s: seq<T>, le: (T, T) -> bool, f: T -> U, y: U)
    ensures Count(Map(Insert(x, s, le), f), y) == Count(Map(s, f), y) + if f(x) == y then 1 else 0
  {
    if s == [] || le(x, s[0]) {
      assert Map([x] + s, f)[1..] == Map(s, f);
    } else {
      CountMapInsert(x, s[1..], le, f, y);
      assert Map(s, f)[1..] == Map(s[1..], f);
      assert Map(Insert(x, s, le), f)[1..] == Map(Insert(x, s[1..], le), f);
    }
  }

  lemma {:induction false} SortLength<T>(s: seq<T>, le: (T, T) -> bool)
    ensures |Sort(s, le)| == |s|
  {
    if s != [] {
      SortLength(s[1..], le);
      InsertLength(s[0], Sort(s[1..], le), le);
    }
  }

  lemma {:induction false} InsertLength<T>(x: T, s: seq<T>, le: (T, T) -> bool)
    ensures |Insert(x, s, le)| == |s| + 1
  {
    if s != [] && !le(x, s[0]) {
      InsertLength(x, s[1..], le);
    }
  }

  /** In a tie-free order, as many rows come before the i-th as its index says. */
  lemma RankInOrder<T>(s: seq<T>, i: nat, before: T -> bool)
    requires i < |s|
    requires forall j | 0 <= j < |s| :: before(s[j]) == (j < i)
    ensures |Filter(s, before)| == i
  {
    hide Filter;
    var earlier, later := s[..i], s[i..];
    FilterAppend(earlier, later, before);
    assert s == earlier + later;
    FilterAll(earlier, before);
    FilterAll(later, before);
  }

  /** Sorting changes no count of rows. */
  lemma RankUnsorted<T(!new)>(s: seq<T>, le: (T, T) -> bool, p: T -> bool)
    requires TotalPreorder(le)
    ensures |Filter(Sort(s, le), p)| == |Filter(s, p)|
  {
    FilterSort(s, le, p);
    SortLength(Filter(s, p), le);
  }

  lemma {:induction false} CountTwice<T>(s: seq<T>, i: nat, j: nat)
    requires i < j < |s| && s[i] == s[j]
    ensures Count(s, s[i]) >= 2
  {
    if i == 0 {
      assert s[j] == s[1..][j - 1];
      CountMember(s[1..], s[0]);
    } else {
      CountTwice(s[1..], i - 1, j - 1);
    }
  }

  /** Filtering keeps an order tie-free. */
  lemma {:induction false} FilterStrict<T>(s: seq<T>, le: (T, T) -> bool, p: T -> bool)
    requires StrictlySorted(s, le)
    ensures StrictlySorted(Filter(s, p), le)
  {
    if s != [] {
      FilterStrict(s[1..], le, p);
      forall y | y in s[1..]
        ensures le(s[0], y) && !le(y, s[0])
      {
        var i :| 0 <= i < |s| - 1 && s[1..][i] == y;
        assert y == s[i + 1];
      }
    }
  }
}
