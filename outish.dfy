/** The `OutCollection` contract and its three backends (Vec, BTreeSet, and a Vec
    reached only through a slice). Each backend keeps its items in one field that
    `extend`, `clear`, `sort` and `sort_unstable` update in place; here that field
    is `items`, a sequence in iteration order. */
module Outish {
  import opened Wrappers
  import opened Order

  datatype Backend = Vec | BTreeSet | Slice

  /** `ALLOWS_MULTIPLE_EQUAL_ITEMS`, as each backend declares it. */
  function AllowsMultipleEqualItems(b: Backend): bool {
    b != BTreeSet
  }

  /** `HAS_SORT_UNSTABLE` as declared: the Slice backend claims it. */
  function AdvertisedHasSortUnstable(b: Backend): bool {
    b != BTreeSet
  }

  /** `HAS_SORT` as declared: the Slice backend disclaims it. */
  function AdvertisedHasSort(b: Backend): bool {
    b != Slice
  }

  /** The flag that describes what `sort_unstable` does: only Vec sorts. */
  function HasSortUnstable(b: Backend): bool {
    b == Vec
  }

  /** The flag that describes what `sort` does: no backend panics. */
  function HasSort(b: Backend): bool {
    true
  }

  // ----- what each operation does to the items -----

  /** `extend`: appends for Vec and Slice, set union for BTreeSet. */
  function ExtendContents<T>(b: Backend, le: (T, T) -> bool, s: seq<T>, xs: seq<T>): seq<T> {
    if b == BTreeSet then AscInsertAll(le, s, xs) else s + xs
  }

  /** `sort`: a no-op on a BTreeSet, which is ordered already. */
  function SortContents<T>(b: Backend, le: (T, T) -> bool, s: seq<T>): seq<T> {
    if b == BTreeSet then s else SortSeq(le, s)
  }

  /** `sort_unstable`: Vec sorts; BTreeSet and Slice reach `unreachable!()`. */
  function SortUnstableContents<T>(b: Backend, le: (T, T) -> bool, s: seq<T>): Result<seq<T>> {
    if b == Vec then Ok(SortSeq(le, s)) else Panic(Unreachable)
  }

  lemma ElemsAppend<T>(s: seq<T>, xs: seq<T>)
    ensures Elems(s + xs) == Elems(s) + Elems(xs)
  {
    forall x | x in s + xs
      ensures x in s || x in xs
    {
      var k :| 0 <= k < |s + xs| && (s + xs)[k] == x;
      if k >= |s| {
        assert xs[k - |s|] == x;
      }
    }
  }

  /** Vec and Slice append the items in order; a BTreeSet stays ascending and
      gains exactly the new values, so its length is the distinct count. */
  lemma ExtendContentsCorrect<T(!new)>(b: Backend, le: (T, T) -> bool, s: seq<T>, xs: seq<T>)
    requires TotalOrder(le) && (b == BTreeSet ==> Ascending(le, s))
    ensures Elems(ExtendContents(b, le, s, xs)) == Elems(s) + Elems(xs)
    ensures b != BTreeSet ==> ExtendContents(b, le, s, xs) == s + xs
    ensures b != BTreeSet ==> multiset(ExtendContents(b, le, s, xs)) == multiset(s) + multiset(xs)
    ensures b == BTreeSet ==> Ascending(le, ExtendContents(b, le, s, xs))
    ensures b == BTreeSet ==> |ExtendContents(b, le, s, xs)| == |Elems(s) + Elems(xs)|
  {
    if b == BTreeSet {
      AscInsertAllCorrect(le, s, xs);
      DistinctCard(ExtendContents(b, le, s, xs));
    } else {
      ElemsAppend(s, xs);
    }
  }

  /** `sort` leaves a sorted permutation; on a BTreeSet it changes nothing, and on
      sorted items no backend changes anything. */
  lemma SortContentsCorrect<T(!new)>(b: Backend, le: (T, T) -> bool, s: seq<T>)
    requires TotalOrder(le) && (b == BTreeSet ==> Ascending(le, s))
    ensures Sorted(le, SortContents(b, le, s))
    ensures multiset(SortContents(b, le, s)) == multiset(s)
    ensures b == BTreeSet || Sorted(le, s) ==> SortContents(b, le, s) == s
  {
    if b != BTreeSet {
      SortSeqCorrect(le, s);
      if Sorted(le, s) {
        SortSeqOfSorted(le, s);
      }
    }
  }

  /** Each flag, read as the backend's behaviour: equal items survive `extend`
      exactly when `ALLOWS_MULTIPLE_EQUAL_ITEMS`, `sort_unstable` returns
      exactly when `HasSortUnstable`, and `sort`, which every backend has,
      turns the items of any collection filled by `extend` into a sorted
      permutation. */
  lemma FlagsDescribeBehaviour<T(!new)>(b: Backend, le: (T, T) -> bool, x: T, s: seq<T>)
    requires TotalOrder(le)
    ensures AllowsMultipleEqualItems(b) <==> |ExtendContents(b, le, [], [x, x])| == 2
    ensures HasSortUnstable(b) <==> SortUnstableContents(b, le, s).Ok?
    ensures var c := ExtendContents(b, le, [], s);
      HasSort(b) && Sorted(le, SortContents(b, le, c)) && multiset(SortContents(b, le, c)) == multiset(c)
  {
    ExtendContentsCorrect(b, le, [], s);
    SortContentsCorrect(b, le, ExtendContents(b, le, [], s));
    assert le(x, x);
    if b == BTreeSet {
      assert AscInsert(le, [], x) == [x];
      assert AscInsertAll(le, [], [x, x]) == AscInsertAll(le, [x], [x]);
      assert [x, x][1..] == [x];
      assert AscInsertAll(le, [x], [x]) == AscInsertAll(le, AscInsert(le, [x], x), []);
    }
  }

  /** As declared, the Slice backend's two sort flags are the wrong way round:
      it claims `sort_unstable` and disclaims `sort`, yet `sort_unstable` panics
      and `sort` works. */
  lemma SliceFlagsContradictBehaviour<T(!new)>(le: (T, T) -> bool, s: seq<T>)
    requires TotalOrder(le)
    ensures AdvertisedHasSortUnstable(Slice) && SortUnstableContents(Slice, le, s).Panic?
    ensures !AdvertisedHasSort(Slice)
    ensures Sorted(le, SortContents(Slice, le, s)) && multiset(SortContents(Slice, le, s)) == multiset(s)
  {
    SortContentsCorrect(Slice, le, s);
  }

  /** One backend's collection. `le` is the item type's `Ord`. */
  class OutCollection<T(!new)> {
    const backend: Backend
    const le: (T, T) -> bool
    var items: seq<T>

    ghost predicate Valid()
      reads this
    {
      TotalOrder(le) && (backend == BTreeSet ==> Ascending(le, items))
    }

    /** `new`. */
    constructor New(backend: Backend, le: (T, T) -> bool)
      requires TotalOrder(le)
      ensures Valid() && this.backend == backend && this.le == le && items == []
    {
      this.backend := backend;
      this.le := le;
      items := [];
    }

    /** `with_capacity`: the capacity is a reservation only (BTreeSet ignores it). */
    constructor WithCapacity(backend: Backend, le: (T, T) -> bool, capacity: nat)
      requires TotalOrder(le)
      ensures Valid() && this.backend == backend && this.le == le && items == []
    {
      this.backend := backend;
      this.le := le;
      items := [];
    }

    /** The derived `Clone`: a separate collection with the same items. */
    method Clone() returns (c: OutCollection<T>)
      requires Valid()
      ensures fresh(c) && c.Valid()
      ensures c.backend == backend && c.le == le && c.items == items
    {
      c := new OutCollection.New(backend, le);
      c.items := items;
    }

    method Clear()
      requires Valid()
      modifies this
      ensures Valid() && items == []
    {
      items := [];
    }

    method Extend(xs: seq<T>)
      requires Valid()
      modifies this
      ensures Valid()
      ensures items == ExtendContents(backend, le, old(items), xs)
      ensures Elems(items) == Elems(old(items)) + Elems(xs)
      ensures backend != BTreeSet ==> |items| == |old(items)| + |xs|
    {
      ExtendContentsCorrect(backend, le, items, xs);
      items := ExtendContents(backend, le, items, xs);
    }

    method ExtendOne(x: T)
      requires Valid()
      modifies this
      ensures Valid()
      ensures items == ExtendContents(backend, le, old(items), [x])
      ensures Elems(items) == Elems(old(items)) + {x}
    {
      Extend([x]);
      assert Elems([x]) == {x};
    }

    /** `len`: the item count, which for a BTreeSet is the number of distinct values. */
    function Len(): (n: nat)
      reads this
      requires Valid()
      ensures n == |items|
      ensures backend == BTreeSet ==> n == |Elems(items)|
      ensures n == 0 <==> Elems(items) == {}
    {
      if backend == BTreeSet then
        DistinctCard(items); |items|
      else
        assert |items| > 0 ==> items[0] in Elems(items); |items|
    }

    /** `iter`: the items in order; ascending and duplicate-free for a BTreeSet. */
    function Iter(): (s: seq<T>)
      reads this
      requires Valid()
      ensures |s| == Len() && Elems(s) == Elems(items)
      ensures backend == BTreeSet ==> Ascending(le, s)
    {
      items
    }

    /** `is_sorted`: walks the items, also for a BTreeSet, where it always holds. */
    method IsSorted() returns (sorted: bool)
      requires Valid()
      ensures sorted <==> Sorted(le, items)
      ensures backend == BTreeSet ==> sorted
    {
      sorted := IsSortedBy(le, Iter());
    }

    method Sort()
      requires Valid()
      modifies this
      ensures Valid()
      ensures items == SortContents(backend, le, old(items))
      ensures Sorted(le, items) && multiset(items) == multiset(old(items))
    {
      SortContentsCorrect(backend, le, items);
      if backend != BTreeSet {
        items := SortSeq(le, items);
      }
    }

    /** `sort_unstable`: sorts a Vec; the other backends reach `unreachable!()`. */
    method SortUnstable() returns (r: Result<()>)
      requires Valid()
      modifies this
      ensures Valid()
      ensures r.Ok? <==> HasSortUnstable(backend)
      ensures r.Panic? ==> r.reason == Unreachable && items == old(items)
      ensures r.Ok? ==> Ok(items) == SortUnstableContents(backend, le, old(items))
      ensures r.Ok? ==> Sorted(le, items) && multiset(items) == multiset(old(items))
    {
      if backend == Vec {
        SortSeqCorrect(le, items);
        items := SortSeq(le, items);
        r := Ok(());
      } else {
        r := Panic(Unreachable);
      }
    }

    /** `binary_search(x)`: reports only items that are there, and finds every item
        of sorted contents; a BTreeSet (`get`) is always sorted, so there it is
        plain membership. */
    method BinarySearch(x: T) returns (found: bool)
      requires Valid()
      ensures found ==> x in items
      ensures Sorted(le, items) ==> (found <==> x in items)
      ensures backend == BTreeSet ==> (found <==> x in items)
    {
      found := Order.BinarySearch(le, items, x);
    }
  }

  /** Sorting and then searching: after `sort`, every item that was put in with
      `extend` is found by `binary_search`, whatever the backend. */
  lemma SortThenSearch<T(!new)>(b: Backend, le: (T, T) -> bool, s: seq<T>, xs: seq<T>, x: T)
    requires TotalOrder(le) && (b == BTreeSet ==> Ascending(le, s)) && x in xs
    ensures Sorted(le, SortContents(b, le, ExtendContents(b, le, s, xs)))
    ensures x in SortContents(b, le, ExtendContents(b, le, s, xs))
  {
    var e := ExtendContents(b, le, s, xs);
    ExtendContentsCorrect(b, le, s, xs);
    assert x in Elems(xs);
    assert x in Elems(e);
    SortContentsCorrect(b, le, e);
    assert x in multiset(e);
  }
}
