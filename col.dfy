/** Collect-and-sort (src/col.rs): clone a slice of items into a fresh collection,
    then `sort` or `sort_unstable` it. The `cami_*` variants wrap each item in
    `Cami` first and so sort under the alternative order. */
module Col {
  import opened Wrappers
  import opened Order
  import opened Outish
  import opened CamiItems

  /** The items a collection of backend `b` holds after `extend(out)` then `sort`. */
  function Collected<T>(b: Backend, le: (T, T) -> bool, out: seq<T>): seq<T> {
    SortContents(b, le, ExtendContents(b, le, [], out))
  }

  /** Collecting keeps exactly the values of `out`, sorted. Vec and Slice keep
      every item (a sorted permutation); a BTreeSet keeps one item per value. */
  lemma CollectedCorrect<T(!new)>(b: Backend, le: (T, T) -> bool, out: seq<T>)
    requires TotalOrder(le)
    ensures Sorted(le, Collected(b, le, out))
    ensures Elems(Collected(b, le, out)) == Elems(out)
    ensures b != BTreeSet ==> multiset(Collected(b, le, out)) == multiset(out)
    ensures b != BTreeSet ==> Collected(b, le, out) == SortSeq(le, out)
    ensures b == BTreeSet ==> Ascending(le, Collected(b, le, out))
    ensures |Collected(b, le, out)| == if b == BTreeSet then |Elems(out)| else |out|
  {
    var empty: seq<T> := [];
    assert Elems(empty) == {};
    if b == BTreeSet {
      AscInsertAllCorrect(le, empty, out);
      DistinctCard(AscInsertAll(le, empty, out));
    } else {
      assert ExtendContents(b, le, empty, out) == out;
      SortSeqCorrect(le, out);
      SameMultisetSameElems(SortSeq(le, out), out);
      assert |SortSeq(le, out)| == |multiset(SortSeq(le, out))| == |multiset(out)| == |out|;
    }
  }

  /** `lexi_indicated`: collect clones of `out` in order, then sort stably or
      unstably. An unstable sort panics on the backends without one. */
  method LexiIndicated<T(!new)>(b: Backend, le: (T, T) -> bool, out: seq<T>, stableSort: bool)
    returns (r: Result<OutCollection<T>>)
    requires TotalOrder(le)
    ensures r.Ok? <==> stableSort || HasSortUnstable(b)
    ensures r.Panic? ==> r.reason == Unreachable
    ensures r.Ok? ==> fresh(r.value) && r.value.Valid() && r.value.backend == b && r.value.le == le
    ensures r.Ok? ==> r.value.items == Collected(b, le, out)
    ensures r.Ok? ==> Sorted(le, r.value.items) && Elems(r.value.items) == Elems(out)
    ensures r.Ok? && b != BTreeSet ==> multiset(r.value.items) == multiset(out)
  {
    CollectedCorrect(b, le, out);
    var col := new OutCollection.WithCapacity(b, le, |out|);
    col.Extend(out);
    if stableSort {
      col.Sort();
    } else {
      var sorted := col.SortUnstable();
      if sorted.Panic? {
        return Panic(sorted.reason);
      }
    }
    r := Ok(col);
  }

  /** `lexi_stable`: never panics. */
  method LexiStable<T(!new)>(b: Backend, le: (T, T) -> bool, out: seq<T>)
    returns (r: Result<OutCollection<T>>)
    requires TotalOrder(le)
    ensures r.Ok? && r.value.Valid() && r.value.backend == b
    ensures r.value.items == Collected(b, le, out)
    ensures Sorted(le, r.value.items) && Elems(r.value.items) == Elems(out)
  {
    r := LexiIndicated(b, le, out, true);
  }

  /** `lexi_unstable`: panics exactly on the backends without an unstable sort. */
  method LexiUnstable<T(!new)>(b: Backend, le: (T, T) -> bool, out: seq<T>)
    returns (r: Result<OutCollection<T>>)
    requires TotalOrder(le)
    ensures r.Ok? <==> HasSortUnstable(b)
    ensures r.Panic? ==> r.reason == Unreachable
    ensures r.Ok? ==> r.value.items == SortSeq(le, out)
  {
    CollectedCorrect(b, le, out);
    r := LexiIndicated(b, le, out, false);
  }

  /** `cami_indicated`: collect `Cami` wrappers of clones of `out`, then sort
      under the Cami order. */
  method CamiIndicated<T(!new)>(b: Backend, camiLe: (T, T) -> bool, out: seq<T>, stableSort: bool)
    returns (r: Result<OutCollection<Cami<T>>>)
    requires TotalOrder(camiLe)
    ensures r.Ok? <==> stableSort || HasSortUnstable(b)
    ensures r.Panic? ==> r.reason == Unreachable
    ensures r.Ok? ==> fresh(r.value) && r.value.Valid() && r.value.backend == b && r.value.le == CamiOrder(camiLe)
    ensures r.Ok? ==> r.value.items == Collected(b, CamiOrder(camiLe), WrapAll(out))
    ensures r.Ok? ==> Sorted(CamiOrder(camiLe), r.value.items)
    ensures r.Ok? ==> forall x :: Cami(x) in r.value.items <==> x in out
  {
    CamiOrderTotal(camiLe);
    CollectedCorrect(b, CamiOrder(camiLe), WrapAll(out));
    WrapAllKeepsDistinct(out);
    var col := new OutCollection.WithCapacity(b, CamiOrder(camiLe), |out|);
    col.Extend(WrapAll(out));
    if stableSort {
      col.Sort();
    } else {
      var sorted := col.SortUnstable();
      if sorted.Panic? {
        return Panic(sorted.reason);
      }
    }
    r := Ok(col);
    assert forall x :: Cami(x) in col.items <==> Cami(x) in Elems(WrapAll(out));
  }

  /** `cami_stable`: never panics. */
  method CamiStable<T(!new)>(b: Backend, camiLe: (T, T) -> bool, out: seq<T>)
    returns (r: Result<OutCollection<Cami<T>>>)
    requires TotalOrder(camiLe)
    ensures r.Ok? && r.value.items == Collected(b, CamiOrder(camiLe), WrapAll(out))
    ensures Sorted(CamiOrder(camiLe), r.value.items)
  {
    r := CamiIndicated(b, camiLe, out, true);
  }

  /** `cami_unstable`: panics exactly on the backends without an unstable sort. */
  method CamiUnstable<T(!new)>(b: Backend, camiLe: (T, T) -> bool, out: seq<T>)
    returns (r: Result<OutCollection<Cami<T>>>)
    requires TotalOrder(camiLe)
    ensures r.Ok? <==> HasSortUnstable(b)
    ensures r.Ok? ==> r.value.items == SortSeq(CamiOrder(camiLe), WrapAll(out))
  {
    CamiOrderTotal(camiLe);
    CollectedCorrect(b, CamiOrder(camiLe), WrapAll(out));
    r := CamiIndicated(b, camiLe, out, false);
  }
}
