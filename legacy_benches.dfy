/** The older benchmark library (benches/shared/lib_benches.rs): a two-backend copy
    of the collections (Vec and BTreeSet, no Slice), the own-item generation and
    deduplication, and the Cami sort-then-search. */
module LegacyBenches {
  import opened Wrappers
  import opened Order
  import opened Outish
  import opened CamiItems
  import Rnd
  import BenchSharedIai

  /** Minimum number of test items. */
  const MIN_ITEMS: nat := 4
  /** Maximum (exclusive) number of test items. */
  const MAX_ITEMS: nat := 10
  /** Maximum length of an item, in characters. */
  const MAX_ITEM_LEN: nat := 1000

  /** This copy's `ALLOWS_MULTIPLE_EQUAL_ITEMS`; it has no Slice backend. */
  function LegacyAllowsMultipleEqualItems(b: Backend): bool
    requires b != Slice
  {
    b == Vec
  }

  /** This copy's `HAS_SORT_UNSTABLE`. */
  function LegacyHasSortUnstable(b: Backend): bool
    requires b != Slice
  {
    b == Vec
  }

  /** The two flags of this copy say what the backends do: equal items are kept
      exactly by Vec, and `sort_unstable` succeeds exactly on Vec. */
  lemma LegacyFlagsDescribeBehaviour<T(!new)>(b: Backend, le: (T, T) -> bool, x: T, s: seq<T>)
    requires b != Slice && TotalOrder(le)
    ensures LegacyAllowsMultipleEqualItems(b) <==> |ExtendContents(b, le, [], [x, x])| == 2
    ensures LegacyHasSortUnstable(b) <==> SortUnstableContents(b, le, s).Ok?
    ensures LegacyAllowsMultipleEqualItems(b) == AllowsMultipleEqualItems(b)
    ensures LegacyHasSortUnstable(b) == HasSortUnstable(b)
  {
    FlagsDescribeBehaviour(b, le, x, s);
  }

  /** Vec or BTreeSet: collect `xs`, `sort`, then `binary_search` every item of
      `xs`, as the lexicographic search benchmark asserts; every search succeeds. */
  method SortThenSearchAll<T(!new)>(b: Backend, le: (T, T) -> bool, xs: seq<T>) returns (allFound: bool)
    requires b != Slice && TotalOrder(le)
    ensures allFound
  {
    var col := new OutCollection.WithCapacity(b, le, |xs|);
    col.Extend(xs);
    col.Sort();
    var items := col.items;
    assert forall k :: 0 <= k < |xs| ==> xs[k] in Elems(xs);
    assert forall k :: 0 <= k < |xs| ==> xs[k] in multiset(items);
    allFound := true;
    var i := 0;
    while i < |xs|
      invariant 0 <= i <= |xs|
      invariant col.items == items && col.Valid()
      invariant allFound
    {
      var found := col.BinarySearch(xs[i]);
      allFound := allFound && found;
      i := i + 1;
    }
  }

  /** BTreeSet: `is_sorted` walks the ascending iterator and says yes, `sort` is a
      no-op, `sort_unstable` is `unreachable!()`, and `binary_search` is plain
      membership. */
  method BTreeSetOperations<T(!new)>(le: (T, T) -> bool, xs: seq<T>, x: T)
    returns (sorted: bool, unstable: Result<()>, found: bool)
    requires TotalOrder(le)
    ensures sorted
    ensures unstable.Panic? && unstable.reason == Unreachable
    ensures found <==> x in xs
  {
    var col := new OutCollection.WithCapacity(BTreeSet, le, |xs|);
    col.Extend(xs);
    var empty: seq<T> := [];
    assert Elems(empty) == {};
    sorted := col.IsSorted();
    col.Sort();
    unstable := col.SortUnstable();
    found := col.BinarySearch(x);
    assert x in col.items <==> x in Elems(xs);
  }

  /** The Cami sort and search: clone the wrapped items, `sort` the clone, then
      `binary_search(item).unwrap()` every wrapped item; the unwrap never fails. */
  method CamiSortAndSearch<T(!new)>(camiLe: (T, T) -> bool, unsorted: seq<Cami<T>>)
    returns (sortedNonLexi: seq<Cami<T>>, allFound: bool)
    requires TotalOrder(camiLe)
    ensures sortedNonLexi == SortSeq(CamiOrder(camiLe), unsorted)
    ensures Sorted(CamiOrder(camiLe), sortedNonLexi) && multiset(sortedNonLexi) == multiset(unsorted)
    ensures allFound
  {
    var camiOrder := CamiOrder(camiLe);
    CamiOrderTotal(camiLe);
    SortSeqCorrect(camiOrder, unsorted);
    sortedNonLexi := SortSeq(camiOrder, unsorted);
    allFound := true;
    for i := 0 to |unsorted|
      invariant allFound
    {
      assert unsorted[i] in multiset(sortedNonLexi);
      var found := Order.BinarySearch(camiOrder, sortedNonLexi, unsorted[i]);
      allFound := allFound && found;
    }
  }

  /** `bench_vec_sort_bin_search` down to `bench_vec_sort_bin_search_lifetimed_ref`:
      an item count drawn from `MIN_ITEMS..MAX_ITEMS`, that many generated own
      items, their deduplication when the backend requires it, and an unsorted
      collection that is never extended (its `extend` is commented out). Then
      each own item is passed to `generate_out_item_forward`, whose body is
      `loop {}`. The own items are never empty, so the benchmark never returns
      (`diverges`), and the Cami sort and search after it (`CamiSortAndSearch`)
      is never reached. */
  method BenchVecSortBinSearch<Own(!new), Out(!new)>(b: Backend, rnd: Rnd.Rng, generateOwn: Rnd.ItemGenerator<Own>,
                                                    leOwn: (Own, Own) -> bool, le: (Out, Out) -> bool)
    returns (generated: seq<Own>, own: seq<Own>, unsortedItems: OutCollection<Out>, diverges: bool)
    requires b != Slice && TotalOrder(leOwn) && TotalOrder(le)
    modifies rnd
    ensures MIN_ITEMS <= |generated| < MAX_ITEMS
    ensures generated == Rnd.Generated(generateOwn, rnd.stream, old(rnd.drawn) + 1, |generated|).0
    ensures LegacyAllowsMultipleEqualItems(b) ==> own == generated
    ensures !LegacyAllowsMultipleEqualItems(b) ==> Ascending(leOwn, own) && Elems(own) == Elems(generated)
    ensures fresh(unsortedItems) && unsortedItems.Valid() && unsortedItems.items == []
    ensures diverges <==> |own| > 0
    ensures diverges && 0 < |own| <= |generated|
  {
    var numItems := rnd.Usize(MIN_ITEMS, MAX_ITEMS);
    generated := rnd.GenerateItems(numItems.value, generateOwn);
    own := BenchSharedIai.DedupOwnItems(b, leOwn, generated);
    unsortedItems := new OutCollection.WithCapacity(b, le, |own|);
    assert generated[0] in Elems(generated);
    // `own_items.iter().for_each(generate_out_item_forward)`: the first call never returns.
    diverges := |own| > 0;
  }
}
