/** The instruction-count benchmarks' shared code (benches/lib_benches/shared_iai.rs):
    generate a few own items, deduplicate them when the collection keeps one item
    per value, and build the unsorted collection of their out items. */
module BenchSharedIai {
  import opened Wrappers
  import opened Order
  import opened Outish
  import opened CamiItems
  import Rnd
  import Data

  /** Minimum number of test items. */
  const MIN_ITEMS: nat := 4
  /** Maximum (exclusive) number of test items. */
  const MAX_ITEMS: nat := 10
  /** Maximum length of an item, in characters. */
  const MAX_ITEM_LEN: nat := 1000

  /** `bench_vec_sort_bin_search_ref_possibly_duplicates`, its first step: when the
      collection does not allow equal items, the own items are drained into a
      `BTreeSet` and back (by the own items' order `leOwn`); otherwise they are
      left as they are. */
  method DedupOwnItems<Own(!new)>(b: Backend, leOwn: (Own, Own) -> bool, own: seq<Own>) returns (deduped: seq<Own>)
    requires TotalOrder(leOwn)
    ensures AllowsMultipleEqualItems(b) ==> deduped == own
    ensures !AllowsMultipleEqualItems(b) ==> deduped == AscInsertAll(leOwn, [], own)
    ensures !AllowsMultipleEqualItems(b) ==> Ascending(leOwn, deduped) && Elems(deduped) == Elems(own)
    ensures |deduped| <= |own|
  {
    deduped := own;
    if !AllowsMultipleEqualItems(b) {
      deduped := Data.DedupThroughSet(leOwn, own);
    }
  }

  /** The unsorted collection of `bench_vec_sort_bin_search_ref` (and of `data_out`):
      one out item per own item, extended into an empty collection. */
  method BuildUnsortedCollection<Own, Out(!new)>(b: Backend, le: (Out, Out) -> bool, own: seq<Own>, generateOut: Own -> Out)
    returns (col: OutCollection<Out>)
    requires TotalOrder(le)
    ensures fresh(col) && col.Valid() && col.backend == b && col.le == le
    ensures col.items == ExtendContents(b, le, [], Data.MapItems(generateOut, own))
    ensures Elems(col.items) == Elems(Data.MapItems(generateOut, own))
    ensures b != BTreeSet ==> |col.items| == |own| && forall i :: 0 <= i < |own| ==> col.items[i] == generateOut(own[i])
  {
    col := new OutCollection.WithCapacity(b, le, |own|);
    col.Extend(Data.MapItems(generateOut, own));
    var empty: seq<Out> := [];
    assert Elems(empty) == {};
  }

  /** The part of `data_out` before the struct is built: the unsorted collection,
      a sorted collection built from its items, and the Cami-wrapped items. */
  method DataOutParts<Own, Out(!new)>(b: Backend, le: (Out, Out) -> bool, own: seq<Own>, generateOut: Own -> Out)
    returns (unsortedColClassic: OutCollection<Out>, sortedColClassic: OutCollection<Out>, unsortedVecCami: seq<Cami<Out>>)
    requires TotalOrder(le)
    ensures fresh(unsortedColClassic) && fresh(sortedColClassic) && unsortedColClassic != sortedColClassic
    ensures unsortedColClassic.Valid() && sortedColClassic.Valid()
    ensures unsortedColClassic.items == ExtendContents(b, le, [], Data.MapItems(generateOut, own))
    ensures sortedColClassic.items == SortContents(b, le, unsortedColClassic.items)
    ensures Sorted(le, sortedColClassic.items)
    ensures |sortedColClassic.items| == |unsortedColClassic.items|
    ensures multiset(sortedColClassic.items) == multiset(unsortedColClassic.items)
    ensures unsortedVecCami == WrapAll(unsortedColClassic.items)
  {
    unsortedColClassic := BuildUnsortedCollection(b, le, own, generateOut);

    sortedColClassic := new OutCollection.WithCapacity(b, le, unsortedColClassic.Len());
    if b == BTreeSet {
      AscInsertAllOfAscending(le, unsortedColClassic.items);
    } else {
      assert [] + unsortedColClassic.items == unsortedColClassic.items;
    }
    sortedColClassic.Extend(unsortedColClassic.Iter());
    sortedColClassic.Sort();
    assert |multiset(sortedColClassic.items)| == |multiset(unsortedColClassic.items)|;

    unsortedVecCami := WrapAll(unsortedColClassic.Iter());
  }

  /** `data_out`: after building its parts, constructing the struct evaluates
      `panic!()` for its first field, so it never returns a value. */
  method DataOut<Own, Out(!new)>(b: Backend, le: (Out, Out) -> bool, own: seq<Own>, generateOut: Own -> Out)
    returns (r: Result<()>)
    requires TotalOrder(le)
    ensures r.Panic? && r.reason == ExplicitPanic
  {
    var unsortedColClassic, sortedColClassic, unsortedVecCami := DataOutParts(b, le, own, generateOut);
    r := Panic(ExplicitPanic);
  }

  /** `bench_vec_sort_bin_search` down to `bench_vec_sort_bin_search_ref`: an item
      count drawn from `MIN_ITEMS..MAX_ITEMS`, that many generated own items, their
      deduplication when the backend requires it, and the unsorted collection of
      their out items. Returns the generated items, the own items after
      deduplication and the collection. */
  method BenchVecSortBinSearch<Own(!new), Out(!new)>(b: Backend, rnd: Rnd.Rng, generateOwn: Rnd.ItemGenerator<Own>,
                                                    leOwn: (Own, Own) -> bool, generateOut: Own -> Out, le: (Out, Out) -> bool)
    returns (generated: seq<Own>, own: seq<Own>, unsortedItems: OutCollection<Out>)
    requires TotalOrder(leOwn) && TotalOrder(le)
    modifies rnd
    ensures MIN_ITEMS <= |generated| < MAX_ITEMS
    ensures generated == Rnd.Generated(generateOwn, rnd.stream, old(rnd.drawn) + 1, |generated|).0
    ensures AllowsMultipleEqualItems(b) ==> own == generated
    ensures !AllowsMultipleEqualItems(b) ==> Ascending(leOwn, own) && Elems(own) == Elems(generated)
    ensures fresh(unsortedItems) && unsortedItems.Valid()
    ensures unsortedItems.items == ExtendContents(b, le, [], Data.MapItems(generateOut, own))
  {
    var numItems := rnd.Usize(MIN_ITEMS, MAX_ITEMS);
    generated := rnd.GenerateItems(numItems.value, generateOwn);
    own := DedupOwnItems(b, leOwn, generated);
    unsortedItems := BuildUnsortedCollection(b, le, own, generateOut);
  }
}
