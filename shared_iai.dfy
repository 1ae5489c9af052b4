/** Benchmark data for the instruction-count benchmarks (src/shared_iai.rs): from
    the own items, the unsorted out items and, built from them, unsorted and
    sorted collections and vectors under both the classic and the Cami order. */
module SharedIai {
  import opened Order
  import opened Outish
  import opened CamiItems
  import Data

  /** `DataOut`: every field is a fresh value or a fresh collection. */
  datatype DataOut<T(!new)> = DataOut(
    unsortedVecClassic: seq<T>,
    unsortedColClassic: OutCollection<T>,
    sortedColClassic: OutCollection<T>,
    unsortedColCami: OutCollection<Cami<T>>,
    sortedColCami: OutCollection<Cami<T>>,
    unsortedVecCami: seq<Cami<T>>,
    sortedVecCami: seq<Cami<T>>)

  /** Extending an empty collection of backend `b` with the out items prepared for
      `b` gives back exactly those items: deduplication already happened when `b`
      keeps one item per value. */
  lemma CollectingOutItemsKeepsThem<Own, Out(!new)>(b: Backend, le: (Out, Out) -> bool, generateOut: Own -> Out, own: seq<Own>)
    requires TotalOrder(le)
    ensures var out := Data.OutItems(AllowsMultipleEqualItems(b), le, generateOut, own);
      ExtendContents(b, le, [], out) == out
  {
    var out := Data.OutItems(AllowsMultipleEqualItems(b), le, generateOut, own);
    if b == BTreeSet {
      Data.OutItemsCorrect(false, le, generateOut, own);
      AscInsertAllOfAscending(le, out);
    } else {
      assert [] + out == out;
    }
  }

  /** `data_out`: builds each field in the order the source does; every sorted
      field is a sorted clone, so the unsorted one it came from keeps its items. */
  method BuildDataOut<Own, T(!new)>(classic: Backend, cami: Backend, le: (T, T) -> bool, camiLe: (T, T) -> bool,
                                    own: seq<Own>, generateOut: Own -> T)
    returns (d: DataOut<T>)
    requires TotalOrder(le) && TotalOrder(camiLe)
    ensures d.unsortedVecClassic == Data.OutItems(AllowsMultipleEqualItems(classic), le, generateOut, own)
    ensures d.unsortedColClassic.Valid() && d.unsortedColClassic.backend == classic
    ensures d.unsortedColClassic.items == d.unsortedVecClassic
    ensures d.sortedColClassic.Valid() && d.sortedColClassic != d.unsortedColClassic
    ensures d.sortedColClassic.items == SortContents(classic, le, d.unsortedVecClassic)
    ensures Sorted(le, d.sortedColClassic.items)
    ensures multiset(d.sortedColClassic.items) == multiset(d.unsortedVecClassic)
    ensures d.unsortedVecCami == WrapAll(d.unsortedVecClassic)
    ensures d.sortedVecCami == SortSeq(CamiOrder(camiLe), d.unsortedVecCami)
    ensures Sorted(CamiOrder(camiLe), d.sortedVecCami)
    ensures multiset(d.sortedVecCami) == multiset(d.unsortedVecCami)
    ensures d.unsortedColCami.Valid() && d.unsortedColCami.backend == cami
    ensures d.unsortedColCami.items == ExtendContents(cami, CamiOrder(camiLe), [], d.unsortedVecCami)
    ensures cami != BTreeSet ==> d.unsortedColCami.items == d.unsortedVecCami
    ensures cami != BTreeSet || classic == BTreeSet ==> |d.unsortedColCami.items| == |d.unsortedVecCami|
    ensures Elems(d.unsortedColCami.items) == Elems(d.unsortedVecCami)
    ensures d.sortedColCami.Valid() && d.sortedColCami != d.unsortedColCami
    ensures d.sortedColCami.items == SortContents(cami, CamiOrder(camiLe), d.unsortedColCami.items)
    ensures Sorted(CamiOrder(camiLe), d.sortedColCami.items)
    ensures multiset(d.sortedColCami.items) == multiset(d.unsortedColCami.items)
  {
    CamiOrderTotal(camiLe);
    var camiOrder := CamiOrder(camiLe);

    var unsortedVecClassic := Data.OutFor(le, generateOut, own, AllowsMultipleEqualItems(classic));

    var unsortedColClassic := new OutCollection.WithCapacity(classic, le, |unsortedVecClassic|);
    CollectingOutItemsKeepsThem(classic, le, generateOut, own);
    unsortedColClassic.Extend(unsortedVecClassic);

    var sortedColClassic := unsortedColClassic.Clone();
    sortedColClassic.Sort();

    var unsortedVecCami := WrapAll(unsortedVecClassic);

    var sortedVecCami := SortSeq(camiOrder, unsortedVecCami);
    SortSeqCorrect(camiOrder, unsortedVecCami);

    var unsortedColCami := new OutCollection.WithCapacity(cami, camiOrder, |unsortedVecClassic|);
    unsortedColCami.Extend(unsortedVecCami);
    var empty: seq<Cami<T>> := [];
    assert Elems(empty) == {};
    if cami == BTreeSet && classic == BTreeSet {
      Data.OutItemsCorrect(false, le, generateOut, own);
      WrapAllKeepsDistinct(unsortedVecClassic);
      DistinctCard(unsortedVecCami);
      DistinctCard(unsortedColCami.items);
    }

    var sortedColCami := unsortedColCami.Clone();
    sortedColCami.Sort();

    d := DataOut(unsortedVecClassic, unsortedColClassic, sortedColClassic, unsortedColCami, sortedColCami,
                 unsortedVecCami, sortedVecCami);
  }
}
