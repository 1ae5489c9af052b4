/** The benchmarks' shared helpers (benches/lib_benches/shared.rs): own-item
    generation with their own bounds, `DataOwnAndOut::new`, and collect-and-sort
    copies of the ones in src/col.rs. */
module BenchShared {
  import opened Wrappers
  import opened Order
  import opened Outish
  import opened CamiItems
  import Rnd
  import Data
  import BenchData
  import Col

  /** Minimum number of distinct out items a benchmark needs. */
  const MIN_ITEMS_AFTER_REMOVING_DUPLICATES: nat := 4
  /** Minimum number of test items. */
  const MIN_ITEMS: nat := 40
  /** Maximum (exclusive) number of test items. */
  const MAX_ITEMS: nat := 10000
  /** Maximum length of an item, in characters. */
  const MAX_ITEM_LEN: nat := 1000

  /** `data_own_for_rnd` (and `data_own`, which forwards to it): an item count
      drawn from `MIN_ITEMS..MAX_ITEMS`, then that many generated items. The
      generator is passed in, since the source's `Rnd::new` does not exist. */
  method DataOwnForRnd<Own>(rnd: Rnd.Rng, generate: Rnd.ItemGenerator<Own>) returns (own: seq<Own>)
    modifies rnd
    ensures MIN_ITEMS <= |own| < MAX_ITEMS
    ensures own == Rnd.Generated(generate, rnd.stream, old(rnd.drawn) + 1, |own|).0
  {
    var numItems := rnd.Usize(MIN_ITEMS, MAX_ITEMS);
    own := rnd.GenerateItems(numItems.value, generate);
  }

  /** `DataOwnAndOut::new`: own items, their out items, deduplicated when equal
      items are not allowed, with a panic when fewer than
      `MIN_ITEMS_AFTER_REMOVING_DUPLICATES` values remain. */
  method DataOwnAndOutNew<Own, Out(!new)>(rnd: Rnd.Rng, generateOwn: Rnd.ItemGenerator<Own>, generateOut: Own -> Out,
                                          le: (Out, Out) -> bool, allowsMultipleEqualItems: bool)
    returns (r: Result<Data.OwnAndOut<Own, Out>>)
    requires TotalOrder(le)
    modifies rnd
    ensures r.Ok? ==> MIN_ITEMS <= |r.value.own| < MAX_ITEMS
    ensures r.Ok? ==> r.value.own == Rnd.Generated(generateOwn, rnd.stream, old(rnd.drawn) + 1, |r.value.own|).0
    ensures r.Ok? ==> r.value.out == Data.OutItems(allowsMultipleEqualItems, le, generateOut, r.value.own)
    ensures r.Ok? && allowsMultipleEqualItems ==> |r.value.out| == |r.value.own|
    ensures r.Ok? && !allowsMultipleEqualItems ==> |r.value.out| >= MIN_ITEMS_AFTER_REMOVING_DUPLICATES
    ensures allowsMultipleEqualItems ==> r.Ok?
    ensures r.Panic? ==> r.reason.TooFewUnduplicated? && r.reason.left < MIN_ITEMS_AFTER_REMOVING_DUPLICATES
  {
    var own := DataOwnForRnd(rnd, generateOwn);
    Data.OutItemsCorrect(allowsMultipleEqualItems, le, generateOut, own);
    var out :- BenchData.OutWithMinPopulation(le, generateOut, own, allowsMultipleEqualItems);
    r := Ok(Data.OwnAndOut(own, out));
  }

  /** `lexi_indicated`: the same collect-then-sort as in src/col.rs. */
  method LexiIndicated<T(!new)>(b: Backend, le: (T, T) -> bool, out: seq<T>, stableSort: bool)
    returns (r: Result<OutCollection<T>>)
    requires TotalOrder(le)
    ensures r.Ok? <==> stableSort || HasSortUnstable(b)
    ensures r.Panic? ==> r.reason == Unreachable
    ensures r.Ok? ==> fresh(r.value) && r.value.Valid() && r.value.backend == b
    ensures r.Ok? ==> r.value.items == Col.Collected(b, le, out)
    ensures r.Ok? ==> Sorted(le, r.value.items) && Elems(r.value.items) == Elems(out)
  {
    r := Col.LexiIndicated(b, le, out, stableSort);
  }

  /** `lexi_stable`: never panics. */
  method LexiStable<T(!new)>(b: Backend, le: (T, T) -> bool, out: seq<T>) returns (r: Result<OutCollection<T>>)
    requires TotalOrder(le)
    ensures r.Ok? && r.value.items == Col.Collected(b, le, out)
  {
    r := LexiIndicated(b, le, out, true);
  }

  /** `lexi_unstable`: panics exactly on the backends without an unstable sort. */
  method LexiUnstable<T(!new)>(b: Backend, le: (T, T) -> bool, out: seq<T>) returns (r: Result<OutCollection<T>>)
    requires TotalOrder(le)
    ensures r.Ok? <==> HasSortUnstable(b)
    ensures r.Ok? ==> r.value.items == Col.Collected(b, le, out)
  {
    r := LexiIndicated(b, le, out, false);
  }

  /** `cami_indicated`: the same wrap-collect-then-sort as in src/col.rs. */
  method CamiIndicated<T(!new)>(b: Backend, camiLe: (T, T) -> bool, out: seq<T>, stableSort: bool)
    returns (r: Result<OutCollection<Cami<T>>>)
    requires TotalOrder(camiLe)
    ensures r.Ok? <==> stableSort || HasSortUnstable(b)
    ensures r.Panic? ==> r.reason == Unreachable
    ensures r.Ok? ==> fresh(r.value) && r.value.Valid() && r.value.backend == b
    ensures r.Ok? ==> r.value.items == Col.Collected(b, CamiOrder(camiLe), WrapAll(out))
    ensures r.Ok? ==> Sorted(CamiOrder(camiLe), r.value.items)
    ensures r.Ok? ==> forall x :: Cami(x) in r.value.items <==> x in out
  {
    r := Col.CamiIndicated(b, camiLe, out, stableSort);
  }

  /** `cami_stable`: never panics. */
  method CamiStable<T(!new)>(b: Backend, camiLe: (T, T) -> bool, out: seq<T>) returns (r: Result<OutCollection<Cami<T>>>)
    requires TotalOrder(camiLe)
    ensures r.Ok? && r.value.items == Col.Collected(b, CamiOrder(camiLe), WrapAll(out))
  {
    r := CamiIndicated(b, camiLe, out, true);
  }

  /** `cami_unstable`: panics exactly on the backends without an unstable sort. */
  method CamiUnstable<T(!new)>(b: Backend, camiLe: (T, T) -> bool, out: seq<T>) returns (r: Result<OutCollection<Cami<T>>>)
    requires TotalOrder(camiLe)
    ensures r.Ok? <==> HasSortUnstable(b)
    ensures r.Ok? ==> r.value.items == Col.Collected(b, CamiOrder(camiLe), WrapAll(out))
  {
    r := CamiIndicated(b, camiLe, out, false);
  }
}
