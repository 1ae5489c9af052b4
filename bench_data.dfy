/** The benchmarks' dataset preparation (benches/lib_benches/data.rs): as in
    src/data.rs, but with the benchmarks' item counts and a panic when too few
    distinct out items are left after deduplication. */
module BenchData {
  import opened Wrappers
  import opened Order
  import Rnd
  import BenchRnd
  import Data

  /** Map the own items to out items; when equal items are not allowed,
      deduplicate through a set and panic if fewer than
      `MIN_ITEMS_AFTER_REMOVING_DUPLICATES` values remain. The panic reports the
      own count, the count before and the count after deduplication. `own` is a
      value and is never changed. */
  method OutWithMinPopulation<Own, Out(!new)>(le: (Out, Out) -> bool, generateOut: Own -> Out, own: seq<Own>,
                                              allowsMultipleEqualItems: bool)
    returns (r: Result<seq<Out>>)
    requires TotalOrder(le)
    ensures r.Ok? <==> allowsMultipleEqualItems
                       || |Elems(Data.MapItems(generateOut, own))| >= BenchRnd.MIN_ITEMS_AFTER_REMOVING_DUPLICATES
    ensures r.Ok? ==> r.value == Data.OutItems(allowsMultipleEqualItems, le, generateOut, own)
    ensures r.Panic? ==> r.reason == TooFewUnduplicated(|own|, |own|, |Elems(Data.MapItems(generateOut, own))|)
  {
    Data.OutItemsCorrect(allowsMultipleEqualItems, le, generateOut, own);
    var out := Data.MapItems(generateOut, own);
    if !allowsMultipleEqualItems {
      var lenIncludingDuplicates := |out|;
      out := Data.DedupThroughSet(le, out);
      if |out| < BenchRnd.MIN_ITEMS_AFTER_REMOVING_DUPLICATES {
        return Panic(TooFewUnduplicated(|own|, lenIncludingDuplicates, |out|));
      }
    }
    r := Ok(out);
  }

  /** `OwnAndOut::new`: own items from the benchmarks' `data_own`, then their out
      items, with the minimum-population panic. */
  method New<Own, Out(!new)>(env: Rnd.Env, streams: nat -> nat -> nat, generateOwn: Rnd.ItemGenerator<Own>,
                             generateOut: Own -> Out, le: (Out, Out) -> bool, allowsMultipleEqualItems: bool)
    returns (r: Result<Data.OwnAndOut<Own, Out>>)
    requires TotalOrder(le)
    ensures var seed := Rnd.SelectSeed(Rnd.Var(env, Rnd.RND_SEED_DEC_ENV), Rnd.Var(env, Rnd.RND_SEED_HEX_ENV));
      && (seed.Panic? ==> r == Panic(seed.reason))
      && (seed.Ok? && allowsMultipleEqualItems ==> r.Ok?)
      && (r.Ok? ==> seed.Ok?)
      && (r.Ok? ==> r.value.own == Rnd.Generated(generateOwn, streams(seed.value), 1, |r.value.own|).0)
    ensures r.Ok? ==> BenchRnd.MIN_ITEMS <= |r.value.own| < BenchRnd.MAX_ITEMS
    ensures r.Ok? ==> r.value.out == Data.OutItems(allowsMultipleEqualItems, le, generateOut, r.value.own)
    ensures r.Ok? && !allowsMultipleEqualItems ==> |r.value.out| >= BenchRnd.MIN_ITEMS_AFTER_REMOVING_DUPLICATES
    ensures r.Ok? && allowsMultipleEqualItems ==> |r.value.out| == |r.value.own|
  {
    var own :- BenchRnd.DataOwnForRnd(env, streams, generateOwn);
    Data.OutItemsCorrect(allowsMultipleEqualItems, le, generateOut, own);
    var out :- OutWithMinPopulation(le, generateOut, own, allowsMultipleEqualItems);
    r := Ok(Data.OwnAndOut(own, out));
  }
}
