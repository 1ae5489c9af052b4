/** The benchmarks' own copy of random data generation (benches/lib_benches/rnd.rs):
    larger item counts, the same seed selection, and a `string` that draws its
    length from the item-count bounds. */
module BenchRnd {
  import opened Wrappers
  import Rnd

  /** Minimum number of distinct "out" items a benchmark needs. */
  const MIN_ITEMS_AFTER_REMOVING_DUPLICATES: nat := 4
  /** Minimum number of test items. */
  const MIN_ITEMS: nat := 500000
  /** Maximum (exclusive) number of test items. */
  const MAX_ITEMS: nat := 5000000
  /** Minimum length of an item, in characters. */
  const MIN_ITEM_LEN: nat := 1
  /** Maximum (exclusive) length of an item, in characters. */
  const MAX_ITEM_LEN: nat := 1000

  /** `string` as written: the character count is drawn from
      `MIN_ITEMS..MAX_ITEMS`, so every string is longer than any item may be. */
  method StringAsWritten(rnd: Rnd.Rng) returns (r: Result<string>)
    modifies rnd
    ensures r.Ok? && Rnd.AllAlphanumeric(r.value)
    ensures MIN_ITEMS <= |r.value| < MAX_ITEMS
    ensures !(MIN_ITEM_LEN <= |r.value| < MAX_ITEM_LEN)
  {
    r := rnd.StringForRange(MIN_ITEMS, MAX_ITEMS);
  }

  /** `string` with the item-length bounds the constants are declared for. */
  method String(rnd: Rnd.Rng) returns (r: Result<string>)
    modifies rnd
    ensures r.Ok? && Rnd.AllAlphanumeric(r.value)
    ensures MIN_ITEM_LEN <= |r.value| < MAX_ITEM_LEN
  {
    r := rnd.StringForRange(MIN_ITEM_LEN, MAX_ITEM_LEN);
  }

  /** `data_own_for_rnd` (and `data_own`, which forwards to it): exactly one seed
      variable, a generator seeded with it, an item count drawn from
      `MIN_ITEMS..MAX_ITEMS`, then that many generated items. */
  method DataOwnForRnd<Own>(env: Rnd.Env, streams: nat -> nat -> nat, generate: Rnd.ItemGenerator<Own>)
    returns (r: Result<seq<Own>>)
    ensures var seed := Rnd.SelectSeed(Rnd.Var(env, Rnd.RND_SEED_DEC_ENV), Rnd.Var(env, Rnd.RND_SEED_HEX_ENV));
      && (r.Ok? <==> seed.Ok?)
      && (r.Panic? ==> r.reason == seed.reason)
      && (r.Ok? ==> MIN_ITEMS <= |r.value| < MAX_ITEMS)
      && (r.Ok? ==> r.value == Rnd.Generated(generate, streams(seed.value), 1, |r.value|).0)
  {
    var seed :- Rnd.SelectSeed(Rnd.Var(env, Rnd.RND_SEED_DEC_ENV), Rnd.Var(env, Rnd.RND_SEED_HEX_ENV));
    var rnd := new Rnd.Rng.WithSeed(seed, streams);
    var numItems := rnd.Usize(MIN_ITEMS, MAX_ITEMS);
    var own := rnd.GenerateItems(numItems.value, generate);
    r := Ok(own);
  }
}
