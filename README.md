# cami-benches: the collection backends and dataset preparation, in Dafny

This project models the reusable layer under the cami-benches benchmarks. The
benchmarks compare sorting and binary search under two orders: the items' own
(lexicographic) `Ord`, and the alternative order of the `cami` crate.

- **Collections.** The `OutCollection` contract has three backends: a Vec, a
  BTreeSet, and a Vec reached only through a slice. They are modelled as one
  class, `Outish.OutCollection`, tagged with its backend. Its `items` field holds
  the items in iteration order. The methods update it in place, and the contracts
  state the new contents:
  - `extend` appends for Vec and Slice, and is a set union for BTreeSet;
  - `sort` leaves a sorted permutation;
  - `sort_unstable` panics where the backend has none;
  - `binary_search` is membership once the items are sorted.

  The older two-backend copy is in `LegacyBenches`.
- **Collect and sort.** `lexi_*` and `cami_*` clone a slice into a fresh
  collection, then sort it (`Col`, with copies in `BenchShared`). `Cami<T>` is a
  wrapper, and its order is a parameter `camiLe` that is a total order
  (`CamiItems`).
- **Dataset preparation.** Own items are generated, and one out item is made per
  own item. When the backend keeps one item per value, the out items are
  deduplicated through a BTreeSet. The benchmark copies then enforce a minimum
  population. This is covered by:
  - `Data`, `BenchData` and `BenchShared` for `OwnAndOut` and `DataOwnAndOut`;
  - `SharedIai` and `BenchSharedIai` for the two `data_out` functions and the
    instruction-count benchmark set-up.
- **Random data and configuration.** Bounds are read from environment variables.
  One of two seed variables is required. The generator is seeded, and it
  generates items and alphanumeric strings (`Rnd`, `BenchRnd`, and `Parse` for
  `u64::from_str_radix`).

Conventions:
- **Order.** An item order is a function `le` ("less than or equal") with
  `Order.TotalOrder(le)`. Because a total order is antisymmetric, stable and
  unstable sorting give the same sequence (`Order.SortedPermutationUnique`).
- **Panics.** A panic is a `Wrappers.Result` value `Panic(reason)`, and the
  reason records what the message reports.
- **Environment.** The environment is a map from names to values.
- **Random generator.** The generator is an object with a fixed sequence of raw
  draws `stream` (a parameter chosen per seed) and a count `drawn` of the draws
  used so far.
- **Item generation.** An item-generating closure is a function from the draws
  and a position to an item and the next position.

## Model

| member | source | states |
|---|---|---|
| Outish.OutCollection.New | benches/lib_benches/outish.rs:98-100 | a new collection of any backend is empty and satisfies its invariant (a BTreeSet is ascending and duplicate-free) |
| Outish.OutCollection.WithCapacity | benches/lib_benches/outish.rs:101-103 | same as `new`: the capacity changes no contents |
| Outish.OutCollection.Clone | benches/lib_benches/outish.rs:70-72 | the clone is a fresh object with the same backend, order and items |
| Outish.OutCollection.Clear | benches/lib_benches/outish.rs:104-106 | afterwards the collection is empty, so `len() == 0`, on every backend |
| Outish.OutCollection.Extend | benches/lib_benches/outish.rs:80-82 | Vec and Slice: new items = old ++ xs, and the length grows by `|xs|`; BTreeSet: the values become old ∪ xs, still ascending; on every backend the value set is the union |
| Outish.OutCollection.ExtendOne | benches/lib_benches/outish.rs:83-85 | `extend` with one item: the value set gains exactly that item |
| Outish.OutCollection.Len | benches/lib_benches/outish.rs:108-110 | the number of items; for a BTreeSet, the number of distinct values; zero exactly when the collection is empty |
| Outish.OutCollection.Iter | benches/lib_benches/outish.rs:111-116 | yields `len()` items with the collection's values; on a BTreeSet, in strictly ascending order |
| Outish.OutCollection.IsSorted | benches/lib_benches/outish.rs:117-119 | true exactly when the items are sorted; always true for a BTreeSet |
| Outish.OutCollection.Sort | benches/lib_benches/outish.rs:120-122 | the items become a sorted permutation of the old items; on a BTreeSet they do not change |
| Outish.OutCollection.SortUnstable | benches/lib_benches/outish.rs:123-125 | succeeds exactly on Vec, where the items become a sorted permutation; BTreeSet and Slice reach `unreachable!()` and the items stay as they were |
| Outish.OutCollection.BinarySearch | benches/lib_benches/outish.rs:126-128 | reports only items that are present; on sorted items (so always on a BTreeSet) it is true exactly when `x` is present |
| Outish.ExtendContentsCorrect | benches/lib_benches/outish.rs:148-150 | BTreeSet `extend` keeps the set ascending, gives the union of the value sets, and its length is the distinct count; Vec and Slice `extend` gives the multiset sum |
| Outish.SortContentsCorrect | benches/lib_benches/outish.rs:189 | `sort` always yields a sorted permutation; a BTreeSet, or items that are already sorted, do not change |
| Outish.FlagsDescribeBehaviour | benches/lib_benches/outish.rs:26-32 | with the flags read as behaviour: equal items survive `extend` exactly when `ALLOWS_MULTIPLE_EQUAL_ITEMS`; `sort_unstable` returns exactly when `HAS_SORT_UNSTABLE`; `sort` exists on every backend and turns the items of a collection filled by `extend` into a sorted permutation |
| Outish.SliceFlagsContradictBehaviour | benches/lib_benches/outish.rs:247-279 | as declared, Slice advertises `HAS_SORT_UNSTABLE` and denies `HAS_SORT`, yet `sort_unstable` panics on every input and `sort` turns every input into a sorted permutation |
| Outish.SortThenSearch | benches/lib_benches/outish.rs:117-128 | after `extend` then `sort`, every item that was added is present and the items are sorted, so `binary_search` finds it |
| Order.SortSeqCorrect | benches/lib_benches/outish.rs:120-122 | the sort is sorted and a permutation of its input |
| Order.SortedPermutationUnique | benches/lib_benches/outish.rs:123-125 | two sorted permutations of the same items are equal, so `sort` and `sort_unstable` agree under a total order |
| Order.AscInsertAllCorrect | benches/lib_benches/outish.rs:148-150 | inserting items into an ascending duplicate-free sequence keeps it so, and adds exactly the new values |
| Order.AscInsertAllOrderIrrelevant | benches/lib_benches/outish.rs:144-157 | the set built by `extend` does not depend on the order the items arrive in |
| Order.BinarySearch | benches/lib_benches/outish.rs:126-128 | `binary_search(x).is_ok()`: true only if `x` is present, and always true for a present `x` in a sorted sequence |
| Order.IsSortedBy | benches/lib_benches/outish.rs:270-273 | `is_sorted` over the iterator: true exactly when every item is at most the next |
| CamiItems.CamiOrderTotal | src/col.rs:83-92 | the order on `Cami` wrappers, which compares the wrapped values under the Cami order, is a total order |
| CamiItems.WrapAll | src/col.rs:92 | `map(Cami::new)` keeps the length, and item `i` wraps item `i` |
| CamiItems.WrapAllKeepsDistinct | src/shared_iai.rs:102-111 | wrapping is one to one: duplicate-free exactly when the original is, and `Cami(x)` is present exactly when `x` is |
| Col.CollectedCorrect | src/col.rs:44-51 | collecting then sorting gives sorted items with exactly the values of `out`; for Vec and Slice, the sorted permutation of `out`; for BTreeSet, ascending with one item per value |
| Col.LexiIndicated | src/col.rs:36-52 | a fresh valid collection holding the sorted clones of `out` (one per value for BTreeSet); it panics with `unreachable!()` exactly when an unstable sort is requested on a backend without one |
| Col.LexiStable | src/col.rs:7-20 | never panics; the result is sorted and has the values of `out` |
| Col.LexiUnstable | src/col.rs:21-34 | panics exactly on BTreeSet and Slice; on Vec the result is the sorted permutation of `out` |
| Col.CamiIndicated | src/col.rs:83-99 | the collection holds `Cami` wrappers of the clones, sorted under the Cami order; `Cami(x)` is present exactly when `x` is in `out`; the same panic condition as `lexi_indicated` |
| Col.CamiStable | src/col.rs:54-67 | never panics; the result is sorted under the Cami order |
| Col.CamiUnstable | src/col.rs:68-81 | panics exactly on BTreeSet and Slice; on Vec the result is the sorted permutation of the wrapped items |
| Parse.ParseU64 | src/rnd.rs:28 | a successful parse of an unsigned 64-bit integer is below 2^64 and comes from a non-empty string |
| Parse.ParseFormatRoundTrip | src/rnd.rs:122-127 | every 64-bit value written in decimal or in hexadecimal, with or without a leading `+`, parses back to itself |
| Parse.ParseRejects | src/rnd.rs:28-32 | values of 2^64 or more, the empty string, and a lone sign are rejected |
| Parse.ParseRejectsMinus | src/rnd.rs:122-123 | a leading `-` is rejected by an unsigned parse |
| Rnd.FromEnvOr | src/rnd.rs:25-35 | an absent variable gives `otherwise`; a present one gives its decimal value, and panics, naming the variable and the value, exactly when that value does not parse |
| Rnd.FromEnvOrRoundTrip | src/rnd.rs:25-35 | a bound written in decimal reads back as itself; a negative or empty value panics |
| Rnd.DefaultBounds | src/rnd.rs:8-52 | with no bound variables set, the bounds are 1000..500000 items and 1..1000 characters |
| Rnd.AlphabetIsAlphanumeric | src/rnd.rs:113 | the 62-character alphabet that `alphanumeric` draws from holds only ASCII letters and digits |
| Rnd.ParseSeedDec | src/rnd.rs:122-124 | a decimal `u64` below 2^64, or a panic exactly when the string does not parse |
| Rnd.ParseSeedHex | src/rnd.rs:125-127 | a hexadecimal `u64` below 2^64, or a panic exactly when the string does not parse |
| Rnd.SelectSeed | src/rnd.rs:82-95 | succeeds only when exactly one seed variable is set; both set panics with both values; neither set panics |
| Rnd.SelectSeedRoundTrip | src/rnd.rs:82-95 | every 64-bit seed is read back as given, through either variable alone; setting both panics |
| Rnd.GeneratedLength | src/rnd.rs:137-140 | `n` generator calls yield exactly `n` items |
| Rnd.Rng.WithSeed | src/rnd.rs:122-127 | the new generator uses the draw sequence of its seed and has used no draws |
| Rnd.Rng.Usize | src/rnd.rs:103-105 | a value in `lo..hi` that uses one draw; an empty range panics and uses none |
| Rnd.Rng.Alphanumeric | src/rnd.rs:113 | one draw gives a character of the alphanumeric alphabet |
| Rnd.Rng.StringForRange | src/rnd.rs:109-117 | exactly `num_chars` alphanumeric characters, with `num_chars` in the range; an empty range panics |
| Rnd.Rng.String | src/rnd.rs:106-108 | the character count lies within `min_item_len()..max_item_len()`; it panics only on a bad bound or an empty range |
| Rnd.Rng.GenerateItems | src/rnd.rs:135-141 | exactly `n` items, which are the items the generator yields in order from the current draw |
| Rnd.DataOwn | src/rnd.rs:130-142 | the item count lies in `min_items()..max_items()`, and the items are the generated ones; it succeeds exactly when the bounds parse and the range is non-empty |
| Rnd.WithSeedFromEnv | src/rnd.rs:82-95 | the generator is seeded with the selected seed, and panics exactly when seed selection panics |
| BenchRnd.StringAsWritten | benches/lib_benches/rnd.rs:62-64 | as written, the string's length lies in `MIN_ITEMS..MAX_ITEMS`, so it is never within the item-length bounds |
| BenchRnd.String | benches/lib_benches/rnd.rs:62-73 | corrected: an alphanumeric string whose length lies in `MIN_ITEM_LEN..MAX_ITEM_LEN` |
| BenchRnd.DataOwnForRnd | benches/lib_benches/rnd.rs:79-103 | panics exactly as seed selection does (both variables, neither, or a bad value); otherwise 500000..5000000 items, generated from the seed's draws |
| Data.MapItems | src/data.rs:62-63 | one out item per own item, in order: `out[i] == generate_out_item(own[i])` |
| Data.DedupThroughSet | src/data.rs:68-70 | draining into a BTreeSet and back gives the ascending duplicate-free value set, no longer than the input; as long as the input when the input is duplicate-free, and equal to it when the input is already ascending |
| Data.OutItemsCorrect | src/data.rs:60-71 | with equal items allowed, `out` is the item-wise map of `own`; otherwise `out` is ascending with the same values, its length is the distinct count, and it is never longer than `own` |
| Data.OutFor | src/data.rs:62-71 | the out items are the map of `own`, deduplicated when equal items are not allowed |
| Data.NewFor | src/data.rs:54-74 | own items in the configured count range; out items as above, with no minimum population check; it succeeds exactly when the bounds parse and the range is non-empty |
| Data.New | src/data.rs:41-52 | panics with seed selection's reason when that panics; otherwise the own items are the items generated from the selected seed's draws, starting after the count draw, so a fixed seed fixes them; with the seed and both bounds readable, it succeeds exactly when the count range is non-empty; out items as in `new_for` |
| BenchData.OutWithMinPopulation | benches/lib_benches/data.rs:26-39 | succeeds exactly when equal items are allowed or at least 4 distinct out values remain; the panic reports the own count, the count before deduplication and the count after |
| BenchData.New | benches/lib_benches/data.rs:19-42 | panics with seed selection's reason when that panics; otherwise 500000..5000000 own items generated from the selected seed's draws, so a fixed seed fixes them; the out items are the map of `own`, deduplicated when required, and then at least 4 remain; it never panics on a valid seed when equal items are allowed |
| BenchShared.DataOwnForRnd | benches/lib_benches/shared.rs:63-75 | exactly `num_items` generated items, with `num_items` in `40..10000` |
| BenchShared.DataOwnAndOutNew | benches/lib_benches/shared.rs:100-123 | own items in `40..10000`; out items as in `OwnAndOut`; it never panics when equal items are allowed, and a panic means fewer than 4 values were left |
| BenchShared.LexiIndicated | benches/lib_benches/shared.rs:155-171 | the same collect-then-sort contract as `Col.LexiIndicated` |
| BenchShared.LexiStable | benches/lib_benches/shared.rs:126-139 | never panics; the result is the collected and sorted `out` |
| BenchShared.LexiUnstable | benches/lib_benches/shared.rs:140-153 | panics exactly on the backends without an unstable sort |
| BenchShared.CamiIndicated | benches/lib_benches/shared.rs:202-218 | the same wrap-collect-then-sort contract as `Col.CamiIndicated` |
| BenchShared.CamiStable | benches/lib_benches/shared.rs:173-186 | never panics; the result is the collected and sorted wrapped `out` |
| BenchShared.CamiUnstable | benches/lib_benches/shared.rs:187-200 | panics exactly on the backends without an unstable sort |
| SharedIai.CollectingOutItemsKeepsThem | src/shared_iai.rs:74-92 | extending an empty collection with the out items prepared for its backend gives back exactly those items |
| SharedIai.BuildDataOut | src/shared_iai.rs:64-144 | `unsorted_vec_classic` is the (deduplicated) map of `own`; `unsorted_col_classic` holds exactly those items in order; each sorted field is a sorted permutation in a separate object, so the unsorted one keeps its items; `unsorted_vec_cami[i]` wraps item `i`; the Cami collection has the same values, and the same length when no extra deduplication happens |
| BenchSharedIai.DedupOwnItems | benches/lib_benches/shared_iai.rs:175-180 | own items are unchanged when equal items are allowed; otherwise they become ascending and duplicate-free with the same values |
| BenchSharedIai.BuildUnsortedCollection | benches/lib_benches/shared_iai.rs:256-260 | the collection has one mapped item per own item, in order, for Vec and Slice; for BTreeSet, the value set of the mapped items |
| BenchSharedIai.DataOutParts | benches/lib_benches/shared_iai.rs:203-226 | the sorted collection is a sorted permutation with the unsorted collection's length, in a separate object; `unsorted_vec_cami` wraps each item in order |
| BenchSharedIai.DataOut | benches/lib_benches/shared_iai.rs:227-239 | never returns a value: building the struct evaluates `panic!()` |
| BenchSharedIai.BenchVecSortBinSearch | benches/lib_benches/shared_iai.rs:87-123 | exactly `num_items` generated own items, with `num_items` in `4..10`; deduplicated when required; the unsorted collection holds their out items |
| LegacyBenches.LegacyFlagsDescribeBehaviour | benches/shared/lib_benches.rs:72-75 | this copy's two flags match the behaviour of its Vec and BTreeSet backends |
| LegacyBenches.SortThenSearchAll | benches/shared/lib_benches.rs:166-177 | after `extend` and `sort`, `binary_search` finds every item that was added, on Vec and on BTreeSet |
| LegacyBenches.BTreeSetOperations | benches/shared/lib_benches.rs:236-246 | BTreeSet: `is_sorted` is true, `sort_unstable` is unreachable, and `binary_search` is membership |
| LegacyBenches.CamiSortAndSearch | benches/shared/lib_benches.rs:589-616 | the sorted clone is the sorted permutation under the Cami order, and every `binary_search(item).unwrap()` succeeds (the benchmark never reaches this code, see `BenchVecSortBinSearch`) |
| LegacyBenches.BenchVecSortBinSearch | benches/shared/lib_benches.rs:328-504 | exactly `num_items` generated own items, with `num_items` in `4..10`, deduplicated when the backend forbids equal items; the unsorted collection stays empty; the own items are never empty, so the `for_each` over the `loop {}` helper `generate_out_item_forward` diverges |

## Left out

- Benchmark harness registration is not modelled: Criterion and iai-callgrind groups, `bench_with_input`, `criterion_config`, `library_benchmark_group!` and `main`. It is harness wiring and has no behaviour of its own.
- `purge_cache` is not modelled. It is a side-effecting cache flush. Its loop runs over the one-element array `[0..MAX_CACHE_SIZE]`, so it pushes a single byte.
- `hint::black_box` is the identity.
- The internals of `fastrand` are not modelled:
  - The generator's raw draws are a parameter for each seed.
  - The reduction of a draw into a range (`lo + draw % (hi - lo)`) and the choice of an alphanumeric character are stand-ins.
  - Only the bounds and the count of draws are promised.
  - `u8` is not modelled.
- Rnd.Rng.Usize: assumes a 64-bit `usize`, so every value fits.
- Reading the process environment is a map passed in.
- The `IdState` argument of the item generators and the id strings are not modelled. An item generator's only state is its position in the draws.
- The `Cami` comparison itself lives in the external `cami` crate. It is a total-order parameter.
- The type-level indicator machinery (`OutIndicator*`, `OutCollectionIndicator`, `OutRetriever`, `OutCollRetriever*`) is compile-time type selection. Slice and string views are the identity on the owned item.
- `.leak()` and `OnceCell` storage are lifetime plumbing and are left out.
- `with_capacity` is a hint and does not change the contents.
- LegacyBenches.BenchVecSortBinSearch: the Rust never returns. Lines 487-489 and 502-504 of benches/shared/lib_benches.rs call helpers whose bodies are `loop {}` (lines 485 and 500), once per own item, and there is always at least one own item. The model stops there and reports `diverges`. Non-termination is a flag, not an infinite loop. The Cami sort and search that follows is modelled on its own, by LegacyBenches.CamiSortAndSearch, and the benchmark never reaches it. The other lifetime-experiment closures in lines 506-520 have no effect.
- The disabled `if false` lexicographic branches are left out (benches/shared/lib_benches.rs:527-559, benches/lib_benches/shared_iai.rs:267-363). Their sort-then-search is modelled once, by LegacyBenches.SortThenSearchAll.
- The legacy `into_iter` is not used by any modelled operation.
- A panic inside a caller-supplied generator closure is not modelled.
- The following files are not part of this model:
  - src/testish.rs, a coroutine demo;
  - tests/01.rs, which does not compile;
  - src/lib.rs and benches/lib_benches.rs, which are module wiring.
- Lines 46-53 and 66 of benches/lib_benches/shared.rs do not type-check: the seed types mismatch and `Rnd::new` does not exist.
  - `with_seed_dec` and `with_seed_hex` there are not modelled.
  - BenchShared.DataOwnForRnd takes the generator as a parameter instead of constructing it.
- src/outish.rs and `OutCollRetrieverCami` are not part of this model. The Cami collections use the same backends as the classic ones.
- SharedIai.BuildDataOut: the length of the Cami collection is not stated for a BTreeSet Cami collection over non-BTreeSet classic items. That collection deduplicates again, so its length is then only the distinct count.
- The Slice backend's flags at benches/lib_benches/outish.rs:247-249 contradict its `sort` and `sort_unstable` bodies at lines 274-279. The model follows the bodies (see Findings).
- `OwnAndOut::new_for` in src/data.rs computes `len_including_duplicates` and never uses it. So it has no minimum-population check, and Data.NewFor has none either. Only the benchmarks' copies (BenchData, BenchShared) check it.

## Findings

| source | as written | input that shows it | evidently intended | confidence | as-written member | corrected member |
|---|---|---|---|---|---|---|
| benches/lib_benches/outish.rs:247-249 | the Slice backend declares `HAS_SORT = false` and `HAS_SORT_UNSTABLE = true` | any Slice collection: `sort` sorts (lines 274-276) and `sort_unstable` reaches `unreachable!()` (lines 277-279) | flags that say what the backend does: `HAS_SORT = true`, `HAS_SORT_UNSTABLE = false`. (Swapping the two bodies instead, since `no_std` slices offer only `sort_unstable`, would also reconcile them.) | medium, not executed | Outish.SliceFlagsContradictBehaviour | Outish.FlagsDescribeBehaviour |
| benches/lib_benches/rnd.rs:62-64 | `string()` draws its character count from `MIN_ITEMS..MAX_ITEMS` | any call: the string has at least 500000 characters, while `MAX_ITEM_LEN` is 1000 | the count drawn from `MIN_ITEM_LEN..MAX_ITEM_LEN`, as src/rnd.rs:106-108 does | medium, not executed | BenchRnd.StringAsWritten | BenchRnd.String |
