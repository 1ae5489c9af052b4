/** Failure-carrying results. A Rust `panic!`, `unreachable!`, `expect` or failed
    `unwrap` ends the benchmark process; in the model it is a `Panic` value whose
    reason carries what the diagnostic names. */
module Wrappers {

  datatype Option<+T> = None | Some(value: T)

  /** Why a code path aborts the run. */
  datatype PanicReason =
    | Unreachable                                    // `unreachable!()`
    | ExplicitPanic                                  // a bare `panic!()`
    | EmptyRange(low: nat, high: nat)                // the random generator asked for an empty range
    | NotDecimal(name: string, value: string)        // an environment bound that is not a decimal integer
    | BadSeedDec(seed: string)                       // `RND_SEED_DEC` is not a decimal u64
    | BadSeedHex(seed: string)                       // `RND_SEED_HEX` is not a hexadecimal u64
    | BothSeeds(dec: string, hex: string)            // both seed variables are set
    | NoSeed                                         // neither seed variable is set
    | TooFewUnduplicated(own: nat, generated: nat, left: nat)  // own count, pre- and post-dedup counts
    | NotFound                                       // `unwrap` of a failed binary search

  datatype Result<+T> = Ok(value: T) | Panic(reason: PanicReason) {
    predicate IsFailure() {
      Panic?
    }

    function PropagateFailure<U>(): Result<U>
      requires Panic?
    {
      Panic(reason)
    }

    function Extract(): T
      requires Ok?
    {
      value
    }
  }
}
