/** Random data for the benchmarks (src/rnd.rs): bounds read from environment
    variables, seed selection, a seeded generator, and the generation of "own"
    items and alphanumeric strings.

    The environment is a map from variable names to values. The generator's
    output for a seed is a parameter `streams(seed)`, the sequence of raw
    draws; the generator object remembers how many it has used. */
module Rnd {
  import opened Wrappers
  import opened Parse

  /** Minimum number of test items (before removing duplicates). */
  const MIN_ITEMS: nat := 1000
  /** Maximum (exclusive) number of test items. */
  const MAX_ITEMS: nat := 500000
  /** Minimum length of an item, in characters. */
  const MIN_ITEM_LEN: nat := 1
  /** Maximum (exclusive) length of an item, in characters. */
  const MAX_ITEM_LEN: nat := 1000

  const MIN_ITEMS_ENV: string := "MIN_ITEMS"
  const MAX_ITEMS_ENV: string := "MAX_ITEMS"
  const MIN_ITEM_LEN_ENV: string := "MIN_ITEM_LEN"
  const MAX_ITEM_LEN_ENV: string := "MAX_ITEM_LEN"
  const RND_SEED_DEC_ENV: string := "RND_SEED_DEC"
  const RND_SEED_HEX_ENV: string := "RND_SEED_HEX"

  /** The fastrand alphanumeric alphabet: upper case, lower case, then digits. */
  const ALPHANUMERIC: string :=
    seq(26, i requires 0 <= i < 26 => ('A' as int + i) as char)
    + seq(26, i requires 0 <= i < 26 => ('a' as int + i) as char)
    + seq(10, i requires 0 <= i < 10 => ('0' as int + i) as char)

  type Env = map<string, string>

  /** `std::env::var(name)`, with a missing variable as `None`. */
  function Var(env: Env, name: string): Option<string> {
    if name in env then Some(env[name]) else None
  }

  predicate IsAlphanumeric(c: char) {
    ('A' <= c <= 'Z') || ('a' <= c <= 'z') || ('0' <= c <= '9')
  }

  predicate AllAlphanumeric(s: string) {
    forall i :: 0 <= i < |s| ==> IsAlphanumeric(s[i])
  }

  lemma AlphabetIsAlphanumeric()
    ensures |ALPHANUMERIC| == 62 && AllAlphanumeric(ALPHANUMERIC)
  {
    forall i | 0 <= i < |ALPHANUMERIC|
      ensures IsAlphanumeric(ALPHANUMERIC[i])
    {
      if i < 26 {
        assert 'A' <= ALPHANUMERIC[i] <= 'Z';
      } else if i < 52 {
        assert 'a' <= ALPHANUMERIC[i] <= 'z';
      } else {
        assert '0' <= ALPHANUMERIC[i] <= '9';
      }
    }
  }

  /** `from_env_or`: `otherwise` when the variable is absent, its decimal value when
      it parses as a `usize`, and a panic naming the variable and the value when it
      does not. */
  function FromEnvOr(name: string, value: Option<string>, otherwise: nat): (r: Result<nat>)
    ensures value.None? ==> r == Ok(otherwise)
    ensures value.Some? && r.Ok? ==> r.value < U64_LIMIT
    ensures value.Some? ==> (r.Panic? <==> ParseU64(value.value, 10).None?)
    ensures r.Panic? ==> r.reason == NotDecimal(name, value.value)
  {
    match value
    case None => Ok(otherwise)
    case Some(st) =>
      match ParseU64(st, 10)
      case Some(v) => Ok(v)
      case None => Panic(NotDecimal(name, st))
  }

  /** A bound written out in decimal reads back as itself; a value that is not a
      decimal `usize` panics. */
  lemma FromEnvOrRoundTrip(name: string, n: nat, otherwise: nat)
    requires n < U64_LIMIT
    ensures FromEnvOr(name, Some(Format(n, 10)), otherwise) == Ok(n)
    ensures FromEnvOr(name, Some("-" + Format(n, 10)), otherwise) == Panic(NotDecimal(name, "-" + Format(n, 10)))
    ensures FromEnvOr(name, Some(""), otherwise) == Panic(NotDecimal(name, ""))
  {
    ParseFormatRoundTrip(n, 10);
    ParseRejectsMinus(Format(n, 10), 10);
  }

  function MinItems(env: Env): Result<nat> {
    FromEnvOr(MIN_ITEMS_ENV, Var(env, MIN_ITEMS_ENV), MIN_ITEMS)
  }

  function MaxItems(env: Env): Result<nat> {
    FromEnvOr(MAX_ITEMS_ENV, Var(env, MAX_ITEMS_ENV), MAX_ITEMS)
  }

  function MinItemLen(env: Env): Result<nat> {
    FromEnvOr(MIN_ITEM_LEN_ENV, Var(env, MIN_ITEM_LEN_ENV), MIN_ITEM_LEN)
  }

  function MaxItemLen(env: Env): Result<nat> {
    FromEnvOr(MAX_ITEM_LEN_ENV, Var(env, MAX_ITEM_LEN_ENV), MAX_ITEM_LEN)
  }

  /** With none of the four variables set, the built-in bounds apply. */
  lemma DefaultBounds(env: Env)
    requires MIN_ITEMS_ENV !in env && MAX_ITEMS_ENV !in env
    requires MIN_ITEM_LEN_ENV !in env && MAX_ITEM_LEN_ENV !in env
    ensures MinItems(env) == Ok(1000) && MaxItems(env) == Ok(500000)
    ensures MinItemLen(env) == Ok(1) && MaxItemLen(env) == Ok(1000)
  {
  }

  /** `with_seed_dec`: a decimal `u64`, or a panic. */
  function ParseSeedDec(seed: string): (r: Result<nat>)
    ensures r.Ok? ==> r.value < U64_LIMIT
    ensures r.Panic? <==> ParseU64(seed, 10).None?
  {
    match ParseU64(seed, 10)
    case Some(v) => Ok(v)
    case None => Panic(BadSeedDec(seed))
  }

  /** `with_seed_hex`: a hexadecimal `u64`, or a panic. */
  function ParseSeedHex(seed: string): (r: Result<nat>)
    ensures r.Ok? ==> r.value < U64_LIMIT
    ensures r.Panic? <==> ParseU64(seed, 16).None?
  {
    match ParseU64(seed, 16)
    case Some(v) => Ok(v)
    case None => Panic(BadSeedHex(seed))
  }

  /** `Random::with_seed`: exactly one of `RND_SEED_DEC` and `RND_SEED_HEX` must be
      set; both panics first, then the decimal seed is tried, then the hex seed,
      and neither panics. */
  function SelectSeed(dec: Option<string>, hex: Option<string>): (r: Result<nat>)
    ensures r.Ok? ==> dec.Some? != hex.Some? && r.value < U64_LIMIT
    ensures dec.Some? && hex.Some? ==> r == Panic(BothSeeds(dec.value, hex.value))
    ensures dec.None? && hex.None? ==> r == Panic(NoSeed)
  {
    if dec.Some? && hex.Some? then Panic(BothSeeds(dec.value, hex.value))
    else if dec.Some? then ParseSeedDec(dec.value)
    else if hex.Some? then ParseSeedHex(hex.value)
    else Panic(NoSeed)
  }

  /** Every 64-bit seed can be given either way, and is read back as given. */
  lemma SelectSeedRoundTrip(seed: nat)
    requires seed < U64_LIMIT
    ensures SelectSeed(Some(Format(seed, 10)), None) == Ok(seed)
    ensures SelectSeed(None, Some(Format(seed, 16))) == Ok(seed)
    ensures SelectSeed(Some(Format(seed, 10)), Some(Format(seed, 16))).Panic?
  {
    ParseFormatRoundTrip(seed, 10);
    ParseFormatRoundTrip(seed, 16);
  }

  /** An item generator (a closure `Fn(&mut Rnd) -> OwnType`): from the raw draws
      and the position of the next unused one, an item and the next unused
      position after it. */
  type ItemGenerator<Own> = (nat -> nat, nat) -> (Own, nat)

  /** What `n` calls of `generate` yield, starting at draw `pos`: the items in
      order and the position after the last. */
  function Generated<Own>(generate: ItemGenerator<Own>, stream: nat -> nat, pos: nat, n: nat): (seq<Own>, nat)
    decreases n
  {
    if n == 0 then ([], pos)
    else
      var (item, next) := generate(stream, pos);
      var (rest, last) := Generated(generate, stream, next, n - 1);
      ([item] + rest, last)
  }

  lemma {:induction false} GeneratedLength<Own>(generate: ItemGenerator<Own>, stream: nat -> nat, pos: nat, n: nat)
    ensures |Generated(generate, stream, pos, n).0| == n
    decreases n
  {
    if n > 0 {
      GeneratedLength(generate, stream, generate(stream, pos).1, n - 1);
    }
  }

  /** The `fastrand::Rng` generator, seeded. */
  class Rng {
    const seed: nat
    const stream: nat -> nat
    var drawn: nat

    /** `Rng::with_seed`. */
    constructor WithSeed(seed: nat, streams: nat -> nat -> nat)
      requires seed < U64_LIMIT
      ensures this.seed == seed && stream == streams(seed) && drawn == 0
    {
      this.seed := seed;
      stream := streams(seed);
      drawn := 0;
    }

    /** `usize(lo..hi)`: a value in the half-open range, or a panic when the range
        is empty. (The reduction of a raw draw into the range is a stand-in.) */
    method Usize(lo: nat, hi: nat) returns (r: Result<nat>)
      modifies this
      ensures r.Ok? <==> lo < hi
      ensures r.Ok? ==> lo <= r.value < hi
      ensures r.Ok? ==> r.value == lo + stream(old(drawn)) % (hi - lo) && drawn == old(drawn) + 1
      ensures r.Panic? ==> r.reason == EmptyRange(lo, hi) && drawn == old(drawn)
    {
      if lo >= hi {
        return Panic(EmptyRange(lo, hi));
      }
      r := Ok(lo + stream(drawn) % (hi - lo));
      drawn := drawn + 1;
    }

    /** `alphanumeric`: one draw picks a character of the alphabet. */
    method Alphanumeric() returns (c: char)
      modifies this
      ensures IsAlphanumeric(c)
      ensures c == ALPHANUMERIC[stream(old(drawn)) % |ALPHANUMERIC|] && drawn == old(drawn) + 1
    {
      AlphabetIsAlphanumeric();
      c := ALPHANUMERIC[stream(drawn) % |ALPHANUMERIC|];
      drawn := drawn + 1;
    }

    /** `string_for_range`: draws a character count in `lo..hi`, then pushes that
        many alphanumeric characters. */
    method StringForRange(lo: nat, hi: nat) returns (r: Result<string>)
      modifies this
      ensures r.Ok? <==> lo < hi
      ensures r.Panic? ==> r.reason == EmptyRange(lo, hi)
      ensures r.Ok? ==> lo <= |r.value| < hi && AllAlphanumeric(r.value)
      ensures r.Ok? ==> drawn == old(drawn) + 1 + |r.value|
    {
      var numChars :- Usize(lo, hi);
      var result := "";
      for i := 0 to numChars
        invariant |result| == i && AllAlphanumeric(result)
        invariant drawn == old(drawn) + 1 + i
      {
        var c := Alphanumeric();
        result := result + [c];
      }
      r := Ok(result);
    }

    /** `string`: a string whose character count lies within the item-length
        bounds. */
    method String(env: Env) returns (r: Result<string>)
      modifies this
      ensures r.Ok? ==> MinItemLen(env).Ok? && MaxItemLen(env).Ok?
      ensures r.Ok? ==> MinItemLen(env).value <= |r.value| < MaxItemLen(env).value
      ensures r.Ok? ==> AllAlphanumeric(r.value)
      ensures MinItemLen(env).Ok? && MaxItemLen(env).Ok? ==>
        (r.Ok? <==> MinItemLen(env).value < MaxItemLen(env).value)
    {
      var lo :- MinItemLen(env);
      var hi :- MaxItemLen(env);
      r := StringForRange(lo, hi);
    }

    /** The generation loop shared by `data_own` and its copies: `n` items from
        `generate`, pushed in order. */
    method GenerateItems<Own>(n: nat, generate: ItemGenerator<Own>) returns (own: seq<Own>)
      modifies this
      ensures |own| == n
      ensures (own, drawn) == Generated(generate, stream, old(drawn), n)
    {
      GeneratedLength(generate, stream, drawn, n);
      own := [];
      assert own + Generated(generate, stream, drawn, n).0 == Generated(generate, stream, drawn, n).0;
      var i := 0;
      while i < n
        invariant 0 <= i <= n
        invariant Generated(generate, stream, old(drawn), n)
          == (own + Generated(generate, stream, drawn, n - i).0, Generated(generate, stream, drawn, n - i).1)
      {
        var (item, next) := generate(stream, drawn);
        assert own + Generated(generate, stream, drawn, n - i).0
          == (own + [item]) + Generated(generate, stream, next, n - i - 1).0;
        own := own + [item];
        drawn := next;
        i := i + 1;
      }
      assert own + Generated(generate, stream, drawn, 0).0 == own;
    }
  }

  /** `data_own`: draws the item count from `min_items()..max_items()`, then
      generates that many items. */
  method DataOwn<Own>(rnd: Rng, env: Env, generate: ItemGenerator<Own>) returns (r: Result<seq<Own>>)
    modifies rnd
    ensures r.Ok? ==> MinItems(env).Ok? && MaxItems(env).Ok?
    ensures r.Ok? ==> MinItems(env).value <= |r.value| < MaxItems(env).value
    ensures r.Ok? ==> r.value == Generated(generate, rnd.stream, old(rnd.drawn) + 1, |r.value|).0
    ensures MinItems(env).Ok? && MaxItems(env).Ok? ==>
      (r.Ok? <==> MinItems(env).value < MaxItems(env).value)
  {
    var lo :- MinItems(env);
    var hi :- MaxItems(env);
    var numItems :- rnd.Usize(lo, hi);
    var own := rnd.GenerateItems(numItems, generate);
    r := Ok(own);
  }

  /** `Random::with_seed` for `fastrand::Rng`: the seed from the environment, then
      a fresh generator. */
  method WithSeedFromEnv(env: Env, streams: nat -> nat -> nat) returns (r: Result<Rng>)
    ensures r.Ok? <==> SelectSeed(Var(env, RND_SEED_DEC_ENV), Var(env, RND_SEED_HEX_ENV)).Ok?
    ensures r.Panic? ==> r == SelectSeed(Var(env, RND_SEED_DEC_ENV), Var(env, RND_SEED_HEX_ENV)).PropagateFailure()
    ensures r.Ok? ==> r.value.seed == SelectSeed(Var(env, RND_SEED_DEC_ENV), Var(env, RND_SEED_HEX_ENV)).value
    ensures r.Ok? ==> r.value.stream == streams(r.value.seed) && r.value.drawn == 0
    ensures r.Ok? ==> fresh(r.value)
  {
    var seed :- SelectSeed(Var(env, RND_SEED_DEC_ENV), Var(env, RND_SEED_HEX_ENV));
    var rnd := new Rng.WithSeed(seed, streams);
    r := Ok(rnd);
  }
}
