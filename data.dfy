/** Dataset preparation (src/data.rs): generate "own" items, map each to an "out"
    item, and, for collections that keep one item per value, remove duplicates by
    draining the out items into a `BTreeSet` and back. */
module Data {
  import opened Wrappers
  import opened Order
  import opened Outish
  import Rnd

  /** The stored pair: the owned items and the (unsorted) out items built from them. */
  datatype OwnAndOut<Own, Out> = OwnAndOut(own: seq<Own>, out: seq<Out>)

  /** `iter().map(f)` collected: one result per item, in order. */
  function MapItems<A, B>(f: A -> B, s: seq<A>): (r: seq<B>)
    ensures |r| == |s|
    ensures forall i :: 0 <= i < |s| ==> r[i] == f(s[i])
    decreases |s|
  {
    if |s| == 0 then [] else [f(s[0])] + MapItems(f, s[1..])
  }

  /** `set.extend(v.drain(..)); v.extend(set.into_iter())`: the values of `s`, one
      item each, ascending. */
  method DedupThroughSet<T(!new)>(le: (T, T) -> bool, s: seq<T>) returns (deduped: seq<T>)
    requires TotalOrder(le)
    ensures deduped == AscInsertAll(le, [], s)
    ensures Ascending(le, deduped) && Elems(deduped) == Elems(s)
    ensures |deduped| <= |s|
    ensures Distinct(s) ==> |deduped| == |s|
    ensures Ascending(le, s) ==> deduped == s
  {
    var btree := new OutCollection.New(BTreeSet, le);
    btree.Extend(s);
    deduped := btree.Iter();
    var empty: seq<T> := [];
    assert Elems(empty) == {};
    ElemsCard(s);
    if Distinct(s) {
      DistinctCard(s);
    }
    if Ascending(le, s) {
      AscInsertAllOfAscending(le, s);
    }
  }

  /** The out items `new_for` stores: the mapped own items, deduplicated when the
      collection does not allow equal items. */
  function OutItems<Own, Out>(allowsMultipleEqualItems: bool, le: (Out, Out) -> bool, generateOut: Own -> Out, own: seq<Own>): seq<Out> {
    if allowsMultipleEqualItems then MapItems(generateOut, own)
    else AscInsertAll(le, [], MapItems(generateOut, own))
  }

  /** With equal items allowed, out item `i` is the image of own item `i`;
      otherwise the out items are ascending, duplicate-free, with the same values
      as the images, and no more numerous. */
  lemma OutItemsCorrect<Own, Out(!new)>(allowsMultipleEqualItems: bool, le: (Out, Out) -> bool, generateOut: Own -> Out, own: seq<Own>)
    requires TotalOrder(le)
    ensures var out := OutItems(allowsMultipleEqualItems, le, generateOut, own);
      && (allowsMultipleEqualItems ==> |out| == |own| && forall i :: 0 <= i < |own| ==> out[i] == generateOut(own[i]))
      && (!allowsMultipleEqualItems ==> Ascending(le, out) && Elems(out) == Elems(MapItems(generateOut, own)))
      && (!allowsMultipleEqualItems ==> |out| == |Elems(MapItems(generateOut, own))|)
      && |out| <= |own|
      && |Elems(out)| == |Elems(MapItems(generateOut, own))|
  {
    var mapped := MapItems(generateOut, own);
    var empty: seq<Out> := [];
    assert Elems(empty) == {};
    if !allowsMultipleEqualItems {
      AscInsertAllCorrect(le, empty, mapped);
      DistinctCard(AscInsertAll(le, empty, mapped));
      ElemsCard(mapped);
    }
  }

  /** The part of `new_for` after the own items exist: map, then deduplicate when
      equal items are not allowed. */
  method OutFor<Own, Out(!new)>(le: (Out, Out) -> bool, generateOut: Own -> Out, own: seq<Own>, allowsMultipleEqualItems: bool)
    returns (out: seq<Out>)
    requires TotalOrder(le)
    ensures out == OutItems(allowsMultipleEqualItems, le, generateOut, own)
    ensures allowsMultipleEqualItems ==> |out| == |own|
    ensures !allowsMultipleEqualItems ==> Ascending(le, out) && Elems(out) == Elems(MapItems(generateOut, own))
  {
    out := MapItems(generateOut, own);
    if !allowsMultipleEqualItems {
      out := DedupThroughSet(le, out);
    }
  }

  /** `OwnAndOut::new_for`: own items from `data_own`, then their out items. There
      is no minimum on how many out items survive deduplication. */
  method NewFor<Own, Out(!new)>(rnd: Rnd.Rng, env: Rnd.Env, generateOwn: Rnd.ItemGenerator<Own>,
                                generateOut: Own -> Out, le: (Out, Out) -> bool, allowsMultipleEqualItems: bool)
    returns (r: Result<OwnAndOut<Own, Out>>)
    requires TotalOrder(le)
    modifies rnd
    ensures r.Ok? ==> Rnd.MinItems(env).Ok? && Rnd.MaxItems(env).Ok?
    ensures r.Ok? ==> Rnd.MinItems(env).value <= |r.value.own| < Rnd.MaxItems(env).value
    ensures r.Ok? ==> r.value.own == Rnd.Generated(generateOwn, rnd.stream, old(rnd.drawn) + 1, |r.value.own|).0
    ensures r.Ok? ==> r.value.out == OutItems(allowsMultipleEqualItems, le, generateOut, r.value.own)
    ensures Rnd.MinItems(env).Ok? && Rnd.MaxItems(env).Ok? ==>
      (r.Ok? <==> Rnd.MinItems(env).value < Rnd.MaxItems(env).value)
  {
    var own :- Rnd.DataOwn(rnd, env, generateOwn);
    var out := OutFor(le, generateOut, own, allowsMultipleEqualItems);
    r := Ok(OwnAndOut(own, out));
  }

  /** `OwnAndOut::new`: `new_for` with a generator seeded from the environment, so
      the own items are fixed by the seed (the first draw picks their count). */
  method New<Own, Out(!new)>(env: Rnd.Env, streams: nat -> nat -> nat, generateOwn: Rnd.ItemGenerator<Own>,
                             generateOut: Own -> Out, le: (Out, Out) -> bool, allowsMultipleEqualItems: bool)
    returns (r: Result<OwnAndOut<Own, Out>>)
    requires TotalOrder(le)
    ensures var seed := Rnd.SelectSeed(Rnd.Var(env, Rnd.RND_SEED_DEC_ENV), Rnd.Var(env, Rnd.RND_SEED_HEX_ENV));
      && (seed.Panic? ==> r == Panic(seed.reason))
      && (r.Ok? ==> seed.Ok?)
      && (r.Ok? ==> r.value.own == Rnd.Generated(generateOwn, streams(seed.value), 1, |r.value.own|).0)
      && (seed.Ok? && Rnd.MinItems(env).Ok? && Rnd.MaxItems(env).Ok? ==>
            (r.Ok? <==> Rnd.MinItems(env).value < Rnd.MaxItems(env).value))
    ensures r.Ok? ==> Rnd.MinItems(env).Ok? && Rnd.MaxItems(env).Ok?
    ensures r.Ok? ==> Rnd.MinItems(env).value <= |r.value.own| < Rnd.MaxItems(env).value
    ensures r.Ok? ==> r.value.out == OutItems(allowsMultipleEqualItems, le, generateOut, r.value.own)
  {
    var rnd :- Rnd.WithSeedFromEnv(env, streams);
    r := NewFor(rnd, env, generateOwn, generateOut, le, allowsMultipleEqualItems);
  }
}
