/** `Cami<T>` from the `cami` crate: a transparent wrapper whose `Ord` is the
    crate's alternative ("non-lexicographic") order. The comparison itself lives
    outside this repository; here it is a parameter `camiLe` that is a total order
    on the wrapped values, and the wrapper's order compares the wrapped values with it. */
module CamiItems {
  import opened Order

  datatype Cami<T> = Cami(value: T)

  /** The order of `Cami<T>`: `camiLe` applied to the wrapped values. */
  function CamiOrder<T>(camiLe: (T, T) -> bool): (T2: (Cami<T>, Cami<T>) -> bool) {
    (a: Cami<T>, b: Cami<T>) => camiLe(a.value, b.value)
  }

  /** Wrapping keeps a total order total, so the collection contracts apply to
      `Cami` items. */
  lemma CamiOrderTotal<T(!new)>(camiLe: (T, T) -> bool)
    requires TotalOrder(camiLe)
    ensures TotalOrder(CamiOrder(camiLe))
  {
    var le := CamiOrder(camiLe);
    forall a: Cami<T>, b: Cami<T> | le(a, b) && le(b, a)
      ensures a == b
    {
      assert camiLe(a.value, b.value) && camiLe(b.value, a.value);
    }
    forall a: Cami<T>, b: Cami<T>, c: Cami<T> | le(a, b) && le(b, c)
      ensures le(a, c)
    {
      assert camiLe(a.value, b.value) && camiLe(b.value, c.value);
    }
    forall a: Cami<T>, b: Cami<T>
      ensures le(a, b) || le(b, a)
    {
      assert camiLe(a.value, b.value) || camiLe(b.value, a.value);
    }
  }

  /** `.map(Cami::new)`: wraps each item, keeping length and order. */
  function WrapAll<T>(s: seq<T>): (w: seq<Cami<T>>)
    ensures |w| == |s|
    ensures forall i :: 0 <= i < |s| ==> w[i] == Cami(s[i])
    decreases |s|
  {
    if |s| == 0 then [] else [Cami(s[0])] + WrapAll(s[1..])
  }

  /** Wrapping is one to one: equal wrapped items come from equal items, so
      duplicate-free stays duplicate-free and the value sets correspond. */
  lemma WrapAllKeepsDistinct<T>(s: seq<T>)
    ensures Distinct(s) <==> Distinct(WrapAll(s))
    ensures forall x :: x in s <==> Cami(x) in WrapAll(s)
  {
    var w := WrapAll(s);
    forall x | Cami(x) in w
      ensures x in s
    {
      var k :| 0 <= k < |w| && w[k] == Cami(x);
      assert s[k] == x;
    }
  }
}
