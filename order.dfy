/** Total orders on item types and the sequence operations the collection backends
    are specified by: a sort (standing for the standard library's `sort` and
    `sort_unstable`), insertion into an ascending duplicate-free sequence (standing
    for `BTreeSet::insert`), and the slice/iterator routines `binary_search` and
    `is_sorted`.

    The item types of the benchmarks (`u8`, `&[u8]`, `&str`, `String`) are `Ord`;
    an order here is a function `le` ("less than or equal") that is a total order.
    Rust's `Ord` must agree with `Eq`, so the order is antisymmetric: items that
    compare equal are the same value. */
module Order {

  ghost predicate TotalOrder<T(!new)>(le: (T, T) -> bool) {
    && (forall a, b :: le(a, b) && le(b, a) ==> a == b)
    && (forall a, b, c :: le(a, b) && le(b, c) ==> le(a, c))
    && (forall a, b :: le(a, b) || le(b, a))
  }

  /** Every item is at most every later item. */
  ghost predicate Sorted<T>(le: (T, T) -> bool, s: seq<T>) {
    forall i, j :: 0 <= i < j < |s| ==> le(s[i], s[j])
  }

  ghost predicate Distinct<T>(s: seq<T>) {
    forall i, j :: 0 <= i < j < |s| ==> s[i] != s[j]
  }

  /** Strictly ascending: what a `BTreeSet` iterates. */
  ghost predicate Ascending<T>(le: (T, T) -> bool, s: seq<T>) {
    Sorted(le, s) && Distinct(s)
  }

  ghost function Elems<T>(s: seq<T>): set<T> {
    set x | x in s
  }

  ghost predicate AllAtLeast<T>(le: (T, T) -> bool, y: T, s: seq<T>) {
    forall k :: 0 <= k < |s| ==> le(y, s[k])
  }

  // ----- sorting -----

  /** Inserts `x` before the first item it is at most. */
  function Insert<T>(le: (T, T) -> bool, x: T, s: seq<T>): seq<T>
    decreases |s|
  {
    if |s| == 0 then [x]
    else if le(x, s[0]) then [x] + s
    else [s[0]] + Insert(le, x, s[1..])
  }

  /** The sorted rearrangement of `s`. Under a total order a stable and an unstable
      sort give the same sequence (see SortedPermutationUnique), so this one
      function stands for both `sort` and `sort_unstable`. */
  function SortSeq<T>(le: (T, T) -> bool, s: seq<T>): seq<T>
    decreases |s|
  {
    if |s| == 0 then [] else Insert(le, s[0], SortSeq(le, s[1..]))
  }

  lemma {:induction false} InsertPermutation<T>(le: (T, T) -> bool, x: T, s: seq<T>)
    ensures multiset(Insert(le, x, s)) == multiset(s) + multiset{x}
    decreases |s|
  {
    if |s| > 0 && !le(x, s[0]) {
      InsertPermutation(le, x, s[1..]);
      assert s == [s[0]] + s[1..];
    }
  }

  lemma {:induction false} InsertSorted<T(!new)>(le: (T, T) -> bool, x: T, s: seq<T>)
    requires TotalOrder(le) && Sorted(le, s)
    ensures Sorted(le, Insert(le, x, s))
    decreases |s|
  {
    if |s| > 0 && !le(x, s[0]) {
      var rest := Insert(le, x, s[1..]);
      InsertSorted(le, x, s[1..]);
      InsertPermutation(le, x, s[1..]);
      forall k | 0 <= k < |rest|
        ensures le(s[0], rest[k])
      {
        assert rest[k] in multiset(rest);
        if rest[k] != x {
          assert rest[k] in multiset(s[1..]);
          var j :| 0 <= j < |s[1..]| && s[1..][j] == rest[k];
          assert s[j + 1] == rest[k];
        }
      }
      assert Insert(le, x, s) == [s[0]] + rest;
    }
  }

  /** `sort` leaves a sorted permutation of the items. */
  lemma {:induction false} SortSeqCorrect<T(!new)>(le: (T, T) -> bool, s: seq<T>)
    requires TotalOrder(le)
    ensures Sorted(le, SortSeq(le, s))
    ensures multiset(SortSeq(le, s)) == multiset(s)
    decreases |s|
  {
    if |s| > 0 {
      SortSeqCorrect(le, s[1..]);
      InsertSorted(le, s[0], SortSeq(le, s[1..]));
      InsertPermutation(le, s[0], SortSeq(le, s[1..]));
      assert s == [s[0]] + s[1..];
    }
  }

  /** The first item of a sorted sequence is at most each of its items. */
  lemma SortedHeadIsLeast<T>(le: (T, T) -> bool, s: seq<T>, x: T)
    requires Sorted(le, s) && x in s && le(s[0], s[0])
    ensures le(s[0], x)
  {
    var j :| 0 <= j < |s| && s[j] == x;
    if j > 0 {
      assert le(s[0], s[j]);
    }
  }

  lemma MultisetTail<T>(s: seq<T>)
    requires |s| > 0
    ensures multiset(s[1..]) == multiset(s) - multiset{s[0]}
  {
    assert s == [s[0]] + s[1..];
  }

  /** Two sorted permutations of the same items are equal: with an antisymmetric
      order, stability makes no observable difference. */
  lemma {:induction false} SortedPermutationUnique<T(!new)>(le: (T, T) -> bool, a: seq<T>, b: seq<T>)
    requires TotalOrder(le)
    requires Sorted(le, a) && Sorted(le, b) && multiset(a) == multiset(b)
    ensures a == b
    decreases |a|
  {
    assert |a| == |multiset(a)| == |multiset(b)| == |b|;
    if |a| > 0 {
      assert a[0] in multiset(b) && b[0] in multiset(a);
      assert le(a[0], a[0]) && le(b[0], b[0]);
      SortedHeadIsLeast(le, b, a[0]);
      SortedHeadIsLeast(le, a, b[0]);
      assert a[0] == b[0];
      MultisetTail(a);
      MultisetTail(b);
      SortedPermutationUnique(le, a[1..], b[1..]);
      assert a == [a[0]] + a[1..];
      assert b == [b[0]] + b[1..];
    }
  }

  /** Sorting an already sorted sequence changes nothing. */
  lemma SortSeqOfSorted<T(!new)>(le: (T, T) -> bool, s: seq<T>)
    requires TotalOrder(le) && Sorted(le, s)
    ensures SortSeq(le, s) == s
  {
    SortSeqCorrect(le, s);
    SortedPermutationUnique(le, SortSeq(le, s), s);
  }

  /** A sort keeps every item, so each of them is still there to be found. */
  lemma SortSeqKeepsItems<T(!new)>(le: (T, T) -> bool, s: seq<T>, x: T)
    requires TotalOrder(le) && x in s
    ensures Sorted(le, SortSeq(le, s)) && x in SortSeq(le, s)
  {
    SortSeqCorrect(le, s);
    assert x in multiset(s);
  }

  // ----- ascending duplicate-free sequences (the `BTreeSet` view) -----

  /** Inserts `x` into an ascending sequence unless an equal item is there. */
  function AscInsert<T>(le: (T, T) -> bool, s: seq<T>, x: T): seq<T>
    decreases |s|
  {
    if |s| == 0 then [x]
    else if le(x, s[0]) && le(s[0], x) then s
    else if le(x, s[0]) then [x] + s
    else [s[0]] + AscInsert(le, s[1..], x)
  }

  /** Inserts the items of `xs` one after another, as `BTreeSet::extend` does. */
  function AscInsertAll<T>(le: (T, T) -> bool, s: seq<T>, xs: seq<T>): seq<T>
    decreases |xs|
  {
    if |xs| == 0 then s else AscInsertAll(le, AscInsert(le, s, xs[0]), xs[1..])
  }

  lemma ElemsCons<T>(s: seq<T>)
    requires |s| > 0
    ensures Elems(s) == {s[0]} + Elems(s[1..])
  {
    assert s == [s[0]] + s[1..];
  }

  lemma {:induction false} AscInsertCorrect<T(!new)>(le: (T, T) -> bool, s: seq<T>, x: T)
    requires TotalOrder(le) && Ascending(le, s)
    ensures Ascending(le, AscInsert(le, s, x))
    ensures Elems(AscInsert(le, s, x)) == Elems(s) + {x}
    decreases |s|
  {
    if |s| == 0 {
      assert Elems([x]) == {x};
    } else if le(x, s[0]) && le(s[0], x) {
      assert x == s[0];
      assert x in Elems(s);
    } else if le(x, s[0]) {
      assert x != s[0];
      var r := [x] + s;
      forall i, j | 0 <= i < j < |r|
        ensures le(r[i], r[j]) && r[i] != r[j]
      {
        if i == 0 {
          assert le(s[0], s[j - 1]);
          if j - 1 > 0 { assert s[0] != s[j - 1]; }
          assert le(x, s[j - 1]);
          assert !le(s[0], x);
        }
      }
      assert Elems(r) == {x} + Elems(s) by { ElemsCons(r); assert r[1..] == s; }
    } else {
      var rest := AscInsert(le, s[1..], x);
      AscInsertCorrect(le, s[1..], x);
      assert le(s[0], x) && s[0] != x;
      forall k | 0 <= k < |rest|
        ensures le(s[0], rest[k]) && s[0] != rest[k]
      {
        assert rest[k] in Elems(rest);
        if rest[k] != x {
          assert rest[k] in Elems(s[1..]);
          var j :| 0 <= j < |s[1..]| && s[1..][j] == rest[k];
          assert s[j + 1] == rest[k];
        }
      }
      var r := [s[0]] + rest;
      assert AscInsert(le, s, x) == r;
      assert r[1..] == rest;
      forall i, j | 0 <= i < j < |r|
        ensures le(r[i], r[j]) && r[i] != r[j]
      {
        if i > 0 {
          assert r[i] == rest[i - 1] && r[j] == rest[j - 1];
        }
      }
      ElemsCons(r);
      ElemsCons(s);
    }
  }

  /** `extend` on the set view keeps it ascending and adds exactly the new values. */
  lemma {:induction false} AscInsertAllCorrect<T(!new)>(le: (T, T) -> bool, s: seq<T>, xs: seq<T>)
    requires TotalOrder(le) && Ascending(le, s)
    ensures Ascending(le, AscInsertAll(le, s, xs))
    ensures Elems(AscInsertAll(le, s, xs)) == Elems(s) + Elems(xs)
    decreases |xs|
  {
    if |xs| > 0 {
      AscInsertCorrect(le, s, xs[0]);
      AscInsertAllCorrect(le, AscInsert(le, s, xs[0]), xs[1..]);
      ElemsCons(xs);
    }
  }

  /** In a duplicate-free sequence the first item does not occur again. */
  lemma HeadNotInTail<T>(s: seq<T>)
    requires |s| > 0 && Distinct(s)
    ensures s[0] !in Elems(s[1..])
    ensures Elems(s[1..]) == Elems(s) - {s[0]}
  {
    forall k | 0 <= k < |s| - 1
      ensures s[1..][k] != s[0]
    {
      assert s[1..][k] == s[k + 1];
    }
    ElemsCons(s);
  }

  /** An ascending duplicate-free sequence is determined by its values. */
  lemma {:induction false} AscendingUnique<T(!new)>(le: (T, T) -> bool, a: seq<T>, b: seq<T>)
    requires TotalOrder(le) && Ascending(le, a) && Ascending(le, b) && Elems(a) == Elems(b)
    ensures a == b
    decreases |a|
  {
    DistinctCard(a);
    DistinctCard(b);
    if |a| > 0 {
      assert a[0] in Elems(b) && b[0] in Elems(a);
      assert le(a[0], a[0]) && le(b[0], b[0]);
      SortedHeadIsLeast(le, b, a[0]);
      SortedHeadIsLeast(le, a, b[0]);
      assert a[0] == b[0];
      HeadNotInTail(a);
      HeadNotInTail(b);
      AscendingUnique(le, a[1..], b[1..]);
      assert a == [a[0]] + a[1..];
      assert b == [b[0]] + b[1..];
    }
  }

  /** The set view does not depend on the order the items were inserted in. */
  lemma AscInsertAllOrderIrrelevant<T(!new)>(le: (T, T) -> bool, s: seq<T>, xs: seq<T>, ys: seq<T>)
    requires TotalOrder(le) && Ascending(le, s) && Elems(xs) == Elems(ys)
    ensures AscInsertAll(le, s, xs) == AscInsertAll(le, s, ys)
  {
    AscInsertAllCorrect(le, s, xs);
    AscInsertAllCorrect(le, s, ys);
    AscendingUnique(le, AscInsertAll(le, s, xs), AscInsertAll(le, s, ys));
  }

  /** Collecting an ascending duplicate-free sequence into a set and back changes nothing. */
  lemma AscInsertAllOfAscending<T(!new)>(le: (T, T) -> bool, s: seq<T>)
    requires TotalOrder(le) && Ascending(le, s)
    ensures AscInsertAll(le, [], s) == s
  {
    AscInsertAllCorrect(le, [], s);
    var empty: seq<T> := [];
    assert Elems(empty) == {};
    AscendingUnique(le, AscInsertAll(le, [], s), s);
  }

  /** Sequences with the same items have the same values. */
  lemma SameMultisetSameElems<T>(a: seq<T>, b: seq<T>)
    requires multiset(a) == multiset(b)
    ensures Elems(a) == Elems(b)
  {
    forall x | x in a
      ensures x in b
    {
      assert x in multiset(a);
    }
    forall x | x in b
      ensures x in a
    {
      assert x in multiset(b);
    }
  }

  /** A duplicate-free sequence has as many items as values. */
  lemma {:induction false} DistinctCard<T>(s: seq<T>)
    requires Distinct(s)
    ensures |Elems(s)| == |s|
    decreases |s|
  {
    if |s| == 0 {
      assert Elems(s) == {};
    } else {
      DistinctCard(s[1..]);
      HeadNotInTail(s);
    }
  }

  /** No sequence has more values than items. */
  lemma {:induction false} ElemsCard<T>(s: seq<T>)
    ensures |Elems(s)| <= |s|
    decreases |s|
  {
    if |s| == 0 {
      assert Elems(s) == {};
    } else {
      ElemsCard(s[1..]);
      ElemsCons(s);
    }
  }

  // ----- the library's slice and iterator routines -----

  /** `<[T]>::binary_search(x).is_ok()`: halves the range while the middle item
      differs from `x`. It only ever reports an item it has seen, and on a sorted
      slice it finds every item that is there. */
  method BinarySearch<T(!new)>(le: (T, T) -> bool, s: seq<T>, x: T) returns (found: bool)
    requires TotalOrder(le)
    ensures found ==> x in s
    ensures Sorted(le, s) && x in s ==> found
  {
    var lo, hi := 0, |s|;
    found := false;
    while lo < hi && !found
      invariant 0 <= lo <= hi <= |s|
      invariant found ==> x in s
      invariant !found && Sorted(le, s) && x in s ==> x in s[lo..hi]
      decreases hi - lo, if found then 0 else 1
    {
      var mid := lo + (hi - lo) / 2;
      if le(s[mid], x) && le(x, s[mid]) {
        found := true;
      } else if le(s[mid], x) {
        if Sorted(le, s) && x in s {
          var k :| lo <= k < hi && s[k] == x;
          assert le(x, x);
          assert mid < k;
          assert s[k] == s[mid + 1..hi][k - mid - 1];
        }
        lo := mid + 1;
      } else {
        if Sorted(le, s) && x in s {
          var k :| lo <= k < hi && s[k] == x;
          assert le(x, x);
          assert k < mid;
          assert s[k] == s[lo..mid][k - lo];
        }
        hi := mid;
      }
    }
  }

  /** `Iterator::is_sorted`: checks each adjacent pair, stopping at the first
      pair out of order. */
  method IsSortedBy<T(!new)>(le: (T, T) -> bool, s: seq<T>) returns (sorted: bool)
    requires TotalOrder(le)
    ensures sorted <==> Sorted(le, s)
  {
    if |s| == 0 {
      return true;
    }
    var i := 0;
    while i + 1 < |s|
      invariant 0 <= i < |s|
      invariant forall p, q :: 0 <= p < q <= i ==> le(s[p], s[q])
    {
      if !le(s[i], s[i + 1]) {
        return false;
      }
      forall p | 0 <= p < i + 1
        ensures le(s[p], s[i + 1])
      {
        if p < i {
          assert le(s[p], s[i]);
        }
      }
      i := i + 1;
    }
    return true;
  }
}
