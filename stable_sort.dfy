/** A stable sort by an integer key, in place on an array, as
    `Array.prototype.sort` with a comparator that subtracts two keys behaves
    (it sorts in place and, by section 23.1.3.30 of ECMA-262, 2023 edition,
    keeps elements that compare equal in their original order). */
module StableSort {
  import opened JsArray

  predicate SortedBy<T>(s: seq<T>, key: T -> int) {
    forall i, j :: 0 <= i < j < |s| ==> key(s[i]) <= key(s[j])
  }

  /** The elements whose key is `v`. */
  function KeyIs<T>(key: T -> int, v: int): T -> bool {
    x => key(x) == v
  }

  /** `x` placed after every element whose key is not greater than its own. */
  function Insert<T>(s: seq<T>, x: T, key: T -> int): seq<T> {
    if s == [] || key(s[|s| - 1]) <= key(x) then s + [x]
    else Insert(s[..|s| - 1], x, key) + [s[|s| - 1]]
  }

  /** Insertion sort, taking the elements left to right. */
  function InsertionSort<T>(s: seq<T>, key: T -> int): seq<T> {
    if s == [] then []
    else Insert(InsertionSort(s[..|s| - 1], key), s[|s| - 1], key)
  }

  lemma {:induction false} InsertPermutes<T>(s: seq<T>, x: T, key: T -> int)
    ensures multiset(Insert(s, x, key)) == multiset(s) + multiset{x}
  {
    if s != [] && key(s[|s| - 1]) > key(x) {
      InsertPermutes(s[..|s| - 1], x, key);
      assert s == s[..|s| - 1] + [s[|s| - 1]];
    }
  }

  lemma {:induction false} InsertSorted<T>(s: seq<T>, x: T, key: T -> int)
    requires SortedBy(s, key)
    ensures SortedBy(Insert(s, x, key), key)
    ensures Insert(s, x, key) != []
    ensures var r := Insert(s, x, key);
      key(r[|r| - 1]) == key(x) || (s != [] && key(r[|r| - 1]) == key(s[|s| - 1]))
  {
    if s != [] && key(s[|s| - 1]) > key(x) {
      InsertSorted(s[..|s| - 1], x, key);
    }
  }

  /** Inserting `x` leaves the elements of every key in their order, with `x`
      last among those of its own key. */
  lemma {:induction false} InsertStable<T>(s: seq<T>, x: T, key: T -> int, v: int)
    ensures Filter(Insert(s, x, key), KeyIs(key, v))
         == Filter(s, KeyIs(key, v)) + (if key(x) == v then [x] else [])
  {
    var f := KeyIs(key, v);
    if s == [] || key(s[|s| - 1]) <= key(x) {
      FilterConcat(s, [x], f);
      assert [x][1..] == [];
    } else {
      var init, last := s[..|s| - 1], s[|s| - 1];
      InsertStable(init, x, key, v);
      FilterConcat(Insert(init, x, key), [last], f);
      FilterConcat(init, [last], f);
      assert s == init + [last];
      assert [last][1..] == [];
    }
  }

  /** The sorted sequence holds the same elements, counted with multiplicity. */
  lemma {:induction false} SortPermutes<T>(s: seq<T>, key: T -> int)
    ensures multiset(InsertionSort(s, key)) == multiset(s)
  {
    if s != [] {
      SortPermutes(s[..|s| - 1], key);
      InsertPermutes(InsertionSort(s[..|s| - 1], key), s[|s| - 1], key);
      assert s == s[..|s| - 1] + [s[|s| - 1]];
    }
  }

  /** The sorted sequence is in non-decreasing key order. */
  lemma {:induction false} SortSorts<T>(s: seq<T>, key: T -> int)
    ensures SortedBy(InsertionSort(s, key), key)
  {
    if s != [] {
      SortSorts(s[..|s| - 1], key);
      InsertSorted(InsertionSort(s[..|s| - 1], key), s[|s| - 1], key);
    }
  }

  /** Stability: for every key, the elements with that key appear in the
      sorted sequence in the order they had before. */
  lemma {:induction false} SortStable<T>(s: seq<T>, key: T -> int, v: int)
    ensures Filter(InsertionSort(s, key), KeyIs(key, v)) == Filter(s, KeyIs(key, v))
  {
    if s != [] {
      var init, last := s[..|s| - 1], s[|s| - 1];
      SortStable(init, key, v);
      InsertStable(InsertionSort(init, key), last, key, v);
      FilterConcat(init, [last], KeyIs(key, v));
      assert s == init + [last];
      assert [last][1..] == [];
    }
  }

  /** Inserts `a[i]` into the sorted prefix `a[..i]`, shifting greater elements
      one place right. */
  method InsertAt<T>(a: array<T>, i: nat, key: T -> int)
    requires i < a.Length
    modifies a
    ensures a[..i + 1] == Insert(old(a[..i]), old(a[i]), key)
    ensures a[i + 1..] == old(a[i + 1..])
  {
    var x := a[i];
    ghost var sorted := a[..i];
    var j := i;
    while j > 0 && key(a[j - 1]) > key(x)
      invariant 0 <= j <= i
      invariant forall k :: 0 <= k < j ==> a[k] == sorted[k]
      invariant forall k :: j < k <= i ==> a[k] == sorted[k - 1]
      invariant forall k :: i < k < a.Length ==> a[k] == old(a[k])
      invariant forall k :: j <= k < i ==> key(sorted[k]) > key(x)
    {
      a[j] := a[j - 1];
      j := j - 1;
    }
    a[j] := x;
    InsertSplit(sorted, x, key, j);
    InsertPlaced(sorted, x, j, a[..i + 1]);
  }

  /** Where the inner loop stops: everything after position `j` has a greater
      key than `x` and the element before it does not, so `x` goes at `j`. */
  lemma {:induction false} InsertSplit<T>(sorted: seq<T>, x: T, key: T -> int, j: nat)
    requires j <= |sorted| && (j == 0 || key(sorted[j - 1]) <= key(x))
    requires forall k :: j <= k < |sorted| ==> key(sorted[k]) > key(x)
    ensures Insert(sorted, x, key) == sorted[..j] + [x] + sorted[j..]
    decreases |sorted|
  {
    if j == |sorted| {
      assert sorted[..j] == sorted && sorted[j..] == [];
    } else {
      var init, last := sorted[..|sorted| - 1], sorted[|sorted| - 1];
      assert init[..j] == sorted[..j];
      InsertSplit(init, x, key, j);
      assert init[j..] + [last] == sorted[j..];
    }
  }

  /** The array after the inner loop and the final write: the first `j`
      elements, then `x`, then the rest shifted one place right. */
  lemma InsertPlaced<T>(sorted: seq<T>, x: T, j: nat, r: seq<T>)
    requires j <= |sorted| && |r| == |sorted| + 1 && r[j] == x
    requires forall k :: 0 <= k < j ==> r[k] == sorted[k]
    requires forall k :: j < k < |r| ==> r[k] == sorted[k - 1]
    ensures r == sorted[..j] + [x] + sorted[j..]
  {
  }

  /** `a.sort(comparator)`: insertion sort in place. */
  method SortInPlace<T>(a: array<T>, key: T -> int)
    modifies a
    ensures a[..] == InsertionSort(old(a[..]), key)
  {
    var i := 0;
    while i < a.Length
      invariant 0 <= i <= a.Length
      invariant a[..i] == InsertionSort(old(a[..])[..i], key)
      invariant a[i..] == old(a[..])[i..]
    {
      InsertAt(a, i, key);
      assert old(a[..])[..i + 1][..i] == old(a[..])[..i];
      i := i + 1;
    }
    assert a[..] == a[..a.Length];
    assert old(a[..]) == old(a[..])[..a.Length];
  }
}
