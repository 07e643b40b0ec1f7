/**
 * The min-heap operations the collector uses (`heappush`, `heappop`) over a
 * list of `(key, item)` pairs ordered by key. The list's layout is not the
 * binary-tree layout of a real heap: pushing appends, popping removes one
 * entry of least key. The order in which repeated pops deliver the entries
 * is specified by `SortByKey`, an insertion sort.
 */
module HeapQueue {
  import opened Optional

  datatype Entry<T> = Entry(key: int, item: T)

  /** No key occurs twice, so the entries never have to be told apart by their items. */
  predicate DistinctKeys<T>(h: seq<Entry<T>>)
  {
    forall i, j :: 0 <= i < |h| && 0 <= j < |h| && i != j ==> h[i].key != h[j].key
  }

  /** Keys strictly increase along the list. */
  predicate Ascending<T>(s: seq<Entry<T>>)
  {
    forall i, j :: 0 <= i < j < |s| ==> s[i].key < s[j].key
  }

  predicate IsLeast<T>(e: Entry<T>, h: seq<Entry<T>>)
  {
    forall j :: 0 <= j < |h| ==> e.key <= h[j].key
  }

  function Insert<T>(e: Entry<T>, s: seq<Entry<T>>): seq<Entry<T>>
  {
    if s == [] then [e]
    else if e.key <= s[0].key then [e] + s
    else [s[0]] + Insert(e, s[1..])
  }

  /** The entries of `h` in the order `heappop` delivers them. */
  function SortByKey<T>(h: seq<Entry<T>>): seq<Entry<T>>
  {
    if h == [] then [] else Insert(h[0], SortByKey(h[1..]))
  }

  lemma {:induction false} InsertPermutation<T>(e: Entry<T>, s: seq<Entry<T>>)
    ensures multiset(Insert(e, s)) == multiset(s) + multiset{e}
  {
    if s != [] && e.key > s[0].key {
      InsertPermutation(e, s[1..]);
      assert s == [s[0]] + s[1..];
    }
  }

  /** Draining delivers every entry once: the drain order is a permutation. */
  lemma {:induction false} SortByKeyPermutation<T>(h: seq<Entry<T>>)
    ensures multiset(SortByKey(h)) == multiset(h)
  {
    if h != [] {
      SortByKeyPermutation(h[1..]);
      InsertPermutation(h[0], SortByKey(h[1..]));
      assert h == [h[0]] + h[1..];
    }
  }

  lemma {:induction false} InsertMember<T>(e: Entry<T>, s: seq<Entry<T>>, x: Entry<T>)
    ensures x in Insert(e, s) <==> x == e || x in s
  {
    if s != [] && e.key > s[0].key {
      InsertMember(e, s[1..], x);
      assert s == [s[0]] + s[1..];
    }
  }

  lemma {:induction false} InsertAscending<T>(e: Entry<T>, s: seq<Entry<T>>)
    requires Ascending(s)
    requires forall k :: 0 <= k < |s| ==> s[k].key != e.key
    ensures Ascending(Insert(e, s))
  {
    if s != [] && e.key > s[0].key {
      InsertAscending(e, s[1..]);
      var r := Insert(e, s[1..]);
      forall x | x in r ensures s[0].key < x.key {
        InsertMember(e, s[1..], x);
        if x != e {
          assert x in s[1..];
          var j :| 0 <= j < |s[1..]| && s[1..][j] == x;
          assert s[j + 1] == x;
        }
      }
      var ins := Insert(e, s);
      assert ins == [s[0]] + r;
      forall i, j | 0 <= i < j < |ins| ensures ins[i].key < ins[j].key {
        assert ins[j] == r[j - 1];
        assert r[j - 1] in r;
        if i > 0 {
          assert ins[i] == r[i - 1];
        }
      }
    }
  }

  /** With distinct keys the drain order is strictly ascending by key. */
  lemma {:induction false} SortByKeyAscending<T>(h: seq<Entry<T>>)
    requires DistinctKeys(h)
    ensures Ascending(SortByKey(h))
  {
    if h != [] {
      var rest := SortByKey(h[1..]);
      SortByKeyAscending(h[1..]);
      SortByKeyPermutation(h[1..]);
      forall k | 0 <= k < |rest| ensures rest[k].key != h[0].key {
        assert rest[k] in multiset(rest);
        assert rest[k] in h[1..];
        var j :| 0 <= j < |h[1..]| && h[1..][j] == rest[k];
        assert h[j + 1] == rest[k];
        assert j + 1 != 0;
      }
      InsertAscending(h[0], rest);
    }
  }

  /** In an ascending list the head has the least key, and is the only entry with that key. */
  lemma AscendingHead<T>(s: seq<Entry<T>>, x: Entry<T>)
    requires Ascending(s) && x in s
    ensures s[0].key <= x.key
    ensures x.key == s[0].key ==> x == s[0]
  {
    var i :| 0 <= i < |s| && s[i] == x;
    if i > 0 {
      assert s[0].key < s[i].key;
    }
  }

  lemma SameLength<T>(a: seq<Entry<T>>, b: seq<Entry<T>>)
    requires multiset(a) == multiset(b)
    ensures |a| == |b|
  {
    assert |a| == |multiset(a)|;
    assert |b| == |multiset(b)|;
  }

  lemma SameTails<T>(a: seq<Entry<T>>, b: seq<Entry<T>>)
    requires multiset(a) == multiset(b) && a != [] && b != [] && a[0] == b[0]
    ensures multiset(a[1..]) == multiset(b[1..])
  {
    assert a == [a[0]] + a[1..];
    assert b == [b[0]] + b[1..];
    assert multiset(a) == multiset{a[0]} + multiset(a[1..]);
    assert multiset(b) == multiset{a[0]} + multiset(b[1..]);
    assert multiset(a[1..]) == multiset(a) - multiset{a[0]};
  }

  /** Two strictly ascending lists holding the same entries are the same list. */
  lemma {:induction false} AscendingUnique<T>(a: seq<Entry<T>>, b: seq<Entry<T>>)
    requires Ascending(a) && Ascending(b)
    requires multiset(a) == multiset(b)
    ensures a == b
  {
    SameLength(a, b);
    if a != [] {
      assert a[0] in multiset(b) && b[0] in multiset(a);
      AscendingHead(b, a[0]);
      AscendingHead(a, b[0]);
      SameTails(a, b);
      AscendingUnique(a[1..], b[1..]);
    }
  }

  /** Removing the least entry keeps the keys distinct, and leaves only greater keys. */
  lemma RemoveLeast<T>(h: seq<Entry<T>>, k: nat)
    requires DistinctKeys(h) && k < |h| && IsLeast(h[k], h)
    ensures DistinctKeys(h[..k] + h[k + 1..])
    ensures forall x :: x in h[..k] + h[k + 1..] ==> h[k].key < x.key
    ensures multiset(h) == multiset(h[..k] + h[k + 1..]) + multiset{h[k]}
  {
    var rest := h[..k] + h[k + 1..];
    assert h == h[..k] + [h[k]] + h[k + 1..];
    forall i, i' | 0 <= i < |rest| && 0 <= i' < |rest| && i != i' ensures rest[i].key != rest[i'].key {
      var j := if i < k then i else i + 1;
      var j' := if i' < k then i' else i' + 1;
      assert rest[i] == h[j] && rest[i'] == h[j'];
    }
    forall x | x in rest ensures h[k].key < x.key {
      var i :| 0 <= i < |rest| && rest[i] == x;
      var j := if i < k then i else i + 1;
      assert rest[i] == h[j] && j != k;
    }
  }

  lemma AscendingCons<T>(e: Entry<T>, tail: seq<Entry<T>>)
    requires Ascending(tail)
    requires forall x :: x in tail ==> e.key < x.key
    ensures Ascending([e] + tail)
  {
    var s := [e] + tail;
    forall i, i' | 0 <= i < i' < |s| ensures s[i].key < s[i'].key {
      assert s[i'] == tail[i' - 1];
      assert tail[i' - 1] in tail;
      if i > 0 { assert s[i] == tail[i - 1]; }
    }
  }

  /** Sorting entries that all lie above `e` and putting `e` in front keeps the order ascending. */
  lemma SortedAbove<T>(e: Entry<T>, rest: seq<Entry<T>>)
    requires DistinctKeys(rest)
    requires forall x :: x in rest ==> e.key < x.key
    ensures Ascending([e] + SortByKey(rest))
    ensures multiset([e] + SortByKey(rest)) == multiset{e} + multiset(rest)
  {
    SortByKeyAscending(rest);
    SortByKeyPermutation(rest);
    var tail := SortByKey(rest);
    forall x | x in tail ensures e.key < x.key {
      assert x in multiset(tail);
      assert x in rest;
    }
    AscendingCons(e, tail);
  }

  /** Popping the least entry of a heap with distinct keys takes the head of the drain order. */
  lemma PopLeast<T>(h: seq<Entry<T>>, k: nat)
    requires DistinctKeys(h) && k < |h| && IsLeast(h[k], h)
    ensures DistinctKeys(h[..k] + h[k + 1..])
    ensures SortByKey(h) == [h[k]] + SortByKey(h[..k] + h[k + 1..])
  {
    var rest := h[..k] + h[k + 1..];
    RemoveLeast(h, k);
    SortedAbove(h[k], rest);
    SortByKeyAscending(h);
    SortByKeyPermutation(h);
    AscendingUnique(SortByKey(h), [h[k]] + SortByKey(rest));
  }

  /** A list already in ascending key order drains in its own order. */
  lemma AscendingDrainsInOrder<T>(h: seq<Entry<T>>)
    requires Ascending(h)
    ensures SortByKey(h) == h
  {
    assert DistinctKeys(h) by {
      forall i, j | 0 <= i < |h| && 0 <= j < |h| && i != j ensures h[i].key != h[j].key {
        if i < j { assert h[i].key < h[j].key; } else { assert h[j].key < h[i].key; }
      }
    }
    SortByKeyAscending(h);
    SortByKeyPermutation(h);
    AscendingUnique(SortByKey(h), h);
  }

  /** With distinct keys an entry occurs once. */
  lemma OccursOnce<T>(a: seq<Entry<T>>, e: Entry<T>)
    requires DistinctKeys(a) && e in a
    ensures multiset(a)[e] == 1
  {
    var x :| 0 <= x < |a| && a[x] == e;
    assert a == a[..x] + [e] + a[x + 1..];
    assert e !in a[..x] by {
      forall y | 0 <= y < x ensures a[..x][y] != e { assert a[y].key != a[x].key; }
    }
    assert e !in a[x + 1..] by {
      forall y | x < y < |a| ensures a[y] != e { assert a[y].key != a[x].key; }
    }
  }

  lemma OccursTwice<T>(b: seq<Entry<T>>, i: nat, j: nat)
    requires i < j < |b| && b[i] == b[j]
    ensures multiset(b)[b[i]] >= 2
  {
    var tail := b[i + 1..];
    assert b == b[..i] + [b[i]] + tail;
    assert tail[j - i - 1] == b[i];
  }

  /** Rearranging entries with distinct keys keeps them distinct. */
  lemma PermutationKeepsDistinct<T>(a: seq<Entry<T>>, b: seq<Entry<T>>)
    requires DistinctKeys(a) && multiset(a) == multiset(b)
    ensures DistinctKeys(b)
  {
    forall i, j | 0 <= i < |b| && 0 <= j < |b| && i != j ensures b[i].key != b[j].key {
      if b[i].key == b[j].key {
        assert b[i] in multiset(a) && b[j] in multiset(a);
        var x :| 0 <= x < |a| && a[x] == b[i];
        var y :| 0 <= y < |a| && a[y] == b[j];
        assert x == y;
        OccursOnce(a, b[i]);
        if i < j { OccursTwice(b, i, j); } else { OccursTwice(b, j, i); }
        assert false;
      }
    }
  }

  /**
   * The drain order does not depend on the order of the pushes: any two
   * heaps holding the same entries with distinct keys drain alike.
   */
  lemma DrainOrderFree<T>(h1: seq<Entry<T>>, h2: seq<Entry<T>>)
    requires DistinctKeys(h1) && multiset(h1) == multiset(h2)
    ensures DistinctKeys(h2)
    ensures SortByKey(h1) == SortByKey(h2)
  {
    PermutationKeepsDistinct(h1, h2);
    SortByKeyAscending(h1);
    SortByKeyAscending(h2);
    SortByKeyPermutation(h1);
    SortByKeyPermutation(h2);
    AscendingUnique(SortByKey(h1), SortByKey(h2));
  }

  /**
   * `heappop`: `None` where Python raises `IndexError` on an empty heap;
   * otherwise one entry of least key, and the heap without it.
   */
  method HeapPop<T>(h: seq<Entry<T>>) returns (top: Option<Entry<T>>, rest: seq<Entry<T>>)
    ensures h == [] ==> top == None && rest == []
    ensures h != [] ==> exists k :: 0 <= k < |h| && top == Some(h[k]) && IsLeast(h[k], h)
                                  && rest == h[..k] + h[k + 1..]
  {
    if h == [] {
      return None, [];
    }
    var k := 0;
    var i := 1;
    while i < |h|
      invariant 0 <= k < i <= |h|
      invariant forall j :: 0 <= j < i ==> h[k].key <= h[j].key
    {
      if h[i].key < h[k].key {
        k := i;
      }
      i := i + 1;
    }
    top := Some(h[k]);
    rest := h[..k] + h[k + 1..];
  }
}
