/**
 * List.sort with a comparator, as a stable insertion sort over entries that
 * pair an element with the key the comparator reads. Java's List.sort is a
 * stable merge sort; SortIsTheStableSort shows that every stable sort gives
 * the same list, so the choice of algorithm does not show in the result.
 */
module Sorting {
  import opened Machines
  import opened Comparators

  /** An element to sort (a node handle, a transition) with the key of the node compared. */
  datatype Entry<T> = Entry(key: StateKey, item: T)

  /** Every entry of s has its key in keys. */
  ghost predicate KeysIn<T>(s: seq<Entry<T>>, keys: set<StateKey>) {
    forall i :: 0 <= i < |s| ==> s[i].key in keys
  }

  ghost predicate SortedBy<T>(o: SortOrder, s: seq<Entry<T>>) {
    forall i, j :: 0 <= i < j < |s| ==> Cmp(o, s[i].key, s[j].key) <= 0
  }

  /** The entries of s that the comparator cannot tell from k, in their order in s. */
  function Ties<T>(o: SortOrder, s: seq<Entry<T>>, k: StateKey): (r: seq<Entry<T>>)
    ensures |r| <= |s|
  {
    if s == [] then []
    else (if Cmp(o, s[0].key, k) == 0 then [s[0]] else []) + Ties(o, s[1..], k)
  }

  /** Puts x in front of the first entry that is not strictly smaller than it. */
  function Insert<T>(o: SortOrder, x: Entry<T>, r: seq<Entry<T>>): (r': seq<Entry<T>>)
    ensures multiset(r') == multiset(r) + multiset{x}
    ensures forall keys :: KeysIn(r, keys) && x.key in keys ==> KeysIn(r', keys)
  {
    if r == [] then [x]
    else if Cmp(o, r[0].key, x.key) < 0 then
      assert r == [r[0]] + r[1..];
      [r[0]] + Insert(o, x, r[1..])
    else [x] + r
  }

  function Sort<T>(o: SortOrder, s: seq<Entry<T>>): (r: seq<Entry<T>>)
    ensures multiset(r) == multiset(s)
    ensures |r| == |s|
    ensures forall keys :: KeysIn(s, keys) ==> KeysIn(r, keys)
  {
    if s == [] then []
    else
      assert s == [s[0]] + s[1..];
      assert |multiset(s)| == |s|;
      Insert(o, s[0], Sort(o, s[1..]))
  }

  /** A comparator that obeys the laws is reflexive. */
  lemma CmpReflexive(o: SortOrder, a: StateKey, keys: set<StateKey>)
    requires a in keys && LawfulOn(o, keys)
    ensures Cmp(o, a, a) == 0
  {
    assert Laws(o, a, a, a);
  }

  /** Every key of s compares at or after k. */
  ghost predicate LowerBound<T>(o: SortOrder, k: StateKey, s: seq<Entry<T>>) {
    forall j :: 0 <= j < |s| ==> Cmp(o, k, s[j].key) <= 0
  }

  lemma {:induction false} InsertBound<T>(o: SortOrder, k: StateKey, x: Entry<T>, r: seq<Entry<T>>)
    requires LowerBound(o, k, r) && Cmp(o, k, x.key) <= 0
    ensures LowerBound(o, k, Insert(o, x, r))
  {
    if r != [] && Cmp(o, r[0].key, x.key) < 0 {
      assert LowerBound(o, k, r[1..]) by {
        forall j | 0 <= j < |r[1..]| ensures Cmp(o, k, r[1..][j].key) <= 0 {
          assert r[1..][j] == r[j + 1];
        }
      }
      InsertBound(o, k, x, r[1..]);
    }
  }

  lemma {:induction false} InsertSorted<T>(o: SortOrder, x: Entry<T>, r: seq<Entry<T>>, keys: set<StateKey>)
    requires SortedBy(o, r)
    requires KeysIn(r, keys) && x.key in keys && LawfulOn(o, keys)
    ensures SortedBy(o, Insert(o, x, r))
  {
    if r == [] {
    } else if Cmp(o, r[0].key, x.key) < 0 {
      var rest := Insert(o, x, r[1..]);
      InsertSorted(o, x, r[1..], keys);
      assert LowerBound(o, r[0].key, r[1..]) by {
        forall j | 0 <= j < |r[1..]| ensures Cmp(o, r[0].key, r[1..][j].key) <= 0 {
          assert r[1..][j] == r[j + 1];
        }
      }
      InsertBound(o, r[0].key, x, r[1..]);
      var res := [r[0]] + rest;
      forall i, j | 0 <= i < j < |res| ensures Cmp(o, res[i].key, res[j].key) <= 0 {
        if i > 0 {
          assert res[i] == rest[i - 1] && res[j] == rest[j - 1];
        } else {
          assert res[j] == rest[j - 1];
        }
      }
    } else {
      forall j | 0 <= j < |r| ensures Cmp(o, x.key, r[j].key) <= 0 {
        assert Laws(o, r[0].key, x.key, x.key);
        assert Laws(o, x.key, r[0].key, r[j].key);
      }
    }
  }

  /** The sort puts the entries in comparator order. */
  lemma {:induction false} SortSorted<T>(o: SortOrder, s: seq<Entry<T>>, keys: set<StateKey>)
    requires KeysIn(s, keys) && LawfulOn(o, keys)
    ensures SortedBy(o, Sort(o, s))
  {
    if s != [] {
      SortSorted(o, s[1..], keys);
      InsertSorted(o, s[0], Sort(o, s[1..]), keys);
    }
  }

  /** Keys strictly ordered are not both tied with a third. */
  lemma NoDoubleTie(o: SortOrder, a: StateKey, b: StateKey, k: StateKey, keys: set<StateKey>)
    requires a in keys && b in keys && k in keys && LawfulOn(o, keys)
    requires Cmp(o, a, b) < 0
    ensures !(Cmp(o, a, k) == 0 && Cmp(o, b, k) == 0)
  {
    assert Laws(o, b, k, a) && Laws(o, k, a, a) && Laws(o, a, b, b);
  }

  lemma SwapEmpty<U>(a: seq<U>, b: seq<U>, c: seq<U>)
    requires a == [] || b == []
    ensures a + (b + c) == b + (a + c)
  {
    if a == [] {
      assert a + (b + c) == b + c == b + (a + c);
    } else {
      assert a + (b + c) == a + c == b + (a + c);
    }
  }

  lemma {:induction false} InsertTies<T>(o: SortOrder, x: Entry<T>, r: seq<Entry<T>>, k: StateKey, keys: set<StateKey>)
    requires KeysIn(r, keys) && x.key in keys && k in keys && LawfulOn(o, keys)
    ensures Ties(o, Insert(o, x, r), k) == (if Cmp(o, x.key, k) == 0 then [x] else []) + Ties(o, r, k)
  {
    var tx := if Cmp(o, x.key, k) == 0 then [x] else [];
    if r == [] {
    } else if Cmp(o, r[0].key, x.key) < 0 {
      var r0 := r[0];
      var t0 := if Cmp(o, r0.key, k) == 0 then [r0] else [];
      InsertTies(o, x, r[1..], k, keys);
      assert Ties(o, Insert(o, x, r), k) == t0 + (tx + Ties(o, r[1..], k));
      NoDoubleTie(o, r0.key, x.key, k, keys);
      var t1 := Ties(o, r[1..], k);
      assert Ties(o, r, k) == t0 + t1;
      SwapEmpty(t0, tx, t1);
    } else {
      assert ([x] + r)[1..] == r;
    }
  }

  /** The sort is stable: entries the comparator cannot tell apart keep their order. */
  lemma {:induction false} SortStable<T>(o: SortOrder, s: seq<Entry<T>>, k: StateKey, keys: set<StateKey>)
    requires KeysIn(s, keys) && k in keys && LawfulOn(o, keys)
    ensures Ties(o, Sort(o, s), k) == Ties(o, s, k)
  {
    if s != [] {
      SortStable(o, s[1..], k, keys);
      InsertTies(o, s[0], Sort(o, s[1..]), k, keys);
    }
  }

  /** In a sorted list no entry is strictly smaller than the first. */
  lemma HeadIsLeast<T>(o: SortOrder, r: seq<Entry<T>>, e: Entry<T>, keys: set<StateKey>)
    requires SortedBy(o, r) && r != [] && e in r
    requires KeysIn(r, keys) && LawfulOn(o, keys)
    ensures Cmp(o, r[0].key, e.key) <= 0
  {
    var j :| 0 <= j < |r| && r[j] == e;
    if j == 0 {
      CmpReflexive(o, e.key, keys);
    }
  }

  /** Two sorted lists with the same entries and ties begin with the same entry. */
  lemma SameHead<T>(o: SortOrder, r: seq<Entry<T>>, q: seq<Entry<T>>, keys: set<StateKey>)
    requires r != [] && q != [] && multiset(r) == multiset(q)
    requires SortedBy(o, r) && SortedBy(o, q)
    requires KeysIn(r, keys) && KeysIn(q, keys) && LawfulOn(o, keys)
    requires Ties(o, r, r[0].key) == Ties(o, q, r[0].key)
    ensures r[0] == q[0]
  {
    var r0, q0 := r[0], q[0];
    assert r0 in multiset(q) && q0 in multiset(r);
    HeadIsLeast(o, r, q0, keys);
    HeadIsLeast(o, q, r0, keys);
    assert Laws(o, q0.key, r0.key, r0.key);
    CmpReflexive(o, r0.key, keys);
    assert Ties(o, r, r0.key)[0] == r0;
    assert Ties(o, q, r0.key)[0] == q0;
  }

  lemma MultisetTail<U>(r: seq<U>, q: seq<U>)
    requires r != [] && q != [] && r[0] == q[0] && multiset(r) == multiset(q)
    ensures multiset(r[1..]) == multiset(q[1..])
  {
    assert r == [r[0]] + r[1..] && q == [q[0]] + q[1..];
    assert multiset(r[1..]) == multiset(r) - multiset{r[0]};
    assert multiset(q[1..]) == multiset(q) - multiset{q[0]};
  }

  lemma TiesTail<T>(o: SortOrder, r: seq<Entry<T>>, q: seq<Entry<T>>, keys: set<StateKey>)
    requires r != [] && q != [] && r[0] == q[0]
    requires forall k :: k in keys ==> Ties(o, r, k) == Ties(o, q, k)
    ensures forall k :: k in keys ==> Ties(o, r[1..], k) == Ties(o, q[1..], k)
  {
    forall k | k in keys ensures Ties(o, r[1..], k) == Ties(o, q[1..], k) {
      var t := if Cmp(o, r[0].key, k) == 0 then [r[0]] else [];
      assert Ties(o, r, k) == t + Ties(o, r[1..], k);
      assert Ties(o, q, k) == t + Ties(o, q[1..], k);
      assert Ties(o, r[1..], k) == Ties(o, r, k)[|t|..];
      assert Ties(o, q[1..], k) == Ties(o, q, k)[|t|..];
    }
  }

  /**
   * A sorted, stable permutation is unique: two sorted lists with the same
   * entries and the same order among ties are equal.
   */
  lemma {:induction false} SortedStableUnique<T>(o: SortOrder, r: seq<Entry<T>>, q: seq<Entry<T>>, keys: set<StateKey>)
    requires multiset(r) == multiset(q)
    requires SortedBy(o, r) && SortedBy(o, q)
    requires KeysIn(r, keys) && KeysIn(q, keys) && LawfulOn(o, keys)
    requires forall k :: k in keys ==> Ties(o, r, k) == Ties(o, q, k)
    ensures r == q
    decreases |r|
  {
    assert |r| == |multiset(r)| == |multiset(q)| == |q|;
    if r != [] {
      SameHead(o, r, q, keys);
      MultisetTail(r, q);
      TiesTail(o, r, q, keys);
      SortedStableUnique(o, r[1..], q[1..], keys);
      assert r == [r[0]] + r[1..] && q == [q[0]] + q[1..];
    }
  }

  /** Any sorted, stable permutation of s is what Sort returns, whatever algorithm produced it. */
  lemma SortIsTheStableSort<T>(o: SortOrder, s: seq<Entry<T>>, r: seq<Entry<T>>, keys: set<StateKey>)
    requires multiset(r) == multiset(s) && SortedBy(o, r)
    requires KeysIn(s, keys) && KeysIn(r, keys) && LawfulOn(o, keys)
    requires forall k :: k in keys ==> Ties(o, r, k) == Ties(o, s, k)
    ensures r == Sort(o, s)
  {
    SortSorted(o, s, keys);
    forall k | k in keys ensures Ties(o, r, k) == Ties(o, Sort(o, s), k) {
      SortStable(o, s, k, keys);
    }
    SortedStableUnique(o, r, Sort(o, s), keys);
  }

  /** The sorted elements without their keys. */
  function Items<T>(s: seq<Entry<T>>): (r: seq<T>)
    ensures |r| == |s| && forall i :: 0 <= i < |s| ==> r[i] == s[i].item
  {
    seq(|s|, i requires 0 <= i < |s| => s[i].item)
  }

  lemma {:induction false} ItemsConcat<T>(a: seq<Entry<T>>, b: seq<Entry<T>>)
    ensures Items(a + b) == Items(a) + Items(b)
  {
  }

  lemma ItemsWithout<T>(t: seq<Entry<T>>, k: nat)
    requires k < |t|
    ensures multiset(Items(t)) == multiset(Items(Without(t, k))) + multiset{t[k].item}
  {
    var a, b := Items(t[..k]), Items(t[k + 1..]);
    assert Items(t) == a + [t[k].item] + b;
    assert Items(Without(t, k)) == a + b;
  }

  /** Items of a non-empty list: the head's item, then the rest. */
  lemma ItemsHead<T>(s: seq<Entry<T>>)
    requires s != []
    ensures multiset(Items(s)) == multiset{s[0].item} + multiset(Items(s[1..]))
  {
    assert Items(s) == [s[0].item] + Items(s[1..]);
  }

  /** Entries that are a permutation of each other carry items that are a permutation of each other. */
  lemma {:induction false} ItemsMultiset<T>(s: seq<Entry<T>>, t: seq<Entry<T>>)
    requires multiset(s) == multiset(t)
    ensures multiset(Items(s)) == multiset(Items(t))
    decreases |s|
  {
    if s != [] {
      assert s[0] in multiset(t);
      var k :| 0 <= k < |t| && t[k] == s[0];
      MultisetRest(s, t, k);
      ItemsMultiset(s[1..], Without(t, k));
      ItemsWithout(t, k);
      ItemsHead(s);
    } else {
      assert |t| == |multiset(t)| == 0;
    }
  }
}
