/**
 * Generic facts about the line lists the exporters write: a list built one
 * part after another, a list mapped element by element, and the lines a
 * test picks out of a list.
 */
module Lines {

  /** The elements of the lists, one list after the other. */
  function Flatten<T>(ss: seq<seq<T>>): seq<T> {
    if ss == [] then [] else ss[0] + Flatten(ss[1..])
  }

  lemma {:induction false} FlattenSnoc<T>(ss: seq<seq<T>>, x: seq<T>)
    ensures Flatten(ss + [x]) == Flatten(ss) + x
  {
    if ss == [] {
      assert [] + [x] == [x] && [x][1..] == [];
    } else {
      assert (ss + [x])[1..] == ss[1..] + [x];
      FlattenSnoc(ss[1..], x);
    }
  }

  /** An element of one of the lists is an element of the flattened list. */
  lemma {:induction false} FlattenHolds<T>(ss: seq<seq<T>>, i: nat, x: T)
    requires i < |ss| && x in ss[i]
    ensures x in Flatten(ss)
  {
    if i > 0 {
      FlattenHolds(ss[1..], i - 1, x);
    }
  }

  /** f applied to each element, in order. */
  function Map<T, U>(f: T -> U, s: seq<T>): (r: seq<U>)
    ensures |r| == |s| && forall i :: 0 <= i < |s| ==> r[i] == f(s[i])
  {
    seq(|s|, i requires 0 <= i < |s| => f(s[i]))
  }

  lemma MapSnoc<T, U>(f: T -> U, s: seq<T>, i: nat)
    requires i < |s|
    ensures Map(f, s[..i + 1]) == Map(f, s[..i]) + [f(s[i])]
  {
    assert Map(f, s[..i + 1])[i] == f(s[i]);
  }

  lemma MapTail<T, U>(f: T -> U, s: seq<T>)
    requires s != []
    ensures Map(f, s)[1..] == Map(f, s[1..])
  {
  }

  /** The elements p picks, in order. */
  function Filter<T>(p: T -> bool, s: seq<T>): (r: seq<T>)
    ensures |r| <= |s|
  {
    if s == [] then [] else (if p(s[0]) then [s[0]] else []) + Filter(p, s[1..])
  }

  lemma {:induction false} FilterConcat<T>(p: T -> bool, a: seq<T>, b: seq<T>)
    ensures Filter(p, a + b) == Filter(p, a) + Filter(p, b)
  {
    if a != [] {
      assert (a + b)[0] == a[0] && (a + b)[1..] == a[1..] + b;
      FilterConcat(p, a[1..], b);
    } else {
      assert a + b == b;
    }
  }

  lemma {:induction false} FilterNone<T>(p: T -> bool, s: seq<T>)
    requires forall i :: 0 <= i < |s| ==> !p(s[i])
    ensures Filter(p, s) == []
  {
    if s != [] {
      FilterNone(p, s[1..]);
    }
  }

  lemma FilterOne<T>(p: T -> bool, x: T)
    ensures Filter(p, [x]) == if p(x) then [x] else []
  {
    assert [x][1..] == [];
  }

  lemma FilterParts<T>(p: T -> bool, a: seq<T>, b: seq<T>, c: seq<T>, x: T)
    ensures Filter(p, a + b + c + [x]) == Filter(p, a) + Filter(p, b) + Filter(p, c) + Filter(p, [x])
  {
    FilterConcat(p, a, b);
    FilterConcat(p, a + b, c);
    FilterConcat(p, a + b + c, [x]);
  }

  /** Where each part of a + b + c + [x] sits. */
  lemma Parts<T>(a: seq<T>, b: seq<T>, c: seq<T>, x: T)
    ensures var d := a + b + c + [x];
      && |d| == |a| + |b| + |c| + 1
      && (forall i :: 0 <= i < |a| ==> d[i] == a[i])
      && (forall i :: 0 <= i < |b| ==> d[|a| + i] == b[i])
      && d[|a| + |b|..|d| - 1] == c
      && d[|d| - 1] == x
  {
    var d := a + b + c + [x];
    assert d[|a| + |b|..|d| - 1] == c;
  }

  /** Where each part of [x, y] + c + d sits. */
  lemma TwoThen<T>(x: T, y: T, c: seq<T>, d: seq<T>)
    ensures var t := [x, y] + c + d;
      && |t| == 2 + |c| + |d| && t[0] == x && t[1] == y
      && (forall i :: 0 <= i < |c| ==> t[2 + i] == c[i])
      && (forall j :: 2 + |c| <= j < |t| ==> t[j] == d[j - 2 - |c|])
  {
  }

  /** A property of each element of d at its offset in [x, y] + c + d holds of that part of the whole. */
  lemma TwoThenTail<T>(x: T, y: T, c: seq<T>, d: seq<T>, p: (nat, T) -> bool)
    requires forall j :: 0 <= j < |d| ==> p(2 + |c| + j, d[j])
    ensures var t := [x, y] + c + d;
      forall j :: 2 + |c| <= j < |t| ==> p(j, t[j])
  {
    var t := [x, y] + c + d;
    forall j | 2 + |c| <= j < |t| ensures p(j, t[j]) {
      assert t[j] == d[j - 2 - |c|];
      assert p(2 + |c| + (j - 2 - |c|), d[j - 2 - |c|]);
    }
  }

  /** A property of each element of c at its offset in [x, y] + c + d holds of that part of the whole. */
  lemma TwoThenMiddle<T>(x: T, y: T, c: seq<T>, d: seq<T>, p: (nat, T) -> bool)
    requires forall i :: 0 <= i < |c| ==> p(2 + i, c[i])
    ensures var t := [x, y] + c + d;
      forall j :: 2 <= j < 2 + |c| ==> p(j, t[j])
  {
    var t := [x, y] + c + d;
    forall j | 2 <= j < 2 + |c| ensures p(j, t[j]) {
      assert t[j] == c[j - 2];
      assert p(2 + (j - 2), c[j - 2]);
    }
  }

  /** Where the elements of a and of b sit in a + b. */
  lemma Concat<T>(a: seq<T>, b: seq<T>, j: nat)
    requires j < |a| + |b|
    ensures |a + b| == |a| + |b|
    ensures j < |a| ==> (a + b)[j] == a[j]
    ensures |a| <= j ==> (a + b)[j] == b[j - |a|]
  {
  }

  /** The first and the last part of a + b + c. */
  lemma Ends<T>(a: seq<T>, b: seq<T>, c: seq<T>)
    ensures var s := a + b + c;
      |s| == |a| + |b| + |c| && s[..|a|] == a && s[|s| - |c|..] == c
  {
    var s := a + b + c;
    assert s[..|a|] == a;
    assert s[|s| - |c|..] == c;
  }
}
