/**
 * The comparators the exporters sort with: Java's String.compareTo and
 * Integer.compare, and the layout comparator StateInfoBase.compare, together
 * with the laws a sort needs from them.
 */
module Comparators {

  /** String.compareTo: the difference of the first differing characters, else of the lengths. */
  function CompareTo(a: string, b: string): int {
    if a == [] || b == [] then |a| - |b|
    else if a[0] != b[0] then a[0] as int - b[0] as int
    else CompareTo(a[1..], b[1..])
  }

  /** Integer.compare. */
  function IntegerCompare(x: int, y: int): (r: int)
    ensures r < 0 <==> x < y
    ensures r == 0 <==> x == y
    ensures r > 0 <==> x > y
  {
    if x < y then -1 else if x == y then 0 else 1
  }

  function Sign(x: int): int {
    if x < 0 then -1 else if x == 0 then 0 else 1
  }

  lemma {:induction false} CompareToAntisymmetric(a: string, b: string)
    ensures CompareTo(a, b) == -CompareTo(b, a)
  {
    if a != [] && b != [] && a[0] == b[0] {
      CompareToAntisymmetric(a[1..], b[1..]);
    }
  }

  lemma {:induction false} CompareToZero(a: string, b: string)
    ensures CompareTo(a, b) == 0 <==> a == b
  {
    if a != [] && b != [] && a[0] == b[0] {
      CompareToZero(a[1..], b[1..]);
      assert a == [a[0]] + a[1..] && b == [b[0]] + b[1..];
    }
  }

  lemma {:induction false} CompareToTransitive(a: string, b: string, c: string)
    requires CompareTo(a, b) < 0 && CompareTo(b, c) < 0
    ensures CompareTo(a, c) < 0
  {
    if a != [] && b != [] && c != [] && a[0] == b[0] && b[0] == c[0] {
      CompareToTransitive(a[1..], b[1..], c[1..]);
    }
  }

  /** String.compareTo is a total order on strings: antisymmetric in sign and transitive. */
  lemma CompareToLaws(a: string, b: string, c: string)
    ensures Sign(CompareTo(a, b)) == -Sign(CompareTo(b, a))
    ensures CompareTo(a, b) == 0 <==> a == b
    ensures CompareTo(a, b) <= 0 && CompareTo(b, c) <= 0 ==> CompareTo(a, c) <= 0
  {
    CompareToAntisymmetric(a, b);
    CompareToZero(a, b);
    CompareToZero(b, c);
    if CompareTo(a, b) < 0 && CompareTo(b, c) < 0 {
      CompareToTransitive(a, b, c);
    }
  }

  /**
   * What StateInfoBase.compare reads of a node: its identity (the handle),
   * whether its qualifier is `initial`, its path length and its name.
   */
  datatype StateKey = StateKey(handle: nat, initial: bool, pathlength: int, name: string)

  /** StateInfoBase.compare: the initial node first, then longer path first, then by name. */
  function Compare(a: StateKey, b: StateKey): int {
    if a.handle == b.handle then 0
    else if a.initial then -1
    else if b.initial then 1
    else
      var x := IntegerCompare(b.pathlength, a.pathlength);
      if x == 0 then CompareTo(a.name, b.name) else x
  }

  /** The two sort orders of the two exporter versions. */
  datatype SortOrder = Layout | ByName

  function Cmp(o: SortOrder, a: StateKey, b: StateKey): int {
    match o
    case Layout => Compare(a, b)
    case ByName => CompareTo(a.name, b.name)
  }

  /**
   * Keys of one analysis: one key per handle, distinct names for distinct
   * handles, and at most one initial node.
   */
  ghost predicate Coherent(a: StateKey, b: StateKey) {
    && (a.handle == b.handle ==> a == b)
    && (a.handle != b.handle ==> a.name != b.name && !(a.initial && b.initial))
  }

  /** The laws a comparator must obey on three keys for a sort to be meaningful. */
  ghost predicate Laws(o: SortOrder, a: StateKey, b: StateKey, c: StateKey) {
    && Sign(Cmp(o, a, b)) == -Sign(Cmp(o, b, a))
    && (Cmp(o, a, b) <= 0 && Cmp(o, b, c) <= 0 ==> Cmp(o, a, c) <= 0)
  }

  /** The laws hold on every three keys of a set. */
  ghost predicate LawfulOn(o: SortOrder, keys: set<StateKey>) {
    forall a, b, c {:trigger Laws(o, a, b, c)} :: a in keys && b in keys && c in keys ==> Laws(o, a, b, c)
  }

  /** Keys of one analysis, pairwise. */
  ghost predicate CoherentSet(keys: set<StateKey>) {
    forall a, b :: a in keys && b in keys ==> Coherent(a, b)
  }

  /** The ordering the layout comparator produces on two distinct, coherent nodes. */
  lemma CompareOrdersLayout(a: StateKey, b: StateKey)
    requires Coherent(a, b)
    ensures a.handle == b.handle ==> Compare(a, b) == 0
    ensures a.handle != b.handle && a.initial ==> Compare(a, b) < 0
    ensures a.handle != b.handle && b.initial ==> Compare(a, b) > 0
    ensures a.handle != b.handle && !a.initial && !b.initial ==>
      (Compare(a, b) < 0 <==> a.pathlength > b.pathlength || (a.pathlength == b.pathlength && CompareTo(a.name, b.name) < 0))
    ensures Compare(a, b) == 0 <==> a == b
  {
    CompareToLaws(a.name, b.name, b.name);
  }

  /** On coherent keys the layout comparator is antisymmetric and transitive. */
  lemma CompareLaws(a: StateKey, b: StateKey, c: StateKey)
    requires Coherent(a, b) && Coherent(b, c) && Coherent(a, c)
    ensures Laws(Layout, a, b, c)
  {
    CompareToLaws(a.name, b.name, c.name);
    CompareToLaws(b.name, a.name, c.name);
  }

  /** Name order obeys the laws on any keys. */
  lemma ByNameLaws(a: StateKey, b: StateKey, c: StateKey)
    ensures Laws(ByName, a, b, c)
  {
    CompareToLaws(a.name, b.name, c.name);
  }

  /** A coherent set of keys makes the layout order lawful; name order is lawful on any set. */
  lemma LawfulSets(keys: set<StateKey>)
    ensures CoherentSet(keys) ==> LawfulOn(Layout, keys)
    ensures LawfulOn(ByName, keys)
  {
    forall a, b, c | a in keys && b in keys && c in keys
      ensures CoherentSet(keys) ==> Laws(Layout, a, b, c)
      ensures Laws(ByName, a, b, c)
    {
      if CoherentSet(keys) {
        CompareLaws(a, b, c);
      }
      ByNameLaws(a, b, c);
    }
  }
}
