/**
 * The input of the exporters: a flat snapshot of a state machine, given as
 * plain data (the state names, the transitions between them and the name of
 * the initial state), and the small value types every stage shares.
 */
module Machines {

  datatype Option<+T> = None | Some(value: T)

  /** One transition of the machine: where it starts, where it goes, on which event. */
  datatype Transition = Transition(source: string, target: string, event: string)

  /** The snapshot the analysis reads: states in declaration order, transitions in order. */
  datatype Machine = Machine(states: seq<string>, transitions: seq<Transition>, initial: string)

  /** The four qualifiers a node can carry; a node without one is "normal". */
  datatype Qualifier = Initial | Alternate | Orphan | Done

  /** The text of a qualifier, as the enum constant's name. */
  function QualifierName(q: Qualifier): (r: string)
    ensures |r| >= 4
  {
    match q
    case Initial => "initial"
    case Alternate => "alternate"
    case Orphan => "orphan"
    case Done => "done"
  }

  /** Different qualifiers have different names. */
  lemma QualifierNameInjective(q: Qualifier, q': Qualifier)
    ensures QualifierName(q) == QualifierName(q') ==> q == q'
  {
  }

  ghost predicate Distinct<T>(s: seq<T>) {
    forall i, j :: 0 <= i < j < |s| ==> s[i] != s[j]
  }

  /**
   * What the exporters silently rely on: state names are unique, the initial
   * state is one of the states, and every transition joins declared states.
   */
  ghost predicate WellFormed(m: Machine) {
    && Distinct(m.states)
    && m.initial in m.states
    && EndpointsDeclared(m.states, m.transitions)
  }

  /** Every transition starts and ends at a declared state. */
  ghost predicate EndpointsDeclared(states: seq<string>, ts: seq<Transition>) {
    forall i :: 0 <= i < |ts| ==> ts[i].source in states && ts[i].target in states
  }

  /** The handle (declaration position) of a declared state name. */
  function IndexOf(s: seq<string>, x: string): (i: nat)
    requires x in s
    ensures i < |s| && s[i] == x
    ensures forall j :: 0 <= j < i ==> s[j] != x
  {
    if s[0] == x then 0 else 1 + IndexOf(s[1..], x)
  }

  lemma IndexOfDistinct(s: seq<string>, h: nat)
    requires Distinct(s) && h < |s|
    ensures IndexOf(s, s[h]) == h
  {
  }

  /** The handles 0 .. n-1 in order: the declared nodes. */
  function Handles(n: nat): (r: seq<nat>)
    ensures |r| == n && forall i :: 0 <= i < n ==> r[i] == i
  {
    seq(n, i => i)
  }

  lemma {:induction false} DistinctCount<T>(t: seq<T>, x: T)
    requires Distinct(t)
    ensures multiset(t)[x] <= 1
  {
    if t != [] {
      assert t == [t[0]] + t[1..];
      DistinctCount(t[1..], x);
      if x == t[0] {
        assert x !in t[1..];
      }
    }
  }

  lemma RepeatCount<T>(s: seq<T>, i: nat, j: nat)
    requires i < j < |s| && s[i] == s[j]
    ensures multiset(s)[s[i]] >= 2
  {
    assert s == s[..j] + s[j..];
    assert s[i] in s[..j];
    assert s[j..][0] == s[j];
  }

  /** A permutation of a list without repetitions has none either. */
  lemma MultisetDistinct<T>(s: seq<T>, t: seq<T>)
    requires multiset(s) == multiset(t) && Distinct(t)
    ensures Distinct(s)
  {
    forall i, j | 0 <= i < j < |s| ensures s[i] != s[j] {
      if s[i] == s[j] {
        RepeatCount(s, i, j);
        DistinctCount(t, s[i]);
      }
    }
  }

  /**
   * A loop that visits the slots order[0], order[1], ... of nodes: the slots
   * visited so far hold fin at their position, the others pend.
   */
  ghost predicate Placed<T>(nodes: seq<T>, order: seq<nat>, fin: seq<T>, pend: seq<T>, i: nat) {
    && i <= |order| && |fin| == |order| && |pend| == |order|
    && (forall p :: 0 <= p < |order| ==> order[p] < |nodes|)
    && (forall p :: 0 <= p < i ==> nodes[order[p]] == fin[p])
    && (forall p :: i <= p < |order| ==> nodes[order[p]] == pend[p])
  }

  /** Visiting the next slot, when no slot is visited twice. */
  lemma PlacedStep<T>(nodes: seq<T>, order: seq<nat>, fin: seq<T>, pend: seq<T>, i: nat)
    requires Distinct(order) && Placed(nodes, order, fin, pend, i) && i < |order|
    ensures Placed(nodes[order[i] := fin[i]], order, fin, pend, i + 1)
  {
    var nodes' := nodes[order[i] := fin[i]];
    forall p | 0 <= p < i + 1 ensures nodes'[order[p]] == fin[p] {
      if p < i {
        assert order[p] != order[i];
      }
    }
    forall p | i + 1 <= p < |order| ensures nodes'[order[p]] == pend[p] {
      assert order[p] != order[i];
    }
  }

  /** t without its k-th element. */
  function Without<U>(t: seq<U>, k: nat): seq<U>
    requires k < |t|
  {
    t[..k] + t[k + 1..]
  }

  lemma RemoveOne<U>(t: seq<U>, k: nat)
    requires k < |t|
    ensures multiset(Without(t, k)) == multiset(t) - multiset{t[k]}
  {
    assert t == t[..k] + [t[k]] + t[k + 1..];
  }

  /** Taking the same element out of two permutations of each other leaves permutations of each other. */
  lemma MultisetRest<U>(s: seq<U>, t: seq<U>, k: nat)
    requires multiset(s) == multiset(t) && s != [] && k < |t| && t[k] == s[0]
    ensures multiset(s[1..]) == multiset(Without(t, k))
  {
    RemoveOne(t, k);
    RemoveOne(s, 0);
    assert Without(s, 0) == s[1..];
  }
}
