/**
 * The first two steps of analyzeStateMachine: one node per declared state,
 * then each transition attached to its source node, marking its target as
 * targeted. A node is named by its handle, its position in the declared
 * state list; the per-node fields live in sequences indexed by handle.
 */
module Graph {
  import opened Machines

  /** A transition as its source node stores it: the handle of the target and the event. */
  datatype TransitionInfo = TransitionInfo(target: nat, event: string)

  /** StateInfo.addTransition: a new transition goes to the end of the node's list. */
  function AddTransition(ts: seq<TransitionInfo>, target: nat, event: string): (r: seq<TransitionInfo>)
    ensures |r| == |ts| + 1 && r[..|ts|] == ts && r[|ts|] == TransitionInfo(target, event)
  {
    ts + [TransitionInfo(target, event)]
  }

  /** The transition as its source node stores it. */
  function InfoOf(states: seq<string>, t: Transition): (e: TransitionInfo)
    requires t.target in states
    ensures e.target < |states| && states[e.target] == t.target && e.event == t.event
  {
    TransitionInfo(IndexOf(states, t.target), t.event)
  }

  /** The transitions of ts that leave node h, in input order. */
  function OutEdges(states: seq<string>, ts: seq<Transition>, h: nat): (r: seq<TransitionInfo>)
    requires EndpointsDeclared(states, ts)
    ensures |r| <= |ts|
    ensures forall j :: 0 <= j < |r| ==> r[j].target < |states|
  {
    if ts == [] then []
    else
      var t := ts[|ts| - 1];
      OutEdges(states, ts[..|ts| - 1], h) + (if IndexOf(states, t.source) == h then [InfoOf(states, t)] else [])
  }

  /** Some transition of ts ends at node h. */
  ghost predicate Targeted(states: seq<string>, ts: seq<Transition>, h: nat)
    requires EndpointsDeclared(states, ts)
  {
    exists i :: 0 <= i < |ts| && IndexOf(states, ts[i].target) == h
  }

  /** OutEdges over a longer prefix: the last transition joins its source's list. */
  lemma OutEdgesStep(states: seq<string>, ts: seq<Transition>, h: nat)
    requires EndpointsDeclared(states, ts) && ts != []
    ensures OutEdges(states, ts, h) == OutEdges(states, ts[..|ts| - 1], h) +
      (if IndexOf(states, ts[|ts| - 1].source) == h then [InfoOf(states, ts[|ts| - 1])] else [])
  {
  }

  /** Targeted over a longer prefix: the last transition may add its target. */
  lemma TargetedStep(states: seq<string>, ts: seq<Transition>, h: nat)
    requires EndpointsDeclared(states, ts) && ts != []
    ensures Targeted(states, ts, h) <==>
      Targeted(states, ts[..|ts| - 1], h) || IndexOf(states, ts[|ts| - 1].target) == h
  {
    var pre := ts[..|ts| - 1];
    if Targeted(states, pre, h) {
      var j :| 0 <= j < |pre| && IndexOf(states, pre[j].target) == h;
      assert ts[j] == pre[j];
    }
    if Targeted(states, ts, h) {
      var j :| 0 <= j < |ts| && IndexOf(states, ts[j].target) == h;
      if j < |pre| {
        assert pre[j] == ts[j];
      }
    }
  }

  /** The state map built over a distinct state list sends each name to its handle. */
  ghost predicate MapsToHandles(states: seq<string>, stateMap: map<string, nat>) {
    && stateMap.Keys == (set k | 0 <= k < |states| :: states[k])
    && forall k :: 0 <= k < |states| ==> stateMap[states[k]] == k
  }

  /**
   * The loop over the declared states: a node per state in declaration order,
   * the state map from name to node, and the node of the initial state, if it
   * was declared.
   */
  method BuildNodes(m: Machine) returns (names: seq<string>, stateMap: map<string, nat>, initial: Option<nat>)
    requires Distinct(m.states)
    ensures names == m.states
    ensures MapsToHandles(m.states, stateMap)
    ensures initial.Some? <==> m.initial in m.states
    ensures initial.Some? ==> initial.value == IndexOf(m.states, m.initial)
  {
    names := [];
    stateMap := map[];
    initial := None;
    var k := 0;
    while k < |m.states|
      invariant 0 <= k <= |m.states|
      invariant names == m.states[..k]
      invariant MapsToHandles(m.states[..k], stateMap)
      invariant initial.Some? <==> m.initial in m.states[..k]
      invariant initial.Some? ==> initial.value < k && m.states[initial.value] == m.initial
    {
      var s := m.states[k];
      assert m.states[..k + 1] == m.states[..k] + [s];
      stateMap := stateMap[s := k];
      names := names + [s];
      if s == m.initial {
        initial := Some(k);
      }
      k := k + 1;
    }
    assert m.states[..k] == m.states;
    if initial.Some? {
      IndexOfDistinct(m.states, initial.value);
    }
  }

  /** The state map sends both endpoints of a declared transition to their handles. */
  lemma EndpointHandles(m: Machine, stateMap: map<string, nat>, i: nat)
    requires Distinct(m.states) && EndpointsDeclared(m.states, m.transitions) && i < |m.transitions|
    requires MapsToHandles(m.states, stateMap)
    ensures m.transitions[i].source in stateMap && stateMap[m.transitions[i].source] == IndexOf(m.states, m.transitions[i].source)
    ensures m.transitions[i].target in stateMap && stateMap[m.transitions[i].target] == IndexOf(m.states, m.transitions[i].target)
  {
    var t := m.transitions[i];
    IndexOfDistinct(m.states, IndexOf(m.states, t.source));
    IndexOfDistinct(m.states, IndexOf(m.states, t.target));
  }

  /** One turn of the transition loop: attaching transition i extends the lists for the first i. */
  lemma AttachStep(states: seq<string>, all: seq<Transition>, i: nat,
                   transitions: seq<seq<TransitionInfo>>, targeted: seq<bool>,
                   transitions': seq<seq<TransitionInfo>>, targeted': seq<bool>)
    requires EndpointsDeclared(states, all) && i < |all| && |transitions| == |targeted| == |states|
    requires forall h :: 0 <= h < |states| ==> transitions[h] == OutEdges(states, all[..i], h)
    requires forall h :: 0 <= h < |states| ==> (targeted[h] <==> Targeted(states, all[..i], h))
    requires var source := IndexOf(states, all[i].source);
      transitions' == transitions[source := AddTransition(transitions[source], IndexOf(states, all[i].target), all[i].event)]
    requires targeted' == targeted[IndexOf(states, all[i].target) := true]
    ensures forall h :: 0 <= h < |states| ==> transitions'[h] == OutEdges(states, all[..i + 1], h)
    ensures forall h :: 0 <= h < |states| ==> (targeted'[h] <==> Targeted(states, all[..i + 1], h))
  {
    var ts := all[..i + 1];
    assert ts[..|ts| - 1] == all[..i] && ts[|ts| - 1] == all[i];
    forall h | 0 <= h < |states|
      ensures transitions'[h] == OutEdges(states, ts, h)
      ensures targeted'[h] <==> Targeted(states, ts, h)
    {
      TargetedStep(states, ts, h);
      OutEdgesStep(states, ts, h);
    }
  }

  /**
   * The loop over the transitions: each is appended to its source node's list
   * and marks its target node as targeted.
   */
  method AttachTransitions(m: Machine, stateMap: map<string, nat>)
    returns (transitions: seq<seq<TransitionInfo>>, targeted: seq<bool>)
    requires Distinct(m.states) && EndpointsDeclared(m.states, m.transitions)
    requires MapsToHandles(m.states, stateMap)
    ensures |transitions| == |targeted| == |m.states|
    ensures forall h :: 0 <= h < |m.states| ==> transitions[h] == OutEdges(m.states, m.transitions, h)
    ensures forall h :: 0 <= h < |m.states| ==> (targeted[h] <==> Targeted(m.states, m.transitions, h))
  {
    var n := |m.states|;
    transitions := NoEdges(n);
    targeted := seq(n, _ => false);
    var i := 0;
    while i < |m.transitions|
      invariant 0 <= i <= |m.transitions|
      invariant |transitions| == |targeted| == n
      invariant forall h :: 0 <= h < n ==> transitions[h] == OutEdges(m.states, m.transitions[..i], h)
      invariant forall h :: 0 <= h < n ==> (targeted[h] <==> Targeted(m.states, m.transitions[..i], h))
    {
      var t := m.transitions[i];
      EndpointHandles(m, stateMap, i);
      var source := stateMap[t.source];
      var target := stateMap[t.target];
      var transitions' := transitions[source := AddTransition(transitions[source], target, t.event)];
      var targeted' := targeted[target := true];
      AttachStep(m.states, m.transitions, i, transitions, targeted, transitions', targeted');
      transitions, targeted := transitions', targeted';
      i := i + 1;
    }
    assert m.transitions[..i] == m.transitions;
  }

  /** Sum of the lengths of the per-node transition lists. */
  function TotalLength(lists: seq<seq<TransitionInfo>>): nat {
    if lists == [] then 0 else |lists[0]| + TotalLength(lists[1..])
  }

  /** The per-node lists of all nodes, by handle. */
  function AllOutEdges(states: seq<string>, ts: seq<Transition>): (r: seq<seq<TransitionInfo>>)
    requires EndpointsDeclared(states, ts)
    ensures |r| == |states|
  {
    seq(|states|, h requires 0 <= h < |states| => OutEdges(states, ts, h))
  }

  lemma {:induction false} TotalLengthGrow(lists: seq<seq<TransitionInfo>>, h: nat, e: TransitionInfo)
    requires h < |lists|
    ensures TotalLength(lists[h := lists[h] + [e]]) == TotalLength(lists) + 1
  {
    if h > 0 {
      TotalLengthGrow(lists[1..], h - 1, e);
      assert lists[h := lists[h] + [e]][1..] == lists[1..][h - 1 := lists[h] + [e]];
    }
  }

  /** Every transition lands in exactly one node's list: the lists hold |ts| entries in all. */
  lemma {:induction false} OutEdgesPartition(states: seq<string>, ts: seq<Transition>)
    requires EndpointsDeclared(states, ts)
    ensures TotalLength(AllOutEdges(states, ts)) == |ts|
  {
    if ts == [] {
      assert AllOutEdges(states, ts) == NoEdges(|states|);
      TotalLengthEmpty(|states|);
    } else {
      var pre := ts[..|ts| - 1];
      var t := ts[|ts| - 1];
      OutEdgesPartition(states, pre);
      var src := IndexOf(states, t.source);
      var before := AllOutEdges(states, pre);
      var after := before[src := before[src] + [InfoOf(states, t)]];
      forall h | 0 <= h < |states| ensures AllOutEdges(states, ts)[h] == after[h] {
        assert AllOutEdges(states, ts)[h] == OutEdges(states, ts, h);
        assert before[h] == OutEdges(states, pre, h);
      }
      assert AllOutEdges(states, ts) == after;
      TotalLengthGrow(before, src, InfoOf(states, t));
    }
  }

  /** n nodes without transitions. */
  function NoEdges(n: nat): (r: seq<seq<TransitionInfo>>)
    ensures |r| == n && forall h :: 0 <= h < n ==> r[h] == []
  {
    seq(n, _ => [])
  }

  lemma {:induction false} TotalLengthEmpty(n: nat)
    ensures TotalLength(NoEdges(n)) == 0
  {
    if n > 0 {
      assert NoEdges(n)[1..] == NoEdges(n - 1);
      TotalLengthEmpty(n - 1);
    }
  }

  /** Every entry of a node's list comes from a transition that leaves it. */
  lemma {:induction false} OutEdgesSound(states: seq<string>, ts: seq<Transition>, h: nat, e: TransitionInfo)
    requires EndpointsDeclared(states, ts) && e in OutEdges(states, ts, h)
    ensures exists i :: 0 <= i < |ts| && IndexOf(states, ts[i].source) == h && InfoOf(states, ts[i]) == e
  {
    var pre := ts[..|ts| - 1];
    if e in OutEdges(states, pre, h) {
      OutEdgesSound(states, pre, h, e);
      var i :| 0 <= i < |pre| && IndexOf(states, pre[i].source) == h && InfoOf(states, pre[i]) == e;
      assert ts[i] == pre[i];
    } else {
      assert IndexOf(states, ts[|ts| - 1].source) == h && InfoOf(states, ts[|ts| - 1]) == e;
    }
  }

  /** Every transition that leaves a node is in the node's list. */
  lemma {:induction false} OutEdgesComplete(states: seq<string>, ts: seq<Transition>, h: nat, i: nat)
    requires EndpointsDeclared(states, ts) && i < |ts| && IndexOf(states, ts[i].source) == h
    ensures InfoOf(states, ts[i]) in OutEdges(states, ts, h)
  {
    var pre := ts[..|ts| - 1];
    if i < |pre| {
      OutEdgesComplete(states, pre, h, i);
      assert pre[i] == ts[i];
    }
  }

  /** A node's list holds exactly the transitions that leave it. */
  lemma OutEdgesMembership(states: seq<string>, ts: seq<Transition>, h: nat, e: TransitionInfo)
    requires EndpointsDeclared(states, ts)
    ensures e in OutEdges(states, ts, h) <==>
      exists i :: 0 <= i < |ts| && IndexOf(states, ts[i].source) == h && InfoOf(states, ts[i]) == e
  {
    if e in OutEdges(states, ts, h) {
      OutEdgesSound(states, ts, h, e);
    }
    if exists i :: 0 <= i < |ts| && IndexOf(states, ts[i].source) == h && InfoOf(states, ts[i]) == e {
      var i :| 0 <= i < |ts| && IndexOf(states, ts[i].source) == h && InfoOf(states, ts[i]) == e;
      OutEdgesComplete(states, ts, h, i);
    }
  }

  // ----- Totals over a permuted node list -----

  ghost predicate HandlesIn(lists: seq<seq<TransitionInfo>>, o: seq<nat>) {
    forall i :: 0 <= i < |o| ==> o[i] < |lists|
  }

  /** The total length of the lists at the handles o lists, in that order. */
  function SumOver(lists: seq<seq<TransitionInfo>>, o: seq<nat>): nat
    requires HandlesIn(lists, o)
  {
    if o == [] then 0 else |lists[o[0]]| + SumOver(lists, o[1..])
  }

  lemma {:induction false} SumOverSnoc(lists: seq<seq<TransitionInfo>>, o: seq<nat>, x: nat)
    requires HandlesIn(lists, o) && x < |lists|
    ensures HandlesIn(lists, o + [x]) && SumOver(lists, o + [x]) == SumOver(lists, o) + |lists[x]|
  {
    if o != [] {
      assert (o + [x])[1..] == o[1..] + [x];
      SumOverSnoc(lists, o[1..], x);
    }
  }

  lemma {:induction false} TotalLengthSnoc(lists: seq<seq<TransitionInfo>>, k: nat)
    requires k < |lists|
    ensures TotalLength(lists[..k + 1]) == TotalLength(lists[..k]) + |lists[k]|
  {
    if k > 0 {
      assert lists[..k + 1][1..] == lists[1..][..k];
      assert lists[..k][1..] == lists[1..][..k - 1];
      TotalLengthSnoc(lists[1..], k - 1);
    } else {
      assert lists[..1][1..] == [];
    }
  }

  /** Summing over the handles in declaration order gives the total length. */
  lemma {:induction false} SumOverHandles(lists: seq<seq<TransitionInfo>>, k: nat)
    requires k <= |lists|
    ensures HandlesIn(lists, Handles(k)) && SumOver(lists, Handles(k)) == TotalLength(lists[..k])
  {
    if k > 0 {
      SumOverHandles(lists, k - 1);
      assert Handles(k) == Handles(k - 1) + [k - 1];
      SumOverSnoc(lists, Handles(k - 1), k - 1);
      TotalLengthSnoc(lists, k - 1);
    }
  }

  lemma {:induction false} SumOverWithout(lists: seq<seq<TransitionInfo>>, o: seq<nat>, k: nat)
    requires HandlesIn(lists, o) && k < |o|
    ensures HandlesIn(lists, Without(o, k))
    ensures SumOver(lists, o) == |lists[o[k]]| + SumOver(lists, Without(o, k))
  {
    var w := Without(o, k);
    if k > 0 {
      var t := o[1..];
      SumOverWithout(lists, t, k - 1);
      assert t[k - 1] == o[k];
      assert w == [o[0]] + Without(t, k - 1);
      assert w[0] == o[0] && w[1..] == Without(t, k - 1);
    } else {
      assert w == o[1..];
    }
  }

  /** The total does not depend on the order the handles are listed in. */
  lemma {:induction false} SumOverPermutation(lists: seq<seq<TransitionInfo>>, o: seq<nat>, o': seq<nat>)
    requires HandlesIn(lists, o) && HandlesIn(lists, o') && multiset(o) == multiset(o')
    ensures SumOver(lists, o) == SumOver(lists, o')
  {
    if o == [] {
      assert |o'| == |multiset(o')| == 0;
    } else {
      assert o[0] in multiset(o');
      var k :| 0 <= k < |o'| && o'[k] == o[0];
      var rest := Without(o', k);
      MultisetRest(o, o', k);
      SumOverWithout(lists, o', k);
      SumOverPermutation(lists, o[1..], rest);
    }
  }

  /** However the nodes are reordered, their lists hold every transition once. */
  lemma PermutedTotal(states: seq<string>, ts: seq<Transition>, o: seq<nat>)
    requires EndpointsDeclared(states, ts) && multiset(o) == multiset(Handles(|states|))
    requires forall i :: 0 <= i < |o| ==> o[i] < |states|
    ensures HandlesIn(AllOutEdges(states, ts), o) && SumOver(AllOutEdges(states, ts), o) == |ts|
  {
    var lists := AllOutEdges(states, ts);
    SumOverHandles(lists, |lists|);
    assert lists[..|lists|] == lists;
    SumOverPermutation(lists, o, Handles(|states|));
    OutEdgesPartition(states, ts);
  }

  /** Lists of the same lengths have the same total over any handles. */
  lemma {:induction false} SumOverSameLengths(a: seq<seq<TransitionInfo>>, b: seq<seq<TransitionInfo>>, o: seq<nat>)
    requires |a| == |b| && (forall h :: 0 <= h < |a| ==> |a[h]| == |b[h]|) && HandlesIn(a, o)
    ensures HandlesIn(b, o) && SumOver(a, o) == SumOver(b, o)
  {
    if o != [] {
      SumOverSameLengths(a, b, o[1..]);
    }
  }
}
