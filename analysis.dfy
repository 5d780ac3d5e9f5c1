/**
 * analyzeStateMachine of the current exporter: the five steps that turn a
 * machine into the sorted node list every renderer reads. Nodes are named by
 * handle (declaration position); `nodes` holds the StateInfo objects by
 * handle and `stateList` is the returned list, as handles in sorted order.
 */
module Analysis {
  import opened Machines
  import opened Ids
  import opened Comparators
  import opened Sorting
  import opened Graph
  import opened PathLength

  /** The fields of a StateInfo object once the analysis is done. */
  datatype StateInfo = StateInfo(
    index: nat,
    id: string,
    name: string,
    qualifier: Option<Qualifier>,
    targeted: bool,
    pathlength: int,
    transitions: seq<TransitionInfo>)

  /** The objects by handle, and the returned list of them. */
  datatype Model = Model(nodes: seq<StateInfo>, stateList: seq<nat>)

  /** The qualifier chain of step 5; a node matching no case keeps no qualifier. */
  function Classify(isInitial: bool, targeted: bool, hasTransitions: bool): (q: Option<Qualifier>)
    ensures q == Some(Initial) <==> isInitial
    ensures q == Some(Orphan) <==> !isInitial && !targeted && !hasTransitions
    ensures q == Some(Done) <==> !isInitial && targeted && !hasTransitions
    ensures q == Some(Alternate) <==> !isInitial && !targeted && hasTransitions
    ensures q == None <==> !isInitial && targeted && hasTransitions
  {
    if isInitial then Some(Initial)
    else if !targeted && !hasTransitions then Some(Orphan)
    else if !hasTransitions then Some(Done)
    else if !targeted then Some(Alternate)
    else None
  }

  // ----- What the analysis computes, stated on the machine -----

  function InitialHandle(m: Machine): (h: nat)
    requires WellFormed(m)
    ensures h < |m.states| && m.states[h] == m.initial
  {
    IndexOf(m.states, m.initial)
  }

  /** The per-node transition lists in input order (steps 1 and 2). */
  function Edges(m: Machine): (e: seq<seq<TransitionInfo>>)
    requires WellFormed(m)
    ensures |e| == |m.states| && EdgesIn(e)
    ensures forall h :: 0 <= h < |m.states| ==> e[h] == OutEdges(m.states, m.transitions, h)
  {
    AllOutEdges(m.states, m.transitions)
  }

  /** The path lengths of step 3. */
  function Lengths(m: Machine): (pl: seq<int>)
    requires WellFormed(m)
    ensures |pl| == |m.states|
  {
    PathLengths(Edges(m), InitialHandle(m))
  }

  /** What compare reads of node h during the sorts of step 4. */
  function Key(m: Machine, h: nat): StateKey
    requires WellFormed(m) && h < |m.states|
  {
    StateKey(h, h == InitialHandle(m), Lengths(m)[h], m.states[h])
  }

  function NodeEntries(m: Machine): (r: seq<Entry<nat>>)
    requires WellFormed(m)
    ensures |r| == |m.states|
    ensures forall h :: 0 <= h < |m.states| ==> r[h] == Entry(Key(m, h), h)
  {
    seq(|m.states|, h requires 0 <= h < |m.states| => Entry(Key(m, h), h))
  }

  /** The returned list: the declared nodes, stably sorted by compare. */
  function StateOrder(m: Machine): (r: seq<nat>)
    requires WellFormed(m)
    ensures |r| == |m.states| && forall i :: 0 <= i < |r| ==> r[i] < |m.states|
  {
    var s := Sort(Layout, NodeEntries(m));
    NodeKeyedPermutation(m, s, NodeEntries(m));
    Items(s)
  }

  function TransitionEntries(m: Machine, ts: seq<TransitionInfo>): (r: seq<Entry<TransitionInfo>>)
    requires WellFormed(m) && forall j :: 0 <= j < |ts| ==> ts[j].target < |m.states|
    ensures |r| == |ts| && Items(r) == ts
    ensures forall j :: 0 <= j < |ts| ==> r[j] == Entry(Key(m, ts[j].target), ts[j])
  {
    seq(|ts|, j requires 0 <= j < |ts| => Entry(Key(m, ts[j].target), ts[j]))
  }

  /** Node h's transitions, stably sorted by compare on their targets. */
  function SortedTransitions(m: Machine, h: nat): seq<TransitionInfo>
    requires WellFormed(m) && h < |m.states|
  {
    Items(Sort(Layout, TransitionEntries(m, Edges(m)[h])))
  }

  /** Node h after step 5, given the position i it was sorted to. */
  ghost function FinalNode(m: Machine, h: nat, i: nat): StateInfo
    requires WellFormed(m) && h < |m.states|
  {
    var targeted := Targeted(m.states, m.transitions, h);
    StateInfo(
      i,
      IdOf(m.states[h], i + 1),
      m.states[h],
      Classify(h == InitialHandle(m), targeted, Edges(m)[h] != []),
      targeted,
      Lengths(m)[h],
      SortedTransitions(m, h))
  }

  /** Node h before step 5: no index or id yet, and a qualifier only on the initial node. */
  ghost function PendingNode(m: Machine, h: nat): StateInfo
    requires WellFormed(m) && h < |m.states|
  {
    StateInfo(
      0, "", m.states[h],
      if h == InitialHandle(m) then Some(Initial) else None,
      Targeted(m.states, m.transitions, h),
      Lengths(m)[h],
      Edges(m)[h])
  }

  /** The model is what analyzeStateMachine returns for m. */
  ghost predicate IsAnalysisOf(m: Machine, r: Model) {
    && WellFormed(m)
    && |r.nodes| == |m.states|
    && r.stateList == StateOrder(m)
    && (forall i :: 0 <= i < |r.stateList| ==> r.stateList[i] < |r.nodes| && r.nodes[r.stateList[i]].index == i)
    && (forall h {:trigger FinalNode(m, h, r.nodes[h].index)} :: 0 <= h < |r.nodes| ==> r.nodes[h] == FinalNode(m, h, r.nodes[h].index))
  }

  // ----- The keys and the comparator on them -----

  function AllKeys(m: Machine): set<StateKey>
    requires WellFormed(m)
  {
    set h | 0 <= h < |m.states| :: Key(m, h)
  }

  /** compare is a lawful order on the nodes of one analysis. */
  lemma KeysLawful(m: Machine)
    requires WellFormed(m)
    ensures LawfulOn(Layout, AllKeys(m))
  {
    forall a, b | a in AllKeys(m) && b in AllKeys(m) ensures Coherent(a, b) {
      var h1 :| 0 <= h1 < |m.states| && a == Key(m, h1);
      var h2 :| 0 <= h2 < |m.states| && b == Key(m, h2);
    }
    LawfulSets(AllKeys(m));
  }

  /** compare(a, b) is 0 exactly when a and b are the same node. */
  lemma KeyCompareZero(m: Machine, a: nat, b: nat)
    requires WellFormed(m) && a < |m.states| && b < |m.states|
    ensures Compare(Key(m, a), Key(m, b)) == 0 <==> a == b
  {
    CompareOrdersLayout(Key(m, a), Key(m, b));
  }

  /** The initial node sorts before every other node. */
  lemma InitialComparesFirst(m: Machine, h: nat)
    requires WellFormed(m) && h < |m.states| && h != InitialHandle(m)
    ensures Compare(Key(m, InitialHandle(m)), Key(m, h)) < 0
    ensures Compare(Key(m, h), Key(m, InitialHandle(m))) > 0
  {
  }

  // ----- The node order -----

  ghost predicate NodeKeyed(m: Machine, s: seq<Entry<nat>>)
    requires WellFormed(m)
  {
    forall j :: 0 <= j < |s| ==> s[j].item < |m.states| && s[j].key == Key(m, s[j].item)
  }

  lemma NodeKeyedPermutation(m: Machine, s: seq<Entry<nat>>, t: seq<Entry<nat>>)
    requires WellFormed(m) && multiset(s) == multiset(t) && NodeKeyed(m, t)
    ensures NodeKeyed(m, s)
  {
    forall j | 0 <= j < |s| ensures s[j].item < |m.states| && s[j].key == Key(m, s[j].item) {
      assert s[j] in multiset(t);
      var k :| 0 <= k < |t| && t[k] == s[j];
    }
  }

  lemma NodeKeysIn(m: Machine, s: seq<Entry<nat>>)
    requires WellFormed(m) && NodeKeyed(m, s)
    ensures KeysIn(s, AllKeys(m))
  {
    forall j | 0 <= j < |s| ensures s[j].key in AllKeys(m) {
      assert s[j].key == Key(m, s[j].item);
    }
  }

  /** The returned list is a permutation of the declared nodes. */
  lemma StateOrderPermutation(m: Machine)
    requires WellFormed(m)
    ensures multiset(StateOrder(m)) == multiset(Handles(|m.states|))
    ensures |StateOrder(m)| == |m.states| && Distinct(StateOrder(m))
    ensures forall h :: 0 <= h < |m.states| ==> h in StateOrder(m)
    ensures forall i :: 0 <= i < |m.states| ==> StateOrder(m)[i] < |m.states|
  {
    var e := NodeEntries(m);
    assert Items(e) == Handles(|m.states|);
    ItemsMultiset(Sort(Layout, e), e);
    MultisetDistinct(StateOrder(m), Handles(|m.states|));
    forall h | 0 <= h < |m.states| ensures h in StateOrder(m) {
      assert Handles(|m.states|)[h] == h;
      assert h in multiset(Handles(|m.states|));
    }
    forall i | 0 <= i < |m.states| ensures StateOrder(m)[i] < |m.states| {
      assert StateOrder(m)[i] in multiset(Handles(|m.states|));
    }
  }

  /** The returned list is in strictly increasing compare order. */
  lemma StateOrderSorted(m: Machine)
    requires WellFormed(m)
    ensures |StateOrder(m)| == |m.states|
    ensures forall i, j :: 0 <= i < j < |m.states| ==>
      Compare(Key(m, StateOrder(m)[i]), Key(m, StateOrder(m)[j])) < 0
  {
    var e := NodeEntries(m);
    var s := Sort(Layout, e);
    NodeKeyedPermutation(m, s, e);
    NodeKeysIn(m, e);
    KeysLawful(m);
    SortSorted(Layout, e, AllKeys(m));
    StateOrderPermutation(m);
    forall i, j | 0 <= i < j < |m.states|
      ensures Compare(Key(m, StateOrder(m)[i]), Key(m, StateOrder(m)[j])) < 0
    {
      KeyCompareZero(m, s[i].item, s[j].item);
    }
  }

  /** The initial node is first in the returned list. */
  lemma InitialIsFirst(m: Machine)
    requires WellFormed(m)
    ensures StateOrder(m)[0] == InitialHandle(m)
  {
    StateOrderPermutation(m);
    StateOrderSorted(m);
    var o := StateOrder(m);
    assert InitialHandle(m) in o;
    var p :| 0 <= p < |o| && o[p] == InitialHandle(m);
    if p != 0 {
      InitialComparesFirst(m, o[0]);
    }
  }

  // ----- The transition order -----

  ghost predicate TransitionKeyed(m: Machine, s: seq<Entry<TransitionInfo>>)
    requires WellFormed(m)
  {
    forall j :: 0 <= j < |s| ==> s[j].item.target < |m.states| && s[j].key == Key(m, s[j].item.target)
  }

  lemma TransitionKeyedPermutation(m: Machine, s: seq<Entry<TransitionInfo>>, t: seq<Entry<TransitionInfo>>)
    requires WellFormed(m) && multiset(s) == multiset(t) && TransitionKeyed(m, t)
    ensures TransitionKeyed(m, s)
  {
    forall j | 0 <= j < |s| ensures s[j].item.target < |m.states| && s[j].key == Key(m, s[j].item.target) {
      assert s[j] in multiset(t);
      var k :| 0 <= k < |t| && t[k] == s[j];
    }
  }

  lemma TransitionKeysIn(m: Machine, s: seq<Entry<TransitionInfo>>)
    requires WellFormed(m) && TransitionKeyed(m, s)
    ensures KeysIn(s, AllKeys(m))
  {
    forall j | 0 <= j < |s| ensures s[j].key in AllKeys(m) {
      assert s[j].key == Key(m, s[j].item.target);
    }
  }

  /** The transitions of ts that go to node g, in their order in ts. */
  function ToTarget(ts: seq<TransitionInfo>, g: nat): (r: seq<TransitionInfo>)
    ensures |r| <= |ts|
  {
    if ts == [] then []
    else (if ts[0].target == g then [ts[0]] else []) + ToTarget(ts[1..], g)
  }

  /**
   * When the comparator tells node g apart from every other node, the entries
   * tied with g's key are exactly the transitions to g. keys[h] is node h's key.
   */
  lemma {:induction false} TiesToTarget(o: SortOrder, keys: seq<StateKey>, s: seq<Entry<TransitionInfo>>, g: nat)
    requires g < |keys| && forall a :: 0 <= a < |keys| ==> (Cmp(o, keys[a], keys[g]) == 0 <==> a == g)
    requires forall j :: 0 <= j < |s| ==> s[j].item.target < |keys| && s[j].key == keys[s[j].item.target]
    ensures Items(Ties(o, s, keys[g])) == ToTarget(Items(s), g)
  {
    if s != [] {
      TiesToTarget(o, keys, s[1..], g);
      var head := if Cmp(o, s[0].key, keys[g]) == 0 then [s[0]] else [];
      ItemsConcat(head, Ties(o, s[1..], keys[g]));
      assert Items(s)[1..] == Items(s[1..]);
    }
  }

  /** Node h's key, for every node. */
  ghost function KeyList(m: Machine): (r: seq<StateKey>)
    requires WellFormed(m)
    ensures |r| == |m.states| && forall h :: 0 <= h < |m.states| ==> r[h] == Key(m, h)
  {
    seq(|m.states|, h requires 0 <= h < |m.states| => Key(m, h))
  }

  /** Each node's sorted list holds the same transitions as its input-order list. */
  lemma TransitionsPermutation(m: Machine, h: nat)
    requires WellFormed(m) && h < |m.states|
    ensures multiset(SortedTransitions(m, h)) == multiset(Edges(m)[h])
  {
    var e := TransitionEntries(m, Edges(m)[h]);
    ItemsMultiset(Sort(Layout, e), e);
  }

  /** Each node's sorted list is in compare order of the targets. */
  lemma TransitionsSorted(m: Machine, h: nat)
    requires WellFormed(m) && h < |m.states|
    ensures forall j :: 0 <= j < |SortedTransitions(m, h)| ==> SortedTransitions(m, h)[j].target < |m.states|
    ensures forall i, j :: 0 <= i < j < |SortedTransitions(m, h)| ==>
      Compare(Key(m, SortedTransitions(m, h)[i].target), Key(m, SortedTransitions(m, h)[j].target)) <= 0
  {
    var e := TransitionEntries(m, Edges(m)[h]);
    var s := Sort(Layout, e);
    TransitionKeyedPermutation(m, s, e);
    TransitionKeysIn(m, e);
    KeysLawful(m);
    SortSorted(Layout, e, AllKeys(m));
  }

  /** The sort is stable: the transitions to any one target keep their input order. */
  lemma TransitionsStable(m: Machine, h: nat, g: nat)
    requires WellFormed(m) && h < |m.states| && g < |m.states|
    ensures ToTarget(SortedTransitions(m, h), g) == ToTarget(Edges(m)[h], g)
  {
    var e := TransitionEntries(m, Edges(m)[h]);
    var keys := KeyList(m);
    forall a | 0 <= a < |keys| ensures Cmp(Layout, keys[a], keys[g]) == 0 <==> a == g {
      KeyCompareZero(m, a, g);
    }
    TransitionKeysIn(m, e);
    KeysLawful(m);
    StableByTarget(Layout, keys, AllKeys(m), e, g);
  }

  /** Sorting entries keyed by their target keeps the order of the transitions to one target. */
  lemma StableByTarget(o: SortOrder, keys: seq<StateKey>, keyset: set<StateKey>, e: seq<Entry<TransitionInfo>>, g: nat)
    requires g < |keys| && forall a :: 0 <= a < |keys| ==> (Cmp(o, keys[a], keys[g]) == 0 <==> a == g)
    requires forall j :: 0 <= j < |e| ==> e[j].item.target < |keys| && e[j].key == keys[e[j].item.target]
    requires keys[g] in keyset && KeysIn(e, keyset) && LawfulOn(o, keyset)
    ensures ToTarget(Items(Sort(o, e)), g) == ToTarget(Items(e), g)
  {
    var s := Sort(o, e);
    forall j | 0 <= j < |s| ensures s[j].item.target < |keys| && s[j].key == keys[s[j].item.target] {
      assert s[j] in multiset(e);
      var k :| 0 <= k < |e| && e[k] == s[j];
    }
    SortStable(o, e, keys[g], keyset);
    TiesToTarget(o, keys, e, g);
    TiesToTarget(o, keys, s, g);
  }

  // ----- Facts about a finished analysis -----

  /** index and position are inverse: each node's index is where the returned list holds it. */
  lemma IndexIsPosition(m: Machine, r: Model, h: nat)
    requires IsAnalysisOf(m, r) && h < |m.states|
    ensures r.nodes[h].index < |m.states| && r.stateList[r.nodes[h].index] == h
  {
    StateOrderPermutation(m);
    assert h in r.stateList;
    var p :| 0 <= p < |r.stateList| && r.stateList[p] == h;
    assert r.nodes[r.stateList[p]].index == p;
  }

  /** Exactly one node is qualified initial: the initial state's, which the list holds first. */
  lemma OneInitial(m: Machine, r: Model)
    requires IsAnalysisOf(m, r)
    ensures forall h :: 0 <= h < |m.states| ==> (r.nodes[h].qualifier == Some(Initial) <==> h == InitialHandle(m))
    ensures r.stateList[0] == InitialHandle(m) && r.nodes[InitialHandle(m)].index == 0
  {
    InitialIsFirst(m);
    forall h | 0 <= h < |m.states| ensures r.nodes[h].qualifier == Some(Initial) <==> h == InitialHandle(m) {
      assert r.nodes[h] == FinalNode(m, h, r.nodes[h].index);
    }
  }

  /** Generated ids are identifier-safe, and distinct nodes get distinct ids. */
  lemma IdsUnique(m: Machine, r: Model, h1: nat, h2: nat)
    requires IsAnalysisOf(m, r) && h1 < |m.states| && h2 < |m.states|
    ensures AllIdChars(r.nodes[h1].id) && |r.nodes[h1].id| >= 2
    ensures h1 != h2 ==> r.nodes[h1].id != r.nodes[h2].id
  {
    var k1, k2 := IdIndices(m, r, h1, h2);
    IdOfShape(m.states[h1], k1);
    if h1 != h2 {
      IdOfInjective(m.states[h1], k1, m.states[h2], k2);
    }
  }

  /** The disambiguators of two nodes' ids: their index + 1, apart for different nodes. */
  lemma IdIndices(m: Machine, r: Model, h1: nat, h2: nat) returns (k1: nat, k2: nat)
    requires IsAnalysisOf(m, r) && h1 < |m.states| && h2 < |m.states|
    ensures r.nodes[h1].id == IdOf(m.states[h1], k1) && r.nodes[h2].id == IdOf(m.states[h2], k2)
    ensures h1 != h2 ==> k1 != k2
  {
    k1, k2 := r.nodes[h1].index + 1, r.nodes[h2].index + 1;
    assert r.nodes[h1] == FinalNode(m, h1, r.nodes[h1].index);
    assert r.nodes[h2] == FinalNode(m, h2, r.nodes[h2].index);
    IndexIsPosition(m, r, h1);
    IndexIsPosition(m, r, h2);
  }

  /** Each node carries its state's name. */
  lemma NodeNames(m: Machine, r: Model)
    requires IsAnalysisOf(m, r)
    ensures forall h :: 0 <= h < |r.nodes| ==> r.nodes[h].name == m.states[h]
  {
    forall h | 0 <= h < |r.nodes| ensures r.nodes[h].name == m.states[h] {
      assert r.nodes[h] == FinalNode(m, h, r.nodes[h].index);
    }
  }

  /** Every handle a model holds names one of its nodes. */
  ghost predicate Closed(r: Model) {
    && (forall i :: 0 <= i < |r.stateList| ==> r.stateList[i] < |r.nodes|)
    && (forall h, j :: 0 <= h < |r.nodes| && 0 <= j < |r.nodes[h].transitions| ==>
          r.nodes[h].transitions[j].target < |r.nodes|)
  }

  /** A finished model lists each node once and its transitions lead to its nodes. */
  lemma ClosedModel(m: Machine, r: Model)
    requires IsAnalysisOf(m, r)
    ensures Closed(r) && |r.nodes| == |r.stateList| == |m.states| && Distinct(r.stateList)
  {
    StateOrderPermutation(m);
    forall h, j | 0 <= h < |r.nodes| && 0 <= j < |r.nodes[h].transitions|
      ensures r.nodes[h].transitions[j].target < |r.nodes|
    {
      NodeTransitions(m, r, h);
      TransitionsSorted(m, h);
    }
  }

  /** A finished node holds its sorted transitions, as many as leave it. */
  lemma NodeTransitions(m: Machine, r: Model, h: nat)
    requires IsAnalysisOf(m, r) && h < |m.states|
    ensures r.nodes[h].transitions == SortedTransitions(m, h)
    ensures |r.nodes[h].transitions| == |Edges(m)[h]|
  {
    assert r.nodes[h] == FinalNode(m, h, r.nodes[h].index);
    TransitionsPermutation(m, h);
    assert |multiset(SortedTransitions(m, h))| == |multiset(Edges(m)[h])|;
  }

  /** The transition lists of the nodes, by handle. */
  function TransitionLists(r: Model): (l: seq<seq<TransitionInfo>>)
    ensures |l| == |r.nodes| && forall h :: 0 <= h < |r.nodes| ==> l[h] == r.nodes[h].transitions
  {
    seq(|r.nodes|, h requires 0 <= h < |r.nodes| => r.nodes[h].transitions)
  }

  /** Over the returned list, the nodes hold as many transitions as the input has. */
  lemma TransitionTotal(m: Machine, r: Model)
    requires IsAnalysisOf(m, r)
    ensures HandlesIn(TransitionLists(r), r.stateList)
    ensures SumOver(TransitionLists(r), r.stateList) == |m.transitions|
  {
    StateOrderPermutation(m);
    PermutedTotal(m.states, m.transitions, r.stateList);
    forall h | 0 <= h < |m.states| ensures |TransitionLists(r)[h]| == |Edges(m)[h]| {
      NodeTransitions(m, r, h);
    }
    SumOverSameLengths(Edges(m), TransitionLists(r), r.stateList);
  }

  /** The qualifier chain over the finished nodes; done nodes have no transitions. */
  lemma Qualifiers(m: Machine, r: Model, h: nat)
    requires IsAnalysisOf(m, r) && h < |m.states|
    ensures var q := r.nodes[h].qualifier;
      var init := h == InitialHandle(m);
      var hasTransitions := r.nodes[h].transitions != [];
      && (r.nodes[h].targeted <==> Targeted(m.states, m.transitions, h))
      && (q == Some(Initial) <==> init)
      && (q == Some(Orphan) <==> !init && !r.nodes[h].targeted && !hasTransitions)
      && (q == Some(Done) <==> !init && r.nodes[h].targeted && !hasTransitions)
      && (q == Some(Alternate) <==> !init && !r.nodes[h].targeted && hasTransitions)
      && (q == None <==> !init && r.nodes[h].targeted && hasTransitions)
  {
    NodeTransitions(m, r, h);
    assert r.nodes[h] == FinalNode(m, h, r.nodes[h].index);
  }

  // ----- analyzeStateMachine -----

  /** What compare reads of node h in the current objects. */
  function NodeKey(nodes: seq<StateInfo>, h: nat): StateKey
    requires h < |nodes|
  {
    StateKey(h, nodes[h].qualifier == Some(Initial), nodes[h].pathlength, nodes[h].name)
  }

  /** The node list as sort entries, keyed by what compare reads. */
  function NodeEntriesOf(nodes: seq<StateInfo>): (r: seq<Entry<nat>>)
    ensures |r| == |nodes| && forall h :: 0 <= h < |nodes| ==> r[h] == Entry(NodeKey(nodes, h), h)
  {
    seq(|nodes|, h requires 0 <= h < |nodes| => Entry(NodeKey(nodes, h), h))
  }

  /** stateList.sort with compare. */
  function SortNodes(nodes: seq<StateInfo>): seq<nat>
  {
    Items(Sort(Layout, NodeEntriesOf(nodes)))
  }

  /** state.transitions.sort with compare on the targets. */
  function SortByTarget(nodes: seq<StateInfo>, ts: seq<TransitionInfo>): seq<TransitionInfo>
    requires forall j :: 0 <= j < |ts| ==> ts[j].target < |nodes|
  {
    Items(Sort(Layout, seq(|ts|, j requires 0 <= j < |ts| => Entry(NodeKey(nodes, ts[j].target), ts[j]))))
  }

  /** The objects read the same keys as the specification. */
  ghost predicate KeysAgree(m: Machine, nodes: seq<StateInfo>)
    requires WellFormed(m)
  {
    |nodes| == |m.states| && forall h :: 0 <= h < |nodes| ==> NodeKey(nodes, h) == Key(m, h)
  }

  lemma SortNodesAgree(m: Machine, nodes: seq<StateInfo>)
    requires WellFormed(m) && KeysAgree(m, nodes)
    ensures SortNodes(nodes) == StateOrder(m)
  {
    assert NodeEntriesOf(nodes) == NodeEntries(m);
  }

  lemma SortByTargetAgrees(m: Machine, nodes: seq<StateInfo>, h: nat)
    requires WellFormed(m) && KeysAgree(m, nodes) && h < |m.states|
    ensures forall j :: 0 <= j < |Edges(m)[h]| ==> Edges(m)[h][j].target < |nodes|
    ensures SortByTarget(nodes, Edges(m)[h]) == SortedTransitions(m, h)
  {
    var ts := Edges(m)[h];
    assert seq(|ts|, j requires 0 <= j < |ts| => Entry(NodeKey(nodes, ts[j].target), ts[j])) == TransitionEntries(m, ts);
  }

  /** Step 5 on one node keeps the keys the sorts read. */
  lemma FinishOne(m: Machine, nodes: seq<StateInfo>, h: nat, i: nat)
    requires WellFormed(m) && KeysAgree(m, nodes) && h < |m.states|
    requires nodes[h] == PendingNode(m, h)
    ensures KeysAgree(m, nodes[h := FinalNode(m, h, i)])
  {
    var f := FinalNode(m, h, i);
    assert NodeKey(nodes, h) == StateKey(h, f.qualifier == Some(Initial), f.pathlength, f.name);
    var nodes' := nodes[h := f];
    forall g | 0 <= g < |nodes'| ensures NodeKey(nodes', g) == Key(m, g) {
      if g != h {
        assert NodeKey(nodes', g) == NodeKey(nodes, g);
      }
    }
  }

  /**
   * The body of step 5 for the node at position i: its index, its id, its
   * qualifier by the if-chain, and its transitions sorted by target.
   */
  method FinishNode(m: Machine, nodes: seq<StateInfo>, info: StateInfo, state: nat, i: nat) returns (r: StateInfo)
    requires WellFormed(m) && KeysAgree(m, nodes) && state < |m.states|
    requires info == PendingNode(m, state)
    ensures r == FinalNode(m, state, i)
  {
    var id := GenerateId(info.name, i + 1);
    var qualifier := info.qualifier;
    if state == InitialHandle(m) {
      qualifier := Some(Initial);
    } else if !info.targeted && |info.transitions| == 0 {
      qualifier := Some(Orphan);
    } else if |info.transitions| == 0 {
      qualifier := Some(Done);
    } else if !info.targeted {
      qualifier := Some(Alternate);
    }
    assert qualifier == Classify(state == InitialHandle(m), info.targeted, info.transitions != []) == FinalNode(m, state, i).qualifier;
    assert info.transitions == Edges(m)[state];
    SortByTargetAgrees(m, nodes, state);
    var sorted := SortByTarget(nodes, info.transitions);
    r := info.(index := i, id := id, qualifier := qualifier, transitions := sorted);
    FinishedFields(m, state, i, info, r);
  }

  /** A pending node with FinalNode's index, id, qualifier and transitions is FinalNode. */
  lemma FinishedFields(m: Machine, h: nat, i: nat, info: StateInfo, r: StateInfo)
    requires WellFormed(m) && h < |m.states| && info == PendingNode(m, h)
    requires r == info.(index := i, id := IdOf(m.states[h], i + 1), qualifier := FinalNode(m, h, i).qualifier, transitions := SortedTransitions(m, h))
    ensures r == FinalNode(m, h, i)
  {
  }

  /**
   * analyzeStateMachine: build the nodes, attach the transitions, compute the
   * path lengths, sort, and give each node its index, id, qualifier and
   * sorted transitions.
   */
  method AnalyzeStateMachine(m: Machine) returns (r: Model)
    requires WellFormed(m)
    ensures IsAnalysisOf(m, r)
  {
    var nodes, initial := PrepareNodes(m);
    PendingKeysAgree(m, nodes);
    SortNodesAgree(m, nodes);
    var stateList := SortNodes(nodes);
    nodes := NumberNodes(m, nodes, stateList, initial);
    r := Model(nodes, stateList);
  }

  /** Steps 1 to 3: the nodes, their transitions in input order, and their path lengths. */
  method PrepareNodes(m: Machine) returns (nodes: seq<StateInfo>, initial: nat)
    requires WellFormed(m)
    ensures initial == InitialHandle(m)
    ensures |nodes| == |m.states| && forall h :: 0 <= h < |m.states| ==> nodes[h] == PendingNode(m, h)
  {
    var n := |m.states|;
    var names, stateMap, found := BuildNodes(m);
    initial := found.value;
    var transitions, targeted := AttachTransitions(m, stateMap);
    assert transitions == Edges(m);
    var pathlength := ComputePathLengths(transitions, initial);
    assert pathlength == Lengths(m);
    nodes := NewNodes(names, initial, targeted, pathlength, transitions);
    PendingNodes(m, targeted);
  }

  /** The objects of step 1 with the fields steps 2 and 3 give them. */
  function NewNodes(names: seq<string>, initial: nat, targeted: seq<bool>, pathlength: seq<int>, transitions: seq<seq<TransitionInfo>>): (r: seq<StateInfo>)
    requires |targeted| == |pathlength| == |transitions| == |names|
    ensures |r| == |names|
  {
    seq(|names|, h requires 0 <= h < |names| =>
      StateInfo(0, "", names[h], if h == initial then Some(Initial) else None, targeted[h], pathlength[h], transitions[h]))
  }

  /** The objects built in steps 1 to 3 are the pending nodes. */
  lemma PendingNodes(m: Machine, targeted: seq<bool>)
    requires WellFormed(m) && |targeted| == |m.states|
    requires forall h :: 0 <= h < |m.states| ==> (targeted[h] <==> Targeted(m.states, m.transitions, h))
    ensures forall h :: 0 <= h < |m.states| ==>
      NewNodes(m.states, InitialHandle(m), targeted, Lengths(m), Edges(m))[h] == PendingNode(m, h)
  {
    var nodes := NewNodes(m.states, InitialHandle(m), targeted, Lengths(m), Edges(m));
    forall h | 0 <= h < |m.states| ensures nodes[h] == PendingNode(m, h) {
      assert targeted[h] == Targeted(m.states, m.transitions, h);
    }
  }

  /** Before step 5 the objects already hold the keys the sorts read. */
  lemma PendingKeysAgree(m: Machine, nodes: seq<StateInfo>)
    requires WellFormed(m) && |nodes| == |m.states|
    requires forall h :: 0 <= h < |m.states| ==> nodes[h] == PendingNode(m, h)
    ensures KeysAgree(m, nodes)
  {
    forall h | 0 <= h < |nodes| ensures NodeKey(nodes, h) == Key(m, h) {
      assert nodes[h] == PendingNode(m, h);
    }
  }


  /** Once every position of the list is finished, every node is. */
  lemma AllFinished(m: Machine, nodes: seq<StateInfo>)
    requires WellFormed(m) && |nodes| == |m.states|
    requires Placed(nodes, StateOrder(m), FinalList(m), PendingList(m), |m.states|)
    ensures forall i :: 0 <= i < |m.states| ==> nodes[StateOrder(m)[i]].index == i
    ensures forall h :: 0 <= h < |nodes| ==> nodes[h] == FinalNode(m, h, nodes[h].index)
  {
    var o := StateOrder(m);
    StateOrderPermutation(m);
    forall i | 0 <= i < |o| ensures nodes[o[i]].index == i {
      assert nodes[o[i]] == FinalList(m)[i] == FinalNode(m, o[i], i);
    }
    forall h | 0 <= h < |nodes| ensures nodes[h] == FinalNode(m, h, nodes[h].index) {
      assert h in o;
      var p :| 0 <= p < |o| && o[p] == h;
      assert nodes[h] == FinalList(m)[p] == FinalNode(m, h, p);
    }
  }

  /** Every node as step 5 leaves it, by position in the returned list. */
  ghost function FinalList(m: Machine): seq<StateInfo>
    requires WellFormed(m)
  {
    var o := StateOrder(m);
    seq(|o|, p requires 0 <= p < |o| => FinalNode(m, o[p], p))
  }

  /** Every node as step 5 finds it, by position in the returned list. */
  ghost function PendingList(m: Machine): seq<StateInfo>
    requires WellFormed(m)
  {
    var o := StateOrder(m);
    seq(|o|, p requires 0 <= p < |o| => PendingNode(m, o[p]))
  }

  /** The state of the step-5 loop after the first i positions. */
  ghost predicate Numbered(m: Machine, nodes: seq<StateInfo>, i: nat)
    requires WellFormed(m)
  {
    KeysAgree(m, nodes) && Placed(nodes, StateOrder(m), FinalList(m), PendingList(m), i)
  }

  lemma NumberedStart(m: Machine, nodes: seq<StateInfo>)
    requires WellFormed(m) && KeysAgree(m, nodes)
    requires forall h :: 0 <= h < |m.states| ==> nodes[h] == PendingNode(m, h)
    ensures Numbered(m, nodes, 0)
  {
    var o := StateOrder(m);
    forall p | 0 <= p < |o| ensures nodes[o[p]] == PendingList(m)[p] {
      assert PendingList(m)[p] == PendingNode(m, o[p]);
    }
  }

  /** One turn of the step-5 loop. */
  lemma NumberedStep(m: Machine, nodes: seq<StateInfo>, i: nat)
    requires WellFormed(m) && Numbered(m, nodes, i) && i < |m.states|
    ensures nodes[StateOrder(m)[i]] == PendingNode(m, StateOrder(m)[i])
    ensures Numbered(m, nodes[StateOrder(m)[i] := FinalNode(m, StateOrder(m)[i], i)], i + 1)
  {
    var o := StateOrder(m);
    StateOrderPermutation(m);
    PlacedStep(nodes, o, FinalList(m), PendingList(m), i);
    assert FinalList(m)[i] == FinalNode(m, o[i], i);
    assert nodes[o[i]] == PendingList(m)[i] == PendingNode(m, o[i]);
    FinishOne(m, nodes, o[i], i);
  }

  /** The loop of step 5 over the sorted list. */
  method NumberNodes(m: Machine, nodes0: seq<StateInfo>, stateList: seq<nat>, initial: nat) returns (nodes: seq<StateInfo>)
    requires WellFormed(m) && initial == InitialHandle(m) && stateList == StateOrder(m)
    requires KeysAgree(m, nodes0)
    requires forall h :: 0 <= h < |m.states| ==> nodes0[h] == PendingNode(m, h)
    ensures |nodes| == |m.states|
    ensures forall i :: 0 <= i < |stateList| ==> nodes[stateList[i]].index == i
    ensures forall h :: 0 <= h < |nodes| ==> nodes[h] == FinalNode(m, h, nodes[h].index)
  {
    var n := |m.states|;
    nodes := nodes0;
    NumberedStart(m, nodes);
    var i := 0;
    while i < n
      invariant 0 <= i <= n && |nodes| == n
      invariant Numbered(m, nodes, i)
    {
      var state := stateList[i];
      NumberedStep(m, nodes, i);
      var info := FinishNode(m, nodes, nodes[state], state, i);
      nodes := nodes[state := info];
      i := i + 1;
    }
    AllFinished(m, nodes);
  }
}
