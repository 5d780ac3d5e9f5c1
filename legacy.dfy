/**
 * analyzeStateMachine of the older PlantUML exporter: the same node building
 * and transition attachment as the current version, but no path lengths and
 * no index; nodes are sorted by name only and each node's transitions by the
 * name of their target.
 */
module Legacy {
  import opened Machines
  import opened Ids
  import opened Comparators
  import opened Sorting
  import opened Graph
  import Analysis

  /** The fields of the older StateInfo object. */
  datatype StateInfo = StateInfo(
    id: string,
    name: string,
    qualifier: Option<Qualifier>,
    targeted: bool,
    transitions: seq<TransitionInfo>)

  /** The objects by handle, and the returned list of them. */
  datatype Model = Model(nodes: seq<StateInfo>, stateList: seq<nat>)

  /** What the name comparator reads of node h: only its name (the handle keeps nodes apart). */
  function NameKey(names: seq<string>, h: nat): StateKey
    requires h < |names|
  {
    StateKey(h, false, 0, names[h])
  }

  function NameEntries(names: seq<string>): (r: seq<Entry<nat>>)
    ensures |r| == |names| && forall h :: 0 <= h < |names| ==> r[h] == Entry(NameKey(names, h), h)
  {
    seq(|names|, h requires 0 <= h < |names| => Entry(NameKey(names, h), h))
  }

  function TargetEntries(names: seq<string>, ts: seq<TransitionInfo>): (r: seq<Entry<TransitionInfo>>)
    requires forall j :: 0 <= j < |ts| ==> ts[j].target < |names|
    ensures |r| == |ts| && Items(r) == ts
    ensures forall j :: 0 <= j < |ts| ==> r[j] == Entry(NameKey(names, ts[j].target), ts[j])
  {
    seq(|ts|, j requires 0 <= j < |ts| => Entry(NameKey(names, ts[j].target), ts[j]))
  }

  /** The returned list: the declared nodes, stably sorted by name. */
  function NameOrder(m: Machine): (r: seq<nat>)
    ensures |r| == |m.states| && forall i :: 0 <= i < |r| ==> r[i] < |m.states|
  {
    var e := NameEntries(m.states);
    var s := Sort(ByName, e);
    assert NameKeyed(m.states, e, NodeHandle);
    NameKeyedPermutation(m.states, s, e, NodeHandle);
    Items(s)
  }

  /** Node h's transitions, stably sorted by the names of their targets. */
  function ByTargetName(m: Machine, h: nat): seq<TransitionInfo>
    requires WellFormed(m) && h < |m.states|
  {
    Items(Sort(ByName, TargetEntries(m.states, Analysis.Edges(m)[h])))
  }

  /** Node h after the numbering loop, given the position i it was sorted to. */
  ghost function FinalNode(m: Machine, h: nat, i: nat): StateInfo
    requires WellFormed(m) && h < |m.states|
  {
    var targeted := Targeted(m.states, m.transitions, h);
    StateInfo(
      IdOf(m.states[h], i + 1),
      m.states[h],
      Analysis.Classify(h == Analysis.InitialHandle(m), targeted, Analysis.Edges(m)[h] != []),
      targeted,
      ByTargetName(m, h))
  }

  /** Node h before the numbering loop: no id and no qualifier yet. */
  ghost function PendingNode(m: Machine, h: nat): StateInfo
    requires WellFormed(m) && h < |m.states|
  {
    StateInfo("", m.states[h], None, Targeted(m.states, m.transitions, h), Analysis.Edges(m)[h])
  }

  /** The model is what the older analyzeStateMachine returns for m. */
  ghost predicate IsAnalysisOf(m: Machine, r: Model) {
    && WellFormed(m)
    && |r.nodes| == |m.states|
    && r.stateList == NameOrder(m)
    && |r.stateList| == |m.states|
    && (forall i :: 0 <= i < |r.stateList| ==>
          r.stateList[i] < |m.states| && r.nodes[r.stateList[i]] == FinalNode(m, r.stateList[i], i))
  }

  // ----- The name order -----

  function AllNameKeys(names: seq<string>): set<StateKey> {
    set h | 0 <= h < |names| :: NameKey(names, h)
  }

  ghost predicate NameKeyed<T>(names: seq<string>, s: seq<Entry<T>>, handle: T -> nat) {
    forall j :: 0 <= j < |s| ==> handle(s[j].item) < |names| && s[j].key == NameKey(names, handle(s[j].item))
  }

  function NodeHandle(h: nat): nat {
    h
  }

  function TargetHandle(t: TransitionInfo): nat {
    t.target
  }

  lemma NameKeyedPermutation<T>(names: seq<string>, s: seq<Entry<T>>, t: seq<Entry<T>>, handle: T -> nat)
    requires multiset(s) == multiset(t) && NameKeyed(names, t, handle)
    ensures NameKeyed(names, s, handle)
  {
    forall j | 0 <= j < |s| ensures handle(s[j].item) < |names| && s[j].key == NameKey(names, handle(s[j].item)) {
      assert s[j] in multiset(t);
      var k :| 0 <= k < |t| && t[k] == s[j];
    }
  }

  lemma NameKeysIn<T>(names: seq<string>, s: seq<Entry<T>>, handle: T -> nat)
    requires NameKeyed(names, s, handle)
    ensures KeysIn(s, AllNameKeys(names))
  {
    forall j | 0 <= j < |s| ensures s[j].key in AllNameKeys(names) {
      assert s[j].key == NameKey(names, handle(s[j].item));
    }
  }

  /** With unique names, two nodes' names compare equal exactly when they are the same node. */
  lemma NameCompareZero(names: seq<string>, a: nat, b: nat)
    requires Distinct(names) && a < |names| && b < |names|
    ensures CompareTo(names[a], names[b]) == 0 <==> a == b
  {
    CompareToLaws(names[a], names[b], names[b]);
  }

  /** The returned list is a permutation of the declared nodes. */
  lemma NameOrderPermutation(m: Machine)
    ensures multiset(NameOrder(m)) == multiset(Handles(|m.states|))
    ensures |NameOrder(m)| == |m.states| && Distinct(NameOrder(m))
    ensures forall h :: 0 <= h < |m.states| ==> h in NameOrder(m)
    ensures forall i :: 0 <= i < |m.states| ==> NameOrder(m)[i] < |m.states|
  {
    var e := NameEntries(m.states);
    assert Items(e) == Handles(|m.states|);
    ItemsMultiset(Sort(ByName, e), e);
    MultisetDistinct(NameOrder(m), Handles(|m.states|));
    forall h | 0 <= h < |m.states| ensures h in NameOrder(m) {
      assert Handles(|m.states|)[h] == h;
      assert h in multiset(Handles(|m.states|));
    }
    forall i | 0 <= i < |m.states| ensures NameOrder(m)[i] < |m.states| {
      assert NameOrder(m)[i] in multiset(Handles(|m.states|));
    }
  }

  /** The returned list is in strictly increasing name order. */
  lemma NameOrderSorted(m: Machine)
    requires Distinct(m.states)
    ensures |NameOrder(m)| == |m.states|
    ensures forall i :: 0 <= i < |m.states| ==> NameOrder(m)[i] < |m.states|
    ensures forall i, j :: 0 <= i < j < |m.states| ==>
      CompareTo(m.states[NameOrder(m)[i]], m.states[NameOrder(m)[j]]) < 0
  {
    var e := NameEntries(m.states);
    var s := Sort(ByName, e);
    assert NameKeyed(m.states, e, NodeHandle);
    NameKeyedPermutation(m.states, s, e, NodeHandle);
    NameKeysIn(m.states, e, NodeHandle);
    LawfulSets(AllNameKeys(m.states));
    SortSorted(ByName, e, AllNameKeys(m.states));
    NameOrderPermutation(m);
    forall i, j | 0 <= i < j < |m.states|
      ensures CompareTo(m.states[NameOrder(m)[i]], m.states[NameOrder(m)[j]]) < 0
    {
      NameCompareZero(m.states, s[i].item, s[j].item);
    }
  }

  // ----- The transition order -----

  /** Node h's name key, for every node. */
  function NameKeyList(names: seq<string>): (r: seq<StateKey>)
    ensures |r| == |names| && forall h :: 0 <= h < |names| ==> r[h] == NameKey(names, h)
  {
    seq(|names|, h requires 0 <= h < |names| => NameKey(names, h))
  }

  /** Each node's sorted list holds the same transitions as its input-order list. */
  lemma TransitionsPermutation(m: Machine, h: nat)
    requires WellFormed(m) && h < |m.states|
    ensures multiset(ByTargetName(m, h)) == multiset(Analysis.Edges(m)[h])
  {
    var e := TargetEntries(m.states, Analysis.Edges(m)[h]);
    ItemsMultiset(Sort(ByName, e), e);
  }

  /** Each node's sorted list is in name order of the targets. */
  lemma TransitionsSorted(m: Machine, h: nat)
    requires WellFormed(m) && h < |m.states|
    ensures forall j :: 0 <= j < |ByTargetName(m, h)| ==> ByTargetName(m, h)[j].target < |m.states|
    ensures forall i, j :: 0 <= i < j < |ByTargetName(m, h)| ==>
      CompareTo(m.states[ByTargetName(m, h)[i].target], m.states[ByTargetName(m, h)[j].target]) <= 0
  {
    var e := TargetEntries(m.states, Analysis.Edges(m)[h]);
    var s := Sort(ByName, e);
    assert NameKeyed(m.states, e, TargetHandle);
    NameKeyedPermutation(m.states, s, e, TargetHandle);
    NameKeysIn(m.states, e, TargetHandle);
    LawfulSets(AllNameKeys(m.states));
    SortSorted(ByName, e, AllNameKeys(m.states));
  }

  /** The sort is stable: the transitions to any one target keep their input order. */
  lemma TransitionsStable(m: Machine, h: nat, g: nat)
    requires WellFormed(m) && h < |m.states| && g < |m.states|
    ensures Analysis.ToTarget(ByTargetName(m, h), g) == Analysis.ToTarget(Analysis.Edges(m)[h], g)
  {
    var e := TargetEntries(m.states, Analysis.Edges(m)[h]);
    var s := Sort(ByName, e);
    assert NameKeyed(m.states, e, TargetHandle);
    NameKeyedPermutation(m.states, s, e, TargetHandle);
    NameKeysIn(m.states, e, TargetHandle);
    LawfulSets(AllNameKeys(m.states));
    SortStable(ByName, e, NameKey(m.states, g), AllNameKeys(m.states));
    var keys := NameKeyList(m.states);
    forall a | 0 <= a < |keys| ensures Cmp(ByName, keys[a], keys[g]) == 0 <==> a == g {
      NameCompareZero(m.states, a, g);
    }
    Analysis.TiesToTarget(ByName, keys, e, g);
    Analysis.TiesToTarget(ByName, keys, s, g);
  }

  // ----- Facts about a finished analysis -----

  /** Every node sits at one position of the returned list, and is finished for that position. */
  lemma NodeAtPosition(m: Machine, r: Model, h: nat) returns (p: nat)
    requires IsAnalysisOf(m, r) && h < |m.states|
    ensures p < |m.states| && r.stateList[p] == h
    ensures r.nodes[h] == FinalNode(m, h, p)
  {
    p := Listed(m, r, h);
  }

  /** Every node is listed. */
  lemma Listed(m: Machine, r: Model, h: nat) returns (p: nat)
    requires IsAnalysisOf(m, r) && h < |m.states|
    ensures p < |r.stateList| && r.stateList[p] == h
  {
    NameOrderPermutation(m);
    assert h in r.stateList;
    p :| 0 <= p < |r.stateList| && r.stateList[p] == h;
  }

  /** Exactly one node is qualified initial: the initial state's. */
  lemma OneInitial(m: Machine, r: Model)
    requires IsAnalysisOf(m, r)
    ensures forall h :: 0 <= h < |m.states| ==>
      (r.nodes[h].qualifier == Some(Initial) <==> h == Analysis.InitialHandle(m))
  {
    forall h | 0 <= h < |m.states|
      ensures r.nodes[h].qualifier == Some(Initial) <==> h == Analysis.InitialHandle(m)
    {
      var p := NodeAtPosition(m, r, h);
    }
  }

  /** The qualifier chain is the same as in the current version. */
  lemma Qualifiers(m: Machine, r: Model, h: nat)
    requires IsAnalysisOf(m, r) && h < |m.states|
    ensures var q := r.nodes[h].qualifier;
      var init := h == Analysis.InitialHandle(m);
      var hasTransitions := r.nodes[h].transitions != [];
      && (r.nodes[h].targeted <==> Targeted(m.states, m.transitions, h))
      && (q == Some(Orphan) <==> !init && !r.nodes[h].targeted && !hasTransitions)
      && (q == Some(Done) <==> !init && r.nodes[h].targeted && !hasTransitions)
      && (q == Some(Alternate) <==> !init && !r.nodes[h].targeted && hasTransitions)
      && (q == None <==> !init && r.nodes[h].targeted && hasTransitions)
  {
    var p := NodeAtPosition(m, r, h);
    TransitionsPermutation(m, h);
    if ByTargetName(m, h) == [] {
      assert |multiset(Analysis.Edges(m)[h])| == 0;
    }
    if Analysis.Edges(m)[h] == [] {
      assert |multiset(ByTargetName(m, h))| == 0;
    }
  }

  /** Distinct nodes get distinct ids, made of identifier characters only. */
  lemma IdsUnique(m: Machine, r: Model, h1: nat, h2: nat)
    requires IsAnalysisOf(m, r) && h1 < |m.states| && h2 < |m.states|
    ensures AllIdChars(r.nodes[h1].id) && |r.nodes[h1].id| >= 2
    ensures h1 != h2 ==> r.nodes[h1].id != r.nodes[h2].id
  {
    var k1, k2 := IdIndices(m, r, h1, h2);
    IdOfShape(m.states[h1], k1);
    if h1 != h2 {
      IdOfInjective(m.states[h1], k1, m.states[h2], k2);
    }
  }

  /** The disambiguators of two nodes' ids: their position + 1, apart for different nodes. */
  lemma IdIndices(m: Machine, r: Model, h1: nat, h2: nat) returns (k1: nat, k2: nat)
    requires IsAnalysisOf(m, r) && h1 < |m.states| && h2 < |m.states|
    ensures r.nodes[h1].id == IdOf(m.states[h1], k1) && r.nodes[h2].id == IdOf(m.states[h2], k2)
    ensures h1 != h2 ==> k1 != k2
  {
    NameOrderPermutation(m);
    assert h1 in r.stateList && h2 in r.stateList;
    var p1 :| 0 <= p1 < |r.stateList| && r.stateList[p1] == h1;
    var p2 :| 0 <= p2 < |r.stateList| && r.stateList[p2] == h2;
    assert r.nodes[h1] == FinalNode(m, h1, p1) && r.nodes[h2] == FinalNode(m, h2, p2);
    k1, k2 := p1 + 1, p2 + 1;
  }

  /** Every handle a model holds names one of its nodes. */
  ghost predicate Closed(r: Model) {
    && (forall i :: 0 <= i < |r.stateList| ==> r.stateList[i] < |r.nodes|)
    && (forall h, j :: 0 <= h < |r.nodes| && 0 <= j < |r.nodes[h].transitions| ==>
          r.nodes[h].transitions[j].target < |r.nodes|)
  }

  /** A finished node holds its transitions sorted by target name, as many as leave it. */
  lemma NodeTransitions(m: Machine, r: Model, h: nat)
    requires IsAnalysisOf(m, r) && h < |m.states|
    ensures r.nodes[h].transitions == ByTargetName(m, h)
    ensures |r.nodes[h].transitions| == |Analysis.Edges(m)[h]|
    ensures forall j :: 0 <= j < |r.nodes[h].transitions| ==> r.nodes[h].transitions[j].target < |m.states|
  {
    var p := NodeAtPosition(m, r, h);
    var e := TargetEntries(m.states, Analysis.Edges(m)[h]);
    var s := Sort(ByName, e);
    TransitionsPermutation(m, h);
    assert |multiset(ByTargetName(m, h))| == |multiset(Analysis.Edges(m)[h])|;
    NameKeyedPermutation(m.states, s, e, TargetHandle);
    forall j | 0 <= j < |s| ensures Items(s)[j].target < |m.states| {
      assert TargetHandle(s[j].item) < |m.states|;
    }
  }

  /** A finished model lists each node once and its transitions lead to its nodes. */
  lemma ClosedModel(m: Machine, r: Model)
    requires IsAnalysisOf(m, r)
    ensures Closed(r) && |r.nodes| == |r.stateList| == |m.states| && Distinct(r.stateList)
  {
    NameOrderPermutation(m);
    forall h, j | 0 <= h < |r.nodes| && 0 <= j < |r.nodes[h].transitions|
      ensures r.nodes[h].transitions[j].target < |r.nodes|
    {
      NodeTransitions(m, r, h);
    }
  }

  /** The transition lists of the nodes, by handle. */
  function TransitionLists(r: Model): (l: seq<seq<TransitionInfo>>)
    ensures |l| == |r.nodes| && forall h :: 0 <= h < |r.nodes| ==> l[h] == r.nodes[h].transitions
  {
    seq(|r.nodes|, h requires 0 <= h < |r.nodes| => r.nodes[h].transitions)
  }

  /** Over the returned list, the nodes hold as many transitions as the input has. */
  lemma TransitionTotal(m: Machine, r: Model)
    requires IsAnalysisOf(m, r)
    ensures HandlesIn(TransitionLists(r), r.stateList)
    ensures SumOver(TransitionLists(r), r.stateList) == |m.transitions|
  {
    NameOrderPermutation(m);
    PermutedTotal(m.states, m.transitions, r.stateList);
    forall h | 0 <= h < |m.states| ensures |TransitionLists(r)[h]| == |Analysis.Edges(m)[h]| {
      NodeTransitions(m, r, h);
    }
    SumOverSameLengths(Analysis.Edges(m), TransitionLists(r), r.stateList);
  }

  // ----- analyzeStateMachine -----

  /** stateList.sort by name, on the names the objects hold. */
  function SortByName(nodes: seq<StateInfo>): seq<nat> {
    Items(Sort(ByName, NameEntries(seq(|nodes|, h requires 0 <= h < |nodes| => nodes[h].name))))
  }

  /**
   * The body of the numbering loop for the node at position i: its id, its
   * qualifier by the if-chain, and its transitions sorted by target name.
   */
  method FinishNode(m: Machine, names: seq<string>, info: StateInfo, state: nat, i: nat) returns (r: StateInfo)
    requires WellFormed(m) && names == m.states && state < |m.states|
    requires info == PendingNode(m, state)
    ensures r == FinalNode(m, state, i)
  {
    var id := GenerateId(info.name, i + 1);
    var qualifier := info.qualifier;
    if state == Analysis.InitialHandle(m) {
      qualifier := Some(Initial);
    } else if !info.targeted && |info.transitions| == 0 {
      qualifier := Some(Orphan);
    } else if |info.transitions| == 0 {
      qualifier := Some(Done);
    } else if !info.targeted {
      qualifier := Some(Alternate);
    }
    assert qualifier == Analysis.Classify(state == Analysis.InitialHandle(m), info.targeted, info.transitions != []);
    var sorted := Items(Sort(ByName, TargetEntries(names, info.transitions)));
    r := info.(id := id, qualifier := qualifier, transitions := sorted);
  }

  /** Every node as the numbering loop leaves it, by position in the returned list. */
  ghost function FinalList(m: Machine): seq<StateInfo>
    requires WellFormed(m)
  {
    var o := NameOrder(m);
    seq(|o|, p requires 0 <= p < |o| => FinalNode(m, o[p], p))
  }

  /** Every node as the numbering loop finds it, by position in the returned list. */
  ghost function PendingList(m: Machine): seq<StateInfo>
    requires WellFormed(m)
  {
    var o := NameOrder(m);
    seq(|o|, p requires 0 <= p < |o| => PendingNode(m, o[p]))
  }

  /** Steps 1 and 2: the nodes and their transitions in input order. */
  method PrepareNodes(m: Machine) returns (names: seq<string>, nodes: seq<StateInfo>)
    requires WellFormed(m)
    ensures names == m.states && |nodes| == |m.states|
    ensures forall h :: 0 <= h < |m.states| ==> nodes[h] == PendingNode(m, h)
  {
    var n := |m.states|;
    var stateMap, found;
    names, stateMap, found := BuildNodes(m);
    var transitions, targeted := AttachTransitions(m, stateMap);
    assert transitions == Analysis.Edges(m);
    nodes := seq(n, h requires 0 <= h < n => StateInfo("", names[h], None, targeted[h], transitions[h]));
    forall h | 0 <= h < n ensures nodes[h] == PendingNode(m, h) {
      assert targeted[h] == Targeted(m.states, m.transitions, h);
    }
  }

  lemma NumberedStart(m: Machine, nodes: seq<StateInfo>)
    requires WellFormed(m) && |nodes| == |m.states|
    requires forall h :: 0 <= h < |m.states| ==> nodes[h] == PendingNode(m, h)
    ensures Placed(nodes, NameOrder(m), FinalList(m), PendingList(m), 0)
  {
    var o := NameOrder(m);
    forall p | 0 <= p < |o| ensures nodes[o[p]] == PendingList(m)[p] {
      assert PendingList(m)[p] == PendingNode(m, o[p]);
    }
  }

  /** One turn of the numbering loop. */
  lemma NumberedStep(m: Machine, nodes: seq<StateInfo>, i: nat)
    requires WellFormed(m) && Placed(nodes, NameOrder(m), FinalList(m), PendingList(m), i) && i < |m.states|
    ensures nodes[NameOrder(m)[i]] == PendingNode(m, NameOrder(m)[i])
    ensures Placed(nodes[NameOrder(m)[i] := FinalNode(m, NameOrder(m)[i], i)], NameOrder(m), FinalList(m), PendingList(m), i + 1)
  {
    var o := NameOrder(m);
    NameOrderPermutation(m);
    PlacedStep(nodes, o, FinalList(m), PendingList(m), i);
    assert FinalList(m)[i] == FinalNode(m, o[i], i);
    assert nodes[o[i]] == PendingList(m)[i] == PendingNode(m, o[i]);
  }

  lemma AllFinished(m: Machine, r: Model)
    requires WellFormed(m) && |r.nodes| == |m.states| && r.stateList == NameOrder(m)
    requires Placed(r.nodes, NameOrder(m), FinalList(m), PendingList(m), |m.states|)
    ensures IsAnalysisOf(m, r)
  {
    var o := NameOrder(m);
    forall i | 0 <= i < |o| ensures r.nodes[o[i]] == FinalNode(m, o[i], i) {
      assert r.nodes[o[i]] == FinalList(m)[i];
    }
  }

  /** The older analyzeStateMachine: build, attach, sort by name, number and classify. */
  method AnalyzeStateMachine(m: Machine) returns (r: Model)
    requires WellFormed(m)
    ensures IsAnalysisOf(m, r)
  {
    var n := |m.states|;
    var names, nodes := PrepareNodes(m);
    assert seq(|nodes|, h requires 0 <= h < |nodes| => nodes[h].name) == names;
    var stateList := SortByName(nodes);
    assert stateList == NameOrder(m);
    NumberedStart(m, nodes);
    var i := 0;
    while i < n
      invariant 0 <= i <= n && |nodes| == n
      invariant Placed(nodes, stateList, FinalList(m), PendingList(m), i)
    {
      var state := stateList[i];
      NumberedStep(m, nodes, i);
      var info := FinishNode(m, names, nodes[state], state, i);
      nodes := nodes[state := info];
      i := i + 1;
    }
    r := Model(nodes, stateList);
    AllFinished(m, r);
  }
}
