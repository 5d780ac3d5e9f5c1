/**
 * The PlantUML renderer, of which the older and the current exporter hold
 * identical copies: a header, one declaration per node in list order, then
 * for each node its start arrow, its end arrow or its transitions, and the
 * closing line. Every line written is followed by a newline; the model keeps
 * the lines.
 */
module PlantUML {
  import opened Machines
  import opened Ids
  import opened Graph
  import opened Lines
  import Analysis
  import Legacy

  /** What the renderer reads of one transition: the target's id and the event. */
  datatype Edge = Edge(targetId: string, event: string)

  /** What the renderer reads of one node of the list. */
  datatype Node = Node(id: string, name: string, qualifier: Option<Qualifier>, edges: seq<Edge>)

  /** The arrows of transition lines, taken round-robin. */
  const Arrows: seq<string> := ["-down->", "-right->", "-left->"]

  /** A title line is written for a non-null, non-empty title. */
  predicate Titled(title: Option<string>) {
    title.Some? && title.value != ""
  }

  function Header(title: Option<string>): (r: seq<string>)
    ensures |r| == if Titled(title) then 3 else 2
  {
    ["@startuml", "skinparam monochrome true"] + (if Titled(title) then ["title " + title.value] else [])
  }

  /** The label after the name: a backslash, 'n', and the qualifier in italics. */
  function Label(q: Option<Qualifier>): (r: string)
    ensures r == "" <==> q == None
  {
    if q.Some? then "\\n[<i>" + QualifierName(q.value) + "</i>]" else ""
  }

  /** The stereotype after the id. */
  function Clazz(q: Option<Qualifier>): (r: string)
    ensures r == "" <==> q == None
  {
    if q.Some? then " <<" + QualifierName(q.value) + ">>" else ""
  }

  function Declaration(n: Node): string {
    "state \"" + n.name + Label(n.qualifier) + "\" as " + n.id + Clazz(n.qualifier)
  }

  function StartLine(id: string): string {
    "[*] -right-> " + id
  }

  function EndLine(id: string): string {
    id + " -down-> [*]"
  }

  /** The k-th transition line of a source. */
  function EdgeLine(id: string, e: Edge, k: nat): string {
    id + " " + Arrows[k % 3] + " " + e.targetId + " : " + e.event
  }

  function EdgeLines(id: string, es: seq<Edge>): (r: seq<string>)
    ensures |r| == |es|
  {
    seq(|es|, k requires 0 <= k < |es| => EdgeLine(id, es[k], k))
  }

  /** The lines of one source: a start arrow if initial, then an end arrow if done, else its transitions. */
  function SourceLines(n: Node): (r: seq<string>)
    ensures |r| == (if n.qualifier == Some(Initial) then 1 else 0) +
      (if n.qualifier == Some(Done) then 1 else |n.edges|)
  {
    (if n.qualifier == Some(Initial) then [StartLine(n.id)] else []) +
    (if n.qualifier == Some(Done) then [EndLine(n.id)] else EdgeLines(n.id, n.edges))
  }

  /** The first loop's lines: one declaration per node. */
  function Declarations(ns: seq<Node>): (r: seq<string>)
    ensures |r| == |ns|
  {
    Map(Declaration, ns)
  }

  /** The second loop's lines: the lines of each source, one source after the other. */
  function Connections(ns: seq<Node>): seq<string> {
    Flatten(Map(SourceLines, ns))
  }

  /** The whole chart, line by line. */
  function Document(title: Option<string>, ns: seq<Node>): seq<string> {
    Header(title) + Declarations(ns) + Connections(ns) + ["@enduml"]
  }

  /** The body of export: the header, the two loops over the list, and the closing line. */
  method Render(title: Option<string>, ns: seq<Node>) returns (lines: seq<string>)
    ensures lines == Document(title, ns)
  {
    var header := HeaderBlock(title);
    var declarations := DeclarationLoop(ns);
    var connections := ConnectionLoop(ns);
    lines := header + declarations + connections + ["@enduml"];
  }

  /** The first loop: one declaration per node, in list order. */
  method DeclarationLoop(ns: seq<Node>) returns (lines: seq<string>)
    ensures lines == Declarations(ns)
  {
    lines := [];
    for i := 0 to |ns|
      invariant lines == Declarations(ns[..i])
    {
      var line := DeclarationLine(ns[i]);
      lines := lines + [line];
      MapSnoc(Declaration, ns, i);
    }
    assert ns[..|ns|] == ns;
  }

  /** The second loop: the arrows of each source, in list order. */
  method ConnectionLoop(ns: seq<Node>) returns (lines: seq<string>)
    ensures lines == Connections(ns)
  {
    lines := [];
    for i := 0 to |ns|
      invariant lines == Connections(ns[..i])
    {
      var block := SourceBlock(ns[i]);
      lines := lines + block;
      ConnectionsSnoc(ns, i);
    }
    assert ns[..|ns|] == ns;
  }

  /** The opening lines. */
  method HeaderBlock(title: Option<string>) returns (lines: seq<string>)
    ensures lines == Header(title)
  {
    lines := ["@startuml"];
    lines := lines + ["skinparam monochrome true"];
    if title.Some? && title.value != "" {
      lines := lines + ["title " + title.value];
    }
  }

  /** The first loop's body for one state. */
  method DeclarationLine(state: Node) returns (line: string)
    ensures line == Declaration(state)
  {
    var tag := "";
    var clazz := "";
    if state.qualifier.Some? {
      tag := "\\n[<i>" + QualifierName(state.qualifier.value) + "</i>]";
      clazz := " <<" + QualifierName(state.qualifier.value) + ">>";
    }
    line := "state \"" + state.name + tag + "\" as " + state.id + clazz;
  }

  /** The second loop's body for one source; the arrow counter starts at 0 for each source. */
  method SourceBlock(source: Node) returns (lines: seq<string>)
    ensures lines == SourceLines(source)
  {
    lines := [];
    if source.qualifier == Some(Initial) {
      lines := lines + ["[*] -right-> " + source.id];
    }
    ghost var mid := lines;
    if source.qualifier == Some(Done) {
      lines := lines + [source.id + " -down-> [*]"];
    } else {
      var n := 0;
      for k := 0 to |source.edges|
        invariant n == k && lines == mid + EdgeLines(source.id, source.edges[..k])
      {
        var t := source.edges[k];
        lines := lines + [source.id + " " + Arrows[n % 3] + " " + t.targetId + " : " + t.event];
        n := n + 1;
        assert EdgeLines(source.id, source.edges[..k + 1]) ==
          EdgeLines(source.id, source.edges[..k]) + [EdgeLine(source.id, source.edges[k], k)];
      }
      assert source.edges[..|source.edges|] == source.edges;
    }
  }

  lemma ConnectionsSnoc(ns: seq<Node>, i: nat)
    requires i < |ns|
    ensures Connections(ns[..i + 1]) == Connections(ns[..i]) + SourceLines(ns[i])
  {
    MapSnoc(SourceLines, ns, i);
    FlattenSnoc(Map(SourceLines, ns[..i]), SourceLines(ns[i]));
  }

  lemma ConnectionsCons(ns: seq<Node>)
    requires ns != []
    ensures Connections(ns) == SourceLines(ns[0]) + Connections(ns[1..])
  {
    MapTail(SourceLines, ns);
  }

  lemma ConnectionsHold(ns: seq<Node>, i: nat, line: string)
    requires i < |ns| && line in SourceLines(ns[i])
    ensures line in Connections(ns)
  {
    FlattenHolds(Map(SourceLines, ns), i, line);
  }

  // ----- Layout and counts -----

  /** The nodes qualified q. */
  function CountQualified(ns: seq<Node>, q: Qualifier): nat {
    if ns == [] then 0 else (if ns[0].qualifier == Some(q) then 1 else 0) + CountQualified(ns[1..], q)
  }

  /** The transitions of the nodes that are not done. */
  function DrawnEdges(ns: seq<Node>): nat {
    if ns == [] then 0 else (if ns[0].qualifier == Some(Done) then 0 else |ns[0].edges|) + DrawnEdges(ns[1..])
  }

  /** The transitions of all nodes. */
  function EdgeTotal(ns: seq<Node>): nat {
    if ns == [] then 0 else |ns[0].edges| + EdgeTotal(ns[1..])
  }

  lemma {:induction false} ConnectionsLength(ns: seq<Node>)
    ensures |Connections(ns)| == CountQualified(ns, Initial) + CountQualified(ns, Done) + DrawnEdges(ns)
  {
    if ns != [] {
      ConnectionsCons(ns);
      ConnectionsLength(ns[1..]);
    }
  }

  /**
   * The chart opens with @startuml and the monochrome line, then the title
   * line if the title is set, and closes with @enduml.
   */
  lemma Frame(title: Option<string>, ns: seq<Node>)
    ensures var d := Document(title, ns);
      && |d| >= 3
      && d[0] == "@startuml" && d[1] == "skinparam monochrome true"
      && (Titled(title) ==> d[2] == "title " + title.value)
      && d[|d| - 1] == "@enduml"
  {
    Parts(Header(title), Declarations(ns), Connections(ns), "@enduml");
  }

  /**
   * After the header come one declaration per node in list order, then the
   * arrows: the chart has 3 lines, the title line, one line per node, and
   * the arrows of each node.
   */
  lemma Layout(title: Option<string>, ns: seq<Node>)
    ensures var d := Document(title, ns);
      var t := if Titled(title) then 1 else 0;
      && |d| == 3 + t + |ns| + CountQualified(ns, Initial) + CountQualified(ns, Done) + DrawnEdges(ns)
      && (forall i :: 0 <= i < |ns| ==> d[2 + t + i] == Declaration(ns[i]))
      && d[2 + t + |ns|..|d| - 1] == Connections(ns)
  {
    ConnectionsLength(ns);
    Parts(Header(title), Declarations(ns), Connections(ns), "@enduml");
  }

  // ----- The start arrow -----

  /** A line that begins with '['. */
  predicate Opens(line: string) {
    |line| > 0 && line[0] == '['
  }

  /** The lines that begin with '['. */
  function Opening(lines: seq<string>): seq<string> {
    Filter(Opens, lines)
  }

  /** An id the renderer can open a line with: non-empty, starting with an identifier character. */
  predicate GoodId(id: string) {
    |id| > 0 && IsIdChar(id[0])
  }

  lemma HeaderOpening(title: Option<string>)
    ensures Opening(Header(title)) == []
  {
    var h := Header(title);
    assert h[0][0] == '@' && h[1][0] == 's';
    assert Titled(title) ==> h[2][0] == 't';
    FilterNone(Opens, h);
  }

  lemma DeclarationsOpening(ns: seq<Node>)
    ensures Opening(Declarations(ns)) == []
  {
    var ds := Declarations(ns);
    forall k | 0 <= k < |ds| ensures !Opens(ds[k]) {
      assert ds[k][0] == 's';
    }
    FilterNone(Opens, ds);
  }

  lemma SourceOpening(n: Node)
    requires GoodId(n.id)
    ensures Opening(SourceLines(n)) == if n.qualifier == Some(Initial) then [StartLine(n.id)] else []
  {
    var rest := if n.qualifier == Some(Done) then [EndLine(n.id)] else EdgeLines(n.id, n.edges);
    forall k | 0 <= k < |rest| ensures !Opens(rest[k]) {
      assert rest[k][0] == n.id[0];
    }
    FilterNone(Opens, rest);
    if n.qualifier == Some(Initial) {
      assert StartLine(n.id)[0] == '[';
      FilterOne(Opens, StartLine(n.id));
      FilterConcat(Opens, [StartLine(n.id)], rest);
    } else {
      assert SourceLines(n) == rest;
    }
  }

  /** Nodes with good ids open one line per initial node, in list order. */
  lemma {:induction false} ConnectionsOpening(ns: seq<Node>, p: nat)
    requires p < |ns| && ns[p].qualifier == Some(Initial)
    requires forall i :: 0 <= i < |ns| && i != p ==> ns[i].qualifier != Some(Initial)
    requires forall i :: 0 <= i < |ns| ==> GoodId(ns[i].id)
    ensures Opening(Connections(ns)) == [StartLine(ns[p].id)]
  {
    ConnectionsCons(ns);
    FilterConcat(Opens, SourceLines(ns[0]), Connections(ns[1..]));
    SourceOpening(ns[0]);
    if p > 0 {
      ConnectionsOpening(ns[1..], p - 1);
    } else {
      NoInitialOpening(ns[1..]);
    }
  }

  lemma {:induction false} NoInitialOpening(ns: seq<Node>)
    requires forall i :: 0 <= i < |ns| ==> ns[i].qualifier != Some(Initial) && GoodId(ns[i].id)
    ensures Opening(Connections(ns)) == []
  {
    if ns != [] {
      ConnectionsCons(ns);
      FilterConcat(Opens, SourceLines(ns[0]), Connections(ns[1..]));
      SourceOpening(ns[0]);
      NoInitialOpening(ns[1..]);
    }
  }

  /**
   * With exactly one initial node and good ids, exactly one line of the chart
   * begins with '[': the start arrow to the initial node.
   */
  lemma OneStartLine(title: Option<string>, ns: seq<Node>, p: nat)
    requires p < |ns| && ns[p].qualifier == Some(Initial)
    requires forall i :: 0 <= i < |ns| && i != p ==> ns[i].qualifier != Some(Initial)
    requires forall i :: 0 <= i < |ns| ==> GoodId(ns[i].id)
    ensures Opening(Document(title, ns)) == [StartLine(ns[p].id)]
  {
    var h, ds, cs := Header(title), Declarations(ns), Connections(ns);
    HeaderOpening(title);
    DeclarationsOpening(ns);
    ConnectionsOpening(ns, p);
    assert "@enduml"[0] == '@';
    FilterOne(Opens, "@enduml");
    FilterParts(Opens, h, ds, cs, "@enduml");
  }

  // ----- Transitions and end arrows -----

  /**
   * The k-th transition of a node that is not done is drawn from its id to the
   * target's id with the event, using arrow k mod 3.
   */
  lemma TransitionDrawn(title: Option<string>, ns: seq<Node>, i: nat, k: nat)
    requires i < |ns| && ns[i].qualifier != Some(Done) && k < |ns[i].edges|
    ensures ns[i].id + " " + Arrows[k % 3] + " " + ns[i].edges[k].targetId + " : " + ns[i].edges[k].event
      in Document(title, ns)
  {
    var line := EdgeLine(ns[i].id, ns[i].edges[k], k);
    assert SourceLines(ns[i])[|SourceLines(ns[i])| - |ns[i].edges| + k] == line;
    ConnectionsHold(ns, i, line);
  }

  /** A done node gets its end arrow. */
  lemma EndDrawn(title: Option<string>, ns: seq<Node>, i: nat)
    requires i < |ns| && ns[i].qualifier == Some(Done)
    ensures ns[i].id + " -down-> [*]" in Document(title, ns)
  {
    assert SourceLines(ns[i])[0] == EndLine(ns[i].id);
    ConnectionsHold(ns, i, EndLine(ns[i].id));
  }

  /** Where no done node has transitions, every transition is drawn. */
  lemma {:induction false} DrawnAll(ns: seq<Node>)
    requires forall i :: 0 <= i < |ns| && ns[i].qualifier == Some(Done) ==> ns[i].edges == []
    ensures DrawnEdges(ns) == EdgeTotal(ns)
  {
    if ns != [] {
      DrawnAll(ns[1..]);
    }
  }

  /** With node p the only initial one, one node is qualified initial. */
  lemma {:induction false} CountOne(ns: seq<Node>, p: nat)
    requires p < |ns| && ns[p].qualifier == Some(Initial)
    requires forall i :: 0 <= i < |ns| && i != p ==> ns[i].qualifier != Some(Initial)
    ensures CountQualified(ns, Initial) == 1
  {
    if p > 0 {
      CountOne(ns[1..], p - 1);
    } else {
      CountNone(ns[1..]);
    }
  }

  lemma {:induction false} CountNone(ns: seq<Node>)
    requires forall i :: 0 <= i < |ns| ==> ns[i].qualifier != Some(Initial)
    ensures CountQualified(ns, Initial) == 0
  {
    if ns != [] {
      CountNone(ns[1..]);
    }
  }

  /**
   * What the renderer needs of a node list: node p is the only initial one,
   * every id can open a line, and done nodes have no transitions.
   */
  ghost predicate Drawable(ns: seq<Node>, p: nat) {
    && p < |ns| && ns[p].qualifier == Some(Initial)
    && (forall i :: 0 <= i < |ns| && i != p ==> ns[i].qualifier != Some(Initial))
    && (forall i :: 0 <= i < |ns| ==> GoodId(ns[i].id))
    && (forall i :: 0 <= i < |ns| && ns[i].qualifier == Some(Done) ==> ns[i].edges == [])
  }

  /**
   * The chart of a drawable list: 4 lines, plus the title line, plus one
   * declaration per node, plus one end arrow per done node, plus one line per
   * transition; exactly one start arrow, to node p.
   */
  lemma Chart(title: Option<string>, ns: seq<Node>, p: nat)
    requires Drawable(ns, p)
    ensures var d := Document(title, ns);
      var t := if Titled(title) then 1 else 0;
      && |d| == 4 + t + |ns| + CountQualified(ns, Done) + EdgeTotal(ns)
      && Opening(d) == [StartLine(ns[p].id)]
  {
    CountOne(ns, p);
    DrawnAll(ns);
    Layout(title, ns);
    OneStartLine(title, ns, p);
  }


  // ----- The node lists of the two analyses -----

  function CurrentEdges(nodes: seq<Analysis.StateInfo>, ts: seq<TransitionInfo>): (r: seq<Edge>)
    requires forall j :: 0 <= j < |ts| ==> ts[j].target < |nodes|
    ensures |r| == |ts|
  {
    seq(|ts|, j requires 0 <= j < |ts| => Edge(nodes[ts[j].target].id, ts[j].event))
  }

  /** The returned list of the current analysis, as the renderer reads it. */
  function CurrentView(r: Analysis.Model): (ns: seq<Node>)
    requires Analysis.Closed(r)
    ensures |ns| == |r.stateList|
  {
    seq(|r.stateList|, i requires 0 <= i < |r.stateList| =>
      var s := r.nodes[r.stateList[i]];
      Node(s.id, s.name, s.qualifier, CurrentEdges(r.nodes, s.transitions)))
  }

  function OlderEdges(nodes: seq<Legacy.StateInfo>, ts: seq<TransitionInfo>): (r: seq<Edge>)
    requires forall j :: 0 <= j < |ts| ==> ts[j].target < |nodes|
    ensures |r| == |ts|
  {
    seq(|ts|, j requires 0 <= j < |ts| => Edge(nodes[ts[j].target].id, ts[j].event))
  }

  /** The returned list of the older analysis, as the renderer reads it. */
  function OlderView(r: Legacy.Model): (ns: seq<Node>)
    requires Legacy.Closed(r)
    ensures |ns| == |r.stateList|
  {
    seq(|r.stateList|, i requires 0 <= i < |r.stateList| =>
      var s := r.nodes[r.stateList[i]];
      Node(s.id, s.name, s.qualifier, OlderEdges(r.nodes, s.transitions)))
  }

  /** A list of nodes whose edge counts follow the lists at handles o has their total. */
  lemma {:induction false} EdgeTotalOver(ns: seq<Node>, lists: seq<seq<TransitionInfo>>, o: seq<nat>)
    requires |ns| == |o| && HandlesIn(lists, o)
    requires forall i :: 0 <= i < |ns| ==> |ns[i].edges| == |lists[o[i]]|
    ensures EdgeTotal(ns) == SumOver(lists, o)
  {
    if ns != [] {
      EdgeTotalOver(ns[1..], lists, o[1..]);
    }
  }

  /** Per handle, what the current analysis guarantees the renderer. */
  ghost predicate CurrentNodesDrawable(r: Analysis.Model, init: nat) {
    forall h :: 0 <= h < |r.nodes| ==>
      && GoodId(r.nodes[h].id)
      && (r.nodes[h].qualifier == Some(Initial) <==> h == init)
      && (r.nodes[h].qualifier == Some(Done) ==> r.nodes[h].transitions == [])
  }

  lemma CurrentNodes(m: Machine, r: Analysis.Model)
    requires Analysis.IsAnalysisOf(m, r)
    ensures CurrentNodesDrawable(r, Analysis.InitialHandle(m))
  {
    Analysis.OneInitial(m, r);
    forall h | 0 <= h < |r.nodes|
      ensures GoodId(r.nodes[h].id) && (r.nodes[h].qualifier == Some(Done) ==> r.nodes[h].transitions == [])
    {
      Analysis.IdsUnique(m, r, h, h);
      Analysis.Qualifiers(m, r, h);
    }
  }

  lemma CurrentViewDrawable(r: Analysis.Model, init: nat, p: nat)
    requires Analysis.Closed(r) && Distinct(r.stateList) && CurrentNodesDrawable(r, init)
    requires p < |r.stateList| && r.stateList[p] == init
    ensures Drawable(CurrentView(r), p)
  {
    var ns := CurrentView(r);
    forall i | 0 <= i < |ns| && i != p ensures ns[i].qualifier != Some(Initial) {
      assert r.stateList[i] != r.stateList[p];
    }
  }

  /** Per handle, what the older analysis guarantees the renderer. */
  ghost predicate OlderNodesDrawable(r: Legacy.Model, init: nat) {
    forall h :: 0 <= h < |r.nodes| ==>
      && GoodId(r.nodes[h].id)
      && (r.nodes[h].qualifier == Some(Initial) <==> h == init)
      && (r.nodes[h].qualifier == Some(Done) ==> r.nodes[h].transitions == [])
  }

  lemma OlderNodes(m: Machine, r: Legacy.Model)
    requires Legacy.IsAnalysisOf(m, r)
    ensures OlderNodesDrawable(r, Analysis.InitialHandle(m))
  {
    Legacy.OneInitial(m, r);
    forall h | 0 <= h < |r.nodes|
      ensures GoodId(r.nodes[h].id) && (r.nodes[h].qualifier == Some(Done) ==> r.nodes[h].transitions == [])
    {
      Legacy.IdsUnique(m, r, h, h);
      Legacy.Qualifiers(m, r, h);
    }
  }

  lemma OlderViewDrawable(r: Legacy.Model, init: nat, p: nat)
    requires Legacy.Closed(r) && Distinct(r.stateList) && OlderNodesDrawable(r, init)
    requires p < |r.stateList| && r.stateList[p] == init
    ensures Drawable(OlderView(r), p)
  {
    var ns := OlderView(r);
    forall i | 0 <= i < |ns| && i != p ensures ns[i].qualifier != Some(Initial) {
      assert r.stateList[i] != r.stateList[p];
    }
  }

  /** What the current analysis hands the renderer: a drawable list, initial node first. */
  lemma CurrentViewFacts(m: Machine, r: Analysis.Model)
    requires Analysis.IsAnalysisOf(m, r)
    ensures Analysis.Closed(r)
    ensures var ns := CurrentView(r);
      && |ns| == |m.states| && Drawable(ns, 0) && EdgeTotal(ns) == |m.transitions|
      && ns[0].id == r.nodes[Analysis.InitialHandle(m)].id
  {
    Analysis.ClosedModel(m, r);
    Analysis.OneInitial(m, r);
    CurrentNodes(m, r);
    CurrentViewDrawable(r, Analysis.InitialHandle(m), 0);
    Analysis.TransitionTotal(m, r);
    CurrentViewTotal(r);
  }

  lemma CurrentViewTotal(r: Analysis.Model)
    requires Analysis.Closed(r) && HandlesIn(Analysis.TransitionLists(r), r.stateList)
    ensures EdgeTotal(CurrentView(r)) == SumOver(Analysis.TransitionLists(r), r.stateList)
  {
    EdgeTotalOver(CurrentView(r), Analysis.TransitionLists(r), r.stateList);
  }

  /** In a drawable list whose first node is initial, the start arrow comes right after the declarations. */
  lemma ChartStart(title: Option<string>, ns: seq<Node>)
    requires Drawable(ns, 0)
    ensures var d := Document(title, ns);
      var t := if Titled(title) then 1 else 0;
      2 + t + |ns| < |d| && d[2 + t + |ns|] == StartLine(ns[0].id)
  {
    Chart(title, ns, 0);
    Layout(title, ns);
    ConnectionsCons(ns);
  }

  /**
   * The current chart: 4 lines, plus the title line, plus one declaration per
   * node, plus one end arrow per done node, plus one line per transition of
   * the machine; exactly one start arrow, to the initial node, right after
   * the declarations (the initial node is listed first).
   */
  lemma CurrentChart(m: Machine, r: Analysis.Model, title: Option<string>)
    requires Analysis.IsAnalysisOf(m, r)
    ensures Analysis.Closed(r)
    ensures var ns := CurrentView(r);
      var d := Document(title, ns);
      var t := if Titled(title) then 1 else 0;
      && |d| == 4 + t + |m.states| + CountQualified(ns, Done) + |m.transitions|
      && Opening(d) == [StartLine(r.nodes[Analysis.InitialHandle(m)].id)]
      && d[2 + t + |m.states|] == StartLine(r.nodes[Analysis.InitialHandle(m)].id)
  {
    CurrentViewFacts(m, r);
    Chart(title, CurrentView(r), 0);
    ChartStart(title, CurrentView(r));
  }

  /** What the older analysis hands the renderer: a drawable list, the initial node at p. */
  lemma OlderViewFacts(m: Machine, r: Legacy.Model) returns (p: nat)
    requires Legacy.IsAnalysisOf(m, r)
    ensures Legacy.Closed(r)
    ensures var ns := OlderView(r);
      && |ns| == |m.states| && Drawable(ns, p) && EdgeTotal(ns) == |m.transitions|
      && ns[p].id == r.nodes[Analysis.InitialHandle(m)].id
  {
    Legacy.ClosedModel(m, r);
    p := Legacy.Listed(m, r, Analysis.InitialHandle(m));
    OlderNodes(m, r);
    OlderViewDrawable(r, Analysis.InitialHandle(m), p);
    Legacy.TransitionTotal(m, r);
    OlderViewTotal(r);
  }

  lemma OlderViewTotal(r: Legacy.Model)
    requires Legacy.Closed(r) && HandlesIn(Legacy.TransitionLists(r), r.stateList)
    ensures EdgeTotal(OlderView(r)) == SumOver(Legacy.TransitionLists(r), r.stateList)
  {
    EdgeTotalOver(OlderView(r), Legacy.TransitionLists(r), r.stateList);
  }

  /** The older chart has the same counts and the single start arrow, wherever the initial node sorts. */
  lemma OlderChart(m: Machine, r: Legacy.Model, title: Option<string>)
    requires Legacy.IsAnalysisOf(m, r)
    ensures Legacy.Closed(r)
    ensures var ns := OlderView(r);
      var d := Document(title, ns);
      var t := if Titled(title) then 1 else 0;
      && |d| == 4 + t + |m.states| + CountQualified(ns, Done) + |m.transitions|
      && Opening(d) == [StartLine(r.nodes[Analysis.InitialHandle(m)].id)]
  {
    var p := OlderViewFacts(m, r);
    Chart(title, OlderView(r), p);
  }

  /**
   * Each transition of a node of the current analysis that is not done is
   * drawn as its id, the arrow its position selects, the target's id and the
   * event; a done node gets its end arrow and has no transitions to draw.
   */
  lemma CurrentTransitionDrawn(m: Machine, r: Analysis.Model, title: Option<string>, h: nat, k: nat)
    requires Analysis.IsAnalysisOf(m, r) && h < |m.states|
    ensures Analysis.Closed(r)
    ensures var s := r.nodes[h];
      && (s.qualifier == Some(Done) ==> s.transitions == [] && s.id + " -down-> [*]" in Document(title, CurrentView(r)))
      && (s.qualifier != Some(Done) && k < |s.transitions| ==>
            s.id + " " + Arrows[k % 3] + " " + r.nodes[s.transitions[k].target].id + " : " + s.transitions[k].event
              in Document(title, CurrentView(r)))
  {
    Analysis.ClosedModel(m, r);
    Analysis.IndexIsPosition(m, r, h);
    Analysis.Qualifiers(m, r, h);
    CurrentNodeDrawn(r, title, r.nodes[h].index, k);
  }

  /** The lines of the node at position i of the current list. */
  lemma CurrentNodeDrawn(r: Analysis.Model, title: Option<string>, i: nat, k: nat)
    requires Analysis.Closed(r) && i < |r.stateList|
    ensures var s := r.nodes[r.stateList[i]];
      && (s.qualifier == Some(Done) ==> s.id + " -down-> [*]" in Document(title, CurrentView(r)))
      && (s.qualifier != Some(Done) && k < |s.transitions| ==>
            s.id + " " + Arrows[k % 3] + " " + r.nodes[s.transitions[k].target].id + " : " + s.transitions[k].event
              in Document(title, CurrentView(r)))
  {
    var ns := CurrentView(r);
    var s := r.nodes[r.stateList[i]];
    assert ns[i] == Node(s.id, s.name, s.qualifier, CurrentEdges(r.nodes, s.transitions));
    if s.qualifier == Some(Done) {
      EndDrawn(title, ns, i);
    } else if k < |s.transitions| {
      var e := Edge(r.nodes[s.transitions[k].target].id, s.transitions[k].event);
      assert ns[i].edges[k] == e;
      TransitionDrawn(title, ns, i, k);
      assert EdgeLine(ns[i].id, ns[i].edges[k], k) == EdgeLine(s.id, e, k);
    }
  }

  // ----- export -----

  /** export(machine, title, writer) of the current exporter. */
  method Export(m: Machine, title: Option<string>) returns (r: Analysis.Model, lines: seq<string>)
    requires WellFormed(m)
    ensures Analysis.IsAnalysisOf(m, r) && Analysis.Closed(r)
    ensures lines == Document(title, CurrentView(r))
  {
    r := Analysis.AnalyzeStateMachine(m);
    Analysis.ClosedModel(m, r);
    lines := Render(title, CurrentView(r));
  }

  /** exportToPlantUML(machine, title, filename) of the older exporter, without the file. */
  method ExportToPlantUML(m: Machine, title: Option<string>) returns (r: Legacy.Model, lines: seq<string>)
    requires WellFormed(m)
    ensures Legacy.IsAnalysisOf(m, r) && Legacy.Closed(r)
    ensures lines == Document(title, OlderView(r))
  {
    r := Legacy.AnalyzeStateMachine(m);
    Legacy.ClosedModel(m, r);
    lines := Render(title, OlderView(r));
  }
}
