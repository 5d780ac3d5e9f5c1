/**
 * The Lucid Chart exporter: a CSV table with a header row, a page row, one
 * "State Name" shape per node in list order, and one "Line" per transition.
 * Shape ids are the node's index plus 2, line ids continue after the last
 * shape id. A row is a record of the 12 columns, written in column order;
 * CSV quoting is the writer's business.
 */
module LucidChart {
  import opened Machines
  import opened Decimal
  import opened Graph
  import opened Lines
  import Analysis

  /** The offset between a node's index and its shape id; id 1 is the page. */
  const IndexOffset: nat := 2

  /** What the exporter reads of one transition: the target's index and the event. */
  datatype Link = Link(targetIndex: nat, event: string)

  /** What the exporter reads of one node of the list. */
  datatype Shape = Shape(index: nat, name: string, qualifier: Option<Qualifier>, links: seq<Link>)

  /** One CSV field: a text, or a number that is printed in decimal when the row is written. */
  datatype Cell = Text(text: string) | Number(value: nat)

  /** The characters written for a field. */
  function Print(c: Cell): (r: string)
    ensures c.Number? ==> r == DecimalString(c.value)
    ensures c.Text? ==> r == c.text
  {
    match c
    case Text(s) => s
    case Number(k) => DecimalString(k)
  }

  /** One CSV row, column by column. */
  datatype Row = Row(
    id: Cell,
    name: Cell,
    shapeLibrary: Cell,
    pageId: Cell,
    containedBy: Cell,
    lineSource: Cell,
    lineDestination: Cell,
    sourceArrow: Cell,
    destinationArrow: Cell,
    text1: Cell,
    text2: Cell,
    text3: Cell)

  /** The fields of a row in the order they are written: always 12. */
  function Fields(row: Row): (r: seq<string>)
    ensures |r| == 12 && r[0] == Print(row.id) && r[1] == Print(row.name) && r[9] == Print(row.text1)
  {
    [Print(row.id), Print(row.name), Print(row.shapeLibrary), Print(row.pageId), Print(row.containedBy),
     Print(row.lineSource), Print(row.lineDestination), Print(row.sourceArrow), Print(row.destinationArrow),
     Print(row.text1), Print(row.text2), Print(row.text3)]
  }

  /** The empty field, and the fixed texts of shapes and lines. */
  const Blank: Cell := Text("")
  const One: Cell := Text("1")
  const StateName: Cell := Text("State Name")
  const Uml: Cell := Text("UML")
  const LineName: Cell := Text("Line")
  const NoArrow: Cell := Text("None")
  const Arrow: Cell := Text("Arrow")

  /** The column names. */
  const Columns: Row := Row(Text("Id"), Text("Name"), Text("Shape Library"), Text("Page ID"), Text("Contained B"),
    Text("Line Source"), Text("Line Destination"), Text("Source Arrow"), Text("Destination Arrow"),
    Text("Text Area 1"), Text("Text Area 2"), Text("Text Area 3"))

  function PageRow(pageTitle: string): Row {
    Row(One, Text("Page"), Blank, Blank, Blank, Blank, Blank, Blank, Blank, Text(pageTitle), Blank, Blank)
  }

  /** The text of a shape: the name, and on a second line the qualifier in angle brackets. */
  function Label(n: Shape): (r: string)
    ensures n.qualifier == None ==> r == n.name
    ensures n.qualifier.Some? ==> r == n.name + "\n<" + QualifierName(n.qualifier.value) + ">"
  {
    if n.qualifier.Some? then n.name + "\n<" + QualifierName(n.qualifier.value) + ">" else n.name
  }

  /** The id of node index's shape. */
  function ShapeId(index: nat): Cell {
    Number(index + IndexOffset)
  }

  function StateRow(n: Shape): Row {
    Row(ShapeId(n.index), StateName, Uml, One, Blank, Blank, Blank, Blank, Blank, Text(Label(n)), Blank, Blank)
  }

  /** Line id, from the source's shape to the target's shape, labelled with the event. */
  function LineRow(id: nat, sourceIndex: nat, l: Link): Row {
    Row(Number(id), LineName, Blank, One, Blank, ShapeId(sourceIndex), ShapeId(l.targetIndex),
      NoArrow, Arrow, Text(l.event), Blank, Blank)
  }

  /** The lines of one source, numbered from first. */
  function LineRows(first: nat, n: Shape): (rows: seq<Row>)
    ensures |rows| == |n.links|
  {
    seq(|n.links|, k requires 0 <= k < |n.links| => LineRow(first + k, n.index, n.links[k]))
  }

  /** The transitions of all nodes. */
  function LinkTotal(ns: seq<Shape>): nat {
    if ns == [] then 0 else |ns[0].links| + LinkTotal(ns[1..])
  }

  /** The lines of all sources, in list order, numbered from first on. */
  function AllLines(first: nat, ns: seq<Shape>): seq<Row>
    decreases ns
  {
    if ns == [] then [] else LineRows(first, ns[0]) + AllLines(first + |ns[0].links|, ns[1..])
  }

  /** The whole table, row by row. */
  function Table(pageTitle: string, ns: seq<Shape>): seq<Row> {
    [Columns, PageRow(pageTitle)] + Map(StateRow, ns) + AllLines(IndexOffset + |ns|, ns)
  }

  // ----- export -----

  /** The body of export: the two fixed rows, the shapes, then the lines with their counter. */
  method Render(pageTitle: string, ns: seq<Shape>) returns (rows: seq<Row>)
    ensures rows == Table(pageTitle, ns)
  {
    var shapes := ShapeLoop(ns);
    var lineCounter := IndexOffset + |ns|;
    var lines := LineLoop(lineCounter, ns);
    rows := [Columns, PageRow(pageTitle)] + shapes + lines;
  }

  /** The loop over the states. */
  method ShapeLoop(ns: seq<Shape>) returns (rows: seq<Row>)
    ensures rows == Map(StateRow, ns)
  {
    rows := [];
    for i := 0 to |ns|
      invariant rows == Map(StateRow, ns[..i])
    {
      var source := ns[i];
      var text := source.name;
      if source.qualifier.Some? {
        text := source.name + "\n<" + QualifierName(source.qualifier.value) + ">";
      }
      rows := rows + [Row(Number(source.index + IndexOffset), StateName, Uml, One,
        Blank, Blank, Blank, Blank, Blank, Text(text), Blank, Blank)];
      MapSnoc(StateRow, ns, i);
    }
    assert ns[..|ns|] == ns;
  }

  /** The loop over the transitions of all sources, with the line counter starting at first. */
  method LineLoop(first: nat, ns: seq<Shape>) returns (rows: seq<Row>)
    ensures rows == AllLines(first, ns)
  {
    rows := [];
    var lineCounter := first;
    for i := 0 to |ns|
      invariant lineCounter == first + LinkTotal(ns[..i])
      invariant rows == AllLines(first, ns[..i])
    {
      var block;
      block, lineCounter := SourceLoop(lineCounter, ns[i]);
      rows := rows + block;
      AllLinesSnoc(first, ns, i);
      LinkTotalSnoc(ns, i);
    }
    assert ns[..|ns|] == ns;
  }

  /** The inner loop for one source: one line per transition, each taking the next counter value. */
  method SourceLoop(counter: nat, source: Shape) returns (rows: seq<Row>, next: nat)
    ensures rows == LineRows(counter, source) && next == counter + |source.links|
  {
    rows := [];
    next := counter;
    for k := 0 to |source.links|
      invariant next == counter + k
      invariant rows == LineRows(counter, source)[..k]
    {
      var t := source.links[k];
      rows := rows + [Row(Number(next), LineName, Blank, One, Blank, Number(source.index + IndexOffset),
        Number(t.targetIndex + IndexOffset), NoArrow, Arrow, Text(t.event), Blank, Blank)];
      next := next + 1;
      assert LineRows(counter, source)[..k + 1] == LineRows(counter, source)[..k] + [LineRows(counter, source)[k]];
    }
    assert LineRows(counter, source)[..|source.links|] == LineRows(counter, source);
  }

  lemma {:induction false} AllLinesSnoc(first: nat, ns: seq<Shape>, i: nat)
    requires i < |ns|
    ensures AllLines(first, ns[..i + 1]) == AllLines(first, ns[..i]) + LineRows(first + LinkTotal(ns[..i]), ns[i])
    decreases ns
  {
    if i > 0 {
      assert ns[..i + 1][1..] == ns[1..][..i];
      assert ns[..i][1..] == ns[1..][..i - 1];
      assert ns[..i + 1][0] == ns[..i][0] == ns[0];
      AllLinesSnoc(first + |ns[0].links|, ns[1..], i - 1);
    } else {
      assert ns[..1][1..] == [];
    }
  }

  lemma {:induction false} LinkTotalSnoc(ns: seq<Shape>, i: nat)
    requires i < |ns|
    ensures LinkTotal(ns[..i + 1]) == LinkTotal(ns[..i]) + |ns[i].links|
  {
    if i > 0 {
      assert ns[..i + 1][1..] == ns[1..][..i];
      assert ns[..i][1..] == ns[1..][..i - 1];
      LinkTotalSnoc(ns[1..], i - 1);
    } else {
      assert ns[..1][1..] == [];
    }
  }

  lemma LinkTotalPrefix(ns: seq<Shape>, i: nat)
    requires 0 < i <= |ns|
    ensures LinkTotal(ns[..i]) == |ns[0].links| + LinkTotal(ns[1..][..i - 1])
  {
    assert ns[..i][1..] == ns[1..][..i - 1];
    assert ns[..i][0] == ns[0];
  }

  // ----- The table -----

  /** The lines are as many as the transitions, and numbered consecutively from first. */
  lemma {:induction false} AllLinesShape(first: nat, ns: seq<Shape>)
    ensures var ls := AllLines(first, ns);
      && |ls| == LinkTotal(ns)
      && forall j :: 0 <= j < |ls| ==> NumberedLine(first + j, ls[j])
    decreases ns
  {
    if ns != [] {
      AllLinesShape(first + |ns[0].links|, ns[1..]);
      var a: seq<Row>, b: seq<Row> := LineRows(first, ns[0]), AllLines(first + |ns[0].links|, ns[1..]);
      forall j | 0 <= j < |a + b| ensures NumberedLine(first + j, (a + b)[j]) {
        if j < |a| {
          assert (a + b)[j] == LineRow(first + j, ns[0].index, ns[0].links[j]);
        } else {
          assert (a + b)[j] == b[j - |a|];
        }
      }
    }
  }

  /** The k-th transition of source i is drawn by the line after those of the earlier sources. */
  lemma {:induction false} LineAt(first: nat, ns: seq<Shape>, i: nat, k: nat)
    requires i < |ns| && k < |ns[i].links|
    ensures var j := LinkTotal(ns[..i]) + k;
      j < |AllLines(first, ns)| && AllLines(first, ns)[j] == LineRow(first + j, ns[i].index, ns[i].links[k])
    decreases ns
  {
    var a: seq<Row>, b: seq<Row> := LineRows(first, ns[0]), AllLines(first + |ns[0].links|, ns[1..]);
    assert AllLines(first, ns) == a + b;
    if i == 0 {
      assert ns[..0] == [];
      Concat(a, b, k);
    } else {
      LineAt(first + |a|, ns[1..], i - 1, k);
      LinkTotalPrefix(ns, i);
      Concat(a, b, |a| + LinkTotal(ns[1..][..i - 1]) + k);
    }
  }

  /**
   * The table: the column names, the page row, one row per node in list
   * order, then one row per transition, each line's id its position in the
   * table.
   */
  lemma TableShape(pageTitle: string, ns: seq<Shape>)
    ensures var t := Table(pageTitle, ns);
      && |t| == 2 + |ns| + LinkTotal(ns)
      && t[0] == Columns && t[1] == PageRow(pageTitle)
      && (forall i :: 0 <= i < |ns| ==> t[2 + i] == StateRow(ns[i]))
      && (forall j :: 2 + |ns| <= j < |t| ==> NumberedLine(j, t[j]))
  {
    var ls := AllLines(IndexOffset + |ns|, ns);
    AllLinesShape(IndexOffset + |ns|, ns);
    TwoThen(Columns, PageRow(pageTitle), Map(StateRow, ns), ls);
    TwoThenTail(Columns, PageRow(pageTitle), Map(StateRow, ns), ls, NumberedLine);
  }

  /** Row j is a line numbered j. */
  predicate NumberedLine(j: nat, row: Row) {
    row.id == Number(j) && row.name == LineName
  }

  /** The line of the k-th transition of source i, in the table. */
  lemma TableLine(pageTitle: string, ns: seq<Shape>, i: nat, k: nat)
    requires i < |ns| && k < |ns[i].links|
    ensures var j := 2 + |ns| + LinkTotal(ns[..i]) + k;
      var t := Table(pageTitle, ns);
      j < |t| && t[j] == LineRow(j, ns[i].index, ns[i].links[k])
  {
    LineAt(IndexOffset + |ns|, ns, i, k);
    var ls := AllLines(IndexOffset + |ns|, ns);
    TwoThen(Columns, PageRow(pageTitle), Map(StateRow, ns), ls);
  }

  /**
   * In a list numbered by position, no two rows after the column names print
   * the same id: the page's "1", then the decimal of each later row's position.
   */
  lemma PrintedIdsDistinct(pageTitle: string, ns: seq<Shape>)
    requires forall i :: 0 <= i < |ns| ==> ns[i].index == i
    ensures var t := Table(pageTitle, ns);
      forall j, k :: 1 <= j < k < |t| ==> Print(t[j].id) != Print(t[k].id)
  {
    var t := Table(pageTitle, ns);
    TableIds(pageTitle, ns);
    assert t[1] == PageRow(pageTitle);
    assert Print(t[1].id) == DecimalString(1);
    forall j, k | 1 <= j < k < |t| ensures Print(t[j].id) != Print(t[k].id) {
      DecimalStringInjective(j, k);
    }
  }

  /** Row j is a shape with id j. */
  predicate NumberedShape(j: nat, row: Row) {
    row.id == Number(j) && row.name == StateName
  }

  /** The shapes of a list numbered by position: shape i has id i + 2 and the node's label. */
  lemma ShapeRows(ns: seq<Shape>)
    requires forall i :: 0 <= i < |ns| ==> ns[i].index == i
    ensures var c := Map(StateRow, ns);
      forall i :: 0 <= i < |c| ==> NumberedShape(2 + i, c[i]) && c[i].text1 == Text(Label(ns[i]))
  {
  }

  /** In a list numbered by position, every row after the page row has its position as id. */
  lemma TableIds(pageTitle: string, ns: seq<Shape>)
    requires forall i :: 0 <= i < |ns| ==> ns[i].index == i
    ensures var t := Table(pageTitle, ns);
      forall j :: 2 <= j < |t| ==> t[j].id == Number(j)
  {
    var c, ls := Map(StateRow, ns), AllLines(IndexOffset + |ns|, ns);
    AllLinesShape(IndexOffset + |ns|, ns);
    ShapeRows(ns);
    TwoThenMiddle(Columns, PageRow(pageTitle), c, ls, NumberedShape);
    TwoThenTail(Columns, PageRow(pageTitle), c, ls, NumberedLine);
  }

  /** Row 2 + i is a shape labelled with node i's label. */
  lemma TableLabels(pageTitle: string, ns: seq<Shape>)
    requires forall i :: 0 <= i < |ns| ==> ns[i].index == i
    ensures var t := Table(pageTitle, ns);
      forall i :: 0 <= i < |ns| ==> 2 + i < |t| && t[2 + i].name == StateName && t[2 + i].text1 == Text(Label(ns[i]))
  {
    var c, ls := Map(StateRow, ns), AllLines(IndexOffset + |ns|, ns);
    ShapeRows(ns);
    TwoThen(Columns, PageRow(pageTitle), c, ls);
  }

  /**
   * The table of a list numbered by position: the column names, the page
   * row, then rows whose id is their position in the table: first the
   * shapes, labelled with the nodes' labels in list order, then the lines.
   */
  lemma ShapesNumbered(pageTitle: string, ns: seq<Shape>)
    requires forall i :: 0 <= i < |ns| ==> ns[i].index == i
    ensures var t := Table(pageTitle, ns);
      && |t| == 2 + |ns| + LinkTotal(ns)
      && t[0] == Columns && t[1] == PageRow(pageTitle)
      && (forall j :: 2 <= j < |t| ==> t[j].id == Number(j))
      && (forall i :: 0 <= i < |ns| ==> t[2 + i].name == StateName && t[2 + i].text1 == Text(Label(ns[i])))
      && (forall j :: 2 + |ns| <= j < |t| ==> t[j].name == LineName)
  {
    TableShape(pageTitle, ns);
    TableIds(pageTitle, ns);
    TableLabels(pageTitle, ns);
  }

  /**
   * In a list numbered by position, the line of the k-th transition of
   * source i goes from source i's shape id to its target's shape id.
   */
  lemma LineBetweenShapes(pageTitle: string, ns: seq<Shape>, i: nat, k: nat) returns (j: nat)
    requires forall x :: 0 <= x < |ns| ==> ns[x].index == x
    requires i < |ns| && k < |ns[i].links| && ns[i].links[k].targetIndex < |ns|
    ensures var t := Table(pageTitle, ns);
      && 2 + |ns| <= j < |t| && t[j].name == LineName
      && t[j].lineSource == t[2 + i].id
      && t[j].lineDestination == t[2 + ns[i].links[k].targetIndex].id
      && t[j].text1 == Text(ns[i].links[k].event)
  {
    TableShape(pageTitle, ns);
    TableLine(pageTitle, ns, i, k);
    j := 2 + |ns| + LinkTotal(ns[..i]) + k;
  }

  // ----- The list of the analysis -----

  function Links(nodes: seq<Analysis.StateInfo>, ts: seq<TransitionInfo>): (r: seq<Link>)
    requires forall j :: 0 <= j < |ts| ==> ts[j].target < |nodes|
    ensures |r| == |ts|
  {
    seq(|ts|, j requires 0 <= j < |ts| => Link(nodes[ts[j].target].index, ts[j].event))
  }

  /** The returned list of the analysis, as the exporter reads it. */
  function View(r: Analysis.Model): (ns: seq<Shape>)
    requires Analysis.Closed(r)
    ensures |ns| == |r.stateList|
  {
    seq(|r.stateList|, i requires 0 <= i < |r.stateList| =>
      var s := r.nodes[r.stateList[i]];
      Shape(s.index, s.name, s.qualifier, Links(r.nodes, s.transitions)))
  }

  lemma {:induction false} LinkTotalOver(ns: seq<Shape>, lists: seq<seq<TransitionInfo>>, o: seq<nat>)
    requires |ns| == |o| && HandlesIn(lists, o)
    requires forall i :: 0 <= i < |ns| ==> |ns[i].links| == |lists[o[i]]|
    ensures LinkTotal(ns) == SumOver(lists, o)
  {
    if ns != [] {
      LinkTotalOver(ns[1..], lists, o[1..]);
    }
  }

  lemma ViewTotal(r: Analysis.Model)
    requires Analysis.Closed(r) && HandlesIn(Analysis.TransitionLists(r), r.stateList)
    ensures LinkTotal(View(r)) == SumOver(Analysis.TransitionLists(r), r.stateList)
  {
    LinkTotalOver(View(r), Analysis.TransitionLists(r), r.stateList);
  }

  /** What the analysis hands the exporter: one shape per node, numbered by position, named after the state. */
  lemma ViewFacts(m: Machine, r: Analysis.Model)
    requires Analysis.IsAnalysisOf(m, r)
    ensures Analysis.Closed(r) && |r.nodes| == |r.stateList| == |m.states|
    ensures |View(r)| == |m.states| && LinkTotal(View(r)) == |m.transitions|
    ensures forall i :: 0 <= i < |View(r)| ==> View(r)[i].index == i && View(r)[i].name == m.states[r.stateList[i]]
  {
    Analysis.ClosedModel(m, r);
    Analysis.TransitionTotal(m, r);
    Analysis.NodeNames(m, r);
    ViewTotal(r);
  }

  /**
   * The table of an analysed machine: 2 + n + t rows; every row after the
   * page row has its position as id; row 2 + i is the shape of the state
   * listed at position i, labelled with its name and qualifier; the rows
   * after the shapes are lines.
   */
  lemma ModelTable(m: Machine, r: Analysis.Model, pageTitle: string)
    requires Analysis.IsAnalysisOf(m, r)
    ensures Analysis.Closed(r) && |r.nodes| == |r.stateList| == |m.states|
    ensures |View(r)| == |m.states| && LinkTotal(View(r)) == |m.transitions|
    ensures forall i :: 0 <= i < |View(r)| ==> View(r)[i].index == i && View(r)[i].name == m.states[r.stateList[i]]
    ensures var ns := View(r);
      var t := Table(pageTitle, ns);
      && |t| == 2 + |ns| + LinkTotal(ns)
      && t[0] == Columns && t[1] == PageRow(pageTitle)
      && (forall j :: 2 <= j < |t| ==> t[j].id == Number(j))
      && (forall i :: 0 <= i < |ns| ==> t[2 + i].name == StateName && t[2 + i].text1 == Text(Label(ns[i])))
      && (forall j :: 2 + |ns| <= j < |t| ==> t[j].name == LineName)
  {
    ViewFacts(m, r);
    ShapesNumbered(pageTitle, View(r));
  }

  /** The table of a machine prints every id after the column names once. */
  lemma ModelIdsDistinct(m: Machine, r: Analysis.Model, pageTitle: string)
    requires Analysis.IsAnalysisOf(m, r)
    ensures Analysis.Closed(r)
    ensures var t := Table(pageTitle, View(r));
      forall j, k :: 1 <= j < k < |t| ==> Print(t[j].id) != Print(t[k].id)
  {
    ViewFacts(m, r);
    PrintedIdsDistinct(pageTitle, View(r));
  }

  /**
   * Every transition of the machine's node h is a line from h's shape to its
   * target's shape, labelled with the event: the line's source and
   * destination fields are the ids of the two shape rows.
   */
  lemma TransitionLine(m: Machine, r: Analysis.Model, pageTitle: string, h: nat, k: nat) returns (j: nat)
    requires Analysis.IsAnalysisOf(m, r) && h < |r.nodes| && k < |r.nodes[h].transitions|
    ensures Analysis.Closed(r) && |r.nodes| == |r.stateList| == |m.states|
    ensures var t := Table(pageTitle, View(r));
      var target := r.nodes[h].transitions[k].target;
      && target < |m.states| && r.nodes[h].index < |m.states| && r.nodes[target].index < |m.states|
      && 2 + |m.states| <= j < |t| && t[j].name == LineName
      && t[j].lineSource == t[2 + r.nodes[h].index].id
      && t[j].lineDestination == t[2 + r.nodes[target].index].id
      && t[j].text1 == Text(r.nodes[h].transitions[k].event)
  {
    ViewFacts(m, r);
    Analysis.IndexIsPosition(m, r, h);
    Analysis.IndexIsPosition(m, r, r.nodes[h].transitions[k].target);
    j := NodeLine(r, pageTitle, h, k);
  }

  /** In a list numbered by position, the line of node h's k-th transition joins the two shape rows. */
  lemma NodeLine(r: Analysis.Model, pageTitle: string, h: nat, k: nat) returns (j: nat)
    requires Analysis.Closed(r) && |r.nodes| == |r.stateList| && h < |r.nodes| && k < |r.nodes[h].transitions|
    requires forall i :: 0 <= i < |View(r)| ==> View(r)[i].index == i
    requires r.nodes[h].index < |r.stateList| && r.stateList[r.nodes[h].index] == h
    requires r.nodes[r.nodes[h].transitions[k].target].index < |r.stateList|
    ensures var t := Table(pageTitle, View(r));
      var target := r.nodes[h].transitions[k].target;
      && 2 + |r.stateList| <= j < |t| && t[j].name == LineName
      && t[j].lineSource == t[2 + r.nodes[h].index].id
      && t[j].lineDestination == t[2 + r.nodes[target].index].id
      && t[j].text1 == Text(r.nodes[h].transitions[k].event)
  {
    var i := r.nodes[h].index;
    ViewLink(r, i, k);
    j := LineBetweenShapes(pageTitle, View(r), i, k);
  }

  /** The k-th link of the shape at position i: its target's index and its event. */
  lemma ViewLink(r: Analysis.Model, i: nat, k: nat)
    requires Analysis.Closed(r) && i < |r.stateList| && k < |r.nodes[r.stateList[i]].transitions|
    ensures var s := r.nodes[r.stateList[i]];
      View(r)[i].links[k] == Link(r.nodes[s.transitions[k].target].index, s.transitions[k].event)
  {
  }

  /** export(machine, pageTitle, output). */
  method Export(m: Machine, pageTitle: string) returns (r: Analysis.Model, rows: seq<Row>)
    requires WellFormed(m)
    ensures Analysis.IsAnalysisOf(m, r) && Analysis.Closed(r)
    ensures rows == Table(pageTitle, View(r))
  {
    r := Analysis.AnalyzeStateMachine(m);
    Analysis.ClosedModel(m, r);
    rows := Render(pageTitle, View(r));
  }
}
