/**
 * The SCXML exporter: a root element scxml naming the namespace, the version
 * and the initial state, with one state element per node in list order and
 * one transition element per transition of the node. The exporter drives a
 * streaming XML writer; the model records the writer's events and relates
 * them to the element tree they serialize.
 */
module SCXML {
  import opened Machines
  import opened Lines
  import Graph
  import Analysis

  /** What a streaming XML writer is asked to write, call by call. */
  datatype XmlEvent =
    | StartDocument(encoding: string, version: string)
    | Characters(text: string)
    | StartElement(name: string)
    | Attribute(name: string, value: string)
    | EndElement(name: string)
    | EndDocument

  datatype Attr = Attr(name: string, value: string)

  /** XML content: character data, or an element with its attributes and children. */
  datatype Content =
    | Text(text: string)
    | Element(name: string, attributes: seq<Attr>, children: seq<Content>)

  const Namespace: string := "http://www.w3.org/2005/07/scxml"

  /** The text written before each state element and before each transition element. */
  const StateIndent: string := "\n  "
  const TransitionIndent: string := "\n    "

  // ----- Serialization -----

  function AttributeEvents(attrs: seq<Attr>): (r: seq<XmlEvent>)
    ensures |r| == |attrs| && forall i :: 0 <= i < |attrs| ==> r[i] == Attribute(attrs[i].name, attrs[i].value)
  {
    seq(|attrs|, i requires 0 <= i < |attrs| => Attribute(attrs[i].name, attrs[i].value))
  }

  /** The writer calls that produce c: start, attributes, children, end. */
  function Events(c: Content): seq<XmlEvent>
    decreases c
  {
    match c
    case Text(s) => [Characters(s)]
    case Element(n, attrs, cs) => [StartElement(n)] + AttributeEvents(attrs) + EventsOf(cs) + [EndElement(n)]
  }

  function EventsOf(cs: seq<Content>): seq<XmlEvent>
    decreases cs
  {
    if cs == [] then [] else Events(cs[0]) + EventsOf(cs[1..])
  }

  lemma {:induction false} EventsOfConcat(a: seq<Content>, b: seq<Content>)
    ensures EventsOf(a + b) == EventsOf(a) + EventsOf(b)
  {
    if a != [] {
      assert (a + b)[0] == a[0] && (a + b)[1..] == a[1..] + b;
      EventsOfConcat(a[1..], b);
    } else {
      assert a + b == b;
    }
  }

  lemma EventsOfPair(x: Content, y: Content)
    ensures EventsOf([x, y]) == Events(x) + Events(y)
  {
    assert [x, y][0] == x && [x, y][1..] == [y] && [y][1..] == [];
    assert EventsOf([y]) == Events(y) + EventsOf([]);
  }

  /**
   * The open elements after reading evs from the stack open: None when an
   * end event does not close the innermost open element.
   */
  function Scan(evs: seq<XmlEvent>, open: seq<string>): Option<seq<string>> {
    if evs == [] then Some(open)
    else match evs[0]
      case StartElement(n) => Scan(evs[1..], open + [n])
      case EndElement(n) =>
        if open != [] && open[|open| - 1] == n then Scan(evs[1..], open[..|open| - 1]) else None
      case _ => Scan(evs[1..], open)
  }

  /** Every end event closes the innermost open element, and no element is left open. */
  predicate Balanced(evs: seq<XmlEvent>) {
    Scan(evs, []) == Some([])
  }

  lemma {:induction false} ScanConcat(a: seq<XmlEvent>, b: seq<XmlEvent>, open: seq<string>)
    requires Scan(a, open).Some?
    ensures Scan(a + b, open) == Scan(b, Scan(a, open).value)
  {
    if a == [] {
      assert a + b == b;
    } else {
      assert (a + b)[0] == a[0] && (a + b)[1..] == a[1..] + b;
      match a[0]
      case StartElement(n) => ScanConcat(a[1..], b, open + [n]);
      case EndElement(n) => ScanConcat(a[1..], b, open[..|open| - 1]);
      case StartDocument(_, _) => ScanConcat(a[1..], b, open);
      case Characters(_) => ScanConcat(a[1..], b, open);
      case Attribute(_, _) => ScanConcat(a[1..], b, open);
      case EndDocument => ScanConcat(a[1..], b, open);
    }
  }

  lemma {:induction false} ScanAttributes(attrs: seq<Attr>, open: seq<string>)
    ensures Scan(AttributeEvents(attrs), open) == Some(open)
  {
    if attrs != [] {
      assert AttributeEvents(attrs)[1..] == AttributeEvents(attrs[1..]);
      ScanAttributes(attrs[1..], open);
    }
  }

  /** The events of any content close every element they open, whatever is open around them. */
  lemma {:induction false} ScanEvents(c: Content, open: seq<string>)
    ensures Scan(Events(c), open) == Some(open)
    decreases c
  {
    match c
    case Text(s) =>
    case Element(n, attrs, cs) =>
      var inner := open + [n];
      ScanAttributes(attrs, inner);
      ScanEventsOf(cs, inner);
      var a, e, end := AttributeEvents(attrs), EventsOf(cs), [EndElement(n)];
      var s := [StartElement(n)] + a + e + end;
      assert s[0] == StartElement(n) && s[1..] == a + (e + end);
      ScanConcat(a, e + end, inner);
      ScanConcat(e, end, inner);
      assert end[0] == EndElement(n) && end[1..] == [];
      assert inner[..|inner| - 1] == open;
  }

  lemma {:induction false} ScanEventsOf(cs: seq<Content>, open: seq<string>)
    ensures Scan(EventsOf(cs), open) == Some(open)
    decreases cs
  {
    if cs != [] {
      ScanEvents(cs[0], open);
      ScanEventsOf(cs[1..], open);
      ScanConcat(Events(cs[0]), EventsOf(cs[1..]), open);
    }
  }

  /** Serialized content is balanced. */
  lemma ContentBalanced(c: Content)
    ensures Balanced(Events(c))
  {
    ScanEvents(c, []);
  }

  // ----- The document -----

  /** sep before each of cs. */
  function Interleave(sep: Content, cs: seq<Content>): (r: seq<Content>)
    ensures |r| == 2 * |cs|
    ensures forall i :: 0 <= i < |cs| ==> r[2 * i] == sep && r[2 * i + 1] == cs[i]
  {
    seq(2 * |cs|, j requires 0 <= j < 2 * |cs| => if j % 2 == 0 then sep else cs[j / 2])
  }

  lemma InterleaveSnoc(sep: Content, cs: seq<Content>, x: Content)
    ensures Interleave(sep, cs + [x]) == Interleave(sep, cs) + [sep, x]
  {
    var a, b := Interleave(sep, cs + [x]), Interleave(sep, cs) + [sep, x];
    forall j | 0 <= j < |a| ensures a[j] == b[j] {
      if j < 2 * |cs| {
        assert (cs + [x])[j / 2] == cs[j / 2];
      }
    }
  }

  /** What the exporter reads of one transition: its event and its target's name. */
  datatype Arrow = Arrow(event: string, target: string)

  /** What the exporter reads of one node of the list. */
  datatype StateNode = StateNode(name: string, arrows: seq<Arrow>)

  function TransitionElement(a: Arrow): Content {
    Element("transition", [Attr("event", a.event), Attr("target", a.target)], [])
  }

  function StateElement(n: StateNode): Content {
    Element("state", [Attr("id", n.name)], Interleave(Text(TransitionIndent), Map(TransitionElement, n.arrows)))
  }

  /** The root element the exporter writes for the list ns and the machine's initial state. */
  function Root(initial: string, ns: seq<StateNode>): Content {
    Element("scxml", [Attr("xmlns", Namespace), Attr("version", "1.0"), Attr("initial", initial)],
      Interleave(Text(StateIndent), Map(StateElement, ns)))
  }

  /** The whole stream: the document start, a newline, the root, a newline, the document end. */
  function Stream(initial: string, ns: seq<StateNode>): seq<XmlEvent> {
    [StartDocument("UTF-8", "1.0"), Characters("\n")] + Events(Root(initial, ns)) + [Characters("\n"), EndDocument]
  }

  // ----- The writer -----

  /** The end events for the still open elements, innermost first. */
  function Closing(open: seq<string>): (r: seq<XmlEvent>)
    ensures |r| == |open|
  {
    seq(|open|, i requires 0 <= i < |open| => EndElement(open[|open| - 1 - i]))
  }

  /** A streaming XML writer: the events written so far and the stack of open elements. */
  class XmlWriter {
    var events: seq<XmlEvent>
    var open: seq<string>

    constructor()
      ensures events == [] && open == []
    {
      events := [];
      open := [];
    }

    method WriteStartDocument(encoding: string, version: string)
      modifies this
      ensures events == old(events) + [StartDocument(encoding, version)] && open == old(open)
    {
      events := events + [StartDocument(encoding, version)];
    }

    method WriteCharacters(text: string)
      modifies this
      ensures events == old(events) + [Characters(text)] && open == old(open)
    {
      events := events + [Characters(text)];
    }

    method WriteStartElement(name: string)
      modifies this
      ensures events == old(events) + [StartElement(name)] && open == old(open) + [name]
    {
      events := events + [StartElement(name)];
      open := open + [name];
    }

    method WriteAttribute(name: string, value: string)
      modifies this
      ensures events == old(events) + [Attribute(name, value)] && open == old(open)
    {
      events := events + [Attribute(name, value)];
    }

    /** Ends the innermost open element; with none open the writer refuses. */
    method WriteEndElement()
      requires open != []
      modifies this
      ensures events == old(events) + [EndElement(old(open)[|old(open)| - 1])]
      ensures open == old(open)[..|old(open)| - 1]
    {
      events := events + [EndElement(open[|open| - 1])];
      open := open[..|open| - 1];
    }

    /** Closes the elements still open, innermost first, then ends the document. */
    method WriteEndDocument()
      modifies this
      ensures events == old(events) + Closing(old(open)) + [EndDocument] && open == []
    {
      events := events + Closing(open) + [EndDocument];
      open := [];
    }
  }

  // ----- export -----

  /** The events written before the first state: the document start, a newline and the root's start tag. */
  function Opening(initial: string): seq<XmlEvent> {
    [StartDocument("UTF-8", "1.0"), Characters("\n"), StartElement("scxml"),
     Attribute("xmlns", Namespace), Attribute("version", "1.0"), Attribute("initial", initial)]
  }

  /** The body of export, writing to a fresh writer. */
  method Render(w: XmlWriter, initial: string, ns: seq<StateNode>)
    requires w.events == [] && w.open == []
    modifies w
    ensures w.events == Stream(initial, ns) && w.open == []
  {
    WriteOpening(w, initial);
    WriteStates(w, ns);
    ghost var body := w.events;
    w.WriteEndElement();
    w.WriteCharacters("\n");
    w.WriteEndDocument();
    assert Closing([]) == [];
    assert w.events == body + [EndElement("scxml"), Characters("\n"), EndDocument];
    RootEvents(initial, ns);
  }

  /** The document start, a newline, and the root's start tag with its attributes. */
  method WriteOpening(w: XmlWriter, initial: string)
    requires w.events == [] && w.open == []
    modifies w
    ensures w.events == Opening(initial) && w.open == ["scxml"]
  {
    w.WriteStartDocument("UTF-8", "1.0");
    w.WriteCharacters("\n");
    w.WriteStartElement("scxml");
    w.WriteAttribute("xmlns", Namespace);
    w.WriteAttribute("version", "1.0");
    w.WriteAttribute("initial", initial);
  }

  /** The loop over the states. */
  method WriteStates(w: XmlWriter, ns: seq<StateNode>)
    requires w.open != []
    modifies w
    ensures w.events == old(w.events) + EventsOf(Interleave(Text(StateIndent), Map(StateElement, ns)))
    ensures w.open == old(w.open)
  {
    ghost var before := w.events;
    for i := 0 to |ns|
      invariant w.events == before + EventsOf(Interleave(Text(StateIndent), Map(StateElement, ns[..i])))
      invariant w.open == old(w.open)
    {
      ghost var prev := w.events;
      WriteState(w, ns[i]);
      LoopStep(before, prev, w.events, Text(StateIndent), StateElement, ns, i);
    }
    assert ns[..|ns|] == ns;
  }

  /** One iteration of the loop over the states: the indent, then the state element. */
  method WriteState(w: XmlWriter, source: StateNode)
    modifies w
    ensures w.events == old(w.events) + Events(Text(StateIndent)) + Events(StateElement(source))
    ensures w.open == old(w.open)
  {
    ghost var before := w.events;
    w.WriteCharacters(StateIndent);
    w.WriteStartElement("state");
    w.WriteAttribute("id", source.name);
    ghost var start := w.events;
    WriteTransitions(w, source.arrows);
    w.WriteEndElement();
    StateEvents(source);
    ghost var cs := Interleave(Text(TransitionIndent), Map(TransitionElement, source.arrows));
    assert Events(Text(StateIndent)) == [Characters(StateIndent)];
    assert start == before + [Characters(StateIndent), StartElement("state"), Attribute("id", source.name)];
    assert w.events == before + [Characters(StateIndent)] + ([StartElement("state"), Attribute("id", source.name)] + EventsOf(cs) + [EndElement("state")]);
  }

  /** The loop over one state's transitions. */
  method WriteTransitions(w: XmlWriter, arrows: seq<Arrow>)
    modifies w
    ensures w.events == old(w.events) + EventsOf(Interleave(Text(TransitionIndent), Map(TransitionElement, arrows)))
    ensures w.open == old(w.open)
  {
    ghost var before := w.events;
    for k := 0 to |arrows|
      invariant w.events == before + EventsOf(Interleave(Text(TransitionIndent), Map(TransitionElement, arrows[..k])))
      invariant w.open == old(w.open)
    {
      ghost var prev := w.events;
      WriteTransition(w, arrows[k]);
      LoopStep(before, prev, w.events, Text(TransitionIndent), TransitionElement, arrows, k);
    }
    assert arrows[..|arrows|] == arrows;
  }

  /** One iteration of the loop over the transitions: the indent, then the transition element. */
  method WriteTransition(w: XmlWriter, t: Arrow)
    modifies w
    ensures w.events == old(w.events) + Events(Text(TransitionIndent)) + Events(TransitionElement(t))
    ensures w.open == old(w.open)
  {
    w.WriteCharacters(TransitionIndent);
    w.WriteStartElement("transition");
    w.WriteAttribute("event", t.event);
    w.WriteAttribute("target", t.target);
    w.WriteEndElement();
    TransitionEvents(t);
    assert Events(Text(TransitionIndent)) == [Characters(TransitionIndent)];
  }

  /** The children for the first i + 1 elements: those for the first i, the separator, element i. */
  lemma ChildrenSnoc<T>(sep: Content, f: T -> Content, s: seq<T>, i: nat)
    requires i < |s|
    ensures EventsOf(Interleave(sep, Map(f, s[..i + 1])))
         == EventsOf(Interleave(sep, Map(f, s[..i]))) + Events(sep) + Events(f(s[i]))
  {
    MapSnoc(f, s, i);
    InterleaveSnoc(sep, Map(f, s[..i]), f(s[i]));
    EventsOfConcat(Interleave(sep, Map(f, s[..i])), [sep, f(s[i])]);
    EventsOfPair(sep, f(s[i]));
  }

  /** A loop that writes sep and then f of each element of s keeps to the events of the children so far. */
  lemma LoopStep<T>(before: seq<XmlEvent>, prev: seq<XmlEvent>, now: seq<XmlEvent>, sep: Content, f: T -> Content, s: seq<T>, i: nat)
    requires i < |s|
    requires prev == before + EventsOf(Interleave(sep, Map(f, s[..i])))
    requires now == prev + Events(sep) + Events(f(s[i]))
    ensures now == before + EventsOf(Interleave(sep, Map(f, s[..i + 1])))
  {
    ChildrenSnoc(sep, f, s, i);
  }

  lemma TransitionEvents(a: Arrow)
    ensures Events(TransitionElement(a))
         == [StartElement("transition"), Attribute("event", a.event), Attribute("target", a.target), EndElement("transition")]
  {
    assert EventsOf([]) == [];
  }

  lemma StateEvents(n: StateNode)
    ensures var cs := Interleave(Text(TransitionIndent), Map(TransitionElement, n.arrows));
      Events(StateElement(n)) == [StartElement("state"), Attribute("id", n.name)] + EventsOf(cs) + [EndElement("state")]
  {
  }

  lemma RootEvents(initial: string, ns: seq<StateNode>)
    ensures var cs := Interleave(Text(StateIndent), Map(StateElement, ns));
      Stream(initial, ns) == Opening(initial) + EventsOf(cs) + [EndElement("scxml"), Characters("\n"), EndDocument]
  {
  }

  // ----- What the document says -----

  /**
   * The stream opens the document, then the root element scxml with the
   * namespace, version 1.0 and the initial state; it closes the root and the
   * document, and every element it opens it closes.
   */
  lemma StreamShape(initial: string, ns: seq<StateNode>)
    ensures var s := Stream(initial, ns);
      && |s| >= 9
      && s[..6] == Opening(initial)
      && s[|s| - 3..] == [EndElement("scxml"), Characters("\n"), EndDocument]
      && Balanced(s)
  {
    RootEvents(initial, ns);
    Ends(Opening(initial), EventsOf(Interleave(Text(StateIndent), Map(StateElement, ns))),
      [EndElement("scxml"), Characters("\n"), EndDocument]);
    ScanEvents(Root(initial, ns), []);
    DocumentBalanced(Events(Root(initial, ns)));
  }

  /** A balanced body between the document start, with its newline, and the newline and document end. */
  lemma DocumentBalanced(body: seq<XmlEvent>)
    requires Scan(body, []) == Some([])
    ensures Balanced([StartDocument("UTF-8", "1.0"), Characters("\n")] + body + [Characters("\n"), EndDocument])
  {
    var head, tail := [StartDocument("UTF-8", "1.0"), Characters("\n")], [Characters("\n"), EndDocument];
    assert head[0].StartDocument? && head[1..] == [Characters("\n")] && head[1..][1..] == [];
    assert Scan(head, []) == Some([]);
    assert tail[0].Characters? && tail[1..] == [EndDocument] && tail[1..][1..] == [];
    assert Scan(tail, []) == Some([]);
    ScanConcat(head, body + tail, []);
    ScanConcat(body, tail, []);
    assert head + body + tail == head + (body + tail);
  }

  /**
   * The root's children: before each state element the indent "\n  ";
   * state element i has id the name of node i and, for each of its
   * transitions, the indent "\n    " and a transition element with the event
   * and the target's name and no children.
   */
  lemma RootShape(initial: string, ns: seq<StateNode>)
    ensures var root := Root(initial, ns);
      && root.Element? && root.name == "scxml"
      && root.attributes == [Attr("xmlns", Namespace), Attr("version", "1.0"), Attr("initial", initial)]
      && |root.children| == 2 * |ns|
      && forall i :: 0 <= i < |ns| ==>
           && root.children[2 * i] == Text(StateIndent)
           && root.children[2 * i + 1] == StateElement(ns[i])
  {
  }

  lemma StateShape(n: StateNode)
    ensures var e := StateElement(n);
      && e.Element? && e.name == "state" && e.attributes == [Attr("id", n.name)]
      && |e.children| == 2 * |n.arrows|
      && (e.children == [] <==> n.arrows == [])
      && forall k :: 0 <= k < |n.arrows| ==>
           && e.children[2 * k] == Text(TransitionIndent)
           && e.children[2 * k + 1] == Element("transition", [Attr("event", n.arrows[k].event), Attr("target", n.arrows[k].target)], [])
  {
  }

  // ----- The list of the analysis -----

  function Arrows(nodes: seq<Analysis.StateInfo>, ts: seq<Graph.TransitionInfo>): (r: seq<Arrow>)
    requires forall j :: 0 <= j < |ts| ==> ts[j].target < |nodes|
    ensures |r| == |ts|
  {
    seq(|ts|, j requires 0 <= j < |ts| => Arrow(ts[j].event, nodes[ts[j].target].name))
  }

  /** The returned list of the analysis, as the exporter reads it. */
  function View(r: Analysis.Model): (ns: seq<StateNode>)
    requires Analysis.Closed(r)
    ensures |ns| == |r.stateList|
  {
    seq(|r.stateList|, i requires 0 <= i < |r.stateList| =>
      var s := r.nodes[r.stateList[i]];
      StateNode(s.name, Arrows(r.nodes, s.transitions)))
  }

  /** export(machine, output). */
  method Export(m: Machine) returns (r: Analysis.Model, events: seq<XmlEvent>)
    requires WellFormed(m)
    ensures Analysis.IsAnalysisOf(m, r) && Analysis.Closed(r)
    ensures events == Stream(m.initial, View(r))
  {
    r := Analysis.AnalyzeStateMachine(m);
    Analysis.ClosedModel(m, r);
    var w := new XmlWriter();
    Render(w, m.initial, View(r));
    events := w.events;
  }

  /**
   * The document of an analysed machine: state element i is that of the
   * state listed at position i and carries its name; the initial attribute
   * names the state listed first.
   */
  lemma ModelStates(m: Machine, r: Analysis.Model)
    requires Analysis.IsAnalysisOf(m, r)
    ensures Analysis.Closed(r) && |r.nodes| == |r.stateList| == |m.states|
    ensures var ns := View(r);
      && |ns| == |m.states| && ns[0].name == m.initial
      && forall i :: 0 <= i < |ns| ==> ns[i].name == m.states[r.stateList[i]]
  {
    Analysis.ClosedModel(m, r);
    Analysis.NodeNames(m, r);
    Analysis.OneInitial(m, r);
  }

  /**
   * Every state of the machine has its state element: node h's, at position
   * index, with id the state's name; its transition children are those of
   * h in sorted order, each with its event and its target state's name.
   */
  lemma ModelState(m: Machine, r: Analysis.Model, h: nat)
    requires Analysis.IsAnalysisOf(m, r) && h < |r.nodes|
    ensures Analysis.Closed(r) && |r.nodes| == |r.stateList| == |m.states|
    ensures var i := r.nodes[h].index;
      var ts := Analysis.SortedTransitions(m, h);
      && i < |View(r)| && View(r)[i].name == m.states[h]
      && |View(r)[i].arrows| == |ts| == |Analysis.Edges(m)[h]|
      && forall k :: 0 <= k < |ts| ==> ts[k].target < |m.states| && View(r)[i].arrows[k] == Arrow(ts[k].event, m.states[ts[k].target])
  {
    Analysis.ClosedModel(m, r);
    Analysis.NodeNames(m, r);
    Analysis.IndexIsPosition(m, r, h);
    Analysis.NodeTransitions(m, r, h);
  }
}
