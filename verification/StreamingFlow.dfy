/**
 * The streaming-flow parser. A flow such as "A >> B&C >> D | A >> D" denotes relations between nodes;
 * parsing checks them one by one, in the order written, and collects edges and a flow grouped by source.
 */
module StreamingFlow {
  import opened Wrappers
  import opened FlowText

  /** A pipeline node; `origName` is empty when there is none. The state type is the one settled before parsing. */
  datatype Node = Node(nodeName: string, origName: string, stateless: bool)

  datatype Edge = Edge(source: string, target: string)

  datatype FlowNode = FlowNode(source: string, next: seq<string>)

  datatype FlowError =
    | NoFlows
    | NoDefaultFlow
    | NotAFlow
    | EmptyTarget(after: string)
    | UnknownNode(name: string)
    | SelfRelation(name: string)
    | DuplicateRelation(source: string, target: string)
    | EmptyFlow(flow: string)
    | NodeWithoutFlow(name: string)
    | EntryWithoutNode
    | StatelessEntry(name: string)

  /** A node without an original name is never matched by one. */
  predicate IsNode(nodes: seq<Node>, s: string) {
    exists n :: n in nodes && (n.nodeName == s || (n.origName != "" && n.origName == s))
  }

  // ---------------------------------------------------------------- the checks a flow spells out

  /** What the parser looks at, one after the other. */
  datatype Check =
    | Parts(count: nat)
    | Target(source: string, empty: bool)
    | Known(name: string)
    | Relate(edge: Edge)

  function Names(part: string): seq<string> { SplitChar(part, '&') }

  function RelateAll(s: string, targets: seq<string>): (r: seq<Check>)
    ensures |r| == |targets| && forall i :: 0 <= i < |r| ==> r[i] == Relate(Edge(s, targets[i]))
  {
    seq(|targets|, i requires 0 <= i < |targets| => Relate(Edge(s, targets[i])))
  }

  /** The lists from `i` on, one after the other. */
  function Flat<T>(ss: seq<seq<T>>, i: nat): seq<T>
    requires i <= |ss|
    decreases |ss| - i
  {
    if i == |ss| then [] else ss[i] + Flat(ss, i + 1)
  }

  /** Each source is looked up and then related to all targets. */
  function SourceChecks(sources: seq<string>, targets: seq<string>): (r: seq<seq<Check>>)
    ensures |r| == |sources|
  {
    seq(|sources|, i requires 0 <= i < |sources| => [Known(sources[i])] + RelateAll(sources[i], targets))
  }

  /** The names a part points to; the last part has no target. */
  function TargetsOf(parts: seq<string>, i: nat): seq<string>
    requires i < |parts|
  {
    if i + 1 == |parts| then [] else Names(parts[i + 1])
  }

  function PartCheck(parts: seq<string>, i: nat): seq<Check>
    requires i < |parts|
  {
    [Target(parts[i], i + 1 < |parts| && parts[i + 1] == [])]
    + Flat(SourceChecks(Names(parts[i]), TargetsOf(parts, i)), 0)
  }

  function PartChecks(parts: seq<string>): (r: seq<seq<Check>>)
    ensures |r| == |parts|
  {
    seq(|parts|, i requires 0 <= i < |parts| => PartCheck(parts, i))
  }

  function ExpressionCheck(e: string): seq<Check> {
    [Parts(|SplitArrow(e)|)] + Flat(PartChecks(SplitArrow(e)), 0)
  }

  function ExpressionChecks(es: seq<string>): (r: seq<seq<Check>>)
    ensures |r| == |es|
  {
    seq(|es|, x requires 0 <= x < |es| => ExpressionCheck(es[x]))
  }

  function Expressions(v: string): seq<string> { SplitChar(Strip(v), '|') }

  /** Everything the parser checks in a flow text, in order. */
  function Script(v: string): seq<Check> { Flat(ExpressionChecks(Expressions(v)), 0) }

  // ---------------------------------------------------------------- running the checks

  /** `flowEdges` is the set of keys seen in this flow; `edges` collects over all flows. */
  datatype Parse = Parse(flow: seq<FlowNode>, flowEdges: set<string>, edges: seq<Edge>)

  function Key(e: Edge): string { e.source + " >> " + e.target }

  function AddToFlow(flow: seq<FlowNode>, e: Edge): seq<FlowNode> {
    if flow == [] then [FlowNode(e.source, [e.target])]
    else if flow[0].source == e.source then [flow[0].(next := flow[0].next + [e.target])] + flow[1..]
    else [flow[0]] + AddToFlow(flow[1..], e)
  }

  function AddEdge(edges: seq<Edge>, e: Edge): seq<Edge> {
    if e in edges then edges else edges + [e]
  }

  function RunCheck(p: Parse, c: Check, nodes: seq<Node>): Result<Parse, FlowError> {
    match c
    case Parts(count) => if count == 1 then Err(NotAFlow) else Ok(p)
    case Target(source, empty) => if empty then Err(EmptyTarget(source)) else Ok(p)
    case Known(name) => if IsNode(nodes, name) then Ok(p) else Err(UnknownNode(name))
    case Relate(e) =>
      if e.source == e.target then Err(SelfRelation(e.source))
      else if Key(e) in p.flowEdges then Err(DuplicateRelation(e.source, e.target))
      else Ok(Parse(AddToFlow(p.flow, e), p.flowEdges + {Key(e)}, AddEdge(p.edges, e)))
  }

  function RunScript(p: Parse, cs: seq<Check>, nodes: seq<Node>): Result<Parse, FlowError>
    decreases |cs|
  {
    if cs == [] then Ok(p)
    else
      match RunCheck(p, cs[0], nodes)
      case Err(e) => Err(e)
      case Ok(q) => RunScript(q, cs[1..], nodes)
  }

  /** One flow parsed on top of the edges of the flows before it. An empty text is refused. */
  function ParseFlow(name: string, v: string, edges: seq<Edge>, nodes: seq<Node>): Result<Parse, FlowError> {
    if v == "" then Err(EmptyFlow(name))
    else RunScript(Parse([], {}, edges), Script(v), nodes)
  }

  /** The flows of a pipeline: `parsedFlow` by flow name, `edges` over all flows. */
  datatype Streaming = Streaming(edges: seq<Edge>, parsedFlow: map<string, seq<FlowNode>>)

  /** A named flow text. */
  datatype NamedFlow = NamedFlow(name: string, text: string)

  function ParseFlows(at: Streaming, flows: seq<NamedFlow>, nodes: seq<Node>): Result<Streaming, FlowError>
    decreases |flows|
  {
    if flows == [] then Ok(at)
    else
      match ParseFlow(flows[0].name, flows[0].text, at.edges, nodes)
      case Err(e) => Err(e)
      case Ok(p) =>
        ParseFlows(Streaming(p.edges, at.parsedFlow[flows[0].name := p.flow]), flows[1..], nodes)
  }

  predicate InEdges(edges: seq<Edge>, s: string) {
    exists e :: e in edges && (e.source == s || e.target == s)
  }

  /** `n.nodeName || n.origName` */
  function NodeKey(n: Node): string { if n.nodeName != "" then n.nodeName else n.origName }

  function FirstLoose(nodes: seq<Node>, edges: seq<Edge>): Option<Node> {
    if nodes == [] then None
    else if !InEdges(edges, NodeKey(nodes[0])) then Some(nodes[0])
    else FirstLoose(nodes[1..], edges)
  }

  function WithName(names: seq<string>, s: string): seq<string> { if s in names then names else names + [s] }

  /** The nodes of the graph, in the order its edges bring them in. */
  function EdgeNames(edges: seq<Edge>): seq<string> {
    if edges == [] then []
    else
      var e := edges[|edges| - 1];
      WithName(WithName(EdgeNames(edges[..|edges| - 1]), e.source), e.target)
  }

  predicate IsTarget(edges: seq<Edge>, s: string) { exists e :: e in edges && e.target == s }

  /** Those of the names that no edge leads to. */
  function Entries(names: seq<string>, edges: seq<Edge>): (r: seq<string>)
    ensures forall s :: s in r <==> s in names && !IsTarget(edges, s)
  {
    if names == [] then []
    else (if IsTarget(edges, names[0]) then [] else [names[0]]) + Entries(names[1..], edges)
  }

  /** The first node of this name; here an original name does not do. */
  function FirstNamed(nodes: seq<Node>, s: string): Option<Node> {
    if nodes == [] then None else if nodes[0].nodeName == s then Some(nodes[0]) else FirstNamed(nodes[1..], s)
  }

  function StatelessError(nodes: seq<Node>, entries: seq<string>): Option<FlowError> {
    if entries == [] then None
    else
      match FirstNamed(nodes, entries[0])
      case Some(n) => if n.stateless then Some(StatelessEntry(n.nodeName)) else StatelessError(nodes, entries[1..])
      case None => StatelessError(nodes, entries[1..])
  }

  /** An entry that is no node's own name makes the source throw before any entry is found stateless. */
  function EntryError(nodes: seq<Node>, entries: seq<string>): Option<FlowError> {
    if exists s :: s in entries && FirstNamed(nodes, s).None? then Some(EntryWithoutNode)
    else StatelessError(nodes, entries)
  }

  /** All flows of a pipeline: every text parses, every node is in some relation, and no entry is stateless. */
  function Build(flows: seq<NamedFlow>, defaultFlow: string, nodes: seq<Node>): Result<Streaming, FlowError> {
    if flows == [] then Err(NoFlows)
    else if defaultFlow == "" && |flows| > 1 then Err(NoDefaultFlow)
    else
      match ParseFlows(Streaming([], map[]), flows, nodes)
      case Err(e) => Err(e)
      case Ok(s) =>
        match FirstLoose(nodes, s.edges)
        case Some(n) => Err(NodeWithoutFlow(n.nodeName))
        case None =>
          match EntryError(nodes, Entries(EdgeNames(s.edges), s.edges))
          case Some(e) => Err(e)
          case None => Ok(s)
  }

  lemma {:induction false} RunAppend(p: Parse, a: seq<Check>, b: seq<Check>, nodes: seq<Node>)
    ensures RunScript(p, a + b, nodes) ==
            match RunScript(p, a, nodes) case Err(e) => Err(e) case Ok(q) => RunScript(q, b, nodes)
    decreases |a|
  {
    if a == [] {
      assert a + b == b;
    } else {
      assert (a + b)[0] == a[0] && (a + b)[1..] == a[1..] + b;
      match RunCheck(p, a[0], nodes)
      case Err(e) =>
      case Ok(q) => RunAppend(q, a[1..], b, nodes);
    }
  }

  /** Running the lists of checks from `i` on. */
  function RunFrom(p: Parse, ss: seq<seq<Check>>, i: nat, nodes: seq<Node>): Result<Parse, FlowError>
    requires i <= |ss|
  {
    RunScript(p, Flat(ss, i), nodes)
  }

  /** The outcome of running checks from `p`: the first error, or the state they lead to. */
  ghost predicate Follows(p: Parse, cs: seq<Check>, err: Option<FlowError>, q: Parse, nodes: seq<Node>) {
    match RunScript(p, cs, nodes)
    case Err(e) => err == Some(e)
    case Ok(r) => err == None && q == r
  }

  /** One list run, the lists after it remain. */
  lemma RunFromStep(p: Parse, ss: seq<seq<Check>>, i: nat, err: Option<FlowError>, q: Parse, nodes: seq<Node>)
    requires i < |ss| && Follows(p, ss[i], err, q, nodes)
    ensures err.Some? ==> RunFrom(p, ss, i, nodes) == Err(err.value)
    ensures err.None? ==> RunFrom(p, ss, i, nodes) == RunFrom(q, ss, i + 1, nodes)
  {
    RunAppend(p, ss[i], Flat(ss, i + 1), nodes);
  }

  // ---------------------------------------------------------------- the nested loops

  class Parser {
    const nodes: seq<Node>
    var flow: seq<FlowNode>
    var flowEdges: set<string>
    var edges: seq<Edge>

    constructor (nodes: seq<Node>)
      ensures Here() == Parse([], {}, []) && this.nodes == nodes
    {
      this.nodes, flow, flowEdges, edges := nodes, [], {}, [];
    }

    function Here(): Parse
      reads this
    {
      Parse(flow, flowEdges, edges)
    }

    /** The innermost body: one source, one target. */
    method Relation(s: string, t: string) returns (err: Option<FlowError>)
      modifies this
      ensures match RunCheck(old(Here()), Relate(Edge(s, t)), nodes)
              case Err(e) => err == Some(e) && Here() == old(Here())
              case Ok(p) => err == None && Here() == p
    {
      var edgeKey := Key(Edge(s, t));
      if s == t {
        return Some(SelfRelation(s));
      }
      if edgeKey in flowEdges {
        return Some(DuplicateRelation(s, t));
      }
      flowEdges := flowEdges + {edgeKey};
      if Edge(s, t) !in edges {
        edges := edges + [Edge(s, t)];
      }
      flow := AddToFlow(flow, Edge(s, t));
      err := None;
    }

    /** One source against all targets of the next part. */
    method Source(s: string, targets: seq<string>) returns (err: Option<FlowError>)
      modifies this
      ensures Follows(old(Here()), [Known(s)] + RelateAll(s, targets), err, Here(), nodes)
    {
      ghost var start, all := Here(), RelateAll(s, targets);
      assert ([Known(s)] + all)[1..] == all;
      if !IsNode(nodes, s) {
        return Some(UnknownNode(s));
      }
      assert all[0..] == all;
      for i := 0 to |targets|
        invariant RunScript(Here(), all[i..], nodes) == RunScript(start, all, nodes)
      {
        assert all[i..][0] == Relate(Edge(s, targets[i])) && all[i..][1..] == all[i + 1..];
        err := Relation(s, targets[i]);
        if err.Some? {
          return;
        }
      }
      err := None;
    }

    method Sources(sources: seq<string>, targets: seq<string>) returns (err: Option<FlowError>)
      modifies this
      ensures Follows(old(Here()), Flat(SourceChecks(sources, targets), 0), err, Here(), nodes)
    {
      ghost var start, all := Here(), SourceChecks(sources, targets);
      for i := 0 to |sources|
        invariant RunFrom(Here(), all, i, nodes) == RunFrom(start, all, 0, nodes)
      {
        ghost var before := Here();
        err := Source(sources[i], targets);
        RunFromStep(before, all, i, err, Here(), nodes);
        if err.Some? {
          return;
        }
      }
      err := None;
    }

    method Part(parts: seq<string>, i: nat) returns (err: Option<FlowError>)
      requires i < |parts|
      modifies this
      ensures Follows(old(Here()), PartCheck(parts, i), err, Here(), nodes)
    {
      var source, last := parts[i], i + 1 == |parts|;
      ghost var check := Target(source, !last && parts[i + 1] == []);
      ghost var rest := Flat(SourceChecks(Names(source), TargetsOf(parts, i)), 0);
      assert ([check] + rest)[1..] == rest;
      if !last && |parts[i + 1]| == 0 {
        return Some(EmptyTarget(source));
      }
      err := Sources(Names(source), if last then [] else Names(parts[i + 1]));
    }

    method AllParts(parts: seq<string>) returns (err: Option<FlowError>)
      modifies this
      ensures Follows(old(Here()), Flat(PartChecks(parts), 0), err, Here(), nodes)
    {
      ghost var start, all := Here(), PartChecks(parts);
      for i := 0 to |parts|
        invariant RunFrom(Here(), all, i, nodes) == RunFrom(start, all, 0, nodes)
      {
        ghost var before := Here();
        err := Part(parts, i);
        RunFromStep(before, all, i, err, Here(), nodes);
        if err.Some? {
          return;
        }
      }
      err := None;
    }

    method Expression(e: string) returns (err: Option<FlowError>)
      modifies this
      ensures Follows(old(Here()), ExpressionCheck(e), err, Here(), nodes)
    {
      var parts := SplitArrow(e);
      ghost var rest := Flat(PartChecks(parts), 0);
      assert ([Parts(|parts|)] + rest)[1..] == rest;
      if |parts| == 1 {
        return Some(NotAFlow);
      }
      err := AllParts(parts);
    }

    /** One flow, on top of the edges collected so far. */
    method Flow(name: string, v: string) returns (r: Result<seq<FlowNode>, FlowError>)
      modifies this
      ensures match ParseFlow(name, v, old(edges), nodes)
              case Err(e) => r == Err(e)
              case Ok(p) => r == Ok(p.flow) && edges == p.edges
    {
      if |v| == 0 {
        return Err(EmptyFlow(name));
      }
      flow, flowEdges := [], {};
      var expressions := Expressions(v);
      ghost var start, all := Here(), ExpressionChecks(expressions);
      for i := 0 to |expressions|
        invariant RunFrom(Here(), all, i, nodes) == RunFrom(start, all, 0, nodes)
      {
        ghost var before := Here();
        var err := Expression(expressions[i]);
        RunFromStep(before, all, i, err, Here(), nodes);
        if err.Some? {
          return Err(err.value);
        }
      }
      r := Ok(flow);
    }

    method Flows(flows: seq<NamedFlow>, defaultFlow: string) returns (r: Result<Streaming, FlowError>)
      requires edges == []
      modifies this
      ensures r == Build(flows, defaultFlow, nodes)
    {
      if |flows| == 0 {
        return Err(NoFlows);
      }
      if defaultFlow == "" && |flows| > 1 {
        return Err(NoDefaultFlow);
      }
      var parsedFlow := map[];
      assert flows[0..] == flows;
      for i := 0 to |flows|
        invariant ParseFlows(Streaming(edges, parsedFlow), flows[i..], nodes)
                  == ParseFlows(Streaming([], map[]), flows, nodes)
      {
        assert flows[i..][0] == flows[i] && flows[i..][1..] == flows[i + 1..];
        var parsed := Flow(flows[i].name, flows[i].text);
        if parsed.Err? {
          return Err(parsed.error);
        }
        parsedFlow := parsedFlow[flows[i].name := parsed.value];
      }
      var loose := FirstLoose(nodes, edges);
      if loose.Some? {
        return Err(NodeWithoutFlow(loose.value.nodeName));
      }
      var refused := EntryError(nodes, Entries(EdgeNames(edges), edges));
      if refused.Some? {
        return Err(refused.value);
      }
      r := Ok(Streaming(edges, parsedFlow));
    }
  }
}
