/** What the flows of a pipeline amount to together. */
module FlowBuild {
  import opened Wrappers
  import opened Sequences
  import opened StreamingFlow
  import opened FlowMeaning

  /** The relations of a named flow. */
  function EdgesOfFlow(f: NamedFlow): seq<Edge> { TextEdges(Expressions(f.text)) }

  /** The conditions on one flow text, without reference to the parser. */
  ghost predicate FlowAccepted(f: NamedFlow, nodes: seq<Node>) {
    && f.text != ""
    && ExpressionsOk(Expressions(f.text), nodes)
    && NoSelf(EdgesOfFlow(f)) && Distinct(EdgesOfFlow(f))
  }

  ghost predicate DistinctFlowNames(flows: seq<NamedFlow>) {
    forall i, j :: 0 <= i < j < |flows| ==> flows[i].name != flows[j].name
  }

  /** The edges after some flows: each relation of each flow, and those before them; none twice. */
  ghost predicate EdgesUnion(before: seq<Edge>, flows: seq<NamedFlow>, edges: seq<Edge>) {
    && Distinct(edges)
    && forall e :: e in edges <==> e in before || exists f :: f in flows && e in EdgesOfFlow(f)
  }

  /** Every flow is recorded under its name, grouped; other entries stay. */
  ghost predicate Recorded(
      flows: seq<NamedFlow>, before: map<string, seq<FlowNode>>, after: map<string, seq<FlowNode>>)
  {
    && (forall f :: f in flows ==> f.name in after && after[f.name] == AddAllToFlow([], EdgesOfFlow(f)))
    && (forall n :: n in before && (forall f :: f in flows ==> f.name != n) ==> n in after && after[n] == before[n])
    && (forall n :: n in after ==> n in before || exists f :: f in flows && f.name == n)
  }

  lemma {:induction false} ParseFlowsIff(at: Streaming, flows: seq<NamedFlow>, nodes: seq<Node>)
    ensures ParseFlows(at, flows, nodes).Ok? <==> forall f :: f in flows ==> FlowAccepted(f, nodes)
    decreases |flows|
  {
    if flows != [] {
      AcceptedIff(flows[0].name, flows[0].text, at.edges, nodes);
      assert flows == [flows[0]] + flows[1..];
      match ParseFlow(flows[0].name, flows[0].text, at.edges, nodes)
      case Err(e) => assert !FlowAccepted(flows[0], nodes);
      case Ok(p) => ParseFlowsIff(Streaming(p.edges, at.parsedFlow[flows[0].name := p.flow]), flows[1..], nodes);
    }
  }

  lemma UnionStep(before: seq<Edge>, flows: seq<NamedFlow>, edges: seq<Edge>)
    requires flows != [] && Distinct(before)
    requires EdgesUnion(AddAllEdges(before, EdgesOfFlow(flows[0])), flows[1..], edges)
    ensures EdgesUnion(before, flows, edges)
  {
    var f, rest := flows[0], flows[1..];
    AddedEdges(before, EdgesOfFlow(f));
    assert f in flows && forall g :: g in flows <==> g == f || g in rest;
    forall e ensures e in edges <==> e in before || exists g :: g in flows && e in EdgesOfFlow(g) {
    }
  }

  /** What the flows so far come to once `f` is added. */
  function AfterFlow(at: Streaming, f: NamedFlow, nodes: seq<Node>): Streaming {
    Streaming(AddAllEdges(at.edges, EdgesOfFlow(f)), at.parsedFlow[f.name := AddAllToFlow([], EdgesOfFlow(f))])
  }

  lemma ParseFlowsStep(at: Streaming, flows: seq<NamedFlow>, nodes: seq<Node>)
    requires flows != [] && ParseFlows(at, flows, nodes).Ok?
    ensures ParseFlows(at, flows, nodes) == ParseFlows(AfterFlow(at, flows[0], nodes), flows[1..], nodes)
  {
    AcceptedIff(flows[0].name, flows[0].text, at.edges, nodes);
  }

  lemma AfterFlowDistinct(at: Streaming, f: NamedFlow, nodes: seq<Node>)
    requires Distinct(at.edges)
    ensures Distinct(AfterFlow(at, f, nodes).edges)
  {
    AddedEdges(at.edges, EdgesOfFlow(f));
  }

  lemma {:induction false} ParseFlowsEdges(at: Streaming, flows: seq<NamedFlow>, nodes: seq<Node>)
    requires Distinct(at.edges) && ParseFlows(at, flows, nodes).Ok?
    ensures EdgesUnion(at.edges, flows, ParseFlows(at, flows, nodes).value.edges)
    decreases |flows|
  {
    if flows != [] {
      var next := AfterFlow(at, flows[0], nodes);
      ParseFlowsStep(at, flows, nodes);
      AfterFlowDistinct(at, flows[0], nodes);
      ParseFlowsEdges(next, flows[1..], nodes);
      UnionStep(at.edges, flows, ParseFlows(next, flows[1..], nodes).value.edges);
    }
  }

  function WithFlow(before: map<string, seq<FlowNode>>, f: NamedFlow): map<string, seq<FlowNode>> {
    before[f.name := AddAllToFlow([], EdgesOfFlow(f))]
  }

  function RecordAll(before: map<string, seq<FlowNode>>, flows: seq<NamedFlow>): map<string, seq<FlowNode>>
    decreases |flows|
  {
    if flows == [] then before else RecordAll(WithFlow(before, flows[0]), flows[1..])
  }

  lemma {:induction false} ParseFlowsRecords(at: Streaming, flows: seq<NamedFlow>, nodes: seq<Node>)
    requires ParseFlows(at, flows, nodes).Ok?
    ensures ParseFlows(at, flows, nodes).value.parsedFlow == RecordAll(at.parsedFlow, flows)
    decreases |flows|
  {
    if flows != [] {
      ParseFlowsStep(at, flows, nodes);
      ParseFlowsRecords(AfterFlow(at, flows[0], nodes), flows[1..], nodes);
    }
  }

  lemma RecordedNone(before: map<string, seq<FlowNode>>)
    ensures Recorded([], before, before)
  {
  }

  lemma RestDistinct(flows: seq<NamedFlow>)
    requires flows != [] && DistinctFlowNames(flows)
    ensures DistinctFlowNames(flows[1..])
  {
    assert forall i :: 0 <= i < |flows[1..]| ==> flows[1..][i] == flows[i + 1];
  }

  lemma {:induction false} RecordAllMeaning(before: map<string, seq<FlowNode>>, flows: seq<NamedFlow>)
    requires DistinctFlowNames(flows)
    ensures Recorded(flows, before, RecordAll(before, flows))
    decreases |flows|
  {
    if flows == [] {
      RecordedNone(before);
    } else {
      RestDistinct(flows);
      RecordAllMeaning(WithFlow(before, flows[0]), flows[1..]);
      RecordedStep(flows, before, RecordAll(before, flows));
    }
  }

  lemma RestHasOtherNames(flows: seq<NamedFlow>)
    requires flows != [] && DistinctFlowNames(flows)
    ensures forall g :: g in flows[1..] ==> g.name != flows[0].name
    ensures forall g :: g in flows <==> g == flows[0] || g in flows[1..]
  {
    var rest := flows[1..];
    forall g | g in rest ensures g.name != flows[0].name {
      var i :| 0 <= i < |rest| && rest[i] == g;
      assert flows[0].name != flows[i + 1].name;
    }
  }

  lemma RecordedStep(
      flows: seq<NamedFlow>, before: map<string, seq<FlowNode>>, after: map<string, seq<FlowNode>>)
    requires flows != [] && DistinctFlowNames(flows) && Recorded(flows[1..], WithFlow(before, flows[0]), after)
    ensures Recorded(flows, before, after)
  {
    var f, here := flows[0], WithFlow(before, flows[0]);
    RestHasOtherNames(flows);
    assert f.name in after && after[f.name] == here[f.name];
    forall n | n in before && (forall g :: g in flows ==> g.name != n) ensures n in after && after[n] == before[n] {
      assert f in flows && n in here && here[n] == before[n];
    }
    forall n | n in after ensures n in before || exists g :: g in flows && g.name == n {
      assert n in here ==> n in before || n == f.name;
    }
  }

  lemma {:induction false} NoLooseNode(nodes: seq<Node>, edges: seq<Edge>)
    ensures FirstLoose(nodes, edges).None? <==> forall n :: n in nodes ==> InEdges(edges, NodeKey(n))
  {
    if nodes != [] {
      NoLooseNode(nodes[1..], edges);
      assert nodes == [nodes[0]] + nodes[1..];
    }
  }

  /** A node is mentioned by some flow. */
  ghost predicate Mentioned(flows: seq<NamedFlow>, s: string) {
    exists f, e :: f in flows && e in EdgesOfFlow(f) && (e.source == s || e.target == s)
  }

  /** A node goes by its name, or by its original name if it has no other. */
  ghost predicate NodeMentioned(flows: seq<NamedFlow>, n: Node) {
    if |n.nodeName| > 0 then Mentioned(flows, n.nodeName) else Mentioned(flows, n.origName)
  }

  lemma UnionMentions(flows: seq<NamedFlow>, edges: seq<Edge>, s: string)
    requires EdgesUnion([], flows, edges)
    ensures InEdges(edges, s) <==> Mentioned(flows, s)
  {
    if InEdges(edges, s) {
      var e :| e in edges && (e.source == s || e.target == s);
      assert e in edges <==> e in [] || exists f :: f in flows && e in EdgesOfFlow(f);
    }
    if Mentioned(flows, s) {
      var f, e :| f in flows && e in EdgesOfFlow(f) && (e.source == s || e.target == s);
      assert e in edges;
    }
  }

  /** Some relation of some flow points to the node. */
  ghost predicate PointedTo(flows: seq<NamedFlow>, s: string) {
    exists f, e :: f in flows && e in EdgesOfFlow(f) && e.target == s
  }

  lemma UnionTargets(flows: seq<NamedFlow>, edges: seq<Edge>, s: string)
    requires EdgesUnion([], flows, edges)
    ensures IsTarget(edges, s) <==> PointedTo(flows, s)
  {
    if IsTarget(edges, s) {
      var e :| e in edges && e.target == s;
      assert e in edges <==> e in [] || exists f :: f in flows && e in EdgesOfFlow(f);
    }
    if PointedTo(flows, s) {
      var f, e :| f in flows && e in EdgesOfFlow(f) && e.target == s;
      assert e in edges;
    }
  }

  lemma InEdgesAppend(front: seq<Edge>, e: Edge, s: string)
    ensures InEdges(front + [e], s) <==> InEdges(front, s) || e.source == s || e.target == s
  {
    assert e in front + [e];
  }

  lemma WithNameHas(names: seq<string>, x: string, s: string)
    ensures s in WithName(names, x) <==> s in names || s == x
  {
  }

  lemma EdgeNamesStep(edges: seq<Edge>, front: seq<Edge>, e: Edge, s: string)
    requires edges == front + [e] && (s in EdgeNames(front) <==> InEdges(front, s))
    ensures s in EdgeNames(edges) <==> InEdges(edges, s)
  {
    assert edges[..|edges| - 1] == front;
    InEdgesAppend(front, e, s);
    WithNameHas(EdgeNames(front), e.source, s);
    WithNameHas(WithName(EdgeNames(front), e.source), e.target, s);
  }

  lemma {:induction false} EdgeNamesHas(edges: seq<Edge>, s: string)
    ensures s in EdgeNames(edges) <==> InEdges(edges, s)
  {
    if edges != [] {
      EdgeNamesHas(edges[..|edges| - 1], s);
      EdgeNamesStep(edges, edges[..|edges| - 1], edges[|edges| - 1], s);
    }
  }

  /** Position `i` holds the first node of this very name. */
  ghost predicate NamedFirst(nodes: seq<Node>, i: nat, s: string) {
    i < |nodes| && nodes[i].nodeName == s && forall k :: 0 <= k < i ==> nodes[k].nodeName != s
  }

  lemma {:induction false} FirstNamedIs(nodes: seq<Node>, s: string) returns (i: nat)
    ensures FirstNamed(nodes, s).Some? ==> NamedFirst(nodes, i, s) && FirstNamed(nodes, s).value == nodes[i]
    ensures FirstNamed(nodes, s).None? ==> forall n :: n in nodes ==> n.nodeName != s
  {
    i := 0;
    if nodes != [] && nodes[0].nodeName != s {
      var k := FirstNamedIs(nodes[1..], s);
      i := k + 1;
      assert nodes == [nodes[0]] + nodes[1..];
    }
  }

  /** The node of this name exists and keeps state. */
  ghost predicate KeepsState(nodes: seq<Node>, s: string) {
    exists i: nat :: NamedFirst(nodes, i, s) && !nodes[i].stateless
  }

  lemma KeepsStateIff(nodes: seq<Node>, s: string)
    ensures KeepsState(nodes, s) <==> FirstNamed(nodes, s).Some? && !FirstNamed(nodes, s).value.stateless
    ensures FirstNamed(nodes, s).Some? <==> exists n :: n in nodes && n.nodeName == s
  {
    var i := FirstNamedIs(nodes, s);
    if FirstNamed(nodes, s).Some? {
      assert nodes[i] in nodes;
      forall k: nat | NamedFirst(nodes, k, s) ensures k == i { OneIsFirst(nodes, i, k, s); }
    }
  }

  lemma OneIsFirst(nodes: seq<Node>, i: nat, k: nat, s: string)
    requires NamedFirst(nodes, i, s) && NamedFirst(nodes, k, s)
    ensures i == k
  {
  }

  lemma {:induction false} StatelessErrorIff(nodes: seq<Node>, entries: seq<string>)
    requires forall s :: s in entries ==> FirstNamed(nodes, s).Some?
    ensures StatelessError(nodes, entries).None? <==> forall s :: s in entries ==> KeepsState(nodes, s)
  {
    if entries != [] {
      var s0, rest := entries[0], entries[1..];
      assert s0 in entries && FirstNamed(nodes, s0).Some?;
      KeepsStateIff(nodes, s0);
      StatelessErrorIff(nodes, rest);
      assert StatelessError(nodes, entries).None? <==> KeepsState(nodes, s0) && StatelessError(nodes, rest).None?;
      if KeepsState(nodes, s0) && forall s :: s in rest ==> KeepsState(nodes, s) {
        forall s | s in entries ensures KeepsState(nodes, s) {
          assert s == s0 || s in rest;
        }
      }
      if forall s :: s in entries ==> KeepsState(nodes, s) {
        assert forall s :: s in rest ==> s in entries;
      }
    }
  }

  lemma EntryErrorIff(nodes: seq<Node>, entries: seq<string>)
    ensures EntryError(nodes, entries).None? <==> forall s :: s in entries ==> KeepsState(nodes, s)
  {
    if forall s :: s in entries ==> FirstNamed(nodes, s).Some? {
      StatelessErrorIff(nodes, entries);
    } else {
      var s :| s in entries && FirstNamed(nodes, s).None?;
      KeepsStateIff(nodes, s);
    }
  }

  /** A node that flows mention and none points to. */
  ghost predicate IsEntry(flows: seq<NamedFlow>, s: string) { Mentioned(flows, s) && !PointedTo(flows, s) }

  lemma EntriesKeepState(flows: seq<NamedFlow>, edges: seq<Edge>, nodes: seq<Node>)
    requires EdgesUnion([], flows, edges)
    ensures EntryError(nodes, Entries(EdgeNames(edges), edges)).None?
            <==> forall s :: IsEntry(flows, s) ==> KeepsState(nodes, s)
  {
    var entries := Entries(EdgeNames(edges), edges);
    forall s ensures s in entries <==> IsEntry(flows, s) {
      EdgeNamesHas(edges, s);
      UnionMentions(flows, edges, s);
      UnionTargets(flows, edges, s);
    }
    EntryErrorIff(nodes, entries);
  }

  /** The three checks after the parse, in a row. */
  lemma BuildOkIff(flows: seq<NamedFlow>, defaultFlow: string, nodes: seq<Node>)
    ensures Build(flows, defaultFlow, nodes).Ok? <==>
              && flows != [] && (defaultFlow != "" || |flows| == 1)
              && var r := ParseFlows(Streaming([], map[]), flows, nodes);
                 && r.Ok? && FirstLoose(nodes, r.value.edges).None?
                 && EntryError(nodes, Entries(EdgeNames(r.value.edges), r.value.edges)).None?
  {
  }

  /**
   * The flows of a pipeline are accepted exactly when there are some, one is the default or there is only
   * one, each one is accepted by itself, each node is mentioned by one of them, and the nodes none of them
   * points to are known by their own names and keep state.
   */
  lemma BuildIff(flows: seq<NamedFlow>, defaultFlow: string, nodes: seq<Node>)
    ensures Build(flows, defaultFlow, nodes).Ok? <==>
              && flows != [] && (defaultFlow != "" || |flows| == 1)
              && (forall f :: f in flows ==> FlowAccepted(f, nodes))
              && (forall n :: n in nodes ==> NodeMentioned(flows, n))
              && (forall s :: IsEntry(flows, s) ==> KeepsState(nodes, s))
  {
    var at := Streaming([], map[]);
    BuildOkIff(flows, defaultFlow, nodes);
    ParseFlowsIff(at, flows, nodes);
    if ParseFlows(at, flows, nodes).Ok? {
      ParseFlowsEdges(at, flows, nodes);
      var edges := ParseFlows(at, flows, nodes).value.edges;
      EveryNodeMentioned(flows, edges, nodes);
      EntriesKeepState(flows, edges, nodes);
    }
  }

  lemma EveryNodeMentioned(flows: seq<NamedFlow>, edges: seq<Edge>, nodes: seq<Node>)
    requires EdgesUnion([], flows, edges)
    ensures FirstLoose(nodes, edges).None? <==> forall n :: n in nodes ==> NodeMentioned(flows, n)
  {
    NoLooseNode(nodes, edges);
    forall n | n in nodes ensures InEdges(edges, NodeKey(n)) <==> NodeMentioned(flows, n) {
      UnionMentions(flows, edges, NodeKey(n));
    }
  }

  /** The checks after the loop change nothing. */
  lemma BuildIsParsed(flows: seq<NamedFlow>, defaultFlow: string, nodes: seq<Node>)
    requires Build(flows, defaultFlow, nodes).Ok?
    ensures ParseFlows(Streaming([], map[]), flows, nodes) == Build(flows, defaultFlow, nodes)
  {
  }

  /**
   * What is built: the union of the relations of all flows without repeats, none from a node to itself,
   * and each flow grouped under its name.
   */
  lemma BuildMeaning(flows: seq<NamedFlow>, defaultFlow: string, nodes: seq<Node>)
    requires DistinctFlowNames(flows) && Build(flows, defaultFlow, nodes).Ok?
    ensures var r := Build(flows, defaultFlow, nodes).value;
            && EdgesUnion([], flows, r.edges) && NoSelf(r.edges)
            && Recorded(flows, map[], r.parsedFlow)
  {
    BuildIsParsed(flows, defaultFlow, nodes);
    ParsedMeaning(flows, nodes);
  }

  lemma ParsedMeaning(flows: seq<NamedFlow>, nodes: seq<Node>)
    requires DistinctFlowNames(flows) && ParseFlows(Streaming([], map[]), flows, nodes).Ok?
    ensures var r := ParseFlows(Streaming([], map[]), flows, nodes).value;
            && EdgesUnion([], flows, r.edges) && NoSelf(r.edges)
            && Recorded(flows, map[], r.parsedFlow)
  {
    var at := Streaming([], map[]);
    ParseFlowsEdges(at, flows, nodes);
    ParseFlowsRecords(at, flows, nodes);
    RecordAllMeaning(map[], flows);
    ParseFlowsIff(at, flows, nodes);
    var edges := ParseFlows(at, flows, nodes).value.edges;
    forall e | e in edges ensures e.source != e.target {
      var f :| f in flows && e in EdgesOfFlow(f);
      assert FlowAccepted(f, nodes);
    }
  }
}
