/**
 * The tree of pipelines that trigger each other: every pipeline is one shared object, and the traversal from
 * the sources hangs it under each of its predecessors, however often it is visited.
 */
module TriggersTree {
  import opened Wrappers
  import opened Sequences
  import opened Graphs

  /** A stored pipeline and the pipelines that trigger it. */
  datatype Pipeline = Pipeline(name: string, triggers: seq<string>)

  datatype TreeError = NoPipelines | CyclicTriggers | UnknownPipeline(name: string)

  function SetTriggers(g: Graph, triggers: seq<string>, name: string): Graph
    decreases |triggers|
  {
    if triggers == [] then g else SetTriggers(SetEdge(g, triggers[0], name), triggers[1..], name)
  }

  function SetPipelines(g: Graph, pipelines: seq<Pipeline>): Graph
    decreases |pipelines|
  {
    if pipelines == [] then g
    else SetPipelines(SetTriggers(g, pipelines[0].triggers, pipelines[0].name), pipelines[1..])
  }

  const NOTHING := Graph([], [])

  /** `u` triggers `v` in one of the pipelines. */
  ghost predicate Triggers(pipelines: seq<Pipeline>, u: string, v: string) {
    exists p :: p in pipelines && p.name == v && u in p.triggers
  }

  lemma {:induction false} SetTriggersMeaning(g: Graph, triggers: seq<string>, name: string, u: string, v: string)
    requires ValidGraph(g)
    ensures ValidGraph(SetTriggers(g, triggers, name))
    ensures HasEdge(SetTriggers(g, triggers, name), u, v) <==> HasEdge(g, u, v) || (v == name && u in triggers)
    decreases |triggers|
  {
    if triggers != [] {
      SetEdgeValid(g, triggers[0], name);
      SetTriggersMeaning(SetEdge(g, triggers[0], name), triggers[1..], name, u, v);
      assert triggers == [triggers[0]] + triggers[1..];
    }
  }

  /** The edges of the graph are the triggers. */
  lemma {:induction false} SetPipelinesMeaning(g: Graph, pipelines: seq<Pipeline>, u: string, v: string)
    requires ValidGraph(g)
    ensures ValidGraph(SetPipelines(g, pipelines))
    ensures HasEdge(SetPipelines(g, pipelines), u, v) <==> HasEdge(g, u, v) || Triggers(pipelines, u, v)
    decreases |pipelines|
  {
    if pipelines != [] {
      var p := pipelines[0];
      SetTriggersMeaning(g, p.triggers, p.name, u, v);
      SetPipelinesMeaning(SetTriggers(g, p.triggers, p.name), pipelines[1..], u, v);
      assert pipelines == [p] + pipelines[1..];
      assert p in pipelines;
    }
  }

  // ---------------------------------------------------------------- the traversal, by names

  /** The children of each node, by name. */
  type Kids = map<string, seq<string>>

  function HangUnder(kids: Kids, p: string, n: string): Kids {
    if p !in kids then kids else kids[p := AddOnce(kids[p], n)]
  }

  function HangUnderAll(kids: Kids, ps: seq<string>, n: string): Kids
    decreases |ps|
  {
    if ps == [] then kids else HangUnderAll(HangUnder(kids, ps[0], n), ps[1..], n)
  }

  ghost predicate Lower(g: Graph, ss: seq<string>, rank: nat) {
    forall s :: s in ss ==> Rank(g, s) < rank
  }

  lemma SuccessorsAreLower(g: Graph, n: string)
    requires ValidGraph(g) && Acyclic(g)
    ensures Lower(g, Successors(g, n), Rank(g, n))
  {
    forall s | s in Successors(g, n) ensures Rank(g, s) < Rank(g, n) {
      SuccessorsHave(g.links, n, s);
      assert HasEdge(g, n, s);
      RankFalls(g, n, s);
    }
  }

  /** Hang a node under its predecessors, then traverse its successors. */
  ghost function Traversed(g: Graph, kids: Kids, n: string): Kids
    requires ValidGraph(g) && Acyclic(g)
    decreases Rank(g, n) + 1, 0
  {
    SuccessorsAreLower(g, n);
    TraversedEach(g, HangUnderAll(kids, Predecessors(g, n), n), Successors(g, n), Rank(g, n))
  }

  ghost function TraversedEach(g: Graph, kids: Kids, ss: seq<string>, rank: nat): Kids
    requires ValidGraph(g) && Acyclic(g) && Lower(g, ss, rank)
    decreases rank, |ss|
  {
    if ss == [] then kids else TraversedEach(g, Traversed(g, kids, ss[0]), ss[1..], rank)
  }

  // ---------------------------------------------------------------- what a traversal leaves

  /** Children are successors, each at most once. */
  ghost predicate Sound(g: Graph, kids: Kids) {
    forall n :: n in kids ==> Distinct(kids[n]) && forall c :: c in kids[n] ==> HasEdge(g, n, c)
  }

  /** `n` hangs under all its predecessors. */
  ghost predicate Hung(g: Graph, kids: Kids, n: string) {
    forall p :: p in kids && HasEdge(g, p, n) ==> n in kids[p]
  }

  ghost predicate Grown(a: Kids, b: Kids) {
    a.Keys == b.Keys && forall n :: n in a ==> a[n] <= b[n]
  }

  lemma HungStays(g: Graph, a: Kids, b: Kids, n: string)
    requires Hung(g, a, n) && Grown(a, b)
    ensures Hung(g, b, n)
  {
    forall p | p in b && HasEdge(g, p, n) ensures n in b[p] {
      assert n in a[p] && a[p] <= b[p];
      var i :| 0 <= i < |a[p]| && a[p][i] == n;
      assert b[p][i] == n;
    }
  }

  lemma GrownJoin(a: Kids, b: Kids, c: Kids)
    requires Grown(a, b) && Grown(b, c)
    ensures Grown(a, c)
  {
    forall n | n in a ensures a[n] <= c[n] {
      assert a[n] <= b[n] && b[n] <= c[n];
    }
  }

  lemma HangUnderMeaning(g: Graph, kids: Kids, p: string, n: string)
    requires Sound(g, kids) && HasEdge(g, p, n)
    ensures Sound(g, HangUnder(kids, p, n)) && Grown(kids, HangUnder(kids, p, n))
    ensures p in kids ==> n in HangUnder(kids, p, n)[p]
  {
    if p in kids {
      AddOnceKeeps(kids[p], n);
    }
  }

  lemma {:induction false} HangUnderAllMeaning(g: Graph, kids: Kids, ps: seq<string>, n: string)
    requires Sound(g, kids) && forall p :: p in ps ==> HasEdge(g, p, n)
    ensures Sound(g, HangUnderAll(kids, ps, n)) && Grown(kids, HangUnderAll(kids, ps, n))
    ensures forall p :: p in ps && p in kids ==> n in HangUnderAll(kids, ps, n)[p]
    decreases |ps|
  {
    if ps != [] {
      var next := HangUnder(kids, ps[0], n);
      HangUnderMeaning(g, kids, ps[0], n);
      HangUnderAllMeaning(g, next, ps[1..], n);
      GrownJoin(kids, next, HangUnderAll(kids, ps, n));
      assert ps == [ps[0]] + ps[1..];
      if ps[0] in kids {
        var i :| 0 <= i < |next[ps[0]]| && next[ps[0]][i] == n;
        assert HangUnderAll(kids, ps, n)[ps[0]][i] == n;
      }
    }
  }

  /** A traversal keeps children sound and leaves every node below `n` under all its predecessors. */
  lemma {:induction false} TraversedMeaning(g: Graph, kids: Kids, n: string)
    requires ValidGraph(g) && Acyclic(g) && Sound(g, kids)
    ensures Sound(g, Traversed(g, kids, n)) && Grown(kids, Traversed(g, kids, n))
    ensures forall m :: Reaches(g, n, m) ==> Hung(g, Traversed(g, kids, n), m)
    decreases Rank(g, n) + 1, 0
  {
    var ps, ss := Predecessors(g, n), Successors(g, n);
    SuccessorsAreLower(g, n);
    forall p ensures p in ps <==> HasEdge(g, p, n) {
      SuccessorsHave(g.links, p, n);
    }
    HangUnderAllMeaning(g, kids, ps, n);
    var hung := HangUnderAll(kids, ps, n);
    TraversedEachMeaning(g, hung, ss, Rank(g, n));
    GrownJoin(kids, hung, Traversed(g, kids, n));
    forall m | Reaches(g, n, m) ensures Hung(g, Traversed(g, kids, n), m) {
      if m == n {
        HungStays(g, hung, Traversed(g, kids, n), n);
      } else {
        ReachesFirst(g, n, m);
        var w :| HasEdge(g, n, w) && Reaches(g, w, m);
        SuccessorsHave(g.links, n, w);
      }
    }
  }

  lemma {:induction false} TraversedEachMeaning(g: Graph, kids: Kids, ss: seq<string>, rank: nat)
    requires ValidGraph(g) && Acyclic(g) && Sound(g, kids) && Lower(g, ss, rank)
    ensures Sound(g, TraversedEach(g, kids, ss, rank)) && Grown(kids, TraversedEach(g, kids, ss, rank))
    ensures forall s, m :: s in ss && Reaches(g, s, m) ==> Hung(g, TraversedEach(g, kids, ss, rank), m)
    decreases rank, |ss|
  {
    if ss != [] {
      var next, end := Traversed(g, kids, ss[0]), TraversedEach(g, kids, ss, rank);
      TraversedMeaning(g, kids, ss[0]);
      TraversedEachMeaning(g, next, ss[1..], rank);
      GrownJoin(kids, next, end);
      forall s, m | s in ss && Reaches(g, s, m) ensures Hung(g, end, m) {
        if s == ss[0] {
          HungStays(g, next, end, m);
        } else {
          assert s in ss[1..];
        }
      }
    }
  }

  /** Every node without children. */
  function Bare(g: Graph): Kids { map n | n in g.nodes :: [] }

  ghost function AllTraversed(g: Graph): Kids
    requires ValidGraph(g) && Acyclic(g)
  {
    SourcesAreLower(g);
    TraversedEach(g, Bare(g), Sources(g), |g.nodes| + 1)
  }

  lemma {:induction false} NodeSetSize(nodes: seq<string>)
    ensures |(set n | n in nodes)| <= |nodes|
  {
    if nodes != [] {
      NodeSetSize(nodes[1..]);
      assert (set n | n in nodes) == {nodes[0]} + set n | n in nodes[1..];
    }
  }

  lemma SourcesAreLower(g: Graph)
    ensures Lower(g, Sources(g), |g.nodes| + 1)
  {
    NodeSetSize(g.nodes);
    forall s | s in Sources(g) ensures Rank(g, s) < |g.nodes| + 1 {
      SubsetSize(Below(g, s), set n | n in g.nodes);
    }
  }

  /** After all sources, the children of every node are its successors, each once, in whatever order. */
  lemma ChildrenAreSuccessors(g: Graph, n: string)
    requires ValidGraph(g) && Acyclic(g) && n in g.nodes
    ensures n in AllTraversed(g) && Distinct(AllTraversed(g)[n])
    ensures forall m :: m in AllTraversed(g)[n] <==> HasEdge(g, n, m)
  {
    SourcesAreLower(g);
    TraversedEachMeaning(g, Bare(g), Sources(g), |g.nodes| + 1);
    var kids := AllTraversed(g);
    forall m | HasEdge(g, n, m) ensures m in kids[n] {
      HasSource(g, m);
      var s :| s in Sources(g) && Reaches(g, s, m);
      assert Hung(g, kids, m);
    }
  }

  // ---------------------------------------------------------------- shared nodes

  class TreeNode {
    const name: string
    var children: seq<TreeNode>

    constructor (name: string)
      ensures this.name == name && children == []
    {
      this.name, children := name, [];
    }
  }

  /** The one object of each node. */
  type Labels = map<string, TreeNode>

  ghost predicate Labelled(g: Graph, labels: Labels) {
    labels.Keys == NodeSet(g) && forall n :: n in labels ==> labels[n].name == n
  }

  /** Children are the objects of their names, not copies. */
  ghost predicate Shared(labels: Labels)
    reads labels.Values
  {
    forall n, c :: n in labels && c in labels[n].children ==> c.name in labels && labels[c.name] == c
  }

  ghost function ChildNames(t: TreeNode): (r: seq<string>)
    reads t
  {
    seq(|t.children|, i requires 0 <= i < |t.children| reads t => t.children[i].name)
  }

  ghost function KidsOf(labels: Labels): Kids
    reads labels.Values
  {
    map n | n in labels :: ChildNames(labels[n])
  }

  /** `parent.children.push(node)` unless `parent.children.find(n => n.name === node.name)`. */
  method Hang(g: Graph, labels: Labels, p: string, n: string)
    requires Labelled(g, labels) && Shared(labels) && p in labels && n in labels
    modifies labels[p]
    ensures Shared(labels) && KidsOf(labels) == HangUnder(old(KidsOf(labels)), p, n)
  {
    var parent, node := labels[p], labels[n];
    ghost var was, names := KidsOf(labels), ChildNames(parent);
    var hasChild := false;
    for i := 0 to |parent.children|
      invariant hasChild <==> n in names[..i]
    {
      assert names[..i + 1] == names[..i] + [names[i]];
      if parent.children[i].name == n {
        hasChild := true;
      }
    }
    assert names[..|parent.children|] == names;
    if !hasChild {
      parent.children := parent.children + [node];
      assert ChildNames(parent) == names + [n];
    }
    forall m | m in labels && m != p ensures ChildNames(labels[m]) == was[m] {
      assert labels[m].name == m && labels[p].name == p;
    }
  }

  method HangAll(g: Graph, labels: Labels, predecessors: seq<string>, n: string)
    requires Labelled(g, labels) && Shared(labels) && n in labels
    requires forall p :: p in predecessors ==> p in labels
    modifies labels.Values
    ensures Shared(labels) && KidsOf(labels) == HangUnderAll(old(KidsOf(labels)), predecessors, n)
  {
    ghost var was := KidsOf(labels);
    assert predecessors[0..] == predecessors;
    for i := 0 to |predecessors|
      invariant Shared(labels)
      invariant HangUnderAll(KidsOf(labels), predecessors[i..], n) == HangUnderAll(was, predecessors, n)
    {
      assert predecessors[i..][0] == predecessors[i] && predecessors[i..][1..] == predecessors[i + 1..];
      Hang(g, labels, predecessors[i], n);
    }
  }

  method Traverse(g: Graph, labels: Labels, n: string)
    requires ValidGraph(g) && Acyclic(g) && Labelled(g, labels) && Shared(labels) && n in labels
    modifies labels.Values
    ensures Shared(labels) && KidsOf(labels) == Traversed(g, old(KidsOf(labels)), n)
    decreases Rank(g, n) + 1, 0
  {
    var predecessors, successors := Predecessors(g, n), Successors(g, n);
    NeighboursAreNodes(g, n);
    SuccessorsAreLower(g, n);
    HangAll(g, labels, predecessors, n);
    TraverseEach(g, labels, successors, Rank(g, n));
  }

  lemma NeighboursAreNodes(g: Graph, n: string)
    requires ValidGraph(g)
    ensures forall p :: p in Predecessors(g, n) ==> p in NodeSet(g)
    ensures forall s :: s in Successors(g, n) ==> s in NodeSet(g)
  {
    forall p | p in Predecessors(g, n) ensures p in g.nodes {
      SuccessorsHave(g.links, p, n);
      assert HasEdge(g, p, n);
    }
    forall s | s in Successors(g, n) ensures s in g.nodes {
      SuccessorsHave(g.links, n, s);
      assert HasEdge(g, n, s);
    }
  }

  method TraverseEach(g: Graph, labels: Labels, nodes: seq<string>, ghost rank: nat)
    requires ValidGraph(g) && Acyclic(g) && Labelled(g, labels) && Shared(labels)
    requires Lower(g, nodes, rank) && forall s :: s in nodes ==> s in labels
    modifies labels.Values
    ensures Shared(labels) && KidsOf(labels) == TraversedEach(g, old(KidsOf(labels)), nodes, rank)
    decreases rank, 1
  {
    ghost var was := KidsOf(labels);
    assert nodes[0..] == nodes;
    for i := 0 to |nodes|
      invariant Shared(labels) && Lower(g, nodes[i..], rank)
      invariant TraversedEach(g, KidsOf(labels), nodes[i..], rank) == TraversedEach(g, was, nodes, rank)
    {
      assert nodes[i..][0] == nodes[i] && nodes[i..][1..] == nodes[i + 1..];
      Traverse(g, labels, nodes[i]);
    }
  }

  // ---------------------------------------------------------------- the tree

  /** The children of each object are the objects of its successors, each once. */
  ghost predicate IsTree(g: Graph, labels: Labels)
    reads labels.Values
  {
    && Labelled(g, labels) && Shared(labels)
    && forall n :: n in labels ==>
         && Distinct(ChildNames(labels[n]))
         && forall m :: m in ChildNames(labels[n]) <==> HasEdge(g, n, m)
  }

  /** The children are listed in the order in which the traversal of all sources comes to them. */
  ghost predicate InTraversalOrder(g: Graph, labels: Labels)
    reads labels.Values
  {
    ValidGraph(g) && Acyclic(g) && KidsOf(labels) == AllTraversed(g)
  }

  lemma TraversedIsTree(g: Graph, labels: Labels)
    requires Labelled(g, labels) && Shared(labels) && InTraversalOrder(g, labels)
    ensures IsTree(g, labels)
  {
    forall n | n in labels
      ensures Distinct(ChildNames(labels[n])) && forall m :: m in ChildNames(labels[n]) <==> HasEdge(g, n, m)
    {
      ChildrenAreSuccessors(g, n);
      assert KidsOf(labels)[n] == ChildNames(labels[n]);
    }
  }

  method SetNodes(g: Graph) returns (labels: Labels)
    ensures Labelled(g, labels) && Shared(labels) && KidsOf(labels) == Bare(g)
    ensures forall n :: n in labels ==> fresh(labels[n])
  {
    labels := map[];
    for i := 0 to |g.nodes|
      invariant labels.Keys == set n | n in g.nodes[..i]
      invariant forall n :: n in labels ==> fresh(labels[n]) && labels[n].name == n && labels[n].children == []
    {
      var node := new TreeNode(g.nodes[i]);
      labels := labels[g.nodes[i] := node];
      assert g.nodes[..i + 1] == g.nodes[..i] + [g.nodes[i]];
    }
    assert g.nodes[..|g.nodes|] == g.nodes;
  }

  function TriggerGraph(pipelines: seq<Pipeline>): Graph { SetPipelines(NOTHING, pipelines) }

  /** The edges of the trigger graph, and that its nodes are their ends. */
  lemma TriggerGraphMeaning(pipelines: seq<Pipeline>)
    ensures ValidGraph(TriggerGraph(pipelines))
    ensures forall u, v :: HasEdge(TriggerGraph(pipelines), u, v) <==> Triggers(pipelines, u, v)
    ensures forall l :: l in TriggerGraph(pipelines).links ==> l.to in TriggerGraph(pipelines).nodes
  {
    SetPipelinesMeaning(NOTHING, pipelines, "", "");
    var g := TriggerGraph(pipelines);
    forall u, v ensures HasEdge(g, u, v) <==> Triggers(pipelines, u, v) {
      SetPipelinesMeaning(NOTHING, pipelines, u, v);
    }
    forall l | l in g.links ensures l.to in g.nodes {
      assert HasEdge(g, l.from, l.to);
    }
  }

  /** `name` is empty when the whole tree is asked for. */
  method GetPipelinesTriggersTree(pipelines: seq<Pipeline>, name: string)
    returns (r: Result<seq<TreeNode>, TreeError>, ghost labels: Labels)
    ensures r == Err(NoPipelines) <==> pipelines == []
    ensures r == Err(CyclicTriggers) <==> pipelines != [] && !Acyclic(TriggerGraph(pipelines))
    ensures r == Err(UnknownPipeline(name)) <==>
              && pipelines != [] && Acyclic(TriggerGraph(pipelines))
              && name != "" && name !in TriggerGraph(pipelines).nodes
    ensures r.Err? ==> r.error in {NoPipelines, CyclicTriggers, UnknownPipeline(name)}
    ensures r.Ok? ==> IsTree(TriggerGraph(pipelines), labels)
    ensures r.Ok? ==> InTraversalOrder(TriggerGraph(pipelines), labels)
    ensures r.Ok? && name != "" ==> name in labels && r.value == [labels[name]]
    ensures r.Ok? && name == "" ==>
              var sources := Sources(TriggerGraph(pipelines));
              && |r.value| == |sources|
              && forall i :: 0 <= i < |sources| ==> sources[i] in labels && r.value[i] == labels[sources[i]]
  {
    labels := map[];
    if |pipelines| == 0 {
      return Err(NoPipelines), labels;
    }
    var graph := TriggerGraph(pipelines);
    TriggerGraphMeaning(pipelines);
    AcyclicIsDecided(graph);
    if !IsAcyclic(graph) {
      return Err(CyclicTriggers), labels;
    }
    var objects := SetNodes(graph);
    labels := objects;
    SourcesAreLower(graph);
    forall s | s in Sources(graph) ensures s in labels {
      SourcesHave(graph, graph.nodes, s);
    }
    TraverseEach(graph, objects, Sources(graph), |graph.nodes| + 1);
    TraversedIsTree(graph, labels);
    if name != "" {
      if name !in graph.nodes {
        return Err(UnknownPipeline(name)), labels;
      }
      return Ok([objects[name]]), labels;
    }
    var sources := Sources(graph);
    var roots := seq(|sources|, i requires 0 <= i < |sources| && sources[i] in objects => objects[sources[i]]);
    r := Ok(roots);
  }
}
