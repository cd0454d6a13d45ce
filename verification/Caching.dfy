/** "Run node": the part of a stored pipeline from one node on. */
module Caching {
  import opened Wrappers
  import opened Sequences
  import opened Graphs

  datatype Node = Node(nodeName: string, waitsForAny: bool, cacheJobId: Option<string>)

  datatype Pipeline = Pipeline(jobId: string, rootJobId: string, isStream: bool, nodes: seq<Node>)

  datatype CachingError =
    | NoPipeline(jobId: string)
    | StreamPipeline
    | WaitAnyNode(name: string)
    | NoRelations(name: string)

  // ---------------------------------------------------------------- successors

  /** All successors at once, then those of each of them; a node comes once for each way to it. */
  ghost function Descendants(g: Graph, n: string): seq<string>
    requires ValidGraph(g) && Acyclic(g)
    decreases Rank(g, n) + 1, 0
  {
    EdgesFall(g, n);
    Successors(g, n) + DescendantsOfAll(g, Successors(g, n), Rank(g, n))
  }

  ghost function DescendantsOfAll(g: Graph, ss: seq<string>, rank: nat): seq<string>
    requires ValidGraph(g) && Acyclic(g) && forall s :: s in ss ==> Rank(g, s) < rank
    decreases rank, |ss|
  {
    if ss == [] then [] else Descendants(g, ss[0]) + DescendantsOfAll(g, ss[1..], rank)
  }

  lemma EdgesFall(g: Graph, n: string)
    requires ValidGraph(g) && Acyclic(g)
    ensures forall s :: s in Successors(g, n) ==> Rank(g, s) < Rank(g, n)
    ensures forall s :: s in Successors(g, n) ==> s in g.nodes
  {
    forall s | s in Successors(g, n) ensures Rank(g, s) < Rank(g, n) && s in g.nodes {
      SuccessorsHave(g.links, n, s);
      assert HasEdge(g, n, s);
      RankFalls(g, n, s);
    }
  }

  /** The descendants of a node are the other nodes it reaches. */
  lemma {:induction false} DescendantsAreReached(g: Graph, n: string, m: string)
    requires ValidGraph(g) && Acyclic(g)
    ensures m in Descendants(g, n) <==> m != n && Reaches(g, n, m)
    decreases Rank(g, n) + 1, 0
  {
    EdgesFall(g, n);
    var ss := Successors(g, n);
    DescendantsOfAllAreReached(g, ss, Rank(g, n), m);
    SuccessorsHave(g.links, n, m);
    assert m in ss <==> HasEdge(g, n, m);
    if m != n && Reaches(g, n, m) {
      ReachesFirst(g, n, m);
      var w :| HasEdge(g, n, w) && Reaches(g, w, m);
      SuccessorsHave(g.links, n, w);
      assert w in ss;
    }
    if m in Descendants(g, n) {
      var w :| HasEdge(g, n, w) && Reaches(g, w, m) by {
        if m in ss {
          ReachesSelf(g, m);
        } else {
          var s :| s in ss && m != s && Reaches(g, s, m);
          SuccessorsHave(g.links, n, s);
          assert HasEdge(g, n, s);
        }
      }
      ReachesEdge(g, n, w);
      ReachesJoin(g, n, w, m);
    }
  }

  lemma {:induction false} DescendantsOfAllAreReached(g: Graph, ss: seq<string>, rank: nat, m: string)
    requires ValidGraph(g) && Acyclic(g) && forall s :: s in ss ==> Rank(g, s) < rank
    ensures m in DescendantsOfAll(g, ss, rank) <==> exists s :: s in ss && m != s && Reaches(g, s, m)
    decreases rank, |ss|
  {
    if ss != [] {
      DescendantsAreReached(g, ss[0], m);
      DescendantsOfAllAreReached(g, ss[1..], rank, m);
      assert ss == [ss[0]] + ss[1..];
    }
  }

  /** The array the recursion pushes to. */
  class Collector {
    var res: seq<string>

    constructor ()
      ensures res == []
    {
      res := [];
    }

    /** Err when the graph does not know the node; otherwise whether there was anything to push. */
    method GetSuccessors(g: Graph, nodeName: string) returns (r: Result<bool, CachingError>)
      requires ValidGraph(g) && Acyclic(g)
      modifies this
      ensures nodeName !in g.nodes ==> r == Err(NoRelations(nodeName)) && res == old(res)
      ensures nodeName in g.nodes ==>
                r == Ok(Successors(g, nodeName) != []) && res == old(res) + Descendants(g, nodeName)
      decreases Rank(g, nodeName)
    {
      if nodeName !in g.nodes {
        return Err(NoRelations(nodeName));
      }
      var successors := Successors(g, nodeName);
      EdgesFall(g, nodeName);
      if |successors| == 0 {
        return Ok(false);
      }
      ghost var rank := Rank(g, nodeName);
      ghost var all := res + Descendants(g, nodeName);
      JoinAll(res, successors, DescendantsOfAll(g, successors, rank));
      res := res + successors;
      assert successors[0..] == successors;
      for i := 0 to |successors|
        invariant Ahead(g, res, successors, i, rank) == all
      {
        AheadStep(g, res, successors, i, rank);
        var below := GetSuccessors(g, successors[i]);
      }
      assert res + [] == res;
      r := Ok(true);
    }
  }

  /** What `res` will hold once the successors from `i` on are done. */
  ghost function Ahead(g: Graph, res: seq<string>, ss: seq<string>, i: nat, rank: nat): seq<string>
    requires ValidGraph(g) && Acyclic(g) && i <= |ss| && forall s :: s in ss ==> Rank(g, s) < rank
  {
    res + DescendantsOfAll(g, ss[i..], rank)
  }

  lemma AheadStep(g: Graph, res: seq<string>, ss: seq<string>, i: nat, rank: nat)
    requires ValidGraph(g) && Acyclic(g) && i < |ss| && forall s :: s in ss ==> Rank(g, s) < rank
    ensures Ahead(g, res, ss, i, rank) == Ahead(g, res + Descendants(g, ss[i]), ss, i + 1, rank)
  {
    assert ss[i..][0] == ss[i] && ss[i..][1..] == ss[i + 1..];
    JoinAll(res, Descendants(g, ss[i]), DescendantsOfAll(g, ss[i + 1..], rank));
  }

  lemma JoinAll(a: seq<string>, b: seq<string>, c: seq<string>)
    ensures a + (b + c) == a + b + c
  {
  }

  // ---------------------------------------------------------------- flattening

  /** The start, then every other node once, as a set that keeps the order of insertion. */
  method Flatten(nodes: Option<seq<string>>, nodeName: string) returns (flatten: seq<string>)
    ensures Distinct(flatten)
    ensures forall n :: n in flatten <==> n == nodeName || (nodes.Some? && n in nodes.value)
  {
    flatten := [nodeName];
    if nodes.Some? {
      for i := 0 to |nodes.value|
        invariant Distinct(flatten)
        invariant forall n :: n in flatten <==> n == nodeName || n in nodes.value[..i]
      {
        if nodes.value[i] !in flatten {
          flatten := flatten + [nodes.value[i]];
        }
        assert nodes.value[..i + 1] == nodes.value[..i] + [nodes.value[i]];
      }
      assert nodes.value[..|nodes.value|] == nodes.value;
    }
  }

  // ---------------------------------------------------------------- the sub-pipeline

  /** The start node takes its results from the stored job. */
  function Cached(p: Pipeline, start: string, n: Node): Node {
    if n.nodeName == start then n.(cacheJobId := Some(if p.rootJobId != "" then p.rootJobId else p.jobId)) else n
  }

  /** The nodes reached from the start, in the order of the pipeline. */
  ghost function Downstream(p: Pipeline, g: Graph, start: string, nodes: seq<Node>): seq<Node> {
    if nodes == [] then []
    else
      (if Reaches(g, start, nodes[0].nodeName) then [Cached(p, start, nodes[0])] else [])
      + Downstream(p, g, start, nodes[1..])
  }

  lemma {:induction false} DownstreamAppend(p: Pipeline, g: Graph, start: string, a: seq<Node>, n: Node)
    ensures Downstream(p, g, start, a + [n]) ==
            Downstream(p, g, start, a) + if Reaches(g, start, n.nodeName) then [Cached(p, start, n)] else []
  {
    if a == [] {
      assert [n][1..] == [];
    } else {
      DownstreamAppend(p, g, start, a[1..], n);
      assert (a + [n])[1..] == a[1..] + [n];
    }
  }

  method CreateSubPipeline(p: Pipeline, g: Graph, nodeName: string, successors: seq<string>) returns (r: Pipeline)
    requires forall n :: n in successors <==> Reaches(g, nodeName, n)
    ensures r == p.(nodes := Downstream(p, g, nodeName, p.nodes))
  {
    var nodes := [];
    for i := 0 to |p.nodes|
      invariant nodes == Downstream(p, g, nodeName, p.nodes[..i])
    {
      var n := p.nodes[i];
      if n.nodeName == nodeName {
        n := n.(cacheJobId := Some(if p.rootJobId != "" then p.rootJobId else p.jobId));
      }
      if n.nodeName in successors {
        nodes := nodes + [n];
      }
      DownstreamAppend(p, g, nodeName, p.nodes[..i], p.nodes[i]);
      assert p.nodes[..i + 1] == p.nodes[..i] + [p.nodes[i]];
    }
    assert p.nodes[..|p.nodes|] == p.nodes;
    r := p.(nodes := nodes);
  }

  ghost predicate HasNode(nodes: seq<Node>, name: string) {
    exists n :: n in nodes && n.nodeName == name
  }

  /** The start with the job its results are stored under, the root job if there is one; any other node as it is. */
  ghost predicate Prepared(p: Pipeline, start: string, n: Node, r: Node) {
    && r.nodeName == n.nodeName && r.waitsForAny == n.waitsForAny
    && (n.nodeName != start ==> r.cacheJobId == n.cacheJobId)
    && (n.nodeName == start && p.rootJobId != "" ==> r.cacheJobId == Some(p.rootJobId))
    && (n.nodeName == start && p.rootJobId == "" ==> r.cacheJobId == Some(p.jobId))
  }

  lemma CachedIsPrepared(p: Pipeline, start: string, n: Node)
    ensures Prepared(p, start, n, Cached(p, start, n))
  {
  }

  ghost predicate AllPrepared(p: Pipeline, start: string, nodes: seq<Node>, at: seq<nat>, r: seq<Node>) {
    && Increasing(at, |nodes|) && |r| == |at|
    && forall k :: 0 <= k < |at| ==> Prepared(p, start, nodes[at[k]], r[k])
  }

  lemma OneMorePrepared(p: Pipeline, start: string, n: Node, rest: seq<Node>, at: seq<nat>, r: seq<Node>)
    requires AllPrepared(p, start, rest, at, r)
    ensures AllPrepared(p, start, [n] + rest, Shifted(at), r)
    ensures AllPrepared(p, start, [n] + rest, [0] + Shifted(at), [Cached(p, start, n)] + r)
  {
    ShiftedIncreasing(at, |rest|);
    CachedIsPrepared(p, start, n);
    var all := [n] + rest;
    forall k | 0 <= k < |at| ensures Prepared(p, start, all[at[k] + 1], r[k]) {
      assert all[at[k] + 1] == rest[at[k]];
    }
  }

  /** The sub-pipeline, by position: the nodes the start reaches, in order, each prepared. */
  lemma {:induction false} DownstreamIs(p: Pipeline, g: Graph, start: string, nodes: seq<Node>) returns (at: seq<nat>)
    ensures AllPrepared(p, start, nodes, at, Downstream(p, g, start, nodes))
    ensures forall i: nat :: i < |nodes| ==> (i in at <==> Reaches(g, start, nodes[i].nodeName))
  {
    at := [];
    if nodes != [] {
      var n, rest := nodes[0], nodes[1..];
      var tail := DownstreamIs(p, g, start, rest);
      OneMorePrepared(p, start, n, rest, tail, Downstream(p, g, start, rest));
      assert [n] + rest == nodes;
      at := if Reaches(g, start, n.nodeName) then [0] + Shifted(tail) else Shifted(tail);
      forall i: nat | i < |nodes| ensures i in at <==> Reaches(g, start, nodes[i].nodeName) {
        ShiftedHas(tail, if i > 0 then i - 1 else 0);
        assert i > 0 ==> rest[i - 1] == nodes[i];
      }
    }
  }

  /** A node is kept exactly when the start reaches it. */
  lemma {:induction false} DownstreamHas(p: Pipeline, g: Graph, start: string, nodes: seq<Node>, name: string)
    ensures HasNode(Downstream(p, g, start, nodes), name) <==> HasNode(nodes, name) && Reaches(g, start, name)
  {
    if nodes != [] {
      var first, rest := nodes[0], Downstream(p, g, start, nodes[1..]);
      DownstreamHas(p, g, start, nodes[1..], name);
      assert nodes == [first] + nodes[1..];
      if first.nodeName == name && Reaches(g, start, name) {
        assert Cached(p, start, first) in Downstream(p, g, start, nodes);
      }
      if n :| n in rest && n.nodeName == name {
        assert n in Downstream(p, g, start, nodes);
      }
    }
  }

  /** With a kept node, every node of the pipeline that follows it is kept. */
  lemma DownstreamIsClosed(p: Pipeline, g: Graph, start: string, a: string, b: string)
    requires HasNode(Downstream(p, g, start, p.nodes), a) && HasEdge(g, a, b) && HasNode(p.nodes, b)
    ensures HasNode(Downstream(p, g, start, p.nodes), b)
  {
    DownstreamHas(p, g, start, p.nodes, a);
    ReachesEdge(g, a, b);
    ReachesJoin(g, start, a, b);
    DownstreamHas(p, g, start, p.nodes, b);
  }

  ghost predicate FirstWaits(nodes: seq<Node>, i: nat) {
    i < |nodes| && nodes[i].waitsForAny && forall k :: 0 <= k < i ==> !nodes[k].waitsForAny
  }

  function FirstWaitAny(nodes: seq<Node>): Option<Node> {
    if nodes == [] then None
    else if nodes[0].waitsForAny then Some(nodes[0])
    else FirstWaitAny(nodes[1..])
  }

  ghost predicate NoneWaits(nodes: seq<Node>) {
    forall i :: 0 <= i < |nodes| ==> !nodes[i].waitsForAny
  }

  lemma {:induction false} FirstWaitAnyAt(nodes: seq<Node>, i: nat)
    requires FirstWaits(nodes, i)
    ensures FirstWaitAny(nodes) == Some(nodes[i])
  {
    if i > 0 {
      assert !nodes[0].waitsForAny;
      FirstWaitAnyAt(nodes[1..], i - 1);
    }
  }

  lemma {:induction false} NoneWaitsIff(nodes: seq<Node>)
    ensures FirstWaitAny(nodes).None? <==> NoneWaits(nodes)
  {
    if nodes != [] {
      NoneWaitsIff(nodes[1..]);
      assert NoneWaits(nodes) <==> !nodes[0].waitsForAny && NoneWaits(nodes[1..]) by {
        assert forall i :: 0 < i < |nodes| ==> nodes[i] == nodes[1..][i - 1];
      }
    }
  }

  /** A stored pipeline from which a node can be run, if it knows the node. */
  ghost predicate CanRun(stored: Option<Pipeline>) {
    stored.Some? && !stored.value.isStream && NoneWaits(stored.value.nodes)
  }

  /** `stored` is the pipeline of the job, if there is one; `g` the graph of its nodes. */
  method Exec(stored: Option<Pipeline>, g: Graph, jobId: string, nodeName: string)
    returns (r: Result<Pipeline, CachingError>)
    requires ValidGraph(g) && Acyclic(g)
    ensures r.Ok? <==> CanRun(stored) && nodeName in g.nodes
    ensures r.Ok? ==>
              r.value == stored.value.(nodes := Downstream(stored.value, g, nodeName, stored.value.nodes))
    ensures stored.None? ==> r == Err(NoPipeline(jobId))
    ensures stored.Some? && stored.value.isStream ==> r == Err(StreamPipeline)
    ensures stored.Some? && !stored.value.isStream ==>
              forall i: nat :: FirstWaits(stored.value.nodes, i) ==>
                r == Err(WaitAnyNode(stored.value.nodes[i].nodeName))
    ensures CanRun(stored) && nodeName !in g.nodes ==> r == Err(NoRelations(nodeName))
  {
    if stored.None? {
      return Err(NoPipeline(jobId));
    }
    var p := stored.value;
    if p.isStream {
      return Err(StreamPipeline);
    }
    var waiting := FirstWaitAny(p.nodes);
    NoneWaitsIff(p.nodes);
    if waiting.Some? {
      forall i: nat | FirstWaits(p.nodes, i) ensures waiting == Some(p.nodes[i]) {
        FirstWaitAnyAt(p.nodes, i);
      }
      return Err(WaitAnyNode(waiting.value.nodeName));
    }
    var collector := new Collector();
    var found := collector.GetSuccessors(g, nodeName);
    if found.Err? {
      return Err(found.error);
    }
    assert Successors(g, nodeName) == [] ==> Descendants(g, nodeName) == [];
    var successors := Flatten(if found.value then Some(collector.res) else None, nodeName);
    forall n ensures n in successors <==> Reaches(g, nodeName, n) {
      DescendantsAreReached(g, nodeName, n);
      ReachesSelf(g, nodeName);
    }
    var sub := CreateSubPipeline(p, g, nodeName, successors);
    r := Ok(sub);
  }
}
