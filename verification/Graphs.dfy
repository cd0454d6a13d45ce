/** Directed graphs as the graph library keeps them: nodes and edges in the order they were first set. */
module Graphs {
  import opened Sequences

  datatype Link = Link(from: string, to: string)

  datatype Graph = Graph(nodes: seq<string>, links: seq<Link>)

  predicate HasEdge(g: Graph, u: string, v: string) { Link(u, v) in g.links }

  function AddOnce<T(==)>(s: seq<T>, x: T): seq<T> { if x in s then s else s + [x] }

  /** `setEdge`: the ends become nodes; an edge is kept once. */
  function SetEdge(g: Graph, u: string, v: string): Graph {
    Graph(AddOnce(AddOnce(g.nodes, u), v), AddOnce(g.links, Link(u, v)))
  }

  ghost predicate ValidGraph(g: Graph) {
    && Distinct(g.nodes) && Distinct(g.links)
    && forall u, v :: HasEdge(g, u, v) ==> u in g.nodes && v in g.nodes
  }

  lemma SetEdgeValid(g: Graph, u: string, v: string)
    requires ValidGraph(g)
    ensures ValidGraph(SetEdge(g, u, v))
  {
    AddOnceKeeps(g.nodes, u);
    AddOnceKeeps(AddOnce(g.nodes, u), v);
    AddOnceKeeps(g.links, Link(u, v));
    forall a, b | HasEdge(SetEdge(g, u, v), a, b)
      ensures a in SetEdge(g, u, v).nodes && b in SetEdge(g, u, v).nodes
    {
      assert HasEdge(g, a, b) || (a == u && b == v);
    }
  }

  lemma AddOnceKeeps<T>(s: seq<T>, x: T)
    requires Distinct(s)
    ensures Distinct(AddOnce(s, x)) && x in AddOnce(s, x) && forall y :: y in s ==> y in AddOnce(s, x)
  {
  }

  /** The ends of the edges that leave `u`, in order. */
  function SuccessorsIn(links: seq<Link>, u: string): seq<string> {
    if links == [] then []
    else (if links[0].from == u then [links[0].to] else []) + SuccessorsIn(links[1..], u)
  }

  function PredecessorsIn(links: seq<Link>, v: string): seq<string> {
    if links == [] then []
    else (if links[0].to == v then [links[0].from] else []) + PredecessorsIn(links[1..], v)
  }

  function Successors(g: Graph, u: string): seq<string> { SuccessorsIn(g.links, u) }

  function Predecessors(g: Graph, v: string): seq<string> { PredecessorsIn(g.links, v) }

  lemma {:induction false} SuccessorsHave(links: seq<Link>, u: string, v: string)
    ensures v in SuccessorsIn(links, u) <==> Link(u, v) in links
    ensures u in PredecessorsIn(links, v) <==> Link(u, v) in links
  {
    if links != [] {
      SuccessorsHave(links[1..], u, v);
      assert links == [links[0]] + links[1..];
    }
  }

  lemma {:induction false} SuccessorsDiffer(links: seq<Link>, u: string)
    requires Distinct(links)
    ensures Distinct(SuccessorsIn(links, u))
  {
    if links != [] {
      SuccessorsDiffer(links[1..], u);
      SuccessorsHave(links[1..], u, links[0].to);
      assert forall i :: 0 <= i < |links[1..]| ==> links[1..][i] == links[i + 1] != links[0];
      assert links[0] == Link(links[0].from, links[0].to);
    }
  }

  /** The nodes no edge leads to, in order. */
  function SourcesIn(g: Graph, nodes: seq<string>): seq<string> {
    if nodes == [] then []
    else (if Predecessors(g, nodes[0]) == [] then [nodes[0]] else []) + SourcesIn(g, nodes[1..])
  }

  function Sources(g: Graph): seq<string> { SourcesIn(g, g.nodes) }

  lemma {:induction false} SourcesHave(g: Graph, nodes: seq<string>, n: string)
    ensures n in SourcesIn(g, nodes) <==> n in nodes && Predecessors(g, n) == []
  {
    if nodes != [] {
      SourcesHave(g, nodes[1..], n);
      assert nodes == [nodes[0]] + nodes[1..];
    }
  }

  // ---------------------------------------------------------------- paths

  ghost predicate IsPath(g: Graph, p: seq<string>) {
    p != [] && forall i :: 0 < i < |p| ==> HasEdge(g, p[i - 1], p[i])
  }

  ghost predicate PathBetween(g: Graph, p: seq<string>, u: string, v: string) {
    IsPath(g, p) && p[0] == u && p[|p| - 1] == v
  }

  /** There is a path, possibly of no edge, from `u` to `v`. */
  ghost predicate Reaches(g: Graph, u: string, v: string) {
    exists p :: PathBetween(g, p, u, v)
  }

  /** No edge can be walked back. */
  ghost predicate Acyclic(g: Graph) {
    forall u, v :: HasEdge(g, u, v) ==> !Reaches(g, v, u)
  }

  lemma ReachesSelf(g: Graph, u: string)
    ensures Reaches(g, u, u)
  {
    assert PathBetween(g, [u], u, u);
  }

  lemma ReachesJoin(g: Graph, u: string, v: string, w: string)
    requires Reaches(g, u, v) && Reaches(g, v, w)
    ensures Reaches(g, u, w)
  {
    var p :| PathBetween(g, p, u, v);
    var q :| PathBetween(g, q, v, w);
    var r := p + q[1..];
    forall i | 0 < i < |r| ensures HasEdge(g, r[i - 1], r[i]) {
      if i >= |p| {
        assert r[i] == q[i - |p| + 1] && r[i - 1] == q[i - |p|];
      }
    }
    assert PathBetween(g, r, u, w);
  }

  lemma ReachesEdge(g: Graph, u: string, v: string)
    requires HasEdge(g, u, v)
    ensures Reaches(g, u, v)
  {
    assert PathBetween(g, [u, v], u, v);
  }

  /** A path that leaves `u` goes on from one of its successors. */
  lemma ReachesFirst(g: Graph, u: string, v: string)
    requires Reaches(g, u, v) && u != v
    ensures exists w :: HasEdge(g, u, w) && Reaches(g, w, v)
  {
    var p :| PathBetween(g, p, u, v);
    assert PathBetween(g, p[1..], p[1], v);
    assert HasEdge(g, p[1 - 1], p[1]);
  }

  // ---------------------------------------------------------------- ranks

  ghost function Below(g: Graph, u: string): set<string> {
    set v | v in g.nodes && Reaches(g, u, v)
  }

  ghost function Above(g: Graph, v: string): set<string> {
    set u | u in g.nodes && Reaches(g, u, v)
  }

  /** How much lies below a node; it falls along every edge of an acyclic graph. */
  ghost function Rank(g: Graph, u: string): nat { |Below(g, u)| }

  lemma SmallerSet(a: set<string>, b: set<string>, x: string)
    requires a <= b && x in b && x !in a
    ensures |a| < |b|
  {
    assert a <= b - {x};
    SubsetSize(a, b - {x});
  }

  lemma {:induction false} SubsetSize(a: set<string>, b: set<string>)
    requires a <= b
    ensures |a| <= |b|
  {
    if a != {} {
      var x :| x in a;
      SubsetSize(a - {x}, b - {x});
    }
  }

  lemma RankFalls(g: Graph, u: string, v: string)
    requires ValidGraph(g) && Acyclic(g) && HasEdge(g, u, v)
    ensures Rank(g, v) < Rank(g, u)
  {
    forall w | w in Below(g, v) ensures w in Below(g, u) {
      ReachesEdge(g, u, v);
      ReachesJoin(g, u, v, w);
    }
    ReachesSelf(g, u);
    SmallerSet(Below(g, v), Below(g, u), u);
  }

  /** In an acyclic graph every node is reached from a node without predecessors. */
  lemma {:induction false} HasSource(g: Graph, n: string)
    requires ValidGraph(g) && Acyclic(g) && n in g.nodes
    ensures exists s :: s in Sources(g) && Reaches(g, s, n)
    decreases |Above(g, n)|
  {
    if Predecessors(g, n) == [] {
      SourcesHave(g, g.nodes, n);
      ReachesSelf(g, n);
    } else {
      var p := Predecessors(g, n)[0];
      SuccessorsHave(g.links, p, n);
      assert HasEdge(g, p, n);
      ReachesEdge(g, p, n);
      forall w | w in Above(g, p) ensures w in Above(g, n) {
        ReachesJoin(g, w, p, n);
      }
      ReachesSelf(g, n);
      SmallerSet(Above(g, p), Above(g, n), n);
      HasSource(g, p);
      var s :| s in Sources(g) && Reaches(g, s, p);
      ReachesJoin(g, s, p, n);
    }
  }

  // ---------------------------------------------------------------- deciding

  function NodeSet(g: Graph): set<string> { set n | n in g.nodes }

  function SuccessorsOfAll(g: Graph, s: set<string>): set<string> {
    set l | l in g.links && l.from in s :: l.to
  }

  /** Everything reached from `s`, by adding successors until nothing is new. */
  function Closure(g: Graph, s: set<string>): (r: set<string>)
    requires s <= NodeSet(g) && forall l :: l in g.links ==> l.to in g.nodes
    decreases |NodeSet(g) - s|
  {
    var more := s + SuccessorsOfAll(g, s);
    if more == s then s
    else
      SmallerRest(NodeSet(g), s, more);
      Closure(g, more)
  }

  lemma SmallerRest(all: set<string>, s: set<string>, more: set<string>)
    requires s <= more <= all && s != more
    ensures |all - more| < |all - s|
  {
    var x :| x in more && x !in s;
    SmallerSet(all - more, all - s, x);
  }

  /** Whether some node lies below one of its successors. */
  function IsAcyclic(g: Graph): bool
    requires forall l :: l in g.links ==> l.to in g.nodes
  {
    forall l :: l in g.links ==> l.from !in Closure(g, {l.to})
  }

  lemma {:induction false} ClosureReaches(g: Graph, s: set<string>, v: string)
    requires s <= NodeSet(g) && forall l :: l in g.links ==> l.to in g.nodes
    requires v in Closure(g, s)
    ensures exists u :: u in s && Reaches(g, u, v)
    decreases |NodeSet(g) - s|
  {
    var more := s + SuccessorsOfAll(g, s);
    if more == s {
      ReachesSelf(g, v);
    } else {
      SmallerRest(NodeSet(g), s, more);
      ClosureReaches(g, more, v);
      var w :| w in more && Reaches(g, w, v);
      if w !in s {
        var l :| l in g.links && l.from in s && l.to == w;
        assert HasEdge(g, l.from, w);
        ReachesEdge(g, l.from, w);
        ReachesJoin(g, l.from, w, v);
      }
    }
  }

  lemma {:induction false} ClosureIsClosed(g: Graph, s: set<string>)
    requires s <= NodeSet(g) && forall l :: l in g.links ==> l.to in g.nodes
    ensures s <= Closure(g, s) && forall l :: l in g.links && l.from in Closure(g, s) ==> l.to in Closure(g, s)
    decreases |NodeSet(g) - s|
  {
    var more := s + SuccessorsOfAll(g, s);
    if more == s {
      forall l | l in g.links && l.from in s ensures l.to in s {
        assert l.to in SuccessorsOfAll(g, s);
      }
    } else {
      SmallerRest(NodeSet(g), s, more);
      ClosureIsClosed(g, more);
    }
  }

  lemma {:induction false} ClosedUnderPaths(g: Graph, s: set<string>, p: seq<string>)
    requires IsPath(g, p) && p[0] in s && forall l :: l in g.links && l.from in s ==> l.to in s
    ensures p[|p| - 1] in s
    decreases |p|
  {
    if |p| > 1 {
      assert HasEdge(g, p[1 - 1], p[1]);
      ClosedUnderPaths(g, s, p[1..]);
    }
  }

  /** The decision agrees with the definition by paths. */
  lemma AcyclicIsDecided(g: Graph)
    requires ValidGraph(g) && forall l :: l in g.links ==> l.to in g.nodes
    ensures IsAcyclic(g) <==> Acyclic(g)
  {
    forall l | l in g.links ensures l.from in Closure(g, {l.to}) <==> Reaches(g, l.to, l.from) {
      if l.from in Closure(g, {l.to}) {
        ClosureReaches(g, {l.to}, l.from);
      }
      if Reaches(g, l.to, l.from) {
        var p :| PathBetween(g, p, l.to, l.from);
        ClosureIsClosed(g, {l.to});
        ClosedUnderPaths(g, Closure(g, {l.to}), p);
      }
    }
    assert forall l :: l in g.links ==> HasEdge(g, l.from, l.to);
    assert forall u, v :: HasEdge(g, u, v) ==> Link(u, v) in g.links;
  }
}
