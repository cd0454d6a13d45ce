/** How a flow groups its relations: one entry per source, in order of appearance. */
module FlowGroups {
  import opened StreamingFlow
  import opened FlowMeaning

  /** The targets of `s` among relations, in order. */
  function TargetsFrom(es: seq<Edge>, s: string): seq<string> {
    if es == [] then []
    else
      var e := es[|es| - 1];
      TargetsFrom(es[..|es| - 1], s) + if e.source == s then [e.target] else []
  }

  /** The sources of relations, each once, by first appearance. */
  function SourcesOf(es: seq<Edge>): seq<string> {
    if es == [] then []
    else
      var r, s := SourcesOf(es[..|es| - 1]), es[|es| - 1].source;
      if s in r then r else r + [s]
  }

  /** Each source once, with all its targets. */
  ghost predicate GroupsOf(flow: seq<FlowNode>, es: seq<Edge>) {
    && |flow| == |SourcesOf(es)|
    && forall k :: 0 <= k < |flow| ==> flow[k] == FlowNode(SourcesOf(es)[k], TargetsFrom(es, SourcesOf(es)[k]))
  }

  ghost predicate DistinctSources(flow: seq<FlowNode>) {
    forall i, j :: 0 <= i < j < |flow| ==> flow[i].source != flow[j].source
  }

  lemma {:induction false} AddToFlowNew(flow: seq<FlowNode>, e: Edge)
    requires forall k :: 0 <= k < |flow| ==> flow[k].source != e.source
    ensures AddToFlow(flow, e) == flow + [FlowNode(e.source, [e.target])]
  {
    if flow != [] {
      AddToFlowNew(flow[1..], e);
    }
  }

  lemma {:induction false} AddToFlowOld(flow: seq<FlowNode>, e: Edge, k: nat)
    requires k < |flow| && flow[k].source == e.source
    requires forall i :: 0 <= i < k ==> flow[i].source != e.source
    ensures AddToFlow(flow, e) == flow[k := FlowNode(e.source, flow[k].next + [e.target])]
  {
    if k > 0 {
      AddToFlowOld(flow[1..], e, k - 1);
    }
  }

  lemma {:induction false} SourcesAreDistinct(es: seq<Edge>)
    ensures forall i, j :: 0 <= i < j < |SourcesOf(es)| ==> SourcesOf(es)[i] != SourcesOf(es)[j]
    ensures forall e :: e in es ==> e.source in SourcesOf(es)
  {
    if es != [] {
      SourcesAreDistinct(es[..|es| - 1]);
      assert es == es[..|es| - 1] + [es[|es| - 1]];
    }
  }

  lemma {:induction false} NoTargets(es: seq<Edge>, s: string)
    requires s !in SourcesOf(es)
    ensures TargetsFrom(es, s) == []
  {
    if es != [] {
      NoTargets(es[..|es| - 1], s);
    }
  }

  lemma GroupsStep(flow: seq<FlowNode>, es: seq<Edge>, e: Edge)
    requires GroupsOf(flow, es)
    ensures GroupsOf(AddToFlow(flow, e), es + [e])
  {
    var all := es + [e];
    assert all[..|all| - 1] == es;
    var ss := SourcesOf(es);
    SourcesAreDistinct(es);
    if e.source in ss {
      var k :| 0 <= k < |ss| && ss[k] == e.source;
      AddToFlowOld(flow, e, k);
    } else {
      NoTargets(es, e.source);
      AddToFlowNew(flow, e);
    }
  }

  lemma {:induction false} GroupsAll(flow: seq<FlowNode>, before: seq<Edge>, es: seq<Edge>)
    requires GroupsOf(flow, before)
    ensures GroupsOf(AddAllToFlow(flow, es), before + es)
    decreases |es|
  {
    if es == [] {
      assert before + es == before;
    } else {
      GroupsStep(flow, before, es[0]);
      GroupsAll(AddToFlow(flow, es[0]), before + [es[0]], es[1..]);
      assert before + [es[0]] + es[1..] == before + es;
    }
  }

  /** An accepted flow has one entry per source, by first appearance, with exactly its targets in order. */
  lemma FlowGroupsRelations(es: seq<Edge>)
    ensures GroupsOf(AddAllToFlow([], es), es) && DistinctSources(AddAllToFlow([], es))
  {
    GroupsAll([], [], es);
    assert [] + es == es;
    SourcesAreDistinct(es);
  }

  // ---------------------------------------------------------------- the relations of a flow

  function NodeEdges(flow: seq<FlowNode>): (r: seq<seq<Edge>>)
    ensures |r| == |flow|
  {
    seq(|flow|, k requires 0 <= k < |flow| => EdgesTo(flow[k].source, flow[k].next))
  }

  /** The relations a grouped flow stands for. */
  function Flatten(flow: seq<FlowNode>): seq<Edge> { Flat(NodeEdges(flow), 0) }

  lemma {:induction false} TargetsHave(es: seq<Edge>, s: string, t: string)
    ensures t in TargetsFrom(es, s) <==> Edge(s, t) in es
  {
    if es != [] {
      TargetsHave(es[..|es| - 1], s, t);
      assert es == es[..|es| - 1] + [es[|es| - 1]];
    }
  }

  lemma {:induction false} SourceHasTarget(es: seq<Edge>, s: string)
    requires s in SourcesOf(es)
    ensures exists e :: e in es && e.source == s
  {
    var last := es[|es| - 1];
    assert last in es;
    if last.source != s {
      SourceHasTarget(es[..|es| - 1], s);
      assert es == es[..|es| - 1] + [last];
    }
  }

  lemma FlattenHas(flow: seq<FlowNode>, e: Edge)
    ensures e in Flatten(flow)
            <==> exists k :: 0 <= k < |flow| && flow[k].source == e.source && e.target in flow[k].next
  {
    var ss := NodeEdges(flow);
    FlatHas(ss, 0, e);
    forall k: nat | k < |flow| ensures e in ss[k] <==> flow[k].source == e.source && e.target in flow[k].next {
      EdgesToHas(flow[k].source, flow[k].next, e);
    }
    if k: nat :| k < |flow| && flow[k].source == e.source && e.target in flow[k].next {
      assert e in ss[k];
    }
  }

  /** Flattening a grouped flow gives back the relations it was made from, and no entry is empty. */
  lemma FlattenGroups(es: seq<Edge>, e: Edge)
    ensures e in Flatten(AddAllToFlow([], es)) <==> e in es
    ensures forall k :: 0 <= k < |AddAllToFlow([], es)| ==> AddAllToFlow([], es)[k].next != []
  {
    var flow := AddAllToFlow([], es);
    FlowGroupsRelations(es);
    FlattenHas(flow, e);
    TargetsHave(es, e.source, e.target);
    SourcesAreDistinct(es);
    if e in es {
      var k :| 0 <= k < |SourcesOf(es)| && SourcesOf(es)[k] == e.source;
      assert flow[k].source == e.source;
    }
    forall k | 0 <= k < |flow| ensures flow[k].next != [] {
      var s := SourcesOf(es)[k];
      SourceHasTarget(es, s);
      var f :| f in es && f.source == s;
      TargetsHave(es, s, f.target);
    }
  }

  // ---------------------------------------------------------------- grouping what was flattened

  lemma {:induction false} AddAllAppend(flow: seq<FlowNode>, a: seq<Edge>, b: seq<Edge>)
    ensures AddAllToFlow(flow, a + b) == AddAllToFlow(AddAllToFlow(flow, a), b)
    decreases |a|
  {
    if a == [] {
      assert a + b == b;
    } else {
      AddAllAppend(AddToFlow(flow, a[0]), a[1..], b);
      assert (a + b)[0] == a[0] && (a + b)[1..] == a[1..] + b;
    }
  }

  /** Relations from the last source of a flow go to its end. */
  lemma {:induction false} AddLastSource(flow: seq<FlowNode>, s: string, had: seq<string>, more: seq<string>)
    requires forall k :: 0 <= k < |flow| ==> flow[k].source != s
    ensures AddAllToFlow(flow + [FlowNode(s, had)], EdgesTo(s, more)) == flow + [FlowNode(s, had + more)]
    decreases |more|
  {
    if more == [] {
      assert had + more == had;
    } else {
      var all := flow + [FlowNode(s, had)];
      AddToFlowOld(all, Edge(s, more[0]), |flow|);
      assert AddToFlow(all, Edge(s, more[0])) == flow + [FlowNode(s, had + [more[0]])];
      AddLastSource(flow, s, had + [more[0]], more[1..]);
      assert EdgesTo(s, more)[1..] == EdgesTo(s, more[1..]);
      assert had + [more[0]] + more[1..] == had + more;
    }
  }

  lemma {:induction false} AddSource(flow: seq<FlowNode>, s: string, next: seq<string>)
    requires next != [] && forall k :: 0 <= k < |flow| ==> flow[k].source != s
    ensures AddAllToFlow(flow, EdgesTo(s, next)) == flow + [FlowNode(s, next)]
  {
    AddToFlowNew(flow, Edge(s, next[0]));
    AddLastSource(flow, s, [next[0]], next[1..]);
    assert EdgesTo(s, next)[1..] == EdgesTo(s, next[1..]);
    assert [next[0]] + next[1..] == next;
  }

  lemma {:induction false} RegroupFrom(flow: seq<FlowNode>, i: nat)
    requires i <= |flow| && DistinctSources(flow) && forall k :: 0 <= k < |flow| ==> flow[k].next != []
    ensures AddAllToFlow(flow[..i], Flat(NodeEdges(flow), i)) == flow
    decreases |flow| - i
  {
    if i < |flow| {
      AddAllAppend(flow[..i], NodeEdges(flow)[i], Flat(NodeEdges(flow), i + 1));
      AddSource(flow[..i], flow[i].source, flow[i].next);
      assert flow[..i] + [flow[i]] == flow[..i + 1];
      RegroupFrom(flow, i + 1);
    }
  }

  /** Grouping the relations of a flow with distinct sources and no empty entry gives the flow back. */
  lemma Regroup(flow: seq<FlowNode>)
    requires DistinctSources(flow) && forall k :: 0 <= k < |flow| ==> flow[k].next != []
    ensures AddAllToFlow([], Flatten(flow)) == flow
  {
    RegroupFrom(flow, 0);
    assert flow[..0] == [];
  }
}
