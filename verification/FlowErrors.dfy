/** Why a flow is refused, and why the flows of a pipeline are. */
module FlowErrors {
  import opened Wrappers
  import opened Sequences
  import opened FlowText
  import opened StreamingFlow
  import opened FlowMeaning
  import opened FlowBuild

  // ---------------------------------------------------------------- the first check that fails

  /** The error a check gives after the relations `before`. */
  ghost predicate Fails(c: Check, before: seq<Edge>, nodes: seq<Node>, e: FlowError) {
    match c
    case Parts(count) => count == 1 && e == NotAFlow
    case Target(source, empty) => empty && e == EmptyTarget(source)
    case Known(name) => !IsKnown(nodes, name) && e == UnknownNode(name)
    case Relate(x) =>
      if x.source == x.target then e == SelfRelation(x.source)
      else x in before && e == DuplicateRelation(x.source, x.target)
  }

  /** Check `k` fails, and none before it does. */
  ghost predicate FailsAt(cs: seq<Check>, k: nat, nodes: seq<Node>, e: FlowError) {
    && k < |cs| && AllGood(cs[..k], nodes) && Distinct(Relations(cs[..k]))
    && Fails(cs[k], Relations(cs[..k]), nodes, e)
  }

  lemma LastFails(p: Parse, front: seq<Check>, c: Check, nodes: seq<Node>)
    requires p.flowEdges == {} && NoBlanks(Relations(front + [c]))
    requires RunScript(p, front, nodes).Ok? && RunScript(p, front + [c], nodes).Err?
    ensures AllGood(front, nodes) && Distinct(Relations(front))
    ensures Fails(c, Relations(front), nodes, RunScript(p, front + [c], nodes).error)
  {
    RelationsAppend(front, [c]);
    RunScriptMeaning(p, front, nodes, {});
    RunAppend(p, front, [c], nodes);
    var q := RunScript(p, front, nodes).value;
    assert [c][1..] == [];
    assert RunCheck(q, c, nodes) == Err(RunScript(p, front + [c], nodes).error);
    if c.Known? {
      IsNodeIff(nodes, c.name);
    }
    if c.Relate? && c.edge.source != c.edge.target {
      RunScriptMeaning(p, front + [c], nodes, {});
      GoodLast(front, c, nodes);
      assert Relations([c]) == [c.edge];
      DistinctLast(Relations(front), c.edge);
    }
  }

  lemma GoodLast(front: seq<Check>, c: Check, nodes: seq<Node>)
    requires AllGood(front, nodes) && Good(c, nodes)
    ensures AllGood(front + [c], nodes)
  {
  }

  lemma DistinctLast(es: seq<Edge>, e: Edge)
    requires Distinct(es) && !Distinct(es + [e])
    ensures e in es
  {
  }

  lemma {:induction false} FirstFailure(p: Parse, cs: seq<Check>, nodes: seq<Node>) returns (k: nat)
    requires p.flowEdges == {} && NoBlanks(Relations(cs)) && RunScript(p, cs, nodes).Err?
    ensures FailsAt(cs, k, nodes, RunScript(p, cs, nodes).error)
    decreases |cs|
  {
    var front, c := cs[..|cs| - 1], cs[|cs| - 1];
    assert cs == front + [c];
    RunAppend(p, front, [c], nodes);
    RelationsAppend(front, [c]);
    if RunScript(p, front, nodes).Err? {
      k := FirstFailure(p, front, nodes);
      assert front[..k] == cs[..k];
    } else {
      k := |front|;
      LastFails(p, front, c, nodes);
    }
  }

  // ---------------------------------------------------------------- what the text says there

  ghost predicate NamedAt(es: seq<string>, x: nat, k: nat, s: string) {
    x < |es| && k < |SplitArrow(es[x])| && s in Names(SplitArrow(es[x])[k])
  }

  /** Part `k` of an expression is followed by an empty one. */
  ghost predicate EmptyAfter(es: seq<string>, x: nat, k: nat, after: string) {
    && x < |es| && k + 1 < |SplitArrow(es[x])|
    && SplitArrow(es[x])[k] == after && SplitArrow(es[x])[k + 1] == ""
  }

  ghost predicate Twice(es: seq<Edge>, e: Edge) {
    exists i, j :: 0 <= i < j < |es| && es[i] == e && es[j] == e
  }

  /** What is wrong with a text that is refused with the error. */
  ghost predicate Because(es: seq<string>, nodes: seq<Node>, e: FlowError) {
    match e
    case NotAFlow => exists x: nat :: x < |es| && |SplitArrow(es[x])| == 1
    case EmptyTarget(after) => exists x: nat, k: nat :: EmptyAfter(es, x, k, after)
    case UnknownNode(s) => !IsKnown(nodes, s) && exists x: nat, k: nat :: NamedAt(es, x, k, s)
    case SelfRelation(s) => exists x: nat :: Stated(es, x, Edge(s, s))
    case DuplicateRelation(s, t) => Twice(TextEdges(es), Edge(s, t))
    case _ => false
  }

  lemma SourceCheckIs(sources: seq<string>, targets: seq<string>, c: Check)
    requires c in Flat(SourceChecks(sources, targets), 0)
    ensures c.Relate? || (c.Known? && c.name in sources)
  {
    FlatHas(SourceChecks(sources, targets), 0, c);
  }

  lemma PartCheckIs(parts: seq<string>, i: nat, c: Check)
    requires i < |parts| && c in PartCheck(parts, i)
    ensures c.Relate? || (c.Known? && c.name in Names(parts[i]))
            || c == Target(parts[i], i + 1 < |parts| && parts[i + 1] == "")
  {
    if c in Flat(SourceChecks(Names(parts[i]), TargetsOf(parts, i)), 0) {
      SourceCheckIs(Names(parts[i]), TargetsOf(parts, i), c);
    }
  }

  lemma CheckIs(es: seq<string>, c: Check) returns (x: nat, k: nat)
    requires c in Flat(ExpressionChecks(es), 0)
    ensures x < |es|
    ensures c == Parts(|SplitArrow(es[x])|) || (k < |SplitArrow(es[x])| && c in PartCheck(SplitArrow(es[x]), k))
  {
    FlatHas(ExpressionChecks(es), 0, c);
    x :| x < |es| && c in ExpressionChecks(es)[x];
    k := 0;
    var cs := PartChecks(SplitArrow(es[x]));
    if c in Flat(cs, 0) {
      FlatHas(cs, 0, c);
      k :| k < |cs| && c in cs[k];
    }
  }

  lemma RelationsTwice(cs: seq<Check>, k: nat, e: Edge)
    requires k < |cs| && cs[k] == Relate(e) && e in Relations(cs[..k])
    ensures Twice(Relations(cs), e)
  {
    var before, rest := cs[..k], cs[k + 1..];
    assert cs == before + ([Relate(e)] + rest);
    RelationsAppend(before, [Relate(e)] + rest);
    assert ([Relate(e)] + rest)[1..] == rest;
    var i :| 0 <= i < |Relations(before)| && Relations(before)[i] == e;
    assert Relations(cs)[i] == e && Relations(cs)[|Relations(before)|] == e;
  }

  lemma {:induction false} RelationsHas(cs: seq<Check>, e: Edge)
    ensures e in Relations(cs) <==> Relate(e) in cs
  {
    if cs != [] {
      RelationsHas(cs[1..], e);
      assert cs == [cs[0]] + cs[1..];
    }
  }

  lemma TargetBecause(es: seq<string>, c: Check, nodes: seq<Node>)
    requires c in Flat(ExpressionChecks(es), 0) && c.Target? && c.empty
    ensures Because(es, nodes, EmptyTarget(c.source))
  {
    var x, i := CheckIs(es, c);
    PartCheckIs(SplitArrow(es[x]), i, c);
    assert EmptyAfter(es, x, i, c.source);
  }

  lemma KnownBecause(es: seq<string>, c: Check, nodes: seq<Node>)
    requires c in Flat(ExpressionChecks(es), 0) && c.Known? && !IsKnown(nodes, c.name)
    ensures Because(es, nodes, UnknownNode(c.name))
  {
    var x, i := CheckIs(es, c);
    PartCheckIs(SplitArrow(es[x]), i, c);
    assert NamedAt(es, x, i, c.name);
  }

  lemma PartsBecause(es: seq<string>, c: Check, nodes: seq<Node>)
    requires c in Flat(ExpressionChecks(es), 0) && c == Parts(1)
    ensures Because(es, nodes, NotAFlow)
  {
    var x, i := CheckIs(es, c);
    if c != Parts(|SplitArrow(es[x])|) {
      PartCheckIs(SplitArrow(es[x]), i, c);
    }
  }

  lemma SelfBecause(es: seq<string>, e: Edge, nodes: seq<Node>)
    requires Relate(e) in Flat(ExpressionChecks(es), 0) && e.source == e.target
    ensures Because(es, nodes, SelfRelation(e.source))
  {
    ScriptRelations(es);
    RelationsHas(Flat(ExpressionChecks(es), 0), e);
    TextHas(es, e);
  }

  lemma TwiceBecause(es: seq<string>, k: nat, e: Edge, nodes: seq<Node>)
    requires var cs := Flat(ExpressionChecks(es), 0);
             k < |cs| && cs[k] == Relate(e) && e in Relations(cs[..k])
    ensures Because(es, nodes, DuplicateRelation(e.source, e.target))
  {
    ScriptRelations(es);
    RelationsTwice(Flat(ExpressionChecks(es), 0), k, e);
  }

  lemma FailedBecause(es: seq<string>, k: nat, nodes: seq<Node>, e: FlowError)
    requires FailsAt(Flat(ExpressionChecks(es), 0), k, nodes, e)
    ensures Because(es, nodes, e)
  {
    var c := Flat(ExpressionChecks(es), 0)[k];
    match c {
      case Parts(count) => PartsBecause(es, c, nodes);
      case Target(source, empty) => TargetBecause(es, c, nodes);
      case Known(name) => KnownBecause(es, c, nodes);
      case Relate(edge) =>
        if edge.source == edge.target {
          SelfBecause(es, edge, nodes);
        } else {
          TwiceBecause(es, k, edge, nodes);
        }
    }
  }

  /** An empty text is refused as such; any other one with the error of its first check that fails. */
  lemma RefusedBecause(name: string, v: string, edges: seq<Edge>, nodes: seq<Node>)
    requires ParseFlow(name, v, edges, nodes).Err?
    ensures var e := ParseFlow(name, v, edges, nodes).error;
            if v == "" then e == EmptyFlow(name)
            else (exists k: nat :: FailsAt(Script(v), k, nodes, e)) && Because(Expressions(v), nodes, e)
  {
    if v != "" {
      TextHasNoBlanks(v);
      ScriptRelations(Expressions(v));
      var k := FirstFailure(Parse([], {}, edges), Script(v), nodes);
      FailedBecause(Expressions(v), k, nodes, ParseFlow(name, v, edges, nodes).error);
    }
  }

  // ---------------------------------------------------------------- the flows of a pipeline

  ghost predicate RefusedFor(f: NamedFlow, nodes: seq<Node>, e: FlowError) {
    if f.text == "" then e == EmptyFlow(f.name) else Because(Expressions(f.text), nodes, e)
  }

  /** The error is that of the first flow that is not accepted. */
  ghost predicate FirstRefused(flows: seq<NamedFlow>, nodes: seq<Node>, e: FlowError) {
    exists i: nat :: RefusedAt(flows, i, nodes, e)
  }

  ghost predicate RefusedAt(flows: seq<NamedFlow>, i: nat, nodes: seq<Node>, e: FlowError) {
    && i < |flows| && (forall k :: 0 <= k < i ==> FlowAccepted(flows[k], nodes))
    && !FlowAccepted(flows[i], nodes) && RefusedFor(flows[i], nodes, e)
  }

  lemma RefusedLater(flows: seq<NamedFlow>, i: nat, nodes: seq<Node>, e: FlowError)
    requires flows != [] && FlowAccepted(flows[0], nodes) && RefusedAt(flows[1..], i, nodes, e)
    ensures RefusedAt(flows, i + 1, nodes, e)
  {
    forall k | 0 <= k < i + 1 ensures FlowAccepted(flows[k], nodes) {
      assert k > 0 ==> flows[1..][k - 1] == flows[k];
    }
  }

  /** A flow that does not parse is not accepted, and refused with the error it gives. */
  lemma OneRefused(f: NamedFlow, edges: seq<Edge>, nodes: seq<Node>)
    ensures match ParseFlow(f.name, f.text, edges, nodes)
            case Err(e) => !FlowAccepted(f, nodes) && RefusedFor(f, nodes, e)
            case Ok(_) => FlowAccepted(f, nodes)
  {
    AcceptedIff(f.name, f.text, edges, nodes);
    if ParseFlow(f.name, f.text, edges, nodes).Err? {
      RefusedBecause(f.name, f.text, edges, nodes);
    }
  }

  lemma {:induction false} ParseFlowsRefuses(at: Streaming, flows: seq<NamedFlow>, nodes: seq<Node>) returns (i: nat)
    requires ParseFlows(at, flows, nodes).Err?
    ensures RefusedAt(flows, i, nodes, ParseFlows(at, flows, nodes).error)
    decreases |flows|
  {
    var f := flows[0];
    OneRefused(f, at.edges, nodes);
    match ParseFlow(f.name, f.text, at.edges, nodes) {
      case Err(e) => i := 0;
      case Ok(p) =>
        var next := Streaming(p.edges, at.parsedFlow[f.name := p.flow]);
        var k := ParseFlowsRefuses(next, flows[1..], nodes);
        RefusedLater(flows, k, nodes, ParseFlows(next, flows[1..], nodes).error);
        i := k + 1;
    }
  }

  ghost predicate Unmentioned(flows: seq<NamedFlow>, nodes: seq<Node>, i: nat) {
    && i < |nodes| && !NodeMentioned(flows, nodes[i])
    && forall k :: 0 <= k < i ==> NodeMentioned(flows, nodes[k])
  }

  lemma {:induction false} FirstLooseIs(nodes: seq<Node>, edges: seq<Edge>) returns (i: nat)
    requires FirstLoose(nodes, edges).Some?
    ensures i < |nodes| && FirstLoose(nodes, edges).value == nodes[i] && !InEdges(edges, NodeKey(nodes[i]))
    ensures forall k :: 0 <= k < i ==> InEdges(edges, NodeKey(nodes[k]))
  {
    i := 0;
    if InEdges(edges, NodeKey(nodes[0])) {
      var k := FirstLooseIs(nodes[1..], edges);
      i := k + 1;
    }
  }

  lemma LooseIsUnmentioned(flows: seq<NamedFlow>, edges: seq<Edge>, nodes: seq<Node>) returns (i: nat)
    requires EdgesUnion([], flows, edges) && FirstLoose(nodes, edges).Some?
    ensures Unmentioned(flows, nodes, i) && FirstLoose(nodes, edges).value == nodes[i]
  {
    i := FirstLooseIs(nodes, edges);
    forall k: nat | k < |nodes| ensures InEdges(edges, NodeKey(nodes[k])) <==> NodeMentioned(flows, nodes[k]) {
      UnionMentions(flows, edges, NodeKey(nodes[k]));
    }
  }

  ghost predicate HasOwnName(nodes: seq<Node>, s: string) { exists n :: n in nodes && n.nodeName == s }

  lemma {:induction false} StatelessErrorIs(nodes: seq<Node>, entries: seq<string>) returns (s: string)
    requires StatelessError(nodes, entries).Some?
    ensures s in entries && !KeepsState(nodes, s) && StatelessError(nodes, entries) == Some(StatelessEntry(s))
  {
    KeepsStateIff(nodes, entries[0]);
    var i := FirstNamedIs(nodes, entries[0]);
    s := entries[0];
    if FirstNamed(nodes, s).None? || !FirstNamed(nodes, s).value.stateless {
      s := StatelessErrorIs(nodes, entries[1..]);
    }
  }

  /** An entry without a node of that very name comes before one whose node is stateless. */
  ghost predicate EntryRefused(flows: seq<NamedFlow>, nodes: seq<Node>, e: FlowError) {
    if exists s :: IsEntry(flows, s) && !HasOwnName(nodes, s) then e == EntryWithoutNode
    else exists s :: IsEntry(flows, s) && !KeepsState(nodes, s) && e == StatelessEntry(s)
  }

  lemma EntriesAre(flows: seq<NamedFlow>, edges: seq<Edge>, s: string)
    requires EdgesUnion([], flows, edges)
    ensures s in Entries(EdgeNames(edges), edges) <==> IsEntry(flows, s)
  {
    EdgeNamesHas(edges, s);
    UnionMentions(flows, edges, s);
    UnionTargets(flows, edges, s);
  }

  lemma EntryErrorIs(flows: seq<NamedFlow>, edges: seq<Edge>, nodes: seq<Node>)
    requires EdgesUnion([], flows, edges) && EntryError(nodes, Entries(EdgeNames(edges), edges)).Some?
    ensures EntryRefused(flows, nodes, EntryError(nodes, Entries(EdgeNames(edges), edges)).value)
  {
    var entries := Entries(EdgeNames(edges), edges);
    forall s ensures s in entries <==> IsEntry(flows, s) { EntriesAre(flows, edges, s); }
    forall s ensures FirstNamed(nodes, s).Some? <==> HasOwnName(nodes, s) { KeepsStateIff(nodes, s); }
    if forall s :: s in entries ==> FirstNamed(nodes, s).Some? {
      var s := StatelessErrorIs(nodes, entries);
    }
  }

  /** What is wrong with flows that all are accepted by themselves. */
  ghost predicate TogetherRefused(flows: seq<NamedFlow>, nodes: seq<Node>, e: FlowError) {
    if exists n :: n in nodes && !NodeMentioned(flows, n)
    then exists i: nat :: Unmentioned(flows, nodes, i) && e == NodeWithoutFlow(nodes[i].nodeName)
    else EntryRefused(flows, nodes, e)
  }

  lemma ParsedRefuses(flows: seq<NamedFlow>, nodes: seq<Node>, edges: seq<Edge>, e: FlowError)
    requires EdgesUnion([], flows, edges)
    requires match FirstLoose(nodes, edges)
             case Some(n) => e == NodeWithoutFlow(n.nodeName)
             case None => EntryError(nodes, Entries(EdgeNames(edges), edges)) == Some(e)
    ensures TogetherRefused(flows, nodes, e)
  {
    EveryNodeMentioned(flows, edges, nodes);
    if FirstLoose(nodes, edges).Some? {
      var i := LooseIsUnmentioned(flows, edges, nodes);
    } else {
      EntryErrorIs(flows, edges, nodes);
    }
  }

  /** The error of a refused pipeline, in the order in which the reasons are looked for. */
  lemma BuildRefuses(flows: seq<NamedFlow>, defaultFlow: string, nodes: seq<Node>)
    requires Build(flows, defaultFlow, nodes).Err?
    ensures var e := Build(flows, defaultFlow, nodes).error;
            if flows == [] then e == NoFlows
            else if defaultFlow == "" && |flows| > 1 then e == NoDefaultFlow
            else if exists f :: f in flows && !FlowAccepted(f, nodes) then FirstRefused(flows, nodes, e)
            else TogetherRefused(flows, nodes, e)
  {
    if flows != [] && !(defaultFlow == "" && |flows| > 1) {
      var at := Streaming([], map[]);
      ParseFlowsIff(at, flows, nodes);
      if ParseFlows(at, flows, nodes).Err? {
        var i := ParseFlowsRefuses(at, flows, nodes);
      } else {
        ParseFlowsEdges(at, flows, nodes);
        ParsedRefuses(flows, nodes, ParseFlows(at, flows, nodes).value.edges, Build(flows, defaultFlow, nodes).error);
      }
    }
  }
}
