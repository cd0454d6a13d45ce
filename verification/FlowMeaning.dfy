/** What an accepted flow denotes, and exactly which flows are accepted. */
module FlowMeaning {
  import opened Sequences
  import opened FlowText
  import opened StreamingFlow

  /** The relations a list of checks states, in order. */
  function Relations(cs: seq<Check>): seq<Edge> {
    if cs == [] then []
    else (match cs[0] case Relate(e) => [e] case _ => []) + Relations(cs[1..])
  }

  /** Some node has this name, or was copied from a node of this name. */
  ghost predicate IsKnown(nodes: seq<Node>, s: string) {
    exists n :: n in nodes && (n.nodeName == s || (|s| > 0 && n.origName == s))
  }

  lemma IsNodeIff(nodes: seq<Node>, s: string)
    ensures IsNode(nodes, s) <==> IsKnown(nodes, s)
  {
  }

  ghost predicate Good(c: Check, nodes: seq<Node>) {
    match c
    case Parts(count) => count != 1
    case Target(source, empty) => !empty
    case Known(name) => IsKnown(nodes, name)
    case Relate(e) => e.source != e.target
  }

  ghost predicate AllGood(cs: seq<Check>, nodes: seq<Node>) {
    forall c :: c in cs ==> Good(c, nodes)
  }

  /** Names without blanks, as stripping leaves them. */
  ghost predicate NoBlank(e: Edge) { ' ' !in e.source && ' ' !in e.target }

  ghost predicate NoBlanks(es: seq<Edge>) {
    forall e :: e in es ==> NoBlank(e)
  }

  /** The first blank of a key stands right after its source. */
  lemma KeyShape(e: Edge, i: nat)
    requires NoBlank(e)
    ensures |Key(e)| == |e.source| + 4 + |e.target|
    ensures Key(e)[|e.source|] == ' '
    ensures Key(e)[..|e.source|] == e.source && Key(e)[|e.source| + 4..] == e.target
    ensures i < |e.source| ==> Key(e)[i] != ' '
  {
    assert Key(e) == e.source + (" >> " + e.target);
    assert " >> "[0] == ' ';
    assert i < |e.source| ==> Key(e)[i] == e.source[i] && e.source[i] in e.source;
  }

  /** Without blanks in the names, the key of a relation tells its source and target apart. */
  lemma KeyIsInjective(a: Edge, b: Edge)
    requires NoBlank(a) && NoBlank(b) && Key(a) == Key(b)
    ensures a == b
  {
    KeyShape(a, |b.source|);
    KeyShape(b, |a.source|);
    assert |a.source| == |b.source|;
  }

  function AddAllToFlow(flow: seq<FlowNode>, es: seq<Edge>): seq<FlowNode>
    decreases |es|
  {
    if es == [] then flow else AddAllToFlow(AddToFlow(flow, es[0]), es[1..])
  }

  function AddAllEdges(edges: seq<Edge>, es: seq<Edge>): seq<Edge>
    decreases |es|
  {
    if es == [] then edges else AddAllEdges(AddEdge(edges, es[0]), es[1..])
  }

  ghost predicate KeysOf(keys: set<string>, seen: set<Edge>) {
    && (forall e :: e in seen ==> NoBlank(e))
    && (forall e :: NoBlank(e) ==> (Key(e) in keys <==> e in seen))
  }

  lemma KeysAdd(keys: set<string>, seen: set<Edge>, e: Edge)
    requires KeysOf(keys, seen) && NoBlank(e)
    ensures KeysOf(keys + {Key(e)}, seen + {e})
  {
    forall f | NoBlank(f) ensures Key(f) in keys + {Key(e)} <==> f in seen + {e} {
      if Key(f) == Key(e) {
        KeyIsInjective(f, e);
      }
    }
  }

  /** Fresh relations: none seen before, none twice. */
  ghost predicate Fresh(es: seq<Edge>, seen: set<Edge>) {
    Distinct(es) && forall e :: e in es ==> e !in seen
  }

  lemma FreshCons(e: Edge, rest: seq<Edge>, seen: set<Edge>)
    ensures Fresh([e] + rest, seen) <==> e !in seen && Fresh(rest, seen + {e})
  {
    var all := [e] + rest;
    if Fresh(all, seen) {
      assert all[0] == e;
      forall f | f in rest ensures f !in seen + {e} {
        var i :| 0 <= i < |rest| && rest[i] == f;
        assert all[i + 1] == f;
      }
      forall i, j | 0 <= i < j < |rest| ensures rest[i] != rest[j] {
        assert all[i + 1] != all[j + 1];
      }
    }
    if e !in seen && Fresh(rest, seen + {e}) {
      forall i, j | 0 <= i < j < |all| ensures all[i] != all[j] {
        assert all[j] == rest[j - 1] && rest[j - 1] in rest;
        if i > 0 {
          assert all[i] == rest[i - 1];
        }
      }
    }
  }

  /** Running checks succeeds exactly when all are good and the relations are fresh, and adds them all. */
  lemma {:induction false} RunScriptMeaning(p: Parse, cs: seq<Check>, nodes: seq<Node>, seen: set<Edge>)
    requires NoBlanks(Relations(cs)) && KeysOf(p.flowEdges, seen)
    ensures RunScript(p, cs, nodes).Ok? <==> AllGood(cs, nodes) && Fresh(Relations(cs), seen)
    ensures RunScript(p, cs, nodes).Ok? ==>
              && RunScript(p, cs, nodes).value.flow == AddAllToFlow(p.flow, Relations(cs))
              && RunScript(p, cs, nodes).value.edges == AddAllEdges(p.edges, Relations(cs))
    decreases |cs|
  {
    if cs != [] {
      var c, rest := cs[0], cs[1..];
      assert AllGood(cs, nodes) <==> Good(c, nodes) && AllGood(rest, nodes) by {
        assert cs == [c] + rest;
      }
      if c.Relate? {
        assert Relations(cs) == [c.edge] + Relations(rest);
        assert c.edge in Relations(cs);
        assert forall e :: e in Relations(rest) ==> e in Relations(cs);
        assert Relations(cs)[1..] == Relations(rest);
        FreshCons(c.edge, Relations(rest), seen);
        KeysAdd(p.flowEdges, seen, c.edge);
        match RunCheck(p, c, nodes)
        case Err(e) =>
        case Ok(q) => RunScriptMeaning(q, rest, nodes, seen + {c.edge});
      } else {
        assert Relations(cs) == Relations(rest);
        if c.Known? {
          IsNodeIff(nodes, c.name);
        }
        RunScriptMeaning(p, rest, nodes, seen);
      }
    }
  }

  // ---------------------------------------------------------------- lists of lists

  ghost predicate SomeHas<T>(ss: seq<seq<T>>, i: nat, x: T) {
    exists k: nat :: i <= k < |ss| && x in ss[k]
  }

  lemma {:induction false} FlatHas<T>(ss: seq<seq<T>>, i: nat, x: T)
    requires i <= |ss|
    ensures x in Flat(ss, i) <==> SomeHas(ss, i, x)
    decreases |ss| - i
  {
    if i < |ss| {
      FlatHas(ss, i + 1, x);
      if SomeHas(ss, i, x) {
        var k: nat :| i <= k < |ss| && x in ss[k];
        assert k == i || i + 1 <= k;
      }
    }
  }

  lemma {:induction false} RelationsAppend(a: seq<Check>, b: seq<Check>)
    ensures Relations(a + b) == Relations(a) + Relations(b)
  {
    if a == [] {
      assert a + b == b;
    } else {
      var first := match a[0] case Relate(e) => [e] case _ => [];
      RelationsAppend(a[1..], b);
      assert (a + b)[1..] == a[1..] + b && (a + b)[0] == a[0];
      assert first + (Relations(a[1..]) + Relations(b)) == (first + Relations(a[1..])) + Relations(b);
    }
  }

  lemma {:induction false} FlatRelations(cs: seq<seq<Check>>, es: seq<seq<Edge>>, i: nat)
    requires |cs| == |es| && i <= |cs| && forall k :: 0 <= k < |cs| ==> Relations(cs[k]) == es[k]
    ensures Relations(Flat(cs, i)) == Flat(es, i)
    decreases |cs| - i
  {
    if i < |cs| {
      FlatRelations(cs, es, i + 1);
      RelationsAppend(cs[i], Flat(cs, i + 1));
    }
  }

  /** A check that states no relation, before others. */
  lemma RelationsAfter(c: Check, cs: seq<Check>)
    requires !c.Relate?
    ensures Relations([c] + cs) == Relations(cs)
  {
    assert ([c] + cs)[1..] == cs;
  }

  lemma FlatGood(cs: seq<seq<Check>>, nodes: seq<Node>)
    ensures AllGood(Flat(cs, 0), nodes) <==> forall k :: 0 <= k < |cs| ==> AllGood(cs[k], nodes)
  {
    forall c: Check ensures c in Flat(cs, 0) <==> SomeHas(cs, 0, c) {
      FlatHas(cs, 0, c);
    }
  }

  lemma GoodAfter(c: Check, cs: seq<Check>, nodes: seq<Node>)
    ensures AllGood([c] + cs, nodes) <==> Good(c, nodes) && AllGood(cs, nodes)
  {
    assert c in [c] + cs;
  }

  ghost predicate NoSelf(es: seq<Edge>) {
    forall e :: e in es ==> e.source != e.target
  }

  lemma FlatNoSelf(ss: seq<seq<Edge>>)
    ensures NoSelf(Flat(ss, 0)) <==> forall k :: 0 <= k < |ss| ==> NoSelf(ss[k])
  {
    forall e: Edge ensures e in Flat(ss, 0) <==> SomeHas(ss, 0, e) {
      FlatHas(ss, 0, e);
    }
  }

  // ---------------------------------------------------------------- the relations of a text

  function EdgesTo(s: string, targets: seq<string>): (r: seq<Edge>)
    ensures |r| == |targets| && forall i :: 0 <= i < |r| ==> r[i] == Edge(s, targets[i])
  {
    seq(|targets|, i requires 0 <= i < |targets| => Edge(s, targets[i]))
  }

  function EdgesOf(sources: seq<string>, targets: seq<string>): (r: seq<seq<Edge>>)
    ensures |r| == |sources|
  {
    seq(|sources|, i requires 0 <= i < |sources| => EdgesTo(sources[i], targets))
  }

  /** Every source with every target, source by source. */
  function Product(sources: seq<string>, targets: seq<string>): seq<Edge> { Flat(EdgesOf(sources, targets), 0) }

  /** The product of each part with the next. */
  function PartEdges(parts: seq<string>): (r: seq<seq<Edge>>)
    ensures |r| == |parts|
  {
    seq(|parts|, i requires 0 <= i < |parts| => Product(Names(parts[i]), TargetsOf(parts, i)))
  }

  function ChainEdges(parts: seq<string>): seq<Edge> { Flat(PartEdges(parts), 0) }

  function ExpressionEdges(es: seq<string>): (r: seq<seq<Edge>>)
    ensures |r| == |es|
  {
    seq(|es|, x requires 0 <= x < |es| => ChainEdges(SplitArrow(es[x])))
  }

  /** The relations a flow text states, in the order written. */
  function TextEdges(es: seq<string>): seq<Edge> { Flat(ExpressionEdges(es), 0) }

  lemma {:induction false} RelateAllRelations(s: string, targets: seq<string>)
    ensures Relations(RelateAll(s, targets)) == EdgesTo(s, targets)
    decreases |targets|
  {
    if targets != [] {
      RelateAllRelations(s, targets[1..]);
      assert RelateAll(s, targets)[1..] == RelateAll(s, targets[1..]);
      assert EdgesTo(s, targets) == [Edge(s, targets[0])] + EdgesTo(s, targets[1..]);
    }
  }

  lemma SourceChecksRelations(sources: seq<string>, targets: seq<string>)
    ensures Relations(Flat(SourceChecks(sources, targets), 0)) == Product(sources, targets)
  {
    var cs, es := SourceChecks(sources, targets), EdgesOf(sources, targets);
    forall k | 0 <= k < |cs| ensures Relations(cs[k]) == es[k] {
      RelationsAfter(Known(sources[k]), RelateAll(sources[k], targets));
      RelateAllRelations(sources[k], targets);
    }
    FlatRelations(cs, es, 0);
  }

  lemma PartCheckRelations(parts: seq<string>, i: nat)
    requires i < |parts|
    ensures Relations(PartCheck(parts, i)) == Product(Names(parts[i]), TargetsOf(parts, i))
  {
    var checks := Flat(SourceChecks(Names(parts[i]), TargetsOf(parts, i)), 0);
    RelationsAfter(Target(parts[i], i + 1 < |parts| && parts[i + 1] == []), checks);
    SourceChecksRelations(Names(parts[i]), TargetsOf(parts, i));
  }

  lemma ExpressionRelations(e: string)
    ensures Relations(ExpressionCheck(e)) == ChainEdges(SplitArrow(e))
  {
    var parts := SplitArrow(e);
    var cs, es := PartChecks(parts), PartEdges(parts);
    RelationsAfter(Parts(|parts|), Flat(cs, 0));
    forall k | 0 <= k < |cs| ensures Relations(cs[k]) == es[k] {
      PartCheckRelations(parts, k);
    }
    FlatRelations(cs, es, 0);
  }

  lemma ScriptRelations(es: seq<string>)
    ensures Relations(Flat(ExpressionChecks(es), 0)) == TextEdges(es)
  {
    var cs, all := ExpressionChecks(es), ExpressionEdges(es);
    forall x | 0 <= x < |cs| ensures Relations(cs[x]) == all[x] {
      ExpressionRelations(es[x]);
    }
    FlatRelations(cs, all, 0);
  }

  // ---------------------------------------------------------------- membership

  lemma EdgesToHas(s: string, targets: seq<string>, e: Edge)
    ensures e in EdgesTo(s, targets) <==> e.source == s && e.target in targets
  {
    if e.source == s && e.target in targets {
      var i :| 0 <= i < |targets| && targets[i] == e.target;
      assert EdgesTo(s, targets)[i] == e;
    }
  }

  lemma ProductHas(sources: seq<string>, targets: seq<string>, e: Edge)
    ensures e in Product(sources, targets) <==> e.source in sources && e.target in targets
  {
    var ss := EdgesOf(sources, targets);
    FlatHas(ss, 0, e);
    forall k | 0 <= k < |sources| ensures e in ss[k] <==> e.source == sources[k] && e.target in targets {
      EdgesToHas(sources[k], targets, e);
    }
    if e.source in sources && e.target in targets {
      var k: nat :| k < |sources| && sources[k] == e.source;
      assert e in ss[k];
    }
  }

  /** `e` goes from part `k` of an expression to the next part. */
  ghost predicate Between(parts: seq<string>, k: nat, e: Edge) {
    k + 1 < |parts| && e.source in Names(parts[k]) && e.target in Names(parts[k + 1])
  }

  /** `e` is stated by expression `x` of the text: it goes from a part of it to the next one. */
  ghost predicate Stated(es: seq<string>, x: nat, e: Edge) {
    x < |es| && exists k: nat :: Between(SplitArrow(es[x]), k, e)
  }

  lemma ChainHas(parts: seq<string>, e: Edge)
    ensures e in ChainEdges(parts) <==> exists k: nat :: Between(parts, k, e)
  {
    var ss := PartEdges(parts);
    FlatHas(ss, 0, e);
    forall k: nat | k < |parts| ensures e in ss[k] <==> Between(parts, k, e) {
      ProductHas(Names(parts[k]), TargetsOf(parts, k), e);
    }
    if k: nat :| Between(parts, k, e) {
      assert e in ss[k];
    }
  }

  /** A text denotes the union, over its expressions, of the products of each part with the next. */
  lemma TextHas(es: seq<string>, e: Edge)
    ensures e in TextEdges(es) <==> exists x: nat :: Stated(es, x, e)
  {
    var ss := ExpressionEdges(es);
    FlatHas(ss, 0, e);
    forall x: nat | x < |es| ensures e in ss[x] <==> Stated(es, x, e) {
      ChainHas(SplitArrow(es[x]), e);
    }
    if x: nat :| Stated(es, x, e) {
      assert e in ss[x];
    }
  }

  // ---------------------------------------------------------------- acceptance

  ghost predicate AllKnown(names: seq<string>, nodes: seq<Node>) {
    forall s :: s in names ==> IsKnown(nodes, s)
  }

  /** The conditions on one part: it has names if it is a target, and its names are nodes. */
  ghost predicate PartOk(parts: seq<string>, k: nat, nodes: seq<Node>)
    requires k < |parts|
  {
    (k > 0 ==> parts[k] != []) && AllKnown(Names(parts[k]), nodes)
  }

  /** The conditions on one expression apart from the relations themselves. */
  ghost predicate ExpressionOk(e: string, nodes: seq<Node>) {
    |SplitArrow(e)| >= 2 && forall k: nat :: k < |SplitArrow(e)| ==> PartOk(SplitArrow(e), k, nodes)
  }

  ghost predicate ExpressionsOk(es: seq<string>, nodes: seq<Node>) {
    forall x :: 0 <= x < |es| ==> ExpressionOk(es[x], nodes)
  }

  lemma RelateAllGood(s: string, targets: seq<string>, nodes: seq<Node>)
    ensures AllGood(RelateAll(s, targets), nodes) <==> NoSelf(EdgesTo(s, targets))
  {
    var cs, es := RelateAll(s, targets), EdgesTo(s, targets);
    if AllGood(cs, nodes) {
      forall e | e in es ensures e.source != e.target {
        var i :| 0 <= i < |es| && es[i] == e;
        assert cs[i] in cs;
      }
    }
    if NoSelf(es) {
      forall c | c in cs ensures Good(c, nodes) {
        var i :| 0 <= i < |cs| && cs[i] == c;
        assert es[i] in es;
      }
    }
  }

  lemma SourceChecksGood(sources: seq<string>, targets: seq<string>, nodes: seq<Node>)
    ensures AllGood(Flat(SourceChecks(sources, targets), 0), nodes)
            <==> AllKnown(sources, nodes) && NoSelf(Product(sources, targets))
  {
    var cs, es := SourceChecks(sources, targets), EdgesOf(sources, targets);
    FlatGood(cs, nodes);
    FlatNoSelf(es);
    forall k | 0 <= k < |cs| ensures AllGood(cs[k], nodes) <==> IsKnown(nodes, sources[k]) && NoSelf(es[k]) {
      GoodAfter(Known(sources[k]), RelateAll(sources[k], targets), nodes);
      RelateAllGood(sources[k], targets, nodes);
    }
  }

  /** What the checks of part `i` amount to: the part after it, if any, has names. */
  ghost predicate PartChecked(parts: seq<string>, i: nat, nodes: seq<Node>)
    requires i < |parts|
  {
    (i + 1 < |parts| ==> parts[i + 1] != []) && AllKnown(Names(parts[i]), nodes)
  }

  lemma PartCheckGood(parts: seq<string>, i: nat, nodes: seq<Node>)
    requires i < |parts|
    ensures AllGood(PartCheck(parts, i), nodes) <==> PartChecked(parts, i, nodes) && NoSelf(PartEdges(parts)[i])
  {
    var checks := Flat(SourceChecks(Names(parts[i]), TargetsOf(parts, i)), 0);
    GoodAfter(Target(parts[i], i + 1 < |parts| && parts[i + 1] == []), checks, nodes);
    SourceChecksGood(Names(parts[i]), TargetsOf(parts, i), nodes);
  }

  lemma PartsChecked(parts: seq<string>, nodes: seq<Node>)
    ensures (forall i: nat :: i < |parts| ==> PartChecked(parts, i, nodes))
            <==> forall k: nat :: k < |parts| ==> PartOk(parts, k, nodes)
  {
    if forall i: nat :: i < |parts| ==> PartChecked(parts, i, nodes) {
      forall k: nat | k < |parts| ensures PartOk(parts, k, nodes) {
        assert PartChecked(parts, k, nodes);
        assert k > 0 ==> PartChecked(parts, k - 1, nodes);
      }
    }
    if forall k: nat :: k < |parts| ==> PartOk(parts, k, nodes) {
      forall i: nat | i < |parts| ensures PartChecked(parts, i, nodes) {
        assert PartOk(parts, i, nodes);
        assert i + 1 < |parts| ==> PartOk(parts, i + 1, nodes);
      }
    }
  }

  lemma ExpressionGood(e: string, nodes: seq<Node>)
    ensures AllGood(ExpressionCheck(e), nodes) <==> ExpressionOk(e, nodes) && NoSelf(ChainEdges(SplitArrow(e)))
  {
    var parts := SplitArrow(e);
    var cs, es := PartChecks(parts), PartEdges(parts);
    GoodAfter(Parts(|parts|), Flat(cs, 0), nodes);
    FlatGood(cs, nodes);
    FlatNoSelf(es);
    forall i: nat | i < |parts| ensures AllGood(cs[i], nodes) <==> PartChecked(parts, i, nodes) && NoSelf(es[i]) {
      PartCheckGood(parts, i, nodes);
    }
    PartsChecked(parts, nodes);
  }

  lemma ScriptGood(es: seq<string>, nodes: seq<Node>)
    ensures AllGood(Flat(ExpressionChecks(es), 0), nodes) <==> ExpressionsOk(es, nodes) && NoSelf(TextEdges(es))
  {
    var cs, all := ExpressionChecks(es), ExpressionEdges(es);
    FlatGood(cs, nodes);
    FlatNoSelf(all);
    forall x | 0 <= x < |es| ensures AllGood(cs[x], nodes) <==> ExpressionOk(es[x], nodes) && NoSelf(all[x]) {
      ExpressionGood(es[x], nodes);
    }
  }

  // ---------------------------------------------------------------- names

  /** The characters of the names in a flow text: not blank, and no separator of the text. */
  predicate NameChar(c: char) { !IsSpace(c) && c != '|' && c != '&' }

  ghost predicate NameChars(s: string) { forall c :: c in s ==> NameChar(c) }

  lemma PartNames(part: string, s: string)
    requires s in Names(part) && forall c :: c in part ==> !IsSpace(c) && c != '|'
    ensures NameChars(s)
  {
    var i :| 0 <= i < |Names(part)| && Names(part)[i] == s;
    forall c | c in s ensures NameChar(c) {
      SplitCharMembers(part, '&', i, c);
    }
  }

  lemma PartsOfText(v: string, x: nat, k: nat, c: char)
    requires x < |Expressions(v)| && k < |SplitArrow(Expressions(v)[x])|
    requires c in SplitArrow(Expressions(v)[x])[k]
    ensures !IsSpace(c) && c != '|'
  {
    SplitArrowMembers(Expressions(v)[x], k, c);
    SplitCharMembers(Strip(v), '|', x, c);
    StripMembers(v, c);
  }

  lemma BetweenNames(parts: seq<string>, k: nat, e: Edge)
    requires forall i, c :: 0 <= i < |parts| && c in parts[i] ==> !IsSpace(c) && c != '|'
    requires Between(parts, k, e)
    ensures NameChars(e.source) && NameChars(e.target)
  {
    PartNames(parts[k], e.source);
    PartNames(parts[k + 1], e.target);
  }

  /** Every name in the relations of a text is made of name characters. */
  lemma TextNames(v: string, e: Edge)
    requires e in TextEdges(Expressions(v))
    ensures NameChars(e.source) && NameChars(e.target)
  {
    TextHas(Expressions(v), e);
    var x: nat :| Stated(Expressions(v), x, e);
    var parts := SplitArrow(Expressions(v)[x]);
    var k: nat :| Between(parts, k, e);
    forall i: nat, c | i < |parts| && c in parts[i] ensures !IsSpace(c) && c != '|' {
      PartsOfText(v, x, i, c);
    }
    BetweenNames(parts, k, e);
  }

  lemma TextHasNoBlanks(v: string)
    ensures NoBlanks(TextEdges(Expressions(v)))
  {
    forall e | e in TextEdges(Expressions(v)) ensures NoBlank(e) {
      TextNames(v, e);
    }
  }

  // ---------------------------------------------------------------- the meaning of a flow

  /**
   * A flow is accepted exactly when it is not empty, its expressions relate known nodes, none to itself,
   * and no relation is stated twice. It then groups its relations and adds those that are new to `edges`.
   */
  lemma AcceptedIff(name: string, v: string, edges: seq<Edge>, nodes: seq<Node>)
    ensures ParseFlow(name, v, edges, nodes).Ok? <==>
              && v != ""
              && ExpressionsOk(Expressions(v), nodes)
              && NoSelf(TextEdges(Expressions(v)))
              && Distinct(TextEdges(Expressions(v)))
    ensures ParseFlow(name, v, edges, nodes).Ok? ==>
              && ParseFlow(name, v, edges, nodes).value.flow == AddAllToFlow([], TextEdges(Expressions(v)))
              && ParseFlow(name, v, edges, nodes).value.edges == AddAllEdges(edges, TextEdges(Expressions(v)))
  {
    var es := Expressions(v);
    TextHasNoBlanks(v);
    ScriptRelations(es);
    ScriptGood(es, nodes);
    RunScriptMeaning(Parse([], {}, edges), Script(v), nodes, {});
  }

  /** The edges after a flow: those before it, and each relation it states, none twice. */
  lemma {:induction false} AddedEdges(edges: seq<Edge>, es: seq<Edge>)
    requires Distinct(edges)
    ensures edges <= AddAllEdges(edges, es) && Distinct(AddAllEdges(edges, es))
    ensures forall e :: e in AddAllEdges(edges, es) <==> e in edges || e in es
    decreases |es|
  {
    if es != [] {
      AddedEdges(AddEdge(edges, es[0]), es[1..]);
      assert es == [es[0]] + es[1..];
    }
  }
}
