/** Writing a grouped flow as text and parsing the text again. */
module FlowRoundTrip {
  import opened Sequences
  import opened FlowText
  import opened StreamingFlow
  import opened FlowMeaning
  import opened FlowGroups

  /** One entry as text: "s >> t1&t2". */
  function PrintNode(f: FlowNode): string { f.source + " >> " + Join(f.next, "&") }

  function PrintNodes(flow: seq<FlowNode>): (r: seq<string>)
    ensures |r| == |flow|
  {
    seq(|flow|, k requires 0 <= k < |flow| => PrintNode(flow[k]))
  }

  function PrintFlow(flow: seq<FlowNode>): string { Join(PrintNodes(flow), " | ") }

  // ---------------------------------------------------------------- arrows in names

  predicate ArrowAt(s: string, i: int) {
    0 <= i && i + 1 < |s| && s[i] == '>' && s[i + 1] == '>'
  }

  ghost predicate NoArrow(s: string) {
    forall i :: !ArrowAt(s, i)
  }

  lemma NoArrowSlice(s: string, a: nat, b: nat)
    requires a <= b <= |s| && NoArrow(s)
    ensures NoArrow(s[a..b])
  {
    forall i ensures !ArrowAt(s[a..b], i) {
      assert !ArrowAt(s, a + i);
    }
  }

  lemma NoArrowTail(s: string)
    requires s != [] && NoArrow(s)
    ensures NoArrow(s[1..])
  {
    NoArrowSlice(s, 1, |s|);
    assert s[1..] == s[1..|s|];
  }

  predicate EndsInHead(s: string) { s != [] && s[|s| - 1] == '>' }

  lemma {:induction false} SplitArrowNone(s: string)
    requires NoArrow(s)
    ensures SplitArrow(s) == [s]
  {
    if s != [] {
      NoArrowTail(s);
      SplitArrowNone(s[1..]);
      assert !ArrowAt(s, 0);
      assert s == [s[0]] + s[1..];
    }
  }

  /** A first part that does not end in '>' is split off whole. */
  lemma {:induction false} SplitArrowFirst(a: string, t: string)
    requires NoArrow(a) && !EndsInHead(a)
    ensures SplitArrow(a + ARROW + t) == [a] + SplitArrow(t)
  {
    var s := a + ARROW + t;
    if a == [] {
      assert s[2..] == t;
    } else {
      NoArrowTail(a);
      SplitArrowFirst(a[1..], t);
      assert s[1..] == a[1..] + ARROW + t;
      assert !ArrowAt(a, 0);
      assert |a| >= 2 ==> s[1] == a[1];
      assert a == [a[0]] + a[1..];
    }
  }

  /** No part of a split holds an arrow; a part that is followed by another does not end in '>'. */
  lemma {:induction false} SplitArrowParts(s: string, i: nat)
    requires i < |SplitArrow(s)|
    ensures NoArrow(SplitArrow(s)[i])
    ensures i + 1 < |SplitArrow(s)| ==> !EndsInHead(SplitArrow(s)[i])
  {
    if |s| >= 2 && s[0] == '>' && s[1] == '>' {
      if i > 0 {
        SplitArrowParts(s[2..], i - 1);
      }
    } else if s != [] {
      SplitArrowParts(s[1..], i);
      if i == 0 {
        SplitArrowHead(s[1..]);
        NoArrowCons(s[0], SplitArrow(s[1..])[0]);
      }
    }
  }

  lemma SplitArrowHead(s: string)
    ensures SplitArrow(s)[0] != [] ==> s != [] && SplitArrow(s)[0][0] == s[0]
    ensures SplitArrow(s)[0] == [] && |SplitArrow(s)| > 1 ==> s != [] && s[0] == '>'
  {
  }

  lemma NoArrowCons(c: char, s: string)
    requires NoArrow(s) && (s != [] ==> !(c == '>' && s[0] == '>'))
    ensures NoArrow([c] + s)
  {
    forall i ensures !ArrowAt([c] + s, i) {
      assert !ArrowAt(s, i - 1);
    }
  }

  lemma {:induction false} SplitCharHead(s: string, c: char)
    ensures SplitChar(s, c)[0] != [] ==> s != [] && SplitChar(s, c)[0][0] == s[0]
  {
  }

  /** The names of a part without arrows hold none. */
  lemma {:induction false} SplitCharNoArrow(s: string, c: char, i: nat)
    requires NoArrow(s) && i < |SplitChar(s, c)|
    ensures NoArrow(SplitChar(s, c)[i])
  {
    if s != [] {
      NoArrowTail(s);
      var r := SplitChar(s[1..], c);
      if s[0] == c {
        if i > 0 {
          SplitCharNoArrow(s[1..], c, i - 1);
        }
      } else {
        SplitCharNoArrow(s[1..], c, i);
        if i == 0 {
          SplitCharHead(s[1..], c);
          assert !ArrowAt(s, 0);
          NoArrowCons(s[0], r[0]);
        }
      }
    }
  }

  // ---------------------------------------------------------------- flows worth writing

  /** What a text can hold as a name. */
  ghost predicate Name(s: string) { s != "" && NameChars(s) && NoArrow(s) }

  ghost predicate NodeOk(f: FlowNode, nodes: seq<Node>) {
    && f.next != []
    && Name(f.source) && (forall t :: t in f.next ==> Name(t))
    && IsKnown(nodes, f.source) && AllKnown(f.next, nodes)
  }

  /** A grouped flow whose entries could come from a text. */
  ghost predicate FlowOk(flow: seq<FlowNode>, nodes: seq<Node>) {
    && flow != [] && DistinctSources(flow)
    && (forall k :: 0 <= k < |flow| ==> NodeOk(flow[k], nodes))
    && NoSelf(Flatten(flow)) && Distinct(Flatten(flow))
  }

  // ---------------------------------------------------------------- the text of a flow

  /** An entry without blanks: "s>>t1&t2". */
  function Compact(f: FlowNode): string { f.source + ARROW + Join(f.next, "&") }

  function Compacts(flow: seq<FlowNode>): (r: seq<string>)
    ensures |r| == |flow|
  {
    seq(|flow|, k requires 0 <= k < |flow| => Compact(flow[k]))
  }

  lemma {:induction false} JoinChars(parts: seq<string>, c: char, x: char)
    requires x in Join(parts, [c])
    ensures x == c || exists i :: 0 <= i < |parts| && x in parts[i]
  {
    if |parts| > 1 && x !in parts[0] && x != c {
      JoinChars(parts[1..], c, x);
      var i :| 0 <= i < |parts[1..]| && x in parts[1..][i];
      assert x in parts[i + 1];
    } else {
      assert x in parts[0] || x == c;
    }
  }

  lemma CompactChars(f: FlowNode, nodes: seq<Node>, x: char)
    requires NodeOk(f, nodes) && x in Compact(f)
    ensures !IsSpace(x) && x != '|'
  {
    if x !in f.source && x !in ARROW {
      JoinChars(f.next, '&', x);
      if x != '&' {
        var i :| 0 <= i < |f.next| && x in f.next[i];
        assert Name(f.next[i]);
      }
    }
  }

  lemma StripNode(f: FlowNode, nodes: seq<Node>)
    requires NodeOk(f, nodes)
    ensures Strip(PrintNode(f)) == Compact(f)
  {
    var names := Join(f.next, "&");
    forall c | c in f.source || c in names ensures !IsSpace(c) {
      assert c in Compact(f);
      CompactChars(f, nodes, c);
    }
    StripAppend(f.source + " >> ", names);
    StripAppend(f.source, " >> ");
    StripClean(f.source);
    StripClean(names);
    StripArrow();
  }

  lemma StripArrow()
    ensures Strip(" >> ") == ARROW && Strip(" | ") == "|"
  {
    assert " >> " == " " + (">>" + " ") && " | " == " " + ("|" + " ");
    StripAppend(" ", ">>" + " ");
    StripAppend(">>", " ");
    StripAppend(" ", "|" + " ");
    StripAppend("|", " ");
    StripClean(">>");
    StripClean("|");
    assert " "[1..] == "";
    assert Strip(" ") == "";
  }

  /** The expressions of a printed flow are its entries. */
  lemma PrintedExpressions(flow: seq<FlowNode>, nodes: seq<Node>)
    requires flow != [] && forall k :: 0 <= k < |flow| ==> NodeOk(flow[k], nodes)
    ensures Expressions(PrintFlow(flow)) == Compacts(flow)
  {
    forall k | 0 <= k < |flow| ensures Compacts(flow)[k] == Strip(PrintNodes(flow)[k]) {
      StripNode(flow[k], nodes);
    }
    StripJoin(PrintNodes(flow), Compacts(flow), " | ");
    StripArrow();
    forall p | p in Compacts(flow) ensures '|' !in p {
      var k :| 0 <= k < |flow| && Compacts(flow)[k] == p;
      if '|' in Compact(flow[k]) {
        CompactChars(flow[k], nodes, '|');
      }
    }
    SplitJoin(Compacts(flow), '|');
  }

  lemma {:induction false} JoinNames(names: seq<string>)
    requires names != [] && forall t :: t in names ==> Name(t)
    ensures Join(names, "&") != "" && NoArrow(Join(names, "&"))
  {
    assert Name(names[0]);
    if |names| > 1 {
      assert forall t :: t in names[1..] ==> t in names;
      JoinNames(names[1..]);
      NoArrowAround(names[0], Join(names[1..], "&"));
    }
  }

  lemma NoArrowAround(a: string, b: string)
    requires NoArrow(a) && NoArrow(b)
    ensures NoArrow(a + "&" + b)
  {
    var s := a + "&" + b;
    forall i ensures !ArrowAt(s, i) {
      assert !ArrowAt(a, i) && !ArrowAt(b, i - |a| - 1);
    }
  }

  lemma NamesJoined(names: seq<string>)
    requires names != [] && forall t :: t in names ==> Name(t)
    ensures Names(Join(names, "&")) == names
  {
    forall t | t in names ensures '&' !in t {
      assert Name(t);
      assert '&' in t ==> NameChar('&');
    }
    SplitJoin(names, '&');
  }

  lemma OneName(s: string)
    requires NameChars(s)
    ensures Names(s) == [s]
  {
    assert '&' in s ==> NameChar('&');
    SplitCharPlain(s, '&');
  }

  // ---------------------------------------------------------------- entries that read back

  /** An entry whose source does not end in '>' reads back as its source and its targets. */
  lemma CompactParts(f: FlowNode, nodes: seq<Node>)
    requires NodeOk(f, nodes) && !EndsInHead(f.source)
    ensures SplitArrow(Compact(f)) == [f.source, Join(f.next, "&")]
  {
    JoinNames(f.next);
    SplitArrowFirst(f.source, Join(f.next, "&"));
    SplitArrowNone(Join(f.next, "&"));
  }

  lemma CompactEdges(f: FlowNode, nodes: seq<Node>)
    requires NodeOk(f, nodes) && !EndsInHead(f.source)
    ensures ChainEdges(SplitArrow(Compact(f))) == EdgesTo(f.source, f.next)
  {
    CompactParts(f, nodes);
    OneName(f.source);
    NamesJoined(f.next);
    ChainOfTwo(f.source, Join(f.next, "&"), f.next);
  }

  lemma ChainOfTwo(s: string, t: string, targets: seq<string>)
    requires Names(s) == [s] && Names(t) == targets
    ensures ChainEdges([s, t]) == EdgesTo(s, targets)
  {
    var es := PartEdges([s, t]);
    assert es[0] == Product([s], targets) && es[1] == Product(targets, []);
    ProductOfOne(s, targets);
    ProductNothing(targets);
    assert Flat(es, 2) == [];
    assert Flat(es, 1) == es[1] + [];
    assert Flat(es, 0) == es[0] + Flat(es, 1);
  }

  lemma ProductOfOne(s: string, targets: seq<string>)
    ensures Product([s], targets) == EdgesTo(s, targets)
  {
    var es := EdgesOf([s], targets);
    assert Flat(es, 1) == [];
    assert Flat(es, 0) == es[0] + Flat(es, 1);
  }

  lemma ProductNothing(sources: seq<string>)
    ensures Product(sources, []) == []
  {
    if Product(sources, []) != [] {
      ProductHas(sources, [], Product(sources, [])[0]);
    }
  }

  lemma CompactOk(f: FlowNode, nodes: seq<Node>)
    requires NodeOk(f, nodes) && !EndsInHead(f.source)
    ensures ExpressionOk(Compact(f), nodes)
  {
    CompactParts(f, nodes);
    OneName(f.source);
    NamesJoined(f.next);
    JoinNames(f.next);
    var parts := [f.source, Join(f.next, "&")];
    assert PartOk(parts, 0, nodes) && PartOk(parts, 1, nodes);
  }

  // ---------------------------------------------------------------- entries that do not

  /** From an expression that parses, an entry is never read back with a source that ends in '>'. */
  lemma CompactSource(f: FlowNode, nodes: seq<Node>, k: nat, e: Edge)
    requires NodeOk(f, nodes) && ExpressionOk(Compact(f), nodes) && Between(SplitArrow(Compact(f)), k, e)
    ensures !EndsInHead(e.source)
  {
    if EndsInHead(f.source) {
      HeadParts(f, nodes);
      var u := f.source[..|f.source| - 1];
      assert PartOk(SplitArrow(Compact(f)), 1, nodes);
      OneName(u);
    } else {
      CompactParts(f, nodes);
      OneName(f.source);
    }
  }

  /** The '>' a source ends in moves to what follows the arrow. */
  lemma HeadParts(f: FlowNode, nodes: seq<Node>)
    requires NodeOk(f, nodes) && EndsInHead(f.source)
    ensures var u := f.source[..|f.source| - 1];
            && NameChars(u) && !EndsInHead(u)
            && SplitArrow(Compact(f)) == [u] + SplitArrow(">" + Join(f.next, "&"))
    ensures |SplitArrow(">" + Join(f.next, "&"))| == 1 || SplitArrow(">" + Join(f.next, "&"))[0] == []
  {
    var n := |f.source| - 1;
    var u, rest := f.source[..n], Join(f.next, "&");
    assert !ArrowAt(f.source, n - 1);
    NoArrowSlice(f.source, 0, n);
    assert u == f.source[0..n];
    assert f.source == u + ">";
    assert u + ">" + ARROW + rest == u + ARROW + (">" + rest);
    SplitArrowFirst(u, ">" + rest);
    JoinNames(f.next);
    if rest[0] != '>' {
      NoArrowCons('>', rest);
      SplitArrowNone(">" + rest);
    }
  }

  // ---------------------------------------------------------------- round trip

  lemma PrintedIsNotEmpty(flow: seq<FlowNode>)
    requires flow != []
    ensures PrintFlow(flow) != ""
  {
    var ps := PrintNodes(flow);
    assert ps[0] == PrintNode(flow[0]) && |ps[0]| >= 4;
  }

  lemma ReadsBack(name: string, flow: seq<FlowNode>, edges: seq<Edge>, nodes: seq<Node>)
    requires FlowOk(flow, nodes) && forall k :: 0 <= k < |flow| ==> !EndsInHead(flow[k].source)
    ensures ParseFlow(name, PrintFlow(flow), edges, nodes).Ok?
    ensures ParseFlow(name, PrintFlow(flow), edges, nodes).value.flow == flow
  {
    var v, es := PrintFlow(flow), Compacts(flow);
    PrintedExpressions(flow, nodes);
    forall k | 0 <= k < |flow|
      ensures ExpressionEdges(es)[k] == NodeEdges(flow)[k] && ExpressionOk(es[k], nodes)
    {
      CompactEdges(flow[k], nodes);
      CompactOk(flow[k], nodes);
    }
    assert ExpressionEdges(es) == NodeEdges(flow);
    assert TextEdges(es) == Flatten(flow);
    PrintedIsNotEmpty(flow);
    AcceptedIff(name, v, edges, nodes);
    Regroup(flow);
  }

  lemma SourceFromText(name: string, flow: seq<FlowNode>, edges: seq<Edge>, nodes: seq<Node>, k: nat)
    requires FlowOk(flow, nodes) && k < |flow|
    requires ParseFlow(name, PrintFlow(flow), edges, nodes).Ok?
    requires ParseFlow(name, PrintFlow(flow), edges, nodes).value.flow == flow
    ensures !EndsInHead(flow[k].source)
  {
    var v, es := PrintFlow(flow), Compacts(flow);
    AcceptedIff(name, v, edges, nodes);
    PrintedExpressions(flow, nodes);
    var all := TextEdges(es);
    FlowGroupsRelations(all);
    assert flow[k].source in SourcesOf(all);
    SourceHasTarget(all, flow[k].source);
    var e :| e in all && e.source == flow[k].source;
    TextHas(es, e);
    var x: nat :| Stated(es, x, e);
    var i: nat :| Between(SplitArrow(es[x]), i, e);
    assert ExpressionOk(es[x], nodes);
    CompactSource(flow[x], nodes, i, e);
  }

  /** A grouped flow reads back from its text exactly when none of its sources ends in '>'. */
  lemma RoundTripIff(name: string, flow: seq<FlowNode>, edges: seq<Edge>, nodes: seq<Node>)
    requires FlowOk(flow, nodes)
    ensures (match ParseFlow(name, PrintFlow(flow), edges, nodes) case Err(_) => false case Ok(p) => p.flow == flow)
            <==> forall k :: 0 <= k < |flow| ==> !EndsInHead(flow[k].source)
  {
    if forall k :: 0 <= k < |flow| ==> !EndsInHead(flow[k].source) {
      ReadsBack(name, flow, edges, nodes);
    }
    if ParseFlow(name, PrintFlow(flow), edges, nodes).Ok? {
      if ParseFlow(name, PrintFlow(flow), edges, nodes).value.flow == flow {
        forall k: nat | k < |flow| ensures !EndsInHead(flow[k].source) {
          SourceFromText(name, flow, edges, nodes, k);
        }
      }
    }
  }

  // ---------------------------------------------------------------- accepted flows

  /** Nodes have names, as the request format demands. */
  ghost predicate NodesNamed(nodes: seq<Node>) {
    forall n :: n in nodes ==> n.nodeName != ""
  }

  lemma PartName(part: string, s: string)
    requires s in Names(part) && NoArrow(part)
    ensures NoArrow(s)
  {
    var i :| 0 <= i < |Names(part)| && Names(part)[i] == s;
    SplitCharNoArrow(part, '&', i);
  }

  /** A relation of an accepted text joins names of known nodes. */
  lemma TextRelation(v: string, e: Edge, nodes: seq<Node>)
    requires e in TextEdges(Expressions(v)) && ExpressionsOk(Expressions(v), nodes) && NodesNamed(nodes)
    ensures Name(e.source) && Name(e.target) && IsKnown(nodes, e.source) && IsKnown(nodes, e.target)
  {
    TextNames(v, e);
    TextHas(Expressions(v), e);
    var x: nat :| Stated(Expressions(v), x, e);
    var k: nat :| Between(SplitArrow(Expressions(v)[x]), k, e);
    assert ExpressionOk(Expressions(v)[x], nodes);
    BetweenOk(Expressions(v)[x], SplitArrow(Expressions(v)[x]), k, e, nodes);
  }

  lemma BetweenOk(t: string, parts: seq<string>, k: nat, e: Edge, nodes: seq<Node>)
    requires parts == SplitArrow(t) && ExpressionOk(t, nodes) && Between(parts, k, e) && NodesNamed(nodes)
    ensures NoArrow(e.source) && NoArrow(e.target)
    ensures IsKnown(nodes, e.source) && IsKnown(nodes, e.target) && e.source != "" && e.target != ""
  {
    SplitArrowParts(t, k);
    SplitArrowParts(t, k + 1);
    PartName(parts[k], e.source);
    PartName(parts[k + 1], e.target);
    assert PartOk(parts, k, nodes) && PartOk(parts, k + 1, nodes);
  }

  lemma {:induction false} TargetsDistinct(es: seq<Edge>, s: string)
    requires Distinct(es)
    ensures Distinct(TargetsFrom(es, s))
  {
    if es != [] {
      var before, last := es[..|es| - 1], es[|es| - 1];
      TargetsDistinct(before, s);
      TargetsHave(before, s, last.target);
    }
  }

  lemma {:induction false} FlattenDistinct(flow: seq<FlowNode>, i: nat)
    requires i <= |flow| && DistinctSources(flow)
    requires forall k :: 0 <= k < |flow| ==> Distinct(flow[k].next)
    ensures Distinct(Flat(NodeEdges(flow), i))
    decreases |flow| - i
  {
    if i < |flow| {
      FlattenDistinct(flow, i + 1);
      var first, rest := NodeEdges(flow)[i], Flat(NodeEdges(flow), i + 1);
      forall e | e in rest ensures e !in first {
        FlatHas(NodeEdges(flow), i + 1, e);
      }
      DistinctAppend(first, rest);
    }
  }

  lemma DistinctAppend(a: seq<Edge>, b: seq<Edge>)
    requires Distinct(a) && Distinct(b) && forall e :: e in b ==> e !in a
    ensures Distinct(a + b)
  {
    forall i, j | 0 <= i < j < |a + b| ensures (a + b)[i] != (a + b)[j] {
      if i < |a| <= j {
        assert (a + b)[j] in b && (a + b)[i] in a;
      }
    }
  }

  /** The flow of an accepted text could come from a text: its names are names of known nodes. */
  lemma AcceptedFlowOk(name: string, v: string, edges: seq<Edge>, nodes: seq<Node>)
    requires ParseFlow(name, v, edges, nodes).Ok? && NodesNamed(nodes)
    ensures FlowOk(ParseFlow(name, v, edges, nodes).value.flow, nodes)
  {
    AcceptedIff(name, v, edges, nodes);
    var es := TextEdges(Expressions(v));
    var flow := AddAllToFlow([], es);
    FlowGroupsRelations(es);
    forall e: Edge ensures e in Flatten(flow) <==> e in es {
      FlattenGroups(es, e);
    }
    forall k: nat | k < |flow| ensures NodeOk(flow[k], nodes) && Distinct(flow[k].next) {
      FlattenGroups(es, Edge("", ""));
      TargetsDistinct(es, flow[k].source);
      forall t | t in flow[k].next
        ensures Name(flow[k].source) && Name(t) && IsKnown(nodes, flow[k].source) && IsKnown(nodes, t)
      {
        TargetsHave(es, flow[k].source, t);
        TextRelation(v, Edge(flow[k].source, t), nodes);
      }
      assert flow[k].next[0] in flow[k].next;
    }
    FlattenDistinct(flow, 0);
    SomeRelation(v, nodes);
  }

  /** A text whose expressions are in order states at least one relation. */
  lemma SomeRelation(v: string, nodes: seq<Node>)
    requires ExpressionsOk(Expressions(v), nodes)
    ensures AddAllToFlow([], TextEdges(Expressions(v))) != []
  {
    var es := Expressions(v);
    assert ExpressionOk(es[0], nodes);
    var parts := SplitArrow(es[0]);
    var e := Edge(Names(parts[0])[0], Names(parts[1])[0]);
    assert Between(parts, 0, e);
    assert Stated(es, 0, e);
    TextHas(es, e);
    FlowGroupsRelations(TextEdges(es));
    SourcesAreDistinct(TextEdges(es));
  }

  /** Writing an accepted flow and parsing it again gives the flow back, unless a source ends in '>'. */
  lemma AcceptedRoundTrip(name: string, v: string, edges: seq<Edge>, nodes: seq<Node>)
    requires ParseFlow(name, v, edges, nodes).Ok? && NodesNamed(nodes)
    ensures var flow := ParseFlow(name, v, edges, nodes).value.flow;
            (match ParseFlow(name, PrintFlow(flow), edges, nodes) case Err(_) => false case Ok(p) => p.flow == flow)
            <==> forall k :: 0 <= k < |flow| ==> !EndsInHead(flow[k].source)
  {
    AcceptedFlowOk(name, v, edges, nodes);
    RoundTripIff(name, ParseFlow(name, v, edges, nodes).value.flow, edges, nodes);
  }

  /** The relations of "a&b>>c". */
  lemma PairText(a: string, b: string, c: string, v: string)
    requires Name(a) && Name(b) && Name(c) && !EndsInHead(b) && v == a + "&" + b + ARROW + c
    ensures Expressions(v) == [v] && SplitArrow(v) == [a + "&" + b, c]
    ensures Names(a + "&" + b) == [a, b] && Names(c) == [c]
  {
    forall x | x in v ensures !IsSpace(x) && x != '|' {
      assert x in a || x in b || x in c || x == '&' || x == '>';
    }
    StripClean(v);
    SplitCharPlain(v, '|');
    NoArrowAround(a, b);
    SplitArrowFirst(a + "&" + b, c);
    SplitArrowNone(c);
    assert a + ['&'] + b == a + "&" + b;
    assert '&' !in a by {
      assert '&' in a ==> NameChar('&');
    }
    SplitCharAfter(a, '&', b);
    OneName(b);
    OneName(c);
  }

  lemma PairEdges(a: string, b: string, c: string, part: string)
    requires Names(part) == [a, b] && Names(c) == [c]
    ensures ChainEdges([part, c]) == [Edge(a, c), Edge(b, c)]
  {
    var es := PartEdges([part, c]);
    assert es[0] == Product([a, b], [c]) && es[1] == Product([c], []);
    ProductNothing([c]);
    assert Flat(es, 1) == es[1] + Flat(es, 2) && Flat(es, 0) == es[0] + Flat(es, 1);
    var ps := EdgesOf([a, b], [c]);
    assert ps[0] == [Edge(a, c)] && ps[1] == [Edge(b, c)];
    assert Flat(ps, 1) == ps[1] + Flat(ps, 2) && Flat(ps, 0) == ps[0] + Flat(ps, 1);
  }

  /** The exception is real: with nodes "a>", "b" and "c", the text "a>&b>>c" is accepted and does not read back. */
  lemma HeadIsLost(name: string, a: string, b: string, c: string, edges: seq<Edge>, nodes: seq<Node>)
    requires Name(a) && Name(b) && Name(c) && EndsInHead(a) && !EndsInHead(b) && a != b && a != c && b != c
    requires IsKnown(nodes, a) && IsKnown(nodes, b) && IsKnown(nodes, c) && NodesNamed(nodes)
    ensures match ParseFlow(name, a + "&" + b + ARROW + c, edges, nodes)
            case Err(_) => false
            case Ok(p) =>
              match ParseFlow(name, PrintFlow(p.flow), edges, nodes) case Err(_) => true case Ok(q) => q.flow != p.flow
  {
    var part, v := a + "&" + b, a + "&" + b + ARROW + c;
    PairText(a, b, c, v);
    PairEdges(a, b, c, part);
    PairAccepted(v, part, a, b, c, nodes);
    SourceInFlow(TextEdges([v]), Edge(a, c));
    AcceptedIff(name, v, edges, nodes);
    AcceptedRoundTrip(name, v, edges, nodes);
  }

  lemma OneExpression(v: string)
    ensures TextEdges([v]) == ChainEdges(SplitArrow(v))
  {
    var xs := ExpressionEdges([v]);
    assert xs[0] == ChainEdges(SplitArrow(v));
    assert Flat(xs, 0) == xs[0] + Flat(xs, 1);
  }

  lemma PairOk(parts: seq<string>, a: string, b: string, c: string, nodes: seq<Node>)
    requires |parts| == 2 && Names(parts[0]) == [a, b] && Names(parts[1]) == [c] && parts[1] != ""
    requires IsKnown(nodes, a) && IsKnown(nodes, b) && IsKnown(nodes, c)
    ensures forall k: nat :: k < |parts| ==> PartOk(parts, k, nodes)
  {
    assert PartOk(parts, 0, nodes) && PartOk(parts, 1, nodes);
  }

  lemma SourceInFlow(es: seq<Edge>, e: Edge)
    requires e in es
    ensures exists k :: 0 <= k < |AddAllToFlow([], es)| && AddAllToFlow([], es)[k].source == e.source
  {
    FlowGroupsRelations(es);
    SourcesAreDistinct(es);
    var k :| 0 <= k < |SourcesOf(es)| && SourcesOf(es)[k] == e.source;
    assert AddAllToFlow([], es)[k].source == e.source;
  }

  lemma PairAccepted(v: string, part: string, a: string, b: string, c: string, nodes: seq<Node>)
    requires SplitArrow(v) == [part, c] && Names(part) == [a, b] && Names(c) == [c] && a != b && a != c && b != c
    requires ChainEdges([part, c]) == [Edge(a, c), Edge(b, c)] && c != ""
    requires IsKnown(nodes, a) && IsKnown(nodes, b) && IsKnown(nodes, c)
    ensures ExpressionsOk([v], nodes) && NoSelf(TextEdges([v])) && Distinct(TextEdges([v]))
    ensures Edge(a, c) in TextEdges([v])
  {
    OneExpression(v);
    PairOk(SplitArrow(v), a, b, c, nodes);
    TwoRelations(TextEdges([v]), a, b, c);
  }

  lemma TwoRelations(es: seq<Edge>, a: string, b: string, c: string)
    requires es == [Edge(a, c), Edge(b, c)] && a != b && a != c && b != c
    ensures NoSelf(es) && Distinct(es) && Edge(a, c) in es
  {
    assert es[0] == Edge(a, c);
  }
}
