/** The operator's balancer: which algorithms need a queue, and which queue each one gets. */
module QueueBalancer {
  import opened StableSort
  import opened QueueDiscovery

  // ---------------------------------------------------------------- greedy placement

  function NegCount(q: QueueCount): real { -(q.count as real) }

  /** The first queue of least count. */
  function Least(queues: seq<QueueCount>): (i: nat)
    requires queues != []
    ensures i < |queues|
    ensures forall k :: 0 <= k < |queues| ==> queues[i].count <= queues[k].count
    ensures forall k :: 0 <= k < i ==> queues[i].count < queues[k].count
  {
    if |queues| == 1 then 0
    else
      var i := 1 + Least(queues[1..]);
      if queues[0].count <= queues[i].count then 0 else i
  }

  lemma {:induction false} SortedHeadIsLeast(queues: seq<QueueCount>)
    requires queues != []
    ensures SortDesc(queues, NegCount)[0] == queues[Least(queues)]
  {
    if |queues| > 1 {
      SortedHeadIsLeast(queues[1..]);
    } else {
      assert SortDesc(queues[1..], NegCount) == [];
    }
  }

  function Grow(queues: seq<QueueCount>, i: nat): seq<QueueCount>
    requires i < |queues|
  {
    queues[i := queues[i].(count := queues[i].count + 1)]
  }

  /** The counts after every algorithm has gone to a least-loaded queue. */
  function MatchCounts(queues: seq<QueueCount>, algorithms: seq<string>): (r: seq<QueueCount>)
    ensures |r| == |queues|
    decreases |algorithms|
  {
    if queues == [] || algorithms == [] then queues
    else MatchCounts(Grow(queues, Least(queues)), algorithms[1..])
  }

  /** The ADD actions sent, one per algorithm. */
  function MatchActions(queues: seq<QueueCount>, algorithms: seq<string>): (r: seq<Placement>)
    decreases |algorithms|
  {
    if queues == [] || algorithms == [] then []
    else
      var i := Least(queues);
      [Placement(queues[i].queueId, algorithms[0])] + MatchActions(Grow(queues, i), algorithms[1..])
  }

  ghost predicate DistinctQueues(queues: seq<QueueCount>) {
    forall i, j :: 0 <= i < j < |queues| ==> queues[i].queueId != queues[j].queueId
  }

  function IndexOf(queues: seq<QueueCount>, q: string): (i: nat)
    ensures i <= |queues|
    ensures i < |queues| ==> queues[i].queueId == q
    ensures forall k :: 0 <= k < i ==> queues[k].queueId != q
  {
    if queues == [] || queues[0].queueId == q then 0 else 1 + IndexOf(queues[1..], q)
  }

  /**
   * Sorts anew for every algorithm and takes the head. The `shift` at the limit acts on the sorted copy
   * only, so it has no effect here.
   */
  method MatchAlgorithmsToQueue(algorithms: seq<string>, queues: seq<QueueCount>)
    returns (actions: seq<Placement>, counts: seq<QueueCount>)
    requires DistinctQueues(queues)
    ensures actions == MatchActions(queues, algorithms) && counts == MatchCounts(queues, algorithms)
  {
    actions, counts := [], queues;
    if |algorithms| == 0 || |queues| == 0 {
      return;
    }
    assert algorithms[0..] == algorithms;
    for i := 0 to |algorithms|
      invariant |counts| == |queues| && DistinctQueues(counts)
      invariant actions + MatchActions(counts, algorithms[i..]) == MatchActions(queues, algorithms)
      invariant MatchCounts(counts, algorithms[i..]) == MatchCounts(queues, algorithms)
    {
      MatchTurn(counts, algorithms, i, actions);
      var at := FindAvailableQueue(counts);
      actions := actions + [Placement(counts[at].queueId, algorithms[i])];
      counts := Grow(counts, at);
    }
  }

  /** Sorts by count and finds the head again among the unsorted. */
  method FindAvailableQueue(queues: seq<QueueCount>) returns (at: nat)
    requires DistinctQueues(queues) && queues != []
    ensures at == Least(queues)
  {
    SortedHeadIsLeast(queues);
    var sortedQueues := SortDesc(queues, NegCount);
    var availableQueue := sortedQueues[0];
    at := IndexOf(queues, availableQueue.queueId);
  }

  lemma MatchTurn(queues: seq<QueueCount>, algorithms: seq<string>, i: nat, sent: seq<Placement>)
    requires queues != [] && i < |algorithms|
    ensures var at := Least(queues);
            && MatchCounts(queues, algorithms[i..]) == MatchCounts(Grow(queues, at), algorithms[i + 1..])
            && sent + MatchActions(queues, algorithms[i..]) ==
               (sent + [Placement(queues[at].queueId, algorithms[i])])
               + MatchActions(Grow(queues, at), algorithms[i + 1..])
  {
    assert algorithms[i..][0] == algorithms[i] && algorithms[i..][1..] == algorithms[i + 1..];
  }

  // ---------------------------------------------------------------- what greedy placement achieves

  function MaxCount(queues: seq<QueueCount>): nat {
    if queues == [] then 0
    else
      var rest := MaxCount(queues[1..]);
      if queues[0].count > rest then queues[0].count else rest
  }

  lemma {:induction false} MaxCountIs(queues: seq<QueueCount>)
    ensures forall i :: 0 <= i < |queues| ==> queues[i].count <= MaxCount(queues)
    ensures queues != [] ==> exists i :: 0 <= i < |queues| && queues[i].count == MaxCount(queues)
  {
    if queues != [] {
      MaxCountIs(queues[1..]);
      if queues[0].count < MaxCount(queues) {
        var i :| 0 <= i < |queues[1..]| && queues[1..][i].count == MaxCount(queues[1..]);
        assert queues[i + 1].count == MaxCount(queues);
      }
    }
  }

  lemma {:induction false} SumAtLeast(queues: seq<QueueCount>, m: nat)
    requires forall i :: 0 <= i < |queues| ==> queues[i].count >= m
    ensures SumCounts(queues) >= |queues| * m
  {
    if queues != [] {
      SumAtLeast(queues[1..], m);
      assert |queues| * m == (|queues| - 1) * m + m;
    }
  }

  lemma {:induction false} SumAtMost(queues: seq<QueueCount>, m: nat)
    requires forall i :: 0 <= i < |queues| ==> queues[i].count <= m
    ensures SumCounts(queues) <= |queues| * m
  {
    if queues != [] {
      SumAtMost(queues[1..], m);
      assert |queues| * m == (|queues| - 1) * m + m;
    }
  }

  lemma {:induction false} SumGrow(queues: seq<QueueCount>, i: nat)
    requires i < |queues|
    ensures SumCounts(Grow(queues, i)) == SumCounts(queues) + 1
  {
    if i > 0 {
      SumGrow(queues[1..], i - 1);
      assert Grow(queues, i)[1..] == Grow(queues[1..], i - 1);
    } else {
      assert Grow(queues, i)[1..] == queues[1..];
    }
  }

  /** Every algorithm adds exactly one to the total. */
  lemma {:induction false} MatchSum(queues: seq<QueueCount>, algorithms: seq<string>)
    requires queues != []
    ensures SumCounts(MatchCounts(queues, algorithms)) == SumCounts(queues) + |algorithms|
    decreases |algorithms|
  {
    if algorithms != [] {
      SumGrow(queues, Least(queues));
      MatchSum(Grow(queues, Least(queues)), algorithms[1..]);
    }
  }

  /** No count passes `bound` if none does at first and `bound` queues' worth of room holds the total. */
  lemma {:induction false} MatchWithin(queues: seq<QueueCount>, algorithms: seq<string>, bound: nat)
    requires queues != [] && SumCounts(queues) + |algorithms| <= |queues| * bound
    requires forall i :: 0 <= i < |queues| ==> queues[i].count <= bound
    ensures forall i :: 0 <= i < |queues| ==> MatchCounts(queues, algorithms)[i].count <= bound
    decreases |algorithms|
  {
    if algorithms != [] {
      var i := Least(queues);
      if queues[i].count >= bound {
        SumAtLeast(queues, bound);
        assert false;
      }
      SumGrow(queues, i);
      MatchWithin(Grow(queues, i), algorithms[1..], bound);
    }
  }

  function CeilDiv(a: nat, k: nat): (r: nat)
    requires k > 0
  {
    if a == 0 then 0 else if a <= k then 1 else 1 + CeilDiv(a - k, k)
  }

  /** `CeilDiv` is the quotient rounded up. */
  lemma {:induction false} CeilDivHolds(a: nat, k: nat)
    requires k > 0
    ensures a <= k * CeilDiv(a, k)
    ensures a > 0 ==> k * (CeilDiv(a, k) - 1) < a
  {
    if a > k {
      CeilDivHolds(a - k, k);
      var c := CeilDiv(a - k, k);
      assert k * (1 + c) == k + k * c;
      assert k * c == k + k * (c - 1);
    }
  }

  function Larger(a: nat, b: nat): nat { if a >= b then a else b }

  /** The largest count ends at the larger of the largest at first and the rounded-up average. */
  lemma MatchMaximum(queues: seq<QueueCount>, algorithms: seq<string>)
    requires queues != []
    ensures MaxCount(MatchCounts(queues, algorithms)) <=
            Larger(MaxCount(queues), CeilDiv(SumCounts(queues) + |algorithms|, |queues|))
  {
    var total := SumCounts(queues) + |algorithms|;
    var average := CeilDiv(total, |queues|);
    CeilDivHolds(total, |queues|);
    assert total <= |queues| * average;
    MatchMaximumAverage(queues, algorithms, average);
  }

  lemma MatchMaximumAverage(queues: seq<QueueCount>, algorithms: seq<string>, average: nat)
    requires queues != [] && SumCounts(queues) + |algorithms| <= |queues| * average
    ensures MaxCount(MatchCounts(queues, algorithms)) <= Larger(MaxCount(queues), average)
  {
    var bound := Larger(MaxCount(queues), average);
    ProductMonotone(|queues|, average, bound);
    MatchMaximumWithin(queues, algorithms, bound);
  }

  lemma MatchMaximumWithin(queues: seq<QueueCount>, algorithms: seq<string>, bound: nat)
    requires queues != [] && MaxCount(queues) <= bound
    requires SumCounts(queues) + |algorithms| <= |queues| * bound
    ensures MaxCount(MatchCounts(queues, algorithms)) <= bound
  {
    MaxCountIs(queues);
    MatchWithin(queues, algorithms, bound);
    MaxCountIs(MatchCounts(queues, algorithms));
  }

  lemma ProductMonotone(k: nat, a: nat, b: nat)
    requires a <= b
    ensures k * a <= k * b
  {
  }

  /** No other way of placing the same number of algorithms has a smaller largest count. */
  lemma MatchIsOptimal(queues: seq<QueueCount>, algorithms: seq<string>, other: seq<QueueCount>)
    requires queues != [] && |other| == |queues|
    requires forall i :: 0 <= i < |queues| ==> other[i].count >= queues[i].count
    requires SumCounts(other) == SumCounts(queues) + |algorithms|
    ensures MaxCount(MatchCounts(queues, algorithms)) <= MaxCount(other)
  {
    MaxCountIs(other);
    MaxCountIs(queues);
    SumAtMost(other, MaxCount(other));
    MatchMaximumWithin(queues, algorithms, MaxCount(other));
  }

  /** The limit is kept on every queue if and only if the algorithms fit into the free room. */
  lemma MatchKeepsLimitIff(queues: seq<QueueCount>, algorithms: seq<string>, limit: nat)
    requires queues != [] && forall i :: 0 <= i < |queues| ==> queues[i].count < limit
    ensures (forall i :: 0 <= i < |queues| ==> MatchCounts(queues, algorithms)[i].count <= limit)
            <==> |algorithms| <= |queues| * limit - SumCounts(queues)
  {
    if |algorithms| <= |queues| * limit - SumCounts(queues) {
      MatchWithin(queues, algorithms, limit);
    } else {
      MatchSum(queues, algorithms);
      if forall i :: 0 <= i < |queues| ==> MatchCounts(queues, algorithms)[i].count <= limit {
        SumAtMost(MatchCounts(queues, algorithms), limit);
      }
    }
  }

  /** The algorithms sent to a queue, in order. */
  function SentTo(actions: seq<Placement>, q: string): seq<string> {
    if actions == [] then []
    else (if actions[0].queueId == q then [actions[0].algorithmName] else []) + SentTo(actions[1..], q)
  }

  /** One action per algorithm, in order, each to a queue whose count grows by what it is sent. */
  ghost predicate Sends(
      queues: seq<QueueCount>, algorithms: seq<string>, actions: seq<Placement>, counts: seq<QueueCount>)
  {
    && |actions| == |algorithms| && |counts| == |queues|
    && (forall i :: 0 <= i < |actions| ==>
          actions[i].algorithmName == algorithms[i] && HasQueue(queues, actions[i].queueId))
    && (forall i :: 0 <= i < |queues| ==>
          counts[i] == queues[i].(count := queues[i].count + |SentTo(actions, queues[i].queueId)|))
  }

  lemma {:induction false} MatchSends(queues: seq<QueueCount>, algorithms: seq<string>)
    requires queues != [] && DistinctQueues(queues)
    ensures Sends(queues, algorithms, MatchActions(queues, algorithms), MatchCounts(queues, algorithms))
    decreases |algorithms|
  {
    if algorithms != [] {
      var i := Least(queues);
      var grown := Grow(queues, i);
      MatchSends(grown, algorithms[1..]);
      SendsOneMore(queues, i, algorithms, MatchActions(grown, algorithms[1..]), MatchCounts(grown, algorithms[1..]));
    }
  }

  /** Adding one action in front of those sent from the grown counts. */
  lemma SendsOneMore(
      queues: seq<QueueCount>, i: nat, algorithms: seq<string>, rest: seq<Placement>, counts: seq<QueueCount>)
    requires algorithms != [] && i < |queues| && DistinctQueues(queues)
    requires Sends(Grow(queues, i), algorithms[1..], rest, counts)
    ensures Sends(queues, algorithms, [Placement(queues[i].queueId, algorithms[0])] + rest, counts)
  {
    var grown, p := Grow(queues, i), Placement(queues[i].queueId, algorithms[0]);
    var actions := [p] + rest;
    forall k | 0 <= k < |actions|
      ensures actions[k].algorithmName == algorithms[k] && HasQueue(queues, actions[k].queueId)
    {
      if k > 0 {
        var m :| 0 <= m < |grown| && grown[m].queueId == rest[k - 1].queueId;
        assert queues[m].queueId == actions[k].queueId;
      }
    }
    forall k | 0 <= k < |queues|
      ensures counts[k] == queues[k].(count := queues[k].count + |SentTo(actions, queues[k].queueId)|)
    {
      assert grown[k].queueId == queues[k].queueId;
      SentToFirst(p, rest, queues[k].queueId);
    }
  }

  lemma SentToFirst(p: Placement, rest: seq<Placement>, q: string)
    ensures |SentTo([p] + rest, q)| == (if p.queueId == q then 1 else 0) + |SentTo(rest, q)|
  {
    assert ([p] + rest)[1..] == rest;
  }

  // ---------------------------------------------------------------- reconcile

  /** A stored algorithm; without options, or with pending set, it is passed over. */
  datatype Algorithm = Algorithm(name: string, hasOptions: bool, pending: bool)

  function NormalizeAlgorithms(raw: seq<Algorithm>): (r: seq<string>)
    ensures forall a :: a in r <==> exists x :: x in raw && x.name == a && x.hasOptions && !x.pending
  {
    if raw == [] then []
    else
      var x := raw[0];
      assert forall y :: y in raw <==> y == x || y in raw[1..];
      (if x.hasOptions && !x.pending then [x.name] else []) + NormalizeAlgorithms(raw[1..])
  }

  /** Waiting counts and last activity by algorithm, with the clock and the idle limit. */
  datatype Demand = Demand(waiting: map<string, int>, lastActive: map<string, int>, now: int, maxIdleTime: int)

  predicate Wanted(d: Demand, a: string) {
    || (a in d.waiting && d.waiting[a] > 0)
    || (a in d.lastActive && d.now - d.lastActive[a] < d.maxIdleTime)
  }

  function Required(algorithms: seq<string>, placed: seq<Placement>, d: Demand): (r: seq<string>)
    ensures forall a :: a in r <==> a in algorithms && !IsPlaced(placed, a) && Wanted(d, a)
  {
    if algorithms == [] then []
    else
      (if !IsPlaced(placed, algorithms[0]) && Wanted(d, algorithms[0]) then [algorithms[0]] else [])
      + Required(algorithms[1..], placed, d)
  }

  function Available(queues: seq<QueueCount>, limit: nat): (r: seq<QueueCount>)
    ensures forall q :: q in r <==> q in queues && q.count < limit
  {
    if queues == [] then []
    else (if queues[0].count < limit then [queues[0]] else []) + Available(queues[1..], limit)
  }

  function Obsolete(placed: seq<Placement>, algorithms: seq<string>): (r: seq<Placement>)
    ensures forall p :: p in r <==> p in placed && p.algorithmName !in algorithms
  {
    if placed == [] then []
    else (if placed[0].algorithmName !in algorithms then [placed[0]] else []) + Obsolete(placed[1..], algorithms)
  }

  datatype Action = ADD(p: Placement) | REMOVE(p: Placement)

  function Adds(ps: seq<Placement>): (r: seq<Action>)
    ensures |r| == |ps| && forall i :: 0 <= i < |r| ==> r[i] == ADD(ps[i])
  {
    seq(|ps|, i requires 0 <= i < |ps| => ADD(ps[i]))
  }

  function Removes(ps: seq<Placement>): (r: seq<Action>)
    ensures |r| == |ps| && forall i :: 0 <= i < |r| ==> r[i] == REMOVE(ps[i])
  {
    seq(|ps|, i requires 0 <= i < |ps| => REMOVE(ps[i]))
  }

  /** The actions of one reconcile: ADDs, then removals of the obsolete, then of the duplicates. */
  function Reconcile(discovery: seq<Report>, raw: seq<Algorithm>, d: Demand, limit: nat): seq<Action> {
    var n, algorithms := Normalize(discovery), NormalizeAlgorithms(raw);
    Adds(MatchActions(Available(n.queues, limit), Required(algorithms, n.placed, d)))
    + Removes(Obsolete(n.placed, algorithms))
    + Removes(n.duplicates)
  }

  lemma {:induction false} BumpKeepsIds(queues: seq<QueueCount>, q: string)
    ensures forall i :: 0 <= i < |queues| ==> Bump(queues, q)[i].queueId == queues[i].queueId
  {
    if queues != [] {
      BumpKeepsIds(queues[1..], q);
    }
  }

  lemma {:induction false} AddAlgorithmsKeepsIds(n: Normalized, q: string, algorithms: seq<string>)
    ensures var m := AddAlgorithms(n, q, algorithms);
            |m.queues| == |n.queues| && forall i :: 0 <= i < |n.queues| ==> m.queues[i].queueId == n.queues[i].queueId
  {
    if algorithms != [] {
      var front := algorithms[..|algorithms| - 1];
      AddAlgorithmsKeepsIds(n, q, front);
      BumpKeepsIds(AddAlgorithms(n, q, front).queues, q);
    }
  }

  lemma {:induction false} NormalizeDistinctQueues(ms: seq<Report>)
    ensures DistinctQueues(Normalize(ms).queues)
  {
    if ms != [] {
      var front, d := ms[..|ms| - 1], ms[|ms| - 1];
      NormalizeDistinctQueues(front);
      AddAlgorithmsKeepsIds(AddQueue(Normalize(front), d), d.queueId, d.algorithms);
    }
  }

  lemma {:induction false} AvailableDistinct(queues: seq<QueueCount>, limit: nat)
    requires DistinctQueues(queues)
    ensures DistinctQueues(Available(queues, limit))
  {
    if queues != [] {
      AvailableDistinct(queues[1..], limit);
      forall x | x in Available(queues[1..], limit) ensures x.queueId != queues[0].queueId {
        var i :| 0 <= i < |queues[1..]| && queues[1..][i] == x;
        assert queues[i + 1] == x;
      }
    }
  }

  /** The whole reconcile: normalize, match, then the two loops of removals. */
  method ReconcileQueues(discovery: seq<Report>, raw: seq<Algorithm>, d: Demand, limit: nat)
    returns (actions: seq<Action>)
    ensures actions == Reconcile(discovery, raw, d, limit)
  {
    var n := NormalizeQueuesDiscovery(discovery);
    var normAlgorithms := NormalizeAlgorithms(raw);
    var availableQueues := Available(n.queues, limit);
    var removeAlgorithms := Obsolete(n.placed, normAlgorithms);
    var requiredAlgorithms := Required(normAlgorithms, n.placed, d);
    NormalizeDistinctQueues(discovery);
    AvailableDistinct(n.queues, limit);
    var matched, counts := MatchAlgorithmsToQueue(requiredAlgorithms, availableQueues);
    var obsolete := RemoveAlgorithmsFromQueue(removeAlgorithms);
    var duplicates := RemoveAlgorithmsFromQueue(n.duplicates);
    actions := Adds(matched) + obsolete + duplicates;
  }

  method RemoveAlgorithmsFromQueue(algorithms: seq<Placement>) returns (actions: seq<Action>)
    ensures actions == Removes(algorithms)
  {
    actions := [];
    for i := 0 to |algorithms|
      invariant actions == Removes(algorithms)[..i]
    {
      actions := actions + [REMOVE(algorithms[i])];
    }
  }
}
