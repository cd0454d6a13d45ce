/**
 * When room is short. One round places every wanted algorithm exactly when the missing ones fit beside all that is on
 * the queues, obsolete or not, as a queue is sent its ADDs before its removals. Two rounds place them exactly when the
 * stored algorithms that are wanted or placed fit on the queues together.
 */
module BalancerRoom {
  import opened Sequences
  import opened QueueDiscovery
  import opened QueueBalancer
  import opened QueuesManager
  import opened BalancerConvergence

  // ---------------------------------------------------------------- room

  lemma OneMore(a: nat, b: nat, x: int, y: int, c: nat, limit: nat)
    requires a * limit - x == b * limit - y
    ensures (1 + a) * limit - (c + x) == (1 + b) * limit - (c + y)
    ensures c == limit ==> a * limit - x == (1 + b) * limit - (c + y)
  {
    assert (1 + a) * limit == limit + a * limit && (1 + b) * limit == limit + b * limit;
  }

  lemma SumWithFirst(x: QueueCount, rest: seq<QueueCount>)
    ensures SumCounts([x] + rest) == x.count + SumCounts(rest)
  {
    assert ([x] + rest)[1..] == rest;
  }

  /** The free room of the queues that are not full is the free room of all. */
  lemma {:induction false} AvailableRoom(queues: seq<QueueCount>, limit: nat)
    requires forall i :: 0 <= i < |queues| ==> queues[i].count <= limit
    ensures |Available(queues, limit)| * limit - SumCounts(Available(queues, limit))
            == |queues| * limit - SumCounts(queues)
  {
    if queues != [] {
      var x, rest, left := queues[0], queues[1..], Available(queues[1..], limit);
      AvailableRoom(rest, limit);
      assert queues == [x] + rest;
      SumWithFirst(x, rest);
      SumWithFirst(x, left);
      OneMore(|left|, |rest|, SumCounts(left), SumCounts(rest), x.count, limit);
      assert Available(queues, limit) == if x.count < limit then [x] + left else left;
    }
  }

  function Names(ps: seq<Placement>): set<string> { set p | p in ps :: p.algorithmName }

  lemma {:induction false} NamesCount(ps: seq<Placement>)
    requires DistinctPlaced(ps)
    ensures |Names(ps)| == |ps|
  {
    if ps != [] {
      NamesCount(ps[1..]);
      forall p | p in ps[1..] ensures p.algorithmName != ps[0].algorithmName {
        var i :| 0 <= i < |ps[1..]| && ps[1..][i] == p;
        assert ps[i + 1] == p;
      }
      assert ps == [ps[0]] + ps[1..];
      assert Names(ps) == {ps[0].algorithmName} + Names(ps[1..]);
    }
  }

  function Members(s: seq<string>): set<string> { set a | a in s }

  lemma {:induction false} MembersCount(s: seq<string>)
    requires Distinct(s)
    ensures |Members(s)| == |s|
  {
    if s != [] {
      MembersCount(s[1..]);
      assert Members(s) == {s[0]} + Members(s[1..]);
    }
  }

  /** The algorithms on the queues. */
  ghost function OnQueues(ms: seq<Report>): set<string> { Names(Normalize(ms).placed) }

  lemma OnQueuesHas(ms: seq<Report>, a: string)
    ensures a in OnQueues(ms) <==> OnSome(ms, a)
  {
    PlacedIff(ms, a);
    var placed := Normalize(ms).placed;
    if IsPlaced(placed, a) {
      var i :| 0 <= i < |placed| && placed[i].algorithmName == a;
      assert placed[i] in placed;
    }
  }

  /** The stored algorithms that are wanted and on no queue. */
  ghost function Missing(ms: seq<Report>, raw: seq<Algorithm>, d: Demand): set<string> {
    Members(Required(NormalizeAlgorithms(raw), Normalize(ms).placed, d))
  }

  lemma MissingHas(ms: seq<Report>, raw: seq<Algorithm>, d: Demand, a: string)
    ensures a in Missing(ms, raw, d) <==> a in NormalizeAlgorithms(raw) && Wanted(d, a) && !OnSome(ms, a)
  {
    PlacedIff(ms, a);
  }

  /** What is missing fits exactly when it fits beside all that is on the queues. */
  lemma FitsIff(ms: seq<Report>, raw: seq<Algorithm>, d: Demand, limit: nat)
    requires Sound(ms) && Disjoint(ms) && WithinLimit(ms, limit) && Distinct(NormalizeAlgorithms(raw))
    ensures Fits(ms, raw, d, limit) <==> |OnQueues(ms)| + |Missing(ms, raw, d)| <= |ms| * limit
  {
    var n := Normalize(ms);
    NormalizeDisjoint(ms);
    NormalizeBalanced(ms);
    AvailableRoom(n.queues, limit);
    NamesCount(n.placed);
    RequiredDistinct(NormalizeAlgorithms(raw), n.placed, d);
    MembersCount(Required(NormalizeAlgorithms(raw), n.placed, d));
  }

  // ---------------------------------------------------------------- one round

  ghost predicate AllPlaced(ms: seq<Report>, raw: seq<Algorithm>, d: Demand) {
    forall a :: a in NormalizeAlgorithms(raw) && Wanted(d, a) ==> OnSome(ms, a)
  }

  /** A manager never takes more than its limit. */
  lemma {:induction false} NeverOverLimit(m: Report, acts: seq<Action>, limit: nat)
    requires |m.algorithms| <= limit
    ensures |ApplyOne(m, acts, limit).algorithms| <= limit
    decreases |acts|
  {
    if acts != [] {
      NeverOverLimit(if acts[0].p.queueId == m.queueId then ActOn(m, acts[0], limit) else m, acts[1..], limit);
    }
  }

  lemma StaysWithinLimit(ms: seq<Report>, raw: seq<Algorithm>, d: Demand, limit: nat)
    requires WithinLimit(ms, limit)
    ensures WithinLimit(Round(ms, raw, d, limit), limit)
  {
    forall i | 0 <= i < |ms| ensures |Round(ms, raw, d, limit)[i].algorithms| <= limit {
      NeverOverLimit(ms[i], Reconcile(ms, raw, d, limit), limit);
    }
  }

  /** Distinct names beside others, all among distinct ones, are together no more than these. */
  lemma NoMoreThan(had: seq<string>, sent: seq<string>, now: seq<string>)
    requires Distinct(had) && Distinct(sent) && Distinct(now)
    requires forall a :: a in had || a in sent ==> a in now
    requires forall a :: a in sent ==> a !in had
    ensures |had| + |sent| <= |now|
  {
    MembersCount(had);
    MembersCount(sent);
    MembersCount(now);
    assert Members(had) !! Members(sent);
    SubsetCount(Members(had) + Members(sent), Members(now));
  }

  lemma {:induction false} SubsetCount(a: set<string>, b: set<string>)
    requires a <= b
    ensures |a| <= |b|
  {
    if a != {} {
      var x :| x in a;
      SubsetCount(a - {x}, b - {x});
    }
  }

  /** A queue that is sent more than it has room for refuses some of it. */
  lemma SomeRefused(ms: seq<Report>, raw: seq<Algorithm>, d: Demand, limit: nat, i: nat) returns (a: string)
    requires Sound(ms) && WithinLimit(ms, limit) && i < |ms| && Distinct(NormalizeAlgorithms(raw))
    requires |ms[i].algorithms| + |SentTo(Adding(ms, raw, d, limit), ms[i].queueId)| > limit
    ensures Placement(ms[i].queueId, a) in Adding(ms, raw, d, limit)
    ensures a !in Round(ms, raw, d, limit)[i].algorithms
  {
    var m, adding := ms[i], Adding(ms, raw, d, limit);
    var sent, one := SentTo(adding, m.queueId), ApplyOne(m, Adds(adding), limit);
    AddingFacts(ms, raw, d, limit);
    SentToDistinct(adding, m.queueId);
    forall b | b in sent ensures b !in m.algorithms {
      SentToHas(adding, m.queueId, b);
      PlacedIff(ms, b);
    }
    AddsGain(m, adding, limit);
    NeverOverLimit(m, Adds(adding), limit);
    if forall b :: b in sent ==> b in one.algorithms {
      NoMoreThan(m.algorithms, sent, one.algorithms);
      assert false;
    }
    a :| a in sent && a !in one.algorithms;
    SentToHas(adding, m.queueId, a);
    RoundInSteps(ms, raw, d, limit, i);
    RemovesOnlyDrop(one, Dropping(ms, raw), limit);
    RemovesOnlyDrop(ApplyOne(one, Removes(Dropping(ms, raw)), limit), Normalize(ms).duplicates, limit);
  }

  /** What its queue refuses is on no queue. */
  lemma RefusedIsNowhere(ms: seq<Report>, raw: seq<Algorithm>, d: Demand, limit: nat, i: nat, a: string)
    requires Sound(ms) && Distinct(NormalizeAlgorithms(raw)) && i < |ms|
    requires Placement(ms[i].queueId, a) in Adding(ms, raw, d, limit)
    requires a !in Round(ms, raw, d, limit)[i].algorithms
    ensures !AllPlaced(Round(ms, raw, d, limit), raw, d)
  {
    SentWasMissing(ms, raw, d, limit, Placement(ms[i].queueId, a));
    forall k | 0 <= k < |ms| ensures a !in Round(ms, raw, d, limit)[k].algorithms {
      if k != i {
        NotElsewhere(ms, raw, d, limit, i, a, k);
      }
    }
    assert !OnSome(Round(ms, raw, d, limit), a);
  }

  lemma NotElsewhere(ms: seq<Report>, raw: seq<Algorithm>, d: Demand, limit: nat, i: nat, a: string, k: nat)
    requires Sound(ms) && Distinct(NormalizeAlgorithms(raw)) && i < |ms| && k < |ms| && k != i
    requires Placement(ms[i].queueId, a) in Adding(ms, raw, d, limit) && a !in ms[k].algorithms
    ensures a !in Round(ms, raw, d, limit)[k].algorithms
  {
    assert ms[k].queueId != ms[i].queueId;
    RoundGains(ms, raw, d, limit, k);
    AddingFacts(ms, raw, d, limit);
    PlacedOnce(Adding(ms, raw, d, limit), Placement(ms[k].queueId, a), Placement(ms[i].queueId, a));
  }

  /** Matching more than fits sends some queue too much. */
  lemma SomeOverfull(queues: seq<QueueCount>, required: seq<string>, limit: nat) returns (k: nat)
    requires queues != [] && DistinctQueues(queues) && forall i :: 0 <= i < |queues| ==> queues[i].count < limit
    requires |required| > |queues| * limit - SumCounts(queues)
    ensures k < |queues| && queues[k].count + |SentTo(MatchActions(queues, required), queues[k].queueId)| > limit
  {
    MatchKeepsLimitIff(queues, required, limit);
    MatchSends(queues, required);
    k :| 0 <= k < |queues| && MatchCounts(queues, required)[k].count > limit;
  }

  lemma OverfullQueue(ms: seq<Report>, raw: seq<Algorithm>, d: Demand, limit: nat) returns (i: nat)
    requires Sound(ms) && Disjoint(ms) && Distinct(NormalizeAlgorithms(raw)) && !Fits(ms, raw, d, limit)
    requires Available(Normalize(ms).queues, limit) != []
    ensures i < |ms| && |ms[i].algorithms| + |SentTo(Adding(ms, raw, d, limit), ms[i].queueId)| > limit
  {
    var n := Normalize(ms);
    var queues, required := Available(n.queues, limit), Required(NormalizeAlgorithms(raw), n.placed, d);
    NormalizeDistinctQueues(ms);
    AvailableDistinct(n.queues, limit);
    var k := SomeOverfull(queues, required, limit);
    i := CountBehind(ms, queues[k], limit);
  }

  lemma CountBehind(ms: seq<Report>, q: QueueCount, limit: nat) returns (i: nat)
    requires Sound(ms) && Disjoint(ms) && q in Available(Normalize(ms).queues, limit)
    ensures i < |ms| && ms[i].queueId == q.queueId && |ms[i].algorithms| == q.count
  {
    NormalizeDisjoint(ms);
    assert q in Normalize(ms).queues;
    i :| 0 <= i < |ms| && Normalize(ms).queues[i] == q;
  }

  /** With no room at all nothing is placed. */
  lemma NoneAvailable(ms: seq<Report>, raw: seq<Algorithm>, d: Demand, limit: nat)
    requires Sound(ms) && Distinct(NormalizeAlgorithms(raw)) && !Fits(ms, raw, d, limit)
    requires Available(Normalize(ms).queues, limit) == []
    ensures !AllPlaced(Round(ms, raw, d, limit), raw, d)
  {
    var n := Normalize(ms);
    var required := Required(NormalizeAlgorithms(raw), n.placed, d);
    assert |required| > 0;
    var a := required[0];
    assert a in required;
    PlacedIff(ms, a);
    assert Adding(ms, raw, d, limit) == [];
    forall i | 0 <= i < |ms| ensures a !in Round(ms, raw, d, limit)[i].algorithms {
      RoundGains(ms, raw, d, limit, i);
    }
    assert !OnSome(Round(ms, raw, d, limit), a);
  }

  /** One round whose actions all reach active queues places all that is wanted exactly when what is missing fits. */
  lemma PlacesAllIff(ms: seq<Report>, raw: seq<Algorithm>, d: Demand, limit: nat)
    requires Sound(ms) && Disjoint(ms) && WithinLimit(ms, limit)
    requires Distinct(NormalizeAlgorithms(raw)) && "" !in NormalizeAlgorithms(raw)
    requires Carried(ms, Reconcile(ms, raw, d, limit))
    ensures AllPlaced(Round(ms, raw, d, limit), raw, d) <==> |OnQueues(ms)| + |Missing(ms, raw, d)| <= |ms| * limit
  {
    FitsIff(ms, raw, d, limit);
    if Fits(ms, raw, d, limit) {
      ReconcileConverges(ms, raw, d, d, limit);
    } else if Available(Normalize(ms).queues, limit) == [] {
      NoneAvailable(ms, raw, d, limit);
    } else {
      var i := OverfullQueue(ms, raw, d, limit);
      var a := SomeRefused(ms, raw, d, limit, i);
      RefusedIsNowhere(ms, raw, d, limit, i, a);
    }
  }

  // ---------------------------------------------------------------- two rounds

  /** The stored algorithms that are wanted or on a queue already. */
  ghost function Needed(ms: seq<Report>, raw: seq<Algorithm>, d: Demand): set<string> {
    set a | a in NormalizeAlgorithms(raw) && (Wanted(d, a) || OnSome(ms, a))
  }

  /** A round neither drops nor brings in what is needed. */
  lemma RoundKeepsNeeded(ms: seq<Report>, raw: seq<Algorithm>, d: Demand, limit: nat, a: string)
    requires Sound(ms) && Disjoint(ms) && Distinct(NormalizeAlgorithms(raw))
    requires Carried(ms, Reconcile(ms, raw, d, limit))
    ensures OnSome(Round(ms, raw, d, limit), a) ==> a in Needed(ms, raw, d)
    ensures OnSome(ms, a) && a in NormalizeAlgorithms(raw) ==> OnSome(Round(ms, raw, d, limit), a)
  {
    var rs := Round(ms, raw, d, limit);
    CarriedIff(ms, raw, d, limit);
    if OnSome(rs, a) {
      var i :| 0 <= i < |rs| && a in rs[i].algorithms;
      OnlyStoredRemain(ms, raw, d, limit, i, a);
      RoundGains(ms, raw, d, limit, i);
      AddingFacts(ms, raw, d, limit);
    }
    if OnSome(ms, a) && a in NormalizeAlgorithms(raw) {
      SurvivesOnce(ms, raw, d, limit, a);
    }
  }

  /** After a round what is on the queues and what is missing make up what is needed. */
  lemma NeededAfter(ms: seq<Report>, raw: seq<Algorithm>, d: Demand, limit: nat)
    requires Sound(ms) && Disjoint(ms) && Distinct(NormalizeAlgorithms(raw))
    requires Carried(ms, Reconcile(ms, raw, d, limit))
    ensures var rs := Round(ms, raw, d, limit);
            |OnQueues(rs)| + |Missing(rs, raw, d)| == |Needed(ms, raw, d)|
  {
    var rs := Round(ms, raw, d, limit);
    forall a
      ensures a in Needed(ms, raw, d) <==> a in OnQueues(rs) || a in Missing(rs, raw, d)
      ensures a !in OnQueues(rs) || a !in Missing(rs, raw, d)
    {
      OnQueuesHas(rs, a);
      MissingHas(rs, raw, d, a);
      RoundKeepsNeeded(ms, raw, d, limit, a);
    }
    assert Needed(ms, raw, d) == OnQueues(rs) + Missing(rs, raw, d);
    assert OnQueues(rs) !! Missing(rs, raw, d);
  }

  /**
   * Two rounds whose actions all reach active queues place every wanted algorithm if and only if the stored ones that
   * are wanted or placed fit on all queues together; then the next reconcile sends nothing.
   */
  lemma TwoRoundsPlaceAllIff(ms: seq<Report>, raw: seq<Algorithm>, d: Demand, limit: nat)
    requires Sound(ms) && Disjoint(ms) && WithinLimit(ms, limit)
    requires Distinct(NormalizeAlgorithms(raw)) && "" !in NormalizeAlgorithms(raw)
    requires Carried(ms, Reconcile(ms, raw, d, limit))
    requires var rs := Round(ms, raw, d, limit); Carried(rs, Reconcile(rs, raw, d, limit))
    ensures var us := Round(Round(ms, raw, d, limit), raw, d, limit);
            && (AllPlaced(us, raw, d) <==> |Needed(ms, raw, d)| <= |ms| * limit)
            && (AllPlaced(us, raw, d) ==> Reconcile(us, raw, d, limit) == [])
  {
    var rs := Round(ms, raw, d, limit);
    RoundSound(ms, raw, d, limit);
    DisjointStays(ms, raw, d, limit);
    StaysWithinLimit(ms, raw, d, limit);
    NeededAfter(ms, raw, d, limit);
    PlacesAllIff(rs, raw, d, limit);
    if |Needed(ms, raw, d)| <= |ms| * limit {
      FitsIff(rs, raw, d, limit);
      ReconcileConverges(rs, raw, d, d, limit);
    }
  }
}
