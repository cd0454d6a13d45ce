/**
 * The control loop closed: the operator's actions, applied by the queue managers. From a healthy
 * discovery with room one reconcile settles everything exactly when it sends nothing to an inactive
 * manager; duplicates go in one reconcile from any discovery.
 */
module BalancerConvergence {
  import opened Sequences
  import opened QueueDiscovery
  import opened QueueBalancer
  import opened QueuesManager

  /** Queues with their own ids, each with a duplicate-free list of named algorithms; some may be inactive. */
  ghost predicate Sound(ms: seq<Report>) {
    && (forall i, j :: 0 <= i < j < |ms| ==> ms[i].queueId != ms[j].queueId)
    && (forall i :: 0 <= i < |ms| ==> Distinct(ms[i].algorithms) && "" !in ms[i].algorithms)
  }

  /** No algorithm on two queues. */
  ghost predicate Disjoint(ms: seq<Report>) {
    forall i, j, a :: 0 <= i < j < |ms| && a in ms[i].algorithms ==> a !in ms[j].algorithms
  }

  ghost predicate WithinLimit(ms: seq<Report>, limit: nat) {
    forall i :: 0 <= i < |ms| ==> |ms[i].algorithms| <= limit
  }

  ghost predicate OnSome(ms: seq<Report>, a: string) {
    exists i :: 0 <= i < |ms| && a in ms[i].algorithms
  }

  ghost predicate OnExactlyOne(ms: seq<Report>, a: string) {
    OnSome(ms, a) && forall i, j :: 0 <= i < j < |ms| && a in ms[i].algorithms ==> a !in ms[j].algorithms
  }

  // ---------------------------------------------------------------- normalizing

  lemma {:induction false} OccursIff(ms: seq<Report>, q: string, a: string)
    ensures Placement(q, a) in Occurrences(ms)
            <==> exists i :: 0 <= i < |ms| && ms[i].queueId == q && a in ms[i].algorithms
  {
    if ms != [] {
      var front, d := ms[..|ms| - 1], ms[|ms| - 1];
      OccursIff(front, q, a);
      OnHas(d.queueId, d.algorithms, q, a);
      if i :| 0 <= i < |front| && front[i].queueId == q && a in front[i].algorithms {
        assert ms[i].queueId == q && a in ms[i].algorithms;
      }
      if d.queueId == q && a in d.algorithms {
        assert ms[|ms| - 1].queueId == q;
      }
      if i :| 0 <= i < |ms| && ms[i].queueId == q && a in ms[i].algorithms {
        assert i < |front| ==> front[i].queueId == q && a in front[i].algorithms;
      }
    }
  }

  lemma OnHas(d: string, algorithms: seq<string>, q: string, a: string)
    ensures Placement(q, a) in On(d, algorithms) <==> d == q && a in algorithms
  {
    if d == q && a in algorithms {
      var i :| 0 <= i < |algorithms| && algorithms[i] == a;
      assert On(d, algorithms)[i] == Placement(q, a);
    }
  }

  /** An algorithm is placed exactly when some queue holds it. */
  lemma PlacedIff(ms: seq<Report>, a: string)
    ensures IsPlaced(Normalize(ms).placed, a) <==> OnSome(ms, a)
  {
    var n := Normalize(ms);
    NormalizeBalanced(ms);
    if OnSome(ms, a) {
      var i :| 0 <= i < |ms| && a in ms[i].algorithms;
      OccursIff(ms, ms[i].queueId, a);
      assert Placement(ms[i].queueId, a) in multiset(n.placed) + multiset(n.duplicates);
      if Placement(ms[i].queueId, a) in n.placed {
        var k :| 0 <= k < |n.placed| && n.placed[k] == Placement(ms[i].queueId, a);
        assert n.placed[k].algorithmName == a;
      } else {
        assert Placement(ms[i].queueId, a) in n.duplicates;
      }
    }
    if IsPlaced(n.placed, a) {
      var k :| 0 <= k < |n.placed| && n.placed[k].algorithmName == a;
      assert n.placed[k] in multiset(Occurrences(ms));
      OccursIff(ms, n.placed[k].queueId, a);
    }
  }

  /** A placement is normalized somewhere exactly when its queue reports it. */
  lemma KnownIff(ms: seq<Report>, p: Placement)
    ensures var n := Normalize(ms);
            p in n.placed || p in n.duplicates
            <==> exists i :: 0 <= i < |ms| && ms[i].queueId == p.queueId && p.algorithmName in ms[i].algorithms
  {
    var n := Normalize(ms);
    NormalizeBalanced(ms);
    OccursIff(ms, p.queueId, p.algorithmName);
    assert p in multiset(Occurrences(ms)) <==> p in multiset(n.placed) || p in multiset(n.duplicates);
  }

  /** Of two queues that hold the same algorithm, at least one is told to drop it. */
  lemma SharedIsDuplicate(ms: seq<Report>, i: nat, j: nat, a: string)
    requires Sound(ms) && i < j < |ms| && a in ms[i].algorithms && a in ms[j].algorithms
    ensures var n := Normalize(ms);
            Placement(ms[i].queueId, a) in n.duplicates || Placement(ms[j].queueId, a) in n.duplicates
  {
    var n := Normalize(ms);
    NormalizeBalanced(ms);
    KnownIff(ms, Placement(ms[i].queueId, a));
    KnownIff(ms, Placement(ms[j].queueId, a));
    PlacedOnce(n.placed, Placement(ms[i].queueId, a), Placement(ms[j].queueId, a));
  }

  lemma PlacedOnce(placed: seq<Placement>, p: Placement, q: Placement)
    requires DistinctPlaced(placed)
    ensures p in placed && q in placed && p.algorithmName == q.algorithmName ==> p == q
  {
  }

  lemma {:induction false} OccurrencesOnce(ms: seq<Report>, p: Placement)
    requires Sound(ms)
    ensures multiset(Occurrences(ms))[p] <= 1
  {
    if ms != [] {
      var front, d := ms[..|ms| - 1], ms[|ms| - 1];
      OccurrencesOnce(front, p);
      OnOnce(d.queueId, d.algorithms, p);
      OccursIff(front, p.queueId, p.algorithmName);
      OnHas(d.queueId, d.algorithms, p.queueId, p.algorithmName);
    }
  }

  lemma {:induction false} OnOnce(q: string, algorithms: seq<string>, p: Placement)
    requires Distinct(algorithms)
    ensures multiset(On(q, algorithms))[p] <= 1
  {
    if algorithms != [] {
      var front, a := algorithms[..|algorithms| - 1], algorithms[|algorithms| - 1];
      OnOnce(q, front, p);
      assert On(q, algorithms) == On(q, front) + [Placement(q, a)];
      OnHas(q, front, p.queueId, p.algorithmName);
    }
  }

  /** What is placed is not also a duplicate. */
  lemma PlacedNotDuplicate(ms: seq<Report>, p: Placement)
    requires Sound(ms) && p in Normalize(ms).placed
    ensures p !in Normalize(ms).duplicates
  {
    NormalizeBalanced(ms);
    OccurrencesOnce(ms, p);
    var n := Normalize(ms);
    assert p in multiset(n.placed);
    assert (multiset(n.placed) + multiset(n.duplicates))[p] <= 1;
    assert p in n.duplicates ==> p in multiset(n.duplicates);
  }

  lemma {:induction false} BumpLast(queues: seq<QueueCount>, x: QueueCount)
    requires !HasQueue(queues, x.queueId)
    ensures Bump(queues + [x], x.queueId) == queues + [x.(count := x.count + 1)]
  {
    if queues == [] {
      assert [] + [x] == [x] && [x][1..] == [];
    } else {
      assert queues[0].queueId != x.queueId;
      assert forall i :: 0 <= i < |queues[1..]| ==> queues[1..][i] == queues[i + 1];
      BumpLast(queues[1..], x);
      assert (queues + [x])[1..] == queues[1..] + [x];
    }
  }

  lemma {:induction false} AddFreshAlgorithms(
    n: Normalized, x: QueueCount, queues: seq<QueueCount>, algorithms: seq<string>)
    requires n.queues == queues + [x] && !HasQueue(queues, x.queueId)
    requires Distinct(algorithms) && forall a :: a in algorithms ==> !IsPlaced(n.placed, a)
    ensures AddAlgorithms(n, x.queueId, algorithms) ==
            n.(placed := n.placed + On(x.queueId, algorithms),
               queues := queues + [x.(count := x.count + |algorithms|)])
  {
    if algorithms == [] {
      assert n.placed + On(x.queueId, algorithms) == n.placed;
    } else {
      var front, a := algorithms[..|algorithms| - 1], algorithms[|algorithms| - 1];
      assert forall b :: b in front ==> b in algorithms;
      AddFreshAlgorithms(n, x, queues, front);
      var m := AddAlgorithms(n, x.queueId, front);
      NotPlacedBefore(n.placed, x.queueId, algorithms);
      BumpLast(queues, x.(count := x.count + |front|));
      assert n.placed + On(x.queueId, algorithms) == m.placed + [Placement(x.queueId, a)];
    }
  }

  /** The last of a list of distinct new names is not placed by the others. */
  lemma NotPlacedBefore(placed: seq<Placement>, q: string, algorithms: seq<string>)
    requires algorithms != [] && Distinct(algorithms) && !IsPlaced(placed, algorithms[|algorithms| - 1])
    ensures !IsPlaced(placed + On(q, algorithms[..|algorithms| - 1]), algorithms[|algorithms| - 1])
  {
    var front, a := algorithms[..|algorithms| - 1], algorithms[|algorithms| - 1];
    var all := placed + On(q, front);
    forall i | 0 <= i < |all| ensures all[i].algorithmName != a {
      if i < |placed| {
        assert all[i] == placed[i];
      } else {
        assert all[i] == Placement(q, algorithms[i - |placed|]);
      }
    }
  }

  /** In a duplicate-free discovery each queue is counted with all it holds. */
  lemma {:induction false} NormalizeDisjoint(ms: seq<Report>)
    requires Sound(ms) && Disjoint(ms)
    ensures var n := Normalize(ms);
            && n.duplicates == [] && |n.queues| == |ms|
            && forall i :: 0 <= i < |ms| ==> n.queues[i] == QueueCount(ms[i].queueId, |ms[i].algorithms|, ms[i].active)
  {
    if ms != [] {
      var front, d := ms[..|ms| - 1], ms[|ms| - 1];
      NormalizeDisjoint(front);
      var n := Normalize(front);
      forall a | a in d.algorithms ensures !IsPlaced(n.placed, a) {
        PlacedIff(front, a);
        assert forall i :: 0 <= i < |front| ==> front[i] == ms[i];
      }
      assert !HasQueue(n.queues, d.queueId);
      AddFreshAlgorithms(AddQueue(n, d), QueueCount(d.queueId, 0, d.active), n.queues, d.algorithms);
    }
  }

  // ---------------------------------------------------------------- applying actions

  lemma {:induction false} SentToHas(ps: seq<Placement>, q: string, a: string)
    ensures a in SentTo(ps, q) <==> Placement(q, a) in ps
  {
    if ps != [] {
      SentToHas(ps[1..], q, a);
      assert Placement(q, a) in ps <==> ps[0] == Placement(q, a) || Placement(q, a) in ps[1..];
    }
  }

  lemma {:induction false} SentToDistinct(ps: seq<Placement>, q: string)
    requires DistinctPlaced(ps)
    ensures Distinct(SentTo(ps, q))
  {
    if ps != [] {
      SentToDistinct(ps[1..], q);
      if ps[0].queueId == q {
        SentToHas(ps[1..], q, ps[0].algorithmName);
        assert ps[0].algorithmName !in SentTo(ps[1..], q);
      }
    }
  }

  /** An inactive manager takes no action whatever is addressed to it. */
  lemma {:induction false} InactiveStays(m: Report, acts: seq<Action>, limit: nat)
    requires !m.active
    ensures ApplyOne(m, acts, limit) == m
    decreases |acts|
  {
    if acts != [] {
      InactiveStays(m, acts[1..], limit);
    }
  }

  /** What is addressed to the manager reaches an active one. */
  ghost predicate Hears(m: Report, ps: seq<Placement>) {
    m.active || forall p :: p in ps ==> p.queueId != m.queueId
  }

  lemma {:induction false} ApplyTwice(m: Report, a: seq<Action>, b: seq<Action>, limit: nat)
    ensures ApplyOne(m, a + b, limit) == ApplyOne(ApplyOne(m, a, limit), b, limit)
    decreases |a|
  {
    if a == [] {
      assert a + b == b;
    } else {
      var next := if a[0].p.queueId == m.queueId then ActOn(m, a[0], limit) else m;
      ApplyTwice(next, a[1..], b, limit);
      assert (a + b)[0] == a[0] && (a + b)[1..] == a[1..] + b;
    }
  }

  /** New names that fit are appended in the order they are sent. */
  lemma {:induction false} AddsAppend(m: Report, ps: seq<Placement>, limit: nat)
    requires Hears(m, ps) && Distinct(SentTo(ps, m.queueId)) && "" !in SentTo(ps, m.queueId)
    requires forall a :: a in SentTo(ps, m.queueId) ==> a !in m.algorithms
    requires |m.algorithms| + |SentTo(ps, m.queueId)| <= limit
    ensures ApplyOne(m, Adds(ps), limit) == m.(algorithms := m.algorithms + SentTo(ps, m.queueId))
    decreases |ps|
  {
    if ps == [] {
      assert m.algorithms + [] == m.algorithms;
    } else {
      assert Adds(ps)[1..] == Adds(ps[1..]);
      assert ps[0] in ps && Hears(m, ps[1..]);
      var sent, rest := SentTo(ps, m.queueId), SentTo(ps[1..], m.queueId);
      if ps[0].queueId == m.queueId {
        var a := ps[0].algorithmName;
        assert sent == [a] + rest && sent[0] == a && a in sent;
        assert sent[1..] == rest;
        var next := m.(algorithms := m.algorithms + [a]);
        AddsAppend(next, ps[1..], limit);
        assert next.algorithms + rest == m.algorithms + sent;
      } else {
        assert sent == rest;
        AddsAppend(m, ps[1..], limit);
      }
    }
  }

  /** Whatever is sent, a manager gains only what is sent to it and loses nothing by ADDs. */
  lemma {:induction false} AddsGain(m: Report, ps: seq<Placement>, limit: nat)
    requires Distinct(m.algorithms) && "" !in m.algorithms
    ensures var r := ApplyOne(m, Adds(ps), limit);
            && Distinct(r.algorithms) && "" !in r.algorithms
            && (forall a :: a in m.algorithms ==> a in r.algorithms)
            && (forall a :: a in r.algorithms ==> a in m.algorithms || Placement(m.queueId, a) in ps)
    decreases |ps|
  {
    if ps != [] {
      assert Adds(ps)[1..] == Adds(ps[1..]);
      var next := if ps[0].queueId == m.queueId then ActOn(m, ADD(ps[0]), limit) else m;
      AddsGain(next, ps[1..], limit);
      forall a | a in next.algorithms ensures a in m.algorithms || Placement(m.queueId, a) in ps {
        if a !in m.algorithms {
          assert ps[0] == Placement(m.queueId, a);
        }
      }
    }
  }

  lemma {:induction false} DropDistinct(s: seq<string>, a: string)
    requires Distinct(s)
    ensures Distinct(Drop(s, a))
  {
    if s != [] {
      DropDistinct(s[1..], a);
      assert s[0] !in s[1..];
    }
  }

  /** Removals add nothing. */
  lemma {:induction false} RemovesOnlyDrop(m: Report, ps: seq<Placement>, limit: nat)
    requires Distinct(m.algorithms)
    ensures var r := ApplyOne(m, Removes(ps), limit);
            && Distinct(r.algorithms) && |r.algorithms| <= |m.algorithms|
            && (forall a :: a in r.algorithms ==> a in m.algorithms)
    decreases |ps|
  {
    if ps != [] {
      assert Removes(ps)[1..] == Removes(ps[1..]);
      DropDistinct(m.algorithms, ps[0].algorithmName);
      RemovesOnlyDrop(if ps[0].queueId == m.queueId then ActOn(m, REMOVE(ps[0]), limit) else m, ps[1..], limit);
    }
  }

  /** After the removals exactly the names not told to go remain. */
  lemma {:induction false} RemovesKeep(m: Report, ps: seq<Placement>, limit: nat)
    requires Hears(m, ps) && "" !in m.algorithms
    ensures var r := ApplyOne(m, Removes(ps), limit);
            forall a :: a in r.algorithms <==> a in m.algorithms && Placement(m.queueId, a) !in ps
    decreases |ps|
  {
    if ps != [] {
      assert Removes(ps)[1..] == Removes(ps[1..]);
      assert ps[0] in ps && Hears(m, ps[1..]);
      var next := if ps[0].queueId == m.queueId then ActOn(m, REMOVE(ps[0]), limit) else m;
      RemovesKeep(next, ps[1..], limit);
      forall a | a in m.algorithms && Placement(m.queueId, a) !in ps
        ensures a in ApplyOne(m, Removes(ps), limit).algorithms
      {
        assert a in next.algorithms;
      }
    }
  }

  // ---------------------------------------------------------------- one round

  function Adding(ms: seq<Report>, raw: seq<Algorithm>, d: Demand, limit: nat): seq<Placement> {
    var n := Normalize(ms);
    MatchActions(Available(n.queues, limit), Required(NormalizeAlgorithms(raw), n.placed, d))
  }

  function Dropping(ms: seq<Report>, raw: seq<Algorithm>): seq<Placement> {
    Obsolete(Normalize(ms).placed, NormalizeAlgorithms(raw))
  }

  /** The queues after one reconcile and the application of its actions. */
  function Round(ms: seq<Report>, raw: seq<Algorithm>, d: Demand, limit: nat): seq<Report> {
    ApplyAll(ms, Reconcile(ms, raw, d, limit), limit)
  }

  lemma RoundInSteps(ms: seq<Report>, raw: seq<Algorithm>, d: Demand, limit: nat, i: nat)
    requires i < |ms|
    ensures Round(ms, raw, d, limit)[i] ==
            ApplyOne(ApplyOne(ApplyOne(ms[i], Adds(Adding(ms, raw, d, limit)), limit),
                              Removes(Dropping(ms, raw)), limit),
                     Removes(Normalize(ms).duplicates), limit)
  {
    var a, o, r := Adds(Adding(ms, raw, d, limit)), Removes(Dropping(ms, raw)), Removes(Normalize(ms).duplicates);
    ApplyTwice(ms[i], a + o, r, limit);
    ApplyTwice(ms[i], a, o, limit);
  }

  /** A queue ends with nothing but what it had or was sent. */
  lemma RoundGains(ms: seq<Report>, raw: seq<Algorithm>, d: Demand, limit: nat, i: nat)
    requires Sound(ms) && i < |ms|
    ensures var r := Round(ms, raw, d, limit)[i];
            && Distinct(r.algorithms) && "" !in r.algorithms
            && (forall a :: a in r.algorithms ==>
                  a in ms[i].algorithms || Placement(ms[i].queueId, a) in Adding(ms, raw, d, limit))
  {
    RoundInSteps(ms, raw, d, limit, i);
    AddsGain(ms[i], Adding(ms, raw, d, limit), limit);
    var one := ApplyOne(ms[i], Adds(Adding(ms, raw, d, limit)), limit);
    RemovesOnlyDrop(one, Dropping(ms, raw), limit);
    var two := ApplyOne(one, Removes(Dropping(ms, raw)), limit);
    RemovesOnlyDrop(two, Normalize(ms).duplicates, limit);
  }

  /** The actions addressed to the manager reach an active one. */
  ghost predicate Reaches(m: Report, acts: seq<Action>) {
    m.active || forall act :: act in acts ==> act.p.queueId != m.queueId
  }

  /** No action is addressed to an inactive queue. */
  ghost predicate Carried(ms: seq<Report>, acts: seq<Action>) {
    forall i :: 0 <= i < |ms| ==> Reaches(ms[i], acts)
  }

  /** The three parts of the round reach the queue. */
  ghost predicate AllHeard(ms: seq<Report>, raw: seq<Algorithm>, d: Demand, limit: nat, i: nat)
    requires i < |ms|
  {
    && Hears(ms[i], Adding(ms, raw, d, limit)) && Hears(ms[i], Dropping(ms, raw))
    && Hears(ms[i], Normalize(ms).duplicates)
  }

  lemma ReachesAdds(m: Report, ps: seq<Placement>)
    ensures Reaches(m, Adds(ps)) <==> Hears(m, ps)
  {
    forall p | p in ps ensures ADD(p) in Adds(ps) {
      var k :| 0 <= k < |ps| && ps[k] == p;
      assert Adds(ps)[k] == ADD(p);
    }
  }

  lemma ReachesRemoves(m: Report, ps: seq<Placement>)
    ensures Reaches(m, Removes(ps)) <==> Hears(m, ps)
  {
    forall p | p in ps ensures REMOVE(p) in Removes(ps) {
      var k :| 0 <= k < |ps| && ps[k] == p;
      assert Removes(ps)[k] == REMOVE(p);
    }
  }

  lemma ReachesBoth(m: Report, a: seq<Action>, b: seq<Action>)
    ensures Reaches(m, a + b) <==> Reaches(m, a) && Reaches(m, b)
  {
  }

  lemma ReachesIff(ms: seq<Report>, raw: seq<Algorithm>, d: Demand, limit: nat, i: nat)
    requires i < |ms|
    ensures Reaches(ms[i], Reconcile(ms, raw, d, limit)) <==> AllHeard(ms, raw, d, limit, i)
  {
    var a, o, r := Adds(Adding(ms, raw, d, limit)), Removes(Dropping(ms, raw)), Removes(Normalize(ms).duplicates);
    ReachesBoth(ms[i], a + o, r);
    ReachesBoth(ms[i], a, o);
    ReachesAdds(ms[i], Adding(ms, raw, d, limit));
    ReachesRemoves(ms[i], Dropping(ms, raw));
    ReachesRemoves(ms[i], Normalize(ms).duplicates);
  }

  lemma CarriedIff(ms: seq<Report>, raw: seq<Algorithm>, d: Demand, limit: nat)
    ensures Carried(ms, Reconcile(ms, raw, d, limit))
            <==> forall i :: 0 <= i < |ms| ==> AllHeard(ms, raw, d, limit, i)
  {
    forall i | 0 <= i < |ms|
      ensures Reaches(ms[i], Reconcile(ms, raw, d, limit)) <==> AllHeard(ms, raw, d, limit, i)
    {
      ReachesIff(ms, raw, d, limit, i);
    }
  }

  /** A queue that is reached keeps what it had and is not told to drop, and drops what it is told to. */
  lemma RoundKeeps(ms: seq<Report>, raw: seq<Algorithm>, d: Demand, limit: nat, i: nat)
    requires Sound(ms) && i < |ms| && AllHeard(ms, raw, d, limit, i)
    ensures var r, q := Round(ms, raw, d, limit)[i], ms[i].queueId;
            && (forall a :: a in r.algorithms ==>
                  Placement(q, a) !in Dropping(ms, raw) && Placement(q, a) !in Normalize(ms).duplicates)
            && (forall a :: (a in ms[i].algorithms && Placement(q, a) !in Dropping(ms, raw)
                             && Placement(q, a) !in Normalize(ms).duplicates) ==> a in r.algorithms)
  {
    RoundInSteps(ms, raw, d, limit, i);
    AddsGain(ms[i], Adding(ms, raw, d, limit), limit);
    var one := ApplyOne(ms[i], Adds(Adding(ms, raw, d, limit)), limit);
    RemovesKeep(one, Dropping(ms, raw), limit);
    var two := ApplyOne(one, Removes(Dropping(ms, raw)), limit);
    RemovesKeep(two, Normalize(ms).duplicates, limit);
  }

  lemma RoundSound(ms: seq<Report>, raw: seq<Algorithm>, d: Demand, limit: nat)
    requires Sound(ms)
    ensures Sound(Round(ms, raw, d, limit))
  {
    forall i | 0 <= i < |ms|
      ensures var r := Round(ms, raw, d, limit)[i];
              r.queueId == ms[i].queueId && Distinct(r.algorithms) && "" !in r.algorithms
    {
      RoundGains(ms, raw, d, limit, i);
    }
  }

  // ---------------------------------------------------------------- what is sent

  lemma {:induction false} RequiredDistinct(algorithms: seq<string>, placed: seq<Placement>, d: Demand)
    requires Distinct(algorithms)
    ensures Distinct(Required(algorithms, placed, d))
  {
    if algorithms != [] {
      RequiredDistinct(algorithms[1..], placed, d);
      assert algorithms[0] !in algorithms[1..];
    }
  }

  /** Each ADD carries its own required algorithm, to a queue that has room. */
  lemma AddingFacts(ms: seq<Report>, raw: seq<Algorithm>, d: Demand, limit: nat)
    requires Distinct(NormalizeAlgorithms(raw))
    ensures var n, adding := Normalize(ms), Adding(ms, raw, d, limit);
            && DistinctPlaced(adding)
            && (forall p :: p in adding ==>
                  && p.algorithmName in Required(NormalizeAlgorithms(raw), n.placed, d)
                  && HasQueue(Available(n.queues, limit), p.queueId))
  {
    var n := Normalize(ms);
    var queues, required := Available(n.queues, limit), Required(NormalizeAlgorithms(raw), n.placed, d);
    if queues != [] {
      NormalizeDistinctQueues(ms);
      AvailableDistinct(n.queues, limit);
      RequiredDistinct(NormalizeAlgorithms(raw), n.placed, d);
      MatchSends(queues, required);
    }
  }

  // ---------------------------------------------------------------- duplicates

  /**
   * From any discovery, one round whose actions all reach active queues leaves no algorithm on two
   * queues, and a stored algorithm that was on some queue is still on one.
   */
  lemma DuplicatesVanish(ms: seq<Report>, raw: seq<Algorithm>, d: Demand, limit: nat)
    requires Sound(ms) && Distinct(NormalizeAlgorithms(raw)) && Carried(ms, Reconcile(ms, raw, d, limit))
    ensures Disjoint(Round(ms, raw, d, limit))
    ensures forall a :: a in NormalizeAlgorithms(raw) && OnSome(ms, a) ==> OnExactlyOne(Round(ms, raw, d, limit), a)
  {
    var rs := Round(ms, raw, d, limit);
    CarriedIff(ms, raw, d, limit);
    forall i, j, a | 0 <= i < j < |ms| && a in rs[i].algorithms ensures a !in rs[j].algorithms {
      NotOnBoth(ms, raw, d, limit, i, j, a);
    }
    forall a | a in NormalizeAlgorithms(raw) && OnSome(ms, a) ensures OnSome(rs, a) {
      SurvivesOnce(ms, raw, d, limit, a);
    }
  }

  /** Two queues of a round share only what they shared before it. */
  lemma SharedBefore(ms: seq<Report>, raw: seq<Algorithm>, d: Demand, limit: nat, i: nat, j: nat, a: string)
    requires Sound(ms) && Distinct(NormalizeAlgorithms(raw)) && i < j < |ms|
    requires a in Round(ms, raw, d, limit)[i].algorithms && a in Round(ms, raw, d, limit)[j].algorithms
    ensures a in ms[i].algorithms && a in ms[j].algorithms
  {
    RoundGains(ms, raw, d, limit, i);
    RoundGains(ms, raw, d, limit, j);
    AddingFacts(ms, raw, d, limit);
    PlacedIff(ms, a);
    PlacedOnce(Adding(ms, raw, d, limit), Placement(ms[i].queueId, a), Placement(ms[j].queueId, a));
  }

  lemma NotOnBoth(ms: seq<Report>, raw: seq<Algorithm>, d: Demand, limit: nat, i: nat, j: nat, a: string)
    requires Sound(ms) && Distinct(NormalizeAlgorithms(raw)) && i < j < |ms|
    requires AllHeard(ms, raw, d, limit, i) && AllHeard(ms, raw, d, limit, j)
    ensures !(a in Round(ms, raw, d, limit)[i].algorithms && a in Round(ms, raw, d, limit)[j].algorithms)
  {
    if a in Round(ms, raw, d, limit)[i].algorithms && a in Round(ms, raw, d, limit)[j].algorithms {
      RoundKeeps(ms, raw, d, limit, i);
      RoundKeeps(ms, raw, d, limit, j);
      SharedBefore(ms, raw, d, limit, i, j, a);
      SharedIsDuplicate(ms, i, j, a);
    }
  }

  lemma SurvivesOnce(ms: seq<Report>, raw: seq<Algorithm>, d: Demand, limit: nat, a: string)
    requires Sound(ms) && a in NormalizeAlgorithms(raw) && OnSome(ms, a)
    requires forall i :: 0 <= i < |ms| ==> AllHeard(ms, raw, d, limit, i)
    ensures OnSome(Round(ms, raw, d, limit), a)
  {
    var n := Normalize(ms);
    PlacedIff(ms, a);
    var k :| 0 <= k < |n.placed| && n.placed[k].algorithmName == a;
    PlacedNotDuplicate(ms, n.placed[k]);
    KnownIff(ms, n.placed[k]);
    var i :| 0 <= i < |ms| && ms[i].queueId == n.placed[k].queueId && a in ms[i].algorithms;
    RoundKeeps(ms, raw, d, limit, i);
    assert Placement(ms[i].queueId, a) == n.placed[k];
    assert a in Round(ms, raw, d, limit)[i].algorithms;
  }

  // ---------------------------------------------------------------- convergence

  /** The free room of the queues below the limit holds every required algorithm. */
  ghost predicate Fits(ms: seq<Report>, raw: seq<Algorithm>, d: Demand, limit: nat) {
    var n := Normalize(ms);
    var queues := Available(n.queues, limit);
    |Required(NormalizeAlgorithms(raw), n.placed, d)| <= |queues| * limit - SumCounts(queues)
  }

  /** No queue is sent more than it has room for. */
  lemma SentFits(ms: seq<Report>, raw: seq<Algorithm>, d: Demand, limit: nat, i: nat)
    requires Sound(ms) && Disjoint(ms) && WithinLimit(ms, limit) && i < |ms|
    requires Distinct(NormalizeAlgorithms(raw)) && Fits(ms, raw, d, limit)
    ensures |ms[i].algorithms| + |SentTo(Adding(ms, raw, d, limit), ms[i].queueId)| <= limit
  {
    var n := Normalize(ms);
    var queues, required := Available(n.queues, limit), Required(NormalizeAlgorithms(raw), n.placed, d);
    NormalizeDisjoint(ms);
    NormalizeDistinctQueues(ms);
    AvailableDistinct(n.queues, limit);
    if n.queues[i] in queues {
      var k :| 0 <= k < |queues| && queues[k] == n.queues[i];
      MatchSends(queues, required);
      MatchKeepsLimitIff(queues, required, limit);
      assert MatchCounts(queues, required)[k].count <= limit;
    } else {
      NothingSentToFull(ms, raw, d, limit, i);
    }
  }

  lemma SentMeansAvailable(ms: seq<Report>, raw: seq<Algorithm>, d: Demand, limit: nat, i: nat, a: string)
    requires Sound(ms) && Disjoint(ms) && i < |ms| && Distinct(NormalizeAlgorithms(raw))
    requires Placement(ms[i].queueId, a) in Adding(ms, raw, d, limit)
    ensures i < |Normalize(ms).queues| && Normalize(ms).queues[i] in Available(Normalize(ms).queues, limit)
  {
    var n := Normalize(ms);
    NormalizeDisjoint(ms);
    NormalizeDistinctQueues(ms);
    AddingFacts(ms, raw, d, limit);
    var queues := Available(n.queues, limit);
    var k :| 0 <= k < |queues| && queues[k].queueId == ms[i].queueId;
    assert queues[k] in n.queues;
    var m :| 0 <= m < |n.queues| && n.queues[m] == queues[k];
    assert m == i;
  }

  lemma NothingSentToFull(ms: seq<Report>, raw: seq<Algorithm>, d: Demand, limit: nat, i: nat)
    requires Sound(ms) && Disjoint(ms) && i < |ms| && Distinct(NormalizeAlgorithms(raw))
    requires |Normalize(ms).queues| == |ms| && Normalize(ms).queues[i] !in Available(Normalize(ms).queues, limit)
    ensures SentTo(Adding(ms, raw, d, limit), ms[i].queueId) == []
  {
    var sent := SentTo(Adding(ms, raw, d, limit), ms[i].queueId);
    if sent != [] {
      SentToHas(Adding(ms, raw, d, limit), ms[i].queueId, sent[0]);
      SentMeansAvailable(ms, raw, d, limit, i, sent[0]);
    }
  }

  /** With room, every ADD takes effect. */
  lemma SentArrives(ms: seq<Report>, raw: seq<Algorithm>, d: Demand, limit: nat, i: nat)
    requires Sound(ms) && Disjoint(ms) && WithinLimit(ms, limit) && i < |ms|
    requires Distinct(NormalizeAlgorithms(raw)) && "" !in NormalizeAlgorithms(raw) && Fits(ms, raw, d, limit)
    requires AllHeard(ms, raw, d, limit, i)
    ensures var r := Round(ms, raw, d, limit)[i];
            && |r.algorithms| <= limit
            && forall a :: Placement(ms[i].queueId, a) in Adding(ms, raw, d, limit) ==> a in r.algorithms
  {
    var adding, q := Adding(ms, raw, d, limit), ms[i].queueId;
    SentFits(ms, raw, d, limit, i);
    AddingFacts(ms, raw, d, limit);
    SentToDistinct(adding, q);
    forall a | a in SentTo(adding, q) ensures a !in ms[i].algorithms && a != "" {
      SentToHas(adding, q, a);
      PlacedIff(ms, a);
    }
    AddsAppend(ms[i], adding, limit);
    var one := ms[i].(algorithms := ms[i].algorithms + SentTo(adding, q));
    AddsGain(ms[i], adding, limit);
    RoundInSteps(ms, raw, d, limit, i);
    RemovesKeep(one, Dropping(ms, raw), limit);
    RemovesOnlyDrop(one, Dropping(ms, raw), limit);
    NormalizeDisjoint(ms);
    assert Removes([]) == [];
    forall a | Placement(q, a) in adding ensures a in Round(ms, raw, d, limit)[i].algorithms {
      SentToHas(adding, q, a);
    }
  }

  /** Nothing more is wanted later than is wanted now. */
  ghost predicate NoNewDemand(later: Demand, d: Demand) {
    forall a :: Wanted(later, a) ==> Wanted(d, a)
  }

  /** After the round every required algorithm is on a queue. */
  lemma RequiredArrive(ms: seq<Report>, raw: seq<Algorithm>, d: Demand, limit: nat, a: string)
    requires Sound(ms) && Disjoint(ms) && WithinLimit(ms, limit)
    requires Distinct(NormalizeAlgorithms(raw)) && "" !in NormalizeAlgorithms(raw) && Fits(ms, raw, d, limit)
    requires forall i :: 0 <= i < |ms| ==> AllHeard(ms, raw, d, limit, i)
    requires a in NormalizeAlgorithms(raw) && Wanted(d, a)
    ensures OnSome(Round(ms, raw, d, limit), a)
  {
    if OnSome(ms, a) {
      SurvivesOnce(ms, raw, d, limit, a);
    } else {
      var p := RequiredIsSent(ms, raw, d, limit, a);
      var i := QueueBehind(ms, p.queueId, limit);
      SentArrives(ms, raw, d, limit, i);
      assert p == Placement(ms[i].queueId, a);
      assert a in Round(ms, raw, d, limit)[i].algorithms;
    }
  }

  /** A wanted algorithm that no queue has is sent to an available queue. */
  lemma RequiredIsSent(ms: seq<Report>, raw: seq<Algorithm>, d: Demand, limit: nat, a: string) returns (p: Placement)
    requires Sound(ms) && Disjoint(ms) && !OnSome(ms, a)
    requires Distinct(NormalizeAlgorithms(raw)) && "" !in NormalizeAlgorithms(raw) && Fits(ms, raw, d, limit)
    requires a in NormalizeAlgorithms(raw) && Wanted(d, a)
    ensures p in Adding(ms, raw, d, limit) && p.algorithmName == a
    ensures HasQueue(Available(Normalize(ms).queues, limit), p.queueId)
  {
    PlacedIff(ms, a);
    var n := Normalize(ms);
    var queues, required := Available(n.queues, limit), Required(NormalizeAlgorithms(raw), n.placed, d);
    assert a in required;
    assert queues != [];
    NormalizeDistinctQueues(ms);
    AvailableDistinct(n.queues, limit);
    p := MatchSendsEach(queues, required, a);
  }

  lemma MatchSendsEach(queues: seq<QueueCount>, required: seq<string>, a: string) returns (p: Placement)
    requires queues != [] && DistinctQueues(queues) && a in required
    ensures p in MatchActions(queues, required) && p.algorithmName == a && HasQueue(queues, p.queueId)
  {
    MatchSends(queues, required);
    var k :| 0 <= k < |required| && required[k] == a;
    p := MatchActions(queues, required)[k];
  }

  lemma QueueBehind(ms: seq<Report>, q: string, limit: nat) returns (i: nat)
    requires Sound(ms) && Disjoint(ms) && HasQueue(Available(Normalize(ms).queues, limit), q)
    ensures i < |ms| && ms[i].queueId == q
  {
    NormalizeDisjoint(ms);
    var queues := Available(Normalize(ms).queues, limit);
    var k :| 0 <= k < |queues| && queues[k].queueId == q;
    assert queues[k] in Normalize(ms).queues;
    i :| 0 <= i < |ms| && Normalize(ms).queues[i] == queues[k];
  }

  /** After the round nothing on a queue is obsolete, and what was in use has not moved. */
  lemma OnlyStoredRemain(ms: seq<Report>, raw: seq<Algorithm>, d: Demand, limit: nat, i: nat, a: string)
    requires Sound(ms) && Disjoint(ms) && Distinct(NormalizeAlgorithms(raw)) && i < |ms|
    requires AllHeard(ms, raw, d, limit, i)
    ensures a in Round(ms, raw, d, limit)[i].algorithms ==> a in NormalizeAlgorithms(raw)
    ensures a in ms[i].algorithms && a in NormalizeAlgorithms(raw) ==> a in Round(ms, raw, d, limit)[i].algorithms
  {
    RoundGains(ms, raw, d, limit, i);
    RoundKeeps(ms, raw, d, limit, i);
    AddingFacts(ms, raw, d, limit);
    NormalizeDisjoint(ms);
    if a in ms[i].algorithms {
      KnownIff(ms, Placement(ms[i].queueId, a));
    }
  }

  /**
   * With room for what is required and no action to an inactive queue: one round puts every wanted
   * algorithm on exactly one queue within the limit, moves nothing that is still stored, drops everything
   * else; and the next reconcile, if no new demand has come up, sends no action at all.
   */
  lemma ReconcileConverges(ms: seq<Report>, raw: seq<Algorithm>, d: Demand, later: Demand, limit: nat)
    requires Sound(ms) && Disjoint(ms) && WithinLimit(ms, limit)
    requires Distinct(NormalizeAlgorithms(raw)) && "" !in NormalizeAlgorithms(raw)
    requires Fits(ms, raw, d, limit) && NoNewDemand(later, d) && Carried(ms, Reconcile(ms, raw, d, limit))
    ensures var rs := Round(ms, raw, d, limit);
            && Sound(rs) && Disjoint(rs) && WithinLimit(rs, limit)
            && (forall a :: a in NormalizeAlgorithms(raw) && Wanted(d, a) ==> OnExactlyOne(rs, a))
            && (forall i, a :: 0 <= i < |ms| && a in rs[i].algorithms ==> a in NormalizeAlgorithms(raw))
            && (forall i, a :: 0 <= i < |ms| && a in ms[i].algorithms && a in NormalizeAlgorithms(raw) ==>
                  a in rs[i].algorithms)
            && Reconcile(rs, raw, later, limit) == []
  {
    var rs := Round(ms, raw, d, limit);
    CarriedIff(ms, raw, d, limit);
    RoundSound(ms, raw, d, limit);
    DuplicatesVanish(ms, raw, d, limit);
    forall i | 0 <= i < |ms| ensures |rs[i].algorithms| <= limit {
      SentArrives(ms, raw, d, limit, i);
    }
    forall a | a in NormalizeAlgorithms(raw) && Wanted(d, a) ensures OnExactlyOne(rs, a) {
      RequiredArrive(ms, raw, d, limit, a);
    }
    forall i, a | 0 <= i < |ms|
      ensures a in rs[i].algorithms ==> a in NormalizeAlgorithms(raw)
      ensures a in ms[i].algorithms && a in NormalizeAlgorithms(raw) ==> a in rs[i].algorithms
    {
      OnlyStoredRemain(ms, raw, d, limit, i, a);
    }
    NothingLeftToDo(rs, raw, later, limit);
  }

  /** A settled discovery calls for no action. */
  lemma NothingLeftToDo(rs: seq<Report>, raw: seq<Algorithm>, d: Demand, limit: nat)
    requires Sound(rs) && Disjoint(rs)
    requires forall a :: a in NormalizeAlgorithms(raw) && Wanted(d, a) ==> OnSome(rs, a)
    requires forall i, a :: 0 <= i < |rs| && a in rs[i].algorithms ==> a in NormalizeAlgorithms(raw)
    ensures Reconcile(rs, raw, d, limit) == []
  {
    var n, algorithms := Normalize(rs), NormalizeAlgorithms(raw);
    NormalizeDisjoint(rs);
    var required, obsolete := Required(algorithms, n.placed, d), Obsolete(n.placed, algorithms);
    HeadIn(required);
    HeadIn(obsolete);
    if required != [] {
      PlacedIff(rs, required[0]);
    }
    if obsolete != [] {
      KnownIff(rs, obsolete[0]);
    }
  }

  lemma HeadIn<T>(s: seq<T>)
    ensures s != [] ==> s[0] in s
  {
  }

  // ---------------------------------------------------------------- an inactive queue

  lemma DisjointStays(ms: seq<Report>, raw: seq<Algorithm>, d: Demand, limit: nat)
    requires Sound(ms) && Disjoint(ms) && Distinct(NormalizeAlgorithms(raw))
    ensures Disjoint(Round(ms, raw, d, limit))
  {
    var rs := Round(ms, raw, d, limit);
    forall i, j, a | 0 <= i < j < |ms| && a in rs[i].algorithms ensures a !in rs[j].algorithms {
      if a in rs[j].algorithms {
        SharedBefore(ms, raw, d, limit, i, j, a);
      }
    }
  }

  /** What was sent to an inactive queue reaches no other. */
  lemma NotGained(ms: seq<Report>, raw: seq<Algorithm>, d: Demand, limit: nat, i: nat, a: string, k: nat)
    requires Sound(ms) && Distinct(NormalizeAlgorithms(raw)) && i < |ms| && !ms[i].active && k < |ms|
    requires Placement(ms[i].queueId, a) in Adding(ms, raw, d, limit) && a !in ms[k].algorithms
    ensures a !in Round(ms, raw, d, limit)[k].algorithms
  {
    if k == i {
      InactiveStays(ms[i], Reconcile(ms, raw, d, limit), limit);
    } else {
      assert ms[k].queueId != ms[i].queueId;
      RoundGains(ms, raw, d, limit, k);
      AddingFacts(ms, raw, d, limit);
      PlacedOnce(Adding(ms, raw, d, limit), Placement(ms[k].queueId, a), Placement(ms[i].queueId, a));
    }
  }

  lemma SentWasMissing(ms: seq<Report>, raw: seq<Algorithm>, d: Demand, limit: nat, p: Placement)
    requires Distinct(NormalizeAlgorithms(raw)) && p in Adding(ms, raw, d, limit)
    ensures p.algorithmName in NormalizeAlgorithms(raw) && Wanted(d, p.algorithmName) && !OnSome(ms, p.algorithmName)
  {
    AddingFacts(ms, raw, d, limit);
    PlacedIff(ms, p.algorithmName);
  }

  /** It is required again. */
  lemma SentInVain(ms: seq<Report>, raw: seq<Algorithm>, d: Demand, limit: nat, i: nat, a: string)
    requires Sound(ms) && Distinct(NormalizeAlgorithms(raw)) && i < |ms| && !ms[i].active
    requires Placement(ms[i].queueId, a) in Adding(ms, raw, d, limit)
    ensures var rs := Round(ms, raw, d, limit);
            Required(NormalizeAlgorithms(raw), Normalize(rs).placed, d) != []
  {
    var rs := Round(ms, raw, d, limit);
    SentWasMissing(ms, raw, d, limit, Placement(ms[i].queueId, a));
    forall k | 0 <= k < |ms| ensures a !in rs[k].algorithms {
      NotGained(ms, raw, d, limit, i, a, k);
    }
    PlacedIff(rs, a);
    assert a in Required(NormalizeAlgorithms(raw), Normalize(rs).placed, d);
  }

  /** The queue it was sent to still has room, so something is sent again. */
  lemma SentAgain(ms: seq<Report>, raw: seq<Algorithm>, d: Demand, limit: nat, i: nat, a: string)
    requires Sound(ms) && Disjoint(ms) && Distinct(NormalizeAlgorithms(raw)) && i < |ms| && !ms[i].active
    requires Placement(ms[i].queueId, a) in Adding(ms, raw, d, limit)
    ensures Reconcile(Round(ms, raw, d, limit), raw, d, limit) != []
  {
    var rs := Round(ms, raw, d, limit);
    SentInVain(ms, raw, d, limit, i, a);
    RoomStays(ms, raw, d, limit, i, a);
    var queues := Available(Normalize(rs).queues, limit);
    var required := Required(NormalizeAlgorithms(raw), Normalize(rs).placed, d);
    assert |MatchActions(queues, required)| > 0;
    assert |Adds(Adding(rs, raw, d, limit))| > 0;
  }

  lemma RoomStays(ms: seq<Report>, raw: seq<Algorithm>, d: Demand, limit: nat, i: nat, a: string)
    requires Sound(ms) && Disjoint(ms) && Distinct(NormalizeAlgorithms(raw)) && i < |ms| && !ms[i].active
    requires Placement(ms[i].queueId, a) in Adding(ms, raw, d, limit)
    ensures Available(Normalize(Round(ms, raw, d, limit)).queues, limit) != []
  {
    var rs := Round(ms, raw, d, limit);
    SentMeansAvailable(ms, raw, d, limit, i, a);
    InactiveStays(ms[i], Reconcile(ms, raw, d, limit), limit);
    RoundSound(ms, raw, d, limit);
    DisjointStays(ms, raw, d, limit);
    NormalizeDisjoint(ms);
    NormalizeDisjoint(rs);
    var x := Normalize(ms).queues[i];
    assert rs[i] == ms[i] && Normalize(rs).queues[i] == x;
    assert x in Normalize(rs).queues;
  }

  /** What an inactive queue is told to drop stays, and is obsolete again. */
  lemma DroppedAgain(ms: seq<Report>, raw: seq<Algorithm>, d: Demand, limit: nat, i: nat, a: string)
    requires Sound(ms) && i < |ms| && !ms[i].active
    requires Placement(ms[i].queueId, a) in Dropping(ms, raw)
    ensures Reconcile(Round(ms, raw, d, limit), raw, d, limit) != []
  {
    var rs := Round(ms, raw, d, limit);
    InactiveStays(ms[i], Reconcile(ms, raw, d, limit), limit);
    KnownIff(ms, Placement(ms[i].queueId, a));
    assert a in rs[i].algorithms;
    PlacedIff(rs, a);
    var k :| 0 <= k < |Normalize(rs).placed| && Normalize(rs).placed[k].algorithmName == a;
    assert Normalize(rs).placed[k] in Dropping(rs, raw);
  }

  /**
   * With room for what is required, one round settles everything if and only if none of its actions is
   * addressed to an inactive queue. Such a queue counts as available and its algorithms as placed, but it
   * carries nothing out.
   */
  lemma SettlesIff(ms: seq<Report>, raw: seq<Algorithm>, d: Demand, limit: nat)
    requires Sound(ms) && Disjoint(ms) && WithinLimit(ms, limit)
    requires Distinct(NormalizeAlgorithms(raw)) && "" !in NormalizeAlgorithms(raw) && Fits(ms, raw, d, limit)
    ensures Reconcile(Round(ms, raw, d, limit), raw, d, limit) == [] <==> Carried(ms, Reconcile(ms, raw, d, limit))
  {
    if Carried(ms, Reconcile(ms, raw, d, limit)) {
      ReconcileConverges(ms, raw, d, d, limit);
    } else {
      CarriedIff(ms, raw, d, limit);
      NormalizeDisjoint(ms);
      var i :| 0 <= i < |ms| && !AllHeard(ms, raw, d, limit, i);
      if p :| p in Adding(ms, raw, d, limit) && p.queueId == ms[i].queueId {
        SentAgain(ms, raw, d, limit, i, p.algorithmName);
      } else {
        var p :| p in Dropping(ms, raw) && p.queueId == ms[i].queueId;
        DroppedAgain(ms, raw, d, limit, i, p.algorithmName);
      }
    }
  }

  /**
   * With one inactive queue, below the limit and with something required, every reconcile sends the
   * same ADD again.
   */
  lemma InactiveQueueNeverSettles(q: string, a: string, d: Demand, limit: nat)
    requires limit > 0 && Wanted(d, a)
    ensures var ms, raw := [Report(q, [], false)], [Algorithm(a, true, false)];
            && Reconcile(ms, raw, d, limit) == [ADD(Placement(q, a))]
            && Round(ms, raw, d, limit) == ms
  {
    var m := Report(q, [], false);
    var ms, raw := [m], [Algorithm(a, true, false)];
    assert ms[..0] == [] && raw[1..] == [];
    var x := QueueCount(q, 0, false);
    assert Normalize([]) == NOTHING;
    assert AddQueue(NOTHING, m).queues == [x];
    assert Normalize(ms) == Normalized([], [x], []);
    assert NormalizeAlgorithms(raw) == [a];
    assert [a][1..] == [] && [x][1..] == [];
    assert Required([a], [], d) == [a] && Available([x], limit) == [x];
    assert MatchActions([x], [a]) == [Placement(q, a)];
    assert Adds([Placement(q, a)]) == [ADD(Placement(q, a))];
    assert Removes([]) == [];
    var act := ADD(Placement(q, a));
    assert [act][1..] == [];
    assert ApplyOne(m, [act], limit) == m;
  }

  /** An algorithm that is no longer stored never leaves an inactive queue. */
  lemma InactiveQueueKeepsObsolete(q: string, a: string, d: Demand, limit: nat)
    ensures var ms := [Report(q, [a], false)];
            && Reconcile(ms, [], d, limit) == [REMOVE(Placement(q, a))]
            && Round(ms, [], d, limit) == ms
  {
    var m := Report(q, [a], false);
    var ms := [m];
    assert ms[..0] == [] && [a][..0] == [];
    assert Normalize([]) == NOTHING;
    var p, x := Placement(q, a), QueueCount(q, 1, false);
    var n := AddQueue(NOTHING, m);
    assert n == Normalized([], [QueueCount(q, 0, false)], []);
    assert AddAlgorithms(n, q, []) == n && Bump(n.queues, q) == [x];
    assert AddAlgorithms(n, q, [a]) == AddAlgorithm(n, q, a);
    assert Normalize(ms) == Normalized([p], [x], []);
    assert [p][1..] == [];
    assert NormalizeAlgorithms([]) == [] && Required([], [p], d) == [];
    assert Obsolete([p], []) == [p];
    assert Adds([]) == [] && Removes([]) == [] && Removes([p]) == [REMOVE(p)];
    InactiveStays(m, [REMOVE(p)], limit);
  }
}
