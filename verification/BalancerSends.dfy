/** Which actions one reconcile sends, in terms of what the queues report and what is stored and asked for. */
module BalancerSends {
  import opened Sequences
  import opened QueueDiscovery
  import opened QueueBalancer
  import opened BalancerConvergence
  import opened BalancerRoom

  /** A stored algorithm that can be run: it has options and none are pending. */
  ghost predicate Runnable(raw: seq<Algorithm>, a: string) {
    exists x :: x in raw && x.name == a && x.hasOptions && !x.pending
  }

  /** Tasks wait for it, or it was in use less than the idle time ago. */
  ghost predicate InDemand(d: Demand, a: string) {
    (a in d.waiting && d.waiting[a] >= 1) || (a in d.lastActive && d.lastActive[a] + d.maxIdleTime > d.now)
  }

  ghost predicate SomeRoom(ms: seq<Report>, limit: nat) {
    exists i :: 0 <= i < |ms| && |ms[i].algorithms| < limit
  }

  lemma SomeRoomIff(ms: seq<Report>, limit: nat)
    requires Sound(ms) && Disjoint(ms)
    ensures SomeRoom(ms, limit) <==> Available(Normalize(ms).queues, limit) != []
  {
    var n := Normalize(ms);
    NormalizeDisjoint(ms);
    if i :| 0 <= i < |ms| && |ms[i].algorithms| < limit {
      assert n.queues[i] in n.queues;
      assert n.queues[i] in Available(n.queues, limit);
    }
    if Available(n.queues, limit) != [] {
      var q := Available(n.queues, limit)[0];
      assert q in Available(n.queues, limit);
      var i := CountBehind(ms, q, limit);
    }
  }

  lemma MissingIff(ms: seq<Report>, raw: seq<Algorithm>, d: Demand, a: string)
    ensures a in Required(NormalizeAlgorithms(raw), Normalize(ms).placed, d)
            <==> Runnable(raw, a) && !OnSome(ms, a) && InDemand(d, a)
  {
    PlacedIff(ms, a);
  }

  /** An ADD for an algorithm is sent exactly when it is runnable, on no queue, in demand, and some queue has room. */
  lemma SentIff(ms: seq<Report>, raw: seq<Algorithm>, d: Demand, limit: nat, a: string)
    requires Sound(ms) && Disjoint(ms) && Distinct(NormalizeAlgorithms(raw))
    ensures (exists q :: ADD(Placement(q, a)) in Reconcile(ms, raw, d, limit))
            <==> Runnable(raw, a) && !OnSome(ms, a) && InDemand(d, a) && SomeRoom(ms, limit)
  {
    var n := Normalize(ms);
    var queues, required := Available(n.queues, limit), Required(NormalizeAlgorithms(raw), n.placed, d);
    MissingIff(ms, raw, d, a);
    SomeRoomIff(ms, limit);
    if q :| ADD(Placement(q, a)) in Reconcile(ms, raw, d, limit) {
      AddIsSent(ms, raw, d, limit, Placement(q, a));
      AddingFacts(ms, raw, d, limit);
      assert queues != [];
    }
    if a in required && queues != [] {
      NormalizeDistinctQueues(ms);
      AvailableDistinct(n.queues, limit);
      var p := MatchSendsEach(queues, required, a);
      AddIsSent(ms, raw, d, limit, p);
      assert ADD(Placement(p.queueId, a)) in Reconcile(ms, raw, d, limit);
    }
  }

  lemma AddsHas(ps: seq<Placement>, p: Placement)
    ensures ADD(p) in Adds(ps) <==> p in ps
  {
    if p in ps {
      var i :| 0 <= i < |ps| && ps[i] == p;
      assert Adds(ps)[i] == ADD(p);
    }
  }

  lemma RemovesHas(ps: seq<Placement>, p: Placement)
    ensures REMOVE(p) in Removes(ps) <==> p in ps
  {
    if p in ps {
      var i :| 0 <= i < |ps| && ps[i] == p;
      assert Removes(ps)[i] == REMOVE(p);
    }
  }

  lemma AddIsSent(ms: seq<Report>, raw: seq<Algorithm>, d: Demand, limit: nat, p: Placement)
    ensures ADD(p) in Reconcile(ms, raw, d, limit) <==> p in Adding(ms, raw, d, limit)
  {
    AddsHas(Adding(ms, raw, d, limit), p);
  }

  /** A REMOVE is sent to the queue of each algorithm that is on a queue and no longer runnable, and for no other. */
  lemma RemovedIff(ms: seq<Report>, raw: seq<Algorithm>, d: Demand, limit: nat, q: string, a: string)
    requires Sound(ms) && Disjoint(ms)
    ensures REMOVE(Placement(q, a)) in Reconcile(ms, raw, d, limit)
            <==> !Runnable(raw, a) && exists i :: 0 <= i < |ms| && ms[i].queueId == q && a in ms[i].algorithms
  {
    NormalizeDisjoint(ms);
    KnownIff(ms, Placement(q, a));
    RemoveIsSent(ms, raw, d, limit, Placement(q, a));
  }

  lemma RemoveIsSent(ms: seq<Report>, raw: seq<Algorithm>, d: Demand, limit: nat, p: Placement)
    ensures REMOVE(p) in Reconcile(ms, raw, d, limit) <==> p in Dropping(ms, raw) || p in Normalize(ms).duplicates
  {
    RemovesHas(Dropping(ms, raw), p);
    RemovesHas(Normalize(ms).duplicates, p);
  }

  // ---------------------------------------------------------------- in their order

  lemma {:induction false} RequiredInOrder(algorithms: seq<string>, placed: seq<Placement>, d: Demand)
      returns (at: seq<nat>)
    ensures Picked(algorithms, at, Required(algorithms, placed, d))
  {
    at := [];
    if algorithms != [] {
      var tail := RequiredInOrder(algorithms[1..], placed, d);
      var rest := Required(algorithms[1..], placed, d);
      PickedFirst(algorithms, tail, rest);
      PickedLater(algorithms, tail, rest);
      assert [] + rest == rest;
      at := if Required(algorithms, placed, d) == rest then Shifted(tail) else [0] + Shifted(tail);
    }
  }

  lemma {:induction false} AvailableInOrder(queues: seq<QueueCount>, limit: nat) returns (at: seq<nat>)
    ensures Picked(queues, at, Available(queues, limit))
  {
    at := [];
    if queues != [] {
      var tail := AvailableInOrder(queues[1..], limit);
      var rest := Available(queues[1..], limit);
      PickedFirst(queues, tail, rest);
      PickedLater(queues, tail, rest);
      assert [] + rest == rest;
      at := if Available(queues, limit) == rest then Shifted(tail) else [0] + Shifted(tail);
    }
  }

  lemma {:induction false} ObsoleteInOrder(placed: seq<Placement>, algorithms: seq<string>) returns (at: seq<nat>)
    ensures Picked(placed, at, Obsolete(placed, algorithms))
  {
    at := [];
    if placed != [] {
      var tail := ObsoleteInOrder(placed[1..], algorithms);
      var rest := Obsolete(placed[1..], algorithms);
      PickedFirst(placed, tail, rest);
      PickedLater(placed, tail, rest);
      assert [] + rest == rest;
      at := if Obsolete(placed, algorithms) == rest then Shifted(tail) else [0] + Shifted(tail);
    }
  }

  /** The algorithms of the placements are those at the positions. */
  ghost predicate NamesAt(algorithms: seq<string>, at: seq<nat>, adds: seq<Placement>) {
    && Increasing(at, |algorithms|) && |adds| == |at|
    && forall k :: 0 <= k < |adds| ==> adds[k].algorithmName == algorithms[at[k]]
  }

  lemma {:induction false} MatchNames(queues: seq<QueueCount>, algorithms: seq<string>)
    requires queues != []
    ensures var actions := MatchActions(queues, algorithms);
            |actions| == |algorithms| && forall k :: 0 <= k < |actions| ==> actions[k].algorithmName == algorithms[k]
    decreases |algorithms|
  {
    if algorithms != [] {
      MatchNames(Grow(queues, Least(queues)), algorithms[1..]);
    }
  }

  lemma MatchedInOrder(queues: seq<QueueCount>, algorithms: seq<string>, at: seq<nat>, required: seq<string>)
    requires Picked(algorithms, at, required)
    ensures NamesAt(algorithms, if queues == [] then [] else at, MatchActions(queues, required))
  {
    if queues != [] {
      MatchNames(queues, required);
    }
  }

  /**
   * What is sent: first the ADDs, for some of the stored algorithms in their order, then the REMOVEs of placements no
   * longer stored and at last those of duplicates, both in the order the queues report them.
   */
  lemma SentInOrder(ms: seq<Report>, raw: seq<Algorithm>, d: Demand, limit: nat)
      returns (adds: seq<Placement>, addAt: seq<nat>, drops: seq<Placement>, dropAt: seq<nat>)
    ensures Reconcile(ms, raw, d, limit) == Adds(adds) + Removes(drops) + Removes(Normalize(ms).duplicates)
    ensures NamesAt(NormalizeAlgorithms(raw), addAt, adds) && Picked(Normalize(ms).placed, dropAt, drops)
  {
    var n, algorithms := Normalize(ms), NormalizeAlgorithms(raw);
    var queues, required := Available(n.queues, limit), Required(algorithms, n.placed, d);
    addAt := RequiredInOrder(algorithms, n.placed, d);
    MatchedInOrder(queues, algorithms, addAt, required);
    addAt := if queues == [] then [] else addAt;
    dropAt := ObsoleteInOrder(n.placed, algorithms);
    adds, drops := MatchActions(queues, required), Obsolete(n.placed, algorithms);
  }
}
