/**
 * One queue's part of the interval, promotion by promotion: which pipelines it works on, what it reads for each of
 * them, what each promotion does, how many it tries, and when the interval goes on to main.
 */
module DispatchIntervals {
  import opened Wrappers
  import opened Sequences
  import opened DriverJobs
  import opened DriverQueue
  import opened DispatchModel
  import opened DispatchAddressing
  import opened DispatchConcurrency
  import opened DispatchPromotion
  import opened DispatchServing
  import opened DispatchLimits

  // ---------------------------------------------------------------- the pipelines

  ghost predicate IsHeldOf(j: Job, name: string) { j.maxExceeded && j.pipelineName == name }

  /** Position `h` of the list that was read holds the first job of the pipeline that is held back. */
  ghost predicate FirstHeldIn(snapshot: seq<Job>, h: nat, name: string) {
    h < |snapshot| && IsHeldOf(snapshot[h], name) && forall k :: 0 <= k < h ==> !IsHeldOf(snapshot[k], name)
  }

  lemma {:induction false} FirstHeldIs(snapshot: seq<Job>, h: nat, name: string)
    requires FirstHeldIn(snapshot, h, name)
    ensures FirstHeldOf(snapshot, name) == Some(snapshot[h])
  {
    if h > 0 {
      assert !IsHeldOf(snapshot[0], name);
      FirstHeldIs(snapshot[1..], h - 1, name);
    }
  }

  /** Stored, not rejecting on failure, and with a job held back in the list that was read. */
  ghost predicate WorksOn(p: StoredPipeline, snapshot: seq<Job>) {
    p.holdsBack && exists j :: j in snapshot && IsHeldOf(j, p.name)
  }

  ghost predicate WorksOnAt(stored: seq<StoredPipeline>, snapshot: seq<Job>, at: seq<nat>) {
    forall i: nat :: i < |stored| ==> (i in at <==> WorksOn(stored[i], snapshot))
  }

  lemma WorksOnLater(stored: seq<StoredPipeline>, snapshot: seq<Job>, tail: seq<nat>)
    requires stored != [] && WorksOnAt(stored[1..], snapshot, tail)
    ensures WorksOnAt(stored, snapshot, if WorksOn(stored[0], snapshot) then [0] + Shifted(tail) else Shifted(tail))
  {
    var at := if WorksOn(stored[0], snapshot) then [0] + Shifted(tail) else Shifted(tail);
    forall i: nat | i < |stored| ensures i in at <==> WorksOn(stored[i], snapshot) {
      ShiftedHas(tail, if i > 0 then i - 1 else 0);
      assert i > 0 ==> stored[1..][i - 1] == stored[i];
    }
  }

  lemma WorksOnIff(p: StoredPipeline, snapshot: seq<Job>)
    ensures p.holdsBack && FirstHeldOf(snapshot, p.name).Some? <==> WorksOn(p, snapshot)
  {
    if p.holdsBack && FirstHeldOf(snapshot, p.name).Some? {
      assert IsHeldOf(FirstHeldOf(snapshot, p.name).value, p.name);
    }
  }

  lemma RelevantStep(stored: seq<StoredPipeline>, snapshot: seq<Job>)
    requires stored != []
    ensures Relevant(stored, snapshot) ==
            if WorksOn(stored[0], snapshot) then [stored[0]] + Relevant(stored[1..], snapshot)
            else Relevant(stored[1..], snapshot)
  {
    WorksOnIff(stored[0], snapshot);
  }

  /** The pipelines an interval works on, in the order the store returns them. */
  lemma {:induction false} RelevantIs(stored: seq<StoredPipeline>, snapshot: seq<Job>) returns (at: seq<nat>)
    ensures Picked(stored, at, Relevant(stored, snapshot)) && WorksOnAt(stored, snapshot, at)
  {
    at := [];
    if stored != [] {
      var tail := RelevantIs(stored[1..], snapshot);
      var rest := Relevant(stored[1..], snapshot);
      WorksOnLater(stored, snapshot, tail);
      RelevantStep(stored, snapshot);
      PickedFirst(stored, tail, rest);
      PickedLater(stored, tail, rest);
      at := if WorksOn(stored[0], snapshot) then [0] + Shifted(tail) else Shifted(tail);
    }
  }

  // ---------------------------------------------------------------- what is read for them

  /** The count Redis gives for a pipeline, none there counting as 0. */
  function Running(redis: map<string, nat>, name: string): nat { if name in redis then redis[name] else 0 }

  /** The pipelines have the count Redis gives and the limit the store gives. */
  ghost predicate UpToDate(active: Tracking, pipelines: seq<StoredPipeline>, redis: map<string, nat>) {
    forall p :: p in pipelines ==>
      p.name in active && active[p.name] == Active(Num(Running(redis, p.name)), Some(p.amount))
  }

  lemma RefreshedIsUpToDate(active: Tracking, pipelines: seq<StoredPipeline>, redis: map<string, nat>)
    requires DistinctNames(pipelines)
    ensures UpToDate(Refresh(active, pipelines, redis), pipelines, redis)
  {
    forall p | p in pipelines
      ensures var a := Refresh(active, pipelines, redis);
              p.name in a && a[p.name] == Active(Num(Running(redis, p.name)), Some(p.amount))
    {
      RefreshedCounts(active, pipelines, redis, p.name);
    }
  }

  /** A promotion leaves the counts of the other pipelines alone. */
  lemma PromoteLeavesOthers(s: State, p: StoredPipeline, snapshot: seq<Job>, w: Which, name: string)
    requires FirstHeldOf(snapshot, p.name).Some? && Addressable(s) && name != p.name && name in s.active
    ensures var a := Promote(s, p, snapshot, w).active; name in a && a[name] == s.active[name]
  {
    var experiment := FirstHeldOf(snapshot, p.name).value.experimentName;
    var i := FindHeld(s.Q(w), experiment, p.name);
    if i < |s.Q(w)| && CheckRunningJobs(s, p.name) && s.consumerActive {
      MarkedAddressable(s, w, i);
      DequeueJobHandsOver(WithMark(s, w, i, 1), w, i);
    }
  }

  lemma StaysUpToDate(
      s: State, pipelines: seq<StoredPipeline>, snapshot: seq<Job>, w: Which, redis: map<string, nat>)
    requires pipelines != [] && DistinctNames(pipelines) && FirstHeldOf(snapshot, pipelines[0].name).Some?
    requires Addressable(s) && UpToDate(s.active, pipelines, redis)
    ensures UpToDate(Promote(s, pipelines[0], snapshot, w).active, pipelines[1..], redis)
  {
    forall p | p in pipelines[1..]
      ensures var a := Promote(s, pipelines[0], snapshot, w).active;
              p.name in a && a[p.name] == Active(Num(Running(redis, p.name)), Some(p.amount))
    {
      assert p in pipelines && p.name != pipelines[0].name;
      PromoteLeavesOthers(s, pipelines[0], snapshot, w, p.name);
    }
  }

  /** The others keep what they had. */
  ghost predicate ReadFor(was: Tracking, active: Tracking, pipelines: seq<StoredPipeline>, redis: map<string, nat>) {
    && UpToDate(active, pipelines, redis)
    && forall name :: (forall p :: p in pipelines ==> p.name != name) ==>
         (name in active <==> name in was) && (name in active ==> active[name] == was[name])
  }

  lemma RefreshedIsRead(active: Tracking, pipelines: seq<StoredPipeline>, redis: map<string, nat>)
    requires DistinctNames(pipelines)
    ensures ReadFor(active, Refresh(active, pipelines, redis), pipelines, redis)
  {
    RefreshedIsUpToDate(active, pipelines, redis);
    forall name | forall p :: p in pipelines ==> p.name != name
      ensures var a := Refresh(active, pipelines, redis);
              (name in a <==> name in active) && (name in a ==> a[name] == active[name])
    {
      RefreshedCounts(active, pipelines, redis, name);
    }
  }

  // ---------------------------------------------------------------- promotion by promotion

  /**
   * What one promotion does for a pipeline of which `n` jobs run and `m` may: nothing at the limit or if the queue
   * holds none of its jobs back. Else the first of them is marked and let run, if there is room, or refused.
   */
  ghost predicate Promotes(s: State, u: State, name: string, experiment: string, w: Which, n: int, m: int) {
    && (n >= m || NoneHeldBack(s.Q(w), experiment, name) ==> u == s)
    && forall i: nat :: n < m && FirstHeldAt(s.Q(w), i, experiment, name) ==>
         if Room(s, name, n, m) then LetsRun(WithMark(s, w, i, 1), u, w, i, name, n, m)
         else Refuses(s, u, w, i, name, n, m)
  }

  /** The experiment is that of the first job of the pipeline that was read held back. */
  ghost predicate PromotesFor(
      s: State, u: State, p: StoredPipeline, snapshot: seq<Job>, w: Which, redis: map<string, nat>)
  {
    forall h: nat :: FirstHeldIn(snapshot, h, p.name) ==>
      Promotes(s, u, p.name, snapshot[h].experimentName, w, Running(redis, p.name), p.amount)
  }

  lemma PromotePromotes(s: State, p: StoredPipeline, snapshot: seq<Job>, w: Which, held: Job, n: int, m: int)
    requires Addressable(s) && FirstHeldOf(snapshot, p.name) == Some(held)
    requires p.name in s.active && s.active[p.name] == Active(Num(n), Some(m))
    ensures Promotes(s, Promote(s, p, snapshot, w), p.name, held.experimentName, w, n, m)
  {
    var u := Promote(s, p, snapshot, w);
    if NoneHeldBack(s.Q(w), held.experimentName, p.name) {
      NoneToPromote(s, p, snapshot, w, held);
    }
    forall i: nat | n < m && FirstHeldAt(s.Q(w), i, held.experimentName, p.name)
      ensures if Room(s, p.name, n, m) then LetsRun(WithMark(s, w, i, 1), u, w, i, p.name, n, m)
              else Refuses(s, u, w, i, p.name, n, m)
    {
      PromotionLetsRunIff(s, p, snapshot, w, held, i, n, m);
    }
  }

  lemma PromoteIsFor(s: State, p: StoredPipeline, snapshot: seq<Job>, w: Which, redis: map<string, nat>)
    requires Addressable(s) && FirstHeldOf(snapshot, p.name).Some?
    requires p.name in s.active && s.active[p.name] == Active(Num(Running(redis, p.name)), Some(p.amount))
    ensures PromotesFor(s, Promote(s, p, snapshot, w), p, snapshot, w, redis)
  {
    forall h: nat | FirstHeldIn(snapshot, h, p.name)
      ensures Promotes(s, Promote(s, p, snapshot, w), p.name, snapshot[h].experimentName, w,
                       Running(redis, p.name), p.amount)
    {
      FirstHeldIs(snapshot, h, p.name);
      PromotePromotes(s, p, snapshot, w, snapshot[h], Running(redis, p.name), p.amount);
    }
  }

  /** From state to state, one promotion for each of the pipelines. */
  ghost predicate InTurn(
      ts: seq<State>, pipelines: seq<StoredPipeline>, snapshot: seq<Job>, w: Which, redis: map<string, nat>)
  {
    && |ts| == |pipelines| + 1
    && forall k :: 0 <= k < |pipelines| ==> PromotesFor(ts[k], ts[k + 1], pipelines[k], snapshot, w, redis)
  }

  ghost predicate Leads(ts: seq<State>, s: State, u: State) {
    |ts| > 0 && ts[0] == s && ts[|ts| - 1] == u
  }

  lemma InTurnCons(
      s: State, ts: seq<State>, t: State, u: State, pipelines: seq<StoredPipeline>, snapshot: seq<Job>, w: Which,
      redis: map<string, nat>)
    requires pipelines != [] && InTurn(ts, pipelines[1..], snapshot, w, redis) && Leads(ts, t, u)
    requires PromotesFor(s, t, pipelines[0], snapshot, w, redis)
    ensures InTurn([s] + ts, pipelines, snapshot, w, redis) && Leads([s] + ts, s, u)
  {
    var all := [s] + ts;
    forall k | 0 <= k < |pipelines| ensures PromotesFor(all[k], all[k + 1], pipelines[k], snapshot, w, redis) {
      if k > 0 {
        assert all[k] == ts[k - 1] && all[k + 1] == ts[k] && pipelines[k] == pipelines[1..][k - 1];
      }
    }
  }

  /** The first promotion of several, and what the others may rely on. */
  lemma FirstTurn(s: State, pipelines: seq<StoredPipeline>, snapshot: seq<Job>, w: Which, redis: map<string, nat>)
    requires pipelines != [] && FirstHeldOf(snapshot, pipelines[0].name).Some?
    requires Addressable(s) && DistinctNames(pipelines) && UpToDate(s.active, pipelines, redis)
    ensures var u := Promote(s, pipelines[0], snapshot, w);
            && PromotesFor(s, u, pipelines[0], snapshot, w, redis)
            && Addressable(u) && DistinctNames(pipelines[1..]) && UpToDate(u.active, pipelines[1..], redis)
  {
    assert pipelines[0] in pipelines;
    PromoteIsFor(s, pipelines[0], snapshot, w, redis);
    PromoteKeepsAddressable(s, pipelines[0], snapshot, w);
    StaysUpToDate(s, pipelines, snapshot, w, redis);
  }

  lemma {:induction false} PromoteEachInTurn(
      s: State, pipelines: seq<StoredPipeline>, snapshot: seq<Job>, w: Which, redis: map<string, nat>)
      returns (ts: seq<State>)
    requires forall p :: p in pipelines ==> FirstHeldOf(snapshot, p.name).Some?
    requires Addressable(s) && DistinctNames(pipelines) && UpToDate(s.active, pipelines, redis)
    ensures InTurn(ts, pipelines, snapshot, w, redis) && Leads(ts, s, PromoteEach(s, pipelines, snapshot, w))
    decreases |pipelines|
  {
    if pipelines == [] {
      ts := [s];
    } else {
      FirstTurn(s, pipelines, snapshot, w, redis);
      var t := Promote(s, pipelines[0], snapshot, w);
      var rest := PromoteEachInTurn(t, pipelines[1..], snapshot, w, redis);
      InTurnCons(s, rest, t, PromoteEach(t, pipelines[1..], snapshot, w), pipelines, snapshot, w, redis);
      ts := [s] + rest;
    }
  }

  /** The interval reads its counts and then promotes, one pipeline it works on after the other. */
  lemma IntervalInTurn(
      s: State, w: Which, snapshot: seq<Job>, redis: map<string, nat>, stored: seq<StoredPipeline>)
      returns (at: seq<nat>, pipelines: seq<StoredPipeline>, ts: seq<State>)
    requires Addressable(s) && DistinctNames(stored)
    ensures Picked(stored, at, pipelines) && WorksOnAt(stored, snapshot, at)
    ensures InTurn(ts, pipelines, snapshot, w, redis)
    ensures ts[0] == s.(active := ts[0].active) && ReadFor(s.active, ts[0].active, pipelines, redis)
    ensures ts[|pipelines|] == Interval(s, w, snapshot, redis, stored)
  {
    pipelines := Relevant(stored, snapshot);
    at := RelevantIs(stored, snapshot);
    RelevantDistinct(stored, snapshot);
    var t := s.(active := Refresh(s.active, pipelines, redis));
    assert NoMoreWait(s, t);
    AddressableKept(s, t);
    RefreshedIsRead(s.active, pipelines, redis);
    ts := PromoteEachInTurn(t, pipelines, snapshot, w, redis);
    NothingHeldBack(stored, snapshot);
  }

  lemma {:induction false} NothingHeldBack(stored: seq<StoredPipeline>, snapshot: seq<Job>)
    ensures (forall j :: j in snapshot ==> !j.maxExceeded) ==> Relevant(stored, snapshot) == []
  {
    if stored != [] {
      NothingHeldBack(stored[1..], snapshot);
    }
  }

  // ---------------------------------------------------------------- how many, and whether it goes on

  /** The pipelines whose count is below the limit. */
  ghost function Below(pipelines: seq<StoredPipeline>, redis: map<string, nat>): set<StoredPipeline> {
    set p | p in pipelines && Running(redis, p.name) < p.amount
  }

  lemma OthersAreNamedOtherwise(pipelines: seq<StoredPipeline>)
    requires pipelines != [] && DistinctNames(pipelines)
    ensures forall q :: q in pipelines[1..] ==> q.name != pipelines[0].name
  {
    var rest := pipelines[1..];
    forall q | q in rest ensures q.name != pipelines[0].name {
      var i :| 0 <= i < |rest| && rest[i] == q;
      assert pipelines[i + 1] == q;
    }
  }

  lemma BelowCons(p: StoredPipeline, rest: seq<StoredPipeline>, redis: map<string, nat>)
    ensures Below([p] + rest, redis) == (if Running(redis, p.name) < p.amount then {p} else {}) + Below(rest, redis)
  {
    forall q ensures q in [p] + rest <==> q == p || q in rest {
    }
  }

  lemma BelowStep(pipelines: seq<StoredPipeline>, redis: map<string, nat>)
    requires pipelines != [] && DistinctNames(pipelines)
    ensures |Below(pipelines, redis)| ==
            (if Running(redis, pipelines[0].name) < pipelines[0].amount then 1 else 0) + |Below(pipelines[1..], redis)|
  {
    OthersAreNamedOtherwise(pipelines);
    BelowCons(pipelines[0], pipelines[1..], redis);
    assert pipelines == [pipelines[0]] + pipelines[1..];
  }

  lemma {:induction false} TriedIsBelow(
      s: State, pipelines: seq<StoredPipeline>, snapshot: seq<Job>, w: Which, redis: map<string, nat>)
    requires forall p :: p in pipelines ==> FirstHeldOf(snapshot, p.name).Some?
    requires Addressable(s) && DistinctNames(pipelines) && UpToDate(s.active, pipelines, redis)
    ensures Tried(s, pipelines, snapshot, w) == |Below(pipelines, redis)|
    decreases |pipelines|
  {
    if pipelines == [] {
      assert Below(pipelines, redis) == {};
    } else {
      FirstTurn(s, pipelines, snapshot, w, redis);
      BelowStep(pipelines, redis);
      assert Required(s.active, pipelines[0].name) == pipelines[0].amount - Running(redis, pipelines[0].name) by {
        assert pipelines[0] in pipelines;
      }
      TriedIsBelow(Promote(s, pipelines[0], snapshot, w), pipelines[1..], snapshot, w, redis);
    }
  }

  /** The stored pipelines of which the interval tries to promote a job. */
  ghost function ToPromote(
      stored: seq<StoredPipeline>, snapshot: seq<Job>, redis: map<string, nat>): set<StoredPipeline>
  {
    set p | p in stored && WorksOn(p, snapshot) && Running(redis, p.name) < p.amount
  }

  /** An interval tries one promotion for each pipeline it works on of which fewer jobs run than may. */
  lemma TriedIs(s: State, w: Which, snapshot: seq<Job>, redis: map<string, nat>, stored: seq<StoredPipeline>)
    requires Addressable(s) && DistinctNames(stored)
    ensures IntervalTried(s, w, snapshot, redis, stored) == |ToPromote(stored, snapshot, redis)|
  {
    var pipelines := Relevant(stored, snapshot);
    RelevantDistinct(stored, snapshot);
    var t := s.(active := Refresh(s.active, pipelines, redis));
    assert NoMoreWait(s, t);
    AddressableKept(s, t);
    RefreshedIsUpToDate(s.active, pipelines, redis);
    TriedIsBelow(t, pipelines, snapshot, w, redis);
    NothingHeldBack(stored, snapshot);
    BelowAreToPromote(stored, snapshot, redis);
    assert pipelines == [] ==> Below(pipelines, redis) == {};
  }

  lemma BelowAreToPromote(stored: seq<StoredPipeline>, snapshot: seq<Job>, redis: map<string, nat>)
    ensures Below(Relevant(stored, snapshot), redis) == ToPromote(stored, snapshot, redis)
  {
    forall p ensures p in Relevant(stored, snapshot) <==> p in stored && WorksOn(p, snapshot) {
      RelevantIff(stored, snapshot, p);
    }
  }

  /** The interval goes on to main exactly when it promotes no preferred job and every preferred job is held back. */
  lemma GoesOnIff(s: State, snapshot: seq<Job>, redis: map<string, nat>, stored: seq<StoredPipeline>)
    requires Addressable(s) && DistinctNames(stored)
    ensures var t := Interval(s, PreferredQ, snapshot, redis, stored);
            GoesOn(t, IntervalTried(s, PreferredQ, snapshot, redis, stored))
            <==> ToPromote(stored, snapshot, redis) == {} && AllHeld(t.preferred)
  {
    TriedIs(s, PreferredQ, snapshot, redis, stored);
  }
}
