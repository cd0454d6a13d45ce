/**
 * What the concurrency handler answers, by positions: the eligible jobs of a pipeline that wait in either queue use up
 * its limit together with those that run, and a held-back job is let run only if there is room beside them.
 */
module DispatchLimits {
  import opened Wrappers
  import opened DriverJobs
  import opened DriverQueue
  import opened DispatchModel
  import opened DispatchConservation
  import opened DispatchAddressing
  import opened DispatchConcurrency
  import opened DispatchServing

  // ---------------------------------------------------------------- room

  /** Where eligible jobs of the pipeline wait. */
  ghost function Positions(q: seq<Job>, name: string): set<nat> {
    set i: nat | i < |q| && !q[i].maxExceeded && q[i].pipelineName == name
  }

  lemma WaitingOneMore(q: seq<Job>, j: Job, name: string)
    ensures Waiting(q + [j], name) == Waiting(q, name) + if !j.maxExceeded && j.pipelineName == name then 1 else 0
  {
    if q == [] {
      assert [j][1..] == [] && [] + [j] == [j];
    } else {
      assert (q + [j])[1..] == q[1..] + [j];
      WaitingOneMore(q[1..], j, name);
    }
  }

  lemma {:induction false} WaitingIsPositions(q: seq<Job>, name: string)
    ensures Waiting(q, name) == |Positions(q, name)|
  {
    if q != [] {
      var front, j := q[..|q| - 1], q[|q| - 1];
      WaitingIsPositions(front, name);
      WaitingOneMore(front, j, name);
      assert q == front + [j];
      assert Positions(q, name) ==
             Positions(front, name) + if !j.maxExceeded && j.pipelineName == name then {|q| - 1} else {};
    }
  }

  ghost predicate IsHeldBack(j: Job, experiment: string, name: string) {
    j.maxExceeded && j.experimentName == experiment && j.pipelineName == name
  }

  /** Position `i` holds the first job of this experiment and pipeline that is held back. */
  ghost predicate FirstHeldAt(q: seq<Job>, i: nat, experiment: string, name: string) {
    i < |q| && IsHeldBack(q[i], experiment, name) && forall k :: 0 <= k < i ==> !IsHeldBack(q[k], experiment, name)
  }

  ghost predicate NoneHeldBack(q: seq<Job>, experiment: string, name: string) {
    forall k :: 0 <= k < |q| ==> !IsHeldBack(q[k], experiment, name)
  }

  lemma FindHeldAt(q: seq<Job>, i: nat, experiment: string, name: string)
    requires FirstHeldAt(q, i, experiment, name)
    ensures FindHeld(q, experiment, name) == i
  {
    var k := FindHeld(q, experiment, name);
    assert k < i ==> IsHeldBack(q[k], experiment, name);
  }

  /** `n` jobs of the pipeline run and `m` may; a zero count or limit is taken for none at all. */
  ghost predicate Room(s: State, name: string, n: int, m: int) {
    n == 0 || m == 0 || n + |Positions(s.main, name)| + |Positions(s.preferred, name)| <= m
  }

  lemma RoomIff(s: State, name: string, n: int, m: int)
    requires name in s.active && s.active[name] == Active(Num(n), Some(m))
    ensures CheckRunningJobs(s, name) <==> Room(s, name, n, m)
  {
    WaitingIsPositions(s.main, name);
    WaitingIsPositions(s.preferred, name);
  }

  // ---------------------------------------------------------------- one queue

  function WithCount(s: State, name: string, n: int, m: int): State {
    s.(active := s.active[name := Active(Num(n), Some(m))])
  }

  function WithMark(s: State, w: Which, i: nat, mark: int): State
    requires i < |s.Q(w)|
  {
    s.WithQ(w, s.Q(w)[i := s.Q(w)[i].(updateRunning := mark)])
  }

  /** The job at position `i` goes to the consumer, if it is active, and its mark is added to the count. */
  ghost predicate LetsRun(s: State, u: State, w: Which, i: nat, name: string, n: int, m: int)
    requires i < |s.Q(w)|
  {
    if s.consumerActive
    then HandsOver(s, u, w, i) && u.active == WithCount(s, name, n + s.Q(w)[i].updateRunning, m).active
    else u == s
  }

  /** Nothing is handed out, the job stays without a mark, and the count drops by one. */
  ghost predicate Refuses(s: State, u: State, w: Which, i: nat, name: string, n: int, m: int)
    requires i < |s.Q(w)|
  {
    u == WithCount(WithMark(s, w, i, 0), name, n - 1, m)
  }

  lemma DequeueJobHandsOver(s: State, w: Which, i: nat)
    requires Addressable(s) && i < |s.Q(w)| && s.consumerActive
    ensures HandsOver(s, DequeueJob(s, s.Q(w)[i].jobId), w, i)
    ensures DequeueJob(s, s.Q(w)[i].jobId).active == UpdateActiveJobs(s.active, s.Q(w)[i])
  {
    FindsIt(s, w, i);
    CreateJobHandsOver(s, w, i);
  }

  /** The mark of a job is added to the count of its pipeline. */
  lemma MarkIsCounted(active: Tracking, job: Job, n: int, m: int)
    requires job.pipelineName in active && active[job.pipelineName] == Active(Num(n), Some(m))
    ensures UpdateActiveJobs(active, job) == active[job.pipelineName := Active(Num(n + job.updateRunning), Some(m))]
  {
  }

  lemma JobLetRun(s: State, w: Which, i: nat, name: string, n: int, m: int)
    requires Addressable(s) && i < |s.Q(w)| && s.Q(w)[i].pipelineName == name
    requires name in s.active && s.active[name] == Active(Num(n), Some(m))
    ensures LetsRun(s, DequeueJob(s, s.Q(w)[i].jobId), w, i, name, n, m)
  {
    if s.consumerActive {
      DequeueJobHandsOver(s, w, i);
      HandedOverIsLetRun(s, DequeueJob(s, s.Q(w)[i].jobId), w, i, name, n, m);
    }
  }

  lemma HandedOverIsLetRun(s: State, u: State, w: Which, i: nat, name: string, n: int, m: int)
    requires s.consumerActive && i < |s.Q(w)| && s.Q(w)[i].pipelineName == name
    requires name in s.active && s.active[name] == Active(Num(n), Some(m))
    requires HandsOver(s, u, w, i) && u.active == UpdateActiveJobs(s.active, s.Q(w)[i])
    ensures LetsRun(s, u, w, i, name, n, m)
  {
    MarkIsCounted(s.active, s.Q(w)[i], n, m);
  }

  lemma JobRefused(s: State, w: Which, i: nat, name: string, n: int, m: int)
    requires i < |s.Q(w)| && s.Q(w)[i].pipelineName == name
    requires name in s.active && s.active[name] == Active(Num(n), Some(m))
    ensures var u := Mark(s, w, i, 0).(active := UpdateActiveJobs(s.active, s.Q(w)[i].(updateRunning := -1)));
            Refuses(s, u, w, i, name, n, m)
  {
    MarkIsCounted(s.active, s.Q(w)[i].(updateRunning := -1), n, m);
  }

  /** The check of one queue on behalf of an event lets the first job held back run exactly when there is room. */
  lemma EventLetsRunIff(s: State, experiment: string, name: string, w: Which, i: nat, n: int, m: int)
    requires Addressable(s) && FirstHeldAt(s.Q(w), i, experiment, name)
    requires name in s.active && s.active[name] == Active(Num(n), Some(m))
    ensures var (u, done) := CheckMaxExceededIn(s, experiment, name, false, w);
            && done == Room(s, name, n, m)
            && (done ==> LetsRun(s, u, w, i, name, n, m))
            && (!done ==> Refuses(s, u, w, i, name, n, m))
  {
    FindHeldAt(s.Q(w), i, experiment, name);
    RoomIff(s, name, n, m);
    JobLetRun(s, w, i, name, n, m);
    JobRefused(s, w, i, name, n, m);
  }

  /** Of a pipeline that is not tracked every job is let run. */
  lemma UntrackedRuns(s: State, experiment: string, name: string, w: Which, i: nat)
    requires Addressable(s) && FirstHeldAt(s.Q(w), i, experiment, name)
    requires name in s.active ==> s.active[name].count.NaN? || s.active[name].max.None?
    ensures var (u, done) := CheckMaxExceededIn(s, experiment, name, false, w);
            done && if s.consumerActive then HandsOver(s, u, w, i) else u == s
  {
    FindHeldAt(s.Q(w), i, experiment, name);
    if s.consumerActive {
      DequeueJobHandsOver(s, w, i);
    }
  }

  lemma NoneToLetRun(s: State, experiment: string, name: string, increment: bool, w: Which)
    requires NoneHeldBack(s.Q(w), experiment, name)
    ensures CheckMaxExceededIn(s, experiment, name, increment, w) == (s, false)
  {
  }

  // ---------------------------------------------------------------- a finished job

  /** What a finished job does to one queue: the first job held back is let run or refused. */
  ghost predicate Served(s: State, u: State, experiment: string, name: string, w: Which, n: int, m: int) {
    && (NoneHeldBack(s.Q(w), experiment, name) ==> u == s)
    && forall i: nat :: FirstHeldAt(s.Q(w), i, experiment, name) ==>
         if Room(s, name, n, m) then LetsRun(s, u, w, i, name, n, m) else Refuses(s, u, w, i, name, n, m)
  }

  lemma EventServes(s: State, experiment: string, name: string, w: Which, n: int, m: int)
    requires Addressable(s) && name in s.active && s.active[name] == Active(Num(n), Some(m))
    ensures Served(s, CheckMaxExceededIn(s, experiment, name, false, w).0, experiment, name, w, n, m)
  {
    forall i: nat | FirstHeldAt(s.Q(w), i, experiment, name)
      ensures var u := CheckMaxExceededIn(s, experiment, name, false, w).0;
              if Room(s, name, n, m) then LetsRun(s, u, w, i, name, n, m) else Refuses(s, u, w, i, name, n, m)
    {
      EventLetsRunIff(s, experiment, name, w, i, n, m);
    }
  }

  /** After a refusal in the preferred queue: the job there unmarked, the count one less. */
  function Refused(s: State, i: nat, name: string, n: int, m: int): State
    requires i < |s.preferred|
  {
    WithCount(WithMark(s, PreferredQ, i, 0), name, n - 1, m)
  }

  ghost predicate ServesPreferredThenMain(
      s: State, u: State, experiment: string, name: string, i: nat, n: int, m: int)
    requires i < |s.preferred|
  {
    if Room(s, name, n, m) then LetsRun(s, u, PreferredQ, i, name, n, m)
    else Served(Refused(s, i, name, n, m), u, experiment, name, MainQ, n - 1, m)
  }

  lemma PreferredThenMain(s: State, experiment: string, name: string, i: nat, n: int, m: int)
    requires Addressable(s) && name in s.active && s.active[name] == Active(Num(n), Some(m))
    requires FirstHeldAt(s.preferred, i, experiment, name)
    ensures ServesPreferredThenMain(s, CheckMaxExceeded(s, experiment, name), experiment, name, i, n, m)
  {
    EventLetsRunIff(s, experiment, name, PreferredQ, i, n, m);
    if !Room(s, name, n, m) {
      EventKeepsAddressable(s, experiment, name, PreferredQ);
      EventServes(Refused(s, i, name, n, m), experiment, name, MainQ, n - 1, m);
    }
  }

  /**
   * A finished job of a tracked pipeline serves the preferred queue. Only if no job of it was held back there, or the
   * first was refused, main is served, in the second case with the count already one less.
   */
  lemma FinishedServes(s: State, hs: seq<Heuristic>, experiment: string, name: string, n: int, m: int)
    requires Addressable(s) && name in s.active && s.active[name] == Active(Num(n), Some(m))
    ensures var u := Step(s, hs, Finished(experiment, name));
            && (NoneHeldBack(s.preferred, experiment, name) ==> Served(s, u, experiment, name, MainQ, n, m))
            && forall i: nat :: FirstHeldAt(s.preferred, i, experiment, name) ==>
                 ServesPreferredThenMain(s, u, experiment, name, i, n, m)
  {
    if NoneHeldBack(s.preferred, experiment, name) {
      NoneToLetRun(s, experiment, name, false, PreferredQ);
      EventServes(s, experiment, name, MainQ, n, m);
    }
    forall i: nat | FirstHeldAt(s.preferred, i, experiment, name)
      ensures ServesPreferredThenMain(s, CheckMaxExceeded(s, experiment, name), experiment, name, i, n, m)
    {
      PreferredThenMain(s, experiment, name, i, n, m);
    }
  }

  // ---------------------------------------------------------------- a promotion

  /**
   * A promotion of an interval does nothing at the limit. Below it the first job held back is marked and let run if
   * there is room, and stays marked if the consumer is not active; without room it is refused.
   */
  lemma PromotionLetsRunIff(
      s: State, p: StoredPipeline, snapshot: seq<Job>, w: Which, held: Job, i: nat, n: int, m: int)
    requires Addressable(s) && FirstHeldOf(snapshot, p.name) == Some(held)
    requires FirstHeldAt(s.Q(w), i, held.experimentName, p.name)
    requires p.name in s.active && s.active[p.name] == Active(Num(n), Some(m))
    ensures var u := Promote(s, p, snapshot, w);
            if n >= m then u == s
            else if Room(s, p.name, n, m) then LetsRun(WithMark(s, w, i, 1), u, w, i, p.name, n, m)
            else Refuses(s, u, w, i, p.name, n, m)
  {
    FindHeldAt(s.Q(w), i, held.experimentName, p.name);
    RoomIff(s, p.name, n, m);
    MarkedAddressable(s, w, i);
    JobLetRun(WithMark(s, w, i, 1), w, i, p.name, n, m);
    JobRefused(s, w, i, p.name, n, m);
  }

  lemma MarkedAddressable(s: State, w: Which, i: nat)
    requires Addressable(s) && i < |s.Q(w)|
    ensures Addressable(WithMark(s, w, i, 1))
  {
    forall r: Property ensures Waits(WithMark(s, w, i, 1), r) <= Waits(s, r) { MarkWaits(s, w, i, 1, r); }
    AddressableKept(s, WithMark(s, w, i, 1));
  }

  lemma NoneToPromote(s: State, p: StoredPipeline, snapshot: seq<Job>, w: Which, held: Job)
    requires FirstHeldOf(snapshot, p.name) == Some(held) && NoneHeldBack(s.Q(w), held.experimentName, p.name)
    ensures Promote(s, p, snapshot, w) == s
  {
  }

  // ---------------------------------------------------------------- an interval

  /** The pipelines an interval works on: stored, not rejecting on failure, with a job held back in the list it read. */
  lemma {:induction false} RelevantIff(stored: seq<StoredPipeline>, snapshot: seq<Job>, p: StoredPipeline)
    ensures p in Relevant(stored, snapshot) <==>
              p in stored && p.holdsBack && exists j :: j in snapshot && j.maxExceeded && j.pipelineName == p.name
  {
    if stored != [] {
      RelevantIff(stored[1..], snapshot, p);
      assert stored == [stored[0]] + stored[1..];
    }
  }

  /** Each of them gets its count from Redis, none there counting as 0, and its limit; the others keep what they had. */
  lemma {:induction false} RefreshedCounts(
      active: Tracking, pipelines: seq<StoredPipeline>, redis: map<string, nat>, name: string)
    requires forall i, j :: 0 <= i < j < |pipelines| ==> pipelines[i].name != pipelines[j].name
    ensures var a := Refresh(active, pipelines, redis);
            && (forall p :: p in pipelines && p.name == name ==>
                  && name in a && a[name].max == Some(p.amount)
                  && a[name].count == Num(if name in redis then redis[name] else 0))
            && ((forall p :: p in pipelines ==> p.name != name) ==>
                  (name in a <==> name in active) && (name in a ==> a[name] == active[name]))
    decreases |pipelines|
  {
    if pipelines != [] {
      var p, rest := pipelines[0], pipelines[1..];
      var next := active[p.name := Active(Num(RedisCount(redis, p.name)), Some(p.amount))];
      RefreshedCounts(next, rest, redis, name);
      assert pipelines == [p] + rest;
      forall q | q in rest ensures q.name != p.name {
        var i :| 0 <= i < |rest| && rest[i] == q;
        assert pipelines[i + 1] == q;
      }
    }
  }
}
