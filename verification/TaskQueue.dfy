/** The queue of one algorithm and the producer that sends its tasks and takes stuck ones back. */
module TaskQueue {
  import opened Wrappers
  import opened Sequences
  import opened StableSort
  import opened AlgorithmTasks

  /** A request to remove tasks: an empty task id means all tasks of the job. */
  datatype TaskRef = TaskRef(jobId: string, taskId: string)

  // ---------------------------------------------------------------- specification

  function ScoredAll(hs: seq<Heuristic>, now: int, ts: seq<Task>): (r: seq<Task>)
    ensures |r| == |ts| && forall i :: 0 <= i < |r| ==> r[i] == Scored(hs, now, ts[i])
  {
    seq(|ts|, i requires 0 <= i < |ts| => Scored(hs, now, ts[i]))
  }

  /** What is to be removed: a prescheduled task that arrives for real, or the tasks of a request. */
  datatype Pattern = Duplicate(jobId: string, taskId: string) | Requested(ref: TaskRef)

  predicate Matches(p: Pattern, t: Task) {
    match p
    case Duplicate(jobId, taskId) => t.jobId == jobId && t.taskId == taskId && t.status == PRESCHEDULE
    case Requested(ref) => t.jobId == ref.jobId && (ref.taskId != "" ==> t.taskId == ref.taskId)
  }

  predicate MatchesAny(ps: seq<Pattern>, t: Task) {
    exists p :: p in ps && Matches(p, t)
  }

  /** What lodash `remove` leaves, in order, once all patterns are done. */
  function Keep(q: seq<Task>, ps: seq<Pattern>): seq<Task> {
    if q == [] then [] else (if MatchesAny(ps, q[0]) then [] else [q[0]]) + Keep(q[1..], ps)
  }

  /** What lodash `remove` returns for one pattern. */
  function Take(q: seq<Task>, p: Pattern): seq<Task> {
    if q == [] then [] else (if Matches(p, q[0]) then [q[0]] else []) + Take(q[1..], p)
  }

  function Duplicates(ts: seq<Task>): (r: seq<Pattern>)
    ensures |r| == |ts|
  {
    seq(|ts|, i requires 0 <= i < |ts| => Duplicate(ts[i].jobId, ts[i].taskId))
  }

  function Requests(refs: seq<TaskRef>): (r: seq<Pattern>)
    ensures |r| == |refs|
  {
    seq(|refs|, i requires 0 <= i < |refs| => Requested(refs[i]))
  }

  function Added(hs: seq<Heuristic>, q: seq<Task>, ts: seq<Task>, now: int): seq<Task> {
    if ts == [] then q else SortDesc(Keep(q, Duplicates(ts)) + ScoredAll(hs, now, ts), ScoreOf)
  }

  /** A cycle: enrich, score, sort. */
  function Cycled(hs: seq<Heuristic>, q: seq<Task>, now: int): seq<Task> {
    SortDesc(ScoredAll(hs, now, EnrichedAll(q)), ScoreOf)
  }

  /** Removing pattern by pattern is removing all at once. */
  lemma {:induction false} KeepTwice(q: seq<Task>, ps: seq<Pattern>, p: Pattern)
    ensures Keep(Keep(q, ps), [p]) == Keep(q, ps + [p])
  {
    if q != [] {
      KeepTwice(q[1..], ps, p);
      var rest := Keep(q[1..], ps);
      assert MatchesAny([p], q[0]) <==> Matches(p, q[0]);
      MatchesMore(ps, p, q[0]);
      if MatchesAny(ps, q[0]) {
        assert Keep(q, ps) == rest;
      } else {
        assert Keep(q, ps)[0] == q[0] && Keep(q, ps)[1..] == rest;
      }
    }
  }

  lemma MatchesMore(ps: seq<Pattern>, p: Pattern, t: Task)
    ensures MatchesAny(ps + [p], t) <==> MatchesAny(ps, t) || Matches(p, t)
  {
    if MatchesAny(ps, t) {
      var x :| x in ps && Matches(x, t);
      assert x in ps + [p];
    }
    assert p in ps + [p];
  }

  lemma {:induction false} KeepAll(q: seq<Task>)
    ensures Keep(q, []) == q
  {
    if q != [] {
      KeepAll(q[1..]);
    }
  }

  lemma KeepStep(t: Task, rest: seq<Task>, p: Pattern)
    ensures Matches(p, t) ==> Take([t] + rest, p) == [t] + Take(rest, p) && Keep([t] + rest, [p]) == Keep(rest, [p])
    ensures !Matches(p, t) ==> Take([t] + rest, p) == Take(rest, p) && Keep([t] + rest, [p]) == [t] + Keep(rest, [p])
  {
    MatchesMore([], p, t);
    assert [] + [p] == [p] && ([t] + rest)[1..] == rest;
  }

  lemma {:induction false} KeepAndTake(q: seq<Task>, p: Pattern)
    ensures multiset(Take(q, p)) + multiset(Keep(q, [p])) == multiset(q)
  {
    if q != [] {
      assert q == [q[0]] + q[1..];
      KeepStep(q[0], q[1..], p);
      KeepAndTake(q[1..], p);
    }
  }

  /** Everything removed, pattern by pattern. */
  function Removed(q: seq<Task>, ps: seq<Pattern>): seq<Task> {
    if ps == [] then []
    else
      var before := ps[..|ps| - 1];
      Removed(q, before) + Take(Keep(q, before), ps[|ps| - 1])
  }

  lemma RemoveTurn(q: seq<Task>, ps: seq<Pattern>, i: nat)
    requires i < |ps|
    ensures Keep(Keep(q, ps[..i]), [ps[i]]) == Keep(q, ps[..i + 1])
    ensures Removed(q, ps[..i]) + Take(Keep(q, ps[..i]), ps[i]) == Removed(q, ps[..i + 1])
  {
    KeepTwice(q, ps[..i], ps[i]);
    assert ps[..i + 1] == ps[..i] + [ps[i]] && ps[..i + 1][..i] == ps[..i];
  }

  /** The first `i` patterns are done. */
  ghost predicate RemovedUpTo(q: seq<Task>, ps: seq<Pattern>, i: nat, kept: seq<Task>, gone: seq<Task>) {
    i <= |ps| && kept == Keep(q, ps[..i]) && gone == Removed(q, ps[..i])
  }

  lemma RemovedOneMore(q: seq<Task>, ps: seq<Pattern>, i: nat, kept: seq<Task>, gone: seq<Task>)
    requires i < |ps| && RemovedUpTo(q, ps, i, kept, gone)
    ensures RemovedUpTo(q, ps, i + 1, Keep(kept, [ps[i]]), gone + Take(kept, ps[i]))
  {
    RemoveTurn(q, ps, i);
  }

  /** What is removed and what stays is what there was. */
  lemma {:induction false} RemovedAndKept(q: seq<Task>, ps: seq<Pattern>)
    ensures multiset(Removed(q, ps)) + multiset(Keep(q, ps)) == multiset(q)
    decreases |ps|
  {
    if ps == [] {
      KeepAll(q);
    } else {
      var before, last := ps[..|ps| - 1], ps[|ps| - 1];
      RemovedAndKept(q, before);
      KeepAndTake(Keep(q, before), last);
      KeepTwice(q, before, last);
      assert ps == before + [last];
    }
  }

  lemma {:induction false} KeepHas(q: seq<Task>, ps: seq<Pattern>, t: Task)
    ensures t in Keep(q, ps) <==> t in q && !MatchesAny(ps, t)
  {
    if q != [] {
      KeepHas(q[1..], ps, t);
      assert q == [q[0]] + q[1..];
    }
  }

  // ---------------------------------------------------------------- what stays and what goes

  /** A waiting task gives way to an arriving one if it was prescheduled and has its ids. */
  ghost predicate GivesWay(t: Task, ts: seq<Task>) {
    t.status == "preschedule" && exists u :: u in ts && u.jobId == t.jobId && u.taskId == t.taskId
  }

  /** A request without a task names every task of its job. */
  ghost predicate IsRequested(t: Task, ref: TaskRef) {
    t.jobId == ref.jobId && (ref.taskId == "" || ref.taskId == t.taskId)
  }

  lemma GivesWayIff(t: Task, ts: seq<Task>)
    ensures MatchesAny(Duplicates(ts), t) <==> GivesWay(t, ts)
  {
    if MatchesAny(Duplicates(ts), t) {
      var p :| p in Duplicates(ts) && Matches(p, t);
      var i :| 0 <= i < |ts| && Duplicates(ts)[i] == p;
      assert ts[i] in ts;
    }
    if GivesWay(t, ts) {
      var u :| u in ts && u.jobId == t.jobId && u.taskId == t.taskId;
      var i :| 0 <= i < |ts| && ts[i] == u;
      assert Matches(Duplicates(ts)[i], t);
    }
  }

  lemma IsRequestedIff(t: Task, refs: seq<TaskRef>)
    ensures MatchesAny(Requests(refs), t) <==> exists ref :: ref in refs && IsRequested(t, ref)
  {
    if MatchesAny(Requests(refs), t) {
      var p :| p in Requests(refs) && Matches(p, t);
      var i :| 0 <= i < |refs| && Requests(refs)[i] == p;
      assert refs[i] in refs && IsRequested(t, refs[i]);
    }
    if ref :| ref in refs && IsRequested(t, ref) {
      var i :| 0 <= i < |refs| && refs[i] == ref;
      assert Matches(Requests(refs)[i], t);
    }
  }

  lemma ChosenOneMore(q: seq<Task>, ps: seq<Pattern>, tail: seq<nat>, at: seq<nat>)
    requires q != [] && at == if MatchesAny(ps, q[0]) then Shifted(tail) else [0] + Shifted(tail)
    requires forall i: nat :: i < |q| - 1 ==> (i in tail <==> !MatchesAny(ps, q[1..][i]))
    ensures forall i: nat :: i < |q| ==> (i in at <==> !MatchesAny(ps, q[i]))
  {
    forall i: nat | i < |q| ensures i in at <==> !MatchesAny(ps, q[i]) {
      ShiftedHas(tail, if i > 0 then i - 1 else 0);
      assert i > 0 ==> q[1..][i - 1] == q[i];
    }
  }

  /** What stays, by position, in order. */
  lemma {:induction false} KeepIs(q: seq<Task>, ps: seq<Pattern>) returns (at: seq<nat>)
    ensures Picked(q, at, Keep(q, ps))
    ensures forall i: nat :: i < |q| ==> (i in at <==> !MatchesAny(ps, q[i]))
  {
    at := [];
    if q != [] {
      var rest := Keep(q[1..], ps);
      var tail := KeepIs(q[1..], ps);
      if MatchesAny(ps, q[0]) {
        at := Shifted(tail);
        PickedLater(q, tail, rest);
        assert Keep(q, ps) == rest;
      } else {
        at := [0] + Shifted(tail);
        PickedFirst(q, tail, rest);
      }
      ChosenOneMore(q, ps, tail, at);
    }
  }

  /** After an arrival the waiting tasks that do not give way are there, and the arrived ones, scored. */
  lemma AddedHasExactly(hs: seq<Heuristic>, q: seq<Task>, ts: seq<Task>, now: int, t: Task)
    requires ts != []
    ensures t in Added(hs, q, ts, now) <==>
              (t in q && !GivesWay(t, ts)) || exists u :: u in ts && t == Scored(hs, now, u)
  {
    var kept, scored := Keep(q, Duplicates(ts)), ScoredAll(hs, now, ts);
    assert t in Added(hs, q, ts, now) <==> t in multiset(kept + scored);
    KeepHas(q, Duplicates(ts), t);
    GivesWayIff(t, ts);
    if u :| u in ts && t == Scored(hs, now, u) {
      var i :| 0 <= i < |ts| && ts[i] == u;
      assert scored[i] == t;
    }
    if t in scored {
      var i :| 0 <= i < |scored| && scored[i] == t;
      assert ts[i] in ts;
    }
  }

  /** A removal keeps, by position and in order, exactly the tasks that no request names. */
  lemma RemovalKeeps(q: seq<Task>, refs: seq<TaskRef>) returns (at: seq<nat>)
    ensures Picked(q, at, Keep(q, Requests(refs)))
    ensures forall i: nat :: i < |q| ==> (i in at <==> !exists ref :: ref in refs && IsRequested(q[i], ref))
  {
    at := KeepIs(q, Requests(refs));
    forall i: nat | i < |q| ensures i in at <==> !exists ref :: ref in refs && IsRequested(q[i], ref) {
      IsRequestedIff(q[i], refs);
    }
  }

  // ---------------------------------------------------------------- the queue

  class Queue {
    const runner: HeuristicRunner
    var queue: seq<Task>
    var lastActiveTime: int

    constructor (runner: HeuristicRunner, now: int)
      ensures queue == [] && lastActiveTime == now && this.runner == runner
    {
      this.runner, queue, lastActiveTime := runner, [], now;
    }

    method RemoveDuplicates(tasks: seq<Task>)
      modifies this`queue
      ensures queue == Keep(old(queue), Duplicates(tasks))
    {
      ghost var all := Duplicates(tasks);
      KeepAll(queue);
      for i := 0 to |tasks|
        invariant queue == Keep(old(queue), all[..i])
      {
        RemoveTurn(old(queue), all, i);
        queue := Keep(queue, [Duplicate(tasks[i].jobId, tasks[i].taskId)]);
      }
      assert all[..|tasks|] == all;
    }

    method ScoreAll(tasks: seq<Task>, now: int) returns (scored: seq<Task>)
      ensures scored == ScoredAll(runner.heuristicMap, now, tasks)
    {
      scored := [];
      for i := 0 to |tasks|
        invariant scored == ScoredAll(runner.heuristicMap, now, tasks)[..i]
      {
        var t := runner.Run(tasks[i], now);
        scored := scored + [t];
      }
    }

    method OrderQueue()
      modifies this`queue
      ensures queue == SortDesc(old(queue), ScoreOf)
    {
      queue := SortDesc(queue, ScoreOf);
    }

    method AddJobs(jobs: seq<Task>, now: int)
      modifies this
      ensures queue == Added(runner.heuristicMap, old(queue), jobs, now)
      ensures lastActiveTime == if jobs == [] then old(lastActiveTime) else now
    {
      if |jobs| == 0 {
        return;
      }
      lastActiveTime := now;
      RemoveDuplicates(jobs);
      var tasks := ScoreAll(jobs, now);
      queue := queue + tasks;
      OrderQueue();
    }

    /** Also says what was removed, request by request. */
    method RemoveJobs(jobs: seq<TaskRef>) returns (removed: seq<Task>)
      modifies this`queue
      ensures queue == Keep(old(queue), Requests(jobs)) && removed == Removed(old(queue), Requests(jobs))
    {
      removed := [];
      KeepAll(queue);
      for i := 0 to |jobs|
        invariant RemovedUpTo(old(queue), Requests(jobs), i, queue, removed)
      {
        RemovedOneMore(old(queue), Requests(jobs), i, queue, removed);
        removed := removed + Take(queue, Requested(jobs[i]));
        queue := Keep(queue, [Requested(jobs[i])]);
      }
      assert Requests(jobs)[..|jobs|] == Requests(jobs);
    }

    method TryPop() returns (task: Option<Task>)
      modifies this`queue
      ensures old(queue) == [] ==> task == None && queue == []
      ensures old(queue) != [] ==> task == Some(old(queue)[0]) && queue == old(queue)[1..]
    {
      if |queue| == 0 {
        return None;
      }
      task := Some(queue[0]);
      queue := queue[1..];
    }

    method UpdateScore(now: int)
      modifies this`queue
      ensures queue == ScoredAll(runner.heuristicMap, now, old(queue))
    {
      queue := ScoreAll(queue, now);
    }

    method IntervalUpdate(now: int)
      modifies this`queue
      ensures queue == Cycled(runner.heuristicMap, old(queue), now)
    {
      queue := EnrichBatchPlaces(queue);
      UpdateScore(now);
      OrderQueue();
    }
  }

  // ---------------------------------------------------------------- stuck tasks

  datatype Update = Update(status: string, retries: int)

  const COMPLETED_STATES := ["completed", "failed", "stopped"]
  const CRASHED := "crashed"
  const STALLED := "stalled"

  function Adapted(t: Task): Task {
    t.(initialBatchLength := 1, attempts := t.attempts + 1, batchPlace := NoPlace, latestScores := map[], score := 0.0)
  }

  function MaxAttempts(t: Task): int {
    match t.retryLimit case Some(n) => n case None => 3
  }

  /** A job that is done or not started is left alone. */
  predicate Skipped(jobStatus: Option<string>) {
    jobStatus.Some? && (jobStatus.value in COMPLETED_STATES || jobStatus.value == PRESCHEDULE)
  }

  /** The tasks that go back to the queue when `t` is stuck. */
  function Requeued(t: Task, jobStatus: Option<string>): seq<Task> {
    if Skipped(jobStatus) || Adapted(t).attempts > MaxAttempts(t) then [] else [Adapted(t)]
  }

  function StuckUpdate(t: Task, jobStatus: Option<string>): Option<Update> {
    if Skipped(jobStatus) then None
    else if Adapted(t).attempts > MaxAttempts(t) then Some(Update(CRASHED, MaxAttempts(t)))
    else Some(Update(STALLED, Adapted(t).attempts))
  }

  class JobProducer {
    const queue: Queue

    constructor (queue: Queue)
      ensures this.queue == queue
    {
      this.queue := queue;
    }

    /** The task sent to the workers, if any waits. */
    method CreateJob() returns (task: Option<Task>)
      modifies queue
      ensures old(queue.queue) == [] ==> task == None && queue.queue == []
      ensures old(queue.queue) != [] ==> task == Some(old(queue.queue)[0]) && queue.queue == old(queue.queue)[1..]
    {
      task := queue.TryPop();
    }

    method OnStuck(t: Task, jobStatus: Option<string>, now: int) returns (u: Option<Update>)
      modifies queue
      ensures queue.queue == Added(queue.runner.heuristicMap, old(queue.queue), Requeued(t, jobStatus), now)
      ensures u == StuckUpdate(t, jobStatus)
    {
      if jobStatus.Some? {
        if jobStatus.value in COMPLETED_STATES {
          return None;
        }
        if jobStatus.value == PRESCHEDULE {
          return None;
        }
      }
      var maxAttempts := if t.retryLimit.Some? then t.retryLimit.value else 3;
      var task := Adapted(t);
      var attempts := task.attempts;
      var status: string;
      if attempts > maxAttempts {
        attempts := maxAttempts;
        status := CRASHED;
      } else {
        status := STALLED;
        queue.AddJobs([task], now);
      }
      u := Some(Update(status, attempts));
    }
  }
}
