/**
 * The dispatcher in place: the two queues, the consumer flag and the tracked counts, changed by the
 * methods of the producer, the consumer, the concurrency handler and the preferred-jobs service. Each
 * method makes exactly the step of `DispatchModel`.
 */
module Dispatcher {
  import opened Wrappers
  import opened Sequences
  import opened DriverJobs
  import opened DriverQueue
  import opened DispatchModel
  import opened PreferredJobs

  /** The job with the id, if the queue holds it. */
  function FoundIn(q: seq<Job>, id: string): seq<Job> { match FindJob(q, id) case None => [] case Some(j) => [j] }

  /** The jobs the un-prefer loop takes out of the preferred queue, in request order. */
  function UnpreferTaken(s: State, ids: seq<string>): seq<Job>
    decreases |ids|
  {
    if ids == [] then []
    else FoundIn(s.preferred, ids[0]) + UnpreferTaken(UnpreferOne(s, ids[0]), ids[1..])
  }

  lemma UnpreferIsStep(s: State, hs: seq<Heuristic>, ids: seq<string>, now: int)
    ensures var t := UnpreferEach(s, ids);
            Step(s, hs, Unpreferring(ids, now)) == t.(main := Recalculated(Weighted(hs), now, t.main))
  {
  }

  lemma UnpreferTurn(s: State, ids: seq<string>, i: nat, taken: seq<Job>)
    requires i < |ids|
    ensures UnpreferEach(s, ids[i..]) == UnpreferEach(UnpreferOne(s, ids[i]), ids[i + 1..])
    ensures taken + UnpreferTaken(s, ids[i..]) ==
            taken + FoundIn(s.preferred, ids[i])
            + UnpreferTaken(UnpreferOne(s, ids[i]), ids[i + 1..])
  {
    assert ids[i..][0] == ids[i] && ids[i..][1..] == ids[i + 1..];
  }

  /** One id more at the end of the request. */
  lemma {:induction false} TakenLast(s: State, ids: seq<string>, id: string)
    ensures UnpreferTaken(s, ids + [id]) == UnpreferTaken(s, ids) + FoundIn(UnpreferEach(s, ids).preferred, id)
    decreases |ids|
  {
    if ids == [] {
      assert [id][1..] == [] && [] + [id] == [id];
    } else {
      assert (ids + [id])[1..] == ids[1..] + [id];
      TakenLast(UnpreferOne(s, ids[0]), ids[1..], id);
    }
  }

  /** For each of the positions the job that was preferred under that id when its turn came. */
  ghost predicate TakenAt(s: State, ids: seq<string>, at: seq<nat>, taken: seq<Job>) {
    && Increasing(at, |ids|) && |taken| == |at|
    && forall k :: 0 <= k < |at| ==> TakenInTurn(s, ids, at[k], taken[k])
  }

  ghost predicate TakenInTurn(s: State, ids: seq<string>, i: nat, j: Job)
    requires i < |ids|
  {
    j in UnpreferEach(s, ids[..i]).preferred && j.jobId == ids[i]
  }

  /** The positions whose ids are preferred when their turn comes. */
  ghost predicate FoundInTurn(s: State, ids: seq<string>, at: seq<nat>) {
    forall i: nat :: i < |ids| ==> (i in at <==> HasId(UnpreferEach(s, ids[..i]).preferred, ids[i]))
  }

  lemma FoundOneMore(s: State, ids: seq<string>, id: string, at: seq<nat>)
    requires Increasing(at, |ids|) && FoundInTurn(s, ids, at)
    ensures FoundInTurn(s, ids + [id], if HasId(UnpreferEach(s, ids).preferred, id) then at + [|ids|] else at)
  {
    var all := ids + [id];
    assert all[..|ids|] == ids;
    forall i: nat | i < |ids| ensures i in at <==> HasId(UnpreferEach(s, all[..i]).preferred, all[i]) {
      assert all[..i] == ids[..i];
    }
  }

  lemma TakenBefore(s: State, ids: seq<string>, id: string, at: seq<nat>, taken: seq<Job>)
    requires TakenAt(s, ids, at, taken)
    ensures TakenAt(s, ids + [id], at, taken)
  {
    var all := ids + [id];
    forall k | 0 <= k < |at| ensures TakenInTurn(s, all, at[k], taken[k]) {
      assert all[..at[k]] == ids[..at[k]];
    }
  }

  lemma TakenAfter(s: State, ids: seq<string>, id: string, at: seq<nat>, taken: seq<Job>, j: Job)
    requires TakenAt(s, ids, at, taken) && j in UnpreferEach(s, ids).preferred && j.jobId == id
    ensures TakenAt(s, ids + [id], at + [|ids|], taken + [j])
  {
    var all, last := ids + [id], at + [|ids|];
    TakenBefore(s, ids, id, at, taken);
    assert TakenInTurn(s, all, |ids|, j) by {
      assert all[..|ids|] == ids;
    }
    forall k | 0 <= k < |last| ensures TakenInTurn(s, all, last[k], (taken + [j])[k]) {
      if k < |at| {
        assert last[k] == at[k];
      }
    }
  }

  /** What un-preferring returns: in the order of the request, each job that is still preferred when its turn comes. */
  lemma {:induction false} TakenIs(s: State, ids: seq<string>) returns (at: seq<nat>)
    ensures TakenAt(s, ids, at, UnpreferTaken(s, ids)) && FoundInTurn(s, ids, at)
    decreases |ids|
  {
    if ids == [] {
      at := [];
    } else {
      var front, id := ids[..|ids| - 1], ids[|ids| - 1];
      at := TakenIs(s, front);
      assert ids == front + [id];
      TakenLast(s, front, id);
      FoundOneMore(s, front, id, at);
      var taken := UnpreferTaken(s, front);
      match FindJob(UnpreferEach(s, front).preferred, id) {
        case None =>
          TakenBefore(s, front, id, at, taken);
          assert taken + [] == taken;
        case Some(j) =>
          TakenAfter(s, front, id, at, taken, j);
          at := at + [|front|];
      }
    }
  }

  /** The jobs a prefer request takes out of main, last requested first. */
  function PreferTaken(main: seq<Job>, ids: seq<string>): seq<Job>
    decreases |ids|
  {
    if ids == [] then []
    else
      var id := ids[|ids| - 1];
      FoundIn(main, id) + PreferTaken(Without(main, id), ids[..|ids| - 1])
  }

  /** What is returned is the block that was moved, backwards and with the scores of main. */
  lemma {:induction false} TakenIsBlock(main: seq<Job>, ids: seq<string>)
    ensures var taken, block := PreferTaken(main, ids), Block(main, ids);
            && |taken| == |block|
            && forall k :: 0 <= k < |taken| ==>
                 taken[k] in main && block[|block| - 1 - k] == taken[k].(score := 1.0)
    decreases |ids|
  {
    if ids != [] {
      TakenIsBlock(Without(main, ids[|ids| - 1]), ids[..|ids| - 1]);
    }
  }

  lemma {:induction false} NothingTaken(main: seq<Job>, ids: seq<string>)
    ensures PreferTaken(main, ids) == [] <==> Block(main, ids) == []
    ensures PreferTaken(main, ids) == [] ==> WithoutAll(main, ids) == main
    decreases |ids|
  {
    if ids != [] {
      var id := ids[|ids| - 1];
      NothingTaken(Without(main, id), ids[..|ids| - 1]);
      if FindJob(main, id).None? {
        WithoutUnknown(main, id);
      }
    }
  }

  lemma NothingPutIn(q: seq<Job>, index: nat)
    requires index <= |q|
    ensures q[..index] + [] + q[index..] == q
  {
  }

  /** A request that finds none of its jobs in main changes nothing. */
  lemma NothingTakenNothingMoved(s: State, ids: seq<string>, index: nat)
    requires index <= |s.preferred| && PreferTaken(s.main, ids) == []
    ensures PreferEach(s, ids, index) == s
  {
    NothingTaken(s.main, ids);
    PreferPutsOneBlock(s, ids, index);
    NothingPutIn(s.preferred, index);
  }

  lemma PreferTurn(s: State, ids: seq<string>, i: nat, index: nat, taken: seq<Job>)
    requires i < |ids| && index <= |s.preferred|
    ensures PreferEach(s, ids[..i + 1], index) == PreferEach(PreferOne(s, ids[i], index), ids[..i], index)
    ensures taken + PreferTaken(s.main, ids[..i + 1]) ==
            taken + FoundIn(s.main, ids[i])
            + PreferTaken(PreferOne(s, ids[i], index).main, ids[..i])
  {
    assert ids[..i + 1][..i] == ids[..i];
    if FindJob(s.main, ids[i]).None? {
      WithoutUnknown(s.main, ids[i]);
    }
  }

  class Dispatcher {
    const queue: Queue
    const preferredQueue: Queue
    var isConsumerActive: bool
    var activeState: Tracking
    ghost var dispatched: seq<Job>
    ghost var stopped: seq<Job>

    ghost predicate Valid() {
      queue != preferredQueue && preferredQueue.scoring == Unscored && queue.scoring.Weighted?
    }

    ghost function Abs(): State
      reads this, queue, preferredQueue
    {
      State(preferredQueue.queue, queue.queue, dispatched, stopped, isConsumerActive, activeState)
    }

    ghost function Heuristics(): seq<Heuristic>
      requires Valid()
    {
      queue.scoring.heuristics
    }

    constructor (heuristics: seq<Heuristic>)
      ensures Valid() && Heuristics() == heuristics && Abs() == EMPTY
      ensures fresh(queue) && fresh(preferredQueue)
    {
      var main := new Queue(Weighted(heuristics));
      var preferred := new Queue(Unscored);
      queue, preferredQueue := main, preferred;
      isConsumerActive, activeState := true, map[];
      dispatched, stopped := [], [];
    }

    function QueueOf(w: Which): Queue { if w == PreferredQ then preferredQueue else queue }

    // -------------------------------------------------------------- producer

    method CreateJob(job: Job, w: Which)
      requires Valid()
      modifies this, queue, preferredQueue
      ensures Abs() == DispatchModel.CreateJob(old(Abs()), job, w)
    {
      var removed := QueueOf(w).Dequeue(job.jobId);
      UpdateActive(job);
      dispatched := dispatched + [job.(updateRunning := 0)];
    }

    method UpdateActive(job: Job)
      modifies this`activeState
      ensures activeState == UpdateActiveJobs(old(activeState), job)
    {
      if job.updateRunning != 0 {
        if job.pipelineName !in activeState {
          activeState := activeState[job.pipelineName := Active(NaN, None)];
        }
        var a := activeState[job.pipelineName];
        if a.count.Num? {
          activeState := activeState[job.pipelineName := a.(count := Num(a.count.n + job.updateRunning))];
        }
      }
    }

    /** An empty id stands for none. */
    method DequeueJobInternal(jobId: string)
      requires Valid()
      modifies this, queue, preferredQueue
      ensures Abs() == DispatchById(old(Abs()), jobId)
    {
      if jobId != "" {
        var found := FindJob(preferredQueue.queue, jobId);
        if found.Some? {
          CreateJob(found.value, PreferredQ);
          return;
        }
        found := FindJob(queue.queue, jobId);
        if found.Some? {
          CreateJob(found.value, MainQ);
          return;
        }
      }
      var available := FirstEligible(preferredQueue.queue);
      if available.Some? {
        CreateJob(available.value, PreferredQ);
        return;
      }
      available := FirstEligible(queue.queue);
      if available.Some? {
        CreateJob(available.value, MainQ);
      }
    }

    method DequeueJob(jobId: string)
      requires Valid()
      modifies this, queue, preferredQueue
      ensures Abs() == DispatchModel.DequeueJob(old(Abs()), jobId)
    {
      if isConsumerActive {
        DequeueJobInternal(jobId);
      }
    }

    /** The listener of the main queue's INSERT event. */
    method OnInsert()
      requires Valid()
      modifies this, queue, preferredQueue
      ensures Abs() == DispatchModel.OnInsert(old(Abs()))
    {
      if isConsumerActive {
        DequeueJobInternal("");
      }
    }

    method OnWaiting()
      modifies this`isConsumerActive
      ensures Abs() == Step(old(Abs()), [], ConsumerWaiting)
    {
      isConsumerActive := false;
    }

    method OnActive()
      requires Valid()
      modifies this, queue, preferredQueue
      ensures Abs() == Step(old(Abs()), Heuristics(), ConsumerActive)
    {
      isConsumerActive := true;
      DequeueJobInternal("");
    }

    method CheckQueue(pending: Which -> int)
      requires Valid()
      modifies this, queue, preferredQueue
      ensures Abs() == Step(old(Abs()), Heuristics(), Checking(pending))
    {
      var available := FirstEligible(preferredQueue.queue);
      if available.Some? && pending(PreferredQ) == 0 {
        CreateJob(available.value, PreferredQ);
        return;
      }
      available := FirstEligible(queue.queue);
      if available.Some? && pending(MainQ) == 0 {
        CreateJob(available.value, MainQ);
      }
    }

    // -------------------------------------------------------------- consumer

    method QueueJob(jobId: string, pipeline: Pipeline, now: int)
      requires Valid()
      modifies this, queue, preferredQueue
      ensures Abs() == Step(old(Abs()), Heuristics(), Arrival(jobId, pipeline, now))
    {
      queue.Enqueue(PipelineToQueueAdapter(jobId, pipeline, now), false, now);
      OnInsert();
    }

    method StopJob(jobId: string)
      requires Valid()
      modifies this, queue, preferredQueue
      ensures Abs() == Step(old(Abs()), Heuristics(), Stopping(jobId))
    {
      var found := FindJob(preferredQueue.queue, jobId);
      if found.Some? {
        var removed := preferredQueue.Dequeue(jobId);
        stopped := stopped + [found.value];
        return;
      }
      found := FindJob(queue.queue, jobId);
      if found.Some? {
        var removed := queue.Dequeue(jobId);
        stopped := stopped + [found.value];
      }
    }

    // -------------------------------------------------------------- preferred jobs

    /** One turn of the un-prefer loop, with the INSERT event raised inside it. */
    method DeletePreferredJob(jobId: string, now: int) returns (deleted: seq<Job>)
      requires Valid()
      modifies this, queue, preferredQueue
      ensures Abs() == UnpreferOne(old(Abs()), jobId)
      ensures deleted == FoundIn(old(preferredQueue.queue), jobId)
    {
      var removed := preferredQueue.Dequeue(jobId);
      deleted := [];
      if |removed| > 0 {
        queue.Enqueue(removed[0], true, now);
        deleted := [removed[0]];
        OnInsert();
      } else {
        WithoutUnknown(old(preferredQueue.queue), jobId);
      }
    }

    method DeletePreferredJobs(jobIds: seq<string>, now: int) returns (deleted: seq<Job>)
      requires Valid()
      modifies this, queue, preferredQueue
      ensures Abs() == Step(old(Abs()), Heuristics(), Unpreferring(jobIds, now))
      ensures deleted == UnpreferTaken(old(Abs()), jobIds)
    {
      deleted := DeleteEach(jobIds, now);
      ghost var t := Abs();
      queue.CalculateHeuristic(now);
      UnpreferIsStep(old(Abs()), Heuristics(), jobIds, now);
      assert Abs() == t.(main := Recalculated(Weighted(Heuristics()), now, t.main));
    }

    method DeleteEach(jobIds: seq<string>, now: int) returns (deleted: seq<Job>)
      requires Valid()
      modifies this, queue, preferredQueue
      ensures Abs() == UnpreferEach(old(Abs()), jobIds)
      ensures deleted == UnpreferTaken(old(Abs()), jobIds)
    {
      deleted := [];
      ghost var start := Abs();
      assert jobIds[0..] == jobIds;
      for i := 0 to |jobIds|
        invariant UnpreferEach(Abs(), jobIds[i..]) == UnpreferEach(start, jobIds)
        invariant deleted + UnpreferTaken(Abs(), jobIds[i..]) == UnpreferTaken(start, jobIds)
      {
        UnpreferTurn(Abs(), jobIds, i, deleted);
        var one := DeletePreferredJob(jobIds[i], now);
        deleted := deleted + one;
      }
    }

    /** One turn of the prefer loop: out of main, into the preferred queue at the fixed index. */
    method AddPreferredJob(id: string, index: nat) returns (dequeued: seq<Job>)
      requires Valid() && index <= |preferredQueue.queue|
      modifies this, queue, preferredQueue
      ensures Abs() == PreferOne(old(Abs()), id, index)
      ensures dequeued == FoundIn(old(queue.queue), id)
    {
      var removed := queue.Dequeue(id);
      dequeued := [];
      if |removed| > 0 {
        dequeued := [removed[0]];
        var q := preferredQueue.queue;
        preferredQueue.queue := q[..index] + [removed[0].(score := 1.0)] + q[index..];
      } else {
        WithoutUnknown(old(queue.queue), id);
      }
    }

    /** A refused request changes nothing. */
    method AddPreferredJobs(jobs: seq<string>, position: Position, query: Option<RawQuery>)
      returns (r: Result<seq<Job>, RequestError>)
      requires Valid()
      modifies this, queue, preferredQueue
      ensures var place, taken := ValidatePreferenceRequest(position, query), PreferTaken(old(queue.queue), jobs);
              r == if place.Err? then Err(place.error)
                   else if taken == [] then Err(NoneInGeneralQueue)
                   else Ok(taken)
      ensures Abs() == if r.Err? then old(Abs())
                       else Step(old(Abs()), Heuristics(),
                                 Preferring(jobs, ValidatePreferenceRequest(position, query).value))
    {
      var place := ValidatePreferenceRequest(position, query);
      if place.Err? {
        return Err(place.error);
      }
      var index := GetIndex(preferredQueue.queue, place.value);
      var allDequeued := SpliceAll(jobs, index);
      if |allDequeued| == 0 {
        NothingTakenNothingMoved(old(Abs()), jobs, index);
        return Err(NoneInGeneralQueue);
      }
      r := Ok(allDequeued);
    }

    /** The reversed ids, each spliced in at the same index. */
    method SpliceAll(jobs: seq<string>, index: nat) returns (allDequeued: seq<Job>)
      requires Valid() && index <= |preferredQueue.queue|
      modifies this, queue, preferredQueue
      ensures Abs() == PreferEach(old(Abs()), jobs, index)
      ensures allDequeued == PreferTaken(old(queue.queue), jobs)
    {
      allDequeued := [];
      var i := |jobs|;
      ghost var start := Abs();
      assert jobs[..i] == jobs;
      while i > 0
        invariant 0 <= i <= |jobs| && index <= |Abs().preferred|
        invariant PreferEach(Abs(), jobs[..i], index) == PreferEach(start, jobs, index)
        invariant allDequeued + PreferTaken(Abs().main, jobs[..i]) == PreferTaken(start.main, jobs)
      {
        i := i - 1;
        PreferTurn(Abs(), jobs, i, index, allDequeued);
        var one := AddPreferredJob(jobs[i], index);
        allDequeued := allDequeued + one;
      }
    }

    // -------------------------------------------------------------- concurrency handler

    method CheckMaxExceededIn(experiment: string, name: string, increment: bool, w: Which) returns (ret: bool)
      requires Valid()
      modifies this, queue, preferredQueue
      ensures (Abs(), ret) == DispatchModel.CheckMaxExceededIn(old(Abs()), experiment, name, increment, w)
    {
      var q := QueueOf(w);
      var i := FindHeld(q.queue, experiment, name);
      if i == |q.queue| {
        return false;
      }
      if CheckRunning(name) {
        if increment {
          q.queue := q.queue[i := q.queue[i].(updateRunning := 1)];
        }
        DequeueJob(q.queue[i].jobId);
        return true;
      }
      q.queue := q.queue[i := q.queue[i].(updateRunning := -1)];
      UpdateActive(q.queue[i]);
      q.queue := q.queue[i := q.queue[i].(updateRunning := 0)];
      assert q.queue == old(q.queue)[i := old(q.queue)[i].(updateRunning := 0)];
      return false;
    }

    function CheckRunning(name: string): (r: bool)
      reads this, queue, preferredQueue
      ensures r == CheckRunningJobs(Abs(), name)
    {
      if name !in activeState || activeState[name].count.NaN? || activeState[name].count.n == 0 then true
      else if activeState[name].max.None? || activeState[name].max.value == 0 then true
      else
        var total := activeState[name].count.n + Waiting(queue.queue, name) + Waiting(preferredQueue.queue, name);
        total <= activeState[name].max.value
    }

    /** The handler of the COMPLETED and FAILED events: preferred first, main only if that was refused. */
    method CheckMaxExceeded(experiment: string, name: string)
      requires Valid()
      modifies this, queue, preferredQueue
      ensures Abs() == Step(old(Abs()), Heuristics(), Finished(experiment, name))
    {
      var done := CheckMaxExceededIn(experiment, name, false, PreferredQ);
      if !done {
        done := CheckMaxExceededIn(experiment, name, false, MainQ);
      }
    }

    method RefreshActiveState(pipelines: seq<StoredPipeline>, redis: map<string, nat>)
      modifies this`activeState
      ensures activeState == Refresh(old(activeState), pipelines, redis)
    {
      for i := 0 to |pipelines|
        invariant Refresh(activeState, pipelines[i..], redis) == Refresh(old(activeState), pipelines, redis)
      {
        assert pipelines[i..][0] == pipelines[i] && pipelines[i..][1..] == pipelines[i + 1..];
        var p := pipelines[i];
        activeState := activeState[p.name := Active(Num(RedisCount(redis, p.name)), Some(p.amount))];
      }
    }

    method PromotePipelines(pipelines: seq<StoredPipeline>, snapshot: seq<Job>, w: Which) returns (canceled: nat)
      requires Valid() && forall p :: p in pipelines ==> FirstHeldOf(snapshot, p.name).Some?
      modifies this, queue, preferredQueue
      ensures Abs() == PromoteEach(old(Abs()), pipelines, snapshot, w)
      ensures canceled == Tried(old(Abs()), pipelines, snapshot, w)
    {
      canceled := 0;
      for i := 0 to |pipelines|
        invariant PromoteEach(Abs(), pipelines[i..], snapshot, w) == PromoteEach(old(Abs()), pipelines, snapshot, w)
        invariant canceled + Tried(Abs(), pipelines[i..], snapshot, w) == Tried(old(Abs()), pipelines, snapshot, w)
      {
        assert pipelines[i..][0] == pipelines[i] && pipelines[i..][1..] == pipelines[i + 1..];
        var tried := PromotePipeline(pipelines[i], snapshot, w);
        canceled := canceled + tried;
      }
    }

    method PromotePipeline(p: StoredPipeline, snapshot: seq<Job>, w: Which) returns (tried: nat)
      requires Valid() && FirstHeldOf(snapshot, p.name).Some?
      modifies this, queue, preferredQueue
      ensures Abs() == Promote(old(Abs()), p, snapshot, w)
      ensures tried == if Required(old(activeState), p.name) > 0 then 1 else 0
    {
      tried := 0;
      if Required(activeState, p.name) > 0 {
        tried := 1;
        var job := FirstHeldOf(snapshot, p.name).value;
        var done := CheckMaxExceededIn(job.experimentName, job.pipelineName, true, w);
      }
    }

    /** One queue's part of the interval, after its waits; `snapshot` was read before them. */
    method CheckConcurrencyJobs(w: Which, snapshot: seq<Job>, redis: map<string, nat>, stored: seq<StoredPipeline>)
      returns (canceled: nat)
      requires Valid()
      modifies this, queue, preferredQueue
      ensures Abs() == Interval(old(Abs()), w, snapshot, redis, stored)
      ensures canceled == IntervalTried(old(Abs()), w, snapshot, redis, stored)
    {
      if forall j :: j in snapshot ==> !j.maxExceeded {
        return 0;
      }
      var pipelines := Relevant(stored, snapshot);
      RefreshActiveState(pipelines, redis);
      canceled := PromotePipelines(pipelines, snapshot, w);
    }

    /** Both queues' parts, run without other events between them; each reads its queue as it stands. */
    method CheckConcurrencyJobsInternal(redis: map<string, nat>, stored: seq<StoredPipeline>) returns (total: nat)
      requires Valid()
      modifies this, queue, preferredQueue
      ensures var s := old(Abs());
              var t := Interval(s, PreferredQ, s.preferred, redis, stored);
              var tried := IntervalTried(s, PreferredQ, s.preferred, redis, stored);
              && Abs() == (if GoesOn(t, tried) then Interval(t, MainQ, t.main, redis, stored) else t)
              && total == tried + if GoesOn(t, tried) then IntervalTried(t, MainQ, t.main, redis, stored) else 0
    {
      total := CheckConcurrencyJobs(PreferredQ, preferredQueue.queue, redis, stored);
      if total > 0 || FirstEligible(preferredQueue.queue).Some? {
        return;
      }
      var more := CheckConcurrencyJobs(MainQ, queue.queue, redis, stored);
      total := total + more;
    }
  }
}
