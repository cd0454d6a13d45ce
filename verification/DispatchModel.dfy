/**
 * The two-queue dispatcher as a state machine: its state, one function per step of the source, and
 * runs of events. The class `Dispatcher` implements these steps in place.
 */
module DispatchModel {
  import opened Wrappers
  import opened DriverJobs
  import opened DriverQueue

  datatype Which = PreferredQ | MainQ

  /** A tracked count; `NaN` is what JavaScript makes of adding to a count that was never set. */
  datatype Tally = NaN | Num(n: int)

  /** `_activeState[name]`: a `max` of `None` is a field that was never set. */
  datatype Active = Active(count: Tally, max: Option<int>)

  type Tracking = map<string, Active>

  /**
   * `dispatched` lists the jobs handed to the producer and `stopped` the jobs taken out by a stop;
   * neither exists as a field in the source, they record its effects.
   */
  datatype State = State(
    preferred: seq<Job>,
    main: seq<Job>,
    dispatched: seq<Job>,
    stopped: seq<Job>,
    consumerActive: bool,
    active: Tracking
  ) {
    function Q(w: Which): seq<Job> { if w == PreferredQ then preferred else main }

    function WithQ(w: Which, q: seq<Job>): State {
      if w == PreferredQ then this.(preferred := q) else this.(main := q)
    }
  }

  const EMPTY := State([], [], [], [], true, map[])

  // ---------------------------------------------------------------- dispatching

  function FirstEligible(q: seq<Job>): (r: Option<Job>)
    ensures r.Some? ==> r.value in q && !r.value.maxExceeded
    ensures r.None? <==> forall j :: j in q ==> j.maxExceeded
  {
    if q == [] then None else if !q[0].maxExceeded then Some(q[0]) else FirstEligible(q[1..])
  }

  function UpdateActiveJobs(active: Tracking, job: Job): Tracking {
    if job.updateRunning == 0 then active
    else
      var a := if job.pipelineName in active then active[job.pipelineName] else Active(NaN, None);
      active[job.pipelineName := if a.count.NaN? then a else a.(count := Num(a.count.n + job.updateRunning))]
  }

  /** Takes the job's id out of the queue, settles its mark and hands the job to the producer. */
  function CreateJob(s: State, job: Job, w: Which): State {
    s.WithQ(w, Without(s.Q(w), job.jobId))
     .(active := UpdateActiveJobs(s.active, job), dispatched := s.dispatched + [job.(updateRunning := 0)])
  }

  /** The preferred queue is served before the main queue, each from the front. */
  function DispatchNext(s: State): State {
    match FirstEligible(s.preferred)
    case Some(j) => CreateJob(s, j, PreferredQ)
    case None =>
      match FirstEligible(s.main)
      case Some(j) => CreateJob(s, j, MainQ)
      case None => s
  }

  function FindJobByJobId(s: State, id: string): Option<(Job, Which)> {
    match FindJob(s.preferred, id)
    case Some(j) => Some((j, PreferredQ))
    case None =>
      match FindJob(s.main, id)
      case Some(j) => Some((j, MainQ))
      case None => None
  }

  /** An id that is empty or unknown falls through to the ordinary dispatch. */
  function DispatchById(s: State, id: string): State {
    match if id == "" then None else FindJobByJobId(s, id)
    case Some(found) => CreateJob(s, found.0, found.1)
    case None => DispatchNext(s)
  }

  function DequeueJob(s: State, id: string): State {
    if s.consumerActive then DispatchById(s, id) else s
  }

  /** The listener of INSERT, which runs inside the main queue's `enqueue`. */
  function OnInsert(s: State): State {
    if s.consumerActive then DispatchNext(s) else s
  }

  /**
   * The periodic check before the first dispatch. `pending` answers the waiting count asked for each
   * queue; nothing happens between the pick and the dispatch.
   */
  function CheckQueue(s: State, pending: Which -> int): State {
    if FirstEligible(s.preferred).Some? && pending(PreferredQ) == 0 then
      CreateJob(s, FirstEligible(s.preferred).value, PreferredQ)
    else if FirstEligible(s.main).Some? && pending(MainQ) == 0 then
      CreateJob(s, FirstEligible(s.main).value, MainQ)
    else s
  }

  // ---------------------------------------------------------------- arriving, stopping, moving

  function Arrive(s: State, hs: seq<Heuristic>, job: Job, now: int): State {
    OnInsert(s.(main := Recalculated(Weighted(hs), now, s.main + [job])))
  }

  function Stop(s: State, id: string): State {
    match FindJobByJobId(s, id)
    case None => s
    case Some(found) =>
      s.WithQ(found.1, Without(s.Q(found.1), id)).(stopped := s.stopped + [found.0])
  }

  function UnpreferOne(s: State, id: string): State {
    match FindJob(s.preferred, id)
    case None => s
    case Some(job) =>
      OnInsert(s.(preferred := Without(s.preferred, id), main := s.main + [job]))
  }

  function UnpreferEach(s: State, ids: seq<string>): State
    decreases |ids|
  {
    if ids == [] then s else UnpreferEach(UnpreferOne(s, ids[0]), ids[1..])
  }

  /** Each moved job may set off a dispatch before the next is moved; the sort comes last. */
  function Unprefer(s: State, hs: seq<Heuristic>, ids: seq<string>, now: int): State {
    var t := UnpreferEach(s, ids);
    t.(main := Recalculated(Weighted(hs), now, t.main))
  }

  /** Moves one requested job from main to position `i` of the preferred queue, with score 1. */
  function PreferOne(s: State, id: string, i: nat): State
    requires i <= |s.preferred|
  {
    match FindJob(s.main, id)
    case None => s
    case Some(job) =>
      s.(main := Without(s.main, id),
         preferred := s.preferred[..i] + [job.(score := 1.0)] + s.preferred[i..])
  }

  /** The requested jobs, last first, each spliced in at the same index. */
  function PreferEach(s: State, ids: seq<string>, i: nat): (t: State)
    requires i <= |s.preferred|
    ensures i <= |t.preferred|
    decreases |ids|
  {
    if ids == [] then s
    else PreferEach(PreferOne(s, ids[|ids| - 1], i), ids[..|ids| - 1], i)
  }

  // ---------------------------------------------------------------- the concurrency handler

  /** The waiting jobs of a pipeline that are not held back. */
  function Waiting(q: seq<Job>, name: string): nat {
    if q == [] then 0
    else (if !q[0].maxExceeded && q[0].pipelineName == name then 1 else 0) + Waiting(q[1..], name)
  }

  /** A missing, zero or NaN count, or a missing or zero limit, lets the job run. */
  predicate CheckRunningJobs(s: State, name: string) {
    name !in s.active
    || s.active[name].count.NaN? || s.active[name].count.n == 0
    || s.active[name].max.None? || s.active[name].max.value == 0
    || s.active[name].count.n + Waiting(s.main, name) + Waiting(s.preferred, name) <= s.active[name].max.value
  }

  /** Index of the first held-back job of this experiment and pipeline; the length if there is none. */
  function FindHeld(q: seq<Job>, experiment: string, name: string): (i: nat)
    ensures i <= |q|
    ensures i < |q| ==> q[i].maxExceeded && q[i].experimentName == experiment && q[i].pipelineName == name
    ensures forall k :: 0 <= k < i ==>
      !(q[k].maxExceeded && q[k].experimentName == experiment && q[k].pipelineName == name)
  {
    if q == [] then 0
    else if q[0].maxExceeded && q[0].experimentName == experiment && q[0].pipelineName == name then 0
    else 1 + FindHeld(q[1..], experiment, name)
  }

  function Mark(s: State, w: Which, i: nat, mark: int): State
    requires i < |s.Q(w)|
  {
    s.WithQ(w, s.Q(w)[i := s.Q(w)[i].(updateRunning := mark)])
  }

  /** The result is true when the check let the job run, whether or not it could be dispatched. */
  function CheckMaxExceededIn(s: State, experiment: string, name: string, increment: bool, w: Which): (State, bool) {
    var i := FindHeld(s.Q(w), experiment, name);
    if i == |s.Q(w)| then (s, false)
    else if CheckRunningJobs(s, name) then
      var t := if increment then Mark(s, w, i, 1) else s;
      (DequeueJob(t, t.Q(w)[i].jobId), true)
    else
      var t := Mark(s, w, i, 0);
      (t.(active := UpdateActiveJobs(s.active, s.Q(w)[i].(updateRunning := -1))), false)
  }

  /** The step behind the COMPLETED and FAILED events. */
  function CheckMaxExceeded(s: State, experiment: string, name: string): State {
    var (t, done) := CheckMaxExceededIn(s, experiment, name, false, PreferredQ);
    if done then t else CheckMaxExceededIn(t, experiment, name, false, MainQ).0
  }

  /** A stored pipeline as the handler reads it; a missing amount is 0. */
  datatype StoredPipeline = StoredPipeline(name: string, holdsBack: bool, amount: int)

  /** The first held-back job of a pipeline in the list read before the waits. */
  function FirstHeldOf(snapshot: seq<Job>, name: string): (r: Option<Job>)
    ensures r.Some? ==> r.value in snapshot && r.value.maxExceeded && r.value.pipelineName == name
    ensures r.None? ==> forall j :: j in snapshot ==> !(j.maxExceeded && j.pipelineName == name)
  {
    if snapshot == [] then None
    else if snapshot[0].maxExceeded && snapshot[0].pipelineName == name then Some(snapshot[0])
    else FirstHeldOf(snapshot[1..], name)
  }

  /** The pipelines the store returns for the held-back names, less those that reject on failure. */
  function Relevant(stored: seq<StoredPipeline>, snapshot: seq<Job>): (r: seq<StoredPipeline>)
    ensures forall p :: p in r ==> p in stored && FirstHeldOf(snapshot, p.name).Some?
  {
    if stored == [] then []
    else (if stored[0].holdsBack && FirstHeldOf(snapshot, stored[0].name).Some? then [stored[0]] else [])
         + Relevant(stored[1..], snapshot)
  }

  function RedisCount(redis: map<string, nat>, name: string): nat {
    if name in redis then redis[name] else 0
  }

  function Refresh(active: Tracking, pipelines: seq<StoredPipeline>, redis: map<string, nat>): Tracking
    decreases |pipelines|
  {
    if pipelines == [] then active
    else
      var p := pipelines[0];
      Refresh(active[p.name := Active(Num(RedisCount(redis, p.name)), Some(p.amount))], pipelines[1..], redis)
  }

  /** `max - count`, each taken as 0 when it is missing or not a number. */
  function Required(active: Tracking, name: string): int {
    if name !in active then 0
    else
      var a := active[name];
      (if a.max.None? then 0 else a.max.value) - (if a.count.NaN? then 0 else a.count.n)
  }

  function Promote(s: State, p: StoredPipeline, snapshot: seq<Job>, w: Which): State
    requires FirstHeldOf(snapshot, p.name).Some?
  {
    if Required(s.active, p.name) <= 0 then s
    else CheckMaxExceededIn(s, FirstHeldOf(snapshot, p.name).value.experimentName, p.name, true, w).0
  }

  function PromoteEach(s: State, pipelines: seq<StoredPipeline>, snapshot: seq<Job>, w: Which): State
    requires forall p :: p in pipelines ==> FirstHeldOf(snapshot, p.name).Some?
    decreases |pipelines|
  {
    if pipelines == [] then s
    else PromoteEach(Promote(s, pipelines[0], snapshot, w), pipelines[1..], snapshot, w)
  }

  /** One queue's part of the interval; `snapshot` is the queue as it was before the waits. */
  function Interval(
      s: State, w: Which, snapshot: seq<Job>, redis: map<string, nat>, stored: seq<StoredPipeline>): State
  {
    if forall j :: j in snapshot ==> !j.maxExceeded then s
    else
      var pipelines := Relevant(stored, snapshot);
      PromoteEach(s.(active := Refresh(s.active, pipelines, redis)), pipelines, snapshot, w)
  }

  /** How many promotions one queue's part of the interval tries. */
  function Tried(s: State, pipelines: seq<StoredPipeline>, snapshot: seq<Job>, w: Which): nat
    requires forall p :: p in pipelines ==> FirstHeldOf(snapshot, p.name).Some?
    decreases |pipelines|
  {
    if pipelines == [] then 0
    else
      (if Required(s.active, pipelines[0].name) > 0 then 1 else 0)
      + Tried(Promote(s, pipelines[0], snapshot, w), pipelines[1..], snapshot, w)
  }

  function IntervalTried(s: State, w: Which, snapshot: seq<Job>, redis: map<string, nat>,
                         stored: seq<StoredPipeline>): nat
  {
    if forall j :: j in snapshot ==> !j.maxExceeded then 0
    else
      var pipelines := Relevant(stored, snapshot);
      Tried(s.(active := Refresh(s.active, pipelines, redis)), pipelines, snapshot, w)
  }

  /** The interval goes on to the main queue when it tried nothing and found no eligible preferred job. */
  predicate GoesOn(afterPreferred: State, tried: nat) {
    tried == 0 && FirstEligible(afterPreferred.preferred).None?
  }

  // ---------------------------------------------------------------- runs

  /** A query has exactly one field; an empty string matches nothing. */
  datatype Query = ByJobId(id: string) | ByPipeline(name: string) | ByTag(tag: string)

  predicate Matches(query: Query, j: Job) {
    match query
    case ByJobId(id) => id != "" && j.jobId == id
    case ByPipeline(name) => name != "" && j.pipelineName == name
    case ByTag(tag) => tag != "" && tag in j.tags
  }

  function FirstMatch(q: seq<Job>, query: Query): (i: nat)
    ensures i <= |q|
    ensures i < |q| ==> Matches(query, q[i])
    ensures forall k :: 0 <= k < i ==> !Matches(query, q[k])
  {
    if q == [] || Matches(query, q[0]) then 0 else 1 + FirstMatch(q[1..], query)
  }

  /** One past the last match, or 0 if there is none. */
  function AfterLastMatch(q: seq<Job>, query: Query): (i: nat)
    ensures i <= |q|
    ensures i > 0 ==> Matches(query, q[i - 1])
    ensures forall k :: i <= k < |q| ==> !Matches(query, q[k])
  {
    if q == [] then 0
    else if Matches(query, q[|q| - 1]) then |q|
    else AfterLastMatch(q[..|q| - 1], query)
  }

  /** A validated request: a query exactly when the position is relative. */
  datatype Place = AtFirst | AtLast | Before(query: Query) | After(query: Query)

  function GetIndex(q: seq<Job>, place: Place): (i: nat)
    ensures i <= |q|
  {
    match place
    case AtFirst => 0
    case AtLast => |q|
    case Before(query) => var i := FirstMatch(q, query); if i == |q| then 0 else i
    case After(query) => AfterLastMatch(q, query)
  }

  function Prefer(s: State, ids: seq<string>, place: Place): State {
    PreferEach(s, ids, GetIndex(s.preferred, place))
  }

  datatype Event =
    | Arrival(jobId: string, pipeline: Pipeline, now: int)
    | Stopping(jobId: string)
    | Preferring(jobIds: seq<string>, place: Place)
    | Unpreferring(jobIds: seq<string>, now: int)
    | ConsumerWaiting
    | ConsumerActive
    | Finished(experiment: string, name: string)
    | IntervalOn(w: Which, snapshot: seq<Job>, redis: map<string, nat>, stored: seq<StoredPipeline>)
    | Checking(pending: Which -> int)
    | CheckResumed(picked: Job, w: Which)

  /** `CheckResumed` is the second half of a check whose pick was made before other events. */
  function Step(s: State, hs: seq<Heuristic>, e: Event): State {
    match e
    case Arrival(id, pipeline, now) => Arrive(s, hs, PipelineToQueueAdapter(id, pipeline, now), now)
    case Stopping(id) => Stop(s, id)
    case Preferring(ids, place) => Prefer(s, ids, place)
    case Unpreferring(ids, now) => Unprefer(s, hs, ids, now)
    case ConsumerWaiting => s.(consumerActive := false)
    case ConsumerActive => DispatchNext(s.(consumerActive := true))
    case Finished(experiment, name) => CheckMaxExceeded(s, experiment, name)
    case IntervalOn(w, snapshot, redis, stored) => Interval(s, w, snapshot, redis, stored)
    case Checking(pending) => CheckQueue(s, pending)
    case CheckResumed(picked, w) => CreateJob(s, picked, w)
  }

  function Run(s: State, hs: seq<Heuristic>, events: seq<Event>): State {
    if events == [] then s
    else Step(Run(s, hs, events[..|events| - 1]), hs, events[|events| - 1])
  }
}
