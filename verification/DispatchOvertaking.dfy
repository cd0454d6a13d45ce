/**
 * Bounded overtaking: an ordinary dispatch from the main queue never leaves an eligible job behind that entered
 * 2,880,000 ms earlier (720 ms more for a job of age zero), both measured at the last scoring. A dispatch of the
 * un-prefer loop overtakes only jobs this loop put back. For the others it is proved exactly when they overtake: the
 * promotion of a held-back job, and a check that goes on after a wait.
 */
module DispatchOvertaking {
  import opened Wrappers
  import opened DriverJobs
  import opened DriverQueue
  import opened StableSort
  import opened DispatchModel
  import opened DispatchConservation
  import opened DispatchAddressing
  import opened DispatchConcurrency
  import opened DispatchPromotion
  import opened DispatchOrder

  /** The eligible jobs of a queue all rank at or below the first. */
  lemma {:induction false} FirstRanksHighest(q: seq<Job>, j: Job)
    requires SortedDesc(q, ScoreOf) && FirstEligible(q) == Some(j)
    ensures forall k :: k in q && !k.maxExceeded ==> j.score >= k.score
  {
    if q[0].maxExceeded {
      FirstRanksHighest(q[1..], j);
    } else {
      forall k | k in q ensures j.score >= k.score {
        var i :| 0 <= i < |q| && q[i] == k;
        assert i > 0 ==> ScoreOf(q[0]) >= ScoreOf(q[i]);
      }
    }
  }

  /** `j` does not overtake `k` by more than the span. */
  ghost predicate FairTo(j: Job, k: Job, t: int) {
    j.entranceTime <= k.entranceTime + SPAN + (if j.entranceTime == t then SLACK else 0)
  }

  ghost predicate FairToAll(j: Job, q: seq<Job>, t: int) {
    forall k :: k in q && !k.maxExceeded ==> FairTo(j, k, t)
  }

  lemma FirstIsFair(q: seq<Job>, t: int, j: Job)
    requires ScoredAt(q, t) && FirstEligible(q) == Some(j)
    ensures FairToAll(j, q, t)
  {
    FirstRanksHighest(q, j);
    forall k | k in q && !k.maxExceeded ensures FairTo(j, k, t) {
      assert JobScoredAt(j, t) && JobScoredAt(k, t);
      if !FairTo(j, k, t) {
        EarlierOutranks(t, k, j);
      }
    }
  }

  // ---------------------------------------------------------------- one step

  /** Handed out by `s -> u`: a preferred job, a held-back job, or one that overtook none left in main too far. */
  ghost predicate Fairly(s: State, u: State, x: Job, t: int) {
    HasId(s.preferred, x.jobId) || x.maxExceeded || FairToAll(x, u.main, t)
  }

  ghost predicate FairStep(s: State, u: State, t: int) {
    s.dispatched <= u.dispatched && forall x :: x in HandedOut(s, u) ==> Fairly(s, u, x, t)
  }

  lemma NothingHandedOut(s: State, u: State, t: int)
    requires u.dispatched == s.dispatched
    ensures FairStep(s, u, t)
  {
  }

  lemma OneHandedOut(s: State, u: State, x: Job, t: int)
    requires u.dispatched == s.dispatched + [x] && Fairly(s, u, x, t)
    ensures FairStep(s, u, t)
  {
    assert HandedOut(s, u) == [x];
  }

  /** A dispatch of the first eligible job of a queue, with main as it was scored at `t`. */
  lemma OrdinaryIsFair(s: State, v: State, w: Which, t: int)
    requires v.dispatched == s.dispatched && v.preferred == s.preferred && ScoredAt(v.main, t)
    requires FirstEligible(v.Q(w)).Some?
    ensures FairStep(s, CreateJob(v, FirstEligible(v.Q(w)).value, w), t)
  {
    var j := FirstEligible(v.Q(w)).value;
    var u, x := CreateJob(v, j, w), j.(updateRunning := 0);
    if w == MainQ {
      FirstIsFair(v.main, t, j);
      assert FairToAll(x, u.main, t) by {
        forall k | k in u.main && !k.maxExceeded ensures FairTo(x, k, t) {
          assert FairTo(j, k, t);
        }
      }
    } else {
      var i :| 0 <= i < |v.preferred| && v.preferred[i] == j;
      assert HasId(s.preferred, x.jobId);
    }
    OneHandedOut(s, u, x, t);
  }

  lemma DispatchNextIsFair(s: State, v: State, t: int)
    requires v.dispatched == s.dispatched && v.preferred == s.preferred && ScoredAt(v.main, t)
    ensures FairStep(s, DispatchNext(v), t)
  {
    if FirstEligible(v.preferred).Some? {
      OrdinaryIsFair(s, v, PreferredQ, t);
    } else if FirstEligible(v.main).Some? {
      OrdinaryIsFair(s, v, MainQ, t);
    } else {
      NothingHandedOut(s, v, t);
    }
  }

  lemma CheckingIsFair(s: State, pending: Which -> int, t: int)
    requires ScoredAt(s.main, t)
    ensures FairStep(s, CheckQueue(s, pending), t)
  {
    if FirstEligible(s.preferred).Some? && pending(PreferredQ) == 0 {
      OrdinaryIsFair(s, s, PreferredQ, t);
    } else if FirstEligible(s.main).Some? && pending(MainQ) == 0 {
      OrdinaryIsFair(s, s, MainQ, t);
    } else {
      NothingHandedOut(s, s, t);
    }
  }

  lemma ArrivalIsFair(s: State, job: Job, now: int)
    requires PrioritiesOk(s.main) && 1 <= job.priority <= 5
    ensures FairStep(s, Arrive(s, CONFIGURED, job, now), now)
  {
    RecalculatedScored(s.main + [job], now);
    var v := s.(main := Recalculated(Weighted(CONFIGURED), now, s.main + [job]));
    if s.consumerActive {
      DispatchNextIsFair(s, v, now);
    } else {
      NothingHandedOut(s, v, now);
    }
  }

  lemma {:induction false} PreferEachHandsOutNothing(s: State, ids: seq<string>, i: nat)
    requires i <= |s.preferred|
    ensures PreferEach(s, ids, i).dispatched == s.dispatched
    decreases |ids|
  {
    if ids != [] {
      PreferEachHandsOutNothing(PreferOne(s, ids[|ids| - 1], i), ids[..|ids| - 1], i);
    }
  }

  // ---------------------------------------------------------------- promotions

  /** `u` is `s` with held-back jobs handed out. */
  ghost predicate HandsOutHeld(s: State, u: State) {
    s.dispatched <= u.dispatched && forall x :: x in HandedOut(s, u) ==> x.maxExceeded
  }

  lemma HeldTwice(s: State, u: State, v: State)
    requires HandsOutHeld(s, u) && HandsOutHeld(u, v)
    ensures HandsOutHeld(s, v)
  {
    assert HandedOut(s, v) == HandedOut(s, u) + HandedOut(u, v);
  }

  /** What the check of one queue on behalf of an event hands out: the first held-back job, if it is let run. */
  lemma EventHandsOut(s: State, experiment: string, name: string, w: Which)
    requires Addressable(s)
    ensures var u := CheckMaxExceededIn(s, experiment, name, false, w).0;
            var i := FindHeld(s.Q(w), experiment, name);
            if i < |s.Q(w)| && CheckRunningJobs(s, name) && s.consumerActive
            then u == CreateJob(s, s.Q(w)[i], w)
            else u.dispatched == s.dispatched && u.consumerActive == s.consumerActive
    ensures HandsOutHeld(s, CheckMaxExceededIn(s, experiment, name, false, w).0)
  {
    var i := FindHeld(s.Q(w), experiment, name);
    if i < |s.Q(w)| && CheckRunningJobs(s, name) && s.consumerActive {
      FindsIt(s, w, i);
      var x := s.Q(w)[i].(updateRunning := 0);
      assert HandedOut(s, CreateJob(s, s.Q(w)[i], w)) == [x];
    }
  }

  lemma FinishedHandsOutHeld(s: State, experiment: string, name: string)
    requires Addressable(s)
    ensures HandsOutHeld(s, CheckMaxExceeded(s, experiment, name))
  {
    var (t, done) := CheckMaxExceededIn(s, experiment, name, false, PreferredQ);
    EventHandsOut(s, experiment, name, PreferredQ);
    EventKeepsAddressable(s, experiment, name, PreferredQ);
    if !done {
      EventHandsOut(t, experiment, name, MainQ);
      HeldTwice(s, t, CheckMaxExceeded(s, experiment, name));
    }
  }

  lemma {:induction false} PromoteEachHandsOutHeld(
      s: State, pipelines: seq<StoredPipeline>, snapshot: seq<Job>, w: Which)
    requires Addressable(s) && forall p :: p in pipelines ==> FirstHeldOf(snapshot, p.name).Some?
    ensures HandsOutHeld(s, PromoteEach(s, pipelines, snapshot, w))
    decreases |pipelines|
  {
    if pipelines != [] {
      var t := Promote(s, pipelines[0], snapshot, w);
      var extra := PromoteHandsOutOne(s, pipelines[0], snapshot, w);
      assert HandedOut(s, t) == extra;
      PromoteEachHandsOutHeld(t, pipelines[1..], snapshot, w);
      HeldTwice(s, t, PromoteEach(s, pipelines, snapshot, w));
    }
  }

  lemma IntervalHandsOutHeld(
      s: State, w: Which, snapshot: seq<Job>, redis: map<string, nat>, stored: seq<StoredPipeline>)
    requires Addressable(s)
    ensures HandsOutHeld(s, Interval(s, w, snapshot, redis, stored))
  {
    if exists j :: j in snapshot && j.maxExceeded {
      var pipelines := Relevant(stored, snapshot);
      var t := s.(active := Refresh(s.active, pipelines, redis));
      assert NoMoreWait(s, t);
      AddressableKept(s, t);
      PromoteEachHandsOutHeld(t, pipelines, snapshot, w);
      assert HandedOut(s, Interval(s, w, snapshot, redis, stored))
             == HandedOut(t, PromoteEach(t, pipelines, snapshot, w));
    }
  }

  lemma HeldIsFair(s: State, u: State, t: int)
    requires HandsOutHeld(s, u)
    ensures FairStep(s, u, t)
  {
  }

  // ---------------------------------------------------------------- runs

  lemma StepIsFair(s: State, t: int, e: Event)
    requires OrderOk(s, t) && Addressable(s) && InRange(e) && !e.Unpreferring? && !e.CheckResumed?
    ensures FairStep(s, Step(s, CONFIGURED, e), ScoringTime(t, e))
  {
    match e
    case Arrival(id, pipeline, now) => ArrivalIsFair(s, PipelineToQueueAdapter(id, pipeline, now), now);
    case Stopping(id) => NothingHandedOut(s, Stop(s, id), t);
    case Preferring(ids, place) =>
      PreferEachHandsOutNothing(s, ids, GetIndex(s.preferred, place));
      NothingHandedOut(s, Prefer(s, ids, place), t);
    case ConsumerWaiting => NothingHandedOut(s, s.(consumerActive := false), t);
    case ConsumerActive => DispatchNextIsFair(s, s.(consumerActive := true), t);
    case Finished(experiment, name) =>
      FinishedHandsOutHeld(s, experiment, name);
      HeldIsFair(s, CheckMaxExceeded(s, experiment, name), t);
    case IntervalOn(w, snapshot, redis, stored) =>
      IntervalHandsOutHeld(s, w, snapshot, redis, stored);
      HeldIsFair(s, Interval(s, w, snapshot, redis, stored), t);
    case Checking(pending) => CheckingIsFair(s, pending, t);
  }

  /**
   * Over every run, from any sorted start: each job a step hands out, unless it comes from the preferred queue or is
   * held back, leaves no eligible job behind in main that entered more than the span earlier. The un-prefer loop
   * dispatches before it sorts, see `DispatchUnpreferring`; for resumed checks see `ResumedCheckOvertakesIff`.
   */
  lemma NoLongOvertaking(start: State, t: int, events: seq<Event>, e: Event)
    requires OrderOk(start, t) && GoodRun(start, events)
    requires InRange(e) && forall i :: 0 <= i < |events| ==> InRange(events[i])
    requires !e.Unpreferring? && !e.CheckResumed?
    ensures var s := Run(start, CONFIGURED, events);
            FairStep(s, Step(s, CONFIGURED, e), ScoringTime(LastScored(t, events), e))
  {
    MainStaysSorted(start, t, events);
    RunAddressable(start, CONFIGURED, events);
    StepIsFair(Run(start, CONFIGURED, events), LastScored(t, events), e);
  }

  // ---------------------------------------------------------------- when a job overtakes

  /** A job is handed out of main ahead of an eligible one that entered more than the span earlier. */
  ghost predicate Overtakes(s: State, u: State, t: int) {
    exists x, k :: x in HandedOut(s, u) && !HasId(s.preferred, x.jobId)
                && k in u.main && !k.maxExceeded && !FairTo(x, k, t)
  }

  // ---------------------------------------------------------------- when a promotion overtakes

  /** The job of main that a finished job lets run, when the preferred queue had none to let run. */
  function LetRunFromMain(s: State, experiment: string, name: string): Option<Job> {
    var (t, done) := CheckMaxExceededIn(s, experiment, name, false, PreferredQ);
    var k := FindHeld(t.main, experiment, name);
    if !done && k < |t.main| && CheckRunningJobs(t, name) then Some(t.main[k]) else None
  }

  lemma RefusalKeepsMain(s: State, experiment: string, name: string)
    requires Addressable(s) && !CheckMaxExceededIn(s, experiment, name, false, PreferredQ).1
    ensures var t := CheckMaxExceededIn(s, experiment, name, false, PreferredQ).0;
            && t.main == s.main && t.dispatched == s.dispatched && t.consumerActive == s.consumerActive
            && (forall id :: HasId(t.preferred, id) <==> HasId(s.preferred, id))
  {
    var t := CheckMaxExceededIn(s, experiment, name, false, PreferredQ).0;
    assert |t.preferred| == |s.preferred|;
    assert forall i :: 0 <= i < |s.preferred| ==> t.preferred[i].jobId == s.preferred[i].jobId;
  }

  /** From the preferred queue a finished job hands out a preferred job, which overtakes nobody. */
  lemma PreferredOvertakesNone(s: State, t: int, experiment: string, name: string)
    requires Addressable(s)
    ensures !Overtakes(s, CheckMaxExceededIn(s, experiment, name, false, PreferredQ).0, t)
  {
    EventHandsOut(s, experiment, name, PreferredQ);
    var i := FindHeld(s.preferred, experiment, name);
    if i < |s.preferred| && CheckRunningJobs(s, name) && s.consumerActive {
      var x := s.preferred[i].(updateRunning := 0);
      assert HandedOut(s, CreateJob(s, s.preferred[i], PreferredQ)) == [x];
      assert HasId(s.preferred, x.jobId);
    }
  }

  lemma SameIdSameJob(s: State, j: Job, k: Job)
    requires Addressable(s) && j in s.main && k in s.main && j.jobId == k.jobId
    ensures j == k
  {
    assert Waits(s, IdIs(j.jobId)) <= 1;
    FoundItself(s.main, j);
    FoundItself(s.main, k);
  }

  lemma MainPromotionOvertakesIff(s: State, t: int, j: Job)
    requires Addressable(s) && j in s.main && j.maxExceeded
    ensures Overtakes(s, CreateJob(s, j, MainQ), t) <==> !FairToAll(j, s.main, t)
  {
    var u, x := CreateJob(s, j, MainQ), j.(updateRunning := 0);
    assert HandedOut(s, u) == [x];
    assert !HasId(s.preferred, x.jobId) by {
      var i :| 0 <= i < |s.main| && s.main[i] == j;
      FindsIt(s, MainQ, i);
    }
    if k :| k in s.main && !k.maxExceeded && !FairTo(j, k, t) {
      if k.jobId == j.jobId {
        SameIdSameJob(s, j, k);
      }
      assert k in u.main && !FairTo(x, k, t);
    }
  }

  /**
   * A finished job overtakes if and only if it lets a job of main run, which is held back by construction, while
   * the consumer is active and an eligible job entered too much earlier.
   */
  lemma PromotionOvertakesIff(s: State, t: int, experiment: string, name: string)
    requires Addressable(s)
    ensures Overtakes(s, CheckMaxExceeded(s, experiment, name), t) <==>
            var j := LetRunFromMain(s, experiment, name);
            s.consumerActive && j.Some? && !FairToAll(j.value, s.main, t)
  {
    var (v, done) := CheckMaxExceededIn(s, experiment, name, false, PreferredQ);
    if done {
      PreferredOvertakesNone(s, t, experiment, name);
    } else {
      RefusalKeepsMain(s, experiment, name);
      EventKeepsAddressable(s, experiment, name, PreferredQ);
      EventHandsOut(v, experiment, name, MainQ);
      var u := CheckMaxExceeded(s, experiment, name);
      assert Overtakes(s, u, t) <==> Overtakes(v, u, t);
      var k := FindHeld(v.main, experiment, name);
      if k < |v.main| && CheckRunningJobs(v, name) && v.consumerActive {
        assert v.main[k] in v.main;
        MainPromotionOvertakesIff(v, t, v.main[k]);
      } else {
        assert HandedOut(v, u) == [];
      }
    }
  }

  /** The job of main that one promotion of an interval lets run. */
  function PromotedFromMain(s: State, p: StoredPipeline, snapshot: seq<Job>): Option<Job>
    requires FirstHeldOf(snapshot, p.name).Some?
  {
    var k := FindHeld(s.main, FirstHeldOf(snapshot, p.name).value.experimentName, p.name);
    if Required(s.active, p.name) > 0 && k < |s.main| && CheckRunningJobs(s, p.name) then Some(s.main[k]) else None
  }

  /** Marking a held-back job changes nothing about ages and eligibility. */
  lemma MarkKeepsFairness(s: State, t: int, k: nat)
    requires k < |s.main| && s.main[k].maxExceeded
    ensures var v := Mark(s, MainQ, k, 1);
            FairToAll(v.main[k], v.main, t) <==> FairToAll(s.main[k], s.main, t)
  {
    var v := Mark(s, MainQ, k, 1);
    if FairToAll(v.main[k], v.main, t) {
      forall y | y in s.main && !y.maxExceeded ensures FairTo(s.main[k], y, t) {
        var i :| 0 <= i < |s.main| && s.main[i] == y;
        assert v.main[i] == y && FairTo(v.main[k], y, t);
      }
    }
    if FairToAll(s.main[k], s.main, t) {
      forall y | y in v.main && !y.maxExceeded ensures FairTo(v.main[k], y, t) {
        var i :| 0 <= i < |v.main| && v.main[i] == y;
        assert s.main[i] == y && FairTo(s.main[k], y, t);
      }
    }
  }

  /** A promotion from main, by a mark and a dispatch. */
  lemma MarkedPromotionOvertakesIff(s: State, t: int, k: nat)
    requires Addressable(s) && k < |s.main| && s.main[k].maxExceeded
    ensures var v := Mark(s, MainQ, k, 1);
            Overtakes(s, CreateJob(v, v.main[k], MainQ), t) <==> !FairToAll(s.main[k], s.main, t)
  {
    var v := Mark(s, MainQ, k, 1);
    forall p: Property ensures Waits(v, p) <= Waits(s, p) { MarkWaits(s, MainQ, k, 1, p); }
    AddressableKept(s, v);
    assert v.main[k] in v.main;
    MainPromotionOvertakesIff(v, t, v.main[k]);
    MarkKeepsFairness(s, t, k);
    var u := CreateJob(v, v.main[k], MainQ);
    assert HandedOut(s, u) == HandedOut(v, u);
  }

  lemma PreferredPromotionOvertakesNone(s: State, t: int, p: StoredPipeline, snapshot: seq<Job>)
    requires Addressable(s) && FirstHeldOf(snapshot, p.name).Some?
    ensures !Overtakes(s, Promote(s, p, snapshot, PreferredQ), t)
  {
    var u := Promote(s, p, snapshot, PreferredQ);
    var i := FindHeld(s.preferred, FirstHeldOf(snapshot, p.name).value.experimentName, p.name);
    if Required(s.active, p.name) > 0 && i < |s.preferred| && CheckRunningJobs(s, p.name) && s.consumerActive {
      FindsTheMarked(s, PreferredQ, i);
      var x := s.preferred[i].(updateRunning := 0);
      assert HandedOut(s, u) == [x];
      assert HasId(s.preferred, x.jobId);
    } else {
      assert u.dispatched == s.dispatched && HandedOut(s, u) == [];
    }
  }

  /**
   * One promotion of an interval overtakes if and only if it lets a job of main run while the consumer is active and
   * an eligible job entered too much earlier.
   */
  lemma IntervalOvertakesIff(s: State, t: int, p: StoredPipeline, snapshot: seq<Job>, w: Which)
    requires Addressable(s) && FirstHeldOf(snapshot, p.name).Some?
    ensures Overtakes(s, Promote(s, p, snapshot, w), t) <==>
            var j := PromotedFromMain(s, p, snapshot);
            w == MainQ && s.consumerActive && j.Some? && !FairToAll(j.value, s.main, t)
  {
    if w == PreferredQ {
      PreferredPromotionOvertakesNone(s, t, p, snapshot);
    } else {
      var u := Promote(s, p, snapshot, MainQ);
      var k := FindHeld(s.main, FirstHeldOf(snapshot, p.name).value.experimentName, p.name);
      if PromotedFromMain(s, p, snapshot).Some? && s.consumerActive {
        FindsTheMarked(s, MainQ, k);
        var v := Mark(s, MainQ, k, 1);
        assert u == CreateJob(v, v.main[k], MainQ);
        MarkedPromotionOvertakesIff(s, t, k);
      } else {
        assert u.dispatched == s.dispatched && HandedOut(s, u) == [];
      }
    }
  }

  // ---------------------------------------------------------------- when a resumed check overtakes

  /** The job was in main of `s`, whether or not it was re-scored since. */
  ghost predicate WasInMain(s: State, y: Job) {
    exists x :: x in s.main && Core(x) == Core(y)
  }

  /** An eligible job of main other than the one picked from queue `w`. */
  ghost predicate LeftBehind(s: State, picked: Job, w: Which, y: Job) {
    y in s.main && !y.maxExceeded && (w == MainQ ==> y.jobId != picked.jobId)
  }

  /** A pick, stale or not, overtakes exactly when it is not preferred now and leaves behind a job it is unfair to. */
  lemma PickOvertakesIff(s: State, t: int, picked: Job, w: Which)
    ensures Overtakes(s, CreateJob(s, picked, w), t) <==>
            && !HasId(s.preferred, picked.jobId)
            && exists y :: LeftBehind(s, picked, w, y) && !FairTo(picked, y, t)
  {
    var u, x := CreateJob(s, picked, w), picked.(updateRunning := 0);
    assert HandedOut(s, u) == [x];
    forall y ensures LeftBehind(s, picked, w, y) <==> y in u.main && !y.maxExceeded {
    }
    assert x in HandedOut(s, u);
    if !HasId(s.preferred, picked.jobId) {
      if y :| LeftBehind(s, picked, w, y) && !FairTo(picked, y, t) {
        assert y in u.main && !FairTo(x, y, t);
      }
    }
  }

  /** A pick of age zero counts as 720 ms old; later it is measured by its real age. */
  ghost predicate LostItsSlack(picked: Job, y: Job, pickTime: int, now: int) {
    && picked.entranceTime == pickTime && picked.entranceTime != now
    && y.entranceTime + SPAN < picked.entranceTime <= y.entranceTime + SPAN + SLACK
  }

  lemma SeenOvertakenIff(s: State, pickTime: int, now: int, picked: Job, y: Job)
    requires ScoredAt(s.main, pickTime) && FirstEligible(s.main) == Some(picked) && WasInMain(s, y) && !y.maxExceeded
    ensures !FairTo(picked, y, now) <==> LostItsSlack(picked, y, pickTime, now)
  {
    var x :| x in s.main && Core(x) == Core(y);
    assert Core(x).maxExceeded == x.maxExceeded && Core(y).maxExceeded == y.maxExceeded;
    assert Core(x).entranceTime == x.entranceTime && Core(y).entranceTime == y.entranceTime;
    FirstIsFair(s.main, pickTime, picked);
    assert FairTo(picked, x, pickTime);
  }

  /**
   * A check that picks from main at some point of a run and goes on later, both measured at the last scoring then. It
   * overtakes if and only if its pick is not preferred by now and leaves behind an eligible job that joined main since
   * the pick and entered too much earlier, or that was there, when the pick had age zero and has lost its slack since.
   */
  lemma ResumedCheckOvertakesIff(start: State, t: int, events: seq<Event>, k: nat, picked: Job)
    requires OrderOk(start, t) && k <= |events| && forall i :: 0 <= i < |events| ==> InRange(events[i])
    requires FirstEligible(Run(start, CONFIGURED, events[..k]).main) == Some(picked)
    ensures var pickTime, now := LastScored(t, events[..k]), LastScored(t, events);
            var p, s := Run(start, CONFIGURED, events[..k]), Run(start, CONFIGURED, events);
            Overtakes(s, Step(s, CONFIGURED, CheckResumed(picked, MainQ)), now) <==>
            && !HasId(s.preferred, picked.jobId)
            && exists y :: LeftBehind(s, picked, MainQ, y) &&
                 if WasInMain(p, y) then LostItsSlack(picked, y, pickTime, now) else !FairTo(picked, y, now)
  {
    var pickTime, now := LastScored(t, events[..k]), LastScored(t, events);
    var p, s := Run(start, CONFIGURED, events[..k]), Run(start, CONFIGURED, events);
    assert forall i :: 0 <= i < k ==> events[..k][i] == events[i];
    MainStaysSorted(start, t, events[..k]);
    forall y | LeftBehind(s, picked, MainQ, y) && WasInMain(p, y)
      ensures !FairTo(picked, y, now) <==> LostItsSlack(picked, y, pickTime, now)
    {
      SeenOvertakenIff(p, pickTime, now, picked, y);
    }
    PickOvertakesIff(s, now, picked, MainQ);
    PickStep(s, picked, MainQ);
  }

  lemma PickStep(s: State, picked: Job, w: Which)
    ensures Step(s, CONFIGURED, CheckResumed(picked, w)) == CreateJob(s, picked, w)
  {
  }

  // ---------------------------------------------------------------- when a promotion overtakes
}
