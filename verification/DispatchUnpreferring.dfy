/** The dispatches of the un-prefer loop, which come before main is sorted again. */
module DispatchUnpreferring {
  import opened Wrappers
  import opened Sequences
  import opened DriverJobs
  import opened DriverQueue
  import opened DispatchModel
  import opened DispatchConservation
  import opened DispatchAddressing
  import opened DispatchPromotion
  import opened DispatchOrder
  import opened DispatchOvertaking

  /** Fair to what is left, of the jobs of main at the start, among the eligible of `q`. */
  ghost predicate FairToFormer(s: State, x: Job, q: seq<Job>, t: int) {
    forall y :: y in q && !y.maxExceeded && WasInMain(s, y) ==> FairTo(x, y, t)
  }

  /** Within the loop: main is what is left of the sorted queue, then what the loop put back. */
  ghost predicate InLoop(s: State, v: State, kept: seq<Job>, back: seq<Job>, t: int) {
    && v.main == kept + back && ScoredAt(kept, t)
    && (forall j :: j in back ==> HasId(s.preferred, j.jobId) && !WasInMain(s, j))
    && (forall j :: j in v.preferred ==> HasId(s.preferred, j.jobId) && !WasInMain(s, j))
  }

  /** Handed out in the loop: a job that was preferred when it began, or one that is fair to the others of main. */
  ghost predicate FairLoop(s: State, v: State, u: State, t: int) {
    && v.dispatched <= u.dispatched
    && forall x :: x in HandedOut(v, u) ==> HasId(s.preferred, x.jobId) || FairToFormer(s, x, u.main, t)
  }

  lemma {:induction false} FirstEligibleOf(a: seq<Job>, b: seq<Job>)
    ensures FirstEligible(a + b) == if FirstEligible(a).Some? then FirstEligible(a) else FirstEligible(b)
  {
    if a == [] {
      assert a + b == b;
    } else {
      FirstEligibleOf(a[1..], b);
      assert (a + b)[1..] == a[1..] + b;
    }
  }

  lemma {:induction false} WithoutBoth(a: seq<Job>, b: seq<Job>, id: string)
    ensures Without(a + b, id) == Without(a, id) + Without(b, id)
  {
    if a == [] {
      assert a + b == b;
    } else {
      WithoutBoth(a[1..], b, id);
      WithoutBothStep(a[0], a[1..], b, id);
      assert [a[0]] + a[1..] == a;
    }
  }

  lemma WithoutBothStep(x: Job, a: seq<Job>, b: seq<Job>, id: string)
    requires Without(a + b, id) == Without(a, id) + Without(b, id)
    ensures Without([x] + a + b, id) == Without([x] + a, id) + Without(b, id)
  {
    WithoutStep(x, a, id);
    WithoutStep(x, a + b, id);
    Associative([x], a, b);
    Associative(if x.jobId == id then [] else [x], Without(a, id), Without(b, id));
  }

  lemma KeptScored(kept: seq<Job>, id: string, t: int)
    requires ScoredAt(kept, t)
    ensures ScoredAt(Without(kept, id), t)
  {
    WithoutSorted(kept, id);
  }

  /** Nothing that was in main at the start comes back to it. */
  ghost predicate FormerShrinks(s: State, v: State, u: State) {
    forall y :: y in u.main && WasInMain(s, y) ==> y in v.main
  }

  lemma LoopHandsOut(s: State, v: State, kept: seq<Job>, back: seq<Job>, j: Job, w: Which, t: int)
    requires InLoop(s, v, kept, back, t)
    requires HasId(s.preferred, j.jobId) || (w == MainQ && FairToAll(j, kept, t))
    ensures var u := CreateJob(v, j, w);
            var id := j.jobId;
            && FairLoop(s, v, u, t) && FormerShrinks(s, v, u)
            && if w == MainQ then InLoop(s, u, Without(kept, id), Without(back, id), t) else InLoop(s, u, kept, back, t)
  {
    var u, x := CreateJob(v, j, w), j.(updateRunning := 0);
    assert HandedOut(v, u) == [x];
    if w == MainQ {
      WithoutBoth(kept, back, j.jobId);
      KeptScored(kept, j.jobId, t);
    }
    if !HasId(s.preferred, j.jobId) {
      forall y | y in u.main && !y.maxExceeded && WasInMain(s, y) ensures FairTo(x, y, t) {
        assert y in kept;
        assert FairTo(j, y, t);
      }
    }
  }

  lemma LoopDispatch(s: State, v: State, kept: seq<Job>, back: seq<Job>, t: int)
      returns (kept': seq<Job>, back': seq<Job>)
    requires InLoop(s, v, kept, back, t)
    ensures var u := OnInsert(v);
            InLoop(s, u, kept', back', t) && FairLoop(s, v, u, t) && FormerShrinks(s, v, u)
  {
    kept', back' := kept, back;
    FirstEligibleOf(kept, back);
    if !v.consumerActive || (FirstEligible(v.preferred).None? && FirstEligible(v.main).None?) {
      assert HandedOut(v, OnInsert(v)) == [];
    } else if FirstEligible(v.preferred).Some? {
      LoopHandsOut(s, v, kept, back, FirstEligible(v.preferred).value, PreferredQ, t);
    } else {
      var j := FirstEligible(v.main).value;
      if FirstEligible(kept).Some? {
        FirstIsFair(kept, t, j);
      }
      kept', back' := Without(kept, j.jobId), Without(back, j.jobId);
      LoopHandsOut(s, v, kept, back, j, MainQ, t);
    }
  }

  lemma FairTwice(s: State, v: State, u: State, z: State, t: int)
    requires FairLoop(s, v, u, t) && FairLoop(s, u, z, t) && FormerShrinks(s, v, u) && FormerShrinks(s, u, z)
    ensures FairLoop(s, v, z, t) && FormerShrinks(s, v, z)
  {
    assert HandedOut(v, z) == HandedOut(v, u) + HandedOut(u, z);
    forall x | x in HandedOut(v, u) && !HasId(s.preferred, x.jobId) ensures FairToFormer(s, x, z.main, t) {
      assert FairToFormer(s, x, u.main, t);
    }
  }

  lemma LoopOne(s: State, v: State, id: string, kept: seq<Job>, back: seq<Job>, t: int)
      returns (kept': seq<Job>, back': seq<Job>)
    requires InLoop(s, v, kept, back, t)
    ensures var u := UnpreferOne(v, id);
            InLoop(s, u, kept', back', t) && FairLoop(s, v, u, t) && FormerShrinks(s, v, u)
  {
    match FindJob(v.preferred, id)
    case None =>
      kept', back' := kept, back;
      assert HandedOut(v, v) == [];
    case Some(job) =>
      var moved := v.(preferred := Without(v.preferred, id), main := v.main + [job]);
      assert moved.main == kept + (back + [job]);
      kept', back' := LoopDispatch(s, moved, kept, back + [job], t);
      assert HandedOut(v, OnInsert(moved)) == HandedOut(moved, OnInsert(moved));
  }

  lemma {:induction false} LoopEach(s: State, v: State, ids: seq<string>, kept: seq<Job>, back: seq<Job>, t: int)
    requires InLoop(s, v, kept, back, t)
    ensures FairLoop(s, v, UnpreferEach(v, ids), t) && FormerShrinks(s, v, UnpreferEach(v, ids))
    decreases |ids|
  {
    if ids == [] {
      assert HandedOut(v, v) == [];
    } else {
      var u := UnpreferOne(v, ids[0]);
      var kept', back' := LoopOne(s, v, ids[0], kept, back, t);
      LoopEach(s, u, ids[1..], kept', back', t);
      FairTwice(s, v, u, UnpreferEach(v, ids), t);
    }
  }

  /** Re-scoring at the end of the loop changes no job's data. */
  lemma FairAfterScoring(s: State, x: Job, q: seq<Job>, now: int, t: int)
    requires FairToFormer(s, x, q, t)
    ensures FairToFormer(s, x, Recalculated(Weighted(CONFIGURED), now, q), t)
  {
    var scored := RescoreAll(Weighted(CONFIGURED), now, q);
    forall y | y in Recalculated(Weighted(CONFIGURED), now, q) && !y.maxExceeded && WasInMain(s, y)
      ensures FairTo(x, y, t)
    {
      assert y in multiset(scored);
      var i :| 0 <= i < |scored| && scored[i] == y;
      assert q[i] in q && Core(q[i]) == Core(y);
      assert Core(y).maxExceeded == y.maxExceeded && Core(y).entranceTime == y.entranceTime;
      assert WasInMain(s, q[i]) && FairTo(x, q[i], t);
    }
  }

  lemma PreferredWasNotInMain(s: State, j: Job)
    requires Addressable(s) && j in s.preferred
    ensures HasId(s.preferred, j.jobId) && !WasInMain(s, j)
  {
    var i :| 0 <= i < |s.preferred| && s.preferred[i] == j;
    assert Waits(s, IdIs(j.jobId)) <= 1;
    CountMember(s.preferred, j, IdIs(j.jobId));
    if x :| x in s.main && Core(x) == Core(j) {
      assert Core(x).jobId == x.jobId && Core(j).jobId == j.jobId;
      CountMember(s.main, x, IdIs(j.jobId));
      assert false;
    }
  }

  lemma UnpreferIsFair(s: State, t: int, ids: seq<string>, now: int)
    requires OrderOk(s, t) && Addressable(s)
    ensures FairLoop(s, s, Unprefer(s, CONFIGURED, ids, now), t)
  {
    forall j | j in s.preferred ensures HasId(s.preferred, j.jobId) && !WasInMain(s, j) {
      PreferredWasNotInMain(s, j);
    }
    assert s.main == s.main + [];
    LoopEach(s, s, ids, s.main, [], t);
    var u, z := UnpreferEach(s, ids), Unprefer(s, CONFIGURED, ids, now);
    assert HandedOut(s, z) == HandedOut(s, u);
    forall x | x in HandedOut(s, z) && !HasId(s.preferred, x.jobId) ensures FairToFormer(s, x, z.main, t) {
      FairAfterScoring(s, x, u.main, now, t);
    }
  }

  /**
   * Over every run, what the un-prefer loop hands out was preferred when the loop began or is fair to every eligible
   * job left in main that was there when the loop began: such a job can overtake only jobs this loop put back.
   */
  lemma UnpreferringIsFair(start: State, t: int, events: seq<Event>, ids: seq<string>, now: int)
    requires OrderOk(start, t) && GoodRun(start, events)
    requires forall i :: 0 <= i < |events| ==> InRange(events[i])
    ensures var s := Run(start, CONFIGURED, events);
            FairLoop(s, s, Step(s, CONFIGURED, Unpreferring(ids, now)), LastScored(t, events))
  {
    MainStaysSorted(start, t, events);
    RunAddressable(start, CONFIGURED, events);
    UnpreferIsFair(Run(start, CONFIGURED, events), LastScored(t, events), ids, now);
  }
}
