/**
 * Who is served next, by position: the preferred queue before main, each from the front, passing over the jobs held
 * back. And what a stop takes out.
 */
module DispatchServing {
  import opened Wrappers
  import opened DriverJobs
  import opened DriverQueue
  import opened DispatchModel
  import opened DispatchConservation
  import opened DispatchAddressing

  // ---------------------------------------------------------------- positions

  /** Position `i` holds the first job of the queue that is not held back. */
  ghost predicate FirstFree(q: seq<Job>, i: nat) {
    i < |q| && !q[i].maxExceeded && forall k :: 0 <= k < i ==> q[k].maxExceeded
  }

  ghost predicate AllHeld(q: seq<Job>) {
    forall k :: 0 <= k < |q| ==> q[k].maxExceeded
  }

  /** The state without position `i` of queue `w`. */
  function CutAt(s: State, w: Which, i: nat): State
    requires i < |s.Q(w)|
  {
    s.WithQ(w, s.Q(w)[..i] + s.Q(w)[i + 1..])
  }

  /** The job at position `i` of queue `w` is handed out, and nothing else happens but that its mark is counted. */
  ghost predicate HandsOver(s: State, u: State, w: Which, i: nat) {
    && i < |s.Q(w)|
    && u.(active := s.active) == CutAt(s, w, i).(dispatched := s.dispatched + [s.Q(w)[i].(updateRunning := 0)])
    && (s.Q(w)[i].updateRunning == 0 ==> u.active == s.active)
  }

  /** The first free preferred job, else the first free job of main, else nothing. */
  ghost predicate ServedNext(s: State, u: State) {
    && (forall i: nat :: FirstFree(s.preferred, i) ==> HandsOver(s, u, PreferredQ, i))
    && (AllHeld(s.preferred) ==> forall i: nat :: FirstFree(s.main, i) ==> HandsOver(s, u, MainQ, i))
    && (AllHeld(s.preferred) && AllHeld(s.main) ==> u == s)
  }

  lemma CutLater(q: seq<Job>, i: nat)
    requires 0 < i < |q|
    ensures q[..i] + q[i + 1..] == [q[0]] + (q[1..][..i - 1] + q[1..][i..])
  {
  }

  lemma {:induction false} WithoutAt(q: seq<Job>, i: nat)
    requires i < |q| && Count(q, IdIs(q[i].jobId)) <= 1
    ensures Without(q, q[i].jobId) == q[..i] + q[i + 1..]
  {
    var id, rest := q[i].jobId, q[1..];
    assert [q[0]] + rest == q;
    WithoutStep(q[0], rest, id);
    if i == 0 {
      WithoutAbsent(rest, id);
    } else {
      assert rest[i - 1] == q[i];
      CountMember(rest, q[i], IdIs(id));
      WithoutAt(rest, i - 1);
      CutLater(q, i);
    }
  }

  lemma CreateJobHandsOver(s: State, w: Which, i: nat)
    requires Addressable(s) && i < |s.Q(w)|
    ensures HandsOver(s, CreateJob(s, s.Q(w)[i], w), w, i)
  {
    assert Waits(s, IdIs(s.Q(w)[i].jobId)) <= 1;
    WithoutAt(s.Q(w), i);
  }

  lemma {:induction false} FirstEligibleAt(q: seq<Job>, i: nat)
    requires FirstFree(q, i)
    ensures FirstEligible(q) == Some(q[i])
  {
    if i > 0 {
      assert q[0].maxExceeded;
      FirstEligibleAt(q[1..], i - 1);
    }
  }

  lemma DispatchNextServes(s: State)
    requires Addressable(s)
    ensures ServedNext(s, DispatchNext(s))
  {
    var u := DispatchNext(s);
    forall i: nat | FirstFree(s.preferred, i) ensures HandsOver(s, u, PreferredQ, i) {
      FirstEligibleAt(s.preferred, i);
      CreateJobHandsOver(s, PreferredQ, i);
    }
    if AllHeld(s.preferred) {
      forall i: nat | FirstFree(s.main, i) ensures HandsOver(s, u, MainQ, i) {
        FirstEligibleAt(s.main, i);
        CreateJobHandsOver(s, MainQ, i);
      }
    }
  }

  // ---------------------------------------------------------------- who is served when

  lemma StaysAddressable(s: State)
    requires Addressable(s)
    ensures Addressable(s.(consumerActive := true))
  {
    AddressableKept(s, s.(consumerActive := true));
  }

  /** A consumer that becomes active. */
  lemma ConsumerIsServed(s: State, hs: seq<Heuristic>)
    requires Addressable(s)
    ensures ServedNext(s.(consumerActive := true), Step(s, hs, ConsumerActive))
  {
    var v := s.(consumerActive := true);
    StaysAddressable(s);
    DispatchNextServes(v);
    assert Step(s, hs, ConsumerActive) == DispatchNext(v);
  }

  /** The job a pipeline becomes; it entered when the pipeline started, or now if that is not known. */
  ghost predicate Describes(j: Job, id: string, p: Pipeline, now: int) {
    && j.jobId == id && j.pipelineName == p.name && j.experimentName == p.experimentName && j.tags == p.tags
    && j.priority == p.priority && j.maxExceeded == p.maxExceeded && j.updateRunning == 0
    && (p.startTime != 0 ==> j.entranceTime == p.startTime) && (p.startTime == 0 ==> j.entranceTime == now)
  }

  /** An arrival joins main, which is scored and sorted; only then, if the consumer is active, is it served. */
  lemma ArrivalIsServed(s: State, hs: seq<Heuristic>, id: string, p: Pipeline, now: int)
    requires Addressable(s) && id != "" && Waits(s, IdIs(id)) == 0
    ensures exists j :: Describes(j, id, p, now) &&
              var v := s.(main := Recalculated(Weighted(hs), now, s.main + [j]));
              var u := Step(s, hs, Arrival(id, p, now));
              if s.consumerActive then ServedNext(v, u) else u == v
  {
    var j := PipelineToQueueAdapter(id, p, now);
    var v := s.(main := Recalculated(Weighted(hs), now, s.main + [j]));
    assert Describes(j, id, p, now);
    forall r: Property ensures Waits(v, r) == Waits(s, r) + One(j, r) {
      CountRecalculated(Weighted(hs), now, s.main + [j], r);
      CountPush(s.main, j, r);
    }
    OneMoreAddressable(s, v, j);
    DispatchNextServes(v);
  }

  lemma OneMoreAddressable(s: State, v: State, j: Job)
    requires Addressable(s) && j.jobId != "" && Waits(s, IdIs(j.jobId)) == 0
    requires forall r: Property :: Waits(v, r) == Waits(s, r) + One(j, r)
    ensures Addressable(v)
  {
    assert Core(j).jobId == j.jobId;
    forall id ensures Waits(v, IdIs(id)) <= 1 {
      assert Waits(v, IdIs(id)) == Waits(s, IdIs(id)) + One(j, IdIs(id));
    }
    assert Waits(v, IdIs("")) == Waits(s, IdIs("")) + One(j, IdIs(""));
  }

  /** The job at position `i` moves to the end of main; if the consumer is active, it is served then. */
  ghost predicate MovesBack(s: State, i: nat, u: State)
    requires i < |s.preferred|
  {
    var v := CutAt(s, PreferredQ, i).(main := s.main + [s.preferred[i]]);
    if s.consumerActive then ServedNext(v, u) else u == v
  }

  lemma UnpreferTurnIsServed(s: State, i: nat)
    requires Addressable(s) && i < |s.preferred|
    ensures MovesBack(s, i, UnpreferOne(s, s.preferred[i].jobId))
  {
    var j := s.preferred[i];
    var v := CutAt(s, PreferredQ, i).(main := s.main + [j]);
    FindsIt(s, PreferredQ, i);
    assert FindJob(s.preferred, j.jobId) == Some(j);
    assert Waits(s, IdIs(j.jobId)) <= 1;
    WithoutAt(s.preferred, i);
    forall p: Property ensures Waits(v, p) <= Waits(s, p) {
      CountTakenOut(s.preferred, j.jobId, p);
      CountPush(s.main, j, p);
    }
    AddressableKept(s, v);
    DispatchNextServes(v);
  }

  /** One turn of the un-prefer loop: the job with the id moves back; an id not preferred changes nothing. */
  ghost predicate UnpreferTurn(s: State, id: string, u: State) {
    && (!HasId(s.preferred, id) ==> u == s)
    && forall i: nat :: i < |s.preferred| && s.preferred[i].jobId == id ==> MovesBack(s, i, u)
  }

  lemma UnpreferOneTurns(s: State, id: string)
    requires Addressable(s)
    ensures UnpreferTurn(s, id, UnpreferOne(s, id)) && Addressable(UnpreferOne(s, id))
  {
    forall i: nat | i < |s.preferred| && s.preferred[i].jobId == id ensures MovesBack(s, i, UnpreferOne(s, id)) {
      UnpreferTurnIsServed(s, i);
    }
    forall p: Property ensures Waits(UnpreferOne(s, id), p) <= Waits(s, p) {
      UnpreferOneWaits(s, id, p);
    }
    AddressableKept(s, UnpreferOne(s, id));
  }

  /** From state to state, one turn for each id in the order of the request. */
  ghost predicate UnpreferTurns(ts: seq<State>, ids: seq<string>) {
    |ts| == |ids| + 1 && forall k :: 0 <= k < |ids| ==> UnpreferTurn(ts[k], ids[k], ts[k + 1])
  }

  ghost predicate UnpreferPath(ts: seq<State>, s: State, u: State, ids: seq<string>) {
    UnpreferTurns(ts, ids) && ts[0] == s && ts[|ids|] == u
  }

  lemma OneMoreTurn(s: State, ts: seq<State>, t: State, u: State, ids: seq<string>)
    requires ids != [] && UnpreferPath(ts, t, u, ids[1..]) && UnpreferTurn(s, ids[0], t)
    ensures UnpreferPath([s] + ts, s, u, ids)
  {
    var all := [s] + ts;
    forall k | 0 <= k < |ids| ensures UnpreferTurn(all[k], ids[k], all[k + 1]) {
      if k > 0 {
        assert all[k] == ts[k - 1] && all[k + 1] == ts[k] && ids[k] == ids[1..][k - 1];
      }
    }
  }

  lemma {:induction false} UnpreferEachTurns(s: State, ids: seq<string>) returns (ts: seq<State>)
    requires Addressable(s)
    ensures UnpreferPath(ts, s, UnpreferEach(s, ids), ids)
    decreases |ids|
  {
    if ids == [] {
      ts := [s];
    } else {
      var t := UnpreferOne(s, ids[0]);
      UnpreferOneTurns(s, ids[0]);
      var rest := UnpreferEachTurns(t, ids[1..]);
      OneMoreTurn(s, rest, t, UnpreferEach(t, ids[1..]), ids);
      ts := [s] + rest;
    }
  }

  /** Un-preferring takes the ids in the order of the request, serves within each turn, and scores main at the end. */
  lemma UnpreferringServes(s: State, hs: seq<Heuristic>, ids: seq<string>, now: int) returns (ts: seq<State>)
    requires Addressable(s)
    ensures UnpreferTurns(ts, ids) && ts[0] == s
    ensures Step(s, hs, Unpreferring(ids, now)) ==
            ts[|ids|].(main := Recalculated(Weighted(hs), now, ts[|ids|].main))
  {
    ts := UnpreferEachTurns(s, ids);
  }

  /** The periodic check asks queue by queue whether anything is pending and serves the first queue where nothing is. */
  lemma CheckIsServed(s: State, hs: seq<Heuristic>, pending: Which -> int)
    requires Addressable(s)
    ensures var u := Step(s, hs, Checking(pending));
            && (forall i: nat :: FirstFree(s.preferred, i) && pending(PreferredQ) == 0 ==>
                  HandsOver(s, u, PreferredQ, i))
            && (AllHeld(s.preferred) || pending(PreferredQ) != 0 ==>
                  && (forall i: nat :: FirstFree(s.main, i) && pending(MainQ) == 0 ==> HandsOver(s, u, MainQ, i))
                  && (AllHeld(s.main) || pending(MainQ) != 0 ==> u == s))
  {
    var u := Step(s, hs, Checking(pending));
    forall i: nat | FirstFree(s.preferred, i) && pending(PreferredQ) == 0 ensures HandsOver(s, u, PreferredQ, i) {
      FirstEligibleAt(s.preferred, i);
      CreateJobHandsOver(s, PreferredQ, i);
    }
    if AllHeld(s.preferred) || pending(PreferredQ) != 0 {
      forall i: nat | FirstFree(s.main, i) && pending(MainQ) == 0 ensures HandsOver(s, u, MainQ, i) {
        FirstEligibleAt(s.main, i);
        CreateJobHandsOver(s, MainQ, i);
      }
    }
  }

  /** Asked for by its id, a waiting job is handed out wherever it waits; an id that does not wait serves the next. */
  lemma ByIdIsServed(s: State, id: string)
    requires Addressable(s)
    ensures forall w, i: nat :: i < |s.Q(w)| && s.Q(w)[i].jobId == id ==> HandsOver(s, DispatchById(s, id), w, i)
    ensures !HasId(s.preferred, id) && !HasId(s.main, id) ==> ServedNext(s, DispatchById(s, id))
  {
    forall w, i: nat | i < |s.Q(w)| && s.Q(w)[i].jobId == id ensures HandsOver(s, DispatchById(s, id), w, i) {
      FindsIt(s, w, i);
      CreateJobHandsOver(s, w, i);
    }
    DispatchNextServes(s);
  }

  // ---------------------------------------------------------------- stopping

  lemma NotAmong(q: seq<Job>, id: string)
    ensures !HasId(Without(q, id), id)
  {
    var r := Without(q, id);
    forall i | 0 <= i < |r| ensures r[i].jobId != id {
      assert r[i] in r;
    }
  }

  /**
   * A stopped job leaves the queue it waits in, and nothing else moves; an id that does not wait changes nothing.
   * After a stop no queue holds the id.
   */
  lemma StopTakesOut(s: State, hs: seq<Heuristic>, id: string)
    requires Addressable(s)
    ensures var u := Step(s, hs, Stopping(id));
            && (forall w, i: nat :: i < |s.Q(w)| && s.Q(w)[i].jobId == id ==>
                  u == CutAt(s, w, i).(stopped := s.stopped + [s.Q(w)[i]]))
            && (!HasId(s.preferred, id) && !HasId(s.main, id) ==> u == s)
            && !HasId(u.preferred, id) && !HasId(u.main, id)
  {
    var u := Step(s, hs, Stopping(id));
    forall w, i: nat | i < |s.Q(w)| && s.Q(w)[i].jobId == id
      ensures u == CutAt(s, w, i).(stopped := s.stopped + [s.Q(w)[i]])
    {
      FindsIt(s, w, i);
      assert Waits(s, IdIs(id)) <= 1;
      WithoutAt(s.Q(w), i);
    }
    StoppedIsGone(s, id);
  }

  lemma StoppedIsGone(s: State, id: string)
    requires Addressable(s)
    ensures !HasId(Stop(s, id).preferred, id) && !HasId(Stop(s, id).main, id)
  {
    NotAmong(s.preferred, id);
    NotAmong(s.main, id);
    if HasId(s.preferred, id) && HasId(s.main, id) {
      var i :| 0 <= i < |s.preferred| && s.preferred[i].jobId == id;
      var k :| 0 <= k < |s.main| && s.main[k].jobId == id;
      assert Waits(s, IdIs(id)) <= 1;
      CountMember(s.preferred, s.preferred[i], IdIs(id));
      CountMember(s.main, s.main[k], IdIs(id));
      assert false;
    }
  }
}
