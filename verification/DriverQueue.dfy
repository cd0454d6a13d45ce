/** The driver's queue: an ordered list of jobs, kept sorted by score and persisted as a chain. */
module DriverQueue {
  import opened Wrappers
  import opened DriverJobs
  import opened StableSort

  // ---------------------------------------------------------------- lists of jobs

  predicate HasId(q: seq<Job>, id: string) {
    exists i :: 0 <= i < |q| && q[i].jobId == id
  }

  /** The first job with this id. */
  function FindJob(q: seq<Job>, id: string): (r: Option<Job>)
    ensures r.Some? ==> r.value in q && r.value.jobId == id
    ensures r.None? <==> !HasId(q, id)
  {
    if q == [] then None else if q[0].jobId == id then Some(q[0]) else FindJob(q[1..], id)
  }

  function Without(q: seq<Job>, id: string): (r: seq<Job>)
    ensures forall j :: j in r <==> j in q && j.jobId != id
    ensures |r| <= |q|
  {
    if q == [] then []
    else (if q[0].jobId == id then [] else [q[0]]) + Without(q[1..], id)
  }

  /** The jobs with this id, in order: what `remove` takes out and returns. */
  function Removed(q: seq<Job>, id: string): (r: seq<Job>)
    ensures r == [] <==> !HasId(q, id)
    ensures r != [] ==> FindJob(q, id) == Some(r[0])
  {
    if q == [] then []
    else if q[0].jobId == id then [q[0]] + Removed(q[1..], id)
    else
      assert HasId(q, id) ==> HasId(q[1..], id);
      Removed(q[1..], id)
  }

  /** `q` is `kept` and `gone` merged, each in its order. */
  ghost predicate Merged(q: seq<Job>, kept: seq<Job>, gone: seq<Job>) {
    if q == [] then kept == [] && gone == []
    else
      || (kept != [] && kept[0] == q[0] && Merged(q[1..], kept[1..], gone))
      || (gone != [] && gone[0] == q[0] && Merged(q[1..], kept, gone[1..]))
  }

  ghost predicate NoneHasId(q: seq<Job>, id: string) { forall j :: j in q ==> j.jobId != id }

  ghost predicate AllHaveId(q: seq<Job>, id: string) { forall j :: j in q ==> j.jobId == id }

  /** Exactly the jobs with the id are gone; nothing is lost or reordered. */
  ghost predicate SplitsById(q: seq<Job>, id: string, kept: seq<Job>, gone: seq<Job>) {
    Merged(q, kept, gone) && NoneHasId(kept, id) && AllHaveId(gone, id)
  }

  lemma WithoutStep(x: Job, rest: seq<Job>, id: string)
    ensures Without([x] + rest, id) == (if x.jobId == id then [] else [x]) + Without(rest, id)
  {
    assert ([x] + rest)[1..] == rest;
  }

  lemma RemovedStep(x: Job, rest: seq<Job>, id: string)
    ensures Removed([x] + rest, id) == (if x.jobId == id then [x] else []) + Removed(rest, id)
  {
    assert ([x] + rest)[1..] == rest;
  }

  lemma {:induction false} MergedAppend(q: seq<Job>, kept: seq<Job>, gone: seq<Job>, x: Job)
    requires Merged(q, kept, gone)
    ensures Merged(q + [x], kept + [x], gone) && Merged(q + [x], kept, gone + [x])
    decreases |q|
  {
    if q == [] {
      assert (q + [x])[1..] == [] && (kept + [x])[1..] == [] && (gone + [x])[1..] == [];
    } else {
      assert (q + [x])[1..] == q[1..] + [x];
      if kept != [] && kept[0] == q[0] && Merged(q[1..], kept[1..], gone) {
        assert (kept + [x])[1..] == kept[1..] + [x];
        MergedAppend(q[1..], kept[1..], gone, x);
      } else {
        assert (gone + [x])[1..] == gone[1..] + [x];
        MergedAppend(q[1..], kept, gone[1..], x);
      }
    }
  }

  /** There is only one way to split a queue by an id. */
  lemma {:induction false} SplitIsUnique(q: seq<Job>, id: string, kept: seq<Job>, gone: seq<Job>)
    requires SplitsById(q, id, kept, gone)
    ensures kept == Without(q, id) && gone == Removed(q, id)
    decreases |q|
  {
    if q != [] {
      assert q == [q[0]] + q[1..];
      WithoutStep(q[0], q[1..], id);
      RemovedStep(q[0], q[1..], id);
      if kept != [] && kept[0] == q[0] && Merged(q[1..], kept[1..], gone) {
        assert kept == [q[0]] + kept[1..] && kept[0].jobId != id;
        SplitIsUnique(q[1..], id, kept[1..], gone);
      } else {
        assert gone == [q[0]] + gone[1..] && gone[0].jobId == id;
        SplitIsUnique(q[1..], id, kept, gone[1..]);
      }
    }
  }

  function SortedByScore(q: seq<Job>): seq<Job> { SortDesc(q, ScoreOf) }

  function Recalculated(sc: Scoring, now: int, q: seq<Job>): seq<Job> {
    SortedByScore(RescoreAll(sc, now, q))
  }

  // ---------------------------------------------------------------- persistence

  const FIRST_IN_LINE := "FirstInLine"

  /** A stored job; `next` names the job in front of it. */
  datatype Record = Record(job: Job, next: string)

  /** What the store knows of a job when a queue is loaded. */
  datatype JobDoc = JobDoc(hasPipeline: bool, status: string)

  const STOPPED := "stopped"
  const PAUSED := "paused"

  predicate Skipped(docs: map<string, JobDoc>, id: string) {
    id !in docs || !docs[id].hasPipeline || docs[id].status == STOPPED || docs[id].status == PAUSED
  }

  function Unscore(j: Job): Job { j.(latestScores := map[]) }

  function Chain(q: seq<Job>, previous: string): (r: seq<Record>)
    ensures |r| == |q|
  {
    if q == [] then [] else [Record(Unscore(q[0]), previous)] + Chain(q[1..], q[0].jobId)
  }

  function StoredRecords(q: seq<Job>): seq<Record> { Chain(q, FIRST_IN_LINE) }

  function FindNext(data: seq<Record>, previous: string): (r: Option<Record>)
    ensures r.Some? ==> r.value in data && r.value.next == previous
    ensures r.None? ==> forall x :: x in data ==> x.next != previous
  {
    if data == [] then None
    else if data[0].next == previous then Some(data[0])
    else FindNext(data[1..], previous)
  }

  /** Follows the chain for `n` links; a missing link makes the source throw. */
  function Unchain(data: seq<Record>, previous: string, n: nat): (r: Option<seq<Job>>)
    ensures r.Some? ==> |r.value| == n
    decreases n
  {
    if n == 0 then Some([])
    else
      match FindNext(data, previous)
      case None => None
      case Some(item) =>
        match Unchain(data, item.job.jobId, n - 1)
        case None => None
        case Some(rest) => Some([item.job] + rest)
  }

  function Kept(docs: map<string, JobDoc>, q: seq<Job>): seq<Job> {
    if q == [] then []
    else (if Skipped(docs, q[0].jobId) then [] else [Unscore(q[0])]) + Kept(docs, q[1..])
  }

  /** The queue after a load: appended to what is there, re-scored and sorted if anything was kept. */
  function Loaded(sc: Scoring, q: seq<Job>, data: seq<Record>, docs: map<string, JobDoc>, now: int)
    : Option<seq<Job>>
  {
    match Unchain(data, FIRST_IN_LINE, |data|)
    case None => None
    case Some(ordered) =>
      var kept := Kept(docs, ordered);
      Some(if kept == [] then q else Recalculated(sc, now, q + kept))
  }

  ghost predicate DistinctIds(q: seq<Job>) {
    forall i, j :: 0 <= i < j < |q| ==> q[i].jobId != q[j].jobId
  }

  class Queue {
    var queue: seq<Job>
    const scoring: Scoring

    constructor (scoring: Scoring)
      ensures queue == [] && this.scoring == scoring
    {
      this.queue, this.scoring := [], scoring;
    }

    /** Re-scores every job at one instant, then sorts. */
    method CalculateHeuristic(now: int)
      modifies this
      ensures queue == Recalculated(scoring, now, old(queue))
    {
      var scored: seq<Job> := [];
      ghost var all := RescoreAll(scoring, now, queue);
      for i := 0 to |queue|
        invariant queue == old(queue)
        invariant scored == all[..i]
      {
        scored := scored + [Rescore(scoring, now, queue[i])];
      }
      assert scored == all;
      queue := SortedByScore(scored);
    }

    /** Without the INSERT event, which the owner of the queue raises after this call. */
    method Enqueue(job: Job, skipHeuristic: bool, now: int)
      modifies this
      ensures queue == if skipHeuristic then old(queue) + [job]
                       else Recalculated(scoring, now, old(queue) + [job])
    {
      queue := queue + [job];
      if !skipHeuristic {
        CalculateHeuristic(now);
      }
    }

    method Dequeue(id: string) returns (removed: seq<Job>)
      modifies this
      ensures SplitsById(old(queue), id, queue, removed)
      ensures removed == Removed(old(queue), id) && queue == Without(old(queue), id)
    {
      queue, removed := SplitById(queue, id);
      SplitIsUnique(old(queue), id, queue, removed);
    }

    method PersistenceStore() returns (data: seq<Record>)
      ensures data == StoredRecords(queue)
    {
      data := [];
      var previous := FIRST_IN_LINE;
      for i := 0 to |queue|
        invariant data + Chain(queue[i..], previous) == StoredRecords(queue)
      {
        assert queue[i..][1..] == queue[i + 1..];
        data := data + [Record(Unscore(queue[i]), previous)];
        previous := queue[i].jobId;
      }
    }

    /** False when a link of the chain is missing, where the source throws before it changes anything. */
    method PersistencyLoad(data: seq<Record>, docs: map<string, JobDoc>, now: int) returns (ok: bool)
      modifies this
      ensures ok == Loaded(scoring, old(queue), data, docs, now).Some?
      ensures queue == if ok then Loaded(scoring, old(queue), data, docs, now).value else old(queue)
    {
      var ordered := FollowChain(data);
      if ordered.None? {
        return false;
      }
      var filtered := FilterRecovered(ordered.value, docs);
      if |filtered| > 0 {
        EnqueueAll(filtered, now);
        CalculateHeuristic(now);
      }
      ok := true;
    }

    /** The third loop of the load: no re-scoring, and no listener yet for the INSERT events. */
    method EnqueueAll(filtered: seq<Job>, now: int)
      modifies this
      ensures queue == old(queue) + filtered
    {
      for i := 0 to |filtered|
        invariant queue == old(queue) + filtered[..i]
      {
        Enqueue(filtered[i], true, now);
      }
    }
  }

  /** lodash `remove`, one pass: what has the id is taken out and returned, the rest stays, both in order. */
  method SplitById(q: seq<Job>, id: string) returns (kept: seq<Job>, removed: seq<Job>)
    ensures SplitsById(q, id, kept, removed)
  {
    kept, removed := [], [];
    for i := 0 to |q|
      invariant SplitsById(q[..i], id, kept, removed)
    {
      assert q[..i + 1] == q[..i] + [q[i]];
      MergedAppend(q[..i], kept, removed, q[i]);
      if q[i].jobId == id {
        removed := removed + [q[i]];
      } else {
        kept := kept + [q[i]];
      }
    }
    assert q[..|q|] == q;
  }

  /** The first loop of the load: one job per record, each the one whose `next` names the previous. */
  method FollowChain(data: seq<Record>) returns (r: Option<seq<Job>>)
    ensures r == Unchain(data, FIRST_IN_LINE, |data|)
  {
    var ordered: seq<Job> := [];
    var previous := FIRST_IN_LINE;
    for i := 0 to |data|
      invariant |ordered| == i
      invariant var whole, rest := Unchain(data, FIRST_IN_LINE, |data|), Unchain(data, previous, |data| - i);
                whole.None? == rest.None? && (rest.Some? ==> whole.value == ordered + rest.value)
    {
      var item := FindNext(data, previous);
      if item.None? {
        return None;
      }
      previous := item.value.job.jobId;
      ordered := ordered + [item.value.job];
    }
    assert Unchain(data, FIRST_IN_LINE, |data|).value == ordered;
    r := Some(ordered);
  }

  /** The second loop of the load: drops missing, stopped and paused jobs. */
  method FilterRecovered(ordered: seq<Job>, docs: map<string, JobDoc>) returns (filtered: seq<Job>)
    ensures filtered == Kept(docs, ordered)
  {
    filtered := [];
    for i := 0 to |ordered|
      invariant filtered + Kept(docs, ordered[i..]) == Kept(docs, ordered)
    {
      KeptTurn(docs, ordered, i, filtered);
      if !Skipped(docs, ordered[i].jobId) {
        filtered := filtered + [Unscore(ordered[i])];
      }
    }
  }

  lemma KeptTurn(docs: map<string, JobDoc>, q: seq<Job>, i: nat, kept: seq<Job>)
    requires i < |q|
    ensures kept + Kept(docs, q[i..]) ==
            (if Skipped(docs, q[i].jobId) then kept else kept + [Unscore(q[i])]) + Kept(docs, q[i + 1..])
  {
    assert q[i..][0] == q[i] && q[i..][1..] == q[i + 1..];
    var rest := Kept(docs, q[i + 1..]);
    assert kept + ([Unscore(q[i])] + rest) == kept + [Unscore(q[i])] + rest;
    assert [] + rest == rest;
  }
}
