/** What a stored queue becomes when its records are loaded again, in whatever order they come back. */
module DriverPersistence {
  import opened Wrappers
  import opened Sequences
  import opened DriverJobs
  import opened DriverQueue
  import opened StableSort

  ghost function Link(q: seq<Job>, previous: string, i: nat): string
    requires i <= |q|
  {
    if i == 0 then previous else q[i - 1].jobId
  }

  lemma {:induction false} ChainAt(q: seq<Job>, previous: string, i: nat)
    requires i < |q|
    ensures Chain(q, previous)[i] == Record(Unscore(q[i]), Link(q, previous, i))
  {
    if i > 0 {
      ChainAt(q[1..], q[0].jobId, i - 1);
    }
  }

  ghost function UnscoreAll(q: seq<Job>): seq<Job> { seq(|q|, i requires 0 <= i < |q| => Unscore(q[i])) }

  /** The only record that follows the i-th link is that of the i-th job. */
  lemma NextIsUnique(q: seq<Job>, data: seq<Record>, i: nat)
    requires DistinctIds(q) && !HasId(q, FIRST_IN_LINE)
    requires multiset(data) == multiset(StoredRecords(q)) && i < |q|
    ensures FindNext(data, Link(q, FIRST_IN_LINE, i)) == Some(Record(Unscore(q[i]), Link(q, FIRST_IN_LINE, i)))
  {
    var link := Link(q, FIRST_IN_LINE, i);
    ChainAt(q, FIRST_IN_LINE, i);
    assert StoredRecords(q)[i] in multiset(data);
    var found := FindNext(data, link);
    assert found.Some?;
    assert found.value in multiset(StoredRecords(q));
    var k :| 0 <= k < |q| && StoredRecords(q)[k] == found.value;
    ChainAt(q, FIRST_IN_LINE, k);
  }

  lemma {:induction false} UnchainFrom(q: seq<Job>, data: seq<Record>, i: nat)
    requires DistinctIds(q) && !HasId(q, FIRST_IN_LINE)
    requires multiset(data) == multiset(StoredRecords(q)) && i <= |q|
    ensures Unchain(data, Link(q, FIRST_IN_LINE, i), |q| - i) == Some(UnscoreAll(q)[i..])
    decreases |q| - i
  {
    if i < |q| {
      NextIsUnique(q, data, i);
      UnchainFrom(q, data, i + 1);
      assert UnscoreAll(q)[i..] == [Unscore(q[i])] + UnscoreAll(q)[i + 1..];
    }
  }

  lemma {:induction false} KeptUnscored(docs: map<string, JobDoc>, q: seq<Job>)
    ensures Kept(docs, UnscoreAll(q)) == Kept(docs, q)
  {
    if q != [] {
      KeptUnscored(docs, q[1..]);
      assert UnscoreAll(q)[1..] == UnscoreAll(q[1..]);
    }
  }

  /** Any permutation of the stored records is chained back into the queue's own order. */
  lemma PermutationUnchains(q: seq<Job>, data: seq<Record>)
    requires DistinctIds(q) && !HasId(q, FIRST_IN_LINE)
    requires multiset(data) == multiset(StoredRecords(q))
    ensures Unchain(data, FIRST_IN_LINE, |data|) == Some(UnscoreAll(q))
  {
    assert |data| == |multiset(data)| == |multiset(StoredRecords(q))| == |q|;
    UnchainFrom(q, data, 0);
    assert UnscoreAll(q)[0..] == UnscoreAll(q);
  }

  /**
   * Loading a stored queue into an empty one rebuilds its order without the stopped, paused and
   * missing jobs, then re-scores and sorts what is left.
   */
  lemma LoadRestores(sc: Scoring, q: seq<Job>, data: seq<Record>, docs: map<string, JobDoc>, now: int)
    requires DistinctIds(q) && !HasId(q, FIRST_IN_LINE)
    requires multiset(data) == multiset(StoredRecords(q))
    ensures Loaded(sc, [], data, docs, now) == Some(Recalculated(sc, now, Kept(docs, q)))
  {
    PermutationUnchains(q, data);
    KeptUnscored(docs, q);
    assert [] + Kept(docs, q) == Kept(docs, q);
  }

  lemma {:induction false} RescoreUnscored(q: seq<Job>, now: int)
    ensures RescoreAll(Unscored, now, q) == q
  {
    assert forall i :: 0 <= i < |q| ==> RescoreAll(Unscored, now, q)[i] == q[i];
  }

  lemma {:induction false} KeptFrom(docs: map<string, JobDoc>, q: seq<Job>)
    ensures forall k :: k in Kept(docs, q) ==> exists j :: j in q && k == Unscore(j) && !Skipped(docs, j.jobId)
  {
    if q != [] {
      KeptFrom(docs, q[1..]);
      forall k | k in Kept(docs, q)
        ensures exists j :: j in q && k == Unscore(j) && !Skipped(docs, j.jobId)
      {
        if k in Kept(docs, q[1..]) {
          var j :| j in q[1..] && k == Unscore(j) && !Skipped(docs, j.jobId);
          assert j in q;
        } else {
          assert k == Unscore(q[0]) && q[0] in q;
        }
      }
    }
  }

  /** The jobs of `q` at the positions `at`, their latest scores forgotten. */
  ghost predicate KeptAt(q: seq<Job>, at: seq<nat>, r: seq<Job>) {
    && Increasing(at, |q|) && |r| == |at|
    && forall k :: 0 <= k < |at| ==> r[k] == q[at[k]].(latestScores := map[])
  }

  lemma LaterKept(q: seq<Job>, at: seq<nat>, r: seq<Job>)
    requires q != [] && KeptAt(q[1..], at, r)
    ensures KeptAt(q, Shifted(at), r)
  {
    var later := Shifted(at);
    ShiftedIncreasing(at, |q| - 1);
    forall k | 0 <= k < |later| ensures r[k] == q[later[k]].(latestScores := map[]) {
      assert later[k] == at[k] + 1 && q[1..][at[k]] == q[at[k] + 1];
    }
  }

  lemma FirstKept(q: seq<Job>, at: seq<nat>, r: seq<Job>)
    requires q != [] && KeptAt(q[1..], at, r)
    ensures KeptAt(q, [0] + Shifted(at), [q[0].(latestScores := map[])] + r)
  {
    var all, u := [0] + Shifted(at), [q[0].(latestScores := map[])] + r;
    LaterKept(q, at, r);
    ShiftedIncreasing(at, |q| - 1);
    forall k | 0 <= k < |all| ensures u[k] == q[all[k]].(latestScores := map[]) {
      if k > 0 {
        assert u[k] == r[k - 1] && all[k] == Shifted(at)[k - 1];
      }
    }
  }

  lemma ChosenOneMore(docs: map<string, JobDoc>, q: seq<Job>, tail: seq<nat>, at: seq<nat>)
    requires q != [] && at == if Recovered(docs, q[0].jobId) then [0] + Shifted(tail) else Shifted(tail)
    requires forall i: nat :: i < |q| - 1 ==> (i in tail <==> Recovered(docs, q[1..][i].jobId))
    ensures forall i: nat :: i < |q| ==> (i in at <==> Recovered(docs, q[i].jobId))
  {
    forall i: nat | i < |q| ensures i in at <==> Recovered(docs, q[i].jobId) {
      ShiftedHas(tail, if i > 0 then i - 1 else 0);
      assert i > 0 ==> q[1..][i - 1] == q[i];
    }
  }

  /** What is kept, by position: the jobs whose pipeline is stored and neither stopped nor paused, in order. */
  lemma {:induction false} KeptIs(docs: map<string, JobDoc>, q: seq<Job>) returns (at: seq<nat>)
    ensures KeptAt(q, at, Kept(docs, q))
    ensures forall i: nat :: i < |q| ==> (i in at <==> Recovered(docs, q[i].jobId))
  {
    at := [];
    if q != [] {
      var tail := KeptIs(docs, q[1..]);
      var rest := Kept(docs, q[1..]);
      if Recovered(docs, q[0].jobId) {
        at := [0] + Shifted(tail);
        FirstKept(q, tail, rest);
      } else {
        at := Shifted(tail);
        LaterKept(q, tail, rest);
        assert Kept(docs, q) == rest;
      }
      ChosenOneMore(docs, q, tail, at);
    }
  }

  ghost predicate Recovered(docs: map<string, JobDoc>, id: string) {
    id in docs && docs[id].hasPipeline && docs[id].status != "stopped" && docs[id].status != "paused"
  }

  /** For the preferred queue, whose jobs all score 1, the hand-made order survives exactly. */
  lemma PreferredOrderSurvives(q: seq<Job>, data: seq<Record>, docs: map<string, JobDoc>, now: int)
    requires DistinctIds(q) && !HasId(q, FIRST_IN_LINE)
    requires forall j :: j in q ==> j.score == 1.0
    requires multiset(data) == multiset(StoredRecords(q))
    ensures Loaded(Unscored, [], data, docs, now) == Some(Kept(docs, q))
  {
    var kept := Kept(docs, q);
    LoadRestores(Unscored, q, data, docs, now);
    RescoreUnscored(kept, now);
    KeptFrom(docs, q);
    forall k | k in kept ensures k.score == 1.0 {
      var j :| j in q && k == Unscore(j) && !Skipped(docs, j.jobId);
    }
    AllOneSorted(kept);
  }

  lemma AllOneSorted(q: seq<Job>)
    requires forall k :: k in q ==> k.score == 1.0
    ensures SortedByScore(q) == q
  {
    assert forall i :: 0 <= i < |q| ==> q[i] in q && ScoreOf(q[i]) == 1.0;
    SortDescFixpoint(q, ScoreOf);
  }
}
