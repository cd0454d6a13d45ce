/** What the algorithm queues report of themselves, and how the operator normalizes it. */
module QueueDiscovery {

  /** One queue's discovery data: its id, the algorithms it holds in order, and whether it is active. */
  datatype Report = Report(queueId: string, algorithms: seq<string>, active: bool)

  datatype Placement = Placement(queueId: string, algorithmName: string)

  datatype QueueCount = QueueCount(queueId: string, count: nat, active: bool)

  /** `placed` is `algorithmsToQueue` in insertion order, `queues` is `queueToAlgorithms`. */
  datatype Normalized = Normalized(placed: seq<Placement>, queues: seq<QueueCount>, duplicates: seq<Placement>)

  const NOTHING := Normalized([], [], [])

  predicate IsPlaced(placed: seq<Placement>, a: string) {
    exists i :: 0 <= i < |placed| && placed[i].algorithmName == a
  }

  predicate HasQueue(queues: seq<QueueCount>, q: string) {
    exists i :: 0 <= i < |queues| && queues[i].queueId == q
  }

  function Bump(queues: seq<QueueCount>, q: string): (r: seq<QueueCount>)
    ensures |r| == |queues|
  {
    if queues == [] then []
    else if queues[0].queueId == q then [queues[0].(count := queues[0].count + 1)] + queues[1..]
    else [queues[0]] + Bump(queues[1..], q)
  }

  function AddQueue(n: Normalized, d: Report): Normalized {
    if HasQueue(n.queues, d.queueId) then n
    else n.(queues := n.queues + [QueueCount(d.queueId, 0, d.active)])
  }

  function AddAlgorithm(n: Normalized, q: string, a: string): Normalized {
    if IsPlaced(n.placed, a) then n.(duplicates := n.duplicates + [Placement(q, a)])
    else n.(placed := n.placed + [Placement(q, a)], queues := Bump(n.queues, q))
  }

  function AddAlgorithms(n: Normalized, q: string, algorithms: seq<string>): Normalized {
    if algorithms == [] then n
    else AddAlgorithm(AddAlgorithms(n, q, algorithms[..|algorithms| - 1]), q, algorithms[|algorithms| - 1])
  }

  function AddReport(n: Normalized, d: Report): Normalized {
    AddAlgorithms(AddQueue(n, d), d.queueId, d.algorithms)
  }

  function Normalize(discovery: seq<Report>): Normalized {
    if discovery == [] then NOTHING
    else AddReport(Normalize(discovery[..|discovery| - 1]), discovery[|discovery| - 1])
  }

  /** The loop over reports and, within it, over each report's algorithms. */
  method NormalizeQueuesDiscovery(discovery: seq<Report>) returns (n: Normalized)
    ensures n == Normalize(discovery)
  {
    n := NOTHING;
    for i := 0 to |discovery|
      invariant n == Normalize(discovery[..i])
    {
      var d := discovery[i];
      ghost var before := n;
      if !HasQueue(n.queues, d.queueId) {
        n := n.(queues := n.queues + [QueueCount(d.queueId, 0, d.active)]);
      }
      for j := 0 to |d.algorithms|
        invariant n == AddAlgorithms(AddQueue(before, d), d.queueId, d.algorithms[..j])
      {
        var a := d.algorithms[j];
        assert d.algorithms[..j + 1][..j] == d.algorithms[..j];
        if IsPlaced(n.placed, a) {
          n := n.(duplicates := n.duplicates + [Placement(d.queueId, a)]);
        } else {
          n := n.(placed := n.placed + [Placement(d.queueId, a)], queues := Bump(n.queues, d.queueId));
        }
      }
      assert d.algorithms[..|d.algorithms|] == d.algorithms;
      assert discovery[..i + 1][..i] == discovery[..i];
    }
    assert discovery[..|discovery|] == discovery;
  }

  // ---------------------------------------------------------------- what normalizing means

  /** Every algorithm of every report, in order, with the queue that reports it. */
  function Occurrences(discovery: seq<Report>): seq<Placement> {
    if discovery == [] then []
    else
      var d := discovery[|discovery| - 1];
      Occurrences(discovery[..|discovery| - 1]) + On(d.queueId, d.algorithms)
  }

  function On(q: string, algorithms: seq<string>): (r: seq<Placement>)
    ensures |r| == |algorithms| && forall i :: 0 <= i < |r| ==> r[i] == Placement(q, algorithms[i])
  {
    seq(|algorithms|, i requires 0 <= i < |algorithms| => Placement(q, algorithms[i]))
  }

  function SumCounts(queues: seq<QueueCount>): nat {
    if queues == [] then 0 else queues[0].count + SumCounts(queues[1..])
  }

  ghost predicate DistinctPlaced(placed: seq<Placement>) {
    forall i, j :: 0 <= i < j < |placed| ==> placed[i].algorithmName != placed[j].algorithmName
  }

  lemma {:induction false} BumpSum(queues: seq<QueueCount>, q: string)
    requires HasQueue(queues, q)
    ensures SumCounts(Bump(queues, q)) == SumCounts(queues) + 1
    ensures HasQueue(Bump(queues, q), q)
  {
    if queues[0].queueId == q {
      assert Bump(queues, q)[0].queueId == q;
    } else {
      var i :| 0 <= i < |queues| && queues[i].queueId == q;
      assert queues[1..][i - 1].queueId == q;
      BumpSum(queues[1..], q);
      var k :| 0 <= k < |Bump(queues[1..], q)| && Bump(queues[1..], q)[k].queueId == q;
      assert Bump(queues, q)[k + 1].queueId == q;
    }
  }

  lemma {:induction false} SumAppend(queues: seq<QueueCount>, x: QueueCount)
    ensures SumCounts(queues + [x]) == SumCounts(queues) + x.count
  {
    if queues == [] {
      assert [] + [x] == [x] && [x][1..] == [];
    } else {
      SumAppend(queues[1..], x);
      assert (queues + [x])[1..] == queues[1..] + [x];
    }
  }

  /** Nothing is lost: what a report holds is placed or a duplicate, and the counts add up. */
  ghost predicate Balanced(n: Normalized, occurrences: seq<Placement>) {
    && multiset(n.placed) + multiset(n.duplicates) == multiset(occurrences)
    && DistinctPlaced(n.placed)
    && SumCounts(n.queues) == |n.placed|
    && (forall d :: d in n.duplicates ==> IsPlaced(n.placed, d.algorithmName))
  }

  lemma {:induction false} AddAlgorithmsBalanced(
    n: Normalized, occurrences: seq<Placement>, q: string, algorithms: seq<string>)
    requires Balanced(n, occurrences) && HasQueue(n.queues, q)
    ensures Balanced(AddAlgorithms(n, q, algorithms), occurrences + On(q, algorithms))
    ensures HasQueue(AddAlgorithms(n, q, algorithms).queues, q)
  {
    if algorithms == [] {
      assert occurrences + On(q, algorithms) == occurrences;
    } else {
      var front, a := algorithms[..|algorithms| - 1], algorithms[|algorithms| - 1];
      AddAlgorithmsBalanced(n, occurrences, q, front);
      var m := AddAlgorithms(n, q, front);
      assert occurrences + On(q, algorithms) == (occurrences + On(q, front)) + [Placement(q, a)];
      AddAlgorithmBalanced(m, occurrences + On(q, front), q, a);
    }
  }

  lemma AddAlgorithmBalanced(n: Normalized, occurrences: seq<Placement>, q: string, a: string)
    requires Balanced(n, occurrences) && HasQueue(n.queues, q)
    ensures Balanced(AddAlgorithm(n, q, a), occurrences + [Placement(q, a)])
    ensures HasQueue(AddAlgorithm(n, q, a).queues, q)
  {
    BumpSum(n.queues, q);
    var m := AddAlgorithm(n, q, a);
    forall d | d in m.duplicates ensures IsPlaced(m.placed, d.algorithmName) {
      if d in n.duplicates {
        var i :| 0 <= i < |n.placed| && n.placed[i].algorithmName == d.algorithmName;
        assert m.placed[i].algorithmName == d.algorithmName;
      }
    }
  }

  lemma {:induction false} NormalizeBalanced(discovery: seq<Report>)
    ensures Balanced(Normalize(discovery), Occurrences(discovery))
  {
    if discovery != [] {
      var before, d := discovery[..|discovery| - 1], discovery[|discovery| - 1];
      NormalizeBalanced(before);
      var n := Normalize(before);
      var m := AddQueue(n, d);
      if !HasQueue(n.queues, d.queueId) {
        SumAppend(n.queues, QueueCount(d.queueId, 0, d.active));
        assert m.queues[|n.queues|].queueId == d.queueId;
      }
      AddAlgorithmsBalanced(m, Occurrences(before), d.queueId, d.algorithms);
    }
  }
}
