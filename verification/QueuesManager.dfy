/** The queue manager behind each queue id, which carries out the operator's actions. */
module QueuesManager {
  import opened QueueDiscovery
  import opened QueueBalancer

  function Drop(s: seq<string>, a: string): (r: seq<string>)
    ensures forall x :: x in r <==> x in s && x != a
    ensures |r| <= |s|
  {
    if s == [] then [] else (if s[0] == a then [] else [s[0]]) + Drop(s[1..], a)
  }

  /** A full manager and one that has the algorithm already are left alone. */
  function Added(m: Report, a: string, limit: nat): Report {
    if |m.algorithms| == limit || a in m.algorithms then m
    else m.(algorithms := m.algorithms + [a])
  }

  /** An inactive manager takes no action, and no action without a name counts. */
  function ActOn(m: Report, act: Action, limit: nat): Report {
    if !m.active || act.p.algorithmName == "" then m
    else
      match act
      case ADD(p) => Added(m, p.algorithmName, limit)
      case REMOVE(p) => m.(algorithms := Drop(m.algorithms, p.algorithmName))
  }

  /** One manager takes the actions addressed to its queue id, in order. */
  function ApplyOne(m: Report, acts: seq<Action>, limit: nat): (r: Report)
    ensures r.queueId == m.queueId && r.active == m.active
    decreases |acts|
  {
    if acts == [] then m
    else ApplyOne(if acts[0].p.queueId == m.queueId then ActOn(m, acts[0], limit) else m, acts[1..], limit)
  }

  function ApplyAll(ms: seq<Report>, acts: seq<Action>, limit: nat): (rs: seq<Report>)
    ensures |rs| == |ms| && forall i :: 0 <= i < |ms| ==> rs[i] == ApplyOne(ms[i], acts, limit)
  {
    seq(|ms|, i requires 0 <= i < |ms| => ApplyOne(ms[i], acts, limit))
  }

  class QueuesManager {
    const queueId: string
    const limit: nat
    /** The keys of the map of queues, in insertion order. */
    var queues: seq<string>
    var active: bool

    /** A manager does not start without a queue id. */
    constructor (queueId: string, limit: nat)
      requires queueId != ""
      ensures GetDiscoveryData() == Report(queueId, [], true) && this.limit == limit
    {
      this.queueId, this.limit, queues, active := queueId, limit, [], true;
    }

    function GetDiscoveryData(): Report
      reads this
    {
      Report(queueId, queues, active)
    }

    method HandleAction(act: Action)
      modifies this`queues
      ensures GetDiscoveryData() == ActOn(old(GetDiscoveryData()), act, limit)
    {
      if !active || act.p.algorithmName == "" {
        return;
      }
      match act
      case ADD(p) => AddAction(p.algorithmName);
      case REMOVE(p) => RemoveAction(p.algorithmName);
    }

    method AddAction(algorithmName: string)
      modifies this`queues
      ensures GetDiscoveryData() == Added(old(GetDiscoveryData()), algorithmName, limit)
    {
      if |queues| == limit {
        return;
      }
      if algorithmName !in queues {
        queues := queues + [algorithmName];
      }
    }

    /** The forced removal. */
    method RemoveAction(algorithmName: string)
      modifies this`queues
      ensures queues == Drop(old(queues), algorithmName)
    {
      if algorithmName in queues {
        queues := Drop(queues, algorithmName);
      } else {
        DropAbsent(queues, algorithmName);
      }
    }

    method HandleActions(acts: seq<Action>)
      modifies this`queues
      ensures GetDiscoveryData() == ApplyOne(old(GetDiscoveryData()), acts, limit)
    {
      assert acts[0..] == acts;
      for i := 0 to |acts|
        invariant ApplyOne(GetDiscoveryData(), acts[i..], limit) == ApplyOne(old(GetDiscoveryData()), acts, limit)
      {
        assert acts[i..][0] == acts[i] && acts[i..][1..] == acts[i + 1..];
        if acts[i].p.queueId == queueId {
          HandleAction(acts[i]);
        }
      }
    }
  }

  lemma {:induction false} DropAbsent(s: seq<string>, a: string)
    requires a !in s
    ensures Drop(s, a) == s
  {
    if s != [] {
      DropAbsent(s[1..], a);
      assert s == [s[0]] + s[1..];
    }
  }
}
