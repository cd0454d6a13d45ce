/** What the models say about any sequence. */
module Sequences {

  ghost predicate Distinct<T>(s: seq<T>) {
    forall i, j :: 0 <= i < j < |s| ==> s[i] != s[j]
  }

  lemma Associative<T>(a: seq<T>, b: seq<T>, c: seq<T>)
    ensures (a + b) + c == a + (b + c)
  {
  }

  /** Positions in a sequence of length `n`, from the front. */
  ghost predicate Increasing(at: seq<nat>, n: nat) {
    && (forall k :: 0 <= k < |at| ==> at[k] < n)
    && (forall k, l :: 0 <= k < l < |at| ==> at[k] < at[l])
  }

  /** The same positions once there is one more element in front. */
  ghost function Shifted(at: seq<nat>): (r: seq<nat>)
    ensures |r| == |at| && forall k :: 0 <= k < |r| ==> r[k] == at[k] + 1
  {
    seq(|at|, k requires 0 <= k < |at| => at[k] + 1)
  }

  lemma ShiftedHas(at: seq<nat>, i: nat)
    ensures 0 !in Shifted(at) && (i + 1 in Shifted(at) <==> i in at)
    ensures 0 in [0] + Shifted(at) && (i + 1 in [0] + Shifted(at) <==> i in at)
  {
    if i in at {
      var k :| 0 <= k < |at| && at[k] == i;
      assert Shifted(at)[k] == i + 1;
    }
  }

  lemma ShiftedIncreasing(at: seq<nat>, n: nat)
    requires Increasing(at, n)
    ensures Increasing(Shifted(at), n + 1) && Increasing([0] + Shifted(at), n + 1)
  {
  }

  /** `r` is what stands in `q` at the positions `at`. */
  ghost predicate Picked<T>(q: seq<T>, at: seq<nat>, r: seq<T>) {
    Increasing(at, |q|) && |r| == |at| && forall k :: 0 <= k < |at| ==> r[k] == q[at[k]]
  }

  lemma PickedLater<T>(q: seq<T>, at: seq<nat>, r: seq<T>)
    requires q != [] && Picked(q[1..], at, r)
    ensures Picked(q, Shifted(at), r)
  {
    var later := Shifted(at);
    ShiftedIncreasing(at, |q| - 1);
    forall k | 0 <= k < |later| ensures r[k] == q[later[k]] {
      assert later[k] == at[k] + 1 && q[1..][at[k]] == q[at[k] + 1];
    }
  }

  lemma PickedFirst<T>(q: seq<T>, at: seq<nat>, r: seq<T>)
    requires q != [] && Picked(q[1..], at, r)
    ensures Picked(q, [0] + Shifted(at), [q[0]] + r)
  {
    var all, u := [0] + Shifted(at), [q[0]] + r;
    PickedLater(q, at, r);
    ShiftedIncreasing(at, |q| - 1);
    forall k | 0 <= k < |all| ensures u[k] == q[all[k]] {
      if k > 0 {
        assert u[k] == r[k - 1] && all[k] == Shifted(at)[k - 1];
      }
    }
  }
}
