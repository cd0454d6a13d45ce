/**
 * The ratio allocator: algorithms share [0,1] in ranges, random draws pick ranges, and an exhausted
 * algorithm that is picked again leaves its share to the others, which are refilled if they are empty.
 */
module RatiosAllocator {
  import opened Wrappers

  /** An algorithm with the run time it is weighed by. */
  datatype Algorithm = Algorithm(name: string, value: real)

  datatype Entry = Entry(name: string, value: real, ratio: real, allocations: nat, from: real, to: real)

  type Requests = map<string, nat>

  // ---------------------------------------------------------------- sums and ranges

  /** Sums over the first `i` entries. */
  function ValueTo(es: seq<Entry>, i: nat): real
    requires i <= |es|
  {
    if i == 0 then 0.0 else ValueTo(es, i - 1) + es[i - 1].value
  }

  function RatioTo(es: seq<Entry>, i: nat): real
    requires i <= |es|
  {
    if i == 0 then 0.0 else RatioTo(es, i - 1) + es[i - 1].ratio
  }

  function AllocationsTo(es: seq<Entry>, i: nat): nat
    requires i <= |es|
  {
    if i == 0 then 0 else AllocationsTo(es, i - 1) + es[i - 1].allocations
  }

  function SumValue(es: seq<Entry>): real { ValueTo(es, |es|) }

  function SumRatio(es: seq<Entry>): real { RatioTo(es, |es|) }

  function SumAllocations(es: seq<Entry>): nat { AllocationsTo(es, |es|) }

  ghost predicate DistinctNames(es: seq<Entry>) {
    forall i, j :: 0 <= i < j < |es| ==> es[i].name != es[j].name
  }

  /** The ranges follow one another from 0 to 1, each as wide as its ratio. */
  ghost predicate Covers(es: seq<Entry>) {
    && (forall i :: 0 <= i < |es| ==> es[i].ratio >= 0.0 && es[i].to == es[i].from + es[i].ratio)
    && (forall i :: 0 < i < |es| ==> es[i].from == es[i - 1].to)
    && (es != [] ==> es[0].from == 0.0 && es[|es| - 1].to == 1.0)
  }

  function Asked(requests: Requests, name: string): nat {
    if name in requests then requests[name] else 0
  }

  /** `r.allocations || allocations` */
  function Refill(e: Entry, requests: Requests): nat {
    if e.allocations == 0 then Asked(requests, e.name) else e.allocations
  }

  /** Every entry with its range set where the one before ended, and refilled if empty. */
  ghost predicate Ranged(es: seq<Entry>, rs: seq<Entry>, requests: Requests) {
    && |rs| == |es|
    && (forall i :: 0 <= i < |es| ==>
          && rs[i].name == es[i].name && rs[i].ratio == es[i].ratio
          && rs[i].allocations == Refill(es[i], requests))
    && (forall i :: 0 <= i < |rs| ==> rs[i].to == rs[i].from + rs[i].ratio)
    && (forall i :: 0 < i < |rs| ==> rs[i].from == rs[i - 1].to)
    && (rs != [] ==> rs[0].from == 0.0)
  }

  lemma {:induction false} RangedTo(es: seq<Entry>, rs: seq<Entry>, requests: Requests, i: nat)
    requires Ranged(es, rs, requests) && i < |es|
    ensures rs[i].to == RatioTo(es, i + 1)
  {
    if i > 0 {
      RangedTo(es, rs, requests, i - 1);
    } else {
      assert RatioTo(es, 1) == es[0].ratio;
    }
  }

  lemma RangedCovers(es: seq<Entry>, rs: seq<Entry>, requests: Requests)
    requires Ranged(es, rs, requests) && Shares(es)
    ensures Covers(rs) && Shares(rs)
  {
    if es != [] {
      RangedTo(es, rs, requests, |es| - 1);
    }
    SameRatiosSameSum(es, rs);
  }

  lemma SameRatiosSameSum(es: seq<Entry>, rs: seq<Entry>)
    requires |rs| == |es| && forall i :: 0 <= i < |es| ==> rs[i].ratio == es[i].ratio
    ensures SumRatio(rs) == SumRatio(es)
  {
    SameRatiosTo(es, rs, |es|);
  }

  lemma {:induction false} SameRatiosTo(es: seq<Entry>, rs: seq<Entry>, i: nat)
    requires |rs| == |es| && i <= |es| && forall i :: 0 <= i < |es| ==> rs[i].ratio == es[i].ratio
    ensures RatioTo(rs, i) == RatioTo(es, i)
  {
    if i > 0 {
      SameRatiosTo(es, rs, i - 1);
    }
  }

  /** The first range that holds the number, as `find` returns it. */
  function FindRange(es: seq<Entry>, x: real): (r: Option<nat>)
    ensures r.Some? ==> r.value < |es| && es[r.value].from <= x <= es[r.value].to
    ensures r.Some? ==> forall k :: 0 <= k < r.value ==> !(es[k].from <= x <= es[k].to)
    ensures r.None? <==> forall k :: 0 <= k < |es| ==> !(es[k].from <= x <= es[k].to)
  {
    if es == [] then None
    else if es[0].from <= x <= es[0].to then Some(0)
    else
      match FindRange(es[1..], x)
      case None => None
      case Some(i) => Some(i + 1)
  }

  /** Ranges that cover [0,1] hold every draw. */
  lemma {:induction false} CoverIsTotal(es: seq<Entry>, x: real, k: nat)
    requires Covers(es) && k < |es| && es[k].from <= x <= 1.0
    ensures FindRange(es, x).Some?
    decreases |es| - k
  {
    if es[k].to < x {
      CoverIsTotal(es, x, k + 1);
    }
  }

  // ---------------------------------------------------------------- initial ratios

  function Initial(a: Algorithm): Entry { Entry(a.name, a.value, 0.0, 0, 0.0, 0.0) }

  function InitialAll(algorithms: seq<Algorithm>): (es: seq<Entry>)
    ensures |es| == |algorithms| && forall i :: 0 <= i < |es| ==> es[i] == Initial(algorithms[i])
  {
    seq(|algorithms|, i requires 0 <= i < |algorithms| => Initial(algorithms[i]))
  }

  function Inverted(e: Entry, sum: real): Entry
    requires sum != 0.0
  {
    e.(ratio := 1.0 - e.value / sum)
  }

  function InvertedAll(es: seq<Entry>, sum: real): (rs: seq<Entry>)
    requires sum != 0.0
    ensures |rs| == |es| && forall i :: 0 <= i < |es| ==> rs[i] == Inverted(es[i], sum)
  {
    seq(|es|, i requires 0 <= i < |es| => Inverted(es[i], sum))
  }

  function ScaledAll(es: seq<Entry>, sum: real): (rs: seq<Entry>)
    requires sum != 0.0
    ensures |rs| == |es| && forall i :: 0 <= i < |es| ==> rs[i] == es[i].(ratio := es[i].ratio / sum)
  {
    seq(|es|, i requires 0 <= i < |es| => es[i].(ratio := es[i].ratio / sum))
  }

  lemma {:induction false} InvertedTo(es: seq<Entry>, sum: real, i: nat)
    requires sum != 0.0 && i <= |es|
    ensures RatioTo(InvertedAll(es, sum), i) == i as real - ValueTo(es, i) / sum
  {
    if i > 0 {
      InvertedTo(es, sum, i - 1);
      QuotientAdds(ValueTo(es, i - 1), es[i - 1].value, sum);
    } else {
      assert 0.0 / sum == 0.0;
    }
  }

  lemma {:induction false} ScaledTo(es: seq<Entry>, sum: real, i: nat)
    requires sum != 0.0 && i <= |es|
    ensures RatioTo(ScaledAll(es, sum), i) == RatioTo(es, i) / sum
  {
    if i > 0 {
      ScaledTo(es, sum, i - 1);
      QuotientAdds(RatioTo(es, i - 1), es[i - 1].ratio, sum);
    } else {
      assert 0.0 / sum == 0.0;
    }
  }

  lemma QuotientAdds(x: real, y: real, s: real)
    requires s != 0.0
    ensures (x + y) / s == x / s + y / s
  {
  }

  lemma {:induction false} ValueAtMost(es: seq<Entry>, i: nat, n: nat)
    requires (forall e :: e in es ==> e.value >= 0.0) && n <= |es|
    ensures 0.0 <= ValueTo(es, n)
    ensures i < n ==> 0.0 <= es[i].value <= ValueTo(es, n)
  {
    if n > 0 {
      ValueAtMost(es, i, n - 1);
      assert es[n - 1] in es;
    }
  }

  lemma InvertedNonNegative(es: seq<Entry>, sum: real)
    requires (forall e :: e in es ==> e.value >= 0.0) && sum == SumValue(es) && sum != 0.0
    ensures forall e :: e in InvertedAll(es, sum) ==> e.ratio >= 0.0
  {
    var rs := InvertedAll(es, sum);
    forall e | e in rs ensures e.ratio >= 0.0 {
      var i :| 0 <= i < |rs| && rs[i] == e;
      ValueAtMost(es, i, |es|);
      QuotientAtMostOne(es[i].value, sum);
    }
  }

  lemma QuotientAtMostOne(x: real, s: real)
    requires 0.0 <= x <= s && s > 0.0
    ensures x / s <= 1.0
  {
  }

  lemma SelfQuotient(s: real)
    requires s != 0.0
    ensures s / s == 1.0
  {
  }

  lemma QuotientNonNegative(x: real, n: real)
    requires x >= 0.0 && n > 0.0
    ensures x / n >= 0.0
  {
  }

  lemma ScaledNonNegative(es: seq<Entry>, n: real)
    requires n > 0.0 && forall e :: e in es ==> e.ratio >= 0.0
    ensures forall e :: e in ScaledAll(es, n) ==> e.ratio >= 0.0
  {
    var scaled := ScaledAll(es, n);
    forall e | e in scaled ensures e.ratio >= 0.0 {
      var i :| 0 <= i < |scaled| && scaled[i] == e;
      assert es[i] in es;
      QuotientNonNegative(es[i].ratio, n);
    }
  }

  /** The inverted ratios of n algorithms add up to n - 1. */
  lemma InvertedRatiosSum(es: seq<Entry>)
    requires SumValue(es) != 0.0
    ensures SumRatio(InvertedAll(es, SumValue(es))) == |es| as real - 1.0
  {
    InvertedTo(es, SumValue(es), |es|);
    SelfQuotient(SumValue(es));
  }

  lemma ScaledSumsToOne(inverted: seq<Entry>, n: real)
    requires n == SumRatio(inverted) && n != 0.0
    ensures SumRatio(ScaledAll(inverted, n)) == 1.0
  {
    ScaledTo(inverted, n, |inverted|);
    SelfQuotient(n);
  }

  /** With two or more algorithms the scaled ratios are shares of one. */
  lemma InitialRatios(es: seq<Entry>, inverted: seq<Entry>, n: real)
    requires (forall e :: e in es ==> e.value >= 0.0) && SumValue(es) != 0.0 && |es| >= 2
    requires inverted == InvertedAll(es, SumValue(es)) && n == SumRatio(inverted)
    ensures n != 0.0 && SumRatio(ScaledAll(inverted, n)) == 1.0
    ensures forall e :: e in ScaledAll(inverted, n) ==> e.ratio >= 0.0
  {
    InvertedRatiosSum(es);
    assert n >= 1.0;
    InvertedNonNegative(es, SumValue(es));
    ScaledSumsToOne(inverted, n);
    ScaledNonNegative(inverted, n);
  }

  /** Before the first draw: the shorter its run time the larger an algorithm's share, all it asked for to give. */
  ghost predicate StartsFrom(algorithms: seq<Algorithm>, requests: Requests, es: seq<Entry>) {
    && |es| == |algorithms|
    && (forall i :: 0 <= i < |es| ==>
          && es[i].name == algorithms[i].name && es[i].value == algorithms[i].value
          && es[i].allocations == Asked(requests, algorithms[i].name)
          && es[i].to == es[i].from + es[i].ratio)
    && (es != [] ==> es[0].from == 0.0) && (forall i :: 0 < i < |es| ==> es[i].from == es[i - 1].to)
    && (|es| >= 2 && Total(algorithms) != 0.0 ==>
          forall i :: 0 <= i < |es| ==> es[i].ratio == Share(algorithms[i].value, Total(algorithms), |es|))
  }

  /** What is left of 1 without the algorithm's part of all run time, divided by the number of the others. */
  function Share(value: real, total: real, n: nat): real
    requires total != 0.0 && n >= 2
  {
    (1.0 - value / total) / (n as real - 1.0)
  }

  function Total(algorithms: seq<Algorithm>): real {
    if algorithms == [] then 0.0 else algorithms[0].value + Total(algorithms[1..])
  }

  /** The same of the entries the algorithms become at first, which are weighed by the sum of their values. */
  ghost predicate ScaledFrom(es: seq<Entry>, requests: Requests, rs: seq<Entry>) {
    && |rs| == |es|
    && (forall i :: 0 <= i < |rs| ==>
          && rs[i].name == es[i].name && rs[i].value == es[i].value
          && rs[i].allocations == Asked(requests, es[i].name)
          && rs[i].to == rs[i].from + rs[i].ratio)
    && (rs != [] ==> rs[0].from == 0.0) && (forall i :: 0 < i < |rs| ==> rs[i].from == rs[i - 1].to)
    && (|es| >= 2 && SumValue(es) != 0.0 ==>
          forall i :: 0 <= i < |rs| ==> rs[i].ratio == Share(es[i].value, SumValue(es), |es|))
  }

  lemma {:induction false} ValueShift(es: seq<Entry>, i: nat)
    requires 0 < i <= |es|
    ensures ValueTo(es, i) == es[0].value + ValueTo(es[1..], i - 1)
  {
    if i > 1 {
      ValueShift(es, i - 1);
    } else {
      assert ValueTo(es, 0) == 0.0;
    }
  }

  lemma {:induction false} TotalIsSum(algorithms: seq<Algorithm>)
    ensures SumValue(InitialAll(algorithms)) == Total(algorithms)
  {
    if algorithms != [] {
      var es := InitialAll(algorithms);
      TotalIsSum(algorithms[1..]);
      ValueShift(es, |es|);
      assert es[1..] == InitialAll(algorithms[1..]);
    }
  }

  lemma ScaledStart(algorithms: seq<Algorithm>, requests: Requests, es: seq<Entry>, rs: seq<Entry>)
    requires es == InitialAll(algorithms) && SumValue(es) == Total(algorithms) && ScaledFrom(es, requests, rs)
    ensures StartsFrom(algorithms, requests, rs)
  {
  }

  // ---------------------------------------------------------------- refilling and leaving

  function RangeEntry(e: Entry, requests: Requests, start: real): Entry {
    Entry(e.name, e.value, e.ratio, Refill(e, requests), start, start + e.ratio)
  }

  function RangesFrom(es: seq<Entry>, requests: Requests, start: real): (rs: seq<Entry>)
    ensures |rs| == |es|
  {
    if es == [] then []
    else [RangeEntry(es[0], requests, start)] + RangesFrom(es[1..], requests, start + es[0].ratio)
  }

  function RangedAll(es: seq<Entry>, requests: Requests): (rs: seq<Entry>)
    ensures |rs| == |es|
  {
    RangesFrom(es, requests, 0.0)
  }

  lemma {:induction false} RatioShift(es: seq<Entry>, i: nat)
    requires 0 < i <= |es|
    ensures RatioTo(es, i) == es[0].ratio + RatioTo(es[1..], i - 1)
  {
    if i > 1 {
      RatioShift(es, i - 1);
    } else {
      assert RatioTo(es, 0) == 0.0;
    }
  }

  lemma {:induction false} RangeAt(es: seq<Entry>, requests: Requests, start: real, i: nat)
    requires i < |es|
    ensures RangesFrom(es, requests, start)[i] == RangeEntry(es[i], requests, start + RatioTo(es, i))
  {
    if i > 0 {
      RangeAt(es[1..], requests, start + es[0].ratio, i - 1);
      RatioShift(es, i);
    }
  }

  lemma RangesAreRanged(es: seq<Entry>, requests: Requests)
    ensures Ranged(es, RangedAll(es, requests), requests)
  {
    forall i | 0 <= i < |es|
      ensures RangedAll(es, requests)[i] == RangeEntry(es[i], requests, RatioTo(es, i))
    {
      RangeAt(es, requests, 0.0, i);
    }
    forall i | 0 < i < |es| ensures RatioTo(es, i) == RatioTo(es, i - 1) + es[i - 1].ratio {
    }
  }

  function WithoutIndex(es: seq<Entry>, k: nat): (rs: seq<Entry>)
    requires k < |es|
    ensures |rs| == |es| - 1
    ensures forall i :: 0 <= i < |rs| ==> rs[i] == es[if i < k then i else i + 1]
  {
    es[..k] + es[k + 1..]
  }

  function SpreadAll(es: seq<Entry>, div: real): (rs: seq<Entry>)
    ensures |rs| == |es| && forall i :: 0 <= i < |es| ==> rs[i] == es[i].(ratio := es[i].ratio + div)
  {
    seq(|es|, i requires 0 <= i < |es| => es[i].(ratio := es[i].ratio + div))
  }

  lemma {:induction false} SpreadTo(es: seq<Entry>, div: real, i: nat)
    requires i <= |es|
    ensures RatioTo(SpreadAll(es, div), i) == RatioTo(es, i) + i as real * div
  {
    if i > 0 {
      SpreadTo(es, div, i - 1);
      OneMoreShare((i - 1) as real, div);
    }
  }

  lemma OneMoreShare(n: real, div: real)
    ensures (n + 1.0) * div == n * div + div
  {
  }

  lemma {:induction false} WithoutIndexTo(es: seq<Entry>, k: nat, i: nat)
    requires k < |es| && i <= |es|
    ensures i <= k ==> RatioTo(WithoutIndex(es, k), i) == RatioTo(es, i)
    ensures i > k ==> RatioTo(WithoutIndex(es, k), i - 1) == RatioTo(es, i) - es[k].ratio
  {
    if i > 0 {
      WithoutIndexTo(es, k, i - 1);
    }
  }

  /** The entries but `k`, each with its part of the ratio of `k`. */
  function SpreadRest(es: seq<Entry>, k: nat): (rs: seq<Entry>)
    requires k < |es| && |es| >= 2
    ensures |rs| == |es| - 1
    ensures forall i :: 0 <= i < |rs| ==>
              var e := es[if i < k then i else i + 1];
              rs[i].name == e.name && rs[i].allocations == e.allocations
  {
    var rest := WithoutIndex(es, k);
    SpreadAll(rest, es[k].ratio / |rest| as real)
  }

  /** What is left when entry `k` leaves: its ratio shared out, ranges rebuilt, empty entries refilled. */
  function Left(es: seq<Entry>, k: nat, requests: Requests): (rs: seq<Entry>)
    requires k < |es| && |es| >= 2
    ensures |rs| == |es| - 1
  {
    RangedAll(SpreadRest(es, k), requests)
  }

  /** Entry `i` of the rest is entry `At(i, k)` of the whole. */
  function At(i: nat, k: nat): nat { if i < k then i else i + 1 }

  lemma LeftAt(es: seq<Entry>, k: nat, requests: Requests, i: nat)
    requires k < |es| && |es| >= 2 && i < |es| - 1
    ensures Left(es, k, requests)[i].name == es[At(i, k)].name
    ensures Left(es, k, requests)[i].allocations == Refill(es[At(i, k)], requests)
  {
    RangesAreRanged(SpreadRest(es, k), requests);
  }

  lemma ShareTimesCount(x: real, n: real)
    requires n != 0.0
    ensures n * (x / n) == x
  {
  }

  /** Ratios that are shares of one. */
  ghost predicate Shares(es: seq<Entry>) {
    SumRatio(es) == 1.0 && forall i :: 0 <= i < |es| ==> es[i].ratio >= 0.0
  }

  /** Handing the leaver's ratio to the rest in equal parts leaves shares of one. */
  lemma SpreadRestShares(es: seq<Entry>, k: nat)
    requires k < |es| && |es| >= 2 && Shares(es)
    ensures Shares(SpreadRest(es, k))
  {
    var rest := WithoutIndex(es, k);
    var div := es[k].ratio / |rest| as real;
    SpreadRestSum(es, k);
    QuotientNonNegative(es[k].ratio, |rest| as real);
    forall i | 0 <= i < |rest| ensures SpreadAll(rest, div)[i].ratio >= 0.0 {
      assert rest[i].ratio == es[if i < k then i else i + 1].ratio;
    }
  }

  lemma SpreadRestSum(es: seq<Entry>, k: nat)
    requires k < |es| && |es| >= 2
    ensures SumRatio(SpreadRest(es, k)) == SumRatio(es)
  {
    var rest := WithoutIndex(es, k);
    WithoutIndexTo(es, k, |es|);
    SpreadTo(rest, es[k].ratio / |rest| as real, |rest|);
    ShareTimesCount(es[k].ratio, |rest| as real);
  }

  lemma LeftDistinct(es: seq<Entry>, k: nat, requests: Requests)
    requires k < |es| && |es| >= 2 && DistinctNames(es)
    ensures DistinctNames(Left(es, k, requests))
  {
    var rs := Left(es, k, requests);
    forall i, j | 0 <= i < j < |rs| ensures rs[i].name != rs[j].name {
      LeftAt(es, k, requests, i);
      LeftAt(es, k, requests, j);
    }
  }

  lemma {:induction false} AllocationsAt(es: seq<Entry>, i: nat, n: nat)
    requires i < n <= |es|
    ensures es[i].allocations <= AllocationsTo(es, n)
  {
    if i < n - 1 {
      AllocationsAt(es, i, n - 1);
    }
  }

  lemma {:induction false} AllocationsUpdate(es: seq<Entry>, i: nat, a: nat, n: nat)
    requires i < |es| && n <= |es|
    ensures AllocationsTo(es[i := es[i].(allocations := a)], n) ==
            AllocationsTo(es, n) + if i < n then a - es[i].allocations else 0
  {
    if n > 0 {
      AllocationsUpdate(es, i, a, n - 1);
    }
  }

  lemma RatioOnlyCovers(es: seq<Entry>, rs: seq<Entry>)
    requires Covers(es) && Shares(es)
    requires |rs| == |es| && forall i :: 0 <= i < |es| ==>
               rs[i].ratio == es[i].ratio && rs[i].from == es[i].from && rs[i].to == es[i].to
    ensures Covers(rs) && Shares(rs)
  {
    SameRatiosSameSum(es, rs);
  }

  /** When an empty entry is drawn while something is left to give, another entry must hold it. */
  lemma EmptyDrawLeavesOthers(es: seq<Entry>, k: nat)
    requires k < |es| && es[k].allocations == 0 && SumAllocations(es) > 0
    ensures |es| >= 2
    ensures |es| == 2 ==> es[1 - k].allocations > 0
  {
    assert AllocationsTo(es, 1) == es[0].allocations;
    if |es| == 2 {
      assert AllocationsTo(es, 2) == es[0].allocations + es[1].allocations;
    }
  }

  /** Names are distinct and each was asked for at least once. */
  ghost predicate NamesOk(es: seq<Entry>, requests: Requests) {
    && DistinctNames(es)
    && forall i :: 0 <= i < |es| ==> Asked(requests, es[i].name) >= 1
  }

  /** Every entry still holds all that was asked for. */
  ghost predicate Full(es: seq<Entry>, requests: Requests) {
    forall i :: 0 <= i < |es| ==> es[i].allocations == Asked(requests, es[i].name)
  }

  lemma SameNamesOk(es: seq<Entry>, rs: seq<Entry>, requests: Requests)
    requires NamesOk(es, requests) && |rs| == |es|
    requires forall i :: 0 <= i < |es| ==> rs[i].name == es[i].name
    ensures NamesOk(rs, requests)
  {
  }

  lemma SpreadRestNamesOk(es: seq<Entry>, k: nat, requests: Requests)
    requires k < |es| && |es| >= 2 && NamesOk(es, requests)
    ensures NamesOk(SpreadRest(es, k), requests)
  {
    var rs := SpreadRest(es, k);
    forall i | 0 <= i < |rs| ensures Asked(requests, rs[i].name) >= 1 {
      assert rs[i].name == es[At(i, k)].name;
    }
    forall i, j | 0 <= i < j < |rs| ensures rs[i].name != rs[j].name {
      assert rs[i].name == es[At(i, k)].name && rs[j].name == es[At(j, k)].name;
    }
  }

  // ---------------------------------------------------------------- what one draw does

  /** One allocation of entry `i`, which is `name`, is given out. */
  ghost predicate GivesAt(es: seq<Entry>, rs: seq<Entry>, name: string, i: nat) {
    && i < |es| && es[i].name == name && es[i].allocations >= 1
    && rs == es[i := es[i].(allocations := es[i].allocations - 1)]
  }

  ghost predicate GivesOne(es: seq<Entry>, rs: seq<Entry>, name: string) {
    exists i :: GivesAt(es, rs, name, i)
  }

  /** The same after the empty entry `k` has left. */
  ghost predicate LeavesThenGives(es: seq<Entry>, rs: seq<Entry>, requests: Requests, name: string, k: nat) {
    && k < |es| && |es| >= 2 && es[k].allocations == 0
    && (|es| == 2 ==> es[1 - k].allocations > 0)
    && GivesOne(Left(es, k, requests), rs, name)
  }

  ghost predicate DrawnFrom(es: seq<Entry>, rs: seq<Entry>, requests: Requests, name: string) {
    GivesOne(es, rs, name) || exists k :: LeavesThenGives(es, rs, requests, name, k)
  }

  // ---------------------------------------------------------------- which entry a number draws

  /** The first entry whose range holds the number. */
  ghost predicate FirstHolding(es: seq<Entry>, x: real, i: nat) {
    && i < |es| && es[i].from <= x <= es[i].to
    && forall k :: 0 <= k < i ==> !(es[k].from <= x <= es[k].to)
  }

  /**
   * `ls` is what entry `k` leaves behind: each other entry with an equal part of its ratio, full again if it held
   * nothing, the ranges one after the other from 0.
   */
  ghost predicate LeavesBehind(es: seq<Entry>, k: nat, requests: Requests, ls: seq<Entry>) {
    && k < |es| && |es| >= 2 && |ls| == |es| - 1
    && (forall i :: 0 <= i < |ls| ==> Inherits(es[At(i, k)], es[k].ratio / |ls| as real, requests, ls[i]))
    && ls[0].from == 0.0 && (forall i :: 0 < i < |ls| ==> ls[i].from == ls[i - 1].to)
  }

  ghost predicate Inherits(e: Entry, part: real, requests: Requests, l: Entry) {
    && l.name == e.name && l.value == e.value && l.ratio == e.ratio + part && l.to == l.from + l.ratio
    && l.allocations == if e.allocations == 0 then Asked(requests, e.name) else e.allocations
  }

  /**
   * While something is left to give: the number falls on an entry that still holds something, or on one that has to
   * leave before it falls again.
   */
  ghost predicate Drawn(es: seq<Entry>, rs: seq<Entry>, requests: Requests, x: real, name: string) {
    && SumAllocations(es) > 0
    && exists k: nat ::
         && FirstHolding(es, x, k)
         && if es[k].allocations > 0 then GivesAt(es, rs, name, k) else DrawnBehind(es, rs, requests, x, name, k)
  }

  ghost predicate DrawnBehind(es: seq<Entry>, rs: seq<Entry>, requests: Requests, x: real, name: string, k: nat) {
    exists ls, i: nat :: LeavesBehind(es, k, requests, ls) && FirstHolding(ls, x, i) && GivesAt(ls, rs, name, i)
  }

  lemma SpreadRestAt(es: seq<Entry>, k: nat, i: nat)
    requires k < |es| && |es| >= 2 && i < |es| - 1
    ensures var e := es[At(i, k)];
            SpreadRest(es, k)[i] == e.(ratio := e.ratio + es[k].ratio / (|es| - 1) as real)
  {
  }

  lemma LeftLeavesBehind(es: seq<Entry>, k: nat, requests: Requests)
    requires k < |es| && |es| >= 2
    ensures LeavesBehind(es, k, requests, Left(es, k, requests))
  {
    var rest, ls := SpreadRest(es, k), Left(es, k, requests);
    RangesAreRanged(rest, requests);
    forall i | 0 <= i < |ls| ensures Inherits(es[At(i, k)], es[k].ratio / |ls| as real, requests, ls[i]) {
      RangeAt(rest, requests, 0.0, i);
      SpreadRestAt(es, k, i);
    }
  }

  lemma FirstHoldingOnce(es: seq<Entry>, x: real, i: nat, j: nat)
    requires FirstHolding(es, x, i) && FirstHolding(es, x, j)
    ensures i == j
  {
  }

  lemma {:induction false} LeftBehindAt(
      es: seq<Entry>, k: nat, requests: Requests, a: seq<Entry>, b: seq<Entry>, i: nat)
    requires LeavesBehind(es, k, requests, a) && LeavesBehind(es, k, requests, b) && i < |a|
    ensures a[i] == b[i]
  {
    if i > 0 {
      LeftBehindAt(es, k, requests, a, b, i - 1);
      assert a[i].from == a[i - 1].to && b[i].from == b[i - 1].to;
    } else {
      assert a[i].from == 0.0 && b[i].from == 0.0;
    }
    assert Inherits(es[At(i, k)], es[k].ratio / |a| as real, requests, a[i]);
    assert Inherits(es[At(i, k)], es[k].ratio / |a| as real, requests, b[i]);
  }

  lemma LeftBehindOnce(es: seq<Entry>, k: nat, requests: Requests, a: seq<Entry>, b: seq<Entry>)
    requires LeavesBehind(es, k, requests, a) && LeavesBehind(es, k, requests, b)
    ensures a == b
  {
    forall n | 0 <= n < |a| ensures a[n] == b[n] {
      LeftBehindAt(es, k, requests, a, b, n);
    }
  }

  /** A number draws one entry only. */
  lemma DrawIsDetermined(
      es: seq<Entry>, requests: Requests, x: real, rs: seq<Entry>, name: string, us: seq<Entry>, other: string)
    requires Drawn(es, rs, requests, x, name) && Drawn(es, us, requests, x, other)
    ensures rs == us && name == other
  {
    var k: nat :| FirstHolding(es, x, k) &&
      if es[k].allocations > 0 then GivesAt(es, rs, name, k) else DrawnBehind(es, rs, requests, x, name, k);
    var m: nat :| FirstHolding(es, x, m) &&
      if es[m].allocations > 0 then GivesAt(es, us, other, m) else DrawnBehind(es, us, requests, x, other, m);
    FirstHoldingOnce(es, x, k, m);
    if es[k].allocations == 0 {
      BehindIsDetermined(es, requests, x, k, rs, name, us, other);
    }
  }

  lemma BehindIsDetermined(
      es: seq<Entry>, requests: Requests, x: real, k: nat, rs: seq<Entry>, name: string, us: seq<Entry>, other: string)
    requires DrawnBehind(es, rs, requests, x, name, k) && DrawnBehind(es, us, requests, x, other, k)
    ensures rs == us && name == other
  {
    var a, i: nat :| LeavesBehind(es, k, requests, a) && FirstHolding(a, x, i) && GivesAt(a, rs, name, i);
    var b, j: nat :| LeavesBehind(es, k, requests, b) && FirstHolding(b, x, j) && GivesAt(b, us, other, j);
    LeftBehindOnce(es, k, requests, a, b);
    GivenOnce(a, x, i, rs, name, j, us, other);
  }

  lemma GivenOnce(
      ls: seq<Entry>, x: real, i: nat, rs: seq<Entry>, name: string, j: nat, us: seq<Entry>, other: string)
    requires FirstHolding(ls, x, i) && FirstHolding(ls, x, j) && GivesAt(ls, rs, name, i) && GivesAt(ls, us, other, j)
    ensures rs == us && name == other
  {
    FirstHoldingOnce(ls, x, i, j);
  }

  /** The names were drawn by the numbers, one by one; `es` is where `start` has come to. */
  ghost predicate DrawnBy(
      start: seq<Entry>, es: seq<Entry>, requests: Requests, draws: nat -> real, yielded: seq<string>)
    decreases |yielded|
  {
    if yielded == [] then es == start
    else
      var n := |yielded| - 1;
      exists before :: DrawnBy(start, before, requests, draws, yielded[..n])
                    && Drawn(before, es, requests, draws(n), yielded[n])
  }

  lemma LastDraw(
      start: seq<Entry>, es: seq<Entry>, requests: Requests, draws: nat -> real, yielded: seq<string>)
      returns (before: seq<Entry>)
    requires DrawnBy(start, es, requests, draws, yielded) && yielded != []
    ensures var n := |yielded| - 1;
            && DrawnBy(start, before, requests, draws, yielded[..n])
            && Drawn(before, es, requests, draws(n), yielded[n])
  {
    var n := |yielded| - 1;
    before :| DrawnBy(start, before, requests, draws, yielded[..n])
           && Drawn(before, es, requests, draws(n), yielded[n]);
  }

  lemma DrawnByOne(
      start: seq<Entry>, before: seq<Entry>, es: seq<Entry>, requests: Requests, draws: nat -> real,
      yielded: seq<string>, name: string)
    requires DrawnBy(start, before, requests, draws, yielded) && Drawn(before, es, requests, draws(|yielded|), name)
    ensures DrawnBy(start, es, requests, draws, yielded + [name])
  {
    var all := yielded + [name];
    assert all[..|yielded|] == yielded && all[|yielded|] == name;
  }

  /** The numbers determine the names: two sequences of equal length agree, and so does what is left. */
  lemma {:induction false} YieldIsDetermined(
      start: seq<Entry>, requests: Requests, draws: nat -> real, es: seq<Entry>, a: seq<string>, us: seq<Entry>,
      b: seq<string>)
    requires DrawnBy(start, es, requests, draws, a) && DrawnBy(start, us, requests, draws, b) && |a| == |b|
    ensures a == b && es == us
    decreases |a|
  {
    if a != [] {
      var n := |a| - 1;
      var before := LastDraw(start, es, requests, draws, a);
      var prior := LastDraw(start, us, requests, draws, b);
      YieldIsDetermined(start, requests, draws, before, a[..n], prior, b[..n]);
      DrawIsDetermined(before, requests, draws(n), es, a[n], us, b[n]);
      SameButLast(a, b);
    }
  }

  /** Where the draws had come to before number `k`, when something was left. */
  lemma {:induction false} DrawnSoFar(
      start: seq<Entry>, es: seq<Entry>, requests: Requests, draws: nat -> real, yielded: seq<string>, k: nat)
      returns (before: seq<Entry>)
    requires DrawnBy(start, es, requests, draws, yielded) && k < |yielded|
    ensures DrawnBy(start, before, requests, draws, yielded[..k]) && SumAllocations(before) > 0
    decreases |yielded|
  {
    before := LastDraw(start, es, requests, draws, yielded);
    if k < |yielded| - 1 {
      assert yielded[..|yielded| - 1][..k] == yielded[..k];
      before := DrawnSoFar(start, before, requests, draws, yielded[..|yielded| - 1], k);
    }
  }

  /** When all is drawn, the numbers have determined every name and how many there are. */
  lemma DrainIsDetermined(
      start: seq<Entry>, requests: Requests, draws: nat -> real, es: seq<Entry>, a: seq<string>, us: seq<Entry>,
      b: seq<string>)
    requires DrawnBy(start, es, requests, draws, a) && SumAllocations(es) == 0
    requires DrawnBy(start, us, requests, draws, b) && SumAllocations(us) == 0
    ensures a == b && es == us
  {
    if |a| < |b| {
      var before := DrawnSoFar(start, us, requests, draws, b, |a|);
      YieldIsDetermined(start, requests, draws, es, a, before, b[..|a|]);
      assert false;
    } else if |b| < |a| {
      var before := DrawnSoFar(start, es, requests, draws, a, |b|);
      YieldIsDetermined(start, requests, draws, us, b, before, a[..|b|]);
      assert false;
    } else {
      YieldIsDetermined(start, requests, draws, es, a, us, b);
    }
  }

  lemma SameButLast(a: seq<string>, b: seq<string>)
    requires |a| == |b| > 0 && a[..|a| - 1] == b[..|a| - 1] && a[|a| - 1] == b[|a| - 1]
    ensures a == b
  {
    assert a == a[..|a| - 1] + [a[|a| - 1]] && b == b[..|a| - 1] + [b[|a| - 1]];
  }

  // ---------------------------------------------------------------- the account

  /** What the entries still hold for a name. */
  function Remaining(es: seq<Entry>, name: string): nat {
    if es == [] then 0 else if es[0].name == name then es[0].allocations else Remaining(es[1..], name)
  }

  lemma {:induction false} RemainingAt(es: seq<Entry>, i: nat)
    requires i < |es| && DistinctNames(es)
    ensures Remaining(es, es[i].name) == es[i].allocations
  {
    if i > 0 {
      RemainingAt(es[1..], i - 1);
    }
  }

  lemma {:induction false} RemainingAbsent(es: seq<Entry>, name: string)
    requires !Has(es, name)
    ensures Remaining(es, name) == 0
  {
    if es != [] {
      assert es[0].name != name;
      assert forall i :: 0 <= i < |es[1..]| ==> es[1..][i] == es[i + 1];
      RemainingAbsent(es[1..], name);
    }
  }

  lemma GivesOneRemaining(es: seq<Entry>, rs: seq<Entry>, name: string, x: string)
    requires GivesOne(es, rs, name) && DistinctNames(es)
    ensures |rs| == |es| && DistinctNames(rs) && (Has(rs, x) <==> Has(es, x))
    ensures Remaining(es, x) == Remaining(rs, x) + if x == name then 1 else 0
  {
    var i :| GivesAt(es, rs, name, i);
    assert forall k :: 0 <= k < |rs| ==> rs[k].name == es[k].name;
    if k :| 0 <= k < |es| && es[k].name == x {
      RemainingAt(es, k);
      RemainingAt(rs, k);
      assert rs[k].name == x;
    } else {
      RemainingAbsent(es, x);
      RemainingAbsent(rs, x);
    }
  }

  ghost predicate Has(es: seq<Entry>, name: string) {
    exists i :: 0 <= i < |es| && es[i].name == name
  }

  /** A name other than the leaver's keeps what it holds, or is refilled if it holds nothing. */
  lemma LeftRemaining(es: seq<Entry>, k: nat, requests: Requests, x: string)
    requires k < |es| && |es| >= 2 && DistinctNames(es) && es[k].allocations == 0
    ensures Has(Left(es, k, requests), x) <==> x != es[k].name && Has(es, x)
    ensures Remaining(Left(es, k, requests), x) ==
            if Has(Left(es, k, requests), x) && Remaining(es, x) == 0 then Asked(requests, x) else Remaining(es, x)
  {
    var rs := Left(es, k, requests);
    LeftDistinct(es, k, requests);
    RemainingAt(es, k);
    if i :| 0 <= i < |rs| && rs[i].name == x {
      LeftAt(es, k, requests, i);
      assert es[At(i, k)].name == x;
      RemainingAt(es, At(i, k));
      RemainingAt(rs, i);
    } else {
      RemainingAbsent(rs, x);
      forall at | 0 <= at < |es| && at != k ensures es[at].name != x {
        var i := if at < k then at else at - 1;
        LeftAt(es, k, requests, i);
        assert rs[i].name != x;
      }
      if x != es[k].name {
        RemainingAbsent(es, x);
      }
    }
  }

  lemma LeftRefilled(es: seq<Entry>, k: nat, requests: Requests, i: nat)
    requires k < |es| && |es| >= 2 && i < |es| - 1 && NamesOk(es, requests)
    ensures Left(es, k, requests)[i].allocations >= 1
  {
    LeftAt(es, k, requests, i);
  }

  /** What `refills` further fillings of `a` allocations come to. */
  function Due(a: nat, refills: nat): nat { a * (1 + refills) }

  lemma DueNext(a: nat, refills: nat)
    ensures Due(a, refills + 1) == Due(a, refills) + a
  {
  }

  /** At most one refill for each entry that has left, and none when the last but one leaves. */
  function MaxRefills(n: nat, left: nat): int { if left >= 2 then n - left else n - 2 }

  ghost predicate Accounted(
      yielded: seq<string>, es: seq<Entry>, requests: Requests, refills: map<string, nat>, n: nat, x: string)
  {
    && x in refills && refills[x] <= MaxRefills(n, |es|)
    && multiset(yielded)[x] + Remaining(es, x) == Due(Asked(requests, x), refills[x])
  }

  ghost predicate Account(
      names: set<string>, yielded: seq<string>, es: seq<Entry>, requests: Requests, refills: map<string, nat>, n: nat)
  {
    && 1 <= |es| <= n && DistinctNames(es)
    && (forall i :: 0 <= i < |es| ==> es[i].name in names)
    && (forall y :: y in yielded ==> y in names)
    && (forall x :: x in names ==> Accounted(yielded, es, requests, refills, n, x))
  }

  /** The refills after entry `k` has left: one more for each name that stays and held nothing. */
  ghost function NextRefills(
      names: set<string>, es: seq<Entry>, k: nat, requests: Requests, refills: map<string, nat>): map<string, nat>
    requires k < |es| && |es| >= 2
  {
    map x | x in names && x in refills ::
      refills[x] + if Has(Left(es, k, requests), x) && Remaining(es, x) == 0 then 1 else 0
  }

  lemma LeavingKeepsAccount(
      names: set<string>, yielded: seq<string>, es: seq<Entry>, requests: Requests, refills: map<string, nat>, n: nat,
      k: nat)
    requires Account(names, yielded, es, requests, refills, n)
    requires k < |es| && |es| >= 2 && es[k].allocations == 0
    requires |es| == 2 ==> es[1 - k].allocations > 0
    ensures Account(names, yielded, Left(es, k, requests), requests, NextRefills(names, es, k, requests, refills), n)
  {
    LeftDistinct(es, k, requests);
    forall i | 0 <= i < |es| - 1 ensures Left(es, k, requests)[i].name in names {
      LeftAt(es, k, requests, i);
    }
    forall x | x in names
      ensures Accounted(yielded, Left(es, k, requests), requests, NextRefills(names, es, k, requests, refills), n, x)
    {
      assert Accounted(yielded, es, requests, refills, n, x);
      LeftRemaining(es, k, requests, x);
      DueNext(Asked(requests, x), refills[x]);
      if |es| == 2 && Has(Left(es, k, requests), x) {
        LastStillHolds(es, k, x);
      }
    }
  }

  /** When two are left and one leaves empty, the other still holds something. */
  lemma LastStillHolds(es: seq<Entry>, k: nat, x: string)
    requires |es| == 2 && k < 2 && DistinctNames(es) && es[1 - k].allocations > 0
    requires x != es[k].name && Has(es, x)
    ensures Remaining(es, x) > 0
  {
    RemainingAt(es, 1 - k);
  }

  lemma GivingKeepsAccount(
      names: set<string>, yielded: seq<string>, es: seq<Entry>, rs: seq<Entry>, requests: Requests,
      refills: map<string, nat>, n: nat, name: string)
    requires Account(names, yielded, es, requests, refills, n) && GivesOne(es, rs, name)
    ensures Account(names, yielded + [name], rs, requests, refills, n)
  {
    GivesOneRemaining(es, rs, name, name);
    var i :| GivesAt(es, rs, name, i);
    assert forall k :: 0 <= k < |rs| ==> rs[k].name == es[k].name;
    forall x | x in names ensures Accounted(yielded + [name], rs, requests, refills, n, x) {
      assert Accounted(yielded, es, requests, refills, n, x);
      GivesOneRemaining(es, rs, name, x);
    }
  }

  lemma DrawKeepsAccount(
      names: set<string>, yielded: seq<string>, es: seq<Entry>, rs: seq<Entry>, requests: Requests,
      refills: map<string, nat>, n: nat, name: string) returns (next: map<string, nat>)
    requires Account(names, yielded, es, requests, refills, n) && DrawnFrom(es, rs, requests, name)
    ensures Account(names, yielded + [name], rs, requests, next, n)
  {
    if GivesOne(es, rs, name) {
      next := refills;
      GivingKeepsAccount(names, yielded, es, rs, requests, refills, n, name);
    } else {
      var k :| LeavesThenGives(es, rs, requests, name, k);
      next := NextRefills(names, es, k, requests, refills);
      LeavingKeepsAccount(names, yielded, es, requests, refills, n, k);
      GivingKeepsAccount(names, yielded, Left(es, k, requests), rs, requests, next, n, name);
    }
  }

  /** Every name got its request once and once more for each refill, of which there are at most n - 2. */
  ghost predicate SettledFor(yielded: seq<string>, requests: Requests, n: nat, x: string) {
    exists refills: nat :: refills <= n - 2 && multiset(yielded)[x] == Due(Asked(requests, x), refills)
  }

  lemma AccountSettles(
      names: set<string>, yielded: seq<string>, es: seq<Entry>, requests: Requests, refills: map<string, nat>, n: nat,
      x: string)
    requires Account(names, yielded, es, requests, refills, n) && SumAllocations(es) == 0 && n >= 2 && x in names
    ensures SettledFor(yielded, requests, n, x)
  {
    assert Accounted(yielded, es, requests, refills, n, x);
    if i :| 0 <= i < |es| && es[i].name == x {
      RemainingAt(es, i);
      AllocationsAt(es, i, |es|);
    } else {
      RemainingAbsent(es, x);
    }
    assert refills[x] <= n - 2;
  }

  /**
   * Each algorithm is drawn at least as often as it asked for, at most n - 1 times as often, and exactly
   * as often when there are two.
   */
  lemma SettledBounds(yielded: seq<string>, requests: Requests, n: nat, x: string)
    requires SettledFor(yielded, requests, n, x) && n >= 2
    ensures Asked(requests, x) <= multiset(yielded)[x] <= (n - 1) * Asked(requests, x)
    ensures n == 2 ==> multiset(yielded)[x] == Asked(requests, x)
  {
    var refills: nat :| refills <= n - 2 && multiset(yielded)[x] == Due(Asked(requests, x), refills);
    MultipleBounds(Asked(requests, x), refills, n);
  }

  lemma MultipleBounds(a: nat, refills: nat, n: nat)
    requires n >= 2 && refills <= n - 2
    ensures a <= Due(a, refills) <= (n - 1) * a
    ensures n == 2 ==> Due(a, refills) == a
  {
    assert (1 + refills) <= n - 1;
    MulMonotone(1 + refills, n - 1, a);
    MulMonotone(1, 1 + refills, a);
  }

  lemma MulMonotone(x: nat, y: nat, a: nat)
    requires x <= y
    ensures x * a <= y * a
  {
  }

  /** The two passes over the ratios: inverse to run time, then scaled; false when they divide by zero. */
  method ScaleRatios(es: seq<Entry>) returns (rs: seq<Entry>, numbers: bool)
    requires forall e :: e in es ==> e.value >= 0.0
    ensures |rs| == |es|
    ensures forall i :: 0 <= i < |es| ==> rs[i].name == es[i].name && rs[i].allocations == es[i].allocations
    ensures numbers <==> |es| == 0 || (|es| >= 2 && SumValue(es) != 0.0)
    ensures numbers && es != [] ==> Shares(rs)
    ensures forall i :: 0 <= i < |es| ==> rs[i].value == es[i].value
    ensures |es| >= 2 && SumValue(es) != 0.0 ==>
              forall i :: 0 <= i < |es| ==> rs[i].ratio == Share(es[i].value, SumValue(es), |es|)
  {
    var ratioSum := SumValue(es);
    if ratioSum == 0.0 {
      return es, es == [];
    }
    InvertedRatiosSum(es);
    var inverted := InvertedAll(es, ratioSum);
    var newRatioSum := SumRatio(inverted);
    if newRatioSum == 0.0 {
      return es, false;
    }
    if |es| >= 2 {
      InitialRatios(es, inverted, newRatioSum);
    }
    rs, numbers := ScaledAll(inverted, newRatioSum), true;
  }

  /** One pass: each range starts where the last one ended, empty entries are refilled. */
  method BuildRanges(es: seq<Entry>, requests: Requests) returns (updated: seq<Entry>, ratio: real, total: nat)
    ensures updated == RangedAll(es, requests) && total == SumAllocations(updated)
  {
    ghost var all := RangedAll(es, requests);
    updated := [];
    ratio, total := 0.0, 0;
    for i := 0 to |es|
      invariant updated == all[..i] && total == AllocationsTo(all, i)
      invariant ratio == RatioTo(es, i) && (i > 0 ==> updated[i - 1].to == ratio)
    {
      RangeAt(es, requests, 0.0, i);
      var r := es[i];
      var granted := Refill(r, requests);
      var from := if i > 0 then updated[i - 1].to else 0.0;
      ratio := ratio + r.ratio;
      var e := Entry(r.name, r.value, r.ratio, granted, from, ratio);
      updated := updated + [e];
      total := total + granted;
    }
  }

  /** Entries that start empty are filled with what was asked for. */
  lemma StartsFull(es: seq<Entry>, rs: seq<Entry>, requests: Requests)
    requires NamesOk(rs, requests) && |rs| == |es|
    requires forall e :: e in es ==> e.allocations == 0
    requires forall i :: 0 <= i < |es| ==> rs[i].name == es[i].name && rs[i].allocations == es[i].allocations
    ensures forall i :: 0 <= i < |es| ==>
              var e := RangedAll(rs, requests)[i];
              e.name == es[i].name && e.allocations == Asked(requests, e.name)
  {
    RangesAreRanged(rs, requests);
    assert forall i :: 0 <= i < |es| ==> es[i] in es;
  }

  lemma RangedIsScaled(es: seq<Entry>, scaled: seq<Entry>, requests: Requests)
    requires |scaled| == |es| && forall e :: e in es ==> e.allocations == 0
    requires forall i :: 0 <= i < |es| ==>
               && scaled[i].name == es[i].name && scaled[i].allocations == es[i].allocations
               && scaled[i].value == es[i].value
    requires |es| >= 2 && SumValue(es) != 0.0 ==>
               forall i :: 0 <= i < |es| ==> scaled[i].ratio == Share(es[i].value, SumValue(es), |es|)
    ensures ScaledFrom(es, requests, RangedAll(scaled, requests))
  {
    var rs := RangedAll(scaled, requests);
    RangesAreRanged(scaled, requests);
    forall i | 0 <= i < |es|
      ensures rs[i] == RangeEntry(scaled[i], requests, RatioTo(scaled, i)) && scaled[i].allocations == 0
    {
      RangeAt(scaled, requests, 0.0, i);
      assert es[i] in es;
    }
  }

  /** Giving one out changes one count: names and ranges stay, the total drops by one. */
  lemma GivingStaysValid(es: seq<Entry>, i: nat, requests: Requests, numbers: bool)
    requires i < |es| && es[i].allocations >= 1 && NamesOk(es, requests)
    requires numbers ==> Covers(es) && Shares(es)
    ensures var rs := es[i := es[i].(allocations := es[i].allocations - 1)];
            && NamesOk(rs, requests) && SumAllocations(es) >= 1 && SumAllocations(rs) == SumAllocations(es) - 1
            && (numbers ==> Covers(rs) && Shares(rs))
  {
    var rs := es[i := es[i].(allocations := es[i].allocations - 1)];
    AllocationsAt(es, i, |es|);
    AllocationsUpdate(es, i, es[i].allocations - 1, |es|);
    SameNamesOk(es, rs, requests);
    if numbers {
      RatioOnlyCovers(es, rs);
    }
  }

  class AlgorithmRatios {
    var ratio: real
    var totalAllocations: nat
    var algorithms: seq<Entry>
    const requests: Requests
    /** False when the shares are 0/0 and no range holds any number. */
    var numbers: bool

    ghost predicate Valid()
      reads this
    {
      && NamesOk(algorithms, requests)
      && totalAllocations == SumAllocations(algorithms)
      && (numbers && algorithms != [] ==> Covers(algorithms) && Shares(algorithms))
    }

    /** The state a constructor leaves: every algorithm still holds all it asked for. */
    ghost predicate Untouched()
      reads this
    {
      (numbers ==> |algorithms| != 1) && Full(algorithms, requests)
    }

    /** Callers pass each algorithm once, with a run time and a positive number of requests. */
    constructor (algorithms: seq<Algorithm>, requests: Requests)
      requires NamesOk(InitialAll(algorithms), requests)
      requires forall a :: a in algorithms ==> a.value >= 0.0
      ensures Valid() && Untouched() && this.requests == requests
      ensures StartsFrom(algorithms, requests, this.algorithms)
      ensures numbers <==> |algorithms| == 0 || (|algorithms| >= 2 && Total(algorithms) != 0.0)
    {
      this.requests := requests;
      this.algorithms := InitialAll(algorithms);
      ratio, totalAllocations, numbers := 0.0, 0, true;
      new;
      forall e | e in this.algorithms ensures e.value >= 0.0 && e.allocations == 0 {
        var i :| 0 <= i < |algorithms| && this.algorithms[i] == e;
        assert algorithms[i] in algorithms;
      }
      TotalIsSum(algorithms);
      ghost var es := this.algorithms;
      CalcRatios();
      ScaledStart(algorithms, requests, es, this.algorithms);
    }

    method CalcRatios()
      requires NamesOk(algorithms, requests)
      requires forall e :: e in algorithms ==> e.value >= 0.0 && e.allocations == 0
      modifies this
      ensures Valid() && Untouched()
      ensures ScaledFrom(old(algorithms), requests, algorithms)
      ensures numbers <==> |algorithms| == 0 || (|algorithms| >= 2 && SumValue(old(algorithms)) != 0.0)
    {
      ghost var es := algorithms;
      algorithms, numbers := ScaleRatios(algorithms);
      SameNamesOk(es, algorithms, requests);
      ghost var scaled := algorithms;
      CalcRange();
      StartsFull(es, scaled, requests);
      RangedIsScaled(es, scaled, requests);
    }

    /** Rebuilds ranges and total in one pass, each range starting where the last one ended. */
    method CalcRange()
      requires NamesOk(algorithms, requests)
      requires numbers && algorithms != [] ==> Shares(algorithms)
      modifies this`ratio, this`totalAllocations, this`algorithms
      ensures algorithms == RangedAll(old(algorithms), requests)
      ensures Valid()
    {
      ghost var es := algorithms;
      RangesAreRanged(es, requests);
      algorithms, ratio, totalAllocations := BuildRanges(algorithms, requests);
      SameNamesOk(es, algorithms, requests);
      if numbers && es != [] {
        RangedCovers(es, algorithms, requests);
      }
    }

    /** The entry at `k` leaves; the source divides by the number left, so there must be one. */
    method ReCalcRange(k: nat)
      requires Valid() && k < |algorithms| && |algorithms| >= 2
      modifies this`ratio, this`totalAllocations, this`algorithms
      ensures Valid() && algorithms == Left(old(algorithms), k, requests)
    {
      SpreadRestNamesOk(algorithms, k, requests);
      if numbers {
        SpreadRestShares(algorithms, k);
      }
      var rest := WithoutIndex(algorithms, k);
      var div := algorithms[k].ratio / |rest| as real;
      algorithms := SpreadAll(rest, div);
      CalcRange();
    }

    /** None is where the source finds no range and throws. */
    method Find(random: real) returns (r: Option<nat>)
      requires Valid() && algorithms != [] && 0.0 <= random <= 1.0
      ensures r.Some? <==> numbers
      ensures r.Some? ==> r.value < |algorithms| && FindRange(algorithms, random) == r
    {
      if numbers {
        CoverIsTotal(algorithms, random, 0);
        r := FindRange(algorithms, random);
      } else {
        r := None;
      }
    }

    /** One allocation of the entry at `i` is given out. */
    method TakeOne(i: nat)
      requires Valid() && i < |algorithms| && algorithms[i].allocations >= 1
      modifies this`totalAllocations, this`algorithms
      ensures Valid() && totalAllocations == old(totalAllocations) - 1
      ensures GivesAt(old(algorithms), algorithms, old(algorithms)[i].name, i)
    {
      GivingStaysValid(algorithms, i, requests, numbers);
      var e := algorithms[i];
      algorithms := algorithms[i := e.(allocations := e.allocations - 1)];
      totalAllocations := totalAllocations - 1;
    }

    /** One pull of the generator while something is left: the name drawn, or None where it throws. */
    method Draw(random: real) returns (r: Option<string>)
      requires Valid() && totalAllocations > 0 && 0.0 <= random <= 1.0
      modifies this`ratio, this`totalAllocations, this`algorithms
      ensures Valid() && (r.Some? <==> numbers)
      ensures r.None? ==> algorithms == old(algorithms)
      ensures r.Some? ==> Drawn(old(algorithms), algorithms, requests, random, r.value)
      ensures r.Some? ==> |algorithms| < |old(algorithms)|
                          || (|algorithms| == |old(algorithms)| && totalAllocations < old(totalAllocations))
    {
      var found := Find(random);
      if found.None? {
        return None;
      }
      var i := found.value;
      assert FirstHolding(algorithms, random, i);
      if algorithms[i].allocations == 0 {
        r := DrawAfterLeaving(i, random);
      } else {
        r := Some(algorithms[i].name);
        TakeOne(i);
      }
    }

    /** The empty entry at `k` leaves and the same number is looked up again. */
    method DrawAfterLeaving(k: nat, random: real) returns (r: Option<string>)
      requires Valid() && totalAllocations > 0 && 0.0 <= random <= 1.0 && numbers
      requires k < |algorithms| && algorithms[k].allocations == 0
      modifies this`ratio, this`totalAllocations, this`algorithms
      ensures Valid() && r.Some?
      ensures DrawnBehind(old(algorithms), algorithms, requests, random, r.value, k)
      ensures |algorithms| == |old(algorithms)| - 1
    {
      EmptyDrawLeavesOthers(algorithms, k);
      ghost var es := algorithms;
      ReCalcRange(k);
      var found := Find(random);
      LeftRefilled(es, k, requests, found.value);
      LeftLeavesBehind(es, k, requests);
      ghost var ls := algorithms;
      assert FirstHolding(ls, random, found.value);
      r := Some(algorithms[found.value].name);
      TakeOne(found.value);
      assert GivesAt(ls, algorithms, r.value, found.value);
    }

    /**
     * The generator drained with an arbitrary sequence of draws. It ends for every sequence; it throws,
     * at its first draw, exactly when the shares are not numbers.
     */
    method GenerateRandom(draws: nat -> real) returns (yielded: seq<string>, threw: bool)
      requires Valid() && Untouched() && forall k :: 0.0 <= draws(k) <= 1.0
      modifies this`ratio, this`totalAllocations, this`algorithms
      ensures threw <==> !numbers && old(algorithms) != []
      ensures threw ==> yielded == []
      ensures !threw ==> SumAllocations(algorithms) == 0
      ensures !threw ==> DrawnBy(old(algorithms), algorithms, requests, draws, yielded)
      ensures !threw ==> forall e :: e in old(algorithms) ==>
                SettledFor(yielded, requests, |old(algorithms)|, e.name)
      ensures !threw ==> forall y :: y in yielded ==> exists e :: e in old(algorithms) && e.name == y
    {
      yielded, threw := [], false;
      var k := 0;
      if algorithms != [] {
        assert algorithms[0].allocations >= 1;
        AllocatedPositive(algorithms);
      }
      while totalAllocations > 0
        invariant Valid()
        invariant !numbers ==> yielded == [] && algorithms == old(algorithms)
        invariant k == |yielded| && DrawnBy(old(algorithms), algorithms, requests, draws, yielded)
        decreases |algorithms|, totalAllocations
      {
        ghost var es := algorithms;
        var drawn := Draw(draws(k));
        if drawn.None? {
          return yielded, true;
        }
        DrawnByOne(old(algorithms), es, algorithms, requests, draws, yielded, drawn.value);
        yielded := yielded + [drawn.value];
        k := k + 1;
      }
      if |old(algorithms)| >= 2 {
        AllSettle(old(algorithms), algorithms, requests, draws, yielded);
      } else {
        NothingToDraw(old(algorithms), algorithms, requests, draws, yielded);
      }
    }
  }

  /** Draws keep the account of what was yielded, refilled and is left. */
  lemma {:induction false} DrawnByAccount(
      names: set<string>, start: seq<Entry>, es: seq<Entry>, requests: Requests, draws: nat -> real,
      yielded: seq<string>) returns (refills: map<string, nat>)
    requires DrawnBy(start, es, requests, draws, yielded)
    requires Account(names, [], start, requests, map x | x in names :: 0, |start|)
    ensures Account(names, yielded, es, requests, refills, |start|)
    decreases |yielded|
  {
    if yielded == [] {
      refills := map x | x in names :: 0;
    } else {
      var front, n := yielded[..|yielded| - 1], |yielded| - 1;
      var before := LastDraw(start, es, requests, draws, yielded);
      var prior := DrawnByAccount(names, start, before, requests, draws, front);
      assert yielded == front + [yielded[n]];
      refills := OneMoreDrawn(names, yielded, front, before, es, requests, prior, |start|, draws(n), yielded[n]);
    }
  }

  lemma OneMoreDrawn(
      names: set<string>, yielded: seq<string>, front: seq<string>, es: seq<Entry>, rs: seq<Entry>,
      requests: Requests, refills: map<string, nat>, n: nat, x: real, name: string) returns (next: map<string, nat>)
    requires Account(names, front, es, requests, refills, n) && Drawn(es, rs, requests, x, name)
    requires yielded == front + [name]
    ensures Account(names, yielded, rs, requests, next, n)
  {
    DrawnIsFrom(es, rs, requests, x, name);
    next := DrawKeepsAccount(names, front, es, rs, requests, refills, n, name);
  }

  lemma DrawnIsFrom(es: seq<Entry>, rs: seq<Entry>, requests: Requests, x: real, name: string)
    requires Drawn(es, rs, requests, x, name)
    ensures DrawnFrom(es, rs, requests, name)
  {
    var k: nat :| FirstHolding(es, x, k) &&
      if es[k].allocations > 0 then GivesAt(es, rs, name, k) else DrawnBehind(es, rs, requests, x, name, k);
    if es[k].allocations == 0 {
      var ls, i: nat :| LeavesBehind(es, k, requests, ls) && FirstHolding(ls, x, i) && GivesAt(ls, rs, name, i);
      EmptyDrawLeavesOthers(es, k);
      LeftLeavesBehind(es, k, requests);
      LeftBehindOnce(es, k, requests, ls, Left(es, k, requests));
      assert LeavesThenGives(es, rs, requests, name, k);
    }
  }

  /** When all is drawn every algorithm is settled, and nothing else was drawn. */
  lemma AllSettle(
      start: seq<Entry>, es: seq<Entry>, requests: Requests, draws: nat -> real, yielded: seq<string>)
    requires DrawnBy(start, es, requests, draws, yielded) && |start| >= 2
    requires NamesOk(start, requests) && Full(start, requests)
    requires SumAllocations(es) == 0
    ensures forall e :: e in start ==> SettledFor(yielded, requests, |start|, e.name)
    ensures forall y :: y in yielded ==> exists e :: e in start && e.name == y
  {
    var names := set e | e in start :: e.name;
    StartsAccounted(names, start, requests, map x | x in names :: 0);
    var refills := DrawnByAccount(names, start, es, requests, draws, yielded);
    forall e | e in start ensures SettledFor(yielded, requests, |start|, e.name) {
      AccountSettles(names, yielded, es, requests, refills, |start|, e.name);
    }
  }

  /** Without entries nothing is drawn. */
  lemma NothingToDraw(
      start: seq<Entry>, es: seq<Entry>, requests: Requests, draws: nat -> real, yielded: seq<string>)
    requires DrawnBy(start, es, requests, draws, yielded) && start == []
    ensures yielded == [] && es == []
  {
    if yielded != [] {
      FirstDraw(start, es, requests, draws, yielded);
    }
  }

  /** The first number was drawn from the start. */
  lemma {:induction false} FirstDraw(
      start: seq<Entry>, es: seq<Entry>, requests: Requests, draws: nat -> real, yielded: seq<string>)
    requires DrawnBy(start, es, requests, draws, yielded) && yielded != []
    ensures exists rs :: Drawn(start, rs, requests, draws(0), yielded[0])
    decreases |yielded|
  {
    var n := |yielded| - 1;
    var before := LastDraw(start, es, requests, draws, yielded);
    if n > 0 {
      FirstDraw(start, before, requests, draws, yielded[..n]);
      assert yielded[..n][0] == yielded[0];
    } else {
      assert Drawn(start, es, requests, draws(0), yielded[0]);
    }
  }

  lemma StartsAccounted(names: set<string>, es: seq<Entry>, requests: Requests, refills: map<string, nat>)
    requires DistinctNames(es) && names == (set e | e in es :: e.name) && Full(es, requests)
    requires refills == map x | x in names :: 0
    ensures |es| >= 2 ==> Account(names, [], es, requests, refills, |es|)
  {
    if |es| >= 2 {
      forall x | x in names ensures Accounted([], es, requests, refills, |es|, x) {
        var e :| e in es && e.name == x;
        var i :| 0 <= i < |es| && es[i] == e;
        RemainingAt(es, i);
      }
    }
  }

  lemma AllocatedPositive(es: seq<Entry>)
    requires es != []
    ensures es[0].allocations > 0 ==> SumAllocations(es) > 0
  {
    AllocationsAt(es, 0, |es|);
  }

  /**
   * The caller's loop: build the allocator, draw until it is done. For every sequence of draws it ends.
   * It throws exactly for a single algorithm or when no algorithm has any run time; otherwise each
   * algorithm is drawn as often as it asked or a whole multiple of that, n - 1 times at most.
   */
  method DrawAll(algorithms: seq<Algorithm>, requests: Requests, draws: nat -> real)
    returns (yielded: seq<string>, threw: bool)
    requires NamesOk(InitialAll(algorithms), requests) && forall a :: a in algorithms ==> a.value >= 0.0
    requires forall k :: 0.0 <= draws(k) <= 1.0
    ensures threw <==> |algorithms| == 1 || (|algorithms| >= 2 && Total(algorithms) == 0.0)
    ensures !threw ==> exists start, es ::
              && StartsFrom(algorithms, requests, start)
              && DrawnBy(start, es, requests, draws, yielded) && SumAllocations(es) == 0
    ensures !threw ==> forall i :: 0 <= i < |algorithms| ==>
              var asked, got := Asked(requests, algorithms[i].name), multiset(yielded)[algorithms[i].name];
              && SettledFor(yielded, requests, |algorithms|, algorithms[i].name)
              && asked <= got <= (|algorithms| - 1) * asked && (|algorithms| == 2 ==> got == asked)
    ensures !threw ==> forall y :: y in yielded ==> exists i :: 0 <= i < |algorithms| && algorithms[i].name == y
  {
    var ratios := new AlgorithmRatios(algorithms, requests);
    ghost var es := ratios.algorithms;
    yielded, threw := ratios.GenerateRandom(draws);
    if !threw {
      assert StartsFrom(algorithms, requests, es) && DrawnBy(es, ratios.algorithms, requests, draws, yielded);
      EachAlgorithmSettled(algorithms, es, requests, yielded);
    }
  }

  lemma EachAlgorithmSettled(
      algorithms: seq<Algorithm>, es: seq<Entry>, requests: Requests, yielded: seq<string>)
    requires |es| == |algorithms| && |es| != 1 && forall i :: 0 <= i < |es| ==> es[i].name == algorithms[i].name
    requires forall e :: e in es ==> SettledFor(yielded, requests, |es|, e.name)
    requires forall y :: y in yielded ==> exists e :: e in es && e.name == y
    ensures forall i :: 0 <= i < |algorithms| ==>
              var asked, got := Asked(requests, algorithms[i].name), multiset(yielded)[algorithms[i].name];
              && SettledFor(yielded, requests, |algorithms|, algorithms[i].name)
              && asked <= got <= (|algorithms| - 1) * asked && (|algorithms| == 2 ==> got == asked)
    ensures forall y :: y in yielded ==> exists i :: 0 <= i < |algorithms| && algorithms[i].name == y
  {
    forall i | 0 <= i < |algorithms|
      ensures SettledFor(yielded, requests, |algorithms|, algorithms[i].name)
      ensures var asked, got := Asked(requests, algorithms[i].name), multiset(yielded)[algorithms[i].name];
              asked <= got <= (|algorithms| - 1) * asked && (|algorithms| == 2 ==> got == asked)
    {
      assert es[i] in es;
      SettledBounds(yielded, requests, |algorithms|, algorithms[i].name);
    }
    forall y | y in yielded ensures exists i :: 0 <= i < |algorithms| && algorithms[i].name == y {
      var e :| e in es && e.name == y;
      var i :| 0 <= i < |es| && es[i] == e;
      assert algorithms[i].name == y;
    }
  }
}
