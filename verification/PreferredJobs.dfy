/** Moving jobs into the preferred queue: the requests that are accepted and where the moved jobs end up. */
module PreferredJobs {
  import opened Wrappers
  import opened Sequences
  import opened DriverJobs
  import opened DriverQueue
  import opened DispatchModel

  datatype Position = FIRST | LAST | BEFORE | AFTER

  /** The query as it comes with the request. */
  datatype RawQuery = RawQuery(jobId: Option<string>, pipelineName: Option<string>, tag: Option<string>)

  datatype RequestError = NoQueryNeeded | QueryMissing | TooManyFields | NoFields | NoneInGeneralQueue

  function Fields(q: RawQuery): nat {
    (if q.jobId.Some? then 1 else 0) + (if q.pipelineName.Some? then 1 else 0) + (if q.tag.Some? then 1 else 0)
  }

  function TheQuery(q: RawQuery): Query
    requires Fields(q) == 1
  {
    if q.jobId.Some? then ByJobId(q.jobId.value)
    else if q.pipelineName.Some? then ByPipeline(q.pipelineName.value)
    else ByTag(q.tag.value)
  }

  /** The query is the one field that is there. */
  predicate AsksFor(raw: RawQuery, query: Query) {
    match query
    case ByJobId(id) => raw == RawQuery(Some(id), None, None)
    case ByPipeline(name) => raw == RawQuery(None, Some(name), None)
    case ByTag(tag) => raw == RawQuery(None, None, Some(tag))
  }

  function ValidatePreferenceRequest(position: Position, query: Option<RawQuery>): (r: Result<Place, RequestError>)
    ensures r.Ok? <==> if position.FIRST? || position.LAST? then query.None?
                       else query.Some? && Fields(query.value) == 1
    ensures position.FIRST? || position.LAST? ==>
              r == if query.Some? then Err(NoQueryNeeded) else Ok(if position.FIRST? then AtFirst else AtLast)
    ensures !position.FIRST? && !position.LAST? && query.None? ==> r == Err(QueryMissing)
    ensures !position.FIRST? && !position.LAST? && query.Some? && r.Err? ==>
              r.error == if Fields(query.value) == 0 then NoFields else TooManyFields
    ensures position.BEFORE? && r.Ok? ==> r.value.Before? && AsksFor(query.value, r.value.query)
    ensures position.AFTER? && r.Ok? ==> r.value.After? && AsksFor(query.value, r.value.query)
  {
    if position.FIRST? || position.LAST? then
      if query.Some? then Err(NoQueryNeeded)
      else Ok(if position.FIRST? then AtFirst else AtLast)
    else if query.None? then Err(QueryMissing)
    else if Fields(query.value) > 1 then Err(TooManyFields)
    else if Fields(query.value) == 0 then Err(NoFields)
    else
      var q := TheQuery(query.value);
      Ok(if position.BEFORE? then Before(q) else After(q))
  }

  // ---------------------------------------------------------------- the block that moves

  function Preferred(j: Job): Job { j.(score := 1.0) }

  /** The jobs a request moves, in the order they end up in; ids are taken last first. */
  function Block(main: seq<Job>, ids: seq<string>): seq<Job>
    decreases |ids|
  {
    if ids == [] then []
    else
      var id := ids[|ids| - 1];
      Block(Without(main, id), ids[..|ids| - 1]) +
      match FindJob(main, id)
      case None => []
      case Some(j) => [Preferred(j)]
  }

  function WithoutAll(main: seq<Job>, ids: seq<string>): seq<Job>
    decreases |ids|
  {
    if ids == [] then main else WithoutAll(Without(main, ids[|ids| - 1]), ids[..|ids| - 1])
  }

  lemma {:induction false} WithoutUnknown(q: seq<Job>, id: string)
    requires FindJob(q, id).None?
    ensures Without(q, id) == q
  {
    if q != [] {
      assert q[0].jobId != id;
      WithoutUnknown(q[1..], id);
      assert q == [q[0]] + q[1..];
    }
  }

  lemma SpliceSplice(p: seq<Job>, i: nat, x: seq<Job>, y: Job)
    requires i <= |p|
    ensures var one := p[..i] + [y] + p[i..];
            one[..i] + x + one[i..] == p[..i] + (x + [y]) + p[i..]
  {
    var one := p[..i] + [y] + p[i..];
    assert one[..i] == p[..i] && one[i..] == [y] + p[i..];
  }

  /** Splicing the jobs in one by one, last first, puts them in as one block at the index. */
  lemma {:induction false} PreferPutsOneBlock(s: State, ids: seq<string>, i: nat)
    requires i <= |s.preferred|
    ensures PreferEach(s, ids, i) ==
            s.(preferred := s.preferred[..i] + Block(s.main, ids) + s.preferred[i..],
               main := WithoutAll(s.main, ids))
    decreases |ids|
  {
    if ids == [] {
      assert s.preferred[..i] + [] + s.preferred[i..] == s.preferred;
    } else {
      var id, front := ids[|ids| - 1], ids[..|ids| - 1];
      PreferPutsOneBlock(PreferOne(s, id, i), front, i);
      match FindJob(s.main, id)
      case None =>
        WithoutUnknown(s.main, id);
        assert Block(s.main, front) + [] == Block(s.main, front);
      case Some(j) =>
        SpliceSplice(s.preferred, i, Block(Without(s.main, id), front), Preferred(j));
    }
  }

  /** The requested jobs found in main, in request order. */
  function InRequestOrder(main: seq<Job>, ids: seq<string>): seq<Job> {
    if ids == [] then []
    else
      InRequestOrder(main, ids[..|ids| - 1]) +
      match FindJob(main, ids[|ids| - 1])
      case None => []
      case Some(j) => [Preferred(j)]
  }

  /** The job of main with the id, its score set to 1. */
  ghost predicate IsMoved(main: seq<Job>, id: string, r: Job) {
    exists j :: j in main && j.jobId == id && r == j.(score := 1.0)
  }

  /** One moved job for each of the ids at the positions `at`. */
  ghost predicate MovedAt(main: seq<Job>, ids: seq<string>, at: seq<nat>, r: seq<Job>) {
    Increasing(at, |ids|) && |r| == |at| && forall k :: 0 <= k < |at| ==> IsMoved(main, ids[at[k]], r[k])
  }

  lemma MovedBefore(main: seq<Job>, ids: seq<string>, at: seq<nat>, r: seq<Job>)
    requires ids != [] && MovedAt(main, ids[..|ids| - 1], at, r)
    ensures MovedAt(main, ids, at, r)
  {
    forall k | 0 <= k < |at| ensures IsMoved(main, ids[at[k]], r[k]) {
      assert ids[..|ids| - 1][at[k]] == ids[at[k]];
    }
  }

  lemma MovedLast(main: seq<Job>, ids: seq<string>, at: seq<nat>, r: seq<Job>, last: Job)
    requires ids != [] && MovedAt(main, ids[..|ids| - 1], at, r) && IsMoved(main, ids[|ids| - 1], last)
    ensures MovedAt(main, ids, at + [|ids| - 1], r + [last])
  {
    MovedBefore(main, ids, at, r);
  }

  /** The positions whose ids main holds. */
  ghost predicate Held(main: seq<Job>, ids: seq<string>, at: seq<nat>) {
    forall i: nat :: i < |ids| ==> (i in at <==> HasId(main, ids[i]))
  }

  lemma HeldLast(main: seq<Job>, ids: seq<string>, at: seq<nat>)
    requires ids != [] && Increasing(at, |ids| - 1) && Held(main, ids[..|ids| - 1], at)
    ensures Held(main, ids, if HasId(main, ids[|ids| - 1]) then at + [|ids| - 1] else at)
  {
    var n := |ids| - 1;
    forall i: nat | i < n ensures i in at <==> HasId(main, ids[i]) {
      assert ids[..n][i] == ids[i];
    }
  }

  /** The same by position: each requested id that main holds, in request order. */
  lemma {:induction false} RequestOrderIs(main: seq<Job>, ids: seq<string>) returns (at: seq<nat>)
    ensures MovedAt(main, ids, at, InRequestOrder(main, ids)) && Held(main, ids, at)
  {
    if ids == [] {
      at := [];
    } else {
      var n := |ids| - 1;
      at := RequestOrderIs(main, ids[..n]);
      var before := InRequestOrder(main, ids[..n]);
      HeldLast(main, ids, at);
      match FindJob(main, ids[n]) {
        case None =>
          MovedBefore(main, ids, at, before);
          assert before + [] == before;
        case Some(j) =>
          MovedLast(main, ids, at, before, Preferred(j));
          at := at + [n];
      }
    }
  }

  lemma {:induction false} FindAfterWithout(main: seq<Job>, id: string, other: string)
    requires other != id
    ensures FindJob(Without(main, other), id) == FindJob(main, id)
  {
    if main != [] {
      var rest := Without(main[1..], other);
      FindAfterWithout(main[1..], id, other);
      if main[0].jobId == other {
        assert Without(main, other) == rest;
      } else {
        assert Without(main, other) == [main[0]] + rest;
        FindCons(main[0], rest, id);
      }
    }
  }

  lemma FindCons(j: Job, rest: seq<Job>, id: string)
    ensures FindJob([j] + rest, id) == if j.jobId == id then Some(j) else FindJob(rest, id)
  {
    assert ([j] + rest)[1..] == rest;
  }

  lemma {:induction false} InRequestOrderWithout(main: seq<Job>, ids: seq<string>, other: string)
    requires other !in ids
    ensures InRequestOrder(Without(main, other), ids) == InRequestOrder(main, ids)
  {
    if ids != [] {
      InRequestOrderWithout(main, ids[..|ids| - 1], other);
      assert ids[|ids| - 1] in ids;
      FindAfterWithout(main, ids[|ids| - 1], other);
    }
  }

  /** For distinct ids the block is the requested jobs found in main, in request order, with score 1. */
  lemma {:induction false} BlockInRequestOrder(main: seq<Job>, ids: seq<string>)
    requires Distinct(ids)
    ensures Block(main, ids) == InRequestOrder(main, ids)
    decreases |ids|
  {
    if ids != [] {
      var id, front := ids[|ids| - 1], ids[..|ids| - 1];
      assert id !in front;
      BlockInRequestOrder(Without(main, id), front);
      InRequestOrderWithout(main, front, id);
    }
  }

  lemma {:induction false} WithoutAllMembers(main: seq<Job>, ids: seq<string>)
    ensures forall j :: j in WithoutAll(main, ids) <==> j in main && j.jobId !in ids
    decreases |ids|
  {
    if ids != [] {
      var id, front := ids[|ids| - 1], ids[..|ids| - 1];
      WithoutAllMembers(Without(main, id), front);
      assert ids == front + [id];
    }
  }

  /** What a query asks for: a job id, a pipeline name or a tag; an empty text asks for nothing. */
  ghost predicate IsAskedFor(query: Query, j: Job) {
    || (query.ByJobId? && query.id == j.jobId && |query.id| > 0)
    || (query.ByPipeline? && query.name == j.pipelineName && |query.name| > 0)
    || (query.ByTag? && (exists i :: 0 <= i < |j.tags| && j.tags[i] == query.tag) && |query.tag| > 0)
  }

  lemma MatchesIff(query: Query, j: Job)
    ensures Matches(query, j) <==> IsAskedFor(query, j)
  {
  }

  /**
   * Where the block goes: to the head for FIRST, to the end for LAST, right after the last job asked for with AFTER,
   * right before the first with BEFORE, and to the head if there is none.
   */
  ghost predicate RightPlace(q: seq<Job>, place: Place, i: nat)
    requires i <= |q|
  {
    match place
    case AtFirst => i == 0
    case AtLast => i == |q|
    case After(query) =>
      && (forall k :: i <= k < |q| ==> !IsAskedFor(query, q[k]))
      && (i > 0 ==> IsAskedFor(query, q[i - 1]))
    case Before(query) =>
      && (forall k :: 0 <= k < i ==> !IsAskedFor(query, q[k]))
      && (if i < |q| && i > 0 then IsAskedFor(query, q[i])
          else i == 0 && (q == [] || IsAskedFor(query, q[0]) || forall k :: 0 <= k < |q| ==> !IsAskedFor(query, q[k])))
  }

  lemma IndexIsRight(q: seq<Job>, place: Place)
    ensures RightPlace(q, place, GetIndex(q, place))
  {
    match place
    case AtFirst =>
    case AtLast =>
    case After(query) =>
      forall j ensures Matches(query, j) <==> IsAskedFor(query, j) { MatchesIff(query, j); }
    case Before(query) =>
      forall j ensures Matches(query, j) <==> IsAskedFor(query, j) { MatchesIff(query, j); }
  }

  /** A request with distinct ids: the block stands in its place, and main keeps exactly the other jobs. */
  lemma PreferPlacesBlock(s: State, ids: seq<string>, place: Place)
    requires Distinct(ids)
    ensures var i, t := GetIndex(s.preferred, place), Prefer(s, ids, place);
            && RightPlace(s.preferred, place, i)
            && t.preferred == s.preferred[..i] + InRequestOrder(s.main, ids) + s.preferred[i..]
            && (forall j :: j in t.main <==> j in s.main && j.jobId !in ids)
  {
    var i := GetIndex(s.preferred, place);
    IndexIsRight(s.preferred, place);
    PreferPutsOneBlock(s, ids, i);
    BlockInRequestOrder(s.main, ids);
    WithoutAllMembers(s.main, ids);
  }

  /** Nothing is moved exactly when no requested id is in main; the request is then refused. */
  lemma {:induction false} BlockEmptyIff(main: seq<Job>, ids: seq<string>)
    ensures Block(main, ids) == [] <==> forall id :: id in ids ==> FindJob(main, id).None?
    decreases |ids|
  {
    if ids != [] {
      var id, front := ids[|ids| - 1], ids[..|ids| - 1];
      assert ids == front + [id];
      if FindJob(main, id).None? {
        WithoutUnknown(main, id);
        BlockEmptyIff(main, front);
      } else {
        assert id in ids;
      }
    }
  }
}
