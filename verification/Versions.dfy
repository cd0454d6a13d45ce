/** Algorithm versions and the semantic versions they are numbered with. */
module Versions {

  /** A stored semver: absent, a text that is no semver, or three numbers. */
  datatype Semver = Missing | Text(text: string) | Num(major: nat, minor: nat, patch: nat)

  datatype Version = Version(version: string, semver: Semver, buildId: string, created: int, name: string)

  const MAX_PATCH := 500
  const MAX_MINOR := 500
  const MAX_MAJOR := 500
  const FIRST := Num(1, 0, 0)

  function IncSemver(latest: Semver): Semver {
    match latest
    case Missing => FIRST
    case Text(s) => if s == "" then FIRST else latest
    case Num(major, minor, patch) =>
      if patch < MAX_PATCH then Num(major, minor, patch + 1)
      else if minor < MAX_MINOR then Num(major, minor + 1, 0)
      else if major < MAX_MAJOR then Num(major + 1, 0, 0)
      else Missing
  }

  /** No semver, or an empty one, is followed by the first; a text that is no semver is kept. */
  lemma IncOfNone(text: string)
    ensures IncSemver(Missing) == Num(1, 0, 0) && IncSemver(Text("")) == Num(1, 0, 0)
    ensures text != "" ==> IncSemver(Text(text)) == Text(text)
  {
  }

  // ---------------------------------------------------------------- the stored versions, newest first

  function LatestSemver(versions: seq<Version>, name: string): Semver {
    if versions == [] then Missing
    else if versions[0].name == name then versions[0].semver
    else LatestSemver(versions[1..], name)
  }

  /** A request to create a version, with the uid and the time it gets. */
  datatype Creation = Creation(name: string, version: string, buildId: string, now: int)

  function Created(versions: seq<Version>, c: Creation): seq<Version> {
    [Version(c.version, IncSemver(LatestSemver(versions, c.name)), c.buildId, c.now, c.name)] + versions
  }

  function CreatedAll(versions: seq<Version>, cs: seq<Creation>): seq<Version>
    decreases |cs|
  {
    if cs == [] then versions else CreatedAll(Created(versions, cs[0]), cs[1..])
  }

  class AlgorithmVersions {
    var versions: seq<Version>

    constructor ()
      ensures versions == []
    {
      versions := [];
    }

    method CreateVersion(c: Creation) returns (version: string)
      modifies this
      ensures version == c.version && versions == Created(old(versions), c)
      ensures |versions| == |old(versions)| + 1 && versions[1..] == old(versions)
      ensures var v := versions[0];
              v.name == c.name && v.version == c.version && v.buildId == c.buildId && v.created == c.now
    {
      var latest := GetLatestSemver(c.name);
      var semver := IncSemver(latest);
      versions := [Version(c.version, semver, c.buildId, c.now, c.name)] + versions;
      version := c.version;
    }

    method GetLatestSemver(name: string) returns (semver: Semver)
      ensures semver == LatestSemver(versions, name)
    {
      assert versions[0..] == versions;
      for i := 0 to |versions|
        invariant LatestSemver(versions[i..], name) == LatestSemver(versions, name)
      {
        assert versions[i..][0] == versions[i] && versions[i..][1..] == versions[i + 1..];
        if versions[i].name == name {
          return versions[i].semver;
        }
      }
      semver := Missing;
    }

    /** The serial queue: requests are done one after the other, in the order they came. */
    method CreateVersions(cs: seq<Creation>)
      modifies this
      ensures versions == CreatedAll(old(versions), cs)
    {
      assert cs[0..] == cs;
      for i := 0 to |cs|
        invariant CreatedAll(versions, cs[i..]) == CreatedAll(old(versions), cs)
      {
        assert cs[i..][0] == cs[i] && cs[i..][1..] == cs[i + 1..];
        var version := CreateVersion(cs[i]);
      }
    }
  }

  // ---------------------------------------------------------------- the odometer

  const BASE := 501

  /** How many semvers there are from the first to the last. */
  const ROUND := 500 * BASE * BASE

  predicate Digits(s: Semver) {
    s.Num? && s.major < BASE && s.minor < BASE && s.patch < BASE
  }

  function Value(s: Semver): int
    requires s.Num?
  {
    (s.major * BASE + s.minor) * BASE + s.patch
  }

  /** Precedence by major, then minor, then patch. */
  predicate Precedes(a: Semver, b: Semver)
    requires a.Num? && b.Num?
  {
    a.major < b.major || (a.major == b.major && (a.minor < b.minor || (a.minor == b.minor && a.patch < b.patch)))
  }

  /** Incrementing counts up by one; the last semver is followed by none. */
  lemma IncCounts(s: Semver)
    requires Digits(s)
    ensures Value(s) == BASE * BASE * BASE - 1 <==> IncSemver(s) == Missing
    ensures IncSemver(s) != Missing ==> Digits(IncSemver(s)) && Value(IncSemver(s)) == Value(s) + 1
  {
  }

  /** A semver with small digits precedes another exactly when its value is less. */
  lemma PrecedesByValue(a: Semver, b: Semver)
    requires Digits(a) && Digits(b)
    ensures Precedes(a, b) <==> Value(a) < Value(b)
    ensures a == b <==> Value(a) == Value(b)
  {
  }

  /** The `n`-th semver of an algorithm, from 0: a round of `ROUND` semvers, one creation without, and over. */
  predicate IsNth(s: Semver, n: nat) {
    var k := n % (ROUND + 1);
    if k == ROUND then s == Missing else Digits(s) && Value(s) == BASE * BASE + k
  }

  lemma NextInRound(n: nat)
    ensures (n + 1) % (ROUND + 1) == if n % (ROUND + 1) == ROUND then 0 else n % (ROUND + 1) + 1
  {
  }

  lemma IncIsNext(s: Semver, n: nat)
    requires IsNth(s, n)
    ensures IsNth(IncSemver(s), n + 1)
  {
    NextInRound(n);
    if s != Missing {
      IncCounts(s);
    }
  }

  // ---------------------------------------------------------------- runs

  /** The semvers of an algorithm, oldest first. */
  function SemversOf(versions: seq<Version>, name: string): seq<Semver> {
    if versions == [] then []
    else SemversOf(versions[1..], name) + if versions[0].name == name then [versions[0].semver] else []
  }

  ghost predicate Numbered(versions: seq<Version>, name: string) {
    forall n :: 0 <= n < |SemversOf(versions, name)| ==> IsNth(SemversOf(versions, name)[n], n)
  }

  lemma {:induction false} LatestIsLast(versions: seq<Version>, name: string)
    ensures LatestSemver(versions, name) ==
            var ss := SemversOf(versions, name); if ss == [] then Missing else ss[|ss| - 1]
  {
    if versions != [] {
      LatestIsLast(versions[1..], name);
    }
  }

  lemma CreatedNumbered(versions: seq<Version>, c: Creation, name: string)
    requires Numbered(versions, name)
    ensures Numbered(Created(versions, c), name)
  {
    LatestIsLast(versions, c.name);
    var ss, next := SemversOf(versions, name), Created(versions, c);
    assert next[1..] == versions;
    if c.name == name && ss != [] {
      assert IsNth(ss[|ss| - 1], |ss| - 1);
      IncIsNext(ss[|ss| - 1], |ss| - 1);
    }
  }

  /** In every run of creations, whatever algorithms they are for, each algorithm's semvers count up from the first. */
  lemma {:induction false} SemversCountUp(versions: seq<Version>, cs: seq<Creation>, name: string)
    requires Numbered(versions, name)
    ensures Numbered(CreatedAll(versions, cs), name)
    decreases |cs|
  {
    if cs != [] {
      CreatedNumbered(versions, cs[0], name);
      SemversCountUp(Created(versions, cs[0]), cs[1..], name);
    }
  }

  lemma NthInFirstRound(s: Semver, n: nat)
    requires IsNth(s, n) && n < ROUND
    ensures Digits(s) && Value(s) == BASE * BASE + n
  {
    assert n % (ROUND + 1) == n;
  }

  lemma NthIncrease(a: Semver, b: Semver, i: nat, j: nat)
    requires IsNth(a, i) && IsNth(b, j) && i < j < ROUND
    ensures Digits(a) && Digits(b) && Precedes(a, b) && a != b
  {
    NthInFirstRound(a, i);
    NthInFirstRound(b, j);
    PrecedesByValue(a, b);
  }

  /** The first `ROUND` semvers of an algorithm are strictly increasing, so all different. */
  lemma SemversIncrease(cs: seq<Creation>, name: string, i: nat, j: nat)
    requires i < j < |SemversOf(CreatedAll([], cs), name)| && j < ROUND
    ensures var ss := SemversOf(CreatedAll([], cs), name);
            ss[i].Num? && ss[j].Num? && Precedes(ss[i], ss[j]) && ss[i] != ss[j]
  {
    SemversCountUp([], cs, name);
    var ss := SemversOf(CreatedAll([], cs), name);
    NthIncrease(ss[i], ss[j], i, j);
  }

  lemma NthEnds(s: Semver, n: nat)
    requires IsNth(s, n)
    ensures s == Missing <==> n % (ROUND + 1) == ROUND
    ensures s == FIRST <==> n % (ROUND + 1) == 0
  {
    if s != Missing {
      PrecedesByValue(s, FIRST);
    }
  }

  /** The creation after the last semver stores none, and the one after that starts again: both hold exactly there. */
  lemma SemversRunOut(cs: seq<Creation>, name: string, n: nat)
    requires n < |SemversOf(CreatedAll([], cs), name)|
    ensures SemversOf(CreatedAll([], cs), name)[n] == Missing <==> n % (ROUND + 1) == ROUND
    ensures SemversOf(CreatedAll([], cs), name)[n] == FIRST <==> n % (ROUND + 1) == 0
  {
    SemversCountUp([], cs, name);
    NthEnds(SemversOf(CreatedAll([], cs), name)[n], n);
  }
}
