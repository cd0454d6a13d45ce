/** The text operations behind the streaming-flow parser: stripping white space, splitting, joining. */
module FlowText {
  import opened Sequences

  /** The characters that `\s` stands for in a JavaScript regular expression. */
  predicate IsSpace(c: char) {
    c == ' ' || c == '\t' || c == '\n' || c == '\r' || c == '\U{000b}' || c == '\U{000c}' || c == '\U{00a0}'
    || c == '\U{1680}' || '\U{2000}' <= c <= '\U{200a}' || c == '\U{2028}' || c == '\U{2029}'
    || c == '\U{202f}' || c == '\U{205f}' || c == '\U{3000}' || c == '\U{feff}'
  }

  function Strip(s: string): string {
    if s == [] then []
    else (if IsSpace(s[0]) then [] else [s[0]]) + Strip(s[1..])
  }

  /** `s.split(c)` for a single character. */
  function SplitChar(s: string, c: char): (r: seq<string>)
    ensures |r| >= 1
  {
    if s == [] then [[]]
    else
      var r := SplitChar(s[1..], c);
      if s[0] == c then [[]] + r else [[s[0]] + r[0]] + r[1..]
  }

  const ARROW := ">>"

  /** `s.split('>>')`, taking separators from the left. */
  function SplitArrow(s: string): (r: seq<string>)
    ensures |r| >= 1
  {
    if |s| >= 2 && s[0] == '>' && s[1] == '>' then [[]] + SplitArrow(s[2..])
    else if s == [] then [[]]
    else
      var r := SplitArrow(s[1..]);
      [[s[0]] + r[0]] + r[1..]
  }

  /** The parts hold only characters of the text, and not the separator. */
  lemma {:induction false} SplitCharMembers(s: string, c: char, i: nat, x: char)
    requires i < |SplitChar(s, c)| && x in SplitChar(s, c)[i]
    ensures x in s && x != c
  {
    if s != [] {
      var r := SplitChar(s[1..], c);
      var k := if s[0] == c then i - 1 else i;
      if k >= 0 && x in r[k] {
        SplitCharMembers(s[1..], c, k, x);
        assert forall y :: y in s[1..] ==> y in s;
      } else {
        assert x == s[0];
      }
    }
  }

  lemma {:induction false} SplitArrowMembers(s: string, i: nat, x: char)
    requires i < |SplitArrow(s)| && x in SplitArrow(s)[i]
    ensures x in s
  {
    if |s| >= 2 && s[0] == '>' && s[1] == '>' {
      SplitArrowMembers(s[2..], i - 1, x);
      assert forall y :: y in s[2..] ==> y in s;
    } else if s != [] {
      if x in SplitArrow(s[1..])[i] {
        SplitArrowMembers(s[1..], i, x);
        assert forall y :: y in s[1..] ==> y in s;
      } else {
        assert x == s[0];
      }
    }
  }

  lemma {:induction false} StripMembers(s: string, c: char)
    requires c in Strip(s)
    ensures c in s && !IsSpace(c)
  {
    if c in Strip(s[1..]) {
      StripMembers(s[1..], c);
      assert forall y :: y in s[1..] ==> y in s;
    } else {
      assert c == s[0];
    }
  }

  function Join(parts: seq<string>, sep: string): string {
    if parts == [] then []
    else if |parts| == 1 then parts[0]
    else parts[0] + sep + Join(parts[1..], sep)
  }

  // ---------------------------------------------------------------- stripping

  lemma {:induction false} StripAppend(a: string, b: string)
    ensures Strip(a + b) == Strip(a) + Strip(b)
  {
    if a == [] {
      assert a + b == b;
    } else {
      StripAppend(a[1..], b);
      assert (a + b)[1..] == a[1..] + b && (a + b)[0] == a[0];
      Associative(if IsSpace(a[0]) then [] else [a[0]], Strip(a[1..]), Strip(b));
    }
  }

  lemma {:induction false} StripClean(s: string)
    requires forall c :: c in s ==> !IsSpace(c)
    ensures Strip(s) == s
  {
    if s != [] {
      assert s[0] in s;
      assert forall c :: c in s[1..] ==> c in s;
      StripClean(s[1..]);
      assert s == [s[0]] + s[1..];
    }
  }

  /** Stripping a join strips its parts and its separator. */
  lemma {:induction false} StripJoin(parts: seq<string>, stripped: seq<string>, sep: string)
    requires |stripped| == |parts| && forall i :: 0 <= i < |parts| ==> stripped[i] == Strip(parts[i])
    ensures Strip(Join(parts, sep)) == Join(stripped, Strip(sep))
  {
    if |parts| > 1 {
      StripJoin(parts[1..], stripped[1..], sep);
      StripAppend(parts[0] + sep, Join(parts[1..], sep));
      StripAppend(parts[0], sep);
    }
  }

  // ---------------------------------------------------------------- splitting what was joined

  lemma {:induction false} SplitCharPlain(s: string, c: char)
    requires c !in s
    ensures SplitChar(s, c) == [s]
  {
    if s != [] {
      assert s[0] in s;
      assert forall x :: x in s[1..] ==> x in s;
      SplitCharPlain(s[1..], c);
      assert s == [s[0]] + s[1..];
    }
  }

  lemma {:induction false} SplitCharAfter(a: string, c: char, b: string)
    requires c !in a
    ensures SplitChar(a + [c] + b, c) == [a] + SplitChar(b, c)
  {
    var s := a + [c] + b;
    if a == [] {
      assert s[1..] == b;
    } else {
      assert a[0] in a;
      assert forall x :: x in a[1..] ==> x in a;
      SplitCharAfter(a[1..], c, b);
      assert s[1..] == a[1..] + [c] + b;
      assert a == [a[0]] + a[1..];
    }
  }

  /** Parts without the separator come back from their join. */
  lemma {:induction false} SplitJoin(parts: seq<string>, c: char)
    requires parts != [] && forall p :: p in parts ==> c !in p
    ensures SplitChar(Join(parts, [c]), c) == parts
  {
    assert parts[0] in parts;
    if |parts| == 1 {
      SplitCharPlain(parts[0], c);
    } else {
      assert forall p :: p in parts[1..] ==> p in parts;
      SplitJoin(parts[1..], c);
      SplitCharAfter(parts[0], c, Join(parts[1..], [c]));
    }
  }
}
