/** Version strings: parsing "X.Y.Z", the order on them, and that rendering and parsing agree. */
module Versions {
  import opened Basics

  datatype Triple = Triple(major: int, minor: int, patch: int)

  // ---- numbers

  predicate IsDigit(c: char) { '0' <= c <= '9' }

  predicate AllDigits(s: string) {
    forall i :: 0 <= i < |s| ==> IsDigit(s[i])
  }

  /** The value of a string of digits. */
  function ValueOf(s: string): nat
    requires AllDigits(s)
  {
    if s == "" then 0 else 10 * ValueOf(s[..|s| - 1]) + (s[|s| - 1] as int - '0' as int)
  }

  predicate InInt64(n: int) { -MAX_INT64 - 1 <= n <= MAX_INT64 }

  /** strconv.Atoi on a 64-bit platform: an optional sign, digits only, no overflow. */
  function Atoi(s: string): Option<int> {
    var negative := s != "" && s[0] == '-';
    var digits := if s != "" && (s[0] == '-' || s[0] == '+') then s[1..] else s;
    if digits == "" || !AllDigits(digits) then None
    else
      var magnitude: int := ValueOf(digits);
      var n := if negative then -magnitude else magnitude;
      if InInt64(n) then Some(n) else None
  }

  // ---- parsing

  function TrimV(v: string): string {
    if v != "" && v[0] == 'v' then v[1..] else v
  }

  /** The position of the first dot, or the length if there is none. */
  function FirstDot(s: string): (i: nat)
    ensures i <= |s| && '.' !in s[..i] && (i < |s| ==> s[i] == '.')
  {
    if s == "" || s[0] == '.' then 0
    else
      var i := 1 + FirstDot(s[1..]);
      assert s[..i] == [s[0]] + s[1..][..i - 1];
      i
  }

  /** strings.SplitN(s, ".", n): at most n parts, the last one unsplit. */
  function SplitN(s: string, n: nat): (parts: seq<string>)
    requires n >= 1
    ensures 1 <= |parts| <= n
    decreases n
  {
    var i := FirstDot(s);
    if n == 1 || i == |s| then [s] else [s[..i]] + SplitN(s[i + 1..], n - 1)
  }

  function Parse(v: string): Option<Triple> {
    ParseParts(SplitN(TrimV(v), 3))
  }

  function ParseParts(parts: seq<string>): Option<Triple> {
    if |parts| != 3 then None
    else
      var a, b, c := Atoi(parts[0]), Atoi(parts[1]), Atoi(parts[2]);
      if a.Some? && b.Some? && c.Some? then Some(Triple(a.value, b.value, c.value)) else None
  }

  method ParseSemver(v: string) returns (nums: Option<array<int>>)
    ensures nums.Some? <==> Parse(v).Some?
    ensures nums.Some? ==> fresh(nums.value) && nums.value.Length == 3
    ensures nums.Some? ==> Parse(v).value == Triple(nums.value[0], nums.value[1], nums.value[2])
  {
    var parts := SplitN(TrimV(v), 3);
    if |parts| != 3 {
      return None;
    }
    nums := Numbers(parts);
  }

  /** The loop of parseSemver over the three parts. */
  method Numbers(parts: seq<string>) returns (nums: Option<array<int>>)
    requires |parts| == 3
    ensures nums.Some? <==> ParseParts(parts).Some?
    ensures nums.Some? ==> fresh(nums.value) && nums.value.Length == 3
    ensures nums.Some? ==> ParseParts(parts).value == Triple(nums.value[0], nums.value[1], nums.value[2])
  {
    var result := new int[3];
    for i := 0 to 3
      invariant forall j :: 0 <= j < i ==> Atoi(parts[j]) == Some(result[j])
    {
      var n := Atoi(parts[i]);
      if n.None? {
        return None;
      }
      result[i] := n.value;
    }
    return Some(result);
  }

  // ---- the order

  predicate Above(a: Triple, b: Triple) {
    a.major > b.major || (a.major == b.major && (a.minor > b.minor || (a.minor == b.minor && a.patch > b.patch)))
  }

  predicate Newer(remote: string, current: string) {
    Parse(remote).Some? && Parse(current).Some? && Above(Parse(remote).value, Parse(current).value)
  }

  method IsNewer(remote: string, current: string) returns (newer: bool)
    ensures newer == Newer(remote, current)
  {
    var r := ParseSemver(remote);
    var c := ParseSemver(current);
    if r.None? || c.None? {
      return false;
    }
    newer := FirstDifference(r.value, c.value);
  }

  /** The comparison loop of isNewer. */
  method FirstDifference(r: array<int>, c: array<int>) returns (above: bool)
    requires r.Length == c.Length == 3
    ensures above == Above(Triple(r[0], r[1], r[2]), Triple(c[0], c[1], c[2]))
  {
    for i := 0 to 3
      invariant forall j :: 0 <= j < i ==> r[j] == c[j]
    {
      if r[i] > c[i] {
        return true;
      }
      if r[i] < c[i] {
        return false;
      }
    }
    return false;
  }

  /** A strict order, total up to equal triples, and silent about strings that do not parse. */
  lemma NewerIsStrictOrder(a: string, b: string, c: string)
    ensures !Newer(a, a)
    ensures Newer(a, b) ==> !Newer(b, a)
    ensures Newer(a, b) && Newer(b, c) ==> Newer(a, c)
    ensures Parse(a).Some? && Parse(b).Some? ==> Newer(a, b) || Newer(b, a) || Parse(a) == Parse(b)
    ensures Parse(a).None? || Parse(b).None? ==> !Newer(a, b)
  {
  }

  // ---- rendering

  function Digit(d: nat): char
    requires d < 10
  {
    '0' + d as char
  }

  function Render(n: nat): string {
    if n < 10 then [Digit(n)] else Render(n / 10) + [Digit(n % 10)]
  }

  function RenderTriple(t: Triple): string
    requires t.major >= 0 && t.minor >= 0 && t.patch >= 0
  {
    Render(t.major) + "." + Render(t.minor) + "." + Render(t.patch)
  }

  lemma {:induction false} RenderValue(n: nat)
    ensures Render(n) != "" && AllDigits(Render(n)) && ValueOf(Render(n)) == n
  {
    if n < 10 {
      assert Render(n)[..0] == "";
    } else {
      RenderValue(n / 10);
      assert Render(n)[..|Render(n)| - 1] == Render(n / 10);
    }
  }

  lemma AtoiRender(n: nat)
    requires n <= MAX_INT64
    ensures Atoi(Render(n)) == Some(n)
  {
    RenderValue(n);
    assert IsDigit(Render(n)[0]);
  }

  lemma {:induction false} FirstDotIs(a: string, rest: string)
    requires '.' !in a
    ensures FirstDot(a + "." + rest) == |a|
  {
    var s := a + "." + rest;
    if a == "" {
      assert s[0] == '.';
    } else {
      assert s[0] == a[0];
      assert s[1..] == a[1..] + "." + rest;
      FirstDotIs(a[1..], rest);
    }
  }

  lemma SplitThree(a: string, b: string, c: string)
    requires '.' !in a && '.' !in b
    ensures SplitN(a + "." + b + "." + c, 3) == [a, b, c]
  {
    var tail := b + "." + c;
    assert a + "." + b + "." + c == a + "." + tail;
    FirstDotIs(a, tail);
    assert (a + "." + tail)[|a| + 1..] == tail && (a + "." + tail)[..|a|] == a;
    FirstDotIs(b, c);
    assert tail[|b| + 1..] == c && tail[..|b|] == b;
  }

  lemma RenderedNumber(n: nat)
    requires n <= MAX_INT64
    ensures Atoi(Render(n)) == Some(n) && '.' !in Render(n) && Render(n) != "" && Render(n)[0] != 'v'
  {
    RenderValue(n);
    AtoiRender(n);
    assert IsDigit(Render(n)[0]);
  }

  lemma ParseJoined(a: string, b: string, c: string, t: Triple)
    requires '.' !in a && '.' !in b && Atoi(a) == Some(t.major) && Atoi(b) == Some(t.minor) && Atoi(c) == Some(t.patch)
    ensures ParseParts(SplitN(a + "." + b + "." + c, 3)) == Some(t)
  {
    SplitThree(a, b, c);
  }

  lemma TrimmedOnce(s: string)
    requires s != "" && s[0] != 'v'
    ensures TrimV(s) == s && TrimV("v" + s) == s
  {
    assert ("v" + s)[1..] == s;
  }

  /** A rendered triple, with or without a leading "v", parses to itself. */
  lemma ParseRendered(t: Triple)
    requires 0 <= t.major <= MAX_INT64 && 0 <= t.minor <= MAX_INT64 && 0 <= t.patch <= MAX_INT64
    ensures Parse(RenderTriple(t)) == Some(t) && Parse("v" + RenderTriple(t)) == Some(t)
  {
    RenderedNumber(t.major);
    RenderedNumber(t.minor);
    RenderedNumber(t.patch);
    ParseJoined(Render(t.major), Render(t.minor), Render(t.patch), t);
    assert RenderTriple(t)[0] == Render(t.major)[0];
    TrimmedOnce(RenderTriple(t));
  }

  /** On rendered versions the order is the numeric order of the triples. */
  lemma NewerIsNumeric(t: Triple, u: Triple)
    requires 0 <= t.major <= MAX_INT64 && 0 <= t.minor <= MAX_INT64 && 0 <= t.patch <= MAX_INT64
    requires 0 <= u.major <= MAX_INT64 && 0 <= u.minor <= MAX_INT64 && 0 <= u.patch <= MAX_INT64
    ensures var above := t.major > u.major || (t.major == u.major && t.minor > u.minor)
                         || (t.major == u.major && t.minor == u.minor && t.patch > u.patch);
            && (Newer(RenderTriple(t), RenderTriple(u)) <==> above)
            && (Newer("v" + RenderTriple(t), RenderTriple(u)) <==> above)
            && (Newer(RenderTriple(t), "v" + RenderTriple(u)) <==> above)
  {
    ParseRendered(t);
    ParseRendered(u);
  }

  // ---- which strings parse

  /** The text before the first dot, between the first two, and all of the rest. */
  predicate Splits(body: string, a: string, b: string, c: string) {
    body == a + "." + b + "." + c && '.' !in a && '.' !in b
  }

  lemma CutAt(s: string, i: nat)
    requires i < |s| && s[i] == '.'
    ensures s == s[..i] + "." + s[i + 1..]
  {
  }

  lemma CutAtDot(s: string)
    requires FirstDot(s) < |s|
    ensures s == s[..FirstDot(s)] + "." + s[FirstDot(s) + 1..] && '.' !in s[..FirstDot(s)]
  {
    CutAt(s, FirstDot(s));
  }

  lemma TwoDots(s: string)
    requires |SplitN(s, 3)| == 3
    ensures FirstDot(s) < |s| && FirstDot(s[FirstDot(s) + 1..]) < |s[FirstDot(s) + 1..]|
  {
  }

  lemma Rejoin(s: string, a: string, tail: string, b: string, c: string)
    requires s == a + "." + tail && tail == b + "." + c
    ensures s == a + "." + b + "." + c
  {
    assert a + "." + (b + "." + c) == a + "." + b + "." + c;
  }

  lemma ThreeParts(s: string) returns (a: string, b: string, c: string)
    requires |SplitN(s, 3)| == 3
    ensures Splits(s, a, b, c)
  {
    TwoDots(s);
    CutAtDot(s);
    var tail := s[FirstDot(s) + 1..];
    CutAtDot(tail);
    a, b, c := s[..FirstDot(s)], tail[..FirstDot(tail)], tail[FirstDot(tail) + 1..];
    Rejoin(s, a, tail, b, c);
  }

  /**
   * A version parses to a triple exactly if, after at most one "v", it consists of three decimal
   * numbers separated by dots; in particular no version with fewer or more parts parses.
   */
  lemma ParsesIff(v: string, t: Triple)
    ensures var body := if v != "" && v[0] == 'v' then v[1..] else v;
            Parse(v) == Some(t) <==>
              exists a, b, c :: Splits(body, a, b, c)
                && Atoi(a) == Some(t.major) && Atoi(b) == Some(t.minor) && Atoi(c) == Some(t.patch)
  {
    var body := if v != "" && v[0] == 'v' then v[1..] else v;
    if Parse(v).Some? {
      var a, b, c := ThreeParts(body);
      SplitThree(a, b, c);
    }
    forall a, b, c | Splits(body, a, b, c) ensures SplitN(body, 3) == [a, b, c] {
      SplitThree(a, b, c);
    }
  }

  /** A number is an optional sign and at least one digit, within 64 bits. */
  lemma AtoiParses(s: string)
    ensures Atoi(s).Some? <==>
              var digits := if s != "" && (s[0] == '-' || s[0] == '+') then s[1..] else s;
              digits != "" && AllDigits(digits)
              && if s[0] == '-' then ValueOf(digits) <= 0x8000_0000_0000_0000 else ValueOf(digits) <= 0x7FFF_FFFF_FFFF_FFFF
  {
  }

  lemma AtoiSigned(n: nat)
    requires n <= MAX_INT64
    ensures Atoi("-" + Render(n)).Some? && Atoi("-" + Render(n)).value == 0 - n && Atoi("+" + Render(n)) == Some(n)
  {
    RenderValue(n);
    assert ("-" + Render(n))[1..] == Render(n) && ("+" + Render(n))[1..] == Render(n);
  }

  lemma NoDotInNumber(s: string, i: nat)
    requires i < |s| && s[i] == '.'
    ensures Atoi(s) == None
  {
    if i > 0 {
      assert s[1..][i - 1] == '.';
    }
  }

  /** A dot is no part of a number, so that a fourth part spoils the third. */
  lemma FourPartsDoNotParse(a: string, b: string, c: string, d: string)
    requires '.' !in a && '.' !in b && (a == "" || a[0] != 'v')
    ensures Parse(a + "." + b + "." + (c + "." + d)) == None
  {
    var rest := c + "." + d;
    SplitThree(a, b, rest);
    NoDotInNumber(rest, |c|);
    var v := a + "." + b + "." + rest;
    assert v[0] == if a == "" then '.' else a[0];
  }
}
