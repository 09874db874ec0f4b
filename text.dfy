/** The few `str` operations of Rust's standard library that the handler
    relies on, over Dafny strings. */
module Text {
  import opened Wrappers

  predicate StartsWith(s: string, prefix: string) {
    |prefix| <= |s| && s[..|prefix|] == prefix
  }

  /** `str::strip_prefix`. */
  function StripPrefix(s: string, prefix: string): (r: Option<string>)
    ensures r.Some? <==> StartsWith(s, prefix)
    ensures r.Some? ==> prefix + r.value == s
  {
    if StartsWith(s, prefix) then Some(s[|prefix|..]) else None
  }

  /** `str::trim_end_matches` with a single character: removes every copy of
      `c` at the end of `s`. */
  function TrimEndMatches(s: string, c: char): (r: string)
    ensures |r| <= |s| && r == s[..|r|]
    ensures r == [] || r[|r| - 1] != c
    ensures forall i :: |r| <= i < |s| ==> s[i] == c
    decreases |s|
  {
    if |s| > 0 && s[|s| - 1] == c then TrimEndMatches(s[..|s| - 1], c) else s
  }

  /** `str::trim_start_matches` with a single character. */
  function TrimStartMatches(s: string, c: char): (r: string)
    ensures |r| <= |s| && r == s[|s| - |r|..]
    ensures r == [] || r[0] != c
    ensures forall i :: 0 <= i < |s| - |r| ==> s[i] == c
    decreases |s|
  {
    if |s| > 0 && s[0] == c then TrimStartMatches(s[1..], c) else s
  }

  /** `str::trim_matches` with a single character: both ends. */
  function TrimMatches(s: string, c: char): string {
    TrimEndMatches(TrimStartMatches(s, c), c)
  }

  /** Trimming leaves a text that neither starts nor ends with `c` as it is,
      and removes a frame of `c` around it. */
  lemma {:induction false} TrimMatchesFramed(s: string, c: char)
    requires s == [] || (s[0] != c && s[|s| - 1] != c)
    ensures TrimMatches(s, c) == s
    ensures TrimMatches([c] + s + [c], c) == s
  {
    TrimUntouched(s, c);
    if s == [] {
      TrimStartStep([c, c], c);
      TrimStartStep([c], c);
      assert [c] + s + [c] == [c, c] && [c, c][1..] == [c] && [c][1..] == [];
    } else {
      TrimFrame(s, c);
    }
  }

  lemma TrimUntouched(s: string, c: char)
    requires s == [] || (s[0] != c && s[|s| - 1] != c)
    ensures TrimStartMatches(s, c) == s && TrimEndMatches(s, c) == s
  {
  }

  lemma TrimFrame(s: string, c: char)
    requires |s| > 0 && s[0] != c && s[|s| - 1] != c
    ensures TrimMatches([c] + s + [c], c) == s
  {
    TrimFrameStart(s, c);
    TrimFrameEnd(s, c);
  }

  lemma TrimFrameStart(s: string, c: char)
    requires |s| > 0 && s[0] != c
    ensures TrimStartMatches([c] + s + [c], c) == s + [c]
  {
    var x, y := [c] + s + [c], s + [c];
    assert x[0] == c && x[1..] == y && y[0] != c;
    TrimOnce(x, y, c);
  }

  lemma TrimOnce(x: string, y: string, c: char)
    requires |x| > 0 && x[0] == c && x[1..] == y && |y| > 0 && y[0] != c
    ensures TrimStartMatches(x, c) == y
  {
    TrimStartStep(x, c);
  }

  lemma TrimFrameEnd(s: string, c: char)
    requires |s| > 0 && s[0] != c && s[|s| - 1] != c
    ensures TrimEndMatches(s + [c], c) == s
  {
    var y := s + [c];
    TrimEndStep(y, c);
    assert y[..|s|] == s;
    TrimUntouched(s, c);
  }

  lemma TrimStartStep(x: string, c: char)
    requires |x| > 0 && x[0] == c
    ensures TrimStartMatches(x, c) == TrimStartMatches(x[1..], c)
  {
  }

  lemma TrimEndStep(x: string, c: char)
    requires |x| > 0 && x[|x| - 1] == c
    ensures TrimEndMatches(x, c) == TrimEndMatches(x[..|x| - 1], c)
  {
  }

  predicate OccursAt(s: string, pat: string, i: int) {
    0 <= i && i + |pat| <= |s| && s[i..i + |pat|] == pat
  }

  function FindFrom(s: string, pat: string, from: nat): (r: Option<nat>)
    ensures r.Some? ==> from <= r.value && OccursAt(s, pat, r.value)
    ensures r.Some? ==> forall j :: from <= j < r.value ==> !OccursAt(s, pat, j)
    ensures r.None? ==> forall j :: from <= j ==> !OccursAt(s, pat, j)
    decreases |s| - from
  {
    if from + |pat| > |s| then None
    else if OccursAt(s, pat, from) then Some(from)
    else FindFrom(s, pat, from + 1)
  }

  /** `str::find`: the first position at which `pat` occurs. `contains` is
      `Find(..).Some?`, and `splitn(2, pat)` cuts at this position. */
  function Find(s: string, pat: string): (r: Option<nat>)
    ensures r.Some? ==> OccursAt(s, pat, r.value)
    ensures r.Some? ==> forall j :: 0 <= j < r.value ==> !OccursAt(s, pat, j)
    ensures r.None? ==> forall j :: 0 <= j ==> !OccursAt(s, pat, j)
  {
    FindFrom(s, pat, 0)
  }

  /** `s.splitn(2, c).next()`: the part of `s` before the first `c`, or all of
      `s` when there is none. */
  function BeforeFirst(s: string, c: char): (r: string)
    ensures |r| <= |s| && r == s[..|r|]
    ensures c !in r
    ensures |r| < |s| ==> s[|r|] == c
    decreases |s|
  {
    if |s| == 0 then ""
    else if s[0] == c then ""
    else [s[0]] + BeforeFirst(s[1..], c)
  }

  predicate IsDigit(c: char) { '0' <= c <= '9' }

  function DigitChar(d: int): (c: char)
    requires 0 <= d < 10
    ensures IsDigit(c)
  {
    ('0' as int + d) as char
  }

  /** The decimal text of a natural number, as Rust's `Display` for unsigned
      integers writes it. */
  function NatToString(n: nat): (s: string)
    ensures |s| > 0 && forall i :: 0 <= i < |s| ==> IsDigit(s[i])
    ensures n >= 10 ==> s[0] != '0'
  {
    if n < 10 then [DigitChar(n)] else NatToString(n / 10) + [DigitChar(n % 10)]
  }

  /** The value of a non-empty digit string; the inverse of NatToString on
      strings without leading zeros. */
  function DigitsValue(s: string): nat
    requires forall i :: 0 <= i < |s| ==> IsDigit(s[i])
    decreases |s|
  {
    if |s| == 0 then 0
    else
      assert IsDigit(s[|s| - 1]);
      DigitsValue(s[..|s| - 1]) * 10 + (s[|s| - 1] as int - '0' as int)
  }

  lemma {:induction false} NatToStringValue(n: nat)
    ensures DigitsValue(NatToString(n)) == n
  {
    var s := NatToString(n);
    if n >= 10 {
      NatToStringValue(n / 10);
      assert s[..|s| - 1] == NatToString(n / 10);
    }
  }

  /** `format!("{}", i)` for a signed integer. */
  function IntToString(i: int): (s: string)
    ensures |s| > 0
  {
    if i < 0 then "-" + NatToString(-i) else NatToString(i)
  }
}
