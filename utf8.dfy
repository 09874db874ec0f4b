/** UTF-8 as RFC 3629 defines it, the check Rust's `String::from_utf8`
    performs: a byte sequence is accepted exactly when it is a concatenation
    of well-formed encodings of Unicode scalar values (no overlong forms, no
    surrogates, nothing above U+10FFFF, no truncated sequence). A Dafny
    `char` is a Unicode scalar value, so a `string` is what `String` holds. */
module Utf8 {
  import opened Wrappers
  import opened Bytes

  // Lead and continuation bytes of the encoding of a code point `n`.

  function Lead2(n: int): Byte requires 0x80 <= n < 0x800 { 0xC0 + n / 64 }
  function Lead3(n: int): Byte requires 0x800 <= n < 0x10000 { 0xE0 + n / 4096 }
  function Lead4(n: int): Byte requires 0x10000 <= n < 0x110000 { 0xF0 + n / 262144 }
  /** The continuation byte carrying bits 6k .. 6k+5 of `n`. */
  function Cont(n: nat, k: nat): Byte { 0x80 + (n / Pow64(k)) % 64 }

  function Pow64(k: nat): (p: nat)
    ensures p >= 1
  {
    if k == 0 then 1 else 64 * Pow64(k - 1)
  }

  predicate IsCont(b: Byte) { 0x80 <= b < 0xC0 }

  /** The encoding of one scalar value: one to four bytes. */
  function EncodeChar(c: char): (b: seq<Byte>)
    ensures 1 <= |b| <= 4
  {
    var n := c as int;
    if n < 0x80 then [n]
    else if n < 0x800 then [Lead2(n), Cont(n, 0)]
    else if n < 0x10000 then [Lead3(n), Cont(n, 1), Cont(n, 0)]
    else [Lead4(n), Cont(n, 2), Cont(n, 1), Cont(n, 0)]
  }

  function Encode(s: string): (b: seq<Byte>)
    ensures |b| >= |s|
    decreases |s|
  {
    if |s| == 0 then [] else EncodeChar(s[0]) + Encode(s[1..])
  }

  predicate IsScalar(n: int) {
    0 <= n < 0xD800 || 0xE000 <= n < 0x110000
  }

  /** The scalar value encoded at the front of `b` and the number of bytes
      its encoding takes, or None when `b` does not start with a well-formed
      encoding. */
  function DecodeFirst(b: seq<Byte>): (r: Option<(char, nat)>)
    requires |b| > 0
    ensures r.Some? ==> 1 <= r.value.1 <= |b| && r.value.1 <= 4
  {
    var b0 := b[0];
    if b0 < 0x80 then Some((b0 as char, 1))
    else if 0xC2 <= b0 < 0xE0 then
      if |b| < 2 || !IsCont(b[1]) then None
      else Some((Join2(b0, b[1]) as char, 2))
    else if 0xE0 <= b0 < 0xF0 then
      if |b| < 3 || !IsCont(b[1]) || !IsCont(b[2]) then None
      else
        var n := Join3(b0, b[1], b[2]);
        if n < 0x800 || 0xD800 <= n < 0xE000 then None else Some((n as char, 3))
    else if 0xF0 <= b0 < 0xF5 then
      if |b| < 4 || !IsCont(b[1]) || !IsCont(b[2]) || !IsCont(b[3]) then None
      else
        var n := Join4(b0, b[1], b[2], b[3]);
        if n < 0x10000 || n >= 0x110000 then None else Some((n as char, 4))
    else None
  }

  function Join2(b0: Byte, b1: Byte): (n: int)
    requires 0xC2 <= b0 < 0xE0 && IsCont(b1)
    ensures 0x80 <= n < 0x800
  {
    (b0 - 0xC0) * 64 + (b1 - 0x80)
  }

  function Join3(b0: Byte, b1: Byte, b2: Byte): (n: int)
    requires 0xE0 <= b0 < 0xF0 && IsCont(b1) && IsCont(b2)
    ensures 0 <= n < 0x10000
  {
    (b0 - 0xE0) * 4096 + (b1 - 0x80) * 64 + (b2 - 0x80)
  }

  function Join4(b0: Byte, b1: Byte, b2: Byte, b3: Byte): (n: int)
    requires 0xF0 <= b0 < 0xF5 && IsCont(b1) && IsCont(b2) && IsCont(b3)
    ensures 0 <= n < 0x140000
  {
    (b0 - 0xF0) * 262144 + (b1 - 0x80) * 4096 + (b2 - 0x80) * 64 + (b3 - 0x80)
  }

  /** `String::from_utf8`: the text the bytes encode, or None. */
  function Decode(b: seq<Byte>): (r: Option<string>)
    decreases |b|
  {
    if |b| == 0 then Some("")
    else
      var (c, k) :- DecodeFirst(b);
      var rest :- Decode(b[k..]);
      Some([c] + rest)
  }

  // Per-length arithmetic of one scalar value.

  lemma Arith2(n: int)
    requires 0x80 <= n < 0x800
    ensures 0xC2 <= Lead2(n) < 0xE0 && IsCont(Cont(n, 0))
    ensures Join2(Lead2(n), Cont(n, 0)) == n
  {
  }

  lemma Arith3(n: int)
    requires 0x800 <= n < 0x10000
    ensures 0xE0 <= Lead3(n) < 0xF0 && IsCont(Cont(n, 1)) && IsCont(Cont(n, 0))
    ensures Join3(Lead3(n), Cont(n, 1), Cont(n, 0)) == n
  {
    assert Pow64(1) == 64;
  }

  lemma Arith4(n: int)
    requires 0x10000 <= n < 0x110000
    ensures 0xF0 <= Lead4(n) < 0xF5 && IsCont(Cont(n, 2)) && IsCont(Cont(n, 1)) && IsCont(Cont(n, 0))
    ensures Join4(Lead4(n), Cont(n, 2), Cont(n, 1), Cont(n, 0)) == n
  {
    assert Pow64(2) == 4096 && Pow64(1) == 64;
    DivMod64(n / 4096, (n / 64) % 64, n / 64);
    DivMod64(n / 262144, (n / 4096) % 64, n / 4096);
  }

  /** The digit decomposition in base 64 that the lemmas above rely on. */
  lemma DivMod64(q: int, r: int, n: int)
    requires 0 <= r < 64 && n == q * 64 + r
    ensures n / 64 == q && n % 64 == r
  {
  }

  lemma Split2(b0: Byte, b1: Byte)
    requires 0xC2 <= b0 < 0xE0 && IsCont(b1)
    ensures Lead2(Join2(b0, b1)) == b0 && Cont(Join2(b0, b1), 0) == b1
  {
  }

  lemma Split3(b0: Byte, b1: Byte, b2: Byte)
    requires 0xE0 <= b0 < 0xF0 && IsCont(b1) && IsCont(b2) && Join3(b0, b1, b2) >= 0x800
    ensures var n := Join3(b0, b1, b2);
      Lead3(n) == b0 && Cont(n, 1) == b1 && Cont(n, 0) == b2
  {
    assert Pow64(1) == 64;
  }

  lemma Split4(b0: Byte, b1: Byte, b2: Byte, b3: Byte)
    requires 0xF0 <= b0 < 0xF5 && IsCont(b1) && IsCont(b2) && IsCont(b3)
    requires 0x10000 <= Join4(b0, b1, b2, b3) < 0x110000
    ensures var n := Join4(b0, b1, b2, b3);
      Lead4(n) == b0 && Cont(n, 2) == b1 && Cont(n, 1) == b2 && Cont(n, 0) == b3
  {
    assert Pow64(2) == 4096 && Pow64(1) == 64;
    var n := Join4(b0, b1, b2, b3);
    var q2 := (b0 - 0xF0) * 64 + (b1 - 0x80);
    var q1 := q2 * 64 + (b2 - 0x80);
    DivMod64(q1, b3 - 0x80, n);
    DivMod64(q2, b2 - 0x80, q1);
    DivMod64(b0 - 0xF0, b1 - 0x80, q2);
    DivMod64(n / 4096, (n / 64) % 64, n / 64);
    DivMod64(n / 262144, (n / 4096) % 64, n / 4096);
  }

  /** The encoding of `c` is recognised at the front of any byte sequence. */
  lemma DecodeFirstEncodeChar(c: char, rest: seq<Byte>)
    ensures DecodeFirst(EncodeChar(c) + rest) == Some((c, |EncodeChar(c)|))
  {
    var n := c as int;
    var b := EncodeChar(c) + rest;
    if n < 0x80 {
    } else if n < 0x800 {
      Arith2(n);
    } else if n < 0x10000 {
      Arith3(n);
    } else {
      Arith4(n);
    }
  }

  /** What DecodeFirst accepts is exactly the encoding of what it returns. */
  lemma EncodeCharDecodeFirst(b: seq<Byte>)
    requires |b| > 0 && DecodeFirst(b).Some?
    ensures b[..DecodeFirst(b).value.1] == EncodeChar(DecodeFirst(b).value.0)
  {
    var b0 := b[0];
    var (c, k) := DecodeFirst(b).value;
    if b0 < 0x80 {
      assert b[..k] == [b0];
    } else if b0 < 0xE0 {
      Split2(b0, b[1]);
      assert c as int == Join2(b0, b[1]);
      assert b[..k] == [b0, b[1]];
    } else if b0 < 0xF0 {
      Split3(b0, b[1], b[2]);
      assert c as int == Join3(b0, b[1], b[2]);
      assert b[..k] == [b0, b[1], b[2]];
    } else {
      Split4(b0, b[1], b[2], b[3]);
      assert c as int == Join4(b0, b[1], b[2], b[3]);
      assert b[..k] == [b0, b[1], b[2], b[3]];
    }
  }

  /** Decoding an encoded text gives back the text. */
  lemma {:induction false} DecodeEncode(s: string)
    ensures Decode(Encode(s)) == Some(s)
    decreases |s|
  {
    if |s| > 0 {
      var e := EncodeChar(s[0]);
      DecodeFirstEncodeChar(s[0], Encode(s[1..]));
      assert Encode(s)[|e|..] == Encode(s[1..]);
      DecodeEncode(s[1..]);
      assert s == [s[0]] + s[1..];
    }
  }

  /** Bytes that decode are the encoding of the text they decode to: the
      decoder accepts nothing but well-formed UTF-8. */
  lemma {:induction false} EncodeDecode(b: seq<Byte>)
    requires Decode(b).Some?
    ensures Encode(Decode(b).value) == b
    decreases |b|
  {
    if |b| > 0 {
      DecodeStep(b);
      var first := DecodeFirst(b).value;
      EncodeCharDecodeFirst(b);
      EncodeDecode(b[first.1..]);
      Assemble(b, first.1, first.0, Decode(b[first.1..]).value, Decode(b).value);
    }
  }

  lemma Assemble(b: seq<Byte>, k: nat, c: char, rest: string, s: string)
    requires k <= |b| && b[..k] == EncodeChar(c) && Encode(rest) == b[k..] && s == [c] + rest
    ensures Encode(s) == b
  {
    assert s[1..] == rest;
    assert b == b[..k] + b[k..];
  }

  lemma DecodeStep(b: seq<Byte>)
    requires |b| > 0 && Decode(b).Some?
    ensures DecodeFirst(b).Some?
    ensures var k := DecodeFirst(b).value.1;
      Decode(b[k..]).Some? && Decode(b).value == [DecodeFirst(b).value.0] + Decode(b[k..]).value
  {
  }

  lemma DecodeIff(b: seq<Byte>, s: string)
    ensures Decode(b) == Some(s) <==> b == Encode(s)
  {
    if Decode(b) == Some(s) {
      EncodeDecode(b);
    }
    if b == Encode(s) {
      DecodeEncode(s);
    }
  }
}
