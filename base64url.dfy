/** The URL-safe base64 alphabet of section 5 of RFC 4648, without padding,
    as the `base64` crate's `URL_SAFE_NO_PAD` engine encodes and decodes it:
    decoding refuses padding and any character outside the alphabet, refuses
    an input whose length leaves one character over, and refuses a final
    group whose unused low bits are not zero. Encoding and decoding are
    therefore exact inverses of each other. */
module Base64Url {
  import opened Wrappers
  import opened Bytes

  type Sextet = x: int | 0 <= x < 64

  /** The character that encodes the 6-bit value `v`. */
  function CharOf(v: Sextet): (c: char)
  {
    if v < 26 then ('A' as int + v) as char
    else if v < 52 then ('a' as int + (v - 26)) as char
    else if v < 62 then ('0' as int + (v - 52)) as char
    else if v == 62 then '-'
    else '_'
  }

  /** The 6-bit value a character of the alphabet stands for; None for any
      other character (padding `=` included). */
  function ValueOf(c: char): (r: Option<Sextet>)
    ensures r.Some? <==> InAlphabet(c)
    ensures r.Some? ==> CharOf(r.value) == c
  {
    if 'A' <= c <= 'Z' then Some(c as int - 'A' as int)
    else if 'a' <= c <= 'z' then Some(c as int - 'a' as int + 26)
    else if '0' <= c <= '9' then Some(c as int - '0' as int + 52)
    else if c == '-' then Some(62)
    else if c == '_' then Some(63)
    else None
  }

  predicate InAlphabet(c: char) {
    'A' <= c <= 'Z' || 'a' <= c <= 'z' || '0' <= c <= '9' || c == '-' || c == '_'
  }

  lemma ValueOfCharOf(v: Sextet)
    ensures InAlphabet(CharOf(v)) && ValueOf(CharOf(v)) == Some(v)
  {
  }

  // One group of three bytes x, y, z is the four sextets
  // First(x), Second(x, y), Third(y, z), Fourth(z); the four sextets
  // v0..v3 are the three bytes High(v0, v1), Middle(v1, v2), Low(v2, v3).

  function First(x: Byte): Sextet { x / 4 }
  function Second(x: Byte, y: Byte): Sextet { (x % 4) * 16 + y / 16 }
  function Third(y: Byte, z: Byte): Sextet { (y % 16) * 4 + z / 64 }
  function Fourth(z: Byte): Sextet { z % 64 }
  // The last sextet of a final group of one or of two bytes.
  function SecondLast(x: Byte): Sextet { (x % 4) * 16 }
  function ThirdLast(y: Byte): Sextet { (y % 16) * 4 }

  function High(v0: Sextet, v1: Sextet): Byte { v0 * 4 + v1 / 16 }
  function Middle(v1: Sextet, v2: Sextet): Byte { (v1 % 16) * 16 + v2 / 4 }
  function Low(v2: Sextet, v3: Sextet): Byte { (v2 % 4) * 64 + v3 }

  /** The sextets of a byte sequence: every three bytes become four sextets;
      a final one or two bytes become two or three sextets whose unused low
      bits are zero (no padding is emitted). */
  function Unpack(b: seq<Byte>): (v: seq<Sextet>)
    ensures |v| == (4 * |b| + 2) / 3
    decreases |b|
  {
    if |b| == 0 then []
    else if |b| == 1 then [First(b[0]), SecondLast(b[0])]
    else if |b| == 2 then [First(b[0]), Second(b[0], b[1]), ThirdLast(b[1])]
    else [First(b[0]), Second(b[0], b[1]), Third(b[1], b[2]), Fourth(b[2])] + Unpack(b[3..])
  }

  /** The bytes a sextet sequence stands for; None when one sextet is left
      over or when the unused low bits of a final group are not zero. */
  function Pack(v: seq<Sextet>): (r: Option<seq<Byte>>)
    decreases |v|
  {
    if |v| == 0 then Some([])
    else if |v| == 1 then None
    else if |v| == 2 then
      if v[1] % 16 != 0 then None else Some([High(v[0], v[1])])
    else if |v| == 3 then
      if v[2] % 4 != 0 then None else Some([High(v[0], v[1]), Middle(v[1], v[2])])
    else
      var rest :- Pack(v[4..]);
      Some([High(v[0], v[1]), Middle(v[1], v[2]), Low(v[2], v[3])] + rest)
  }

  /** The sextet values of a string; None if a character is outside the alphabet. */
  function ToSextets(s: string): (r: Option<seq<Sextet>>)
    ensures r.Some? <==> forall i :: 0 <= i < |s| ==> InAlphabet(s[i])
    ensures r.Some? ==> |r.value| == |s|
    decreases |s|
  {
    if |s| == 0 then Some([])
    else
      var v :- ValueOf(s[0]);
      var rest :- ToSextets(s[1..]);
      Some([v] + rest)
  }

  function FromSextets(v: seq<Sextet>): (s: string)
    ensures |s| == |v| && forall i :: 0 <= i < |s| ==> InAlphabet(s[i])
  {
    seq(|v|, i requires 0 <= i < |v| => CharOf(v[i]))
  }

  /** Encoding: every three bytes become four characters; a final one or two
      bytes become two or three characters, with no padding. */
  function Encode(b: seq<Byte>): (s: string)
    ensures |s| == (4 * |b| + 2) / 3
    ensures forall i :: 0 <= i < |s| ==> InAlphabet(s[i])
  {
    FromSextets(Unpack(b))
  }

  /** Decoding: None for a character outside the alphabet (padding included),
      for a length that leaves one character over, and for a final group whose
      unused bits are not zero. */
  function Decode(s: string): (r: Option<seq<Byte>>)
  {
    var v :- ToSextets(s);
    Pack(v)
  }

  lemma SplitJoin(x: Byte, y: Byte, z: Byte)
    ensures High(First(x), Second(x, y)) == x
    ensures Middle(Second(x, y), Third(y, z)) == y
    ensures Low(Third(y, z), Fourth(z)) == z
  {
  }

  lemma SplitJoinOne(x: Byte)
    ensures High(First(x), SecondLast(x)) == x && SecondLast(x) % 16 == 0
  {
  }

  lemma SplitJoinTwo(x: Byte, y: Byte)
    ensures High(First(x), Second(x, y)) == x
    ensures Middle(Second(x, y), ThirdLast(y)) == y && ThirdLast(y) % 4 == 0
  {
  }

  lemma JoinSplit(v0: Sextet, v1: Sextet, v2: Sextet, v3: Sextet)
    ensures First(High(v0, v1)) == v0
    ensures Second(High(v0, v1), Middle(v1, v2)) == v1
    ensures Third(Middle(v1, v2), Low(v2, v3)) == v2
    ensures Fourth(Low(v2, v3)) == v3
    ensures v1 % 16 == 0 ==> SecondLast(High(v0, v1)) == v1
    ensures v2 % 4 == 0 ==> ThirdLast(Middle(v1, v2)) == v2
  {
  }

  lemma PackUnpackOne(x: Byte)
    ensures Pack(Unpack([x])) == Some([x])
  {
    assert Unpack([x]) == [First(x), SecondLast(x)];
    SplitJoinOne(x);
    PackPair(First(x), SecondLast(x));
  }

  lemma PackPair(v0: Sextet, v1: Sextet)
    requires v1 % 16 == 0
    ensures Pack([v0, v1]) == Some([High(v0, v1)])
  {
  }

  lemma PackUnpackTwo(x: Byte, y: Byte)
    ensures Pack(Unpack([x, y])) == Some([x, y])
  {
    assert Unpack([x, y]) == [First(x), Second(x, y), ThirdLast(y)];
    SplitJoinTwo(x, y);
    PackTriple(First(x), Second(x, y), ThirdLast(y));
  }

  lemma PackTriple(v0: Sextet, v1: Sextet, v2: Sextet)
    requires v2 % 4 == 0
    ensures Pack([v0, v1, v2]) == Some([High(v0, v1), Middle(v1, v2)])
  {
  }

  lemma {:induction false} PackUnpackGroup(b: seq<Byte>)
    requires |b| >= 3
    requires Pack(Unpack(b[3..])) == Some(b[3..])
    ensures Pack(Unpack(b)) == Some(b)
  {
    var v := Unpack(b);
    assert v == [First(b[0]), Second(b[0], b[1]), Third(b[1], b[2]), Fourth(b[2])] + Unpack(b[3..]);
    SplitJoin(b[0], b[1], b[2]);
    assert v[4..] == Unpack(b[3..]);
    assert b == [b[0], b[1], b[2]] + b[3..];
  }

  lemma {:induction false} PackUnpack(b: seq<Byte>)
    ensures Pack(Unpack(b)) == Some(b)
    decreases |b|
  {
    if |b| == 1 {
      PackUnpackOne(b[0]);
      assert b == [b[0]];
    } else if |b| == 2 {
      PackUnpackTwo(b[0], b[1]);
      assert b == [b[0], b[1]];
    } else if |b| >= 3 {
      PackUnpack(b[3..]);
      PackUnpackGroup(b);
    }
  }

  lemma {:induction false} UnpackPack(v: seq<Sextet>)
    requires Pack(v).Some?
    ensures Unpack(Pack(v).value) == v
    decreases |v|
  {
    if |v| == 2 {
      JoinSplit(v[0], v[1], 0, 0);
    } else if |v| == 3 {
      JoinSplit(v[0], v[1], v[2], 0);
    } else if |v| >= 4 {
      JoinSplit(v[0], v[1], v[2], v[3]);
      UnpackPack(v[4..]);
      var b := Pack(v).value;
      assert b[3..] == Pack(v[4..]).value;
      assert v == v[..4] + v[4..];
    }
  }

  lemma {:induction false} SextetsRoundTrip(v: seq<Sextet>)
    ensures ToSextets(FromSextets(v)) == Some(v)
    decreases |v|
  {
    if |v| > 0 {
      ValueOfCharOf(v[0]);
      SextetsRoundTrip(v[1..]);
      assert FromSextets(v)[1..] == FromSextets(v[1..]);
      assert v == [v[0]] + v[1..];
    }
  }

  lemma {:induction false} SextetsCanonical(s: string)
    requires ToSextets(s).Some?
    ensures FromSextets(ToSextets(s).value) == s
    decreases |s|
  {
    if |s| > 0 {
      SextetsCanonical(s[1..]);
      var v := ToSextets(s).value;
      assert v[1..] == ToSextets(s[1..]).value;
      assert FromSextets(v)[1..] == FromSextets(v[1..]);
    }
  }

  /** Decoding what was encoded gives back the bytes. */
  lemma DecodeEncode(b: seq<Byte>)
    ensures Decode(Encode(b)) == Some(b)
  {
    SextetsRoundTrip(Unpack(b));
    PackUnpack(b);
  }

  /** Whatever decodes is the encoding of what it decodes to: an input is
      accepted only in its one canonical form. */
  lemma EncodeDecode(s: string)
    requires Decode(s).Some?
    ensures Encode(Decode(s).value) == s
  {
    var v := ToSextets(s).value;
    UnpackPack(v);
    SextetsCanonical(s);
  }

  /** Decode and Encode are inverse bijections between alphabet strings of
      admissible length and byte sequences. */
  lemma DecodeIff(s: string, b: seq<Byte>)
    ensures Decode(s) == Some(b) <==> s == Encode(b)
  {
    if Decode(s) == Some(b) {
      EncodeDecode(s);
    }
    if s == Encode(b) {
      DecodeEncode(b);
    }
  }
}
