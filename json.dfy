/** The part of serde_json's `Value` that the session client reads: indexing
    with `[i]` and `["key"]`, comparison with a string, `as_u64`, and
    `Display`, which writes compact JSON text (strings keep their quotes and
    are escaped). */
module Json {
  import opened Wrappers
  import opened Text

  /** A JSON value. A number is an integer or a float carried with the text
      serde_json prints for it; an object lists its members in the order
      serde_json keeps them (sorted by key, each key once). */
  datatype Value =
    | Null
    | Bool(b: bool)
    | Int(i: int)
    | Float(text: string)
    | Str(s: string)
    | Array(items: seq<Value>)
    | Object(members: seq<(string, Value)>)

  /** `value[i]`: the element, or Null when there is none. */
  function At(v: Value, i: nat): Value {
    if v.Array? && i < |v.items| then v.items[i] else Null
  }

  /** `value["key"]`: the member's value, or Null when there is none. */
  function Get(v: Value, key: string): (r: Value)
    ensures !v.Object? ==> r == Null
    ensures v.Object? && r != Null ==> exists i :: 0 <= i < |v.members| && v.members[i] == (key, r)
  {
    if v.Object? then Member(v.members, key) else Null
  }

  function Member(members: seq<(string, Value)>, key: string): (r: Value)
    ensures r != Null ==> exists i :: 0 <= i < |members| && members[i] == (key, r)
    ensures (forall i :: 0 <= i < |members| ==> members[i].0 != key) ==> r == Null
    decreases |members|
  {
    if |members| == 0 then Null
    else if members[0].0 == key then members[0].1
    else
      var r := Member(members[1..], key);
      assert forall i :: 1 <= i < |members| ==> members[i] == members[1..][i - 1];
      r
  }

  /** In a member list with distinct keys, a key's value is the one listed
      with it. */
  lemma {:induction false} MemberAt(members: seq<(string, Value)>, k: nat, key: string)
    requires k < |members| && members[k].0 == key
    requires forall j :: 0 <= j < k ==> members[j].0 != key
    ensures Member(members, key) == members[k].1
    decreases k
  {
    if k > 0 {
      MemberAt(members[1..], k - 1, key);
    }
  }

  const U64Limit: int := 0x1_0000_0000_0000_0000

  /** `Value::as_u64`: an integer that fits in 64 unsigned bits. */
  function AsU64(v: Value): (r: Option<nat>)
    ensures r.Some? <==> v.Int? && 0 <= v.i < U64Limit
    ensures r.Some? ==> r.value == v.i
  {
    if v.Int? && 0 <= v.i < U64Limit then Some(v.i) else None
  }

  // ---- Display ----

  function HexDigit(d: int): (c: char)
    requires 0 <= d < 16
  {
    if d < 10 then ('0' as int + d) as char else ('a' as int + d - 10) as char
  }

  /** How one character is written inside a JSON string: quote, backslash
      and the control characters are escaped, everything else is kept. */
  function EscapeChar(c: char): (e: string)
    ensures 1 <= |e| <= 6
  {
    if c == '"' then "\\\""
    else if c == '\\' then "\\\\"
    else if c == '\n' then "\\n"
    else if c == '\r' then "\\r"
    else if c == '\t' then "\\t"
    else if c == 8 as char then "\\b"
    else if c == 12 as char then "\\f"
    else if (c as int) < 0x20 then "\\u00" + [HexDigit(c as int / 16), HexDigit(c as int % 16)]
    else [c]
  }

  function Escape(s: string): (e: string)
    ensures |e| >= |s|
    decreases |s|
  {
    if |s| == 0 then "" else EscapeChar(s[0]) + Escape(s[1..])
  }

  function Quote(s: string): string {
    "\"" + Escape(s) + "\""
  }

  /** `Display` for a `Value`: compact JSON text. */
  function Display(v: Value): (t: string)
    ensures |t| > 0
    ensures v.Str? ==> t[0] == '"' && t[|t| - 1] == '"'
    decreases v, 1
  {
    match v
    case Null => "null"
    case Bool(b) => if b then "true" else "false"
    case Int(i) => IntToString(i)
    case Float(text) => if text == "" then "0.0" else text
    case Str(s) => Quote(s)
    case Array(items) => "[" + DisplayItems(items) + "]"
    case Object(members) => "{" + DisplayMembers(members) + "}"
  }

  function DisplayItems(items: seq<Value>): string
    decreases items, 0
  {
    if |items| == 0 then ""
    else if |items| == 1 then Display(items[0])
    else Display(items[0]) + "," + DisplayItems(items[1..])
  }

  function DisplayMembers(members: seq<(string, Value)>): string
    decreases members, 0
  {
    if |members| == 0 then ""
    else
      var m := members[0];
      assert m in members && m.1 < m;
      var first := Quote(m.0) + ":" + Display(m.1);
      if |members| == 1 then first else first + "," + DisplayMembers(members[1..])
  }

  // ---- the JSON string grammar, as the reference the escaping answers to ----

  function HexValue(c: char): Option<nat> {
    if '0' <= c <= '9' then Some(c as int - '0' as int)
    else if 'a' <= c <= 'f' then Some(c as int - 'a' as int + 10)
    else if 'A' <= c <= 'F' then Some(c as int - 'A' as int + 10)
    else None
  }

  /** The character at the front of the body of a JSON string (section 7 of
      RFC 8259) and the length of its written form, or None when the front
      is not a valid character or escape. Escapes `\u` of a surrogate are
      refused. */
  function UnescapeFirst(t: string): (r: Option<(char, nat)>)
    requires |t| > 0
    ensures r.Some? ==> 1 <= r.value.1 <= |t|
  {
    var c := t[0];
    if c == '"' || (c as int) < 0x20 then None
    else if c != '\\' then Some((c, 1))
    else if |t| < 2 then None
    else
      var d := t[1];
      if d == '"' then Some(('"', 2))
      else if d == '\\' then Some(('\\', 2))
      else if d == '/' then Some(('/', 2))
      else if d == 'b' then Some((8 as char, 2))
      else if d == 'f' then Some((12 as char, 2))
      else if d == 'n' then Some(('\n', 2))
      else if d == 'r' then Some(('\r', 2))
      else if d == 't' then Some(('\t', 2))
      else if d == 'u' && |t| >= 6 then
        var h0 :- HexValue(t[2]);
        var h1 :- HexValue(t[3]);
        var h2 :- HexValue(t[4]);
        var h3 :- HexValue(t[5]);
        var n := ((h0 * 16 + h1) * 16 + h2) * 16 + h3;
        if 0xD800 <= n < 0xE000 || n >= 0x10000 then None else Some((n as char, 6))
      else None
  }

  /** The text a JSON string body stands for, or None when it is malformed. */
  function Unescape(t: string): Option<string>
    decreases |t|
  {
    if |t| == 0 then Some("")
    else
      var (c, k) :- UnescapeFirst(t);
      var rest :- Unescape(t[k..]);
      Some([c] + rest)
  }

  lemma HexRoundTrip(d: int)
    requires 0 <= d < 16
    ensures HexValue(HexDigit(d)) == Some(d)
  {
  }

  lemma UnescapeFirstEscapeChar(c: char, rest: string)
    ensures UnescapeFirst(EscapeChar(c) + rest) == Some((c, |EscapeChar(c)|))
  {
    var t := EscapeChar(c) + rest;
    if c != '"' && c != '\\' && c != '\n' && c != '\r' && c != '\t'
       && c != 8 as char && c != 12 as char && (c as int) < 0x20 {
      var n := c as int;
      HexRoundTrip(n / 16);
      HexRoundTrip(n % 16);
      assert t[..6] == "\\u00" + [HexDigit(n / 16), HexDigit(n % 16)];
      assert t[2] == '0' && t[3] == '0';
    }
  }

  /** What Display writes between the quotes of a string reads back as the
      string. */
  lemma {:induction false} UnescapeEscape(s: string)
    ensures Unescape(Escape(s)) == Some(s)
    decreases |s|
  {
    if |s| > 0 {
      var e := EscapeChar(s[0]);
      var t := Escape(s);
      assert t == e + Escape(s[1..]);
      UnescapeFirstEscapeChar(s[0], Escape(s[1..]));
      assert t[|e|..] == Escape(s[1..]);
      UnescapeEscape(s[1..]);
      assert s == [s[0]] + s[1..];
      UnescapeCons(t, s[0], |e|, s[1..], s);
    }
  }

  lemma UnescapeCons(t: string, c: char, k: nat, rest: string, s: string)
    requires |t| > 0 && UnescapeFirst(t) == Some((c, k)) && Unescape(t[k..]) == Some(rest)
    requires s == [c] + rest
    ensures Unescape(t) == Some(s)
  {
  }

  /** A character Display writes as itself. */
  predicate Plain(c: char) {
    c != '"' && c != '\\' && (c as int) >= 0x20
  }

  lemma {:induction false} EscapePlain(s: string)
    requires forall i :: 0 <= i < |s| ==> Plain(s[i])
    ensures Escape(s) == s
    decreases |s|
  {
    if |s| > 0 {
      EscapePlain(s[1..]);
      assert s == [s[0]] + s[1..];
    }
  }

  /** A string of plain characters is displayed inside a pair of quotes,
      and `trim_matches('"')` gives it back. */
  lemma DisplayPlainString(s: string)
    requires forall i :: 0 <= i < |s| ==> Plain(s[i])
    ensures Display(Str(s)) == "\"" + s + "\""
    ensures TrimMatches(Display(Str(s)), '"') == s
  {
    assert Display(Str(s)) == Quote(s);
    QuotePlain(s);
  }

  lemma {:induction false} QuotePlain(s: string)
    requires forall i :: 0 <= i < |s| ==> Plain(s[i])
    ensures Quote(s) == "\"" + s + "\""
    ensures TrimMatches(Quote(s), '"') == s
  {
    EscapePlain(s);
    var q := ['"'] + s + ['"'];
    assert Quote(s) == q;
    TrimMatchesFramed(s, '"');
  }
}
