/** The configuration generator (handler-config/src/main.rs): a small window
    where the user picks the handler executable and the player, and two
    buttons that write the registry file declaring the `mpv://` protocol
    and the `mpv-handler.toml` naming the player. */
module HandlerConfig {
  import opened Wrappers
  import opened Bytes
  import opened Paths
  import Config
  import Utf8

  // ---- backslash escaping ----

  function Count(s: string, c: char): nat
    decreases |s|
  {
    if |s| == 0 then 0 else (if s[0] == c then 1 else 0) + Count(s[1..], c)
  }

  /** `replace("\\", "\\\\")`: every backslash doubled, nothing else
      touched. */
  function EscapeBackslashes(s: string): (r: string)
    ensures |r| == |s| + Count(s, '\\')
    decreases |s|
  {
    if |s| == 0 then "" else (if s[0] == '\\' then "\\\\" else [s[0]]) + EscapeBackslashes(s[1..])
  }

  // ---- reading the escaped text back ----

  function Prepend(p: string, r: Option<string>): Option<string> {
    if r.Some? then Some(p + r.value) else None
  }

  /** A registry-file string value's body: `\\` stands for a backslash,
      `\"` for a quote; a bare quote ends the value, so inside the body it
      makes the text invalid. */
  function RegValue(t: string): Option<string>
    decreases |t|
  {
    if |t| == 0 then Some("")
    else if t[0] == '"' then None
    else if t[0] != '\\' then Prepend([t[0]], RegValue(t[1..]))
    else if |t| >= 2 && (t[1] == '\\' || t[1] == '"') then Prepend([t[1]], RegValue(t[2..]))
    else None
  }

  /** A quote-free text escaped by doubling its backslashes reads back as
      itself, whatever follows it. */
  lemma {:induction false} RegValueEscaped(s: string, t: string)
    requires Count(s, '"') == 0
    ensures RegValue(EscapeBackslashes(s) + t) == Prepend(s, RegValue(t))
    decreases |s|
  {
    if |s| > 0 {
      assert s[0] != '"' && Count(s[1..], '"') == 0;
      RegValueEscaped(s[1..], t);
      RegValueEscapedStep(s, t);
      PrependPrepend([s[0]], s[1..], RegValue(t));
      assert [s[0]] + s[1..] == s;
    } else {
      assert EscapeBackslashes(s) + t == t;
      if RegValue(t).Some? {
        assert "" + RegValue(t).value == RegValue(t).value;
      }
    }
  }

  /** Reading past the escaped first character. */
  lemma RegValueEscapedStep(s: string, t: string)
    requires |s| > 0 && s[0] != '"'
    ensures RegValue(EscapeBackslashes(s) + t) == Prepend([s[0]], RegValue(EscapeBackslashes(s[1..]) + t))
  {
    var tail := EscapeBackslashes(s[1..]);
    var rest := tail + t;
    if s[0] == '\\' {
      assert EscapeBackslashes(s) + t == ['\\', '\\'] + rest;
      RegValueEscape('\\', rest);
    } else {
      assert EscapeBackslashes(s) + t == [s[0]] + rest;
      RegValuePlain(s[0], rest);
    }
  }

  lemma PrependPrepend(p: string, q: string, r: Option<string>)
    ensures Prepend(p, Prepend(q, r)) == Prepend(p + q, r)
  {
    if r.Some? {
      assert p + (q + r.value) == p + q + r.value;
    }
  }

  lemma RegValuePlain(c: char, t: string)
    requires c != '"' && c != '\\'
    ensures RegValue([c] + t) == Prepend([c], RegValue(t))
  {
    assert ([c] + t)[1..] == t;
  }

  lemma RegValueEscape(c: char, t: string)
    requires c == '"' || c == '\\'
    ensures RegValue(['\\', c] + t) == Prepend([c], RegValue(t))
  {
    assert (['\\', c] + t)[2..] == t;
  }

  /** A control character a TOML basic string may not hold raw. */
  predicate TomlControl(c: char) {
    ((c as int) < 0x20 && c != '\t') || c as int == 0x7F
  }

  function TomlEscape(d: char): Option<char> {
    if d == '\\' then Some('\\')
    else if d == '"' then Some('"')
    else if d == 'b' then Some(8 as char)
    else if d == 't' then Some('\t')
    else if d == 'n' then Some('\n')
    else if d == 'f' then Some(12 as char)
    else if d == 'r' then Some('\r')
    else None
  }

  /** The body of a TOML basic string (TOML 1.0.0, "Basic strings"): raw
      characters other than the quote, the backslash and the control
      characters, and the short escapes. */
  function TomlBasic(t: string): Option<string>
    decreases |t|
  {
    if |t| == 0 then Some("")
    else if t[0] == '"' || TomlControl(t[0]) then None
    else if t[0] != '\\' then Prepend([t[0]], TomlBasic(t[1..]))
    else if |t| < 2 then None
    else
      match TomlEscape(t[1])
      case None => None
      case Some(c) => Prepend([c], TomlBasic(t[2..]))
  }

  /** A text can stand in a basic string with only its backslashes
      escaped. */
  predicate TomlSafe(s: string) {
    forall i :: 0 <= i < |s| ==> s[i] != '"' && !TomlControl(s[i])
  }

  /** Doubling backslashes makes a valid basic string exactly of the texts
      without quotes and control characters, and it reads back as the
      text. */
  lemma {:induction false} TomlBasicEscaped(s: string)
    ensures TomlBasic(EscapeBackslashes(s)) == if TomlSafe(s) then Some(s) else None
    decreases |s|
  {
    if |s| > 0 {
      var e := EscapeBackslashes(s);
      var head := if s[0] == '\\' then "\\\\" else [s[0]];
      assert e == head + EscapeBackslashes(s[1..]);
      assert e[|head|..] == EscapeBackslashes(s[1..]);
      TomlBasicEscaped(s[1..]);
      assert TomlSafe(s) <==> s[0] != '"' && !TomlControl(s[0]) && TomlSafe(s[1..]) by {
        assert forall i :: 1 <= i < |s| ==> s[i] == s[1..][i - 1];
      }
      assert s == [s[0]] + s[1..];
    }
  }

  // ---- the registry file ----

  const RegHeader: string :=
    "Windows Registry Editor Version 5.00\n"
    + "[HKEY_CLASSES_ROOT\\mpv]\n"
    + "\"URL Protocol\"=\"\"\n"
    + "@=\"mpv\"\n"
    + "[HKEY_CLASSES_ROOT\\mpv\\shell]\n"
    + "[HKEY_CLASSES_ROOT\\mpv\\shell\\open]\n"
    + "[HKEY_CLASSES_ROOT\\mpv\\shell\\open\\command]\n"

  /** The body of the command's default value: the handler, quoted, then
      the URL placeholder, quoted. */
  function CommandValue(exePath: string): string {
    "\\\"" + EscapeBackslashes(exePath) + "\\\" \\\"%1\\\""
  }

  /** The text of `mpv-handler.reg`. */
  function RegText(exePath: string): string {
    RegHeader + "@=\"" + CommandValue(exePath) + "\"\n"
  }

  /** The command the registry file registers for `mpv://` is
      `"<handler>" "%1"`. */
  lemma RegCommand(exePath: string)
    requires Count(exePath, '"') == 0
    ensures RegValue(CommandValue(exePath)) == Some("\"" + exePath + "\" \"%1\"")
  {
    var tail := "\\\" \\\"%1\\\"";
    var body := EscapeBackslashes(exePath) + tail;
    PlaceholderValue();
    RegValueEscaped(exePath, tail);
    CommandValueShape(exePath);
    RegValueEscape('"', body);
    QuotedCommand(exePath);
  }

  lemma CommandValueShape(exePath: string)
    ensures CommandValue(exePath) == ['\\', '"'] + (EscapeBackslashes(exePath) + "\\\" \\\"%1\\\"")
  {
  }

  lemma QuotedCommand(exePath: string)
    ensures ['"'] + (exePath + "\" \"%1\"") == "\"" + exePath + "\" \"%1\""
  {
  }

  /** The part after the handler's path: its closing quote and the quoted
      placeholder. */
  lemma PlaceholderValue()
    ensures RegValue("\\\" \\\"%1\\\"") == Some("\" \"%1\"")
  {
    var s3 := "%1\\\"";
    var s2 := "\\\"%1\\\"";
    var s1 := " \\\"%1\\\"";
    var s0 := "\\\" \\\"%1\\\"";
    PercentOneValue();
    assert s2 == ['\\', '"'] + s3;
    RegValueEscape('"', s3);
    assert ['"'] + "%1\"" == "\"%1\"";
    assert RegValue(s2) == Some("\"%1\"");
    assert s1 == [' '] + s2;
    RegValuePlain(' ', s2);
    assert [' '] + "\"%1\"" == " \"%1\"";
    assert RegValue(s1) == Some(" \"%1\"");
    assert s0 == ['\\', '"'] + s1;
    RegValueEscape('"', s1);
    assert ['"'] + " \"%1\"" == "\" \"%1\"";
  }

  /** The placeholder and the quote after it. */
  lemma PercentOneValue()
    ensures RegValue("%1\\\"") == Some("%1\"")
  {
    var s5 := "\\\"";
    var s4 := "1\\\"";
    var s3 := "%1\\\"";
    assert s5 == ['\\', '"'] + "";
    RegValueEscape('"', "");
    assert ['"'] + "" == "\"";
    assert RegValue(s5) == Some("\"");
    assert s4 == ['1'] + s5;
    RegValuePlain('1', s5);
    assert ['1'] + "\"" == "1\"";
    assert RegValue(s4) == Some("1\"");
    assert s3 == ['%'] + s4;
    RegValuePlain('%', s4);
    assert ['%'] + "1\"" == "%1\"";
  }

  /** The registry text ends with the command line and keeps the fixed
      header. */
  lemma RegTextLayout(exePath: string)
    ensures RegText(exePath)[..|RegHeader|] == RegHeader
    ensures RegText(exePath)[|RegHeader|..] == "@=\"" + CommandValue(exePath) + "\"\n"
  {
  }

  // ---- UTF-16 ----

  type U16 = x: int | 0 <= x < 0x10000

  /** One character in UTF-16 (section 2.1 of RFC 2781): itself below
      0x10000, a surrogate pair above. */
  function Utf16Char(c: char): (u: seq<U16>)
    ensures |u| == (if c as int < 0x10000 then 1 else 2)
  {
    var n := c as int;
    if n < 0x10000 then [n] else [0xD800 + (n - 0x10000) / 0x400, 0xDC00 + (n - 0x10000) % 0x400]
  }

  /** `str::encode_utf16`. */
  function EncodeUtf16(s: string): seq<U16>
    decreases |s|
  {
    if |s| == 0 then [] else Utf16Char(s[0]) + EncodeUtf16(s[1..])
  }

  /** UTF-16 decoding (section 2.2 of RFC 2781); None on an unpaired
      surrogate. */
  function DecodeUtf16(u: seq<U16>): Option<string>
    decreases |u|
  {
    if |u| == 0 then Some("")
    else if u[0] < 0xD800 || u[0] >= 0xE000 then Prepend([u[0] as char], DecodeUtf16(u[1..]))
    else if u[0] < 0xDC00 && |u| >= 2 && 0xDC00 <= u[1] < 0xE000 then
      var n: int := 0x10000 + (u[0] as int - 0xD800) * 0x400 + (u[1] as int - 0xDC00);
      Prepend([n as char], DecodeUtf16(u[2..]))
    else None
  }

  lemma {:induction false} DecodeEncodeUtf16(s: string)
    ensures DecodeUtf16(EncodeUtf16(s)) == Some(s)
    decreases |s|
  {
    if |s| > 0 {
      var u := EncodeUtf16(s);
      var head := Utf16Char(s[0]);
      assert u == head + EncodeUtf16(s[1..]);
      assert u[|head|..] == EncodeUtf16(s[1..]);
      DecodeEncodeUtf16(s[1..]);
      var n := s[0] as int;
      if n >= 0x10000 {
        var hi := (n - 0x10000) / 0x400;
        var lo := (n - 0x10000) % 0x400;
        assert 0x10000 + hi * 0x400 + lo == n;
      }
      assert s == [s[0]] + s[1..];
    }
  }

  /** Each unit as its two bytes, low byte first (`u16::to_le_bytes`). */
  function LeBytes(u: seq<U16>): (b: seq<Byte>)
    ensures |b| == 2 * |u|
    decreases |u|
  {
    if |u| == 0 then [] else [u[0] % 256, u[0] / 256] + LeBytes(u[1..])
  }

  /** Pairs of bytes, low byte first, as units. */
  function ReadLe(b: seq<Byte>): seq<U16>
    requires |b| % 2 == 0
    decreases |b|
  {
    if |b| == 0 then [] else [(b[0] as int) + 256 * (b[1] as int)] + ReadLe(b[2..])
  }

  lemma {:induction false} ReadLeBytes(u: seq<U16>)
    ensures ReadLe(LeBytes(u)) == u
    decreases |u|
  {
    if |u| > 0 {
      var b := LeBytes(u);
      assert b[2..] == LeBytes(u[1..]);
      ReadLeBytes(u[1..]);
      assert u == [u[0]] + u[1..];
    }
  }

  lemma {:induction false} LeBytesAppend(u: seq<U16>, x: U16)
    ensures LeBytes(u + [x]) == LeBytes(u) + [x % 256, x / 256]
    decreases |u|
  {
    if |u| > 0 {
      assert (u + [x])[1..] == u[1..] + [x];
      LeBytesAppend(u[1..], x);
    } else {
      assert u + [x] == [x];
    }
  }

  const Bom: seq<Byte> := [0xFF, 0xFE]

  /** The bytes of `mpv-handler.reg`: a byte order mark, then the text in
      UTF-16, low byte first. */
  function RegFileBytes(exePath: string): seq<Byte> {
    Bom + LeBytes(EncodeUtf16(RegText(exePath)))
  }

  /** The file starts with the byte order mark, and what follows it reads
      back as the registry text. */
  lemma RegFileReadsBack(exePath: string)
    ensures RegFileBytes(exePath)[..2] == Bom
    ensures |RegFileBytes(exePath)| == 2 + 2 * |EncodeUtf16(RegText(exePath))|
    ensures DecodeUtf16(ReadLe(RegFileBytes(exePath)[2..])) == Some(RegText(exePath))
  {
    var units := EncodeUtf16(RegText(exePath));
    assert RegFileBytes(exePath)[2..] == LeBytes(units);
    ReadLeBytes(units);
    DecodeEncodeUtf16(RegText(exePath));
  }

  // ---- file writes ----

  /** The first of the writes `0..writes-1` that fails, if any. */
  function FirstFailure(writeError: nat -> Option<string>, writes: nat): (r: Option<nat>)
    ensures r.Some? ==> r.value < writes && writeError(r.value).Some?
    ensures r.Some? ==> forall k :: 0 <= k < r.value ==> writeError(k).None?
    ensures r.None? ==> forall k :: 0 <= k < writes ==> writeError(k).None?
    decreases writes
  {
    if writes == 0 then None
    else match FirstFailure(writeError, writes - 1)
      case Some(k) => Some(k)
      case None => if writeError(writes - 1).Some? then Some(writes - 1) else None
  }

  /** The error of creating a file and then making `writes` writes, each
      stopping the sequence when it fails. */
  function IoError(createError: Option<string>, writeError: nat -> Option<string>, writes: nat): Option<string> {
    if createError.Some? then createError
    else match FirstFailure(writeError, writes)
      case None => None
      case Some(k) => writeError(k)
  }

  /** `generate_reg_file`: the file is created, the byte order mark is
      written (write 0), then each UTF-16 unit of the registry text (write
      i + 1 for unit i). */
  method GenerateRegFile(exePath: string, createError: Option<string>, writeError: nat -> Option<string>)
    returns (written: seq<Byte>, err: Option<string>)
    ensures err == IoError(createError, writeError, |EncodeUtf16(RegText(exePath))| + 1)
    ensures createError.Some? ==> written == []
    ensures createError.None? && err.None? ==> written == RegFileBytes(exePath)
    ensures createError.None? && err.Some? ==>
      var k := FirstFailure(writeError, |EncodeUtf16(RegText(exePath))| + 1).value;
      written == RegFileBytes(exePath)[..2 * k]
  {
    if createError.Some? {
      return [], createError;
    }
    written, err := WriteUtf16Le(EncodeUtf16(RegText(exePath)), writeError);
  }

  /** The writing loop of `generate_reg_file` into a created file. The
      first failure stops the writing; the bytes already written stay. */
  method WriteUtf16Le(units: seq<U16>, writeError: nat -> Option<string>)
    returns (written: seq<Byte>, err: Option<string>)
    ensures err == IoError(None, writeError, |units| + 1)
    ensures err.None? ==> written == Bom + LeBytes(units)
    ensures err.Some? ==> written == (Bom + LeBytes(units))[..2 * FirstFailure(writeError, |units| + 1).value]
  {
    written := [];
    if writeError(0).Some? {
      FirstFailureAt(writeError, |units| + 1, 0);
      return written, writeError(0);
    }
    written := Bom;
    for i := 0 to |units|
      invariant written == Bom + LeBytes(units[..i])
      invariant forall k :: 0 <= k <= i ==> writeError(k).None?
    {
      if writeError(i + 1).Some? {
        FirstFailureAt(writeError, |units| + 1, i + 1);
        LePrefix(units, i);
        return written, writeError(i + 1);
      }
      LeBytesAppend(units[..i], units[i]);
      assert units[..i + 1] == units[..i] + [units[i]];
      written := written + [units[i] % 256, units[i] / 256];
    }
    assert units[..|units|] == units;
    NoFailure(writeError, |units| + 1);
    err := None;
  }

  lemma NoFailure(writeError: nat -> Option<string>, writes: nat)
    requires forall k :: 0 <= k < writes ==> writeError(k).None?
    ensures FirstFailure(writeError, writes).None?
  {
  }

  lemma {:induction false} FirstFailureAt(writeError: nat -> Option<string>, writes: nat, k: nat)
    requires k < writes && writeError(k).Some?
    requires forall j :: 0 <= j < k ==> writeError(j).None?
    ensures FirstFailure(writeError, writes) == Some(k)
    decreases writes
  {
    if writes - 1 > k {
      FirstFailureAt(writeError, writes - 1, k);
    } else {
      assert FirstFailure(writeError, writes - 1).None?;
    }
  }

  lemma {:induction false} LePrefix(u: seq<U16>, i: nat)
    requires i <= |u|
    ensures (Bom + LeBytes(u))[..2 * (i + 1)] == Bom + LeBytes(u[..i])
    decreases i
  {
    if i == 0 {
      assert u[..0] == [];
    } else {
      LePrefix(u, i - 1);
      LeBytesAppend(u[..i - 1], u[i - 1]);
      assert u[..i] == u[..i - 1] + [u[i - 1]];
      LeBytesSplit(u, i);
    }
  }

  lemma {:induction false} LeBytesSplit(u: seq<U16>, i: nat)
    requires i <= |u|
    ensures LeBytes(u) == LeBytes(u[..i]) + LeBytes(u[i..])
    decreases i
  {
    if i > 0 {
      assert u[1..][..i - 1] == u[1..i];
      assert u[1..][i - 1..] == u[i..];
      LeBytesSplit(u[1..], i - 1);
      assert LeBytes(u[..i]) == [u[0] % 256, u[0] / 256] + LeBytes(u[1..i]) by {
        assert u[..i][1..] == u[1..i];
      }
    } else {
      assert u[..0] == [] && u[0..] == u;
    }
  }

  // ---- the configuration file ----

  const TomlFile: string := "mpv-handler.toml"

  /** Where `generate_toml` writes: beside the handler. None when the
      handler path has no parent, where the program panics. */
  function TomlPath(os: Os, handlerPath: string): (r: Option<string>)
    ensures r.Some? <==> ParentDir(os, handlerPath).Some?
  {
    match ParentDir(os, handlerPath)
    case None => None
    case Some(dir) => Some(Join(os, dir, TomlFile))
  }

  /** The text of `mpv-handler.toml`: one key, the player's path in a basic
      string with its backslashes escaped. */
  function TomlText(mpvPath: string): string {
    "mpv = \"" + EscapeBackslashes(mpvPath) + "\""
  }

  /** The value of the `mpv` key in a one-line file of that form. */
  function TomlMpv(text: string): Option<string> {
    if |text| >= 8 && text[..7] == "mpv = \"" && text[|text| - 1] == '"' then TomlBasic(text[7..|text| - 1])
    else None
  }

  /** The generated file sets `mpv` to the chosen path exactly when the
      path holds no quote and no control character. */
  lemma TomlReadsBack(mpvPath: string)
    ensures TomlMpv(TomlText(mpvPath)) == if TomlSafe(mpvPath) then Some(mpvPath) else None
  {
    var t := TomlText(mpvPath);
    assert t[..7] == "mpv = \"";
    assert t[7..|t| - 1] == EscapeBackslashes(mpvPath);
    TomlBasicEscaped(mpvPath);
  }

  /** With the generated file in place, the handler starts the chosen
      player. */
  lemma GeneratedConfigSelectsPlayer(os: Os, mpvPath: string)
    requires mpvPath != "" && TomlSafe(mpvPath)
    ensures TomlMpv(TomlText(mpvPath)) == Some(mpvPath)
    ensures Config.MpvProgram(os, Ok(Config.Config(TomlMpv(TomlText(mpvPath)).value, None, None))) == Ok(mpvPath)
  {
    TomlReadsBack(mpvPath);
  }

  datatype TomlOutcome =
    | NoParent                                        // `parent().unwrap()` panics
    | Written(path: string, bytes: seq<Byte>, error: Option<string>)

  /** `generate_toml`: the text goes out in UTF-8 in one write. */
  function GenerateToml(os: Os, handlerPath: string, mpvPath: string, createError: Option<string>,
                        writeError: Option<string>): (r: TomlOutcome)
    ensures r == NoParent <==> ParentDir(os, handlerPath).None?
    ensures r.Written? ==> r.path == TomlPath(os, handlerPath).value
    ensures r.Written? ==> (r.error.None? <==> createError.None? && writeError.None?)
    ensures r.Written? && r.error.None? ==> Utf8.Decode(r.bytes) == Some(TomlText(mpvPath))
    ensures r.Written? && r.error.Some? ==> r.bytes == []
  {
    match TomlPath(os, handlerPath)
    case None => NoParent
    case Some(path) =>
      if createError.Some? then Written(path, [], createError)
      else if writeError.Some? then Written(path, [], writeError)
      else
        Utf8.DecodeEncode(TomlText(mpvPath));
        Written(path, Utf8.Encode(TomlText(mpvPath)), None)
  }

  // ---- the window ----

  /** The status line after a generation. */
  function Status(kind: string, err: Option<string>): string {
    if err.None? then "Generate " + kind + " Success!" else "Generate " + kind + " Failed: " + err.value
  }

  /** `ConfigApp`: the two text fields and the status line. */
  class ConfigApp {
    var handlerPath: string
    var mpvPath: string
    var statusMessage: string

    /** `ConfigApp::default`. */
    constructor ()
      ensures handlerPath == "" && mpvPath == "" && statusMessage == ""
    {
      handlerPath := "";
      mpvPath := "";
      statusMessage := "";
    }

    /** "Generate registry" is enabled once a handler is chosen. */
    predicate RegEnabled()
      reads this
    {
      handlerPath != ""
    }

    /** "Generate toml" is enabled once both paths are chosen. */
    predicate TomlEnabled()
      reads this
    {
      handlerPath != "" && mpvPath != ""
    }

    /** "Choose handler path": a picked file replaces the path and clears
      the status; a cancelled dialog changes nothing. */
    method PickHandler(picked: Option<string>)
      modifies this
      ensures picked.Some? ==> handlerPath == picked.value && statusMessage == ""
      ensures picked.None? ==> handlerPath == old(handlerPath) && statusMessage == old(statusMessage)
      ensures mpvPath == old(mpvPath)
    {
      if picked.Some? {
        handlerPath := picked.value;
        statusMessage := "";
      }
    }

    /** "Choose mpv path". */
    method PickMpv(picked: Option<string>)
      modifies this
      ensures picked.Some? ==> mpvPath == picked.value && statusMessage == ""
      ensures picked.None? ==> mpvPath == old(mpvPath) && statusMessage == old(statusMessage)
      ensures handlerPath == old(handlerPath)
    {
      if picked.Some? {
        mpvPath := picked.value;
        statusMessage := "";
      }
    }

    /** Typing in the handler field: the text is replaced, the status
      kept. */
    method EditHandler(text: string)
      modifies this
      ensures handlerPath == text && mpvPath == old(mpvPath) && statusMessage == old(statusMessage)
    {
      handlerPath := text;
    }

    /** Typing in the player field. */
    method EditMpv(text: string)
      modifies this
      ensures mpvPath == text && handlerPath == old(handlerPath) && statusMessage == old(statusMessage)
    {
      mpvPath := text;
    }

    /** A click on "Generate registry": nothing happens while it is
      disabled; otherwise the file is written and the status reports the
      outcome. */
    method ClickGenerateReg(createError: Option<string>, writeError: nat -> Option<string>)
      returns (written: seq<Byte>)
      modifies this
      ensures !old(RegEnabled()) ==> written == [] && statusMessage == old(statusMessage)
      ensures old(RegEnabled()) ==>
        statusMessage == Status("reg", IoError(createError, writeError, |EncodeUtf16(RegText(handlerPath))| + 1))
      ensures old(RegEnabled()) && IoError(createError, writeError, |EncodeUtf16(RegText(handlerPath))| + 1).None? ==>
        written == RegFileBytes(handlerPath)
      ensures handlerPath == old(handlerPath) && mpvPath == old(mpvPath)
    {
      if !RegEnabled() {
        return [];
      }
      var err;
      written, err := GenerateRegFile(handlerPath, createError, writeError);
      statusMessage := Status("reg", err);
    }

    /** A click on "Generate toml": nothing happens while it is disabled;
      otherwise the file is written beside the handler (a handler path
      without a parent panics, leaving everything as it was). */
    method ClickGenerateToml(os: Os, createError: Option<string>, writeError: Option<string>)
      returns (outcome: Option<TomlOutcome>)
      modifies this
      ensures !old(TomlEnabled()) ==> outcome == None && statusMessage == old(statusMessage)
      ensures old(TomlEnabled()) ==> outcome == Some(GenerateToml(os, handlerPath, mpvPath, createError, writeError))
      ensures old(TomlEnabled()) && outcome.value.Written? ==> statusMessage == Status("toml", outcome.value.error)
      ensures old(TomlEnabled()) && outcome.value.NoParent? ==> statusMessage == old(statusMessage)
      ensures handlerPath == old(handlerPath) && mpvPath == old(mpvPath)
    {
      if !TomlEnabled() {
        return None;
      }
      var r := GenerateToml(os, handlerPath, mpvPath, createError, writeError);
      if r.Written? {
        statusMessage := Status("toml", r.error);
      }
      return Some(r);
    }
  }
}
