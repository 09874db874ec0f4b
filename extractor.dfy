/** The `extractor` module of src/network.rs: recovering the media address
    and the optional subtitle address from a handler URL, and the server
    parameters from the media address. */
module Extractor {
  import opened Wrappers
  import opened Bytes
  import opened Text
  import Base64Url
  import Utf8

  const Scheme: string := "mpv://play/"
  const SubfileMarker: string := "/?subfile="

  datatype DecodeError =
    | InvalidScheme       // "Invalid URL scheme"
    | VideoNotBase64      // "Failed to decode video URL"
    | SubtitleNotBase64   // "Failed to decode subtitle URL"
    | NotUtf8             // `String::from_utf8` failed

  function DecodeBase64(segment: string, err: DecodeError): Result<seq<Byte>, DecodeError> {
    match Base64Url.Decode(segment)
    case Some(b) => Ok(b)
    case None => Err(err)
  }

  function DecodeUtf8(b: seq<Byte>): Result<string, DecodeError> {
    match Utf8.Decode(b)
    case Some(s) => Ok(s)
    case None => Err(NotUtf8)
  }

  /** `extract_urls`: trailing `=` are removed from the whole input, the
      scheme prefix is required, the remainder is split at the first
      `/?subfile=` and the subtitle part is cut at its first `&`; each part
      is decoded as unpadded base64url and then as UTF-8. Errors are reported
      in the order the source meets them: video base64, subtitle base64,
      video UTF-8, subtitle UTF-8. */
  function ExtractUrls(mpvUrl: string): (r: Result<(string, string), DecodeError>)
    ensures r == Err(InvalidScheme) <==> !StartsWith(TrimEndMatches(mpvUrl, '='), Scheme)
    ensures r.Ok? && Find(TrimEndMatches(mpvUrl, '=')[|Scheme|..], SubfileMarker).None? ==> r.value.1 == ""
  {
    match StripPrefix(TrimEndMatches(mpvUrl, '='), Scheme)
    case None => Err(InvalidScheme)
    case Some(url) =>
      match Find(url, SubfileMarker)
      case Some(i) => ExtractPair(url, i)
      case None => ExtractSingle(url)
  }

  /** The branch of `extract_urls` for a URL holding `/?subfile=` at `i`. */
  function ExtractPair(url: string, i: nat): (r: Result<(string, string), DecodeError>)
    requires i + |SubfileMarker| <= |url|
    ensures var v, sub := url[..i], BeforeFirst(url[i + |SubfileMarker|..], '&');
      && (r == Err(VideoNotBase64) <==> Base64Url.Decode(v).None?)
      && (r == Err(SubtitleNotBase64) <==> Base64Url.Decode(v).Some? && Base64Url.Decode(sub).None?)
      && (r.Ok? <==> && Base64Url.Decode(v).Some? && Base64Url.Decode(sub).Some?
                     && Utf8.Decode(Base64Url.Decode(v).value).Some?
                     && Utf8.Decode(Base64Url.Decode(sub).value).Some?)
      && (r.Ok? ==> r.value == (Utf8.Decode(Base64Url.Decode(v).value).value,
                                Utf8.Decode(Base64Url.Decode(sub).value).value))
    ensures r != Err(InvalidScheme)
  {
    var video :- DecodeBase64(url[..i], VideoNotBase64);
    var subfile :- DecodeBase64(BeforeFirst(url[i + |SubfileMarker|..], '&'), SubtitleNotBase64);
    var videoUrl :- DecodeUtf8(video);
    var subfileUrl :- DecodeUtf8(subfile);
    Ok((videoUrl, subfileUrl))
  }

  /** The branch of `extract_urls` for a URL without `/?subfile=`. */
  function ExtractSingle(url: string): (r: Result<(string, string), DecodeError>)
    ensures r == Err(VideoNotBase64) <==> Base64Url.Decode(url).None?
    ensures r.Ok? <==> Base64Url.Decode(url).Some? && Utf8.Decode(Base64Url.Decode(url).value).Some?
    ensures r.Ok? ==> r.value == (Utf8.Decode(Base64Url.Decode(url).value).value, "")
    ensures r != Err(InvalidScheme)
  {
    var video :- DecodeBase64(url, VideoNotBase64);
    var videoUrl :- DecodeUtf8(video);
    Ok((videoUrl, ""))
  }

  /** The encoding of one address inside a handler URL: its UTF-8 bytes in
      unpadded base64url. */
  function EncodeSegment(v: string): (e: string)
    ensures forall i :: 0 <= i < |e| ==> Base64Url.InAlphabet(e[i])
    ensures |e| == 0 <==> v == ""
  {
    var b := Utf8.Encode(v);
    assert |b| == 0 ==> v == "" by {
      if v != "" { assert |Utf8.EncodeChar(v[0])| >= 1; }
    }
    Base64Url.Encode(b)
  }

  /** The handler URL a web page builds for a media address and an optional
      subtitle address (empty when there is none). */
  function HandlerUrl(video: string, subfile: string): string {
    Scheme + EncodeSegment(video) + (if subfile == "" then "" else SubfileMarker + EncodeSegment(subfile))
  }

  lemma SegmentRoundTrip(v: string)
    ensures DecodeBase64(EncodeSegment(v), VideoNotBase64) == Ok(Utf8.Encode(v))
    ensures DecodeBase64(EncodeSegment(v), SubtitleNotBase64) == Ok(Utf8.Encode(v))
    ensures DecodeUtf8(Utf8.Encode(v)) == Ok(v)
  {
    Base64Url.DecodeEncode(Utf8.Encode(v));
    Utf8.DecodeEncode(v);
  }

  /** A segment that decodes is the encoding of what it decodes to. */
  lemma SegmentCanonical(seg: string, err: DecodeError)
    requires DecodeBase64(seg, err).Ok? && DecodeUtf8(DecodeBase64(seg, err).value).Ok?
    ensures seg == EncodeSegment(DecodeUtf8(DecodeBase64(seg, err).value).value)
  {
    var b := Base64Url.Decode(seg).value;
    Base64Url.EncodeDecode(seg);
    Utf8.EncodeDecode(b);
  }

  /** Alphabet text never contains the subtitle marker: the marker starts
      with `/`. */
  lemma {:induction false} NoMarkerInSegment(e: string, t: string)
    requires forall i :: 0 <= i < |e| ==> Base64Url.InAlphabet(e[i])
    requires StartsWith(t, SubfileMarker)
    ensures Find(e + t, SubfileMarker) == Some(|e|)
  {
    var s := e + t;
    forall j | 0 <= j < |e|
      ensures !OccursAt(s, SubfileMarker, j)
    {
      assert s[j] == e[j] && s[j] != '/';
    }
    assert s[|e|..|e| + |SubfileMarker|] == t[..|SubfileMarker|];
    assert OccursAt(s, SubfileMarker, |e|);
  }

  lemma {:induction false} NoMarkerAnywhere(e: string)
    requires forall i :: 0 <= i < |e| ==> Base64Url.InAlphabet(e[i])
    ensures Find(e, SubfileMarker).None?
  {
    forall j | 0 <= j
      ensures !OccursAt(e, SubfileMarker, j)
    {
      if j < |e| { assert e[j] != '/'; }
    }
  }

  lemma StripPrefixAppend(p: string, u: string)
    ensures StripPrefix(p + u, p) == Some(u)
  {
    assert (p + u)[..|p|] == p;
    assert (p + u)[|p|..] == u;
  }

  /** `trim_end_matches` stops at the first character that is not the one
      being trimmed. */
  lemma {:induction false} TrimEndAppend(a: string, b: string, c: char)
    requires a != [] && a[|a| - 1] != c
    ensures TrimEndMatches(a + b, c) == a + TrimEndMatches(b, c)
    decreases |b|
  {
    if |b| > 0 && b[|b| - 1] == c {
      assert (a + b)[..|a + b| - 1] == a + b[..|b| - 1];
      TrimEndAppend(a, b[..|b| - 1], c);
    } else {
      assert |b| > 0 ==> (a + b)[|a + b| - 1] == b[|b| - 1];
    }
  }

  /** A handler URL without a subtitle decodes to its media address and an
      empty subtitle address. */
  lemma ExtractUrlsSingle(v: string)
    ensures ExtractUrls(Scheme + EncodeSegment(v)) == Ok((v, ""))
  {
    var e := EncodeSegment(v);
    var s := Scheme + e;
    TrimEndAppend(Scheme, e, '=');
    TrimEndAlphabet(e);
    StripPrefixAppend(Scheme, e);
    NoMarkerAnywhere(e);
    SegmentRoundTrip(v);
  }

  lemma TrimEndAlphabet(e: string)
    requires forall i :: 0 <= i < |e| ==> Base64Url.InAlphabet(e[i])
    ensures TrimEndMatches(e, '=') == e
  {
    if |e| > 0 { assert e[|e| - 1] != '='; }
  }

  /** With a subtitle: the input splits at the first `/?subfile=` and the
      subtitle part ends at its first `&`, so whatever follows that `&`
      (including trailing `=`) has no effect. */
  lemma ExtractUrlsWithSubtitle(v: string, sub: string, rest: string)
    ensures ExtractUrls(Scheme + EncodeSegment(v) + SubfileMarker + EncodeSegment(sub) + "&" + rest)
         == Ok((v, sub))
  {
    var e1, e2 := EncodeSegment(v), EncodeSegment(sub);
    var rest' := TrimEndMatches(rest, '=');
    var head := Scheme + e1 + SubfileMarker + e2 + "&";
    var s := head + rest;
    TrimEndAppend(head, rest, '=');
    Reassociate(Scheme, e1, SubfileMarker, e2, "&", rest');
    ExtractPairForm(s, v, sub, "&" + rest');
  }

  lemma Reassociate(a: string, b: string, c: string, d: string, e: string, f: string)
    ensures a + b + c + d + e + f == a + (b + (c + (d + (e + f))))
  {
  }

  /** Any input whose trimmed form is the scheme, a media segment, the marker,
      a subtitle segment and then nothing or `&` and anything, decodes to the
      two addresses. */
  lemma ExtractPairForm(mpvUrl: string, v: string, sub: string, t: string)
    requires t == [] || t[0] == '&'
    requires TrimEndMatches(mpvUrl, '=') == Scheme + (EncodeSegment(v) + (SubfileMarker + (EncodeSegment(sub) + t)))
    ensures ExtractUrls(mpvUrl) == Ok((v, sub))
  {
    var e1, e2 := EncodeSegment(v), EncodeSegment(sub);
    var url := e1 + (SubfileMarker + (e2 + t));
    StripPrefixAppend(Scheme, url);
    UnfoldExtractUrls(mpvUrl, url);
    NoMarkerInSegment(e1, SubfileMarker + (e2 + t));
    PairSegments(e1, e2, t);
    BeforeFirstAlphabet(e2, t);
    PairDecodes(v, sub, url, |e1|);
  }

  lemma PairDecodes(v: string, sub: string, url: string, i: nat)
    requires i + |SubfileMarker| <= |url|
    requires url[..i] == EncodeSegment(v)
    requires BeforeFirst(url[i + |SubfileMarker|..], '&') == EncodeSegment(sub)
    ensures ExtractPair(url, i) == Ok((v, sub))
  {
    SegmentRoundTrip(v);
    SegmentRoundTrip(sub);
  }

  lemma UnfoldExtractUrls(mpvUrl: string, url: string)
    requires StripPrefix(TrimEndMatches(mpvUrl, '='), Scheme) == Some(url)
    ensures Find(url, SubfileMarker).Some? ==>
      ExtractUrls(mpvUrl) == ExtractPair(url, Find(url, SubfileMarker).value)
    ensures Find(url, SubfileMarker).None? ==> ExtractUrls(mpvUrl) == ExtractSingle(url)
  {
  }

  lemma PairSegments(e1: string, e2: string, t: string)
    ensures var url := e1 + (SubfileMarker + (e2 + t));
      url[..|e1|] == e1 && url[|e1| + |SubfileMarker|..] == e2 + t
  {
  }

  lemma {:induction false} BeforeFirstAlphabet(e: string, t: string)
    requires forall i :: 0 <= i < |e| ==> Base64Url.InAlphabet(e[i])
    requires t == [] || t[0] == '&'
    ensures BeforeFirst(e + t, '&') == e
    decreases |e|
  {
    if |e| > 0 {
      assert (e + t)[1..] == e[1..] + t;
      BeforeFirstAlphabet(e[1..], t);
    }
  }

  /** The canonical handler URL of an address pair decodes back to it. An
      empty subtitle address is encoded by leaving the marker out: with the
      marker and nothing after it, the trimming of `=` would eat the marker's
      own `=` (see ExtractUrlsEmptySubtitle). */
  lemma ExtractHandlerUrl(v: string, sub: string)
    ensures ExtractUrls(HandlerUrl(v, sub)) == Ok((v, sub))
  {
    if sub == "" {
      assert HandlerUrl(v, sub) == Scheme + EncodeSegment(v);
      ExtractUrlsSingle(v);
    } else {
      var e1, e2 := EncodeSegment(v), EncodeSegment(sub);
      var url := e1 + (SubfileMarker + (e2 + ""));
      var s := HandlerUrl(v, sub);
      assert s == Scheme + url;
      TrimEndAppend(Scheme, url, '=');
      assert TrimEndMatches(url, '=') == url by {
        assert url[|url| - 1] == e2[|e2| - 1];
        assert Base64Url.InAlphabet(e2[|e2| - 1]);
      }
      ExtractPairForm(s, v, sub, "");
    }
  }

  /** The marker followed by nothing does not survive the trimming of `=`:
      the URL is then read as a single segment, which holds `/` and `?`, and
      decoding fails. */
  lemma ExtractUrlsEmptySubtitle(v: string)
    ensures ExtractUrls(Scheme + EncodeSegment(v) + SubfileMarker) == Err(VideoNotBase64)
  {
    var e := EncodeSegment(v);
    var url := e + "/?subfile";
    EmptyMarkerTrimmed(e);
    StripPrefixAppend(Scheme, url);
    MarkerAbsent(e);
    assert Base64Url.ToSextets(url).None? by {
      assert url[|e|] == '/';
      assert !Base64Url.InAlphabet(url[|e|]);
    }
  }

  lemma EmptyMarkerTrimmed(e: string)
    ensures TrimEndMatches(Scheme + e + SubfileMarker, '=') == Scheme + (e + "/?subfile")
  {
    var x := Scheme + (e + "/?subfile");
    var s := Scheme + e + SubfileMarker;
    assert s == x + "=";
    assert s[..|s| - 1] == x;
    assert x[|x| - 1] == 'e';
  }

  lemma MarkerAbsent(e: string)
    requires forall i :: 0 <= i < |e| ==> Base64Url.InAlphabet(e[i])
    ensures Find(e + "/?subfile", SubfileMarker).None?
  {
    var url := e + "/?subfile";
    assert |url| == |e| + 9;
    forall j | 0 <= j
      ensures !OccursAt(url, SubfileMarker, j)
    {
      if j < |e| {
        assert url[j] == e[j] && url[j] != '/';
      }
    }
  }

  /** Every accepted handler URL is, after its trailing `=` are trimmed, the
      canonical encoding of what it decodes to, followed — when there is a
      subtitle part — by nothing or by `&` and anything. */
  lemma ExtractUrlsSound(mpvUrl: string)
    requires ExtractUrls(mpvUrl).Ok?
    ensures var (v, sub) := ExtractUrls(mpvUrl).value;
      var t := TrimEndMatches(mpvUrl, '=');
      var n := |Scheme + EncodeSegment(v) + SubfileMarker + EncodeSegment(sub)|;
      || (t == Scheme + EncodeSegment(v) && sub == "")
      || (n <= |t| && t[..n] == Scheme + EncodeSegment(v) + SubfileMarker + EncodeSegment(sub)
          && (n == |t| || t[n] == '&'))
  {
    var (v, sub) := ExtractUrls(mpvUrl).value;
    var t := TrimEndMatches(mpvUrl, '=');
    var url := t[|Scheme|..];
    assert t == Scheme + url;
    UnfoldExtractUrls(mpvUrl, url);
    match Find(url, SubfileMarker)
    case Some(i) =>
      PairSound(url, i);
      PairShape(t, url, i, EncodeSegment(v), EncodeSegment(sub));
    case None =>
      SingleSound(url);
  }

  lemma PairShape(t: string, url: string, i: nat, e1: string, e2: string)
    requires t == Scheme + url
    requires OccursAt(url, SubfileMarker, i)
    requires url[..i] == e1
    requires BeforeFirst(url[i + |SubfileMarker|..], '&') == e2
    ensures var p := Scheme + e1 + SubfileMarker + e2;
      |p| <= |t| && t[..|p|] == p && (|p| == |t| || t[|p|] == '&')
  {
    PairPrefix(url, i, e1, e2);
    PrefixBeforeAmpersand(Scheme, url, e1 + SubfileMarker + e2);
    assert Scheme + e1 + SubfileMarker + e2 == Scheme + (e1 + SubfileMarker + e2);
  }

  lemma PrefixBeforeAmpersand(s: string, url: string, q: string)
    requires |q| <= |url| && url[..|q|] == q && (|q| == |url| || url[|q|] == '&')
    ensures var t := s + url;
      |s + q| <= |t| && t[..|s + q|] == s + q && (|s + q| == |t| || t[|s + q|] == '&')
  {
    var t := s + url;
    assert t[..|s + q|] == s + url[..|q|];
  }

  lemma PairPrefix(url: string, i: nat, e1: string, e2: string)
    requires OccursAt(url, SubfileMarker, i)
    requires url[..i] == e1
    requires BeforeFirst(url[i + |SubfileMarker|..], '&') == e2
    ensures var n := i + |SubfileMarker| + |e2|;
      n <= |url| && url[..n] == e1 + SubfileMarker + e2 && (n == |url| || url[n] == '&')
  {
    var m := i + |SubfileMarker|;
    var tail := url[m..];
    assert tail[..|e2|] == e2;
    var n := m + |e2|;
    assert url[..n] == url[..i] + url[i..m] + tail[..|e2|];
    assert n < |url| ==> url[n] == tail[|e2|];
  }

  lemma PairSound(url: string, i: nat)
    requires i + |SubfileMarker| <= |url| && ExtractPair(url, i).Ok?
    ensures url[..i] == EncodeSegment(ExtractPair(url, i).value.0)
    ensures BeforeFirst(url[i + |SubfileMarker|..], '&') == EncodeSegment(ExtractPair(url, i).value.1)
  {
    SegmentCanonical(url[..i], VideoNotBase64);
    SegmentCanonical(BeforeFirst(url[i + |SubfileMarker|..], '&'), SubtitleNotBase64);
  }

  lemma SingleSound(url: string)
    requires ExtractSingle(url).Ok?
    ensures url == EncodeSegment(ExtractSingle(url).value.0)
  {
    SegmentCanonical(url, VideoNotBase64);
  }

  // ---- extract_params ----

  /** What `url::Url::parse` yields for the media address, as far as
      `extract_params` reads it: the scheme, the host (None when the URL has
      none), the path, and the query as percent-decoded key/value pairs in
      order. */
  datatype ParsedUrl = ParsedUrl(scheme: string, host: Option<string>, path: string, query: seq<(string, string)>)

  /** The `M4` record. */
  datatype SessionParams = SessionParams(host: string, itemId: string, mediaSourceId: string, apiKey: string)

  datatype ExtractError =
    | InvalidStreamingUrl      // the URL parser refused the address
    | HostnameNotFound
    | MissingMediaSourceId
    | MissingApiKey
    | MissingItemId

  /** `query_pairs().find(|(key, _)| key == name)`: the value of the first
      pair with that key. */
  function Lookup(query: seq<(string, string)>, name: string): (r: Option<string>)
    ensures r.None? <==> forall i :: 0 <= i < |query| ==> query[i].0 != name
    ensures r.Some? ==> exists i :: 0 <= i < |query| && query[i] == (name, r.value)
                          && forall j :: 0 <= j < i ==> query[j].0 != name
    decreases |query|
  {
    if |query| == 0 then None
    else if query[0].0 == name then Some(query[0].1)
    else
      var r := Lookup(query[1..], name);
      assert forall i :: 1 <= i < |query| ==> query[i] == query[1..][i - 1];
      r
  }

  const VideosSegment: string := "/videos/"

  /** The end of the run of ASCII digits that starts at `i`. */
  function DigitRunEnd(s: string, i: nat): (e: nat)
    requires i <= |s|
    ensures i <= e <= |s|
    ensures forall k :: i <= k < e ==> IsDigit(s[k])
    ensures e == |s| || !IsDigit(s[e])
    decreases |s| - i
  {
    if i < |s| && IsDigit(s[i]) then DigitRunEnd(s, i + 1) else i
  }

  /** The pattern `/videos/(\d+)/` matches at position `p` of the path. */
  predicate MatchAt(path: string, p: int) {
    && 0 <= p && p + |VideosSegment| <= |path|
    && path[p..p + |VideosSegment|] == VideosSegment
    && var e := DigitRunEnd(path, p + |VideosSegment|);
       p + |VideosSegment| < e < |path| && path[e] == '/'
  }

  /** The last position below `k` at which the pattern matches. */
  function LastMatchBelow(path: string, k: nat): (r: Option<nat>)
    ensures r.Some? ==> r.value < k && MatchAt(path, r.value)
    ensures r.Some? ==> forall q :: r.value < q < k ==> !MatchAt(path, q)
    ensures r.None? ==> forall q :: 0 <= q < k ==> !MatchAt(path, q)
  {
    if k == 0 then None
    else if MatchAt(path, k - 1) then Some(k - 1)
    else LastMatchBelow(path, k - 1)
  }

  // The capture group of the regular expression `^.*/videos/(\d+)/.*` on
  // the path. The greedy `.*` puts the match at the last position where
  // `/videos/`, a digit run and `/` follow one another; the greedy `\d+`
  // takes the whole digit run, which must then be followed by `/`.
  function ItemIdOf(path: string): (r: Option<string>)
    ensures r.Some? <==> exists p :: MatchAt(path, p)
    ensures r.Some? ==> |r.value| > 0 && forall i :: 0 <= i < |r.value| ==> IsDigit(r.value[i])
  {
    match LastMatchBelow(path, |path|)
    case None =>
      assert forall p :: p >= |path| ==> !MatchAt(path, p);
      None
    case Some(p) =>
      var start := p + |VideosSegment|;
      Some(path[start..DigitRunEnd(path, start)])
  }

  /** The item id comes from the last match: the capture sits right after
      `/videos/` at a matching position, and no later position matches. */
  lemma ItemIdIsLastMatch(path: string)
    requires ItemIdOf(path).Some?
    ensures exists p :: (&& MatchAt(path, p)
                         && (forall q :: p < q ==> !MatchAt(path, q))
                         && ItemIdOf(path).value == path[p + |VideosSegment|..DigitRunEnd(path, p + |VideosSegment|)])
  {
    var p := LastMatchBelow(path, |path|).value;
    forall q | p < q ensures !MatchAt(path, q) {
      if q >= |path| { assert !MatchAt(path, q); }
    }
  }

  /** `extract_params`: the host is `scheme://hostname` (no port), then the
      media-source id, the API key and the item id are required, in that
      order. */
  function ExtractParams(url: Option<ParsedUrl>): (r: Result<SessionParams, ExtractError>)
    ensures r.Ok? <==>
      && url.Some? && url.value.host.Some?
      && Lookup(url.value.query, "MediaSourceId").Some?
      && Lookup(url.value.query, "api_key").Some?
      && ItemIdOf(url.value.path).Some?
    ensures r.Ok? ==> r.value.host == url.value.scheme + "://" + url.value.host.value
    ensures r.Ok? ==> |r.value.itemId| > 0 && forall i :: 0 <= i < |r.value.itemId| ==> IsDigit(r.value.itemId[i])
    ensures r.Ok? ==>
      && Lookup(url.value.query, "MediaSourceId") == Some(r.value.mediaSourceId)
      && Lookup(url.value.query, "api_key") == Some(r.value.apiKey)
      && ItemIdOf(url.value.path) == Some(r.value.itemId)
    ensures r == Err(InvalidStreamingUrl) <==> url.None?
    ensures r == Err(HostnameNotFound) <==> url.Some? && url.value.host.None?
    ensures r == Err(MissingMediaSourceId) <==>
      url.Some? && url.value.host.Some? && Lookup(url.value.query, "MediaSourceId").None?
    ensures r == Err(MissingApiKey) <==>
      && url.Some? && url.value.host.Some? && Lookup(url.value.query, "MediaSourceId").Some?
      && Lookup(url.value.query, "api_key").None?
    ensures r == Err(MissingItemId) <==>
      && url.Some? && url.value.host.Some? && Lookup(url.value.query, "MediaSourceId").Some?
      && Lookup(url.value.query, "api_key").Some? && ItemIdOf(url.value.path).None?
  {
    match url
    case None => Err(InvalidStreamingUrl)
    case Some(u) =>
      match u.host
      case None => Err(HostnameNotFound)
      case Some(hostname) =>
        var host := u.scheme + "://" + hostname;
        match Lookup(u.query, "MediaSourceId")
        case None => Err(MissingMediaSourceId)
        case Some(mediaSourceId) =>
          match Lookup(u.query, "api_key")
          case None => Err(MissingApiKey)
          case Some(apiKey) =>
            match ItemIdOf(u.path)
            case None => Err(MissingItemId)
            case Some(itemId) => Ok(SessionParams(host, itemId, mediaSourceId, apiKey))
  }
}
