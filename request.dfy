/** The `request` module of src/network.rs: the decisions the session client
    makes around its HTTP exchanges with the media server. A request is a
    value; the server is a function from requests to responses, so every
    exchange is an input of the model. */
module Request {
  import opened Wrappers
  import opened Text
  import opened Paths
  import opened Config
  import Json

  /** A request as the client issues it. Header names are lower case, as
      `HeaderMap` stores them. */
  datatype HttpRequest =
    | Get(url: string, query: seq<(string, string)>, headers: map<string, string>)
    | Post(url: string, query: seq<(string, string)>, headers: map<string, string>, body: Json.Value)

  /** What the client gets back: nothing (the send failed), or a status, the
      `Location` header if any, and the body read as JSON (None when it is
      not JSON). */
  datatype Response =
    | SendFailed
    | Reply(status: nat, location: Option<string>, body: Option<Json.Value>)

  datatype RequestError =
    | ConfigFailed(cause: ConfigError)  // "Failed to load config"
    | MissingDeviceId                   // `env::var("DEVICE_ID")` failed
    | InvalidHeaderValue(name: string)  // `HeaderValue::from_str` refused the value
    | Unreachable                       // `send()` failed
    | RequestFailed(status: nat)        // "Request failed, <status>"
    | NotJson                           // the body is not JSON
    | LocationNotAscii                  // `HeaderValue::to_str` refused the location

  predicate IsSuccess(status: nat) { 200 <= status < 300 }
  predicate IsRedirection(status: nat) { 300 <= status < 400 }

  // ---- configuration-derived settings ----

  /** `get_ua`: the configured user agent when it is set and non-empty, the
      default one otherwise; never empty. */
  function GetUa(load: Result<Config, ConfigError>): (r: Result<string, RequestError>)
    ensures r.Ok? <==> load.Ok?
    ensures load.Err? ==> r == Err(ConfigFailed(load.error))
    ensures r.Ok? ==> r.value != ""
    ensures load.Ok? && load.value.useragent.Some? && load.value.useragent.value != "" ==>
      r.value == load.value.useragent.value
    ensures load.Ok? && (load.value.useragent.None? || load.value.useragent.value == "") ==>
      r.value == DefaultUa
  {
    match load
    case Err(e) => Err(ConfigFailed(e))
    case Ok(config) =>
      match config.useragent
      case Some(ua) => if ua == "" then Ok(DefaultUa) else Ok(ua)
      case None => Ok(DefaultUa)
  }

  /** `get_proxy`: the configured proxy, or the empty string for none. */
  function GetProxy(load: Result<Config, ConfigError>): (r: Result<string, RequestError>)
    ensures r.Ok? <==> load.Ok?
    ensures load.Err? ==> r == Err(ConfigFailed(load.error))
    ensures load.Ok? ==> (r.value == "" <==> load.value.proxy.None? || load.value.proxy.value == "")
    ensures load.Ok? && load.value.proxy.Some? ==> r.value == load.value.proxy.value
  {
    match load
    case Err(e) => Err(ConfigFailed(e))
    case Ok(config) =>
      match config.proxy
      case Some(proxy) => Ok(proxy)
      case None => Ok("")
  }

  /** With no configuration file, the client uses the default user agent
      and no proxy. */
  lemma DefaultClientSettings(os: Os, exePath: string, home: Option<string>, fs: string -> FileState)
    requires ConfigPath(os, exePath, home).Ok? && fs(ConfigPath(os, exePath, home).value) == Absent
    ensures GetUa(Load(os, exePath, home, fs)) == Ok(DefaultUa)
    ensures GetProxy(Load(os, exePath, home, fs)) == Ok("")
  {
    AbsentFileDefaults(os, exePath, home, fs);
  }

  /** What a client is built with: its user agent and its proxy (empty for
      none). */
  datatype ClientSettings = ClientSettings(ua: string, proxy: string)

  const UserAgentHeader: string := "user-agent"

  /** `build`, and the builder at the head of `_get_redirect`: the proxy
      and the user agent come from the configuration, and a user agent that
      is not a valid header value makes `build()` fail. */
  function BuildClient(load: Result<Config, ConfigError>): (r: Result<ClientSettings, RequestError>)
    ensures r.Ok? <==> load.Ok? && ValidHeaderValue(GetUa(load).value)
    ensures load.Err? ==> r == Err(ConfigFailed(load.error))
    ensures load.Ok? && !ValidHeaderValue(GetUa(load).value) ==> r == Err(InvalidHeaderValue(UserAgentHeader))
    ensures r.Ok? ==> GetUa(load) == Ok(r.value.ua) && GetProxy(load) == Ok(r.value.proxy)
  {
    if load.Err? then Err(ConfigFailed(load.error))
    else if ValidHeaderValue(GetUa(load).value) then Ok(ClientSettings(GetUa(load).value, GetProxy(load).value))
    else Err(InvalidHeaderValue(UserAgentHeader))
  }

  /** `get_device_name`: the host name from the environment (`HOSTNAME` on
      Unix, `COMPUTERNAME` on Windows), or "Unknown". */
  function DeviceName(os: Os, env: string -> Option<string>): (r: string)
    ensures var v := if os == Windows then "COMPUTERNAME" else "HOSTNAME";
      (env(v).Some? ==> r == env(v).value) && (env(v).None? ==> r == "Unknown")
  {
    var name := if os == Windows then "COMPUTERNAME" else "HOSTNAME";
    env(name).UnwrapOr("Unknown")
  }

  // ---- headers ----

  /** The characters `HeaderValue::from_str` accepts: anything from space
      up except DEL, and the tab. (A character beyond ASCII is accepted:
      its UTF-8 bytes are all at least 0x80.) */
  predicate HeaderChar(c: char) {
    (c as int >= 32 && c as int != 127) || c == '\t'
  }

  predicate ValidHeaderValue(s: string) {
    forall i :: 0 <= i < |s| ==> HeaderChar(s[i])
  }

  const TokenHeader: string := "x-emby-token"
  const DeviceIdHeader: string := "x-emby-device-id"
  const DeviceNameHeader: string := "x-emby-device-name"
  const ClientHeader: string := "x-emby-client"
  const UserIdHeader: string := "x-emby-user-id"

  /** The header map `construct_headers` builds, or the first value that
      is missing or refused, in the order the headers are inserted. */
  function Headers(apiKey: string, userId: string, os: Os, env: string -> Option<string>): Result<map<string, string>, RequestError> {
    if !ValidHeaderValue(apiKey) then Err(InvalidHeaderValue(TokenHeader))
    else if env("DEVICE_ID").None? then Err(MissingDeviceId)
    else if !ValidHeaderValue(env("DEVICE_ID").value) then Err(InvalidHeaderValue(DeviceIdHeader))
    else if !ValidHeaderValue(DeviceName(os, env)) then Err(InvalidHeaderValue(DeviceNameHeader))
    else if !ValidHeaderValue(userId) then Err(InvalidHeaderValue(UserIdHeader))
    else Ok(map[TokenHeader := apiKey, DeviceIdHeader := env("DEVICE_ID").value,
                DeviceNameHeader := DeviceName(os, env), ClientHeader := "Emby", UserIdHeader := userId])
  }

  /** `construct_headers`: five headers inserted one after another; the
      first value that is missing or refused stops the construction. */
  method ConstructHeaders(apiKey: string, userId: string, os: Os, env: string -> Option<string>)
    returns (r: Result<map<string, string>, RequestError>)
    ensures r.Ok? <==>
      && ValidHeaderValue(apiKey)
      && env("DEVICE_ID").Some? && ValidHeaderValue(env("DEVICE_ID").value)
      && ValidHeaderValue(DeviceName(os, env))
      && ValidHeaderValue(userId)
    ensures r.Ok? ==> r.value == map[
      TokenHeader := apiKey,
      DeviceIdHeader := env("DEVICE_ID").value,
      DeviceNameHeader := DeviceName(os, env),
      ClientHeader := "Emby",
      UserIdHeader := userId]
    ensures r.Ok? ==> |r.value.Keys| == 5
    ensures !ValidHeaderValue(apiKey) ==> r == Err(InvalidHeaderValue(TokenHeader))
    ensures ValidHeaderValue(apiKey) && env("DEVICE_ID").None? ==> r == Err(MissingDeviceId)
    ensures r == Headers(apiKey, userId, os, env)
  {
    var headers: map<string, string> := map[];
    if !ValidHeaderValue(apiKey) {
      return Err(InvalidHeaderValue(TokenHeader));
    }
    headers := headers[TokenHeader := apiKey];
    var deviceId := env("DEVICE_ID");
    if deviceId.None? {
      return Err(MissingDeviceId);
    }
    if !ValidHeaderValue(deviceId.value) {
      return Err(InvalidHeaderValue(DeviceIdHeader));
    }
    headers := headers[DeviceIdHeader := deviceId.value];
    var deviceName := DeviceName(os, env);
    if !ValidHeaderValue(deviceName) {
      return Err(InvalidHeaderValue(DeviceNameHeader));
    }
    headers := headers[DeviceNameHeader := deviceName];
    headers := headers[ClientHeader := "Emby"];
    if !ValidHeaderValue(userId) {
      return Err(InvalidHeaderValue(UserIdHeader));
    }
    headers := headers[UserIdHeader := userId];
    assert headers.Keys == {TokenHeader, DeviceIdHeader, DeviceNameHeader, ClientHeader, UserIdHeader};
    return Ok(headers);
  }

  // ---- the session lookup ----

  /** `Id`: the user and the play session, as the server names them. */
  datatype Id = Id(userId: string, playSessionId: string)

  /** The request `get_user_id` sends: the credentials travel as query
      pairs, not headers. */
  function SessionsRequest(host: string, apiKey: string, os: Os, env: string -> Option<string>): (r: Result<HttpRequest, RequestError>)
    ensures r.Ok? <==> env("DEVICE_ID").Some?
    ensures r.Ok? ==> r.value.Get? && r.value.url == host + "/emby/Sessions"
    ensures r.Ok? ==> r.value.query == [
      ("X-Emby-Token", apiKey), ("X-Emby-Device-Id", env("DEVICE_ID").value),
      ("X-Emby-Device-Name", DeviceName(os, env)), ("X-Emby-Client", "Emby")]
  {
    match env("DEVICE_ID")
    case None => Err(MissingDeviceId)
    case Some(deviceId) =>
      Ok(Get(host + "/emby/Sessions",
             [("X-Emby-Token", apiKey), ("X-Emby-Device-Id", deviceId),
              ("X-Emby-Device-Name", DeviceName(os, env)), ("X-Emby-Client", "Emby")],
             map[]))
  }

  /** The JSON body of a successful reply: not sent, not a success status
      and not JSON are errors, in that order. */
  function JsonReply(response: Response): (r: Result<Json.Value, RequestError>)
    ensures r.Ok? <==> response.Reply? && IsSuccess(response.status) && response.body.Some?
    ensures r.Ok? ==> r.value == response.body.value
    ensures response == SendFailed ==> r == Err(Unreachable)
    ensures response.Reply? && !IsSuccess(response.status) ==> r == Err(RequestFailed(response.status))
  {
    match response
    case SendFailed => Err(Unreachable)
    case Reply(status, _, body) =>
      if !IsSuccess(status) then Err(RequestFailed(status))
      else
        match body
        case None => Err(NotJson)
        case Some(json) => Ok(json)
  }

  /** A JSON value written with `Display` and stripped of the quote
      characters at both ends. */
  function Unquoted(v: Json.Value): string {
    TrimMatches(Json.Display(v), '"')
  }

  /** `get_user_id`: the `UserId` and `Id` of the first session listed. */
  function GetUserId(host: string, apiKey: string, os: Os, env: string -> Option<string>,
                     server: HttpRequest -> Response): (r: Result<Id, RequestError>)
    ensures r.Ok? <==> SessionsRequest(host, apiKey, os, env).Ok?
                       && JsonReply(server(SessionsRequest(host, apiKey, os, env).value)).Ok?
    ensures r.Ok? ==>
      var first := Json.At(JsonReply(server(SessionsRequest(host, apiKey, os, env).value)).value, 0);
      r.value == Id(Unquoted(Json.Get(first, "UserId")), Unquoted(Json.Get(first, "Id")))
  {
    var request :- SessionsRequest(host, apiKey, os, env);
    var json :- JsonReply(server(request));
    var first := Json.At(json, 0);
    Ok(Id(Unquoted(Json.Get(first, "UserId")), Unquoted(Json.Get(first, "Id"))))
  }

  /** An identifier made of plain characters comes back exactly; an absent
      one comes back as the text "null". */
  lemma UnquotedIdentifier(s: string)
    requires forall i :: 0 <= i < |s| ==> Json.Plain(s[i])
    ensures Unquoted(Json.Str(s)) == s
  {
    Json.DisplayPlainString(s);
  }

  lemma UnquotedNull()
    ensures Unquoted(Json.Null) == "null"
  {
    assert Json.Display(Json.Null) == "null";
    TrimMatchesFramed("null", '"');
  }

  // ---- status reports ----

  datatype PlayStatus = Play | Progress | Stop

  /** The endpoint each report goes to. */
  function StatusUrl(host: string, status: PlayStatus): (url: string)
    ensures status == Play ==> url == host + "/emby/Sessions/Playing"
    ensures status == Progress ==> url == host + "/emby/Sessions/Playing/Progress"
    ensures status == Stop ==> url == host + "/emby/Sessions/Playing/Stopped"
  {
    match status
    case Play => host + "/emby/Sessions/Playing"
    case Progress => host + "/emby/Sessions/Playing/Progress"
    case Stop => host + "/emby/Sessions/Playing/Stopped"
  }

  /** The body `playing_status` posts, with its members in the order
      serde_json keeps them. */
  function PlaybackBody(playSessionId: string, mediaSourceId: string, itemId: string, ticks: nat): Json.Value {
    Json.Object([
      ("BufferedRanges", Json.Array([])),
      ("CanSeek", Json.Bool(true)),
      ("IsMuted", Json.Bool(false)),
      ("IsPaused", Json.Bool(false)),
      ("ItemId", Json.Str(itemId)),
      ("MaxStreamingBitrate", Json.Int(1000000000)),
      ("MediaSourceId", Json.Str(mediaSourceId)),
      ("PlayMethod", Json.Str("DirectStream")),
      ("PlaySessionId", Json.Str(playSessionId)),
      ("PlaybackRate", Json.Int(1)),
      ("PositionTicks", Json.Int(ticks)),
      ("RepeatMode", Json.Str("RepeatNone")),
      ("SubtitleOffset", Json.Int(0))])
  }

  /** The report carries the position, the play session and the item it is
      about. */
  lemma PlaybackBodyFields(playSessionId: string, mediaSourceId: string, itemId: string, ticks: nat)
    ensures var body := PlaybackBody(playSessionId, mediaSourceId, itemId, ticks);
      && Json.Get(body, "PositionTicks") == Json.Int(ticks)
      && Json.Get(body, "PlaySessionId") == Json.Str(playSessionId)
      && Json.Get(body, "MediaSourceId") == Json.Str(mediaSourceId)
      && Json.Get(body, "ItemId") == Json.Str(itemId)
  {
    BodyMember(playSessionId, mediaSourceId, itemId, ticks, 10, "PositionTicks");
    BodyMember(playSessionId, mediaSourceId, itemId, ticks, 8, "PlaySessionId");
    BodyMember(playSessionId, mediaSourceId, itemId, ticks, 6, "MediaSourceId");
    BodyMember(playSessionId, mediaSourceId, itemId, ticks, 4, "ItemId");
  }

  lemma BodyMember(playSessionId: string, mediaSourceId: string, itemId: string, ticks: nat, k: nat, key: string)
    requires k in {4, 6, 8, 10}
    requires key == PlaybackBody(playSessionId, mediaSourceId, itemId, ticks).members[k].0
    ensures var body := PlaybackBody(playSessionId, mediaSourceId, itemId, ticks);
      Json.Get(body, key) == body.members[k].1
  {
    var ms := PlaybackBody(playSessionId, mediaSourceId, itemId, ticks).members;
    Json.MemberAt(ms, k, key);
  }

  /** `playing_status`: the report request it posts, or the error of the
      session lookup it makes first. The outcome of the post itself is only
      printed; the function succeeds whether the server answers or not. */
  function PlayingStatus(ticks: nat, host: string, itemId: string, apiKey: string, mediaSourceId: string,
                         status: PlayStatus, headers: map<string, string>, os: Os,
                         env: string -> Option<string>, server: HttpRequest -> Response): (r: Result<HttpRequest, RequestError>)
    ensures r.Ok? <==> GetUserId(host, apiKey, os, env, server).Ok?
    ensures r.Err? ==> r.error == GetUserId(host, apiKey, os, env, server).error
    ensures r.Ok? ==> r.value.Post? && r.value.url == StatusUrl(host, status)
                      && r.value.query == [("reqformat", "json")] && r.value.headers == headers
    ensures r.Ok? ==> r.value.body == PlaybackBody(GetUserId(host, apiKey, os, env, server).value.playSessionId,
                                                   mediaSourceId, itemId, ticks)
  {
    var id :- GetUserId(host, apiKey, os, env, server);
    var body := PlaybackBody(id.playSessionId, mediaSourceId, itemId, ticks);
    Ok(Post(StatusUrl(host, status), [("reqformat", "json")], headers, body))
  }

  /** The report does not depend on how the server answers the report
      itself: two servers that answer the session lookup alike give the
      same result, even if one of them fails the post. */
  lemma PlayingStatusIgnoresReply(ticks: nat, host: string, itemId: string, apiKey: string, mediaSourceId: string,
                                  status: PlayStatus, headers: map<string, string>, os: Os,
                                  env: string -> Option<string>, s1: HttpRequest -> Response, s2: HttpRequest -> Response)
    requires SessionsRequest(host, apiKey, os, env).Ok?
    requires s1(SessionsRequest(host, apiKey, os, env).value) == s2(SessionsRequest(host, apiKey, os, env).value)
    ensures PlayingStatus(ticks, host, itemId, apiKey, mediaSourceId, status, headers, os, env, s1)
         == PlayingStatus(ticks, host, itemId, apiKey, mediaSourceId, status, headers, os, env, s2)
  {
  }

  // ---- the chapter title ----

  /** `json["Items"][0]`: the first item of a listing. */
  function FirstItem(json: Json.Value): Json.Value {
    Json.At(Json.Get(json, "Items"), 0)
  }

  /** The title `get_chapter_info` builds from the first item: episodes and
      movies are written with `Display`, so string fields keep their
      quotes; any other type gives the empty title. */
  function ChapterTitle(item: Json.Value): string {
    var kind := Json.Get(item, "Type");
    if kind == Json.Str("Episode") then
      Json.Display(Json.Get(item, "SeriesName")) + " - S" + Json.Display(Json.Get(item, "ParentIndexNumber"))
        + "E" + Json.Display(Json.Get(item, "IndexNumber")) + " - " + Json.Display(Json.Get(item, "Name"))
    else if kind == Json.Str("Movie") then Json.Display(Json.Get(item, "Name"))
    else ""
  }

  function ItemsRequest(host: string, itemId: string, headers: map<string, string>): HttpRequest {
    Get(host + "/emby/Items?Ids=" + itemId, [], headers)
  }

  /** `get_chapter_info`. */
  function GetChapterInfo(host: string, itemId: string, headers: map<string, string>,
                          server: HttpRequest -> Response): (r: Result<string, RequestError>)
    ensures r.Ok? <==> JsonReply(server(ItemsRequest(host, itemId, headers))).Ok?
    ensures r.Ok? ==> r.value == ChapterTitle(FirstItem(JsonReply(server(ItemsRequest(host, itemId, headers))).value))
  {
    var json :- JsonReply(server(ItemsRequest(host, itemId, headers)));
    Ok(ChapterTitle(FirstItem(json)))
  }

  /** An episode as the server lists it, members in key order. */
  function EpisodeItem(series: string, season: nat, episode: nat, name: string): Json.Value {
    Json.Object([
      ("IndexNumber", Json.Int(episode)), ("Name", Json.Str(name)),
      ("ParentIndexNumber", Json.Int(season)), ("SeriesName", Json.Str(series)),
      ("Type", Json.Str("Episode"))])
  }

  lemma EpisodeMember(series: string, season: nat, episode: nat, name: string, k: nat, key: string)
    requires k < 5 && key == EpisodeItem(series, season, episode, name).members[k].0
    ensures var item := EpisodeItem(series, season, episode, name);
      Json.Get(item, key) == item.members[k].1
  {
    Json.MemberAt(EpisodeItem(series, season, episode, name).members, k, key);
  }

  /** An episode is titled `"<series>" - S<season>E<episode> - "<name>"`:
      the quotes come from `Display`. */
  lemma EpisodeTitle(series: string, season: nat, episode: nat, name: string)
    requires forall i :: 0 <= i < |series| ==> Json.Plain(series[i])
    requires forall i :: 0 <= i < |name| ==> Json.Plain(name[i])
    ensures ChapterTitle(EpisodeItem(series, season, episode, name))
         == "\"" + series + "\"" + " - S" + NatToString(season) + "E" + NatToString(episode) + " - " + ("\"" + name + "\"")
  {
    EpisodeTitleQuoted(series, season, episode, name);
    Json.QuotePlain(series);
    Json.QuotePlain(name);
  }

  lemma EpisodeTitleQuoted(series: string, season: nat, episode: nat, name: string)
    ensures ChapterTitle(EpisodeItem(series, season, episode, name))
         == Json.Quote(series) + " - S" + NatToString(season) + "E" + NatToString(episode) + " - " + Json.Quote(name)
  {
    var item := EpisodeItem(series, season, episode, name);
    EpisodeMember(series, season, episode, name, 4, "Type");
    EpisodeMember(series, season, episode, name, 3, "SeriesName");
    EpisodeMember(series, season, episode, name, 2, "ParentIndexNumber");
    EpisodeMember(series, season, episode, name, 0, "IndexNumber");
    EpisodeMember(series, season, episode, name, 1, "Name");
    assert Json.Display(Json.Get(item, "SeriesName")) == Json.Quote(series);
    assert Json.Display(Json.Get(item, "ParentIndexNumber")) == NatToString(season);
    assert Json.Display(Json.Get(item, "IndexNumber")) == NatToString(episode);
    assert Json.Display(Json.Get(item, "Name")) == Json.Quote(name);
  }

  /** A movie is titled with its quoted name; an item of any other type has
      the empty title. */
  lemma MovieAndOtherTitles(name: string, kind: string)
    requires forall i :: 0 <= i < |name| ==> Json.Plain(name[i])
    requires kind != "Episode" && kind != "Movie"
    ensures ChapterTitle(Json.Object([("Name", Json.Str(name)), ("Type", Json.Str("Movie"))])) == "\"" + name + "\""
    ensures ChapterTitle(Json.Object([("Name", Json.Str(name)), ("Type", Json.Str(kind))])) == ""
  {
    NamedItem(name, "Movie");
    Json.DisplayPlainString(name);
    NamedItem(name, kind);
  }

  /** An item with a name and a type that is not an episode. */
  lemma NamedItem(name: string, kind: string)
    requires kind != "Episode"
    ensures var item := Json.Object([("Name", Json.Str(name)), ("Type", Json.Str(kind))]);
      && (kind == "Movie" ==> ChapterTitle(item) == Json.Display(Json.Str(name)))
      && (kind != "Movie" ==> ChapterTitle(item) == "")
  {
    var members := [("Name", Json.Str(name)), ("Type", Json.Str(kind))];
    Json.MemberAt(members, 1, "Type");
    Json.MemberAt(members, 0, "Name");
    TitleOfKind(Json.Object(members), kind);
  }

  lemma TitleOfKind(item: Json.Value, kind: string)
    requires Json.Get(item, "Type") == Json.Str(kind) && kind != "Episode"
    ensures kind == "Movie" ==> ChapterTitle(item) == Json.Display(Json.Get(item, "Name"))
    ensures kind != "Movie" ==> ChapterTitle(item) == ""
  {
  }

  // ---- the resume position ----

  function UserItemsRequest(host: string, userId: string, itemId: string, headers: map<string, string>): HttpRequest {
    Get(host + "/emby/Users/" + userId + "/Items?Ids=" + itemId, [], headers)
  }

  /** The stored position of the first item, 0 when it is absent or not an
      unsigned 64-bit integer. */
  function PositionTicks(json: Json.Value): (t: nat)
    ensures t < Json.U64Limit
  {
    Json.AsU64(Json.Get(Json.Get(FirstItem(json), "UserData"), "PlaybackPositionTicks")).UnwrapOr(0)
  }

  /** `get_start_position`: the session lookup, then the user's view of the
      item. */
  function GetStartPosition(host: string, apiKey: string, itemId: string, headers: map<string, string>,
                            os: Os, env: string -> Option<string>, server: HttpRequest -> Response): (r: Result<nat, RequestError>)
    ensures r.Ok? <==> (GetUserId(host, apiKey, os, env, server).Ok?
      && JsonReply(server(UserItemsRequest(host, GetUserId(host, apiKey, os, env, server).value.userId, itemId, headers))).Ok?)
    ensures r.Ok? ==> r.value < Json.U64Limit
    ensures r.Ok? ==> r.value == PositionTicks(JsonReply(server(UserItemsRequest(
      host, GetUserId(host, apiKey, os, env, server).value.userId, itemId, headers))).value)
  {
    var id :- GetUserId(host, apiKey, os, env, server);
    var json :- JsonReply(server(UserItemsRequest(host, id.userId, itemId, headers)));
    Ok(PositionTicks(json))
  }

  /** A stored position is taken as it is; without one playback starts at
      0. */
  lemma PositionTicksDefault(ticks: nat, other: Json.Value)
    requires ticks < Json.U64Limit
    requires !(other.Int? && 0 <= other.i < Json.U64Limit)
    ensures PositionTicks(Json.Object([("Items", Json.Array([Json.Object([("UserData",
              Json.Object([("PlaybackPositionTicks", Json.Int(ticks))]))])]))])) == ticks
    ensures PositionTicks(Json.Object([("Items", Json.Array([Json.Object([("UserData",
              Json.Object([("PlaybackPositionTicks", other)]))])]))])) == 0
    ensures PositionTicks(Json.Array([])) == 0
  {
  }

  // ---- the redirect follower ----

  /** The characters `HeaderValue::to_str` accepts: visible ASCII and tab. */
  predicate VisibleAscii(s: string) {
    forall i :: 0 <= i < |s| ==> (32 <= s[i] as int < 127) || s[i] == '\t'
  }

  /** The requests a client without automatic redirects sends: its user
      agent and the given headers; `default_headers` is applied after
      `user_agent`, so a `user-agent` among the given headers wins. */
  function RedirectRequest(url: string, headers: map<string, string>, ua: string): (req: HttpRequest)
    ensures req.Get? && req.url == url && req.query == []
    ensures req.headers.Keys == headers.Keys + {UserAgentHeader}
    ensures forall h :: h in headers ==> req.headers[h] == headers[h]
    ensures UserAgentHeader !in headers ==> req.headers[UserAgentHeader] == ua
  {
    Get(url, [], map[UserAgentHeader := ua] + headers)
  }

  /** Where following at most `budget` redirects from `url` ends, and the
      addresses requested on the way. */
  function Follow(url: string, headers: map<string, string>, ua: string,
                  server: HttpRequest -> Response, budget: nat): (r: (Result<string, RequestError>, seq<string>))
    ensures |r.1| <= budget
    ensures budget > 0 ==> |r.1| > 0 && r.1[0] == url
    ensures budget == 0 ==> r == (Ok(url), [])
    decreases budget
  {
    if budget == 0 then (Ok(url), [])
    else
      match server(RedirectRequest(url, headers, ua))
      case SendFailed => (Err(Unreachable), [url])
      case Reply(status, location, _) =>
        if !IsRedirection(status) || location.None? then (Ok(url), [url])
        else if !VisibleAscii(location.value) then (Err(LocationNotAscii), [url])
        else
          var next := Follow(location.value, headers, ua, server, budget - 1);
          (next.0, [url] + next.1)
  }

  /** `_get_redirect`: follows `Location` headers of 3xx answers, at most
      three requests in all. */
  method GetRedirect(url: string, headers: map<string, string>, load: Result<Config, ConfigError>,
                     server: HttpRequest -> Response)
    returns (r: Result<string, RequestError>, requested: seq<string>)
    ensures BuildClient(load).Err? ==> r == Err(BuildClient(load).error) && requested == []
    ensures BuildClient(load).Ok? ==> (r, requested) == Follow(url, headers, BuildClient(load).value.ua, server, 3)
    ensures |requested| <= 3
  {
    requested := [];
    var client := BuildClient(load);
    if client.Err? {
      return Err(client.error), requested;
    }
    var ua := client.value.ua;
    ghost var target := Follow(url, headers, ua, server, 3);
    var current := url;
    var timer := 0;
    assert requested + target.1 == target.1;
    while timer < 3
      invariant 0 <= timer <= 3 && |requested| == timer
      invariant target == Resumed(requested, Follow(current, headers, ua, server, 3 - timer))
    {
      var response := server(RedirectRequest(current, headers, ua));
      FollowUnfold(current, headers, ua, server, 3 - timer);
      if response.SendFailed? {
        ResumedLast(target, requested, current, Err(Unreachable));
        return Err(Unreachable), requested + [current];
      }
      if !IsRedirection(response.status) || response.location.None? {
        ResumedLast(target, requested, current, Ok(current));
        return Ok(current), requested + [current];
      }
      if !VisibleAscii(response.location.value) {
        ResumedLast(target, requested, current, Err(LocationNotAscii));
        return Err(LocationNotAscii), requested + [current];
      }
      ResumedNext(target, requested, current, Follow(response.location.value, headers, ua, server, 2 - timer));
      requested := requested + [current];
      current := response.location.value;
      timer := timer + 1;
    }
    assert Follow(current, headers, ua, server, 0) == (Ok(current), []);
    assert requested + [] == requested;
    return Ok(current), requested;
  }

  /** The end of a walk, after the addresses already requested. */
  function Resumed(requested: seq<string>, rest: (Result<string, RequestError>, seq<string>)): (Result<string, RequestError>, seq<string>) {
    (rest.0, requested + rest.1)
  }

  lemma ResumedNext(target: (Result<string, RequestError>, seq<string>), requested: seq<string>, current: string,
                    next: (Result<string, RequestError>, seq<string>))
    requires target == Resumed(requested, (next.0, [current] + next.1))
    ensures target == Resumed(requested + [current], next)
  {
    assert requested + ([current] + next.1) == requested + [current] + next.1;
  }

  lemma ResumedLast(target: (Result<string, RequestError>, seq<string>), requested: seq<string>, current: string,
                    r: Result<string, RequestError>)
    requires target == Resumed(requested, (r, [current]))
    ensures target == (r, requested + [current])
  {
  }

  /** One round of the redirect follower. */
  lemma FollowUnfold(url: string, headers: map<string, string>, ua: string, server: HttpRequest -> Response, budget: nat)
    requires budget > 0
    ensures var response := server(RedirectRequest(url, headers, ua));
      var f := Follow(url, headers, ua, server, budget);
      && (response.SendFailed? ==> f == (Err(Unreachable), [url]))
      && (response.Reply? && (!IsRedirection(response.status) || response.location.None?) ==> f == (Ok(url), [url]))
      && (response.Reply? && IsRedirection(response.status) && response.location.Some?
          && !VisibleAscii(response.location.value)
          ==> f == (Err(LocationNotAscii), [url]))
      && (response.Reply? && IsRedirection(response.status) && response.location.Some?
          && VisibleAscii(response.location.value)
          ==> f == (Follow(response.location.value, headers, ua, server, budget - 1).0,
                    [url] + Follow(response.location.value, headers, ua, server, budget - 1).1))
  {
  }

  /** A first answer that is not a redirect, or a redirect without
      `Location`, leaves the address as it is after one request. */
  lemma FollowStops(url: string, headers: map<string, string>, ua: string, server: HttpRequest -> Response)
    ensures server(RedirectRequest(url, headers, ua)).Reply?
         && !IsRedirection(server(RedirectRequest(url, headers, ua)).status)
         ==> Follow(url, headers, ua, server, 3) == (Ok(url), [url])
    ensures server(RedirectRequest(url, headers, ua)).Reply?
         && server(RedirectRequest(url, headers, ua)).location.None?
         ==> Follow(url, headers, ua, server, 3) == (Ok(url), [url])
  {
  }

  /** Three redirects in a row end at the third `Location`, without a
      fourth request. */
  lemma FollowThreeRedirects(url: string, headers: map<string, string>, ua: string, server: HttpRequest -> Response,
                             l1: string, l2: string, l3: string)
    requires VisibleAscii(l1) && VisibleAscii(l2) && VisibleAscii(l3)
    requires server(RedirectRequest(url, headers, ua)) == Reply(302, Some(l1), None)
    requires server(RedirectRequest(l1, headers, ua)) == Reply(302, Some(l2), None)
    requires server(RedirectRequest(l2, headers, ua)) == Reply(302, Some(l3), None)
    ensures Follow(url, headers, ua, server, 3) == (Ok(l3), [url, l1, l2])
  {
    var f3 := Follow(l3, headers, ua, server, 0);
    assert f3 == (Ok(l3), []);
    var f2 := Follow(l2, headers, ua, server, 1);
    assert f2 == (f3.0, [l2] + f3.1);
    var f1 := Follow(l1, headers, ua, server, 2);
    assert f1 == (f2.0, [l1] + f2.1);
    assert Follow(url, headers, ua, server, 3) == (f1.0, [url] + f1.1);
    assert f1.0 == Ok(l3) && [url] + f1.1 == [url, l1, l2];
  }

  /** The reply to `from` is a redirect whose `Location` is `to` and can be
      read as text: the follower goes on to `to`. */
  predicate Redirects(headers: map<string, string>, ua: string, server: HttpRequest -> Response,
                      from: string, to: string) {
    var response := server(RedirectRequest(from, headers, ua));
    response.Reply? && IsRedirection(response.status) && response.location == Some(to) && VisibleAscii(to)
  }

  /** The reply to `at` is not a redirect, or is one without `Location`:
      the follower stops at `at`. */
  predicate Settles(headers: map<string, string>, ua: string, server: HttpRequest -> Response, at: string) {
    var response := server(RedirectRequest(at, headers, ua));
    response.Reply? && (!IsRedirection(response.status) || response.location.None?)
  }

  /** Each requested address after the first is the `Location` of the
      redirect answered to the one before it. */
  predicate Chain(headers: map<string, string>, ua: string, server: HttpRequest -> Response, path: seq<string>) {
    forall k :: 0 <= k < |path| - 1 ==> Redirects(headers, ua, server, path[k], path[k + 1])
  }

  /** Where the walk ends, for every server: the addresses requested form a
      chain of redirects from the first, and the answer to the last one
      decides the result — a failed send and an unreadable `Location` are
      errors, an answer that is not a followed redirect gives the last
      address, and a redirect is followed only when the budget is spent,
      giving its `Location`. */
  lemma {:induction false} FollowEnds(url: string, headers: map<string, string>, ua: string,
                                      server: HttpRequest -> Response, budget: nat)
    requires budget > 0
    ensures var (r, path) := Follow(url, headers, ua, server, budget);
      var last := path[|path| - 1];
      var response := server(RedirectRequest(last, headers, ua));
      && Chain(headers, ua, server, path)
      && (response.SendFailed? ==> r == Err(Unreachable))
      && (Settles(headers, ua, server, last) ==> r == Ok(last))
      && (response.Reply? && IsRedirection(response.status) && response.location.Some?
          && !VisibleAscii(response.location.value)
          ==> r == Err(LocationNotAscii))
      && (forall to :: Redirects(headers, ua, server, last, to) ==> |path| == budget && r == Ok(to))
    decreases budget
  {
    FollowUnfold(url, headers, ua, server, budget);
    var response := server(RedirectRequest(url, headers, ua));
    if response.Reply? && IsRedirection(response.status) && response.location.Some?
       && VisibleAscii(response.location.value) {
      var to := response.location.value;
      assert Redirects(headers, ua, server, url, to);
      if budget == 1 {
        assert Follow(to, headers, ua, server, 0) == (Ok(to), []);
      } else {
        FollowEnds(to, headers, ua, server, budget - 1);
        FollowStep(url, to, headers, ua, server, budget);
      }
    }
  }

  /** A followed redirect puts its address in front of the chain walked
      from its `Location`. */
  lemma FollowStep(url: string, to: string, headers: map<string, string>, ua: string,
                   server: HttpRequest -> Response, budget: nat)
    requires budget > 1 && Redirects(headers, ua, server, url, to)
    requires Chain(headers, ua, server, Follow(to, headers, ua, server, budget - 1).1)
    ensures var next := Follow(to, headers, ua, server, budget - 1);
      && Follow(url, headers, ua, server, budget) == (next.0, [url] + next.1)
      && Chain(headers, ua, server, [url] + next.1)
      && ([url] + next.1)[|[url] + next.1| - 1] == next.1[|next.1| - 1]
  {
    FollowUnfold(url, headers, ua, server, budget);
    var next := Follow(to, headers, ua, server, budget - 1);
    var path := [url] + next.1;
    forall k | 0 <= k < |path| - 1
      ensures Redirects(headers, ua, server, path[k], path[k + 1])
    {
      if k > 0 {
        assert path[k] == next.1[k - 1] && path[k + 1] == next.1[k];
      }
    }
  }

  /** A redirect and then an answer that is not one end at the redirect's
      `Location`, after two requests. */
  lemma FollowRedirectThenStop(url: string, headers: map<string, string>, ua: string,
                               server: HttpRequest -> Response, l1: string)
    requires Redirects(headers, ua, server, url, l1) && Settles(headers, ua, server, l1)
    ensures Follow(url, headers, ua, server, 3) == (Ok(l1), [url, l1])
  {
    FollowUnfold(url, headers, ua, server, 3);
    FollowUnfold(l1, headers, ua, server, 2);
    assert [url] + [l1] == [url, l1];
  }
}
