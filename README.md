# mpv-handler in Dafny

mpv-handler is the program a browser starts for `mpv://play/...` links on an
Emby media server page. It does the following, in order:

- It decodes the link into the media address and an optional subtitle
  address. Each is unpadded base64url (section 5 of RFC 4648) over UTF-8
  (RFC 3629).
- It reads the server, the item, the media source and the API key from the
  media address.
- It asks the server for the session, the chapter title and the resume
  position.
- It starts the `mpv` player with a fixed argument list.
- It reports Play to the server, then a Progress report at most every ten
  seconds while the player runs, then Stop with the last known position.

A companion window, `handler-config`, writes two files:

- the Windows registry file that declares the `mpv://` protocol, in UTF-16LE
  (RFC 2781) with a byte order mark;
- the `mpv-handler.toml` file that names the player.

The model follows the program's modules:

| File | Module | What it models |
|---|---|---|
| `extractor.dfy` | `Extractor` | `extract_urls` and `extract_params` |
| `request.dfy` | `Request` | the session client: headers, user agent, proxy, session lookup, status reports, chapter title, resume position, redirects |
| `coordinator.dfy` | `Coordinator` | `main`: the player `Command`, its arguments, the polling loop and the whole run |
| `config.dfy` | `Config` | `src/config.rs` |
| `handler_config.dfy` | `HandlerConfig` | the generator window and its two files |

Supporting modules hold the reference definitions the contracts use:

| File | Module | What it defines |
|---|---|---|
| `base64url.dfy` | `Base64Url` | base64url without padding |
| `utf8.dfy` | `Utf8` | UTF-8 |
| `json.dfy` | `Json` | the parts of serde_json's `Value` that are read: indexing, `as_u64` and `Display` |
| `text.dfy` | `Text` | the Rust `str` operations used |
| `paths.dfy` | `Paths` | `Path::parent` and `Path::join` |
| `wrappers.dfy` | `Wrappers` | `Option` and `Result` |
| `bytes.dfy` | `Bytes` | bytes |

Effects become inputs:

- The media server is a function from requests to responses.
- The environment is a function from variable names to optional values.
- The configuration file is its already-deserialised state.
- The URL parser's output is a record of scheme, host, path and decoded query pairs.
- The player's life is a trace of rounds. Each round holds the `try_wait`
  answer, the clock reading in milliseconds, and the position query's outcome.
- File creation and each write come with an optional error.

How the model reads the code:

- The host is `scheme://hostname` (src/network.rs:51-55). A port in the media
  address is dropped.
- `src/main.rs` does not compile against `src/network.rs`. It destructures a
  `Result`, passes the API key where a header map is due, leaves out arguments,
  and calls `.arg` on a `Result`. The model takes its evident intent: every
  fallible step before the player starts is unwrapped. So a failed
  chapter-title request aborts the run.
- `extract_params` has one way of reading the parameters: the query pairs for
  `MediaSourceId` and `api_key`, and the path pattern for the item id.
- The shared client of `client()` is built at the first exchange with the
  server. A configuration that cannot be read, or a user agent that is not a
  valid header value, makes `build()` fail and `client()` panic before any
  request is sent.
- The fresh device id is stored in `DEVICE_ID` before the headers are built.
- The headers come from `construct_headers`, called with the API key and the
  user id of the session lookup.
- Status reports are sent and their results ignored.

## Model

| member | source | states |
|---|---|---|
| Extractor.ExtractUrls | src/network.rs:7-39 | fails with the scheme error exactly when the input, with its trailing `=` trimmed, does not start with `mpv://play/`; without `/?subfile=` after the scheme the subtitle address is empty |
| Extractor.ExtractPair | src/network.rs:13-32 | the media part ends at the first `/?subfile=` and the subtitle part at its first `&`; a media part that is not base64url fails first, then a subtitle part that is not, and the result is the UTF-8 text of both decodings exactly when both decode |
| Extractor.ExtractSingle | src/network.rs:33-38 | the whole remainder is the media part; it fails on bad base64url, and otherwise yields the UTF-8 text of the bytes with an empty subtitle address |
| Extractor.ExtractUrlsSingle | src/network.rs:33-37 | round trip: the scheme followed by the encoding of any text decodes to that text and an empty subtitle |
| Extractor.ExtractUrlsWithSubtitle | src/network.rs:13-32 | round trip with a subtitle: `mpv://play/` + e1 + `/?subfile=` + e2 + `&` + anything decodes to the two texts |
| Extractor.ExtractHandlerUrl | src/network.rs:7-39 | the canonical handler URL of any pair of addresses decodes back to that pair |
| Extractor.ExtractUrlsEmptySubtitle | src/network.rs:8-17 | a marker with nothing after it is eaten by the trimming of `=` and the URL fails to decode |
| Extractor.ExtractUrlsSound | src/network.rs:7-39 | every accepted input is, after trimming, the canonical encoding of what it decodes to (followed by nothing or by `&` and anything), so a segment that is not base64url or not UTF-8 makes the call fail |
| Extractor.SegmentRoundTrip | src/network.rs:15-31 | decoding the encoding of a text's UTF-8 bytes gives the bytes back, and the bytes decode to the text |
| Extractor.SegmentCanonical | src/network.rs:15-31 | a segment that decodes is the encoding of the text it decodes to |
| Extractor.Lookup | src/network.rs:58-61 | the value of the first query pair with the key; none exactly when no pair has it |
| Extractor.ItemIdOf | src/network.rs:75-82 | an item id exists exactly when `/videos/`, a digit run and `/` occur in the path; it is a non-empty run of digits |
| Extractor.ItemIdIsLastMatch | src/network.rs:75-82 | the item id is the digit run of the last matching position of the path |
| Extractor.ExtractParams | src/network.rs:48-90 | succeeds exactly when the URL parses, has a host, and has `MediaSourceId`, `api_key` and an item id, each failing in that order with its own error; the host is `scheme://hostname` and each value is the first matching pair's |
| Base64Url.Encode | src/network.rs:15-17 | unpadded base64url output: length (4n+2)/3 and only alphabet characters |
| Base64Url.DecodeEncode | src/network.rs:15-17 | decoding an encoding gives the bytes back |
| Base64Url.EncodeDecode | src/network.rs:15-17 | a text that decodes is the encoding of its bytes (no padding, no non-zero trailing bits) |
| Base64Url.DecodeIff | src/network.rs:15-17 | decoding to b holds exactly when the text is the encoding of b |
| Utf8.DecodeEncode | src/network.rs:29-31 | the UTF-8 of a text decodes to the text |
| Utf8.EncodeDecode | src/network.rs:29-31 | bytes that decode are the UTF-8 of their text |
| Utf8.DecodeIff | src/network.rs:29-31 | bytes decode to a text exactly when they are its UTF-8 |
| Text.TrimEndMatches | src/network.rs:9 | the result is a prefix of the input not ending in the character, and everything cut is that character |
| Text.StripPrefix | src/network.rs:10 | some exactly when the input starts with the prefix, and prefix + result is the input |
| Text.Find | src/network.rs:13-14 | the first position where the pattern occurs, none when it never does |
| Text.BeforeFirst | src/network.rs:18-19 | the longest prefix without the character; the character follows it unless the input ends |
| Text.TrimMatchesFramed | src/network.rs:327-328 | trimming quotes leaves unquoted text alone and removes one pair of surrounding quotes |
| Text.NatToStringValue | src/main.rs:76 | the decimal digits of a number read back as that number |
| Json.Get | src/network.rs:285 | Null for a non-object; any other value is listed under the key |
| Json.AsU64 | src/network.rs:351 | some exactly for an integer in [0, 2^64), and then that integer |
| Json.UnescapeEscape | src/network.rs:327-328 | the body `Display` writes for a string reads back as the string under the JSON string grammar of RFC 8259 |
| Json.DisplayPlainString | src/network.rs:327-328 | a string without quotes, backslashes or controls is displayed in quotes, and trimming quotes gives it back |
| Paths.ParentDir | handler-config/src/main.rs:157-160 | none exactly for the empty path and a lone root; otherwise a proper prefix |
| Paths.Join | src/config.rs:63 | a separator goes between base and name unless the base is empty or ends in one |
| Paths.ParentOfJoin | src/config.rs:59-63 | the parent of dir/name is dir, and joining another name gives its sibling |
| Config.DefaultMpv | src/config.rs:73-78 | `mpv.exe` on Windows and `mpv` on Unix |
| Config.ConfigPath | src/config.rs:57-70 | the executable's directory joined with `mpv-handler.toml` on Windows, the home directory joined with `.config/mpv-handler/mpv-handler.toml` on Unix, an error when there is neither |
| Config.Load | src/config.rs:43-53 | the default configuration when the file is absent, the file's when it parses, a read or parse error otherwise |
| Config.MpvProgram | src/config.rs:10-21 | an empty `mpv` setting selects the default player, any other is used verbatim; never empty; fails exactly when loading fails |
| Config.AbsentFileDefaults | src/config.rs:31-52 | without a file: the default player, no proxy and the default user agent |
| Config.ConfigPathLayout | src/config.rs:57-70 | the concrete layouts `<dir>\mpv-handler.toml` and `<home>/.config/mpv-handler/mpv-handler.toml` |
| Request.GetUa | src/network.rs:139-150 | the configured user agent when set and non-empty, the default otherwise; fails exactly when loading fails |
| Request.GetProxy | src/network.rs:153-158 | the configured proxy or the empty string; fails exactly when loading fails |
| Request.BuildClient | src/network.rs:160-177 | a client is built exactly when the configuration loads and its user agent is a valid header value; the error is the configuration's, or the user agent's refusal; the settings are `get_ua` and `get_proxy` |
| Request.DefaultClientSettings | src/network.rs:139-158 | without a configuration file: the default user agent and no proxy |
| Request.DeviceName | src/network.rs:123-136 | `COMPUTERNAME` on Windows or `HOSTNAME` on Unix, `Unknown` when unset |
| Request.ConstructHeaders | src/network.rs:105-121 | succeeds exactly when the API key, `DEVICE_ID`, the device name and the user id are valid header values; the map then has exactly the five headers; the first missing or invalid value is the error |
| Request.SessionsRequest | src/network.rs:307-316 | GET `<host>/emby/Sessions` with the four credentials as query pairs; fails exactly when `DEVICE_ID` is unset |
| Request.JsonReply | src/network.rs:316-322 | the body exactly when sent, 2xx and JSON; a send failure and a non-2xx status give their own errors |
| Request.GetUserId | src/network.rs:307-330 | succeeds exactly when the lookup can be sent and answers with JSON; the ids are `UserId` and `Id` of the first session, displayed and stripped of quotes |
| Request.UnquotedIdentifier | src/network.rs:327-328 | a plain identifier comes back exactly |
| Request.UnquotedNull | src/network.rs:324-328 | an absent identifier becomes the text `null` |
| Request.StatusUrl | src/network.rs:251-255 | Play, Progress and Stop go to `/emby/Sessions/Playing`, `.../Progress` and `.../Stopped` |
| Request.PlaybackBodyFields | src/network.rs:249 | the body carries the given ticks, the play session, the media source and the item |
| Request.PlayingStatus | src/network.rs:239-272 | fails only when the session lookup fails; otherwise it posts the body to the status's endpoint with the given headers |
| Request.PlayingStatusIgnoresReply | src/network.rs:257-271 | the outcome does not depend on how the server answers the post itself |
| Request.GetChapterInfo | src/network.rs:274-299 | succeeds exactly when the item listing answers with JSON, and then gives the title of the first item |
| Request.EpisodeTitle | src/network.rs:285-293 | an episode is titled `"<series>" - S<season>E<episode> - "<name>"`, with the quotes `Display` keeps |
| Request.MovieAndOtherTitles | src/network.rs:294-298 | a movie is titled with its quoted name; any other type gives the empty title |
| Request.PositionTicks | src/network.rs:351-352 | the stored position is below 2^64 |
| Request.GetStartPosition | src/network.rs:333-353 | succeeds exactly when the session lookup and the user's item listing succeed; the result is the stored position or 0 |
| Request.PositionTicksDefault | src/network.rs:351-352 | a stored u64 position is taken as is; a missing or non-u64 one gives 0 |
| Request.RedirectRequest | src/network.rs:184-196 | a GET of the address carrying the given headers and the client's user agent, a `user-agent` among the given headers taking precedence |
| Request.Follow | src/network.rs:200-219 | at most the budget of requests, the first to the given address; with no budget left the address itself |
| Request.GetRedirect | src/network.rs:180-220 | fails before any request when the client cannot be built; otherwise it is the walk of at most three requests that `Follow` describes, with the client's user agent |
| Request.FollowEnds | src/network.rs:200-219 | for every server and budget: the requested addresses form a chain of followed redirects from the first; the answer to the last decides the result: a send failure, an unreadable `Location`, the last address when the answer is not a followed redirect, and the `Location` of a redirect only when the budget is spent |
| Request.FollowRedirectThenStop | src/network.rs:203-214 | a redirect followed by an answer that is not one ends at the redirect's `Location` after two requests |
| Request.FollowStops | src/network.rs:206-214 | a first answer that is not a redirect, or lacks `Location`, gives the input address after one request |
| Request.FollowThreeRedirects | src/network.rs:203-217 | three redirects in a row end at the third `Location`, with no fourth request |
| Coordinator.Command.constructor | src/config.rs:15-18 | a command for the program with no arguments |
| Coordinator.Command.Arg | src/main.rs:100-109 | appends one argument and keeps the program |
| Coordinator.AddFour | src/main.rs:102-109 | four chained `.arg` calls append the four arguments in order |
| Coordinator.AddFixedArgs | src/main.rs:102-109 | appends the eight fixed arguments: user agent, volume, IPC, log level, window, title, start, proxy |
| Coordinator.AddPlayerArgs | src/main.rs:98-120 | appends the media address, then `--sub-file=` when there is a subtitle, then the fixed arguments |
| Coordinator.PlayerArgsShape | src/main.rs:98-120 | the list begins with the media address; `--sub-file=` comes right after it exactly when the subtitle is non-empty; the eight fixed arguments close it |
| Coordinator.StartArgSeconds | src/main.rs:75-76 | the `--start` value is the resume ticks divided by 10,000,000, rounded down |
| Coordinator.Supervise | src/main.rs:153-180 | the loop with its mutable ticks and last report time yields what the polling specification gives |
| Coordinator.WatchingSpacing | src/main.rs:158-178 | progress reports are at least ten seconds apart, the first at least ten seconds after the start |
| Coordinator.WatchingTicks | src/main.rs:153-165 | every reported position is whole seconds in ticks; the final position is the last reported one, or the resume position |
| Coordinator.ExitEndsWatch | src/main.rs:133-141 | an exit or a failed liveness query ends the loop with the position unchanged; too early a round reports nothing |
| Coordinator.FailedPollIsSkipped | src/main.rs:164-178 | a failed position query changes neither the position nor the timer |
| Coordinator.Prepare | src/main.rs:30-82 | a wrong argument count, a decode error, a parameter error and a client that cannot be built each end the run, in that order, before any request; after them the run is the server exchanges of `Gather`; a plan holds the decoded addresses, the parameters, the client's user agent and proxy, the player, and the headers, title and resume position the exchanges gave |
| Coordinator.Gather | src/main.rs:49-76 | the session lookup, the headers, the chapter title and the resume position are obtained in that order, the first failure ending the run with its error; a plan's headers, title and start position are what those steps gave |
| Coordinator.Exchange | src/main.rs:49-76 | the exchanges with the server, performed step by step, give what `Gather` specifies |
| Coordinator.MakePlan | src/main.rs:30-82 | the preparation, performed step by step, gives what `Prepare` specifies |
| Coordinator.SessionReportsShape | src/main.rs:144-190 | the reports are Play with the resume position, the progress reports with the positions taken, then Stop with the last position unless the loop panicked; each is the `playing_status` request for its status and position |
| Coordinator.ScheduleShape | src/main.rs:144-190 | the session sends Play with the resume position first, one Progress per position taken in order, and a final Stop repeating the last position unless the loop panicked |
| Coordinator.ReportsOfWatch | src/main.rs:144-190 | the same for any loop outcome whose final position is its last reported one |
| Coordinator.Launch | src/main.rs:96-190 | a spawn failure carries the attempted command and no reports; a started player gives the command and the reports of the watched session |
| Coordinator.Run | src/main.rs:25-191 | the preparation's error when it fails; otherwise what launching the plan yields |
| HandlerConfig.EscapeBackslashes | handler-config/src/main.rs:130 | the length grows by the number of backslashes |
| HandlerConfig.RegValueEscaped | handler-config/src/main.rs:130-140 | a quote-free path with doubled backslashes reads back as the path in a registry string |
| HandlerConfig.TomlBasicEscaped | handler-config/src/main.rs:162 | the escaped text is a valid TOML basic string exactly when the text has no quote or control character, and it reads back as the text |
| HandlerConfig.RegCommand | handler-config/src/main.rs:140 | the registered command is `"<handler>" "%1"` |
| HandlerConfig.RegTextLayout | handler-config/src/main.rs:132-143 | the text is the fixed header followed by the command line |
| HandlerConfig.DecodeEncodeUtf16 | handler-config/src/main.rs:147 | the UTF-16 of a text decodes back to it |
| HandlerConfig.ReadLeBytes | handler-config/src/main.rs:149-151 | low-byte-first bytes read back as the units |
| HandlerConfig.RegFileReadsBack | handler-config/src/main.rs:145-151 | the file starts with `FF FE`, has 2 + 2n bytes, and the rest reads back as the registry text |
| HandlerConfig.GenerateRegFile | handler-config/src/main.rs:129-154 | the error is the creation error or the first failing write; without one the bytes are the whole file, after a failure the bytes before it |
| HandlerConfig.WriteUtf16Le | handler-config/src/main.rs:146-153 | writes the mark, then each unit low byte first, and stops at the first failed write |
| HandlerConfig.TomlPath | handler-config/src/main.rs:157-160 | defined exactly when the handler path has a parent |
| HandlerConfig.TomlReadsBack | handler-config/src/main.rs:162 | the generated line sets `mpv` to the path exactly when the path has no quote or control character |
| HandlerConfig.GeneratedConfigSelectsPlayer | handler-config/src/main.rs:162 | with the generated file, the handler starts the chosen player |
| HandlerConfig.GenerateToml | handler-config/src/main.rs:156-166 | a handler without a parent panics; otherwise the file goes beside the handler; it fails exactly when creating or writing fails, writing nothing, and otherwise its UTF-8 bytes are the line `mpv = "<escaped path>"` |
| HandlerConfig.ConfigApp.constructor | handler-config/src/main.rs:20-25 | both paths and the status start empty |
| HandlerConfig.ConfigApp.PickHandler | handler-config/src/main.rs:33-41 | a picked file sets the handler path and clears the status; a cancelled dialog changes nothing |
| HandlerConfig.ConfigApp.PickMpv | handler-config/src/main.rs:51-59 | a picked file sets the player path and clears the status; a cancelled dialog changes nothing |
| HandlerConfig.ConfigApp.EditHandler | handler-config/src/main.rs:46 | typing replaces the handler path only |
| HandlerConfig.ConfigApp.EditMpv | handler-config/src/main.rs:64 | typing replaces the player path only |
| HandlerConfig.ConfigApp.ClickGenerateReg | handler-config/src/main.rs:72-84 | disabled without a handler path; otherwise the status reports success or the error of writing the file |
| HandlerConfig.ConfigApp.ClickGenerateToml | handler-config/src/main.rs:86-95 | disabled unless both paths are set; otherwise the status reports the outcome of writing the file |

## Left out

- The `property` module of `src/network.rs` is not modelled: the named-pipe and socket IPC, the read loop, and the parsing of `time-pos`. Position queries are inputs.
- HTTP is not modelled: the reqwest client, its `OnceLock`, async/await, and the construction of a proxy from its text. `reqwest::Proxy::all` can refuse a malformed proxy; that failure is not modelled.
- URL parsing and the regex engine are not modelled. `Url::parse` is an input, and the item-id pattern is a direct scan of the path.
- Coordinator.Supervise: the position is taken in whole seconds. The `f64` parse and its truncation are not modelled, and ticks never wrap past 2^64.
- Coordinator.Supervise: time is the clock reading of each round. `last_print` is set to that reading, not to the instant after the report is sent. The loop has no sleep; how often it spins is not modelled.
- Spawning the player and `try_wait` are inputs: whether the spawn succeeds and each round's answer.
- `uuid` generation and the process environment are inputs: the device id and an environment function.
- TOML deserialisation and file reads in `Config::load` are not modelled. The file's state is an input.
- The `current_exe().unwrap()` panic in `config_path` is not modelled. The executable path is an input.
- The configuration is loaded once per run. So a user-agent, proxy or player failure is the same configuration failure, reported once when the client is built.
- Paths.ParentDir: Rust's `Path::parent` also gives none for a bare Windows prefix (`C:` or `C:\`) and skips trailing separators (`a/b/` has parent `a`). The model splits at the last separator instead. So for a handler path `C:\`, HandlerConfig.GenerateToml writes `C:\mpv-handler.toml` where the program panics, and a path ending in a separator gets its file one level too deep.
- `config/src/main.rs` and `cfg_tool/src/main.rs` are not modelled. These installers shell out to `cmd` and `reg` and read stdin.
- egui rendering, the file dialogs and the window's layout are not modelled. A dialog's result is an input.
- `src/error.rs` is not modelled: the error texts and their display. The model keeps its own error datatypes.
- `Path` normalisation is not modelled, beyond `parent` and `join` on separators.
- Json.UnescapeFirst: a `\u` escape of a surrogate pair is refused, not combined. serde_json never writes one for a scalar value.
- HandlerConfig.TomlBasic: the `\u` and `\U` escapes of TOML are not read, and neither are raw tabs beyond the control rule. The generator never writes them.
- HandlerConfig.WriteUtf16Le: a write either fully succeeds or fails. A partial write inside one `write_all` is not modelled.
- HandlerConfig.GenerateToml: the single write of the whole text either succeeds or fails. No partial contents are modelled.
- HandlerConfig.RegValueEscaped: the reading back is stated for texts without quotes. A quote in a path would end the registry value early, and the generator does not escape it.
