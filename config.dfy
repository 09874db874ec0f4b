/** The handler's configuration (src/config.rs): where `mpv-handler.toml`
    lives, what is used when it is absent, and which player program is
    started. */
module Config {
  import opened Wrappers
  import opened Paths

  const DefaultUa: string := "Emby/3.2.32-17.32 (Linux;Android 13) ExoPlayerLib/2.13.2"

  /** `default_mpv`: the player found on the search path. */
  function DefaultMpv(os: Os): (p: string)
    ensures os == Windows ==> p == "mpv.exe"
    ensures os == Unix ==> p == "mpv"
  {
    if os == Windows then "mpv.exe" else "mpv"
  }

  /** The contents of `mpv-handler.toml`. */
  datatype Config = Config(mpv: string, proxy: Option<string>, useragent: Option<string>)

  /** `Config::default`. */
  function Default(os: Os): Config {
    Config(DefaultMpv(os), None, Some(DefaultUa))
  }

  datatype ConfigError =
    | NoConfigDir     // "Failed to get config path" / "Failed to get home dir"
    | ReadFailed      // the file exists but cannot be read as text
    | ParseFailed     // the text is not a valid configuration

  /** What the file system holds at the configuration path. The TOML text is
      given already deserialised: Parsed when it deserialises into a
      Config, Malformed when it does not. */
  datatype FileState = Absent | Unreadable | Malformed | Parsed(config: Config)

  const FileName: string := "mpv-handler.toml"
  const UnixRelative: string := ".config/mpv-handler/mpv-handler.toml"

  /** `config_path`: next to the executable on Windows, under the home
      directory on Unix. */
  function ConfigPath(os: Os, exePath: string, home: Option<string>): (r: Result<string, ConfigError>)
    ensures os == Windows ==> (r.Ok? <==> ParentDir(Windows, exePath).Some?)
    ensures os == Windows && r.Ok? ==> r.value == Join(Windows, ParentDir(Windows, exePath).value, FileName)
    ensures os == Unix ==> (r.Ok? <==> home.Some?)
    ensures os == Unix && r.Ok? ==> r.value == Join(Unix, home.value, UnixRelative)
    ensures r.Err? ==> r.error == NoConfigDir
  {
    if os == Windows then
      match ParentDir(Windows, exePath)
      case None => Err(NoConfigDir)
      case Some(dir) => Ok(Join(Windows, dir, FileName))
    else
      match home
      case None => Err(NoConfigDir)
      case Some(h) => Ok(Join(Unix, h, UnixRelative))
  }

  /** `Config::load`: the file's configuration when it exists, the default
      configuration when it does not. */
  function Load(os: Os, exePath: string, home: Option<string>, fs: string -> FileState): (r: Result<Config, ConfigError>)
    ensures ConfigPath(os, exePath, home).Err? ==> r == Err(NoConfigDir)
    ensures ConfigPath(os, exePath, home).Ok? ==>
      var f := fs(ConfigPath(os, exePath, home).value);
      && (f == Absent ==> r == Ok(Default(os)))
      && (f.Parsed? ==> r == Ok(f.config))
      && (f == Unreadable ==> r == Err(ReadFailed))
      && (f == Malformed ==> r == Err(ParseFailed))
  {
    var path :- ConfigPath(os, exePath, home);
    match fs(path)
    case Absent => Ok(Default(os))
    case Unreadable => Err(ReadFailed)
    case Malformed => Err(ParseFailed)
    case Parsed(config) => Ok(config)
  }

  /** `MPVClient::build`: the program of the player command. An empty `mpv`
      setting selects the default player; any other is used verbatim. */
  function MpvProgram(os: Os, load: Result<Config, ConfigError>): (r: Result<string, ConfigError>)
    ensures r.Ok? <==> load.Ok?
    ensures load.Ok? && load.value.mpv == "" ==> r.value == DefaultMpv(os)
    ensures load.Ok? && load.value.mpv != "" ==> r.value == load.value.mpv
    ensures r.Ok? ==> r.value != ""
    ensures load.Err? ==> r.error == load.error
  {
    var config :- load;
    if config.mpv == "" then Ok(DefaultMpv(os)) else Ok(config.mpv)
  }

  /** Without a configuration file the defaults apply: the default player,
      no proxy and the default user agent. */
  lemma AbsentFileDefaults(os: Os, exePath: string, home: Option<string>, fs: string -> FileState)
    requires ConfigPath(os, exePath, home).Ok? && fs(ConfigPath(os, exePath, home).value) == Absent
    ensures var c := Load(os, exePath, home, fs).value;
      c.mpv == DefaultMpv(os) && c.proxy == None && c.useragent == Some(DefaultUa)
    ensures MpvProgram(os, Load(os, exePath, home, fs)) == Ok(DefaultMpv(os))
  {
  }

  /** The configuration file's path in each layout: `<exe dir>\mpv-handler.toml`
      and `<home>/.config/mpv-handler/mpv-handler.toml`. */
  lemma ConfigPathLayout(dir: string, exeName: string, home: string)
    requires dir != "" && !IsSeparator(Windows, dir[|dir| - 1])
    requires exeName != "" && forall i :: 0 <= i < |exeName| ==> !IsSeparator(Windows, exeName[i])
    requires home != "" && home[|home| - 1] != '/'
    ensures ConfigPath(Windows, dir + "\\" + exeName, None) == Ok(dir + "\\mpv-handler.toml")
    ensures ConfigPath(Unix, "", Some(home)) == Ok(home + "/.config/mpv-handler/mpv-handler.toml")
  {
    assert Join(Windows, dir, exeName) == dir + "\\" + exeName;
    ParentOfJoin(Windows, dir, exeName, FileName);
    assert dir + [Separator(Windows)] + FileName == dir + "\\mpv-handler.toml";
    assert Join(Unix, home, UnixRelative) == home + "/" + UnixRelative;
    assert home + "/" + UnixRelative == home + "/.config/mpv-handler/mpv-handler.toml";
  }
}
