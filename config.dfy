/** The persisted configuration: its defaults, where it lives, and how it is
    loaded from and saved to the file system. The home directory is a
    parameter; JSON parsing and printing are given functions. */
module Config {
  import opened Wrappers
  import opened Types
  import opened FileSystem

  datatype GitLabInstance = GitLabInstance(name: string, url: string, token: Option<string>)

  datatype Config = Config(
    githubToken: Option<string>,
    gitlabToken: Option<string>,
    sshKey: Option<string>,
    gitlabInstance: seq<GitLabInstance>,
    defaultClonePath: Path)

  /** The JSON decoder and encoder, as total functions that may fail with a
      message. */
  type Parse = string -> Result<Config, string>
  type Serialize = Config -> Result<string, string>

  const CONFIG_DIR := ".config"
  const APP_DIR := "git-tui-cloner"
  const CONFIG_FILE := "config.json"
  const NO_HOME := "Failed to determine home directory"
  const READ_FAILED := "Failed to read config file: "
  const PARSE_FAILED := "Failed to parse config file: "
  const MKDIR_FAILED := "Failed to create config directory: "
  const SERIALIZE_FAILED := "Failed to serialize config: "
  const WRITE_FAILED := "Failed to write config file: "

  /** The configuration used when none is saved: no credentials, gitlab.com
      as the only instance, and `projects` in the home directory (or in the
      current directory when there is no home) as clone target. */
  function Default(home: Option<Path>): Config {
    Config(
      githubToken := None,
      gitlabToken := None,
      sshKey := None,
      defaultClonePath := if home.Some? then Join(home.value, "projects") else [".", "projects"],
      gitlabInstance := [GitLabInstance("GitLab", "https://gitlab.com", None)])
  }

  lemma DefaultValues(home: Option<Path>)
    ensures var c := Default(home);
      && c.githubToken.None? && c.gitlabToken.None? && c.sshKey.None?
      && |c.gitlabInstance| == 1
      && c.gitlabInstance[0] == GitLabInstance("GitLab", "https://gitlab.com", None)
      && (home.Some? ==> c.defaultClonePath == home.value + ["projects"])
      && (home.None? ==> c.defaultClonePath == [".", "projects"])
  {
  }

  // ------------------------------------------------------------ config path

  /** Where the configuration file lives for a given home directory. */
  function ConfigFile(home: Option<Path>): AppResult<Path> {
    if home.None? then Failure(ConfigError(NO_HOME))
    else Success(home.value + [CONFIG_DIR, APP_DIR, CONFIG_FILE])
  }

  /** `config_path`: three components pushed onto the home directory. */
  method ConfigPath(home: Option<Path>) returns (r: AppResult<Path>)
    ensures r == ConfigFile(home)
  {
    if home.None? {
      return Failure(ConfigError(NO_HOME));
    }
    var path := home.value;
    path := Join(path, CONFIG_DIR);
    path := Join(path, APP_DIR);
    path := Join(path, CONFIG_FILE);
    assert path == home.value + [CONFIG_DIR, APP_DIR, CONFIG_FILE];
    return Success(path);
  }

  /** The path is the home directory followed by exactly `.config`,
      `git-tui-cloner` and `config.json`; its parent is the application's
      configuration directory; without a home directory there is no path. */
  lemma ConfigFileShape(home: Option<Path>)
    ensures ConfigFile(home).Failure? <==> home.None?
    ensures home.None? ==> ConfigFile(home) == Failure(ConfigError(NO_HOME))
    ensures home.Some? ==> var p := ConfigFile(home).value;
      && |p| == |home.value| + 3
      && p[..|home.value|] == home.value
      && p[|home.value|..] == [CONFIG_DIR, APP_DIR, CONFIG_FILE]
      && Parent(p) == Some(home.value + [CONFIG_DIR, APP_DIR])
  {
    if home.Some? {
      var p := ConfigFile(home).value;
      assert p[..|p| - 1] == home.value + [CONFIG_DIR, APP_DIR];
    }
  }

  // ------------------------------------------------------------------- load

  /** `Config::load`: the default when no file is there (or its metadata
      cannot be read), otherwise the file parsed; every failure is a
      configuration error. */
  function Load(home: Option<Path>, disk: Disk, parse: Parse): (r: AppResult<Config>)
    ensures r.Failure? ==> r.error.ConfigError?
  {
    match ConfigFile(home)
    case Failure(e) => Failure(e)
    case Success(path) =>
      if disk.Exists(path) then
        match disk.ReadToString(path)
        case Failure(e) => Failure(ConfigError(READ_FAILED + e))
        case Success(content) =>
          match parse(content)
          case Failure(e) => Failure(ConfigError(PARSE_FAILED + e))
          case Success(config) => Success(config)
      else
        Success(Default(home))
  }

  /** Each branch of `load`, with the message it reports. */
  lemma LoadCases(home: Option<Path>, disk: Disk, parse: Parse)
    ensures home.None? ==> Load(home, disk, parse) == Failure(ConfigError(NO_HOME))
    ensures home.Some? ==> var path := ConfigFile(home).value;
      && (!disk.Exists(path) ==> Load(home, disk, parse) == Success(Default(home)))
      && (path in disk.unstatable ==> Load(home, disk, parse) == Success(Default(home)))
      && (disk.Exists(path) && disk.ReadToString(path).Failure? ==>
            Load(home, disk, parse) == Failure(ConfigError(READ_FAILED + disk.ReadToString(path).error)))
      && (disk.Exists(path) && disk.ReadToString(path).Success? ==>
            var parsed := parse(disk.ReadToString(path).value);
            && (parsed.Failure? ==> Load(home, disk, parse) == Failure(ConfigError(PARSE_FAILED + parsed.error)))
            && (parsed.Success? ==> Load(home, disk, parse) == Success(parsed.value)))
  {
  }

  // ------------------------------------------------------------------- save

  /** What `Config::save` returns and leaves on disk: create the parent
      directory, print the configuration, write it, each failure a
      configuration error with its own prefix. */
  function SaveOutcome(config: Config, home: Option<Path>, disk: Disk, serialize: Serialize): (r: (AppResult<()>, Disk))
    ensures r.0.Failure? ==> r.0.error.ConfigError?
    ensures r.0.Success? ==> home.Some? && serialize(config).Success?
  {
    match ConfigFile(home)
    case Failure(e) => (Failure(e), disk)
    case Success(path) =>
      var made := if Parent(path).Some? then disk.CreateDirAll(Parent(path).value) else Success(disk);
      match made
      case Failure(e) => (Failure(ConfigError(MKDIR_FAILED + e)), disk)
      case Success(withDir) =>
        match serialize(config)
        case Failure(e) => (Failure(ConfigError(SERIALIZE_FAILED + e)), withDir)
        case Success(content) =>
          match withDir.Write(path, content)
          case Failure(e) => (Failure(ConfigError(WRITE_FAILED + e)), withDir)
          case Success(written) => (Success(()), written)
  }

  /** `Config::save`, acting on the machine's file system. */
  method Save(config: Config, home: Option<Path>, fs: FileSystem, serialize: Serialize) returns (r: AppResult<()>)
    modifies fs
    ensures (r, fs.disk) == SaveOutcome(config, home, old(fs.disk), serialize)
  {
    var path :- ConfigPath(home);
    var parent := Parent(path);
    if parent.Some? {
      var made := fs.CreateDirAll(parent.value);
      if made.Failure? {
        return Failure(ConfigError(MKDIR_FAILED + made.error));
      }
    }
    var content := serialize(config);
    if content.Failure? {
      return Failure(ConfigError(SERIALIZE_FAILED + content.error));
    }
    var written := fs.Write(path, content.value);
    if written.Failure? {
      return Failure(ConfigError(WRITE_FAILED + written.error));
    }
    return Success(());
  }

  /** The configuration directory for a home directory. */
  function ConfigDir(home: Path): Path {
    home + [CONFIG_DIR, APP_DIR]
  }

  lemma ConfigFileNotAboveItself(home: Path)
    ensures ConfigFile(Some(home)).value !in Ancestors(ConfigDir(home))
    ensures Parent(ConfigFile(Some(home)).value) == Some(ConfigDir(home))
  {
    var path := ConfigFile(Some(home)).value;
    assert path[..|path| - 1] == ConfigDir(home);
    forall k | 1 <= k <= |ConfigDir(home)|
      ensures ConfigDir(home)[..k] != path
    {
      assert |ConfigDir(home)[..k]| < |path|;
    }
  }

  /** Each step of `save`, in order, with the message it reports and the
      disk it leaves: the directory is created first, so a failure to print
      or to write the configuration leaves the directory in place. */
  lemma SaveCases(config: Config, home: Option<Path>, disk: Disk, serialize: Serialize)
    ensures home.None? ==> SaveOutcome(config, home, disk, serialize) == (Failure(ConfigError(NO_HOME)), disk)
    ensures home.Some? ==> var path, dir := ConfigFile(home).value, ConfigDir(home.value);
      && (dir in disk.writeFaults ==>
            SaveOutcome(config, home, disk, serialize) == (Failure(ConfigError(MKDIR_FAILED + disk.writeFaults[dir])), disk))
      && (dir !in disk.writeFaults ==> var withDir := disk.CreateDirAll(dir).value;
            && (serialize(config).Failure? ==>
                  SaveOutcome(config, home, disk, serialize) == (Failure(ConfigError(SERIALIZE_FAILED + serialize(config).error)), withDir))
            && (serialize(config).Success? && withDir.Write(path, serialize(config).value).Failure? ==>
                  SaveOutcome(config, home, disk, serialize)
                  == (Failure(ConfigError(WRITE_FAILED + withDir.Write(path, serialize(config).value).error)), withDir))
            && (serialize(config).Success? && withDir.Write(path, serialize(config).value).Success? ==>
                  SaveOutcome(config, home, disk, serialize) == (Success(()), withDir.Write(path, serialize(config).value).value)))
  {
    if home.Some? {
      ConfigFileNotAboveItself(home.value);
    }
  }

  /** A save that fails reports a configuration error and leaves the
      configuration file as it was: present with the same contents, or
      absent. */
  lemma FailedSaveKeepsConfigFile(config: Config, home: Option<Path>, disk: Disk, serialize: Serialize)
    requires SaveOutcome(config, home, disk, serialize).0.Failure?
    ensures SaveOutcome(config, home, disk, serialize).0.error.ConfigError?
    ensures home.Some? ==> var path, after := ConfigFile(home).value, SaveOutcome(config, home, disk, serialize).1;
      && (path in after.entries <==> path in disk.entries)
      && (path in disk.entries ==> after.entries[path] == disk.entries[path])
  {
    if home.Some? {
      ConfigFileNotAboveItself(home.value);
    }
  }

  /** After a successful save the configuration directory exists, the file
      holds the printed configuration, the only new entries are the
      directories on the way to it and the file itself, and every other
      entry that was there before is unchanged. */
  lemma SavedConfigFile(config: Config, home: Option<Path>, disk: Disk, serialize: Serialize)
    requires SaveOutcome(config, home, disk, serialize).0.Success?
    ensures home.Some? && serialize(config).Success?
    ensures var path, after := ConfigFile(home).value, SaveOutcome(config, home, disk, serialize).1;
      && ConfigDir(home.value) in after.entries
      && after.entries[path] == File(serialize(config).value)
      && after.entries.Keys == disk.entries.Keys + Ancestors(ConfigDir(home.value)) + {path}
      && after.readFaults == disk.readFaults
      && after.writeFaults == disk.writeFaults
      && after.unstatable == disk.unstatable
      && forall p :: p in disk.entries && p != path ==> p in after.entries && after.entries[p] == disk.entries[p]
  {
    ConfigFileNotAboveItself(home.value);
    assert ConfigDir(home.value) in Ancestors(ConfigDir(home.value)) by {
      assert ConfigDir(home.value)[..|ConfigDir(home.value)|] == ConfigDir(home.value);
    }
  }

  /** Loading after a save that succeeded gives back the saved
      configuration, provided the JSON decoder reads back what the encoder
      printed. Writing a file does not make it readable: when reading the
      file is refused, loading fails with that read error, and when the
      file's metadata cannot be read, loading falls back to the default. */
  lemma SaveThenLoad(config: Config, home: Option<Path>, disk: Disk, serialize: Serialize, parse: Parse)
    requires SaveOutcome(config, home, disk, serialize).0.Success?
    requires serialize(config).Success? ==> parse(serialize(config).value) == Success(config)
    ensures home.Some?
    ensures var path := ConfigFile(home).value;
      Load(home, SaveOutcome(config, home, disk, serialize).1, parse)
      == if path in disk.unstatable then Success(Default(home))
         else if path in disk.readFaults then Failure(ConfigError(READ_FAILED + disk.readFaults[path]))
         else Success(config)
  {
    SavedConfigFile(config, home, disk, serialize);
    var path := ConfigFile(home).value;
    var after := SaveOutcome(config, home, disk, serialize).1;
    assert path !in disk.readFaults ==> after.ReadToString(path) == Success(serialize(config).value);
  }
}
