/** Configuration precedence of the script: defaults, then a JSON config
    file (or the defaults again when it is missing, unreadable or empty),
    then each command-line override, `--no-timestamp` last. Values arrive
    already parsed. */
module Config {
  import opened Wrappers

  /** A configuration dictionary: each of the five keys the script reads is
      either set (`Some`) or not in the dictionary (`None`). */
  datatype Settings = Settings(
    logfileName: Option<string>,
    path: Option<string>,
    maxNumberLogfiles: Option<int>,
    maxLogfileSize: Option<int>,
    timestamp: Option<bool>)

  /** A parsed config file: the keys the script reads, plus the number of
      other keys it holds (they matter only for whether the file is empty). */
  datatype ConfigFile = ConfigFile(settings: Settings, otherKeys: nat)

  /** What loading the `-c` file produced: no option, a load that failed
      (unreadable file or malformed JSON), or a parsed dictionary. */
  datatype LoadResult = NotGiven | LoadFailed | Parsed(file: ConfigFile)

  /** The command-line options after parsing; a number option is `Some`
      when it was given. */
  datatype CliArgs = CliArgs(
    logfileName: Option<string>,
    path: Option<string>,
    maxNumberLogfiles: Option<int>,
    maxLogfileSize: Option<int>,
    timestamp: bool,
    noTimestamp: bool)

  /** The configuration the capture loop runs with. */
  datatype EffectiveConfig = EffectiveConfig(
    logfileName: string,
    path: string,
    maxNumberLogfiles: int,
    maxLogfileSize: int,
    timestamp: bool)

  /** A key the script looks up is not in the dictionary (Python's KeyError). */
  datatype ConfigError = MissingKey(key: string)

  const DefaultLogfileName := "logfile.dat"
  const DefaultPath := "."
  const DefaultMaxNumberLogfiles := 5
  const DefaultMaxLogfileSize := 1000000
  const DefaultTimestamp := false

  /** The built-in defaults, every key set. */
  function SetConfigDefault(): (s: Settings)
    ensures s.logfileName == Some("logfile.dat") && s.path == Some(".")
    ensures s.maxNumberLogfiles == Some(5) && s.maxLogfileSize == Some(1000000)
    ensures s.timestamp == Some(false)
  {
    Settings(Some(DefaultLogfileName), Some(DefaultPath), Some(DefaultMaxNumberLogfiles),
             Some(DefaultMaxLogfileSize), Some(DefaultTimestamp))
  }

  /** An empty dictionary is falsy. */
  predicate IsEmpty(file: ConfigFile) {
    file.settings == Settings(None, None, None, None, None) && file.otherKeys == 0
  }

  /** True iff the config file is the starting point: it was given, loaded
      and is not empty. */
  predicate UsesFile(load: LoadResult) {
    load.Parsed? && !IsEmpty(load.file)
  }

  /** A string option overrides only when it is non-empty (an empty string is falsy). */
  predicate Given(o: Option<string>) {
    o.Some? && o.value != ""
  }

  /** The dictionary before overrides. */
  function Starting(load: LoadResult): Settings {
    match load
    case Parsed(file) => if IsEmpty(file) then SetConfigDefault() else file.settings
    case _ => SetConfigDefault()
  }

  /** The override block, one key at a time in the script's order. */
  function ApplyOverrides(config: Settings, args: CliArgs): Settings {
    var c1 := if Given(args.logfileName) then config.(logfileName := args.logfileName) else config;
    var c2 := if Given(args.path) then c1.(path := args.path) else c1;
    var c3 := if args.maxNumberLogfiles.Some? then c2.(maxNumberLogfiles := args.maxNumberLogfiles) else c2;
    var c4 := if args.maxLogfileSize.Some? then c3.(maxLogfileSize := args.maxLogfileSize) else c3;
    var c5 := if args.timestamp then c4.(timestamp := Some(true)) else c4;
    if args.noTimestamp then c5.(timestamp := Some(false)) else c5
  }

  /** The merged dictionary. Each key comes from the command line when the
      option was given, else from a non-empty loaded config file, else from
      the defaults; `--no-timestamp` beats `-t`. A non-empty file replaces
      the defaults as a whole, so a key it lacks stays unset unless the
      command line supplies it. */
  function Resolve(args: CliArgs, load: LoadResult): (s: Settings)
    ensures s.logfileName
            == if Given(args.logfileName) then args.logfileName
               else if UsesFile(load) then load.file.settings.logfileName
               else Some(DefaultLogfileName)
    ensures s.path
            == if Given(args.path) then args.path
               else if UsesFile(load) then load.file.settings.path
               else Some(DefaultPath)
    ensures s.maxNumberLogfiles
            == if args.maxNumberLogfiles.Some? then args.maxNumberLogfiles
               else if UsesFile(load) then load.file.settings.maxNumberLogfiles
               else Some(DefaultMaxNumberLogfiles)
    ensures s.maxLogfileSize
            == if args.maxLogfileSize.Some? then args.maxLogfileSize
               else if UsesFile(load) then load.file.settings.maxLogfileSize
               else Some(DefaultMaxLogfileSize)
    ensures s.timestamp
            == if args.noTimestamp then Some(false)
               else if args.timestamp then Some(true)
               else if UsesFile(load) then load.file.settings.timestamp
               else Some(DefaultTimestamp)
  {
    ApplyOverrides(Starting(load), args)
  }

  /** Looks up the five keys in the order the script reads them and fails on
      the first one that is missing. */
  function Effective(s: Settings): (r: Result<EffectiveConfig, ConfigError>)
    ensures r.Success? <==>
              s.logfileName.Some? && s.path.Some? && s.maxNumberLogfiles.Some?
              && s.maxLogfileSize.Some? && s.timestamp.Some?
    ensures r.Success? ==>
              r.value == EffectiveConfig(s.logfileName.value, s.path.value, s.maxNumberLogfiles.value,
                                         s.maxLogfileSize.value, s.timestamp.value)
  {
    if s.logfileName.None? then Failure(MissingKey("logfile_name"))
    else if s.path.None? then Failure(MissingKey("path"))
    else if s.maxNumberLogfiles.None? then Failure(MissingKey("max_number_logfiles"))
    else if s.maxLogfileSize.None? then Failure(MissingKey("max_logfile_size"))
    else if s.timestamp.None? then Failure(MissingKey("timestamp"))
    else Success(EffectiveConfig(s.logfileName.value, s.path.value, s.maxNumberLogfiles.value,
                                 s.maxLogfileSize.value, s.timestamp.value))
  }

  /** A missing, unreadable or empty config file all lead to the same
      configuration, and it is always complete. */
  lemma FalsyFileFallsBack(args: CliArgs, load: LoadResult)
    requires !UsesFile(load)
    ensures Resolve(args, load) == Resolve(args, NotGiven)
    ensures Effective(Resolve(args, load)).Success?
  {
  }

  /** With no config file and no options the script runs on the defaults. */
  lemma NoOptionsMeansDefaults(load: LoadResult)
    requires !UsesFile(load)
    ensures Effective(Resolve(CliArgs(None, None, None, None, false, false), load))
            == Success(EffectiveConfig(DefaultLogfileName, DefaultPath, DefaultMaxNumberLogfiles,
                                       DefaultMaxLogfileSize, DefaultTimestamp))
  {
  }

  /** A non-empty config file that lacks `logfile_name`, with no `-f`
      option, stops the script before any log file is touched. */
  lemma FileWithoutNameFails(args: CliArgs, load: LoadResult)
    requires UsesFile(load)
    requires load.file.settings.logfileName.None?
    requires !Given(args.logfileName)
    ensures Effective(Resolve(args, load)) == Failure(MissingKey("logfile_name"))
  {
  }
}
