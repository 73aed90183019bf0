/**
 * The configuration half of pkg/flylog/log.go's InitLog: the default logger
 * settings, their override by the `log` configuration section, and the map
 * from the configured level name to a zap level. Building the zap core,
 * replacing the global logger and the rotation goroutine are not modelled.
 */
module FlyLog {
  import opened Wrappers

  /** time.Duration: a count of nanoseconds. */
  const Nanosecond: int := 1
  const Hour: int := 3600 * 1_000_000_000 * Nanosecond

  /** The lumberjack rolling-file settings InitLog sets (sizes in megabytes, age in days). */
  datatype Lumberjack = Lumberjack(filename: string, maxSize: int, maxBackups: int, maxAge: int)

  /** `LoggerConfig`: how often to rotate, the level name, and the file settings. */
  datatype LoggerConfig = LoggerConfig(rotate: int, level: string, logger: Lumberjack)

  /** The settings InitLog starts from. */
  function DefaultLoggerConfig(): LoggerConfig {
    LoggerConfig(24 * Hour, "debug", Lumberjack("app.log", 500, 3, 30))
  }

  /** zap's levels, least to most severe. */
  datatype Level = DebugLevel | InfoLevel | WarnLevel | ErrorLevel | DPanicLevel | PanicLevel | FatalLevel

  /** The configuration name that selects each level. */
  function LevelName(l: Level): string {
    match l
    case DebugLevel => "debug"
    case InfoLevel => "info"
    case WarnLevel => "warn"
    case ErrorLevel => "error"
    case DPanicLevel => "dpanic"
    case PanicLevel => "panic"
    case FatalLevel => "fatal"
  }

  /** The names the level switch recognises. */
  const LevelNames: set<string> := {"debug", "info", "warn", "error", "dpanic", "panic", "fatal"}

  /**
   * The level switch of InitLog: a recognised name selects its level, matched
   * exactly (case-sensitively); any other string leaves the Debug default.
   */
  function ParseLevel(name: string): (l: Level)
    ensures name in LevelNames ==> LevelName(l) == name
    ensures name !in LevelNames ==> l == DebugLevel
  {
    match name
    case "debug" => DebugLevel
    case "info" => InfoLevel
    case "warn" => WarnLevel
    case "error" => ErrorLevel
    case "dpanic" => DPanicLevel
    case "panic" => PanicLevel
    case "fatal" => FatalLevel
    case _ => DebugLevel
  }

  /** Every level's name selects that level, so LevelName and ParseLevel are inverse. */
  lemma ParseLevelName(l: Level)
    ensures LevelName(l) in LevelNames
    ensures ParseLevel(LevelName(l)) == l
  {
  }

  /** Matching is exact: an upper-case spelling is not recognised and falls back to Debug. */
  lemma UpperCaseIsDebug()
    ensures ParseLevel("INFO") == DebugLevel && ParseLevel("Debug") == DebugLevel && ParseLevel("") == DebugLevel
  {
  }

  /**
   * The keys the `log` section sets; an absent key keeps the default, as
   * unmarshalling into the pre-filled config does.
   */
  datatype LogSection = LogSection(
    rotate: Option<int>,
    level: Option<string>,
    filename: Option<string>,
    maxSize: Option<int>,
    maxBackups: Option<int>,
    maxAge: Option<int>)

  function Override<T>(base: T, setting: Option<T>): T {
    match setting
    case Some(v) => v
    case None => base
  }

  /** The config after unmarshalling `section` into `base`. */
  function Unmarshal(base: LoggerConfig, section: LogSection): (c: LoggerConfig)
    ensures c.level == (if section.level.Some? then section.level.value else base.level)
    ensures c.rotate == (if section.rotate.Some? then section.rotate.value else base.rotate)
    ensures c.logger.filename == (if section.filename.Some? then section.filename.value else base.logger.filename)
    ensures c.logger.maxSize == (if section.maxSize.Some? then section.maxSize.value else base.logger.maxSize)
    ensures c.logger.maxBackups == (if section.maxBackups.Some? then section.maxBackups.value else base.logger.maxBackups)
    ensures c.logger.maxAge == (if section.maxAge.Some? then section.maxAge.value else base.logger.maxAge)
    ensures section == LogSection(None, None, None, None, None, None) ==> c == base
  {
    LoggerConfig(
      Override(base.rotate, section.rotate),
      Override(base.level, section.level),
      Lumberjack(
        Override(base.logger.filename, section.filename),
        Override(base.logger.maxSize, section.maxSize),
        Override(base.logger.maxBackups, section.maxBackups),
        Override(base.logger.maxAge, section.maxAge)))
  }

  /** What InitLog installs: the effective settings and the level the core filters at. */
  datatype LogSetup = LogSetup(config: LoggerConfig, level: Level)

  /**
   * InitLog's outcome. `log` is None when the `log` key is not set;
   * otherwise it is what unmarshalling the section gives: the section's
   * keys, or the decoder's error.
   */
  function InitLog(log: Option<Result<LogSection, string>>): (r: Result<LogSetup, string>)
    // With no `log` section the defaults are used, at Debug level.
    ensures log.None? ==> r == Success(LogSetup(DefaultLoggerConfig(), DebugLevel))
    // An unmarshal error is returned as it is, and nothing is installed.
    ensures log.Some? && log.value.Failure? ==> r == Failure(log.value.error)
    // Every other path succeeds, at the level the effective config names.
    ensures log.None? || log.value.Success? ==> r.Success?
    ensures r.Success? ==> r.value.level == ParseLevel(r.value.config.level)
    ensures log.Some? && log.value.Success? ==> r.value.config == Unmarshal(DefaultLoggerConfig(), log.value.value)
  {
    var config := DefaultLoggerConfig();
    match log
    case None => Success(LogSetup(config, ParseLevel(config.level)))
    case Some(Failure(e)) => Failure(e)
    case Some(Success(section)) =>
      var c := Unmarshal(config, section);
      Success(LogSetup(c, ParseLevel(c.level)))
  }

  /** Without a `log` section the settings are: level debug, rotation every 24 hours, app.log kept 3 backups of 500 MB for 30 days. */
  lemma DefaultsWithoutLogSection()
    ensures InitLog(None).Success?
    ensures var c := InitLog(None).value.config;
            c.level == "debug" && c.rotate == 24 * 3600 * 1_000_000_000 &&
            c.logger == Lumberjack("app.log", 500, 3, 30)
  {
  }
}
