/**
  One logging call of `Print`: the level gate, the optional timestamp and
  call-site prefix, the text written for the job (the console and the daily
  file receive the same text), the log directory and file names, and the
  `debug`/`info`/`warning`/`error` wrappers.

  The clock and the filesystem are outside the model: the formatted timestamp
  and day are inputs, and a job's result says what would be written where.
*/
module Logger {

  import opened Options
  import opened Strings
  import Levels
  import opened Formatter

  /** The process-wide settings: `level`, `isFileFunctionLine`, `isTime`, `path`. */
  datatype Config = Config(level: Levels.Level, isFileFunctionLine: bool, isTime: bool, path: string)

  /** The `#file`, `#function` and `#line` of the logging call. */
  datatype CallSite = CallSite(file: string, funcName: string, line: int)

  /** What the date formatter gave for this job: the "yyyy-MM-dd HH:mm:ss.SSS" timestamp and the "yyyy-MM-dd" day. */
  datatype Clock = Clock(timestamp: string, day: string)

  /** The default `separator` and `terminator` of `Print.level` and its wrappers. */
  const DefaultSeparator: string := " "
  const DefaultTerminator: string := "\n"

  /** What one job writes: the text, to the console and to the file, and the path of that file. */
  datatype Record = Record(text: string, logFile: string)

  // ---------------------------------------------------------------- paths

  /** The path `createDirectory` works with: a trailing "/" added to a non-empty path lacking one. */
  function NormalizeDir(path: string): (r: string)
    ensures |path| == 0 ==> r == ""
    ensures |path| > 0 ==> |r| > 0 && r[|r| - 1] == '/'
    ensures |path| <= |r| <= |path| + 1 && r[..|path|] == path
    ensures |path| > 0 && path[|path| - 1] == '/' ==> r == path
  {
    if |path| > 0 && path[|path| - 1] != '/' then path + "/" else path
  }

  /** Normalising twice is normalising once. */
  lemma NormalizeDirIdempotent(path: string)
    ensures NormalizeDir(NormalizeDir(path)) == NormalizeDir(path)
  {
  }

  /** The day's log file as the job names it: the configured path, unnormalised, then "<day>.log". */
  function LogFileAsWritten(path: string, day: string): (r: string)
    ensures path <= r && r[|path|..] == day + ".log"
  {
    path + day + ".log"
  }

  /** With a path lacking the trailing "/", the file named is not inside the directory that was created. */
  lemma LogFileOutsideDirectory()
    ensures var f := LogFileAsWritten("/var/log/app", "2024-01-01");
      f == "/var/log/app2024-01-01.log" && !(NormalizeDir("/var/log/app") <= f)
  {
  }

  /** The day's log file, inside the normalised directory. */
  function LogFile(path: string, day: string): (r: string)
    ensures var dir := NormalizeDir(path); dir <= r && r[|dir|..] == day + ".log"
  {
    NormalizeDir(path) + day + ".log"
  }

  /** For the paths the job names correctly (empty, or ending in "/") both namings agree. */
  lemma LogFileAgrees(path: string, day: string)
    ensures LogFile(path, day) == LogFileAsWritten(path, day) <==> |path| == 0 || path[|path| - 1] == '/'
  {
  }

  // ---------------------------------------------------------------- prefix

  /**
    The call-site annotation: a final segment of the file path containing no
    "/" (its last component), then " ", the function, " line: " and a number
    that reads back as the call's line.
  */
  function Location(site: CallSite): (r: string)
    ensures var b := LastComponent(site.file, '/');
      && '/' !in b && |b| <= |site.file| && site.file[|site.file| - |b|..] == b
      && (|b| < |site.file| ==> site.file[|site.file| - |b| - 1] == '/')
      && |b| <= |r| && r[..|b|] == b
      && r[|b|..] == " " + site.funcName + " line: " + IntToString(site.line)
      && ParseInt(IntToString(site.line)) == site.line
  {
    IntToStringRoundTrip(site.line);
    LastComponent(site.file, '/') + (" " + site.funcName + " line: " + IntToString(site.line))
  }

  /** The only "/" an annotation can contain come from the function name. */
  lemma LocationSlashes(site: CallSite)
    ensures '/' !in site.funcName ==> '/' !in Location(site)
  {
    var n := IntToString(site.line);
    assert '/' !in n by {
      if site.line < 0 {
        assert n == [n[0]] + n[1..];
      }
    }
    assert Location(site) == LastComponent(site.file, '/') + (" " + site.funcName + " line: " + n);
  }

  /** The enabled prefix components: the timestamp when `isTime`, then the location when `isFileFunctionLine`. */
  function PrefixParts(cfg: Config, clock: Clock, site: CallSite): (r: seq<string>)
    ensures |r| == (if cfg.isTime then 1 else 0) + (if cfg.isFileFunctionLine then 1 else 0)
    ensures cfg.isTime ==> r[0] == clock.timestamp
    ensures cfg.isFileFunctionLine ==> r[|r| - 1] == Location(site)
  {
    (if cfg.isTime then [clock.timestamp] else []) + (if cfg.isFileFunctionLine then [Location(site)] else [])
  }

  /**
    The prefix: the enabled components joined with the call's separator, so
    empty, the timestamp, the location, or both with the separator between.
  */
  function Prefix(cfg: Config, clock: Clock, site: CallSite, sep: string): (r: string)
    ensures !cfg.isTime && !cfg.isFileFunctionLine ==> r == ""
    ensures cfg.isTime && !cfg.isFileFunctionLine ==> r == clock.timestamp
    ensures !cfg.isTime && cfg.isFileFunctionLine ==> r == Location(site)
    ensures cfg.isTime && cfg.isFileFunctionLine ==> r == clock.timestamp + sep + Location(site)
  {
    var parts := PrefixParts(cfg, clock, site);
    assert |parts| == 2 ==>
      parts == [clock.timestamp, Location(site)] && parts[1..] == [Location(site)]
      && Join(parts, sep) == clock.timestamp + sep + Join(parts[1..], sep);
    Join(parts, sep)
  }

  /** The prefix is empty exactly when the location is off and the timestamp is off or empty. */
  lemma PrefixEmpty(cfg: Config, clock: Clock, site: CallSite, sep: string)
    ensures Prefix(cfg, clock, site, sep) == "" <==> !cfg.isFileFunctionLine && (!cfg.isTime || clock.timestamp == "")
  {
    if cfg.isFileFunctionLine {
      assert |Location(site)| > 0;
    }
  }

  // ---------------------------------------------------------------- writing

  /** The renderings of `items`, in order. */
  function Renderings(items: seq<Value>, rt: Runtime): (r: seq<string>)
    ensures |r| == |items|
  {
    seq(|items|, i requires 0 <= i < |items| => PrintUnlocked(items[i], rt))
  }

  /** One more item adds its rendering at the end. */
  lemma RenderingsStep(items: seq<Value>, i: nat, rt: Runtime)
    requires i < |items|
    ensures Renderings(items[..i + 1], rt) == Renderings(items[..i], rt) + [PrintUnlocked(items[i], rt)]
  {
  }

  /** What `_print` writes: the items' renderings joined with `sep`, then `term`. */
  function PrintItems(items: seq<Value>, sep: string, term: string, rt: Runtime): (r: string)
    ensures |items| == 0 ==> r == term
    ensures |items| == 1 ==> r == PrintUnlocked(items[0], rt) + term
    ensures |r| >= |term| && r[|r| - |term|..] == term
  {
    Join(Renderings(items, rt), sep) + term
  }

  /** `_print`, written as its loop: the separator is written before every item but the first. */
  method WriteItems(items: seq<Value>, sep: string, term: string, rt: Runtime) returns (out: string)
    ensures out == PrintItems(items, sep, term, rt)
  {
    out := "";
    var prefix := "";
    var i := 0;
    while i < |items|
      invariant 0 <= i <= |items|
      invariant prefix == if i == 0 then "" else sep
      invariant out == Join(Renderings(items[..i], rt), sep)
    {
      var done := Renderings(items[..i], rt);
      RenderingsStep(items, i, rt);
      if i > 0 {
        JoinSnoc(done, PrintUnlocked(items[i], rt), sep);
      }
      out := out + prefix;
      out := out + PrintUnlocked(items[i], rt);
      prefix := sep;
      i := i + 1;
    }
    assert items[..i] == items;
    out := out + term;
  }

  /**
    The text of one job: the prefix, when non-empty, written as a one-item
    print ended by the separator, then the value, ended by the terminator.
  */
  function JobText(prefix: string, value: Value, sep: string, term: string, rt: Runtime): (r: string)
    ensures r == (if prefix == "" then "" else prefix + sep) + PrintUnlocked(value, rt) + term
  {
    (if prefix != "" then PrintItems([Str(prefix)], sep, sep, rt) else "") + PrintItems([value], sep, term, rt)
  }

  /**
    `Print.level`: nothing when the gate is closed; otherwise the job's text
    and the day's log file, named from the configured path as it is given.
  */
  function Log(cfg: Config, lv: Levels.Level, value: Value, sep: string, term: string,
               site: CallSite, clock: Clock, rt: Runtime): (r: Option<Record>)
    ensures r.Some? <==> Levels.Rank(lv) >= Levels.Rank(cfg.level)
    ensures r.Some? ==>
      var p := Prefix(cfg, clock, site, sep);
      && r.value.text == (if p == "" then "" else p + sep) + PrintUnlocked(value, rt) + term
      && r.value.logFile == cfg.path + clock.day + ".log"
  {
    if Levels.Emits(lv, cfg.level) then
      Some(Record(JobText(Prefix(cfg, clock, site, sep), value, sep, term, rt), LogFileAsWritten(cfg.path, clock.day)))
    else None
  }

  /** `Print.level` with the day's log file placed inside the normalised directory. */
  function LogIntended(cfg: Config, lv: Levels.Level, value: Value, sep: string, term: string,
                       site: CallSite, clock: Clock, rt: Runtime): (r: Option<Record>)
    ensures r.Some? <==> Levels.Rank(lv) >= Levels.Rank(cfg.level)
    ensures r.Some? ==>
      var dir := NormalizeDir(cfg.path);
      && r.value.text == Log(cfg, lv, value, sep, term, site, clock, rt).value.text
      && dir <= r.value.logFile && r.value.logFile[|dir|..] == clock.day + ".log"
  {
    if Levels.Emits(lv, cfg.level) then
      Some(Record(JobText(Prefix(cfg, clock, site, sep), value, sep, term, rt), LogFile(cfg.path, clock.day)))
    else None
  }

  /** The job as written and the intended one differ only for a non-empty path lacking the trailing "/". */
  lemma LogIntendedAgrees(cfg: Config, lv: Levels.Level, value: Value, sep: string, term: string,
                          site: CallSite, clock: Clock, rt: Runtime)
    requires Levels.Emits(lv, cfg.level)
    ensures LogIntended(cfg, lv, value, sep, term, site, clock, rt) == Log(cfg, lv, value, sep, term, site, clock, rt)
        <==> |cfg.path| == 0 || cfg.path[|cfg.path| - 1] == '/'
  {
    LogFileAgrees(cfg.path, clock.day);
  }

  // ---------------------------------------------------------------- wrappers

  /** `Print.debug`: writes only at the configured level `debug`. */
  function Debug(cfg: Config, value: Value, sep: string, term: string, site: CallSite, clock: Clock, rt: Runtime): (r: Option<Record>)
    ensures r == Log(cfg, Levels.Level.Debug, value, sep, term, site, clock, rt)
    ensures r.Some? <==> cfg.level == Levels.Level.Debug
  {
    Log(cfg, Levels.Level.Debug, value, sep, term, site, clock, rt)
  }

  /** `Print.info`: writes at the configured levels `debug` and `info`. */
  function Info(cfg: Config, value: Value, sep: string, term: string, site: CallSite, clock: Clock, rt: Runtime): (r: Option<Record>)
    ensures r == Log(cfg, Levels.Level.Info, value, sep, term, site, clock, rt)
    ensures r.Some? <==> cfg.level in {Levels.Level.Debug, Levels.Level.Info}
  {
    Log(cfg, Levels.Level.Info, value, sep, term, site, clock, rt)
  }

  /** `Print.warning`: writes unless the configured level is `error` or `max`. */
  function Warning(cfg: Config, value: Value, sep: string, term: string, site: CallSite, clock: Clock, rt: Runtime): (r: Option<Record>)
    ensures r == Log(cfg, Levels.Level.Warning, value, sep, term, site, clock, rt)
    ensures r.Some? <==> cfg.level !in {Levels.Level.Error, Levels.Level.Max}
  {
    Log(cfg, Levels.Level.Warning, value, sep, term, site, clock, rt)
  }

  /** `Print.error`: writes unless the configured level is `max`. */
  function Error(cfg: Config, value: Value, sep: string, term: string, site: CallSite, clock: Clock, rt: Runtime): (r: Option<Record>)
    ensures r == Log(cfg, Levels.Level.Error, value, sep, term, site, clock, rt)
    ensures r.Some? <==> cfg.level != Levels.Level.Max
  {
    Log(cfg, Levels.Level.Error, value, sep, term, site, clock, rt)
  }

  /** At the configured level `max` none of the four wrappers writes anything. */
  lemma MaxSilencesWrappers(cfg: Config, value: Value, sep: string, term: string, site: CallSite, clock: Clock, rt: Runtime)
    requires cfg.level == Levels.Level.Max
    ensures Debug(cfg, value, sep, term, site, clock, rt).None?
    ensures Info(cfg, value, sep, term, site, clock, rt).None?
    ensures Warning(cfg, value, sep, term, site, clock, rt).None?
    ensures Error(cfg, value, sep, term, site, clock, rt).None?
  {
  }

  /**
    With the level `info`, both annotations off and the default separator and
    terminator, `debug("x")` writes nothing, while `info("hello")` and
    `error("boom")` write their strings and a newline to the same day's file.
  */
  lemma InfoLevelExample(site: CallSite, clock: Clock, rt: Runtime)
    requires clock.day == "2024-01-01"
    ensures var cfg := Config(Levels.Level.Info, false, false, "/logs/");
      var sep, term := DefaultSeparator, DefaultTerminator;
      && Debug(cfg, Str("x"), sep, term, site, clock, rt) == None
      && Info(cfg, Str("hello"), sep, term, site, clock, rt) == Some(Record("hello\n", "/logs/2024-01-01.log"))
      && Error(cfg, Str("boom"), sep, term, site, clock, rt) == Some(Record("boom\n", "/logs/2024-01-01.log"))
  {
    var cfg := Config(Levels.Level.Info, false, false, "/logs/");
    assert Prefix(cfg, clock, site, " ") == "";
    assert LogFileAsWritten(cfg.path, clock.day) == "/logs/2024-01-01.log";
    assert Info(cfg, Str("hello"), " ", "\n", site, clock, rt).value.text == "hello\n";
    assert Error(cfg, Str("boom"), " ", "\n", site, clock, rt).value.text == "boom\n";
  }
}
