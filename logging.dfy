/**
 * The bot's logger: how the output format and the list of accepted log targets are read
 * from the environment, which records are let through, and how a record is rendered as a
 * human-readable text line or as a structured Cloud Logging entry.
 *
 * The environment variables (`LOG_FORMAT`, `RUST_LOG_TARGETS`), the crate name, the
 * captured backtrace and the regular-expression library are parameters: the model holds
 * for every value of them.
 */
module Logging {
  import opened Wrappers
  import opened Strings
  import Gc = CloudLogging

  /* ---------------- Records, as the `log` crate hands them over ---------------- */

  datatype Level = Error | Warn | Info | Debug | Trace

  /** The `log` crate's numbering of levels: 1 for Error up to 5 for Trace, so a
      greater number is a more verbose level. */
  function Verbosity(level: Level): nat
  {
    match level
    case Error => 1
    case Warn => 2
    case Info => 3
    case Debug => 4
    case Trace => 5
  }

  datatype Metadata = Metadata(level: Level, target: string)

  /** A log record: its metadata, the formatted message (`args`) and where it was logged.
      `file` and `modulePath` are the record's `file_static()` and `module_path_static()`,
      which are None when the file or module path is not a `'static` string. */
  datatype Record = Record(
    metadata: Metadata,
    args: string,
    file: Option<string>,
    line: Option<nat>,
    modulePath: Option<string>)

  /* ---------------- Output format ---------------- */

  datatype LogFormat = Text | Json

  /** `LogFormat::get_format`, given the value of `LOG_FORMAT` (None when it is unset):
      an unset variable reads as "json", exactly "text" selects text and every other
      value, whatever its case, falls back to JSON. */
  function GetFormat(logFormatVar: Option<string>): (format: LogFormat)
    ensures format == Text <==> logFormatVar == Some("text")
    ensures format == Json <==> logFormatVar != Some("text")
  {
    var fmt := logFormatVar.GetOr("json");
    if fmt == "text" then Text
    else if fmt == "json" then Json
    else Json
  }

  /** Whether `get_format` reports the value of `LOG_FORMAT` as invalid before it falls
      back to JSON: only a set variable that is neither "text" nor "json" is. */
  predicate ReportsInvalidFormat(logFormatVar: Option<string>)
    ensures ReportsInvalidFormat(logFormatVar) <==>
      logFormatVar.Some? && logFormatVar != Some("text") && logFormatVar != Some("json")
  {
    var fmt := logFormatVar.GetOr("json");
    fmt != "text" && fmt != "json"
  }

  /** A value reported as invalid falls back to JSON. */
  lemma InvalidFormatFallsBackToJson(logFormatVar: Option<string>)
    ensures ReportsInvalidFormat(logFormatVar) ==> GetFormat(logFormatVar) == Json
  {
  }

  /* ---------------- Target patterns ---------------- */

  /** The regular-expression library, which this model does not look inside: which
      pattern strings compile, and whether a compiled pattern is found anywhere in a
      target (an unanchored search). */
  datatype RegexEngine = RegexEngine(compiles: string -> bool, isMatch: (string, string) -> bool)

  /** A compiled regular expression, known by the pattern it was compiled from. */
  datatype Regex = Regex(pattern: string)

  /** `Regex::new`: a compiled expression exactly when the pattern compiles, and then
      one that keeps the pattern it came from. */
  function Compile(engine: RegexEngine, pattern: string): (re: Option<Regex>)
    ensures re.Some? <==> engine.compiles(pattern)
    ensures re.Some? ==> re.value.pattern == pattern
  {
    if engine.compiles(pattern) then Some(Regex(pattern)) else None
  }

  /** The compiled patterns and the flag that lets every target through. */
  datatype LogTargets = LogTargets(targets: seq<Regex>, all: bool)

  /** The uncompiled target list: the comma-separated pieces of `RUST_LOG_TARGETS` when it
      is set, untrimmed and with empty pieces kept, otherwise the crate name alone. */
  function RawTargets(targetsVar: Option<string>, crateName: string): (raw: seq<string>)
    ensures |raw| >= 1
    ensures targetsVar.None? ==> raw == [crateName]
    ensures targetsVar.Some? ==>
      Join(raw, ',') == targetsVar.value && forall i :: 0 <= i < |raw| ==> ',' !in raw[i]
  {
    match targetsVar
    case None => [crateName]
    case Some(csv) =>
      JoinSplit(csv, ',');
      Split(csv, ',')
  }

  /** Whether a target entry asks for every log: it lower-cases to "all". */
  predicate IsAllKeyword(target: string)
  {
    ToLowerAscii(target) == "all"
  }

  /** Whether some entry of the uncompiled list is an "all" entry. */
  function AnyAll(raw: seq<string>): (all: bool)
    ensures all <==> exists i :: 0 <= i < |raw| && IsAllKeyword(raw[i])
    decreases |raw|
  {
    if raw == [] then false
    else
      var rest := AnyAll(raw[1..]);
      assert rest <==> exists i :: 1 <= i < |raw| && IsAllKeyword(raw[i]) by {
        forall i | 1 <= i < |raw| ensures raw[1..][i - 1] == raw[i] { }
      }
      IsAllKeyword(raw[0]) || rest
  }

  /** The entries that compile, compiled, in their original order; an entry that does not
      compile is dropped (after a diagnostic, not modelled). */
  function CompileTargets(engine: RegexEngine, raw: seq<string>): (targets: seq<Regex>)
    ensures |targets| <= |raw|
    ensures forall i :: 0 <= i < |targets| ==> engine.compiles(targets[i].pattern) && targets[i].pattern in raw
    ensures forall i :: 0 <= i < |raw| && engine.compiles(raw[i]) ==> Regex(raw[i]) in targets
    decreases |raw|
  {
    if raw == [] then []
    else
      var rest := CompileTargets(engine, raw[1..]);
      assert forall i :: 1 <= i < |raw| ==> raw[i] == raw[1..][i - 1];
      match Compile(engine, raw[0])
      case Some(re) => [re] + rest
      case None => rest
  }

  /** Compilation works entry by entry: the compiled list of a concatenation is the
      concatenation of the compiled lists. */
  lemma {:induction false} CompileTargetsAppend(engine: RegexEngine, a: seq<string>, b: seq<string>)
    ensures CompileTargets(engine, a + b) == CompileTargets(engine, a) + CompileTargets(engine, b)
    decreases |a|
  {
    if a != [] {
      assert (a + b)[1..] == a[1..] + b;
      CompileTargetsAppend(engine, a[1..], b);
    } else {
      assert a + b == b;
    }
  }

  /** An entry that fails to compile is dropped and nothing else changes; one that compiles
      keeps its place between the others. */
  lemma CompileTargetsEntry(engine: RegexEngine, before: seq<string>, entry: string, after: seq<string>)
    ensures CompileTargets(engine, before + [entry] + after) ==
      CompileTargets(engine, before)
      + (if engine.compiles(entry) then [Regex(entry)] else [])
      + CompileTargets(engine, after)
  {
    var tail := [entry] + after;
    assert before + [entry] + after == before + tail;
    CompileTargetsAppend(engine, before, tail);
    assert tail[1..] == after;
  }

  /** `LogTargets::default`: `all` is decided on the uncompiled list, so compile failures
      never change it, and the compiled list keeps the entries that compile. */
  function DefaultTargets(engine: RegexEngine, targetsVar: Option<string>, crateName: string): (t: LogTargets)
    ensures var raw := RawTargets(targetsVar, crateName);
      && (t.all <==> exists i :: 0 <= i < |raw| && IsAllKeyword(raw[i]))
      && |t.targets| <= |raw|
      && (forall i :: 0 <= i < |t.targets| ==> engine.compiles(t.targets[i].pattern) && t.targets[i].pattern in raw)
      && (forall i :: 0 <= i < |raw| && engine.compiles(raw[i]) ==> Regex(raw[i]) in t.targets)
  {
    var raw := RawTargets(targetsVar, crateName);
    LogTargets(CompileTargets(engine, raw), AnyAll(raw))
  }

  /** The `all` flag does not depend on which entries compile. */
  lemma DefaultTargetsAllIgnoresCompilation(e1: RegexEngine, e2: RegexEngine, targetsVar: Option<string>, crateName: string)
    ensures DefaultTargets(e1, targetsVar, crateName).all == DefaultTargets(e2, targetsVar, crateName).all
  {
  }

  /** With `RUST_LOG_TARGETS` unset, the only target is the crate name. */
  lemma DefaultTargetsUnset(engine: RegexEngine, crateName: string)
    ensures DefaultTargets(engine, None, crateName) ==
      LogTargets(if engine.compiles(crateName) then [Regex(crateName)] else [], IsAllKeyword(crateName))
  {
    assert [crateName][1..] == [];
  }

  /* ---------------- Logger ---------------- */

  /** The logger: its output format and its target filter, fixed once built
      (`Logger::custom` is this constructor). */
  datatype Logger = Logger(format: LogFormat, supportedTargets: LogTargets)

  /** `Logger::new`: both halves read from the environment. */
  function NewLogger(engine: RegexEngine, logFormatVar: Option<string>, targetsVar: Option<string>, crateName: string): (logger: Logger)
    ensures logger.format == Text <==> logFormatVar == Some("text")
    ensures logger.supportedTargets.all <==> exists i :: 0 <= i < |RawTargets(targetsVar, crateName)| && IsAllKeyword(RawTargets(targetsVar, crateName)[i])
    ensures logger.supportedTargets.targets == CompileTargets(engine, RawTargets(targetsVar, crateName))
  {
    Logger(GetFormat(logFormatVar), DefaultTargets(engine, targetsVar, crateName))
  }

  /* ---------------- Crate root ---------------- */

  /** Whether the path separator "::" starts at index `i` of `s`. */
  predicate SeparatorAt(s: string, i: int)
  {
    0 <= i && i + 1 < |s| && s[i] == ':' && s[i + 1] == ':'
  }

  /** `Logger::get_crate_root`: the part of `target` before its first "::", or all of
      `target` when it has none. */
  function CrateRoot(target: string): (root: string)
    ensures root <= target
    ensures forall i :: 0 <= i < |root| ==> !SeparatorAt(target, i)
    ensures |root| == |target| || SeparatorAt(target, |root|)
    decreases |target|
  {
    if |target| < 2 then target
    else if target[0] == ':' && target[1] == ':' then ""
    else
      var rest := CrateRoot(target[1..]);
      assert forall i :: 1 <= i < |target| ==> (SeparatorAt(target, i) <==> SeparatorAt(target[1..], i - 1));
      [target[0]] + rest
  }

  /** The crate root holds no "::" of its own. */
  lemma CrateRootHasNoSeparator(target: string, i: int)
    ensures !SeparatorAt(CrateRoot(target), i)
  {
    var root := CrateRoot(target);
    if 0 <= i && i + 1 < |root| {
      assert root[i] == target[i] && root[i + 1] == target[i + 1];
      assert !SeparatorAt(target, i);
    }
  }

  /** The three facts in `CrateRoot`'s contract determine it: any prefix with no "::"
      before its end that is followed by "::" or by nothing is the crate root. */
  lemma CrateRootUnique(target: string, root: string)
    requires root <= target
    requires forall i :: 0 <= i < |root| ==> !SeparatorAt(target, i)
    requires |root| == |target| || SeparatorAt(target, |root|)
    ensures root == CrateRoot(target)
  {
    var r := CrateRoot(target);
    assert |r| == |root|;
  }

  /** Taking the crate root twice changes nothing. */
  lemma CrateRootIdempotent(target: string)
    ensures CrateRoot(CrateRoot(target)) == CrateRoot(target)
  {
    var root := CrateRoot(target);
    forall i | 0 <= i < |root| ensures !SeparatorAt(root, i) {
      CrateRootHasNoSeparator(target, i);
    }
    CrateRootUnique(root, root);
  }

  /* ---------------- Filtering ---------------- */

  /** Whether some compiled pattern is found in `target`. */
  function AnyMatch(engine: RegexEngine, targets: seq<Regex>, target: string): (found: bool)
    ensures found <==> exists i :: 0 <= i < |targets| && engine.isMatch(targets[i].pattern, target)
    decreases |targets|
  {
    if targets == [] then false
    else
      var rest := AnyMatch(engine, targets[1..], target);
      assert forall i :: 1 <= i < |targets| ==> targets[1..][i - 1] == targets[i];
      engine.isMatch(targets[0].pattern, target) || rest
  }

  /** `Logger::enabled`: a record passes when `all` is set or one of the patterns is found
      in its target; the level plays no part. */
  function Enabled(engine: RegexEngine, logger: Logger, metadata: Metadata): (enabled: bool)
    ensures logger.supportedTargets.all ==> enabled
    ensures !logger.supportedTargets.all ==>
      (enabled <==> exists i :: 0 <= i < |logger.supportedTargets.targets|
                               && engine.isMatch(logger.supportedTargets.targets[i].pattern, metadata.target))
    ensures logger.supportedTargets.targets == [] && !logger.supportedTargets.all ==> !enabled
  {
    logger.supportedTargets.all || AnyMatch(engine, logger.supportedTargets.targets, metadata.target)
  }

  /** With `RUST_LOG_TARGETS` unset and a crate name that is not a spelling of "all",
      a record passes exactly when the crate name compiles and is found in its target. */
  lemma DefaultFilterIsCrateName(engine: RegexEngine, format: LogFormat, crateName: string, metadata: Metadata)
    requires !IsAllKeyword(crateName)
    ensures Enabled(engine, Logger(format, DefaultTargets(engine, None, crateName)), metadata) <==>
      engine.compiles(crateName) && engine.isMatch(crateName, metadata.target)
  {
    DefaultTargetsUnset(engine, crateName);
  }

  /* ---------------- Level mappings ---------------- */

  /** The text label of a level: four or five upper-case letters. */
  function Label(level: Level): (name: string)
    ensures 4 <= |name| <= 5
    ensures forall i :: 0 <= i < |name| ==> 'A' <= name[i] <= 'Z'
  {
    match level
    case Error => "ERROR"
    case Warn => "WARN"
    case Info => "INFO"
    case Debug => "DEBUG"
    case Trace => "TRACE"
  }

  /** The level a label names, if any: the inverse of `Label`, which is therefore
      injective. */
  function LevelOfLabel(name: string): (level: Option<Level>)
    ensures forall l :: level == Some(l) <==> Label(l) == name
  {
    if name == "ERROR" then Some(Error)
    else if name == "WARN" then Some(Warn)
    else if name == "INFO" then Some(Info)
    else if name == "DEBUG" then Some(Debug)
    else if name == "TRACE" then Some(Trace)
    else None
  }

  /** The Cloud Logging severity of a level: one of the five lowest severities, never
      Notice, and never above Error. */
  function SeverityOf(level: Level): (severity: Gc.Severity)
    ensures Gc.SeverityValue(severity) <= Gc.SeverityValue(Gc.Error)
    ensures severity != Gc.Notice
  {
    match level
    case Error => Gc.Error
    case Warn => Gc.Warning
    case Info => Gc.Info
    case Debug => Gc.Debug
    case Trace => Gc.Default
  }

  /** The level a severity comes from, if any: the inverse of `SeverityOf`, which is
      therefore injective; Notice, Critical, Alert and Emergency are never produced. */
  function LevelOfSeverity(severity: Gc.Severity): (level: Option<Level>)
    ensures forall l :: level == Some(l) <==> SeverityOf(l) == severity
  {
    match severity
    case Error => Some(Error)
    case Warning => Some(Warn)
    case Info => Some(Info)
    case Debug => Some(Debug)
    case Default => Some(Trace)
    case _ => None
  }

  /** The severity map reverses the order of levels: a more verbose level gets a lower
      severity. */
  lemma SeverityReversesVerbosity(a: Level, b: Level)
    ensures Verbosity(a) < Verbosity(b) <==> Gc.SeverityValue(SeverityOf(a)) > Gc.SeverityValue(SeverityOf(b))
  {
  }

  /** The Error Reporting type that marks an entry as a reportable error event. */
  const ReportedErrorEventType := "type.googleapis.com/google.devtools.clouderrorreporting.v1beta1.ReportedErrorEvent"

  /** The `@type` field of an entry: set for errors only. */
  function ReportType(level: Level): (reportType: Option<string>)
    ensures reportType.Some? <==> level == Error
    ensures reportType.Some? ==> reportType.value == ReportedErrorEventType
  {
    match level
    case Error => Some(ReportedErrorEventType)
    case _ => None
  }

  /** Whether a text line carries the backtrace: for errors and warnings, the two least
      verbose levels. */
  predicate ShowsBacktrace(level: Level)
    ensures ShowsBacktrace(level) <==> Verbosity(level) <= 2
  {
    level == Error || level == Warn
  }

  /* ---------------- Text rendering ---------------- */

  /** The text line of a record (without the newline `println!` adds): the label padded
      to five characters, ":", the target, " - ", the message and, for errors and
      warnings, a newline and the backtrace. */
  function TextLine(record: Record, backtrace: string): (line: string)
    ensures |line| >= 9 + |record.metadata.target| + |record.args|
    ensures line[5] == ':'
    ensures ShowsBacktrace(record.metadata.level) <==>
      |line| > 9 + |record.metadata.target| + |record.args|
  {
    var level := record.metadata.level;
    PadRight(Label(level), 5) + ":" + record.metadata.target + " - " + record.args
    + (if ShowsBacktrace(level) then "\n" + backtrace else "")
  }

  /** The level a text line starts with: its first five characters, trailing spaces
      removed, read as a label. */
  function LevelOfTextLine(line: string): Option<Level>
  {
    if |line| < 5 then None else LevelOfLabel(TrimEndSpaces(line[..5]))
  }

  /** The level of a text line can be read back from it. */
  lemma TextLineLevel(record: Record, backtrace: string)
    ensures LevelOfTextLine(TextLine(record, backtrace)) == Some(record.metadata.level)
  {
    var name := Label(record.metadata.level);
    var line := TextLine(record, backtrace);
    assert line[..5] == PadRight(name, 5);
    TrimPadRight(name, 5);
  }

  /** The layout of a text line, field by field: the label column is exactly five wide
      (WARN and INFO gain one space), and the backtrace follows the message exactly when
      the level is Error or Warn. */
  lemma TextLineLayout(record: Record, backtrace: string)
    ensures var line := TextLine(record, backtrace);
      var level := record.metadata.level;
      var t := record.metadata.target;
      var m := record.args;
      && |line| >= 9 + |t| + |m|
      && line[..5] == (if level == Warn || level == Info then Label(level) + " " else Label(level))
      && line[5] == ':'
      && line[6..6 + |t|] == t
      && line[6 + |t|..9 + |t|] == " - "
      && line[9 + |t|..9 + |t| + |m|] == m
      && line[9 + |t| + |m|..] == (if level == Error || level == Warn then "\n" + backtrace else "")
  {
    var level := record.metadata.level;
    var name := Label(level);
    var t := record.metadata.target;
    var m := record.args;
    var padded := PadRight(name, 5);
    var suffix := if ShowsBacktrace(level) then "\n" + backtrace else "";
    var line := TextLine(record, backtrace);
    assert line == padded + ":" + t + " - " + m + suffix;
    assert |padded| == 5;
    if level == Warn || level == Info {
      assert padded == name + " ";
    } else {
      assert padded == name;
    }
    assert line[..5] == padded;
  }

  /** A warning from "svc" saying "disk low" starts "WARN :svc - disk low" and goes on
      with a newline and the backtrace. */
  lemma TextLineWarningExample(backtrace: string)
    ensures TextLine(Record(Metadata(Warn, "svc"), "disk low", None, None, None), backtrace)
      == "WARN :svc - disk low\n" + backtrace
  {
    assert PadRight("WARN", 5) == "WARN ";
  }

  /* ---------------- Structured rendering ---------------- */

  /** The Cloud Logging entry of a record. The message always carries a newline and the
      backtrace, whatever the level. */
  function JsonEntry(record: Record, backtrace: string): (entry: Gc.StructLog)
    ensures entry.severity.Some? && LevelOfSeverity(entry.severity.value) == Some(record.metadata.level)
    ensures entry.reportType.Some? <==> record.metadata.level == Error
    ensures entry.reportType == ReportType(record.metadata.level)
    ensures entry.message == Some(record.args + "\n" + backtrace)
    ensures entry.operation.Some? && entry.operation.value.producer == Some(record.metadata.target)
    ensures entry.operation.value.id.Some? && entry.operation.value.id.value <= record.metadata.target
    ensures entry.operation.value.id == Some(CrateRoot(record.metadata.target))
    ensures entry.sourceLocation.Some? && entry.sourceLocation.value.file == record.file
    ensures entry.sourceLocation.value.functionName == record.modulePath
    ensures entry.sourceLocation.value.line.Some? <==> record.line.Some?
  {
    var level := record.metadata.level;
    var target := record.metadata.target;
    Gc.StructLog(
      Some(SeverityOf(level)),
      ReportType(level),
      Some(record.args + "\n" + backtrace),
      Some(Gc.Operation(Some(CrateRoot(target)), Some(target))),
      Some(Gc.SourceLocation(
        record.file,
        match record.line case Some(n) => Some(DecimalString(n)) case None => None,
        record.modulePath)))
  }

  /** The operation id of an entry is the crate root of its producer. */
  lemma JsonOperationId(record: Record, backtrace: string)
    ensures var op := JsonEntry(record, backtrace).operation.value;
      op.id == Some(CrateRoot(op.producer.value))
  {
  }

  /** The line number of an entry reads back as the record's line. */
  lemma JsonSourceLine(record: Record, backtrace: string)
    requires record.line.Some?
    ensures var line := JsonEntry(record, backtrace).sourceLocation.value.line.value;
      (forall i :: 0 <= i < |line| ==> IsDigit(line[i])) && ParseDecimal(line) == record.line.value
  {
    ParseDecimalString(record.line.value);
  }

  /* ---------------- Log ---------------- */

  /** What one call of `log` writes: a text line or a structured entry. */
  datatype Output = TextOutput(line: string) | JsonOutput(entry: Gc.StructLog)

  /** `Logger::log`: nothing for a record the filter rejects, otherwise the record
      rendered in the logger's format. */
  function Log(engine: RegexEngine, logger: Logger, record: Record, backtrace: string): (out: Option<Output>)
    ensures out.None? <==> !Enabled(engine, logger, record.metadata)
    ensures out.Some? ==> (out.value.TextOutput? <==> logger.format == Text)
    ensures out.Some? && out.value.TextOutput? ==> LevelOfTextLine(out.value.line) == Some(record.metadata.level)
    ensures out.Some? && out.value.JsonOutput? ==>
      out.value.entry.severity == Some(SeverityOf(record.metadata.level))
    ensures out.Some? && logger.format == Text ==> out.value == TextOutput(TextLine(record, backtrace))
    ensures out.Some? && logger.format == Json ==> out.value == JsonOutput(JsonEntry(record, backtrace))
  {
    if !Enabled(engine, logger, record.metadata) then None
    else
      match logger.format
      case Text =>
        TextLineLevel(record, backtrace);
        Some(TextOutput(TextLine(record, backtrace)))
      case Json => Some(JsonOutput(JsonEntry(record, backtrace)))
  }

  /** A logger whose filter has `all` set writes every record. */
  lemma LogAllWritesEverything(engine: RegexEngine, format: LogFormat, targets: seq<Regex>, record: Record, backtrace: string)
    ensures Log(engine, Logger(format, LogTargets(targets, true)), record, backtrace).Some?
  {
  }
}
