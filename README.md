# Logger and Cloud Run address of the Serenity bot template

This project models, in Dafny, the pure decision and rendering logic of the bot's
logger and the address its Cloud Run health listener binds to:

- how `LOG_FORMAT` selects text or JSON output (`LogFormat::get_format`);
- how `RUST_LOG_TARGETS` becomes the list of accepted target patterns and the `all`
  flag (`LogTargets::default`), with the regular-expression library left abstract;
- which records the logger lets through (`Logger::enabled`);
- the crate root of a target (`Logger::get_crate_root`);
- the level label, the Cloud Logging severity and the error-report marker of a level;
- the text line and the structured Cloud Logging entry that `Logger::log` writes;
- the `0.0.0.0:<PORT>` address of `CloudRunConfig::default`.

Everything is functional: the logger's fields are never changed after it is built and
none of these operations has a loop, so the model is made of datatypes, functions and
lemmas. Environment variables, the crate name, the captured backtrace and the regular
expression library (which patterns compile, whether a pattern is found in a target) are
parameters, and every property holds for all of their values.

Modules: `Wrappers` (Option), `Strings` (the standard-library string operations the
logger uses: `split`, ASCII `to_lowercase`, `{:<5}` padding, `u32::to_string`),
`CloudLogging` (the Cloud Logging record types), `Logging` (src/utils/logging.rs) and
`Gcp` (src/utils/gcp.rs). `Logger::custom` is the `Logging.Logger` constructor itself.

The structured entry's message is the message, a newline and the backtrace for every
level (src/utils/logging.rs:157-163); only the text line limits the backtrace to errors
and warnings.

## Model

| member | source | states |
|---|---|---|
| `Logging.GetFormat` | src/utils/logging.rs:40-50 | text output exactly when `LOG_FORMAT` is exactly "text"; an unset variable, "json" and every other value (including "TEXT", "Json") give JSON |
| `Logging.ReportsInvalidFormat` | src/utils/logging.rs:45-46 | the invalid-format diagnostic is given exactly for a set value other than "text" and "json" |
| `Logging.InvalidFormatFallsBackToJson` | src/utils/logging.rs:41-48 | a value reported as invalid falls back to JSON |
| `Strings.Split` | src/utils/logging.rs:66 | splitting on ',' gives at least one piece and no piece contains ',' |
| `Strings.JoinSplit` | src/utils/logging.rs:66 | the pieces joined with ',' give back the input: nothing trimmed, order kept, empty pieces kept |
| `Strings.SplitPrefix` | src/utils/logging.rs:66 | a comma-free prefix is glued onto the first piece of what follows |
| `Strings.SplitJoin` | src/utils/logging.rs:66 | splitting the join of comma-free pieces gives back those pieces, so the split is the only such decomposition |
| `Logging.RawTargets` | src/utils/logging.rs:65-67 | the uncompiled list is the crate name alone when `RUST_LOG_TARGETS` is unset, else comma-free pieces that join back to the variable's value |
| `Strings.ToLowerAscii` | src/utils/logging.rs:68 | lower-casing keeps the length and lower-cases character by character |
| `Strings.LowerAsciiIs` | src/utils/logging.rs:68 | a character lower-cases to a lower-case letter exactly when it is that letter or its upper-case form |
| `Strings.LowerIsAll` | src/utils/logging.rs:68 | an entry lower-cases to "all" exactly when it is one of the eight case spellings of "all" |
| `Logging.AnyAll` | src/utils/logging.rs:68 | the `all` test is true exactly when some uncompiled entry lower-cases to "all" |
| `Logging.Compile` | src/utils/logging.rs:73-82 | a pattern gives a compiled expression exactly when it compiles, and that expression keeps the pattern |
| `Logging.CompileTargets` | src/utils/logging.rs:70-84 | every kept pattern compiles and is an entry; every entry that compiles is kept; never more patterns than entries |
| `Logging.CompileTargetsAppend` | src/utils/logging.rs:71-83 | compilation works entry by entry: the compiled list of a concatenation is the concatenation of compiled lists, so order is kept |
| `Logging.CompileTargetsEntry` | src/utils/logging.rs:73-82 | an entry that fails to compile is dropped without changing the others; one that compiles keeps its place |
| `Logging.DefaultTargets` | src/utils/logging.rs:64-86 | `all` is decided on the uncompiled list; the patterns are exactly the entries that compile |
| `Logging.DefaultTargetsAllIgnoresCompilation` | src/utils/logging.rs:68-84 | the `all` flag is the same whichever entries compile |
| `Logging.DefaultTargetsUnset` | src/utils/logging.rs:65-67 | with `RUST_LOG_TARGETS` unset the patterns are the crate name if it compiles, and `all` only if the crate name spells "all" |
| `Logging.NewLogger` | src/utils/logging.rs:90-95 | `Logger::new` takes its format from `LOG_FORMAT`, its `all` flag from the uncompiled target list and its patterns from compiling that list |
| `Logging.CrateRoot` | src/utils/logging.rs:105-107 | the crate root is a prefix of the target, no "::" starts inside it, and it is followed by "::" or by nothing |
| `Logging.CrateRootHasNoSeparator` | src/utils/logging.rs:105-107 | the crate root contains no "::" |
| `Logging.CrateRootUnique` | src/utils/logging.rs:105-107 | the three facts of `CrateRoot`'s contract determine it: it is the text before the first "::" |
| `Logging.CrateRootIdempotent` | src/utils/logging.rs:105-107 | taking the crate root twice is the same as once |
| `Logging.AnyMatch` | src/utils/logging.rs:113-117 | true exactly when some compiled pattern is found in the target |
| `Logging.Enabled` | src/utils/logging.rs:111-118 | with `all` every record passes; otherwise a record passes exactly when some pattern is found in its target; no patterns and no `all` lets nothing through |
| `Logging.DefaultFilterIsCrateName` | src/utils/logging.rs:111-118 | with the default target list and a crate name that is not a spelling of "all", a record passes exactly when the crate name compiles and is found in its target |
| `Logging.Label` | src/utils/logging.rs:128-134 | every label is four or five upper-case letters |
| `Logging.LevelOfLabel` | src/utils/logging.rs:128-134 | the label map ERROR/WARN/INFO/DEBUG/TRACE has this inverse, so it is injective |
| `Logging.SeverityOf` | src/utils/logging.rs:145-151 | a level's severity is never Notice and never above Error |
| `Logging.LevelOfSeverity` | src/utils/logging.rs:145-151 | the severity map Error→Error, Warn→Warning, Info→Info, Debug→Debug, Trace→Default has this inverse, so it is injective |
| `Logging.SeverityReversesVerbosity` | src/utils/logging.rs:145-151 | a more verbose level always maps to a lower Cloud Logging severity, and conversely |
| `Logging.ReportType` | src/utils/logging.rs:152-156 | the error-report type is set exactly for Error, to the ReportedErrorEvent type |
| `Logging.ShowsBacktrace` | src/utils/logging.rs:137-140 | the text line carries the backtrace exactly for the two least verbose levels, Error and Warn |
| `Logging.TextLine` | src/utils/logging.rs:126-141 | a text line has ':' after the five-wide label column and runs on past the message exactly when the level is Error or Warn |
| `Strings.PadRight` | src/utils/logging.rs:127 | `{:<w}` gives a string of width at least `w` that starts with the input and is filled with spaces |
| `Strings.TrimPadRight` | src/utils/logging.rs:127 | removing trailing spaces (`Strings.TrimEndSpaces`, a helper) undoes the padding of a label |
| `Logging.TextLineLevel` | src/utils/logging.rs:126-134 | the level can be read back from the first five characters of a text line |
| `Logging.TextLineLayout` | src/utils/logging.rs:126-141 | a text line is the five-wide label (WARN and INFO gain a space), ':', the target, " - ", the message, then a newline and the backtrace exactly for Error and Warn |
| `Logging.TextLineWarningExample` | src/utils/logging.rs:126-141 | a warning "disk low" from "svc" is "WARN :svc - disk low", a newline and the backtrace |
| `Strings.DecimalString` | src/utils/logging.rs:171 | a line number is written as decimal digits without leading zero |
| `Strings.ParseDecimalString` | src/utils/logging.rs:171 | the decimal digits read back as the number |
| `Logging.JsonEntry` | src/utils/logging.rs:144-176 | the entry's severity maps back to the level, the report type is set exactly for Error, the message is the message, a newline and the backtrace for every level, the producer is the target, the id its crate root, the report type the ReportedErrorEvent type exactly for Error, and the source location is the record's |
| `Logging.JsonOperationId` | src/utils/logging.rs:164-168 | the operation id is the crate root of the producer |
| `Logging.JsonSourceLine` | src/utils/logging.rs:169-173 | the source line field is all digits and reads back as the record's line |
| `Logging.Log` | src/utils/logging.rs:120-184 | nothing is written for a record the filter rejects; otherwise exactly the record's text line in text format and exactly its structured entry in JSON format |
| `Logging.LogAllWritesEverything` | src/utils/logging.rs:111-121 | a logger with `all` set writes every record |
| `Gcp.Address` | src/utils/gcp.rs:31-35 | every address starts with "0.0.0.0:" |
| `Gcp.DefaultConfig` | src/utils/gcp.rs:29-37 | the configured address carries `PORT`, or "8080" when it is unset |
| `Gcp.AddressRoundTrip` | src/utils/gcp.rs:31-35 | dropping the eight-character prefix gives back the port used |
| `Gcp.AddressFromPort` | src/utils/gcp.rs:31-35 | every string of the form "0.0.0.0:<port>" is the address built from that port |
| `Gcp.DefaultAddress` | src/utils/gcp.rs:13-16 | with `PORT` unset the address is "0.0.0.0:8080" |
| `Gcp.AddressInjective` | src/utils/gcp.rs:31-35 | distinct ports give distinct addresses |
| `Gcp.EmptyPortAddress` | src/utils/gcp.rs:31-35 | an empty `PORT` is not validated and gives "0.0.0.0:" |

## Left out

- Reading `LOG_FORMAT`, `RUST_LOG_TARGETS`, `PORT` and the crate name: they are parameters (None for a variable that is unset or not valid Unicode, which the code treats alike).
- The text of the diagnostics printed to standard error for an invalid `LOG_FORMAT` and for a pattern that fails to compile: I/O; only when the format diagnostic is given is modelled.
- `println!` and its trailing newline: the model gives the line or entry that is printed.
- Backtrace capture: the backtrace is an opaque string parameter.
- The entry's `time` field and its serialisation to JSON (`serde_json::to_string(...).expect(...)`): wall-clock time and a foreign serialiser.
- The other fields of the Cloud Logging entry and operation, which the logger leaves at their defaults.
- Regular-expression compilation and search: the library is a parameter (`Logging.RegexEngine`); the compile-error value is not modelled.
- `Strings.ToLowerAscii`: lower-cases ASCII letters only, where Rust's `to_lowercase` follows Unicode.
- `Strings.DecimalString`: works on unbounded naturals, where the record's line number is a 32-bit unsigned integer.
- `setup_logger` and `setup_gcp_logger`: they install the process-wide logger and set the maximum level, which is global mutable state; `setup_gcp_logger` also calls `Logger::custom` with one argument where it takes two, so it has no meaning to model. The maximum-level filtering the `log` crate does before calling the logger is left out with them.
- `Logger::flush`: does nothing.
- `CloudRunListener::default` and `listen`: the listener only wraps the configuration, and binding and the accept loop are network I/O.
- Task supervision in `main`, the chat client, the `ping` command, token loading and the bot-renaming script: concurrency, an external framework and file or console I/O.
