/**
 * The record types of the Cloud Logging client library that the logger fills in: the
 * severity scale, the operation and source-location sub-records and the structured
 * entry itself, with only the fields the logger sets (the rest stay at their defaults).
 */
module CloudLogging {
  import opened Wrappers

  /** Cloud Logging's LogSeverity scale. */
  datatype Severity = Default | Debug | Info | Notice | Warning | Error | Critical | Alert | Emergency

  /** The numeric value Cloud Logging gives each severity: the higher, the more severe. */
  function SeverityValue(severity: Severity): nat
  {
    match severity
    case Default => 0
    case Debug => 100
    case Info => 200
    case Notice => 300
    case Warning => 400
    case Error => 500
    case Critical => 600
    case Alert => 700
    case Emergency => 800
  }

  /** The operation an entry belongs to. */
  datatype Operation = Operation(id: Option<string>, producer: Option<string>)

  /** Where in the program the entry was produced. */
  datatype SourceLocation = SourceLocation(file: Option<string>, line: Option<string>, functionName: Option<string>)

  /** A structured log entry; its timestamp is not part of this model. */
  datatype StructLog = StructLog(
    severity: Option<Severity>,
    reportType: Option<string>,
    message: Option<string>,
    operation: Option<Operation>,
    sourceLocation: Option<SourceLocation>)
}
