/** Logger severities, their upper-case names, and the severity filter
    installed on every sink. The numeric values of the severity enumeration
    are not part of this model: wherever the code compares them, the
    comparison goes through a `rank` function supplied by the caller. */
module LogSeverity {
  import opened Wrappers

  datatype Severity = Fatal | Critical | Error | Info | Warning | Debug | Trace

  const FatalName := "FATAL"
  const CriticalName := "CRITICAL"
  const ErrorName := "ERROR"
  const InfoName := "INFO"
  const WarningName := "WARNING"
  const DebugName := "DEBUG"
  const TraceName := "TRACE"

  /** The seven names `SeverityFromText` accepts. */
  predicate IsSeverityName(name: string) {
    name in {FatalName, CriticalName, ErrorName, InfoName, WarningName, DebugName, TraceName}
  }

  /** `SeverityToText`: the upper-case name of a severity. */
  function ToText(s: Severity): (name: string)
    ensures IsSeverityName(name)
  {
    match s
    case Fatal => FatalName
    case Critical => CriticalName
    case Error => ErrorName
    case Info => InfoName
    case Warning => WarningName
    case Debug => DebugName
    case Trace => TraceName
  }

  /** The text of the error `SeverityFromText` raises for an unknown name. */
  function UnknownNameText(name: string): string {
    "Unknown name severity '" + name + "'"
  }

  /** `SeverityFromText`: exact, case-sensitive match against the seven
      names; anything else raises an error. */
  function FromText(name: string): (r: Result<Severity, string>)
    ensures r.Success? <==> IsSeverityName(name)
    ensures r.Failure? ==> r.error == UnknownNameText(name)
  {
    if name == CriticalName then Success(Critical)
    else if name == FatalName then Success(Fatal)
    else if name == ErrorName then Success(Error)
    else if name == InfoName then Success(Info)
    else if name == WarningName then Success(Warning)
    else if name == DebugName then Success(Debug)
    else if name == TraceName then Success(Trace)
    else Failure(UnknownNameText(name))
  }

  /** Reading back the name of a severity gives the severity. */
  lemma FromTextToText(s: Severity)
    ensures FromText(ToText(s)) == Success(s)
  {
  }

  /** A name that reads as a severity is that severity's name. */
  lemma ToTextFromText(name: string)
    requires FromText(name).Success?
    ensures ToText(FromText(name).value) == name
  {
  }

  /** Distinct severities have distinct names. */
  lemma ToTextInjective(a: Severity, b: Severity)
    ensures ToText(a) == ToText(b) ==> a == b
  {
    FromTextToText(a);
    FromTextToText(b);
  }

  /** The lower-case spellings used in configuration files are not names:
      they only work after the configuration reader upper-cases them. */
  lemma LowerCaseNamesRejected()
    ensures FromText("info").Failure? && FromText("fatal").Failure?
    ensures FromText("trace").Failure? && FromText("debug").Failure?
  {
  }

  /** `Filter`: a record passes when it carries a severity whose rank is at
      most the rank of the configured level; a record without a severity
      never passes. */
  function Filter(severity: Option<Severity>, level: Severity, rank: Severity -> int): (pass: bool)
    ensures severity.None? ==> !pass
  {
    match severity
    case None => false
    case Some(s) => rank(s) <= rank(level)
  }

  /** A record at exactly the configured level always passes. */
  lemma FilterPassesLevel(level: Severity, rank: Severity -> int)
    ensures Filter(Some(level), level, rank)
  {
  }

  /** Raising the configured level never rejects a record that passed. */
  lemma FilterMonotone(s: Option<Severity>, level: Severity, wider: Severity, rank: Severity -> int)
    requires rank(level) <= rank(wider)
    requires Filter(s, level, rank)
    ensures Filter(s, wider, rank)
  {
  }

  /** Whatever the ranks, whether a record passes is decided by comparing
      two ranks; the filter therefore behaves as a threshold: when `a` passes
      and `b` ranks no higher, `b` passes too. */
  lemma FilterThreshold(a: Severity, b: Severity, level: Severity, rank: Severity -> int)
    requires Filter(Some(a), level, rank)
    requires rank(b) <= rank(a)
    ensures Filter(Some(b), level, rank)
  {
  }
}
