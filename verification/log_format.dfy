/** How a sink renders a log record: the bracketed attribute fields in a
    fixed order, then ": " and the message. */
module LogFormat {
  import opened Wrappers
  import opened Text
  import opened LogSeverity
  import LC = LogConfig

  /** A log record's attribute values, each already rendered as the text
      `operator<<` gives for it; `None` where the record carries no value. */
  datatype LogRecord = LogRecord(
    severity: Option<Severity>,
    timestamp: Option<string>,
    threadId: Option<string>,
    processId: Option<string>,
    functionName: Option<string>,
    file: Option<string>,
    line: Option<int>,
    message: string)

  /** `Print`: a field is its value between square brackets. */
  function Print(value: string): (r: string)
    ensures |r| == |value| + 2
    ensures r[0] == '[' && r[|r| - 1] == ']'
    ensures r[1..|r| - 1] == value
  {
    "[" + value + "]"
  }

  /** `FormatAttribute`: the field is printed only when the configuration
      lists the attribute as enabled AND the record carries a value. */
  function FormatAttribute(attrs: LC.Attributes, name: string, value: Option<string>): (r: string)
    ensures r != "" <==> LC.FindAttribute(attrs, name) == Some(true) && value.Some?
    ensures r != "" ==> r == Print(value.value)
  {
    match LC.FindAttribute(attrs, name)
    case Some(true) =>
      (match value
       case Some(v) => Print(v)
       case None => "")
    case _ => ""
  }

  /** The last component of a path: the text after its final '/'. */
  function LastComponent(path: string): (r: string)
    ensures |r| <= |path| && path[|path| - |r|..] == r
    ensures forall i :: 0 <= i < |r| ==> r[i] != '/'
    ensures |r| < |path| ==> path[|path| - |r| - 1] == '/'
  {
    match LastIndexOf(path, '/')
    case None => path
    case Some(k) => path[k + 1..]
  }

  /** `FormatFileName`: prints the last component of the record's file
      whenever the configuration has an entry for "File", whatever the
      entry's switch says. */
  function FormatFileName(attrs: LC.Attributes, file: Option<string>): (r: string)
    ensures r != "" <==> LC.FileName in LC.Keys(attrs) && file.Some?
    ensures r != "" ==> r == Print(LastComponent(file.value))
  {
    match LC.FindAttribute(attrs, LC.FileName)
    case Some(_) =>
      (match file
       case Some(f) => Print(LastComponent(f))
       case None => "")
    case None => ""
  }

  /** `Format`. The sink's filter has already rejected records without a
      severity, and the code reads the severity unconditionally. */
  function Format(conf: LC.Configuration, rec: LogRecord): (r: string)
    requires rec.severity.Some?
    ensures |r| >= |rec.message| + 2 && r[|r| - |rec.message| - 2..] == ": " + rec.message
  {
    var h := Header(conf.attributes, rec);
    SuffixAfter(h, ": " + rec.message);
    h + (": " + rec.message)
  }

  lemma SuffixAfter(h: string, t: string)
    ensures |h + t| >= |t| && (h + t)[|h + t| - |t|..] == t
  {
  }

  /** The fields `Format` prints before the message, in the code's order. */
  function Header(attrs: LC.Attributes, rec: LogRecord): string
    requires rec.severity.Some?
  {
    FormatAttribute(attrs, LC.TimeStampName, rec.timestamp)
    + (FormatAttribute(attrs, LC.ThreadIdName, rec.threadId)
    + (FormatAttribute(attrs, LC.ProcessIdName, rec.processId)
    + (Print(ToText(rec.severity.value))
    + (FormatAttribute(attrs, LC.FunctionName, rec.functionName)
    + (FormatFileName(attrs, rec.file)
    + FormatAttribute(attrs, LC.LineName, OptionIntToString(rec.line)))))))
  }

  function OptionIntToString(v: Option<int>): Option<string> {
    match v
    case Some(i) => Some(IntToString(i))
    case None => None
  }

  // ---------------------------------------------------------------------------
  // An independent description of the output: the list of printed values

  /** The value shown for an attribute, if it is shown. */
  function Shown(attrs: LC.Attributes, name: string, value: Option<string>): seq<string> {
    if value.Some? && LC.FindAttribute(attrs, name) == Some(true) then [value.value] else []
  }

  /** The values a record shows, in the order they are printed: timestamp,
      thread id, process id, severity name, function, file name, line. */
  function Fields(conf: LC.Configuration, rec: LogRecord): (fs: seq<string>)
    requires rec.severity.Some?
    ensures 1 <= |fs| <= 7
    ensures ToText(rec.severity.value) in fs
  {
    var attrs := conf.attributes;
    Shown(attrs, LC.TimeStampName, rec.timestamp)
    + (Shown(attrs, LC.ThreadIdName, rec.threadId)
    + (Shown(attrs, LC.ProcessIdName, rec.processId)
    + ([ToText(rec.severity.value)]
    + (Shown(attrs, LC.FunctionName, rec.functionName)
    + (ShownFile(attrs, rec.file)
    + Shown(attrs, LC.LineName, OptionIntToString(rec.line)))))))
  }

  /** The file name shown, if it is shown. */
  function ShownFile(attrs: LC.Attributes, file: Option<string>): seq<string> {
    if file.Some? && LC.FileName in LC.Keys(attrs) then [LastComponent(file.value)] else []
  }

  /** Each value in brackets, one after another. */
  function Bracketed(fs: seq<string>): string {
    if |fs| == 0 then "" else Print(fs[0]) + Bracketed(fs[1..])
  }

  lemma {:induction false} BracketedAppend(a: seq<string>, b: seq<string>)
    ensures Bracketed(a + b) == Bracketed(a) + Bracketed(b)
    decreases |a|
  {
    if |a| > 0 {
      assert (a + b)[0] == a[0];
      assert (a + b)[1..] == a[1..] + b;
      BracketedAppend(a[1..], b);
    } else {
      assert a + b == b;
    }
  }

  /** A list of at most one value brackets to `FormatAttribute`'s output. */
  lemma BracketedShown(attrs: LC.Attributes, name: string, value: Option<string>)
    ensures Bracketed(Shown(attrs, name, value)) == FormatAttribute(attrs, name, value)
  {
    if Shown(attrs, name, value) != [] {
      assert Bracketed(Shown(attrs, name, value)) == Print(value.value) + Bracketed([]);
    }
  }

  /** `Format` prints exactly the shown values, each bracketed, in the fixed
      order, and then ": " and the message. */
  lemma FormatIsBracketedFields(conf: LC.Configuration, rec: LogRecord)
    requires rec.severity.Some?
    ensures Format(conf, rec) == Bracketed(Fields(conf, rec)) + ": " + rec.message
  {
    var attrs := conf.attributes;
    var a := Shown(attrs, LC.TimeStampName, rec.timestamp);
    var b := Shown(attrs, LC.ThreadIdName, rec.threadId);
    var c := Shown(attrs, LC.ProcessIdName, rec.processId);
    var d := [ToText(rec.severity.value)];
    var e := Shown(attrs, LC.FunctionName, rec.functionName);
    var f := ShownFile(attrs, rec.file);
    var g := Shown(attrs, LC.LineName, OptionIntToString(rec.line));
    BracketedAppend(f, g);
    BracketedAppend(e, f + g);
    BracketedAppend(d, e + (f + g));
    BracketedAppend(c, d + (e + (f + g)));
    BracketedAppend(b, c + (d + (e + (f + g))));
    BracketedAppend(a, b + (c + (d + (e + (f + g)))));
    BracketedShown(attrs, LC.TimeStampName, rec.timestamp);
    BracketedShown(attrs, LC.ThreadIdName, rec.threadId);
    BracketedShown(attrs, LC.ProcessIdName, rec.processId);
    BracketedShown(attrs, LC.FunctionName, rec.functionName);
    BracketedShown(attrs, LC.LineName, OptionIntToString(rec.line));
    assert Bracketed(d) == Print(ToText(rec.severity.value)) + Bracketed([]);
    if f != [] {
      assert Bracketed(f) == Print(LastComponent(rec.file.value)) + Bracketed([]);
    }
    assert Bracketed(f) == FormatFileName(attrs, rec.file);
    assert Header(attrs, rec) == Bracketed(Fields(conf, rec));
  }

  // ---------------------------------------------------------------------------
  // Attribute switches

  /** The attribute list with `name`'s switch set to `flag`. */
  function SetAttribute(attrs: LC.Attributes, name: string, flag: bool): (r: LC.Attributes)
    ensures LC.Keys(r) == LC.Keys(attrs)
    ensures forall i :: 0 <= i < |attrs| ==> r[i] == (if attrs[i].0 == name then (name, flag) else attrs[i])
  {
    seq(|attrs|, i requires 0 <= i < |attrs| => if attrs[i].0 == name then (name, flag) else attrs[i])
  }

  /** The file name is printed whether its switch is on or off. */
  lemma FileNameIgnoresSwitch(attrs: LC.Attributes, flag: bool, file: Option<string>)
    ensures FormatFileName(SetAttribute(attrs, LC.FileName, flag), file) == FormatFileName(attrs, file)
  {
  }

  /** Any other attribute disappears from the output once its switch is off. */
  lemma SwitchedOffAttributeNotPrinted(attrs: LC.Attributes, name: string, value: Option<string>)
    requires LC.DistinctKeys(attrs)
    ensures FormatAttribute(SetAttribute(attrs, name, false), name, value) == ""
  {
    var r := SetAttribute(attrs, name, false);
    assert LC.DistinctKeys(r);
    match LC.FindAttribute(r, name)
    case None =>
    case Some(b) =>
      var i :| 0 <= i < |r| && r[i] == (name, b);
      assert r[i].1 == false;
  }

  /** With every switch off no attribute field is printed. */
  lemma SwitchesOffHideAttribute(attrs: LC.Attributes, name: string, value: Option<string>)
    requires forall i :: 0 <= i < |attrs| ==> !attrs[i].1
    ensures FormatAttribute(attrs, name, value) == ""
  {
  }

  lemma HeaderAllOff(attrs: LC.Attributes, rec: LogRecord)
    requires rec.severity.Some?
    requires forall i :: 0 <= i < |attrs| ==> !attrs[i].1
    ensures Header(attrs, rec) == Print(ToText(rec.severity.value)) + FormatFileName(attrs, rec.file)
  {
    SwitchesOffHideAttribute(attrs, LC.TimeStampName, rec.timestamp);
    SwitchesOffHideAttribute(attrs, LC.ThreadIdName, rec.threadId);
    SwitchesOffHideAttribute(attrs, LC.ProcessIdName, rec.processId);
    SwitchesOffHideAttribute(attrs, LC.FunctionName, rec.functionName);
    SwitchesOffHideAttribute(attrs, LC.LineName, OptionIntToString(rec.line));
  }

  /** With every switch off, only the severity and (when the record has one)
      the file name are printed. */
  lemma AllSwitchesOff(conf: LC.Configuration, rec: LogRecord)
    requires rec.severity.Some?
    requires forall i :: 0 <= i < |conf.attributes| ==> !conf.attributes[i].1
    ensures Format(conf, rec)
         == Print(ToText(rec.severity.value)) + FormatFileName(conf.attributes, rec.file) + ": " + rec.message
  {
    HeaderAllOff(conf.attributes, rec);
  }

  // ---------------------------------------------------------------------------
  // A sink: filter, then format

  /** What a sink writes for a record: nothing when the filter rejects it,
      the formatted line otherwise. */
  function Emit(conf: LC.Configuration, level: Severity, rank: Severity -> int, rec: LogRecord): (r: Option<string>)
    ensures r.Some? <==> rec.severity.Some? && rank(rec.severity.value) <= rank(level)
    ensures r.Some? ==> r.value == Bracketed(Fields(conf, rec)) + ": " + rec.message
  {
    if Filter(rec.severity, level, rank) then
      FormatIsBracketedFields(conf, rec);
      Some(Format(conf, rec))
    else None
  }
}
