/** The logger configuration record with its defaults, and the reader that
    fills it from an XML configuration document.

    The XML document is taken as already parsed: a map from the dotted path of
    each element ("document.logger.level") to its text. An element that only
    has children has no entry of its own but is present all the same. */
module LogConfig {
  import opened Wrappers
  import opened Text

  // ---------------------------------------------------------------------------
  // Attribute names

  const ProcessIdName := "ProcessID"
  const ThreadIdName := "ThreadID"
  const TimeStampName := "TimeStamp"
  const FileName := "File"
  const FunctionName := "Function"
  const LineName := "Line"

  /** The six attribute names the logger knows. */
  predicate IsKnownAttribute(name: string) {
    name in {ProcessIdName, ThreadIdName, TimeStampName, FileName, FunctionName, LineName}
  }

  // ---------------------------------------------------------------------------
  // The configuration record

  datatype RotationType = TimeBased | SizeBased

  /** Rotation of the log file: every `period` seconds, or when the file
      reaches `size` megabytes. */
  datatype Rotation = Rotation(kind: RotationType, period: Uint32, size: Uint64)

  datatype TimeType = Utc | Local

  /** The `std::map<std::string_view, bool>` of attribute switches, listed in
      the map's key order. */
  type Attributes = seq<(string, bool)>

  datatype Configuration = Configuration(
    stdoutput: bool,
    workdir: string,
    filename: string,
    rotation: Rotation,
    timeType: TimeType,
    level: string,
    attributes: Attributes)

  /** The attribute names, in order. */
  function Keys(attrs: Attributes): (ks: seq<string>)
    ensures |ks| == |attrs|
    ensures forall i :: 0 <= i < |attrs| ==> ks[i] == attrs[i].0
  {
    seq(|attrs|, i requires 0 <= i < |attrs| => attrs[i].0)
  }

  /** A map holds each key once. */
  predicate DistinctKeys(attrs: Attributes) {
    forall i, j :: 0 <= i < j < |attrs| ==> attrs[i].0 != attrs[j].0
  }

  /** `attributes.find(name)`: the switch stored under `name`, if any. */
  function FindAttribute(attrs: Attributes, name: string): (r: Option<bool>)
    ensures r.None? <==> name !in Keys(attrs)
    ensures r.Some? ==> (name, r.value) in attrs
    ensures DistinctKeys(attrs) ==> forall i :: 0 <= i < |attrs| && attrs[i].0 == name ==> r == Some(attrs[i].1)
    decreases |attrs|
  {
    if |attrs| == 0 then None
    else if attrs[0].0 == name then Some(attrs[0].1)
    else
      var r := FindAttribute(attrs[1..], name);
      assert Keys(attrs) == [attrs[0].0] + Keys(attrs[1..]);
      r
  }

  const DefaultAttributes: Attributes := [
    (FileName, true), (FunctionName, true), (LineName, true),
    (ProcessIdName, true), (ThreadIdName, true), (TimeStampName, true)]

  const DefaultRotation := Rotation(TimeBased, 3600, 10)

  const DefaultLogFileName := "geocoder_%Y-%m-%d_%H-%M-%S.%N.log"

  /** A default-constructed `Configuration`; `cwd` is the working directory
      the default `workdir` takes. */
  function Default(cwd: string): (c: Configuration)
    ensures c.stdoutput
    ensures c.rotation.kind == TimeBased && c.rotation.period == 3600 && c.rotation.size == 10
    ensures c.timeType == Utc && c.level == ""
    ensures c.workdir == cwd
    ensures c.filename == "geocoder_%Y-%m-%d_%H-%M-%S.%N.log"
    ensures DistinctKeys(c.attributes)
    ensures forall name :: IsKnownAttribute(name) <==> name in Keys(c.attributes)
    ensures forall i :: 0 <= i < |c.attributes| ==> c.attributes[i].1
  {
    assert Keys(DefaultAttributes) == [FileName, FunctionName, LineName, ProcessIdName, ThreadIdName, TimeStampName];
    Configuration(true, cwd, DefaultLogFileName, DefaultRotation, Utc, "", DefaultAttributes)
  }

  // ---------------------------------------------------------------------------
  // The document and its value conversions

  /** A parsed XML document: the text of each element by its dotted path. */
  type Document = map<string, string>

  /** An element exists at `path`: it has text, or some element below it does. */
  predicate HasNode(doc: Document, path: string) {
    path in doc || exists k :: k in doc && path + "." <= k
  }

  /** The text of the element at `path` (empty for an element that only has
      children), or `None` when there is no such element. */
  function NodeValue(doc: Document, path: string): (r: Option<string>)
    ensures r.Some? <==> HasNode(doc, path)
    ensures path in doc ==> r == Some(doc[path])
  {
    if path in doc then Some(doc[path])
    else if HasNode(doc, path) then Some("")
    else None
  }

  /** Reading a `bool` the way the property tree's stream translator does:
      first as a number, which must be 0 or 1 (leading zeros allowed), then
      in word form as "true" or "false". */
  function ParseBool(s: string): (r: Option<bool>)
    ensures r == Some(true) <==> s == "true" || ParseNat(s) == Some(1)
    ensures r == Some(false) <==> s == "false" || ParseNat(s) == Some(0)
  {
    if s == "true" then Some(true)
    else if s == "false" then Some(false)
    else
      match ParseNat(s)
      case Some(n) => if n == 1 then Some(true) else if n == 0 then Some(false) else None
      case None => None
  }

  /** The numeric form takes any number of leading zeros; other numbers and
      other words are no `bool`. */
  lemma ParseBoolSpellings()
    ensures ParseBool("01") == Some(true) && ParseBool("001") == Some(true)
    ensures ParseBool("00") == Some(false)
    ensures ParseBool("2").None? && ParseBool("10").None? && ParseBool("True").None? && ParseBool("").None?
  {
    assert DigitsValue("01") == 1;
    assert DigitsValue("001") == 1;
    assert DigitsValue("00") == 0;
    assert DigitsValue("10") == 10;
  }

  /** Reading an unsigned integer that must stay below `bound`. */
  function ParseUnsigned(s: string, bound: nat): (r: Option<nat>)
    ensures r.Some? ==> r.value < bound && ParseNat(s) == Some(r.value)
    ensures r.None? ==> ParseNat(s).None? || ParseNat(s).value >= bound
  {
    match ParseNat(s)
    case Some(n) => if n < bound then Some(n) else None
    case None => None
  }

  // ---------------------------------------------------------------------------
  // Reading a boost::filesystem::path

  /** The characters `std::isspace` accepts in the classic locale. */
  predicate IsSpace(c: char) {
    c == ' ' || 9 <= c as int <= 13
  }

  predicate AllSpace(s: string) {
    forall i :: 0 <= i < |s| ==> IsSpace(s[i])
  }

  /** `s` after its leading white space. */
  function TrimLeft(s: string): (r: string)
    ensures |r| <= |s| && r == s[|s| - |r|..]
    ensures forall i :: 0 <= i < |s| - |r| ==> IsSpace(s[i])
    ensures r != [] ==> !IsSpace(r[0])
    decreases |s|
  {
    if s != [] && IsSpace(s[0]) then TrimLeft(s[1..]) else s
  }

  /** The longest prefix of `s` without white space. */
  function Word(s: string): (w: string)
    ensures |w| <= |s| && w == s[..|w|]
    ensures forall i :: 0 <= i < |w| ==> !IsSpace(w[i])
    ensures |w| < |s| ==> IsSpace(s[|w|])
    decreases |s|
  {
    if s == [] || IsSpace(s[0]) then [] else [s[0]] + Word(s[1..])
  }

  /** The delimiter and escape character `boost::filesystem::path` uses
      with `boost::io::quoted`. */
  const Quote: char := '"'
  const Escape: char := '&'

  /** A quoted string after its opening delimiter: the characters up to the
      closing delimiter, each escape character taking the next character
      literally. Gives the unquoted text and what follows the closing
      delimiter; `None` when the text ends first. */
  function ReadQuoted(s: string): (r: Option<(string, string)>)
    ensures r.Some? ==> |r.value.1| < |s|
    decreases |s|
  {
    if s == [] then None
    else if s[0] == Escape then
      if |s| == 1 then None
      else
        match ReadQuoted(s[2..])
        case None => None
        case Some(pr) => Some(([s[1]] + pr.0, pr.1))
    else if s[0] == Quote then Some(([], s[1..]))
    else
      match ReadQuoted(s[1..])
      case None => None
      case Some(pr) => Some(([s[0]] + pr.0, pr.1))
  }

  /** How `operator<<` writes a path: every delimiter and escape character
      is preceded by an escape character. */
  function Escaped(p: string): string
    decreases |p|
  {
    if p == [] then []
    else (if p[0] == Quote || p[0] == Escape then [Escape, p[0]] else [p[0]]) + Escaped(p[1..])
  }

  /** `operator>>` of `boost::filesystem::path` behind the stream
      translator of `get<fs::path>`: white space is skipped; a leading
      delimiter starts a quoted string, anything else is one word up to the
      next white space. The read fails when nothing is there to read, when a
      quoted string is not closed, or when anything but white space is left
      over. */
  function PathFromText(s: string): (r: Option<string>)
    ensures AllSpace(s) ==> r.None?
    ensures r.Some? && TrimLeft(s) != [] && TrimLeft(s)[0] != Quote ==>
      r.value != [] && forall i :: 0 <= i < |r.value| ==> !IsSpace(r.value[i])
  {
    TrimLeftOfSpace(s);
    var t := TrimLeft(s);
    if t == [] then None
    else if t[0] == Quote then
      match ReadQuoted(t[1..])
      case None => None
      case Some(pr) => if AllSpace(pr.1) then Some(pr.0) else None
    else
      var w := Word(t);
      assert w != [] by {
        assert !IsSpace(t[0]);
      }
      if AllSpace(t[|w|..]) then Some(w) else None
  }

  /** A path without white space that does not start with the delimiter is
      read as it is written. */
  lemma PlainPathReadVerbatim(s: string)
    requires s != [] && s[0] != Quote && forall i :: 0 <= i < |s| ==> !IsSpace(s[i])
    ensures PathFromText(s) == Some(s)
  {
    PlainTextIsWord(s);
    assert s[|s|..] == [];
  }

  /** White space trims to nothing. */
  lemma TrimLeftOfSpace(s: string)
    ensures AllSpace(s) ==> TrimLeft(s) == []
  {
    var t := TrimLeft(s);
    if t != [] {
      assert t[0] == s[|s| - |t|];
    }
  }

  /** Text that starts with no white space is its own trimming, and text
      without white space is one word. */
  lemma PlainTextIsWord(s: string)
    ensures s != [] && !IsSpace(s[0]) ==> TrimLeft(s) == s
    ensures (forall i :: 0 <= i < |s| ==> !IsSpace(s[i])) ==> Word(s) == s
  {
    var w := Word(s);
    if forall i :: 0 <= i < |s| ==> !IsSpace(s[i]) {
      assert |w| == |s|;
      assert w == s[..|s|];
    }
  }

  /** The quoted reader undoes the escaping and stops at the closing
      delimiter. */
  lemma {:induction false} ReadQuotedEscaped(p: string, rest: string)
    ensures ReadQuoted(Escaped(p) + ([Quote] + rest)) == Some((p, rest))
    decreases |p|
  {
    var s := Escaped(p) + ([Quote] + rest);
    if p == [] {
      assert s == [Quote] + rest;
      assert s[0] == Quote && s[1..] == rest;
    } else {
      ReadQuotedEscaped(p[1..], rest);
      var tail := Escaped(p[1..]) + ([Quote] + rest);
      if p[0] == Quote || p[0] == Escape {
        assert Escaped(p) == [Escape, p[0]] + Escaped(p[1..]);
        assert s == [Escape, p[0]] + tail;
        assert s[0] == Escape && s[1] == p[0] && s[2..] == tail;
      } else {
        assert Escaped(p) == [p[0]] + Escaped(p[1..]);
        assert s == [p[0]] + tail;
        assert s[0] == p[0] && s[1..] == tail;
      }
      assert [p[0]] + p[1..] == p;
    }
  }

  /** A path written quoted, as `operator<<` writes it, is read back
      unchanged, whatever characters it holds. */
  lemma PathQuotedRoundTrip(p: string)
    ensures PathFromText([Quote] + Escaped(p) + [Quote]) == Some(p)
  {
    var s := [Quote] + Escaped(p) + [Quote];
    PlainTextIsWord(s);
    assert s[1..] == Escaped(p) + ([Quote] + []);
    ReadQuotedEscaped(p, []);
  }

  /** A word followed by white space is read up to that white space. */
  lemma {:induction false} WordStopsAtSpace(a: string, b: string)
    requires forall i :: 0 <= i < |a| ==> !IsSpace(a[i])
    requires b != [] && IsSpace(b[0])
    ensures Word(a + b) == a
    decreases |a|
  {
    if a == [] {
      assert a + b == b;
    } else {
      WordStopsAtSpace(a[1..], b);
      assert (a + b)[1..] == a[1..] + b;
      assert [a[0]] + a[1..] == a;
    }
  }

  /** An unquoted path with white space inside is not read: the word stops
      at the white space and the rest is left over. */
  lemma UnquotedSpaceRejected(a: string, b: string)
    requires a != [] && a[0] != Quote && forall i :: 0 <= i < |a| ==> !IsSpace(a[i])
    requires b != [] && !IsSpace(b[0])
    ensures PathFromText(a + " " + b).None?
  {
    var s := a + (" " + b);
    assert a + " " + b == s;
    PlainTextIsWord(s);
    WordStopsAtSpace(a, " " + b);
    var left := s[|a|..];
    assert left == " " + b;
    assert !IsSpace(left[1]);
  }

  /** An empty `<workdir/>` is no path. */
  lemma EmptyPathRejected()
    ensures PathFromText("").None?
  {
  }

  /** An unquoted `<workdir>` with a blank inside is no path. */
  lemma BlankInPathRejected()
    ensures PathFromText("/var/my logs").None?
  {
    UnquotedSpaceRejected("/var/my", "logs");
    assert "/var/my" + " " + "logs" == "/var/my logs";
  }

  /** A quoted `<workdir>` loses its quotes and may hold blanks. */
  lemma QuotedPathUnquoted()
    ensures PathFromText([Quote] + "/var/my logs" + [Quote]) == Some("/var/my logs")
  {
    var p := "/var/my logs";
    assert forall i :: 0 <= i < |p| ==> p[i] != Quote && p[i] != Escape;
    EscapedPlain(p);
    PathQuotedRoundTrip(p);
  }

  /** White space around a `<workdir>` is dropped. */
  lemma SurroundingSpaceDropped()
    ensures PathFromText("  /var/log \n") == Some("/var/log")
  {
    var s := "  /var/log \n";
    var t := "/var/log \n";
    assert s[1..][1..] == t;
    assert TrimLeft(s) == t;
    WordStopsAtSpace("/var/log", " \n");
    assert "/var/log" + " \n" == t;
    assert t[|"/var/log"|..] == " \n";
  }

  /** Text without delimiter or escape characters is written as it is. */
  lemma {:induction false} EscapedPlain(p: string)
    requires forall i :: 0 <= i < |p| ==> p[i] != Quote && p[i] != Escape
    ensures Escaped(p) == p
    decreases |p|
  {
    if p != [] {
      EscapedPlain(p[1..]);
      assert [p[0]] + p[1..] == p;
    }
  }

  // ---------------------------------------------------------------------------
  // Errors of the reader

  datatype ReadError =
    | FileMissing
    | NoLoggerSection
      /** `ptree_bad_path`: a required element is absent. */
    | NoSuchNode(path: string)
      /** `ptree_bad_data`: an element's text does not convert to its type. */
    | BadData(path: string)
    | InvalidTime(value: string)
    | InvalidRotationType(value: string)

  /** The text of the errors the reader raises itself; `fileName` is the
      configuration file's path. */
  function CommonErrorText(e: ReadError, fileName: string): string
    requires !e.NoSuchNode? && !e.BadData?
  {
    match e
    case FileMissing => "is not exists file '" + fileName + "'"
    case NoLoggerSection => "is not found section 'logger' into configuration file '" + fileName + "'"
    case InvalidTime(v) => "invalid time type '" + v + "', configuration file '" + fileName + "'"
    case InvalidRotationType(v) => "invalid rotation type '" + v + "', configuration file '" + fileName + "'"
  }

  /** What reaches the reader's `catch` clauses. `PropertyTreeError` is one
      of the property tree's own exceptions and `CommonRaised` a
      `common::error::Error` (by its text); both derive from
      `std::runtime_error`. `OtherException` is any other `std::exception`. */
  datatype Exception =
    | PropertyTreeError(error: ReadError)
    | CommonRaised(text: string)
    | OtherException(what: string)

  /** The exception each reader error is. */
  function AsException(e: ReadError, fileName: string): Exception {
    match e
    case NoSuchNode(_) => PropertyTreeError(e)
    case BadData(_) => PropertyTreeError(e)
    case _ => CommonRaised(CommonErrorText(e, fileName))
  }

  /** The two `catch` clauses: runtime errors pass unchanged, any other
      `std::exception` is wrapped into a common error naming the file. */
  function Rethrow(e: Exception, fileName: string): (r: Exception)
    ensures !r.OtherException?
    ensures !e.OtherException? ==> r == e
    ensures e.OtherException? ==> r == CommonRaised("Is not read file '" + fileName + "' (" + e.what + ")")
  {
    match e
    case OtherException(w) => CommonRaised("Is not read file '" + fileName + "' (" + w + ")")
    case _ => e
  }

  /** Wrapping is done once: a rethrown exception passes the clauses again
      unchanged, and every error the reader raises is already a runtime
      error. */
  lemma RethrowIdempotent(e: Exception, fileName: string)
    ensures Rethrow(Rethrow(e, fileName), fileName) == Rethrow(e, fileName)
    ensures forall re: ReadError :: Rethrow(AsException(re, fileName), fileName) == AsException(re, fileName)
  {
  }

  // ---------------------------------------------------------------------------
  // ReadFile

  const LoggerPath := "document.logger"

  /** The path of a child of the logger section. */
  function LoggerKey(name: string): string {
    LoggerPath + "." + name
  }

  /** `get<std::string>(name)` under the logger section. */
  function RequiredText(doc: Document, name: string): (r: Result<string, ReadError>)
    ensures r.Success? <==> HasNode(doc, LoggerKey(name))
    ensures r.Success? ==> Some(r.value) == NodeValue(doc, LoggerKey(name))
    ensures r.Failure? ==> r.error == NoSuchNode(name)
  {
    match NodeValue(doc, LoggerKey(name))
    case Some(v) => Success(v)
    case None => Failure(NoSuchNode(name))
  }

  /** `get(name, dflt)` for a `bool` under the logger section: the element's
      value when it is present and reads as a `bool`, `dflt` otherwise. */
  function OptionalBool(doc: Document, name: string, dflt: bool): (b: bool)
    ensures HasNode(doc, LoggerKey(name)) && ParseBool(NodeValue(doc, LoggerKey(name)).value).Some? ==>
      Some(b) == ParseBool(NodeValue(doc, LoggerKey(name)).value)
    ensures !HasNode(doc, LoggerKey(name)) || ParseBool(NodeValue(doc, LoggerKey(name)).value).None? ==> b == dflt
  {
    match NodeValue(doc, LoggerKey(name))
    case Some(v) => ParseBool(v).GetOr(dflt)
    case None => dflt
  }

  /** `get<fs::path>(name)` under the logger section: a missing element is
      `ptree_bad_path`, text that does not read as a path `ptree_bad_data`. */
  function RequiredPath(doc: Document, name: string): (r: Result<string, ReadError>)
    ensures r.Success? <==> HasNode(doc, LoggerKey(name)) && PathFromText(NodeValue(doc, LoggerKey(name)).value).Some?
    ensures r.Success? ==> Some(r.value) == PathFromText(NodeValue(doc, LoggerKey(name)).value)
    ensures r.Failure? ==> r.error == (if HasNode(doc, LoggerKey(name)) then BadData(name) else NoSuchNode(name))
  {
    var text :- RequiredText(doc, name);
    match PathFromText(text)
    case Some(path) => Success(path)
    case None => Failure(BadData(name))
  }

  /** `get<uintN>(name)` under the rotation section. */
  function RequiredUnsigned(doc: Document, name: string, bound: nat): (r: Result<nat, ReadError>)
    ensures r.Success? ==> r.value < bound
    ensures r.Success? ==> ParseNat(NodeValue(doc, LoggerKey("rotation." + name)).GetOr("")) == Some(r.value)
    ensures r.Success? <==> (NodeValue(doc, LoggerKey("rotation." + name)).Some?
                             && ParseUnsigned(NodeValue(doc, LoggerKey("rotation." + name)).value, bound).Some?)
  {
    match NodeValue(doc, LoggerKey("rotation." + name))
    case None => Failure(NoSuchNode(name))
    case Some(v) =>
      match ParseUnsigned(v, bound)
      case Some(n) => Success(n)
      case None => Failure(BadData(name))
  }

  /** The element text of `time`, mapped to the clock kind. */
  function ParseTimeType(v: string): (r: Result<TimeType, ReadError>)
    ensures r == Success(Utc) <==> v == "utc"
    ensures r == Success(Local) <==> v == "local"
    ensures r.Failure? ==> r.error == InvalidTime(v)
  {
    if v == "utc" then Success(Utc)
    else if v == "local" then Success(Local)
    else Failure(InvalidTime(v))
  }

  /** The rotation section, when present, holds a 32-bit period, a 64-bit
      size and a type of "time" or "size". */
  predicate RotationWellFormed(doc: Document) {
    && RequiredUnsigned(doc, "period", 0x1_0000_0000).Success?
    && RequiredUnsigned(doc, "size", 0x1_0000_0000_0000_0000).Success?
    && NodeValue(doc, LoggerKey("rotation.type")) in {Some("time"), Some("size")}
  }

  /** The optional rotation section: absent leaves `current` as it is;
      present, all three of period, size and type are read. */
  function ReadRotation(doc: Document, current: Rotation): (r: Result<Rotation, ReadError>)
    ensures !HasNode(doc, LoggerKey("rotation")) ==> r == Success(current)
    ensures HasNode(doc, LoggerKey("rotation")) ==> (r.Success? <==> RotationWellFormed(doc))
    ensures HasNode(doc, LoggerKey("rotation")) && r.Success? ==>
      && NodeValue(doc, LoggerKey("rotation.type")) == Some(if r.value.kind == TimeBased then "time" else "size")
      && ParseNat(NodeValue(doc, LoggerKey("rotation.period")).GetOr("")) == Some(r.value.period)
      && ParseNat(NodeValue(doc, LoggerKey("rotation.size")).GetOr("")) == Some(r.value.size)
  {
    if !HasNode(doc, LoggerKey("rotation")) then Success(current)
    else
      assert "rotation." + "period" == "rotation.period";
      assert "rotation." + "size" == "rotation.size";
      var period :- RequiredUnsigned(doc, "period", 0x1_0000_0000);
      var size :- RequiredUnsigned(doc, "size", 0x1_0000_0000_0000_0000);
      match NodeValue(doc, LoggerKey("rotation.type"))
      case None => Failure(NoSuchNode("type"))
      case Some(t) =>
        if t == "time" then Success(Rotation(TimeBased, period, size))
        else if t == "size" then Success(Rotation(SizeBased, period, size))
        else Failure(InvalidRotationType(t))
  }

  /** The element that may switch attribute `key`. */
  function AttributeKey(key: string): string {
    LoggerKey("attributes." + ToLower(key))
  }

  /** Each listed attribute takes the value of "attributes.<lower-cased
      name>" when that element is present and reads as a `bool`; the list of
      names itself never changes. */
  function OverrideAttributes(doc: Document, attrs: Attributes): (r: Attributes)
    ensures Keys(r) == Keys(attrs)
    ensures forall i :: 0 <= i < |attrs| ==>
      r[i].1 == (match NodeValue(doc, AttributeKey(attrs[i].0))
                 case Some(v) => ParseBool(v).GetOr(attrs[i].1)
                 case None => attrs[i].1)
  {
    seq(|attrs|, i requires 0 <= i < |attrs| =>
      (attrs[i].0,
       match NodeValue(doc, AttributeKey(attrs[i].0))
       case Some(v) => ParseBool(v).GetOr(attrs[i].1)
       case None => attrs[i].1))
  }

  /** Everything `ReadFile` insists on: the logger section with a workdir
      that reads as a path, filename, level and a time of "utc" or "local",
      and a well-formed rotation section if there is one. */
  predicate DocumentWellFormed(doc: Document) {
    && HasNode(doc, LoggerPath)
    && RequiredPath(doc, "workdir").Success?
    && HasNode(doc, LoggerKey("filename"))
    && HasNode(doc, LoggerKey("level"))
    && NodeValue(doc, LoggerKey("time")) in {Some("utc"), Some("local")}
    && (HasNode(doc, LoggerKey("rotation")) ==> RotationWellFormed(doc))
  }

  /** `ReadFile`: `fileExists` is the outcome of `fs::exists`, `doc` the
      parsed file, `cwd` the process's working directory. */
  function ReadFile(fileExists: bool, doc: Document, cwd: string): (r: Result<Configuration, ReadError>)
    ensures !fileExists ==> r == Failure(FileMissing)
    ensures fileExists && !HasNode(doc, LoggerPath) ==> r == Failure(NoLoggerSection)
    ensures r.Success? ==> Keys(r.value.attributes) == Keys(DefaultAttributes)
    ensures r.Success? ==> NoLowerAscii(r.value.level)
    ensures r.Success? ==> NodeValue(doc, LoggerKey("time")) == Some(if r.value.timeType == Utc then "utc" else "local")
    ensures r.Success? && !HasNode(doc, LoggerKey("rotation")) ==> r.value.rotation == DefaultRotation
    ensures r.Success? <==> fileExists && DocumentWellFormed(doc)
    ensures r.Success? ==> r.value.stdoutput == (HasNode(doc, LoggerKey("stdout"))
                                                 && ParseBool(NodeValue(doc, LoggerKey("stdout")).value) == Some(true))
    ensures r.Success? ==> Some(r.value.workdir) == PathFromText(NodeValue(doc, LoggerKey("workdir")).value)
    ensures r.Success? ==> Some(r.value.filename) == NodeValue(doc, LoggerKey("filename"))
    ensures r.Success? ==> r.value.level == ToUpper(NodeValue(doc, LoggerKey("level")).value)
    ensures r.Success? && HasNode(doc, LoggerKey("rotation")) ==>
      && NodeValue(doc, LoggerKey("rotation.type")) == Some(if r.value.rotation.kind == TimeBased then "time" else "size")
      && ParseNat(NodeValue(doc, LoggerKey("rotation.period")).GetOr("")) == Some(r.value.rotation.period)
      && ParseNat(NodeValue(doc, LoggerKey("rotation.size")).GetOr("")) == Some(r.value.rotation.size)
    ensures r.Success? ==> r.value.attributes == OverrideAttributes(doc, DefaultAttributes)
  {
    if !fileExists then Failure(FileMissing)
    else if !HasNode(doc, LoggerPath) then Failure(NoLoggerSection)
    else
      var defaults := Default(cwd);
      var stdoutput := OptionalBool(doc, "stdout", false);
      var workdir :- RequiredPath(doc, "workdir");
      var filename :- RequiredText(doc, "filename");
      var level :- RequiredText(doc, "level");
      var time :- RequiredText(doc, "time");
      var timeType :- ParseTimeType(time);
      var rotation :- ReadRotation(doc, defaults.rotation);
      Success(Configuration(stdoutput, workdir, filename, rotation, timeType, ToUpper(level),
                            OverrideAttributes(doc, defaults.attributes)))
  }

  /** Upper-casing leaves no lower-case letter behind. */
  lemma ToUpperHasNoLower(s: string)
    ensures NoLowerAscii(ToUpper(s))
  {
  }
}
