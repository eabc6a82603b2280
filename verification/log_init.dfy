/** Setting the logger up from a configuration: the attributes an enabled
    switch registers, the rotation policy and the sinks `InitLog` builds, and
    the `g_init` flag that makes `InitFromFile` act once until `DeInit`.

    The Boost.Log core is reduced to what these functions decide: the list of
    global attributes asked for, and the list of sinks installed. */
module LogInit {
  import opened Wrappers
  import opened Text
  import opened LogSeverity
  import LC = LogConfig
  import LF = LogFormat

  // ---------------------------------------------------------------------------
  // InitAttributes

  /** The kind of global attribute registered under a name. */
  datatype GlobalAttribute = ProcessIdAttr | ThreadIdAttr | UtcClockAttr | LocalClockAttr

  type Registration = (string, GlobalAttribute)

  /** The attribute an enabled switch asks for: a process id, a thread id, or
      a clock of the configured time type. "File", "Function" and "Line" ask
      for nothing (their values come with each record); any other name is
      not an attribute at all. */
  function Registers(name: string, timeType: LC.TimeType): Option<GlobalAttribute> {
    if name == LC.ProcessIdName then Some(ProcessIdAttr)
    else if name == LC.ThreadIdName then Some(ThreadIdAttr)
    else if name == LC.TimeStampName then Some(if timeType == LC.Utc then UtcClockAttr else LocalClockAttr)
    else None
  }

  /** The text of the error raised for an enabled switch of unknown name. */
  function UnknownAttributeText(name: string): string {
    "unknown name attribute '" + name + "'"
  }

  /** `InitAttributes`: walks the switches in the map's order, skips those
      that are off, registers the attribute of each one that is on, and
      stops at the first enabled name it does not know. */
  function InitAttributes(attrs: LC.Attributes, timeType: LC.TimeType): (r: Result<seq<Registration>, string>)
    ensures r.Success? <==> forall i :: 0 <= i < |attrs| && attrs[i].1 ==> LC.IsKnownAttribute(attrs[i].0)
    ensures r.Failure? ==>
      exists i :: 0 <= i < |attrs| && attrs[i].1 && !LC.IsKnownAttribute(attrs[i].0)
        && r.error == UnknownAttributeText(attrs[i].0)
        && (forall j :: 0 <= j < i && attrs[j].1 ==> LC.IsKnownAttribute(attrs[j].0))
    ensures r.Success? ==> forall k :: 0 <= k < |r.value| ==>
      (r.value[k].0, true) in attrs && Registers(r.value[k].0, timeType) == Some(r.value[k].1)
    ensures r.Success? ==> forall i :: 0 <= i < |attrs| && attrs[i].1 && Registers(attrs[i].0, timeType).Some? ==>
      (attrs[i].0, Registers(attrs[i].0, timeType).value) in r.value
    decreases |attrs|
  {
    if |attrs| == 0 then Success([])
    else
      var (name, on) := attrs[0];
      assert attrs == [attrs[0]] + attrs[1..];
      if !on then InitAttributes(attrs[1..], timeType)
      else if !LC.IsKnownAttribute(name) then Failure(UnknownAttributeText(name))
      else
        var rest :- InitAttributes(attrs[1..], timeType);
        match Registers(name, timeType)
        case Some(g) => Success([(name, g)] + rest)
        case None => Success(rest)
  }

  /** A configuration that came out of the reader, or the default one, never
      makes `InitAttributes` fail: its switches are exactly the six known
      names. */
  lemma {:induction false} ReadConfigurationAttributesKnown(attrs: LC.Attributes, timeType: LC.TimeType)
    requires LC.Keys(attrs) == LC.Keys(LC.DefaultAttributes)
    ensures InitAttributes(attrs, timeType).Success?
  {
    forall i | 0 <= i < |attrs|
      ensures LC.IsKnownAttribute(attrs[i].0)
    {
      assert attrs[i].0 == LC.Keys(attrs)[i];
    }
  }

  // ---------------------------------------------------------------------------
  // CreateFileSink: rotation

  /** How the file backend rotates: at a time interval (seconds), or at a
      size (bytes). */
  datatype RotationPolicy = TimeInterval(seconds: Uint32) | SizeLimit(bytes: Uint64)

  const MiB := 1024 * 1024
  const Uint64Modulus := 0x1_0000_0000_0000_0000

  /** The rotation a file sink gets. The size in megabytes is multiplied by
      1024 twice in `std::uint64_t`, so the product wraps modulo 2^64. */
  function RotationPolicyOf(rotation: LC.Rotation): (p: RotationPolicy)
    ensures rotation.kind == LC.TimeBased <==> p.TimeInterval?
    ensures p.TimeInterval? ==> p.seconds == rotation.period
    ensures p.SizeLimit? ==> p.bytes == (rotation.size % 0x1000_0000_0000) * MiB
  {
    match rotation.kind
    case TimeBased => TimeInterval(rotation.period)
    case SizeBased =>
      WrappedProduct(rotation.size);
      SizeLimit((rotation.size * MiB) % Uint64Modulus)
  }

  /** Multiplying by a megabyte modulo 2^64 keeps the low 44 bits of the
      number of megabytes. */
  lemma WrappedProduct(a: nat)
    ensures (a * MiB) % Uint64Modulus == (a % 0x1000_0000_0000) * MiB
  {
    var d := a / 0x1000_0000_0000;
    var r := a % 0x1000_0000_0000;
    assert a * MiB == d * Uint64Modulus + r * MiB;
    assert 0 <= r * MiB < Uint64Modulus;
  }

  /** Below 16 TiB worth of megabytes the size limit is exactly the size in
      bytes, and dividing it by a megabyte gives the configured size back. */
  lemma SizeLimitExact(rotation: LC.Rotation)
    requires rotation.kind == LC.SizeBased && rotation.size < 0x1000_0000_0000
    ensures RotationPolicyOf(rotation) == SizeLimit(rotation.size * MiB)
    ensures RotationPolicyOf(rotation).bytes / MiB == rotation.size
  {
  }

  /** From 2^44 megabytes on, the product wraps: 2^44 megabytes becomes a
      limit of zero bytes. */
  lemma SizeLimitWraps()
    ensures RotationPolicyOf(LC.Rotation(LC.SizeBased, 3600, 0x1000_0000_0000)) == SizeLimit(0)
  {
  }

  // ---------------------------------------------------------------------------
  // CreateFileSink / CreateStdoutSink

  /** `workdir / filename` with Boost.Filesystem's (version 3) `/=` on
      POSIX: an empty file name leaves the directory; otherwise a '/' is put
      between them unless the directory is empty or already ends with one,
      or the file name starts with one. The directory is never replaced. */
  function PathJoin(dir: string, file: string): (p: string)
    ensures p == dir + file || p == dir + "/" + file
    ensures p == dir + "/" + file <==> dir != [] && file != [] && !EndsWith(dir, '/') && file[0] != '/'
    ensures file != [] && file[0] != '/' && |p| > |file| ==> p[|p| - |file| - 1] == '/'
  {
    if file == [] || dir == [] || EndsWith(dir, '/') || file[0] == '/' then dir + file
    else dir + "/" + file
  }

  /** An absolute file name is appended to the directory, not put in its
      place. */
  lemma AbsoluteFileNameAppended()
    ensures PathJoin("/var/log", "/x.log") == "/var/log/x.log"
  {
  }

  /** A plain file name ends up as the last component of the joined path. */
  lemma PathJoinKeepsFileName(dir: string, file: string)
    requires file != [] && forall i :: 0 <= i < |file| ==> file[i] != '/'
    ensures LF.LastComponent(PathJoin(dir, file)) == file
  {
    var p := PathJoin(dir, file);
    if |p| == |file| {
      assert p == file;
      assert LastIndexOf(p, '/').None?;
    } else {
      var k := |p| - |file| - 1;
      assert forall j :: k < j < |p| ==> p[j] == file[j - k - 1];
      LastIndexOfAt(p, '/', k);
      assert p[k + 1..] == file;
    }
  }

  datatype SinkKind = FileSink | StdoutSink

  /** An installed sink: where it writes, how it rotates (file sinks only),
      the level of its filter, and the configuration its formatter holds. */
  datatype Sink = Sink(kind: SinkKind, path: string, rotation: Option<RotationPolicy>,
                       level: Severity, conf: LC.Configuration)

  /** `CreateFileSink`: the file `workdir / filename` with the configured
      rotation, filtered at the configured level, which must be a severity
      name. */
  function CreateFileSink(conf: LC.Configuration): (r: Result<Sink, string>)
    ensures r.Success? <==> IsSeverityName(conf.level)
    ensures r.Failure? ==> r.error == UnknownNameText(conf.level)
    ensures r.Success? ==> r.value.kind == FileSink && ToText(r.value.level) == conf.level
    ensures r.Success? ==> r.value.path == PathJoin(conf.workdir, conf.filename)
    ensures r.Success? ==> r.value.rotation == Some(RotationPolicyOf(conf.rotation))
  {
    var level :- FromText(conf.level);
    ToTextFromText(conf.level);
    Success(Sink(FileSink, PathJoin(conf.workdir, conf.filename), Some(RotationPolicyOf(conf.rotation)), level, conf))
  }

  /** `CreateStdoutSink`: the standard log stream, same filter and format. */
  function CreateStdoutSink(conf: LC.Configuration): (r: Result<Sink, string>)
    ensures r.Success? <==> IsSeverityName(conf.level)
    ensures r.Failure? ==> r.error == UnknownNameText(conf.level)
    ensures r.Success? ==> r.value.kind == StdoutSink && ToText(r.value.level) == conf.level
    ensures r.Success? ==> r.value.rotation.None?
  {
    var level :- FromText(conf.level);
    ToTextFromText(conf.level);
    Success(Sink(StdoutSink, "", None, level, conf))
  }

  /** What a sink writes for a record. */
  function SinkOutput(sink: Sink, rank: Severity -> int, rec: LF.LogRecord): Option<string> {
    LF.Emit(sink.conf, sink.level, rank, rec)
  }

  // ---------------------------------------------------------------------------
  // InitLog

  /** What `InitLog` installs: the attributes it registered and the sinks it
      adds to the core, in the order they are added. */
  datatype Setup = Setup(registrations: seq<Registration>, sinks: seq<Sink>)

  /** `InitLog`: attributes first, then the file sink, then (when enabled)
      the standard-output sink; the standard-output sink is added to the core
      before the file sink. */
  function InitLog(conf: LC.Configuration): (r: Result<Setup, string>)
    ensures r.Success? <==>
      (forall i :: 0 <= i < |conf.attributes| && conf.attributes[i].1 ==> LC.IsKnownAttribute(conf.attributes[i].0))
      && IsSeverityName(conf.level)
    ensures r.Success? ==> |r.value.sinks| == (if conf.stdoutput then 2 else 1)
    ensures r.Success? ==> r.value.sinks[|r.value.sinks| - 1].kind == FileSink
    ensures r.Success? && conf.stdoutput ==> r.value.sinks[0].kind == StdoutSink
    ensures r.Success? ==> forall k :: 0 <= k < |r.value.sinks| ==>
      ToText(r.value.sinks[k].level) == conf.level && r.value.sinks[k].conf == conf
    ensures r.Failure? && InitAttributes(conf.attributes, conf.timeType).Success? ==>
      r.error == UnknownNameText(conf.level)
  {
    var regs :- InitAttributes(conf.attributes, conf.timeType);
    var file :- CreateFileSink(conf);
    if conf.stdoutput then
      match CreateStdoutSink(conf)
      case Success(debug) => Success(Setup(regs, [debug, file]))
      case Failure(e) => Failure(e)
    else
      Success(Setup(regs, [file]))
  }

  // ---------------------------------------------------------------------------
  // Logger::Init, InitFromFile, DeInit

  /** The process-wide state: `g_init` and the sinks in the core. */
  datatype LoggerState = LoggerState(initialized: bool, sinks: seq<Sink>)

  /** Why an initialisation failed: the configuration file could not be
      read, or the configuration read does not set up. */
  datatype InitFailure = ConfigFailure(error: LC.ReadError) | SetupFailure(text: string)

  /** `InitFromFile`. `read` stands for what `ReadFile` gives for the file;
      it is only looked at while `g_init` is false. On success the new sinks
      join those already in the core and `g_init` is set. */
  function InitFromFile(st: LoggerState, read: Result<LC.Configuration, LC.ReadError>): (r: (LoggerState, Option<InitFailure>))
    ensures st.initialized ==> r == (st, None)
    ensures r.1.Some? ==> r.0 == st
    ensures !st.initialized && read.Failure? ==> r.1 == Some(ConfigFailure(read.error))
    ensures !st.initialized && read.Success? && InitLog(read.value).Success? ==>
      r == (LoggerState(true, st.sinks + InitLog(read.value).value.sinks), None)
    ensures !st.initialized && read.Success? && InitLog(read.value).Failure? ==>
      r == (st, Some(SetupFailure(InitLog(read.value).error)))
  {
    if st.initialized then (st, None)
    else
      match read
      case Failure(e) => (st, Some(ConfigFailure(e)))
      case Success(conf) =>
        match InitLog(conf)
        case Failure(msg) => (st, Some(SetupFailure(msg)))
        case Success(setup) => (LoggerState(true, st.sinks + setup.sinks), None)
  }

  /** `DeInit`: every sink is removed and `g_init` is cleared. */
  function DeInit(st: LoggerState): (r: LoggerState)
    ensures !r.initialized && r.sinks == []
  {
    LoggerState(false, [])
  }

  /** `Logger::Init`: sets up the default configuration without looking at
      or setting `g_init`. */
  function Init(st: LoggerState, cwd: string): (r: (LoggerState, Option<InitFailure>))
    ensures r.0.initialized == st.initialized
  {
    match InitLog(LC.Default(cwd))
    case Failure(msg) => (st, Some(SetupFailure(msg)))
    case Success(setup) => (LoggerState(st.initialized, st.sinks + setup.sinks), None)
  }

  /** Once `InitFromFile` has succeeded, calling it again changes nothing,
      whatever the second file holds. */
  lemma InitFromFileOnce(st: LoggerState, first: Result<LC.Configuration, LC.ReadError>,
                         second: Result<LC.Configuration, LC.ReadError>)
    requires InitFromFile(st, first).1.None?
    ensures InitFromFile(st, first).0.initialized
    ensures InitFromFile(InitFromFile(st, first).0, second) == (InitFromFile(st, first).0, None)
  {
  }

  /** After `DeInit`, `InitFromFile` acts again, and the core then holds
      exactly the sinks of the new configuration. */
  lemma DeInitReenables(st: LoggerState, conf: LC.Configuration)
    requires InitLog(conf).Success?
    ensures InitFromFile(DeInit(st), Success(conf)) == (LoggerState(true, InitLog(conf).value.sinks), None)
  {
    assert [] + InitLog(conf).value.sinks == InitLog(conf).value.sinks;
  }

  /** The default configuration never sets up: its level is empty, which is
      not a severity name, so `Logger::Init` always fails and leaves the
      state as it was. */
  lemma DefaultInitFails(st: LoggerState, cwd: string)
    ensures InitLog(LC.Default(cwd)) == Failure(UnknownNameText(""))
    ensures Init(st, cwd) == (st, Some(SetupFailure(UnknownNameText(""))))
  {
    ReadConfigurationAttributesKnown(LC.Default(cwd).attributes, LC.Utc);
  }

  /** For a configuration read from a file, the set-up succeeds exactly when
      the level element names a severity in any letter case. */
  lemma ReadFileSetsUpIffLevelIsName(doc: LC.Document, cwd: string)
    requires LC.ReadFile(true, doc, cwd).Success?
    ensures var conf := LC.ReadFile(true, doc, cwd).value;
      InitLog(conf).Success? <==> IsSeverityName(ToUpper(LC.NodeValue(doc, LC.LoggerKey("level")).value))
  {
    var conf := LC.ReadFile(true, doc, cwd).value;
    ReadConfigurationAttributesKnown(conf.attributes, conf.timeType);
  }
}
