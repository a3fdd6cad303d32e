/**
  `ConnectorConfiguration` and its `Builder`, and the client's extension with a
  reconnect interval. Kotlin `Int` settings are modelled as `int`; the setters take
  Kotlin `Int`s, so every value a caller can set already fits 32 bits.
*/
module Config {

  const DEFAULT_IDLE_TIMEOUT_SECONDS: int := 30
  const DEFAULT_MAX_FRAME_LENGTH: int := 8192
  const DEFAULT_FRAME_LENGTH_FIELD_LENGTH: int := 2
  const DEFAULT_FRAME_LENGTH_FIELD_ADJUST: int := 0
  const DEFAULT_FRAME_LENGTH_FIELD_OFFSET: int := 0
  const DEFAULT_RECONNECT_INTERVAL: int := 100

  /** The thirteen settings a connector configuration carries. */
  datatype Field =
    | AddEchoMessageListener | AddLoggingHandler | EncodeFrameLengthAsString
    | FrameLengthFieldAdjust | FrameLengthFieldLength | FrameLengthFieldOffset
    | IdleTimeout | LogFieldDescription | LogSensitiveData | MaxFrameLength
    | ReplyOnError | SensitiveDataFields | WorkerThreadsCount

  /** The value of one setting, whatever its Kotlin type. */
  datatype FieldValue = Flag(flag: bool) | Number(number: int) | Numbers(numbers: seq<int>)

  /** `ConnectorConfiguration.Builder`: the settings accumulated so far. */
  datatype Builder = Builder(
    addLoggingHandler: bool,
    addEchoMessageListener: bool,
    logFieldDescription: bool,
    logSensitiveData: bool,
    replyOnError: bool,
    idleTimeout: int,
    maxFrameLength: int,
    workerThreadsCount: int,
    sensitiveDataFields: seq<int>,
    frameLengthFieldLength: int,
    frameLengthFieldOffset: int,
    frameLengthFieldAdjust: int,
    encodeFrameLengthAsString: bool)
  {
    /** The builder's current value of `f`. */
    function Get(f: Field): FieldValue {
      match f
      case AddEchoMessageListener => Flag(addEchoMessageListener)
      case AddLoggingHandler => Flag(addLoggingHandler)
      case EncodeFrameLengthAsString => Flag(encodeFrameLengthAsString)
      case FrameLengthFieldAdjust => Number(frameLengthFieldAdjust)
      case FrameLengthFieldLength => Number(frameLengthFieldLength)
      case FrameLengthFieldOffset => Number(frameLengthFieldOffset)
      case IdleTimeout => Number(idleTimeout)
      case LogFieldDescription => Flag(logFieldDescription)
      case LogSensitiveData => Flag(logSensitiveData)
      case MaxFrameLength => Number(maxFrameLength)
      case ReplyOnError => Flag(replyOnError)
      case SensitiveDataFields => Numbers(sensitiveDataFields)
      case WorkerThreadsCount => Number(workerThreadsCount)
    }
  }

  /** The immutable configuration a builder produces. */
  datatype ConnectorConfiguration = ConnectorConfiguration(
    addEchoMessageListener: bool,
    maxFrameLength: int,
    idleTimeout: int,
    workerThreadsCount: int,
    replyOnError: bool,
    addLoggingHandler: bool,
    logSensitiveData: bool,
    sensitiveDataFields: seq<int>,
    logFieldDescription: bool,
    frameLengthFieldLength: int,
    frameLengthFieldOffset: int,
    frameLengthFieldAdjust: int,
    encodeFrameLengthAsString: bool)
  {
    /**
      The configuration's value of `f`: the public properties and the accessor
      functions `shouldAddEchoMessageListener()`, `addLoggingHandler()`,
      `replyOnError()`, `logSensitiveData()`, `logFieldDescription()` and
      `encodeFrameLengthAsString()`, which all return the stored property.
    */
    function Get(f: Field): FieldValue {
      match f
      case AddEchoMessageListener => Flag(addEchoMessageListener)
      case AddLoggingHandler => Flag(addLoggingHandler)
      case EncodeFrameLengthAsString => Flag(encodeFrameLengthAsString)
      case FrameLengthFieldAdjust => Number(frameLengthFieldAdjust)
      case FrameLengthFieldLength => Number(frameLengthFieldLength)
      case FrameLengthFieldOffset => Number(frameLengthFieldOffset)
      case IdleTimeout => Number(idleTimeout)
      case LogFieldDescription => Flag(logFieldDescription)
      case LogSensitiveData => Flag(logSensitiveData)
      case MaxFrameLength => Number(maxFrameLength)
      case ReplyOnError => Flag(replyOnError)
      case SensitiveDataFields => Numbers(sensitiveDataFields)
      case WorkerThreadsCount => Number(workerThreadsCount)
    }
  }

  /** A fresh builder: every setting at its declared default. */
  const NewBuilder: Builder := Builder(
    addLoggingHandler := false,
    addEchoMessageListener := false,
    logFieldDescription := true,
    logSensitiveData := true,
    replyOnError := false,
    idleTimeout := DEFAULT_IDLE_TIMEOUT_SECONDS,
    maxFrameLength := DEFAULT_MAX_FRAME_LENGTH,
    workerThreadsCount := 0,
    sensitiveDataFields := [],
    frameLengthFieldLength := DEFAULT_FRAME_LENGTH_FIELD_LENGTH,
    frameLengthFieldOffset := DEFAULT_FRAME_LENGTH_FIELD_OFFSET,
    frameLengthFieldAdjust := DEFAULT_FRAME_LENGTH_FIELD_ADJUST,
    encodeFrameLengthAsString := false)

  /**
    One call of a builder setter, with its argument. The Kotlin default arguments
    (`addEchoMessageListener()` meaning `true`, and so on) are the caller's choice
    of argument here.
  */
  datatype Setter =
    | SetAddEchoMessageListener(shouldAdd: bool)
    | SetMaxFrameLength(length: int)
    | SetIdleTimeout(timeout: int)
    | SetReplyOnError(doReply: bool)
    | SetAddLoggingHandler(value: bool)
    | SetLogSensitiveData(logSensitive: bool)
    | DescribeFieldsInLog(shouldDescribe: bool)
    | SetSensitiveDataFields(fields: seq<int>)
    | SetFrameLengthFieldLength(fieldLength: int)
    | SetFrameLengthFieldOffset(fieldOffset: int)
    | SetFrameLengthFieldAdjust(fieldAdjust: int)
    | SetEncodeFrameLengthAsString(asString: bool)
    | SetWorkerThreadsCount(threads: int)
  {
    /** The setting this setter writes. */
    function Target(): Field {
      match this
      case SetAddEchoMessageListener(_) => AddEchoMessageListener
      case SetMaxFrameLength(_) => MaxFrameLength
      case SetIdleTimeout(_) => IdleTimeout
      case SetReplyOnError(_) => ReplyOnError
      case SetAddLoggingHandler(_) => AddLoggingHandler
      case SetLogSensitiveData(_) => LogSensitiveData
      case DescribeFieldsInLog(_) => LogFieldDescription
      case SetSensitiveDataFields(_) => SensitiveDataFields
      case SetFrameLengthFieldLength(_) => FrameLengthFieldLength
      case SetFrameLengthFieldOffset(_) => FrameLengthFieldOffset
      case SetFrameLengthFieldAdjust(_) => FrameLengthFieldAdjust
      case SetEncodeFrameLengthAsString(_) => EncodeFrameLengthAsString
      case SetWorkerThreadsCount(_) => WorkerThreadsCount
    }

    /** The value this setter writes. */
    function Argument(): FieldValue {
      match this
      case SetAddEchoMessageListener(x) => Flag(x)
      case SetMaxFrameLength(x) => Number(x)
      case SetIdleTimeout(x) => Number(x)
      case SetReplyOnError(x) => Flag(x)
      case SetAddLoggingHandler(x) => Flag(x)
      case SetLogSensitiveData(x) => Flag(x)
      case DescribeFieldsInLog(x) => Flag(x)
      case SetSensitiveDataFields(x) => Numbers(x)
      case SetFrameLengthFieldLength(x) => Number(x)
      case SetFrameLengthFieldOffset(x) => Number(x)
      case SetFrameLengthFieldAdjust(x) => Number(x)
      case SetEncodeFrameLengthAsString(x) => Flag(x)
      case SetWorkerThreadsCount(x) => Number(x)
    }
  }

  /** Runs one builder setter: its own setting takes the argument. */
  function Apply(b: Builder, s: Setter): (r: Builder)
    ensures r.Get(s.Target()) == s.Argument()
  {
    match s
    case SetAddEchoMessageListener(x) => b.(addEchoMessageListener := x)
    case SetMaxFrameLength(x) => b.(maxFrameLength := x)
    case SetIdleTimeout(x) => b.(idleTimeout := x)
    case SetReplyOnError(x) => b.(replyOnError := x)
    case SetAddLoggingHandler(x) => b.(addLoggingHandler := x)
    case SetLogSensitiveData(x) => b.(logSensitiveData := x)
    case DescribeFieldsInLog(x) => b.(logFieldDescription := x)
    case SetSensitiveDataFields(x) => b.(sensitiveDataFields := x)
    case SetFrameLengthFieldLength(x) => b.(frameLengthFieldLength := x)
    case SetFrameLengthFieldOffset(x) => b.(frameLengthFieldOffset := x)
    case SetFrameLengthFieldAdjust(x) => b.(frameLengthFieldAdjust := x)
    case SetEncodeFrameLengthAsString(x) => b.(encodeFrameLengthAsString := x)
    case SetWorkerThreadsCount(x) => b.(workerThreadsCount := x)
  }

  /** A setter changes only its own setting; every other setting keeps its value. */
  lemma ApplyOnlyOwnField(b: Builder, s: Setter, f: Field)
    ensures Apply(b, s).Get(f) == if f == s.Target() then s.Argument() else b.Get(f)
  {
  }

  /** A chain of setter calls, left to right. */
  function ApplyAll(b: Builder, setters: seq<Setter>): Builder
    decreases |setters|
  {
    if |setters| == 0 then b else ApplyAll(Apply(b, setters[0]), setters[1..])
  }

  /** The configuration constructor: every setting is copied from the builder. */
  function Build(b: Builder): (c: ConnectorConfiguration)
    ensures forall f :: c.Get(f) == b.Get(f)
  {
    ConnectorConfiguration(
      addEchoMessageListener := b.addEchoMessageListener,
      maxFrameLength := b.maxFrameLength,
      idleTimeout := b.idleTimeout,
      workerThreadsCount := b.workerThreadsCount,
      replyOnError := b.replyOnError,
      addLoggingHandler := b.addLoggingHandler,
      logSensitiveData := b.logSensitiveData,
      sensitiveDataFields := b.sensitiveDataFields,
      logFieldDescription := b.logFieldDescription,
      frameLengthFieldLength := b.frameLengthFieldLength,
      frameLengthFieldOffset := b.frameLengthFieldOffset,
      frameLengthFieldAdjust := b.frameLengthFieldAdjust,
      encodeFrameLengthAsString := b.encodeFrameLengthAsString)
  }

  /** The settings of a configuration built from a fresh builder. */
  lemma DefaultConfiguration()
    ensures var c := Build(NewBuilder);
      && c.Get(IdleTimeout) == Number(30)
      && c.Get(MaxFrameLength) == Number(8192)
      && c.Get(FrameLengthFieldLength) == Number(2)
      && c.Get(FrameLengthFieldOffset) == Number(0)
      && c.Get(FrameLengthFieldAdjust) == Number(0)
      && c.Get(WorkerThreadsCount) == Number(0)
      && c.Get(AddEchoMessageListener) == Flag(false)
      && c.Get(AddLoggingHandler) == Flag(false)
      && c.Get(ReplyOnError) == Flag(false)
      && c.Get(EncodeFrameLengthAsString) == Flag(false)
      && c.Get(LogSensitiveData) == Flag(true)
      && c.Get(LogFieldDescription) == Flag(true)
      && c.Get(SensitiveDataFields) == Numbers([])
  {
  }

  /** A configuration is determined by its settings: two builders with equal settings build the same configuration. */
  lemma BuildDeterminedBySettings(a: Builder, b: Builder)
    requires forall f :: a.Get(f) == b.Get(f)
    ensures Build(a) == Build(b)
  {
    assert a.Get(IdleTimeout) == b.Get(IdleTimeout);
    assert a.Get(MaxFrameLength) == b.Get(MaxFrameLength);
    assert a.Get(FrameLengthFieldLength) == b.Get(FrameLengthFieldLength);
    assert a.Get(FrameLengthFieldOffset) == b.Get(FrameLengthFieldOffset);
    assert a.Get(FrameLengthFieldAdjust) == b.Get(FrameLengthFieldAdjust);
    assert a.Get(WorkerThreadsCount) == b.Get(WorkerThreadsCount);
    assert a.Get(AddEchoMessageListener) == b.Get(AddEchoMessageListener);
    assert a.Get(AddLoggingHandler) == b.Get(AddLoggingHandler);
    assert a.Get(ReplyOnError) == b.Get(ReplyOnError);
    assert a.Get(EncodeFrameLengthAsString) == b.Get(EncodeFrameLengthAsString);
    assert a.Get(LogSensitiveData) == b.Get(LogSensitiveData);
    assert a.Get(LogFieldDescription) == b.Get(LogFieldDescription);
    assert a.Get(SensitiveDataFields) == b.Get(SensitiveDataFields);
  }

  /** Calling a setter twice for the same setting keeps only the second argument. */
  lemma LastSetterWins(b: Builder, s: Setter, t: Setter)
    requires s.Target() == t.Target()
    ensures Build(Apply(Apply(b, s), t)) == Build(Apply(b, t))
  {
    forall f ensures Apply(Apply(b, s), t).Get(f) == Apply(b, t).Get(f) {
      ApplyOnlyOwnField(b, s, f);
      ApplyOnlyOwnField(b, t, f);
      ApplyOnlyOwnField(Apply(b, s), t, f);
    }
    BuildDeterminedBySettings(Apply(Apply(b, s), t), Apply(b, t));
  }

  /** Setters of different settings may be called in either order. */
  lemma SettersCommute(b: Builder, s: Setter, t: Setter)
    requires s.Target() != t.Target()
    ensures Build(Apply(Apply(b, s), t)) == Build(Apply(Apply(b, t), s))
  {
    forall f ensures Apply(Apply(b, s), t).Get(f) == Apply(Apply(b, t), s).Get(f) {
      CommuteOneField(b, s, t, f);
    }
    BuildDeterminedBySettings(Apply(Apply(b, s), t), Apply(Apply(b, t), s));
  }

  lemma CommuteOneField(b: Builder, s: Setter, t: Setter, f: Field)
    requires s.Target() != t.Target()
    ensures Apply(Apply(b, s), t).Get(f) == Apply(Apply(b, t), s).Get(f)
  {
    ApplyOnlyOwnField(b, s, f);
    ApplyOnlyOwnField(b, t, f);
    ApplyOnlyOwnField(Apply(b, s), t, f);
    ApplyOnlyOwnField(Apply(b, t), s, f);
  }

  /** After a chain of setters, each setting holds the argument of the last setter that wrote it, or its old value. */
  lemma {:induction false} ApplyAllLastWriter(b: Builder, setters: seq<Setter>, f: Field)
    ensures ApplyAll(b, setters).Get(f)
         == if exists i :: 0 <= i < |setters| && setters[i].Target() == f
            then setters[LastWriter(setters, f)].Argument()
            else b.Get(f)
    decreases |setters|
  {
    if |setters| > 0 {
      var rest := setters[1..];
      ApplyAllLastWriter(Apply(b, setters[0]), rest, f);
      ApplyOnlyOwnField(b, setters[0], f);
      if exists i :: 0 <= i < |rest| && rest[i].Target() == f {
        var i :| 0 <= i < |rest| && rest[i].Target() == f;
        assert setters[i + 1] == rest[i];
        assert LastWriter(setters, f) == LastWriter(rest, f) + 1;
      } else if setters[0].Target() == f {
        assert LastWriter(setters, f) == 0;
      }
    }
  }

  /** The position of the last setter in `setters` that writes `f`, if any. */
  function LastWriter(setters: seq<Setter>, f: Field): (i: int)
    ensures -1 <= i < |setters|
    ensures 0 <= i ==> setters[i].Target() == f
    ensures forall j :: i < j < |setters| ==> setters[j].Target() != f
    decreases |setters|
  {
    if |setters| == 0 then -1
    else if setters[|setters| - 1].Target() == f then |setters| - 1
    else LastWriter(setters[..|setters| - 1], f)
  }

  // ---------------------------------------------------------------------------
  // Client configuration

  /** `ClientConfiguration.Builder`: the base builder plus the reconnect interval in milliseconds. */
  datatype ClientBuilder = ClientBuilder(base: Builder, reconnectInterval: int)

  datatype ClientConfiguration = ClientConfiguration(base: ConnectorConfiguration, reconnectInterval: int)

  /** `ClientConfiguration.newBuilder()`. */
  const NewClientBuilder: ClientBuilder := ClientBuilder(NewBuilder, DEFAULT_RECONNECT_INTERVAL)

  /** `ClientConfiguration.Builder.reconnectInterval(x)`: sets only the interval. */
  function SetReconnectInterval(b: ClientBuilder, interval: int): (r: ClientBuilder)
    ensures r.reconnectInterval == interval && r.base == b.base
  {
    b.(reconnectInterval := interval)
  }

  /** A base-builder setter called on the client builder leaves the interval alone. */
  function ApplyClient(b: ClientBuilder, s: Setter): (r: ClientBuilder)
    ensures r.reconnectInterval == b.reconnectInterval
    ensures r.base == Apply(b.base, s)
  {
    b.(base := Apply(b.base, s))
  }

  /** `ClientConfiguration.Builder.build()`. */
  function BuildClient(b: ClientBuilder): (c: ClientConfiguration)
    ensures c.reconnectInterval == b.reconnectInterval
    ensures forall f :: c.base.Get(f) == b.base.Get(f)
  {
    ClientConfiguration(Build(b.base), b.reconnectInterval)
  }

  /** `ClientConfiguration.getDefault()`: the base defaults and a 100 ms reconnect interval. */
  const DefaultClientConfiguration: ClientConfiguration := BuildClient(NewClientBuilder)

  lemma GetDefaultValues()
    ensures DefaultClientConfiguration.reconnectInterval == 100
    ensures DefaultClientConfiguration.base == Build(NewBuilder)
    ensures forall f :: DefaultClientConfiguration.base.Get(f) == NewBuilder.Get(f)
  {
  }
}
