/**
  `Iso8583ChannelInitializer`: the handlers a new channel's pipeline receives,
  in order, as a function of the connector configuration. The pipeline is a
  sequence of named entries; the custom handlers, added without names, get the
  names Netty generates, which the model leaves out.
*/
module Initializer {
  import opened Wrappers
  import opened Text
  import opened Message
  import Config
  import Codec
  import Logging

  /** The handlers the initializer installs, with the arguments it passes them. */
  datatype ChannelHandler =
    | LengthFieldFrameDecoder(stringHeader: bool, params: Codec.FrameDecoder)
    | Iso8583Decoder
    | Iso8583Encoder(lengthHeaderLength: int, encodeLengthHeaderAsString: bool)
    | LoggingHandler(settings: Logging.LoggingHandler)
    | ParseExceptionHandler(includeErrorDetails: bool)
    | IdleStateHandler(readerIdleTime: int, writerIdleTime: int, allIdleTime: int)
    | IdleEventHandler
    | Custom(id: nat)

  /** A pipeline entry: its name (none for a custom handler) and its handler. */
  datatype Entry = Entry(name: Option<string>, handler: ChannelHandler)

  /**
    `createLengthFieldBasedFrameDecoder`: the string-header decoder when the length is
    written as text, Netty's binary one otherwise; both get the maximum frame length,
    the field's offset, its length, the adjustment, and strip the header.
  */
  function CreateLengthFieldBasedFrameDecoder(c: Config.ConnectorConfiguration): (h: ChannelHandler)
    ensures h.LengthFieldFrameDecoder?
    ensures h.stringHeader <==> c.encodeFrameLengthAsString
    ensures h.params.maxFrameLength == c.maxFrameLength
    ensures h.params.lengthFieldOffset == c.frameLengthFieldOffset
    ensures h.params.lengthFieldLength == h.params.initialBytesToStrip == c.frameLengthFieldLength
    ensures h.params.lengthAdjustment == c.frameLengthFieldAdjust
  {
    var n := c.frameLengthFieldLength;
    LengthFieldFrameDecoder(
      c.encodeFrameLengthAsString,
      Codec.FrameDecoder(c.maxFrameLength, c.frameLengthFieldOffset, n, c.frameLengthFieldAdjust, n))
  }

  /** `createIso8583Encoder`: only the header length and its format reach the encoder. */
  function CreateIso8583Encoder(c: Config.ConnectorConfiguration): (h: ChannelHandler)
    ensures h.Iso8583Encoder?
    ensures h.lengthHeaderLength == c.frameLengthFieldLength
    ensures h.encodeLengthHeaderAsString <==> c.encodeFrameLengthAsString
  {
    Iso8583Encoder(c.frameLengthFieldLength, c.encodeFrameLengthAsString)
  }

  /** `createParseExceptionHandler`: error replies always carry the error details. */
  const PARSE_EXCEPTION_HANDLER: ChannelHandler := ParseExceptionHandler(true)

  /** `createLoggingHandler`: the configured sensitivity, descriptions and masked fields. */
  function CreateLoggingHandler(c: Config.ConnectorConfiguration): (h: ChannelHandler)
    ensures h.LoggingHandler?
    ensures h.settings.printSensitiveData == c.logSensitiveData
    ensures h.settings.printFieldDescriptions == c.logFieldDescription
    ensures h.settings.maskedFields == c.sensitiveDataFields
  {
    LoggingHandler(Logging.LoggingHandler(c.logSensitiveData, c.logFieldDescription, c.sensitiveDataFields))
  }

  /**
    As written, a configuration that names no sensitive fields (the builder's
    default) hands the logging handler an empty list, so in secure mode the tracks
    and the extended PAN are logged in clear.
  */
  lemma DefaultSensitiveFieldsMaskNothing(c: Config.ConnectorConfiguration, field: IsoValue, i: int)
    requires c.sensitiveDataFields == Config.Build(Config.NewBuilder).sensitiveDataFields
    requires !c.logSensitiveData && i != 2
    ensures Logging.GetFormattedValue(CreateLoggingHandler(c).settings, field, i) == field.text
  {
  }

  /**
    Corrected: a configuration that names no sensitive fields leaves the logging
    handler its own default list, as the property's documentation promises for the
    absent value.
  */
  function CreateLoggingHandlerCorrected(c: Config.ConnectorConfiguration): (h: ChannelHandler)
    ensures h.LoggingHandler?
    ensures h.settings.printSensitiveData == c.logSensitiveData
    ensures h.settings.printFieldDescriptions == c.logFieldDescription
    ensures |c.sensitiveDataFields| > 0 ==> h.settings.maskedFields == c.sensitiveDataFields
    ensures |c.sensitiveDataFields| == 0 ==> h.settings.maskedFields == Logging.DEFAULT_MASKED_FIELDS
  {
    var fields := if |c.sensitiveDataFields| == 0 then Logging.DEFAULT_MASKED_FIELDS else c.sensitiveDataFields;
    LoggingHandler(Logging.LoggingHandler(c.logSensitiveData, c.logFieldDescription, fields))
  }

  /** With the correction, the default configuration in secure mode hides fields 34, 35, 36 and 45. */
  lemma CorrectedDefaultHidesTracks(c: Config.ConnectorConfiguration, field: IsoValue, i: int)
    requires c.sensitiveDataFields == Config.Build(Config.NewBuilder).sensitiveDataFields
    requires !c.logSensitiveData && i in {34, 35, 36, 45}
    ensures Logging.Revealed(Logging.GetFormattedValue(CreateLoggingHandlerCorrected(c).settings, field, i)) == 0
  {
    var h := CreateLoggingHandlerCorrected(c).settings;
    assert i in Logging.DEFAULT_MASKED_FIELDS;
    Logging.SecureModeHidesSensitiveFields(h, field, i);
  }

  function Named(name: string, h: ChannelHandler): Entry {
    Entry(Some(name), h)
  }

  /** The custom handlers, in the order given. */
  function CustomEntries(custom: seq<nat>): (r: seq<Entry>)
    ensures |r| == |custom|
    ensures forall k :: 0 <= k < |r| ==> r[k] == Entry(None, Custom(custom[k]))
  {
    seq(|custom|, k requires 0 <= k < |custom| => Entry(None, Custom(custom[k])))
  }

  /** The names of a pipeline's entries, in order. */
  function Names(p: seq<Entry>): (r: seq<Option<string>>)
    ensures |r| == |p| && forall k :: 0 <= k < |p| ==> r[k] == p[k].name
  {
    seq(|p|, k requires 0 <= k < |p| => p[k].name)
  }

  /** The built-in handlers `initChannel` adds, before the custom ones. */
  function BuiltIn(c: Config.ConnectorConfiguration): seq<Entry> {
    [ Named("lengthFieldFrameDecoder", CreateLengthFieldBasedFrameDecoder(c)),
      Named("iso8583Decoder", Iso8583Decoder),
      Named("iso8583Encoder", CreateIso8583Encoder(c)) ]
    + (if c.addLoggingHandler then [Named("logging", CreateLoggingHandler(c))] else [])
    + (if c.replyOnError then [Named("replyOnError", PARSE_EXCEPTION_HANDLER)] else [])
    + (if c.addEchoMessageListener
       then [Named("idleState", IdleStateHandler(0, 0, c.idleTimeout)), Named("idleEventHandler", IdleEventHandler)]
       else [])
  }

  /** The names of the built-in handlers, for each combination of the three flags. */
  lemma BuiltInNames(c: Config.ConnectorConfiguration)
    ensures Names(BuiltIn(c))
         == [Some("lengthFieldFrameDecoder"), Some("iso8583Decoder"), Some("iso8583Encoder")]
          + (if c.addLoggingHandler then [Some("logging")] else [])
          + (if c.replyOnError then [Some("replyOnError")] else [])
          + (if c.addEchoMessageListener then [Some("idleState"), Some("idleEventHandler")] else [])
  {
  }

  /** Each optional name is among the built-in ones exactly when its flag is set. */
  lemma BuiltInMembership(c: Config.ConnectorConfiguration)
    ensures Some("logging") in Names(BuiltIn(c)) <==> c.addLoggingHandler
    ensures Some("replyOnError") in Names(BuiltIn(c)) <==> c.replyOnError
    ensures Some("idleState") in Names(BuiltIn(c)) <==> c.addEchoMessageListener
    ensures Some("idleEventHandler") in Names(BuiltIn(c)) <==> c.addEchoMessageListener
  {
    BuiltInNames(c);
  }

  /**
    The pipeline `initChannel` builds before the configurer's hook runs: the frame
    decoder, the message decoder and the encoder first; "logging" exactly when
    logging is configured; "replyOnError", a parse-exception handler that includes
    the details, exactly when error replies are configured; "idleState", an all-idle
    timer with the configured timeout, directly followed by "idleEventHandler",
    exactly when the echo listener is configured; the custom handlers last, in the
    given order. No two entries share a name.
  */
  function Pipeline(c: Config.ConnectorConfiguration, custom: seq<nat>): (p: seq<Entry>)
    ensures 3 <= |p| - |custom|
    ensures p[0] == Entry(Some("lengthFieldFrameDecoder"), CreateLengthFieldBasedFrameDecoder(c))
    ensures p[1] == Entry(Some("iso8583Decoder"), Iso8583Decoder)
    ensures p[2] == Entry(Some("iso8583Encoder"), CreateIso8583Encoder(c))
    ensures Some("logging") in Names(p) <==> c.addLoggingHandler
    ensures Some("replyOnError") in Names(p) <==> c.replyOnError
    ensures Some("idleState") in Names(p) <==> c.addEchoMessageListener
    ensures Some("idleEventHandler") in Names(p) <==> c.addEchoMessageListener
    ensures forall k :: 0 <= k < |p| && p[k].name == Some("logging") ==> p[k].handler == CreateLoggingHandler(c)
    ensures forall k :: 0 <= k < |p| && p[k].name == Some("replyOnError") ==> p[k].handler == ParseExceptionHandler(true)
    ensures forall k :: 0 <= k < |p| && p[k].name == Some("idleState") ==>
      && p[k].handler == IdleStateHandler(0, 0, c.idleTimeout)
      && k + 1 < |p| && p[k + 1] == Entry(Some("idleEventHandler"), IdleEventHandler)
    ensures forall k :: 0 <= k < |p| - |custom| ==> p[k].name.Some?
    ensures p[|p| - |custom|..] == CustomEntries(custom)
    ensures forall a, b :: 0 <= a < b < |p| && p[a].name.Some? ==> p[a].name != p[b].name
  {
    var p := BuiltIn(c) + CustomEntries(custom);
    PipelineNames(c, custom);
    BuiltInMembership(c);
    PipelineHandlers(c, custom);
    PipelineDistinct(c, custom);
    p
  }

  /** Only the built-in entries are named, and they carry the names `BuiltInNames` lists. */
  lemma PipelineNames(c: Config.ConnectorConfiguration, custom: seq<nat>)
    ensures var built := BuiltIn(c);
      var p := built + CustomEntries(custom);
      && Names(p) == Names(built) + Names(CustomEntries(custom))
      && (forall k :: 0 <= k < |p| ==> (p[k].name.Some? <==> k < |built|))
      && (forall x :: Some(x) in Names(p) <==> Some(x) in Names(built))
      && p[|built|..] == CustomEntries(custom)
  {
    var built := BuiltIn(c);
    var p := built + CustomEntries(custom);
    BuiltInNames(c);
    assert Names(p) == Names(built) + Names(CustomEntries(custom));
    assert None !in Names(built);
    forall k | 0 <= k < |p|
      ensures p[k].name.Some? <==> k < |built|
    {
      if k < |built| {
        assert Names(built)[k] == p[k].name;
      }
    }
    assert p[|built|..] == CustomEntries(custom);
  }

  /** The handlers behind the optional names, and the idle handler's successor. */
  lemma PipelineHandlers(c: Config.ConnectorConfiguration, custom: seq<nat>)
    ensures var p := BuiltIn(c) + CustomEntries(custom);
      && (forall k :: 0 <= k < |p| && p[k].name == Some("logging") ==> p[k].handler == CreateLoggingHandler(c))
      && (forall k :: 0 <= k < |p| && p[k].name == Some("replyOnError") ==> p[k].handler == ParseExceptionHandler(true))
      && (forall k :: 0 <= k < |p| && p[k].name == Some("idleState") ==>
            && p[k].handler == IdleStateHandler(0, 0, c.idleTimeout)
            && k + 1 < |p| && p[k + 1] == Entry(Some("idleEventHandler"), IdleEventHandler))
  {
    var built := BuiltIn(c);
    var p := built + CustomEntries(custom);
    PipelineNames(c, custom);
    BuiltInHandlers(c);
    forall k | 0 <= k < |p| && p[k].name.Some?
      ensures k < |built| && p[k] == built[k]
    {
    }
  }

  /** `PipelineHandlers` for the built-in entries alone. */
  lemma BuiltInHandlers(c: Config.ConnectorConfiguration)
    ensures var p := BuiltIn(c);
      && (forall k :: 0 <= k < |p| && p[k].name == Some("logging") ==> p[k].handler == CreateLoggingHandler(c))
      && (forall k :: 0 <= k < |p| && p[k].name == Some("replyOnError") ==> p[k].handler == ParseExceptionHandler(true))
      && (forall k :: 0 <= k < |p| && p[k].name == Some("idleState") ==>
            && p[k].handler == IdleStateHandler(0, 0, c.idleTimeout)
            && k + 1 < |p| && p[k + 1] == Entry(Some("idleEventHandler"), IdleEventHandler))
  {
    var codec := BuiltIn(c)[..3];
    var logging := if c.addLoggingHandler then [Named("logging", CreateLoggingHandler(c))] else [];
    var reply := if c.replyOnError then [Named("replyOnError", PARSE_EXCEPTION_HANDLER)] else [];
    var idle := if c.addEchoMessageListener
      then [Named("idleState", IdleStateHandler(0, 0, c.idleTimeout)), Named("idleEventHandler", IdleEventHandler)]
      else [];
    assert BuiltIn(c) == codec + logging + reply + idle;
    var p := BuiltIn(c);
    var i := |codec| + |logging| + |reply|;
    forall k | 0 <= k < |p| && p[k].name.Some?
      ensures p[k].name == Some("logging") ==> k == 3 && p[k] == logging[0]
      ensures p[k].name == Some("replyOnError") ==> k == 3 + |logging| && p[k] == reply[0]
      ensures p[k].name == Some("idleState") ==> k == i && p[k] == idle[0] && p[k + 1] == idle[1]
    {
    }
  }

  /** No two entries share a name. */
  lemma PipelineDistinct(c: Config.ConnectorConfiguration, custom: seq<nat>)
    ensures var p := BuiltIn(c) + CustomEntries(custom);
      forall a, b :: 0 <= a < b < |p| && p[a].name.Some? ==> p[a].name != p[b].name
  {
    var built := BuiltIn(c);
    var p := built + CustomEntries(custom);
    PipelineNames(c, custom);
    BuiltInNames(c);
    forall a, b | 0 <= a < b < |p| && p[a].name.Some?
      ensures p[a].name != p[b].name
    {
      assert Names(built)[a] == p[a].name;
      if b < |built| {
        assert Names(built)[b] == p[b].name;
      }
    }
  }

  /**
    `initChannel`. The frame decoder's constructor rejects its arguments unless the
    maximum frame length is positive, the offset and the stripped prefix are not
    negative, and the header fits within the maximum frame length (computed as a
    wrapping `int` subtraction); the pipeline is then not built. Otherwise the configurer's hook, if any, gets the last word.
  */
  function InitChannel(c: Config.ConnectorConfiguration, custom: seq<nat>,
                       configurer: Option<seq<Entry> -> seq<Entry>>): (r: Result<seq<Entry>, Throwable>)
    ensures r.Failure? <==> !Codec.ValidFrameDecoder(CreateLengthFieldBasedFrameDecoder(c).params)
    ensures r.Failure? ==> r.error == OtherException("IllegalArgumentException")
    ensures r.Success? && configurer.None? ==> r.value == Pipeline(c, custom)
    ensures r.Success? && configurer.Some? ==> r.value == configurer.value(Pipeline(c, custom))
  {
    if !Codec.ValidFrameDecoder(CreateLengthFieldBasedFrameDecoder(c).params) then
      Failure(OtherException("IllegalArgumentException"))
    else
      var p := Pipeline(c, custom);
      match configurer
      case None => Success(p)
      case Some(configurePipeline) => Success(configurePipeline(p))
  }

  /**
    A length field of `Int.MIN_VALUE` is rejected whatever the other settings: the
    same value is the number of bytes to strip, and that may not be negative.
  */
  lemma MinLengthFieldConfigRejected(c: Config.ConnectorConfiguration, custom: seq<nat>,
                                     configurer: Option<seq<Entry> -> seq<Entry>>)
    requires c.frameLengthFieldLength == Codec.INT_MIN
    ensures InitChannel(c, custom, configurer) == Failure(OtherException("IllegalArgumentException"))
  {
    assert CreateLengthFieldBasedFrameDecoder(c).params.initialBytesToStrip < 0;
  }

  /** With the default configuration the pipeline is the three codec handlers, with a two-byte binary header. */
  lemma DefaultPipeline()
    ensures InitChannel(Config.Build(Config.NewBuilder), [], None)
         == Success([ Named("lengthFieldFrameDecoder", LengthFieldFrameDecoder(false, Codec.FrameDecoder(8192, 0, 2, 0, 2))),
                      Named("iso8583Decoder", Iso8583Decoder),
                      Named("iso8583Encoder", Iso8583Encoder(2, false)) ])
  {
    var c := Config.Build(Config.NewBuilder);
    assert c == Config.ConnectorConfiguration(false, 8192, 30, 0, false, false, true, [], true, 2, 0, 0, false);
    assert BuiltIn(c) == [ Named("lengthFieldFrameDecoder", LengthFieldFrameDecoder(false, Codec.FrameDecoder(8192, 0, 2, 0, 2))),
                           Named("iso8583Decoder", Iso8583Decoder),
                           Named("iso8583Encoder", Iso8583Encoder(2, false)) ];
    assert CustomEntries([]) == [];
    assert Pipeline(c, []) == BuiltIn(c);
    assert Codec.ValidFrameDecoder(CreateLengthFieldBasedFrameDecoder(c).params);
  }

  /**
    With a textual header, no offset and no adjustment, what the pipeline's encoder
    writes, its frame decoder cuts back out and its message decoder parses back into
    the message (given a j8583 parser that reads its own writer's output).
  */
  lemma PipelineRoundTrip(c: Config.ConnectorConfiguration, custom: seq<nat>, j: J8583, m: IsoMessage, rest: seq<Byte>)
    requires c.encodeFrameLengthAsString && c.frameLengthFieldOffset == 0 && c.frameLengthFieldAdjust == 0
    requires 1 <= c.frameLengthFieldLength && c.maxFrameLength <= Codec.INT_MAX
    requires |j.writeData(m)| < Pow(10, c.frameLengthFieldLength)
    requires c.frameLengthFieldLength + |j.writeData(m)| <= c.maxFrameLength
    requires j.parseMessage(j.writeData(m), 0) == Success(m)
    ensures var p := Pipeline(c, custom);
      var enc, dec := p[2].handler, p[0].handler;
      var out := Codec.Encode(j, m, enc.lengthHeaderLength, enc.encodeLengthHeaderAsString);
      && out.Success?
      && Codec.ValidFrameDecoder(dec.params)
      && var x := Codec.ExtractFrame(dec.params, out.value + rest);
         && x.Frame? && x.rest == rest
         && Codec.Decode(j, x.frame).out == if |j.writeData(m)| == 0 then Success([]) else Success([m])
  {
    var n := c.frameLengthFieldLength;
    assert Pipeline(c, custom)[0].handler.params == Codec.FrameDecoder(c.maxFrameLength, 0, n, 0, n);
    Codec.MessageRoundTrip(j, m, n, c.maxFrameLength, rest);
  }

  /** The encoder ignores the adjustment: with adjustment -1 the frame decoder cuts "0007MESSAGE" one byte short. */
  lemma AdjustedPipelineCutsShort(c: Config.ConnectorConfiguration)
    requires c.encodeFrameLengthAsString && c.maxFrameLength == 8192 && c.frameLengthFieldLength == 4
    requires c.frameLengthFieldOffset == 0 && c.frameLengthFieldAdjust == -1
    ensures Codec.ExtractFrame(Pipeline(c, [])[0].handler.params, AsciiEncode("0007MESSAGE"))
         == Codec.Frame(AsciiEncode("MESSAG"), AsciiEncode("E"))
  {
    Codec.AdjustmentBreaksRoundTrip();
  }

  /** The encoder ignores the offset: with offset 2 the frame decoder reads "07ME" as the length, and fails. */
  lemma OffsetPipelineRejects(c: Config.ConnectorConfiguration)
    requires c.encodeFrameLengthAsString && c.maxFrameLength == 8192 && c.frameLengthFieldLength == 4
    requires c.frameLengthFieldOffset == 2 && c.frameLengthFieldAdjust == 0
    ensures Codec.ExtractFrame(Pipeline(c, [])[0].handler.params, AsciiEncode("0007MESSAGE")).Failed?
  {
    var buf := AsciiEncode("0007MESSAGE");
    assert buf[4] == 'M' as int;
    Codec.NonNumericHeaderRejected(buf, 2, 4, 4);
  }
}
