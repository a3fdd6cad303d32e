# jreactive-8583 core, modelled in Dafny

This project models the connector core of jreactive-8583 (the Kotlin sources under
`src/main/kotlin`). It covers the following parts:

- **ISO 8583 message types.** The four enum "digits" of a message type indicator
  (MTI) and `MTI.mtiValue`.
- **Connector configuration.** `ConnectorConfiguration` and its builder, plus the
  client's reconnect interval.
- **Frame codec.** `Iso8583Encoder`, `StringLengthFieldBasedFrameDecoder` and
  `Iso8583Decoder`.
- **Pipeline.** The pipeline that `Iso8583ChannelInitializer` builds from a
  configuration.
- **Dispatch.** The listener walk of `CompositeIsoMessageHandler` and the listener
  registration of `AbstractIso8583Connector`.
- **Small handlers.** The echo listener, the idle handler and the parse-exception
  handler.
- **Logging.** The log rendering and masking of `IsoMessageLoggingHandler`.
- **Client.** The connect/disconnect/reconnect state machine of `Iso8583Client` and
  `ReconnectOnCloseListener`.

j8583 is not part of this model. Its message factory, parser, writers and response
builder are function values in the `Message.J8583` record, so every property holds
whatever j8583 does. Netty is modelled only where the code under study decides
something:

- channels are values with an `active` and a `writable` bit;
- context calls are recorded as actions;
- frame cutting by Netty's `LengthFieldBasedFrameDecoder` is an explicitly marked
  assumption (`Codec.ExtractFrame`).

Files and modules:

| file | module | models |
|---|---|---|
| wrappers.dfy | Wrappers | `Option`, `Result` |
| text.dfy | Text | `%0Nd`/`%04x` numerals, `String.toLong()`, the US-ASCII charset |
| iso.dfy | Iso | `ISO8583Version`, `MessageClass`, `MessageFunction`, `MessageOrigin`, `MTI` |
| message.dfy | Message | messages, exceptions, the j8583 collaborators, `J8583MessageFactory.newMessage` |
| listener.dfy | Listener | `IsoMessageListener` answers |
| config.dfy | Config | `ConnectorConfiguration`, `ClientConfiguration` |
| codec.dfy | Codec | encoder, string-header decoder, message decoder |
| handlers.dfy | Handlers | `EchoMessageListener`, `IdleEventHandler`, `ParseExceptionHandler` |
| dispatch.dfy | Dispatch | `CompositeIsoMessageHandler` |
| connector.dfy | Connector | `AbstractIso8583Connector` |
| logging.dfy | Logging | `IsoMessageLoggingHandler` |
| initializer.dfy | Initializer | `Iso8583ChannelInitializer` |
| client.dfy | Client | `Iso8583Client`, `ReconnectOnCloseListener` |

## Model

| member | source | states |
|---|---|---|
| Iso.MtiValue | src/main/kotlin/com/github/kpavlov/jreactive8583/iso/MTI.kt:13-18 | the MTI of any four components lies in 0x0100..0x9895 |
| Iso.DeclarationOrder | src/main/kotlin/com/github/kpavlov/jreactive8583/iso/MessageClass.kt:20-72 | in declaration order, the classes are 0x0100 to 0x0800 in steps of 0x0100; the functions are 0x00 to 0x90 in steps of 0x10; the origins are 0 to 5; the versions are 0x0000, 0x1000, 0x2000, 0x8000, 0x9000 |
| Iso.RepeatOrigins | src/main/kotlin/com/github/kpavlov/jreactive8583/iso/MessageOrigin.kt:11-36 | each `_REPEAT` origin is its base origin plus one |
| Iso.MtiDigits | src/main/kotlin/com/github/kpavlov/jreactive8583/iso/MTI.kt:13-18 | each hex digit of the MTI is the digit of the component that owns it |
| Iso.DigitsIdentifyComponents | src/main/kotlin/com/github/kpavlov/jreactive8583/iso/ISO8583Version.kt:24-49 | reading a component's own digit gives that component back, so each enum's values are pairwise distinct |
| Iso.MtiRoundTrip | src/main/kotlin/com/github/kpavlov/jreactive8583/iso/MTI.kt:13-18 | `Decompose` recovers the four components from their MTI |
| Iso.MtiInjective | src/main/kotlin/com/github/kpavlov/jreactive8583/iso/MTI.kt:13-18 | distinct component tuples never share an MTI |
| Iso.AdministrativeNotificationExample | src/test/java/com/github/kpavlov/jreactive8583/iso/MTITest.java:15-16 | 2003/administrative/notification/other is 0x2644 (0x1644 for 1993) |
| Iso.EchoRequestMti | src/main/kotlin/com/github/kpavlov/jreactive8583/iso/MTI.kt:13-18 | a network-management request from the acquirer is the version value plus 0x0800 |
| Iso.MtiIsBitwiseOr | src/main/kotlin/com/github/kpavlov/jreactive8583/iso/MTI.kt:13-18 | the MTI sum equals the bitwise OR of the four component values |
| Iso.LegacyVersionBreaksInjectivity | src/main/java/com/github/kpavlov/jreactive8583/iso/ISO8583Version.java:21-57 | with the superseded 0x0..0x9 version digits, 1993/authorization/request/acquirer collides with the 1987 acquirer-repeat MTI |
| Message.NewMessage | src/main/kotlin/com/github/kpavlov/jreactive8583/iso/J8583MessageFactory.kt:28-32 | the new message's type decomposes into the factory's version and the three given components |
| Message.SetValue | src/main/kotlin/com/github/kpavlov/jreactive8583/netty/pipeline/ParseExceptionHandler.kt:41-47 | setting a field stores the value, keeps the type and every other field, and adds exactly that field number |
| Text.ZeroPadded | src/main/kotlin/com/github/kpavlov/jreactive8583/netty/codec/Iso8583Encoder.kt:26 | `%0Nd` (in a locale whose digits are ASCII) gives only digits, and its length is the larger of N and the numeral's length |
| Text.ZeroPaddedValue | src/main/kotlin/com/github/kpavlov/jreactive8583/netty/codec/Iso8583Encoder.kt:26 | the zero-padded numeral reads back as the number, for every width |
| Text.ZeroPaddedValueIn | src/main/kotlin/com/github/kpavlov/jreactive8583/netty/pipeline/IsoMessageLoggingHandler.kt:96 | a zero-padded numeral in any base from 2 to 16 has only lower-case hexadecimal digits and reads back as its number in that base |
| Text.ZeroPaddedWidth | src/main/kotlin/com/github/kpavlov/jreactive8583/netty/codec/Iso8583Encoder.kt:26 | `%0Nd` has exactly N characters iff the number is below 10^N |
| Text.NumeralLength | src/main/kotlin/com/github/kpavlov/jreactive8583/netty/pipeline/IsoMessageLoggingHandler.kt:96 | a numeral in any base from 2 to 16 has at most k digits iff the number is below base^k |
| Text.NumeralValue | src/main/kotlin/com/github/kpavlov/jreactive8583/netty/codec/Iso8583Encoder.kt:26 | the decimal numeral of n reads back as n |
| Text.NumeralValueIn | src/main/kotlin/com/github/kpavlov/jreactive8583/netty/pipeline/IsoMessageLoggingHandler.kt:96 | the shortest numeral in any base from 2 to 16 reads back as the number in that base |
| Text.DecimalValueAgrees | src/main/kotlin/com/github/kpavlov/jreactive8583/netty/codec/Iso8583Encoder.kt:26 | on decimal digits the base-parametric reader agrees with the decimal one |
| Text.LeadingZerosValue | src/main/kotlin/com/github/kpavlov/jreactive8583/netty/codec/StringLengthFieldBasedFrameDecoder.kt:55 | zeros in front of a digit string never change its value |
| Text.LeadingZerosValueIn | src/main/kotlin/com/github/kpavlov/jreactive8583/netty/pipeline/IsoMessageLoggingHandler.kt:96 | leading zeros never change a numeral's value, in any base |
| Text.ParseLong | src/main/kotlin/com/github/kpavlov/jreactive8583/netty/codec/StringLengthFieldBasedFrameDecoder.kt:55 | `toLong()` succeeds only on an optional sign then digits, and a success is the signed value of those digits within the 64-bit range; every accepted form (plain, `+`, `-`) succeeds with that value, and any failure is `NumberFormatException` carrying the text |
| Text.ParseLongOverflow | src/main/kotlin/com/github/kpavlov/jreactive8583/netty/codec/StringLengthFieldBasedFrameDecoder.kt:55 | a well-formed numeral whose signed value lies outside the 64-bit range throws `NumberFormatException` carrying the text |
| Text.AsciiDecode | src/main/kotlin/com/github/kpavlov/jreactive8583/netty/codec/StringLengthFieldBasedFrameDecoder.kt:54 | US-ASCII decoding keeps the length; bytes below 0x80 map to that character, and other bytes map to U+FFFD |
| Text.AsciiEncode | src/main/kotlin/com/github/kpavlov/jreactive8583/netty/codec/Iso8583Encoder.kt:27 | US-ASCII encoding keeps the length; characters below 0x80 map to their code, and others map to '?' |
| Text.AsciiRoundTrip | src/main/kotlin/com/github/kpavlov/jreactive8583/netty/codec/Iso8583Encoder.kt:26-27 | ASCII text survives an encode/decode trip unchanged |
| Config.Apply | src/main/kotlin/com/github/kpavlov/jreactive8583/ConnectorConfiguration.kt:215-285 | after a builder setter, its own setting holds the argument |
| Config.ApplyOnlyOwnField | src/main/kotlin/com/github/kpavlov/jreactive8583/ConnectorConfiguration.kt:215-285 | a setter changes no setting but its own |
| Config.Build | src/main/kotlin/com/github/kpavlov/jreactive8583/ConnectorConfiguration.kt:180-194 | every setting of the built configuration, as its property or accessor reads it, equals the builder's |
| Config.DefaultConfiguration | src/main/kotlin/com/github/kpavlov/jreactive8583/ConnectorConfiguration.kt:198-210 | a fresh builder gives: idle timeout 30, max frame 8192, header length 2, offset 0, adjust 0, zero worker threads; echo, logging, reply-on-error and string header off; sensitive-data logging and field descriptions on; no masked fields |
| Config.BuildDeterminedBySettings | src/main/kotlin/com/github/kpavlov/jreactive8583/ConnectorConfiguration.kt:180-194 | builders with equal settings build equal configurations |
| Config.LastSetterWins | src/main/kotlin/com/github/kpavlov/jreactive8583/ConnectorConfiguration.kt:215-285 | of two calls to the same setter, only the second matters |
| Config.SettersCommute | src/main/kotlin/com/github/kpavlov/jreactive8583/ConnectorConfiguration.kt:215-285 | setters of different settings commute |
| Config.ApplyAllLastWriter | src/main/kotlin/com/github/kpavlov/jreactive8583/ConnectorConfiguration.kt:215-285 | after any chain of setters, each setting holds the argument of the last setter that wrote it, or its earlier value |
| Config.SetReconnectInterval | src/main/kotlin/com/github/kpavlov/jreactive8583/client/ClientConfiguration.kt:38-39 | `reconnectInterval(x)` sets the interval and leaves every base setting alone |
| Config.ApplyClient | src/main/kotlin/com/github/kpavlov/jreactive8583/client/ClientConfiguration.kt:34-36 | a base setter called on the client builder leaves the interval alone |
| Config.BuildClient | src/main/kotlin/com/github/kpavlov/jreactive8583/client/ClientConfiguration.kt:16-41 | the client configuration keeps the builder's interval and every base setting |
| Config.GetDefaultValues | src/main/kotlin/com/github/kpavlov/jreactive8583/client/ClientConfiguration.kt:23-30 | `getDefault()` has interval 100 and every base default |
| Codec.Encode | src/main/kotlin/com/github/kpavlov/jreactive8583/netty/codec/Iso8583Encoder.kt:18-35 | three branches: header length 0 writes the bare body; binary mode writes what `writeToBuffer` gives. String mode writes ASCII digits that read back as the body size, then the body unchanged; the header is exactly N bytes iff the size is below 10^N. A negative length in string mode fails: with `IllegalFormatWidthException(Int.MIN_VALUE)` when the width text overflows an `int`, otherwise with `IllegalFormatFlagsException("-0")` |
| Codec.GetUnadjustedFrameLength | src/main/kotlin/com/github/kpavlov/jreactive8583/netty/codec/StringLengthFieldBasedFrameDecoder.kt:44-56 | a negative length fails with negative-array-size, and an out-of-range window with index-out-of-bounds. A success means the window holds only ASCII digits (and maybe a leading sign), and the value fits a long (its value is `Codec.FrameLengthDenotes`). Any other failure is `NumberFormatException` carrying the window's text |
| Codec.DigitHeaderReads | src/main/kotlin/com/github/kpavlov/jreactive8583/netty/codec/StringLengthFieldBasedFrameDecoder.kt:51-55 | a digit header at the front of the buffer reads as the value of its digits |
| Codec.FrameLengthDenotes | src/main/kotlin/com/github/kpavlov/jreactive8583/netty/codec/StringLengthFieldBasedFrameDecoder.kt:44-56 | whatever the offset, a successful read is the signed value of the window's digits, so a numeral outside the 64-bit range never reads |
| Codec.DigitHeaderReadsAt | src/main/kotlin/com/github/kpavlov/jreactive8583/netty/codec/StringLengthFieldBasedFrameDecoder.kt:44-56 | a window of ASCII digits at any absolute offset reads as the value of those digits, whatever bytes surround it |
| Codec.OverflowHeaderRejected | src/main/kotlin/com/github/kpavlov/jreactive8583/netty/codec/StringLengthFieldBasedFrameDecoder.kt:44-56 | a window of ASCII digits at any offset whose value exceeds the 64-bit range fails with `NumberFormatException` carrying its text |
| Codec.HeaderRoundTrip | src/main/kotlin/com/github/kpavlov/jreactive8583/netty/codec/StringLengthFieldBasedFrameDecoder.kt:44-56 | a header written by the encoder reads back as the size it was written from |
| Codec.LeadingZerosIgnored | src/main/kotlin/com/github/kpavlov/jreactive8583/netty/codec/StringLengthFieldBasedFrameDecoder.kt:55 | zero padding never changes the announced length |
| Codec.NonNumericHeaderRejected | src/main/kotlin/com/github/kpavlov/jreactive8583/netty/codec/StringLengthFieldBasedFrameDecoder.kt:55 | a header byte that is neither a digit nor a leading sign makes the read fail with `NumberFormatException` |
| Codec.NettyChecksSuffice | src/main/kotlin/com/github/kpavlov/jreactive8583/netty/codec/StringLengthFieldBasedFrameDecoder.kt:31-43 | for `int` arguments, the decoder is accepted iff Netty's checks pass, with its `int` subtraction `maxFrameLength - lengthFieldLength` wrapping |
| Codec.MinLengthFieldRejected | src/main/kotlin/com/github/kpavlov/jreactive8583/netty/codec/StringLengthFieldBasedFrameDecoder.kt:31-43 | a length field of `Int.MIN_VALUE` makes that subtraction wrap negative, so the decoder is rejected |
| Codec.ExtractFrame | src/main/kotlin/com/github/kpavlov/jreactive8583/netty/codec/StringLengthFieldBasedFrameDecoder.kt:31-43 | ASSUMPTION about the superclass: a cut frame is no longer than the maximum, and the buffer is the stripped prefix, then the frame, then the remainder |
| Codec.StringFramingRoundTrip | src/main/kotlin/com/github/kpavlov/jreactive8583/netty/codec/Iso8583Encoder.kt:24-29 | with offset 0, adjust 0 and the header stripped, the decoder cuts out exactly the body, and the following bytes stay buffered |
| Codec.MessageTestVector | src/test/java/com/github/kpavlov/jreactive8583/netty/codec/StringLengthFieldBasedFrameDecoderTest.java:49-69 | the body "MESSAGE" with a 4-digit header encodes as "0007MESSAGE", whose header reads as 7 |
| Codec.AdjustmentBreaksRoundTrip | src/main/kotlin/com/github/kpavlov/jreactive8583/netty/codec/Iso8583Encoder.kt:25-26 | the encoder never applies the adjustment, so a decoder with adjustment -1 cuts "0007MESSAGE" one byte short |
| Codec.Decode | src/main/kotlin/com/github/kpavlov/jreactive8583/netty/codec/Iso8583Decoder.kt:31-43 | an empty buffer reads nothing, calls nothing and outputs nothing. Otherwise every byte is read and the parser is called exactly once, with header length 0. The output is exactly the parsed message, or the parser's exception with nothing output |
| Codec.MessageRoundTrip | src/main/kotlin/com/github/kpavlov/jreactive8583/netty/codec/Iso8583Decoder.kt:39-42 | end to end over a string header: given a parser that reads its own writer's output, a message comes back as itself (nothing at all if its body is empty) |
| Handlers.EchoOnMessage | src/main/kotlin/com/github/kpavlov/jreactive8583/netty/pipeline/EchoMessageListener.kt:23-27 | the echo listener writes exactly the factory's response and answers false |
| Handlers.EchoAppliesToMti | src/main/kotlin/com/github/kpavlov/jreactive8583/netty/pipeline/EchoMessageListener.kt:13-15 | among MTIs the bit-mask test accepts exactly the network-management class, in every version |
| Handlers.EchoApplies | src/main/kotlin/com/github/kpavlov/jreactive8583/netty/pipeline/EchoMessageListener.kt:13-15 | `type and 0x0800 != 0` holds exactly when the type's remainder modulo 0x1000 is at least 0x0800, that is when bit 11 of its two's-complement form is set, for negative types too |
| Handlers.EchoExamples | src/main/kotlin/com/github/kpavlov/jreactive8583/netty/pipeline/EchoMessageListener.kt:13-15 | 0x0800, 0x0810 and 0x1800 are accepted; 0x0200, 0x0210 and 0x1644 are not |
| Handlers.LegacyEchoMissesOtherVersions | src/main/java/org/jreactive/iso8583/netty/pipeline/EchoMessageListener.java:20-22 | the superseded exact-match test catches the echo request only for the 1987 edition; the mask catches every edition |
| Handlers.CreateEchoMessage | src/main/kotlin/com/github/kpavlov/jreactive8583/netty/pipeline/IdleEventHandler.kt:27-33 | the idle echo request's type is the version value plus 0x0800, which the echo listener accepts |
| Handlers.UserEventTriggered | src/main/kotlin/com/github/kpavlov/jreactive8583/netty/pipeline/IdleEventHandler.kt:17-25 | reader-idle and all-idle write exactly one echo request, then flush; writer-idle and other events write nothing; no event is passed on |
| Handlers.TruncateDetails | src/main/kotlin/com/github/kpavlov/jreactive8583/netty/pipeline/ParseExceptionHandler.kt:43-46 | details of at most 25 characters are kept; longer ones become their first 22 characters and "...", exactly 25 |
| Handlers.TruncateIdempotent | src/main/kotlin/com/github/kpavlov/jreactive8583/netty/pipeline/ParseExceptionHandler.kt:43-46 | truncating twice is truncating once |
| Handlers.CreateErrorResponseMessage | src/main/kotlin/com/github/kpavlov/jreactive8583/netty/pipeline/ParseExceptionHandler.kt:36-50 | the reply is administrative/notification/other, with 650 NUMERIC(3) in field 24. Field 44 holds the truncated details as LLVAR(25) iff details are included; other template fields are kept. A null message with details requested throws `NullPointerException` |
| Handlers.ErrorResponseType1993 | src/main/kotlin/com/github/kpavlov/jreactive8583/netty/pipeline/ParseExceptionHandler.kt:37-39 | with a 1993 factory the reply's type is 0x1644 |
| Handlers.ExceptionCaught | src/main/kotlin/com/github/kpavlov/jreactive8583/netty/pipeline/ParseExceptionHandler.kt:25-34 | exactly a parse failure writes one reply. Every cause is then passed on, unless building the reply threw |
| Handlers.LongDetailsScenario | src/test/java/com/github/kpavlov/jreactive8583/netty/pipeline/ParseExceptionHandlerTest.java:45-72 | a 36-character message gives a 0x1644 reply with 650 in field 24 and the first 22 characters plus "..." in field 44, then the cause is passed on |
| Dispatch.Caught | src/main/kotlin/com/github/kpavlov/jreactive8583/netty/pipeline/CompositeIsoMessageHandler.kt:72-81 | a caught throwable is rethrown iff failing fast or it is an `Error`; otherwise the walk goes on |
| Dispatch.HandleWithMessageListener | src/main/kotlin/com/github/kpavlov/jreactive8583/netty/pipeline/CompositeIsoMessageHandler.kt:58-82 | `onMessage` runs iff `applies` says true. The turn stops the walk without a throw iff `onMessage` answered false. A listener that does not apply lets the walk go on. Only fail-fast or an `Error` rethrows |
| Dispatch.Dispatch | src/main/kotlin/com/github/kpavlov/jreactive8583/netty/pipeline/CompositeIsoMessageHandler.kt:38-56 | the listeners visited are a prefix of the list, in list order |
| Dispatch.DispatchCharacterized | src/main/kotlin/com/github/kpavlov/jreactive8583/netty/pipeline/CompositeIsoMessageHandler.kt:38-82 | the walk in closed form. Every visited listener but the last lets it go on, and it stops early only because the last one did not. `onMessage` ran exactly for the visited listeners that apply. The writes are theirs, in order, and a rethrow is exactly the last turn's throw |
| Dispatch.DispatchVisits | src/main/kotlin/com/github/kpavlov/jreactive8583/netty/pipeline/CompositeIsoMessageHandler.kt:38-82 | the walk visits no listener iff there are none; every visited listener but the last lets it go on; it stops early only at a listener that does not; `onMessage` ran exactly for the visited listeners that apply |
| Dispatch.DispatchWrites | src/main/kotlin/com/github/kpavlov/jreactive8583/netty/pipeline/CompositeIsoMessageHandler.kt:38-70 | the walk's writes are those of the visited listeners' turns, in list order |
| Dispatch.DispatchStatus | src/main/kotlin/com/github/kpavlov/jreactive8583/netty/pipeline/CompositeIsoMessageHandler.kt:72-81 | the walk rethrows iff the last visited listener's turn threw, and then rethrows exactly that throwable |
| Dispatch.DoHandleMessage | src/main/kotlin/com/github/kpavlov/jreactive8583/netty/pipeline/CompositeIsoMessageHandler.kt:38-56 | while no other thread changes the list, the `while` loop with its early exit computes the same trace as the recursive walk |
| Dispatch.LiveDispatch | src/main/kotlin/com/github/kpavlov/jreactive8583/netty/pipeline/CompositeIsoMessageHandler.kt:38-56 | the loop as written when the list may change between turns: the size is read once, so the walk makes at most that many turns. An index past the live list's end throws whatever `failOnError` says |
| Dispatch.LiveDispatchVisits | src/main/kotlin/com/github/kpavlov/jreactive8583/netty/pipeline/CompositeIsoMessageHandler.kt:38-56 | turn n visits whatever sat at index n of the list as it was at that turn |
| Dispatch.LiveDispatchStable | src/main/kotlin/com/github/kpavlov/jreactive8583/netty/pipeline/CompositeIsoMessageHandler.kt:38-56 | while nobody changes the list, indexing the live list is exactly the walk over it |
| Dispatch.ConcurrentRemovalSkipsAndEscapes | src/main/kotlin/com/github/kpavlov/jreactive8583/netty/pipeline/CompositeIsoMessageHandler.kt:40-43 | as written, removing the first of three listeners after its turn means the second is never offered the message. The third turn then indexes past the end, and that exception escapes a fail-safe handler |
| Dispatch.SnapshotDispatch | src/main/kotlin/com/github/kpavlov/jreactive8583/netty/pipeline/CompositeIsoMessageHandler.kt:20 | corrected: the walk over the copy-on-write snapshot taken at the start visits only listeners of that snapshot, in its order |
| Dispatch.SnapshotSurvivesConcurrentRemoval | src/main/kotlin/com/github/kpavlov/jreactive8583/netty/pipeline/CompositeIsoMessageHandler.kt:20 | corrected, same interleaving: all three listeners are offered the message and the walk completes |
| Dispatch.SnapshotFailSafe | src/main/kotlin/com/github/kpavlov/jreactive8583/netty/pipeline/CompositeIsoMessageHandler.kt:72-81 | corrected: in fail-safe mode nothing but an `Error` escapes, however the list changes |
| Dispatch.ChannelRead | src/main/kotlin/com/github/kpavlov/jreactive8583/netty/pipeline/CompositeIsoMessageHandler.kt:23-36 | a non-ISO object is passed on untouched. An ISO message is dispatched, and passed on iff the dispatch did not rethrow |
| Dispatch.AddListener | src/main/kotlin/com/github/kpavlov/jreactive8583/netty/pipeline/CompositeIsoMessageHandler.kt:84-86 | the listener is appended and the earlier ones keep their places |
| Dispatch.AddListeners | src/main/kotlin/com/github/kpavlov/jreactive8583/netty/pipeline/CompositeIsoMessageHandler.kt:88-93 | the listeners are appended in argument order |
| Dispatch.RemoveListener | src/main/kotlin/com/github/kpavlov/jreactive8583/netty/pipeline/CompositeIsoMessageHandler.kt:95-97 | only the first entry with that identity is dropped, and the rest keep their order; an unknown listener changes nothing |
| Dispatch.RemoveListenerCount | src/main/kotlin/com/github/kpavlov/jreactive8583/netty/pipeline/CompositeIsoMessageHandler.kt:95-97 | removal takes away one registration of that listener, if any, and none of any other |
| Dispatch.RemovedNeverVisited | src/main/kotlin/com/github/kpavlov/jreactive8583/netty/pipeline/CompositeIsoMessageHandler.kt:95-97 | a listener registered at most once is never visited after its removal |
| Dispatch.RemoveScenario | src/test/java/com/github/kpavlov/jreactive8583/netty/pipeline/CompositeIsoMessageHandlerTest.kt:37-53 | after the second of three listeners is removed, the first and third handle the message |
| Dispatch.AppropriateHandlerScenario | src/test/java/com/github/kpavlov/jreactive8583/netty/pipeline/CompositeIsoMessageHandlerTest.kt:55-71 | only the listener that applies has `onMessage` called |
| Dispatch.StopProcessingScenario | src/test/java/com/github/kpavlov/jreactive8583/netty/pipeline/CompositeIsoMessageHandlerTest.kt:73-89 | a listener answering false keeps the third from being visited |
| Dispatch.FailSafeScenario | src/test/java/com/github/kpavlov/jreactive8583/netty/pipeline/CompositeIsoMessageHandlerTest.kt:91-109 | fail-safe: a throwing `applies` is skipped and the third listener still runs |
| Dispatch.FailFastScenario | src/main/kotlin/com/github/kpavlov/jreactive8583/netty/pipeline/CompositeIsoMessageHandler.kt:77-79 | fail-fast: the same throw ends the walk, is rethrown, and the message is not passed on |
| Dispatch.FailSafeRethrowsOnlyErrors | src/main/kotlin/com/github/kpavlov/jreactive8583/netty/pipeline/CompositeIsoMessageHandler.kt:72-81 | in fail-safe mode only an `Error` can end a dispatch with a throw |
| Dispatch.FailFastStopsAtThrow | src/main/kotlin/com/github/kpavlov/jreactive8583/netty/pipeline/CompositeIsoMessageHandler.kt:63-81 | in fail-fast mode a reached listener whose `applies` throws is the last one visited, and its exception is rethrown |
| Connector.NewConnector | src/main/kotlin/com/github/kpavlov/jreactive8583/AbstractIso8583Connector.kt:102-107 | the handler's `failOnError` mode and listeners are kept, and one echo listener is appended after the listeners iff the configuration asks for it |
| Connector.AddMessageListener | src/main/kotlin/com/github/kpavlov/jreactive8583/AbstractIso8583Connector.kt:41-43 | the listener is appended to the shared handler |
| Connector.RemoveMessageListener | src/main/kotlin/com/github/kpavlov/jreactive8583/AbstractIso8583Connector.kt:45-47 | one registration of that listener goes, and every other listener's count is kept |
| Connector.AddThenRemove | src/main/kotlin/com/github/kpavlov/jreactive8583/AbstractIso8583Connector.kt:41-47 | removing a newly added listener restores the connector |
| Connector.EchoShieldsUserListeners | src/main/kotlin/com/github/kpavlov/jreactive8583/AbstractIso8583Connector.kt:102-107 | with the echo listener configured, a message it accepts is answered with the factory's response and no user listener is visited |
| Connector.NoEchoWithoutFlag | src/main/kotlin/com/github/kpavlov/jreactive8583/AbstractIso8583Connector.kt:102-107 | without the flag, a fresh connector visits no listener and writes nothing |
| Connector.RemovedListenerNeverInvoked | src/main/kotlin/com/github/kpavlov/jreactive8583/AbstractIso8583Connector.kt:45-47 | a listener added once and removed is never visited afterwards |
| Connector.TwiceAddedOnceRemoved | src/main/kotlin/com/github/kpavlov/jreactive8583/AbstractIso8583Connector.kt:45-47 | a listener added twice and removed once still handles the next message |
| Logging.MaskPan | src/main/kotlin/com/github/kpavlov/jreactive8583/netty/pipeline/IsoMessageLoggingHandler.kt:125-131 | length is kept. Positions from 6 up to four before the end become '*' and all others are kept, so a PAN of at most 10 characters is unchanged |
| Logging.MaskPanLoop | src/main/kotlin/com/github/kpavlov/jreactive8583/netty/pipeline/IsoMessageLoggingHandler.kt:125-131 | the in-place loop computes the masked PAN |
| Logging.MaskPanIdempotent | src/main/kotlin/com/github/kpavlov/jreactive8583/netty/pipeline/IsoMessageLoggingHandler.kt:125-131 | masking a masked PAN changes nothing |
| Logging.MaskPanRevealsAtMostTen | src/main/kotlin/com/github/kpavlov/jreactive8583/netty/pipeline/IsoMessageLoggingHandler.kt:125-131 | a masked PAN shows at most ten characters |
| Logging.GetFormattedValue | src/main/kotlin/com/github/kpavlov/jreactive8583/netty/pipeline/IsoMessageLoggingHandler.kt:113-123 | with sensitive data on, the text as is. Otherwise field 2 is masked with its length kept, listed fields become "***", and others are unchanged |
| Logging.SecureModeHidesSensitiveFields | src/main/kotlin/com/github/kpavlov/jreactive8583/netty/pipeline/IsoMessageLoggingHandler.kt:113-123 | in secure mode a sensitive field shows at most ten characters, and a listed non-PAN field shows none |
| Logging.DefaultMasking | src/main/kotlin/com/github/kpavlov/jreactive8583/netty/pipeline/IsoMessageLoggingHandler.kt:34-39 | the default list hides every field it names: the extended PAN (34) and tracks 1-3 (45, 35, 36); it leaves field 112 in clear; with an empty list only the PAN is masked |
| Logging.MtiHex | src/main/kotlin/com/github/kpavlov/jreactive8583/netty/pipeline/IsoMessageLoggingHandler.kt:96 | `%04x` writes at least four digits; what they read back as is `Logging.MtiHexValue` |
| Logging.MtiHexValue | src/main/kotlin/com/github/kpavlov/jreactive8583/netty/pipeline/IsoMessageLoggingHandler.kt:96 | for every type, `%04x` writes only lower-case hexadecimal digits, and they read back in base 16 as the type modulo 2^32 (its 32-bit two's-complement value) |
| Logging.MtiHexWidth | src/main/kotlin/com/github/kpavlov/jreactive8583/netty/pipeline/IsoMessageLoggingHandler.kt:96 | a type from 0 to 0xffff is written with exactly four digits |
| Logging.MtiHexExamples | src/main/kotlin/com/github/kpavlov/jreactive8583/netty/pipeline/IsoMessageLoggingHandler.kt:96 | 0x0200 is written "0200" and 0x1644 "1644" |
| Logging.Header | src/main/kotlin/com/github/kpavlov/jreactive8583/netty/pipeline/IsoMessageLoggingHandler.kt:91-96 | the log text starts with "Message: " iff sensitive data may be printed, and its head always ends with "MTI: 0x" and the type's `%04x` |
| Logging.ListedFields | src/main/kotlin/com/github/kpavlov/jreactive8583/netty/pipeline/IsoMessageLoggingHandler.kt:97-98 | the fields listed are exactly the present fields from 2 to 127, ascending |
| Logging.FormatIsoMessage | src/main/kotlin/com/github/kpavlov/jreactive8583/netty/pipeline/IsoMessageLoggingHandler.kt:91-111 | the text is the header, then one line per listed field, in order |
| Logging.FormatFields | src/main/kotlin/com/github/kpavlov/jreactive8583/netty/pipeline/IsoMessageLoggingHandler.kt:97-109 | the loop over 2..127 produces exactly the lines of the present fields |
| Logging.AppendField | src/main/kotlin/com/github/kpavlov/jreactive8583/netty/pipeline/IsoMessageLoggingHandler.kt:100-107 | the appends for one present field make up that field's line |
| Logging.DescriptionOnlyWhenAsked | src/main/kotlin/com/github/kpavlov/jreactive8583/netty/pipeline/IsoMessageLoggingHandler.kt:101-103 | a field line with descriptions is the line without them plus the description and ':' after the opening bracket |
| Logging.DebugStringOnlyWhenSensitive | src/main/kotlin/com/github/kpavlov/jreactive8583/netty/pipeline/IsoMessageLoggingHandler.kt:93-96 | the unmasked debug string heads the text only when sensitive data is printed; otherwise the text starts with "MTI: 0x" |
| Initializer.CreateLengthFieldBasedFrameDecoder | src/main/kotlin/com/github/kpavlov/jreactive8583/netty/pipeline/Iso8583ChannelInitializer.kt:118-137 | the string variant iff the header is text; both get max frame, offset, length, adjust, and strip the header's length |
| Initializer.CreateIso8583Encoder | src/main/kotlin/com/github/kpavlov/jreactive8583/netty/pipeline/Iso8583ChannelInitializer.kt:100-104 | the encoder gets only the header length and format |
| Initializer.CustomEntries | src/main/kotlin/com/github/kpavlov/jreactive8583/netty/pipeline/Iso8583ChannelInitializer.kt:90-91 | one unnamed entry per custom handler, in the given order |
| Initializer.BuiltInNames | src/main/kotlin/com/github/kpavlov/jreactive8583/netty/pipeline/Iso8583ChannelInitializer.kt:64-89 | the built-in names for each combination of the three flags, in order |
| Initializer.BuiltInMembership | src/main/kotlin/com/github/kpavlov/jreactive8583/netty/pipeline/Iso8583ChannelInitializer.kt:72-89 | each optional name is present iff its flag is set |
| Initializer.Pipeline | src/main/kotlin/com/github/kpavlov/jreactive8583/netty/pipeline/Iso8583ChannelInitializer.kt:64-91 | frame decoder, decoder and encoder first. "logging" iff logging is on; "replyOnError" iff replies are on, always with details. "idleState", all-idle with the timeout, iff echo is on, directly followed by "idleEventHandler". Custom handlers last, in order; names distinct |
| Initializer.InitChannel | src/main/kotlin/com/github/kpavlov/jreactive8583/netty/pipeline/Iso8583ChannelInitializer.kt:64-93 | it fails with `IllegalArgumentException` iff the frame decoder's arguments are invalid; otherwise it builds the pipeline and then applies the configurer's hook, if any |
| Initializer.MinLengthFieldConfigRejected | src/main/kotlin/com/github/kpavlov/jreactive8583/netty/pipeline/Iso8583ChannelInitializer.kt:118-137 | a length field of `Int.MIN_VALUE` is rejected whatever the other settings, because it is also the (negative) strip count |
| Initializer.DefaultSensitiveFieldsMaskNothing | src/main/kotlin/com/github/kpavlov/jreactive8583/netty/pipeline/Iso8583ChannelInitializer.kt:110-116 | as written, a configuration naming no sensitive fields logs every field but the PAN in clear in secure mode |
| Initializer.CreateLoggingHandler | src/main/kotlin/com/github/kpavlov/jreactive8583/netty/pipeline/Iso8583ChannelInitializer.kt:110-116 | as written: the logging handler gets the configured sensitive-data flag, field-description flag and sensitive-field list unchanged, an empty list included |
| Initializer.CreateLoggingHandlerCorrected | src/main/kotlin/com/github/kpavlov/jreactive8583/netty/pipeline/Iso8583ChannelInitializer.kt:110-116 | corrected: the logging settings are passed through, except that an empty sensitive-field list becomes the handler's default list |
| Initializer.CorrectedDefaultHidesTracks | src/main/kotlin/com/github/kpavlov/jreactive8583/netty/pipeline/Iso8583ChannelInitializer.kt:110-116 | corrected: in secure mode, with no sensitive fields configured, fields 34, 35, 36 and 45 reveal no character |
| Initializer.DefaultPipeline | src/main/kotlin/com/github/kpavlov/jreactive8583/netty/pipeline/Iso8583ChannelInitializer.kt:64-71 | the default configuration gives just the three codec handlers, with a 2-byte binary header |
| Initializer.PipelineRoundTrip | src/main/kotlin/com/github/kpavlov/jreactive8583/netty/pipeline/Iso8583ChannelInitializer.kt:100-137 | with a text header, offset 0 and adjust 0, the pipeline's own encoder and decoders return the message |
| Initializer.AdjustedPipelineCutsShort | src/main/kotlin/com/github/kpavlov/jreactive8583/netty/pipeline/Iso8583ChannelInitializer.kt:100-137 | a configured adjustment of -1 makes the pipeline's decoder cut its encoder's frame one byte short |
| Initializer.OffsetPipelineRejects | src/main/kotlin/com/github/kpavlov/jreactive8583/netty/pipeline/Iso8583ChannelInitializer.kt:100-137 | a configured offset of 2 makes the pipeline's decoder reject its encoder's frame |
| Client.NewClient | src/main/kotlin/com/github/kpavlov/jreactive8583/client/Iso8583Client.kt:108-112 | the listener takes the configured interval, with the flag clear, and there is no channel, pending task or write |
| Client.RequestReconnect | src/main/kotlin/com/github/kpavlov/jreactive8583/netty/pipeline/ReconnectOnCloseListener.kt:19-21 | the flag is clear afterwards and the interval kept |
| Client.RequestDisconnect | src/main/kotlin/com/github/kpavlov/jreactive8583/netty/pipeline/ReconnectOnCloseListener.kt:23-25 | the flag is set afterwards and the interval kept |
| Client.RequestsOverwrite | src/main/kotlin/com/github/kpavlov/jreactive8583/netty/pipeline/ReconnectOnCloseListener.kt:18-25 | the last request wins whatever came before |
| Client.ScheduleReconnect | src/main/kotlin/com/github/kpavlov/jreactive8583/netty/pipeline/ReconnectOnCloseListener.kt:34-42 | with the flag clear one task due after the interval is appended; with it set nothing is. The flag and everything else is unchanged |
| Client.ScheduleNotDeduplicated | src/main/kotlin/com/github/kpavlov/jreactive8583/netty/pipeline/ReconnectOnCloseListener.kt:34-42 | two calls with the flag clear leave two more tasks |
| Client.OperationComplete | src/main/kotlin/com/github/kpavlov/jreactive8583/netty/pipeline/ReconnectOnCloseListener.kt:27-32 | the closed channel is disconnected (the client's channel, if it is that one, becomes inactive and unwritable), then one task is added iff the flag is clear |
| Client.ConnectAsync | src/main/kotlin/com/github/kpavlov/jreactive8583/client/Iso8583Client.kt:73-77 | the flag is cleared and one connect attempt starts; the channel and tasks are unchanged |
| Client.OnConnectComplete | src/main/kotlin/com/github/kpavlov/jreactive8583/client/Iso8583Client.kt:78-88 | a failed attempt schedules a reconnect and keeps the channel; a success makes the new channel current and watches its close |
| Client.DisconnectAsync | src/main/kotlin/com/github/kpavlov/jreactive8583/client/Iso8583Client.kt:116-121 | the flag is set, and the current channel (none: null) is the one asked to close |
| Client.SendAsync | src/main/kotlin/com/github/kpavlov/jreactive8583/client/Iso8583Client.kt:134-138 | fails with `IllegalStateException("Channel is not writable")` iff there is no channel or it is not writable; otherwise writes exactly that message and changes nothing else |
| Client.ConnectedIffActiveChannel | src/main/kotlin/com/github/kpavlov/jreactive8583/client/Iso8583Client.kt:156-160 | connected iff the channel is present and active, as after a successful connect |
| Client.IsConnected | src/main/kotlin/com/github/kpavlov/jreactive8583/client/Iso8583Client.kt:156-160 | `isConnected`: the client holds a channel and it is active; the characterisation is `Client.ConnectedIffActiveChannel` |
| Client.ClosedChannelIsDead | src/main/kotlin/com/github/kpavlov/jreactive8583/netty/pipeline/ReconnectOnCloseListener.kt:27-32 | once its channel closed, the client is not connected and cannot send |
| Client.DisconnectThenCloseSchedulesNothing | src/main/kotlin/com/github/kpavlov/jreactive8583/client/Iso8583Client.kt:116-121 | after `disconnectAsync`, the close of its channel schedules no reconnect |
| Client.FireReconnect | src/main/kotlin/com/github/kpavlov/jreactive8583/netty/pipeline/ReconnectOnCloseListener.kt:37-40 | a due task runs `connectAsync`, whatever the flag |
| Client.DisconnectLosesToPendingReconnect | src/main/kotlin/com/github/kpavlov/jreactive8583/client/Iso8583Client.kt:73-77 | as written, a task pending at `disconnectAsync` clears the flag and starts a connect when it fires, and a success reconnects the client |
| Client.FireReconnectGuarded | src/main/kotlin/com/github/kpavlov/jreactive8583/netty/pipeline/ReconnectOnCloseListener.kt:34-42 | corrected: a due task is dropped when a disconnect was requested, and otherwise runs as written |
| Client.DisconnectWins | src/main/kotlin/com/github/kpavlov/jreactive8583/netty/pipeline/ReconnectOnCloseListener.kt:34-42 | corrected: after a disconnect, no sequence of events clears the flag, starts a connect or adds a task |
| Client.GuardedAgreesWhileReconnecting | src/main/kotlin/com/github/kpavlov/jreactive8583/netty/pipeline/ReconnectOnCloseListener.kt:34-42 | with the flag clear the correction changes no step |

## Left out

- Netty transport and lifecycle: bootstraps, event-loop groups, `init`, `shutdown`, `connect`/`send`/`disconnect` that wait on futures, and `Iso8583Server`. These are I/O; channels are values with `active` and `writable` bits, and the outcome of a connect or close is an event the caller supplies.
- Codec.ExtractFrame: Netty's `LengthFieldBasedFrameDecoder` is library code outside this repository. Its frame cutting and constructor checks are stated as an assumption. Buffer accumulation and the discard mode after an over-long frame are not modelled.
- Codec.Encode: the binary-header branch is j8583's `writeToBuffer`, an uninterpreted function here, and so is Netty's binary length reader; only the text header is modelled byte by byte.
- j8583: parsing, writing, `createResponse`, `debugString` and the message templates are function values. Only the rule that `newMessage(class, function, origin)` gets type `mtiValue(version, …)` is modelled.
- Concurrency: atomics (`AtomicBoolean`, `AtomicReference`), scheduler delays and thread interleavings in general are not modelled. The model is sequential, and reconnect tasks are a queue that fires in scheduling order rather than on a clock. The one interleaving modelled is a change to the listener list during a walk (`Dispatch.LiveDispatch`). `doHandleMessage` reads the list's size once and then indexes the live list, so it does not iterate a snapshot; see Findings.
- Field descriptions: loading `iso8583fields.properties` is I/O, so the descriptions are a lookup passed in.
- The `DecoderException` that Netty's `ByteToMessageDecoder` wraps around a parser exception is not modelled: `ParseExceptionHandler` is given the cause as it arrives.
- The names Netty generates for custom handlers are left out; those entries carry no name.
- The configurer's hooks (`configurePipeline`, `configureBootstrap`) are arbitrary functions applied to the result.
- The superseded Java copies and the `org.jreactive` package are used only for the contrast lemmas (`Iso.LegacyVersionBreaksInjectivity`, `Handlers.LegacyEchoMissesOtherVersions`).
- Client.ScheduleReconnect: the code does not merge pending reconnect tasks, and this model follows the code.
- Kotlin `Int` settings are unbounded integers here; every setter takes an `Int`, so no stored value can overflow. `%04x` on a negative type is modelled by its 32-bit two's-complement value. Netty's constructor subtraction `maxFrameLength - lengthFieldLength` wraps as an `int` does (`Codec.ValidFrameDecoder`). Every other derived sum is left unbounded: for `int` arguments that pass that check, `lengthFieldOffset + lengthFieldLength` stays within `int` range (`Codec.NettyChecksSuffice`).
- Handlers.TruncateDetails: Kotlin's `length` and `substring` count UTF-16 code units, and a Dafny string counts Unicode scalar values. The 25-character limit and the 22-character cut are counted in scalar values here. For text outside the Basic Multilingual Plane the source may cut earlier, or split a surrogate pair, and the model cannot represent that.
- Logging.MaskPan: positions and the PAN's length are counted in Unicode scalar values, while `toCharArray()` counts UTF-16 code units. The two agree on the ASCII digits a PAN holds.
- Codec.Encode: `String.format` writes `%d` in the JVM's default locale. The model assumes a locale whose digits are ASCII '0' to '9', as the rows for `Text.ZeroPadded` and `Codec.Encode` say. In a locale with other digits, US-ASCII encoding turns the header into '?' bytes and the peer's decoder rejects it.
- Text.ZeroPadded: the same ASCII-digit locale assumption as `Codec.Encode`.

## Findings

| source | as written | input that shows it | evidently intended | confidence | as-written member | corrected member |
|---|---|---|---|---|---|---|
| src/main/kotlin/com/github/kpavlov/jreactive8583/client/Iso8583Client.kt:76 | the reconnect task scheduled by `ReconnectOnCloseListener` calls `connectAsync`, which clears `disconnectRequested` unconditionally | a connected client's channel closes (one reconnect task pending), then `disconnectAsync` is called, then the task fires and the connect succeeds: the client is connected again | a disconnect requested after a reconnect was scheduled cancels that reconnect | medium; not executed | Client.DisconnectLosesToPendingReconnect | Client.DisconnectWins |
| src/main/kotlin/com/github/kpavlov/jreactive8583/netty/pipeline/CompositeIsoMessageHandler.kt:40-43 | `doHandleMessage` reads `messageListeners.size` once and then reads `messageListeners[i]` from the live list on every turn, outside the `try` | fail-safe handler with listeners 1, 2, 3 that all handle the message; another thread removes listener 1 after its turn. Listener 2 is never offered the message, and turn 3 throws `IndexOutOfBoundsException` out of the handler | the walk iterates the copy-on-write snapshot taken when it starts, so concurrent registration changes neither which listeners are offered the message nor what can escape | medium; not executed | Dispatch.ConcurrentRemovalSkipsAndEscapes | Dispatch.SnapshotSurvivesConcurrentRemoval |
| src/main/kotlin/com/github/kpavlov/jreactive8583/ConnectorConfiguration.kt:206 | the builder's default `sensitiveDataFields` is an empty array, and `createLoggingHandler` passes it on, replacing the handler's own default list | the default configuration with logging on and sensitive-data logging off: tracks 1-3 (fields 45, 35, 36) and field 34 appear in clear in the log | a configuration that names no sensitive fields masks the default ones, as the property's documentation promises for the absent value (ConnectorConfiguration.kt:76), and as the Java predecessor's constructor does (src/main/java/com/github/kpavlov/jreactive8583/netty/pipeline/IsoMessageLoggingHandler.java:57) | medium; not executed | Initializer.DefaultSensitiveFieldsMaskNothing | Initializer.CorrectedDefaultHidesTracks |
