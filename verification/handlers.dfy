/**
  The three small pipeline handlers: `EchoMessageListener` (answers network
  management messages), `IdleEventHandler` (sends an echo request when the
  channel has been idle) and `ParseExceptionHandler` (answers an unparseable
  message with an administrative notification).

  What a handler does to its `ChannelHandlerContext` is a sequence of `CtxAction`s.
*/
module Handlers {
  import opened Wrappers
  import opened Message
  import opened Listener
  import Iso

  /** The context calls these handlers make. */
  datatype CtxAction =
    | Write(msg: IsoMessage)
    | Flush
    | WriteAndFlush(msg: IsoMessage)
    | FireExceptionCaught(cause: Throwable)
    | FireUserEventTriggered(event: UserEvent)

  /** Netty's `IdleState`. */
  datatype IdleState = ReaderIdle | WriterIdle | AllIdle

  /** A user event: an `IdleStateEvent`, or any other object. */
  datatype UserEvent = IdleStateEvent(state: IdleState) | OtherEvent(name: string)

  /** The messages written, in order, by a sequence of context calls. */
  function Written(actions: seq<CtxAction>): seq<IsoMessage> {
    if |actions| == 0 then []
    else
      var w := Written(actions[..|actions| - 1]);
      match actions[|actions| - 1]
      case Write(m) => w + [m]
      case WriteAndFlush(m) => w + [m]
      case _ => w
  }

  // ---------------------------------------------------------------------------
  // EchoMessageListener

  /**
    `EchoMessageListener.applies`: `type and 0x0800 != 0`, the bit of the 32-bit message
    type worth 0x0800. With floor division that bit is `(t / 0x800) % 2`, for negative
    types as well.
  */
  function EchoApplies(t: int): (r: bool)
    ensures r <==> t % 0x1000 >= 0x0800
  {
    (t / 0x0800) % 2 == 1
  }

  /** `EchoMessageListener.onMessage`: writes the factory's response to the request, and stops the chain. */
  function EchoOnMessage(j: J8583, m: IsoMessage): (r: Reply)
    ensures r.answer == False
    ensures |r.writes| == 1 && r.writes[0] == j.createResponse(m)
  {
    Reply([j.createResponse(m)], False)
  }

  /** Dividing off the thousands digits leaves two bits' worth of quotient per thousand. */
  lemma DivSplit(a: int, rem: int)
    requires 0 <= rem
    ensures (a * 0x1000 + rem) / 0x0800 == 2 * a + rem / 0x0800
  {
    var q, s := rem / 0x0800, rem % 0x0800;
    assert rem == 0x0800 * q + s;
    assert a * 0x1000 + rem == 0x0800 * (2 * a + q) + s;
  }

  /** Among MTIs, the echo listener takes exactly the network-management class, whatever the version, function or origin. */
  lemma EchoAppliesToMti(v: Iso.Version, c: Iso.MessageClass, f: Iso.MessageFunction, o: Iso.MessageOrigin)
    ensures EchoApplies(Iso.MtiValue(v, c, f, o)) <==> c == Iso.NetworkManagement
  {
    var a := v.Value() / 0x1000;
    var rem := c.Value() + f.Value() + o.Value();
    assert Iso.MtiValue(v, c, f, o) == a * 0x1000 + rem;
    DivSplit(a, rem);
    assert rem / 0x0800 == if c == Iso.NetworkManagement then 1 else 0;
  }

  /** The message types the echo listener is documented to take and to leave alone. */
  lemma EchoExamples()
    ensures EchoApplies(0x0800) && EchoApplies(0x0810) && EchoApplies(0x1800)
    ensures !EchoApplies(0x0200) && !EchoApplies(0x0210) && !EchoApplies(0x1644)
  {
  }

  /** The superseded Java listener's test: the exact type 0x0800. */
  predicate LegacyEchoApplies(t: int) {
    t == 0x0800
  }

  /** The exact test misses an echo request of any edition other than 1987, which the mask catches. */
  lemma LegacyEchoMissesOtherVersions(v: Iso.Version)
    ensures var t := Iso.MtiValue(v, Iso.NetworkManagement, Iso.Request, Iso.Acquirer);
      EchoApplies(t) && (LegacyEchoApplies(t) <==> v == Iso.V1987)
  {
    EchoAppliesToMti(v, Iso.NetworkManagement, Iso.Request, Iso.Acquirer);
  }

  // ---------------------------------------------------------------------------
  // IdleEventHandler

  /** `IdleEventHandler.createEchoMessage`: a network-management request from the acquirer. */
  function CreateEchoMessage(j: J8583): (m: IsoMessage)
    ensures m.msgType == j.version.Value() + 0x0800
    ensures EchoApplies(m.msgType)
  {
    Iso.EchoRequestMti(j.version);
    EchoAppliesToMti(j.version, Iso.NetworkManagement, Iso.Request, Iso.Acquirer);
    NewMessage(j, Iso.NetworkManagement, Iso.Request, Iso.Acquirer)
  }

  /**
    `IdleEventHandler.userEventTriggered`: on reader-idle or all-idle, writes an echo
    request and flushes. The event is never passed on to the next handler.
  */
  function UserEventTriggered(j: J8583, event: UserEvent): (actions: seq<CtxAction>)
    ensures forall i :: 0 <= i < |actions| ==> !actions[i].FireUserEventTriggered?
    ensures Written(actions) == if event == IdleStateEvent(ReaderIdle) || event == IdleStateEvent(AllIdle)
                                then [CreateEchoMessage(j)] else []
    ensures 0 < |actions| ==> actions[|actions| - 1] == Flush
  {
    match event
    case IdleStateEvent(state) =>
      if state == ReaderIdle || state == AllIdle then
        var actions := [Write(CreateEchoMessage(j)), Flush];
        assert actions[..1] == [Write(CreateEchoMessage(j))];
        assert Written(actions[..1]) == [CreateEchoMessage(j)] by {
          assert actions[..1][..0] == [];
        }
        actions
      else []
    case OtherEvent(_) => []
  }

  // ---------------------------------------------------------------------------
  // ParseExceptionHandler

  const MAX_DETAILS_LENGTH: nat := 25

  /** The detail text: kept when at most 25 characters, otherwise its first 22 and "...". */
  function TruncateDetails(details: string): (r: string)
    ensures |r| <= MAX_DETAILS_LENGTH
    ensures |details| <= MAX_DETAILS_LENGTH ==> r == details
    ensures |details| > MAX_DETAILS_LENGTH ==> |r| == MAX_DETAILS_LENGTH && r[..22] == details[..22] && r[22..] == "..."
  {
    if |details| > 25 then details[..22] + "..." else details
  }

  /** Truncating twice is truncating once. */
  lemma TruncateIdempotent(details: string)
    ensures TruncateDetails(TruncateDetails(details)) == TruncateDetails(details)
  {
  }

  /** Field 24 of the reply: function code 650, "unable to parse message". */
  const REASON_UNABLE_TO_PARSE: IsoValue := IsoValue(Numeric, "650", 3)

  /**
    `ParseExceptionHandler.createErrorResponseMessage`: an administrative notification
    from "other" carrying reason 650 in field 24 and, when details are included, the
    truncated exception message in field 44. A null exception message with details
    requested fails on Kotlin's `!!`.
  */
  function CreateErrorResponseMessage(j: J8583, includeErrorDetails: bool, cause: ParseException): (r: Result<IsoMessage, Throwable>)
    ensures r.Failure? <==> includeErrorDetails && cause.message.None?
    ensures r.Failure? ==> r.error == NullPointer
    ensures r.Success? ==>
      var t := Iso.MtiValue(j.version, Iso.Administrative, Iso.Notification, Iso.Other);
      && r.value.msgType == t
      && 24 in r.value.fields && r.value.fields[24] == REASON_UNABLE_TO_PARSE
      && (includeErrorDetails ==> 44 in r.value.fields
                                  && r.value.fields[44] == IsoValue(LlVar, TruncateDetails(cause.message.value), 25))
      && (!includeErrorDetails ==> r.value.fields.Keys == j.template(t).Keys + {24})
      && (includeErrorDetails ==> r.value.fields.Keys == j.template(t).Keys + {24, 44})
      && (forall k :: k in j.template(t) && k != 24 && (k != 44 || !includeErrorDetails) ==>
            k in r.value.fields && r.value.fields[k] == j.template(t)[k])
  {
    var message := NewMessage(j, Iso.Administrative, Iso.Notification, Iso.Other);
    var message := SetValue(message, 24, REASON_UNABLE_TO_PARSE);
    if includeErrorDetails then
      match cause.message
      case None => Failure(NullPointer)
      case Some(details) => Success(SetValue(message, 44, IsoValue(LlVar, TruncateDetails(details), 25)))
    else Success(message)
  }

  /** With a 1993 factory the reply's type is 0x1644, as the unit test expects. */
  lemma ErrorResponseType1993(j: J8583, includeErrorDetails: bool, cause: ParseException)
    requires j.version == Iso.V1993
    requires !includeErrorDetails || cause.message.Some?
    ensures CreateErrorResponseMessage(j, includeErrorDetails, cause).Success?
    ensures CreateErrorResponseMessage(j, includeErrorDetails, cause).value.msgType == 0x1644
  {
  }

  /**
    `ParseExceptionHandler.exceptionCaught`: a parse failure is answered with the error
    reply; every cause is then passed on. If building the reply throws, that exception
    escapes instead and nothing is done.
  */
  function ExceptionCaught(j: J8583, includeErrorDetails: bool, cause: Throwable): (r: Result<seq<CtxAction>, Throwable>)
    ensures r.Success? ==> |r.value| >= 1 && r.value[|r.value| - 1] == FireExceptionCaught(cause)
    ensures !cause.ParseFailure? ==> r == Success([FireExceptionCaught(cause)])
    ensures cause.ParseFailure? ==>
      match CreateErrorResponseMessage(j, includeErrorDetails, cause.parse)
      case Success(reply) => r == Success([WriteAndFlush(reply), FireExceptionCaught(cause)])
      case Failure(e) => r == Failure(e)
    ensures r.Success? ==> (|Written(r.value)| == 1 <==> cause.ParseFailure?)
  {
    match cause
    case ParseFailure(pe) =>
      (match CreateErrorResponseMessage(j, includeErrorDetails, pe)
       case Success(reply) =>
         var actions := [WriteAndFlush(reply), FireExceptionCaught(cause)];
         assert actions[..1] == [WriteAndFlush(reply)];
         assert Written(actions[..1]) == [reply] by {
           assert actions[..1][..0] == [];
         }
         Success(actions)
       case Failure(e) => Failure(e))
    case _ =>
      var actions := [FireExceptionCaught(cause)];
      assert actions[..0] == [];
      Success(actions)
  }

  /** The unit test's scenario: a 36-character message is cut to its first 22 characters and "...". */
  lemma LongDetailsScenario(j: J8583, details: string)
    requires j.version == Iso.V1993 && |details| == 36
    ensures var r := ExceptionCaught(j, true, ParseFailure(ParseException(Some(details))));
      && r.Success? && |r.value| == 2
      && r.value[0].WriteAndFlush?
      && r.value[0].msg.msgType == 0x1644
      && r.value[0].msg.fields[24] == IsoValue(Numeric, "650", 3)
      && r.value[0].msg.fields[44] == IsoValue(LlVar, details[..22] + "...", 25)
      && r.value[1] == FireExceptionCaught(ParseFailure(ParseException(Some(details))))
  {
  }
}
