/**
  ISO 8583 messages as the connector sees them, and the j8583 message factory
  the connector delegates to. j8583 is outside this model: its parser, writers
  and response builder are function values carried by the `J8583` record, so
  every property proved here holds whatever j8583 does.
*/
module Message {
  import opened Wrappers
  import opened Text
  import Iso

  /** The j8583 `IsoType` of a field: the two the connector sets itself, or any other by its enum name. */
  datatype IsoType = Numeric | LlVar | OtherType(name: string)

  /** One field value: its type, its text (what `toString()` gives) and its declared length. */
  datatype IsoValue = IsoValue(kind: IsoType, text: string, length: int)

  /** A message: its message type indicator and its fields by number. */
  datatype IsoMessage = IsoMessage(msgType: int, fields: map<int, IsoValue>)

  /** `java.text.ParseException`; its message may be null. */
  datatype ParseException = ParseException(message: Option<string>)

  /**
    A Java `Throwable`: a parse failure, the two runtime exceptions the connector
    itself raises, any other `Exception`, or an `Error` (which no `catch (e: Exception)`
    intercepts).
  */
  datatype Throwable =
    | ParseFailure(parse: ParseException)
    | NullPointer
    | IllegalState(reason: string)
    | OtherException(name: string)
    | Error(name: string)
  {
    predicate IsException() {
      !Error?
    }
  }

  /**
    The j8583 collaborators: the factory's ISO version, `newMessage(type)` (a message
    of that type, pre-filled from the factory's templates), `createResponse`,
    `parseMessage(bytes, isoHeaderLength)`, and the message's own `writeData()`,
    `writeToBuffer(lengthHeaderLength)` and `debugString()`.
  */
  datatype J8583 = J8583(
    version: Iso.Version,
    template: int -> map<int, IsoValue>,
    createResponse: IsoMessage -> IsoMessage,
    parseMessage: (seq<Byte>, int) -> Result<IsoMessage, ParseException>,
    writeData: IsoMessage -> seq<Byte>,
    writeToBuffer: (IsoMessage, int) -> seq<Byte>,
    debugString: IsoMessage -> string)

  /**
    `J8583MessageFactory.newMessage(class, function, origin)`: a new message whose
    type is the MTI of the factory's version and the three given components.
  */
  function NewMessage(j: J8583, c: Iso.MessageClass, f: Iso.MessageFunction, o: Iso.MessageOrigin): (m: IsoMessage)
    ensures Iso.Decompose(m.msgType) == Some(Iso.Mti(j.version, c, f, o))
  {
    Iso.MtiRoundTrip(j.version, c, f, o);
    var t := Iso.MtiValue(j.version, c, f, o);
    IsoMessage(t, j.template(t))
  }

  /** `IsoMessage.setValue(index, value, type, length)`: replaces one field, keeps the rest. */
  function SetValue(m: IsoMessage, index: int, v: IsoValue): (r: IsoMessage)
    ensures r.msgType == m.msgType
    ensures index in r.fields && r.fields[index] == v
    ensures forall k :: k in m.fields && k != index ==> k in r.fields && r.fields[k] == m.fields[k]
    ensures r.fields.Keys == m.fields.Keys + {index}
  {
    m.(fields := m.fields[index := v])
  }
}
