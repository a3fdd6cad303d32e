/**
  `IsoMessageListener`: the two calls the dispatcher makes on a listener. Each
  call either answers or throws; `onMessage` may also write messages to the
  channel before it answers.
*/
module Listener {
  import opened Message

  /** The outcome of `applies` or `onMessage`: a Boolean, or a thrown `Throwable`. */
  datatype Answer = True | False | Throws(cause: Throwable)

  /** What `onMessage` does: the messages it writes through the context, then its answer. */
  datatype Reply = Reply(writes: seq<IsoMessage>, answer: Answer)

  /**
    The behaviour of a listener: the connector's own echo listener, or any other
    listener, whose two calls are arbitrary functions of the message.
  */
  datatype Behaviour =
    | Echo
    | Custom(applies: IsoMessage -> Answer, onMessage: IsoMessage -> Reply)

  /**
    A registered listener. `id` stands for object identity: `removeListener` finds a
    listener by `equals`, which for listeners is identity.
  */
  datatype IsoMessageListener = IsoMessageListener(id: nat, behaviour: Behaviour)
}
