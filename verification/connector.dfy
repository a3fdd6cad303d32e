/**
  `AbstractIso8583Connector`: the part of the connector that client and server
  share and that is not Netty plumbing — the message handler it owns, the echo
  listener it registers at construction, and listener registration.
*/
module Connector {
  import opened Message
  import opened Listener
  import Config
  import Handlers
  import Dispatch

  /**
    A connector: its configuration, its message factory, and the `failOnError` mode
    and listeners of its `CompositeIsoMessageHandler`.
  */
  datatype Connector = Connector(
    configuration: Config.ConnectorConfiguration,
    factory: J8583,
    failOnError: bool,
    listeners: seq<IsoMessageListener>)

  /** The `failOnError` of a `CompositeIsoMessageHandler()` made with the default argument. */
  const DEFAULT_FAIL_ON_ERROR: bool := true

  /**
    The constructor and its `init` block. `failOnError` and `handler` are the mode
    and the listeners of the message handler passed in (`DEFAULT_FAIL_ON_ERROR` and
    none for the default, fresh handler); `echoId` is
    the identity of the new `EchoMessageListener`, which is appended exactly when the
    configuration asks for it.
  */
  function NewConnector(configuration: Config.ConnectorConfiguration, factory: J8583, failOnError: bool,
                        handler: seq<IsoMessageListener>, echoId: nat): (c: Connector)
    ensures c.configuration == configuration && c.factory == factory && c.failOnError == failOnError
    ensures |c.listeners| == |handler| + (if configuration.addEchoMessageListener then 1 else 0)
    ensures c.listeners[..|handler|] == handler
    ensures configuration.addEchoMessageListener ==> c.listeners[|handler|] == IsoMessageListener(echoId, Echo)
    ensures Dispatch.Count(c.listeners, echoId)
         == Dispatch.Count(handler, echoId) + (if configuration.addEchoMessageListener then 1 else 0)
  {
    var listeners :=
      if configuration.addEchoMessageListener then Dispatch.AddListener(handler, IsoMessageListener(echoId, Echo))
      else handler;
    Dispatch.CountAppend(handler, [IsoMessageListener(echoId, Echo)], echoId);
    assert Dispatch.Count([IsoMessageListener(echoId, Echo)], echoId) == 1 by {
      assert [IsoMessageListener(echoId, Echo)][1..] == [];
    }
    Connector(configuration, factory, failOnError, listeners)
  }

  /** `addMessageListener`: appends to the shared handler's list. */
  function AddMessageListener(c: Connector, l: IsoMessageListener): (r: Connector)
    ensures r.configuration == c.configuration && r.factory == c.factory && r.failOnError == c.failOnError
    ensures |r.listeners| == |c.listeners| + 1 && r.listeners[|c.listeners|] == l
    ensures r.listeners[..|c.listeners|] == c.listeners
  {
    c.(listeners := Dispatch.AddListener(c.listeners, l))
  }

  /** `removeMessageListener`: removes the listener's first registration from the shared handler. */
  function RemoveMessageListener(c: Connector, id: nat): (r: Connector)
    ensures r.configuration == c.configuration && r.factory == c.factory && r.failOnError == c.failOnError
    ensures Dispatch.Count(r.listeners, id) == if Dispatch.Count(c.listeners, id) == 0 then 0 else Dispatch.Count(c.listeners, id) - 1
    ensures forall other :: other != id ==> Dispatch.Count(r.listeners, other) == Dispatch.Count(c.listeners, other)
  {
    var r := c.(listeners := Dispatch.RemoveListener(c.listeners, id));
    Dispatch.RemoveListenerCount(c.listeners, id, id);
    forall other | other != id
      ensures Dispatch.Count(r.listeners, other) == Dispatch.Count(c.listeners, other)
    {
      Dispatch.RemoveListenerCount(c.listeners, id, other);
    }
    r
  }

  /** Dispatching a message through the connector's handler, in that handler's mode. */
  function Handle(c: Connector, m: IsoMessage): Dispatch.Trace {
    Dispatch.Dispatch(c.failOnError, c.factory, c.listeners, m)
  }

  /** Removing a listener that was added once undoes the addition. */
  lemma AddThenRemove(c: Connector, l: IsoMessageListener)
    requires Dispatch.Count(c.listeners, l.id) == 0
    ensures RemoveMessageListener(AddMessageListener(c, l), l.id) == c
  {
    var ls := c.listeners;
    Dispatch.CountZero(ls, l.id);
    var i := Dispatch.IndexOf(ls + [l], l.id);
    assert (ls + [l])[|ls|] == l;
    assert i == |ls|;
    assert (ls + [l])[..|ls|] == ls;
  }

  /**
    With the echo listener configured and a fresh handler, a message the echo listener
    accepts is answered with the factory's response and stops there: whatever user
    listeners are added afterwards, none of them is visited.
  */
  lemma EchoShieldsUserListeners(configuration: Config.ConnectorConfiguration, factory: J8583, failOnError: bool,
                                 echoId: nat, users: seq<IsoMessageListener>, m: IsoMessage)
    requires configuration.addEchoMessageListener
    requires Handlers.EchoApplies(m.msgType)
    ensures var c := NewConnector(configuration, factory, failOnError, [], echoId);
      Dispatch.Dispatch(failOnError, factory, c.listeners + users, m)
        == Dispatch.Trace([Dispatch.Visit(echoId, true)], [factory.createResponse(m)], Dispatch.Completed)
  {
    var c := NewConnector(configuration, factory, failOnError, [], echoId);
    var ls := c.listeners + users;
    assert c.listeners == [IsoMessageListener(echoId, Echo)];
    assert ls[0] == IsoMessageListener(echoId, Echo);
  }

  /** Without the flag, construction registers nothing: a fresh connector passes every message on untouched. */
  lemma NoEchoWithoutFlag(configuration: Config.ConnectorConfiguration, factory: J8583, failOnError: bool,
                          echoId: nat, m: IsoMessage)
    requires !configuration.addEchoMessageListener
    ensures Handle(NewConnector(configuration, factory, failOnError, [], echoId), m) == Dispatch.Trace([], [], Dispatch.Completed)
  {
    assert NewConnector(configuration, factory, failOnError, [], echoId).listeners == [];
  }

  /** A listener registered once and then removed is never invoked by a later dispatch. */
  lemma RemovedListenerNeverInvoked(c: Connector, l: IsoMessageListener, m: IsoMessage)
    requires Dispatch.Count(c.listeners, l.id) == 0
    ensures var t := Handle(RemoveMessageListener(AddMessageListener(c, l), l.id), m);
      forall i :: 0 <= i < |t.visits| ==> t.visits[i].id != l.id
  {
    var added := AddMessageListener(c, l);
    Dispatch.CountAppend(c.listeners, [l], l.id);
    assert Dispatch.Count([l], l.id) == 1 by {
      assert [l][1..] == [];
    }
    assert added.listeners == c.listeners + [l];
    assert RemoveMessageListener(added, l.id).listeners == Dispatch.RemoveListener(added.listeners, l.id);
    assert Dispatch.Count(added.listeners, l.id) <= 1;
    Dispatch.RemovedNeverVisited(c.failOnError, c.factory, added.listeners, l.id, m);
    assert Handle(RemoveMessageListener(added, l.id), m)
        == Dispatch.Dispatch(c.failOnError, c.factory, Dispatch.RemoveListener(added.listeners, l.id), m);
  }

  /**
    Removal takes away one registration only: a listener added twice and removed
    once is still invoked on the next message it applies to.
  */
  lemma TwiceAddedOnceRemoved(factory: J8583, configuration: Config.ConnectorConfiguration, m: IsoMessage)
    ensures var l := Dispatch.Custom(7, True, True);
      var c := Connector(configuration, factory, DEFAULT_FAIL_ON_ERROR, []);
      var r := RemoveMessageListener(AddMessageListener(AddMessageListener(c, l), l), 7);
      Handle(r, m).visits == [Dispatch.Visit(7, true)]
  {
    var l := Dispatch.Custom(7, True, True);
    assert Dispatch.IndexOf([l, l], 7) == 0;
    assert Dispatch.RemoveListener([l, l], 7) == [l];
  }
}
