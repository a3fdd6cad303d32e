/**
  `Iso8583Client` and its `ReconnectOnCloseListener`, as a state machine. The
  state is the listener's `disconnectRequested` flag, the client's current channel,
  the reconnect tasks scheduled on the event loop and not yet run, and a record of
  what the client asked Netty to do. Netty's futures and the scheduler's clock are
  not modelled: a finished connect attempt, a closed channel and a due reconnect
  task are events that the environment delivers.
*/
module Client {
  import opened Wrappers
  import opened Message
  import Config

  /** A channel, seen through the two bits the client reads. */
  datatype Channel = Channel(id: nat, active: bool, writable: bool)

  /** `ReconnectOnCloseListener`: the reconnect delay and the `disconnectRequested` flag. */
  datatype ReconnectOnCloseListener = ReconnectOnCloseListener(reconnectInterval: int, disconnectRequested: bool)

  /** A scheduled `client.connectAsync()`, due after `delay` milliseconds. */
  datatype ReconnectTask = ReconnectTask(delay: int)

  /**
    The client: its reconnect listener, its current channel (`null` until the first
    successful connect), the reconnect tasks pending in scheduling order, how many
    connect attempts it has started, the channels it registered the close listener
    on, the channels the listener disconnected, and the messages it wrote.
  */
  datatype Client = Client(
    listener: ReconnectOnCloseListener,
    channel: Option<Channel>,
    pending: seq<ReconnectTask>,
    connects: nat,
    watched: seq<nat>,
    disconnected: seq<nat>,
    sent: seq<IsoMessage>)

  /** The client after `init()`, which creates the listener with the configured reconnect interval. */
  function NewClient(config: Config.ClientConfiguration): (c: Client)
    ensures c.listener.reconnectInterval == config.reconnectInterval
    ensures !c.listener.disconnectRequested
    ensures c.channel.None? && c.pending == [] && c.connects == 0 && c.sent == []
  {
    Client(ReconnectOnCloseListener(config.reconnectInterval, false), None, [], 0, [], [], [])
  }

  // ---------------------------------------------------------------------------
  // ReconnectOnCloseListener

  /** `requestReconnect`: clears the flag. */
  function RequestReconnect(l: ReconnectOnCloseListener): (r: ReconnectOnCloseListener)
    ensures !r.disconnectRequested && r.reconnectInterval == l.reconnectInterval
  {
    l.(disconnectRequested := false)
  }

  /** `requestDisconnect`: sets the flag. */
  function RequestDisconnect(l: ReconnectOnCloseListener): (r: ReconnectOnCloseListener)
    ensures r.disconnectRequested && r.reconnectInterval == l.reconnectInterval
  {
    l.(disconnectRequested := true)
  }

  /** The flag last written wins, whatever it was before. */
  lemma RequestsOverwrite(l: ReconnectOnCloseListener)
    ensures RequestReconnect(RequestDisconnect(l)) == RequestReconnect(l)
    ensures RequestDisconnect(RequestReconnect(l)) == RequestDisconnect(l)
  {
  }

  /**
    `scheduleReconnect`: unless a disconnect was requested, one more reconnect task,
    due after the reconnect interval. Pending tasks are not merged. Nothing else
    changes, the flag included.
  */
  function ScheduleReconnect(c: Client): (r: Client)
    ensures r.listener == c.listener && r.channel == c.channel && r.connects == c.connects && r.sent == c.sent
    ensures r.watched == c.watched && r.disconnected == c.disconnected
    ensures c.listener.disconnectRequested ==> r.pending == c.pending
    ensures !c.listener.disconnectRequested ==> r.pending == c.pending + [ReconnectTask(c.listener.reconnectInterval)]
  {
    if c.listener.disconnectRequested then c
    else c.(pending := c.pending + [ReconnectTask(c.listener.reconnectInterval)])
  }

  /** Every call while reconnecting is allowed adds a task: two calls leave two more tasks pending. */
  lemma ScheduleNotDeduplicated(c: Client)
    requires !c.listener.disconnectRequested
    ensures |ScheduleReconnect(ScheduleReconnect(c)).pending| == |c.pending| + 2
  {
  }

  /**
    `operationComplete`, run when a channel the listener watches has closed: the
    channel is disconnected, and so inactive and unwritable, and a reconnect is
    scheduled.
  */
  function OperationComplete(c: Client, closed: Channel): (r: Client)
    ensures r.listener == c.listener && r.connects == c.connects && r.sent == c.sent && r.watched == c.watched
    ensures r.disconnected == c.disconnected + [closed.id]
    ensures c.channel.Some? && c.channel.value.id == closed.id ==>
      r.channel == Some(Channel(closed.id, false, false))
    ensures c.channel.None? || c.channel.value.id != closed.id ==> r.channel == c.channel
    ensures |r.pending| == |c.pending| + (if c.listener.disconnectRequested then 0 else 1)
  {
    var channel :=
      match c.channel
      case Some(ch) => if ch.id == closed.id then Some(Channel(closed.id, false, false)) else c.channel
      case None => None;
    ScheduleReconnect(c.(disconnected := c.disconnected + [closed.id], channel := channel))
  }

  // ---------------------------------------------------------------------------
  // Iso8583Client

  /** `connectAsync`: clears the flag, then starts a connect attempt. */
  function ConnectAsync(c: Client): (r: Client)
    ensures !r.listener.disconnectRequested && r.listener.reconnectInterval == c.listener.reconnectInterval
    ensures r.connects == c.connects + 1
    ensures r.channel == c.channel && r.pending == c.pending && r.sent == c.sent
    ensures r.watched == c.watched && r.disconnected == c.disconnected
  {
    c.(listener := RequestReconnect(c.listener), connects := c.connects + 1)
  }

  /**
    The listener on the connect future: a failed attempt schedules a reconnect and
    leaves the channel as it was; a successful one makes the new channel current and
    watches its close future.
  */
  function OnConnectComplete(c: Client, outcome: Option<Channel>): (r: Client)
    ensures r.listener == c.listener && r.connects == c.connects && r.sent == c.sent && r.disconnected == c.disconnected
    ensures outcome.None? ==> r == ScheduleReconnect(c)
    ensures outcome.Some? ==> r.channel == outcome && r.pending == c.pending && r.watched == c.watched + [outcome.value.id]
  {
    match outcome
    case None => ScheduleReconnect(c)
    case Some(ch) => c.(channel := Some(ch), watched := c.watched + [ch.id])
  }

  /**
    `disconnectAsync`: sets the flag, then asks the current channel, if any, to close;
    the channel whose close was requested is returned (none: `null`).
  */
  function DisconnectAsync(c: Client): (r: (Client, Option<Channel>))
    ensures r.0.listener.disconnectRequested && r.0.listener.reconnectInterval == c.listener.reconnectInterval
    ensures r.1 == c.channel
    ensures r.0.channel == c.channel && r.0.pending == c.pending && r.0.connects == c.connects && r.0.sent == c.sent
    ensures r.0.watched == c.watched && r.0.disconnected == c.disconnected
  {
    (c.(listener := RequestDisconnect(c.listener)), c.channel)
  }

  /** `sendAsync`: writes the message to a writable channel; throws `IllegalStateException` otherwise. */
  function SendAsync(c: Client, m: IsoMessage): (r: Result<Client, Throwable>)
    ensures r.Failure? <==> c.channel.None? || !c.channel.value.writable
    ensures r.Failure? ==> r.error == IllegalState("Channel is not writable")
    ensures r.Success? ==> r.value == c.(sent := c.sent + [m])
  {
    match c.channel
    case Some(ch) => if ch.writable then Success(c.(sent := c.sent + [m])) else Failure(IllegalState("Channel is not writable"))
    case None => Failure(IllegalState("Channel is not writable"))
  }

  /** `isConnected`. */
  predicate IsConnected(c: Client) {
    match c.channel
    case Some(ch) => ch.active
    case None => false
  }

  /**
    A client is connected exactly when it holds an active channel: before the first
    successful connect it is not, and after one it is as long as the new channel is
    active, whatever channel it held before.
  */
  lemma ConnectedIffActiveChannel(c: Client, ch: Channel)
    ensures IsConnected(c) <==> c.channel.Some? && c.channel.value.active
    ensures IsConnected(OnConnectComplete(c, Some(ch))) <==> ch.active
    ensures c.channel.None? ==> !IsConnected(OnConnectComplete(c, None))
  {
  }

  /** Once its channel has closed, the client is not connected and cannot send, until a new connect succeeds. */
  lemma ClosedChannelIsDead(c: Client, closed: Channel, m: IsoMessage)
    requires c.channel.Some? && c.channel.value.id == closed.id
    ensures !IsConnected(OperationComplete(c, closed))
    ensures SendAsync(OperationComplete(c, closed), m).Failure?
  {
  }

  /** After `disconnectAsync` the close of its channel schedules no reconnect. */
  lemma DisconnectThenCloseSchedulesNothing(c: Client)
    requires c.channel.Some?
    ensures var (d, closing) := DisconnectAsync(c);
      closing == c.channel && OperationComplete(d, closing.value).pending == c.pending
  {
  }

  /**
    A due reconnect task, as written: the first pending task runs `connectAsync`,
    which clears the flag whatever it was.
  */
  function FireReconnect(c: Client): (r: Client)
    ensures |c.pending| == 0 ==> r == c
    ensures |c.pending| > 0 ==> r == ConnectAsync(c.(pending := c.pending[1..]))
  {
    if |c.pending| == 0 then c else ConnectAsync(c.(pending := c.pending[1..]))
  }

  /**
    A due reconnect task that respects a disconnect requested after it was scheduled:
    the task is dropped when the flag is set.
  */
  function FireReconnectGuarded(c: Client): (r: Client)
    ensures |c.pending| > 0 && c.listener.disconnectRequested ==> r == c.(pending := c.pending[1..])
    ensures !c.listener.disconnectRequested ==> r == FireReconnect(c)
  {
    if |c.pending| > 0 && c.listener.disconnectRequested then c.(pending := c.pending[1..])
    else FireReconnect(c)
  }

  /** What the environment can deliver to the client, besides the user's own calls. */
  datatype Event =
    | Due                          // the first pending reconnect task is due
    | ConnectDone(outcome: Option<Channel>)
    | Closed(channel: Channel)
    | Send(msg: IsoMessage)

  /** One event; `guarded` selects the corrected handling of a due reconnect task. */
  function Step(c: Client, e: Event, guarded: bool): Client {
    match e
    case Due => if guarded then FireReconnectGuarded(c) else FireReconnect(c)
    case ConnectDone(outcome) => OnConnectComplete(c, outcome)
    case Closed(ch) => OperationComplete(c, ch)
    case Send(m) => match SendAsync(c, m) case Success(r) => r case Failure(_) => c
  }

  function Run(c: Client, events: seq<Event>, guarded: bool): Client
    decreases |events|
  {
    if |events| == 0 then c else Run(Step(c, events[0], guarded), events[1..], guarded)
  }

  /**
    As written, a disconnect does not stop a reconnect that was already scheduled:
    when that task runs, the flag is cleared and a new connect attempt starts, and
    if it succeeds the client is connected again.
  */
  lemma DisconnectLosesToPendingReconnect(c: Client, ch: Channel)
    requires |c.pending| > 0 && ch.active
    ensures var d := DisconnectAsync(c).0;
      var r := Run(d, [Due], false);
      && !r.listener.disconnectRequested
      && r.connects == c.connects + 1
      && IsConnected(Run(d, [Due, ConnectDone(Some(ch))], false))
  {
    var d := DisconnectAsync(c).0;
    var fired := FireReconnect(d);
    assert Run(d, [Due], false) == Run(fired, [], false) == fired;
    assert [Due, ConnectDone(Some(ch))][1..] == [ConnectDone(Some(ch))];
    var connected := OnConnectComplete(fired, Some(ch));
    assert Run(d, [Due, ConnectDone(Some(ch))], false) == Run(fired, [ConnectDone(Some(ch))], false);
    assert Run(fired, [ConnectDone(Some(ch))], false) == Run(connected, [], false) == connected;
  }

  /**
    With the guarded task, a disconnect wins: whatever events follow, the flag stays
    set, no connect attempt starts and no reconnect task is added.
  */
  lemma {:induction false} DisconnectWins(c: Client, events: seq<Event>)
    requires c.listener.disconnectRequested
    ensures var r := Run(c, events, true);
      && r.listener.disconnectRequested
      && r.connects == c.connects
      && |r.pending| <= |c.pending|
    decreases |events|
  {
    if |events| > 0 {
      var next := Step(c, events[0], true);
      assert next.listener.disconnectRequested && next.connects == c.connects && |next.pending| <= |c.pending|;
      DisconnectWins(next, events[1..]);
    }
  }

  /** Without a disconnect pending, the guarded task behaves exactly as written. */
  lemma GuardedAgreesWhileReconnecting(c: Client, e: Event)
    requires !c.listener.disconnectRequested
    ensures Step(c, e, true) == Step(c, e, false)
  {
  }
}
