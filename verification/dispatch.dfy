/**
  `CompositeIsoMessageHandler`: an inbound message is offered to the registered
  listeners in order. A listener whose `applies` says false is skipped; one whose
  `onMessage` says false ends the walk. An exception from either call ends the walk
  and is rethrown when `failOnError` (the default), and is swallowed otherwise.
  `Error`s are never caught.
*/
module Dispatch {
  import opened Wrappers
  import opened Message
  import opened Listener
  import Handlers

  /** The listener's `applies(m)`. */
  function Applies(j: J8583, l: IsoMessageListener, m: IsoMessage): Answer {
    match l.behaviour
    case Echo => if Handlers.EchoApplies(m.msgType) then True else False
    case Custom(applies, _) => applies(m)
  }

  /** The listener's `onMessage(ctx, m)`. */
  function OnMessage(j: J8583, l: IsoMessageListener, m: IsoMessage): Reply {
    match l.behaviour
    case Echo => Handlers.EchoOnMessage(j, m)
    case Custom(_, onMessage) => onMessage(m)
  }

  /** How one listener's turn ends: with the value of `applyNextListener`, or with a throw. */
  datatype Outcome = Continue(next: bool) | Raise(cause: Throwable)

  /** One listener's turn: whether `onMessage` ran, what it wrote, how the turn ended. */
  datatype Step = Step(onMessageCalled: bool, writes: seq<IsoMessage>, outcome: Outcome)

  /** The `catch (e: Exception)` clause: rethrow when failing fast, otherwise carry on. Errors pass through. */
  function Caught(failOnError: bool, e: Throwable): (o: Outcome)
    ensures o.Raise? <==> (failOnError || !e.IsException())
    ensures o.Raise? ==> o.cause == e
    ensures o.Continue? ==> o.next
  {
    if e.IsException() && !failOnError then Continue(true) else Raise(e)
  }

  /** `handleWithMessageListener`. */
  function HandleWithMessageListener(failOnError: bool, j: J8583, l: IsoMessageListener, m: IsoMessage): (s: Step)
    ensures s.onMessageCalled <==> Applies(j, l, m) == True
    ensures s.onMessageCalled ==> s.writes == OnMessage(j, l, m).writes
    ensures !s.onMessageCalled ==> s.writes == []
    ensures s.outcome == Continue(false) <==> s.onMessageCalled && OnMessage(j, l, m).answer == False
    ensures s.outcome.Raise? ==> failOnError || !s.outcome.cause.IsException()
    ensures Applies(j, l, m) == False ==> s.outcome == Continue(true)
  {
    match Applies(j, l, m)
    case True =>
      var reply := OnMessage(j, l, m);
      var outcome :=
        match reply.answer
        case True => Continue(true)
        case False => Continue(false)
        case Throws(e) => Caught(failOnError, e);
      Step(true, reply.writes, outcome)
    case False => Step(false, [], Continue(true))
    case Throws(e) => Step(false, [], Caught(failOnError, e))
  }

  /** Whether the walk goes on after this listener. */
  predicate Continues(failOnError: bool, j: J8583, l: IsoMessageListener, m: IsoMessage) {
    HandleWithMessageListener(failOnError, j, l, m).outcome == Continue(true)
  }

  /** A listener whose `applies` was evaluated, and whether its `onMessage` then ran. */
  datatype Visit = Visit(id: nat, onMessageCalled: bool)

  datatype Status = Completed | Rethrown(cause: Throwable)

  /** What one dispatch did: the listeners visited in order, the messages written, how it ended. */
  datatype Trace = Trace(visits: seq<Visit>, writes: seq<IsoMessage>, status: Status)

  /** A completed prefix of a walk followed by the rest of it. */
  function Then(a: Trace, b: Trace): Trace {
    Trace(a.visits + b.visits, a.writes + b.writes, b.status)
  }

  /**
    `doHandleMessage` over the listeners registered when it starts. The visited
    listeners are a prefix of the list, in list order.
  */
  function Dispatch(failOnError: bool, j: J8583, listeners: seq<IsoMessageListener>, m: IsoMessage): (t: Trace)
    ensures |t.visits| <= |listeners|
    ensures forall i :: 0 <= i < |t.visits| ==> t.visits[i].id == listeners[i].id
    decreases |listeners|
  {
    if |listeners| == 0 then Trace([], [], Completed)
    else
      var s := HandleWithMessageListener(failOnError, j, listeners[0], m);
      var head := Trace([Visit(listeners[0].id, s.onMessageCalled)], s.writes, Completed);
      match s.outcome
      case Raise(e) => head.(status := Rethrown(e))
      case Continue(next) =>
        if next then
          var rest := Dispatch(failOnError, j, listeners[1..], m);
          assert forall i :: 1 <= i < |listeners| ==> listeners[1..][i - 1] == listeners[i];
          Then(head, rest)
        else head
  }

  /** The messages the first `k` listeners' turns write, in order. */
  function WritesOf(failOnError: bool, j: J8583, listeners: seq<IsoMessageListener>, m: IsoMessage): seq<IsoMessage>
    decreases |listeners|
  {
    if |listeners| == 0 then []
    else HandleWithMessageListener(failOnError, j, listeners[0], m).writes + WritesOf(failOnError, j, listeners[1..], m)
  }

  /**
    The walk, described without recursion: it visits a non-empty prefix of the
    listeners (unless there are none); every visited listener but the last let the
    walk go on; it stops early only because the last visited listener did not; a
    listener's `onMessage` ran exactly when its `applies` said true; the writes are
    those of the visited listeners' turns, in order; and the walk rethrows exactly
    what the last visited listener's turn threw.
  */
  lemma DispatchCharacterized(failOnError: bool, j: J8583, listeners: seq<IsoMessageListener>, m: IsoMessage)
    ensures var t := Dispatch(failOnError, j, listeners, m);
      var k := |t.visits|;
      && (k == 0 <==> |listeners| == 0)
      && (forall i :: 0 <= i < k - 1 ==> Continues(failOnError, j, listeners[i], m))
      && (k < |listeners| ==> !Continues(failOnError, j, listeners[k - 1], m))
      && (forall i :: 0 <= i < k ==> (t.visits[i].onMessageCalled <==> Applies(j, listeners[i], m) == True))
      && t.writes == WritesOf(failOnError, j, listeners[..k], m)
      && (t.status.Rethrown? <==> 0 < k && HandleWithMessageListener(failOnError, j, listeners[k - 1], m).outcome.Raise?)
      && (t.status.Rethrown? ==> t.status.cause == HandleWithMessageListener(failOnError, j, listeners[k - 1], m).outcome.cause)
  {
    DispatchVisits(failOnError, j, listeners, m);
    DispatchWrites(failOnError, j, listeners, m);
    DispatchStatus(failOnError, j, listeners, m);
  }

  /** A walk that goes on past the first listener is that listener's turn followed by the walk over the rest. */
  lemma DispatchCons(failOnError: bool, j: J8583, listeners: seq<IsoMessageListener>, m: IsoMessage)
    requires |listeners| > 0 && Continues(failOnError, j, listeners[0], m)
    ensures var t := Dispatch(failOnError, j, listeners, m);
      var rest := Dispatch(failOnError, j, listeners[1..], m);
      && |t.visits| == 1 + |rest.visits|
      && t.visits[1..] == rest.visits
      && t.writes == HandleWithMessageListener(failOnError, j, listeners[0], m).writes + rest.writes
      && t.status == rest.status
  {
  }

  /** Which listeners the walk visits, and which of them had `onMessage` called. */
  lemma {:induction false} DispatchVisits(failOnError: bool, j: J8583, listeners: seq<IsoMessageListener>, m: IsoMessage)
    ensures var t := Dispatch(failOnError, j, listeners, m);
      var k := |t.visits|;
      && (k == 0 <==> |listeners| == 0)
      && (forall i :: 0 <= i < k - 1 ==> Continues(failOnError, j, listeners[i], m))
      && (k < |listeners| ==> !Continues(failOnError, j, listeners[k - 1], m))
      && (forall i :: 0 <= i < k ==> (t.visits[i].onMessageCalled <==> Applies(j, listeners[i], m) == True))
    decreases |listeners|
  {
    if |listeners| > 0 && Continues(failOnError, j, listeners[0], m) {
      var t := Dispatch(failOnError, j, listeners, m);
      var tail := listeners[1..];
      var rest := Dispatch(failOnError, j, tail, m);
      DispatchVisits(failOnError, j, tail, m);
      DispatchCons(failOnError, j, listeners, m);
      var k := |t.visits|;
      forall i | 1 <= i < k
        ensures t.visits[i] == rest.visits[i - 1] && listeners[i] == tail[i - 1]
      {
      }
    }
  }

  /** The walk writes what the visited listeners' turns write, in order. */
  lemma {:induction false} DispatchWrites(failOnError: bool, j: J8583, listeners: seq<IsoMessageListener>, m: IsoMessage)
    ensures var t := Dispatch(failOnError, j, listeners, m);
      t.writes == WritesOf(failOnError, j, listeners[..|t.visits|], m)
    decreases |listeners|
  {
    if |listeners| > 0 {
      var t := Dispatch(failOnError, j, listeners, m);
      var s := HandleWithMessageListener(failOnError, j, listeners[0], m);
      if Continues(failOnError, j, listeners[0], m) {
        var tail := listeners[1..];
        var rest := Dispatch(failOnError, j, tail, m);
        DispatchWrites(failOnError, j, tail, m);
        DispatchCons(failOnError, j, listeners, m);
        var k := |t.visits|;
        assert listeners[..k][1..] == tail[..k - 1];
      } else {
        assert listeners[..1][1..] == [];
        assert |t.visits| == 1;
      }
    }
  }

  /** The walk rethrows exactly what the last visited listener's turn threw. */
  lemma {:induction false} DispatchStatus(failOnError: bool, j: J8583, listeners: seq<IsoMessageListener>, m: IsoMessage)
    ensures var t := Dispatch(failOnError, j, listeners, m);
      var k := |t.visits|;
      && (t.status.Rethrown? <==> 0 < k && HandleWithMessageListener(failOnError, j, listeners[k - 1], m).outcome.Raise?)
      && (t.status.Rethrown? ==> t.status.cause == HandleWithMessageListener(failOnError, j, listeners[k - 1], m).outcome.cause)
    decreases |listeners|
  {
    if |listeners| > 0 && Continues(failOnError, j, listeners[0], m) {
      var t := Dispatch(failOnError, j, listeners, m);
      var tail := listeners[1..];
      var rest := Dispatch(failOnError, j, tail, m);
      DispatchStatus(failOnError, j, tail, m);
      DispatchCons(failOnError, j, listeners, m);
      var k := |t.visits|;
      if 0 < |rest.visits| {
        assert listeners[k - 1] == tail[k - 2];
      }
    }
  }

  /**
    `doHandleMessage` as written, a `while` loop with an early exit, for a list that
    no other thread changes during the walk: it computes the same trace.
  */
  method DoHandleMessage(failOnError: bool, j: J8583, listeners: seq<IsoMessageListener>, m: IsoMessage) returns (t: Trace)
    ensures t == Dispatch(failOnError, j, listeners, m)
  {
    ghost var whole := Dispatch(failOnError, j, listeners, m);
    var applyNextListener := true;
    var size := |listeners|;
    var i := 0;
    t := Trace([], [], Completed);
    assert listeners[0..] == listeners;
    while applyNextListener && i < size
      invariant 0 <= i <= size
      invariant applyNextListener ==> t.status == Completed && whole == Then(t, Dispatch(failOnError, j, listeners[i..], m))
      invariant !applyNextListener ==> whole == t
    {
      var s := HandleWithMessageListener(failOnError, j, listeners[i], m);
      LoopStep(failOnError, j, listeners, i, m, t);
      var turn := Trace([Visit(listeners[i].id, s.onMessageCalled)], s.writes, Completed);
      match s.outcome {
        case Raise(e) =>
          t := Then(t, turn.(status := Rethrown(e)));
          applyNextListener := false;
        case Continue(next) =>
          t := Then(t, turn);
          applyNextListener := next;
      }
      i := i + 1;
    }
    if applyNextListener {
      assert listeners[i..] == [];
    }
  }

  /** What the loop's turn at position `i` does to the trace still to come. */
  lemma LoopStep(failOnError: bool, j: J8583, listeners: seq<IsoMessageListener>, i: nat, m: IsoMessage, done: Trace)
    requires i < |listeners|
    ensures var s := HandleWithMessageListener(failOnError, j, listeners[i], m);
      var turn := Trace([Visit(listeners[i].id, s.onMessageCalled)], s.writes, Completed);
      var whole := Then(done, Dispatch(failOnError, j, listeners[i..], m));
      && (s.outcome.Raise? ==> whole == Then(done, turn.(status := Rethrown(s.outcome.cause))))
      && (s.outcome == Continue(false) ==> whole == Then(done, turn))
      && (s.outcome == Continue(true) ==> whole == Then(Then(done, turn), Dispatch(failOnError, j, listeners[i + 1..], m)))
  {
    DispatchUnfold(failOnError, j, listeners, i, m);
    var s := HandleWithMessageListener(failOnError, j, listeners[i], m);
    var turn := Trace([Visit(listeners[i].id, s.onMessageCalled)], s.writes, Completed);
    ThenAssociative(done, turn, Dispatch(failOnError, j, listeners[i + 1..], m));
  }

  /** One turn of the walk over the listeners from position `i` on. */
  lemma DispatchUnfold(failOnError: bool, j: J8583, listeners: seq<IsoMessageListener>, i: nat, m: IsoMessage)
    requires i < |listeners|
    ensures var s := HandleWithMessageListener(failOnError, j, listeners[i], m);
      var turn := Trace([Visit(listeners[i].id, s.onMessageCalled)], s.writes, Completed);
      Dispatch(failOnError, j, listeners[i..], m)
        == match s.outcome
           case Raise(e) => turn.(status := Rethrown(e))
           case Continue(next) => if next then Then(turn, Dispatch(failOnError, j, listeners[i + 1..], m)) else turn
  {
    assert listeners[i..][0] == listeners[i];
    assert listeners[i..][1..] == listeners[i + 1..];
  }

  lemma ThenAssociative(a: Trace, b: Trace, c: Trace)
    ensures Then(Then(a, b), c) == Then(a, Then(b, c))
  {
    assert (a.visits + b.visits) + c.visits == a.visits + (b.visits + c.visits);
    assert (a.writes + b.writes) + c.writes == a.writes + (b.writes + c.writes);
  }

  // ---------------------------------------------------------------------------
  // channelRead

  /** What reaches `channelRead`: an ISO message, or any other object. */
  datatype Inbound = Iso(msg: IsoMessage) | NotIso

  /** The effect of `channelRead`: the dispatch (none for a non-ISO object), and whether the object went on down the pipeline. */
  datatype ReadEffect = ReadEffect(trace: Option<Trace>, forwarded: bool, thrown: Option<Throwable>)

  /** `channelRead`: dispatches an ISO message, then passes the object on unless dispatch threw. */
  function ChannelRead(failOnError: bool, j: J8583, listeners: seq<IsoMessageListener>, msg: Inbound): (r: ReadEffect)
    ensures msg == NotIso ==> r == ReadEffect(None, true, None)
    ensures msg.Iso? ==> r.trace == Some(Dispatch(failOnError, j, listeners, msg.msg))
    ensures r.forwarded <==> r.thrown.None?
    ensures msg.Iso? ==> (r.forwarded <==> r.trace.value.status == Completed)
  {
    match msg
    case NotIso => ReadEffect(None, true, None)
    case Iso(m) =>
      var t := Dispatch(failOnError, j, listeners, m);
      match t.status
      case Completed => ReadEffect(Some(t), true, None)
      case Rethrown(e) => ReadEffect(Some(t), false, Some(e))
  }

  // ---------------------------------------------------------------------------
  // Registration changing during a walk

  /** What `messageListeners[i]` throws past the end of the list. */
  const INDEX_OUT_OF_BOUNDS: Throwable := OtherException("IndexOutOfBoundsException")

  /**
    `doHandleMessage` as written, with other threads free to change the list: `size`
    is read once, but turn `i` indexes the list as it is at that moment, `live(i)`.
    An index past its end throws outside the `try` of `handleWithMessageListener`,
    so the exception escapes whatever `failOnError` says.
  */
  function LiveDispatch(failOnError: bool, j: J8583, live: nat -> seq<IsoMessageListener>, size: nat, i: nat,
                        m: IsoMessage): (t: Trace)
    requires i <= size
    ensures i + |t.visits| <= size
    decreases size - i
  {
    if size <= i then Trace([], [], Completed)
    else if |live(i)| <= i then Trace([], [], Rethrown(INDEX_OUT_OF_BOUNDS))
    else
      var l := live(i)[i];
      var s := HandleWithMessageListener(failOnError, j, l, m);
      var head := Trace([Visit(l.id, s.onMessageCalled)], s.writes, Completed);
      match s.outcome
      case Raise(e) => head.(status := Rethrown(e))
      case Continue(next) => if next then Then(head, LiveDispatch(failOnError, j, live, size, i + 1, m)) else head
  }

  /** The turn at index `n` of the live walk visits whatever sat at `n` in the list as it was then. */
  lemma {:induction false} LiveDispatchVisits(failOnError: bool, j: J8583, live: nat -> seq<IsoMessageListener>,
                                              size: nat, i: nat, m: IsoMessage)
    requires i <= size
    ensures var t := LiveDispatch(failOnError, j, live, size, i, m);
      forall n: nat :: i <= n < i + |t.visits| ==> n < |live(n)| && t.visits[n - i].id == live(n)[n].id
    decreases size - i
  {
    var t := LiveDispatch(failOnError, j, live, size, i, m);
    if i < size && i < |live(i)| {
      var l := live(i)[i];
      var s := HandleWithMessageListener(failOnError, j, l, m);
      if s.outcome == Continue(true) {
        var rest := LiveDispatch(failOnError, j, live, size, i + 1, m);
        LiveDispatchVisits(failOnError, j, live, size, i + 1, m);
        assert t.visits == [Visit(l.id, s.onMessageCalled)] + rest.visits;
        forall n: nat | i < n < i + |t.visits|
          ensures n < |live(n)| && t.visits[n - i].id == live(n)[n].id
        {
          assert t.visits[n - i] == rest.visits[n - (i + 1)];
        }
      }
    }
  }

  /** While nobody changes the list, indexing the live list is the walk over it. */
  lemma {:induction false} LiveDispatchStable(failOnError: bool, j: J8583, listeners: seq<IsoMessageListener>,
                                              live: nat -> seq<IsoMessageListener>, i: nat, m: IsoMessage)
    requires i <= |listeners|
    requires forall k :: i <= k < |listeners| ==> live(k) == listeners
    ensures LiveDispatch(failOnError, j, live, |listeners|, i, m) == Dispatch(failOnError, j, listeners[i..], m)
    decreases |listeners| - i
  {
    if i < |listeners| {
      assert live(i) == listeners;
      assert listeners[i..][0] == listeners[i];
      assert listeners[i..][1..] == listeners[i + 1..];
      LiveDispatchStable(failOnError, j, listeners, live, i + 1, m);
    } else {
      assert listeners[i..] == [];
    }
  }

  /**
    As written: three listeners that all handle the message, fail-safe, and the first
    is removed by another thread once its turn is over. The second is never offered
    the message, and the third turn's index runs off the list, so an exception
    escapes the fail-safe handler.
  */
  lemma ConcurrentRemovalSkipsAndEscapes(j: J8583, m: IsoMessage)
    ensures var ls := [Custom(1, True, True), Custom(2, True, True), Custom(3, True, True)];
      var live := (k: nat) => if k == 0 then ls else RemoveListener(ls, 1);
      var t := LiveDispatch(false, j, live, |ls|, 0, m);
      && t.visits == [Visit(1, true), Visit(3, true)]
      && t.status == Rethrown(INDEX_OUT_OF_BOUNDS)
      && INDEX_OUT_OF_BOUNDS.IsException()
  {
    var ls := [Custom(1, True, True), Custom(2, True, True), Custom(3, True, True)];
    var later := [Custom(2, True, True), Custom(3, True, True)];
    assert IndexOf(ls, 1) == 0;
    assert RemoveListener(ls, 1) == later;
    var live := (k: nat) => if k == 0 then ls else RemoveListener(ls, 1);
    var t2 := LiveDispatch(false, j, live, 3, 2, m);
    assert t2 == Trace([], [], Rethrown(INDEX_OUT_OF_BOUNDS));
    var t1 := LiveDispatch(false, j, live, 3, 1, m);
    assert live(1)[1] == Custom(3, True, True);
    assert t1 == Then(Trace([Visit(3, true)], [], Completed), t2);
    assert LiveDispatch(false, j, live, 3, 0, m) == Then(Trace([Visit(1, true)], [], Completed), t1);
  }

  /**
    Corrected: the walk over the copy-on-write snapshot taken when it starts, which is
    what `Dispatch` computes. Later changes to the list do not reach it, and in
    fail-safe mode nothing but an `Error` escapes.
  */
  function SnapshotDispatch(failOnError: bool, j: J8583, live: nat -> seq<IsoMessageListener>, m: IsoMessage): (t: Trace)
    ensures |t.visits| <= |live(0)|
    ensures forall k :: 0 <= k < |t.visits| ==> t.visits[k].id == live(0)[k].id
  {
    Dispatch(failOnError, j, live(0), m)
  }

  /** The corrected walk in the same interleaving: every listener is offered the message and nothing escapes. */
  lemma SnapshotSurvivesConcurrentRemoval(j: J8583, m: IsoMessage, live: nat -> seq<IsoMessageListener>)
    requires live(0) == [Custom(1, True, True), Custom(2, True, True), Custom(3, True, True)]
    ensures var t := SnapshotDispatch(false, j, live, m);
      t.visits == [Visit(1, true), Visit(2, true), Visit(3, true)] && t.status == Completed
  {
    var ls := [Custom(1, True, True), Custom(2, True, True), Custom(3, True, True)];
    assert Dispatch(false, j, ls, m).visits == [Visit(1, true), Visit(2, true), Visit(3, true)];
    assert SnapshotDispatch(false, j, live, m) == Dispatch(false, j, ls, m);
  }

  /** In fail-safe mode the corrected walk lets nothing but an `Error` escape, however the list changes. */
  lemma SnapshotFailSafe(j: J8583, m: IsoMessage, live: nat -> seq<IsoMessageListener>)
    ensures var t := SnapshotDispatch(false, j, live, m);
      t.status.Rethrown? ==> !t.status.cause.IsException()
  {
    FailSafeRethrowsOnlyErrors(j, live(0), m);
  }

  // ---------------------------------------------------------------------------
  // Registration

  /** `addListener`: appends. */
  function AddListener(listeners: seq<IsoMessageListener>, l: IsoMessageListener): (r: seq<IsoMessageListener>)
    ensures |r| == |listeners| + 1 && r[..|listeners|] == listeners && r[|listeners|] == l
  {
    listeners + [l]
  }

  /** `addListeners`: `addListener` for each argument, in argument order. */
  method AddListeners(listeners: seq<IsoMessageListener>, added: seq<IsoMessageListener>) returns (r: seq<IsoMessageListener>)
    ensures r == listeners + added
  {
    r := listeners;
    for k := 0 to |added|
      invariant r == listeners + added[..k]
    {
      assert added[..k + 1] == added[..k] + [added[k]];
      r := AddListener(r, added[k]);
    }
    assert added[..|added|] == added;
  }

  /** The position of the first listener with identity `id`, or -1. */
  function IndexOf(listeners: seq<IsoMessageListener>, id: nat): (i: int)
    ensures -1 <= i < |listeners|
    ensures 0 <= i ==> listeners[i].id == id
    ensures forall k :: 0 <= k < |listeners| && (i == -1 || k < i) ==> listeners[k].id != id
    decreases |listeners|
  {
    if |listeners| == 0 then -1
    else if listeners[0].id == id then 0
    else
      var i := IndexOf(listeners[1..], id);
      assert forall k :: 1 <= k < |listeners| ==> listeners[1..][k - 1] == listeners[k];
      if i == -1 then -1 else i + 1
  }

  /** How many registered entries have identity `id`. */
  function Count(listeners: seq<IsoMessageListener>, id: nat): nat
    decreases |listeners|
  {
    if |listeners| == 0 then 0
    else (if listeners[0].id == id then 1 else 0) + Count(listeners[1..], id)
  }

  /** `removeListener` (`CopyOnWriteArrayList.remove`): drops the first entry with that identity, if any. */
  function RemoveListener(listeners: seq<IsoMessageListener>, id: nat): (r: seq<IsoMessageListener>)
    ensures IndexOf(listeners, id) == -1 ==> r == listeners
    ensures var i := IndexOf(listeners, id);
      0 <= i ==> r == listeners[..i] + listeners[i + 1..]
  {
    var i := IndexOf(listeners, id);
    if i == -1 then listeners else listeners[..i] + listeners[i + 1..]
  }

  lemma {:induction false} CountAppend(a: seq<IsoMessageListener>, b: seq<IsoMessageListener>, id: nat)
    ensures Count(a + b, id) == Count(a, id) + Count(b, id)
    decreases |a|
  {
    if |a| == 0 {
      assert a + b == b;
    } else {
      assert (a + b)[1..] == a[1..] + b;
      CountAppend(a[1..], b, id);
    }
  }

  /** Count is zero exactly when no entry has that identity. */
  lemma {:induction false} CountZero(listeners: seq<IsoMessageListener>, id: nat)
    ensures Count(listeners, id) == 0 <==> IndexOf(listeners, id) == -1
    decreases |listeners|
  {
    if |listeners| > 0 {
      CountZero(listeners[1..], id);
    }
  }

  /** Removing takes away exactly one entry with that identity, if there was one, and no other entry. */
  lemma RemoveListenerCount(listeners: seq<IsoMessageListener>, id: nat, other: nat)
    ensures Count(RemoveListener(listeners, id), id) == if Count(listeners, id) == 0 then 0 else Count(listeners, id) - 1
    ensures other != id ==> Count(RemoveListener(listeners, id), other) == Count(listeners, other)
  {
    var i := IndexOf(listeners, id);
    CountZero(listeners, id);
    if i >= 0 {
      assert listeners == listeners[..i] + ([listeners[i]] + listeners[i + 1..]);
      CountAppend(listeners[..i], [listeners[i]] + listeners[i + 1..], id);
      CountAppend([listeners[i]], listeners[i + 1..], id);
      CountAppend(listeners[..i], listeners[i + 1..], id);
      CountAppend(listeners[..i], [listeners[i]] + listeners[i + 1..], other);
      CountAppend([listeners[i]], listeners[i + 1..], other);
      CountAppend(listeners[..i], listeners[i + 1..], other);
      assert [listeners[i]][1..] == [];
    }
  }

  /** A listener registered at most once, once removed, is never visited by a later dispatch. */
  lemma RemovedNeverVisited(failOnError: bool, j: J8583, listeners: seq<IsoMessageListener>, id: nat, m: IsoMessage)
    requires Count(listeners, id) <= 1
    ensures var t := Dispatch(failOnError, j, RemoveListener(listeners, id), m);
      forall i :: 0 <= i < |t.visits| ==> t.visits[i].id != id
  {
    var r := RemoveListener(listeners, id);
    RemoveListenerCount(listeners, id, id);
    CountZero(r, id);
  }

  // ---------------------------------------------------------------------------
  // The unit-test scenarios, for arbitrary listeners with the stated answers

  function Custom(id: nat, applies: Answer, answer: Answer): IsoMessageListener {
    IsoMessageListener(id, Behaviour.Custom(_ => applies, _ => Reply([], answer)))
  }

  /** After removing the second of three listeners, the first and third still handle the message. */
  lemma RemoveScenario(j: J8583, m: IsoMessage)
    ensures var ls := RemoveListener([Custom(1, True, True), Custom(2, True, True), Custom(3, True, True)], 2);
      Dispatch(true, j, ls, m).visits == [Visit(1, true), Visit(3, true)]
  {
    var ls := [Custom(1, True, True), Custom(2, True, True), Custom(3, True, True)];
    assert IndexOf(ls, 2) == 1;
    assert RemoveListener(ls, 2) == [Custom(1, True, True), Custom(3, True, True)];
  }

  /** Only the listener that applies handles the message; the walk still visits all three. */
  lemma AppropriateHandlerScenario(j: J8583, m: IsoMessage)
    ensures Dispatch(true, j, [Custom(1, False, True), Custom(2, True, True), Custom(3, False, True)], m).visits
         == [Visit(1, false), Visit(2, true), Visit(3, false)]
  {
  }

  /** A listener answering false stops the walk before the third listener. */
  lemma StopProcessingScenario(j: J8583, m: IsoMessage)
    ensures var t := Dispatch(true, j, [Custom(1, True, True), Custom(2, True, False), Custom(3, True, True)], m);
      t.visits == [Visit(1, true), Visit(2, true)] && t.status == Completed
  {
  }

  /** Fail-safe: an exception from the second listener's `applies` is swallowed and the third still runs. */
  lemma FailSafeScenario(j: J8583, m: IsoMessage)
    ensures var t := Dispatch(false, j, [Custom(1, True, True), Custom(2, Throws(OtherException("Expected exception")), True), Custom(3, True, True)], m);
      t.visits == [Visit(1, true), Visit(2, false), Visit(3, true)] && t.status == Completed
  {
  }

  /** Fail-fast: the same exception ends the walk and is rethrown, so the message is not passed on. */
  lemma FailFastScenario(j: J8583, m: IsoMessage)
    ensures var ls := [Custom(1, True, True), Custom(2, Throws(OtherException("Expected exception")), True), Custom(3, True, True)];
      var t := Dispatch(true, j, ls, m);
      && t.visits == [Visit(1, true), Visit(2, false)]
      && t.status == Rethrown(OtherException("Expected exception"))
      && !ChannelRead(true, j, ls, Iso(m)).forwarded
  {
  }

  /** In fail-safe mode only an `Error` can end a dispatch with a throw. */
  lemma FailSafeRethrowsOnlyErrors(j: J8583, listeners: seq<IsoMessageListener>, m: IsoMessage)
    ensures var t := Dispatch(false, j, listeners, m);
      t.status.Rethrown? ==> !t.status.cause.IsException()
  {
    DispatchCharacterized(false, j, listeners, m);
  }

  /** In fail-fast mode any throw from a visited listener ends the walk right there. */
  lemma FailFastStopsAtThrow(j: J8583, listeners: seq<IsoMessageListener>, m: IsoMessage, i: nat)
    requires i < |listeners|
    requires Applies(j, listeners[i], m).Throws?
    requires forall k :: 0 <= k < i ==> Continues(true, j, listeners[k], m)
    ensures var t := Dispatch(true, j, listeners, m);
      |t.visits| == i + 1 && t.status == Rethrown(Applies(j, listeners[i], m).cause)
  {
    DispatchCharacterized(true, j, listeners, m);
    var t := Dispatch(true, j, listeners, m);
    assert !Continues(true, j, listeners[i], m);
  }
}
