/** examples/hiveworm-app/network.js in its own form: handlers that update the fields of one object. */
module NetworkClient {
  import opened Wrappers
  import opened LiveUpdates

  class Network<E> {
    var stopped: bool
    var ws: Option<nat>
    var wsState: WsState
    var pollTimer: Option<nat>
    var lastLogIndex: nat

    // What the browser holds for this object.
    var sockets: seq<Socket>
    var reconnects: nat
    var armed: set<nat>
    var nextTimer: nat
    var logCalls: seq<nat>
    var stateCalls: nat

    // The relay's log, and what onEntry has been given while polling.
    ghost var log: seq<E>
    ghost var polled: seq<E>
    ghost var thrown: nat

    ghost function Value(): Client<E>
      reads this
    {
      Client(stopped, ws, wsState, pollTimer, lastLogIndex, sockets, reconnects, armed, nextTimer,
             logCalls, stateCalls, log, polled, thrown)
    }

    constructor (ghost log: seq<E>)
      ensures Value() == NewClient(log)
    {
      stopped, ws, wsState, pollTimer, lastLogIndex := false, None, Idle, None, 0;
      sockets, reconnects, armed, nextTimer, logCalls, stateCalls := [], 0, {}, 0, [], 0;
      this.log, polled, thrown := log, [], 0;
    }

    method StartUp(constructs: bool)
      modifies this
      ensures Value() == Step(old(Value()), Start(constructs))
    {
      stopped := false;
      ConnectWs(constructs);
    }

    method ShutDown()
      modifies this
      ensures Value() == Step(old(Value()), Stop)
    {
      stopped := true;
      if ws.Some? { ws := None; }
      if pollTimer.Some? {
        armed := armed - {pollTimer.value};
        pollTimer := None;
      }
    }

    method ConnectWs(constructs: bool)
      modifies this
      ensures Value() == LiveUpdates.ConnectWs(old(Value()), constructs)
    {
      if stopped { return; }
      wsState := Connecting;
      if !constructs {
        FallbackToPolling();
        return;
      }
      ws := Some(|sockets|);
      sockets := sockets + [Socket(false, false)];
    }

    method OnOpen(id: nat)
      requires Enabled(Value(), SocketOpens(id))
      modifies this
      ensures Value() == Step(old(Value()), SocketOpens(id))
    {
      sockets := sockets[id := sockets[id].(wasOpen := true)];
      wsState := Open;
    }

    method OnClose(id: nat)
      requires Enabled(Value(), SocketCloses(id))
      modifies this
      ensures Value() == Step(old(Value()), SocketCloses(id))
    {
      sockets := sockets[id := sockets[id].(closed := true)];
      wsState := Closed;
      if stopped { return; }
      if !sockets[id].wasOpen {
        FallbackToPolling();
      } else {
        reconnects := reconnects + 1;
      }
    }

    method OnReconnect(constructs: bool)
      requires Enabled(Value(), ReconnectFires(constructs))
      modifies this
      ensures Value() == Step(old(Value()), ReconnectFires(constructs))
    {
      reconnects := reconnects - 1;
      ConnectWs(constructs);
    }

    method FallbackToPolling()
      modifies this
      ensures Value() == LiveUpdates.FallbackToPolling(old(Value()))
    {
      if stopped { return; }
      if pollTimer.Some? { return; }
      Poll();
    }

    /** _poll up to its first await. */
    method Poll()
      modifies this
      ensures Value() == LiveUpdates.Poll(old(Value()))
    {
      if stopped { return; }
      logCalls := logCalls + [lastLogIndex];
    }

    method OnPollTimer(timer: nat)
      requires Enabled(Value(), PollFires(timer))
      modifies this
      ensures Value() == Step(old(Value()), PollFires(timer))
    {
      armed := armed - {timer};
      Poll();
    }

    /** The finally clause of _poll. */
    method Finally()
      modifies this
      ensures Value() == Rearm(old(Value()))
    {
      if stopped { return; }
      pollTimer := Some(nextTimer);
      armed := armed + {nextTimer};
      nextTimer := nextTimer + 1;
    }

    /** The loop that hands entries to onEntry, up to and including the one where onEntry throws. */
    method Deliver(entries: seq<E>, throwsAt: Option<nat>)
      requires throwsAt.Some? ==> throwsAt.value < |entries|
      modifies this`polled, this`thrown
      ensures polled == old(polled) + if throwsAt.Some? then entries[..throwsAt.value + 1] else entries
      ensures thrown == old(thrown) + if throwsAt.Some? then 1 else 0
    {
      var i := 0;
      while i < |entries|
        invariant 0 <= i <= |entries|
        invariant throwsAt.Some? ==> i <= throwsAt.value
        invariant polled == old(polled) + entries[..i] && thrown == old(thrown)
      {
        polled := polled + [entries[i]];
        assert polled == old(polled) + entries[..i + 1];
        if throwsAt == Some(i) {
          thrown := thrown + 1;
          return;
        }
        i := i + 1;
      }
    }

    /** The delivery and, unless onEntry throws, the new index. */
    method DeliverFrom(start: nat, entries: seq<E>, throwsAt: Option<nat>)
      requires start + |entries| <= |log| && entries == log[start..start + |entries|]
      requires throwsAt.Some? ==> throwsAt.value < |entries|
      modifies this`polled, this`thrown, this`lastLogIndex
      ensures if throwsAt.Some? then
                && polled == old(polled) + log[start..start + throwsAt.value + 1]
                && thrown == old(thrown) + 1 && lastLogIndex == old(lastLogIndex)
              else
                && polled == old(polled) + log[start..start + |entries|]
                && thrown == old(thrown) && lastLogIndex == start + |entries|
    {
      Deliver(entries, throwsAt);
      if throwsAt.Some? {
        assert entries[..throwsAt.value + 1] == log[start..start + throwsAt.value + 1];
      } else {
        lastLogIndex := start + |entries|;
      }
    }

    /** _poll from the answer of getLog on. */
    method OnLog(call: nat, entries: seq<E>, throwsAt: Option<nat>)
      requires call < |logCalls|
      requires var upTo := logCalls[call] + |entries|;
               Enabled(Value(), LogAnswers(call, upTo, throwsAt)) && entries == log[logCalls[call]..upTo]
      modifies this
      ensures Value() == Step(old(Value()), LogAnswers(call, old(logCalls[call]) + |entries|, throwsAt))
    {
      var start := logCalls[call];
      logCalls := logCalls[..call] + logCalls[call + 1..];
      if |entries| > 0 {
        DeliverFrom(start, entries, throwsAt);
        Finally();
      } else if lastLogIndex == 0 {
        stateCalls := stateCalls + 1;
      } else {
        Finally();
      }
    }

    method OnLogError(call: nat)
      requires Enabled(Value(), LogFails(call))
      modifies this
      ensures Value() == Step(old(Value()), LogFails(call))
    {
      logCalls := logCalls[..call] + logCalls[call + 1..];
      Finally();
    }

    method OnState()
      requires Enabled(Value(), StateAnswers)
      modifies this
      ensures Value() == Step(old(Value()), StateAnswers)
    {
      stateCalls := stateCalls - 1;
      Finally();
    }
  }
}
