/** examples/hiveworm-app/network.js: the live-update client as a machine over the callbacks of the browser. */
module LiveUpdates {
  import opened Wrappers

  datatype WsState = Idle | Connecting | Open | Closed

  /** A WebSocket: the `opened` flag of its handlers, and whether its close event has fired. */
  datatype Socket = Socket(wasOpen: bool, closed: bool)

  /** The fields of Network, and what the browser still owes it: unclosed sockets, pending
      reconnect timers, armed poll timers and unanswered fetches. `log` is the relay's log,
      `polled` the entries polling has handed to onEntry, `thrown` how often onEntry threw. */
  datatype Client<E> = Client(
    stopped: bool,
    ws: Option<nat>,
    wsState: WsState,
    pollTimer: Option<nat>,
    lastLogIndex: nat,
    sockets: seq<Socket>,
    reconnects: nat,
    armed: set<nat>,
    nextTimer: nat,
    logCalls: seq<nat>,
    stateCalls: nat,
    log: seq<E>,
    polled: seq<E>,
    thrown: nat)

  datatype Event<E> =
    | Start(constructs: bool)
    | Stop
    | SocketOpens(id: nat)
    | SocketCloses(id: nat)
    | ReconnectFires(constructs: bool)
    | PollFires(timer: nat)
    | LogAnswers(call: nat, upTo: nat, throwsAt: Option<nat>)
    | LogFails(call: nat)
    | StateAnswers
    | LogGrows(more: seq<E>)

  function NewClient<E>(log: seq<E>): Client<E> {
    Client(false, None, Idle, None, 0, [], 0, {}, 0, [], 0, log, [], 0)
  }

  /** What the browser may run next. The relay answers getLog with log[from..upTo]. */
  predicate Enabled<E>(c: Client<E>, e: Event<E>) {
    match e
    case SocketOpens(id) => id < |c.sockets| && !c.sockets[id].closed && !c.sockets[id].wasOpen
    case SocketCloses(id) => id < |c.sockets| && !c.sockets[id].closed
    case ReconnectFires(_) => c.reconnects > 0
    case PollFires(timer) => timer in c.armed
    case LogAnswers(call, upTo, throwsAt) =>
      && call < |c.logCalls| && c.logCalls[call] <= upTo <= |c.log|
      && (throwsAt.Some? ==> throwsAt.value < upTo - c.logCalls[call])
    case LogFails(call) => call < |c.logCalls|
    case StateAnswers => c.stateCalls > 0
    case _ => true
  }

  // ---------------------------------------------------------------- the methods of Network

  function Poll<E>(c: Client<E>): Client<E> {
    if c.stopped then c else c.(logCalls := c.logCalls + [c.lastLogIndex])
  }

  function FallbackToPolling<E>(c: Client<E>): Client<E> {
    if c.stopped || c.pollTimer.Some? then c else Poll(c)
  }

  function ConnectWs<E>(c: Client<E>, constructs: bool): Client<E> {
    if c.stopped then c
    else if !constructs then FallbackToPolling(c.(wsState := Connecting))
    else c.(wsState := Connecting, ws := Some(|c.sockets|), sockets := c.sockets + [Socket(false, false)])
  }

  function DoStop<E>(c: Client<E>): Client<E> {
    c.(stopped := true, ws := None, pollTimer := None,
       armed := if c.pollTimer.Some? then c.armed - {c.pollTimer.value} else c.armed)
  }

  function OnClose<E>(c: Client<E>, id: nat): Client<E>
    requires id < |c.sockets|
  {
    var d := c.(wsState := Closed, sockets := c.sockets[id := c.sockets[id].(closed := true)]);
    if c.stopped then d
    else if !c.sockets[id].wasOpen then FallbackToPolling(d)
    else d.(reconnects := d.reconnects + 1)
  }

  /** The `finally` of _poll. */
  function Rearm<E>(c: Client<E>): Client<E> {
    if c.stopped then c
    else c.(pollTimer := Some(c.nextTimer), armed := c.armed + {c.nextTimer}, nextTimer := c.nextTimer + 1)
  }

  function Without<T>(s: seq<T>, i: nat): seq<T>
    requires i < |s|
  {
    s[..i] + s[i + 1..]
  }

  /** The rest of _poll once getLog has answered. */
  function OnLog<E>(c: Client<E>, call: nat, upTo: nat, throwsAt: Option<nat>): Client<E>
    requires Enabled(c, LogAnswers(call, upTo, throwsAt))
  {
    var start := c.logCalls[call];
    var d := c.(logCalls := Without(c.logCalls, call));
    if upTo > start then
      if throwsAt.Some? then
        Rearm(d.(polled := d.polled + d.log[start..start + throwsAt.value + 1], thrown := d.thrown + 1))
      else Rearm(d.(polled := d.polled + d.log[start..upTo], lastLogIndex := upTo))
    else if d.lastLogIndex == 0 then d.(stateCalls := d.stateCalls + 1)
    else Rearm(d)
  }

  function Step<E>(c: Client<E>, e: Event<E>): Client<E>
    requires Enabled(c, e)
  {
    match e
    case Start(constructs) => ConnectWs(c.(stopped := false), constructs)
    case Stop => DoStop(c)
    case SocketOpens(id) => c.(wsState := Open, sockets := c.sockets[id := c.sockets[id].(wasOpen := true)])
    case SocketCloses(id) => OnClose(c, id)
    case ReconnectFires(constructs) => ConnectWs(c.(reconnects := c.reconnects - 1), constructs)
    case PollFires(timer) => Poll(c.(armed := c.armed - {timer}))
    case LogAnswers(call, upTo, throwsAt) => OnLog(c, call, upTo, throwsAt)
    case LogFails(call) => Rearm(c.(logCalls := Without(c.logCalls, call)))
    case StateAnswers => Rearm(c.(stateCalls := c.stateCalls - 1))
    case LogGrows(more) => c.(log := c.log + more)
  }

  // ---------------------------------------------------------------- modes

  function Unclosed(sockets: seq<Socket>): nat {
    if sockets == [] then 0
    else Unclosed(sockets[..|sockets| - 1]) + if sockets[|sockets| - 1].closed then 0 else 1
  }

  /** Armed poll timers and unanswered poll requests. */
  function PollChains<E>(c: Client<E>): nat {
    |c.armed| + |c.logCalls| + c.stateCalls
  }

  /** Everything that is going on: live sockets, pending reconnects, polling. */
  function Activity<E>(c: Client<E>): nat {
    Unclosed(c.sockets) + c.reconnects + PollChains(c)
  }

  lemma {:induction false} UnclosedUpdate(sockets: seq<Socket>, id: nat, s: Socket)
    requires id < |sockets| && !sockets[id].closed
    ensures Unclosed(sockets) >= 1
    ensures Unclosed(sockets[id := s]) == Unclosed(sockets) - if s.closed then 1 else 0
  {
    var n := |sockets| - 1;
    if id == n {
      assert sockets[id := s][..n] == sockets[..n];
    } else {
      UnclosedUpdate(sockets[..n], id, s);
      assert sockets[id := s][..n] == sockets[..n][id := s];
    }
  }

  lemma UnclosedSnoc(sockets: seq<Socket>, s: Socket)
    ensures Unclosed(sockets + [s]) == Unclosed(sockets) + if s.closed then 0 else 1
  {
    assert (sockets + [s])[..|sockets|] == sockets;
  }

  /** Timers are numbered in order; only the one in _pollTimer can be armed; until polling starts
      there is none; the one outstanding log request asks for what has not been delivered. */
  ghost predicate Sound<E>(c: Client<E>) {
    && (forall t | t in c.armed :: t < c.nextTimer)
    && (forall t | t in c.armed :: c.pollTimer == Some(t))
    && (PollChains(c) == 0 && !c.stopped ==> c.pollTimer == None)
    && c.lastLogIndex <= |c.log|
    && (forall i | 0 <= i < |c.logCalls| :: c.logCalls[i] == c.lastLogIndex)
    && (if c.thrown == 0 then c.polled == c.log[..c.lastLogIndex] else |c.polled| > c.lastLogIndex)
  }

  /** Running: exactly one mode. Stopped: what was under way may still finish. */
  ghost predicate Inv<E>(c: Client<E>) {
    && Sound(c)
    && Activity(c) <= 1
    && (!c.stopped ==> Activity(c) == 1)
    && (c.stopped ==> c.armed == {} && c.pollTimer == None)
  }

  lemma StartSound<E>(log: seq<E>, constructs: bool)
    ensures Inv(Step(NewClient(log), Start(constructs)))
  {
    UnclosedSnoc([], Socket(false, false));
  }

  lemma StepSocketCloses<E>(c: Client<E>, id: nat)
    requires Inv(c) && Enabled(c, SocketCloses(id))
    ensures Inv(Step(c, SocketCloses(id))) && Activity(Step(c, SocketCloses(id))) <= Activity(c)
    ensures PollChains(Step(c, SocketCloses(id))) >= PollChains(c)
  {
    UnclosedUpdate(c.sockets, id, c.sockets[id].(closed := true));
  }

  lemma StepSocketOpens<E>(c: Client<E>, id: nat)
    requires Inv(c) && Enabled(c, SocketOpens(id))
    ensures Inv(Step(c, SocketOpens(id))) && Activity(Step(c, SocketOpens(id))) == Activity(c)
  {
    UnclosedUpdate(c.sockets, id, c.sockets[id].(wasOpen := true));
  }

  lemma StepReconnect<E>(c: Client<E>, constructs: bool)
    requires Inv(c) && Enabled(c, ReconnectFires(constructs))
    ensures Inv(Step(c, ReconnectFires(constructs))) && Activity(Step(c, ReconnectFires(constructs))) <= Activity(c)
  {
    ReconnectAlone(c);
    ConnectFromIdle(c.(reconnects := 0), constructs);
  }

  /** A pending reconnect is all that is going on. */
  lemma ReconnectAlone<E>(c: Client<E>)
    requires Inv(c) && c.reconnects > 0
    ensures c.reconnects == 1 && Unclosed(c.sockets) == 0
    ensures c.armed == {} && c.logCalls == [] && c.stateCalls == 0 && c.pollTimer == None
  {
    assert |c.armed| == 0;
  }

  lemma SocketFromIdle<E>(c: Client<E>)
    requires Sound(c) && Activity(c) == 0 && !c.stopped
    ensures Inv(ConnectWs(c, true)) && Activity(ConnectWs(c, true)) == 1
  {
    UnclosedSnoc(c.sockets, Socket(false, false));
  }

  lemma PollFromIdle<E>(c: Client<E>)
    requires Sound(c) && Activity(c) == 0 && !c.stopped
    ensures Inv(ConnectWs(c, false)) && Activity(ConnectWs(c, false)) == 1
  {
    assert ConnectWs(c, false).logCalls == [c.lastLogIndex];
  }

  /** Connecting when nothing goes on. */
  lemma ConnectFromIdle<E>(c: Client<E>, constructs: bool)
    requires Sound(c) && Activity(c) == 0 && c.armed == {} && c.logCalls == [] && c.pollTimer == None
    ensures Inv(ConnectWs(c, constructs)) && Activity(ConnectWs(c, constructs)) == if c.stopped then 0 else 1
  {
    if !c.stopped {
      if constructs {
        SocketFromIdle(c);
      } else {
        PollFromIdle(c);
      }
    }
  }

  lemma ArmedAlone<E>(c: Client<E>)
    requires Sound(c) && Activity(c) <= 1 && c.armed != {}
    ensures c.pollTimer.Some? && c.armed == {c.pollTimer.value} && c.logCalls == [] && c.stateCalls == 0
  {
    var t :| t in c.armed;
    assert c.armed == {t};
  }

  lemma StepStop<E>(c: Client<E>)
    requires Inv(c)
    ensures Inv(Step(c, Stop)) && Activity(Step(c, Stop)) <= Activity(c)
  {
    if c.armed != {} {
      ArmedAlone(c);
    }
  }

  lemma StepPollFires<E>(c: Client<E>, timer: nat)
    requires Inv(c) && Enabled(c, PollFires(timer))
    ensures Inv(Step(c, PollFires(timer))) && PollChains(Step(c, PollFires(timer))) == PollChains(c)
  {
    ArmedAlone(c);
  }

  lemma RearmSound<E>(c: Client<E>)
    requires Sound(c.(pollTimer := None)) && c.armed == {} && PollChains(c) == 0
    requires Unclosed(c.sockets) + c.reconnects == 0 && (c.stopped ==> c.pollTimer == None)
    ensures Inv(Rearm(c)) && PollChains(Rearm(c)) == if c.stopped then 0 else 1
  {
  }

  lemma OneCall<E>(c: Client<E>, call: nat)
    requires Inv(c) && call < |c.logCalls|
    ensures c.logCalls == [c.lastLogIndex] && call == 0 && Without(c.logCalls, call) == []
    ensures c.armed == {} && c.stateCalls == 0 && Unclosed(c.sockets) + c.reconnects == 0
  {
    assert |c.armed| == 0;
  }

  lemma StepLogAnswers<E>(c: Client<E>, call: nat, upTo: nat, throwsAt: Option<nat>)
    requires Inv(c) && Enabled(c, LogAnswers(call, upTo, throwsAt))
    ensures var d := Step(c, LogAnswers(call, upTo, throwsAt));
            Inv(d) && Activity(d) <= Activity(c) && (!c.stopped ==> PollChains(d) == 1)
  {
    OneCall(c, call);
    var start := c.lastLogIndex;
    var d := c.(logCalls := []);
    assert c.logCalls[call] == start;
    if upTo > start {
      if throwsAt.Some? {
        RearmSound(d.(polled := d.polled + d.log[start..start + throwsAt.value + 1], thrown := d.thrown + 1));
      } else {
        assert c.log[..start] + c.log[start..upTo] == c.log[..upTo];
        RearmSound(d.(polled := d.polled + d.log[start..upTo], lastLogIndex := upTo));
      }
    } else if start != 0 {
      RearmSound(d);
    }
  }

  /** Every callback the browser can run keeps the invariant, and none but Start adds activity. */
  lemma InvStep<E>(c: Client<E>, e: Event<E>)
    requires Inv(c) && Enabled(c, e) && !e.Start?
    ensures Inv(Step(c, e)) && Activity(Step(c, e)) <= Activity(c)
  {
    match e
    case SocketCloses(id) => StepSocketCloses(c, id);
    case SocketOpens(id) => StepSocketOpens(c, id);
    case ReconnectFires(constructs) => StepReconnect(c, constructs);
    case Stop => StepStop(c);
    case PollFires(timer) => StepPollFires(c, timer);
    case LogAnswers(call, upTo, throwsAt) => StepLogAnswers(c, call, upTo, throwsAt);
    case LogFails(call) =>
      OneCall(c, call);
      RearmSound(c.(logCalls := []));
    case StateAnswers =>
      assert |c.armed| == 0;
      RearmSound(c.(stateCalls := 0));
    case LogGrows(more) => assert (c.log + more)[..c.lastLogIndex] == c.log[..c.lastLogIndex];
  }

  /** Once polling, always polling, until Stop. */
  lemma PollingStays<E>(c: Client<E>, e: Event<E>)
    requires Inv(c) && Enabled(c, e) && !e.Start? && !e.Stop? && !c.stopped && PollChains(c) == 1
    ensures PollChains(Step(c, e)) == 1 && !Step(c, e).stopped
  {
    InvStep(c, e);
    match e
    case SocketCloses(id) => UnclosedUpdate(c.sockets, id, c.sockets[id].(closed := true));
    case LogAnswers(call, upTo, throwsAt) => StepLogAnswers(c, call, upTo, throwsAt);
    case PollFires(timer) => StepPollFires(c, timer);
    case LogFails(call) =>
      OneCall(c, call);
      RearmSound(c.(logCalls := []));
    case StateAnswers =>
      assert |c.armed| == 0;
      RearmSound(c.(stateCalls := 0));
    case _ =>
  }

  /** How modes change while running: a socket that had opened is followed by a reconnect wait, one that never
      opened by polling ... */
  lemma AfterClose<E>(c: Client<E>, id: nat)
    requires Inv(c) && Enabled(c, SocketCloses(id)) && !c.stopped
    ensures var d := Step(c, SocketCloses(id));
            if c.sockets[id].wasOpen then d.reconnects == 1 else d.logCalls == [c.lastLogIndex]
  {
    UnclosedUpdate(c.sockets, id, c.sockets[id].(closed := true));
    assert c.logCalls == [] && c.reconnects == 0;
  }

  /** ... a reconnect opens a new socket, or polls when none can be constructed. */
  lemma AfterReconnect<E>(c: Client<E>, constructs: bool)
    requires Inv(c) && Enabled(c, ReconnectFires(constructs)) && !c.stopped
    ensures var d := Step(c, ReconnectFires(constructs));
            if constructs then Unclosed(d.sockets) == 1 else d.logCalls == [c.lastLogIndex]
  {
    UnclosedSnoc(c.sockets, Socket(false, false));
    assert c.logCalls == [];
  }

  /** A poll timer asks for what is missing; an answer or a failure arms the next timer, except that the
      first answer, when there is nothing yet, pulls the state; an answer without a throw advances the index. */
  lemma AfterPoll<E>(c: Client<E>, e: Event<E>)
    requires Inv(c) && Enabled(c, e) && !c.stopped && (e.PollFires? || e.LogAnswers? || e.LogFails?)
    ensures e.PollFires? ==> Step(c, e).logCalls == [c.lastLogIndex]
    ensures e.LogFails? ==> |Step(c, e).armed| == 1 && Step(c, e).lastLogIndex == c.lastLogIndex
    ensures e.LogAnswers? && e.throwsAt.None? ==> Step(c, e).lastLogIndex == e.upTo
    ensures e.LogAnswers? ==> if e.upTo == 0 then Step(c, e).stateCalls == 1 else |Step(c, e).armed| == 1
  {
    match e
    case PollFires(timer) => ArmedAlone(c);
    case LogAnswers(call, upTo, throwsAt) => OneCall(c, call);
    case LogFails(call) => OneCall(c, call);
  }

  datatype Mode = Nothing | OnSocket | Waiting | Polling

  function ModeOf<E>(c: Client<E>): Mode {
    if PollChains(c) > 0 then Polling
    else if c.reconnects > 0 then Waiting
    else if Unclosed(c.sockets) > 0 then OnSocket
    else Nothing
  }

  /** The mode is what is going on, and there is nothing else; so while the client runs there is a mode. */
  lemma ModeMeaning<E>(c: Client<E>)
    requires Inv(c)
    ensures !c.stopped ==> ModeOf(c) != Nothing
    ensures match ModeOf(c)
            case Polling => PollChains(c) == 1 && c.reconnects == 0 && Unclosed(c.sockets) == 0
            case Waiting => c.reconnects == 1 && PollChains(c) == 0 && Unclosed(c.sockets) == 0
            case OnSocket => Unclosed(c.sockets) == 1 && PollChains(c) == 0 && c.reconnects == 0
            case Nothing => c.stopped && Activity(c) == 0
  {
  }

  /** Everything under way can come to pass, and start(), stop() and new entries at any time. */
  lemma NothingBarred<E>(c: Client<E>, id: nat, constructs: bool, more: seq<E>)
    ensures Enabled(c, Start(constructs)) && Enabled(c, Stop) && Enabled(c, LogGrows(more))
    ensures Enabled(c, ReconnectFires(constructs)) <==> c.reconnects != 0
    ensures Enabled(c, StateAnswers) <==> c.stateCalls != 0
    ensures Enabled(c, LogFails(id)) <==> id < |c.logCalls|
    ensures id < |c.sockets| && !c.sockets[id].closed ==> Enabled(c, SocketCloses(id))
    ensures id < |c.sockets| && c.sockets[id] == Socket(false, false) ==> Enabled(c, SocketOpens(id))
    ensures id < |c.logCalls| && c.logCalls[id] <= |c.log| ==>
              Enabled(c, LogAnswers(id, |c.log|, None)) && Enabled(c, LogAnswers(id, c.logCalls[id], None))
  {
  }

  /** While running, only two callbacks change the mode: the close of the socket, towards a reconnect wait if it had
      opened and polling if not, and the reconnect timer, towards a socket if one can be constructed and polling if not. */
  lemma ModeStep<E>(c: Client<E>, e: Event<E>)
    requires Inv(c) && Enabled(c, e) && !e.Start? && !e.Stop? && !c.stopped
    ensures !Step(c, e).stopped
    ensures ModeOf(Step(c, e)) ==
            match e
            case SocketCloses(id) => if c.sockets[id].wasOpen then Waiting else Polling
            case ReconnectFires(constructs) => if constructs then OnSocket else Polling
            case _ => ModeOf(c)
  {
    InvStep(c, e);
    match e
    case SocketCloses(id) => AfterClose(c, id);
    case ReconnectFires(constructs) => AfterReconnect(c, constructs);
    case SocketOpens(id) => UnclosedUpdate(c.sockets, id, c.sockets[id].(wasOpen := true));
    case LogGrows(_) =>
    case _ => PollingStays(c, e);
  }

  lemma AnswerCatchesUp<E>(c: Client<E>)
    requires Inv(c) && !c.stopped && c.thrown == 0 && |c.logCalls| == 1
    ensures Enabled(c, LogAnswers(0, |c.log|, None))
    ensures var d := Step(c, LogAnswers(0, |c.log|, None));
            Inv(d) && d.polled == d.log == c.log && d.lastLogIndex == |c.log| && ModeOf(d) == Polling
  {
    OneCall(c, 0);
    var e := LogAnswers(0, |c.log|, None);
    assert Enabled(c, e);
    AfterPoll(c, e);
    StepLogAnswers(c, 0, |c.log|, None);
    var d := Step(c, e);
    assert d.log[..d.lastLogIndex] == d.log;
  }

  /** Polling catches up: when the timer fires and the relay answers, everything in the log has been delivered,
      in order and once. */
  lemma PollingCatchesUp<E>(c: Client<E>, timer: nat)
    requires Inv(c) && !c.stopped && Enabled(c, PollFires(timer)) && c.thrown == 0
    ensures var asked := Step(c, PollFires(timer));
            && Enabled(asked, LogAnswers(0, |c.log|, None))
            && var d := Step(asked, LogAnswers(0, |c.log|, None));
               Inv(d) && d.polled == d.log == c.log && d.lastLogIndex == |c.log| && ModeOf(d) == Polling
  {
    AfterPoll(c, PollFires(timer));
    StepPollFires(c, timer);
    AnswerCatchesUp(Step(c, PollFires(timer)));
  }

  // ---------------------------------------------------------------- runs

  ghost predicate IsRun<E>(c: Client<E>, events: seq<Event<E>>, d: Client<E>)
    decreases |events|
  {
    if events == [] then c == d
    else Enabled(c, events[0]) && IsRun(Step(c, events[0]), events[1..], d)
  }

  ghost predicate NoStart<E>(events: seq<Event<E>>) {
    forall i | 0 <= i < |events| :: !events[i].Start?
  }

  lemma {:induction false} InvRun<E>(c: Client<E>, events: seq<Event<E>>, d: Client<E>)
    requires Inv(c) && IsRun(c, events, d) && NoStart(events)
    ensures Inv(d) && Activity(d) <= Activity(c)
    decreases |events|
  {
    if events != [] {
      InvStep(c, events[0]);
      InvRun(Step(c, events[0]), events[1..], d);
    }
  }

  ghost predicate NoStop<E>(events: seq<Event<E>>) {
    forall i | 0 <= i < |events| :: !events[i].Stop?
  }

  /** Polling once entered is never left, over any run without a start or stop. */
  lemma {:induction false} PollingForGood<E>(c: Client<E>, events: seq<Event<E>>, d: Client<E>)
    requires Inv(c) && IsRun(c, events, d) && NoStart(events) && NoStop(events)
    requires !c.stopped && ModeOf(c) == Polling
    ensures !d.stopped && ModeOf(d) == Polling
    decreases |events|
  {
    if events != [] {
      var e := events[0];
      PollingStays(c, e);
      InvStep(c, e);
      PollingForGood(Step(c, e), events[1..], d);
    }
  }

  /** After one start(), whatever the browser does: until stop() the client is in exactly one mode, and polling
      has delivered exactly the first lastLogIndex entries of the log, in order and once each,
      if and only if onEntry has never thrown. */
  lemma OneModeOneDelivery<E>(log: seq<E>, constructs: bool, events: seq<Event<E>>, d: Client<E>)
    requires IsRun(Step(NewClient(log), Start(constructs)), events, d) && NoStart(events)
    ensures !d.stopped ==> Activity(d) == 1
    ensures d.stopped ==> Activity(d) <= 1 && d.armed == {}
    ensures d.lastLogIndex <= |d.log|
    ensures d.polled == d.log[..d.lastLogIndex] <==> d.thrown == 0
  {
    StartSound(log, constructs);
    InvRun(Step(NewClient(log), Start(constructs)), events, d);
  }

  // ---------------------------------------------------------------- the state shown

  /** What the callbacks make of wsState and of the current socket: a new socket is connecting and current, its events
      are shown, stop() drops it; polling and timers show nothing. */
  lemma StateShown<E>(c: Client<E>, e: Event<E>)
    requires Enabled(c, e)
    ensures var d := Step(c, e);
            match e
            case Start(constructs) =>
              d.wsState == Connecting && !d.stopped && (constructs ==> d.ws == Some(|c.sockets|) && |d.sockets| == |c.sockets| + 1)
            case ReconnectFires(constructs) =>
              if c.stopped then d.wsState == c.wsState && d.ws == c.ws
              else d.wsState == Connecting && (constructs ==> d.ws == Some(|c.sockets|))
            case SocketOpens(id) => d.wsState == Open && d.ws == c.ws && d.sockets[id].wasOpen && !d.sockets[id].closed
            case SocketCloses(id) => d.wsState == Closed && d.ws == c.ws && d.sockets[id].closed
            case Stop => d.stopped && d.ws == None && d.wsState == c.wsState && d.sockets == c.sockets
            case _ => d.wsState == c.wsState && d.ws == c.ws && d.sockets == c.sockets
  {
  }

  /** A new client is idle, has heard of nothing and has nothing under way. */
  lemma NewIsIdle<E>(log: seq<E>)
    ensures var c := NewClient(log);
            !c.stopped && c.wsState == Idle && c.ws == None && c.lastLogIndex == 0 && c.polled == [] && Activity(c) == 0 && c.log == log
  {
  }

  // ---------------------------------------------------------------- several starts

  /** start() with nothing under way, or start() while polling when no socket can be constructed. */
  predicate CleanStart<E>(c: Client<E>, constructs: bool) {
    Activity(c) == 0 || (!constructs && c.pollTimer.Some?)
  }

  /** A start keeps the invariant, delivery included, exactly when it is clean. */
  lemma Restart<E>(c: Client<E>, constructs: bool)
    requires Inv(c)
    ensures Inv(Step(c, Start(constructs))) <==> CleanStart(c, constructs)
    ensures c.stopped ==> Activity(Step(c, Start(constructs))) == Activity(c) + 1
  {
    UnclosedSnoc(c.sockets, Socket(false, false));
    if Activity(c) == 0 {
      ConnectFromIdle(c.(stopped := false), constructs);
    }
  }

  ghost predicate CleanStarts<E>(c: Client<E>, events: seq<Event<E>>)
    decreases |events|
  {
    events == [] || (Enabled(c, events[0]) ==>
      (events[0].Start? ==> CleanStart(c, events[0].constructs)) && CleanStarts(Step(c, events[0]), events[1..]))
  }

  /** The invariant holds in every state of a run. */
  ghost predicate InvThroughout<E>(c: Client<E>, events: seq<Event<E>>)
    decreases |events|
  {
    Inv(c) && (events == [] || (Enabled(c, events[0]) ==> InvThroughout(Step(c, events[0]), events[1..])))
  }

  /** Over any run, with any number of starts and stops, the invariant holds throughout exactly when every start is clean. */
  lemma {:induction false} InvThroughoutIff<E>(c: Client<E>, events: seq<Event<E>>)
    requires Inv(c)
    ensures InvThroughout(c, events) <==> CleanStarts(c, events)
    decreases |events|
  {
    if events != [] && Enabled(c, events[0]) {
      var d := Step(c, events[0]);
      if events[0].Start? {
        Restart(c, events[0].constructs);
      } else {
        InvStep(c, events[0]);
      }
      if Inv(d) {
        InvThroughoutIff(d, events[1..]);
      }
    }
  }

  lemma {:induction false} InvAtEnd<E>(c: Client<E>, events: seq<Event<E>>, d: Client<E>)
    requires InvThroughout(c, events) && IsRun(c, events, d)
    ensures Inv(d)
    decreases |events|
  {
    if events != [] {
      InvAtEnd(Step(c, events[0]), events[1..], d);
    }
  }

  /** So one mode and exact delivery hold across restarts too, as long as the starts are clean. */
  lemma ManyStarts<E>(log: seq<E>, constructs: bool, events: seq<Event<E>>, d: Client<E>)
    requires var c := Step(NewClient(log), Start(constructs)); IsRun(c, events, d) && CleanStarts(c, events)
    ensures !d.stopped ==> Activity(d) == 1
    ensures d.stopped ==> Activity(d) <= 1 && d.armed == {}
    ensures d.lastLogIndex <= |d.log|
    ensures d.polled == d.log[..d.lastLogIndex] <==> d.thrown == 0
  {
    var c := Step(NewClient(log), Start(constructs));
    StartSound(log, constructs);
    InvThroughoutIff(c, events);
    InvAtEnd(c, events, d);
  }

  /** Something can be left: when an open socket closes, the reconnect timer survives stop(), so start() then has two
      modes at once. */
  lemma RestartOverlaps<E>(c: Client<E>, id: nat)
    requires Inv(c) && !c.stopped && Enabled(c, SocketCloses(id)) && c.sockets[id].wasOpen
    ensures var stopped := Step(Step(c, SocketCloses(id)), Stop);
            stopped.stopped && Activity(stopped) == 1 && Activity(Step(stopped, Start(true))) == 2
  {
    StepSocketCloses(c, id);
    var closed := Step(c, SocketCloses(id));
    AfterClose(c, id);
    StopKeepsReconnect(closed);
    StepStop(closed);
    Restart(Step(closed, Stop), true);
  }

  lemma StopKeepsReconnect<E>(c: Client<E>)
    requires Inv(c) && c.reconnects == 1
    ensures Activity(Step(c, Stop)) == 1
  {
    ReconnectAlone(c);
  }

  /** And so it can be after one start: the socket opens. */
  lemma OpenReached<E>(log: seq<E>)
    ensures var c := Step(NewClient(log), Start(true));
            && Enabled(c, SocketOpens(0))
            && var d := Step(c, SocketOpens(0)); Inv(d) && !d.stopped && Enabled(d, SocketCloses(0)) && d.sockets[0].wasOpen
  {
    StartSound(log, true);
    var c := Step(NewClient(log), Start(true));
    assert c.sockets == [Socket(false, false)];
    StepSocketOpens(c, 0);
  }
}
