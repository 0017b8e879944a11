/** The shared WebSocket source: lazy connection, reconnection with backoff, idle teardown, first-frame waiting.
    Calls, socket events and timers interleave freely; each runs to completion before the next. */
module WsSource {
  import opened Chain

  const RECONNECT_INITIAL_MS: nat := 1_000
  const RECONNECT_MAX_MS: nat := 30_000

  /** How a call's wait ended. */
  datatype Outcome = Delivered | TimedOut | SourceClosed | NoWebSocket

  /** `waiters` are the calls awaiting a first frame, oldest first; `outcomes` what became of the others;
      `settling` those whose `finally` has yet to run. Sockets and calls are numbered in order of creation. */
  datatype State = State(
    closed: bool, ws: Option<nat>, sockets: nat, attempts: nat, reconnect: Option<nat>, idle: bool, hasFrame: bool,
    waiters: seq<nat>, calls: nat, outcomes: map<nat, Outcome>, settling: set<nat>)

  const Fresh: State := State(false, None, 0, 0, None, false, false, [], 0, map[], {})

  /** `available` says whether a socket can be constructed at that moment. A message may come from any socket ever
      opened, since the handler does not check which one it is. */
  datatype Event =
    | GetSnapshot(available: bool)
    | SocketOpen(socket: nat)
    | Message(socket: nat, text: bool, decodable: bool)
    | SocketClosed(socket: nat)
    | ReconnectFires(available: bool)
    | IdleFires
    | WaiterTimesOut(call: nat)
    | Settle(call: nat)
    | Close

  function Pow2(n: nat): (r: nat)
    ensures r >= 1
  {
    if n == 0 then 1 else 2 * Pow2(n - 1)
  }

  function Backoff(attempts: nat): nat {
    if RECONNECT_INITIAL_MS * Pow2(attempts) < RECONNECT_MAX_MS then RECONNECT_INITIAL_MS * Pow2(attempts)
    else RECONNECT_MAX_MS
  }

  predicate NeedsSocket(s: State) { s.ws.None? && s.reconnect.None? && !s.closed }

  /** `connect`; the flag is false when it throws. */
  function Connected(s: State, available: bool): (State, bool) {
    if !NeedsSocket(s) then (s, true)
    else if !available then (s, false)
    else (s.(ws := Some(s.sockets), sockets := s.sockets + 1), true)
  }

  /** `armIdleTimer`, for a source with a finite idle timeout or not. */
  function Armed(s: State, finite: bool): State { s.(idle := !s.closed && finite) }

  /** These calls, one after the other, end with this outcome. */
  function Marked(m: map<nat, Outcome>, calls: seq<nat>, o: Outcome): (r: map<nat, Outcome>)
    ensures forall c :: c in r <==> c in m || c in calls
    ensures forall c :: c in r ==> r[c] == if c in calls then o else m[c]
  {
    if |calls| == 0 then m else Marked(m, calls[..|calls| - 1], o)[calls[|calls| - 1] := o]
  }

  function Members(calls: seq<nat>): set<nat> { set c | c in calls }

  function Record(s: State, calls: seq<nat>, o: Outcome): State {
    s.(outcomes := Marked(s.outcomes, calls, o), settling := s.settling + Members(calls))
  }

  lemma OneMoreMember(m: map<nat, Outcome>, calls: seq<nat>, i: nat, o: Outcome)
    requires i < |calls|
    ensures Members(calls[..i + 1]) == Members(calls[..i]) + {calls[i]}
    ensures Marked(m, calls[..i + 1], o) == Marked(m, calls[..i], o)[calls[i] := o]
  {
    assert calls[..i + 1] == calls[..i] + [calls[i]];
  }

  /** One event. An event that cannot happen in `s` (a cleared timer, a socket never opened) changes nothing. */
  function Next(finite: bool, s: State, e: Event): State {
    match e
    case GetSnapshot(available) =>
      var id, t := s.calls, s.(calls := s.calls + 1);
      if s.closed then t.(outcomes := t.outcomes[id := SourceClosed])
      else
        var (u, ok) := Connected(t, available);
        if !ok then Armed(u.(outcomes := u.outcomes[id := NoWebSocket]), finite)
        else if !u.hasFrame then u.(waiters := u.waiters + [id])
        else Armed(u.(outcomes := u.outcomes[id := Delivered]), finite)
    case SocketOpen(socket) => if socket < s.sockets then s.(attempts := 0) else s
    case Message(socket, text, decodable) =>
      if !(socket < s.sockets && text && decodable) then s
      else Record(s, s.waiters, Delivered).(hasFrame := true, waiters := [])
    case SocketClosed(socket) =>
      if s.ws != Some(socket) then s
      else if s.closed || s.reconnect.Some? then s.(ws := None)
      else s.(ws := None, reconnect := Some(Backoff(s.attempts)), attempts := s.attempts + 1)
    case ReconnectFires(available) =>
      if s.reconnect.None? then s else Connected(s.(reconnect := None), available).0
    case IdleFires =>
      if !s.idle then s
      else if s.waiters != [] then Armed(s, finite)
      else s.(idle := false, reconnect := None, attempts := 0, ws := None, hasFrame := false)
    case WaiterTimesOut(call) =>
      if call !in s.waiters then s
      else Record(s, [call], TimedOut).(waiters := Without(s.waiters, call))
    case Settle(call) =>
      if call !in s.settling then s else Armed(s.(settling := s.settling - {call}), finite)
    case Close =>
      Record(s, s.waiters, SourceClosed).(closed := true, reconnect := None, idle := false, ws := None, waiters := [])
  }

  function Without(s: seq<nat>, x: nat): (r: seq<nat>)
    ensures forall y :: y in r <==> y in s && y != x
    ensures |r| <= |s|
  {
    if |s| == 0 then []
    else if s[0] == x then Without(s[1..], x)
    else [s[0]] + Without(s[1..], x)
  }

  function Run(finite: bool, s: State, events: seq<Event>): State {
    if |events| == 0 then s else Next(finite, Run(finite, s, events[..|events| - 1]), events[|events| - 1])
  }

  // ----- Safety over every interleaving -----

  /** Sockets, timers and frames. */
  ghost predicate Wired(s: State) {
    && !(s.ws.Some? && s.reconnect.Some?)
    && (s.hasFrame ==> s.waiters == [])
    && (s.closed ==> s.ws.None? && s.reconnect.None? && !s.idle && s.waiters == [])
    && (s.ws.Some? ==> s.ws.value < s.sockets)
    && (s.reconnect.Some? ==> RECONNECT_INITIAL_MS <= s.reconnect.value <= RECONNECT_MAX_MS)
  }

  /** Every call made is either waiting or has an outcome. */
  ghost predicate Tracked(s: State) {
    && s.settling <= s.outcomes.Keys
    && (forall c :: c in s.waiters || c in s.outcomes ==> c < s.calls)
    && (forall c :: 0 <= c < s.calls ==> (c in s.waiters <==> c !in s.outcomes))
  }

  ghost predicate Invariant(s: State) { Wired(s) && Tracked(s) }

  lemma StepKeepsWired(finite: bool, s: State, e: Event)
    requires Wired(s)
    ensures Wired(Next(finite, s, e))
  {}

  /** Settling some of the waiters leaves the others waiting. */
  lemma RecordTracks(s: State, settled: seq<nat>, o: Outcome, left: seq<nat>)
    requires Tracked(s)
    requires forall c :: c in s.waiters <==> c in settled || c in left
    requires forall c :: c in settled ==> c !in left
    ensures Tracked(Record(s, settled, o).(waiters := left))
  {}

  lemma CallTracks(finite: bool, s: State, available: bool)
    requires Tracked(s)
    ensures Tracked(Next(finite, s, GetSnapshot(available)))
  {}

  lemma StepKeepsTracked(finite: bool, s: State, e: Event)
    requires Tracked(s)
    ensures Tracked(Next(finite, s, e))
  {
    match e
    case GetSnapshot(available) => CallTracks(finite, s, available);
    case Message(_, _, _) => RecordTracks(s, s.waiters, Delivered, []);
    case Close => RecordTracks(s, s.waiters, SourceClosed, []);
    case WaiterTimesOut(call) =>
      if call in s.waiters { RecordTracks(s, [call], TimedOut, Without(s.waiters, call)); }
    case _ =>
  }

  lemma StepKeepsInvariant(finite: bool, s: State, e: Event)
    requires Invariant(s)
    ensures Invariant(Next(finite, s, e))
  {
    StepKeepsWired(finite, s, e);
    StepKeepsTracked(finite, s, e);
  }

  /** A call's outcome is final, and only an idle timer with nobody waiting tears the connection down. */
  lemma OutcomesAreFinal(finite: bool, s: State, e: Event)
    requires Invariant(s)
    ensures forall c :: c in s.outcomes ==>
      c in Next(finite, s, e).outcomes && Next(finite, s, e).outcomes[c] == s.outcomes[c]
    ensures e == IdleFires && s.idle && s.waiters != [] ==>
      Next(finite, s, e) == s.(idle := !s.closed && finite)
  {}

  /** Over any run: a live socket and a pending reconnection never coexist, a recorded frame leaves nobody waiting,
      and every call ever made is either waiting or has exactly one outcome. */
  lemma {:induction false} InvariantAlways(finite: bool, events: seq<Event>)
    ensures Invariant(Run(finite, Fresh, events))
  {
    if |events| > 0 {
      InvariantAlways(finite, events[..|events| - 1]);
      StepKeepsInvariant(finite, Run(finite, Fresh, events[..|events| - 1]), events[|events| - 1]);
    }
  }

  /** Over any run and any continuation: no outcome is lost or changed. */
  lemma {:induction false} SettledCallsStaySettled(finite: bool, s: State, events: seq<Event>)
    requires Invariant(s)
    ensures Invariant(Run(finite, s, events))
    ensures forall c :: c in s.outcomes ==>
      c in Run(finite, s, events).outcomes && Run(finite, s, events).outcomes[c] == s.outcomes[c]
  {
    if |events| > 0 {
      SettledCallsStaySettled(finite, s, events[..|events| - 1]);
      var t := Run(finite, s, events[..|events| - 1]);
      StepKeepsInvariant(finite, t, events[|events| - 1]);
      OutcomesAreFinal(finite, t, events[|events| - 1]);
    }
  }

  /** How a call can end in one step: only a frame delivers it (leaving a frame on record), only `close` or a closed
      source refuses it, only its own timer times it out, and only a missing constructor denies it a socket. */
  lemma OutcomesAreEarned(finite: bool, s: State, e: Event, c: nat)
    requires Invariant(s) && c !in s.outcomes && c in Next(finite, s, e).outcomes
    ensures var t := Next(finite, s, e);
      match t.outcomes[c]
      case Delivered => t.hasFrame && !t.closed
      case SourceClosed => t.closed
      case TimedOut => e == WaiterTimesOut(c) && c in s.waiters
      case NoWebSocket => e == GetSnapshot(false) && c == s.calls && NeedsSocket(s)
  {}

  ghost predicate IsFrame(e: Event) { e.Message? && e.text && e.decodable }

  /** Over any run: no call is answered, and no frame is on record, unless a socket delivered one. */
  lemma {:induction false} DeliveryNeedsAFrame(finite: bool, events: seq<Event>) returns (i: nat)
    ensures var t := Run(finite, Fresh, events);
      t.hasFrame || (exists c :: c in t.outcomes && t.outcomes[c] == Delivered) ==>
        i < |events| && IsFrame(events[i])
  {
    i := 0;
    if |events| > 0 {
      var n := |events| - 1;
      i := DeliveryNeedsAFrame(finite, events[..n]);
      if IsFrame(events[n]) {
        i := n;
      } else {
        OnlyFramesDeliver(finite, Run(finite, Fresh, events[..n]), events[n]);
      }
    }
  }

  lemma OnlyFramesDeliver(finite: bool, s: State, e: Event)
    requires !IsFrame(e)
    ensures Next(finite, s, e).hasFrame ==> s.hasFrame
    ensures forall c :: c in Next(finite, s, e).outcomes && Next(finite, s, e).outcomes[c] == Delivered ==>
      s.hasFrame || (c in s.outcomes && s.outcomes[c] == Delivered)
  {}

  lemma ClosedStep(finite: bool, s: State, e: Event)
    requires Invariant(s) && s.closed
    ensures Next(finite, s, e).closed && Next(finite, s, e).sockets == s.sockets
  {}

  /** After `close`, whatever follows, there is never again a socket, a timer or a waiter, and no socket is opened. */
  lemma {:induction false} ClosedForever(finite: bool, s: State, events: seq<Event>)
    requires Invariant(s) && s.closed
    ensures var t := Run(finite, s, events);
      && Invariant(t) && t.closed && t.sockets == s.sockets
      && t.ws.None? && t.reconnect.None? && !t.idle && t.waiters == []
  {
    if |events| > 0 {
      ClosedForever(finite, s, events[..|events| - 1]);
      var t := Run(finite, s, events[..|events| - 1]);
      ClosedStep(finite, t, events[|events| - 1]);
      StepKeepsInvariant(finite, t, events[|events| - 1]);
    }
  }

  // ----- Calls get their answers -----

  /** What becomes of a call. A closed source refuses it; a source with a frame on record answers it at once; otherwise
      it waits, with a socket or a scheduled reconnection, unless it needs a socket and none can be constructed. */
  lemma CallBegins(finite: bool, s: State, available: bool)
    requires Invariant(s)
    ensures var t, c := Next(finite, s, GetSnapshot(available)), s.calls;
      if s.closed then c in t.outcomes && t.outcomes[c] == SourceClosed
      else if s.ws.None? && s.reconnect.None? && !available then c in t.outcomes && t.outcomes[c] == NoWebSocket
      else
        && (t.ws.Some? || t.reconnect.Some?)
        && (s.ws.None? && s.reconnect.None? ==> t.ws == Some(s.sockets))
        && if s.hasFrame then c in t.outcomes && t.outcomes[c] == Delivered && t.idle == finite else c in t.waiters
  {}

  /** A text frame that decodes, from a socket once opened, answers every waiting call and goes on record. */
  lemma FrameAnswersAll(finite: bool, s: State, socket: nat)
    requires Invariant(s) && socket < s.sockets
    ensures var t := Next(finite, s, Message(socket, true, true));
      && t.hasFrame && t.waiters == []
      && forall c :: c in s.waiters ==> c in t.outcomes && t.outcomes[c] == Delivered && c in t.settling
  {}

  /** The event settles the waiting call `c`, and how. */
  function Decision(s: State, e: Event, c: nat): Option<Outcome> {
    if e.Message? && e.text && e.decodable && e.socket < s.sockets then Some(Delivered)
    else if e == WaiterTimesOut(c) then Some(TimedOut)
    else if e == Close then Some(SourceClosed)
    else None
  }

  /** A waiting call waits on unless the event decides it, and then has that outcome. */
  lemma WaiterStep(finite: bool, s: State, e: Event, c: nat)
    requires Invariant(s) && c in s.waiters
    ensures var t := Next(finite, s, e);
      match Decision(s, e, c)
      case None => c in t.waiters && c !in t.outcomes
      case Some(o) => c !in t.waiters && c in t.outcomes && t.outcomes[c] == o
  {
    if e.Message? && Decision(s, e, c).Some? { FrameAnswersAll(finite, s, e.socket); }
  }

  /** Over any run: a waiting call waits until the first event that decides it, ends as that event says, and stays so
      whatever follows. So it is answered by the first frame that reaches it before its timer and any `close`. */
  lemma {:induction false} FirstDecisionStands(finite: bool, s: State, before: seq<Event>, e: Event, after: seq<Event>,
                                               c: nat)
    requires Invariant(s) && c in s.waiters
    requires forall i :: 0 <= i < |before| ==> Decision(Run(finite, s, before[..i]), before[i], c).None?
    ensures c in Run(finite, s, before).waiters
    ensures var how := Decision(Run(finite, s, before), e, c);
      how.Some? ==>
        var t := Run(finite, Next(finite, Run(finite, s, before), e), after);
        c in t.outcomes && t.outcomes[c] == how.value
    decreases |before|
  {
    var n := |before|;
    if n > 0 {
      var front := before[..n - 1];
      forall i | 0 <= i < |front| ensures front[..i] == before[..i] {}
      FirstDecisionStands(finite, s, front, e, after, c);
      SettledCallsStaySettled(finite, s, front);
      WaiterStep(finite, Run(finite, s, front), before[n - 1], c);
    }
    SettledCallsStaySettled(finite, s, before);
    var u := Run(finite, s, before);
    WaiterStep(finite, u, e, c);
    StepKeepsInvariant(finite, u, e);
    SettledCallsStaySettled(finite, Next(finite, u, e), after);
  }

  // ----- Connections come and go -----

  /** Losing the socket in use of an open source schedules a reconnection, which opens a new one. */
  lemma DropReconnects(finite: bool, s: State, k: nat)
    requires Invariant(s) && s.ws == Some(k)
    ensures var t := Next(finite, s, SocketClosed(k));
      && t.ws.None? && t.reconnect == Some(Backoff(s.attempts)) && t.waiters == s.waiters
      && Next(finite, t, ReconnectFires(true)).ws == Some(s.sockets)
  {}

  /** The close of any socket but the one in use changes nothing, so tearing one down never reconnects. */
  lemma OtherClosesIgnored(finite: bool, s: State, k: nat)
    requires s.ws != Some(k)
    ensures Next(finite, s, SocketClosed(k)) == s
  {}

  /** An idle timer that finds nobody waiting drops the connection, its backoff and the recorded frame, so that the
      next call opens a new socket and waits for a fresh frame. */
  lemma IdleTearsDown(finite: bool, s: State)
    requires Invariant(s) && s.idle && s.waiters == []
    ensures var t := Next(finite, s, IdleFires);
      && t.ws.None? && t.reconnect.None? && !t.idle && !t.hasFrame && t.attempts == 0
      && var u := Next(finite, t, GetSnapshot(true));
      u.ws == Some(s.sockets) && u.waiters == [s.calls]
  {}

  /** A settled call restarts the idle timer of an open source as its `finally` runs; a source with no finite timeout
      never has one. */
  lemma SettlingArms(finite: bool, s: State, c: nat)
    requires Invariant(s) && c in s.settling
    ensures Next(finite, s, Settle(c)).idle == (!s.closed && finite)
    ensures c !in Next(finite, s, Settle(c)).settling
  {}

  lemma {:induction false} NeverIdleIfInfinite(events: seq<Event>)
    ensures !Run(false, Fresh, events).idle
  {
    if |events| > 0 { NeverIdleIfInfinite(events[..|events| - 1]); }
  }

  // ----- Somebody waiting is always being served -----

  /** On an open source, waiters are backed by a socket or a scheduled reconnection. */
  ghost predicate Backed(s: State) {
    s.closed || s.waiters == [] || s.ws.Some? || s.reconnect.Some?
  }

  /** A reconnection comes due, with calls waiting, and finds no socket to construct. */
  ghost predicate Strands(s: State, e: Event) {
    e == ReconnectFires(false) && s.reconnect.Some? && !s.closed && s.waiters != []
  }

  /** Waiters stay backed through every event but that one. */
  lemma BackedExactlyUnlessStranded(finite: bool, s: State, e: Event)
    requires Invariant(s) && Backed(s)
    ensures Backed(Next(finite, s, e)) <==> !Strands(s, e)
  {}

  /** Over any run in which no reconnection strands anybody, waiters on an open source have a live socket or a
      scheduled reconnection; the first event that strands somebody ends that. */
  lemma {:induction false} WaitersAreServed(finite: bool, events: seq<Event>)
    requires forall i :: 0 <= i < |events| - 1 ==> !Strands(Run(finite, Fresh, events[..i]), events[i])
    ensures Backed(Run(finite, Fresh, events)) <==>
      (|events| > 0 ==> !Strands(Run(finite, Fresh, events[..|events| - 1]), events[|events| - 1]))
  {
    if |events| > 0 {
      var front := events[..|events| - 1];
      forall i | 0 <= i < |front| ensures front[..i] == events[..i] {}
      WaitersAreServed(finite, front);
      InvariantAlways(finite, front);
      BackedExactlyUnlessStranded(finite, Run(finite, Fresh, front), events[|events| - 1]);
    }
  }

  /** Where sockets can always be constructed nobody is ever stranded, whichever socket the frames come from. */
  lemma AvailableSocketsServe(finite: bool, events: seq<Event>)
    requires ReconnectFires(false) !in events
    ensures Backed(Run(finite, Fresh, events))
  {
    WaitersAreServed(finite, events);
  }

  /** The stranding is real: a call waits, the socket drops, and the reconnection finds no constructor. */
  lemma StrandedWaiter()
    ensures var s := Run(true, Fresh, [GetSnapshot(true), SocketClosed(0), ReconnectFires(false)]);
      s.waiters == [0] && s.ws.None? && s.reconnect.None? && !s.closed
  {
    var e0, e1, e2 := GetSnapshot(true), SocketClosed(0), ReconnectFires(false);
    assert [e0, e1, e2][..2] == [e0, e1] && [e0, e1][..1] == [e0] && [e0][..0] == [];
    assert Run(true, Fresh, []) == Fresh;
    assert Run(true, Fresh, [e0]) == Next(true, Fresh, e0);
    assert Run(true, Fresh, [e0, e1]) == Next(true, Next(true, Fresh, e0), e1);
  }

  // ----- A recorded frame is being refreshed -----

  /** On an open source, a recorded frame has a socket or a scheduled reconnection behind it to replace it. */
  ghost predicate Refreshed(s: State) {
    s.closed || !s.hasFrame || s.ws.Some? || s.reconnect.Some?
  }

  /** The reconnection of a source with a frame on record finds no socket to construct, or a socket already torn down
      (and so expected to be silent) delivers a frame to a source that has none. */
  ghost predicate Stales(s: State, e: Event) {
    || (e == ReconnectFires(false) && s.reconnect.Some? && !s.closed && s.hasFrame)
    || (IsFrame(e) && e.socket < s.sockets && NeedsSocket(s))
  }

  /** A recorded frame stays refreshed through every event but those two. */
  lemma RefreshedExactlyUnlessStaled(finite: bool, s: State, e: Event)
    requires Invariant(s) && Refreshed(s)
    ensures Refreshed(Next(finite, s, e)) <==> !Stales(s, e)
  {}

  // ----- Backoff -----

  /** `n` rounds of the current socket (numbered from `k`) dropping and its replacement being opened. */
  function Drops(k: nat, n: nat): seq<Event> {
    if n == 0 then [] else Drops(k, n - 1) + [SocketClosed(k + n - 1)] + [ReconnectFires(true)]
  }

  /** Socket `k` is in use and none has opened for the last `n` attempts. */
  ghost predicate Failing(s: State, k: nat, n: nat) {
    !s.closed && s.ws == Some(k) && s.sockets == k + 1 && s.attempts == n && s.reconnect.None?
  }

  lemma OneDrop(finite: bool, s: State, k: nat, n: nat)
    requires Failing(s, k, n)
    ensures Next(finite, s, SocketClosed(k)).reconnect == Some(Backoff(n))
    ensures Failing(Next(finite, Next(finite, s, SocketClosed(k)), ReconnectFires(true)), k + 1, n + 1)
  {}

  lemma RunAppend(finite: bool, s: State, events: seq<Event>, e: Event)
    ensures Run(finite, s, events + [e]) == Next(finite, Run(finite, s, events), e)
  {
    assert (events + [e])[..|events|] == events;
  }

  /** While every new socket drops before opening, the delays double from one second up to thirty. */
  lemma {:induction false} BackoffDoubles(finite: bool, s: State, k: nat, n: nat)
    requires Failing(s, k, 0)
    ensures var t := Run(finite, s, Drops(k, n));
      Failing(t, k + n, n) && Next(finite, t, SocketClosed(k + n)).reconnect == Some(Backoff(n))
  {
    if n > 0 {
      BackoffDoubles(finite, s, k, n - 1);
      var front := Drops(k, n - 1);
      RunAppend(finite, s, front, SocketClosed(k + n - 1));
      RunAppend(finite, s, front + [SocketClosed(k + n - 1)], ReconnectFires(true));
      OneDrop(finite, Run(finite, s, front), k + n - 1, n - 1);
    }
    OneDrop(finite, Run(finite, s, Drops(k, n)), k + n, n);
  }

  /** Once a socket has opened, its loss is again met with the shortest delay. */
  lemma OpenRestartsBackoff(finite: bool, s: State, k: nat)
    requires Invariant(s) && s.ws == Some(k)
    ensures Next(finite, Next(finite, s, SocketOpen(k)), SocketClosed(k)).reconnect == Some(RECONNECT_INITIAL_MS)
  {}

  /** The delay after `n` failures is the smaller of `2^n` seconds and thirty. */
  lemma BackoffIsCappedDoubling(n: nat)
    ensures Backoff(0) == 1_000 && 1_000 <= Backoff(n) <= 30_000
    ensures Backoff(n + 1) == if 2 * Backoff(n) < 30_000 then 2 * Backoff(n) else 30_000
  {}

  // ----- The source as an object -----

  class Source {
    const finite: bool
    var closed: bool
    var ws: Option<nat>
    var sockets: nat
    var reconnectAttempts: nat
    var reconnectTimer: Option<nat>
    var idleTimer: bool
    var hasFrame: bool
    var frameWaiters: seq<nat>
    var calls: nat
    /** The promises handed out: how each was settled, and which continuations have yet to run. */
    var outcomes: map<nat, Outcome>
    var settling: set<nat>

    ghost function Abstract(): State
      reads this
    {
      State(closed, ws, sockets, reconnectAttempts, reconnectTimer, idleTimer, hasFrame, frameWaiters, calls,
            outcomes, settling)
    }

    constructor (finite: bool)
      ensures Abstract() == Fresh && this.finite == finite
    {
      this.finite, closed, ws, sockets, reconnectAttempts := finite, false, None, 0, 0;
      reconnectTimer, idleTimer, hasFrame, frameWaiters := None, false, false, [];
      calls, outcomes, settling := 0, map[], {};
    }

    method Connect(available: bool) returns (ok: bool)
      modifies `ws, `sockets
      ensures (Abstract(), ok) == Connected(old(Abstract()), available)
    {
      if ws.Some? || reconnectTimer.Some? || closed { return true; }
      if !available { return false; }
      ws, sockets := Some(sockets), sockets + 1;
      return true;
    }

    method ArmIdleTimer()
      modifies `idleTimer
      ensures Abstract() == Armed(old(Abstract()), finite)
    {
      idleTimer := false;
      if closed || !finite { return; }
      idleTimer := true;
    }

    /** `getSnapshot` up to its first suspension. */
    method GetSnapshot(available: bool)
      modifies this
      ensures Abstract() == Next(finite, old(Abstract()), Event.GetSnapshot(available))
    {
      var id := calls;
      calls := calls + 1;
      if closed {
        outcomes := outcomes[id := SourceClosed];
        return;
      }
      var ok := Connect(available);
      if ok && !hasFrame {
        frameWaiters := frameWaiters + [id];
        return;
      }
      outcomes := outcomes[id := if ok then Delivered else NoWebSocket];
      ArmIdleTimer();
    }

    method OnOpen(socket: nat)
      modifies `reconnectAttempts
      ensures Abstract() == Next(finite, old(Abstract()), SocketOpen(socket))
    {
      if socket < sockets { reconnectAttempts := 0; }
    }

    /** `handleFrame`: the waiters are taken off the list first, then resolved one by one. */
    method HandleFrame(socket: nat, text: bool, decodable: bool)
      modifies `hasFrame, `frameWaiters, `outcomes, `settling
      ensures Abstract() == Next(finite, old(Abstract()), Message(socket, text, decodable))
    {
      if socket >= sockets || !text || !decodable { return; }
      hasFrame := true;
      SettleWaiters(Delivered);
    }

    method SettleWaiters(o: Outcome)
      modifies `frameWaiters, `outcomes, `settling
      ensures Abstract() == Record(old(Abstract()), old(frameWaiters), o).(waiters := [])
    {
      var list := frameWaiters;
      frameWaiters := [];
      var i := 0;
      while i < |list|
        invariant 0 <= i <= |list| && frameWaiters == []
        invariant outcomes == Marked(old(outcomes), list[..i], o)
        invariant settling == old(settling) + Members(list[..i])
      {
        OneMoreMember(old(outcomes), list, i, o);
        outcomes, settling := outcomes[list[i] := o], settling + {list[i]};
        i := i + 1;
      }
      assert list[..i] == list;
    }

    method OnClose(socket: nat)
      modifies `ws, `reconnectTimer, `reconnectAttempts
      ensures Abstract() == Next(finite, old(Abstract()), SocketClosed(socket))
    {
      if ws != Some(socket) { return; }
      ws := None;
      ScheduleReconnect();
    }

    method ScheduleReconnect()
      modifies `reconnectTimer, `reconnectAttempts
      ensures reconnectTimer == if closed || old(reconnectTimer).Some? then old(reconnectTimer)
                                else Some(Backoff(old(reconnectAttempts)))
      ensures reconnectAttempts == if closed || old(reconnectTimer).Some? then old(reconnectAttempts)
                                   else old(reconnectAttempts) + 1
    {
      if closed || reconnectTimer.Some? { return; }
      reconnectTimer := Some(Backoff(reconnectAttempts));
      reconnectAttempts := reconnectAttempts + 1;
    }

    method OnReconnectTimer(available: bool)
      modifies `ws, `sockets, `reconnectTimer
      ensures Abstract() == Next(finite, old(Abstract()), ReconnectFires(available))
    {
      if reconnectTimer.None? { return; }
      reconnectTimer := None;
      var _ := Connect(available);
    }

    method OnIdleTimer()
      modifies this
      ensures Abstract() == Next(finite, old(Abstract()), IdleFires)
    {
      if !idleTimer { return; }
      idleTimer := false;
      if |frameWaiters| > 0 {
        ArmIdleTimer();
        return;
      }
      reconnectTimer, reconnectAttempts := None, 0;
      ws := None;
      hasFrame := false;
    }

    method OnWaiterTimeout(call: nat)
      modifies `frameWaiters, `outcomes, `settling
      ensures Abstract() == Next(finite, old(Abstract()), WaiterTimesOut(call))
    {
      if call !in frameWaiters { return; }
      assert [call][..0] == [];
      frameWaiters := Without(frameWaiters, call);
      outcomes, settling := outcomes[call := TimedOut], settling + {call};
    }

    /** The `finally` of a suspended `getSnapshot`. */
    method OnSettle(call: nat)
      modifies `settling, `idleTimer
      ensures Abstract() == Next(finite, old(Abstract()), Settle(call))
    {
      if call !in settling { return; }
      settling := settling - {call};
      ArmIdleTimer();
    }

    method CloseSource()
      modifies this
      ensures Abstract() == Next(finite, old(Abstract()), Close)
    {
      closed := true;
      reconnectTimer, idleTimer := None, false;
      ws := None;
      SettleWaiters(SourceClosed);
    }
  }
}
