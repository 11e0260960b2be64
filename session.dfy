/**
 * `getServerStatus` as an event machine. The promise, the socket and the
 * timer are the closure's state; each socket or timer callback is one event:
 *
 *   Connected        the `connect` callback: writes the handshake and the
 *                    status request;
 *   Data(chunk)      the `data` handler: appends the chunk to `buffer` and
 *                    re-parses the whole buffer;
 *   SocketError(m)   the `error` handler, with the error's message;
 *   Timeout          the timer's callback, which runs only while armed;
 *   Close            the `close` handler.
 *
 * `resolve` only has an effect the first time it is called (Promise.Settle). The bytes written to the socket are recorded in `written`.
 */
module Session {
  import opened Wrappers
  import opened VarInt
  import opened Packets
  import opened StatusResponse
  import opened Promise

  const CONNECTION_TIMEOUT: string := "Connection timeout"

  /** What the promise resolves with: `online: true` with the parsed fields, or an error. */
  datatype ServerStatus =
    | Online(host: seq<Byte>, port: nat, status: StatusFields)
    | Offline(host: seq<Byte>, port: nat, error: string)

  datatype Event = Connected | Data(chunk: seq<Byte>) | SocketError(message: string) | Timeout | Close

  /** The arguments of one `getServerStatus` call, and the JSON decoder it relies on. */
  datatype Query = Query(host: seq<Byte>, port: nat, decodeJson: seq<Byte> -> Option<Json>)

  /**
   * The closure's state: the received bytes, what was written, the timer,
   * whether the code has called `socket.destroy()`, and the promise.
   */
  datatype QueryState = QueryState(
    buffer: seq<Byte>,
    written: seq<seq<Byte>>,
    timerArmed: bool,
    destroyed: bool,
    outcome: Option<ServerStatus>)

  /** Right after the call: nothing received, the timer armed, the promise pending. */
  const INITIAL: QueryState := QueryState([], [], true, false, None)

  /**
   * Which `close` handler runs: the one written at lines 57-59 of
   * utils/server-status.js, which clears the timer unconditionally, or the
   * corrected one, which leaves it running while the query is pending.
   */
  datatype Handlers = AsWritten | Corrected

  /** The handler that runs for `e`; only the `close` handler depends on `h`. */
  function Step(q: Query, h: Handlers, s: QueryState, e: Event): (r: QueryState)
    requires q.port < PORT_LIMIT
  {
    match e
    case Connected =>
      s.(written := s.written + [HandshakePacket(q.host, q.port, NEXT_STATE_STATUS), STATUS_REQUEST])
    case Data(chunk) => DataStep(q, s, chunk)
    case SocketError(message) =>
      s.(timerArmed := false, outcome := Settle(s.outcome, Offline(q.host, q.port, message)))
    case Timeout =>
      if !s.timerArmed then s
      else s.(timerArmed := false, destroyed := true,
              outcome := Settle(s.outcome, Offline(q.host, q.port, CONNECTION_TIMEOUT)))
    case Close => if h.Corrected? then CloseStep(s) else CloseAsWritten(s)
  }

  /**
   * The `data` handler: the chunk is appended, then the whole buffer is
   * parsed; a result clears the timer, destroys the socket and resolves
   * online. `parseStatusResponse` catches everything, so the handler's own
   * `catch` is never reached.
   */
  function DataStep(q: Query, s: QueryState, chunk: seq<Byte>): (r: QueryState)
  {
    var buffer := s.buffer + chunk;
    match ParseStatus(buffer, q.decodeJson)
    case None => s.(buffer := buffer)
    case Some(fields) =>
      s.(buffer := buffer, timerArmed := false, destroyed := true,
         outcome := Settle(s.outcome, Online(q.host, q.port, fields)))
  }

  /**
   * The `close` handler as intended: it clears the timer once the promise is
   * settled, and leaves it running while the query is pending, so that the
   * timeout still resolves it.
   */
  function CloseStep(s: QueryState): (r: QueryState)
  {
    if s.outcome.None? then s else s.(timerArmed := false)
  }

  /** The `close` handler as written: it clears the timer unconditionally. */
  function CloseAsWritten(s: QueryState): (r: QueryState)
  {
    s.(timerArmed := false)
  }

  /** The state after the events `evs`, in order, with the handlers `h`. */
  function Run(q: Query, h: Handlers, s: QueryState, evs: seq<Event>): (r: QueryState)
    requires q.port < PORT_LIMIT
  {
    if evs == [] then s else Step(q, h, Run(q, h, s, evs[..|evs| - 1]), evs[|evs| - 1])
  }

  /** The data chunks among `evs`, concatenated in order. */
  function Received(evs: seq<Event>): (r: seq<Byte>)
  {
    if evs == [] then []
    else
      var last := evs[|evs| - 1];
      Received(evs[..|evs| - 1]) + (if last.Data? then last.chunk else [])
  }

  /** While the promise is pending the timer is armed, and once it is settled the timer is not. */
  predicate TimerWhilePending(s: QueryState)
  {
    s.outcome.None? <==> s.timerArmed
  }

  /** The half of TimerWhilePending that the handlers as written keep: an armed timer means pending. */
  predicate TimerOnlyWhilePending(s: QueryState)
  {
    s.timerArmed ==> s.outcome.None?
  }

  // ---------------------------------------------------------------------------
  // Properties of both versions of the handlers
  // ---------------------------------------------------------------------------

  /**
   * What the `data` handler does, by whether the grown buffer parses: a proof
   * helper that the lemmas below call instead of unfolding DataStep.
   */
  lemma DataStepCases(q: Query, s: QueryState, chunk: seq<Byte>)
    ensures var r := DataStep(q, s, chunk);
      && r.buffer == s.buffer + chunk
      && r.written == s.written
      && (ParseStatus(s.buffer + chunk, q.decodeJson).None? ==>
            r.destroyed == s.destroyed && r.timerArmed == s.timerArmed && r.outcome == s.outcome)
      && (ParseStatus(s.buffer + chunk, q.decodeJson).Some? ==>
            r.destroyed && !r.timerArmed
            && r.outcome == Settle(s.outcome,
                                   Online(q.host, q.port, ParseStatus(s.buffer + chunk, q.decodeJson).value)))
  {
  }

  /** No handler arms the timer of a settled query. */
  lemma StepKeepsTimerOnlyWhilePending(q: Query, h: Handlers, s: QueryState, e: Event)
    requires q.port < PORT_LIMIT
    requires TimerOnlyWhilePending(s)
    ensures TimerOnlyWhilePending(Step(q, h, s, e))
  {
    if e.Data? {
      DataStepCases(q, s, e.chunk);
    }
  }

  /** With either `close` handler, an armed timer always means the promise is pending. */
  lemma {:induction false} RunTimerOnlyWhilePending(q: Query, h: Handlers, evs: seq<Event>)
    requires q.port < PORT_LIMIT
    ensures TimerOnlyWhilePending(Run(q, h, INITIAL, evs))
  {
    if evs != [] {
      RunTimerOnlyWhilePending(q, h, evs[..|evs| - 1]);
      StepKeepsTimerOnlyWhilePending(q, h, Run(q, h, INITIAL, evs[..|evs| - 1]), evs[|evs| - 1]);
    }
  }

  /** Once the promise is settled no handler changes what it resolved with. */
  lemma StepKeepsOutcome(q: Query, h: Handlers, s: QueryState, e: Event)
    requires q.port < PORT_LIMIT
    requires s.outcome.Some?
    ensures Step(q, h, s, e).outcome == s.outcome
  {
    if e.Data? {
      DataStepCases(q, s, e.chunk);
    }
  }

  /** The first resolution wins: later events never change the outcome. */
  lemma {:induction false} RunKeepsOutcome(q: Query, h: Handlers, s: QueryState, evs: seq<Event>)
    requires q.port < PORT_LIMIT
    requires s.outcome.Some?
    ensures Run(q, h, s, evs).outcome == s.outcome
  {
    if evs != [] {
      RunKeepsOutcome(q, h, s, evs[..|evs| - 1]);
      StepKeepsOutcome(q, h, Run(q, h, s, evs[..|evs| - 1]), evs[|evs| - 1]);
    }
  }

  /** `buffer` is always the data chunks received so far, concatenated in order. */
  lemma {:induction false} BufferIsReceived(q: Query, h: Handlers, evs: seq<Event>)
    requires q.port < PORT_LIMIT
    ensures Run(q, h, INITIAL, evs).buffer == Received(evs)
  {
    if evs != [] {
      var s := Run(q, h, INITIAL, evs[..|evs| - 1]);
      BufferIsReceived(q, h, evs[..|evs| - 1]);
      if evs[|evs| - 1].Data? {
        DataStepCases(q, s, evs[|evs| - 1].chunk);
      }
    }
  }

  /** How a settled promise can have been settled, given the events `evs`. */
  predicate Explains(q: Query, evs: seq<Event>, v: ServerStatus)
  {
    && v.host == q.host && v.port == q.port
    && (v.Online? ==>
          exists k :: 0 <= k <= |evs| && ParseStatus(Received(evs[..k]), q.decodeJson) == Some(v.status))
    && (v.Offline? ==> (v.error == CONNECTION_TIMEOUT && Timeout in evs) || SocketError(v.error) in evs)
  }

  /**
   * The three outcomes: online with the fields parsed from the data received
   * up to some event, offline with "Connection timeout" after the timer
   * fired, or offline with the message of a socket error.
   */
  lemma {:induction false} OutcomeExplained(q: Query, h: Handlers, evs: seq<Event>)
    requires q.port < PORT_LIMIT
    ensures Run(q, h, INITIAL, evs).outcome.Some? ==> Explains(q, evs, Run(q, h, INITIAL, evs).outcome.value)
  {
    if evs != [] {
      var init := evs[..|evs| - 1];
      var e := evs[|evs| - 1];
      assert evs == init + [e];
      var s := Run(q, h, INITIAL, init);
      if s.outcome.Some? {
        OutcomeExplained(q, h, init);
        StepKeepsOutcome(q, h, s, e);
        ExplainsLater(q, init, e, s.outcome.value);
      } else {
        SettledBy(q, h, init, e);
      }
    }
  }

  /** An explanation of an outcome stays one when more events follow. */
  lemma ExplainsLater(q: Query, evs: seq<Event>, e: Event, v: ServerStatus)
    requires Explains(q, evs, v)
    ensures Explains(q, evs + [e], v)
  {
    if v.Online? {
      var k :| 0 <= k <= |evs| && ParseStatus(Received(evs[..k]), q.decodeJson) == Some(v.status);
      assert (evs + [e])[..k] == evs[..k];
    }
  }

  /** The event that settles a pending query explains the outcome. */
  lemma SettledBy(q: Query, h: Handlers, evs: seq<Event>, e: Event)
    requires q.port < PORT_LIMIT
    requires Run(q, h, INITIAL, evs).outcome.None?
    ensures var r := Run(q, h, INITIAL, evs + [e]);
      r.outcome.Some? ==> Explains(q, evs + [e], r.outcome.value)
  {
    var all := evs + [e];
    assert all[..|all| - 1] == evs;
    var s := Run(q, h, INITIAL, evs);
    if e.Data? {
      DataStepCases(q, s, e.chunk);
      BufferIsReceived(q, h, evs);
      assert all[..|all|] == all;
      assert Received(all) == Received(evs) + e.chunk;
    } else if e.SocketError? || e.Timeout? {
      assert all[|evs|] == e;
    }
  }

  /**
   * Settling online or by the timer goes through the code's `destroy()`
   * call: a settled query whose `destroy()` was not called was settled by a
   * socket error, with that error's message.
   */
  lemma {:induction false} SettledWithoutDestroy(q: Query, h: Handlers, evs: seq<Event>)
    requires q.port < PORT_LIMIT
    ensures var r := Run(q, h, INITIAL, evs);
      r.outcome.Some? && !r.destroyed ==> r.outcome.value.Offline? && SocketError(r.outcome.value.error) in evs
  {
    if evs != [] {
      var init := evs[..|evs| - 1];
      var e := evs[|evs| - 1];
      assert evs == init + [e];
      var s := Run(q, h, INITIAL, init);
      if e.Data? {
        DataStepCases(q, s, e.chunk);
      }
      if s.outcome.Some? {
        SettledWithoutDestroy(q, h, init);
        StepKeepsOutcome(q, h, s, e);
      }
    }
  }

  // ---------------------------------------------------------------------------
  // Properties of the corrected `close` handler
  // ---------------------------------------------------------------------------

  /** With the corrected `close` handler, every handler keeps the timer armed exactly while pending. */
  lemma StepKeepsTimer(q: Query, s: QueryState, e: Event)
    requires q.port < PORT_LIMIT
    requires TimerWhilePending(s)
    ensures TimerWhilePending(Step(q, Corrected, s, e))
  {
    if e.Data? {
      DataStepCases(q, s, e.chunk);
    }
  }

  /** With the corrected `close` handler, the timer is armed exactly while the promise is pending. */
  lemma {:induction false} RunKeepsTimer(q: Query, evs: seq<Event>)
    requires q.port < PORT_LIMIT
    ensures TimerWhilePending(Run(q, Corrected, INITIAL, evs))
  {
    if evs != [] {
      RunKeepsTimer(q, evs[..|evs| - 1]);
      StepKeepsTimer(q, Run(q, Corrected, INITIAL, evs[..|evs| - 1]), evs[|evs| - 1]);
    }
  }

  /** With the corrected `close` handler, the query is settled once the timer fires, whatever came before. */
  lemma TimeoutResolves(q: Query, evs: seq<Event>)
    requires q.port < PORT_LIMIT
    ensures Run(q, Corrected, INITIAL, evs + [Timeout]).outcome.Some?
  {
    var evs' := evs + [Timeout];
    assert evs'[..|evs'| - 1] == evs;
    RunKeepsTimer(q, evs);
  }

  // ---------------------------------------------------------------------------
  // The `close` handler as written
  // ---------------------------------------------------------------------------

  /**
   * As written, until a `close` arrives the timer is armed exactly while the
   * promise is pending: only `close` breaks the invariant.
   */
  lemma {:induction false} RunWithoutCloseKeepsTimer(q: Query, evs: seq<Event>)
    requires q.port < PORT_LIMIT
    requires Close !in evs
    ensures TimerWhilePending(Run(q, AsWritten, INITIAL, evs))
  {
    if evs != [] {
      var init := evs[..|evs| - 1];
      var e := evs[|evs| - 1];
      assert evs == init + [e];
      RunWithoutCloseKeepsTimer(q, init);
      if e.Data? {
        DataStepCases(q, Run(q, AsWritten, INITIAL, init), e.chunk);
      }
    }
  }

  /**
   * As written, a query that was never closed and is still pending is
   * settled by the timer with "Connection timeout": the server that accepts
   * the connection and never answers.
   */
  lemma TimeoutResolvesWithoutClose(q: Query, evs: seq<Event>)
    requires q.port < PORT_LIMIT
    requires Close !in evs && Run(q, AsWritten, INITIAL, evs).outcome.None?
    ensures Run(q, AsWritten, INITIAL, evs + [Timeout]).outcome
         == Some(Offline(q.host, q.port, CONNECTION_TIMEOUT))
  {
    var all := evs + [Timeout];
    assert all[..|all| - 1] == evs;
    RunWithoutCloseKeepsTimer(q, evs);
  }

  /**
   * With the handlers as written, a `close` while the query is pending clears
   * the timer, and a later timeout no longer settles it: the promise can stay
   * pending forever. The corrected handlers settle it (TimeoutResolves).
   */
  lemma CloseWhilePendingHangs(q: Query)
    requires q.port < PORT_LIMIT
    ensures !TimerWhilePending(Run(q, AsWritten, INITIAL, [Connected, Close]))
    ensures Run(q, AsWritten, INITIAL, [Connected, Close, Timeout]).outcome == None
    ensures Run(q, Corrected, INITIAL, [Connected, Close, Timeout]).outcome
         == Some(Offline(q.host, q.port, CONNECTION_TIMEOUT))
  {
    var evs := [Connected, Close, Timeout];
    assert evs[..2] == [Connected, Close];
    assert [Connected, Close][..1] == [Connected];
    assert [Connected][..0] == [];
    var connected := Step(q, Corrected, INITIAL, Connected);
    assert Run(q, AsWritten, INITIAL, [Connected]) == Step(q, AsWritten, Run(q, AsWritten, INITIAL, []), Connected);
    assert Run(q, Corrected, INITIAL, [Connected]) == Step(q, Corrected, Run(q, Corrected, INITIAL, []), Connected);
    assert Run(q, AsWritten, INITIAL, [Connected]) == connected;
    assert Run(q, Corrected, INITIAL, [Connected]) == connected;
    assert Run(q, AsWritten, INITIAL, [Connected, Close]) == CloseAsWritten(connected);
    assert Run(q, Corrected, INITIAL, [Connected, Close]) == connected;
  }

  /** As written, after a `close` no event but data or an error settles a pending query. */
  lemma CloseAsWrittenDisarms(q: Query, s: QueryState, e: Event)
    requires q.port < PORT_LIMIT
    requires s.outcome.None? && !e.Data? && !e.SocketError?
    ensures Step(q, AsWritten, CloseAsWritten(s), e).outcome == None
  {
  }

  // ---------------------------------------------------------------------------
  // The first decisive event decides
  // ---------------------------------------------------------------------------

  /**
   * What the last of `evs` settles a still-pending query with, read off the
   * events alone: a socket error its message, a data chunk after which the
   * received bytes parse the online status, and the timer "Connection
   * timeout" unless, with the handlers as written, a `close` has cleared it.
   */
  function Decisive(q: Query, h: Handlers, evs: seq<Event>): (verdict: Option<ServerStatus>)
    requires evs != []
  {
    match evs[|evs| - 1]
    case SocketError(message) => Some(Offline(q.host, q.port, message))
    case Data(_) =>
      (match ParseStatus(Received(evs), q.decodeJson)
       case Some(fields) => Some(Online(q.host, q.port, fields))
       case None => None)
    case Timeout =>
      if h.Corrected? || Close !in evs then Some(Offline(q.host, q.port, CONNECTION_TIMEOUT)) else None
    case _ => None
  }

  /** The verdict of the first decisive event among `evs`, None if there is none. */
  function FirstOutcome(q: Query, h: Handlers, evs: seq<Event>): (verdict: Option<ServerStatus>)
  {
    if evs == [] then None
    else
      var earlier := FirstOutcome(q, h, evs[..|evs| - 1]);
      if earlier.Some? then earlier else Decisive(q, h, evs)
  }

  /** As written, once a `close` has run the timer stays cleared. */
  lemma {:induction false} ClosedDisarmed(q: Query, evs: seq<Event>)
    requires q.port < PORT_LIMIT
    requires Close in evs
    ensures !Run(q, AsWritten, INITIAL, evs).timerArmed
  {
    var init := evs[..|evs| - 1];
    var e := evs[|evs| - 1];
    assert evs == init + [e];
    if e != Close {
      ClosedDisarmed(q, init);
      if e.Data? {
        DataStepCases(q, Run(q, AsWritten, INITIAL, init), e.chunk);
      }
    }
  }

  /**
   * `getServerStatus` resolves with the first of its three outcomes: the
   * promise is settled exactly when a decisive event has occurred, and with
   * that event's verdict, for either `close` handler.
   */
  lemma {:induction false} RunFirstOutcome(q: Query, h: Handlers, evs: seq<Event>)
    requires q.port < PORT_LIMIT
    ensures Run(q, h, INITIAL, evs).outcome == FirstOutcome(q, h, evs)
  {
    if evs != [] {
      var init := evs[..|evs| - 1];
      var e := evs[|evs| - 1];
      assert evs == init + [e];
      var s := Run(q, h, INITIAL, init);
      RunFirstOutcome(q, h, init);
      if s.outcome.Some? {
        StepKeepsOutcome(q, h, s, e);
      } else {
        match e
        case Data(chunk) =>
          DataStepCases(q, s, chunk);
          BufferIsReceived(q, h, init);
          assert Received(evs) == Received(init) + chunk;
        case Timeout =>
          if h.Corrected? {
            RunKeepsTimer(q, init);
          } else if Close !in evs {
            RunWithoutCloseKeepsTimer(q, init);
          } else {
            ClosedDisarmed(q, init);
          }
        case _ =>
      }
    }
  }

  // ---------------------------------------------------------------------------
  // The closure as an object
  // ---------------------------------------------------------------------------

  /**
   * One `getServerStatus` call: its arguments and the closure variables the
   * callbacks update. Each handler is proved to do what Step says with the
   * corrected `close` handler.
   */
  class StatusQuery {
    const host: seq<Byte>
    const port: nat
    const decodeJson: seq<Byte> -> Option<Json>
    var buffer: seq<Byte>
    var written: seq<seq<Byte>>
    var timerArmed: bool
    var destroyed: bool
    var outcome: Option<ServerStatus>

    function Args(): (r: Query)
    {
      Query(host, port, decodeJson)
    }

    function State(): (r: QueryState)
      reads this
    {
      QueryState(buffer, written, timerArmed, destroyed, outcome)
    }

    /** `buffer = Buffer.alloc(0)`, the timer is set and the promise is pending. */
    constructor(host: seq<Byte>, port: nat, decodeJson: seq<Byte> -> Option<Json>)
      requires port < PORT_LIMIT
      ensures Args() == Query(host, port, decodeJson)
      ensures State() == INITIAL
    {
      this.host := host;
      this.port := port;
      this.decodeJson := decodeJson;
      buffer := [];
      written := [];
      timerArmed := true;
      destroyed := false;
      outcome := None;
    }

    /** `resolve(v)`. */
    method Resolve(v: ServerStatus)
      modifies this
      ensures outcome == Settle(old(outcome), v)
      ensures buffer == old(buffer) && written == old(written)
      ensures timerArmed == old(timerArmed) && destroyed == old(destroyed)
    {
      if outcome.None? {
        outcome := Some(v);
      }
    }

    /** The `connect` callback: the handshake for the status state, then the status request. */
    method OnConnect()
      requires port < PORT_LIMIT
      modifies this
      ensures State() == Step(Args(), Corrected, old(State()), Connected)
    {
      var handshakePacket := CreateHandshakePacket(host, port, NEXT_STATE_STATUS);
      written := written + [handshakePacket];
      var statusRequestPacket := STATUS_REQUEST;
      written := written + [statusRequestPacket];
    }

    /** The `data` handler. */
    method OnData(data: seq<Byte>)
      requires port < PORT_LIMIT
      modifies this
      ensures State() == Step(Args(), Corrected, old(State()), Data(data))
    {
      buffer := buffer + data;
      var result := ParseStatusResponse(buffer, decodeJson);
      if result.Some? {
        timerArmed := false;
        destroyed := true;
        Resolve(Online(host, port, result.value));
      }
    }

    /** The `error` handler. */
    method OnError(message: string)
      requires port < PORT_LIMIT
      modifies this
      ensures State() == Step(Args(), Corrected, old(State()), SocketError(message))
    {
      timerArmed := false;
      Resolve(Offline(host, port, message));
    }

    /** The timer's callback; a cleared timer never fires. */
    method OnTimeout()
      requires port < PORT_LIMIT
      modifies this
      ensures State() == Step(Args(), Corrected, old(State()), Timeout)
    {
      if timerArmed {
        timerArmed := false;
        destroyed := true;
        Resolve(Offline(host, port, CONNECTION_TIMEOUT));
      }
    }

    /** The `close` handler, corrected: the timer is cleared only once the promise is settled. */
    method OnClose()
      requires port < PORT_LIMIT
      modifies this
      ensures State() == Step(Args(), Corrected, old(State()), Close)
    {
      if outcome.Some? {
        timerArmed := false;
      }
    }
  }
}
