/**
 * `pingServer`: the same one-shot promise as `getServerStatus`, resolving to
 * true when the connection is established and to false on a socket error
 * or when the timer fires first. No data is exchanged and there is no
 * `close` handler.
 */
module Ping {
  import opened Wrappers
  import opened Promise

  datatype PingEvent = Connected | SocketError | Timeout

  /** The closure's state: the timer, whether the code has called `socket.destroy()`, and the promise. */
  datatype PingState = PingState(timerArmed: bool, destroyed: bool, outcome: Option<bool>)

  /** Right after the call: the timer armed, the promise pending. */
  const PING_INITIAL: PingState := PingState(true, false, None)

  /** The callback that runs for `e`. */
  function PingStep(s: PingState, e: PingEvent): (r: PingState)
  {
    match e
    case Connected => s.(timerArmed := false, destroyed := true, outcome := Settle(s.outcome, true))
    case SocketError => s.(timerArmed := false, outcome := Settle(s.outcome, false))
    case Timeout =>
      if !s.timerArmed then s
      else s.(timerArmed := false, destroyed := true, outcome := Settle(s.outcome, false))
  }

  /** The state after the events `evs`, in order. */
  function PingRun(s: PingState, evs: seq<PingEvent>): (r: PingState)
  {
    if evs == [] then s else PingStep(PingRun(s, evs[..|evs| - 1]), evs[|evs| - 1])
  }

  /**
   * The intended answer, read off the events alone: the first event decides,
   * true for a connection and false for an error or a timeout.
   */
  function FirstVerdict(evs: seq<PingEvent>): (r: Option<bool>)
  {
    if evs == [] then None
    else
      var earlier := FirstVerdict(evs[..|evs| - 1]);
      if earlier.Some? then earlier else Some(evs[|evs| - 1].Connected?)
  }

  /** While the promise is pending the timer is armed, and once it is settled the timer is not. */
  predicate PingTimerWhilePending(s: PingState)
  {
    s.outcome.None? <==> s.timerArmed
  }

  /**
   * `pingServer` resolves with the verdict of the first event, and the timer
   * stays armed exactly while it is pending.
   */
  lemma {:induction false} PingRunVerdict(evs: seq<PingEvent>)
    ensures PingTimerWhilePending(PingRun(PING_INITIAL, evs))
    ensures PingRun(PING_INITIAL, evs).outcome == FirstVerdict(evs)
  {
    if evs != [] {
      PingRunVerdict(evs[..|evs| - 1]);
    }
  }

  /** Once settled, the promise keeps its value whatever happens next. */
  lemma {:induction false} PingKeepsOutcome(s: PingState, evs: seq<PingEvent>)
    requires s.outcome.Some?
    ensures PingRun(s, evs).outcome == s.outcome
  {
    if evs != [] {
      PingKeepsOutcome(s, evs[..|evs| - 1]);
    }
  }

  /** Whatever happened before, the ping is settled once the timer fires. */
  lemma PingTimeoutResolves(evs: seq<PingEvent>)
    ensures PingRun(PING_INITIAL, evs + [Timeout]).outcome.Some?
  {
    var all := evs + [Timeout];
    assert all[..|all| - 1] == evs;
    PingRunVerdict(evs);
  }

  /**
   * Settling true or by the timer goes through the code's `destroy()` call:
   * a settled ping whose `destroy()` was not called was settled false by a
   * socket error.
   */
  lemma {:induction false} PingSettledWithoutDestroy(evs: seq<PingEvent>)
    ensures var r := PingRun(PING_INITIAL, evs);
      r.outcome.Some? && !r.destroyed ==> r.outcome == Some(false) && SocketError in evs
  {
    if evs != [] {
      var init := evs[..|evs| - 1];
      assert evs == init + [evs[|evs| - 1]];
      PingSettledWithoutDestroy(init);
      PingRunVerdict(init);
    }
  }

  /** The `pingServer` closure as an object whose callbacks are proved against PingStep. */
  class PingQuery {
    var timerArmed: bool
    var destroyed: bool
    var outcome: Option<bool>

    function State(): (r: PingState)
      reads this
    {
      PingState(timerArmed, destroyed, outcome)
    }

    /** The timer is set and the promise is pending. */
    constructor()
      ensures State() == PING_INITIAL
    {
      timerArmed := true;
      destroyed := false;
      outcome := None;
    }

    /** The `connect` callback. */
    method OnConnect()
      modifies this
      ensures State() == PingStep(old(State()), Connected)
    {
      timerArmed := false;
      destroyed := true;
      if outcome.None? {
        outcome := Some(true);
      }
    }

    /** The `error` handler. */
    method OnError()
      modifies this
      ensures State() == PingStep(old(State()), SocketError)
    {
      timerArmed := false;
      if outcome.None? {
        outcome := Some(false);
      }
    }

    /** The timer's callback; a cleared timer never fires. */
    method OnTimeout()
      modifies this
      ensures State() == PingStep(old(State()), Timeout)
    {
      if timerArmed {
        destroyed := true;
        timerArmed := false;
        if outcome.None? {
          outcome := Some(false);
        }
      }
    }
  }
}
