/**
 * The one property of a JavaScript promise that the callbacks rely on: only
 * the first `resolve` call has an effect.
 */
module Promise {
  import opened Wrappers

  /**
   * `resolve(v)` on a promise whose outcome so far is `outcome` (None while
   * pending). The ensures clauses are a proof helper: they let callers reason
   * about a settled or pending promise without unfolding the body.
   */
  function Settle<T>(outcome: Option<T>, v: T): (r: Option<T>)
    ensures r.Some?
    ensures outcome.Some? ==> r == outcome
    ensures outcome.None? ==> r == Some(v)
  {
    if outcome.None? then Some(v) else outcome
  }
}
