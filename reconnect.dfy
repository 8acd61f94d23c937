/**
 * The reconnect policy of `reconnectClient`: one `lastException` timestamp shared by every
 * client, a first failure that only arms it, and reconnect attempts only while the time since
 * it is at most five seconds.
 */
module Reconnect {
  import opened Wrappers
  import JavaInt

  /** `5*1000` milliseconds. */
  const Window: int := 5 * 1000

  /** What one call of `reconnectClient` does: whether it calls `reconnect()`, and the new `lastException`. */
  datatype Decision = Decision(attempts: bool, lastException: Option<int>)

  /**
   * One call at time `now` (milliseconds) whose `reconnect()` would succeed iff `succeeds`.
   * A first failure arms the timer; later calls retry only within the window of the recorded
   * time (in either direction of the clock), and a failed retry restarts the window.
   */
  function Decide(last: Option<int>, now: int, succeeds: bool): (d: Decision)
    ensures last.None? ==> !d.attempts && d.lastException == Some(now)
    ensures last.Some? ==> (d.attempts <==> JavaInt.Magnitude(now - last.value) <= Window)
    ensures last.Some? && !(d.attempts && !succeeds) ==> d.lastException == last
    ensures d.attempts && !succeeds ==> d.lastException == Some(now)
  {
    match last
    case None => Decision(false, Some(now))
    case Some(t) =>
      if JavaInt.Magnitude(now - t) <= Window then
        Decision(true, if succeeds then last else Some(now))
      else
        Decision(false, last)
  }

  /** One publish that found its client disconnected: when it happened and how `reconnect()` would end. */
  datatype Observation = Observation(now: int, succeeds: bool)

  datatype History = History(lastException: Option<int>, attempts: nat)

  /** The policy applied to a series of disconnected observations, in order, from `last`. */
  function Replay(last: Option<int>, obs: seq<Observation>): (h: History)
    ensures h.attempts <= |obs|
    ensures last.None? && obs != [] ==> h.attempts < |obs|
    ensures last.Some? || obs != [] ==> h.lastException.Some?
    decreases |obs|
  {
    if obs == [] then History(last, 0)
    else
      var d := Decide(last, obs[0].now, obs[0].succeeds);
      var rest := Replay(d.lastException, obs[1..]);
      History(rest.lastException, rest.attempts + if d.attempts then 1 else 0)
  }

  /**
   * Once the recorded time lies more than the window away from every later observation, the
   * policy never calls `reconnect()` again and never moves its timestamp: the connection stays
   * down for good.
   */
  lemma {:induction false} StaleTimerNeverRetries(t: int, obs: seq<Observation>)
    requires forall i :: 0 <= i < |obs| ==> JavaInt.Magnitude(obs[i].now - t) > Window
    ensures Replay(Some(t), obs) == History(Some(t), 0)
    decreases |obs|
  {
    if obs != [] {
      StaleTimerNeverRetries(t, obs[1..]);
    }
  }

  /**
   * While every retry fails and each observation comes within the window of the one before
   * (the first within the window of `t`), every observation retries, and the timer ends at the
   * last observation.
   */
  lemma {:induction false} FailingRetriesKeepRetrying(t: int, obs: seq<Observation>)
    requires forall i :: 0 <= i < |obs| ==> !obs[i].succeeds
    requires obs != [] ==> JavaInt.Magnitude(obs[0].now - t) <= Window
    requires forall i :: 0 < i < |obs| ==> JavaInt.Magnitude(obs[i].now - obs[i - 1].now) <= Window
    ensures Replay(Some(t), obs).attempts == |obs|
    ensures Replay(Some(t), obs).lastException == Some(if obs == [] then t else obs[|obs| - 1].now)
    decreases |obs|
  {
    if obs != [] {
      var rest := obs[1..];
      assert forall i :: 0 < i < |rest| ==> rest[i] == obs[i + 1] && rest[i - 1] == obs[i];
      FailingRetriesKeepRetrying(obs[0].now, rest);
      if rest != [] {
        assert rest[|rest| - 1] == obs[|obs| - 1];
      }
    }
  }

  /**
   * A successful reconnect leaves the timer where it was, so a later disconnect more than the
   * window after the previous failure is not retried.
   */
  lemma SuccessDoesNotRearm(t: int, now: int, later: int)
    requires JavaInt.Magnitude(now - t) <= Window
    requires JavaInt.Magnitude(later - t) > Window
    ensures Replay(Some(t), [Observation(now, true), Observation(later, false)]) == History(Some(t), 1)
  {
    var obs := [Observation(now, true), Observation(later, false)];
    assert obs[1..] == [Observation(later, false)];
    assert obs[1..][1..] == [];
    assert Replay(Some(t), obs[1..][1..]) == History(Some(t), 0);
    assert Replay(Some(t), obs[1..]) == History(Some(t), 0);
  }
}
