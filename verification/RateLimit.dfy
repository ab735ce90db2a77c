/**
 * The per-peer rate limit: a pruned list of call times against the full log of accepted calls.
 * Source: packages/channel-a2a/src/server.ts, lines 272-284.
 */
module RateLimit {

  const WINDOW_MS := 60_000

  /** The calls less than a minute old, in their order. */
  function Recent(calls: seq<int>, now: int): seq<int> {
    if calls == [] then []
    else
      var front := Recent(calls[..|calls| - 1], now);
      var at := calls[|calls| - 1];
      if now - at < WINDOW_MS then front + [at] else front
  }

  /** What the server keeps for one peer, and every call it ever accepted from that peer. */
  datatype Limiter = Limiter(calls: seq<int>, log: seq<int>)

  const IDLE := Limiter([], [])

  predicate Accepts(l: Limiter, rate: nat, now: int) {
    |Recent(l.calls, now)| < rate
  }

  function Call(l: Limiter, rate: nat, now: int): Limiter {
    var recent := Recent(l.calls, now);
    if |recent| >= rate then l.(calls := recent) else Limiter(recent + [now], l.log + [now])
  }

  /** One peer's calls, at these times, against a limit of `rate`. */
  function Serve(rate: nat, times: seq<int>): Limiter {
    if times == [] then IDLE else Call(Serve(rate, times[..|times| - 1]), rate, times[|times| - 1])
  }

  predicate ClockForward(times: seq<int>) {
    forall i, j | 0 <= i < j < |times| :: times[i] <= times[j]
  }

  /** The specification: every call in the log found fewer than `rate` accepted calls within a minute. */
  ghost predicate Admitted(log: seq<int>, rate: nat) {
    forall k | 0 <= k < |log| :: |Recent(log[..k], log[k])| < rate
  }

  /** Accepted calls in the half-open minute that starts at `w`. */
  function Within(log: seq<int>, w: int): seq<int> {
    if log == [] then []
    else
      var front := Within(log[..|log| - 1], w);
      var at := log[|log| - 1];
      if w <= at < w + WINDOW_MS then front + [at] else front
  }

  lemma {:induction false} RecentAppends(calls: seq<int>, at: int, now: int)
    ensures Recent(calls + [at], now) == Recent(calls, now) + (if now - at < WINDOW_MS then [at] else [])
  {
    assert (calls + [at])[..|calls|] == calls;
  }

  // ---------------------------------------------------------------- what pruning loses

  /** The calls that pruning at `t` drops although they are less than a minute old at `now`. */
  function Dropped(calls: seq<int>, t: int, now: int): nat {
    if calls == [] then 0
    else
      var at := calls[|calls| - 1];
      Dropped(calls[..|calls| - 1], t, now) + (if now - at < WINDOW_MS <= t - at then 1 else 0)
  }

  predicate Spared(calls: seq<int>, t: int, now: int) {
    forall k | 0 <= k < |calls| :: !(now - calls[k] < WINDOW_MS <= t - calls[k])
  }

  /** The accepted calls less than a minute old at `now` that some call of the run has dropped. */
  function Lost(rate: nat, times: seq<int>, now: int): nat {
    if times == [] then 0
    else
      var front := times[..|times| - 1];
      Lost(rate, front, now) + Dropped(Serve(rate, front).calls, times[|times| - 1], now)
  }

  /** No call of the run dropped one that is less than a minute old at `now`. */
  predicate Spares(rate: nat, times: seq<int>, now: int) {
    times == [] ||
    var front := times[..|times| - 1];
    Spares(rate, front, now) && Spared(Serve(rate, front).calls, times[|times| - 1], now)
  }

  lemma {:induction false} RecentAndDropped(calls: seq<int>, t: int, now: int)
    ensures |Recent(Recent(calls, t), now)| + Dropped(calls, t, now) == |Recent(calls, now)|
  {
    if calls != [] {
      var front, at := calls[..|calls| - 1], calls[|calls| - 1];
      RecentAndDropped(front, t, now);
      RecentAppends(Recent(front, t), at, now);
    }
  }

  /** Pruning loses nothing that a later question could see. */
  lemma {:induction false} RecentOfRecent(calls: seq<int>, t: int, now: int)
    requires t <= now
    ensures Recent(Recent(calls, t), now) == Recent(calls, now)
  {
    if calls != [] {
      var front, at := calls[..|calls| - 1], calls[|calls| - 1];
      RecentOfRecent(front, t, now);
      RecentAppends(Recent(front, t), at, now);
    }
  }

  lemma {:induction false} DroppedNone(calls: seq<int>, t: int, now: int)
    ensures Dropped(calls, t, now) == 0 <==> Spared(calls, t, now)
  {
    if calls != [] {
      var front := calls[..|calls| - 1];
      DroppedNone(front, t, now);
      assert forall k | 0 <= k < |front| :: front[k] == calls[k];
    }
  }

  lemma {:induction false} LostNone(rate: nat, times: seq<int>, now: int)
    ensures Lost(rate, times, now) == 0 <==> Spares(rate, times, now)
  {
    if times != [] {
      var front := times[..|times| - 1];
      LostNone(rate, front, now);
      DroppedNone(Serve(rate, front).calls, times[|times| - 1], now);
    }
  }

  lemma {:induction false} CallConserves(l: Limiter, rate: nat, t: int, now: int)
    ensures |Recent(Call(l, rate, t).calls, now)| + Dropped(l.calls, t, now) + |Recent(l.log, now)|
         == |Recent(l.calls, now)| + |Recent(Call(l, rate, t).log, now)|
  {
    RecentAndDropped(l.calls, t, now);
    RecentAppends(Recent(l.calls, t), t, now);
    RecentAppends(l.log, t, now);
  }

  /**
   * Whatever the clock does: of the accepted calls less than a minute old, the pruned list holds all but
   * those that were lost.
   */
  lemma {:induction false} ListAndLost(rate: nat, times: seq<int>, now: int)
    ensures |Recent(Serve(rate, times).calls, now)| + Lost(rate, times, now) == |Recent(Serve(rate, times).log, now)|
  {
    if times != [] {
      var front := times[..|times| - 1];
      ListAndLost(rate, front, now);
      CallConserves(Serve(rate, front), rate, times[|times| - 1], now);
    }
  }

  /** So the pruned list answers as the full log does if and only if no call of the run dropped one too early. */
  lemma {:induction false} AnswersExactly(rate: nat, times: seq<int>, now: int)
    ensures |Recent(Serve(rate, times).calls, now)| == |Recent(Serve(rate, times).log, now)|
            <==> Spares(rate, times, now)
  {
    ListAndLost(rate, times, now);
    LostNone(rate, times, now);
  }

  /**
   * Whatever the clock does, a call is accepted if and only if the accepted calls less than a minute old,
   * without those that were lost, are fewer than `rate`. It is decided as the full log would decide it
   * unless the lost ones make the difference.
   */
  lemma {:induction false} AcceptsExactly(rate: nat, times: seq<int>, now: int)
    ensures var recent, lost := |Recent(Serve(rate, times).log, now)|, Lost(rate, times, now);
            && (Accepts(Serve(rate, times), rate, now) <==> recent < rate + lost)
            && ((Accepts(Serve(rate, times), rate, now) <==> recent < rate) <==> !(rate <= recent < rate + lost))
            && (lost == 0 <==> Spares(rate, times, now))
  {
    ListAndLost(rate, times, now);
    LostNone(rate, times, now);
  }

  /** At a moment no earlier than any call of the run, nothing is lost. */
  lemma {:induction false} LatestSpares(rate: nat, times: seq<int>, now: int)
    requires forall k | 0 <= k < |times| :: times[k] <= now
    ensures Spares(rate, times, now)
  {
    if times != [] {
      LatestSpares(rate, times[..|times| - 1], now);
    }
  }

  /** Under a clock that does not go back the limiter is exact. */
  lemma {:induction false} AcceptsUnderForwardClock(rate: nat, times: seq<int>, now: int)
    requires forall k | 0 <= k < |times| :: times[k] <= now
    ensures Accepts(Serve(rate, times), rate, now) <==> |Recent(Serve(rate, times).log, now)| < rate
  {
    LatestSpares(rate, times, now);
    AcceptsExactly(rate, times, now);
  }

  // ---------------------------------------------------------------- what the log holds

  lemma {:induction false} AdmittedAppends(log: seq<int>, rate: nat, at: int)
    ensures Admitted(log + [at], rate) <==> Admitted(log, rate) && |Recent(log, at)| < rate
  {
    var after := log + [at];
    assert forall k | 0 <= k < |log| :: after[..k] == log[..k] && after[k] == log[k];
    assert after[..|log|] == log && after[|log|] == at;
  }

  /** No call of the run was accepted on account of lost ones. */
  predicate Justified(rate: nat, times: seq<int>) {
    times == [] ||
    var front, now := times[..|times| - 1], times[|times| - 1];
    var recent := |Recent(Serve(rate, front).log, now)|;
    Justified(rate, front) && !(rate <= recent < rate + Lost(rate, front, now))
  }

  /** Every accepted call found fewer than `rate` within a minute if and only if none was let in by lost ones. */
  lemma {:induction false} AdmittedExactly(rate: nat, times: seq<int>)
    ensures Admitted(Serve(rate, times).log, rate) <==> Justified(rate, times)
  {
    if times != [] {
      var front, now := times[..|times| - 1], times[|times| - 1];
      AdmittedExactly(rate, front);
      AcceptsExactly(rate, front, now);
      AdmittedAppends(Serve(rate, front).log, rate, now);
    }
  }

  /** Every call of the run found a list that had lost nothing. */
  predicate AlwaysSpares(rate: nat, times: seq<int>) {
    times == [] ||
    (AlwaysSpares(rate, times[..|times| - 1]) && Spares(rate, times[..|times| - 1], times[|times| - 1]))
  }

  lemma {:induction false} ForwardSpares(rate: nat, times: seq<int>)
    requires ClockForward(times)
    ensures AlwaysSpares(rate, times)
  {
    if times != [] {
      var front := times[..|times| - 1];
      ForwardSpares(rate, front);
      LatestSpares(rate, front, times[|times| - 1]);
    }
  }

  lemma {:induction false} SparesJustify(rate: nat, times: seq<int>)
    requires AlwaysSpares(rate, times)
    ensures Justified(rate, times)
  {
    if times != [] {
      SparesJustify(rate, times[..|times| - 1]);
      LostNone(rate, times[..|times| - 1], times[|times| - 1]);
    }
  }

  lemma {:induction false} WithinIsRecent(log: seq<int>, w: int, now: int)
    requires w <= now < w + WINDOW_MS
    ensures |Within(log, w)| <= |Recent(log, now)|
  {
    if log != [] {
      WithinIsRecent(log[..|log| - 1], w, now);
    }
  }

  lemma {:induction false} AdmittedBoundsWindows(log: seq<int>, rate: nat, w: int)
    requires Admitted(log, rate)
    ensures |Within(log, w)| <= rate
  {
    if log != [] {
      var front, at := log[..|log| - 1], log[|log| - 1];
      assert forall k | 0 <= k < |front| :: front[..k] == log[..k];
      AdmittedBoundsWindows(front, rate, w);
      if w <= at < w + WINDOW_MS {
        WithinIsRecent(front, w, at);
      }
    }
  }

  /**
   * No half-open minute, wherever it starts, holds more than `rate` accepted calls, if every call of the run
   * found a list that had lost nothing ...
   */
  lemma {:induction false} NoMinuteHoldsMore(rate: nat, times: seq<int>, w: int)
    requires AlwaysSpares(rate, times)
    ensures |Within(Serve(rate, times).log, w)| <= rate
  {
    SparesJustify(rate, times);
    AdmittedExactly(rate, times);
    AdmittedBoundsWindows(Serve(rate, times).log, rate, w);
  }

  /** ... as it does under a clock that does not go back. */
  lemma {:induction false} ForwardClockHoldsTheLimit(rate: nat, times: seq<int>, w: int)
    requires ClockForward(times)
    ensures |Within(Serve(rate, times).log, w)| <= rate
  {
    ForwardSpares(rate, times);
    NoMinuteHoldsMore(rate, times, w);
  }

  /** Some minute that `now` falls in holds `rate` accepted calls already. */
  ghost predicate Full(log: seq<int>, rate: nat, now: int) {
    exists w :: w <= now < w + WINDOW_MS && |Within(log, w)| >= rate
  }

  /** No call of the run was accepted in a full minute. */
  ghost predicate Roomy(rate: nat, times: seq<int>) {
    times == [] ||
    var front, now := times[..|times| - 1], times[|times| - 1];
    Roomy(rate, front) && (Accepts(Serve(rate, front), rate, now) ==> !Full(Serve(rate, front).log, rate, now))
  }

  ghost predicate Bounded(log: seq<int>, rate: nat) {
    forall w :: |Within(log, w)| <= rate
  }

  lemma {:induction false} WithinAppends(log: seq<int>, at: int, w: int)
    ensures |Within(log + [at], w)| == |Within(log, w)| + (if w <= at < w + WINDOW_MS then 1 else 0)
  {
    assert (log + [at])[..|log|] == log;
  }

  lemma BoundedAppends(log: seq<int>, rate: nat, at: int)
    ensures Bounded(log + [at], rate) <==> Bounded(log, rate) && !Full(log, rate, at)
  {
    forall w
      ensures |Within(log + [at], w)| == |Within(log, w)| + (if w <= at < w + WINDOW_MS then 1 else 0)
    {
      WithinAppends(log, at, w);
    }
    if Bounded(log + [at], rate) {
      forall w
        ensures |Within(log, w)| <= rate && !(w <= at < w + WINDOW_MS && |Within(log, w)| >= rate)
      {
        assert |Within(log + [at], w)| <= rate;
      }
    }
  }

  /** Whatever the clock does, no minute holds more than `rate` if and only if none was full when a call came in. */
  lemma {:induction false} BoundedExactly(rate: nat, times: seq<int>)
    ensures Bounded(Serve(rate, times).log, rate) <==> Roomy(rate, times)
  {
    if times != [] {
      BoundedExactly(rate, times[..|times| - 1]);
      BoundedAppends(Serve(rate, times[..|times| - 1]).log, rate, times[|times| - 1]);
    }
  }

  /** A clock set back defeats the limit: three accepted calls in one minute, at a rate of two. */
  lemma ClockSetBackDefeatsTheLimit()
    ensures var l := Serve(2, [0, 0, 60_000, 1]); l.log == [0, 0, 60_000, 1] && |Within(l.log, 0)| == 3
  {
    assert [0, 0, 60_000, 1][..3] == [0, 0, 60_000];
    assert [0, 0, 60_000][..2] == [0, 0];
    assert [0, 0][..1] == [0];
    assert Serve(2, [0]) == Limiter([0], [0]);
    assert Serve(2, [0, 0]) == Limiter([0, 0], [0, 0]);
    assert Recent([0], 60_000) == [];
    assert Recent([0, 0], 60_000) == [];
    assert Serve(2, [0, 0, 60_000]) == Limiter([60_000], [0, 0, 60_000]);
    assert Within([0], 0) == [0];
    assert Within([0, 0], 0) == [0, 0];
    assert Within([0, 0, 60_000], 0) == [0, 0];
  }
}
