/**
 * `throttle` from `src/utils/debounce.ts`: a wrapper that runs the wrapped
 * function only when at least `delay` milliseconds have passed since the last
 * run. Times are the integer millisecond readings of `Date.now()`, passed in
 * by the caller of each call.
 */
module Debounce {

  /** The time of the last run after the calls at `times`, starting from the
      recorded time `start` (0 for a fresh throttle). */
  function LastRun(delay: int, start: int, times: seq<int>): (r: int)
    ensures r == start || r in times
    ensures delay >= 0 ==> r >= start
    decreases |times|
  {
    if times == [] then start
    else
      var prev := LastRun(delay, start, times[..|times| - 1]);
      if times[|times| - 1] - prev >= delay then times[|times| - 1] else prev
  }

  /** The times, among the calls at `times`, at which the wrapped function
      runs. */
  function Fired(delay: int, start: int, times: seq<int>): (r: seq<int>)
    ensures |r| <= |times|
    ensures forall t :: t in r ==> t in times
    decreases |times|
  {
    if times == [] then []
    else
      var earlier := times[..|times| - 1];
      var now := times[|times| - 1];
      if now - LastRun(delay, start, earlier) >= delay then Fired(delay, start, earlier) + [now]
      else Fired(delay, start, earlier)
  }

  /** The recorded time is the time of the last run, or the start when nothing
      has run; every run is a call time; each run is at least `delay` after the
      previous one, and the first at least `delay` after the start. */
  lemma {:induction false} FiredSpacing(delay: int, start: int, times: seq<int>)
    ensures var f := Fired(delay, start, times);
      && |f| <= |times|
      && LastRun(delay, start, times) == (if f == [] then start else f[|f| - 1])
      && (forall k :: 0 <= k < |f| ==> f[k] in times)
      && (f != [] ==> f[0] - start >= delay)
      && (forall k :: 0 < k < |f| ==> f[k] - f[k - 1] >= delay)
    decreases |times|
  {
    if times != [] {
      var earlier := times[..|times| - 1];
      FiredSpacing(delay, start, earlier);
      var e := Fired(delay, start, earlier);
      var f := Fired(delay, start, times);
      assert times == earlier + [times[|times| - 1]];
      if f != e {
        assert f == e + [times[|times| - 1]];
        if e != [] {
          assert f[0] == e[0];
        }
      }
    }
  }

  /** With a non-negative delay, any two runs are at least `delay` apart. */
  lemma {:induction false} RunsApart(delay: int, start: int, times: seq<int>)
    requires delay >= 0
    ensures var f := Fired(delay, start, times);
      forall i, j :: 0 <= i < j < |f| ==> f[j] - f[i] >= delay
  {
    var f := Fired(delay, start, times);
    FiredSpacing(delay, start, times);
    forall i, j | 0 <= i < j < |f|
      ensures f[j] - f[i] >= delay
    {
      var m := i + 1;
      while m < j
        invariant i < m <= j
        invariant f[m] - f[i] >= delay
      {
        assert f[m + 1] - f[m] >= delay;
        m := m + 1;
      }
    }
  }

  /** A fresh throttle (last call at 0) runs on its first call exactly when
      the clock reads at least `delay`. */
  lemma FirstCall(delay: int, now: int)
    ensures Fired(delay, 0, [now]) == (if now >= delay then [now] else [])
    ensures LastRun(delay, 0, [now]) == (if now >= delay then now else 0)
  {
    assert [now][..0] == [];
  }

  /** One more call runs exactly when it comes at least `delay` after the last
      run; a run becomes the recorded time and joins the runs. */
  lemma CallStep(delay: int, start: int, times: seq<int>, now: int)
    ensures var last := LastRun(delay, start, times);
      && LastRun(delay, start, times + [now]) == (if now - last >= delay then now else last)
      && Fired(delay, start, times + [now])
         == Fired(delay, start, times) + (if now - last >= delay then [now] else [])
  {
    assert (times + [now])[..|times|] == times;
  }

  /** With no delay and a clock that never goes back from the start, every
      call runs. */
  lemma {:induction false} NoDelayRunsAll(delay: int, start: int, times: seq<int>)
    requires delay <= 0
    requires forall k :: 0 <= k < |times| ==> start <= times[k]
    requires forall k :: 0 < k < |times| ==> times[k - 1] <= times[k]
    ensures Fired(delay, start, times) == times
    ensures LastRun(delay, start, times) == if times == [] then start else times[|times| - 1]
    decreases |times|
  {
    if times != [] {
      var earlier := times[..|times| - 1];
      NoDelayRunsAll(delay, start, earlier);
      if earlier != [] {
        assert times[|times| - 2] <= times[|times| - 1];
      }
      assert times == earlier + [times[|times| - 1]];
    }
  }

  /** The function `throttle` returns, with its captured `lastCall`. The calls
      made so far are kept as ghost history. */
  class Throttle {
    const delay: int
    var lastCall: int
    ghost var calls: seq<int>

    ghost predicate Valid()
      reads this
    {
      lastCall == LastRun(delay, 0, calls)
    }

    /** `throttle(func, delay)`: `lastCall` starts at 0. */
    constructor (delay: int)
      ensures Valid() && this.delay == delay && lastCall == 0 && calls == []
    {
      this.delay := delay;
      lastCall := 0;
      calls := [];
    }

    /** One call of the throttled function when the clock reads `now`;
        `ran` says whether the wrapped function was invoked. */
    method Call(now: int) returns (ran: bool)
      requires Valid()
      modifies this
      ensures Valid()
      ensures ran <==> now - old(lastCall) >= delay
      ensures lastCall == if ran then now else old(lastCall)
      ensures calls == old(calls) + [now]
      ensures Fired(delay, 0, calls) == Fired(delay, 0, old(calls)) + (if ran then [now] else [])
    {
      CallStep(delay, 0, calls, now);
      calls := calls + [now];
      if now - lastCall >= delay {
        lastCall := now;
        ran := true;
      } else {
        ran := false;
      }
    }
  }
}
