/**
 * `usePerformanceMonitor`: an FPS counter updated on every animation frame,
 * and published metrics refreshed at most once a second. Each frame is an
 * explicit call to `UpdateMetrics` given the wall clock (`Date.now()`), the
 * frame clock (`performance.now()`) and the memory reading.
 */
module PerformanceMonitor {
  import opened Types
  import opened Numeric
  import opened PerformanceUtils

  /** The shortest gap, in milliseconds, between two publications. */
  const ThrottleMs := 1000

  /** The metrics before the first publication: 60 fps, everything else zero. */
  const InitialMetrics := PerformanceMetrics(60, 0.0, 0.0, 0.0, 0)

  /** Each publication comes more than `ThrottleMs` after the previous one, the first more than `ThrottleMs` after `start`. */
  ghost predicate Spaced(times: seq<int>, start: int)
  {
    && (times != [] ==> times[0] - start > ThrottleMs)
    && (forall i :: 0 < i < |times| ==> times[i] - times[i - 1] > ThrottleMs)
  }

  /** Between publication `i` and a later publication `j` lie more than `ThrottleMs` per step. */
  lemma {:induction false} PublicationsApart(times: seq<int>, start: int, i: nat, j: nat)
    requires Spaced(times, start) && i < j < |times|
    ensures times[j] - times[i] > ThrottleMs * (j - i)
    decreases j
  {
    if j > i + 1 {
      PublicationsApart(times, start, i, j - 1);
    }
  }

  /** No publication falls within `ThrottleMs` of `start`, and the `k`-th comes more than `(k + 1) * ThrottleMs` after it. */
  lemma PublicationsAfterStart(times: seq<int>, start: int, k: nat)
    requires Spaced(times, start) && k < |times|
    ensures times[k] - start > ThrottleMs * (k + 1)
  {
    if k > 0 {
      PublicationsApart(times, start, 0, k);
    }
  }

  class Monitor {
    var metrics: PerformanceMetrics
    var lastUpdate: int
    const counter: FPSCounter
    ghost const createdAt: int
    ghost var publishTimes: seq<int>

    /** The counter is consistent, publications are spaced, and `lastUpdate` is the latest of them (the creation time before any). */
    ghost predicate Valid()
      reads this, counter
    {
      && counter.Valid()
      && Spaced(publishTimes, createdAt)
      && lastUpdate == (if publishTimes == [] then createdAt else publishTimes[|publishTimes| - 1])
    }

    /** The hook's first render, at wall clock `now` and frame clock `frameNow`. */
    constructor (now: int, frameNow: real)
      ensures Valid()
      ensures metrics == InitialMetrics && lastUpdate == now
      ensures fresh(counter) && counter.fps == 60.0 && counter.samples == [] && counter.lastTime == frameNow
      ensures createdAt == now && publishTimes == []
    {
      metrics := InitialMetrics;
      lastUpdate := now;
      counter := new FPSCounter(frameNow);
      createdAt := now;
      publishTimes := [];
    }

    /**
     * One animation frame: the counter is updated whatever happens; when more
     * than `ThrottleMs` has passed since the last publication, `fps` and
     * `memoryUsage` are replaced, the other metrics carry over, and the clock
     * reading becomes the last publication.
     */
    method UpdateMetrics(now: int, frameNow: real, memory: real)
      requires Valid()
      modifies this, counter
      ensures Valid()
      ensures counter.frameCount == old(counter.frameCount) + 1 && counter.lastTime == frameNow
      ensures now - old(lastUpdate) > ThrottleMs ==>
        && metrics == old(metrics).(fps := Round(counter.fps), memoryUsage := memory)
        && lastUpdate == now
        && publishTimes == old(publishTimes) + [now]
      ensures now - old(lastUpdate) <= ThrottleMs ==>
        && metrics == old(metrics)
        && lastUpdate == old(lastUpdate)
        && publishTimes == old(publishTimes)
    {
      var fps := counter.Update(frameNow);
      if now - lastUpdate > ThrottleMs {
        metrics := metrics.(fps := fps, memoryUsage := memory);
        lastUpdate := now;
        publishTimes := publishTimes + [now];
      }
    }
  }
}
