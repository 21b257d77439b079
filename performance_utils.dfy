/**
 * `FPSCounter`: frames per second as the mean of the instantaneous rates of
 * the last 60 frames. The clock reading (`performance.now()`) is passed in.
 */
module PerformanceUtils {
  import opened SeqUtils
  import opened Numeric

  /** The number of per-frame rates the counter averages over. */
  const MaxSamples: nat := 60

  /** `samples.push(x)`, then `samples.shift()` when the window overflows. */
  function PushWindow(samples: seq<real>, x: real): seq<real>
  {
    if |samples + [x]| > MaxSamples then (samples + [x])[1..] else samples + [x]
  }

  /** From a window of at most 60 rates, a push keeps exactly the 60 most recent. */
  lemma PushWindowKeepsNewest(samples: seq<real>, x: real)
    requires |samples| <= MaxSamples
    ensures PushWindow(samples, x) == Last(samples + [x], MaxSamples)
    ensures |PushWindow(samples, x)| == if |samples| < MaxSamples then |samples| + 1 else MaxSamples
    ensures PushWindow(samples, x)[|PushWindow(samples, x)| - 1] == x
  {
  }

  /** While every rate in the window is the same `c`, pushing `c` again keeps the mean at exactly `c`. */
  lemma SteadyRate(samples: seq<real>, c: real)
    requires forall i :: 0 <= i < |samples| ==> samples[i] == c
    ensures Mean(PushWindow(samples, c)) == c
  {
    var w := PushWindow(samples, c);
    assert forall i :: 0 <= i < |w| ==> w[i] == c by {
      forall i | 0 <= i < |w|
        ensures w[i] == c
      {
        if |samples + [c]| > MaxSamples {
          assert w[i] == (samples + [c])[i + 1];
        } else {
          assert w[i] == (samples + [c])[i];
        }
      }
    }
    MeanOfConstant(w, c);
  }

  /** Pushing a positive rate onto a window of positive rates keeps it a bounded window of positive rates with a positive mean. */
  lemma PushKeepsRates(samples: seq<real>, x: real)
    requires |samples| <= MaxSamples && x > 0.0
    requires forall i :: 0 <= i < |samples| ==> samples[i] > 0.0
    ensures var w := PushWindow(samples, x);
      && w != [] && |w| <= MaxSamples
      && (forall i :: 0 <= i < |w| ==> w[i] > 0.0)
      && Mean(w) > 0.0
  {
    var w := PushWindow(samples, x);
    forall i | 0 <= i < |w|
      ensures w[i] > 0.0
    {
      if |samples + [x]| > MaxSamples {
        assert w[i] == (samples + [x])[i + 1];
      } else {
        assert w[i] == (samples + [x])[i];
      }
    }
    MeanBounds(w);
    assert SeqMin(w) > 0.0;
  }

  class FPSCounter {
    var lastTime: real
    var fps: real
    var frameCount: int
    var samples: seq<real>

    /**
     * The window never holds more than 60 rates, all positive; the reported
     * rate is positive and, whenever the window is non-empty, its mean.
     */
    ghost predicate Valid()
      reads this
    {
      && |samples| <= MaxSamples
      && (forall i :: 0 <= i < |samples| ==> samples[i] > 0.0)
      && fps > 0.0
      && (samples != [] ==> fps == Mean(samples))
    }

    /** `new FPSCounter()` at clock reading `now`. */
    constructor (now: real)
      ensures Valid()
      ensures lastTime == now && fps == 60.0 && frameCount == 0 && samples == []
    {
      lastTime := now;
      fps := 60.0;
      frameCount := 0;
      samples := [];
    }

    /**
     * `update()` at clock reading `now`: a positive delta adds the rate
     * `1000 / delta` to the window and makes `fps` the window's mean; any
     * other delta leaves `fps` as it was. The frame is counted either way,
     * and the rounded rate is returned.
     */
    method Update(now: real) returns (rounded: int)
      requires Valid()
      modifies this
      ensures Valid()
      ensures lastTime == now && frameCount == old(frameCount) + 1
      ensures var delta := now - old(lastTime);
        && (delta > 0.0 ==> samples == PushWindow(old(samples), 1000.0 / delta) && fps == Mean(samples))
        && (delta <= 0.0 ==> samples == old(samples) && fps == old(fps))
      ensures rounded == Round(fps)
    {
      var delta := now - lastTime;
      lastTime := now;
      if delta > 0.0 {
        var currentFps := 1000.0 / delta;
        ghost var before := samples;
        PushKeepsRates(before, currentFps);
        samples := samples + [currentFps];
        if |samples| > MaxSamples {
          samples := samples[1..];
        }
        assert samples == PushWindow(before, currentFps);
        fps := Mean(samples);
      }
      frameCount := frameCount + 1;
      rounded := Round(fps);
    }

    /** `getFPS()`: the current rate, rounded to the nearest integer. */
    method GetFPS() returns (rounded: int)
      requires Valid()
      ensures rounded == Round(fps)
      ensures rounded >= 0
    {
      rounded := Round(fps);
    }

    /** `reset()` at clock reading `now`: the window and the frame count are cleared; `fps` keeps its last value. */
    method Reset(now: real)
      requires Valid()
      modifies this
      ensures Valid()
      ensures samples == [] && frameCount == 0 && lastTime == now && fps == old(fps)
    {
      samples := [];
      frameCount := 0;
      lastTime := now;
    }
  }
}
