/**
 * The live data stream: a buffer of points that each tick extends by one
 * generated point, keeping at most `maxDataPoints` of the most recent ones.
 * The timer is modelled as explicit calls to `Tick`, each given the random
 * number and the raw value the generator would have drawn.
 */
module DataStream {
  import opened Types
  import opened SeqUtils
  import opened DataGenerator

  /** `s.slice(start)` for one argument: a negative start counts back from the end, clamped at 0. */
  function JsSliceFrom<T>(s: seq<T>, start: int): (r: seq<T>)
    ensures IsSuffix(r, s)
    ensures start < 0 ==> |r| == if |s| + start < 0 then |s| else -start
    ensures start >= 0 ==> |r| == if start < |s| then |s| - start else 0
  {
    if start < 0 then (if |s| + start < 0 then s else s[|s| + start..])
    else if start < |s| then s[start..] else []
  }

  /** `[...buffer.slice(-capacity + 1), point]`: the buffer after one append. */
  function Append(buffer: seq<DataPoint>, point: DataPoint, capacity: int): seq<DataPoint>
  {
    JsSliceFrom(buffer, -capacity + 1) + [point]
  }

  /** With a capacity of at least 2 an append keeps exactly the `capacity` most recent points. */
  lemma AppendKeepsNewest(buffer: seq<DataPoint>, point: DataPoint, capacity: int)
    requires capacity >= 2
    ensures Append(buffer, point, capacity) == Last(buffer + [point], capacity)
  {
    var n := |buffer|;
    if n + 1 >= capacity {
      assert (buffer + [point])[n + 1 - capacity..] == buffer[n + 1 - capacity..] + [point];
    }
  }

  /**
   * With a capacity of at least 2 the buffer grows by one per append until
   * it holds `capacity` points and never exceeds that, however long it was.
   */
  lemma AppendLength(buffer: seq<DataPoint>, point: DataPoint, capacity: int)
    requires capacity >= 2
    ensures |Append(buffer, point, capacity)| == if |buffer| < capacity then |buffer| + 1 else capacity
    ensures |Append(buffer, point, capacity)| <= capacity
  {
    AppendKeepsNewest(buffer, point, capacity);
  }

  /** A capacity of 1 makes the slice start `0`, so nothing is ever evicted. */
  lemma AppendCapacityOne(buffer: seq<DataPoint>, point: DataPoint)
    ensures Append(buffer, point, 1) == buffer + [point]
    ensures |Append(buffer, point, 1)| == |buffer| + 1
  {
  }

  /** Whatever the capacity, the buffer after an append ends with the point and is a suffix of the old buffer followed by the point. */
  lemma AppendIsSuffix(buffer: seq<DataPoint>, point: DataPoint, capacity: int)
    ensures IsSuffix(Append(buffer, point, capacity), buffer + [point])
    ensures Append(buffer, point, capacity)[|Append(buffer, point, capacity)| - 1] == point
  {
    var kept := JsSliceFrom(buffer, -capacity + 1);
    SuffixAppend(kept, buffer, point);
  }

  /** Keeping the newest `k` and then appending and keeping the newest `k` is keeping the newest `k` of everything. */
  lemma {:induction false} LastOfLast<T>(s: seq<T>, x: T, k: nat)
    requires k >= 1
    ensures Last(Last(s, k) + [x], k) == Last(s + [x], k)
  {
    var n := |s|;
    if n >= k {
      var w := s[n - k..];
      assert (w + [x])[1..] == s[n - k + 1..] + [x];
      assert (s + [x])[n + 1 - k..] == s[n + 1 - k..] + [x];
    }
  }

  /**
   * How the buffer relates to everything ever streamed: it is a suffix of
   * it, all of it before the first append, and with a capacity of at least 2
   * exactly its newest `capacity` points after any append.
   */
  ghost predicate Window(buffer: seq<DataPoint>, history: seq<DataPoint>, appends: nat, capacity: int)
  {
    && IsSuffix(buffer, history)
    && (appends == 0 ==> buffer == history)
    && (capacity >= 2 && appends > 0 ==> buffer == Last(history, capacity))
  }

  /** Every append keeps the buffer the window of the stream extended by the new point. */
  lemma AppendKeepsWindow(buffer: seq<DataPoint>, history: seq<DataPoint>, appends: nat, capacity: int, point: DataPoint)
    requires Window(buffer, history, appends, capacity)
    ensures Window(Append(buffer, point, capacity), history + [point], appends + 1, capacity)
  {
    var next := Append(buffer, point, capacity);
    AppendIsSuffix(buffer, point, capacity);
    SuffixAppend(buffer, history, point);
    SuffixTransitive(next, buffer + [point], history + [point]);
    if capacity >= 2 {
      AppendKeepsNewest(buffer, point, capacity);
      if appends > 0 {
        LastOfLast(history, point, capacity);
      }
    }
  }

  /**
   * The hook's state: the buffer in `dataRef.current`, the published copy
   * in `data`, and the clock the timer advances. Ghost state records every
   * point ever in the stream (the initial data, then the appended points)
   * and the timestamps of the ticks.
   */
  class Stream {
    const maxDataPoints: int
    const updateInterval: int
    var current: seq<DataPoint>
    var data: seq<DataPoint>
    var currentTime: int
    ghost var history: seq<DataPoint>
    ghost var appends: nat
    ghost var tickTimes: seq<int>

    ghost predicate Valid()
      reads this
    {
      && data == current
      && Window(current, history, appends, maxDataPoints)
      && (updateInterval > 0 ==>
            && (forall i, j :: 0 <= i < j < |tickTimes| ==> tickTimes[i] < tickTimes[j])
            && (forall i :: 0 <= i < |tickTimes| ==> tickTimes[i] <= currentTime))
    }

    /** `useDataStream({ initialData, updateInterval, maxDataPoints })`; `now` is the `Date.now()` read when the timer starts. */
    constructor (initialData: seq<DataPoint>, updateInterval: int, maxDataPoints: int, now: int)
      ensures Valid()
      ensures this.updateInterval == updateInterval && this.maxDataPoints == maxDataPoints
      ensures current == initialData && data == initialData && currentTime == now
      ensures history == initialData && appends == 0 && tickTimes == []
    {
      this.updateInterval := updateInterval;
      this.maxDataPoints := maxDataPoints;
      current := initialData;
      data := initialData;
      currentTime := now;
      history := initialData;
      appends := 0;
      tickTimes := [];
    }

    /** `addDataPoint(point)`: the buffer is replaced by the append and the published data by a copy of it. */
    method AddDataPoint(point: DataPoint)
      requires Valid()
      modifies this
      ensures Valid()
      ensures current == Append(old(current), point, maxDataPoints)
      ensures data == current
      ensures maxDataPoints >= 2 ==> |current| <= maxDataPoints
      ensures history == old(history) + [point] && appends == old(appends) + 1
      ensures currentTime == old(currentTime) && tickTimes == old(tickTimes)
    {
      AppendKeepsWindow(current, history, appends, maxDataPoints, point);
      if maxDataPoints >= 2 {
        AppendLength(current, point, maxDataPoints);
      }
      current := JsSliceFrom(current, -maxDataPoints + 1) + [point];
      data := current;
      history := history + [point];
      appends := appends + 1;
    }

    /** One timer callback: advance the clock by `updateInterval`, generate a point stamped with it and append it. */
    method Tick(random: real, raw: real)
      requires Valid() && 0.0 <= random < 1.0
      modifies this
      ensures Valid()
      ensures currentTime == old(currentTime) + updateInterval
      ensures current == Append(old(current), GenerateStreamData(currentTime, random, raw), maxDataPoints)
      ensures current[|current| - 1].timestamp == currentTime
      ensures tickTimes == old(tickTimes) + [currentTime]
    {
      currentTime := currentTime + updateInterval;
      var newPoint := GenerateStreamData(currentTime, random, raw);
      tickTimes := tickTimes + [currentTime];
      AddDataPoint(newPoint);
      AppendIsSuffix(old(current), newPoint, maxDataPoints);
    }
  }
}
