/**
 * Point generation (the initial backfill and one live point per tick) and the
 * min/max/average statistics of a list of values. The sine-plus-noise value
 * model is abstracted: each point's value before the `max(0, ·)` clamp is a
 * parameter, as is the random number that picks a live point's category.
 */
module DataGenerator {
  import opened Types
  import opened Numeric

  /** The three category names the generator uses. */
  const Categories: seq<string> := ["metric-a", "metric-b", "metric-c"]

  /** Simulated milliseconds between two consecutive backfilled points. */
  const BackfillSpacing: int := 100

  /**
   * `generateInitialData(points, startTime)`: `points` points spaced 100 ms
   * apart and ending at `startTime`, categories in round-robin order, every
   * value clamped at 0. `raw[i]` stands for the i-th `100 + sine + noise`.
   */
  method GenerateInitialData(points: nat, startTime: int, raw: seq<real>) returns (data: seq<DataPoint>)
    requires |raw| == points
    ensures |data| == points
    ensures points > 0 ==> data[points - 1].timestamp == startTime
    ensures forall i :: 0 <= i < points - 1 ==> data[i + 1].timestamp == data[i].timestamp + BackfillSpacing
    ensures forall i :: 0 <= i < points ==> data[i].category == Categories[i % 3]
    ensures forall i :: 0 <= i < points ==> data[i].value >= 0.0
    ensures forall i :: 0 <= i < points ==> (raw[i] >= 0.0 ==> data[i].value == raw[i]) && (raw[i] < 0.0 ==> data[i].value == 0.0)
    ensures forall i :: 0 <= i < points ==> data[i].metadata == InitialId(i)
  {
    data := [];
    var i := 0;
    while i < points
      invariant 0 <= i <= points && |data| == i
      invariant forall j :: 0 <= j < i ==> data[j].timestamp == startTime - (points - j - 1) * BackfillSpacing
      invariant forall j :: 0 <= j < i ==> data[j].category == Categories[j % |Categories|]
      invariant forall j :: 0 <= j < i ==> data[j].value == Max(0.0, raw[j])
      invariant forall j :: 0 <= j < i ==> data[j].metadata == InitialId(j)
    {
      var timestamp := startTime - (points - i - 1) * BackfillSpacing;
      var category := Categories[i % |Categories|];
      data := data + [DataPoint(timestamp, Max(0.0, raw[i]), category, InitialId(i))];
      i := i + 1;
    }
  }

  /**
   * `generateStreamData(currentTime)`: one point stamped exactly
   * `currentTime`, its category picked by `floor(random · 3)` from a
   * `random` in `[0, 1)`, its value `raw` clamped at 0.
   */
  function GenerateStreamData(currentTime: int, random: real, raw: real): (p: DataPoint)
    requires 0.0 <= random < 1.0
    ensures p.timestamp == currentTime
    ensures p.category in Categories
    ensures p.value >= 0.0
    ensures raw >= 0.0 ==> p.value == raw
    ensures raw < 0.0 ==> p.value == 0.0
    ensures p.metadata == StreamNew
  {
    var index := (random * 3.0).Floor;
    DataPoint(currentTime, Max(0.0, raw), Categories[index], StreamNew)
  }

  /**
   * `calculateStats(values)`: all zeros for an empty list; otherwise a
   * minimum and a maximum drawn from the list that bound all of it, the
   * count, and the mean, which lies between the two.
   */
  method CalculateStats(values: seq<real>) returns (stats: DataStats)
    ensures values == [] ==> stats == DataStats(0.0, 0.0, 0.0, 0)
    ensures values != [] ==>
      && stats.min in values && stats.max in values
      && (forall i :: 0 <= i < |values| ==> stats.min <= values[i] <= stats.max)
      && stats.count == |values|
      && stats.avg == Mean(values)
      && stats.min <= stats.avg <= stats.max
  {
    if |values| == 0 {
      return DataStats(0.0, 0.0, 0.0, 0);
    }
    var min := values[0];
    var max := values[0];
    var sum := 0.0;
    for i := 0 to |values|
      invariant min in values && max in values
      invariant forall j :: 0 <= j < i ==> min <= values[j] <= max
      invariant sum == Sum(values[..i])
    {
      var val := values[i];
      if val < min { min := val; }
      if val > max { max := val; }
      SumPrefix(values, i);
      sum := sum + val;
    }
    assert values[..|values|] == values;
    MeanBetween(values, min, max);
    stats := DataStats(min, max, sum / (|values| as real), |values|);
  }
}
