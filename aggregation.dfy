/**
 * `aggregateData`: the `raw` mode keeps, per timestamp, the last value seen
 * for each category; the bucketed modes group points into fixed-width time
 * buckets and average each category's values within a bucket.
 */
module Aggregation {
  import opened Types
  import opened Numeric

  /** Per-category values of one output row (`Record<string, number>`). */
  type Row = map<string, real>

  /** The aggregated result: one row per key (`Map<number, Record<string, number>>`). */
  type Table = map<int, Row>

  /** The bucket width of a bucketed mode. */
  function IntervalMs(mode: TimeAggregation): (ms: int)
    requires mode != Raw
    ensures ms > 0
    ensures mode == OneMinute ==> ms == 60000
    ensures mode == FiveMinutes ==> ms == 300000
    ensures mode == OneHour ==> ms == 3600000
  {
    if mode == OneMinute then 60000 else if mode == FiveMinutes then 300000 else 3600000
  }

  /** `Math.floor(ts / interval) * interval`: the start of the bucket holding `ts`. */
  function BucketKey(ts: int, interval: int): (b: int)
    requires interval > 0
    ensures b % interval == 0
    ensures b <= ts < b + interval
  {
    var q := ts / interval;
    DivModUnique(q * interval, interval, q, 0);
    q * interval
  }

  /** The key of the `raw` mode: the timestamp itself. */
  function ExactTimestamp(ts: int): int { ts }

  /**
   * Points written in order into a table keyed by `key(timestamp)`, each
   * write setting the point's category in its row (later writes overwrite).
   */
  function LatestBy(points: seq<DataPoint>, key: int -> int): Table
  {
    if points == [] then map[]
    else
      var p := points[|points| - 1];
      WriteCell(LatestBy(points[..|points| - 1], key), key(p.timestamp), p.category, p.value)
  }

  /** `(result.get(k) || {})[c] = v; result.set(k, …)`: one write into row `k`, which is created when missing. */
  function WriteCell(t: Table, k: int, c: string, v: real): Table
  {
    var row := if k in t then t[k] else map[];
    t[k := row[c := v]]
  }

  /** A write adds row `k` if missing and keeps every other row. */
  lemma WriteCellKeys(t: Table, k: int, c: string, v: real)
    ensures forall k' :: k' in WriteCell(t, k, c, v) <==> k' in t || k' == k
  {
  }

  /** A write adds cell (`k`, `c`) holding `v` and keeps every other cell as it was. */
  lemma WriteCellCells(t: Table, k: int, c: string, v: real)
    ensures var r := WriteCell(t, k, c, v);
      && (forall k', c' :: HasCell(r, k', c') <==> HasCell(t, k', c') || (k' == k && c' == c))
      && HasCell(r, k, c) && r[k][c] == v
      && (forall k', c' :: HasCell(t, k', c') && (k' != k || c' != c) ==> r[k'][c'] == t[k'][c'])
  {
  }

  /** The table of the first `i + 1` points is that of the first `i` with point `i` written into it. */
  lemma LatestByStep(points: seq<DataPoint>, key: int -> int, i: int)
    requires 0 <= i < |points|
    ensures LatestBy(points[..i + 1], key) == WriteCell(LatestBy(points[..i], key), key(points[i].timestamp), points[i].category, points[i].value)
  {
    assert points[..i + 1][..i] == points[..i];
  }

  /** Point `i` is written under key `k`. */
  ghost predicate WritesKey(points: seq<DataPoint>, key: int -> int, i: int, k: int)
  {
    0 <= i < |points| && key(points[i].timestamp) == k
  }

  /** A key has a row exactly when some point maps to it. */
  lemma {:induction false} LatestByKeys(points: seq<DataPoint>, key: int -> int)
    ensures forall k :: k in LatestBy(points, key) <==> exists i :: WritesKey(points, key, i, k)
  {
    if points != [] {
      var n := |points| - 1;
      var init := points[..n];
      var t := LatestBy(points, key);
      var m := LatestBy(init, key);
      var p := points[n];
      LatestByKeys(init, key);
      assert t == WriteCell(m, key(p.timestamp), p.category, p.value);
      WriteCellKeys(m, key(p.timestamp), p.category, p.value);
      forall k
        ensures k in t <==> exists i :: WritesKey(points, key, i, k)
      {
        if k in t {
          if k == key(p.timestamp) {
            assert WritesKey(points, key, n, k);
          } else {
            var i :| WritesKey(init, key, i, k);
            assert WritesKey(points, key, i, k);
          }
        }
        if exists i :: WritesKey(points, key, i, k) {
          var i :| WritesKey(points, key, i, k);
          if i < n {
            assert WritesKey(init, key, i, k);
          }
        }
      }
    }
  }

  /** Every row of the table holds at least one cell. */
  lemma {:induction false} LatestByRowNonEmpty(points: seq<DataPoint>, key: int -> int, k: int)
    requires k in LatestBy(points, key)
    ensures |LatestBy(points, key)[k]| > 0
  {
    var n := |points| - 1;
    var p := points[n];
    WriteCellHits(LatestBy(points[..n], key), key(p.timestamp), p.category, p.value);
    if k != key(p.timestamp) {
      LatestByRowNonEmpty(points[..n], key, k);
    }
  }

  /** Table `t` has a row `k` holding category `c`. */
  predicate HasCell(t: Table, k: int, c: string)
  {
    k in t && c in t[k]
  }

  /** Point `i` has category `c` and is written under key `k`. */
  ghost predicate WritesCell(points: seq<DataPoint>, key: int -> int, i: int, k: int, c: string)
  {
    0 <= i < |points| && key(points[i].timestamp) == k && points[i].category == c
  }

  /** A (key, category) cell exists exactly when some point of that category maps to that key. */
  lemma {:induction false} LatestByCells(points: seq<DataPoint>, key: int -> int)
    ensures forall k, c :: HasCell(LatestBy(points, key), k, c) <==> exists i :: WritesCell(points, key, i, k, c)
  {
    if points != [] {
      var n := |points| - 1;
      var init := points[..n];
      var t := LatestBy(points, key);
      var m := LatestBy(init, key);
      LatestByCells(init, key);
      var p := points[n];
      assert t == WriteCell(m, key(p.timestamp), p.category, p.value);
      WriteCellCells(m, key(p.timestamp), p.category, p.value);
      forall k, c
        ensures HasCell(t, k, c) <==> exists i :: WritesCell(points, key, i, k, c)
      {
        if HasCell(t, k, c) {
          if k == key(p.timestamp) && c == p.category {
            assert WritesCell(points, key, n, k, c);
          } else {
            assert HasCell(m, k, c);
            var i :| WritesCell(init, key, i, k, c);
            assert WritesCell(points, key, i, k, c);
          }
        }
        if exists i :: WritesCell(points, key, i, k, c) {
          var i :| WritesCell(points, key, i, k, c);
          if i < n {
            assert WritesCell(init, key, i, k, c);
            assert HasCell(m, k, c);
          }
          assert HasCell(t, k, c);
        }
      }
    }
  }

  /** The cell of a point that no later point overwrites holds that point's value. */
  lemma {:induction false} LatestByLastWins(points: seq<DataPoint>, key: int -> int, i: int)
    requires 0 <= i < |points| && LastOfItsCell(points, key, i)
    ensures var t := LatestBy(points, key);
      var k := key(points[i].timestamp);
      k in t && points[i].category in t[k] && t[k][points[i].category] == points[i].value
  {
    var n := |points| - 1;
    var init := points[..n];
    var p := points[n];
    LatestByStep(points, key, n);
    assert points[..n + 1] == points;
    if i < n {
      LastOfItsCellPrefix(points, key, i);
      LatestByLastWins(init, key, i);
      WriteCellKeepsOther(LatestBy(init, key), key(p.timestamp), p.category, p.value, key(init[i].timestamp), init[i].category);
    } else {
      WriteCellHits(LatestBy(init, key), key(p.timestamp), p.category, p.value);
    }
  }

  /** Dropping the last point keeps an earlier point the last of its cell. */
  lemma LastOfItsCellPrefix(points: seq<DataPoint>, key: int -> int, i: int)
    requires 0 <= i < |points| - 1 && LastOfItsCell(points, key, i)
    ensures points[..|points| - 1][i] == points[i]
    ensures LastOfItsCell(points[..|points| - 1], key, i)
  {
    var init := points[..|points| - 1];
    forall j | i < j < |init|
      ensures key(init[j].timestamp) != key(init[i].timestamp) || init[j].category != init[i].category
    {
      assert init[j] == points[j];
    }
  }

  /** A write creates its cell and puts its value there. */
  lemma WriteCellHits(t: Table, k: int, c: string, v: real)
    ensures HasCell(WriteCell(t, k, c, v), k, c) && WriteCell(t, k, c, v)[k][c] == v
  {
  }

  /** A write into another cell leaves an existing cell's value alone. */
  lemma WriteCellKeepsOther(t: Table, k: int, c: string, v: real, k': int, c': string)
    requires HasCell(t, k', c') && (k' != k || c' != c)
    ensures HasCell(WriteCell(t, k, c, v), k', c') && WriteCell(t, k, c, v)[k'][c'] == t[k'][c']
  {
  }

  /** No later point of `points` falls in the same (key, category) cell as point `i`. */
  ghost predicate LastOfItsCell(points: seq<DataPoint>, key: int -> int, i: int)
    requires 0 <= i < |points|
  {
    forall j :: i < j < |points| ==>
      key(points[j].timestamp) != key(points[i].timestamp) || points[j].category != points[i].category
  }

  /** Points written in order into per-bucket, per-category value lists. */
  function GroupBy(points: seq<DataPoint>, interval: int): (g: map<int, map<string, seq<real>>>)
    requires interval > 0
    ensures forall b, c :: b in g && c in g[b] ==> g[b][c] != []
  {
    if points == [] then map[]
    else
      var g := GroupBy(points[..|points| - 1], interval);
      var p := points[|points| - 1];
      var b := BucketKey(p.timestamp, interval);
      var row := if b in g then g[b] else map[];
      var vals := if p.category in row then row[p.category] else [];
      g[b := row[p.category := vals + [p.value]]]
  }

  /** The values, in input order, of the points of category `c` whose bucket is `b`. */
  function ValuesIn(points: seq<DataPoint>, interval: int, b: int, c: string): seq<real>
    requires interval > 0
  {
    if points == [] then []
    else
      var p := points[|points| - 1];
      ValuesIn(points[..|points| - 1], interval, b, c)
        + if BucketKey(p.timestamp, interval) == b && p.category == c then [p.value] else []
  }

  /** A bucket has a row exactly when some point falls in it. */
  lemma {:induction false} GroupByKeys(points: seq<DataPoint>, interval: int)
    requires interval > 0
    ensures forall b :: b in GroupBy(points, interval) <==>
      exists i :: 0 <= i < |points| && BucketKey(points[i].timestamp, interval) == b
  {
    if points != [] {
      var n := |points| - 1;
      var init := points[..n];
      GroupByKeys(init, interval);
      forall b
        ensures b in GroupBy(points, interval) <==>
          exists i :: 0 <= i < |points| && BucketKey(points[i].timestamp, interval) == b
      {
        if b in GroupBy(init, interval) {
          var i :| 0 <= i < n && BucketKey(init[i].timestamp, interval) == b;
          assert points[i] == init[i];
        }
        if exists i :: 0 <= i < |points| && BucketKey(points[i].timestamp, interval) == b {
          var i :| 0 <= i < |points| && BucketKey(points[i].timestamp, interval) == b;
          if i < n {
            assert points[i] == init[i];
          }
        }
      }
    }
  }

  /** A bucket's list for a category is exactly that category's values in the bucket; a missing list is an empty one. */
  lemma {:induction false} GroupByLists(points: seq<DataPoint>, interval: int, b: int, c: string)
    requires interval > 0
    ensures var g := GroupBy(points, interval);
      && (b in g && c in g[b] ==> g[b][c] == ValuesIn(points, interval, b, c))
      && (!(b in g && c in g[b]) ==> ValuesIn(points, interval, b, c) == [])
  {
    if points != [] {
      GroupByLists(points[..|points| - 1], interval, b, c);
    }
  }

  /** Every value collected for (b, c) is the value of a point of category `c` in bucket `b`. */
  lemma {:induction false} ValuesInSource(points: seq<DataPoint>, interval: int, b: int, c: string, k: int)
    requires interval > 0 && 0 <= k < |ValuesIn(points, interval, b, c)|
    ensures exists i :: 0 <= i < |points| && points[i].value == ValuesIn(points, interval, b, c)[k]
                     && points[i].category == c && b <= points[i].timestamp < b + interval
  {
    var n := |points| - 1;
    var before := ValuesIn(points[..n], interval, b, c);
    if k < |before| {
      ValuesInSource(points[..n], interval, b, c, k);
      var i :| 0 <= i < n && points[..n][i].value == before[k] && points[..n][i].category == c
        && b <= points[..n][i].timestamp < b + interval;
      assert points[i] == points[..n][i];
    } else {
      assert BucketKey(points[n].timestamp, interval) == b;
    }
  }

  /** `Object.keys(values).forEach(...)` as a value: every list of a row replaced by its mean. */
  function MeanRow(row: map<string, seq<real>>): Row
    requires forall c :: c in row ==> row[c] != []
  {
    map c | c in row :: Mean(row[c])
  }

  /** The table the bucketed modes produce. */
  function BucketMeans(points: seq<DataPoint>, interval: int): Table
    requires interval > 0
  {
    var g := GroupBy(points, interval);
    map b | b in g :: MeanRow(g[b])
  }

  /** What `aggregateData(data, mode)` returns. */
  function Aggregate(data: seq<DataPoint>, mode: TimeAggregation): Table
  {
    if mode == Raw then LatestBy(data, ExactTimestamp) else BucketMeans(data, IntervalMs(mode))
  }

  /**
   * `raw` mode: one row per distinct timestamp; a cell per (timestamp,
   * category) that occurs; each cell holds the value of the last point
   * with that timestamp and category.
   */
  lemma RawAggregation(data: seq<DataPoint>)
    ensures var t := Aggregate(data, Raw);
      && (forall ts :: ts in t <==> exists i :: WritesKey(data, ExactTimestamp, i, ts))
      && (forall ts, c :: HasCell(t, ts, c) <==> exists i :: WritesCell(data, ExactTimestamp, i, ts, c))
      && (forall i :: 0 <= i < |data| && LastOfItsCell(data, ExactTimestamp, i) ==>
            data[i].timestamp in t && data[i].category in t[data[i].timestamp]
            && t[data[i].timestamp][data[i].category] == data[i].value)
  {
    var t := Aggregate(data, Raw);
    assert t == LatestBy(data, ExactTimestamp);
    LatestByKeys(data, ExactTimestamp);
    LatestByCells(data, ExactTimestamp);
    forall i | 0 <= i < |data| && LastOfItsCell(data, ExactTimestamp, i)
      ensures data[i].timestamp in t && data[i].category in t[data[i].timestamp]
        && t[data[i].timestamp][data[i].category] == data[i].value
    {
      LatestByLastWins(data, ExactTimestamp, i);
      assert ExactTimestamp(data[i].timestamp) == data[i].timestamp;
    }
  }

  /**
   * Bucketed modes: every key is a multiple of the interval and is the
   * bucket of some point; every point's bucket is a key.
   */
  lemma BucketKeysAligned(data: seq<DataPoint>, mode: TimeAggregation)
    requires mode != Raw
    ensures var interval := IntervalMs(mode);
      var t := Aggregate(data, mode);
      && (forall b :: b in t ==>
            b % interval == 0 && exists i :: 0 <= i < |data| && b <= data[i].timestamp < b + interval)
      && (forall i :: 0 <= i < |data| ==> BucketKey(data[i].timestamp, interval) in t)
  {
    var interval := IntervalMs(mode);
    GroupByKeys(data, interval);
    var t := Aggregate(data, mode);
    forall b | b in t
      ensures b % interval == 0 && exists i :: 0 <= i < |data| && b <= data[i].timestamp < b + interval
    {
      var i :| 0 <= i < |data| && BucketKey(data[i].timestamp, interval) == b;
    }
  }

  /**
   * Bucketed modes, per (bucket, category): the cell exists exactly when the
   * bucket holds a point of that category; it is the mean of those points'
   * values and lies between their minimum and maximum; a lone value is kept
   * exactly.
   */
  lemma BucketCell(data: seq<DataPoint>, mode: TimeAggregation, b: int, c: string)
    requires mode != Raw
    ensures var interval := IntervalMs(mode);
      var t := Aggregate(data, mode);
      var vals := ValuesIn(data, interval, b, c);
      && (b in t && c in t[b] <==> vals != [])
      && (b in t && c in t[b] ==>
            && t[b][c] == Mean(vals)
            && SeqMin(vals) <= t[b][c] <= SeqMax(vals)
            && (|vals| == 1 ==> t[b][c] == vals[0]))
  {
    var interval := IntervalMs(mode);
    var vals := ValuesIn(data, interval, b, c);
    BucketCellMean(data, interval, b, c);
    assert Aggregate(data, mode) == BucketMeans(data, interval);
    if vals != [] {
      MeanBounds(vals);
      if |vals| == 1 {
        MeanOfConstant(vals, vals[0]);
      }
    }
  }

  /** The cell (b, c) of the bucketed table exists exactly when its value list is non-empty, and is that list's mean. */
  lemma BucketCellMean(data: seq<DataPoint>, interval: int, b: int, c: string)
    requires interval > 0
    ensures var t := BucketMeans(data, interval);
      var vals := ValuesIn(data, interval, b, c);
      && (b in t && c in t[b] <==> vals != [])
      && (b in t && c in t[b] ==> t[b][c] == Mean(vals))
  {
    GroupByLists(data, interval, b, c);
    var g := GroupBy(data, interval);
    if b in g && c in g[b] {
      assert BucketMeans(data, interval)[b] == MeanRow(g[b]);
    }
  }

  /**
   * `aggregateData(data, aggregation)`: the `raw` pass writes each point
   * into its timestamp's row; the bucketed pass collects value lists per
   * bucket and category, then replaces every list by its mean.
   */
  method AggregateData(data: seq<DataPoint>, aggregation: TimeAggregation) returns (result: Table)
    ensures result == Aggregate(data, aggregation)
  {
    if aggregation == Raw {
      result := map[];
      for i := 0 to |data|
        invariant result == LatestBy(data[..i], ExactTimestamp)
      {
        LatestByStep(data, ExactTimestamp, i);
        var point := data[i];
        var existing := if point.timestamp in result then result[point.timestamp] else map[];
        existing := existing[point.category := point.value];
        result := result[point.timestamp := existing];
      }
      assert data[..|data|] == data;
      return;
    }

    var intervalMs := IntervalMs(aggregation);
    var grouped := GroupPoints(data, intervalMs);
    result := AverageBuckets(grouped);
    ghost var means := BucketMeans(data, intervalMs);
    assert result.Keys == means.Keys;
    forall b | b in result
      ensures result[b] == means[b]
    {
    }
  }

  /** The first `forEach` of the bucketed modes: each point's value pushed onto its bucket's list for its category. */
  method GroupPoints(data: seq<DataPoint>, intervalMs: int) returns (grouped: map<int, map<string, seq<real>>>)
    requires intervalMs > 0
    ensures grouped == GroupBy(data, intervalMs)
  {
    grouped := map[];
    for i := 0 to |data|
      invariant grouped == GroupBy(data[..i], intervalMs)
    {
      assert data[..i + 1][..i] == data[..i];
      var point := data[i];
      var bucket := (point.timestamp / intervalMs) * intervalMs;
      assert bucket == BucketKey(point.timestamp, intervalMs);
      var existing := if bucket in grouped then grouped[bucket] else map[];
      ghost var before := existing;
      if point.category !in existing {
        existing := existing[point.category := []];
      }
      var vals := existing[point.category];
      existing := existing[point.category := vals + [point.value]];
      assert vals == if point.category in before then before[point.category] else [];
      assert existing == before[point.category := vals + [point.value]];
      grouped := grouped[bucket := existing];
    }
    assert data[..|data|] == data;
  }

  /** The second `forEach` of the bucketed modes: every bucket's row of lists replaced by its row of means. */
  method AverageBuckets(grouped: map<int, map<string, seq<real>>>) returns (averages: Table)
    requires forall b, c :: b in grouped && c in grouped[b] ==> grouped[b][c] != []
    ensures averages.Keys == grouped.Keys
    ensures forall b :: b in grouped ==> averages[b] == MeanRow(grouped[b])
  {
    averages := map[];
    var pending := grouped.Keys;
    while pending != {}
      invariant pending <= grouped.Keys
      invariant averages.Keys == grouped.Keys - pending
      invariant forall b :: b in averages ==> averages[b] == MeanRow(grouped[b])
      decreases pending
    {
      if forall b :: b !in pending {
        assert false;
      }
      var bucket :| bucket in pending;
      var averaged := AverageRow(grouped[bucket]);
      averages := averages[bucket := averaged];
      pending := pending - {bucket};
    }
  }

  /** The inner `forEach` of the averaging pass: each category's list replaced by its mean. */
  method AverageRow(values: map<string, seq<real>>) returns (averaged: Row)
    requires forall c :: c in values ==> values[c] != []
    ensures averaged.Keys == values.Keys
    ensures forall c :: c in values ==> SeqMin(values[c]) <= averaged[c] <= SeqMax(values[c])
    ensures averaged == MeanRow(values)
  {
    averaged := map[];
    var keys := values.Keys;
    while keys != {}
      invariant keys <= values.Keys
      invariant averaged.Keys == values.Keys - keys
      invariant forall c :: c in averaged ==> averaged[c] == Mean(values[c])
      decreases keys
    {
      var key :| key in keys;
      var vals := values[key];
      averaged := averaged[key := Sum(vals) / (|vals| as real)];
      keys := keys - {key};
    }
    forall c | c in values
      ensures SeqMin(values[c]) <= averaged[c] <= SeqMax(values[c])
    {
      MeanBounds(values[c]);
    }
  }
}
