/**
 * The value types shared by the dashboard: data points, aggregation modes,
 * performance metrics and statistics.
 */
module Types {

  datatype Option<T> = None | Some(value: T)

  /** The two metadata shapes the generator attaches to a point. */
  datatype Metadata =
    | InitialId(id: int)   // backfilled point: its index in the initial data
    | StreamNew            // point produced by a live tick
    | NoMetadata

  /** One observation: a millisecond timestamp, a value and a category name. */
  datatype DataPoint = DataPoint(timestamp: int, value: real, category: string, metadata: Metadata)

  /** The four aggregation modes offered by the filter panel. */
  datatype TimeAggregation = Raw | OneMinute | FiveMinutes | OneHour

  datatype PerformanceMetrics = PerformanceMetrics(
    fps: int,
    memoryUsage: real,
    renderTime: real,
    dataProcessingTime: real,
    dataPointCount: int)

  datatype DataStats = DataStats(min: real, max: real, avg: real, count: int)

  /** `data.map(d => d.category)` */
  function CategoryList(data: seq<DataPoint>): (r: seq<string>)
    ensures |r| == |data|
    ensures forall i :: 0 <= i < |data| ==> r[i] == data[i].category
  {
    seq(|data|, i requires 0 <= i < |data| => data[i].category)
  }

  /** `data.map(d => d.value)` */
  function ValueList(data: seq<DataPoint>): (r: seq<real>)
    ensures |r| == |data|
    ensures forall i :: 0 <= i < |data| ==> r[i] == data[i].value
  {
    seq(|data|, i requires 0 <= i < |data| => data[i].value)
  }
}
