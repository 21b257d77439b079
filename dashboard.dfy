/**
 * The dashboard page's derived data: the category/time-window filter that
 * feeds every chart and the table, the distinct categories offered to the
 * filter panel, the metrics shown with the live point count, and the
 * page's initial view settings.
 */
module Dashboard {
  import opened Types
  import opened SeqUtils
  import DataGenerator

  /** Points backfilled when the page loads. */
  const InitialDataPoints: nat := 5000

  /** The page's view settings: selected categories, inclusive time window, aggregation mode. */
  datatype View = View(selectedCategories: seq<string>, timeRange: (int, int), aggregation: TimeAggregation)

  /** The view the page starts with at time `now`. */
  function InitialView(now: int): (v: View)
    ensures v.selectedCategories == DataGenerator.Categories
    ensures v.timeRange.0 == now - 3600000 && v.timeRange.1 == now + 600000
    ensures v.timeRange.0 < now < v.timeRange.1
    ensures v.aggregation == Raw
  {
    View(["metric-a", "metric-b", "metric-c"], (now - 3600000, now + 600000), Raw)
  }

  /** The filter's test for one point: selected category and timestamp inside the window, both ends included. */
  predicate Qualifies(p: DataPoint, selected: seq<string>, range: (int, int))
  {
    p.category in selected && p.timestamp >= range.0 && p.timestamp <= range.1
  }

  function QualifierFor(selected: seq<string>, range: (int, int)): DataPoint -> bool
  {
    p => Qualifies(p, selected, range)
  }

  /** `filteredData`: the stream filtered by the view's categories and time window. */
  function FilteredData(data: seq<DataPoint>, view: View): seq<DataPoint>
  {
    Filter(data, QualifierFor(view.selectedCategories, view.timeRange))
  }

  /**
   * The filtered data keeps the stream's order and holds each qualifying
   * point exactly as often as the stream does, and no other point.
   */
  lemma FilteredDataExact(data: seq<DataPoint>, view: View)
    ensures IsSubsequence(FilteredData(data, view), data)
    ensures forall p ::
      multiset(FilteredData(data, view))[p] == if Qualifies(p, view.selectedCategories, view.timeRange) then multiset(data)[p] else 0
  {
    var f := QualifierFor(view.selectedCategories, view.timeRange);
    FilterIsSubsequence(data, f);
    forall p
      ensures multiset(FilteredData(data, view))[p] ==
        if Qualifies(p, view.selectedCategories, view.timeRange) then multiset(data)[p] else 0
    {
      FilterCount(data, f, p);
    }
  }

  /** Nothing is shown when no category is selected or the window is reversed. */
  lemma FilteredDataEmpty(data: seq<DataPoint>, view: View)
    requires view.selectedCategories == [] || view.timeRange.0 > view.timeRange.1
    ensures FilteredData(data, view) == []
  {
    FilterNone(data, QualifierFor(view.selectedCategories, view.timeRange));
  }

  /** When every point qualifies the charts see the whole stream. */
  lemma FilteredDataAll(data: seq<DataPoint>, view: View)
    requires forall i :: 0 <= i < |data| ==> Qualifies(data[i], view.selectedCategories, view.timeRange)
    ensures FilteredData(data, view) == data
  {
    FilterAll(data, QualifierFor(view.selectedCategories, view.timeRange));
  }

  /** The aggregation setting is held in the view but never applied: two views that differ only there filter alike. */
  lemma FilteredDataIgnoresAggregation(data: seq<DataPoint>, view: View, mode: TimeAggregation)
    ensures FilteredData(data, view.(aggregation := mode)) == FilteredData(data, view)
  {
  }

  /** `categories`: `Array.from(new Set(data.map(d => d.category)))`. */
  function PageCategories(data: seq<DataPoint>): seq<string>
  {
    Distinct(CategoryList(data))
  }

  /** Each category occurring in the stream is listed, exactly once, and nothing else is. */
  lemma PageCategoriesExact(data: seq<DataPoint>)
    ensures NoDuplicates(PageCategories(data))
    ensures forall c :: c in PageCategories(data) <==> exists i :: 0 <= i < |data| && data[i].category == c
  {
    var names := CategoryList(data);
    forall c
      ensures c in PageCategories(data) <==> exists i :: 0 <= i < |data| && data[i].category == c
    {
      if c in names {
        var i :| 0 <= i < |names| && names[i] == c;
        assert data[i].category == c;
      }
      if exists i :: 0 <= i < |data| && data[i].category == c {
        var i :| 0 <= i < |data| && data[i].category == c;
        assert names[i] == c;
      }
    }
  }

  /** `metricsWithCount`: the monitor's metrics with the point count replaced by the stream's length. */
  function MetricsWithCount(metrics: PerformanceMetrics, data: seq<DataPoint>): (m: PerformanceMetrics)
    ensures m.dataPointCount == |data|
    ensures m.fps == metrics.fps && m.memoryUsage == metrics.memoryUsage
    ensures m.renderTime == metrics.renderTime && m.dataProcessingTime == metrics.dataProcessingTime
  {
    metrics.(dataPointCount := |data|)
  }
}
