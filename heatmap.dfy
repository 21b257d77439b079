/**
 * The heatmap: a stride sample aimed at 100 points grouped into one-second
 * slots (the last sampled value of each category wins within a slot), a hue
 * scale from blue (240) at the smallest value to red (0) at the largest,
 * and a grid of one cell per (slot, category) with one label per category.
 */
module Heatmap {
  import opened Types
  import opened SeqUtils
  import opened Numeric
  import opened CanvasUtils
  import opened Downsample
  import opened Aggregation
  import Dashboard

  /** The number of points the sampling aims at. */
  const HeatmapTarget: nat := 100

  /** The heatmap's margin, in pixels (wider than the other charts' to leave room for labels). */
  const HeatPadding: real := 60.0

  /** `categories || Array.from(new Set(data.map(d => d.category)))`: a given list, even an empty one, wins. */
  function HeatmapCategories(data: seq<DataPoint>, categories: Option<seq<string>>): (cats: seq<string>)
    ensures categories.Some? ==> cats == categories.value
    ensures categories.None? ==>
      NoDuplicates(cats) && forall c :: c in cats <==> exists i :: 0 <= i < |data| && data[i].category == c
  {
    if categories.Some? then categories.value
    else
      Dashboard.PageCategoriesExact(data);
      Dashboard.PageCategories(data)
  }

  /** `Math.floor(timestamp / 1000)`: the second a timestamp falls in. */
  function SecondSlot(ts: int): int
  {
    ts / 1000
  }

  /** A timestamp lies in the second its slot names: `slot · 1000 <= ts < (slot + 1) · 1000`. */
  lemma SecondSlotBounds(ts: int)
    ensures SecondSlot(ts) * 1000 <= ts < (SecondSlot(ts) + 1) * 1000
  {
    var q := ts / 1000;
    assert ts == q * 1000 + ts % 1000;
    assert (q + 1) * 1000 == q * 1000 + 1000;
  }

  /** `sampleData` */
  function SampleData(data: seq<DataPoint>): seq<DataPoint>
  {
    StrideSample(data, HeatmapTarget)
  }

  /** `heatmapData.slots` */
  function HeatmapSlots(data: seq<DataPoint>): Table
  {
    LatestBy(SampleData(data), SecondSlot)
  }

  /**
   * Slots are exactly the seconds of the sampled points; a slot holds a
   * category exactly when a sampled point of that category falls in it, and
   * the value of the last such point.
   */
  lemma HeatmapSlotsContent(data: seq<DataPoint>)
    ensures var sample := SampleData(data);
      var slots := HeatmapSlots(data);
      && (forall s :: s in slots <==> exists i :: WritesKey(sample, SecondSlot, i, s))
      && (forall s, c :: HasCell(slots, s, c) <==> exists i :: WritesCell(sample, SecondSlot, i, s, c))
      && (forall i :: 0 <= i < |sample| && LastOfItsCell(sample, SecondSlot, i) ==>
            var s := SecondSlot(sample[i].timestamp);
            s in slots && sample[i].category in slots[s] && slots[s][sample[i].category] == sample[i].value)
  {
    var sample := SampleData(data);
    LatestByKeys(sample, SecondSlot);
    LatestByCells(sample, SecondSlot);
    forall i | 0 <= i < |sample| && LastOfItsCell(sample, SecondSlot, i)
      ensures var s := SecondSlot(sample[i].timestamp);
        s in HeatmapSlots(data) && sample[i].category in HeatmapSlots(data)[s]
        && HeatmapSlots(data)[s][sample[i].category] == sample[i].value
    {
      LatestByLastWins(sample, SecondSlot, i);
    }
  }

  /** The `forEach` that fills `timeSlots`: each sampled point written into its second's row. */
  method BuildSlots(data: seq<DataPoint>) returns (timeSlots: Table)
    ensures timeSlots == HeatmapSlots(data)
  {
    var sample := SampleData(data);
    timeSlots := map[];
    for i := 0 to |sample|
      invariant timeSlots == LatestBy(sample[..i], SecondSlot)
    {
      LatestByStep(sample, SecondSlot, i);
      var point := sample[i];
      var slot := point.timestamp / 1000;
      var row := if slot in timeSlots then timeSlots[slot] else map[];
      timeSlots := timeSlots[slot := row[point.category := point.value]];
    }
    assert sample[..|sample|] == sample;
  }

  /** `slotArray.flatMap(([_, values]) => Object.values(values))`, as a set. */
  function AllValues(slots: Table): set<real>
  {
    set s, c | s in slots && c in slots[s] :: slots[s][c]
  }

  /** Slots that each hold at least one value contribute at least one value. */
  lemma AllValuesNonEmpty(slots: Table, s: int)
    requires s in slots && |slots[s]| > 0
    ensures AllValues(slots) != {}
  {
    if forall c :: c !in slots[s] {
      assert false;
    }
    var c :| c in slots[s];
    assert slots[s][c] in AllValues(slots);
  }

  /** `maxVal - minVal || 1`: the spread of the values, or 1 when they are all equal. */
  function ValueRange(minVal: real, maxVal: real): (r: real)
    requires minVal <= maxVal
    ensures r > 0.0
    ensures minVal < maxVal ==> r == maxVal - minVal
  {
    if maxVal - minVal == 0.0 then 1.0 else maxVal - minVal
  }

  /** `valueToColor(val)`: the hue `(1 - (val - minVal) / range) · 240`. */
  function Hue(val: real, minVal: real, range: real): real
    requires range > 0.0
  {
    (1.0 - (val - minVal) / range) * 240.0
  }

  /**
   * Values inside `[minVal, maxVal]` get a hue in `[0, 240]`: 240 for the
   * smallest value, 0 for the largest when the values are not all equal;
   * a larger value never gets a larger hue.
   */
  lemma HueBounds(val: real, minVal: real, maxVal: real)
    requires minVal <= val <= maxVal
    ensures 0.0 <= Hue(val, minVal, ValueRange(minVal, maxVal)) <= 240.0
    ensures Hue(minVal, minVal, ValueRange(minVal, maxVal)) == 240.0
    ensures minVal < maxVal ==> Hue(maxVal, minVal, ValueRange(minVal, maxVal)) == 0.0
    ensures forall w :: val <= w <= maxVal ==> Hue(w, minVal, ValueRange(minVal, maxVal)) <= Hue(val, minVal, ValueRange(minVal, maxVal))
  {
    var r := ValueRange(minVal, maxVal);
    DivSelf(r);
    DivNonneg(val - minVal, r);
    DivMonotone(val - minVal, r, r);
    forall w | val <= w <= maxVal
      ensures Hue(w, minVal, r) <= Hue(val, minVal, r)
    {
      DivMonotone(val - minVal, w - minVal, r);
    }
  }

  /** `values[cat] ?? 0`: a category missing from a slot counts as the value 0. */
  function CellValue(row: Row, cat: string): real
  {
    if cat in row then row[cat] else 0.0
  }

  /** `(width - 2·padding) / slotArray.length` */
  function CellWidth(width: real, slotCount: nat): real
    requires slotCount > 0
  {
    (width - 2.0 * HeatPadding) / (slotCount as real)
  }

  /** `(height - 2·padding) / cats.length` */
  function CellHeight(height: real, catCount: nat): real
    requires catCount > 0
  {
    (height - 2.0 * HeatPadding) / (catCount as real)
  }

  /** The position of cell (`slotIdx`, `catIdx`) in the grid, which is filled slot by slot. */
  function GridPos(slotIdx: int, catIdx: int, catCount: int): int
  {
    slotIdx * catCount + catIdx
  }

  /** The rectangle of one (slot, category) cell, coloured by the hue of its value. */
  function Cell(row: Row, cat: string, slotIdx: nat, catIdx: nat, slotCount: nat, catCount: nat,
                width: real, height: real, minVal: real, range: real): DrawCmd
    requires slotCount > 0 && catCount > 0 && range > 0.0
  {
    Rect(HeatPadding + (slotIdx as real) * CellWidth(width, slotCount),
         HeatPadding + (catIdx as real) * CellHeight(height, catCount),
         CellWidth(width, slotCount), CellHeight(height, catCount),
         Some(Hsl(Hue(CellValue(row, cat), minVal, range))))
  }

  /** The name of category `i`, at the left margin and centred on its row. */
  function Label(cat: string, i: nat, catCount: nat, height: real): DrawCmd
    requires catCount > 0
  {
    Text(Literal(cat), 5.0, HeatPadding + (i as real) * CellHeight(height, catCount) + CellHeight(height, catCount) / 2.0, 10.0)
  }

  /**
   * The cells tile the plot area: each cell starts where its left and upper
   * neighbours end, the first column and row start at the padding, and the
   * last ones end at the far padding.
   */
  lemma CellsTile(slotIdx: nat, catIdx: nat, slotCount: nat, catCount: nat, width: real, height: real)
    requires slotIdx < slotCount && catIdx < catCount
    ensures var cw, ch := CellWidth(width, slotCount), CellHeight(height, catCount);
      && HeatPadding + (slotIdx as real) * cw + cw == HeatPadding + ((slotIdx + 1) as real) * cw
      && HeatPadding + (catIdx as real) * ch + ch == HeatPadding + ((catIdx + 1) as real) * ch
      && HeatPadding + (slotCount as real) * cw == width - HeatPadding
      && HeatPadding + (catCount as real) * ch == height - HeatPadding
  {
  }

  /**
   * From position `offset` on, `cmds` holds the grid: the cell of slot `s`
   * and category `c` at `offset + GridPos(s, c, |cats|)`.
   */
  predicate CellsDrawn(cmds: seq<DrawCmd>, offset: int, slots: Table, order: seq<int>, cats: seq<string>,
                       width: real, height: real, minVal: real, range: real)
    requires |order| > 0 && |cats| > 0 && range > 0.0
    requires forall i :: 0 <= i < |order| ==> order[i] in slots
  {
    forall s, c :: 0 <= s < |order| && 0 <= c < |cats| ==>
      && 0 <= offset + GridPos(s, c, |cats|) < |cmds|
      && cmds[offset + GridPos(s, c, |cats|)] == Cell(slots[order[s]], cats[c], s, c, |order|, |cats|, width, height, minVal, range)
  }

  /** A drawn grid stays drawn, at a shifted position, when commands are placed before and after it. */
  lemma CellsDrawnShift(head: seq<DrawCmd>, cells: seq<DrawCmd>, tail: seq<DrawCmd>, slots: Table, order: seq<int>,
                        cats: seq<string>, width: real, height: real, minVal: real, range: real)
    requires |order| > 0 && |cats| > 0 && range > 0.0
    requires forall i :: 0 <= i < |order| ==> order[i] in slots
    requires CellsDrawn(cells, 0, slots, order, cats, width, height, minVal, range)
    ensures CellsDrawn(head + cells + tail, |head|, slots, order, cats, width, height, minVal, range)
  {
    var all := head + cells + tail;
    forall s, c | 0 <= s < |order| && 0 <= c < |cats|
      ensures && 0 <= |head| + GridPos(s, c, |cats|) < |all|
              && all[|head| + GridPos(s, c, |cats|)] == Cell(slots[order[s]], cats[c], s, c, |order|, |cats|, width, height, minVal, range)
    {
      assert 0 <= 0 + GridPos(s, c, |cats|) < |cells|;
      assert all[|head| + GridPos(s, c, |cats|)] == cells[0 + GridPos(s, c, |cats|)];
    }
  }

  /** `cats.forEach(...)` inside one slot: the slot's column of cells, one per category. */
  method DrawColumn(values: Row, cats: seq<string>, slotIdx: nat, slotCount: nat, width: real, height: real,
                    minVal: real, range: real) returns (column: seq<DrawCmd>)
    requires slotIdx < slotCount && |cats| > 0 && range > 0.0
    ensures |column| == |cats|
    ensures forall c :: 0 <= c < |cats| ==>
      column[c] == Cell(values, cats[c], slotIdx, c, slotCount, |cats|, width, height, minVal, range)
  {
    var cellWidth := (width - 2.0 * HeatPadding) / (slotCount as real);
    var cellHeight := (height - 2.0 * HeatPadding) / (|cats| as real);
    column := [];
    for catIdx := 0 to |cats|
      invariant |column| == catIdx
      invariant forall c :: 0 <= c < catIdx ==>
        column[c] == Cell(values, cats[c], slotIdx, c, slotCount, |cats|, width, height, minVal, range)
    {
      var cat := cats[catIdx];
      var val := if cat in values then values[cat] else 0.0;
      var x := HeatPadding + (slotIdx as real) * cellWidth;
      var y := HeatPadding + (catIdx as real) * cellHeight;
      column := column + [Rect(x, y, cellWidth, cellHeight, Some(Hsl((1.0 - (val - minVal) / range) * 240.0)))];
    }
  }

  /** `slotArray.forEach(...)`: the columns of all slots, in the order the slots are listed. */
  method DrawCells(slots: Table, order: seq<int>, cats: seq<string>, width: real, height: real,
                   minVal: real, range: real) returns (cells: seq<DrawCmd>)
    requires |order| > 0 && |cats| > 0 && range > 0.0
    requires forall i :: 0 <= i < |order| ==> order[i] in slots
    ensures |cells| == |order| * |cats|
    ensures CellsDrawn(cells, 0, slots, order, cats, width, height, minVal, range)
  {
    var nc := |cats|;
    cells := [];
    for slotIdx := 0 to |order|
      invariant |cells| == slotIdx * nc
      invariant forall s, c :: 0 <= s < slotIdx && 0 <= c < nc ==>
        && 0 <= GridPos(s, c, nc) < |cells|
        && cells[GridPos(s, c, nc)] == Cell(slots[order[s]], cats[c], s, c, |order|, nc, width, height, minVal, range)
    {
      var column := DrawColumn(slots[order[slotIdx]], cats, slotIdx, |order|, width, height, minVal, range);
      ghost var prev := cells;
      cells := cells + column;
      assert |cells| == (slotIdx + 1) * nc;
      forall s, c | 0 <= s < slotIdx + 1 && 0 <= c < nc
        ensures && 0 <= GridPos(s, c, nc) < |cells|
                && cells[GridPos(s, c, nc)] == Cell(slots[order[s]], cats[c], s, c, |order|, nc, width, height, minVal, range)
      {
        if s < slotIdx {
          assert cells[GridPos(s, c, nc)] == prev[GridPos(s, c, nc)];
        } else {
          assert GridPos(s, c, nc) == |prev| + c;
        }
      }
    }
    forall s, c | 0 <= s < |order| && 0 <= c < nc
      ensures && 0 <= 0 + GridPos(s, c, nc) < |cells|
              && cells[0 + GridPos(s, c, nc)] == Cell(slots[order[s]], cats[c], s, c, |order|, nc, width, height, minVal, range)
    {
    }
  }

  /** The closing `cats.forEach(...)`: one label per category. */
  method DrawLabels(cats: seq<string>, height: real) returns (labels: seq<DrawCmd>)
    requires |cats| > 0
    ensures |labels| == |cats|
    ensures forall i :: 0 <= i < |cats| ==> labels[i] == Label(cats[i], i, |cats|, height)
  {
    var cellHeight := (height - 2.0 * HeatPadding) / (|cats| as real);
    labels := [];
    for i := 0 to |cats|
      invariant |labels| == i
      invariant forall j :: 0 <= j < i ==> labels[j] == Label(cats[j], j, |cats|, height)
    {
      labels := labels + [Text(Literal(cats[i]), 5.0, HeatPadding + (i as real) * cellHeight + cellHeight / 2.0, 10.0)];
    }
  }

  /** Labels placed after a prefix of commands sit right after it, in category order. */
  lemma LabelsFollow(head: seq<DrawCmd>, labels: seq<DrawCmd>, cats: seq<string>, height: real)
    requires |cats| > 0 && |labels| == |cats|
    requires forall i :: 0 <= i < |cats| ==> labels[i] == Label(cats[i], i, |cats|, height)
    ensures forall i :: 0 <= i < |cats| ==> (head + labels)[|head| + i] == Label(cats[i], i, |cats|, height)
  {
  }

  /**
   * What the draw pass leaves after the clear when there are slots: the
   * cells of every (slot, category) coloured against the smallest value and
   * the range of all values, followed by one label per category.
   */
  predicate GridDrawn(cmds: seq<DrawCmd>, slots: Table, order: seq<int>, cats: seq<string>, width: real, height: real)
    requires |order| > 0 && AllValues(slots) != {}
    requires forall i :: 0 <= i < |order| ==> order[i] in slots
  {
    var nc := |cats|;
    var minVal, maxVal := SetMin(AllValues(slots)), SetMax(AllValues(slots));
    && |cmds| == 1 + |order| * nc + nc
    && (nc > 0 ==> CellsDrawn(cmds, 1, slots, order, cats, width, height, minVal, ValueRange(minVal, maxVal)))
    && (forall i :: 0 <= i < nc ==> cmds[1 + |order| * nc + i] == Label(cats[i], i, nc, height))
  }

  /**
   * The draw pass. The canvas is always cleared; with no slot that is all.
   * Otherwise one cell per (slot, category), slot by slot in the order the
   * slots are listed, then one label per category. Slots are visited in
   * `order`, a listing of the slot keys each once (the source's
   * `Object.entries` order is not modelled).
   */
  method DrawHeatmap(data: seq<DataPoint>, width: real, height: real, categories: Option<seq<string>>,
                     order: seq<int>) returns (cmds: seq<DrawCmd>)
    requires NoDuplicates(order)
    requires forall i :: 0 <= i < |order| ==> order[i] in HeatmapSlots(data)
    requires forall s :: s in HeatmapSlots(data) ==> s in order
    ensures |cmds| >= 1 && cmds[0] == Clear(width, height, ChartBackground)
    ensures order == [] ==> |cmds| == 1
    ensures order != [] ==>
      && AllValues(HeatmapSlots(data)) != {}
      && GridDrawn(cmds, HeatmapSlots(data), order, HeatmapCategories(data, categories), width, height)
  {
    var cats := HeatmapCategories(data, categories);
    var slots := BuildSlots(data);
    cmds := [Clear(width, height, ChartBackground)];
    if |order| == 0 {
      return;
    }
    LatestByRowNonEmpty(SampleData(data), SecondSlot, order[0]);
    AllValuesNonEmpty(slots, order[0]);
    var allValues := AllValues(slots);
    var minVal := SetMin(allValues);
    var maxVal := SetMax(allValues);
    var range := ValueRange(minVal, maxVal);
    if |cats| == 0 {
      assert |order| * |cats| == 0;
      assert GridDrawn(cmds, slots, order, cats, width, height);
      return;
    }
    var cells := DrawCells(slots, order, cats, width, height, minVal, range);
    var labels := DrawLabels(cats, height);
    CellsDrawnShift(cmds, cells, labels, slots, order, cats, width, height, minVal, range);
    LabelsFollow(cmds + cells, labels, cats, height);
    cmds := cmds + cells + labels;
    assert GridDrawn(cmds, slots, order, cats, width, height);
  }
}
