/**
 * The time-range selector: local start and end edited through two number
 * inputs, an Apply button that emits them only as a proper range, and three
 * preset buttons that set and emit a range ending at the current time.
 */
module TimeRangeSelector {
  import opened Types

  /** The preset widths, in milliseconds: 1 hour, 6 hours and 24 hours. */
  const PresetOffsets: seq<int> := [3600000, 21600000, 86400000]

  /** The range a preset produces at time `now`. */
  function PresetRange(now: int, i: nat): (r: (int, int))
    requires i < |PresetOffsets|
    ensures r.0 < r.1 && r.1 == now
    ensures r.1 - r.0 == PresetOffsets[i]
  {
    (now - PresetOffsets[i], now)
  }

  /** What Apply emits for local `start` and `end`: the pair when it is a proper range, nothing otherwise. */
  function Applied(start: int, end: int): Option<(int, int)>
  {
    if start < end then Some((start, end)) else None
  }

  /** Apply emits exactly when the range is proper, and then emits the local pair unchanged. */
  lemma AppliedExactly(start: int, end: int)
    ensures Applied(start, end).Some? <==> start < end
    ensures Applied(start, end).Some? ==> Applied(start, end).value == (start, end)
  {
  }

  /** Every preset range is proper and is accepted by Apply as it is. */
  lemma PresetApplies(now: int, i: nat)
    requires i < |PresetOffsets|
    ensures Applied(PresetRange(now, i).0, PresetRange(now, i).1) == Some(PresetRange(now, i))
  {
  }

  class Selector {
    var start: int
    var end: int

    /** The first render copies `currentStart` and `currentEnd`. */
    constructor (currentStart: int, currentEnd: int)
      ensures start == currentStart && end == currentEnd
    {
      start := currentStart;
      end := currentEnd;
    }

    /** Typing into the start input: local state only, nothing is emitted. */
    method SetStart(value: int)
      modifies this
      ensures start == value && end == old(end)
    {
      start := value;
    }

    /** Typing into the end input: local state only, nothing is emitted. */
    method SetEnd(value: int)
      modifies this
      ensures end == value && start == old(start)
    {
      end := value;
    }

    /** `handleApply`: emits `(start, end)` only when `start < end`; the local state is untouched. */
    method Apply() returns (emitted: Option<(int, int)>)
      ensures emitted == Applied(start, end)
      ensures emitted.Some? ==> emitted.value.0 < emitted.value.1
    {
      if start < end {
        emitted := Some((start, end));
      } else {
        emitted := None;
      }
    }

    /** A preset button at time `now`: sets end to `now` and start to `now` minus the preset width, and emits that pair. */
    method Preset(now: int, i: nat) returns (emitted: (int, int))
      requires i < |PresetOffsets|
      modifies this
      ensures end == now && start == now - PresetOffsets[i]
      ensures emitted == (start, end) && emitted == PresetRange(now, i)
      ensures start < end
    {
      var offset := PresetOffsets[i];
      end := now;
      start := now - offset;
      emitted := (now - offset, now);
    }
  }
}
