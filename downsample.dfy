/**
 * Index-stride downsampling shared by the bar chart (target 100), the
 * scatter plot (target 500) and the heatmap (target 100): keep the points
 * whose index is a multiple of `max(1, floor(n / target))`.
 */
module Downsample {
  import opened SeqUtils
  import opened Numeric

  /** `Math.max(1, Math.floor(n / target))` */
  function SampleRate(n: nat, target: nat): (r: nat)
    requires target > 0
    ensures r >= 1
    ensures r == 1 <==> n < 2 * target
    ensures r > 1 ==> r * target <= n < (r + 1) * target
  {
    if n / target > 1 then n / target else 1
  }

  /** The positions `from..` of `s.filter((_, i) => i % rate === 0)`. */
  function KeepEvery<T>(s: seq<T>, rate: nat, from: nat): seq<T>
    requires rate > 0 && from <= |s|
    decreases |s| - from
  {
    if from == |s| then [] else (if from % rate == 0 then [s[from]] else []) + KeepEvery(s, rate, from + 1)
  }

  /** The sample a chart draws from `s` when it aims at `target` points. */
  function StrideSample<T>(s: seq<T>, target: nat): seq<T>
    requires target > 0
  {
    KeepEvery(s, SampleRate(|s|, target), 0)
  }

  /** No index strictly between two consecutive multiples of `rate` is a multiple of it. */
  lemma NotMultipleInBlock(m: nat, rate: nat, j: nat)
    requires rate > 0 && m * rate < j < (m + 1) * rate
    ensures j % rate != 0
  {
    var q := j / rate;
    if j % rate == 0 {
      assert j == q * rate;
      if q <= m {
        MulLessEq(q, m, rate);
        assert false;
      } else {
        MulLessEq(m + 1, q, rate);
        assert false;
      }
    }
  }

  /** Positions inside one block after its multiple of `rate` contribute nothing. */
  lemma {:induction false} SkipBlock<T>(s: seq<T>, rate: nat, m: nat, j: nat)
    requires rate > 0 && m * rate < j
    requires j <= |s| && j <= (m + 1) * rate
    ensures KeepEvery(s, rate, j) == KeepEvery(s, rate, if |s| < (m + 1) * rate then |s| else (m + 1) * rate)
    decreases |s| - j
  {
    var end := if |s| < (m + 1) * rate then |s| else (m + 1) * rate;
    if j < end {
      NotMultipleInBlock(m, rate, j);
      SkipBlock(s, rate, m, j + 1);
    }
  }

  /**
   * From the `m`-th multiple of `rate` on, the kept points are those at
   * `(m + k) * rate`, and there are exactly as many as cover the rest of `s`.
   */
  lemma {:induction false} KeepEveryFrom<T>(s: seq<T>, rate: nat, m: nat)
    requires rate > 0 && m * rate <= |s|
    ensures var r := KeepEvery(s, rate, m * rate);
      && (m + |r|) * rate >= |s|
      && (m + |r| - 1) * rate < |s|
      && forall k :: 0 <= k < |r| ==> (m + k) * rate < |s| && r[k] == s[(m + k) * rate]
    decreases |s| - m * rate
  {
    var r := KeepEvery(s, rate, m * rate);
    if m * rate < |s| {
      assert (m * rate) % rate == 0;
      var tail := KeepEvery(s, rate, m * rate + 1);
      assert r == [s[m * rate]] + tail;
      SkipBlock(s, rate, m, m * rate + 1);
      assert (m + 1) * rate == m * rate + rate;
      if (m + 1) * rate <= |s| {
        KeepEveryFrom(s, rate, m + 1);
        assert tail == KeepEvery(s, rate, (m + 1) * rate);
        forall k | 0 <= k < |r|
          ensures (m + k) * rate < |s| && r[k] == s[(m + k) * rate]
        {
          if k > 0 {
            assert r[k] == tail[k - 1];
            assert m + 1 + (k - 1) == m + k;
          }
        }
      } else {
        assert tail == [];
        assert |r| == 1;
      }
    }
  }

  /**
   * The sample keeps exactly the points at indices `0, rate, 2·rate, …`: its
   * `k`-th point is `s[k·rate]` and its length is `ceil(|s| / rate)`.
   */
  lemma StrideSampleShape<T>(s: seq<T>, target: nat)
    requires target > 0
    ensures var rate := SampleRate(|s|, target);
      var r := StrideSample(s, target);
      && |r| * rate >= |s|
      && (|r| - 1) * rate < |s|
      && forall k :: 0 <= k < |r| ==> k * rate < |s| && r[k] == s[k * rate]
  {
    KeepEveryShape(s, SampleRate(|s|, target));
  }

  /** Keeping every `rate`-th point from the start keeps those at `k·rate`, `ceil(|s| / rate)` of them. */
  lemma KeepEveryShape<T>(s: seq<T>, rate: nat)
    requires rate > 0
    ensures var r := KeepEvery(s, rate, 0);
      && |r| * rate >= |s|
      && (|r| - 1) * rate < |s|
      && forall k :: 0 <= k < |r| ==> k * rate < |s| && r[k] == s[k * rate]
  {
    var r := KeepEvery(s, rate, 0);
    KeepEveryLength(s, rate);
    forall k | 0 <= k < |r|
      ensures k * rate < |s| && r[k] == s[k * rate]
    {
      KeepEveryAt(s, rate, k);
    }
  }

  lemma KeepEveryLength<T>(s: seq<T>, rate: nat)
    requires rate > 0
    ensures var r := KeepEvery(s, rate, 0);
      |r| * rate >= |s| && (|r| - 1) * rate < |s|
  {
    assert 0 * rate == 0;
    KeepEveryFrom(s, rate, 0);
  }

  lemma KeepEveryAt<T>(s: seq<T>, rate: nat, k: nat)
    requires rate > 0 && k < |KeepEvery(s, rate, 0)|
    ensures k * rate < |s| && KeepEvery(s, rate, 0)[k] == s[k * rate]
  {
    assert 0 * rate == 0;
    KeepEveryFrom(s, rate, 0);
    var r := KeepEvery(s, rate, 0 * rate);
    assert (0 + k) * rate < |s| && r[k] == s[(0 + k) * rate];
    assert 0 + k == k;
  }

  /** A non-empty input's sample starts with the input's first point. */
  lemma StrideSampleFirst<T>(s: seq<T>, target: nat)
    requires target > 0 && s != []
    ensures StrideSample(s, target) != [] && StrideSample(s, target)[0] == s[0]
  {
    StrideSampleShape(s, target);
  }

  /** Fewer than `2·target` points are sampled as they are: the rate is 1 and nothing is dropped. */
  lemma StrideSampleSmall<T>(s: seq<T>, target: nat)
    requires target > 0 && |s| < 2 * target
    ensures StrideSample(s, target) == s
  {
    StrideSampleShape(s, target);
    var r := StrideSample(s, target);
    assert |r| == |s|;
  }

  /**
   * The sample always has fewer than `2·target` points (not at most `target`:
   * 199 points with target 100 are all kept).
   */
  lemma StrideSampleBound<T>(s: seq<T>, target: nat)
    requires target > 0
    ensures |StrideSample(s, target)| < 2 * target
  {
    StrideSampleShape(s, target);
    SampleLengthBound(|s|, target, |StrideSample(s, target)|);
  }

  /** The arithmetic behind the bound: `ceil(n / rate) < 2·target`. */
  lemma SampleLengthBound(n: nat, target: nat, len: nat)
    requires target > 0
    requires (len - 1) * SampleRate(n, target) < n
    ensures len < 2 * target
  {
    var q := SampleRate(n, target);
    if q == 1 {
      assert len - 1 < n;
    } else if len >= 2 * target {
      // (len - 1)·q ≥ (2·target - 1)·q ≥ (q + 1)·target - 1 ≥ n
      MulLessEq(2 * target - 1, len - 1, q);
      assert (2 * target - 1) * q - ((q + 1) * target - 1) == (q - 1) * (target - 1);
      MulLessEq(0, q - 1, target - 1);
      assert false;
    }
  }

  /** The sample is an in-order subsequence of the input. */
  lemma StrideSampleIsSubsequence<T>(s: seq<T>, target: nat)
    requires target > 0
    ensures IsSubsequence(StrideSample(s, target), s)
  {
    StrideSampleShape(s, target);
    var rate := SampleRate(|s|, target);
    var r := StrideSample(s, target);
    var idx := seq(|r|, k requires 0 <= k < |r| => k * rate);
    forall i, j | 0 <= i < j < |idx|
      ensures idx[i] < idx[j]
    {
      MulLess(i, j, rate);
    }
    assert Embeds(idx, r, s);
  }

  /** Concretely: 199 points with target 100 give a sample of 199, above the target. */
  lemma StrideSampleExceedsTarget()
    ensures |StrideSample(seq(199, i => i), 100)| == 199
  {
    StrideSampleSmall(seq(199, i => i), 100);
  }
}
