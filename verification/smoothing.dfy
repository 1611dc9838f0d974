/** The moving-average filter (`xpt2046_filter_data` in xpt2046.c): three windows of
    N samples, one each for x, y and pressure, refilled with the current sample when
    a touch begins, one slot written per call, the output the window mean. */
module Smoothing {
  import opened Common

  /** The function-local statics of the filter: the three sample buffers, the
      sample counter `samp_cnt` and `touch_prev`. The `sum` fields are recomputed
      from scratch on every call and are not state. */
  datatype FilterState = FilterState(xs: seq<U16>, ys: seq<U16>, fs: seq<U16>, cnt: nat, touchPrev: bool)

  /** Windows of `n` slots and a counter that never exceeds `top`, the value at
      which it wraps back to zero. */
  predicate Valid(n: nat, top: nat, f: FilterState) {
    |f.xs| == n && |f.ys| == n && |f.fs| == n && f.cnt <= top
  }

  /** Statics start out zero. */
  function PowerOn(n: nat): (f: FilterState)
    ensures Valid(n, 0, f)
  {
    FilterState(seq(n, _ => 0), seq(n, _ => 0), seq(n, _ => 0), 0, false)
  }

  function Sum(w: seq<int>): int
    decreases |w|
  {
    if |w| == 0 then 0 else w[0] + Sum(w[1..])
  }

  function SeqMin(w: seq<int>): int
    requires |w| >= 1
    decreases |w|
  {
    if |w| == 1 then w[0] else Min(w[0], SeqMin(w[1..]))
  }

  function SeqMax(w: seq<int>): int
    requires |w| >= 1
    decreases |w|
  {
    if |w| == 1 then w[0] else if w[0] >= SeqMax(w[1..]) then w[0] else SeqMax(w[1..])
  }

  /** The sum of a window lies between |w| times its least and |w| times its
      greatest slot. */
  lemma {:induction false} SumBounds(w: seq<int>)
    requires |w| >= 1
    ensures |w| * SeqMin(w) <= Sum(w) <= |w| * SeqMax(w)
    decreases |w|
  {
    if |w| > 1 {
      SumBounds(w[1..]);
      var t := w[1..];
      assert (|t| + 1) * SeqMin(w) == |t| * SeqMin(w) + SeqMin(w);
      assert (|t| + 1) * SeqMax(w) == |t| * SeqMax(w) + SeqMax(w);
      assert |t| * SeqMin(w) <= |t| * SeqMin(t) by {
        MulMono(SeqMin(w), SeqMin(t), |t|);
      }
      assert |t| * SeqMax(t) <= |t| * SeqMax(w) by {
        MulMono(SeqMax(t), SeqMax(w), |t|);
      }
    }
  }

  /** A window whose slots all hold `v` has least and greatest slot `v`. */
  lemma {:induction false} ConstantWindow(w: seq<int>, v: int)
    requires |w| >= 1
    requires forall i :: 0 <= i < |w| ==> w[i] == v
    ensures SeqMin(w) == v && SeqMax(w) == v
    decreases |w|
  {
    if |w| > 1 {
      ConstantWindow(w[1..], v);
    }
  }

  /** Integer division of the window sum by the window length. It fits in uint16,
      as the cast in the source assumes (see MeanSpec); the uint32 sum cannot
      overflow: at most 255 slots of at most 65535. */
  function Mean(w: seq<U16>): U16
    requires |w| >= 1
  {
    SumBounds(w);
    DivBounds(Sum(w), |w|, SeqMin(w), SeqMax(w));
    WindowBounds(w);
    Sum(w) / |w|
  }

  /** The mean is the floor of the window average and lies between the least and
      the greatest slot. */
  lemma MeanSpec(w: seq<U16>)
    requires |w| >= 1
    ensures Mean(w) * |w| <= Sum(w) < (Mean(w) + 1) * |w|
    ensures SeqMin(w) <= Mean(w) <= SeqMax(w)
  {
    SumBounds(w);
    DivBounds(Sum(w), |w|, SeqMin(w), SeqMax(w));
    FloorDivision(Sum(w), |w|);
  }

  lemma DivBounds(s: int, n: int, lo: int, hi: int)
    requires n >= 1 && n * lo <= s <= n * hi
    ensures lo <= s / n <= hi
  {
    var q := s / n;
    assert s == q * n + s % n;
    if q < lo {
      MulMono(q + 1, lo, n);
    }
    if q > hi {
      MulMono(hi + 1, q, n);
    }
  }

  /** Every window entry is a 16-bit value, so its minimum and maximum are too. */
  lemma {:induction false} WindowBounds(w: seq<U16>)
    requires |w| >= 1
    ensures 0 <= SeqMin(w) && SeqMax(w) < 0x1_0000
    decreases |w|
  {
    if |w| > 1 {
      WindowBounds(w[1..]);
    }
  }

  /** Storing a sample into the window at the counter's index. A write at an
      index past the window does not change the window (see `Step`). */
  function Store(w: seq<U16>, i: nat, v: U16): (r: seq<U16>)
    ensures |r| == |w|
    ensures forall j :: 0 <= j < |w| ==> r[j] == (if j == i then v else w[j])
  {
    if i < |w| then w[i := v] else w
  }

  /** The counter advances by one and restarts at zero once it has reached `top`. */
  function NextCount(cnt: nat, top: nat): (c: nat)
    requires cnt <= top
    ensures c <= top
    ensures c == 0 <==> cnt == top
    ensures c != 0 ==> c == cnt + 1
  {
    if cnt >= top then 0 else cnt + 1
  }

  /** The counter walk is counting modulo `top + 1`. */
  lemma NextCountMod(cnt: nat, top: nat)
    requires cnt <= top
    ensures NextCount(cnt, top) == (cnt + 1) % (top + 1)
  {
    if cnt >= top {
      DivUnique(cnt + 1, top + 1, 1, 0);
    } else {
      DivUnique(cnt + 1, top + 1, 0, cnt + 1);
    }
  }

  datatype Output = Output(state: FilterState, sample: Sample)

  /** One filter call with a counter that wraps after reaching `top`. */
  function StepWith(n: nat, top: nat, f: FilterState, s: Sample): (r: Output)
    requires n >= 1 && Valid(n, top, f)
    ensures Valid(n, top, r.state)
    ensures r.state.touchPrev == s.pressed && r.sample.pressed == s.pressed
    ensures r.state.cnt == NextCount(f.cnt, top)
    // The slot the counter points at receives the sample; on a rising edge every
    // slot does; no other slot changes.
    ensures forall i :: 0 <= i < n ==>
              var hit := i == f.cnt || (s.pressed && !f.touchPrev);
              && r.state.xs[i] == (if hit then s.x else f.xs[i])
              && r.state.ys[i] == (if hit then s.y else f.ys[i])
              && r.state.fs[i] == (if hit then s.force else f.fs[i])
    // Each channel of the output is the mean of its updated window.
    ensures r.sample == Sample(Mean(r.state.xs), Mean(r.state.ys), Mean(r.state.fs), s.pressed)
  {
    var edge := s.pressed && !f.touchPrev;
    var xs := Store(if edge then seq(n, _ => s.x) else f.xs, f.cnt, s.x);
    var ys := Store(if edge then seq(n, _ => s.y) else f.ys, f.cnt, s.y);
    var fs := Store(if edge then seq(n, _ => s.force) else f.fs, f.cnt, s.force);
    Output(FilterState(xs, ys, fs, NextCount(f.cnt, top), s.pressed),
           Sample(Mean(xs), Mean(ys), Mean(fs), s.pressed))
  }

  /** `xpt2046_filter_data` as written: `samp_cnt` runs from 0 up to and including
      N, so every (N+1)-th call writes one past the window. In the source that
      write lands on the channel's `sum` field (or the padding before it), which
      is cleared right after, so the window itself is untouched. */
  function Step(n: nat, f: FilterState, s: Sample): (r: Output)
    requires n >= 1 && Valid(n, n, f)
    ensures Valid(n, n, r.state)
    ensures r.state.cnt <= n
    ensures f.cnt < n ==> r.state.cnt == f.cnt + 1
    ensures f.cnt == n ==> r.state.cnt == 0
    // the call that finds the counter at N stores nothing outside a rising edge
    ensures f.cnt == n && !(s.pressed && !f.touchPrev) ==>
              r.state.xs == f.xs && r.state.ys == f.ys && r.state.fs == f.fs
    // A new touch restarts the average from the current sample alone.
    ensures s.pressed && !f.touchPrev ==>
              r.sample == Sample(s.x, s.y, s.force, true)
  {
    RisingEdgeRestarts(n, n, f, s);
    StepWith(n, n, f, s)
  }

  /** On a not-pressed to pressed edge every slot of every window holds the new
      sample, so the filter passes that sample through unchanged. */
  lemma RisingEdgeRestarts(n: nat, top: nat, f: FilterState, s: Sample)
    requires n >= 1 && Valid(n, top, f)
    ensures s.pressed && !f.touchPrev ==>
              StepWith(n, top, f, s).sample == Sample(s.x, s.y, s.force, true)
  {
    if s.pressed && !f.touchPrev {
      var r := StepWith(n, top, f, s);
      assert Full(n, top, r.state, s);
      FullWindowsAverage(n, top, r.state, s);
    }
  }

  /** The filter state after `k` calls that all receive the same sample. */
  function Feed(n: nat, top: nat, f: FilterState, s: Sample, k: nat): (r: FilterState)
    requires n >= 1 && Valid(n, top, f)
    ensures Valid(n, top, r)
    decreases k
  {
    if k == 0 then f else StepWith(n, top, Feed(n, top, f, s, k - 1), s).state
  }

  /** Where the counter stands after `k <= top + 1` calls that started at `c`:
      (c + k) mod (top + 1), written without the modulus. */
  function Pos(c: nat, k: nat, top: nat): (r: nat)
    requires c <= top && k <= top + 1
    ensures r <= top
  {
    if c + k <= top then c + k else c + k - (top + 1)
  }

  /** Slot `i` is one of those written by the first `j <= top + 1` calls from `c`:
      the run c, c + 1, ... wraps past `top` back to 0. */
  predicate Visited(i: nat, c: nat, j: nat, top: nat) {
    (c <= i < c + j) || (i + top + 1 < c + j)
  }

  /** The counter walk is counting modulo `top + 1`. */
  lemma PosMod(c: nat, k: nat, top: nat)
    requires c <= top && k <= top + 1
    ensures Pos(c, k, top) == (c + k) % (top + 1)
  {
    if c + k <= top {
      DivUnique(c + k, top + 1, 0, c + k);
    } else {
      DivUnique(c + k, top + 1, 1, c + k - (top + 1));
    }
  }

  /** After `j` calls the counter has moved `j` places along its walk. */
  lemma {:induction false} FeedCount(n: nat, top: nat, f: FilterState, s: Sample, j: nat)
    requires n >= 1 && Valid(n, top, f) && j <= top + 1
    ensures Feed(n, top, f, s, j).cnt == Pos(f.cnt, j, top)
    decreases j
  {
    if j > 0 {
      FeedCount(n, top, f, s, j - 1);
    }
  }

  /** Slot `i` of all three windows holds the sample. */
  predicate Holds(h: FilterState, i: nat, s: Sample)
    requires i < |h.xs| && i < |h.ys| && i < |h.fs|
  {
    h.xs[i] == s.x && h.ys[i] == s.y && h.fs[i] == s.force
  }

  /** Every slot of the window written by the first `j` calls from `c` holds the
      sample. */
  predicate Filled(n: nat, top: nat, g: FilterState, c: nat, s: Sample, j: nat)
    requires Valid(n, top, g)
  {
    forall i :: 0 <= i < n && Visited(i, c, j, top) ==> Holds(g, i, s)
  }

  /** After `j` calls with the same sample, every slot written by one of them
      holds the sample. */
  lemma {:induction false} FeedFills(n: nat, top: nat, f: FilterState, s: Sample, j: nat)
    requires 1 <= n <= top + 1 && Valid(n, top, f) && j <= top + 1
    ensures Filled(n, top, Feed(n, top, f, s, j), f.cnt, s, j)
    decreases j
  {
    if j > 0 {
      FeedFills(n, top, f, s, j - 1);
      FeedCount(n, top, f, s, j - 1);
      var g := Feed(n, top, f, s, j - 1);
      FillStep(n, top, f.cnt, g, s, j);
    }
  }

  /** One more call with the sample fills the slot the counter stands at and
      keeps those filled before. */
  lemma FillStep(n: nat, top: nat, c: nat, g: FilterState, s: Sample, j: nat)
    requires 1 <= n <= top + 1 && Valid(n, top, g) && c <= top && 1 <= j <= top + 1
    requires g.cnt == Pos(c, j - 1, top)
    requires Filled(n, top, g, c, s, j - 1)
    ensures Filled(n, top, StepWith(n, top, g, s).state, c, s, j)
  {
    forall i | 0 <= i < n && Visited(i, c, j, top)
      ensures Holds(StepWith(n, top, g, s).state, i, s)
    {
      if !Visited(i, c, j - 1, top) {
        assert i == Pos(c, j - 1, top);
      }
      StepKeepsSample(n, top, g, s, i);
    }
  }

  /** A slot that holds the sample, or that the counter points at, holds the sample
      after one more call with it. */
  lemma StepKeepsSample(n: nat, top: nat, g: FilterState, s: Sample, i: nat)
    requires n >= 1 && Valid(n, top, g) && i < n
    requires i == g.cnt || Holds(g, i, s)
    ensures Holds(StepWith(n, top, g, s).state, i, s)
  {
  }

  /** Every slot of the window holds the sample. */
  predicate Full(n: nat, top: nat, g: FilterState, s: Sample)
    requires Valid(n, top, g)
  {
    forall i :: 0 <= i < n ==> Holds(g, i, s)
  }

  /** Feeding one sample `top + 1` times visits every slot of the window. */
  lemma AllFilled(n: nat, top: nat, f: FilterState, s: Sample)
    requires n >= 1 && n <= top + 1 && Valid(n, top, f)
    ensures Full(n, top, Feed(n, top, f, s, top + 1), s)
  {
    FeedFills(n, top, f, s, top + 1);
    var g := Feed(n, top, f, s, top + 1);
    forall i | 0 <= i < n
      ensures Holds(g, i, s)
    {
      assert Visited(i, f.cnt, top + 1, top);
    }
  }

  /** Windows that hold the sample in every slot average to the sample. */
  lemma FullWindowsAverage(n: nat, top: nat, g: FilterState, s: Sample)
    requires n >= 1 && Valid(n, top, g) && Full(n, top, g, s)
    ensures Mean(g.xs) == s.x && Mean(g.ys) == s.y && Mean(g.fs) == s.force
  {
    forall i | 0 <= i < n
      ensures g.xs[i] == s.x && g.ys[i] == s.y && g.fs[i] == s.force
    {
      assert Holds(g, i, s);
    }
    ConstantWindow(g.xs, s.x);
    ConstantWindow(g.ys, s.y);
    ConstantWindow(g.fs, s.force);
    MeanSpec(g.xs);
    MeanSpec(g.ys);
    MeanSpec(g.fs);
  }

  /** Feeding one sample `top + 1` times makes the last of those calls return
      the sample itself, whatever the history. */
  lemma ConstantFeedConverges(n: nat, top: nat, f: FilterState, s: Sample)
    requires n >= 1 && n <= top + 1 && Valid(n, top, f)
    ensures StepWith(n, top, Feed(n, top, f, s, top), s).sample == s
  {
    AllFilled(n, top, f, s);
    var r := StepWith(n, top, Feed(n, top, f, s, top), s);
    assert r.state == Feed(n, top, f, s, top + 1);
    FullWindowsAverage(n, top, r.state, s);
  }

  /** As written, a constant sample needs N + 1 calls to flush the window. */
  lemma StepConvergesAfterNPlusOne(n: nat, f: FilterState, s: Sample)
    requires n >= 1 && Valid(n, n, f)
    ensures Step(n, Feed(n, n, f, s, n), s).sample == s
  {
    ConstantFeedConverges(n, n, f, s);
  }

  /** With a one-slot window the filter as written lags: every second call
      writes outside the window and returns the previous sample. */
  lemma StepLagsWithOneSlot()
    ensures var a := Step(1, PowerOn(1), Sample(5, 5, 5, true));
            a.sample.x == 5 && Step(1, a.state, Sample(9, 9, 9, true)).sample.x == 5
  {
    var a := Step(1, PowerOn(1), Sample(5, 5, 5, true));
    assert a.state.cnt == 1;
    assert a.state.xs == [5];
    var b := Step(1, a.state, Sample(9, 9, 9, true));
    assert b.state.xs == [5];
  }

  /** The evidently intended filter: the counter wraps after N - 1, so every call
      writes inside the window. */
  function StepFixed(n: nat, f: FilterState, s: Sample): (r: Output)
    requires n >= 1 && Valid(n, n - 1, f)
    ensures Valid(n, n - 1, r.state)
    ensures f.cnt < n && r.state.xs[f.cnt] == s.x && r.state.ys[f.cnt] == s.y && r.state.fs[f.cnt] == s.force
    ensures n == 1 ==> r.sample == s
    ensures s.pressed && !f.touchPrev ==> r.sample == s
  {
    var r := StepWith(n, n - 1, f, s);
    RisingEdgeRestarts(n, n - 1, f, s);
    SingleSlotPassesThrough(n, f, s);
    r
  }

  lemma SingleSlotPassesThrough(n: nat, f: FilterState, s: Sample)
    requires n >= 1 && Valid(n, n - 1, f)
    ensures n == 1 ==> StepWith(n, n - 1, f, s).sample == s
  {
    if n == 1 {
      var r := StepWith(n, n - 1, f, s);
      assert Holds(r.state, 0, s);
      assert Full(n, n - 1, r.state, s);
      FullWindowsAverage(n, n - 1, r.state, s);
    }
  }

  /** Corrected, N calls with one sample flush the window. */
  lemma StepFixedConvergesAfterN(n: nat, f: FilterState, s: Sample)
    requires n >= 1 && Valid(n, n - 1, f)
    ensures StepFixed(n, Feed(n, n - 1, f, s, n - 1), s).sample == s
  {
    ConstantFeedConverges(n, n - 1, f, s);
    FixedIsStepWith(n, Feed(n, n - 1, f, s, n - 1), s);
  }

  /** The corrected filter is the general step whose counter wraps after N - 1. */
  lemma FixedIsStepWith(n: nat, g: FilterState, s: Sample)
    requires n >= 1 && Valid(n, n - 1, g)
    ensures StepFixed(n, g, s).sample == StepWith(n, n - 1, g, s).sample
  {
  }
}
