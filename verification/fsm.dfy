/** The calibration state machine of xpt2046.c: a manager that latches the requested
    state and keeps the time spent in it, an idle state that waits for a start
    request, three point-acquisition states and the factor computation. Display
    drawing is returned as a list of events. */
module CalFsm {
  import opened Common
  import opened Configuration
  import opened Calibration

  /** xpt2046_cal_state_t */
  datatype CalState = Normal | P1Acq | P2Acq | P3Acq | CalcFactors

  /** XPT2046_LIMIT_FMS_MS: the time in a state saturates at 1,000,000 ms. */
  const DurationLimit: nat := 1_000_000

  /** The state the machine moves on to when the current state is done. */
  function Succ(s: CalState): CalState {
    match s
    case Normal => P1Acq
    case P1Acq => P2Acq
    case P2Acq => P3Acq
    case P3Acq => CalcFactors
    case CalcFactors => Normal
  }

  /** The acquisition state for calibration point n (0, 1 or 2). */
  function AcqState(n: nat): CalState
    requires n < 3
  {
    if n == 0 then P1Acq else if n == 1 then P2Acq else P3Acq
  }

  /** xpt2046_fsm_t together with the manager's static `tick`, the time stamp
      of its previous run. */
  datatype Fsm = Fsm(cur: CalState, next: CalState, duration: U32, firstEntry: bool, tick: U32)

  /** Statics are zero at power-on: both states NORMAL. */
  const PowerOnFsm := Fsm(Normal, Normal, 0, false, 0)

  /** Milliseconds since the state was entered, computed as an unsigned 32-bit
      difference of tick counts: modulo 2^32, so a wrapped tick counter still
      yields the forward distance. */
  function Elapsed(before: U32, now: U32): (e: U32)
    ensures before <= now ==> e == now - before
    ensures now < before ==> e == now + TwoTo32 - before
  {
    (now - before) % TwoTo32
  }

  /** `xpt2046_fms_manager`: a requested state becomes current with the time reset
      and the entry flagged; otherwise the time grows by the elapsed milliseconds
      (uint32 addition) and is capped. The manager always records `now`. */
  function Manager(f: Fsm, now: U32): (g: Fsm)
    ensures g.cur == f.next && g.next == f.next && g.tick == now
    ensures g.firstEntry <==> f.cur != f.next
    ensures f.cur != f.next ==> g.duration == 0
    ensures g.duration <= DurationLimit
  {
    if f.cur != f.next then
      Fsm(f.next, f.next, 0, true, now)
    else
      var sum := (f.duration + Elapsed(f.tick, now)) % TwoTo32;
      Fsm(f.cur, f.next, Min(sum, DurationLimit), false, now)
  }

  /** While the state does not change, the duration is a saturating sum of the
      elapsed times, as long as a single gap between runs stays below the 49.7 days
      at which the uint32 addition itself would wrap. */
  lemma ManagerAccumulates(f: Fsm, now: U32)
    requires f.cur == f.next && f.duration <= DurationLimit
    requires Elapsed(f.tick, now) < TwoTo32 - DurationLimit
    ensures Manager(f, now).duration == Min(f.duration + Elapsed(f.tick, now), DurationLimit)
    ensures !Manager(f, now).firstEntry
  {
  }

  /** The saturation is reached: once capped, the duration stays at the limit. */
  lemma ManagerSaturates(f: Fsm, now: U32)
    requires f.cur == f.next && f.duration == DurationLimit
    requires Elapsed(f.tick, now) < TwoTo32 - DurationLimit
    ensures Manager(f, now).duration == DurationLimit
  {
  }

  /** The unguarded uint32 addition: a gap of 2^32 - 1 ms (the tick counter one
      step behind) after the duration has saturated wraps the sum back down. */
  lemma ManagerWrapsOnHugeGap()
    ensures Manager(Fsm(Normal, Normal, DurationLimit, false, 1), 0).duration == DurationLimit - 1
  {
  }

  /** xpt2046_cal_data_t without the display points, which are fixed by the
      configuration. */
  datatype CalData = CalData(tp: seq<Point>, factors: Factors, start: bool, busy: bool, done: bool)

  /** Statics are zero at power-on. */
  const PowerOnCal := CalData([Point(0, 0), Point(0, 0), Point(0, 0)], ZeroFactors, false, false, false)

  /** What the state machine asks the display to do. */
  datatype DisplayEvent =
    | BlackBackground        // ili9488_set_background(BLACK)
    | DrawMarker(p: nat)     // xpt2046_set_cal_point: circle in the foreground colour
    | ClearMarker(p: nat)    // xpt2046_clear_cal_point: circle in the background colour

  /** All calibration state: the data, the machine, and the `point_touched`
      static of each acquisition state. */
  datatype CalCtx = CalCtx(cal: CalData, fsm: Fsm, touched: seq<bool>)
  {
    predicate Valid() {
      && |cal.tp| == 3
      && |touched| == 3
      && cal.factors.AllInt32()
      && fsm.duration <= DurationLimit
    }

    /** The flags agree with the machine: calibration is busy exactly while a
        state other than NORMAL is requested, and a pending start only exists while
        idle. */
    predicate FlagsAgree() {
      && (cal.busy <==> fsm.next != Normal)
      && (cal.start ==> !cal.busy)
    }
  }

  const PowerOnCtx := CalCtx(PowerOnCal, PowerOnFsm, [false, false, false])

  /** One state handler's effect. */
  datatype CalOut = CalOut(ctx: CalCtx, events: seq<DisplayEvent>)

  /** `xpt2046_fsm_normal`: a pending start request is consumed, calibration
      becomes busy and P1 acquisition is requested. */
  function NormalState(c: CalCtx): (r: CalOut)
    ensures r.events == []
    ensures r.ctx.touched == c.touched && r.ctx.cal.tp == c.cal.tp && r.ctx.cal.factors == c.cal.factors
    ensures r.ctx.cal.done == c.cal.done
    ensures c.cal.start ==> !r.ctx.cal.start && r.ctx.cal.busy && r.ctx.fsm.next == P1Acq
    ensures !c.cal.start ==> r.ctx == c
  {
    if c.cal.start then
      CalOut(c.(cal := c.cal.(start := false, busy := true), fsm := c.fsm.(next := P1Acq)), [])
    else
      CalOut(c, [])
  }

  /** `xpt2046_fsm_p1_acq` .. `xpt2046_fsm_p3_acq`, which differ only in the
      point index, the successor state and the black background P1 sets first.
      On entry the marker is drawn and the latch cleared. After that a press sets
      the latch; once latched, every tick records the stored touch as the
      point's raw coordinates, and the release tick moves on and clears the
      marker. */
  function AcquireState(n: nat, c: CalCtx, touch: Sample): (r: CalOut)
    requires n < 3 && c.Valid()
    ensures r.ctx.Valid()
    ensures r.ctx.cal.start == c.cal.start && r.ctx.cal.busy == c.cal.busy && r.ctx.cal.done == c.cal.done
    ensures r.ctx.cal.factors == c.cal.factors
    ensures r.ctx.fsm.cur == c.fsm.cur && r.ctx.fsm.duration == c.fsm.duration
    // Only this point's slot and latch can change.
    ensures forall k :: 0 <= k < 3 && k != n ==> r.ctx.cal.tp[k] == c.cal.tp[k] && r.ctx.touched[k] == c.touched[k]
    // First entry: draw, unlatch, record nothing.
    ensures c.fsm.firstEntry ==>
              && r.ctx.touched[n] == false && r.ctx.cal.tp == c.cal.tp && r.ctx.fsm.next == c.fsm.next
              && r.events == (if n == 0 then [BlackBackground] else []) + [DrawMarker(n)]
    // Waiting: a press latches, nothing is recorded.
    ensures !c.fsm.firstEntry && !c.touched[n] ==>
              && r.ctx.touched[n] == touch.pressed && r.ctx.cal.tp == c.cal.tp
              && r.ctx.fsm.next == c.fsm.next && r.events == []
    // Latched: record, and advance on release.
    ensures !c.fsm.firstEntry && c.touched[n] ==>
              && r.ctx.touched[n] && r.ctx.cal.tp[n] == Point(touch.x, touch.y)
              && r.ctx.fsm.next == (if touch.pressed then c.fsm.next else Succ(AcqState(n)))
              && r.events == (if touch.pressed then [] else [ClearMarker(n)])
  {
    if c.fsm.firstEntry then
      var bg := if n == 0 then [BlackBackground] else [];
      CalOut(c.(touched := c.touched[n := false]), bg + [DrawMarker(n)])
    else if !c.touched[n] then
      if touch.pressed then CalOut(c.(touched := c.touched[n := true]), []) else CalOut(c, [])
    else
      var recorded := c.(cal := c.cal.(tp := c.cal.tp[n := Point(touch.x, touch.y)]));
      if touch.pressed then CalOut(recorded, [])
      else CalOut(recorded.(fsm := recorded.fsm.(next := Succ(AcqState(n)))), [ClearMarker(n)])
  }

  /** `xpt2046_fsm_calc_factors`: the factors are computed from the markers and
      the recorded touches and stored, NORMAL is requested, and the calibration
      is marked done and no longer busy. */
  function CalcFactorsState(cfg: Config, c: CalCtx): (r: CalOut)
    requires cfg.Valid() && c.Valid()
    ensures r.ctx.Valid()
    ensures r.ctx.cal.factors == CalculateFactors(cfg.dp, c.cal.tp)
    ensures r.ctx.cal.done && !r.ctx.cal.busy && r.ctx.fsm.next == Normal
    ensures r.ctx.cal.tp == c.cal.tp && r.ctx.cal.start == c.cal.start && r.ctx.touched == c.touched
    ensures r.events == []
  {
    var f := CalculateFactors(cfg.dp, c.cal.tp);
    CalOut(c.(cal := c.cal.(factors := f, busy := false, done := true), fsm := c.fsm.(next := Normal)), [])
  }

  /** `xpt2046_cal_hndl`: the manager runs, then the handler of the (new) current
      state, which sees the touch just stored. */
  function CalHndl(cfg: Config, c: CalCtx, touch: Sample, now: U32): (r: CalOut)
    requires cfg.Valid() && c.Valid()
    ensures r.ctx.Valid()
    ensures r.ctx.fsm.cur == c.fsm.next && r.ctx.fsm.tick == now
    ensures r.ctx.fsm.firstEntry <==> c.fsm.cur != c.fsm.next
    // The machine only ever stays or moves one step along the cycle.
    ensures r.ctx.fsm.next == r.ctx.fsm.cur || r.ctx.fsm.next == Succ(r.ctx.fsm.cur)
  {
    var c1 := c.(fsm := Manager(c.fsm, now));
    match c1.fsm.cur
    case Normal => NormalState(c1)
    case P1Acq => AcquireState(0, c1, touch)
    case P2Acq => AcquireState(1, c1, touch)
    case P3Acq => AcquireState(2, c1, touch)
    case CalcFactors => CalcFactorsState(cfg, c1)
  }

  /** The handler keeps the flags consistent with the machine. */
  lemma CalHndlKeepsFlags(cfg: Config, c: CalCtx, touch: Sample, now: U32)
    requires cfg.Valid() && c.Valid() && c.FlagsAgree()
    ensures CalHndl(cfg, c, touch, now).ctx.FlagsAgree()
  {
  }

  /** Calibration data changes only as the current state allows: factors only in
      the computation state, a raw point only in its own acquisition state, and
      `done` only when the factors are stored. */
  lemma CalHndlFrame(cfg: Config, c: CalCtx, touch: Sample, now: U32)
    requires cfg.Valid() && c.Valid()
    ensures var r := CalHndl(cfg, c, touch, now).ctx;
            && (c.fsm.next != CalcFactors ==> r.cal.factors == c.cal.factors && r.cal.done == c.cal.done)
            && (c.fsm.next == CalcFactors ==> r.cal.factors == CalculateFactors(cfg.dp, c.cal.tp) && r.cal.done)
            && (forall k :: 0 <= k < 3 && c.fsm.next != AcqState(k) ==> r.cal.tp[k] == c.cal.tp[k])
  {
  }

  /** An acquisition state hands over to its successor exactly on a tick that is
      not its first, with the latch already set and the touch released. */
  lemma AcquireAdvancesIff(cfg: Config, c: CalCtx, touch: Sample, now: U32, n: nat)
    requires cfg.Valid() && c.Valid() && n < 3 && c.fsm.cur == AcqState(n) && c.fsm.next == AcqState(n)
    ensures CalHndl(cfg, c, touch, now).ctx.fsm.next == Succ(AcqState(n))
            <==> c.touched[n] && !touch.pressed
  {
  }

  /** Acquiring one point: after the entry tick, a press followed by a release
      advances to the next state with the release tick's touch recorded. Ticks
      in between that keep the press only update the recorded point. */
  lemma AcquirePressRelease(cfg: Config, c: CalCtx, n: nat, t0: U32, press: Sample, t1: U32, release: Sample, t2: U32)
    requires cfg.Valid() && c.Valid() && n < 3
    requires c.fsm.next == AcqState(n) && c.fsm.cur != c.fsm.next
    requires press.pressed && !release.pressed
    ensures var r0 := CalHndl(cfg, c, press, t0);
            var r1 := CalHndl(cfg, r0.ctx, press, t1);
            var r2 := CalHndl(cfg, r1.ctx, release, t2);
            && r0.events == (if n == 0 then [BlackBackground] else []) + [DrawMarker(n)]
            && r1.ctx.fsm.next == AcqState(n)
            && r2.ctx.fsm.next == Succ(AcqState(n))
            && r2.ctx.cal.tp[n] == Point(release.x, release.y)
            && r2.events == [ClearMarker(n)]
            && r2.ctx.cal == c.cal.(tp := r2.ctx.cal.tp)
            && (forall k :: 0 <= k < 3 && k != n ==> r2.ctx.cal.tp[k] == c.cal.tp[k])
  {
    var r0 := CalHndl(cfg, c, press, t0);
    assert r0.ctx.fsm.cur == AcqState(n) && r0.ctx.fsm.firstEntry;
    assert !r0.ctx.touched[n];
    var r1 := CalHndl(cfg, r0.ctx, press, t1);
    assert r1.ctx.fsm.cur == AcqState(n) && !r1.ctx.fsm.firstEntry && r1.ctx.touched[n];
  }

  /** One call of the handler: the touch stored this tick and the time. */
  datatype Tick = Tick(touch: Sample, now: U32)

  /** The handler run over a sequence of ticks. */
  function Run(cfg: Config, c: CalCtx, ts: seq<Tick>): (r: CalCtx)
    requires cfg.Valid() && c.Valid()
    ensures r.Valid()
    decreases |ts|
  {
    if |ts| == 0 then c else Run(cfg, CalHndl(cfg, c, ts[0].touch, ts[0].now).ctx, ts[1..])
  }

  /** Running two sequences one after the other is running their concatenation. */
  lemma {:induction false} RunAppend(cfg: Config, c: CalCtx, a: seq<Tick>, b: seq<Tick>)
    requires cfg.Valid() && c.Valid()
    ensures Run(cfg, c, a + b) == Run(cfg, Run(cfg, c, a), b)
    decreases |a|
  {
    if |a| == 0 {
      assert a + b == b;
    } else {
      var c1 := CalHndl(cfg, c, a[0].touch, a[0].now).ctx;
      assert (a + b)[0] == a[0];
      assert (a + b)[1..] == a[1..] + b;
      assert Run(cfg, c, a + b) == Run(cfg, c1, a[1..] + b);
      assert Run(cfg, c, a) == Run(cfg, c1, a[1..]);
      RunAppend(cfg, c1, a[1..], b);
    }
  }

  /** The ticks of acquiring one point: the entry tick, a tick that latches the
      press, and the release. */
  function PressRelease(press: Tick, release: Tick): seq<Tick> {
    [press, press, release]
  }

  lemma RunPressRelease(cfg: Config, c: CalCtx, n: nat, press: Tick, release: Tick)
    requires cfg.Valid() && c.Valid() && n < 3
    requires c.fsm.next == AcqState(n) && c.fsm.cur != c.fsm.next
    requires press.touch.pressed && !release.touch.pressed
    ensures var r := Run(cfg, c, PressRelease(press, release));
            && r.fsm.cur == AcqState(n) && r.fsm.next == Succ(AcqState(n))
            && r.cal.tp[n] == Point(release.touch.x, release.touch.y)
            && r.cal == c.cal.(tp := r.cal.tp)
            && (forall k :: 0 <= k < 3 && k != n ==> r.cal.tp[k] == c.cal.tp[k])
  {
    AcquirePressRelease(cfg, c, n, press.now, press.touch, press.now, release.touch, release.now);
    var ts := PressRelease(press, release);
    var r0 := CalHndl(cfg, c, press.touch, press.now).ctx;
    var r1 := CalHndl(cfg, r0, press.touch, press.now).ctx;
    var r2 := CalHndl(cfg, r1, release.touch, release.now).ctx;
    assert ts[1..] == [press, release] && ts[1..][1..] == [release] && ts[1..][1..][1..] == [];
    assert Run(cfg, c, ts) == Run(cfg, r0, [press, release]);
    assert Run(cfg, r0, [press, release]) == Run(cfg, r1, [release]);
    assert Run(cfg, r1, [release]) == Run(cfg, r2, []);
  }

  /** The tick that sees a pending start while idle. */
  lemma RunStart(cfg: Config, c: CalCtx, idle: Tick)
    requires cfg.Valid() && c.Valid()
    requires c.fsm.cur == Normal && c.fsm.next == Normal && c.cal.start
    ensures var r := Run(cfg, c, [idle]);
            && r.fsm.cur == Normal && r.fsm.next == P1Acq
            && r.cal == c.cal.(start := false, busy := true)
  {
    assert [idle][1..] == [];
    assert Run(cfg, c, [idle]) == CalHndl(cfg, c, idle.touch, idle.now).ctx;
  }

  /** The tick after the third release computes and stores the factors. */
  lemma RunCalc(cfg: Config, c: CalCtx, last: Tick)
    requires cfg.Valid() && c.Valid()
    requires c.fsm.cur == P3Acq && c.fsm.next == CalcFactors
    ensures var r := Run(cfg, c, [last]);
            && r.fsm.cur == CalcFactors && r.fsm.next == Normal
            && r.cal == c.cal.(factors := CalculateFactors(cfg.dp, c.cal.tp), busy := false, done := true)
  {
    assert [last][1..] == [];
    assert Run(cfg, c, [last]) == CalHndl(cfg, c, last.touch, last.now).ctx;
  }

  /** A whole calibration: from idle with a start pending, one tick starts it,
      each marker is pressed and released, and one more tick computes the
      factors. The result is calibrated, idle again, and holds the factors
      computed from the three release samples. */
  lemma CalibrationCompletes(cfg: Config, c: CalCtx, idle: Tick,
                             p0: Tick, r0: Tick, p1: Tick, r1: Tick, p2: Tick, r2: Tick, last: Tick)
    requires cfg.Valid() && c.Valid()
    requires c.fsm.cur == Normal && c.fsm.next == Normal && c.cal.start
    requires p0.touch.pressed && p1.touch.pressed && p2.touch.pressed
    requires !r0.touch.pressed && !r1.touch.pressed && !r2.touch.pressed
    ensures var r := Run(cfg, c, [idle] + PressRelease(p0, r0) + PressRelease(p1, r1) + PressRelease(p2, r2) + [last]);
            var tp := [Point(r0.touch.x, r0.touch.y), Point(r1.touch.x, r1.touch.y), Point(r2.touch.x, r2.touch.y)];
            && r.cal.done && !r.cal.busy && !r.cal.start
            && r.fsm.cur == CalcFactors && r.fsm.next == Normal
            && r.cal.tp == tp
            && r.cal.factors == CalculateFactors(cfg.dp, tp)
  {
    var a := [idle];
    var b := PressRelease(p0, r0) + PressRelease(p1, r1) + PressRelease(p2, r2);
    var z := [last];
    var s1 := Run(cfg, c, a);
    RunStart(cfg, c, idle);
    var s4 := Run(cfg, s1, b);
    RunThreePoints(cfg, s1, p0, r0, p1, r1, p2, r2);
    RunCalc(cfg, s4, last);
    RunAppend(cfg, c, a, b);
    RunAppend(cfg, c, a + b, z);
    assert [idle] + PressRelease(p0, r0) + PressRelease(p1, r1) + PressRelease(p2, r2) + [last] == a + b + z;
  }

  /** The three press/release pairs of a calibration, from the tick that has
      requested P1: the machine ends in P3 with the factor calculation requested,
      and the three release samples recorded in order. */
  lemma RunThreePoints(cfg: Config, c: CalCtx, p0: Tick, r0: Tick, p1: Tick, r1: Tick, p2: Tick, r2: Tick)
    requires cfg.Valid() && c.Valid()
    requires c.fsm.cur == Normal && c.fsm.next == P1Acq
    requires p0.touch.pressed && p1.touch.pressed && p2.touch.pressed
    requires !r0.touch.pressed && !r1.touch.pressed && !r2.touch.pressed
    ensures var r := Run(cfg, c, PressRelease(p0, r0) + PressRelease(p1, r1) + PressRelease(p2, r2));
            && r.fsm.cur == P3Acq && r.fsm.next == CalcFactors
            && r.cal == c.cal.(tp := [Point(r0.touch.x, r0.touch.y), Point(r1.touch.x, r1.touch.y), Point(r2.touch.x, r2.touch.y)])
  {
    var b := PressRelease(p0, r0);
    var d := PressRelease(p1, r1);
    var e := PressRelease(p2, r2);
    var s2 := Run(cfg, c, b);
    RunPressRelease(cfg, c, 0, p0, r0);
    var s3 := Run(cfg, s2, d);
    RunPressRelease(cfg, s2, 1, p1, r1);
    var s4 := Run(cfg, s3, e);
    RunPressRelease(cfg, s3, 2, p2, r2);
    ThreeRecords(c.cal, s2.cal, s3.cal, s4.cal, Point(r0.touch.x, r0.touch.y), Point(r1.touch.x, r1.touch.y),
                 Point(r2.touch.x, r2.touch.y));
    RunAppend(cfg, c, b, d);
    RunAppend(cfg, c, b + d, e);
  }

  /** Three successive single-point records, each leaving the other points and
      all other data alone, amount to recording all three points. */
  lemma ThreeRecords(c: CalData, a: CalData, b: CalData, e: CalData, q0: Point, q1: Point, q2: Point)
    requires |c.tp| == 3 && |a.tp| == 3 && |b.tp| == 3 && |e.tp| == 3
    requires a == c.(tp := a.tp) && a.tp[0] == q0 && (forall k :: 0 <= k < 3 && k != 0 ==> a.tp[k] == c.tp[k])
    requires b == a.(tp := b.tp) && b.tp[1] == q1 && (forall k :: 0 <= k < 3 && k != 1 ==> b.tp[k] == a.tp[k])
    requires e == b.(tp := e.tp) && e.tp[2] == q2 && (forall k :: 0 <= k < 3 && k != 2 ==> e.tp[k] == b.tp[k])
    ensures e == c.(tp := [q0, q1, q2])
  {
    assert e.tp == [q0, q1, q2];
  }
}
