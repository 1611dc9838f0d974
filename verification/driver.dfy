/** The public interface of xpt2046.c: initialisation, the periodic handler that
    reads, filters, calibrates and stores a touch and then runs the calibration
    machine, and the calls that start calibration or install factors. */
module Driver {
  import opened Common
  import opened Configuration
  import opened Protocol
  import opened Acquire
  import opened Smoothing
  import opened Calibration
  import opened CalFsm

  /** Every static of the driver: `gb_is_init`, `g_touch`, the read's held
      sample, the filter's buffers and counter, and the calibration state. */
  datatype Driver = Driver(isInit: bool, touch: Sample, hold: Hold, filter: FilterState, cal: CalCtx)

  /** Statics at power-on (all zero). */
  function Boot(cfg: Config): (d: Driver)
    requires cfg.Valid()
    ensures !d.isInit && !d.cal.cal.done && !d.cal.cal.busy && !d.cal.cal.start
  {
    Driver(false, Sample(0, 0, 0, false), PowerOnHold, PowerOn(cfg.filterWin), PowerOnCtx)
  }

  /** What holds of the statics between calls. */
  predicate Inv(cfg: Config, d: Driver) {
    && cfg.Valid()
    && Smoothing.Valid(cfg.filterWin, cfg.filterWin, d.filter)
    && d.cal.Valid()
    && d.cal.FlagsAgree()
  }

  lemma BootInv(cfg: Config)
    requires cfg.Valid()
    ensures Inv(cfg, Boot(cfg))
  {
  }

  /** `xpt2046_init`, which asserts it runs once. The status is whatever the
      interface initialisation reported; the machine is reset to NORMAL with no
      pending entry. */
  function Init(d: Driver, ifStatus: Status): (r: (Driver, Status))
    requires !d.isInit
    ensures r.0.isInit && r.1 == ifStatus
    ensures r.0.cal.fsm.cur == Normal && r.0.cal.fsm.next == Normal
    ensures r.0.cal.fsm.duration == 0 && !r.0.cal.fsm.firstEntry
    ensures r.0.touch == d.touch && r.0.hold == d.hold && r.0.filter == d.filter && r.0.cal.cal == d.cal.cal
  {
    var fsm := d.cal.fsm.(cur := Normal, next := Normal, duration := 0, firstEntry := false);
    (d.(isInit := true, cal := d.cal.(fsm := fsm)), ifStatus)
  }

  /** Initialising keeps the invariant from any uninitialised state that is not
      mid-calibration, power-on included. Calibration cannot be started before
      initialisation, so the busy flag is clear there; `set_cal_factors` has no
      such guard and may have run first. */
  lemma InitInv(cfg: Config, d: Driver, ifStatus: Status)
    requires Inv(cfg, d) && !d.isInit && !d.cal.cal.busy
    ensures Inv(cfg, Init(d, ifStatus).0)
  {
  }

  /** Power-on satisfies the preconditions of initialisation. */
  lemma BootInitInv(cfg: Config, ifStatus: Status)
    requires cfg.Valid()
    ensures Inv(cfg, Init(Boot(cfg), ifStatus).0)
  {
    BootInv(cfg);
    InitInv(cfg, Boot(cfg), ifStatus);
  }

  /** The outcome of one handler call. */
  datatype TickResult =
    | Ticked(d: Driver, sent: seq<U8>, events: seq<DisplayEvent>)
    /** Calibration is done but f0 is zero (three collinear touches): the C code
        divides by zero, which the model reports instead of inventing a value. */
    | DivisionByZero

  /** The sample after the optional filter. */
  function Filtered(cfg: Config, f: FilterState, s: Sample): (r: Output)
    requires cfg.Valid() && Smoothing.Valid(cfg.filterWin, cfg.filterWin, f)
    ensures Smoothing.Valid(cfg.filterWin, cfg.filterWin, r.state)
    ensures r.sample.pressed == s.pressed
    ensures !cfg.filterEnabled ==> r == Output(f, s)
  {
    if cfg.filterEnabled then Step(cfg.filterWin, f, s) else Output(f, s)
  }

  /** `xpt2046_hndl`, called every 10 ms: read, filter when enabled, map through
      the factors once calibration is done, store as the current touch, then
      run the calibration machine on it. `lineOn` is the touch line, `rx` the
      four replies, `now` the millisecond tick. */
  function Hndl(cfg: Config, d: Driver, lineOn: bool, rx: Replies, now: U32, forceOf: ForceFormula): (r: TickResult)
    requires d.isInit && Inv(cfg, d) && rx.Valid()
    ensures r.DivisionByZero? <==> d.cal.cal.done && d.cal.cal.factors.f0 == 0
    ensures r.Ticked? ==> Inv(cfg, r.d) && r.d.isInit
    ensures r.Ticked? ==> r.d.touch.pressed == lineOn
    ensures r.Ticked? ==> r.d.hold == Read(cfg, d.hold, lineOn, rx, forceOf).hold
    ensures r.Ticked? && d.cal.cal.done ==> r.d.touch.x <= cfg.displayMaxX && r.d.touch.y <= cfg.displayMaxY
  {
    var reading := Read(cfg, d.hold, lineOn, rx, forceOf);
    var out := Filtered(cfg, d.filter, reading.sample);
    var s := out.sample;
    var factors := d.cal.cal.factors;
    if d.cal.cal.done && factors.f0 == 0 then
      DivisionByZero
    else
      var (x, y) := if d.cal.cal.done then CalibrateData(cfg, s.x, s.y, factors) else (s.x, s.y);
      var touch := Sample(x, y, s.force, s.pressed);
      CalHndlKeepsFlags(cfg, d.cal, touch, now);
      var c := CalHndl(cfg, d.cal, touch, now);
      Ticked(Driver(true, touch, reading.hold, out.state, c.ctx), reading.sent, c.events)
  }

  /** Without filter and calibration, the stored touch is exactly what was
      converted while pressed: X and Y from their channels, and the pressure
      from X, Z1 and Z2. */
  lemma HndlPassesRawSample(cfg: Config, d: Driver, rx: Replies, now: U32, forceOf: ForceFormula)
    requires d.isInit && Inv(cfg, d) && rx.Valid()
    requires !cfg.filterEnabled && !d.cal.cal.done
    ensures var r := Hndl(cfg, d, true, rx, now, forceOf);
            && r.Ticked?
            && r.d.touch.x == ResultField(cfg, ResultWord(rx.x))
            && r.d.touch.y == ResultField(cfg, ResultWord(rx.y))
            && r.d.touch.force == forceOf(ResultField(cfg, ResultWord(rx.x)), ResultField(cfg, ResultWord(rx.z1)),
                                          ResultField(cfg, ResultWord(rx.z2)))
            && r.d.touch.pressed
  {
  }

  /** `xpt2046_start_calibration`: refused before initialisation and while a
      calibration runs; otherwise a start is requested and the old calibration
      is dropped. */
  function StartCalibration(d: Driver): (r: (Driver, Status))
    ensures !d.isInit ==> r == (d, Error)
    ensures d.isInit && d.cal.cal.busy ==> r == (d, CalInProgress)
    ensures r.1 == Ok <==> d.isInit && !d.cal.cal.busy
    ensures r.1 == Ok ==> r.0.cal.cal.start && !r.0.cal.cal.done
    ensures r.0.cal.cal.busy == d.cal.cal.busy && r.0.cal.fsm == d.cal.fsm
    ensures r.0.cal.cal.tp == d.cal.cal.tp && r.0.cal.cal.factors == d.cal.cal.factors
    ensures r.0.isInit == d.isInit && r.0.touch == d.touch && r.0.hold == d.hold
    ensures r.0.filter == d.filter && r.0.cal.touched == d.cal.touched
  {
    if d.isInit then
      if !d.cal.cal.busy then
        (d.(cal := d.cal.(cal := d.cal.cal.(start := true, done := false))), Ok)
      else
        (d, CalInProgress)
    else
      (d, Error)
  }

  lemma StartCalibrationInv(cfg: Config, d: Driver)
    requires Inv(cfg, d)
    ensures Inv(cfg, StartCalibration(d).0)
  {
  }

  /** `xpt2046_is_calibrated` */
  function IsCalibrated(d: Driver): bool {
    d.cal.cal.done
  }

  /** `xpt2046_set_cal_factors`: the seven factors are copied in and calibration is
      marked done, whatever the machine is doing. */
  function SetCalFactors(d: Driver, f: Factors): (r: Driver)
    requires f.AllInt32()
    ensures IsCalibrated(r) && r.cal.cal.factors == f
    ensures r.cal.fsm == d.cal.fsm && r.cal.cal.busy == d.cal.cal.busy && r.cal.cal.start == d.cal.cal.start
    ensures r.cal.cal.tp == d.cal.cal.tp && r.touch == d.touch && r.filter == d.filter
    ensures r.isInit == d.isInit && r.hold == d.hold && r.cal.touched == d.cal.touched
  {
    d.(cal := d.cal.(cal := d.cal.cal.(factors := f, done := true)))
  }

  lemma SetCalFactorsInv(cfg: Config, d: Driver, f: Factors)
    requires Inv(cfg, d) && f.AllInt32()
    ensures Inv(cfg, SetCalFactors(d, f))
  {
  }

  /** Installed factors take effect on the next tick: the stored touch is the
      filtered sample mapped through them, and without the filter the converted
      X and Y mapped through them. */
  lemma SetCalFactorsApplies(cfg: Config, d: Driver, f: Factors, rx: Replies, now: U32, forceOf: ForceFormula)
    requires d.isInit && Inv(cfg, d) && rx.Valid() && f.AllInt32() && f.f0 != 0
    ensures var s := Filtered(cfg, d.filter, Read(cfg, d.hold, true, rx, forceOf).sample).sample;
            var r := Hndl(cfg, SetCalFactors(d, f), true, rx, now, forceOf);
            && r.Ticked?
            && (r.d.touch.x, r.d.touch.y) == CalibrateData(cfg, s.x, s.y, f)
    ensures var r := Hndl(cfg, SetCalFactors(d, f), true, rx, now, forceOf);
            !cfg.filterEnabled ==>
              (r.d.touch.x, r.d.touch.y)
              == CalibrateData(cfg, ResultField(cfg, ResultWord(rx.x)), ResultField(cfg, ResultWord(rx.y)), f)
  {
  }

  /** A new touch restarts the filter: before calibration is done, the first
      pressed tick after a release stores the raw sample just read, with or
      without the filter. */
  lemma HndlRestartsFilterOnTouch(cfg: Config, d: Driver, rx: Replies, now: U32, forceOf: ForceFormula)
    requires d.isInit && Inv(cfg, d) && rx.Valid()
    requires !d.cal.cal.done && !d.filter.touchPrev
    ensures var r := Hndl(cfg, d, true, rx, now, forceOf);
            r.Ticked? && r.d.touch == Read(cfg, d.hold, true, rx, forceOf).sample
  {
    RisingEdgeRestarts(cfg.filterWin, cfg.filterWin, d.filter, Read(cfg, d.hold, true, rx, forceOf).sample);
  }

  /** A successful start is seen by the next tick: the idle state consumes it and
      P1 acquisition is requested, with calibration busy and not done. */
  lemma StartThenTickRequestsP1(cfg: Config, d: Driver, lineOn: bool, rx: Replies, now: U32, forceOf: ForceFormula)
    requires d.isInit && Inv(cfg, d) && rx.Valid() && !d.cal.cal.busy
    ensures var s := StartCalibration(d);
            var r := Hndl(cfg, s.0, lineOn, rx, now, forceOf);
            && s.1 == Ok
            && r.Ticked?
            && r.d.cal.fsm.next == P1Acq && r.d.cal.cal.busy && !r.d.cal.cal.start && !IsCalibrated(r.d)
  {
    var s := StartCalibration(d);
    assert s.0.cal.fsm.next == Normal;
  }

  /** The point `k` steps of `v` away from `p`. Every three collinear lattice
      points are `OnLine(p, v, k)` for one `p` and `v` and three `k`s (with `v`
      the primitive direction of their line), identical points included (`v`
      zero). */
  function OnLine(p: Point, v: Point, k: int): Point {
    Point(p.x + k * v.x, p.y + k * v.y)
  }

  /** Three touches on one line, identical touches included, give f0 == 0. */
  lemma {:induction false} CollinearTouchesDivideByZero(cfg: Config, p: Point, v: Point, k0: int, k1: int, k2: int)
    requires cfg.Valid()
    ensures CalculateFactors(cfg.dp, [OnLine(p, v, k0), OnLine(p, v, k1), OnLine(p, v, k2)]).f0 == 0
  {
    var (a, b) := (k0 - k2, k1 - k2);
    var tp := [OnLine(p, v, k0), OnLine(p, v, k1), OnLine(p, v, k2)];
    assert tp[0].x - tp[2].x == a * v.x && tp[0].y - tp[2].y == a * v.y;
    assert tp[1].x - tp[2].x == b * v.x && tp[1].y - tp[2].y == b * v.y;
    assert (a * v.x) * (b * v.y) == (b * v.x) * (a * v.y) by {
      MulSwap(a, v.x, b, v.y);
    }
    assert Det(tp[0].x, tp[0].y, tp[1].x, tp[1].y, tp[2].x, tp[2].y) == 0;
  }

  /** The degenerate case is reachable through the calibration machine: a
      calibration whose three release samples lie on one line ends done with
      f0 == 0, so by `Hndl` the next tick of a driver holding that context
      divides by zero. */
  lemma CollinearCalibrationDividesByZero(cfg: Config, c: CalCtx, idle: Tick, p0: Tick, r0: Tick, p1: Tick, r1: Tick,
                                          p2: Tick, r2: Tick, last: Tick, p: Point, v: Point, k0: int, k1: int, k2: int)
    requires cfg.Valid() && c.Valid()
    requires c.fsm.cur == Normal && c.fsm.next == Normal && c.cal.start
    requires p0.touch.pressed && p1.touch.pressed && p2.touch.pressed
    requires !r0.touch.pressed && !r1.touch.pressed && !r2.touch.pressed
    requires Point(r0.touch.x, r0.touch.y) == OnLine(p, v, k0)
    requires Point(r1.touch.x, r1.touch.y) == OnLine(p, v, k1)
    requires Point(r2.touch.x, r2.touch.y) == OnLine(p, v, k2)
    ensures var e := Run(cfg, c, [idle] + PressRelease(p0, r0) + PressRelease(p1, r1) + PressRelease(p2, r2) + [last]);
            e.cal.done && e.cal.factors.f0 == 0
  {
    CalibrationCompletes(cfg, c, idle, p0, r0, p1, r1, p2, r2, last);
    CollinearTouchesDivideByZero(cfg, p, v, k0, k1, k2);
  }

  /** `xpt2046_get_cal_factors` as written: it reassigns its own address
      parameter, so the caller's buffer keeps whatever it held. */
  function GetCalFactorsAsWritten(d: Driver, buf: Factors): Factors {
    buf
  }

  /** Reading back installed factors with the function as written returns the
      caller's old buffer, not the factors. */
  lemma GetCalFactorsLosesFactors(d: Driver)
    ensures GetCalFactorsAsWritten(SetCalFactors(d, Factors(1, 2, 3, 4, 5, 6, 7)), ZeroFactors)
            != Factors(1, 2, 3, 4, 5, 6, 7)
  {
  }

  /** The evident intent: the factors in use are copied out to the caller. */
  function GetCalFactors(d: Driver): Factors {
    d.cal.cal.factors
  }

  /** With the intended reading, installed factors read back unchanged, and
      installing what was read back changes nothing. */
  lemma SetGetRoundTrip(d: Driver, f: Factors)
    requires f.AllInt32()
    ensures GetCalFactors(SetCalFactors(d, f)) == f
    ensures SetCalFactors(d, GetCalFactors(SetCalFactors(d, f))).cal == SetCalFactors(d, f).cal
  {
  }
}
