/** Sample acquisition (`xpt2046_read_data_from_controler` in xpt2046.c): four
    conversions while the touch line is asserted, the last good sample held over
    while it is not. */
module Acquire {
  import opened Common
  import opened Configuration
  import opened Protocol

  /** The function-local statics X_prev, Y_prev and force_prev. */
  datatype Hold = Hold(x: U16, y: U16, force: U16)

  /** Statics start out zero. */
  const PowerOnHold := Hold(0, 0, 0)

  /** The bytes the serial port clocks in during the X, Y, Z1 and Z2 conversions. */
  datatype Replies = Replies(x: seq<U8>, y: seq<U8>, z1: seq<U8>, z2: seq<U8>)
  {
    predicate Valid() {
      |x| == 3 && |y| == 3 && |z1| == 3 && |z2| == 3
    }
  }

  /** The pressure estimate is computed in floating point from X, Z1 and Z2; the
      model takes it as a given function of those three conversions. */
  type ForceFormula = (U16, U16, U16) -> U16

  /** What one read produces: the new held sample, the sample handed to the filter
      and the control bytes sent, in order. */
  datatype Reading = Reading(hold: Hold, sample: Sample, sent: seq<U8>)

  /** One read. `lineOn` is the touch interrupt line as seen through the inverter. */
  function Read(cfg: Config, h: Hold, lineOn: bool, rx: Replies, forceOf: ForceFormula): (r: Reading)
    requires rx.Valid()
    ensures r.sample.pressed == lineOn
    // Released: the stored sample comes back unchanged and nothing is sent.
    ensures !lineOn ==> r.hold == h && r.sent == []
    ensures !lineOn ==> r.sample == Sample(h.x, h.y, h.force, false)
    // Pressed: X from the X+ channel, Y from the Y+ channel, pressure from X, Z1, Z2,
    // and the triple is stored for later released ticks.
    ensures lineOn ==> r.sample.x == ResultField(cfg, ResultWord(rx.x))
    ensures lineOn ==> r.sample.y == ResultField(cfg, ResultWord(rx.y))
    ensures lineOn ==> r.sample.force
                         == forceOf(r.sample.x, ResultField(cfg, ResultWord(rx.z1)), ResultField(cfg, ResultWord(rx.z2)))
    ensures lineOn ==> r.hold == Hold(r.sample.x, r.sample.y, r.sample.force)
    ensures lineOn ==> |r.sent| == 4
                       && ControlFields(r.sent[0]).addr == AddrCode(XPos)
                       && ControlFields(r.sent[1]).addr == AddrCode(YPos)
                       && ControlFields(r.sent[2]).addr == AddrCode(Z1Pos)
                       && ControlFields(r.sent[3]).addr == AddrCode(Yn)
  {
    if lineOn then
      var ex := Exchange3(cfg, XPos, PdDeviceFullyOn, StartOn, rx.x);
      var ey := Exchange3(cfg, YPos, PdDeviceFullyOn, StartOn, rx.y);
      var ez1 := Exchange3(cfg, Z1Pos, PdDeviceFullyOn, StartOn, rx.z1);
      var ez2 := Exchange3(cfg, Yn, PdVrefOn, StartOn, rx.z2);
      var sent := [ex.control, ey.control, ez1.control, ez2.control];
      // The combined status of the four calls is always OK (`Exchange3` never
      // fails), so the new triple is always stored.
      var force := forceOf(ex.adc, ez1.adc, ez2.adc);
      Reading(Hold(ex.adc, ey.adc, force), Sample(ex.adc, ey.adc, force, true), sent)
    else
      Reading(h, Sample(h.x, h.y, h.force, false), [])
  }

  /** One tick's worth of input to the reader. */
  datatype ReadInput = ReadInput(lineOn: bool, rx: Replies)

  predicate ValidInputs(ins: seq<ReadInput>) {
    forall i :: 0 <= i < |ins| ==> ins[i].rx.Valid()
  }

  /** The held sample after a sequence of reads. */
  function HoldAfter(cfg: Config, h: Hold, ins: seq<ReadInput>, forceOf: ForceFormula): Hold
    requires ValidInputs(ins)
    decreases |ins|
  {
    if |ins| == 0 then h
    else HoldAfter(cfg, Read(cfg, h, ins[0].lineOn, ins[0].rx, forceOf).hold, ins[1..], forceOf)
  }

  /** However many released ticks follow, the sample read is the one stored by the
      last pressed tick. */
  lemma {:induction false} HoldOverPersists(cfg: Config, h: Hold, ins: seq<ReadInput>, forceOf: ForceFormula, lineOn: bool, rx: Replies)
    requires ValidInputs(ins) && rx.Valid()
    requires forall i :: 0 <= i < |ins| ==> !ins[i].lineOn
    ensures HoldAfter(cfg, h, ins, forceOf) == h
    ensures var s := Read(cfg, HoldAfter(cfg, h, ins, forceOf), lineOn, rx, forceOf).sample;
            !lineOn ==> s == Sample(h.x, h.y, h.force, false)
    decreases |ins|
  {
    if |ins| > 0 {
      assert ValidInputs(ins[1..]) by {
        forall i | 0 <= i < |ins[1..]| ensures ins[1..][i].rx.Valid() {
          assert ins[1..][i] == ins[i + 1];
        }
      }
      forall i | 0 <= i < |ins[1..]| ensures !ins[1..][i].lineOn {
        assert ins[1..][i] == ins[i + 1];
      }
      HoldOverPersists(cfg, h, ins[1..], forceOf, lineOn, rx);
    }
  }
}
