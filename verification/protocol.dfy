/** The XPT2046 serial protocol: the one-byte control frame sent to the chip and the
    conversion result read back from a 3-byte exchange (xpt2046_low_if.c). Bit
    fields are allocated from the least significant bit upwards, as GCC does on ARM,
    which gives the datasheet order S, A2-A0, MODE, SER/DFR, PD1-PD0 from the top. */
module Protocol {
  import opened Common
  import opened Configuration

  /** xpt2046_addr_t: the channel a conversion measures. */
  datatype Addr = Temp0 | YPos | VBat | Z1Pos | Yn | XPos | AuxIn | Temp1

  function AddrCode(a: Addr): (c: nat)
    ensures c < 8
  {
    match a
    case Temp0 => 0
    case YPos => 1
    case VBat => 2
    case Z1Pos => 3
    case Yn => 4
    case XPos => 5
    case AuxIn => 6
    case Temp1 => 7
  }

  /** xpt2046_pd_t: power-down mode between conversions. */
  datatype PowerDown = PdPowerDown | PdVrefOff | PdVrefOn | PdDeviceFullyOn

  function PdCode(p: PowerDown): (c: nat)
    ensures c < 4
  {
    match p
    case PdPowerDown => 0
    case PdVrefOff => 1
    case PdVrefOn => 2
    case PdDeviceFullyOn => 3
  }

  /** xpt2046_start_t */
  datatype StartBit = StartOff | StartOn

  function StartCode(s: StartBit): (c: nat)
    ensures c < 2
  {
    if s == StartOn then 1 else 0
  }

  /** The `bits` view of xpt2046_control_t; each field holds a value of its width. */
  datatype ControlBits = ControlBits(pd: nat, serDfr: nat, mode: nat, addr: nat, source: nat)
  {
    predicate InWidth() {
      pd < 4 && serDfr < 2 && mode < 2 && addr < 8 && source < 2
    }
  }

  /** The `U` view of the union: pd in bits 0-1, ser_dfr in bit 2, mode in bit 3,
      addr in bits 4-6, source in bit 7. */
  function ControlByte(c: ControlBits): (b: U8)
    requires c.InWidth()
  {
    c.source * 128 + c.addr * 16 + c.mode * 8 + c.serDfr * 4 + c.pd
  }

  /** Reading the `bits` view back out of a byte. */
  function ControlFields(b: U8): (c: ControlBits)
    ensures c.InWidth()
  {
    ControlBits(b % 4, (b / 4) % 2, (b / 8) % 2, (b / 16) % 8, b / 128)
  }

  /** The frame `xpt2046_low_if_exchange` assembles: the union is cleared and every
      field assigned, each assignment keeping only as many low bits as the field holds. */
  function ControlFrame(cfg: Config, addr: Addr, pd: PowerDown, start: StartBit): (c: ControlBits)
    ensures c.InWidth()
  {
    ControlBits(PdCode(pd) % 4, cfg.refMode % 2, cfg.adcResolution % 2, AddrCode(addr) % 8, StartCode(start) % 2)
  }

  /** Every field survives the trip through the byte. */
  lemma {:induction false} ControlFieldsRoundTrip(c: ControlBits)
    requires c.InWidth()
    ensures ControlFields(ControlByte(c)) == c
  {
    var b := ControlByte(c);
    DivUnique(b, 128, c.source, c.addr * 16 + c.mode * 8 + c.serDfr * 4 + c.pd);
    DivUnique(b, 16, c.source * 8 + c.addr, c.mode * 8 + c.serDfr * 4 + c.pd);
    DivUnique(c.source * 8 + c.addr, 8, c.source, c.addr);
    DivUnique(b, 8, c.source * 16 + c.addr * 2 + c.mode, c.serDfr * 4 + c.pd);
    DivUnique(c.source * 16 + c.addr * 2 + c.mode, 2, c.source * 8 + c.addr, c.mode);
    DivUnique(b, 4, c.source * 32 + c.addr * 4 + c.mode * 2 + c.serDfr, c.pd);
    DivUnique(c.source * 32 + c.addr * 4 + c.mode * 2 + c.serDfr, 2, c.source * 16 + c.addr * 2 + c.mode, c.serDfr);
  }

  /** Every byte is the image of the fields read out of it, so the two views of the
      union are in one-to-one correspondence. */
  lemma {:induction false} ControlByteRoundTrip(b: U8)
    ensures ControlByte(ControlFields(b)) == b
  {
    var q4 := b / 4;
    var q8 := q4 / 2;
    var q16 := q8 / 2;
    DivDiv(b, 4, 2);
    DivDiv(b, 8, 2);
    DivDiv(b, 16, 8);
    assert b == q4 * 4 + b % 4;
    assert q4 == q8 * 2 + q4 % 2;
    assert q8 == q16 * 2 + q8 % 2;
    assert q16 == (q16 / 8) * 8 + q16 % 8;
  }

  /** The control byte put on the wire for a conversion: start in bit 7, the
      channel in bits 4-6, the resolution in bit 3, the reference mode in bit 2 and
      the power-down mode in bits 0-1. */
  function ControlFrameByte(cfg: Config, addr: Addr, pd: PowerDown, start: StartBit): (b: U8)
    ensures b == StartCode(start) * 128 + AddrCode(addr) * 16
                 + (cfg.adcResolution % 2) * 8 + (cfg.refMode % 2) * 4 + PdCode(pd)
    ensures ControlFields(b).addr == AddrCode(addr) && ControlFields(b).pd == PdCode(pd)
    ensures ControlFields(b).source == StartCode(start)
  {
    var c := ControlFrame(cfg, addr, pd, start);
    DivUnique(PdCode(pd), 4, 0, PdCode(pd));
    DivUnique(AddrCode(addr), 8, 0, AddrCode(addr));
    DivUnique(StartCode(start), 2, 0, StartCode(start));
    assert c == ControlBits(PdCode(pd), cfg.refMode % 2, cfg.adcResolution % 2, AddrCode(addr), StartCode(start));
    ControlFieldsRoundTrip(c);
    ControlByte(c)
  }

  /** The mode bit sent to the chip agrees with the layout the reply is decoded
      with: 0 (12-bit) exactly in a 12-bit build. The reference bit is the
      configured reference mode. */
  lemma {:induction false} ModeBitMatchesDecoder(cfg: Config, addr: Addr, pd: PowerDown, start: StartBit)
    requires cfg.Valid()
    ensures ControlFields(ControlFrameByte(cfg, addr, pd, start)).mode == 0 <==> cfg.Uses12Bit()
    ensures ControlFields(ControlFrameByte(cfg, addr, pd, start)).serDfr == cfg.refMode
  {
    var c := ControlFrame(cfg, addr, pd, start);
    DivUnique(cfg.adcResolution, 2, 0, cfg.adcResolution);
    DivUnique(cfg.refMode, 2, 0, cfg.refMode);
    assert c.mode == cfg.adcResolution && c.serDfr == cfg.refMode;
    assert ControlFrameByte(cfg, addr, pd, start) == ControlByte(c);
    ControlFieldsRoundTrip(c);
  }

  /** Bytes 1 and 2 of the reply read as one big-endian 16-bit word. */
  function ResultWord(rx: seq<U8>): (w: U16)
    requires |rx| == 3
  {
    (rx[1] as int) * 256 + rx[2]
  }

  /** The `adc_result` field of xpt2046_result_t: three reserved low bits are skipped,
      then 12 bits are taken in 12-bit builds and 8 bits otherwise. */
  function ResultField(cfg: Config, w: U16): (v: U16)
    ensures cfg.Uses12Bit() ==> v < 4096
    ensures !cfg.Uses12Bit() ==> v < 256
  {
    if cfg.Uses12Bit() then (w / 8) % 4096 else (w / 8) % 256
  }

  /** What one call to `xpt2046_low_if_exchange` reports. */
  datatype Exchange = Exchange(status: Status, control: U8, adc: U16)

  /** One conversion: the control byte is sent as byte 0 of a 3-byte transfer and
      `rx` is what the serial port clocked in. The transfer's own outcome is
      not looked at, so the status is always OK. */
  function Exchange3(cfg: Config, addr: Addr, pd: PowerDown, start: StartBit, rx: seq<U8>): (r: Exchange)
    requires |rx| == 3
    ensures r.status == Ok
    ensures r.control == ControlFrameByte(cfg, addr, pd, start)
    ensures cfg.Uses12Bit() ==> r.adc < 4096
    ensures !cfg.Uses12Bit() ==> r.adc < 256
  {
    Exchange(Ok, ControlFrameByte(cfg, addr, pd, start), ResultField(cfg, ResultWord(rx)))
  }

  /** The reply bytes a chip sends for conversion value `v` at the configured
      resolution. The chip left-aligns the result just below the leading bit of
      the 16-bit word, so a 12-bit result occupies bits 3-14 and an 8-bit result
      bits 7-14. Byte 0 is whatever was clocked in while the control byte went out. */
  function ChipReply(cfg: Config, first: U8, v: nat): (rx: seq<U8>)
    requires if cfg.Uses12Bit() then v < 4096 else v < 256
    ensures |rx| == 3
  {
    if cfg.Uses12Bit() then [first, (v * 8) / 256, (v * 8) % 256]
    else [first, (v * 128) / 256, (v * 128) % 256]
  }

  /** Bytes 1-2 of a chip reply form the value shifted up to bit 14. */
  lemma {:induction false} ChipReplyWord(cfg: Config, first: U8, v: nat)
    requires if cfg.Uses12Bit() then v < 4096 else v < 256
    ensures cfg.Uses12Bit() ==> ResultWord(ChipReply(cfg, first, v)) == v * 8
    ensures !cfg.Uses12Bit() ==> ResultWord(ChipReply(cfg, first, v)) == v * 128
  {
    var rx := ChipReply(cfg, first, v);
    if cfg.Uses12Bit() {
      DivUnique(v * 8, 256, rx[1], rx[2]);
    } else {
      DivUnique(v * 128, 256, rx[1], rx[2]);
    }
  }

  /** In a 12-bit build, decoding recovers the value the chip sent, whatever
      channel, mode and start bit were sent and whatever came back in byte 0.
      In an 8-bit build the field sits four bits below where the chip puts the
      value, so the decoder returns the value times 16, modulo 256. */
  lemma {:induction false} ExchangeRoundTrip(cfg: Config, addr: Addr, pd: PowerDown, start: StartBit, first: U8, v: nat)
    requires if cfg.Uses12Bit() then v < 4096 else v < 256
    ensures cfg.Uses12Bit() ==> Exchange3(cfg, addr, pd, start, ChipReply(cfg, first, v)).adc == v
    ensures !cfg.Uses12Bit() ==> Exchange3(cfg, addr, pd, start, ChipReply(cfg, first, v)).adc == (v * 16) % 256
  {
    ChipReplyWord(cfg, first, v);
    if cfg.Uses12Bit() {
      DivUnique(v * 8, 8, v, 0);
      DivUnique(v, 4096, 0, v);
    } else {
      DivUnique(v * 128, 8, v * 16, 0);
    }
  }

  /** The smallest disagreement: an 8-bit chip reporting 1 is decoded as 16. */
  lemma EightBitReplyMisread(cfg: Config, addr: Addr, pd: PowerDown, start: StartBit, first: U8)
    requires !cfg.Uses12Bit()
    ensures Exchange3(cfg, addr, pd, start, ChipReply(cfg, first, 1)).adc == 16
  {
    ExchangeRoundTrip(cfg, addr, pd, start, first, 1);
    DivUnique(16, 256, 0, 16);
  }

  /** The result field placed where the chip puts it: bits 3-14 in a 12-bit
      build, as before, and bits 7-14 in an 8-bit build. */
  function ResultFieldFixed(cfg: Config, w: U16): (v: U16)
    ensures cfg.Uses12Bit() ==> v < 4096 && v == ResultField(cfg, w)
    ensures !cfg.Uses12Bit() ==> v < 256
  {
    if cfg.Uses12Bit() then (w / 8) % 4096 else (w / 128) % 256
  }

  /** The corrected decoder recovers every value at both resolutions. */
  lemma {:induction false} FixedDecodeRoundTrip(cfg: Config, first: U8, v: nat)
    requires if cfg.Uses12Bit() then v < 4096 else v < 256
    ensures ResultFieldFixed(cfg, ResultWord(ChipReply(cfg, first, v))) == v
  {
    ChipReplyWord(cfg, first, v);
    if cfg.Uses12Bit() {
      DivUnique(v * 8, 8, v, 0);
      DivUnique(v, 4096, 0, v);
    } else {
      DivUnique(v * 128, 128, v, 0);
      DivUnique(v, 256, 0, v);
    }
  }

  /** Byte 0 of the reply is clocked in while the control byte goes out and never
      reaches the result. */
  lemma ExchangeIgnoresFirstByte(cfg: Config, addr: Addr, pd: PowerDown, start: StartBit, rx: seq<U8>, rx': seq<U8>)
    requires |rx| == 3 && |rx'| == 3 && rx[1..] == rx'[1..]
    ensures Exchange3(cfg, addr, pd, start, rx) == Exchange3(cfg, addr, pd, start, rx')
  {
    assert rx[1] == rx[1..][0] && rx[2] == rx[1..][1];
    assert rx'[1] == rx'[1..][0] && rx'[2] == rx'[1..][1];
  }

  /** The reserved bits of the word do not influence the result: the three low
      bits always, plus bit 15 in a 12-bit build and bits 11-15 in an 8-bit
      build. Only bits 3-14 (or 3-10) do. */
  lemma {:induction false} ResultIgnoresReservedBits(cfg: Config, v: nat, low: nat, top: nat)
    requires low < 8
    requires if cfg.Uses12Bit() then v < 4096 && top < 2 else v < 256 && top < 32
    ensures cfg.Uses12Bit() ==>
              top * 32768 + v * 8 + low < 0x1_0000 && ResultField(cfg, top * 32768 + v * 8 + low) == v
    ensures !cfg.Uses12Bit() ==>
              top * 2048 + v * 8 + low < 0x1_0000 && ResultField(cfg, top * 2048 + v * 8 + low) == v
  {
    if cfg.Uses12Bit() {
      var w := top * 32768 + v * 8 + low;
      DivUnique(w, 8, top * 4096 + v, low);
      DivUnique(top * 4096 + v, 4096, top, v);
    } else {
      var w := top * 2048 + v * 8 + low;
      DivUnique(w, 8, top * 256 + v, low);
      DivUnique(top * 256 + v, 256, top, v);
    }
  }
}
