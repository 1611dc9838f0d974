/** The compile-time configuration of the driver (the settings header), as a value
    so that every property below holds for every admissible configuration. */
module Configuration {
  import opened Common

  datatype Config = Config(
    adcResolution: nat,   // XPT2046_ADC_RESOLUTION: 0 selects 12-bit results, 1 selects 8-bit
    refMode: nat,         // XPT2046_REF_MODE: differential or single-ended, the 1-bit SER/DFR field
    filterEnabled: bool,  // XPT2046_FILTER_EN
    filterWin: nat,       // XPT2046_FILTER_WIN_SAMP, the moving-average window N
    displayMaxX: int,     // XPT2046_DISPLAY_MAX_X
    displayMaxY: int,     // XPT2046_DISPLAY_MAX_Y
    dp: seq<Point>)       // XPT2046_POINT_1_XY .. XPT2046_POINT_3_XY, the calibration targets
  {
    /** Resolution and reference mode each take one of their two settings; the
        filter counter is a uint8 that reaches N, so N fits in a byte; a window
        needs at least one slot; the limits are non-negative and survive the final
        uint16 cast; there are exactly three targets. */
    predicate Valid() {
      && adcResolution < 2 && refMode < 2
      && 1 <= filterWin < 0x100
      && 0 <= displayMaxX < 0x1_0000
      && 0 <= displayMaxY < 0x1_0000
      && |dp| == 3
    }

    predicate Uses12Bit() {
      adcResolution == 0
    }
  }
}
