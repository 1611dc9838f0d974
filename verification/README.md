# XPT2046 resistive touch driver — Dafny model

This project models the core of a bare-metal driver for the XPT2046
resistive touch-screen controller. The driver has two layers.

The low-level layer (`xpt2046_low_if.c`):

- assembles the one-byte control frame (start bit, channel address, resolution,
  reference mode, power-down mode) through a bit-field union;
- clocks a 3-byte exchange over SPI;
- extracts the 8- or 12-bit conversion result from bytes 1-2 of the reply.

The driver layer (`xpt2046.c`):

- reads X, Y, Z1 and Z2 while the touch line is asserted, and holds the last
  sample while it is not;
- smooths the sample with a moving-average filter that restarts on every new
  touch;
- maps it through seven int32 affine calibration factors with C's truncating
  division, clamps it to the display, and stores it as the current touch;
- runs a calibration state machine that shows three markers, records the raw
  touch for each, and computes the factors.

Modules, one per concern:

| module | file | models |
|---|---|---|
| `Common` | common.dfy | fixed-width integers, int32 wrap-around, status codes, samples |
| `Configuration` | config.dfy | the compile-time settings as a value (`Config`) |
| `Protocol` | protocol.dfy | control frame, result word, one exchange |
| `Acquire` | acquire.dfy | one read of X, Y and pressure with hold-over |
| `Smoothing` | smoothing.dfy | the moving-average filter, as written and corrected |
| `Calibration` | calibration.dfy | the factors, truncating division, clamping, the calibrated sample |
| `CalFsm` | fsm.dfy | the state manager, the five states, and whole calibration runs |
| `Driver` | driver.dfy | init, the 10 ms handler, start/set/get of calibration, the invariant |

All settings header values are fields of `Configuration.Config`, so every
property holds for every admissible configuration:

- resolution, reference mode and filter switch;
- window length, display limits and the three marker positions.

Outside inputs are parameters:

- the touch interrupt line, the bytes the SPI port clocks in, and the
  millisecond tick are arguments of the handler;
- the floating-point pressure formula is a function parameter (`ForceFormula`);
- display drawing is returned as a list of `DisplayEvent`s.

Integer widths are written out:

- `Wrap32` models int32 casts and wrapping int32 sums;
- `% 0x1_0000` models uint16 stores, and `Elapsed` models the uint32 tick
  difference;
- `TruncDiv` is C's division rounding toward zero. Dafny's own `/` does not
  round that way.

Two behaviours of the source are modelled explicitly rather than hidden:

- **Division by zero.** After a calibration whose three touches are collinear,
  f0 is 0, and `xpt2046_calibrate_data` then divides by zero. The handler returns
  `DivisionByZero` in exactly that case (`Driver.Hndl`). Three touches on one
  line, identical touches included, give f0 = 0
  (`Driver.CollinearTouchesDivideByZero`), and a run of the calibration machine
  whose three release samples lie on one line ends done with f0 = 0
  (`Driver.CollinearCalibrationDividesByZero`), so the case is reachable.
- **Wrapped factors.** `Calibration.CalculateFactors` yields the exact factors
  reduced modulo 2^32. So calibration maps touches to markers when the
  exact factors fit in int32 (`Calibration.CalibrateReferencePoint`).

Intermediates that the source computes in int64 are modelled as unbounded
integers. `Calibration.NumeratorFitsInt64` shows the calibration numerator cannot
overflow int64.

## Model

| member | source | states |
|---|---|---|
| `Protocol.AddrCode` | src/xpt2046_low_if.h:31-43 | every channel code fits the 3-bit address field |
| `Protocol.PdCode` | src/xpt2046_low_if.h:46-52 | every power-down code fits the 2-bit field |
| `Protocol.StartCode` | src/xpt2046_low_if.h:62-66 | the start bit code fits the 1-bit field |
| `Protocol.ControlByte` | src/xpt2046_low_if.c:37-48 | the `U` view of the control union: source at bit 7, channel at bits 4-6, resolution at bit 3, reference at bit 2, power-down at bits 0-1; `ControlFieldsRoundTrip` and `ControlByteRoundTrip` show the packing is one-to-one |
| `Protocol.ControlFields` | src/xpt2046_low_if.c:37-48 | reading any byte through the `bits` view yields fields within their widths |
| `Protocol.ControlFieldsRoundTrip` | src/xpt2046_low_if.c:37-48 | fields written through the union read back unchanged |
| `Protocol.ControlByteRoundTrip` | src/xpt2046_low_if.c:37-48 | every byte is the image of its own fields, so the two views of the union correspond one-to-one |
| `Protocol.ControlFrame` | src/xpt2046_low_if.c:274-280 | each assigned field is truncated to its width |
| `Protocol.ControlFrameByte` | src/xpt2046_low_if.c:274-283 | the frame byte is start·128 + channel·16 + resolution·8 + reference·4 + power-down, and channel, power-down and start read back from it |
| `Protocol.ModeBitMatchesDecoder` | src/xpt2046_low_if.c:274-283 | for a valid configuration the mode bit sent is 0 exactly in a 12-bit build, matching the decoded layout, and the reference bit is the configured mode |
| `Protocol.ResultWord` | src/xpt2046_low_if.c:290 | reply bytes 1 and 2 form a big-endian 16-bit word; `ExchangeIgnoresFirstByte` shows byte 0 plays no part |
| `Protocol.ResultField` | src/xpt2046_low_if.c:51-65 | the result is below 4096 in a 12-bit build and below 256 otherwise |
| `Protocol.Exchange3` | src/xpt2046_low_if.c:265-299 | the status is always OK, the frame byte is the one sent, and the result fits the resolution |
| `Protocol.ExchangeRoundTrip` | src/xpt2046_low_if.c:288-296 | a chip reply carries its value left-aligned at bit 14; in a 12-bit build decoding it returns that value, whatever the channel, mode and byte 0; in an 8-bit build it returns the value times 16, modulo 256 |
| `Protocol.EightBitReplyMisread` | src/xpt2046_low_if.c:59-62 | as written, an 8-bit chip reply of 1 decodes to 16 |
| `Protocol.ResultFieldFixed` | src/xpt2046_low_if.c:51-65 | corrected field: bits 7-14 in an 8-bit build; in a 12-bit build it agrees with the field as written |
| `Protocol.FixedDecodeRoundTrip` | src/xpt2046_low_if.c:51-65 | with the corrected field, decoding a chip reply returns its value at both resolutions |
| `Protocol.ExchangeIgnoresFirstByte` | src/xpt2046_low_if.c:290 | replies that differ only in byte 0 give the same exchange |
| `Protocol.ResultIgnoresReservedBits` | src/xpt2046_low_if.c:51-65 | the reserved bits never affect the result: bits 0-2 always, bit 15 in a 12-bit build, bits 11-15 in an 8-bit build |
| `Acquire.Read` | src/xpt2046.c:329-370 | pressed: X, Y and pressure come from the X+, Y+, Z1 and Z2 (Y-) conversions, are stored, and four frames go out in that order; released: nothing is sent and the stored triple comes back with pressed false |
| `Acquire.HoldOverPersists` | src/xpt2046.c:361-369 | after any number of released ticks the stored triple is unchanged and is what a released read returns |
| `Smoothing.PowerOn` | src/xpt2046.c:385-387 | the zero statics form a valid filter state |
| `Smoothing.Mean` | src/xpt2046.c:426-436 | the window sum divided by the window length, truncated to uint16; its properties are `Smoothing.MeanSpec` |
| `Smoothing.MeanSpec` | src/xpt2046.c:421-436 | the output is the floor of the window mean: m·N ≤ sum < (m+1)·N, and it lies between the window's minimum and maximum, so the uint16 cast loses nothing |
| `Smoothing.Store` | src/xpt2046.c:407-409 | only the addressed slot changes, and a store past the window changes nothing |
| `Smoothing.NextCount` | src/xpt2046.c:411-419 | the counter advances by one and restarts at 0 exactly when it had reached top |
| `Smoothing.NextCountMod` | src/xpt2046.c:411-419 | that is counting modulo top + 1 |
| `Smoothing.StepWith` | src/xpt2046.c:383-437 | the slot the counter points at receives the sample, and on a rising edge every slot does; no other slot changes; each output channel is the mean of its updated window; the edge flag follows the sample |
| `Smoothing.Step` | src/xpt2046.c:383-437 | as written, the counter runs 0..N; the call that finds it at N leaves the windows unchanged unless a touch begins; a new touch passes straight through |
| `Smoothing.RisingEdgeRestarts` | src/xpt2046.c:391-401 | on a released-to-pressed edge the output equals the new sample |
| `Smoothing.PosMod` | src/xpt2046.c:411-419 | the counter position after k calls, written without a modulus, is (start + k) mod (top + 1) |
| `Smoothing.FeedCount` | src/xpt2046.c:411-419 | after j ≤ top + 1 calls the counter has moved j places along its walk |
| `Smoothing.FillStep` | src/xpt2046.c:406-419 | one more call with the sample fills the slot the counter stands at and keeps every slot filled before |
| `Smoothing.FeedFills` | src/xpt2046.c:406-419 | after j calls with one sample, every slot the counter has visited holds it |
| `Smoothing.AllFilled` | src/xpt2046.c:406-419 | top + 1 calls with one sample visit, and so fill, every slot of the window |
| `Smoothing.FullWindowsAverage` | src/xpt2046.c:421-436 | windows holding one sample in every slot average to that sample |
| `Smoothing.ConstantFeedConverges` | src/xpt2046.c:383-437 | top + 1 calls with one sample make the output that sample, whatever the history |
| `Smoothing.StepConvergesAfterNPlusOne` | src/xpt2046.c:383-437 | as written, N + 1 calls with a constant sample flush the window |
| `Smoothing.StepLagsWithOneSlot` | src/xpt2046.c:407-419 | with N = 1, samples 5 then 9 give output 5 then 5 |
| `Smoothing.StepFixed` | src/xpt2046.c:411-419 | corrected counter: every call writes inside the window; N = 1 and new touches pass through |
| `Smoothing.SingleSlotPassesThrough` | src/xpt2046.c:407-419 | corrected, a one-slot window returns the current sample |
| `Smoothing.StepFixedConvergesAfterN` | src/xpt2046.c:383-437 | corrected, N calls with a constant sample flush the window |
| `Calibration.ExactFactors` | src/xpt2046.c:786-812 | the seven factors computed without int32 truncation; `ExactFactorsSolve` states what they solve |
| `Calibration.ExactFactorsSolve` | src/xpt2046.c:786-812 | the exact factors satisfy f1·Tx + f2·Ty + f3 = f0·Dx and f4·Tx + f5·Ty + f6 = f0·Dy at each of the three pairs |
| `Calibration.AxisSolves` | src/xpt2046.c:789-800 | for one display axis, Cramer's rule solves the 3-point system |
| `Calibration.CastDiff` | src/xpt2046.c:789-790 | the difference of two int32 casts stored in an int32 is the exact difference modulo 2^32 |
| `Calibration.OffsetTerm` | src/xpt2046.c:798 | one int32-cast term of factor 3 or 6 agrees with its exact value modulo 2^32 |
| `Calibration.Sum3` | src/xpt2046.c:798-800 | summing three int32 terms with wrap-around is the wrapped exact sum |
| `Calibration.CastOffset` | src/xpt2046.c:798-800 | factor 3 or 6 as computed is its exact value wrapped to int32 |
| `Calibration.CalculateFactors` | src/xpt2046.c:786-812 | the stored factors are the exact factors reduced to int32, and equal them whenever they fit |
| `Calibration.TruncDiv` | src/xpt2046.c:834-835 | C's integer division, rounding toward zero; its properties are `Calibration.TruncDivSpec` |
| `Calibration.TruncDivSpec` | src/xpt2046.c:834-835 | C division: the remainder is smaller than the divisor, takes the dividend's sign, and the quotient never overshoots |
| `Calibration.TruncDivExact` | src/xpt2046.c:834-835 | an exact quotient comes out exactly, for any signs |
| `Calibration.Limit` | src/xpt2046.c:854-900 | the result lies in [0, max]: negative values give 0, values past the edge give the edge, others pass unchanged |
| `Calibration.NumeratorFitsInt64` | src/xpt2046.c:830-835 | with int32 factors and 16-bit samples the int64 numerator cannot overflow |
| `Calibration.CalibrateAxis` | src/xpt2046.c:834-843 | a calibrated coordinate never exceeds the display limit |
| `Calibration.AxisClamps` | src/xpt2046.c:838-843 | for a quotient that fits int32, the coordinate is that quotient clamped to [0, max] |
| `Calibration.CalibrateData` | src/xpt2046.c:824-844 | both calibrated coordinates lie on the display |
| `Calibration.CalibrateExact` | src/xpt2046.c:824-844 | a sample that the factors map exactly onto an on-screen point yields that point |
| `Calibration.CalibrateReferencePoint` | src/xpt2046.c:786-844 | if the exact factors fit int32 and f0 is non-zero, each recorded touch calibrates to its marker |
| `CalFsm.Elapsed` | src/xpt2046.c:538 | the uint32 tick difference is the forward distance, also across a wrap of the counter |
| `CalFsm.Manager` | src/xpt2046.c:525-544 | the requested state becomes current; a change resets the time and flags the entry; the time never exceeds 1,000,000 ms; the tick is recorded |
| `CalFsm.ManagerAccumulates` | src/xpt2046.c:536-541 | without a state change the time is the saturating sum of elapsed times, for gaps below the uint32 overflow |
| `CalFsm.ManagerSaturates` | src/xpt2046.c:40-41 | a time at the limit stays there |
| `CalFsm.ManagerWrapsOnHugeGap` | src/xpt2046.c:538-539 | a gap of 2^32 − 1 ms wraps the uint32 sum below the limit |
| `CalFsm.NormalState` | src/xpt2046.c:553-562 | a pending start is consumed, calibration becomes busy and P1 is requested; without one nothing changes |
| `CalFsm.AcquireState` | src/xpt2046.c:571-709 | on entry the marker is drawn (P1 blanks the screen first) and the latch cleared; a press sets the latch; once latched each tick records the touch, and a release requests the next state and clears the marker; other points are untouched |
| `CalFsm.CalcFactorsState` | src/xpt2046.c:718-734 | the factors are computed from markers and recorded touches; done is set, busy cleared, NORMAL requested |
| `CalFsm.CalHndl` | src/xpt2046.c:483-516 | the requested state becomes current and runs; the machine only stays or moves one step along the cycle |
| `CalFsm.CalHndlKeepsFlags` | src/xpt2046.c:553-734 | busy holds exactly while a state other than NORMAL is requested, and a pending start only while idle |
| `CalFsm.CalHndlFrame` | src/xpt2046.c:483-734 | factors and done change only in the computation state, a recorded point only in its own acquisition state |
| `CalFsm.AcquireAdvancesIff` | src/xpt2046.c:571-613 | an acquisition state advances exactly when it is latched and the touch is released |
| `CalFsm.AcquirePressRelease` | src/xpt2046.c:571-709 | entry, press and release ticks draw the marker, record the release sample, clear the marker and request the next state |
| `CalFsm.Run` | src/xpt2046.c:483-516 | the calibration machine over a sequence of ticks, one `CalHndl` per tick; the context stays valid |
| `CalFsm.RunAppend` | src/xpt2046.c:483-516 | running two tick sequences in turn is running their concatenation |
| `CalFsm.RunPressRelease` | src/xpt2046.c:571-709 | the same over a run of three ticks, with the other points and the flags unchanged |
| `CalFsm.RunStart` | src/xpt2046.c:553-562 | an idle tick with a pending start requests P1 and marks calibration busy |
| `CalFsm.RunCalc` | src/xpt2046.c:718-734 | the tick after the third release stores the factors, marks done, and requests NORMAL |
| `CalFsm.RunThreePoints` | src/xpt2046.c:571-709 | three press-release pairs from a requested P1 record the three release samples in order and request the factor calculation |
| `CalFsm.CalibrationCompletes` | src/xpt2046.c:553-734 | a start, three press-release pairs and one more tick leave the driver calibrated and idle, with the factors of the three release samples |
| `Driver.Boot` | src/xpt2046.c:133-146 | at power-on the driver is uninitialised and calibration is neither started, busy nor done |
| `Driver.BootInv` | src/xpt2046.c:133-146 | the power-on statics satisfy the invariant |
| `Driver.Init` | src/xpt2046.c:201-222 | init returns the interface status, marks the driver initialised, and resets the machine to NORMAL with zero time; touch and calibration data are kept |
| `Driver.InitInv` | src/xpt2046.c:201-222 | init keeps the invariant from any uninitialised state with no calibration running, including one where factors were installed first |
| `Driver.BootInitInv` | src/xpt2046.c:201-222 | init after power-on establishes the invariant |
| `Driver.Filtered` | src/xpt2046.c:296-299 | the filter keeps its state valid and the pressed flag, and is skipped when disabled |
| `Driver.Hndl` | src/xpt2046.c:285-316 | a tick fails exactly when calibration is done with f0 = 0; otherwise it keeps the invariant, stores pressed = touch line, updates the held sample, and keeps calibrated coordinates on the display |
| `Driver.HndlPassesRawSample` | src/xpt2046.c:285-316 | with filter and calibration off, a pressed tick stores the converted X and Y and the pressure computed from X, Z1 and Z2 |
| `Driver.HndlRestartsFilterOnTouch` | src/xpt2046.c:285-316 | before calibration is done, the first pressed tick after a release stores the sample just read, whether or not the filter is enabled |
| `Driver.StartCalibration` | src/xpt2046.c:446-471 | Error before init, CalInProgress while busy, otherwise OK with start set and done cleared; nothing else changes: init flag, touch, held sample, filter, machine, busy flag, points, factors and press latch are kept |
| `Driver.StartCalibrationInv` | src/xpt2046.c:446-471 | starting keeps the invariant |
| `Driver.IsCalibrated` | src/xpt2046.c:909-912 | reports the done flag; `StartCalibration` clears it and `SetCalFactors` sets it |
| `Driver.SetCalFactors` | src/xpt2046.c:922-929 | the given factors are installed and calibration is done; nothing else changes: init flag, touch, held sample, filter, machine, start and busy flags, points and press latch are kept |
| `Driver.SetCalFactorsInv` | src/xpt2046.c:922-929 | installing factors keeps the invariant |
| `Driver.SetCalFactorsApplies` | src/xpt2046.c:296-306 | after installing factors, the next pressed tick stores the filtered sample mapped through them; without the filter, the converted X and Y mapped through them |
| `Driver.StartThenTickRequestsP1` | src/xpt2046.c:553-562 | an accepted start is consumed by the next tick, which requests P1 with calibration busy and not done |
| `Driver.CollinearTouchesDivideByZero` | src/xpt2046.c:789-790 | any three touches on one line, identical touches included, give f0 = 0 |
| `Driver.CollinearCalibrationDividesByZero` | src/xpt2046.c:553-734 | a full calibration run whose three release samples lie on one line ends done with f0 = 0, the case in which the next tick divides by zero |
| `Driver.GetCalFactorsAsWritten` | src/xpt2046.c:939-942 | as written, the caller's buffer comes back as it was |
| `Driver.GetCalFactorsLosesFactors` | src/xpt2046.c:939-942 | as written, reading installed factors back returns the caller's old buffer |
| `Driver.GetCalFactors` | src/xpt2046.c:939-942 | the intended getter: the factors in use |
| `Driver.SetGetRoundTrip` | src/xpt2046.c:922-942 | with the intended getter, installed factors read back unchanged |

## Left out

- SPI transfer, GPIO, the touch interrupt line, and `xpt2046_if_init`. These are
  hardware access, so their results are inputs (`lineOn`, `rx`, `ifStatus`).
  The bytes sent in positions 1-2 of the exchange are uninitialised in the
  source and are not modelled.
- The pressure formula is float arithmetic, so it is the parameter `forceOf`.
  Its result depends only on X, Z1 and Z2.
- Display calls (`ili9488_set_background`, `ili9488_draw_circle`) and the
  circle attributes become `DisplayEvent`s; pixels are not modelled.
- `xpt2046_is_init` and `xpt2046_get_touch` are accessors of `Driver.isInit`
  and `Driver.touch`. The NULL checks of `xpt2046_get_touch` are argument
  plumbing.
- Debug printing and `XPT2046_ASSERT`. The init-once and initialised asserts
  become `requires` clauses.
- The `default` arm of the calibration dispatch is unreachable, because the
  state type has exactly five values.
- The manager reads `HAL_GetTick()` twice (lines 538 and 543). The model uses a
  single `now` per tick, so a tick between the two reads is not modelled.
- The `int64_t` intermediates of the factor computation and of calibration are
  unbounded integers. For the calibration numerator this is shown safe
  (`Calibration.NumeratorFitsInt64`). For the factor products it holds for
  16-bit touches and display points.
- Signed int32 overflow is undefined in C. The model takes the two's-complement
  wrap that the target compiler produces.
- Calibration.CalibrateReferencePoint: the property is stated only when the
  exact factors fit in int32. Outside that range the factors wrap
  (`Calibration.CalculateFactors`) and nothing is promised.

## Findings

| source | as written | input that shows it | evidently intended | confidence | as-written member | corrected member |
|---|---|---|---|---|---|---|
| src/xpt2046.c:411-419 | `samp_cnt` counts 0..N, so every (N+1)-th sample is written one slot past the window and dropped | N = 1, samples x = 5 then x = 9: outputs 5 then 5 | wrap after N − 1 so every sample enters the window | medium, not executed | `Smoothing.StepLagsWithOneSlot` | `Smoothing.StepFixedConvergesAfterN` |
| src/xpt2046_low_if.c:59-62 | in an 8-bit build the result field is bits 3-10 of the reply word, while the chip places an 8-bit result at bits 7-14, like the top 8 bits of a 12-bit result | an 8-bit conversion of 1: reply bytes 0x00, 0x80, decoded as 16 | take bits 7-14 in an 8-bit build: seven reserved bits below the field and one above, as in the 12-bit layout | medium, not executed | `Protocol.EightBitReplyMisread` | `Protocol.FixedDecodeRoundTrip` |
| src/xpt2046.c:939-942 | `xpt2046_get_cal_factors` assigns to its own address parameter, so the caller receives nothing | install factors (1, …, 7), then read them back into a zeroed buffer: the buffer stays zero | copy the seven factors into the caller's buffer | high, not executed | `Driver.GetCalFactorsLosesFactors` | `Driver.SetGetRoundTrip` |

The handler (`Driver.Hndl`) uses the filter and the result field as written
(`Smoothing.Step`, `Protocol.ResultField`). The corrected `Smoothing.StepFixed`,
`Protocol.ResultFieldFixed` and the intended `Driver.GetCalFactors` are stated
next to the as-written definitions. The 8-bit finding rests on the chip's
reply format: the converter shifts its result out most significant bit first
right after the busy cycle, so an 8-bit result ends at bit 7 of the word.
