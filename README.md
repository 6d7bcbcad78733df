# HMC5983 magnetometer driver — verified model

This project models the core of the HMC5983 driver in `RPi/HMC5983/src/HMC5983.c`:
the three register setters with their bounded busy retry, the gain-code
divisor table that turns a raw sample into Gauss, the assembly of a raw axis
sample from its two data bytes, the calibrated axis readings, the temperature
transfer function, and the hard-iron / soft-iron calibration run together
with the two calibration setters.

The I²C transport is not modelled. Every transport result is an input instead:

- A register write is answered by the next element of a stream of `int` replies. Non-zero means failure.
- A register read is answered by a `Reply`: either `Data(b)` or `Failed`, the driver's `-1` sentinel.

Floats are Dafny `real`s. The NaN that the driver returns for "no data" is
`Option.None`. The `±INFINITY` values that start the calibration extrema are the
`Bound` datatype.

Modules, in dependency order:

- `Wrappers`: the `Option` type.
- `Registers`: the `byte` and `Reply` types and the retry loop (`WriteWithRetry`), used by `SetCra`, `SetMode` and `SetCrb`.
- `Conversion`:
  - the gain table (`GainDivisor`, `ToGauss`);
  - byte assembly (`Word`);
  - the raw axis read (`RawAxis`);
  - the temperature (`TempCount`, `Temperature`).
- `Calibration`: what a calibration run computes, written as functions:
  - the accepted-sample stream (`Accepted`);
  - the per-axis low/high tracking (`Track`, `AxisExtrema`);
  - the offset/scale derivation (`Derive`).
- `Driver`:
  - the session class `Hmc5983`, whose `offset` and `scale` fields stand in for the static `mag_offset`/`mag_scale`;
  - the sampling loop over the `low_val`/`high_val` arrays (`SampleRun`, `TrackSample`);
  - `Hmc5983.Calibrate`, proved against `Calibration.RunCorrection`.

Three behaviours of the code that the model keeps as written:

- Retries. The loop at `HMC5983.c:75` tests the transport call before the counter. So once 10 calls have failed it makes an 11th call, and lines 79-82 then report failure whatever that call returned. The same holds at lines 134-141 and 171-178.
- Sign. Line 200 ORs two `unsigned char`s into a `float`. So a raw sample lies in 0..65535 and is never sign-extended.
- Where `high` comes from. The update at lines 352-368 is an `if / else if`, so a sample that is a new minimum never reaches `high`. So `high` is the largest sample that was *not* a new minimum, not the largest sample overall. It stays `-INFINITY` when every sample is a new minimum. `HighIsMaximumOfOthers` states this exactly, and `HighMissesLeadingMaximum` gives an instance: after the samples 2, 0, 1 the high is 1, not 2.

## Model

| member | source | states |
|---|---|---|
| `Registers.Attempts` | RPi/HMC5983/src/HMC5983.c:73-78 | a register write makes between 1 and 11 transport calls |
| `Registers.AttemptsStopAtFirstSuccess` | RPi/HMC5983/src/HMC5983.c:74-78 | every call before the last one failed; if there were at most 10 calls, the last one succeeded |
| `Registers.SucceedsIffFewAttempts` | RPi/HMC5983/src/HMC5983.c:75-83 | one of the first 10 calls succeeds exactly when the loop stops within 10 calls |
| `Registers.EleventhCallIgnored` | RPi/HMC5983/src/HMC5983.c:75-82 | if the first 10 calls fail, an 11th call is made and the write is reported as failed whatever that call returns |
| `Registers.NineFailuresThenSuccess` | RPi/HMC5983/src/HMC5983.c:73-84 | if 9 calls fail and the 10th succeeds, there are 10 calls and the write succeeds |
| `Registers.WriteSucceeds` | RPi/HMC5983/src/HMC5983.c:75-83 | the success condition: some reply among the first 10 transport calls is 0 (no failure); `SucceedsIffFewAttempts` ties it to the call count |
| `Registers.WriteWithRetry` | RPi/HMC5983/src/HMC5983.c:73-84 | returns 0 or 1; returns 0 iff one of the first 10 transport calls succeeded; issues exactly `Attempts` calls, each writing the given value to the given register |
| `Registers.SetCra` | RPi/HMC5983/src/HMC5983.c:73-84 | configuration register A is written with retry: returns 0 iff a write succeeded within 10 calls, and 1 otherwise |
| `Registers.SetMode` | RPi/HMC5983/src/HMC5983.c:132-143 | the same retry contract for the mode register |
| `Registers.SetCrb` | RPi/HMC5983/src/HMC5983.c:169-180 | the same retry contract for configuration register B (gain) |
| `Conversion.GainDivisor` | RPi/HMC5983/src/HMC5983.c:34-49 | the if/else chain yields a divisor between 230 and 1370, and 230 for every byte that is not a multiple of 0x20 |
| `Conversion.GainDivisorMatchesTable` | RPi/HMC5983/src/HMC5983.c:13-49 | codes 0x00–0xE0 select 1370, 1090, 820, 660, 440, 390, 330, 230 in that order; any byte not in the list divides by 230; a byte is in the list iff it is a multiple of 0x20 |
| `Conversion.GainDivisorDecreasing` | RPi/HMC5983/src/HMC5983.c:13-21 | a wider field range means a strictly smaller counts-per-Gauss divisor |
| `Conversion.GainDivisorInTable` | RPi/HMC5983/src/HMC5983.c:31-51 | the divisor is always one of the eight table entries and at least 230, so the conversion never divides by zero |
| `Conversion.ToGauss` | RPi/HMC5983/src/HMC5983.c:31-51 | the field value times the gain's divisor gives back the raw sample |
| `Conversion.Word` | RPi/HMC5983/src/HMC5983.c:200 | `hi << 8` or-ed with `lo` lies in 0..65535 and its high and low bytes are `hi` and `lo` |
| `Conversion.WordInjective` | RPi/HMC5983/src/HMC5983.c:196-200 | two byte pairs give the same word iff they are equal |
| `Conversion.RawAxis` | RPi/HMC5983/src/HMC5983.c:189-205 | no data iff either byte read failed; without gain the value is exactly `hi*256 + lo`, in 0..65535; with gain, the value times the divisor is that word |
| `Conversion.RawAxisGainedRange` | RPi/HMC5983/src/HMC5983.c:200-203 | a gained reading lies in [0, 65535/230] Gauss |
| `Conversion.TempCount` | RPi/HMC5983/src/HMC5983.c:315 | `msb << 8` or-ed with `lsb`, shifted right by 4, is the 12-bit count `msb*16 + lsb/16`, below 4096, and it is the word rounded down to a multiple of 16 |
| `Conversion.Temperature` | RPi/HMC5983/src/HMC5983.c:306-317 | the temperature lies in [25, 25 + 4095/8] °C and is 25 plus the 12-bit count over 8 |
| `Conversion.TemperatureResolution` | RPi/HMC5983/src/HMC5983.c:315 | two byte pairs read the same temperature iff they differ only in the low nibble of the LSB |
| `Conversion.TemperatureExample` | RPi/HMC5983/src/HMC5983.c:315 | bytes 0x19, 0x00 read as 75.0 °C |
| `Calibration.AxisExtrema` | RPi/HMC5983/src/HMC5983.c:328-368 | the (low, high) pair after tracking one axis' samples in order, starting from (+INFINITY, -INFINITY); low is never -INFINITY and is finite once there is a sample, and high is never +INFINITY |
| `Calibration.Track` | RPi/HMC5983/src/HMC5983.c:352-356 | one sample changes at most one of low and high; low changes only when `low > x`; high changes only when that test fails and `high <= x` |
| `Calibration.LowIsMinimum` | RPi/HMC5983/src/HMC5983.c:328-368 | with no samples low is +INFINITY; otherwise low is finite, is one of the samples, and is at most every sample |
| `Calibration.NewLowIffNewMinimum` | RPi/HMC5983/src/HMC5983.c:352-353 | the `low > x` test succeeds exactly when the sample is below every earlier sample |
| `Calibration.HighIsMaximumOfOthers` | RPi/HMC5983/src/HMC5983.c:329-368 | high is never +INFINITY; it is -INFINITY iff every sample was a new minimum; otherwise it is the largest sample that was not a new minimum |
| `Calibration.HighBetweenLowAndMaximum` | RPi/HMC5983/src/HMC5983.c:352-356 | once high is set, low ≤ high ≤ some sample |
| `Calibration.HighMissesLeadingMaximum` | RPi/HMC5983/src/HMC5983.c:352-356 | after the samples 2, 0, 1 the low is 0 and the high is 1 |
| `Calibration.Reading` | RPi/HMC5983/src/HMC5983.c:189-205 | one gained raw axis read, as the sampling loop calls it; no data iff either of its byte reads failed |
| `Calibration.Sample` | RPi/HMC5983/src/HMC5983.c:339-350 | the triple read in one iteration; no triple iff any of its six byte reads failed |
| `Calibration.Accepted` | RPi/HMC5983/src/HMC5983.c:336-373 | the triples the loop keeps, in order; no more are kept than were read |
| `Calibration.AcceptedTaken` | RPi/HMC5983/src/HMC5983.c:339-350 | a triple whose three reads have data is appended to the kept triples |
| `Calibration.AcceptedSkipped` | RPi/HMC5983/src/HMC5983.c:348-350 | a triple with a read that has no data leaves the kept triples unchanged |
| `Calibration.FailedTripleDiscarded` | RPi/HMC5983/src/HMC5983.c:348-350 | a triple with a failed axis read leaves the accepted samples unchanged |
| `Calibration.AcceptedStep` | RPi/HMC5983/src/HMC5983.c:339-350 | reading one more triple adds it to the accepted samples iff all three axis reads have data |
| `Calibration.AcceptedPrefix` | RPi/HMC5983/src/HMC5983.c:336-373 | the triples accepted from a prefix of the stream are a prefix of those accepted from the whole stream |
| `Calibration.Correct` | RPi/HMC5983/src/HMC5983.c:215 | the calibrated value `(field - offset) * scale`; with the default offset 0 and scale 1 it is the field itself |
| `Calibration.Derive` | RPi/HMC5983/src/HMC5983.c:375-385 | the offset and scale derived from per-axis lows and highs that differ; on every axis the midpoint of low and high corrects to 0 |
| `Calibration.RunCorrection` | RPi/HMC5983/src/HMC5983.c:375-385 | the correction from the first 1000 accepted triples of a stream; on every axis the recorded high corrects to the negation of the corrected low |
| `Calibration.OffsetIsMidpoint` | RPi/HMC5983/src/HMC5983.c:375-380 | on each axis, the offset is half a range above low and half a range below high |
| `Calibration.ScaleEqualizesHalfRanges` | RPi/HMC5983/src/HMC5983.c:380-385 | each axis' scale times its half range equals the mean of the three half ranges |
| `Calibration.CorrectedRangeIsSymmetric` | RPi/HMC5983/src/HMC5983.c:375-385 | after correction, each axis' high reads as +mean half range and its low as −mean half range |
| `Calibration.EqualRangesGiveUnitScale` | RPi/HMC5983/src/HMC5983.c:380-385 | if all three half ranges are equal, every scale is 1 |
| `Calibration.DeriveExample` | RPi/HMC5983/src/HMC5983.c:375-385 | low (−1, −2, −3) and high (1, 2, 3) give offset (0, 0, 0) and scale (2, 1, 2/3) |
| `Driver.Hmc5983.constructor` | RPi/HMC5983/src/HMC5983.c:10-11 | a new session starts with offset (0, 0, 0) and scale (1, 1, 1) |
| `Driver.Hmc5983.Magnetic` | RPi/HMC5983/src/HMC5983.c:211-290 | the calibrated reading of an axis has no data iff either byte read failed; otherwise it is the gained reading minus that axis' offset, times that axis' scale |
| `Driver.Hmc5983.SetCalibrationOffset` | RPi/HMC5983/src/HMC5983.c:441-446 | replaces the offset triple and leaves the scale unchanged |
| `Driver.Hmc5983.SetCalibrationScale` | RPi/HMC5983/src/HMC5983.c:448-453 | replaces the scale triple and leaves the offset unchanged |
| `Driver.SampleRun` | RPi/HMC5983/src/HMC5983.c:328-373 | the loop stops on the triple that is exactly the 1000th accepted one, so at least 1000 triples were read; the low/high arrays then hold the tracking of those 1000 accepted triples |
| `Driver.TrackSample` | RPi/HMC5983/src/HMC5983.c:352-368 | each array slot is updated by `Track` with its own axis' value |
| `Driver.Hmc5983.Calibrate` | RPi/HMC5983/src/HMC5983.c:324-386 | reads triples until exactly 1000 have been accepted, then sets offset and scale to the correction derived from the lows and highs of those triples |
| `Driver.MagneticUsesOwnAxis` | RPi/HMC5983/src/HMC5983.c:211-290 | a calibrated reading of an axis depends only on that axis' own offset and scale |
| `Driver.MagneticExample` | RPi/HMC5983/src/HMC5983.c:211-290 | offset (1, 2, 3) and scale (2, 2, 2) turn gained readings of 10 into (18, 16, 14) |
| `Driver.CalibratedExtremesSymmetric` | RPi/HMC5983/src/HMC5983.c:375-385 | after a run, a reading equal to an axis' recorded high or low is corrected to +mean or −mean half range |

## Left out

- The I²C transport (`i2c_connect_2_slave`, `i2c_set_register_val`, `i2c_get_register_val`, `i2c_get_buffer_index`) is not part of this model. Its results are inputs: the write reply stream, and a `Reply` for each read.
- `connect_2_hmc5983_via_I2C` is left out. It only passes through to the transport.
- The single-read getters are left out: `hmc5983_get_cra`, `hmc5983_get_mode`, `hmc5983_get_crb` and `hmc5983_get_status`. Each is one transport read with no logic. The gain byte that `hmc5983_get_crb` yields is an input to every gained conversion.
- The register addresses and the meaning of the mode and status bits are left out.
- The calibration file is left out: the `fprintf` write in `hmc5983_calibrate` and `hmc5983_get_calibrated_value_from_file`. They are text I/O with six-decimal formatting and no error checks, so they guarantee no exact round trip.
- `printf` diagnostics and the 30 ms `usleep` between samples are left out.
- IEEE float rounding is not modelled. All arithmetic is on exact reals.
- RawAxis: the gained value is the word over the divisor on the full 0..65535 range. The code passes the float to `hmc5983_convert_hex_2_field` as an `int16_t`, and that conversion is undefined in C above 32767. The model does not claim sign extension.
- Temperature: the code never checks the read sentinel before using the bytes. So the model takes the two bytes that the buffer lookup yields. What that lookup yields after a failed read is not modelled.
- Driver.Hmc5983.Calibrate: it requires a stream with at least 1000 accepted triples, and every axis must end with a finite high that differs from its low.
  - An axis with a zero range makes the code divide by zero.
  - If an axis' high stays -INFINITY, the code stores an infinite offset and a NaN scale for that axis. `avg_delta` (line 381) is then -INFINITY too, so the other two axes get infinite scales.
  - A transport that fails forever makes the code loop forever.
  - None of these outcomes is modelled.
- The three per-axis getters are modelled as one member that takes an axis index, `Hmc5983.Magnetic`, and likewise for the three raw getters, `RawAxis`.
