# Frequency-to-PWM firmware core, modelled in Dafny

The firmware runs on an AVR microcontroller. It samples an analog signal with
the ADC in free-running mode, measures the period between rising edges, turns
the period into a frequency, smooths it, and maps the frequency linearly onto
an 8-bit PWM duty value (0 V below 150 Hz, full scale from 600 Hz).

This project models the three pieces that hold logic, and the configuration
they depend on:

- **Configuration** (`config.dfy`, module `Config`): the sample rate derived
  from the CPU clock (taken as 8 MHz, giving 19230 samples per second), the
  Schmitt-trigger thresholds (136 and 120), the plausible period range (3 to
  961 ticks: 20 Hz up to 6410 Hz, because the shortest period is the
  truncated quotient 19230 / 5000), the 200 ms signal-loss timeout (3846
  ticks) and the mapping range. The derived bounds are functions of the
  sample rate. Lemmas prove, for every supported clock, that they are
  consistent, do not overflow 32 bits, and make the 16-bit frequency cast
  lossless.
- **Edge detector / period counter** (`adc_frequency_meter.dfy`, module
  `AdcFrequencyMeter`): the ADC interrupt as the pure step `IsrStep` on the
  interrupt's state, and as the method `FrequencyMeter.Tick` on a class whose
  fields are the firmware's globals. Each tick advances the wrapping 32-bit
  counter. A rising crossing of the upper threshold records the rise. It
  publishes the period since the previous rise only if that period is
  plausible. A fall to the lower threshold re-arms the trigger. As in the
  code, the first period after start-up is measured from counter value 0.
- **Frequency reader and Q3 smoother** (same module): `ReadFrequency` on a
  snapshot of the three shared counters and the filter state, and the method
  `FrequencyMeter.ReadFrequencyHz`, which writes only the filter field. A
  stale rise or a missing period reports "no signal" and clears the filter.
  Otherwise a cold filter snaps to 8 × the raw frequency, and a warm filter
  moves a quarter of the way, truncated toward zero as C++ signed division
  does.
- **Frequency-to-duty mapper** (`frequency_to_pwm_mapper.dfy`): the
  saturating piecewise-linear map `FrequencyToPwm`.

Further lemmas cover sequences of samples (`adc_frequency_meter_runs.dfy`),
the filter's convergence under a steady input (`smoothing_convergence.dfy`,
with the numeric bound it uses in `contraction_bound.dfy`),
and one iteration of the control loop end to end (`main_loop.dfy`).
`ints.dfy` holds the fixed-width types and the C++ casts, wrap-around and
truncating division. Dafny's own integers are unbounded and its division is
Euclidean, so every one of these is written out.

The duty in the linear region is not always strictly positive. The code
yields 0 for 151 Hz (`FrequencyToPwmMapper.Examples`), and the model follows
the code.

## Model

| member | source | states |
|---|---|---|
| Ints.Wrap8 | src/app/FrequencyToPwmMapper.hpp:21 | the 8-bit narrowing keeps a value below 256 unchanged |
| Ints.Wrap16 | src/drivers/AdcFrequencyMeter.cpp:77 | the 16-bit narrowing keeps a value below 65536 unchanged |
| Ints.Wrap32 | src/drivers/AdcFrequencyMeter.cpp:101 | unsigned 32-bit arithmetic keeps a value below 2^32 unchanged |
| Ints.AsInt32 | src/drivers/AdcFrequencyMeter.cpp:88 | the int32 reading of a uint32 keeps values below 2^31, is negative exactly from 2^31 on, and casts back to the same uint32 |
| Ints.WrapI32 | src/drivers/AdcFrequencyMeter.cpp:88-90 | signed 32-bit arithmetic keeps values in the int32 range unchanged |
| Ints.TruncDiv | src/drivers/AdcFrequencyMeter.cpp:90 | C++ division by a positive divisor: the quotient has the dividend's sign and the largest magnitude whose multiple does not exceed the dividend's |
| Ints.TruncDivVersusEuclidean | src/drivers/AdcFrequencyMeter.cpp:90 | for every dividend and positive divisor: negating the dividend negates the C++ quotient; it equals the Euclidean quotient for non-negative dividends and exact divisions, and is one above it for other negative dividends |
| Ints.Wrap32Add | src/drivers/AdcFrequencyMeter.cpp:101 | successive 32-bit additions may be reduced modulo 2^32 at any point |
| Config.SampleRateFor | src/config/config.hpp:9-10 | the sample rate is the largest rate whose 32 × 13 clock cycles per conversion fit into the CPU clock |
| Config.MinPeriodFor | src/config/config.hpp:23 | the shortest plausible period is the number of whole 5 kHz periods in one second of samples |
| Config.MaxPeriodFor | src/config/config.hpp:24 | the longest plausible period is the number of whole 20 Hz periods in one second of samples |
| Config.NoSignalFor | src/config/config.hpp:25 | when the 32-bit product does not wrap, the timeout in ticks is the floor of rate × 200 ms / 1000 |
| Config.SupportedClockGivesSupportedRate | src/config/config.hpp:10 | every clock from 2.08 MHz to 20 MHz gives a sample rate of at least 5000 that fits in 16 bits and whose timeout product does not overflow |
| Config.DerivedConstantsSound | src/config/config.hpp:23-25 | for a supported rate: 1 <= min period <= max period, the timeout product does not wrap, and the timeout exceeds the longest plausible period |
| Config.PlausiblePeriodFrequency | src/config/config.hpp:15-24 | every plausible period is at least 1 tick and converts to a frequency from 20 Hz up to below 10 kHz, so the 16-bit cast is lossless |
| Config.ConfigValues | src/config/config.hpp:9-25 | at 8 MHz: 19230 samples/s, periods 3..961 ticks, timeout 3846 ticks, thresholds 136 and 120 |
| Config.BuildRateSupported | src/config/config.hpp:10 | the 8 MHz build is a supported clock and a supported rate |
| Config.ThresholdsDoNotWrap | src/drivers/AdcFrequencyMeter.cpp:103-104 | the 8-bit casts of threshold ± hysteresis do not wrap, and low < threshold < high |
| Config.MapRangeNonEmpty | src/config/config.hpp:18-19 | the mapping range is non-empty, so the mapper's denominator is 450 |
| FrequencyToPwmMapper.FrequencyToPwm | src/app/FrequencyToPwmMapper.hpp:7-22 | duty 0 at or below 150 Hz, 255 at or above 600 Hz, and in between the floor of (f − 150) × 255 / 450 |
| FrequencyToPwmMapper.LinearRegionExact | src/app/FrequencyToPwmMapper.hpp:18-21 | in the linear region the 32-bit product does not wrap, the result is the exact quotient, and it is at most 254 so the uint8 cast is lossless |
| FrequencyToPwmMapper.Monotone | src/app/FrequencyToPwmMapper.hpp:7-22 | the map is non-decreasing over all 16-bit frequencies |
| FrequencyToPwmMapper.Examples | src/app/FrequencyToPwmMapper.hpp:7-22 | 300 Hz gives 85, 151 Hz gives 0, 599 Hz gives 254, 0 gives 0 and 65535 gives 255 |
| AdcFrequencyMeter.Elapsed | src/drivers/AdcFrequencyMeter.cpp:68 | the unsigned tick difference is the true difference when the counter has not passed the rise's value modulo 2^32, and the difference across one wrap otherwise |
| AdcFrequencyMeter.IsrStep | src/drivers/AdcFrequencyMeter.cpp:98-128 | the counter advances by 1 mod 2^32; the trigger goes high only on a rising edge and low only on a falling edge; a rise is recorded exactly on a rising edge; the period is published iff it is plausible; the invariant "period 0 or plausible" is kept; a sample strictly between the thresholds changes only the counter |
| AdcFrequencyMeter.RawHz | src/drivers/AdcFrequencyMeter.cpp:77 | the 16-bit raw frequency is the exact truncated quotient of the sample rate by the period, and lies in 20..9999 Hz for a plausible period |
| AdcFrequencyMeter.ShortestPeriodReadsAboveValidBand | src/config/config.hpp:23 | every plausible period reads between 20 Hz and the reading of the shortest plausible period, 6410 Hz, which is above the 5 kHz upper bound of the valid band |
| AdcFrequencyMeter.FilterUpdate | src/drivers/AdcFrequencyMeter.cpp:79-91 | a cold filter snaps to the target; a warm one stays between its old value and the target, shrinks the distance to at most 3/4 of it (plus rounding), moves while the distance is at least 4, and stays put once it is at most 3 |
| AdcFrequencyMeter.WarmUpdateDoesNotWrap | src/drivers/AdcFrequencyMeter.cpp:88-90 | for in-range values the signed casts and arithmetic do not wrap, so the update is old + trunc((target − old) / 4) |
| AdcFrequencyMeter.ReadFrequency | src/drivers/AdcFrequencyMeter.cpp:55-95 | "no signal" iff the rise is at least the timeout old or no period was published, and then frequency 0 and a cleared filter; on a cold start the raw frequency exactly; with a signal the new filter is the Q3 update towards 8 times the raw frequency; otherwise no overshoot; the reported value is the filter over 8; for a plausible period only the "no signal" path leaves the filter at 0 |
| AdcFrequencyMeter.FrequencyMeter.constructor | src/drivers/AdcFrequencyMeter.cpp:11-17 | all globals start at 0 / false, which satisfies the class invariant |
| AdcFrequencyMeter.FrequencyMeter.Tick | src/drivers/AdcFrequencyMeter.cpp:98-128 | the interrupt updates the four ISR globals exactly as IsrStep says, leaves the filter unchanged, and keeps the class invariant |
| AdcFrequencyMeter.FrequencyMeter.ReadFrequencyHz | src/drivers/AdcFrequencyMeter.cpp:55-95 | the reader returns and stores exactly what ReadFrequency gives for the snapshot, never writes the shared counters, and keeps the class invariant |
| AdcFrequencyMeterRuns.RunAdvancesCounter | src/drivers/AdcFrequencyMeter.cpp:101 | after n samples the counter has advanced by n modulo 2^32 |
| AdcFrequencyMeterRuns.RunKeepsPeriodInvariant | src/drivers/AdcFrequencyMeter.cpp:115-118 | the published period stays 0 or plausible over any sample sequence |
| AdcFrequencyMeterRuns.ChatterProducesNoEdge | src/drivers/AdcFrequencyMeter.cpp:106-127 | any sequence of samples strictly between the thresholds changes nothing but the counter |
| AdcFrequencyMeterRuns.NoRiseKeepsPublishedState | src/drivers/AdcFrequencyMeter.cpp:106-127 | samples below the upper threshold record no rise and publish no period; the trigger only goes low, and does once a sample reaches the lower threshold |
| AdcFrequencyMeterRuns.ElapsedAfterNoRise | src/drivers/AdcFrequencyMeter.cpp:68 | without a rise the ticks since the last rise grow by the number of samples, modulo 2^32 |
| AdcFrequencyMeterRuns.ElapsedShift | src/drivers/AdcFrequencyMeter.cpp:68 | advancing the counter by n advances the unsigned tick difference by n, modulo 2^32 |
| AdcFrequencyMeterRuns.ElapsedSince | src/drivers/AdcFrequencyMeter.cpp:112 | n ticks after a counter value the unsigned difference is n, for every n below 2^32 |
| AdcFrequencyMeterRuns.CyclePublishesPeriod | src/drivers/AdcFrequencyMeter.cpp:106-118 | one full input cycle of n samples after a rise records the new rise and publishes n exactly when n is plausible |
| AdcFrequencyMeterRuns.RiseAfterArmedRun | src/drivers/AdcFrequencyMeter.cpp:106-118 | a rise from an armed trigger n ticks after the previous rise sets the trigger, records the rise at the new counter value, and publishes n exactly when it is plausible |
| AdcFrequencyMeterRuns.SilenceReportsAbsent | src/drivers/AdcFrequencyMeter.cpp:68-75 | once the ticks since the last rise reach the timeout without a new rise, the reader reports (false, 0) and clears the filter |
| AdcFrequencyMeterRuns.SilenceAfterRiseReportsAbsent | src/drivers/AdcFrequencyMeter.cpp:68-75 | 200 ms of silence after a rise force (false, 0) and a cleared filter |
| AdcFrequencyMeterRuns.SilenceWrapsAround | src/drivers/AdcFrequencyMeter.cpp:68 | after exactly 2^32 silent ticks the tick difference is 0 again and a previously published period is reported as a present signal |
| AdcFrequencyMeterRuns.ImplausibleCycleKeepsSignal | src/drivers/AdcFrequencyMeter.cpp:106-118 | a full cycle whose period is not plausible publishes nothing but still records the rise, so the signal stays alive and the reading equals the one taken at the previous rise |
| AdcFrequencyMeterRuns.TenHertzCycleReadsAsStalePeriod | src/drivers/AdcFrequencyMeter.cpp:106-118 | a 10 Hz cycle (1923 ticks) after a published 300 Hz period is read from a cold filter as a present 300 Hz signal |
| SmoothingConvergence.StepContracts | src/drivers/AdcFrequencyMeter.cpp:82-91 | one update, cold or warm, of an in-range filter stays in range, lands between the old value and the target, scales the distance in excess of 3 by at most 3/4, and leaves a warm filter within 3 of the target unchanged |
| SmoothingConvergence.FilterUpdateConverges | src/drivers/AdcFrequencyMeter.cpp:82-91 | the update toward any in-range target has, for every in-range filter, the properties the convergence proofs use |
| SmoothingConvergence.SettleLast | src/drivers/AdcFrequencyMeter.cpp:82-91 | n + 1 updates are n updates followed by one more |
| SmoothingConvergence.NeverOvershoots | src/drivers/AdcFrequencyMeter.cpp:82-91 | repeated updates toward one target stay between the start and the target and never increase the distance to it |
| SmoothingConvergence.IterateWithinBound | src/drivers/AdcFrequencyMeter.cpp:82-91 | after n updates the distance in excess of 3 is at most 524277 shrunk to three quarters, rounded down, n times |
| SmoothingConvergence.SettlesWithin | src/drivers/AdcFrequencyMeter.cpp:82-91 | after 44 or more updates the filter is within 3 Q3 units of the target, from any in-range start |
| SmoothingConvergence.SettledStaysPut | src/drivers/AdcFrequencyMeter.cpp:88-90 | a warm filter within 3 units of the target never moves again |
| SmoothingConvergence.SettledReportsWithinOneHertz | src/drivers/AdcFrequencyMeter.cpp:93 | a filter within 3 units of 8 × hz reports hz or hz − 1 |
| MainLoop.ControlIteration | src/main.cpp:20-30 | one loop iteration hands the driver the mapped frequency, or 0 without a signal, and changes only the filter |
| MainLoop.NoSignalDrivesZero | src/main.cpp:27-30 | without a signal the duty is 0, the same as the mapper gives for 0 Hz, and the filter is cleared |
| MainLoop.SteadyThreeHundredHertz | src/main.cpp:22-25 | a published period of 64 ticks reads as exactly 300 Hz from a cold filter and stays there, giving duty 85 |
| MainLoop.SteadyReadingSettles | src/drivers/AdcFrequencyMeter.cpp:77-93 | under a steady plausible period, from the 45th reading on, the signal is present, the filter takes the next settling step, and the report is the raw frequency or 1 Hz below it |
| MainLoop.SteadySignalSettles | src/main.cpp:20-30 | under the same conditions the duty lies between the duties of the raw frequency and of 1 Hz below it |
| MainLoop.DutyWithinOneHertz | src/main.cpp:22-25 | a present reading of hz or hz − 1 gives a duty between the duties of those two frequencies |

## Left out

- Hardware set-up (`drivers::adc_freq::init`, the PWM driver's `init`) and the register write in `setDuty`: register configuration, no logic. The ADC channel and PWM pin constants are used only there and are not modelled.
- The `ADCH` read: the sample is the parameter of `Tick`.
- Interrupt masking and `volatile`: the critical section that copies the three shared counters is modelled as one atomic snapshot. Preemption between interrupt and loop, and torn reads, are concurrency and are not modelled.
- The start-up sequence, `cli`/`sei` and the endless loop of `main`: only one iteration is modelled (`MainLoop.ControlIteration`).
- The CPU clock is taken as the constant 8 MHz. The configuration lemmas cover every clock from 2.08 MHz to 20 MHz.
- Signed 32-bit overflow is undefined in C++. The model gives it two's-complement wrap-around, and `WarmUpdateDoesNotWrap` shows it cannot occur for filter states the reader produces.
- AdcFrequencyMeterRuns.SilenceReportsAbsent: holds only for silences shorter than 2^32 ticks (about 62 hours) minus the ticks already elapsed. The 32-bit tick difference wraps after that, and `SilenceWrapsAround` shows a stale period is then reported as present again until the timeout passes once more.
- AdcFrequencyMeterRuns.SilenceReportsAbsent: only the complete absence of rises is detected as signal loss, as in the code. A rise whose period is not plausible (2 ticks, or 962 to 3845 ticks, about 5 to 20 Hz) restarts the timeout without publishing, so the last plausible period keeps being reported (`ImplausibleCycleKeepsSignal`, `TenHertzCycleReadsAsStalePeriod`).
- An input between 5 kHz and about 6.4 kHz is accepted as valid: the shortest plausible period, 19230 / 5000 rounded down to 3 ticks, reads as 6410 Hz (`ShortestPeriodReadsAboveValidBand`).
