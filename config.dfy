/**
 * Compile-time configuration of the firmware: the ADC sample rate derived
 * from the CPU clock, the Schmitt-trigger thresholds, the plausible
 * frequency band, the signal-loss timeout and the output mapping range,
 * and the sample-tick bounds derived from them.
 *
 * The derived bounds are written as functions of the sample rate so that
 * their soundness (no wrap-around, a non-empty period range, a lossless
 * frequency cast) can be proved for every supported clock, not only for the
 * 8 MHz instance the firmware is built for.
 */
module Config {
  import opened Ints

  /** CPU clock. It comes from the build; the firmware is built for an 8 MHz part. */
  const FCpu: nat := 8_000_000
  const AdcPrescaler: nat := 32
  /** One free-running ADC conversion takes 13 ADC clock cycles. */
  const AdcCyclesPerConversion: nat := 13

  /** ADC conversions (= sample ticks) per second for a given CPU clock. */
  function SampleRateFor(fCpu: nat): (rate: nat)
    ensures rate * AdcPrescaler * AdcCyclesPerConversion <= fCpu
    ensures fCpu < (rate + 1) * AdcPrescaler * AdcCyclesPerConversion
  {
    (fCpu / AdcPrescaler) / AdcCyclesPerConversion
  }

  const AdcSampleRate: uint32 := SampleRateFor(FCpu)

  const Threshold: uint8 := 128
  const Hysteresis: uint8 := 8

  const ValidFreqMinHz: uint16 := 20
  const ValidFreqMaxHz: uint16 := 5000

  /** At or below this frequency the output duty is 0. */
  const MapFreqMinHz: uint16 := 150
  /** At or above this frequency the output duty is 255. */
  const MapFreqMaxHz: uint16 := 600

  const NoSignalTimeoutMs: uint16 := 200

  /** Shortest plausible period in sample ticks: one period of the highest valid frequency. */
  function MinPeriodFor(rate: uint32): (p: uint32)
    ensures p * ValidFreqMaxHz <= rate < (p + 1) * ValidFreqMaxHz
  {
    rate / ValidFreqMaxHz
  }

  /** Longest plausible period in sample ticks: one period of the lowest valid frequency. */
  function MaxPeriodFor(rate: uint32): (p: uint32)
    ensures p * ValidFreqMinHz <= rate < (p + 1) * ValidFreqMinHz
  {
    rate / ValidFreqMinHz
  }

  /**
   * Signal-loss timeout in sample ticks. The product is computed in 32-bit
   * unsigned arithmetic, as in the firmware.
   */
  function NoSignalFor(rate: uint32): (n: uint32)
    ensures rate * NoSignalTimeoutMs < TWO_32 ==> n * 1000 <= rate * NoSignalTimeoutMs < (n + 1) * 1000
  {
    Wrap32(rate * NoSignalTimeoutMs) / 1000
  }

  const MinPeriodSamples: uint32 := MinPeriodFor(AdcSampleRate)
  const MaxPeriodSamples: uint32 := MaxPeriodFor(AdcSampleRate)
  const NoSignalSamples: uint32 := NoSignalFor(AdcSampleRate)

  /** Upper Schmitt-trigger threshold, narrowed to 8 bits as in the ISR. */
  const HighThreshold: uint8 := Wrap8(Threshold + Hysteresis)
  /** Lower Schmitt-trigger threshold, narrowed to 8 bits as in the ISR. */
  const LowThreshold: uint8 := Wrap8(Threshold - Hysteresis)

  /** A CPU clock the firmware supports: fast enough for a 5 kHz period to last one tick, and within the AVR range. */
  predicate SupportedClock(fCpu: nat)
  {
    2_080_000 <= fCpu <= 20_000_000
  }

  /** A sample rate for which the derived constants are sound. */
  predicate SupportedRate(rate: uint32)
  {
    ValidFreqMaxHz <= rate && rate * NoSignalTimeoutMs < TWO_32
  }

  /** Every supported clock gives a supported sample rate that fits in 16 bits. */
  lemma SupportedClockGivesSupportedRate(fCpu: nat)
    requires SupportedClock(fCpu)
    ensures SampleRateFor(fCpu) < TWO_16
    ensures SupportedRate(SampleRateFor(fCpu))
  {
  }

  /**
   * For a supported sample rate the plausible period range is non-empty and
   * starts at 1 tick, the timeout product does not wrap, and the timeout is
   * longer than the longest plausible period.
   */
  lemma DerivedConstantsSound(rate: uint32)
    requires SupportedRate(rate)
    ensures 1 <= MinPeriodFor(rate) <= MaxPeriodFor(rate)
    ensures NoSignalFor(rate) == rate * NoSignalTimeoutMs / 1000
    ensures MaxPeriodFor(rate) < NoSignalFor(rate)
  {
    var lo, hi := MinPeriodFor(rate), MaxPeriodFor(rate);
    assert lo * 5000 <= rate && hi * 20 <= rate < hi * 20 + 20;
    assert lo <= hi;
  }

  /**
   * A period within the plausible range converts back to a frequency within
   * the valid band (up to the truncation of the shortest period): at least
   * ValidFreqMinHz and below twice ValidFreqMaxHz, so it fits in 16 bits.
   */
  lemma {:induction false} PlausiblePeriodFrequency(rate: uint32, period: nat)
    requires SupportedRate(rate)
    requires MinPeriodFor(rate) <= period <= MaxPeriodFor(rate)
    ensures period >= 1
    ensures ValidFreqMinHz <= rate / period < 2 * ValidFreqMaxHz
  {
    DerivedConstantsSound(rate);
    var lo, hi := MinPeriodFor(rate), MaxPeriodFor(rate);
    // period * 20 <= hi * 20 <= rate, so the quotient is at least 20.
    MulMonotone(period, hi, 20);
    QuotientAtLeast(rate, period, 20);
    // rate < 5000 * (lo + 1) <= 10000 * lo <= 10000 * period.
    MulMonotone(lo, period, 10000);
    QuotientBelow(rate, period, 10000);
  }

  /** The values of the derived constants for the 8 MHz build. */
  lemma ConfigValues()
    ensures AdcSampleRate == 19230
    ensures MinPeriodSamples == 3 && MaxPeriodSamples == 961
    ensures NoSignalSamples == 3846
    ensures HighThreshold == 136 && LowThreshold == 120
  {
  }

  /** The 8 MHz build runs at a supported sample rate. */
  lemma BuildRateSupported()
    ensures SupportedClock(FCpu) && SupportedRate(AdcSampleRate)
  {
  }

  /**
   * The 8-bit casts of the thresholds do not wrap: the upper threshold is
   * threshold + hysteresis, the lower one threshold - hysteresis, and the
   * band between them is non-empty.
   */
  lemma ThresholdsDoNotWrap()
    ensures HighThreshold == Threshold + Hysteresis
    ensures LowThreshold == Threshold - Hysteresis
    ensures LowThreshold < Threshold < HighThreshold
  {
  }

  /** The output mapping range is non-empty, so the mapper's denominator is positive. */
  lemma MapRangeNonEmpty()
    ensures MapFreqMinHz < MapFreqMaxHz
    ensures MapFreqMaxHz - MapFreqMinHz == 450
  {
  }
}
