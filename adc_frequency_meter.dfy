/**
 * The ADC frequency meter: the edge detector / period counter that the ADC
 * conversion-complete interrupt runs once per sample, and the frequency
 * reader with its Q3 fixed-point one-pole smoothing filter that the main
 * loop runs once per iteration.
 *
 * Each operation is given twice: as a pure function on values (IsrStep,
 * ReadFrequency), which states the behaviour and about which the lemmas
 * speak, and as a method of the FrequencyMeter class, whose fields are the
 * firmware's shared globals and which is proved to update them exactly as
 * the function says.
 */
module AdcFrequencyMeter {
  import opened Ints
  import opened Config

  /** The state the sampling interrupt owns and updates. */
  datatype IsrState = IsrState(
    sampleCounter: uint32,      // ticks since start-up, wrapping
    lastRiseSample: uint32,     // counter value at the most recent rising edge
    lastPeriodSamples: uint32,  // most recent plausible period, 0 if none yet
    signalHigh: bool)           // Schmitt-trigger state

  /** The three shared counters, copied by the reader as one consistent group. */
  datatype Snapshot = Snapshot(sampleCounter: uint32, lastRiseSample: uint32, periodSamples: uint32)

  /** What one call of the reader reports, and the filter state it leaves behind. */
  datatype Reading = Reading(signalPresent: bool, frequencyHz: uint16, filterX8: uint32)

  function SnapshotOf(s: IsrState): Snapshot
  {
    Snapshot(s.sampleCounter, s.lastRiseSample, s.lastPeriodSamples)
  }

  predicate PeriodInRange(p: int)
  {
    MinPeriodSamples <= p <= MaxPeriodSamples
  }

  /** The published period is either 0 (none validated yet) or plausible. */
  predicate PeriodInvariant(p: int)
  {
    p == 0 || PeriodInRange(p)
  }

  /** The sample crosses the upper threshold while the trigger is low. */
  predicate RisingEdge(s: IsrState, sample: uint8)
  {
    !s.signalHigh && sample >= HighThreshold
  }

  /** The sample falls to the lower threshold while the trigger is high. */
  predicate FallingEdge(s: IsrState, sample: uint8)
  {
    s.signalHigh && sample <= LowThreshold
  }

  /** Ticks from `since` to `now` in unsigned 32-bit arithmetic, correct across one wrap of the counter. */
  function Elapsed(now: uint32, since: uint32): (d: uint32)
    ensures since <= now ==> d == now - since
    ensures now < since ==> d == now + TWO_32 - since
  {
    Wrap32(now - since)
  }

  /**
   * One run of the sampling interrupt on one 8-bit sample: the counter
   * advances, and a rising edge re-arms the trigger, records the rise and
   * publishes the period since the previous rise if it is plausible.
   */
  function IsrStep(s: IsrState, sample: uint8): (r: IsrState)
    ensures r.sampleCounter == Wrap32(s.sampleCounter + 1)
    ensures r.signalHigh <==> RisingEdge(s, sample) || (s.signalHigh && !FallingEdge(s, sample))
    ensures r.lastRiseSample == if RisingEdge(s, sample) then r.sampleCounter else s.lastRiseSample
    ensures r.lastPeriodSamples ==
      if RisingEdge(s, sample) && PeriodInRange(Elapsed(r.sampleCounter, s.lastRiseSample))
      then Elapsed(r.sampleCounter, s.lastRiseSample)
      else s.lastPeriodSamples
    ensures PeriodInvariant(s.lastPeriodSamples) ==> PeriodInvariant(r.lastPeriodSamples)
    ensures LowThreshold < sample < HighThreshold ==> r == s.(sampleCounter := r.sampleCounter)
  {
    var now := Wrap32(s.sampleCounter + 1);
    if !s.signalHigh then
      if sample >= HighThreshold then
        var period := Elapsed(now, s.lastRiseSample);
        var published := if period >= MinPeriodSamples && period <= MaxPeriodSamples then period else s.lastPeriodSamples;
        IsrState(now, now, published, true)
      else
        s.(sampleCounter := now)
    else if sample <= LowThreshold then
      s.(sampleCounter := now, signalHigh := false)
    else
      s.(sampleCounter := now)
  }

  /** A signal counts as present while fewer than NoSignalSamples ticks have passed since the last rise. */
  predicate SignalAlive(s: Snapshot)
  {
    Elapsed(s.sampleCounter, s.lastRiseSample) < NoSignalSamples
  }

  /** Largest filter state: a 16-bit frequency in Q3 fixed point. */
  const MaxFilterX8: nat := 8 * (TWO_16 - 1)

  /**
   * Frequency in hertz of a period in ticks, truncated, narrowed to 16 bits.
   * The narrowing is lossless for every non-zero period, and a plausible
   * period gives a frequency in the valid band.
   */
  function RawHz(period: uint32): (hz: uint16)
    requires period > 0
    ensures hz == AdcSampleRate / period
    ensures hz * period <= AdcSampleRate < (hz + 1) * period
    ensures PeriodInRange(period) ==> ValidFreqMinHz <= hz < 2 * ValidFreqMaxHz
  {
    DivBounds(AdcSampleRate, period);
    BuildRateSupported();
    var hz := Wrap16(AdcSampleRate / period);
    if PeriodInRange(period) then PlausiblePeriodFrequency(AdcSampleRate, period); hz else hz
  }

  /**
   * The shortest plausible period is the sample rate over the highest valid
   * frequency, rounded down, so it reads above that frequency: plausible
   * periods read from 20 Hz up to 6410 Hz, and an input between 5 kHz and
   * 6.4 kHz is accepted.
   */
  lemma ShortestPeriodReadsAboveValidBand(period: uint32)
    requires PeriodInRange(period)
    ensures ValidFreqMinHz <= RawHz(period) <= RawHz(MinPeriodSamples) == 6410
    ensures RawHz(MinPeriodSamples) > ValidFreqMaxHz
  {
    ConfigValues();
    var hz := RawHz(period);
    MulMonotone(3, period, hz);
    MulCancel(hz, 6411, 3);
  }

  /** Whether `y` lies between `x` and `z`, inclusive, in either order. */
  predicate Between(x: int, y: int, z: int)
  {
    (x <= y <= z) || (z <= y <= x)
  }

  /**
   * The Q3 filter update on the "signal present" path: a cold filter (0)
   * snaps to the target; otherwise a quarter of the signed difference,
   * truncated toward zero, is added. For in-range values the update never
   * overshoots, never moves away from the target, shrinks the distance to at
   * most three quarters (plus rounding), makes progress while the distance
   * is at least 4, and is a fixed point once the distance is at most 3.
   */
  function FilterUpdate(filter: uint32, target: uint32): (r: uint32)
    ensures filter == 0 ==> r == target
    ensures filter != 0 && filter <= MaxFilterX8 && target <= MaxFilterX8 ==>
      && Between(filter, r, target)
      && 4 * Abs(target - r) <= 3 * Abs(target - filter) + 3
      && (Abs(target - filter) >= 4 ==> Abs(target - r) < Abs(target - filter))
      && (Abs(target - filter) <= 3 ==> r == filter)
  {
    if filter == 0 then
      target
    else
      var diff := WrapI32(AsInt32(target) - AsInt32(filter));
      Wrap32(WrapI32(AsInt32(filter) + TruncDiv(diff, 4)))
  }

  /**
   * For in-range values the warm update is exactly the old value plus a
   * quarter of the difference truncated toward zero: none of the casts
   * between unsigned and signed 32-bit values, and none of the signed
   * operations, wraps.
   */
  lemma WarmUpdateDoesNotWrap(filter: uint32, target: uint32)
    requires 0 < filter <= MaxFilterX8 && target <= MaxFilterX8
    ensures FilterUpdate(filter, target) == filter + TruncDiv(target - filter, 4)
  {
  }

  /**
   * One call of the frequency reader on a snapshot and the current filter
   * state. It reports "no signal" with frequency 0 and clears the filter
   * exactly when the last rise is too old or no period was ever published;
   * otherwise it converts the period to hertz, runs the filter and reports
   * the filtered value in whole hertz.
   */
  function ReadFrequency(s: Snapshot, filter: uint32): (r: Reading)
    ensures !r.signalPresent <==> !SignalAlive(s) || s.periodSamples == 0
    ensures !r.signalPresent ==> r.frequencyHz == 0 && r.filterX8 == 0
    ensures r.signalPresent && filter == 0 ==>
      r.filterX8 == 8 * RawHz(s.periodSamples) && r.frequencyHz == RawHz(s.periodSamples)
    ensures r.signalPresent ==> r.filterX8 == FilterUpdate(filter, 8 * RawHz(s.periodSamples))
    ensures r.signalPresent && 0 < filter <= MaxFilterX8 ==>
      Between(filter, r.filterX8, 8 * RawHz(s.periodSamples))
    ensures filter <= MaxFilterX8 ==> r.filterX8 <= MaxFilterX8 && r.frequencyHz == r.filterX8 / 8
    ensures r.signalPresent && PeriodInRange(s.periodSamples) && filter <= MaxFilterX8 ==> r.filterX8 != 0
  {
    if !SignalAlive(s) || s.periodSamples == 0 then
      Reading(false, 0, 0)
    else
      var rawHz := RawHz(s.periodSamples);
      var targetX8 := Wrap32(rawHz * 8);
      assert targetX8 == 8 * rawHz <= MaxFilterX8;
      var f := FilterUpdate(filter, targetX8);
      Reading(true, Wrap16(f / 8), f)
  }

  /**
   * The firmware's file-scope state: the four globals written by the
   * sampling interrupt and the filter state owned by the reader.
   */
  class FrequencyMeter {
    var sampleCounter: uint32
    var lastRiseSample: uint32
    var lastPeriodSamples: uint32
    var signalHigh: bool
    var filteredFreqX8: uint32

    /** The published period is 0 or plausible, and the filter holds a 16-bit frequency in Q3. */
    ghost predicate Valid()
      reads this
    {
      PeriodInvariant(lastPeriodSamples) && filteredFreqX8 <= MaxFilterX8
    }

    function Isr(): IsrState
      reads this
    {
      IsrState(sampleCounter, lastRiseSample, lastPeriodSamples, signalHigh)
    }

    /** The globals' start-up values. */
    constructor ()
      ensures Valid()
      ensures Isr() == IsrState(0, 0, 0, false) && filteredFreqX8 == 0
    {
      sampleCounter, lastRiseSample, lastPeriodSamples := 0, 0, 0;
      signalHigh := false;
      filteredFreqX8 := 0;
    }

    /** The sampling interrupt, given the 8-bit conversion result. It leaves the filter alone. */
    method Tick(sample: uint8)
      modifies this`sampleCounter, this`lastRiseSample, this`lastPeriodSamples, this`signalHigh
      ensures Isr() == IsrStep(old(Isr()), sample)
      ensures filteredFreqX8 == old(filteredFreqX8)
      ensures old(Valid()) ==> Valid()
    {
      sampleCounter := Wrap32(sampleCounter + 1);
      var nowSample := sampleCounter;

      var highThreshold: uint8 := Wrap8(Threshold + Hysteresis);
      var lowThreshold: uint8 := Wrap8(Threshold - Hysteresis);

      if !signalHigh {
        if sample >= highThreshold {
          signalHigh := true;
          var period := Wrap32(nowSample - lastRiseSample);
          lastRiseSample := nowSample;
          if period >= MinPeriodSamples && period <= MaxPeriodSamples {
            lastPeriodSamples := period;
          }
        }
      } else {
        if sample <= lowThreshold {
          signalHigh := false;
        }
      }
    }

    /**
     * The frequency reader. It copies the shared counters as one snapshot,
     * never writes them, and updates only the filter state.
     */
    method ReadFrequencyHz() returns (present: bool, frequencyHz: uint16)
      modifies this`filteredFreqX8
      ensures Reading(present, frequencyHz, filteredFreqX8) == ReadFrequency(SnapshotOf(old(Isr())), old(filteredFreqX8))
      ensures Isr() == old(Isr())
      ensures old(Valid()) ==> Valid()
    {
      var sampleCounter, lastRise, periodSamples := this.sampleCounter, lastRiseSample, lastPeriodSamples;

      var signalAlive := Wrap32(sampleCounter as int - lastRise) < NoSignalSamples;
      assert signalAlive == SignalAlive(SnapshotOf(Isr()));

      if !signalAlive || periodSamples == 0 {
        filteredFreqX8 := 0;
        return false, 0;
      }

      var rawHz: uint16 := Wrap16(AdcSampleRate / periodSamples);
      assert rawHz == RawHz(periodSamples);
      var targetX8: uint32 := Wrap32(rawHz as int * 8);

      if filteredFreqX8 == 0 {
        filteredFreqX8 := targetX8;
      } else {
        var diff := WrapI32(AsInt32(targetX8) - AsInt32(filteredFreqX8));
        filteredFreqX8 := Wrap32(WrapI32(AsInt32(filteredFreqX8) + TruncDiv(diff, 4)));
      }
      assert filteredFreqX8 == FilterUpdate(old(filteredFreqX8), targetX8);

      frequencyHz := Wrap16(filteredFreqX8 / 8);
      present := true;
    }
  }
}
