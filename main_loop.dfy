/**
 * One iteration of the firmware's control loop: read the frequency and
 * hand the mapped duty to the PWM driver, or duty 0 when no signal is
 * present. The loop itself, start-up and the driver are not modelled; the
 * lemmas here connect the reader, the smoothing filter and the mapper end
 * to end.
 */
module MainLoop {
  import opened Ints
  import opened Config
  import opened AdcFrequencyMeter
  import opened FrequencyToPwmMapper
  import opened SmoothingConvergence

  /** The duty an iteration hands to the PWM driver for a reading. */
  function LoopDuty(r: Reading): uint8
  {
    if r.signalPresent then FrequencyToPwm(r.frequencyHz) else 0
  }

  /**
   * One loop iteration on the meter: the reader runs (updating only the
   * filter) and the duty for the PWM driver is returned.
   */
  method ControlIteration(meter: FrequencyMeter) returns (duty: uint8)
    modifies meter`filteredFreqX8
    ensures duty == LoopDuty(ReadFrequency(SnapshotOf(old(meter.Isr())), old(meter.filteredFreqX8)))
    ensures meter.filteredFreqX8 == ReadFrequency(SnapshotOf(old(meter.Isr())), old(meter.filteredFreqX8)).filterX8
    ensures meter.Isr() == old(meter.Isr())
  {
    var frequencyHz: uint16 := 0;
    var ok: bool;
    ok, frequencyHz := meter.ReadFrequencyHz();
    if ok {
      duty := FrequencyToPwm(frequencyHz);
    } else {
      duty := 0;
    }
  }

  /**
   * Without a signal the output is driven to 0, the same duty the mapper
   * gives frequency 0, and the filter is cleared.
   */
  lemma NoSignalDrivesZero(s: Snapshot, filter: uint32)
    requires !SignalAlive(s) || s.periodSamples == 0
    ensures LoopDuty(ReadFrequency(s, filter)) == 0 == FrequencyToPwm(0)
    ensures ReadFrequency(s, filter).filterX8 == 0
  {
  }

  /**
   * A steady 300 Hz input (a published period of 64 ticks, recent rise):
   * from a cold filter the first reading is exactly 300 Hz and duty 85, and
   * every later reading stays there.
   */
  lemma SteadyThreeHundredHertz(s: Snapshot)
    requires s.periodSamples == 64 && SignalAlive(s)
    ensures ReadFrequency(s, 0) == Reading(true, 300, 2400)
    ensures ReadFrequency(s, 2400) == Reading(true, 300, 2400)
    ensures LoopDuty(ReadFrequency(s, 0)) == 85
  {
    ConfigValues();
    Examples();
  }

  /**
   * Under a steady plausible period, from any in-range filter state, the
   * reading after at least 44 earlier updates is present, is the next
   * settling step, and reports the raw frequency or one hertz below it.
   */
  lemma SteadyReadingSettles(s: Snapshot, filter: uint32, n: nat)
    requires SignalAlive(s) && PeriodInRange(s.periodSamples)
    requires filter <= MaxFilterX8
    requires n >= 44
    ensures var hz: int := RawHz(s.periodSamples);
      var r := ReadFrequency(s, Settle(filter, 8 * hz, n));
      && r.signalPresent
      && r.filterX8 == Settle(filter, 8 * hz, n + 1)
      && hz - 1 <= r.frequencyHz <= hz
  {
    var hz: int := RawHz(s.periodSamples);
    var f := Settle(filter, 8 * hz, n);
    assert Abs(8 * hz - f) <= 3 && f <= MaxFilterX8 by {
      SettlesWithin(filter, 8 * hz, n);
      NeverOvershoots(filter, 8 * hz, n);
    }
    var r := ReadFrequency(s, f);
    assert r.filterX8 == FilterUpdate(f, 8 * hz) == Settle(filter, 8 * hz, n + 1) by {
      SettleLast(filter, 8 * hz, n);
    }
    assert Abs(8 * hz - r.filterX8) <= 3;
    SettledReportsWithinOneHertz(r.filterX8, hz);
  }

  /**
   * Under the same conditions the duty handed to the PWM driver lies
   * between the duties of the raw frequency and of one hertz below it.
   */
  lemma SteadySignalSettles(s: Snapshot, filter: uint32, n: nat)
    requires SignalAlive(s) && PeriodInRange(s.periodSamples)
    requires filter <= MaxFilterX8
    requires n >= 44
    ensures var hz: int := RawHz(s.periodSamples);
      FrequencyToPwm(hz - 1) <= LoopDuty(ReadFrequency(s, Settle(filter, 8 * hz, n))) <= FrequencyToPwm(hz)
  {
    var hz: int := RawHz(s.periodSamples);
    SteadyReadingSettles(s, filter, n);
    DutyWithinOneHertz(ReadFrequency(s, Settle(filter, 8 * hz, n)), hz);
  }

  /** A present reading of hz or hz - 1 gives a duty between the duties of those two frequencies. */
  lemma DutyWithinOneHertz(r: Reading, hz: uint16)
    requires r.signalPresent && hz >= 1 && hz - 1 <= r.frequencyHz <= hz
    ensures FrequencyToPwm(hz - 1) <= LoopDuty(r) <= FrequencyToPwm(hz)
  {
    Monotone(hz - 1, r.frequencyHz);
    Monotone(r.frequencyHz, hz);
  }
}
