/**
 * What the sampling interrupt does over a sequence of samples: the counter
 * advances once per sample, the published period always stays plausible,
 * chatter between the two thresholds is ignored, one full signal cycle
 * publishes its period exactly when it is plausible, and a silent input is
 * reported as "no signal" once the timeout has passed.
 */
module AdcFrequencyMeterRuns {
  import opened Ints
  import opened Config
  import opened AdcFrequencyMeter

  /** The state after the interrupt has run on each sample in turn. */
  function RunIsr(s: IsrState, samples: seq<uint8>): IsrState
    decreases |samples|
  {
    if |samples| == 0 then s else RunIsr(IsrStep(s, samples[0]), samples[1..])
  }

  /** A constant input at the lowest level, `n` samples long. */
  function Silence(n: nat): (samples: seq<uint8>)
    ensures |samples| == n
    ensures forall i :: 0 <= i < n ==> samples[i] < HighThreshold
  {
    seq(n, i => 0)
  }

  /** The counter advances by exactly the number of samples, modulo 2^32. */
  lemma {:induction false} RunAdvancesCounter(s: IsrState, samples: seq<uint8>)
    ensures RunIsr(s, samples).sampleCounter == Wrap32(s.sampleCounter + |samples|)
    decreases |samples|
  {
    if |samples| > 0 {
      RunAdvancesCounter(IsrStep(s, samples[0]), samples[1..]);
      Wrap32Add(s.sampleCounter + 1, |samples| - 1);
    }
  }

  /** The published period is 0 or plausible after any sequence of samples from a state where it was. */
  lemma {:induction false} RunKeepsPeriodInvariant(s: IsrState, samples: seq<uint8>)
    requires PeriodInvariant(s.lastPeriodSamples)
    ensures PeriodInvariant(RunIsr(s, samples).lastPeriodSamples)
    decreases |samples|
  {
    if |samples| > 0 {
      RunKeepsPeriodInvariant(IsrStep(s, samples[0]), samples[1..]);
    }
  }

  /** Samples strictly between the two thresholds never produce an edge: only the counter moves. */
  lemma {:induction false} ChatterProducesNoEdge(s: IsrState, samples: seq<uint8>)
    requires forall i :: 0 <= i < |samples| ==> LowThreshold < samples[i] < HighThreshold
    ensures RunIsr(s, samples) == s.(sampleCounter := Wrap32(s.sampleCounter + |samples|))
    decreases |samples|
  {
    RunAdvancesCounter(s, samples);
    if |samples| > 0 {
      ChatterProducesNoEdge(IsrStep(s, samples[0]), samples[1..]);
    }
  }

  /**
   * Samples that stay below the upper threshold record no rise and publish
   * no period; the trigger can only go low, and does so once a sample
   * reaches the lower threshold.
   */
  lemma {:induction false} NoRiseKeepsPublishedState(s: IsrState, samples: seq<uint8>)
    requires forall i :: 0 <= i < |samples| ==> samples[i] < HighThreshold
    ensures RunIsr(s, samples).sampleCounter == Wrap32(s.sampleCounter + |samples|)
    ensures RunIsr(s, samples).lastRiseSample == s.lastRiseSample
    ensures RunIsr(s, samples).lastPeriodSamples == s.lastPeriodSamples
    ensures RunIsr(s, samples).signalHigh ==> s.signalHigh
    ensures (exists i :: 0 <= i < |samples| && samples[i] <= LowThreshold) ==> !RunIsr(s, samples).signalHigh
    decreases |samples|
  {
    RunAdvancesCounter(s, samples);
    if |samples| > 0 {
      var s1 := IsrStep(s, samples[0]);
      NoRiseKeepsPublishedState(s1, samples[1..]);
      if exists i :: 0 <= i < |samples| && samples[i] <= LowThreshold {
        var i :| 0 <= i < |samples| && samples[i] <= LowThreshold;
        if i > 0 {
          assert samples[1..][i - 1] <= LowThreshold;
        }
      }
    }
  }

  /** The ticks since the last rise grow by the length of a rise-free run, modulo 2^32. */
  lemma ElapsedAfterNoRise(s: IsrState, samples: seq<uint8>)
    requires forall i :: 0 <= i < |samples| ==> samples[i] < HighThreshold
    ensures var r := RunIsr(s, samples);
      Elapsed(r.sampleCounter, r.lastRiseSample) == Wrap32(Elapsed(s.sampleCounter, s.lastRiseSample) + |samples|)
  {
    var r := RunIsr(s, samples);
    assert r.sampleCounter == Wrap32(s.sampleCounter + |samples|) && r.lastRiseSample == s.lastRiseSample by {
      NoRiseKeepsPublishedState(s, samples);
    }
    ElapsedShift(s.sampleCounter, s.lastRiseSample, |samples|);
  }

  /** Advancing the counter by `n` advances the wrap-safe difference by `n`, modulo 2^32. */
  lemma ElapsedShift(now: uint32, since: uint32, n: nat)
    ensures Elapsed(Wrap32(now + n), since) == Wrap32(Elapsed(now, since) + n)
  {
    Wrap32Add(now + n, -(since as int));
    Wrap32Add(now - since, n);
  }

  /**
   * One full cycle of the input, starting just after a rise: samples below
   * the upper threshold, at least one of which reaches the lower threshold,
   * and then a sample at or above the upper threshold. The final sample is
   * a rising edge |samples| ticks after the previous one; that period is
   * published exactly when it is plausible, and the rise is recorded either way.
   */
  lemma CyclePublishesPeriod(s: IsrState, samples: seq<uint8>)
    requires s.signalHigh && s.lastRiseSample == s.sampleCounter
    requires 2 <= |samples| < TWO_32
    requires forall i :: 0 <= i < |samples| - 1 ==> samples[i] < HighThreshold
    requires exists i :: 0 <= i < |samples| - 1 && samples[i] <= LowThreshold
    requires samples[|samples| - 1] >= HighThreshold
    ensures var r := RunIsr(s, samples);
      && r.signalHigh
      && r.sampleCounter == r.lastRiseSample == Wrap32(s.sampleCounter + |samples|)
      && r.lastPeriodSamples == if PeriodInRange(|samples|) then |samples| else s.lastPeriodSamples
  {
    var n, c := |samples|, s.sampleCounter;
    var prefix, last := samples[..n - 1], samples[n - 1];
    var m := RunIsr(s, prefix);
    assert !m.signalHigh && m.lastRiseSample == c && m.lastPeriodSamples == s.lastPeriodSamples
      && m.sampleCounter == Wrap32(c + (n - 1)) by {
      var i :| 0 <= i < n - 1 && samples[i] <= LowThreshold;
      assert prefix[i] <= LowThreshold;
      NoRiseKeepsPublishedState(s, prefix);
    }
    assert RunIsr(s, samples) == IsrStep(m, last) by {
      SplitLast(samples);
      RunSplit(s, prefix, [last]);
      assert RunIsr(m, [last]) == IsrStep(m, last);
    }
    RiseAfterArmedRun(m, last, c, n);
  }

  /** A sequence is its prefix without the last element, followed by that element. */
  lemma SplitLast(xs: seq<uint8>)
    requires |xs| > 0
    ensures xs[..|xs| - 1] + [xs[|xs| - 1]] == xs
  {
  }

  /**
   * A rise `n` ticks after the previous one, from an armed trigger, records
   * the rise and publishes `n` exactly when it is plausible.
   */
  lemma RiseAfterArmedRun(m: IsrState, last: uint8, c: uint32, n: nat)
    requires !m.signalHigh && m.lastRiseSample == c && m.sampleCounter == Wrap32(c + (n - 1))
    requires last >= HighThreshold && 1 <= n < TWO_32
    ensures var r := IsrStep(m, last);
      && r.signalHigh
      && r.sampleCounter == r.lastRiseSample == Wrap32(c + n)
      && r.lastPeriodSamples == if PeriodInRange(n) then n else m.lastPeriodSamples
  {
    assert RisingEdge(m, last);
    Wrap32Add(c + (n - 1), 1);
    ElapsedSince(c, n);
  }

  /** `n` ticks after counter value `c` the wrap-safe difference is `n`, for any `n` below 2^32. */
  lemma ElapsedSince(c: uint32, n: nat)
    requires n < TWO_32
    ensures Elapsed(Wrap32(c + n), c) == n
  {
    Wrap32Add(c + n, -(c as int));
  }

  /** Running on a concatenation is running on each part in turn. */
  lemma {:induction false} RunSplit(s: IsrState, a: seq<uint8>, b: seq<uint8>)
    ensures RunIsr(s, a + b) == RunIsr(RunIsr(s, a), b)
    decreases |a|
  {
    if |a| == 0 {
      assert a + b == b;
    } else {
      assert (a + b)[0] == a[0];
      assert (a + b)[1..] == a[1..] + b;
      RunSplit(IsrStep(s, a[0]), a[1..], b);
    }
  }

  /**
   * If the input stays below the upper threshold long enough for the ticks
   * since the last rise to reach the timeout (and not so long that the
   * 32-bit tick difference wraps), the reader reports no signal, frequency
   * 0, and clears the filter, whatever the filter held.
   */
  lemma SilenceReportsAbsent(s: IsrState, samples: seq<uint8>, filter: uint32)
    requires forall i :: 0 <= i < |samples| ==> samples[i] < HighThreshold
    requires NoSignalSamples <= Elapsed(s.sampleCounter, s.lastRiseSample) + |samples| < TWO_32
    ensures ReadFrequency(SnapshotOf(RunIsr(s, samples)), filter) == Reading(false, 0, 0)
  {
    ElapsedAfterNoRise(s, samples);
  }

  /** In particular, NoSignalSamples (200 ms) of silence right after a rise force "no signal". */
  lemma SilenceAfterRiseReportsAbsent(s: IsrState, filter: uint32)
    requires s.lastRiseSample == s.sampleCounter
    ensures ReadFrequency(SnapshotOf(RunIsr(s, Silence(NoSignalSamples))), filter) == Reading(false, 0, 0)
  {
    ConfigValues();
    SilenceReportsAbsent(s, Silence(NoSignalSamples), filter);
  }

  /**
   * The timeout test is wrap-safe only for silences shorter than 2^32 ticks:
   * after exactly 2^32 silent ticks following a rise the tick difference is
   * 0 again, so a previously published period is reported as a present
   * signal.
   */
  lemma SilenceWrapsAround(s: IsrState, filter: uint32)
    requires s.lastRiseSample == s.sampleCounter
    requires PeriodInRange(s.lastPeriodSamples)
    ensures ReadFrequency(SnapshotOf(RunIsr(s, Silence(TWO_32))), filter).signalPresent
  {
    ConfigValues();
    ElapsedAfterNoRise(s, Silence(TWO_32));
    NoRiseKeepsPublishedState(s, Silence(TWO_32));
  }

  /**
   * Signal loss is detected only as the absence of rises: a full cycle whose
   * period is not plausible (2 ticks, or 962 to 3845 ticks, about 5 to 20 Hz)
   * publishes nothing but still restarts the timeout, so the reader keeps
   * reporting the period published before it, exactly as it did at the
   * previous rise.
   */
  lemma ImplausibleCycleKeepsSignal(s: IsrState, samples: seq<uint8>, filter: uint32)
    requires s.signalHigh && s.lastRiseSample == s.sampleCounter
    requires 2 <= |samples| < TWO_32
    requires forall i :: 0 <= i < |samples| - 1 ==> samples[i] < HighThreshold
    requires exists i :: 0 <= i < |samples| - 1 && samples[i] <= LowThreshold
    requires samples[|samples| - 1] >= HighThreshold
    requires !PeriodInRange(|samples|)
    ensures var r := RunIsr(s, samples);
      && r.lastPeriodSamples == s.lastPeriodSamples
      && SignalAlive(SnapshotOf(r))
      && ReadFrequency(SnapshotOf(r), filter) == ReadFrequency(SnapshotOf(s), filter)
  {
    CyclePublishesPeriod(s, samples);
  }

  /**
   * A 10 Hz input (one cycle of 1923 ticks, below the 20 Hz floor) arriving
   * after a 300 Hz period was published is reported as a present 300 Hz
   * signal, not as "no signal".
   */
  lemma TenHertzCycleReadsAsStalePeriod(s: IsrState)
    requires s.signalHigh && s.lastRiseSample == s.sampleCounter && s.lastPeriodSamples == 64
    ensures ReadFrequency(SnapshotOf(RunIsr(s, Silence(1922) + [255])), 0) == Reading(true, 300, 2400)
  {
    ConfigValues();
    var samples := Silence(1922) + [255];
    assert samples[0] <= LowThreshold;
    ImplausibleCycleKeepsSignal(s, samples, 0);
    assert RawHz(64) == 300;
  }
}
