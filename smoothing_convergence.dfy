/**
 * Convergence of the reader's Q3 smoothing filter under a steady input:
 * repeated updates toward one target never overshoot, never move away from
 * the target, shrink the excess of the distance over 3 to three quarters per
 * update, and within 44 updates settle at most 3 Q3 units (under half a
 * hertz) from the target, where they stay. A settled filter reports the raw
 * frequency or one hertz below it.
 *
 * The induction arguments are made once, for any update step with the
 * properties one filter update has (Converges), and then applied to the
 * filter update itself.
 */
module SmoothingConvergence {
  import opened Ints
  import opened AdcFrequencyMeter
  import opened ContractionBound

  /** `n` applications of `step`, starting from `x`. */
  function Iterate(step: uint32 -> uint32, x: uint32, n: nat): uint32
    decreases n
  {
    if n == 0 then x else Iterate(step, step(x), n - 1)
  }

  /** One present-path filter update toward a fixed target. */
  function Toward(target: uint32): uint32 -> uint32
  {
    x => FilterUpdate(x, target)
  }

  /** The filter state after `n` present-path updates toward the same target. */
  function Settle(filter: uint32, target: uint32, n: nat): uint32
  {
    Iterate(Toward(target), filter, n)
  }

  /**
   * What one update does to an in-range value: it stays in range, lands
   * between the value and the target, shrinks the excess distance over 3 to
   * at most three quarters, and leaves a warm value within 3 of the target
   * alone.
   */
  ghost predicate Converges(step: uint32 -> uint32, target: uint32)
  {
    forall x: uint32 :: x <= MaxFilterX8 ==>
      && step(x) <= MaxFilterX8
      && Between(x, step(x), target)
      && 4 * (Abs(target - step(x)) - 3) <= 3 * (Abs(target - x) - 3)
      && (0 < x && Abs(target - x) <= 3 ==> step(x) == x)
  }

  /** One update, cold or warm, of an in-range filter toward an in-range target. */
  lemma StepContracts(filter: uint32, target: uint32)
    requires filter <= MaxFilterX8 && target <= MaxFilterX8
    ensures FilterUpdate(filter, target) <= MaxFilterX8
    ensures Between(filter, FilterUpdate(filter, target), target)
    ensures 4 * (Abs(target - FilterUpdate(filter, target)) - 3) <= 3 * (Abs(target - filter) - 3)
    ensures 0 < filter && Abs(target - filter) <= 3 ==> FilterUpdate(filter, target) == filter
  {
  }

  /** The filter update toward any in-range target has the properties the convergence proofs use. */
  lemma FilterUpdateConverges(target: uint32)
    requires target <= MaxFilterX8
    ensures Converges(Toward(target), target)
  {
    forall x: uint32 | x <= MaxFilterX8
      ensures Toward(target)(x) <= MaxFilterX8 && Between(x, Toward(target)(x), target)
      ensures 4 * (Abs(target - Toward(target)(x)) - 3) <= 3 * (Abs(target - x) - 3)
      ensures 0 < x && Abs(target - x) <= 3 ==> Toward(target)(x) == x
    {
      StepContracts(x, target);
    }
  }

  /** Iterating n + 1 times is iterating n times and then stepping once more. */
  lemma {:induction false} IterateLast(step: uint32 -> uint32, x: uint32, n: nat)
    ensures Iterate(step, x, n + 1) == step(Iterate(step, x, n))
    decreases n
  {
    if n > 0 {
      IterateLast(step, step(x), n - 1);
    }
  }

  /** Settling n + 1 times is settling n times and then updating once more. */
  lemma SettleLast(filter: uint32, target: uint32, n: nat)
    ensures Settle(filter, target, n + 1) == FilterUpdate(Settle(filter, target, n), target)
  {
    IterateLast(Toward(target), filter, n);
  }

  /** Iterates of a converging step stay in range, between the start and the target. */
  lemma {:induction false} IterateStaysBetween(step: uint32 -> uint32, target: uint32, x: uint32, n: nat)
    requires Converges(step, target)
    requires x <= MaxFilterX8 && target <= MaxFilterX8
    ensures Iterate(step, x, n) <= MaxFilterX8
    ensures Between(x, Iterate(step, x, n), target)
    decreases n
  {
    if n > 0 {
      IterateStaysBetween(step, target, step(x), n - 1);
    }
  }

  /** Repeated updates stay between the start and the target and never get farther from the target. */
  lemma NeverOvershoots(filter: uint32, target: uint32, n: nat)
    requires filter <= MaxFilterX8 && target <= MaxFilterX8
    ensures Between(filter, Settle(filter, target, n), target)
    ensures Abs(target - Settle(filter, target, n)) <= Abs(target - filter)
  {
    FilterUpdateConverges(target);
    IterateStaysBetween(Toward(target), target, filter, n);
  }

  /** After `n` steps of a converging step the excess distance over 3 is at most ExcessBound(n). */
  lemma {:induction false} IterateWithinBound(step: uint32 -> uint32, target: uint32, x: uint32, n: nat)
    requires Converges(step, target)
    requires x <= MaxFilterX8 && target <= MaxFilterX8
    ensures Abs(target - Iterate(step, x, n)) - 3 <= ExcessBound(n)
    decreases n
  {
    if n > 0 {
      var prev, b := Iterate(step, x, n - 1), ExcessBound(n - 1);
      assert prev <= MaxFilterX8 && Abs(target - prev) - 3 <= b by {
        IterateWithinBound(step, target, x, n - 1);
        IterateStaysBetween(step, target, x, n - 1);
      }
      assert Iterate(step, x, n) == step(prev) by {
        IterateLast(step, x, n - 1);
      }
      assert 4 * (Abs(target - step(prev)) - 3) <= 3 * b;
    }
  }

  /** Within 44 updates the filter is at most 3 Q3 units from the target, from any in-range start. */
  lemma SettlesWithin(filter: uint32, target: uint32, n: nat)
    requires filter <= MaxFilterX8 && target <= MaxFilterX8
    requires n >= 44
    ensures Abs(target - Settle(filter, target, n)) <= 3
  {
    FilterUpdateConverges(target);
    IterateWithinBound(Toward(target), target, filter, n);
    ExcessBoundVanishes(n);
  }

  /** A converging step leaves a warm value within 3 of the target where it is, forever. */
  lemma {:induction false} IterateStaysPut(step: uint32 -> uint32, target: uint32, x: uint32, n: nat)
    requires Converges(step, target)
    requires 0 < x <= MaxFilterX8 && Abs(target - x) <= 3
    ensures Iterate(step, x, n) == x
    decreases n
  {
    if n > 0 {
      IterateStaysPut(step, target, step(x), n - 1);
    }
  }

  /** A warm filter within 3 units of the target no longer moves. */
  lemma SettledStaysPut(filter: uint32, target: uint32, n: nat)
    requires 0 < filter <= MaxFilterX8 && target <= MaxFilterX8
    requires Abs(target - filter) <= 3
    ensures Settle(filter, target, n) == filter
  {
    FilterUpdateConverges(target);
    IterateStaysPut(Toward(target), target, filter, n);
  }

  /** A filter within 3 Q3 units of 8 * hz reports hz or hz - 1 in whole hertz. */
  lemma SettledReportsWithinOneHertz(filter: uint32, hz: uint16)
    requires Abs(8 * hz - filter) <= 3
    ensures hz - 1 <= filter / 8 <= hz
  {
  }
}
