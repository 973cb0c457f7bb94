/**
 * The bound used for the smoothing filter's convergence: the largest
 * possible excess of the filter's distance to its target over 3 Q3 units,
 * 8 * 65535 - 3 = 524277, shrunk to three quarters (rounded down) once per
 * update, reaches 0 after 44 updates.
 */
module ContractionBound {

  /** `b` shrunk to three quarters, rounded down, `n` times. */
  function Shrunk(b: int, n: nat): int
    decreases n
  {
    if n == 0 then b else 3 * Shrunk(b, n - 1) / 4
  }

  /**
   * A bound on the excess of the distance to the target over 3 after `n`
   * updates from any in-range start.
   */
  function ExcessBound(n: nat): int
  {
    Shrunk(524277, n)
  }

  /** Shrinking m + n times is shrinking m times and then n more. */
  lemma {:induction false} ShrunkAdd(b: int, m: nat, n: nat)
    ensures Shrunk(b, m + n) == Shrunk(Shrunk(b, m), n)
    decreases n
  {
    if n > 0 {
      ShrunkAdd(b, m, n - 1);
    }
  }

  /** Four rounds of 11 updates each take the bound from 524277 to 0. */
  lemma ElevenUpdateRounds()
    ensures Shrunk(524277, 11) == 22141
    ensures Shrunk(22141, 11) == 933
    ensures Shrunk(933, 11) == 38
    ensures Shrunk(38, 11) == 0
  {
    assert Shrunk(524277, 1) == 393207;
    assert Shrunk(524277, 2) == 294905;
    assert Shrunk(524277, 3) == 221178;
    assert Shrunk(524277, 4) == 165883;
    assert Shrunk(524277, 5) == 124412;
    assert Shrunk(524277, 6) == 93309;
    assert Shrunk(524277, 7) == 69981;
    assert Shrunk(524277, 8) == 52485;
    assert Shrunk(524277, 9) == 39363;
    assert Shrunk(524277, 10) == 29522;

    assert Shrunk(22141, 1) == 16605;
    assert Shrunk(22141, 2) == 12453;
    assert Shrunk(22141, 3) == 9339;
    assert Shrunk(22141, 4) == 7004;
    assert Shrunk(22141, 5) == 5253;
    assert Shrunk(22141, 6) == 3939;
    assert Shrunk(22141, 7) == 2954;
    assert Shrunk(22141, 8) == 2215;
    assert Shrunk(22141, 9) == 1661;
    assert Shrunk(22141, 10) == 1245;

    assert Shrunk(933, 1) == 699;
    assert Shrunk(933, 2) == 524;
    assert Shrunk(933, 3) == 393;
    assert Shrunk(933, 4) == 294;
    assert Shrunk(933, 5) == 220;
    assert Shrunk(933, 6) == 165;
    assert Shrunk(933, 7) == 123;
    assert Shrunk(933, 8) == 92;
    assert Shrunk(933, 9) == 69;
    assert Shrunk(933, 10) == 51;

    assert Shrunk(38, 1) == 28;
    assert Shrunk(38, 2) == 21;
    assert Shrunk(38, 3) == 15;
    assert Shrunk(38, 4) == 11;
    assert Shrunk(38, 5) == 8;
    assert Shrunk(38, 6) == 6;
    assert Shrunk(38, 7) == 4;
    assert Shrunk(38, 8) == 3;
    assert Shrunk(38, 9) == 2;
    assert Shrunk(38, 10) == 1;
  }

  /** The bound has reached 0 after 44 updates. */
  lemma ExcessBoundAt44()
    ensures ExcessBound(44) == 0
  {
    ElevenUpdateRounds();
    ShrunkAdd(524277, 11, 11);
    ShrunkAdd(524277, 22, 11);
    ShrunkAdd(524277, 33, 11);
  }

  /** The bound is 0 after 44 or more updates. */
  lemma {:induction false} ExcessBoundVanishes(n: nat)
    requires n >= 44
    ensures ExcessBound(n) == 0
    decreases n
  {
    if n == 44 {
      ExcessBoundAt44();
    } else {
      ExcessBoundVanishes(n - 1);
    }
  }
}
