/**
 * The frequency-to-duty mapper: a pure, saturating, piecewise-linear map
 * from a 16-bit frequency in hertz to an 8-bit PWM duty value.
 */
module FrequencyToPwmMapper {
  import opened Ints
  import opened Config

  /**
   * Duty for a frequency: 0 up to MapFreqMinHz, 255 from MapFreqMaxHz on,
   * and in between the floor of the linear interpolation, computed in 32-bit
   * unsigned arithmetic and narrowed to 8 bits.
   */
  function FrequencyToPwm(freqHz: uint16): (duty: uint8)
    ensures freqHz <= MapFreqMinHz ==> duty == 0
    ensures freqHz >= MapFreqMaxHz ==> duty == 255
    ensures MapFreqMinHz < freqHz < MapFreqMaxHz ==>
      duty * (MapFreqMaxHz - MapFreqMinHz) <= (freqHz - MapFreqMinHz) * 255 < (duty + 1) * (MapFreqMaxHz - MapFreqMinHz)
  {
    if freqHz <= MapFreqMinHz then 0
    else if freqHz >= MapFreqMaxHz then 255
    else
      var num := Wrap32((freqHz - MapFreqMinHz) * 255);
      var den := Wrap32(MapFreqMaxHz - MapFreqMinHz);
      DivBounds(num, den);
      Wrap8(num / den)
  }

  /**
   * In the linear region the 32-bit product does not wrap, the result is
   * the exact floor of the interpolation, and it is at most 254, so the
   * 8-bit narrowing is lossless.
   */
  lemma LinearRegionExact(freqHz: uint16)
    requires MapFreqMinHz < freqHz < MapFreqMaxHz
    ensures (freqHz - MapFreqMinHz) * 255 <= 449 * 255 < TWO_32
    ensures FrequencyToPwm(freqHz) == (freqHz - MapFreqMinHz) * 255 / (MapFreqMaxHz - MapFreqMinHz)
    ensures FrequencyToPwm(freqHz) <= 254
  {
    var num := (freqHz - MapFreqMinHz) * 255;
    MulMonotone(freqHz - MapFreqMinHz, 449, 255);
    QuotientBelow(num, 450, 255);
  }

  /** The map is monotone over the whole 16-bit input range. */
  lemma Monotone(f1: uint16, f2: uint16)
    requires f1 <= f2
    ensures FrequencyToPwm(f1) <= FrequencyToPwm(f2)
  {
    if MapFreqMinHz < f1 && f2 < MapFreqMaxHz {
      var d1, d2 := FrequencyToPwm(f1), FrequencyToPwm(f2);
      MulMonotone(f1 - MapFreqMinHz, f2 - MapFreqMinHz, 255);
      MulCancel(d1, d2 + 1, 450);
    } else if MapFreqMinHz < f1 < MapFreqMaxHz {
      LinearRegionExact(f1);
    } else if f2 < MapFreqMaxHz && MapFreqMinHz < f2 {
      LinearRegionExact(f2);
    }
  }

  /** Points of the map: the midpoint example, and a frequency just above the lower bound that still yields 0. */
  lemma Examples()
    ensures FrequencyToPwm(300) == 85
    ensures FrequencyToPwm(151) == 0
    ensures FrequencyToPwm(599) == 254
    ensures FrequencyToPwm(0) == 0 && FrequencyToPwm(65535) == 255
  {
  }
}
