/**
 * Unit conversion and single-register readings: the gain-code divisor table
 * (hmc5983_convert_hex_2_field), the assembly of a 16-bit sample from its
 * high and low data bytes (hmc5983_get_raw_magnetic_x/y/z) and the
 * temperature transfer function (hmc5983_get_temp).
 */
module Conversion {
  import opened Wrappers
  import opened Registers

  /** The gain codes of configuration register B, from the narrowest field range to the widest. */
  const GainCodes: seq<byte> := [0x00, 0x20, 0x40, 0x60, 0x80, 0xA0, 0xC0, 0xE0]

  /** Counts per Gauss for each entry of GainCodes (the datasheet's gain table). */
  const CountsPerGauss: seq<int> := [1370, 1090, 820, 660, 440, 390, 330, 230]

  /** The divisor used for gain code `gain`; anything that is not one of the first seven codes falls through to 230. */
  function GainDivisor(gain: byte): (d: int)
    ensures 230 <= d <= 1370
    ensures gain % 0x20 != 0 ==> d == 230
  {
    if gain == 0x00 then 1370
    else if gain == 0x20 then 1090
    else if gain == 0x40 then 820
    else if gain == 0x60 then 660
    else if gain == 0x80 then 440
    else if gain == 0xA0 then 390
    else if gain == 0xC0 then 330
    else 230
  }

  /**
   * The if/else chain agrees with the gain table: each listed code selects
   * its own divisor, and every byte not listed (not of the form 0x20 * k)
   * divides by the widest range's 230.
   */
  lemma GainDivisorMatchesTable(gain: byte)
    ensures forall k :: 0 <= k < |GainCodes| && GainCodes[k] == gain ==> GainDivisor(gain) == CountsPerGauss[k]
    ensures gain !in GainCodes ==> GainDivisor(gain) == 230
    ensures gain in GainCodes <==> gain % 0x20 == 0
  {
  }

  /** Wider field ranges have fewer counts per Gauss: the divisor strictly decreases along the code list. */
  lemma GainDivisorDecreasing(g1: byte, g2: byte)
    requires g1 % 0x20 == 0 && g2 % 0x20 == 0
    requires g1 < g2
    ensures GainDivisor(g1) > GainDivisor(g2)
  {
  }

  /** Every divisor is one of the eight table entries, so the conversion never divides by zero. */
  lemma GainDivisorInTable(gain: byte)
    ensures GainDivisor(gain) in CountsPerGauss
    ensures GainDivisor(gain) >= 230
  {
  }

  /** Converts a raw sample to Gauss under the given gain code. */
  function ToGauss(raw: int, gain: byte): (field: real)
    ensures field * GainDivisor(gain) as real == raw as real
  {
    raw as real / GainDivisor(gain) as real
  }

  /**
   * `hi << 8 | lo`, the 16-bit word read from a data register pair. Both
   * bytes are promoted to int and `lo` occupies only the low eight bits
   * that the shift clears, so the or is an addition.
   */
  function Word(hi: byte, lo: byte): (w: int)
    ensures 0 <= w < 0x1_0000
    ensures w / 256 == hi && w % 256 == lo
  {
    hi * 256 + lo
  }

  /** Different byte pairs give different words. */
  lemma WordInjective(h1: byte, l1: byte, h2: byte, l2: byte)
    ensures Word(h1, l1) == Word(h2, l2) <==> h1 == h2 && l1 == l2
  {
  }

  /**
   * One raw axis reading: both data registers are read; if either read
   * failed there is no data, otherwise the word they form, divided by the
   * gain's divisor when `applyGain` is set.
   */
  function RawAxis(msb: Reply, lsb: Reply, applyGain: bool, gain: byte): (v: Option<real>)
    ensures v.None? <==> msb.Failed? || lsb.Failed?
    ensures v.Some? && !applyGain ==> v.value == (msb.b * 256 + lsb.b) as real
    ensures v.Some? && !applyGain ==> 0.0 <= v.value <= 65535.0
    ensures v.Some? && applyGain ==> v.value * GainDivisor(gain) as real == (msb.b * 256 + lsb.b) as real
  {
    if msb.Failed? || lsb.Failed? then None
    else if applyGain then Some(ToGauss(Word(msb.b, lsb.b), gain))
    else Some(Word(msb.b, lsb.b) as real)
  }

  /** A gained reading lies between 0 and 65535 / 230 Gauss. */
  lemma RawAxisGainedRange(msb: Reply, lsb: Reply, gain: byte)
    requires msb.Data? && lsb.Data?
    ensures var v := RawAxis(msb, lsb, true, gain);
      v.Some? && 0.0 <= v.value <= 65535.0 / 230.0
  {
    GainDivisorInTable(gain);
    QuotientBound(Word(msb.b, lsb.b) as real, GainDivisor(gain) as real, RawAxis(msb, lsb, true, gain).value);
  }

  /** A quotient of a word by a divisor of at least 230 is at most 65535 / 230. */
  lemma QuotientBound(w: real, d: real, q: real)
    requires 0.0 <= w <= 65535.0 && d >= 230.0 && q * d == w
    ensures 0.0 <= q <= 65535.0 / 230.0
  {
    assert q == w / d;
    assert q * 230.0 <= q * d;
  }

  /**
   * The temperature's 12-bit count: `(msb << 8 | lsb) >> 4` on a
   * non-negative int, that is, the word divided by 16 rounding down.
   */
  function TempCount(msb: byte, lsb: byte): (c: int)
    ensures c == msb * 16 + lsb / 16
    ensures 0 <= c < 4096
    ensures c * 16 <= Word(msb, lsb) < c * 16 + 16
  {
    Word(msb, lsb) / 16
  }

  /** Temperature in degrees Celsius: the 12-bit count at 8 counts per degree, plus 25. */
  function Temperature(msb: byte, lsb: byte): (t: real)
    ensures 25.0 <= t <= 25.0 + 4095.0 / 8.0
    ensures (t - 25.0) * 8.0 == TempCount(msb, lsb) as real
  {
    TempCount(msb, lsb) as real / 8.0 + 25.0
  }

  /** Two byte pairs give the same temperature iff they agree on all but the low four bits. */
  lemma TemperatureResolution(m1: byte, l1: byte, m2: byte, l2: byte)
    ensures Temperature(m1, l1) == Temperature(m2, l2) <==> m1 == m2 && l1 / 16 == l2 / 16
  {
  }

  /** Bytes 0x19, 0x00 read as 75 degrees. */
  lemma TemperatureExample()
    ensures Temperature(0x19, 0x00) == 75.0
  {
  }
}
