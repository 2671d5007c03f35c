/**
 * The display refresh cadence: the main loop redraws when more than a
 * second has passed since the last redraw, measured on the 32-bit
 * millisecond counter, whose difference wraps around modulo 2^32.
 */
module Cadence {

  const Modulus: int := 0x1_0000_0000

  /** An `unsigned long` on the target: 32 bits. */
  newtype u32 = x: int | 0 <= x < 0x1_0000_0000

  /** Milliseconds that must have passed, strictly exceeded, before the next redraw. */
  const RefreshPeriod: int := 1000

  /** `now - last` in unsigned 32-bit arithmetic: the time gone by, modulo 2^32. */
  function Elapsed(now: u32, last: u32): (d: u32)
    ensures (last as int + d as int) % Modulus == now as int
  {
    ((now as int - last as int) % Modulus) as u32
  }

  /** The elapsed time is the only 32-bit count that takes `last` to `now`. */
  lemma ElapsedUnique(now: u32, last: u32, d: int)
    requires 0 <= d < Modulus
    requires (last as int + d) % Modulus == now as int
    ensures d == Elapsed(now, last) as int
  {
    var e := Elapsed(now, last) as int;
    var q1 := (last as int + d) / Modulus;
    var q2 := (last as int + e) / Modulus;
    assert last as int + d == q1 * Modulus + now as int;
    assert last as int + e == q2 * Modulus + now as int;
    assert d - e == (q1 - q2) * Modulus;
    assert -Modulus < d - e < Modulus;
  }

  /** The redraw condition of the main loop. */
  predicate RefreshDue(last: u32, now: u32)
    ensures RefreshDue(last, now) ==> now != last
    ensures last as int <= now as int <= last as int + RefreshPeriod ==> !RefreshDue(last, now)
    ensures last as int + RefreshPeriod < now as int ==> RefreshDue(last, now)
  {
    Elapsed(now, last) as int > RefreshPeriod
  }

  /**
   * The condition survives the counter wrapping: if `span` milliseconds
   * (fewer than 2^32) have passed since `last`, a redraw is due exactly when
   * `span` exceeds the period, wherever the counter overflowed meanwhile.
   */
  lemma RefreshAcrossWrap(last: u32, span: int)
    requires 0 <= span < Modulus
    ensures RefreshDue(last, ((last as int + span) % Modulus) as u32) <==> span > RefreshPeriod
  {
    var now := ((last as int + span) % Modulus) as u32;
    ElapsedUnique(now, last, span);
  }
}
