/**
 * source/mist_port/time_helper.c: subtraction of two struct timeval, with the carry
 * performed in place on the subtrahend.
 *
 * `Long` is the target's 32-bit signed long (also its int); every intermediate result
 * below is proved to stay in it.
 */
module Timeval {

  newtype Long = x: int | -0x8000_0000 <= x < 0x8000_0000

  const MICROS: int := 1_000_000

  class Timeval {
    var tvSec: Long
    var tvUsec: Long

    /** The instant in microseconds. */
    ghost function Micros(): int
      reads this
    {
      tvSec as int * MICROS + tvUsec as int
    }

    constructor (sec: Long, usec: Long)
      ensures tvSec == sec && tvUsec == usec
    {
      tvSec, tvUsec := sec, usec;
    }
  }

  predicate InLong(v: int) {
    -0x8000_0000 <= v < 0x8000_0000
  }

  /** Whole seconds by which the first carry moves the subtrahend. */
  function Carry(xUsec: int, yUsec: int): int {
    if xUsec < yUsec then (yUsec - xUsec) / MICROS + 1 else 0
  }

  /** Whole seconds by which the second carry, seeing a difference of d microseconds, moves it back. */
  function CarryBack(d: int): int {
    if d > MICROS then d / MICROS else 0
  }

  /**
   * No step of the subtraction leaves the range of a long: not the carries, not the updated
   * subtrahend, not the two differences. Outside it the C code has no defined result.
   */
  predicate NoOverflow(xSec: int, xUsec: int, ySec: int, yUsec: int) {
    var carry := Carry(xUsec, yUsec);
    var yUsec1, ySec1 := yUsec - MICROS * carry, ySec + carry;
    var back := CarryBack(xUsec - yUsec1);
    && (xUsec < yUsec ==> InLong(yUsec - xUsec) && InLong(MICROS * carry) && InLong(yUsec1) && InLong(ySec1))
    && InLong(xUsec - yUsec1)
    && InLong(yUsec1 + MICROS * back) && InLong(ySec1 - back)
    && InLong(xSec - (ySec1 - back))
  }

  /**
   * For normalised times, any two instants a 32-bit clock can tell and whose difference in
   * seconds, less a possible borrow, is again a long.
   */
  lemma NormalisedFits(xSec: int, xUsec: int, ySec: int, yUsec: int)
    requires InLong(xSec) && InLong(ySec) && Normalised(xUsec) && Normalised(yUsec)
    ensures NoOverflow(xSec, xUsec, ySec, yUsec) <==>
            if xUsec < yUsec then InLong(ySec + 1) && InLong(xSec - ySec - 1) else InLong(xSec - ySec)
  {
  }

  predicate Normalised(usec: int) {
    0 <= usec < MICROS
  }

  /**
   * The microseconds the code ends up with: the remainder, except that a difference
   * of exactly one second, or one below zero by whole seconds, keeps a full million.
   */
  function ResultUsec(xUsec: int, yUsec: int): int {
    var d := xUsec - yUsec;
    if d % MICROS == 0 && (d < 0 || d == MICROS) then MICROS else d % MICROS
  }

  /** Exactly when a full million is left over; never for a normalised pair. */
  lemma ResultUsecRange(xUsec: int, yUsec: int)
    ensures 0 <= ResultUsec(xUsec, yUsec) <= MICROS
    ensures (ResultUsec(xUsec, yUsec) - (xUsec - yUsec)) % MICROS == 0
    ensures ResultUsec(xUsec, yUsec) == MICROS <==>
            xUsec - yUsec == MICROS || (xUsec < yUsec && (yUsec - xUsec) % MICROS == 0)
    ensures Normalised(xUsec) && Normalised(yUsec) ==> ResultUsec(xUsec, yUsec) < MICROS
  {
    var d := xUsec - yUsec;
    assert d == d / MICROS * MICROS + d % MICROS;
  }

  /** For a normalised pair the result is the floor of the difference and its fraction. */
  lemma FloorOfDifference(secs: int, usec: int, micros: int)
    requires micros == secs * MICROS + usec && Normalised(usec)
    ensures secs == micros / MICROS && usec == micros % MICROS
  {
  }

  /** The two carries leave exactly those microseconds as the difference, and do not move the subtrahend in time. */
  lemma CarriesGiveResult(xUsec: int, yUsec: int)
    ensures var yUsec1 := yUsec - MICROS * Carry(xUsec, yUsec);
            xUsec - (yUsec1 + MICROS * CarryBack(xUsec - yUsec1)) == ResultUsec(xUsec, yUsec)
  {
    var d := xUsec - yUsec;
    assert d == d / MICROS * MICROS + d % MICROS;
  }

  /** timeval_subtract(result, x, y), whatever pointers are equal. */
  method TimevalSubtract(result: Timeval, x: Timeval, y: Timeval) returns (seconds: real)
    requires NoOverflow(x.tvSec as int, x.tvUsec as int, y.tvSec as int, y.tvUsec as int)
    modifies result, y
    ensures result.Micros() == old(x.Micros()) - old(y.Micros())
    ensures result.tvUsec as int == ResultUsec(old(x.tvUsec) as int, old(y.tvUsec) as int)
    ensures 0 <= result.tvUsec as int <= MICROS
    ensures old(Normalised(x.tvUsec as int) && Normalised(y.tvUsec as int)) ==>
              result.tvUsec as int < MICROS
              && result.tvSec as int == (old(x.Micros()) - old(y.Micros())) / MICROS
    ensures y != result ==> y.Micros() == old(y.Micros())
    ensures seconds == (old(x.Micros()) - old(y.Micros())) as real / MICROS as real
  {
    hide ResultUsec;
    ghost var xUsec, yUsec := x.tvUsec as int, y.tvUsec as int;
    ghost var difference := x.Micros() - y.Micros();
    CarriesGiveResult(xUsec, yUsec);
    ResultUsecRange(xUsec, yUsec);
    Carries(x, y);
    result.tvSec := x.tvSec - y.tvSec;
    result.tvUsec := x.tvUsec - y.tvUsec;
    seconds := result.tvSec as real + result.tvUsec as real / 1000000.0;
    if Normalised(xUsec) && Normalised(yUsec) {
      FloorOfDifference(result.tvSec as int, result.tvUsec as int, difference);
    }
  }

  /** The two ifs that perform the carry for the later subtraction by updating y. */
  method Carries(x: Timeval, y: Timeval)
    requires NoOverflow(x.tvSec as int, x.tvUsec as int, y.tvSec as int, y.tvUsec as int)
    modifies y
    ensures var carry := Carry(old(x.tvUsec) as int, old(y.tvUsec) as int);
            var yUsec1 := old(y.tvUsec) as int - MICROS * carry;
            var back := CarryBack(old(x.tvUsec) as int - yUsec1);
            y.tvUsec as int == yUsec1 + MICROS * back && y.tvSec as int == old(y.tvSec) as int + carry - back
  {
    if x.tvUsec < y.tvUsec {
      var nsec := (y.tvUsec - x.tvUsec) / 1000000 + 1;
      y.tvUsec := y.tvUsec - 1000000 * nsec;
      y.tvSec := y.tvSec + nsec;
    }
    if x.tvUsec - y.tvUsec > 1000000 {
      var nsec := (x.tvUsec - y.tvUsec) / 1000000;
      y.tvUsec := y.tvUsec + 1000000 * nsec;
      y.tvSec := y.tvSec - nsec;
    }
  }
}
