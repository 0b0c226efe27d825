/**
 * The moment operations the AfterShip client applies to timestamps.
 *
 * A timestamp is an integer instant. The operations depend on the device
 * timezone and the current time, so they are not computed here: a `Clock`
 * carries them as functions, and every property proved about the client holds
 * for every choice of them.
 */
module Clocks {

  datatype Clock = Clock(
    /** The current instant, `moment()` (an earlier `endOf('day')` does not change it). */
    now: int,
    /** `device.today`, the start of the device's current day. */
    today: int,
    /** `t.daysToToday()`: whole days from `t` to today (positive in the past). */
    daysToToday: int -> int,
    /** `t.daysFromToday()`: whole days from today to `t` (positive in the future). */
    daysFromToday: int -> int,
    /** `a.diff(b, 'hours')`. */
    hoursBetween: (int, int) -> int,
    /** `a.diff(b, 'days')`. */
    daysBetween: (int, int) -> int,
    /** `t.startOf('day')`. */
    startOfDay: int -> int,
    /** `t.endOf('day')`. */
    endOfDay: int -> int,
    /** `t.calendar()`: "today", "tomorrow", "on Monday", ... */
    calendar: int -> string,
    /** `t.format('LT')`: the local time of day. */
    timeOfDay: int -> string)

  /** An instant is zero hours from itself, as it is for real moments. */
  ghost predicate HoursReflexive(c: Clock) {
    forall t :: c.hoursBetween(t, t) == 0
  }

  /** An instant is zero days from itself. */
  ghost predicate DaysReflexive(c: Clock) {
    forall t :: c.daysBetween(t, t) == 0
  }

  /** The end of an end of day is that end of day. */
  ghost predicate EndOfDayIdempotent(c: Clock) {
    forall t :: c.endOfDay(c.endOfDay(t)) == c.endOfDay(t)
  }

  /** `f` applied `n` times: what `n` in-place `endOf('day')` calls leave in a moment. */
  function Iterate(f: int -> int, t: int, n: nat): int {
    if n == 0 then t else f(Iterate(f, t, n - 1))
  }

  /** Once `f` is idempotent, one application and any later number give the same instant. */
  lemma {:induction false} IterateIdempotent(f: int -> int, t: int, n: nat)
    requires forall u :: f(f(u)) == f(u)
    requires n >= 1
    ensures Iterate(f, t, n) == f(t)
  {
    if n > 1 {
      IterateIdempotent(f, t, n - 1);
      assert Iterate(f, t, n) == f(f(t));
    }
  }

  /** The same for every number of applications at once. */
  lemma IterateIdempotentAll(f: int -> int, t: int)
    requires forall u :: f(f(u)) == f(u)
    ensures forall n: nat :: n >= 1 ==> Iterate(f, t, n) == f(t)
  {
    forall n: nat | n >= 1
      ensures Iterate(f, t, n) == f(t)
    {
      IterateIdempotent(f, t, n);
    }
  }

  /** `Math.abs`. */
  function Abs(x: int): nat {
    if x < 0 then -x else x
  }
}
