/**
 * The timezone correction applied to the date the control writes back: the date is
 * moved by its own local offset from UTC and, unless the bound field is stored
 * timezone-independently, by the offset the host reports for the user.
 */
module TimeZone {

  /** A point in time, counted in whole minutes. */
  type Date = int

  /**
   * The parts of the JavaScript runtime's local calendar that the control uses,
   * left uninterpreted.
   */
  datatype Calendar = Calendar(
    // `new Date(year, monthIndex, day)`: local midnight of that calendar day
    localDate: (int, int, int) -> Date,
    // `Date.prototype.getFullYear`
    fullYear: Date -> int,
    // `Date.prototype.getTimezoneOffset`, in minutes
    timezoneOffset: Date -> int)

  /** The host's field behavior code for date-only, timezone-independent storage. */
  const TimezoneIndependentBehavior: int := 3

  predicate IsTimezoneIndependent(behavior: int) {
    behavior == TimezoneIndependentBehavior
  }

  /** The host offset to apply: none for a timezone-independent field, else the host's value for `date`. */
  function HostOffset(behavior: int, hostOffset: Date -> int, date: Date): (m: int)
    ensures IsTimezoneIndependent(behavior) ==> m == 0
    ensures !IsTimezoneIndependent(behavior) ==> m == hostOffset(date)
  {
    if behavior == TimezoneIndependentBehavior then 0 else hostOffset(date)
  }

  /** `correctTimeZone`: `date` advanced by its local offset plus the host offset to apply. */
  function Corrected(date: Date, behavior: int, localOffset: Date -> int, hostOffset: Date -> int): (r: Date)
    ensures r - date == localOffset(date) + HostOffset(behavior, hostOffset, date)
  {
    date + localOffset(date) + HostOffset(behavior, hostOffset, date)
  }

  /** For a timezone-independent field the host offset function plays no part. */
  lemma IndependentIgnoresHostOffset(date: Date, behavior: int, localOffset: Date -> int, h1: Date -> int, h2: Date -> int)
    requires IsTimezoneIndependent(behavior)
    ensures Corrected(date, behavior, localOffset, h1) == Corrected(date, behavior, localOffset, h2)
    ensures Corrected(date, behavior, localOffset, h1) == date + localOffset(date)
  {
  }

  /** For any other field the host offset enters the result exactly once, with sign +. */
  lemma HostOffsetAddedOnce(date: Date, behavior: int, localOffset: Date -> int, h1: Date -> int, h2: Date -> int)
    requires !IsTimezoneIndependent(behavior)
    ensures Corrected(date, behavior, localOffset, h1) - Corrected(date, behavior, localOffset, h2) == h1(date) - h2(date)
  {
  }

  /** A host offset of zero at the date gives the same result as a timezone-independent field. */
  lemma ZeroHostOffsetIsIndependent(date: Date, behavior: int, localOffset: Date -> int, hostOffset: Date -> int)
    requires hostOffset(date) == 0
    ensures Corrected(date, behavior, localOffset, hostOffset) == Corrected(date, TimezoneIndependentBehavior, localOffset, hostOffset)
  {
  }

  /** The result depends on the two offset functions only through their values at `date`. */
  lemma OnlyOffsetsAtDateMatter(date: Date, behavior: int, lo1: Date -> int, lo2: Date -> int, h1: Date -> int, h2: Date -> int)
    requires lo1(date) == lo2(date) && h1(date) == h2(date)
    ensures Corrected(date, behavior, lo1, h1) == Corrected(date, behavior, lo2, h2)
  {
  }
}
