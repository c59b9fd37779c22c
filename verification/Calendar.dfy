/** The Gregorian calendar as far as it bounds timestamps. */
module Calendar {

  function LeapDays(year: int): int {
    year / 4 - year / 100 + year / 400
  }

  /** Days from the start of 1970 to the start of a year. */
  function DaysTo(year: int): int {
    365 * (year - 1970) + (LeapDays(year - 1) - LeapDays(1969))
  }

  const DAY_SECONDS: int := 86_400

  const FIRST_YEAR: int := -262_143
  const LAST_YEAR: int := 262_142
}
