/** `file_age_in_days` and the freshness test that guards every reference
    endpoint (utilities/tools.py:8-26, 54, 127, 188, 248). Times are whole
    seconds; the source divides floating-point seconds and truncates with
    `int(...)`, which this models as division truncating toward zero. */
module FileAge {

  const SecondsPerDay: int := 24 * 3600

  /** A persisted reference table younger than this many whole days is
      reused. */
  const FreshDays: int := 5

  /** Whole days elapsed from `createdAt` to `now`, truncated toward zero
      like Python's `int()`; a creation time in the future gives a day count
      of zero or below. */
  function AgeInDays(createdAt: int, now: int): (days: int)
    ensures now >= createdAt ==>
      days >= 0 && days * SecondsPerDay <= now - createdAt < (days + 1) * SecondsPerDay
    ensures now < createdAt ==>
      days <= 0 && (days - 1) * SecondsPerDay < now - createdAt <= days * SecondsPerDay
  {
    var elapsed := now - createdAt;
    if elapsed >= 0 then elapsed / SecondsPerDay else -((-elapsed) / SecondsPerDay)
  }

  /** `os.path.isfile(path) and file_age_in_days(path) < 5`. */
  predicate IsFresh(isFile: bool, createdAt: int, now: int)
  {
    isFile && AgeInDays(createdAt, now) < FreshDays
  }

  /** For a file created in the past, the persisted copy is reused exactly
      while fewer than five full days (432000 seconds) have elapsed. */
  lemma FreshIffUnderFiveDays(createdAt: int, now: int)
    requires createdAt <= now
    ensures IsFresh(true, createdAt, now) <==> now - createdAt < FreshDays * SecondsPerDay
  {
  }

  /** Once stale, a persisted copy stays stale as time goes on. */
  lemma StaleStaysStale(createdAt: int, now: int, later: int)
    requires now <= later
    requires !IsFresh(true, createdAt, now)
    ensures !IsFresh(true, createdAt, later)
  {
  }

  /** A file that does not exist is never reused, whatever its recorded
      time; one written at `now` is reused at `now`. */
  lemma ExistenceDecides(createdAt: int, now: int)
    ensures !IsFresh(false, createdAt, now)
    ensures IsFresh(true, now, now)
  {
  }
}
