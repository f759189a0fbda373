/** The freshness window of a pending dependency: an update is acceptable for
    a wait of `requiredDays` days when it was created no earlier than that
    many days before a reference instant. Instants are integer milliseconds;
    subtracting days from a local calendar date is modelled as subtracting
    whole days of 86 400 000 ms (daylight-saving shifts are not modelled). */
module TimeWindow {

  const DAY_MS: int := 86_400_000

  /** The instant `requiredDays` days before `referenceDate`. */
  function CalculateCutoffDate(requiredDays: int, referenceDate: int): (cutoff: int)
    ensures referenceDate - cutoff == requiredDays * DAY_MS
  {
    referenceDate - requiredDays * DAY_MS
  }

  /** Whether an update created at `createdAt` satisfies a wait of
      `requiredDays` days measured back from `referenceDate`; a non-positive
      wait accepts every update. */
  predicate IsUpdateValid(createdAt: int, requiredDays: int, referenceDate: int) {
    if requiredDays <= 0 then true
    else createdAt >= referenceDate - requiredDays * DAY_MS
  }

  /** A non-positive wait accepts everything, however old the update. */
  lemma NonPositiveWindowAcceptsAll(createdAt: int, requiredDays: int, referenceDate: int)
    requires requiredDays <= 0
    ensures IsUpdateValid(createdAt, requiredDays, referenceDate)
  {
  }

  /** A positive wait accepts exactly the updates at or after the cutoff; the
      boundary itself is accepted and one millisecond earlier is not. */
  lemma PositiveWindowIsCutoff(createdAt: int, requiredDays: int, referenceDate: int)
    requires requiredDays > 0
    ensures IsUpdateValid(createdAt, requiredDays, referenceDate)
      <==> createdAt >= CalculateCutoffDate(requiredDays, referenceDate)
    ensures IsUpdateValid(CalculateCutoffDate(requiredDays, referenceDate), requiredDays, referenceDate)
    ensures !IsUpdateValid(CalculateCutoffDate(requiredDays, referenceDate) - 1, requiredDays, referenceDate)
  {
  }

  /** Validity is the disjunction of "no window" and "not older than the cutoff". */
  lemma UpdateValidIsCutoffOrNoWindow(createdAt: int, requiredDays: int, referenceDate: int)
    ensures IsUpdateValid(createdAt, requiredDays, referenceDate)
      <==> (requiredDays <= 0 || createdAt >= CalculateCutoffDate(requiredDays, referenceDate))
  {
  }

  /** Going back `a` days and then `b` more is going back `a + b` days, so the
      cutoff does not depend on how the span falls across months or years. */
  lemma CutoffAdditive(a: int, b: int, referenceDate: int)
    ensures CalculateCutoffDate(a + b, referenceDate)
      == CalculateCutoffDate(b, CalculateCutoffDate(a, referenceDate))
  {
  }

  /** A longer positive wait accepts everything a shorter positive wait accepts. */
  lemma ValidMonotoneInDays(createdAt: int, shorter: int, longer: int, referenceDate: int)
    requires 0 < shorter <= longer
    requires IsUpdateValid(createdAt, shorter, referenceDate)
    ensures IsUpdateValid(createdAt, longer, referenceDate)
  {
    assert shorter * DAY_MS <= longer * DAY_MS;
  }

  /** Monotonicity in the wait stops at zero: a wait of 0 accepts an update that
      a wait of one day rejects. */
  lemma ValidNotMonotoneFromZero()
    ensures IsUpdateValid(0, 0, 2 * DAY_MS)
    ensures !IsUpdateValid(0, 1, 2 * DAY_MS)
  {
  }

  /** A later update stays valid. */
  lemma ValidMonotoneInCreatedAt(earlier: int, later: int, requiredDays: int, referenceDate: int)
    requires earlier <= later
    requires IsUpdateValid(earlier, requiredDays, referenceDate)
    ensures IsUpdateValid(later, requiredDays, referenceDate)
  {
  }
}
