/** The recording window: the closed interval test `should_record` and the
    start/end check `main` makes before doing anything else.

    Instants are integers on one common scale (Python compares offset-aware
    datetimes after normalising them to UTC, so only their order matters).
    The clock is not read here: the instant to test is a parameter. */
module Window {

  /** `should_record`: true while `start <= now <= end`; both ends count. */
  predicate ShouldRecord(start: int, end: int, now: int) {
    start <= now <= end
  }

  /** The window `main` accepts: it raises `ValueError` when `end <= start`. */
  predicate ValidWindow(start: int, end: int) {
    start < end
  }

  /** `should_record` is exactly membership in the closed interval: an instant
      equal to `start` or to `end` is inside, one second beyond is outside. */
  lemma ShouldRecordIsClosedInterval(start: int, end: int, now: int)
    requires ValidWindow(start, end)
    ensures ShouldRecord(start, end, now) <==> !(now < start) && !(end < now)
    ensures ShouldRecord(start, end, start) && ShouldRecord(start, end, end)
    ensures !ShouldRecord(start, end, start - 1) && !ShouldRecord(start, end, end + 1)
  {
  }
}
