/**
 Cron recurrence over UTC instants. A library proposes the next local-time
 match; a bounded minute scan recovers the repeated wall-clock minutes it skips.
 */
module Recurrence {
  import opened Base

  const MINUTE: int := 60 * SECOND

  const OVERLAP: int := 26 * 60 * MINUTE

  datatype RecurrenceError = InvalidExpression | InvalidTimezone | OutOfRange

  /** The answer of a recurrence. */
  type Next = Result<Instant, RecurrenceError>

  /** `v` is the first member of `occ` strictly after `t`. */
  ghost predicate IsNext(occ: iset<Instant>, t: Instant, v: Instant) {
    v in occ && t < v && forall u :: u in occ && t < u ==> v <= u
  }

  /** A recurrence that, whenever it answers, answers with the next occurrence. */
  ghost predicate Recurs(occ: iset<Instant>, next: Instant -> Next) {
    forall t :: next(t).Ok? ==> IsNext(occ, t, next(t).value)
  }

  /** The instants whose local wall-clock minute matches the five fields. */
  ghost function Matching(matches: Instant -> bool): iset<Instant> {
    iset t | t % MINUTE == 0 && matches(t)
  }

  ghost predicate MatchIn(matches: Instant -> bool, after: Instant, until: Instant) {
    exists u :: u in Matching(matches) && after < u <= until
  }

  /** The scan covers the longest civil-time overlap; `latest` is the last representable instant. */
  function ScanEnd(t: Instant, library: Instant, latest: Instant): Instant {
    if t + OVERLAP <= latest && t + OVERLAP < library then t + OVERLAP else library
  }

  lemma NextMinute(m: Instant, u: Instant)
    requires m % MINUTE == 0 && u % MINUTE == 0 && m < u
    ensures m + MINUTE <= u
  {
  }

  /**
   A match inside the scan is found first; otherwise the library's answer stands,
   and it is the next match exactly when the library skipped none beyond the scan.
   */
  method FirstUtcMatch(matches: Instant -> bool, t: Instant, library: Instant, latest: Instant)
    returns (r: Result<Instant, RecurrenceError>)
    ensures r.Err? ==> r.error == OutOfRange && latest < t + OVERLAP + MINUTE
    ensures r.Ok? && MatchIn(matches, t, ScanEnd(t, library, latest)) ==>
              IsNext(Matching(matches), t, r.value)
    ensures r.Ok? && !MatchIn(matches, t, ScanEnd(t, library, latest)) ==> r.value == library
    ensures r.Ok? && MatchIn(matches, t, t + 93_600 * SECOND) && MatchIn(matches, t, library) ==>
              IsNext(Matching(matches), t, r.value)
    ensures r.Ok? && library in Matching(matches) && t < library ==>
              (IsNext(Matching(matches), t, r.value) <==>
               || MatchIn(matches, t, ScanEnd(t, library, latest))
               || !MatchIn(matches, ScanEnd(t, library, latest), library - 1))
  {
    hide IsNext, MatchIn;
    var end := ScanEnd(t, library, latest);
    var candidate := (t / MINUTE + 1) * MINUTE;
    if latest < candidate {
      return Err(OutOfRange);
    }
    while candidate <= end
      invariant candidate % MINUTE == 0 && t < candidate
      invariant forall u :: u in Matching(matches) && t < u ==> candidate <= u
      decreases end - candidate
    {
      if matches(candidate) {
        ScanFinds(matches, t, end, library, candidate);
        return Ok(candidate);
      }
      if latest < candidate + MINUTE {
        return Err(OutOfRange);
      }
      forall u | u in Matching(matches) && t < u ensures candidate + MINUTE <= u {
        NextMinute(candidate, u);
      }
      candidate := candidate + MINUTE;
    }
    ScanMisses(matches, t, library, latest);
    return Ok(library);
  }

  lemma ScanFinds(matches: Instant -> bool, t: Instant, end: Instant, library: Instant, m: Instant)
    requires m % MINUTE == 0 && matches(m) && t < m <= end
    requires forall u :: u in Matching(matches) && t < u ==> m <= u
    ensures IsNext(Matching(matches), t, m) && MatchIn(matches, t, end)
  {
    assert m in Matching(matches);
  }

  lemma ScanMisses(matches: Instant -> bool, t: Instant, library: Instant, latest: Instant)
    requires forall u :: u in Matching(matches) && t < u ==> ScanEnd(t, library, latest) < u
    ensures !MatchIn(matches, t, ScanEnd(t, library, latest))
    ensures !(MatchIn(matches, t, t + 93_600 * SECOND) && MatchIn(matches, t, library))
    ensures library in Matching(matches) && t < library ==>
              (IsNext(Matching(matches), t, library) <==>
               !MatchIn(matches, ScanEnd(t, library, latest), library - 1))
  {
    if library in Matching(matches) && t < library && !MatchIn(matches, ScanEnd(t, library, latest), library - 1) {
      forall u | u in Matching(matches) && t < u ensures library <= u {
      }
    }
  }
}
