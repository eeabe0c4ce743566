/** Turning one due Schedule into planned occurrences, misfire decisions and a new cursor. */
module Planner {
  import opened Base
  import opened Recurrence

  datatype MisfirePolicy = RunLate | SkipLate | GracePeriod

  datatype CatchupPolicy = SkipMissed | RunOnce | CatchUp

  datatype Timing = Cron | Once

  datatype Config = Config(
    timing: Timing, misfire: MisfirePolicy, grace: Option<nat>,
    catchup: CatchupPolicy, maxRuns: nat, maxAge: nat)

  datatype Planned = Planned(
    at: Instant, execute: bool, lateness: nat, reason: Option<string>, deadline: Option<Instant>)

  datatype Plan = Plan(occurrences: seq<Planned>, next: Option<Instant>, disable: bool)

  // ---- Misfire ------------------------------------------------------------------

  /** Whole seconds, truncated toward zero and never negative. */
  function Lateness(at: Instant, now: Instant): nat {
    if now <= at then 0 else (now - at) / SECOND
  }

  predicate Executes(c: Config, at: Instant, now: Instant) {
    match c.misfire
    case RunLate => true
    case SkipLate => Lateness(at, now) <= 30
    case GracePeriod => c.grace.Some? && Lateness(at, now) <= c.grace.value
  }

  function DispatchDeadline(c: Config, at: Instant): Option<Instant> {
    match c.misfire
    case RunLate => None
    case SkipLate => Some(at + 30 * SECOND)
    case GracePeriod => if c.grace.Some? then Some(at + c.grace.value * SECOND) else None
  }

  function OccurrenceRow(c: Config, at: Instant, now: Instant, reason: Option<string>): Planned {
    if Executes(c, at, now)
    then Planned(at, true, Lateness(at, now), reason, DispatchDeadline(c, at))
    else Planned(at, false, Lateness(at, now), Some("misfire policy rejected the late occurrence"), None)
  }

  function SkippedRow(at: Instant, now: Instant, reason: string): Planned {
    Planned(at, false, Lateness(at, now), Some(reason), None)
  }

  /** The decision and the deadline agree to within one second; nothing else can refuse a row. */
  lemma DecisionMeetsDeadline(c: Config, at: Instant, now: Instant)
    ensures var d := DispatchDeadline(c, at);
            d.Some? ==> (Executes(c, at, now) <==> now < d.value + SECOND)
    ensures DispatchDeadline(c, at).None? ==> (Executes(c, at, now) <==> c.misfire.RunLate?)
  {
    var grace := if c.misfire.SkipLate? then 30 else if c.grace.Some? then c.grace.value else 0;
    WholeSeconds(at, now, grace);
  }

  lemma WholeSeconds(at: Instant, now: Instant, n: nat)
    ensures Lateness(at, now) <= n <==> now < at + n * SECOND + SECOND
  {
  }

  // ---- Cron plans -----------------------------------------------------------------

  const MISSED := "catch-up policy skipped missed occurrences"
  const COALESCED := "coalesced missed occurrences"
  const AGED := "occurrences older than max_catchup_age were summarized"
  const CAPPED := "occurrences exceeding max_catchup_runs were summarized"

  function Oldest(c: Config, now: Instant): Instant {
    now - c.maxAge * SECOND
  }

  function Instants(rows: seq<Planned>): (r: seq<Instant>)
    ensures |r| == |rows| && forall i :: 0 <= i < |r| ==> r[i] == rows[i].at
  {
    seq(|rows|, i requires 0 <= i < |rows| => rows[i].at)
  }

  ghost predicate Increasing(s: seq<Instant>) {
    forall i, j :: 0 <= i < j < |s| ==> s[i] < s[j]
  }

  /** The first row is the cursor's; the rest are due occurrences inside the age limit. */
  ghost predicate Genuine(c: Config, occ: iset<Instant>, firstDue: Instant, now: Instant, s: seq<Instant>) {
    && |s| > 0 && s[0] == firstDue
    && forall i :: 1 <= i < |s| ==> s[i] in occ && s[i] <= now && (firstDue < Oldest(c, now) ==> Oldest(c, now) < s[i])
  }

  /** Rows the age limit puts in front. */
  function Summaries(c: Config, firstDue: Instant, now: Instant): nat {
    if firstDue < Oldest(c, now) then 1 else 0
  }

  /** Rows planned before the run cap; the age summary counts against it. */
  function Limit(c: Config, firstDue: Instant, now: Instant): nat {
    if c.maxRuns == 0 then Summaries(c, firstDue, now) else c.maxRuns
  }

  /** What row `i` of a catch-up plan says. */
  ghost predicate RowOk(c: Config, firstDue: Instant, now: Instant, rows: seq<Planned>, i: nat)
    requires i < |rows|
  {
    rows[i] ==
    if i < Summaries(c, firstDue, now) then SkippedRow(firstDue, now, AGED)
    else if i < Limit(c, firstDue, now) then OccurrenceRow(c, rows[i].at, now, None)
    else SkippedRow(rows[i].at, now, CAPPED)
  }

  /** Why a due occurrence may be missing: summarized by age, or after the run cap's summary. */
  ghost predicate Accounted(c: Config, firstDue: Instant, now: Instant, rows: seq<Planned>, v: Instant) {
    || (firstDue < v <= Oldest(c, now) && |rows| > 0 && rows[0] == SkippedRow(firstDue, now, AGED))
    || (|rows| == Limit(c, firstDue, now) + 1 && rows[|rows| - 1].at < v &&
        rows[|rows| - 1] == SkippedRow(rows[|rows| - 1].at, now, CAPPED))
  }

  ghost predicate CatchUpRows(
    c: Config, occ: iset<Instant>, firstDue: Instant, now: Instant, rows: seq<Planned>)
  {
    && Increasing(Instants(rows))
    && (firstDue <= now ==> Genuine(c, occ, firstDue, now, Instants(rows)))
    && (firstDue > now ==> rows == [])
    && |rows| <= Limit(c, firstDue, now) + 1
    && (forall i :: 0 <= i < |rows| ==> RowOk(c, firstDue, now, rows, i))
    && (forall v :: v in occ && firstDue <= v <= now ==>
          v in Instants(rows) || Accounted(c, firstDue, now, rows, v))
  }

  /** What a cron plan promises; `GoodPlan` says nothing silently lost and the cursor moves past `now`. */
  ghost predicate GoodPlan(c: Config, occ: iset<Instant>, firstDue: Instant, now: Instant, p: Plan) {
    && !p.disable && p.next.Some?
    && (match c.catchup
        case SkipMissed => p.occurrences == [SkippedRow(firstDue, now, MISSED)]
        case RunOnce => p.occurrences == [OccurrenceRow(c, firstDue, now, Some(COALESCED))]
        case CatchUp => CatchUpRows(c, occ, firstDue, now, p.occurrences))
    && (if firstDue > now && c.catchup.CatchUp? then p.next.value == firstDue
        else IsNext(occ, now, p.next.value))
  }

  /** The recurrence stops answering only when the occurrences are exhausted. */
  ghost predicate Complete(occ: iset<Instant>, next: Instant -> Next) {
    forall t, u :: next(t).Err? && u in occ ==> u <= t
  }

  /** Planning fails only on a recurrence error; for a complete recurrence, exactly when nothing follows `now`. */
  method PlanCron(
    c: Config, next: Instant -> Next, now: Instant, firstDue: Instant, ghost occ: iset<Instant>)
    returns (r: Result<Plan, RecurrenceError>)
    requires Recurs(occ, next)
    ensures r.Ok? ==> GoodPlan(c, occ, firstDue, now, r.value)
    ensures r.Err? ==> exists t :: t <= now && next(t) == Err(r.error)
    ensures Complete(occ, next) && firstDue in occ ==> (r.Err? <==> forall u :: u in occ ==> u <= now)
  {
    var rows: seq<Planned> := [];
    match c.catchup {
      case SkipMissed =>
        rows := rows + [SkippedRow(firstDue, now, MISSED)];
        if next(now).Err? { return Err(next(now).error); }
        return Ok(Plan(rows, Some(next(now).value), false));
      case RunOnce =>
        rows := rows + [OccurrenceRow(c, firstDue, now, Some(COALESCED))];
        if next(now).Err? { return Err(next(now).error); }
        return Ok(Plan(rows, Some(next(now).value), false));
      case CatchUp =>
    }
    var oldest := Oldest(c, now);
    var cursor := firstDue;
    if cursor < oldest {
      rows := rows + [SkippedRow(cursor, now, AGED)];
      if next(oldest).Err? { return Err(next(oldest).error); }
      cursor := next(oldest).value;
    }
    while cursor <= now && |rows| < c.maxRuns
      invariant Walk(c, occ, firstDue, now, rows, cursor)
      decreases c.maxRuns - |rows|
    {
      if next(cursor).Err? { return Err(next(cursor).error); }
      WalkOn(c, occ, firstDue, now, rows, cursor, next(cursor).value);
      rows := rows + [OccurrenceRow(c, cursor, now, None)];
      cursor := next(cursor).value;
    }
    if cursor <= now {
      Cap(c, occ, firstDue, now, rows, cursor);
      rows := rows + [SkippedRow(cursor, now, CAPPED)];
      if next(now).Err? { return Err(next(now).error); }
      return Ok(Plan(rows, Some(next(now).value), false));
    }
    Done(c, occ, firstDue, now, rows, cursor);
    return Ok(Plan(rows, Some(cursor), false));
  }

  /** The loop's invariant: every occurrence between the start and the cursor is planned or aged. */
  ghost predicate Walk(
    c: Config, occ: iset<Instant>, firstDue: Instant, now: Instant, rows: seq<Planned>, cursor: Instant)
  {
    && Summaries(c, firstDue, now) <= |rows| <= Limit(c, firstDue, now)
    && Increasing(Instants(rows))
    && (forall i :: 0 <= i < |rows| ==> RowOk(c, firstDue, now, rows, i) && rows[i].at < cursor)
    && (if rows == [] then cursor == firstDue
        else firstDue <= now && cursor in occ && (firstDue < Oldest(c, now) ==> Oldest(c, now) < cursor) &&
             Genuine(c, occ, firstDue, now, Instants(rows)))
    && (forall v :: v in occ && firstDue <= v < cursor ==>
          v in Instants(rows) || (firstDue < v <= Oldest(c, now)))
  }

  lemma WalkOn(
    c: Config, occ: iset<Instant>, firstDue: Instant, now: Instant, rows: seq<Planned>,
    cursor: Instant, next: Instant)
    requires Walk(c, occ, firstDue, now, rows, cursor)
    requires cursor <= now && |rows| < c.maxRuns && IsNext(occ, cursor, next)
    ensures Walk(c, occ, firstDue, now, rows + [OccurrenceRow(c, cursor, now, None)], next)
  {
    hide RowOk, OccurrenceRow;
    var rows' := rows + [OccurrenceRow(c, cursor, now, None)];
    RowFits(c, firstDue, now, rows, cursor);
    assert Instants(rows') == Instants(rows) + [cursor];
    RowsGrow(c, firstDue, now, rows, OccurrenceRow(c, cursor, now, None));
    forall v | v in occ && firstDue <= v < next
      ensures v in Instants(rows') || (firstDue < v <= Oldest(c, now))
    {
      assert v < cursor || v == cursor;
    }
  }

  lemma RowFits(c: Config, firstDue: Instant, now: Instant, rows: seq<Planned>, at: Instant)
    requires Summaries(c, firstDue, now) <= |rows| < c.maxRuns
    ensures RowOk(c, firstDue, now, rows + [OccurrenceRow(c, at, now, None)], |rows|)
    ensures OccurrenceRow(c, at, now, None).at == at
  {
  }

  /** A row that fits its place leaves the others in theirs. */
  lemma RowsGrow(c: Config, firstDue: Instant, now: Instant, rows: seq<Planned>, row: Planned)
    requires forall i :: 0 <= i < |rows| ==> RowOk(c, firstDue, now, rows, i)
    requires RowOk(c, firstDue, now, rows + [row], |rows|)
    ensures forall i :: 0 <= i < |rows + [row]| ==> RowOk(c, firstDue, now, rows + [row], i)
  {
    forall i | 0 <= i < |rows + [row]| ensures RowOk(c, firstDue, now, rows + [row], i) {
      assert i < |rows| ==> RowOk(c, firstDue, now, rows, i);
    }
  }

  lemma CapCovers(
    c: Config, occ: iset<Instant>, firstDue: Instant, now: Instant, rows: seq<Planned>, cursor: Instant, v: Instant)
    requires Walk(c, occ, firstDue, now, rows, cursor) && cursor <= now && |rows| >= c.maxRuns
    requires v in occ && firstDue <= v <= now
    ensures var rows' := rows + [SkippedRow(cursor, now, CAPPED)];
            v in Instants(rows') || Accounted(c, firstDue, now, rows', v)
  {
    hide Genuine, Increasing;
    var rows' := rows + [SkippedRow(cursor, now, CAPPED)];
    assert Instants(rows') == Instants(rows) + [cursor];
    if v < cursor && v !in Instants(rows) {
      assert RowOk(c, firstDue, now, rows, 0);
    }
  }

  /** Leaving the loop with occurrences still due adds the run-cap summary. */
  lemma Cap(
    c: Config, occ: iset<Instant>, firstDue: Instant, now: Instant, rows: seq<Planned>, cursor: Instant)
    requires Walk(c, occ, firstDue, now, rows, cursor) && cursor <= now && |rows| >= c.maxRuns
    ensures CatchUpRows(c, occ, firstDue, now, rows + [SkippedRow(cursor, now, CAPPED)])
  {
    hide Accounted, OccurrenceRow;
    var rows' := rows + [SkippedRow(cursor, now, CAPPED)];
    assert Instants(rows') == Instants(rows) + [cursor];
    RowsGrow(c, firstDue, now, rows, SkippedRow(cursor, now, CAPPED));
    forall v | v in occ && firstDue <= v <= now
      ensures v in Instants(rows') || Accounted(c, firstDue, now, rows', v)
    {
      CapCovers(c, occ, firstDue, now, rows, cursor, v);
    }
  }

  /** Leaving the loop with the cursor past `now` leaves nothing due. */
  lemma Done(
    c: Config, occ: iset<Instant>, firstDue: Instant, now: Instant, rows: seq<Planned>, cursor: Instant)
    requires Walk(c, occ, firstDue, now, rows, cursor) && now < cursor
    ensures CatchUpRows(c, occ, firstDue, now, rows)
    ensures firstDue <= now ==> IsNext(occ, now, cursor)
  {
    forall v | v in occ && firstDue <= v <= now
      ensures v in Instants(rows) || Accounted(c, firstDue, now, rows, v)
    {
      if v !in Instants(rows) {
        assert RowOk(c, firstDue, now, rows, 0);
      }
    }
  }

  // ---- What the contract fixes ------------------------------------------------------

  function Executions(rows: seq<Planned>): nat {
    if rows == [] then 0
    else Executions(rows[..|rows| - 1]) + (if rows[|rows| - 1].execute then 1 else 0)
  }

  lemma {:induction false} ExecutionsAtMost(rows: seq<Planned>, bound: nat)
    requires forall i :: bound <= i < |rows| ==> !rows[i].execute
    ensures Executions(rows) <= bound
  {
    if rows != [] {
      var n := |rows| - 1;
      if n < bound {
        ExecutionsAtMost(rows[..n], n);
      } else {
        ExecutionsAtMost(rows[..n], bound);
      }
    }
  }

  /** No plan executes more than the configured runs, and at most one summary row comes on top. */
  lemma CatchUpIsBounded(c: Config, occ: iset<Instant>, firstDue: Instant, now: Instant, p: Plan)
    requires GoodPlan(c, occ, firstDue, now, p)
    ensures c.catchup.CatchUp? ==> Executions(p.occurrences) <= c.maxRuns
    ensures c.catchup.CatchUp? && c.maxRuns > 0 ==> |p.occurrences| <= c.maxRuns + 1
    ensures c.catchup.RunOnce? ==> Executions(p.occurrences) <= 1
    ensures c.catchup.SkipMissed? ==> Executions(p.occurrences) == 0
  {
    if c.catchup.CatchUp? {
      forall i | c.maxRuns <= i < |p.occurrences| ensures !p.occurrences[i].execute {
        assert RowOk(c, firstDue, now, p.occurrences, i);
      }
      ExecutionsAtMost(p.occurrences, c.maxRuns);
    }
  }

  /** The rows of two plans agree as far as both go. */
  lemma {:induction false} SameInstants(
    c: Config, occ: iset<Instant>, firstDue: Instant, now: Instant, p: seq<Planned>, q: seq<Planned>, k: nat)
    requires firstDue <= now && CatchUpRows(c, occ, firstDue, now, p) && CatchUpRows(c, occ, firstDue, now, q)
    requires k <= |p| && k <= |q|
    ensures p[..k] == q[..k]
  {
    hide CatchUpRows;
    if k > 0 {
      SameInstants(c, occ, firstDue, now, p, q, k - 1);
      NotEarlier(c, occ, firstDue, now, p, q, k - 1);
      NotEarlier(c, occ, firstDue, now, q, p, k - 1);
      assert p[..k] == p[..k - 1] + [p[k - 1]] && q[..k] == q[..k - 1] + [q[k - 1]];
    }
  }

  /** A plan cannot reach an occurrence before another plan that agrees so far. */
  lemma NotEarlier(
    c: Config, occ: iset<Instant>, firstDue: Instant, now: Instant, p: seq<Planned>, q: seq<Planned>, k: nat)
    requires firstDue <= now && CatchUpRows(c, occ, firstDue, now, p) && CatchUpRows(c, occ, firstDue, now, q)
    requires k < |p| && k <= |q| && p[..k] == q[..k]
    ensures k < |q| && q[k].at <= p[k].at
    ensures q[k].at == p[k].at ==> q[k] == p[k]
  {
    var v := p[k].at;
    assert Instants(p)[k] == v && Instants(p)[0] == firstDue && Instants(q)[0] == firstDue;
    if k > 0 {
      assert p[k - 1] == p[..k][k - 1] == q[k - 1];
      assert Instants(p)[k - 1] < v;
      assert v in Instants(q) || Accounted(c, firstDue, now, q, v);
    }
    assert RowOk(c, firstDue, now, p, k) && RowOk(c, firstDue, now, q, k);
  }

  /** The contract leaves a plan no freedom: it is a function of the cursor, the clock and the occurrences. */
  lemma PlanIsDetermined(c: Config, occ: iset<Instant>, firstDue: Instant, now: Instant, p: Plan, q: Plan)
    requires GoodPlan(c, occ, firstDue, now, p) && GoodPlan(c, occ, firstDue, now, q)
    ensures p == q
  {
    if c.catchup.CatchUp? && firstDue <= now {
      var rows, other := p.occurrences, q.occurrences;
      if |rows| <= |other| {
        SameInstants(c, occ, firstDue, now, rows, other, |rows|);
        if |rows| < |other| {
          NotEarlier(c, occ, firstDue, now, other, rows, |rows|);
        }
      } else {
        SameInstants(c, occ, firstDue, now, rows, other, |other|);
        NotEarlier(c, occ, firstDue, now, rows, other, |other|);
      }
      assert rows == rows[..|rows|] && other == other[..|other|];
    }
  }

  /**
   The cursor strictly advances exactly when the planning clock has reached it: a
   lagging server clock plans the same occurrence again or falls back.
   */
  lemma CursorAdvancesIffDue(c: Config, occ: iset<Instant>, firstDue: Instant, now: Instant, p: Plan)
    requires firstDue in occ && GoodPlan(c, occ, firstDue, now, p)
    ensures firstDue < p.next.value <==> firstDue <= now
  {
  }

  // ---- Any Schedule -------------------------------------------------------------------

  /** Once and exhausted Schedules disable themselves; `once` plans its instant whatever the clock says. */
  method PlanSchedule(
    c: Config, next: Instant -> Next, now: Instant, cursor: Option<Instant>, ghost occ: iset<Instant>)
    returns (r: Result<Plan, RecurrenceError>)
    requires Recurs(occ, next)
    ensures cursor.None? ==> r == Ok(Plan([], None, true))
    ensures cursor.Some? && c.timing.Once? ==>
              r == Ok(Plan([OccurrenceRow(c, cursor.value, now, None)], None, true))
    ensures cursor.Some? && c.timing.Cron? && r.Ok? ==> GoodPlan(c, occ, cursor.value, now, r.value)
    ensures r.Err? ==> c.timing.Cron? && exists t :: t <= now && next(t) == Err(r.error)
  {
    if cursor.None? {
      return Ok(Plan([], None, true));
    }
    if c.timing.Once? {
      return Ok(Plan([OccurrenceRow(c, cursor.value, now, None)], None, true));
    }
    r := PlanCron(c, next, now, cursor.value, occ);
  }

  // ---- What the rows say, in instants and policies -----------------------------------------

  /** Whole seconds of lateness, none before the instant. */
  ghost predicate CountsSeconds(at: Instant, now: Instant, n: nat) {
    if now <= at then n == 0 else n * SECOND <= now - at < (n + 1) * SECOND
  }

  /** The row carries out the misfire policy for its instant, on time as well as late. */
  ghost predicate Decided(c: Config, now: Instant, row: Planned) {
    && (row.execute <==>
          || c.misfire.RunLate?
          || (c.misfire.SkipLate? && now < row.at + 31 * SECOND)
          || (c.misfire.GracePeriod? && c.grace.Some? && now < row.at + (c.grace.value + 1) * SECOND))
    && (row.execute && c.misfire.RunLate? ==> row.deadline.None?)
    && (row.execute && c.misfire.SkipLate? ==> row.deadline == Some(row.at + 30 * SECOND))
    && (row.execute && c.misfire.GracePeriod? ==>
          c.grace.Some? && row.deadline == Some(row.at + c.grace.value * SECOND))
    && (!row.execute ==> row.deadline.None? && row.reason.Some?)
    && CountsSeconds(row.at, now, row.lateness)
  }

  /** The row only records that occurrences were passed over. */
  ghost predicate Summary(now: Instant, row: Planned) {
    !row.execute && row.deadline.None? && row.reason.Some? && CountsSeconds(row.at, now, row.lateness)
  }

  lemma OccurrenceRowDecides(c: Config, at: Instant, now: Instant, reason: Option<string>)
    ensures var row := OccurrenceRow(c, at, now, reason);
            row.at == at && Decided(c, now, row) && (row.execute ==> row.reason == reason)
  {
    var grace := if c.misfire.SkipLate? then 30 else if c.grace.Some? then c.grace.value else 0;
    WholeSeconds(at, now, grace);
    SecondsCounted(at, now);
  }

  lemma SecondsCounted(at: Instant, now: Instant)
    ensures CountsSeconds(at, now, Lateness(at, now))
  {
  }

  lemma SkippedRowSummarizes(at: Instant, now: Instant, reason: string)
    ensures SkippedRow(at, now, reason).at == at && Summary(now, SkippedRow(at, now, reason))
  {
    SecondsCounted(at, now);
  }

  /** Which rows of a catch-up plan are summaries: an overaged first one, and one past the run cap. */
  predicate SummaryAt(c: Config, firstDue: Instant, now: Instant, i: nat) {
    (i == 0 && now - firstDue > c.maxAge * SECOND) || i >= c.maxRuns
  }

  /** Every row of a good plan is a summary or carries out the misfire policy, and which is which is fixed. */
  lemma PlansDecide(c: Config, occ: iset<Instant>, firstDue: Instant, now: Instant, p: Plan)
    requires GoodPlan(c, occ, firstDue, now, p)
    ensures c.catchup.SkipMissed? ==>
              |p.occurrences| == 1 && p.occurrences[0].at == firstDue && Summary(now, p.occurrences[0])
    ensures c.catchup.RunOnce? ==>
              |p.occurrences| == 1 && p.occurrences[0].at == firstDue && Decided(c, now, p.occurrences[0])
    ensures c.catchup.CatchUp? ==> forall i :: 0 <= i < |p.occurrences| ==>
              if SummaryAt(c, firstDue, now, i) then Summary(now, p.occurrences[i])
              else Decided(c, now, p.occurrences[i])
  {
    hide OccurrenceRow, SkippedRow, Decided, Summary;
    var rows := p.occurrences;
    SkippedRowSummarizes(firstDue, now, MISSED);
    SkippedRowSummarizes(firstDue, now, AGED);
    OccurrenceRowDecides(c, firstDue, now, Some(COALESCED));
    if c.catchup.CatchUp? {
      forall i | 0 <= i < |rows|
        ensures if SummaryAt(c, firstDue, now, i) then Summary(now, rows[i]) else Decided(c, now, rows[i])
      {
        assert RowOk(c, firstDue, now, rows, i);
        OccurrenceRowDecides(c, rows[i].at, now, None);
        SkippedRowSummarizes(rows[i].at, now, CAPPED);
      }
    }
  }

  /**
   A catch-up plan in seconds and counts: rows after the first are younger than
   the age limit, and a due occurrence is missing only if it is at least that old
   behind an overaged cursor, or if it follows the one row beyond the run limit.
   */
  lemma CatchUpInSeconds(c: Config, occ: iset<Instant>, firstDue: Instant, now: Instant, p: Plan, v: Instant)
    requires GoodPlan(c, occ, firstDue, now, p) && c.catchup.CatchUp? && c.maxRuns > 0 && firstDue <= now
    ensures |p.occurrences| > 0 && p.occurrences[0].at == firstDue
    ensures forall i :: 1 <= i < |p.occurrences| ==> 0 <= now - p.occurrences[i].at < c.maxAge * SECOND
    ensures v in occ && firstDue <= v <= now ==>
              || (exists i :: 0 <= i < |p.occurrences| && p.occurrences[i].at == v)
              || (firstDue < v && now - firstDue > c.maxAge * SECOND && now - v >= c.maxAge * SECOND)
              || (|p.occurrences| == c.maxRuns + 1 && p.occurrences[c.maxRuns].at < v)
  {
    hide OccurrenceRow, RowOk;
    var rows := p.occurrences;
    var s := Instants(rows);
    forall i | 1 <= i < |rows| ensures 0 <= now - rows[i].at < c.maxAge * SECOND {
      assert s[0] < s[i] && s[i] == rows[i].at;
    }
    if v in s {
      var i :| 0 <= i < |s| && s[i] == v;
      assert rows[i].at == v;
    }
  }
}
