/** Where the planner's misfire decision meets the dispatch deadline of the outbox. */
module Deadlines {
  import opened Base
  import opened Planner
  import D = Dispatch
  import DI = DispatchInvariant
  import DT = DispatchTheorems

  /** A row is planned for execution past its own deadline exactly within the second after it. */
  lemma LateWindow(c: Config, at: Instant, clock: Instant, reason: Option<string>)
    ensures var row := OccurrenceRow(c, at, clock, reason);
            var d := DispatchDeadline(c, at);
            (row.execute && row.deadline.Some? && row.deadline.value < clock) <==>
            (d.Some? && d.value < clock < d.value + SECOND)
  {
    DecisionMeetsDeadline(c, at, clock);
  }

  /** Thirty seconds and one nanosecond late, a skip-policy occurrence is still planned for execution. */
  lemma LateWindowExists() returns (c: Config, row: Planned)
    ensures row == OccurrenceRow(c, 0, 30 * SECOND + 1, None)
    ensures row.execute && row.deadline == Some(30 * SECOND)
  {
    c := Config(Cron, SkipLate, None, RunOnce, 1, 60);
    row := OccurrenceRow(c, 0, 30 * SECOND + 1, None);
    LateWindow(c, 0, 30 * SECOND + 1, None);
  }

  /** A Run inserted past its deadline is never claimable, never granted, and can only end skipped. */
  lemma BornLateNeverRuns(
    tr: seq<D.World>, i: nat, j: nat, key: D.Occurrence, p: D.Prepared, deadline: Instant, ids: D.Fresh)
    requires DT.Trace(tr) && i < j < |tr| && deadline < tr[i].now
    requires var act := D.DoInsert(key, p, true, true, Some(deadline), ids);
             D.Allowed(tr[i], act) && tr[i + 1] == D.Apply(tr[i], act)
    requires D.AttemptBounds(p) && !D.Materialized(tr[i], key)
    ensures p.id in tr[j].runs && ids.dispatch in tr[j].outbox && tr[j].outbox[ids.dispatch].run == p.id
    ensures tr[j].runs[p.id].status.PendingDispatch? || tr[j].runs[p.id].status.Skipped?
    ensures DT.Unpublishable(tr[j], ids.dispatch)
    ensures forall k :: 0 <= k < |tr[j].grants| ==> tr[j].grants[k].run != p.id
  {
    hide DI.Core, DI.Evolves, DI.Inv, D.Materialized;
    assert DI.Unclaimable(tr[i + 1].outbox[ids.dispatch], tr[i + 1].now);
    DT.OutboxHistory(tr, i + 1, j, ids.dispatch);
    DT.PastDeadlineNeverRuns(tr, i + 1, j, ids.dispatch);
  }

  /**
   An occurrence planned within the second after its deadline is planned for
   execution, and yet its Run can only end skipped, without a grant, once the
   database clock has reached the planning clock.
   */
  lemma LastSecondNeverRuns(
    tr: seq<D.World>, i: nat, j: nat, c: Config, clock: Instant, reason: Option<string>,
    key: D.Occurrence, p: D.Prepared, ids: D.Fresh)
    requires DT.Trace(tr) && i < j < |tr| && clock <= tr[i].now
    requires var d := DispatchDeadline(c, key.at); d.Some? && d.value < clock < d.value + SECOND
    requires var row := OccurrenceRow(c, key.at, clock, reason);
             var act := D.DoInsert(key, p, row.execute, true, row.deadline, ids);
             D.Allowed(tr[i], act) && tr[i + 1] == D.Apply(tr[i], act)
    requires D.AttemptBounds(p) && !D.Materialized(tr[i], key)
    ensures OccurrenceRow(c, key.at, clock, reason).execute
    ensures p.id in tr[j].runs && ids.dispatch in tr[j].outbox && tr[j].outbox[ids.dispatch].run == p.id
    ensures tr[j].runs[p.id].status.PendingDispatch? || tr[j].runs[p.id].status.Skipped?
    ensures DT.Unpublishable(tr[j], ids.dispatch)
    ensures forall k :: 0 <= k < |tr[j].grants| ==> tr[j].grants[k].run != p.id
  {
    hide DT.Trace, D.Materialized, D.Apply, DT.Unpublishable;
    LateWindow(c, key.at, clock, reason);
    BornLateNeverRuns(tr, i, j, key, p, DispatchDeadline(c, key.at).value, ids);
  }
}
