/** One Schedule row beside the Run tables, as the scheduler loop drives them. */
module ScheduleStore {
  import opened Base
  import opened Recurrence
  import opened Planner
  import opened ScheduleHistory
  import D = Dispatch
  import DI = DispatchInvariant
  import DS = DispatchStore

  /** `key` is one of the plan's instants on one of the selected Targets. */
  ghost predicate InPlan(schedule: Id, rows: seq<Planned>, executions: seq<DS.Execution>, key: D.Occurrence) {
    && key.schedule == schedule
    && key.at in Instants(rows)
    && exists e :: e in executions && e.target == key.target
  }

  /** The first `i` rows are done, and the next one on the first `j` Targets. */
  ghost predicate Inserted(
    schedule: Id, rows: seq<Planned>, executions: seq<DS.Execution>, i: nat, j: nat, w: D.World, w': D.World)
    requires i <= |rows| && j <= |executions|
  {
    forall k :: D.Materialized(w', k) <==>
      || D.Materialized(w, k)
      || InPlan(schedule, rows[..i], executions, k)
      || (i < |rows| && InPlan(schedule, [rows[i]], executions[..j], k))
  }

  lemma InsertedNextTarget(
    schedule: Id, rows: seq<Planned>, executions: seq<DS.Execution>, i: nat, j: nat,
    w: D.World, w': D.World, w'': D.World)
    requires i < |rows| && j < |executions| && Inserted(schedule, rows, executions, i, j, w, w')
    requires forall k :: D.Materialized(w'', k) <==>
      D.Materialized(w', k) || k == D.Occurrence(schedule, rows[i].at, executions[j].target)
    ensures Inserted(schedule, rows, executions, i, j + 1, w, w'')
  {
    hide D.Materialized;
    assert executions[..j + 1] == executions[..j] + [executions[j]];
    forall k
      ensures InPlan(schedule, [rows[i]], executions[..j + 1], k) <==>
              || InPlan(schedule, [rows[i]], executions[..j], k)
              || k == D.Occurrence(schedule, rows[i].at, executions[j].target)
    {
      if k == D.Occurrence(schedule, rows[i].at, executions[j].target) {
        assert Instants([rows[i]])[0] == k.at && executions[..j + 1][j].target == k.target;
      }
    }
  }

  lemma InsertedNextRow(
    schedule: Id, rows: seq<Planned>, executions: seq<DS.Execution>, i: nat, w: D.World, w': D.World)
    requires i < |rows| && Inserted(schedule, rows, executions, i, |executions|, w, w')
    ensures Inserted(schedule, rows, executions, i + 1, 0, w, w')
  {
    hide D.Materialized;
    assert executions[..|executions|] == executions;
    assert Instants(rows[..i + 1]) == Instants(rows[..i]) + Instants([rows[i]]);
    forall k
      ensures InPlan(schedule, rows[..i + 1], executions, k) <==>
              InPlan(schedule, rows[..i], executions, k) || InPlan(schedule, [rows[i]], executions, k)
    {
    }
  }

  // ---- What the new Runs look like --------------------------------------------------

  /** Existing rows are as they were. */
  ghost predicate Extends(w: D.World, w': D.World) {
    && (forall r :: r in w.runs ==> r in w'.runs && w'.runs[r] == w.runs[r])
    && (forall a :: a in w.attempts ==> a in w'.attempts && w'.attempts[a] == w.attempts[a])
    && (forall o :: o in w.outbox ==> o in w'.outbox && w'.outbox[o] == w.outbox[o])
  }

  /** An open outbox row carries the Run's dispatch deadline. */
  ghost predicate DispatchedBy(w: D.World, r: Id, deadline: Option<Instant>) {
    exists o :: o in w.outbox && w.outbox[o].run == r && w.outbox[o].Open() && w.outbox[o].deadline == deadline
  }

  /** Run `r` carries out the planner's decision for one instant on one Target. */
  ghost predicate CarriesOut(w: D.World, r: Id, key: D.Occurrence, row: Planned, e: DS.Execution, rendered: bool) {
    && r in w.runs
    && var run := w.runs[r];
    && run.occurrence == Some(key)
    && run.idempotent == e.idempotent && run.maxAttempts == e.maxAttempts && run.queue == e.queue
    && (run.status.PendingDispatch? <==> row.execute && rendered)
    && (run.status.Skipped? <==> !row.execute && rendered)
    && (run.status.Failed? <==> !rendered)
    && run.attemptCount == (if run.status.PendingDispatch? then 1 else 0)
    && (run.status.PendingDispatch? ==> DispatchedBy(w, r, row.deadline))
  }

  /** The Run of `key` carries out one of the planned rows on one of the Targets. */
  ghost predicate CarriedOut(
    w: D.World, key: D.Occurrence, rows: seq<Planned>, executions: seq<DS.Execution>, renders: (Id, Instant) -> bool)
  {
    exists r, row, e ::
      && row in rows && e in executions && row.at == key.at && e.target == key.target
      && CarriesOut(w, r, key, row, e, renders(key.target, key.at))
  }

  /** Every key materialized since `w` carries out its planned row, and nothing else changed. */
  ghost predicate Realizes(
    w: D.World, w': D.World, rows: seq<Planned>, executions: seq<DS.Execution>, renders: (Id, Instant) -> bool)
  {
    && Extends(w, w')
    && forall k :: D.Materialized(w', k) && !D.Materialized(w, k) ==> CarriedOut(w', k, rows, executions, renders)
  }

  lemma StillPlanned(
    w: D.World, w': D.World, key: D.Occurrence, rows: seq<Planned>, executions: seq<DS.Execution>,
    renders: (Id, Instant) -> bool)
    requires Extends(w, w') && CarriedOut(w, key, rows, executions, renders)
    ensures CarriedOut(w', key, rows, executions, renders)
  {
    var r, row, e :|
      && row in rows && e in executions && row.at == key.at && e.target == key.target
      && CarriesOut(w, r, key, row, e, renders(key.target, key.at));
    assert CarriesOut(w', r, key, row, e, renders(key.target, key.at));
  }

  /** One insert adds rows only, and a new Run carries out its row. */
  lemma InsertCarriesOut(w: D.World, act: D.Action, row: Planned, e: DS.Execution)
    requires act.DoInsert? && D.Allowed(w, act) && D.AttemptBounds(act.p)
    requires act.p == D.Prepared(act.p.id, e.idempotent, e.maxAttempts, e.queue)
    requires act.execute == row.execute && act.deadline == row.deadline
    ensures Extends(w, D.Apply(w, act))
    ensures !D.Materialized(w, act.key) ==> CarriesOut(D.Apply(w, act), act.p.id, act.key, row, e, act.rendered)
  {
    hide D.Materialized;
    var w' := D.Apply(w, act);
    if !D.Materialized(w, act.key) && act.rendered && act.execute {
      assert act.ids.dispatch in w'.outbox;
    }
  }

  lemma RealizesNext(
    w: D.World, w': D.World, act: D.Action, rows: seq<Planned>, i: nat, executions: seq<DS.Execution>, j: nat,
    renders: (Id, Instant) -> bool)
    requires Realizes(w, w', rows, executions, renders) && i < |rows| && j < |executions|
    requires act.DoInsert? && D.Allowed(w', act) && D.AttemptBounds(act.p)
    requires act.p == D.Prepared(act.p.id, executions[j].idempotent, executions[j].maxAttempts, executions[j].queue)
    requires act.execute == rows[i].execute && act.deadline == rows[i].deadline
    requires act.key.at == rows[i].at && act.key.target == executions[j].target
    requires act.rendered == renders(act.key.target, act.key.at)
    requires forall k :: D.Materialized(D.Apply(w', act), k) <==> D.Materialized(w', k) || k == act.key
    ensures Realizes(w, D.Apply(w', act), rows, executions, renders)
  {
    hide D.Materialized, D.Apply, CarriesOut;
    var w'' := D.Apply(w', act);
    InsertCarriesOut(w', act, rows[i], executions[j]);
    forall k | D.Materialized(w'', k) && !D.Materialized(w, k) ensures CarriedOut(w'', k, rows, executions, renders) {
      if D.Materialized(w', k) {
        StillPlanned(w', w'', k, rows, executions, renders);
      } else {
        assert CarriesOut(w'', act.p.id, k, rows[i], executions[j], renders(k.target, k.at));
      }
    }
  }

  class SharedSchedule {
    const id: Id
    const config: Config
    ghost const occ: iset<Instant>
    const store: DS.Store
    var row: Row
    // What loops hold in memory and what was committed; not stored in the row.
    ghost var hands: map<Id, Hand>
    ghost var log: seq<Hand>
    ghost var committed: seq<Instant>

    ghost function View(): State
      reads this, store
    {
      State(store.now, row, hands, log, committed)
    }

    ghost predicate Valid()
      reads this, store
    {
      Fence(config, occ, View()) && DI.Inv(store.View())
    }

    constructor (id: Id, config: Config, store: DS.Store, first: Instant, ghost occ: iset<Instant>)
      requires first in occ && DI.Inv(store.View())
      ensures Valid() && Created(occ, View()) && this.store == store && this.occ == occ
    {
      this.id, this.config, this.store, this.occ := id, config, store, occ;
      row := Row(true, Some(first), None, None, 1);
      hands, log, committed := map[], [], [];
    }

    method ClaimDue(owner: Id) returns (source: Option<Instant>)
      requires Valid()
      modifies this
      ensures Valid() && View() == Apply(old(View()), Claim(owner, true))
      ensures source.Some? <==> DueRow(old(View()))
      ensures source.Some? ==> source == old(row).cursor
      ensures source.Some? <==>
                && old(row).enabled && old(row).cursor.Some? && old(row).cursor.value <= store.now
                && (old(row).claimExpires.Some? ==> old(row).claimExpires.value < store.now)
      ensures row == if source.Some?
                     then old(row).(owner := Some(owner), claimExpires := Some(store.now + 30 * SECOND))
                     else old(row)
    {
      FenceKept(config, occ, View(), Claim(owner, true));
      hands := hands - {owner};
      if !row.enabled || row.cursor.None? || row.cursor.value > store.now
         || (row.claimExpires.Some? && row.claimExpires.value >= store.now) {
        return None;
      }
      row := row.(owner := Some(owner), claimExpires := Some(store.now + CLAIM_LEASE));
      hands := hands[owner := Claimed(row.cursor.value)];
      return row.cursor;
    }

    /** An operator's write, conditional on the revision the operator read. */
    method SetEnabled(revision: nat, enabled: bool, next: Option<Instant>) returns (written: bool)
      requires Valid() && Allowed(config, occ, View(), Toggle(revision, enabled, next))
      modifies this
      ensures Valid() && View() == Apply(old(View()), Toggle(revision, enabled, next))
      ensures written <==> revision == old(row).revision
      ensures row == if written then Row(enabled, next, None, None, revision + 1) else old(row)
    {
      FenceKept(config, occ, View(), Toggle(revision, enabled, next));
      written := revision == row.revision;
      if written {
        row := Row(enabled, next, None, None, revision + 1);
      }
    }

    /** Every planned instant on every Target gets a Run that carries out its row, and no other key does. */
    method InsertAll(rows: seq<Planned>, executions: seq<DS.Execution>, renders: (Id, Instant) -> bool)
      returns (ghost acts: seq<D.Action>)
      requires Valid() && forall e :: e in executions ==> 1 <= e.maxAttempts <= 100
      modifies store`runs, store`attempts, store`outbox
      ensures Valid() && DS.Reaches(old(store.View()), acts, store.View())
      ensures forall x :: 0 <= x < |acts| ==> acts[x].DoInsert?
      ensures forall k :: D.Materialized(store.View(), k) <==>
                D.Materialized(old(store.View()), k) || InPlan(id, rows, executions, k)
      ensures Realizes(old(store.View()), store.View(), rows, executions, renders)
    {
      hide DI.Inv, DS.Reaches, D.Materialized, InPlan, Fence, Realizes, Inserted;
      acts := [];
      ghost var w := store.View();
      var i := 0;
      NothingInserted(id, rows, executions, w, renders);
      DS.ReachesItself(w);
      while i < |rows|
        invariant 0 <= i <= |rows| && store.now == old(store.now)
        invariant DI.Inv(store.View()) && DS.Reaches(w, acts, store.View())
        invariant forall x :: 0 <= x < |acts| ==> acts[x].DoInsert?
        invariant Inserted(id, rows, executions, i, 0, w, store.View())
        invariant Realizes(w, store.View(), rows, executions, renders)
      {
        var j := 0;
        while j < |executions|
          invariant 0 <= j <= |executions| && store.now == old(store.now)
          invariant DI.Inv(store.View()) && DS.Reaches(w, acts, store.View())
          invariant forall x :: 0 <= x < |acts| ==> acts[x].DoInsert?
          invariant Inserted(id, rows, executions, i, j, w, store.View())
          invariant Realizes(w, store.View(), rows, executions, renders)
        {
          ghost var before := store.View();
          var key := D.Occurrence(id, rows[i].at, executions[j].target);
          ghost var act := store.InsertOccurrence(
            key, executions[j], rows[i].execute, renders(key.target, key.at), rows[i].deadline);
          DS.PlayMore(w, acts, before, act);
          RealizesNext(w, before, act, rows, i, executions, j, renders);
          acts := acts + [act];
          InsertedNextTarget(id, rows, executions, i, j, w, before, store.View());
          j := j + 1;
        }
        InsertedNextRow(id, rows, executions, i, w, store.View());
        i := i + 1;
      }
      AllInserted(id, rows, executions, w, store.View());
    }

    /** False is the store's Conflict: the claim was lost, lapsed or cleared, and nothing was written. */
    method CommitPlan(
      owner: Id, plan: Plan, executions: seq<DS.Execution>, renders: (Id, Instant) -> bool)
      returns (done: bool, ghost acts: seq<D.Action>)
      requires Valid() && owner in hands && hands[owner].Ready? && hands[owner].plan == plan
      requires forall e :: e in executions ==> 1 <= e.maxAttempts <= 100
      modifies this, store`runs, store`attempts, store`outbox
      ensures Valid() && View() == Apply(old(View()), Commit(owner))
      ensures done <==> Commits(old(View()), owner)
      ensures done <==> old(row).owner == Some(owner) && old(row).claimExpires.Some?
                        && store.now < old(row).claimExpires.value
      ensures done ==> row == Row(old(row).enabled && !plan.disable, plan.next, None, None, old(row).revision)
      ensures done ==> old(row).enabled && old(row).cursor == Some(old(hands)[owner].source)
      ensures DS.Reaches(old(store.View()), acts, store.View())
      ensures forall x :: 0 <= x < |acts| ==> acts[x].DoInsert?
      ensures done ==> forall k :: D.Materialized(store.View(), k) <==>
                D.Materialized(old(store.View()), k) || InPlan(id, plan.occurrences, executions, k)
      ensures done ==> Realizes(old(store.View()), store.View(), plan.occurrences, executions, renders)
      ensures !done ==> store.View() == old(store.View()) && row == old(row)
    {
      hide DI.Inv, DS.Reaches, D.Materialized, InPlan, HandOk, Realizes;
      DS.ReachesItself(store.View());
      FenceKept(config, occ, View(), Commit(owner));
      ghost var before, h := View(), hands[owner];
      done := row.owner == Some(owner) && row.claimExpires.Some? && row.claimExpires.value > store.now;
      acts := [];
      if done {
        acts := InsertAll(plan.occurrences, executions, renders);
        row := row.(cursor := plan.next, enabled := row.enabled && !plan.disable,
                    owner := None, claimExpires := None);
        log := log + [h];
        committed := committed + Instants(plan.occurrences);
      }
      hands := hands - {owner};
      assert View() == Apply(before, Commit(owner));
    }

    /**
     One tick of the scheduler loop. Undisturbed, a due Schedule whose recurrence
     answers always commits a plan made for its cursor.
     */
    method Poll(
      owner: Id, clock: Instant, next: Instant -> Next,
      executions: seq<DS.Execution>, renders: (Id, Instant) -> bool)
      returns (done: bool)
      requires Valid() && config.timing.Cron? && Recurs(occ, next)
      requires forall e :: e in executions ==> 1 <= e.maxAttempts <= 100
      modifies this, store`runs, store`attempts, store`outbox
      ensures Valid()
      ensures done ==> DueRow(old(View()))
      ensures DueRow(old(View())) && (forall t :: t <= clock ==> next(t).Ok?) ==> done
      ensures done ==> |log| == |old(log)| + 1 && log[|log| - 1].Ready? && log[|log| - 1].clock == clock
      ensures done ==> old(row).cursor == Some(log[|log| - 1].source) && row.cursor == log[|log| - 1].plan.next
      ensures done ==> GoodPlan(config, occ, old(row).cursor.value, clock, log[|log| - 1].plan)
      ensures done ==> forall k :: D.Materialized(store.View(), k) <==>
                || D.Materialized(old(store.View()), k)
                || InPlan(id, log[|log| - 1].plan.occurrences, executions, k)
      ensures done ==>
                Realizes(old(store.View()), store.View(), log[|log| - 1].plan.occurrences, executions, renders)
      ensures !done ==> store.View() == old(store.View()) && row.cursor == old(row).cursor
    {
      hide DI.Inv, DS.Reaches, D.Materialized, InPlan, GoodPlan, Recurs, Realizes;
      var source := ClaimDue(owner);
      if source.None? {
        return false;
      }
      var r := PlanSchedule(config, next, clock, source, occ);
      if r.Err? {
        return false;
      }
      FenceKept(config, occ, View(), Step.MakePlan(owner, clock, r.value));
      hands := hands[owner := Ready(source.value, clock, r.value)];
      ghost var acts;
      done, acts := CommitPlan(owner, r.value, executions, renders);
    }
  }

  lemma NothingInserted(
    schedule: Id, rows: seq<Planned>, executions: seq<DS.Execution>, w: D.World, renders: (Id, Instant) -> bool)
    ensures Inserted(schedule, rows, executions, 0, 0, w, w) && Realizes(w, w, rows, executions, renders)
  {
  }

  lemma AllInserted(schedule: Id, rows: seq<Planned>, executions: seq<DS.Execution>, w: D.World, w': D.World)
    requires Inserted(schedule, rows, executions, |rows|, 0, w, w')
    ensures forall k :: D.Materialized(w', k) <==> D.Materialized(w, k) || InPlan(schedule, rows, executions, k)
  {
    assert rows[..|rows|] == rows;
  }
}
