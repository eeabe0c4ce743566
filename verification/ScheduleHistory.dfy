/**
 One cron Schedule shared by several scheduler loops and toggled by operators.
 Each loop is sequential: it claims, plans and commits before it claims again.
 */
module ScheduleHistory {
  import opened Base
  import opened Recurrence
  import opened Planner

  const CLAIM_LEASE: int := 30 * SECOND

  datatype Row = Row(
    enabled: bool, cursor: Option<Instant>, owner: Option<Id>, claimExpires: Option<Instant>, revision: nat)

  /** What a loop holds between its claim and its commit; `clock` is the server clock it planned with. */
  datatype Hand =
    | Claimed(source: Instant)
    | Ready(source: Instant, clock: Instant, plan: Plan)

  /** `log` lists the plans committed so far, `committed` the instants they materialized. */
  datatype State = State(
    now: Instant, row: Row, hands: map<Id, Hand>, log: seq<Hand>, committed: seq<Instant>)

  /** A claim may take effect although its reply is lost (`delivered` false). */
  datatype Step =
    | Tick(now: Instant)
    | Claim(owner: Id, delivered: bool)
    | MakePlan(owner: Id, clock: Instant, plan: Plan)
    | Drop(owner: Id)
    | Commit(owner: Id)
    | Toggle(revision: nat, enabled: bool, next: Option<Instant>)

  predicate DueRow(s: State) {
    && s.row.enabled
    && s.row.cursor.Some? && s.row.cursor.value <= s.now
    && (s.row.claimExpires.None? || s.row.claimExpires.value < s.now)
  }

  predicate Commits(s: State, owner: Id) {
    && owner in s.hands && s.hands[owner].Ready?
    && s.row.owner == Some(owner)
    && s.row.claimExpires.Some? && s.row.claimExpires.value > s.now
  }

  function Apply(s: State, step: Step): State {
    match step
    case Tick(now) => s.(now := now)
    case Claim(owner, delivered) =>
      var dropped := s.hands - {owner};
      if !DueRow(s) then s.(hands := dropped) else
      s.(row := s.row.(owner := Some(owner), claimExpires := Some(s.now + CLAIM_LEASE)),
         hands := if delivered then dropped[owner := Claimed(s.row.cursor.value)] else dropped)
    case MakePlan(owner, clock, plan) =>
      if owner in s.hands
      then s.(hands := s.hands[owner := Ready(s.hands[owner].source, clock, plan)])
      else s
    case Drop(owner) => s.(hands := s.hands - {owner})
    case Commit(owner) =>
      if !Commits(s, owner) then s.(hands := s.hands - {owner}) else
      var plan := s.hands[owner].plan;
      s.(row := s.row.(cursor := plan.next, enabled := s.row.enabled && !plan.disable,
                       owner := None, claimExpires := None),
         hands := s.hands - {owner},
         log := s.log + [s.hands[owner]],
         committed := s.committed + Instants(plan.occurrences))
    case Toggle(revision, enabled, next) =>
      if revision != s.row.revision then s else
      s.(row := Row(enabled, next, None, None, revision + 1))
  }

  /** Any server clock may plan, and an operator may write a cursor computed long ago. */
  ghost predicate Allowed(c: Config, occ: iset<Instant>, s: State, step: Step) {
    match step
    case Tick(now) => s.now <= now
    case MakePlan(owner, clock, plan) =>
      owner in s.hands && GoodPlan(c, occ, s.hands[owner].source, clock, plan)
    case Toggle(_, enabled, next) => enabled == next.Some? && (enabled ==> next.value in occ)
    case _ => true
  }

  /** Planning clocks may lag, but not behind the cursor they plan from; toggles read the clock as they write. */
  ghost predicate Synchronized(occ: iset<Instant>, s: State, step: Step) {
    match step
    case MakePlan(owner, clock, _) => owner in s.hands && s.hands[owner].source <= clock <= s.now
    case Toggle(_, enabled, next) => enabled && next.Some? ==> IsNext(occ, s.now, next.value)
    case _ => true
  }

  ghost predicate Created(occ: iset<Instant>, s: State) {
    && s.row.enabled && s.row.owner.None? && s.row.claimExpires.None?
    && s.row.cursor.Some? && s.row.cursor.value in occ
    && s.hands == map[] && s.log == [] && s.committed == []
  }

  ghost predicate History(c: Config, occ: iset<Instant>, tr: seq<State>, steps: seq<Step>) {
    && |tr| == |steps| + 1 && Created(occ, tr[0])
    && forall i :: 0 <= i < |steps| ==> Allowed(c, occ, tr[i], steps[i]) && tr[i + 1] == Apply(tr[i], steps[i])
  }

  ghost predicate SyncHistory(c: Config, occ: iset<Instant>, tr: seq<State>, steps: seq<Step>) {
    && History(c, occ, tr, steps) && IsNext(occ, tr[0].now, tr[0].row.cursor.value)
    && forall i :: 0 <= i < |steps| ==> Synchronized(occ, tr[i], steps[i])
  }

  // ---- The claim fences the commit, whatever the clocks say ----------------------------

  /** The loop named on the row holds a plan for exactly the row's cursor. */
  ghost predicate Fence(c: Config, occ: iset<Instant>, s: State) {
    && (s.row.cursor.Some? ==> s.row.cursor.value in occ)
    && (s.row.owner.Some? && s.row.owner.value in s.hands ==>
          s.row.enabled && s.row.cursor == Some(s.hands[s.row.owner.value].source))
    && (forall o :: o in s.hands ==> HandOk(c, occ, s.hands[o]))
    && (forall k :: 0 <= k < |s.log| ==> s.log[k].Ready? && HandOk(c, occ, s.log[k]))
  }

  ghost predicate HandOk(c: Config, occ: iset<Instant>, h: Hand) {
    && h.source in occ
    && (h.Ready? ==> GoodPlan(c, occ, h.source, h.clock, h.plan))
  }

  lemma FenceKept(c: Config, occ: iset<Instant>, s: State, step: Step)
    requires Fence(c, occ, s) && Allowed(c, occ, s, step)
    ensures Fence(c, occ, Apply(s, step))
  {
    hide GoodPlan;
    if step.Commit? && Commits(s, step.owner) {
      NextIsGenuine(c, occ, s.hands[step.owner]);
    }
  }

  lemma NextIsGenuine(c: Config, occ: iset<Instant>, h: Hand)
    requires HandOk(c, occ, h) && h.Ready?
    ensures h.plan.next.Some? && h.plan.next.value in occ && !h.plan.disable
  {
  }

  lemma {:induction false} Fenced(c: Config, occ: iset<Instant>, tr: seq<State>, steps: seq<Step>, i: nat)
    requires History(c, occ, tr, steps) && i < |tr|
    ensures Fence(c, occ, tr[i])
  {
    if i > 0 {
      Fenced(c, occ, tr, steps, i - 1);
      FenceKept(c, occ, tr[i - 1], steps[i - 1]);
    }
  }

  /** A plan commits only onto the enabled row and the cursor it was computed from. */
  lemma CommitMatchesCursor(
    c: Config, occ: iset<Instant>, tr: seq<State>, steps: seq<Step>, i: nat, owner: Id)
    requires History(c, occ, tr, steps) && i < |tr| && Commits(tr[i], owner)
    ensures tr[i].row.enabled && tr[i].row.cursor == Some(tr[i].hands[owner].source)
    ensures GoodPlan(c, occ, tr[i].hands[owner].source, tr[i].hands[owner].clock, tr[i].hands[owner].plan)
  {
    Fenced(c, occ, tr, steps, i);
  }

  // ---- Clocks in step ------------------------------------------------------------------------

  /** Everything committed lies behind both the clock and the cursor. */
  ghost predicate Ahead(occ: iset<Instant>, s: State) {
    && Increasing(s.committed)
    && (forall k :: 0 <= k < |s.committed| ==>
          s.committed[k] <= s.now && (s.row.cursor.Some? ==> s.committed[k] < s.row.cursor.value))
    && (s.row.cursor.Some? ==> forall u :: u in occ && s.now < u ==> s.row.cursor.value <= u)
    && (forall o :: o in s.hands ==> Timely(s.hands[o], s.now))
  }

  ghost predicate Timely(h: Hand, now: Instant) {
    if h.Claimed? then h.source <= now else h.source <= h.clock <= now
  }

  /** A plan made with a clock that reached its cursor stays inside its own window. */
  lemma PlanInsideWindow(c: Config, occ: iset<Instant>, h: Hand)
    requires HandOk(c, occ, h) && h.Ready? && h.source <= h.clock
    ensures Increasing(Instants(h.plan.occurrences))
    ensures forall k :: 0 <= k < |h.plan.occurrences| ==>
              h.source <= Instants(h.plan.occurrences)[k] <= h.clock
    ensures |h.plan.occurrences| > 0
    ensures h.plan.next.Some? && IsNext(occ, h.clock, h.plan.next.value)
  {
    var s := Instants(h.plan.occurrences);
    if c.catchup.CatchUp? {
      forall k | 0 <= k < |s| ensures h.source <= s[k] <= h.clock {
        assert k > 0 ==> s[0] < s[k];
      }
    }
  }

  lemma AheadKept(c: Config, occ: iset<Instant>, s: State, step: Step)
    requires Fence(c, occ, s) && Ahead(occ, s) && Allowed(c, occ, s, step) && Synchronized(occ, s, step)
    ensures Ahead(occ, Apply(s, step))
  {
    hide GoodPlan;
    if step.Commit? && Commits(s, step.owner) {
      PlanInsideWindow(c, occ, s.hands[step.owner]);
    }
  }

  lemma {:induction false} StaysAhead(c: Config, occ: iset<Instant>, tr: seq<State>, steps: seq<Step>, i: nat)
    requires SyncHistory(c, occ, tr, steps) && i < |tr|
    ensures Fence(c, occ, tr[i]) && Ahead(occ, tr[i])
  {
    Fenced(c, occ, tr, steps, i);
    if i > 0 {
      StaysAhead(c, occ, tr, steps, i - 1);
      AheadKept(c, occ, tr[i - 1], steps[i - 1]);
    }
  }

  /** Some committed plan answers for `v`: it falls in the window from its cursor to its clock. */
  ghost predicate Answered(log: seq<Hand>, v: Instant) {
    exists k :: 0 <= k < |log| && log[k].Ready? && log[k].source <= v <= log[k].clock
  }

  /** What any stretch of a synchronized history does to the cursor and the log. */
  ghost predicate Advances(occ: iset<Instant>, s: State, t: State) {
    && s.now <= t.now && s.row.revision <= t.row.revision
    && s.committed <= t.committed && s.log <= t.log
    && (s.row.cursor.Some? ==>
          forall k :: |s.committed| <= k < |t.committed| ==> s.row.cursor.value <= t.committed[k])
    && (s.row.cursor.Some? && t.row.cursor.Some? ==> s.row.cursor.value <= t.row.cursor.value)
    && (s.row.cursor.Some? && t.row.revision == s.row.revision ==>
          && t.row.cursor.Some?
          && forall v :: v in occ && s.row.cursor.value <= v < t.row.cursor.value ==> Answered(t.log, v))
  }

  lemma AnsweredGrows(log: seq<Hand>, log': seq<Hand>, v: Instant)
    requires Answered(log, v) && log <= log'
    ensures Answered(log', v)
  {
    var k :| 0 <= k < |log| && log[k].Ready? && log[k].source <= v <= log[k].clock;
    assert log'[k] == log[k];
  }

  lemma CommitAdvances(c: Config, occ: iset<Instant>, s: State, t: State, owner: Id)
    requires Fence(c, occ, t) && Ahead(occ, s) && Ahead(occ, t) && Advances(occ, s, t) && Commits(t, owner)
    ensures Advances(occ, s, Apply(t, Commit(owner)))
  {
    hide GoodPlan, Increasing;
    var h := t.hands[owner];
    var u := Apply(t, Commit(owner));
    PlanInsideWindow(c, occ, h);
    if s.row.cursor.Some? && u.row.revision == s.row.revision {
      forall v | v in occ && s.row.cursor.value <= v < u.row.cursor.value ensures Answered(u.log, v) {
        if v < t.row.cursor.value {
          AnsweredGrows(t.log, u.log, v);
        } else {
          assert u.log[|u.log| - 1] == h;
        }
      }
    }
  }

  lemma {:induction false} HistoryAdvances(
    c: Config, occ: iset<Instant>, tr: seq<State>, steps: seq<Step>, i: nat, j: nat)
    requires SyncHistory(c, occ, tr, steps) && i <= j < |tr|
    ensures Advances(occ, tr[i], tr[j])
  {
    hide GoodPlan, Increasing, Answered;
    StaysAhead(c, occ, tr, steps, i);
    if i < j {
      HistoryAdvances(c, occ, tr, steps, i, j - 1);
      StaysAhead(c, occ, tr, steps, j - 1);
      var step := steps[j - 1];
      if step.Commit? && Commits(tr[j - 1], step.owner) {
        CommitAdvances(c, occ, tr[i], tr[j - 1], step.owner);
      }
    }
  }

  /**
   With clocks in step, committed instants strictly increase over the whole history,
   the cursor never moves back, and every commit moves it strictly forward.
   */
  lemma CursorStrictlyIncreases(
    c: Config, occ: iset<Instant>, tr: seq<State>, steps: seq<Step>, i: nat, j: nat)
    requires SyncHistory(c, occ, tr, steps) && i <= j < |tr|
    ensures Increasing(tr[j].committed) && tr[i].committed <= tr[j].committed
    ensures tr[i].row.cursor.Some? && tr[j].row.cursor.Some? ==>
              && tr[i].row.cursor.value <= tr[j].row.cursor.value
              && (tr[i].committed != tr[j].committed ==> tr[i].row.cursor.value < tr[j].row.cursor.value)
  {
    hide Increasing;
    StaysAhead(c, occ, tr, steps, j);
    HistoryAdvances(c, occ, tr, steps, i, j);
    if tr[i].committed != tr[j].committed {
      var k := |tr[i].committed|;
      assert k < |tr[j].committed|;
      assert tr[i].row.cursor.Some? ==> tr[i].row.cursor.value <= tr[j].committed[k];
    }
  }

  /** Every row of every committed plan was materialized. */
  ghost predicate Logged(s: State) {
    forall k :: 0 <= k < |s.log| && s.log[k].Ready? ==> Materializes(s.committed, s.log[k].plan)
  }

  ghost predicate Materializes(committed: seq<Instant>, p: Plan) {
    forall v :: v in Instants(p.occurrences) ==> v in committed
  }

  lemma {:induction false} LogIsMaterialized(
    c: Config, occ: iset<Instant>, tr: seq<State>, steps: seq<Step>, i: nat)
    requires History(c, occ, tr, steps) && i < |tr|
    ensures Logged(tr[i])
  {
    if i > 0 {
      LogIsMaterialized(c, occ, tr, steps, i - 1);
      var s, t := tr[i - 1], tr[i];
      forall k | 0 <= k < |t.log| && t.log[k].Ready? ensures Materializes(t.committed, t.log[k].plan) {
        assert k < |s.log| ==> t.log[k] == s.log[k];
      }
    }
  }

  /** Summarized by the committed plan whose window holds it. */
  ghost predicate Summarized(c: Config, log: seq<Hand>, v: Instant) {
    exists k ::
      && 0 <= k < |log| && log[k].Ready? && log[k].source <= v <= log[k].clock
      && Accounted(c, log[k].source, log[k].clock, log[k].plan.occurrences, v)
  }

  /**
   Nothing is lost silently: while no operator touches a catch-up Schedule, every
   occurrence the cursor passed was materialized or summarized by the plan that passed it.
   */
  lemma NothingLostSilently(
    c: Config, occ: iset<Instant>, tr: seq<State>, steps: seq<Step>, i: nat, j: nat, v: Instant)
    requires SyncHistory(c, occ, tr, steps) && i <= j < |tr| && c.catchup.CatchUp?
    requires tr[i].row.revision == tr[j].row.revision && tr[i].row.cursor.Some?
    requires v in occ && tr[i].row.cursor.value <= v
    ensures tr[j].row.cursor.Some?
    ensures v < tr[j].row.cursor.value ==> v in tr[j].committed || Summarized(c, tr[j].log, v)
  {
    hide Increasing, Accounted, Ahead;
    HistoryAdvances(c, occ, tr, steps, i, j);
    if v < tr[j].row.cursor.value {
      Fenced(c, occ, tr, steps, j);
      LogIsMaterialized(c, occ, tr, steps, j);
      var k :| 0 <= k < |tr[j].log| && tr[j].log[k].Ready? && tr[j].log[k].source <= v <= tr[j].log[k].clock;
      var h := tr[j].log[k];
      assert HandOk(c, occ, h) && Materializes(tr[j].committed, h.plan);
      assert v in Instants(h.plan.occurrences) || Accounted(c, h.source, h.clock, h.plan.occurrences, v);
    }
  }

  // ---- Lagging clocks ---------------------------------------------------------------------

  /** Whatever the clocks, a commit moves the cursor forward exactly when its planning clock had reached it. */
  lemma CommitAdvancesIffReached(
    c: Config, occ: iset<Instant>, tr: seq<State>, steps: seq<Step>, i: nat, owner: Id)
    requires History(c, occ, tr, steps) && i < |steps| && steps[i] == Commit(owner) && Commits(tr[i], owner)
    ensures tr[i].row.cursor.Some? && tr[i + 1].row.cursor.Some?
    ensures tr[i].row.cursor.value < tr[i + 1].row.cursor.value <==>
            tr[i].row.cursor.value <= tr[i].hands[owner].clock
  {
    Fenced(c, occ, tr, steps, i);
    var h := tr[i].hands[owner];
    CursorAdvancesIffDue(c, occ, h.source, h.clock, h.plan);
  }

  /** What is committed is in order, and the cursor lies beyond all of it. */
  ghost predicate Ordered(s: State) {
    && Increasing(s.committed)
    && (s.row.cursor.Some? ==> forall k :: 0 <= k < |s.committed| ==> s.committed[k] < s.row.cursor.value)
  }

  /**
   A step that keeps the order: a plan that commits was made with a clock that had
   reached its cursor, or is a catch-up plan, which then plans nothing; and a
   toggle that takes effect writes a cursor beyond everything committed.
   */
  ghost predicate Keeps(c: Config, s: State, step: Step) {
    match step
    case Commit(owner) =>
      Commits(s, owner) ==> c.catchup.CatchUp? || s.hands[owner].source <= s.hands[owner].clock
    case Toggle(revision, _, next) =>
      revision == s.row.revision && next.Some? ==>
        forall k :: 0 <= k < |s.committed| ==> s.committed[k] < next.value
    case _ => true
  }

  /** A plan made too early: catch-up plans nothing and stays, the others plan the cursor again and fall back to it. */
  lemma EarlyPlan(c: Config, occ: iset<Instant>, h: Hand)
    requires HandOk(c, occ, h) && h.Ready? && h.clock < h.source
    ensures h.plan.next.Some? && h.plan.next.value <= h.source
    ensures c.catchup.CatchUp? ==> h.plan.occurrences == [] && h.plan.next.value == h.source
    ensures !c.catchup.CatchUp? ==> Instants(h.plan.occurrences) == [h.source]
  {
  }

  lemma CommitOrdered(c: Config, occ: iset<Instant>, s: State, owner: Id)
    requires Fence(c, occ, s) && Ordered(s) && Commits(s, owner)
    ensures Ordered(Apply(s, Commit(owner))) <==> Keeps(c, s, Commit(owner))
  {
    hide GoodPlan, HandOk;
    var h, t := s.hands[owner], Apply(s, Commit(owner));
    assert HandOk(c, occ, h);
    if h.source <= h.clock {
      PlanInsideWindow(c, occ, h);
    } else {
      EarlyPlan(c, occ, h);
      if !c.catchup.CatchUp? {
        assert t.committed[|s.committed|] == h.source;
      }
    }
  }

  /** Each step keeps the order exactly under its own condition. */
  lemma StepOrdered(c: Config, occ: iset<Instant>, s: State, step: Step)
    requires Fence(c, occ, s) && Ordered(s) && Allowed(c, occ, s, step)
    ensures Ordered(Apply(s, step)) <==> Keeps(c, s, step)
  {
    hide GoodPlan, HandOk;
    if step.Commit? && Commits(s, step.owner) {
      CommitOrdered(c, occ, s, step.owner);
    }
  }

  /**
   Whatever the clocks and the operators do, the whole history stays in order if
   and only if each of its steps meets its condition; otherwise it breaks at the
   first step that does not.
   */
  lemma {:induction false} OrderedIffKept(c: Config, occ: iset<Instant>, tr: seq<State>, steps: seq<Step>, n: nat)
    requires History(c, occ, tr, steps) && n <= |steps|
    ensures (forall i :: 0 <= i <= n ==> Ordered(tr[i])) <==> (forall i :: 0 <= i < n ==> Keeps(c, tr[i], steps[i]))
  {
    hide Fence, Ordered, Keeps, Allowed, Apply;
    if n == 0 {
      CreatedOrdered(occ, tr[0]);
    } else {
      OrderedIffKept(c, occ, tr, steps, n - 1);
      Fenced(c, occ, tr, steps, n - 1);
      assert Allowed(c, occ, tr[n - 1], steps[n - 1]) && tr[n] == Apply(tr[n - 1], steps[n - 1]);
      if Ordered(tr[n - 1]) {
        StepOrdered(c, occ, tr[n - 1], steps[n - 1]);
      }
    }
  }

  lemma CreatedOrdered(occ: iset<Instant>, s: State)
    requires Created(occ, s)
    ensures Ordered(s)
  {
  }

  /** A toggle written from an old reading of the clock repeats an instant although every planning clock is exact. */
  lemma StaleToggleRepeats() returns (c: Config, occ: iset<Instant>, tr: seq<State>, steps: seq<Step>)
    ensures History(c, occ, tr, steps)
    ensures forall i :: 0 <= i < |steps| && steps[i].MakePlan? ==> steps[i].clock == tr[i].now
    ensures var last := tr[|tr| - 1].committed; |last| == 2 && last[0] == last[1]
  {
    c := Config(Cron, RunLate, None, RunOnce, 1, 60);
    occ := iset{MINUTE, 2 * MINUTE};
    var plan := Plan([OccurrenceRow(c, MINUTE, MINUTE, Some(COALESCED))], Some(2 * MINUTE), false);
    assert IsNext(occ, MINUTE, 2 * MINUTE);
    assert GoodPlan(c, occ, MINUTE, MINUTE, plan);
    var s0 := State(MINUTE, Row(true, Some(MINUTE), None, None, 1), map[], [], []);
    steps := [Claim(7, true), MakePlan(7, MINUTE, plan), Commit(7), Toggle(1, true, Some(MINUTE)),
              Claim(7, true), MakePlan(7, MINUTE, plan), Commit(7)];
    var s1 := Apply(s0, steps[0]);
    var s2 := Apply(s1, steps[1]);
    var s3 := Apply(s2, steps[2]);
    var s4 := Apply(s3, steps[3]);
    assert s4 == State(MINUTE, Row(true, Some(MINUTE), None, None, 2), map[], [Ready(MINUTE, MINUTE, plan)], [MINUTE]);
    var s5 := Apply(s4, steps[4]);
    var s6 := Apply(s5, steps[5]);
    var s7 := Apply(s6, steps[6]);
    assert s7.committed == [MINUTE, MINUTE];
    tr := [s0, s1, s2, s3, s4, s5, s6, s7];
  }

  /** One second of lag is enough to commit the same instant twice, with no operator involved. */
  lemma LaggingClockRepeats() returns (c: Config, occ: iset<Instant>, tr: seq<State>, steps: seq<Step>)
    ensures History(c, occ, tr, steps)
    ensures forall i :: 0 <= i < |steps| ==>
              !steps[i].Toggle? && (steps[i].MakePlan? ==> tr[i].now == steps[i].clock + SECOND)
    ensures var last := tr[|tr| - 1].committed; |last| == 2 && last[0] == last[1]
  {
    c := Config(Cron, RunLate, None, RunOnce, 1, 60);
    occ := iset{MINUTE};
    var lag := MINUTE - SECOND;
    var plan := Plan([OccurrenceRow(c, MINUTE, lag, Some(COALESCED))], Some(MINUTE), false);
    assert IsNext(occ, lag, MINUTE);
    assert GoodPlan(c, occ, MINUTE, lag, plan);
    var s0 := State(MINUTE, Row(true, Some(MINUTE), None, None, 1), map[], [], []);
    steps := [Claim(7, true), MakePlan(7, lag, plan), Commit(7), Claim(7, true), MakePlan(7, lag, plan), Commit(7)];
    var s1 := Apply(s0, steps[0]);
    var s2 := Apply(s1, steps[1]);
    var s3 := Apply(s2, steps[2]);
    assert s3 == s0.(log := [Ready(MINUTE, lag, plan)], committed := [MINUTE]);
    var s4 := Apply(s3, steps[3]);
    var s5 := Apply(s4, steps[4]);
    var s6 := Apply(s5, steps[5]);
    assert s6.committed == [MINUTE, MINUTE];
    tr := [s0, s1, s2, s3, s4, s5, s6];
  }

  // ---- Claims and toggles -------------------------------------------------------------------

  /** A claim is exclusive for thirty seconds, and its plan commits strictly within them. */
  lemma ClaimIsExclusive(s: State, owner: Id, other: Id, later: Instant)
    requires s.row.enabled && s.row.cursor.Some? && s.row.cursor.value <= s.now <= later
    requires s.row.claimExpires.Some? ==> s.row.claimExpires.value < s.now
    ensures var t := Apply(s, Claim(owner, true)).(now := later);
            && t.row.owner == Some(owner) && owner in t.hands && t.hands[owner] == Claimed(s.row.cursor.value)
            && (Apply(t, Claim(other, true)).row != t.row ==> s.now + 30 * SECOND < later)
            && (forall plan :: Commits(Apply(t, MakePlan(owner, later, plan)), owner) <==> later < s.now + 30 * SECOND)
  {
  }

  /** A toggle takes effect exactly at the revision it read, writes its cursor, and revokes every plan in hand. */
  lemma ToggleRevokes(s: State, revision: nat, enabled: bool, next: Option<Instant>)
    ensures var t := Apply(s, Toggle(revision, enabled, next));
            if revision != s.row.revision then t == s
            else && t.row.enabled == enabled && t.row.cursor == next && t.row.revision == s.row.revision + 1
                 && (forall owner :: !Commits(t, owner)) && t.committed == s.committed
  {
  }
}
