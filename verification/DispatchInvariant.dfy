/**
 The inductive invariant of the dispatch protocol and the order in which rows
 may evolve. Each transaction keeps the first and moves along the second.
 */
module DispatchInvariant {
  import opened Base
  import opened Dispatch

  // ---- One state ---------------------------------------------------------------

  /** Run status and the status of its latest Attempt. */
  predicate Fits(run: RunStatus, attempt: AttemptStatus) {
    match run
    case PendingDispatch => attempt.APending?
    case Queued => attempt.AQueued?
    case Running => attempt.ARunning?
    case RetryWait => attempt.AFailed?
    case Succeeded => attempt.ASucceeded?
    case Failed => attempt.AFailed?
    case Skipped => attempt.ASkipped? || attempt.ADead?
    case Unknown => attempt.AUnknown?
    case Dead => false
    case Cancelled => false
  }

  ghost predicate RunOk(r: Run) {
    && r.attemptCount <= r.maxAttempts <= 100
    && 1 <= r.maxAttempts
    && !r.status.Dead? && !r.status.Cancelled?
    && (r.attemptCount == 0 ==> r.status.Skipped? || r.status.Failed?)
    && (r.status.RetryWait? ==> MayRetry(r) && r.nextRetryAt.Some?)
    && (!r.idempotent ==> r.attemptCount <= 1)
  }

  ghost predicate AttemptOk(t: Attempt, r: Run) {
    && 1 <= t.number <= r.attemptCount
    && (t.number < r.attemptCount ==> t.status.AFailed?)
    && (t.number == r.attemptCount ==> Fits(r.status, t.status))
    && (t.status.ARunning? <==> t.leaseExpires.Some?)
    && (t.status.Granted() <==> t.worker.Some?)
  }

  ghost predicate OutboxOk(d: Outbox, t: Attempt) {
    && d.run == t.run
    && (t.status.APending? <==> d.Open())
    && (t.status.ADead? <==> d.cancelledAt.Some?)
    && (d.cancelledAt.Some? ==> d.deadline.Some?)
    && (d.publishedAt.None? || d.cancelledAt.None?)
    && (d.claimedBy.Some? ==> d.Open())
    && (d.claimedBy.Some? <==> d.claimExpires.Some?)
    && (d.deadline.Some? ==> t.number == 1)
  }

  /** `m` was read from row `m.id`. */
  ghost predicate Describes(outbox: map<Id, Outbox>, m: Record) {
    && m.id in outbox
    && outbox[m.id].run == m.run && outbox[m.id].attempt == m.attempt && outbox[m.id].queue == m.queue
  }

  ghost predicate RunsOk(runs: map<Id, Run>) {
    && (forall r :: r in runs ==> RunOk(runs[r]))
    && (forall r, q :: (r in runs && q in runs && runs[r].occurrence.Some?
                        && runs[r].occurrence == runs[q].occurrence) ==> r == q)
  }

  ghost predicate AttemptsOk(runs: map<Id, Run>, attempts: map<Id, Attempt>) {
    && (forall a :: a in attempts ==> attempts[a].run in runs && AttemptOk(attempts[a], runs[attempts[a].run]))
    && (forall a, b :: (a in attempts && b in attempts && attempts[a].run == attempts[b].run
                        && attempts[a].number == attempts[b].number) ==> a == b)
  }

  ghost predicate OutboxOnAttempts(attempts: map<Id, Attempt>, outbox: map<Id, Outbox>) {
    && (forall o :: o in outbox ==>
          outbox[o].attempt in attempts && OutboxOk(outbox[o], attempts[outbox[o].attempt]))
    && (forall o, p :: o in outbox && p in outbox && outbox[o].attempt == outbox[p].attempt ==> o == p)
  }

  ghost predicate OutboxOnRuns(runs: map<Id, Run>, outbox: map<Id, Outbox>) {
    forall o :: o in outbox ==> outbox[o].run in runs && outbox[o].queue == runs[outbox[o].run].queue
  }

  ghost predicate MessagesOk(outbox: map<Id, Outbox>, held: set<Holding>, stream: set<Record>) {
    && (forall o :: o in outbox && outbox[o].publishedAt.Some? ==>
          Record(o, outbox[o].run, outbox[o].attempt, outbox[o].queue) in stream)
    && (forall h :: h in held ==> Describes(outbox, h.record))
    && (forall m :: m in stream ==> Describes(outbox, m))
  }

  ghost predicate GrantsOk(attempts: map<Id, Attempt>, grants: seq<Grant>) {
    && (forall i :: 0 <= i < |grants| ==>
          && grants[i].attempt in attempts
          && attempts[grants[i].attempt].run == grants[i].run
          && attempts[grants[i].attempt].worker == Some(grants[i].worker))
    && (forall i, j :: 0 <= i < j < |grants| ==> grants[i].attempt != grants[j].attempt)
  }

  /** What is true of the rows that exist. */
  ghost predicate Core(w: World) {
    && RunsOk(w.runs)
    && AttemptsOk(w.runs, w.attempts)
    && OutboxOnAttempts(w.attempts, w.outbox)
    && OutboxOnRuns(w.runs, w.outbox)
    && MessagesOk(w.outbox, w.held, w.stream)
    && GrantsOk(w.attempts, w.grants)
  }

  // ---- Two states ---------------------------------------------------------------

  /** Strictly decreases on every status change; terminal statuses rank lowest. */
  function Rank(s: RunStatus): nat {
    match s case PendingDispatch => 3 case Queued => 2 case Running => 1 case _ => 0
  }

  function Measure(r: Run): int {
    4 * (r.maxAttempts - r.attemptCount) + Rank(r.status)
  }

  function Phase(s: AttemptStatus): nat {
    match s case APending => 0 case AQueued => 1 case ARunning => 2 case _ => 3
  }

  ghost predicate RunEvolves(r: Run, r': Run) {
    && r'.idempotent == r.idempotent && r'.maxAttempts == r.maxAttempts
    && r'.queue == r.queue && r'.occurrence == r.occurrence
    && r.attemptCount <= r'.attemptCount
    && (r.status.Terminal() ==> r' == r)
    && Measure(r') <= Measure(r)
    && (r'.status != r.status ==> Measure(r') < Measure(r))
    && (Measure(r') == Measure(r) ==> r'.attemptCount == r.attemptCount)
  }

  /** A lease the worker no longer holds at `now`. */
  ghost predicate Lost(t: Attempt, now: Instant) {
    t.status.ARunning? && t.leaseExpires.Some? && t.leaseExpires.value <= now
  }

  ghost predicate AttemptEvolves(t: Attempt, t': Attempt, now: Instant) {
    && t'.run == t.run && t'.number == t.number
    && Phase(t.status) <= Phase(t'.status)
    && (!t.status.Live() ==> t' == t)
    && (t.worker.Some? ==> t'.worker == t.worker)
    && t.outputSequence <= t'.outputSequence
    && (t.status.ARunning? && t'.status.ARunning? && t'.outputSequence == t.outputSequence ==> t'.tails == t.tails)
    && (Lost(t, now) ==>
          && t'.tails == t.tails && t'.outputSequence == t.outputSequence
          && (t' == t || t'.status.AFailed? || t'.status.AUnknown?))
  }

  /** Past its dispatch deadline and in no publisher's hands. */
  ghost predicate Unclaimable(d: Outbox, now: Instant) {
    d.deadline.Some? && d.deadline.value < now && d.publishedAt.None? && d.claimedBy.None?
  }

  ghost predicate OutboxEvolves(d: Outbox, d': Outbox, now: Instant) {
    && d'.run == d.run && d'.attempt == d.attempt && d'.queue == d.queue && d'.deadline == d.deadline
    && (!d.Open() ==> d' == d)
    && d.failures <= d'.failures
    && (Unclaimable(d, now) ==> d'.publishedAt.None? && d'.claimedBy.None?)
  }

  ghost predicate RunsEvolve(runs: map<Id, Run>, runs': map<Id, Run>) {
    forall r :: r in runs ==> r in runs' && RunEvolves(runs[r], runs'[r])
  }

  ghost predicate AttemptsEvolve(attempts: map<Id, Attempt>, attempts': map<Id, Attempt>, now: Instant) {
    forall a :: a in attempts ==> a in attempts' && AttemptEvolves(attempts[a], attempts'[a], now)
  }

  ghost predicate OutboxesEvolve(outbox: map<Id, Outbox>, outbox': map<Id, Outbox>, now: Instant) {
    forall o :: o in outbox ==> o in outbox' && OutboxEvolves(outbox[o], outbox'[o], now)
  }

  ghost predicate Evolves(w: World, w': World) {
    && w.now <= w'.now
    && RunsEvolve(w.runs, w'.runs)
    && AttemptsEvolve(w.attempts, w'.attempts, w.now)
    && OutboxesEvolve(w.outbox, w'.outbox, w.now)
    && w.held <= w'.held && w.stream <= w'.stream && w.grants <= w'.grants
  }

  lemma AttemptEvolvesTransitive(t: Attempt, t1: Attempt, t2: Attempt, now: Instant, now1: Instant)
    requires now <= now1 && AttemptEvolves(t, t1, now) && AttemptEvolves(t1, t2, now1)
    ensures AttemptEvolves(t, t2, now)
  {
  }

  lemma OutboxEvolvesTransitive(d: Outbox, d1: Outbox, d2: Outbox, now: Instant, now1: Instant)
    requires now <= now1 && OutboxEvolves(d, d1, now) && OutboxEvolves(d1, d2, now1)
    ensures OutboxEvolves(d, d2, now)
  {
  }

  lemma EvolvesTransitive(w: World, w1: World, w2: World)
    requires Evolves(w, w1) && Evolves(w1, w2)
    ensures Evolves(w, w2)
  {
    forall a | a in w.attempts
      ensures a in w2.attempts && AttemptEvolves(w.attempts[a], w2.attempts[a], w.now)
    {
      AttemptEvolvesTransitive(w.attempts[a], w1.attempts[a], w2.attempts[a], w.now, w1.now);
    }
    forall o | o in w.outbox
      ensures o in w2.outbox && OutboxEvolves(w.outbox[o], w2.outbox[o], w.now)
    {
      OutboxEvolvesTransitive(w.outbox[o], w1.outbox[o], w2.outbox[o], w.now, w1.now);
    }
  }

  // ---- Changing one row of each table -------------------------------------------

  lemma RunsSet(runs: map<Id, Run>, r: Id, row: Run)
    requires RunsOk(runs) && RunOk(row)
    requires r in runs ==> row.occurrence == runs[r].occurrence
    requires r !in runs ==>
               row.occurrence.None? || (forall q :: q in runs ==> runs[q].occurrence != row.occurrence)
    ensures RunsOk(runs[r := row])
  {
  }

  /** The latest Attempt and its Run move together; older Attempts stay failed. */
  lemma AttemptsSet(runs: map<Id, Run>, attempts: map<Id, Attempt>, a: Id, t: Attempt, row: Run)
    requires AttemptsOk(runs, attempts)
    requires a in attempts && t.run == attempts[a].run && t.number == attempts[a].number
    requires t.number == row.attemptCount == runs[t.run].attemptCount && AttemptOk(t, row)
    ensures AttemptsOk(runs[t.run := row], attempts[a := t])
  {
    var runs', attempts' := runs[t.run := row], attempts[a := t];
    forall b | b in attempts'
      ensures attempts'[b].run in runs' && AttemptOk(attempts'[b], runs'[attempts'[b].run])
    {
      if b != a { assert b in attempts; }
    }
  }

  lemma AttemptsAdd(runs: map<Id, Run>, attempts: map<Id, Attempt>, a: Id, t: Attempt, row: Run)
    requires AttemptsOk(runs, attempts) && a !in attempts && AttemptOk(t, row)
    requires t.number == row.attemptCount
    requires t.run in runs ==> row.attemptCount == runs[t.run].attemptCount + 1
    requires t.run in runs ==> forall b :: b in attempts && attempts[b].run == t.run ==> attempts[b].status.AFailed?
    ensures AttemptsOk(runs[t.run := row], attempts[a := t])
  {
    var runs', attempts' := runs[t.run := row], attempts[a := t];
    forall b | b in attempts'
      ensures attempts'[b].run in runs' && AttemptOk(attempts'[b], runs'[attempts'[b].run])
    {
      if b != a { assert b in attempts; }
    }
  }

  lemma AttemptsKeep(runs: map<Id, Run>, attempts: map<Id, Attempt>, r: Id, row: Run)
    requires AttemptsOk(runs, attempts) && r !in runs
    ensures AttemptsOk(runs[r := row], attempts)
  {
  }

  /** Outbox rows care only whether their Attempt is pending or dead. */
  lemma OutboxSetAttempt(attempts: map<Id, Attempt>, outbox: map<Id, Outbox>, a: Id, t: Attempt)
    requires OutboxOnAttempts(attempts, outbox) && a in attempts && t.run == attempts[a].run
    requires t.number == attempts[a].number
    requires t.status.APending? == attempts[a].status.APending? && t.status.ADead? == attempts[a].status.ADead?
    ensures OutboxOnAttempts(attempts[a := t], outbox)
  {
  }

  lemma OutboxSet(attempts: map<Id, Attempt>, outbox: map<Id, Outbox>, o: Id, d: Outbox, t: Attempt)
    requires OutboxOnAttempts(attempts, outbox)
    requires o in outbox && d.attempt == outbox[o].attempt && OutboxOk(d, t)
    ensures OutboxOnAttempts(attempts[d.attempt := t], outbox[o := d])
  {
  }

  lemma OutboxAdd(attempts: map<Id, Attempt>, outbox: map<Id, Outbox>, o: Id, d: Outbox, t: Attempt)
    requires OutboxOnAttempts(attempts, outbox)
    requires o !in outbox && d.attempt !in attempts && OutboxOk(d, t)
    ensures OutboxOnAttempts(attempts[d.attempt := t], outbox[o := d])
  {
  }

  lemma OutboxRunsSet(runs: map<Id, Run>, outbox: map<Id, Outbox>, r: Id, row: Run, o: Id, d: Outbox)
    requires OutboxOnRuns(runs, outbox) && (r in runs ==> row.queue == runs[r].queue)
    requires o in outbox ==> d.run == outbox[o].run && d.queue == outbox[o].queue
    requires o !in outbox ==> d.run == r && d.queue == row.queue
    ensures OutboxOnRuns(runs[r := row], outbox[o := d])
  {
  }

  lemma OutboxRunsKeep(runs: map<Id, Run>, outbox: map<Id, Outbox>, r: Id, row: Run)
    requires OutboxOnRuns(runs, outbox) && (r in runs ==> row.queue == runs[r].queue)
    ensures OutboxOnRuns(runs[r := row], outbox)
  {
  }

  predicate SameDispatch(d: Outbox, d': Outbox) {
    d'.run == d.run && d'.attempt == d.attempt && d'.queue == d.queue
  }

  lemma MessagesSet(outbox: map<Id, Outbox>, held: set<Holding>, stream: set<Record>, o: Id, d: Outbox)
    requires MessagesOk(outbox, held, stream)
    requires o in outbox ==> SameDispatch(outbox[o], d)
    requires d.publishedAt.Some? ==> Record(o, d.run, d.attempt, d.queue) in stream
    ensures MessagesOk(outbox[o := d], held, stream)
  {
  }

  lemma MessagesHold(outbox: map<Id, Outbox>, held: set<Holding>, stream: set<Record>, h: Holding)
    requires MessagesOk(outbox, held, stream) && Describes(outbox, h.record)
    ensures MessagesOk(outbox, held + {h}, stream)
  {
  }

  lemma MessagesPublish(outbox: map<Id, Outbox>, held: set<Holding>, stream: set<Record>, m: Record)
    requires MessagesOk(outbox, held, stream) && Describes(outbox, m)
    ensures MessagesOk(outbox, held, stream + {m})
  {
  }

  lemma GrantsSet(attempts: map<Id, Attempt>, grants: seq<Grant>, a: Id, t: Attempt)
    requires GrantsOk(attempts, grants)
    requires a in attempts ==> t.run == attempts[a].run && (attempts[a].worker.Some? ==> t.worker == attempts[a].worker)
    ensures GrantsOk(attempts[a := t], grants)
  {
  }

  lemma GrantsAdd(attempts: map<Id, Attempt>, grants: seq<Grant>, g: Grant)
    requires GrantsOk(attempts, grants)
    requires g.attempt in attempts && attempts[g.attempt].run == g.run
    requires attempts[g.attempt].worker == Some(g.worker)
    requires forall i :: 0 <= i < |grants| ==> grants[i].attempt != g.attempt
    ensures GrantsOk(attempts, grants + [g])
  {
  }

  // ---- Reading one row ------------------------------------------------------------

  lemma RunRow(w: World, r: Id)
    requires Core(w) && r in w.runs
    ensures RunOk(w.runs[r])
  {
  }

  lemma AttemptRow(w: World, a: Id)
    requires Core(w) && a in w.attempts
    ensures w.attempts[a].run in w.runs
    ensures RunOk(w.runs[w.attempts[a].run]) && AttemptOk(w.attempts[a], w.runs[w.attempts[a].run])
    ensures w.attempts[a].worker.None? ==> forall i :: 0 <= i < |w.grants| ==> w.grants[i].attempt != a
  {
  }

  lemma OutboxRow(w: World, o: Id)
    requires Core(w) && o in w.outbox
    ensures w.outbox[o].attempt in w.attempts && OutboxOk(w.outbox[o], w.attempts[w.outbox[o].attempt])
    ensures w.outbox[o].run in w.runs && w.outbox[o].queue == w.runs[w.outbox[o].run].queue
    ensures RunOk(w.runs[w.outbox[o].run])
    ensures AttemptOk(w.attempts[w.outbox[o].attempt], w.runs[w.outbox[o].run])
  {
    AttemptRow(w, w.outbox[o].attempt);
  }

  lemma HeldRow(w: World, h: Holding)
    requires Core(w) && h in w.held
    ensures Describes(w.outbox, h.record)
  {
  }

  /** No live Attempt is left behind in RetryWait. */
  lemma WaitingRunsFailed(w: World, r: Id)
    requires Core(w) && r in w.runs && w.runs[r].status.RetryWait?
    ensures forall b :: b in w.attempts && w.attempts[b].run == r ==> w.attempts[b].status.AFailed?
  {
  }

  lemma RunsEvolveSet(runs: map<Id, Run>, r: Id, row: Run)
    requires r in runs ==> RunEvolves(runs[r], row)
    ensures RunsEvolve(runs, runs[r := row])
  {
  }

  lemma AttemptsEvolveSet(attempts: map<Id, Attempt>, a: Id, t: Attempt, now: Instant)
    requires a in attempts ==> AttemptEvolves(attempts[a], t, now)
    ensures AttemptsEvolve(attempts, attempts[a := t], now)
  {
  }

  lemma OutboxesEvolveSet(outbox: map<Id, Outbox>, o: Id, d: Outbox, now: Instant)
    requires o in outbox ==> OutboxEvolves(outbox[o], d, now)
    ensures OutboxesEvolve(outbox, outbox[o := d], now)
  {
  }

  lemma SameEvolves(w: World)
    ensures Evolves(w, w)
  {
  }

  // ---- Moving one row of each table -------------------------------------------------

  lemma InitialOk(now: Instant)
    ensures Core(Initial(now))
  {
  }

  /** Only one outbox row changes. */
  lemma DispatchMoves(w: World, o: Id, d: Outbox)
    requires Core(w) && o in w.outbox && SameDispatch(w.outbox[o], d)
    requires d.attempt in w.attempts ==> OutboxOk(d, w.attempts[d.attempt])
    requires d.publishedAt.None? && OutboxEvolves(w.outbox[o], d, w.now)
    ensures Core(w.(outbox := w.outbox[o := d])) && Evolves(w, w.(outbox := w.outbox[o := d]))
  {
    hide RunsOk, AttemptsOk, OutboxOnAttempts, OutboxOnRuns, MessagesOk, GrantsOk;
    hide RunsEvolve, AttemptsEvolve, OutboxesEvolve;
    OutboxRow(w, o);
    SameEvolves(w);
    var t, row := w.attempts[d.attempt], w.runs[d.run];
    assert w.attempts[d.attempt := t] == w.attempts && w.runs[d.run := row] == w.runs;
    OutboxSet(w.attempts, w.outbox, o, d, t);
    OutboxRunsSet(w.runs, w.outbox, d.run, row, o, d);
    MessagesSet(w.outbox, w.held, w.stream, o, d);
    OutboxesEvolveSet(w.outbox, o, d, w.now);
  }

  /** The latest Attempt of a Run changes, with the Run, and stays clear of its outbox row. */
  lemma AttemptMoves(w: World, a: Id, t: Attempt, row: Run)
    requires Core(w) && a in w.attempts && t.run in w.runs
    requires RunOk(row) && RunEvolves(w.runs[t.run], row)
    requires AttemptOk(t, row) && AttemptEvolves(w.attempts[a], t, w.now)
    requires t.number == row.attemptCount == w.runs[t.run].attemptCount
    requires t.status.APending? == w.attempts[a].status.APending? && t.status.ADead? == w.attempts[a].status.ADead?
    ensures var w' := w.(runs := w.runs[t.run := row], attempts := w.attempts[a := t]);
            Core(w') && Evolves(w, w')
  {
    hide RunsOk, AttemptsOk, OutboxOnAttempts, OutboxOnRuns, MessagesOk, GrantsOk;
    hide RunsEvolve, AttemptsEvolve, OutboxesEvolve;
    SameEvolves(w);
    RunsSet(w.runs, t.run, row);
    AttemptsSet(w.runs, w.attempts, a, t, row);
    OutboxSetAttempt(w.attempts, w.outbox, a, t);
    OutboxRunsKeep(w.runs, w.outbox, t.run, row);
    GrantsSet(w.attempts, w.grants, a, t);
    RunsEvolveSet(w.runs, t.run, row);
    AttemptsEvolveSet(w.attempts, a, t, w.now);
  }

  /** Outbox row, latest Attempt and Run change together. */
  lemma TrioMoves(w: World, o: Id, d: Outbox, t: Attempt, row: Run)
    requires Core(w) && o in w.outbox && SameDispatch(w.outbox[o], d) && t.run in w.runs
    requires d.attempt in w.attempts
    requires RunOk(row) && RunEvolves(w.runs[t.run], row)
    requires AttemptOk(t, row) && AttemptEvolves(w.attempts[d.attempt], t, w.now)
    requires t.number == row.attemptCount == w.runs[t.run].attemptCount
    requires OutboxOk(d, t) && OutboxEvolves(w.outbox[o], d, w.now)
    requires d.publishedAt.Some? ==> Record(o, d.run, d.attempt, d.queue) in w.stream
    ensures var w' := w.(runs := w.runs[t.run := row], attempts := w.attempts[d.attempt := t],
                         outbox := w.outbox[o := d]);
            Core(w') && Evolves(w, w')
  {
    hide RunsOk, AttemptsOk, OutboxOnAttempts, OutboxOnRuns, MessagesOk, GrantsOk;
    hide RunsEvolve, AttemptsEvolve, OutboxesEvolve;
    SameEvolves(w);
    RunsSet(w.runs, t.run, row);
    AttemptsSet(w.runs, w.attempts, d.attempt, t, row);
    OutboxSet(w.attempts, w.outbox, o, d, t);
    OutboxRunsSet(w.runs, w.outbox, t.run, row, o, d);
    MessagesSet(w.outbox, w.held, w.stream, o, d);
    GrantsSet(w.attempts, w.grants, d.attempt, t);
    RunsEvolveSet(w.runs, t.run, row);
    AttemptsEvolveSet(w.attempts, d.attempt, t, w.now);
    OutboxesEvolveSet(w.outbox, o, d, w.now);
  }

  /** A Run gains its next Attempt and outbox row. */
  lemma AttemptAdds(w: World, r: Id, row: Run, deadline: Option<Instant>, ids: Fresh)
    requires Core(w) && Unused(w, ids) && (deadline.Some? ==> row.attemptCount == 1)
    requires RunOk(row) && row.status.PendingDispatch?
    requires r in w.runs ==> RunEvolves(w.runs[r], row) && row.attemptCount == w.runs[r].attemptCount + 1
    requires r in w.runs ==>
               (forall b :: b in w.attempts && w.attempts[b].run == r ==> w.attempts[b].status.AFailed?)
    requires r !in w.runs ==>
               row.occurrence.None? || (forall q :: q in w.runs ==> w.runs[q].occurrence != row.occurrence)
    ensures var w' := CreateAttemptAndOutbox(
              w.(runs := w.runs[r := row]), r, row.attemptCount, row.queue, deadline, ids);
            Core(w') && Evolves(w, w')
  {
    hide RunsOk, AttemptsOk, OutboxOnAttempts, OutboxOnRuns, MessagesOk, GrantsOk;
    hide RunsEvolve, AttemptsEvolve, OutboxesEvolve;
    SameEvolves(w);
    RunsEvolveSet(w.runs, r, row);
    var t := Attempt(r, row.attemptCount, APending, None, None, 0, Tails("", ""));
    var d := Outbox(r, ids.attempt, row.queue, deadline, 0, w.now, None, None, None, None);
    RunsSet(w.runs, r, row);
    AttemptsAdd(w.runs, w.attempts, ids.attempt, t, row);
    OutboxAdd(w.attempts, w.outbox, ids.dispatch, d, t);
    OutboxRunsSet(w.runs, w.outbox, r, row, ids.dispatch, d);
    MessagesSet(w.outbox, w.held, w.stream, ids.dispatch, d);
    GrantsSet(w.attempts, w.grants, ids.attempt, t);
    AttemptsEvolveSet(w.attempts, ids.attempt, t, w.now);
    OutboxesEvolveSet(w.outbox, ids.dispatch, d, w.now);
  }

  /** A Run that is terminal from the start has no Attempt. */
  lemma RunAdds(w: World, r: Id, row: Run)
    requires Core(w) && r !in w.runs && RunOk(row)
    requires forall q :: q in w.runs ==> w.runs[q].occurrence != row.occurrence
    ensures var w' := w.(runs := w.runs[r := row]); Core(w') && Evolves(w, w')
  {
    hide RunsOk, AttemptsOk, OutboxOnAttempts, OutboxOnRuns, MessagesOk, GrantsOk;
    hide RunsEvolve, AttemptsEvolve, OutboxesEvolve;
    SameEvolves(w);
    RunsSet(w.runs, r, row);
    AttemptsKeep(w.runs, w.attempts, r, row);
    OutboxRunsKeep(w.runs, w.outbox, r, row);
    RunsEvolveSet(w.runs, r, row);
  }

  lemma HoldingAdds(w: World, h: Holding)
    requires Core(w) && Describes(w.outbox, h.record)
    ensures var w' := w.(held := w.held + {h}); Core(w') && Evolves(w, w')
  {
    hide RunsOk, AttemptsOk, OutboxOnAttempts, OutboxOnRuns, MessagesOk, GrantsOk;
    hide RunsEvolve, AttemptsEvolve, OutboxesEvolve;
    SameEvolves(w);
    MessagesHold(w.outbox, w.held, w.stream, h);
  }

  lemma MessageAdds(w: World, h: Holding)
    requires Core(w) && h in w.held
    ensures var w' := w.(stream := w.stream + {h.record}); Core(w') && Evolves(w, w')
  {
    hide RunsOk, AttemptsOk, OutboxOnAttempts, OutboxOnRuns, MessagesOk, GrantsOk;
    hide RunsEvolve, AttemptsEvolve, OutboxesEvolve;
    SameEvolves(w);
    HeldRow(w, h);
    MessagesPublish(w.outbox, w.held, w.stream, h.record);
  }

  lemma GrantAdds(w: World, g: Grant)
    requires Core(w) && g.attempt in w.attempts && w.attempts[g.attempt].run == g.run
    requires w.attempts[g.attempt].worker == Some(g.worker)
    requires forall i :: 0 <= i < |w.grants| ==> w.grants[i].attempt != g.attempt
    ensures var w' := w.(grants := w.grants + [g]); Core(w') && Evolves(w, w')
  {
    hide RunsOk, AttemptsOk, OutboxOnAttempts, OutboxOnRuns, MessagesOk, GrantsOk;
    hide RunsEvolve, AttemptsEvolve, OutboxesEvolve;
    SameEvolves(w);
    GrantsAdd(w.attempts, w.grants, g);
  }

  // ---- Every transaction ------------------------------------------------------------

  lemma ReleaseOk(w: World, o: Id)
    requires Core(w)
    ensures Core(ReleaseClaim(w, o)) && Evolves(w, ReleaseClaim(w, o))
  {
    hide Core, Evolves;
    SameEvolves(w);
    if StaleClaim(w, o) {
      OutboxRow(w, o);
      DispatchMoves(w, o, w.outbox[o].(claimedBy := None, claimExpires := None));
    }
  }

  lemma TickOk(w: World, now: Instant)
    requires Core(w) && w.now <= now
    ensures Core(w.(now := now)) && Evolves(w, w.(now := now))
  {
    hide RunsOk, AttemptsOk, OutboxOnAttempts, OutboxOnRuns, MessagesOk, GrantsOk;
    hide RunsEvolve, AttemptsEvolve, OutboxesEvolve;
    SameEvolves(w);
  }

  lemma FailOk(w: World, owner: Id, o: Id, retryAt: Instant)
    requires Core(w)
    ensures var w' := RecordPublishFailure(w, owner, o, retryAt); Core(w') && Evolves(w, w')
  {
    hide Core, Evolves;
    SameEvolves(w);
    if RecordPublishFailure(w, owner, o, retryAt) != w {
      OutboxRow(w, o);
      var d := w.outbox[o];
      DispatchMoves(w, o, d.(failures := d.failures + 1, nextAttemptAt := retryAt,
                             claimedBy := None, claimExpires := None));
    }
  }

  lemma ClaimOutboxOk(w: World, owner: Id, o: Id, lease: nat)
    requires Core(w)
    ensures var w' := ClaimOutbox(w, owner, o, lease); Core(w') && Evolves(w, w')
  {
    hide Core, Evolves;
    SameEvolves(w);
    if Claimable(w, o) {
      OutboxRow(w, o);
      var d := w.outbox[o].(claimedBy := Some(owner), claimExpires := Some(w.now + lease));
      DispatchMoves(w, o, d);
      var w1 := w.(outbox := w.outbox[o := d]);
      HoldingAdds(w1, Holding(owner, RecordOf(w, o)));
      EvolvesTransitive(w, w1, ClaimOutbox(w, owner, o, lease));
    }
  }

  lemma PublishOk(w: World, h: Holding)
    requires Core(w) && h in w.held
    ensures Core(Publish(w, h)) && Evolves(w, Publish(w, h))
  {
    hide Core, Evolves;
    SameEvolves(w);
    MessageAdds(w, h);
  }

  lemma MarkOk(w: World, h: Holding)
    requires Core(w) && h in w.held && h.record in w.stream
    ensures Core(MarkPublished(w, h)) && Evolves(w, MarkPublished(w, h))
  {
    hide Core, Evolves;
    SameEvolves(w);
    if Markable(w, h) {
      OutboxRow(w, h.record.id);
      HeldRow(w, h);
      var d := w.outbox[h.record.id];
      var t, row := w.attempts[d.attempt], w.runs[d.run];
      TrioMoves(w, h.record.id, d.(publishedAt := Some(w.now), claimedBy := None, claimExpires := None),
                t.(status := AQueued), row.(status := Queued));
    }
  }

  lemma ExpireDispatchOk(w: World, o: Id)
    requires Core(w)
    ensures Core(ExpireDispatch(w, o)) && Evolves(w, ExpireDispatch(w, o))
  {
    hide Core, Evolves;
    SameEvolves(w);
    if DispatchExpired(w, o) {
      OutboxRow(w, o);
      var d := w.outbox[o];
      var t, row := w.attempts[d.attempt], w.runs[d.run];
      TrioMoves(w, o, d.(cancelledAt := Some(w.now), claimedBy := None, claimExpires := None),
                t.(status := ADead), row.(status := Skipped));
    }
  }

  lemma ClaimOk(w: World, q: ClaimRequest)
    requires Core(w)
    ensures Core(ClaimAttempt(w, q)) && Evolves(w, ClaimAttempt(w, q))
    ensures ClaimOutcomeOf(w, q) != Conflict
  {
    hide Core, Evolves;
    SameEvolves(w);
    if ClaimOutcomeOf(w, q) != NotClaimed {
      AttemptRow(w, q.attempt);
      var t, row := w.attempts[q.attempt], w.runs[q.run];
      var t' := t.(status := ARunning, worker := Some(q.worker), leaseExpires := Some(w.now + LEASE));
      AttemptMoves(w, q.attempt, t', row.(status := Running));
      var w1 := w.(runs := w.runs[q.run := row.(status := Running)], attempts := w.attempts[q.attempt := t']);
      GrantAdds(w1, Grant(q.run, q.attempt, q.worker));
      EvolvesTransitive(w, w1, ClaimAttempt(w, q));
    }
  }

  lemma RenewOk(w: World, a: Id, worker: Id)
    requires Core(w)
    ensures Core(RenewLease(w, a, worker)) && Evolves(w, RenewLease(w, a, worker))
  {
    hide Core, Evolves;
    SameEvolves(w);
    if HoldsLease(w, a, worker) {
      AttemptRow(w, a);
      var t := w.attempts[a];
      assert w.runs[t.run := w.runs[t.run]] == w.runs;
      AttemptMoves(w, a, t.(leaseExpires := Some(w.now + LEASE)), w.runs[t.run]);
    }
  }

  lemma OutputOk(w: World, a: Id, worker: Id, sequence: nat, tails: Tails)
    requires Core(w)
    ensures var w' := RecordOutput(w, a, worker, sequence, tails); Core(w') && Evolves(w, w')
  {
    hide Core, Evolves;
    SameEvolves(w);
    if HoldsLease(w, a, worker) && w.attempts[a].outputSequence < sequence {
      AttemptRow(w, a);
      var t := w.attempts[a];
      assert w.runs[t.run := w.runs[t.run]] == w.runs;
      AttemptMoves(w, a, t.(tails := tails, outputSequence := sequence), w.runs[t.run]);
    }
  }

  lemma CompleteOk(w: World, c: Completion, retryAt: Instant)
    requires Core(w)
    ensures var w' := CompleteAttempt(w, c, retryAt); Core(w') && Evolves(w, w')
  {
    hide Core, Evolves;
    SameEvolves(w);
    if (c.skipped ==> c.succeeded) && HoldsLease(w, c.attempt, c.worker) {
      AttemptRow(w, c.attempt);
      var w' := CompleteAttempt(w, c, retryAt);
      var r := w.attempts[c.attempt].run;
      AttemptMoves(w, c.attempt, w'.attempts[c.attempt], w'.runs[r]);
    }
  }

  lemma RetryOk(w: World, r: Id, ids: Fresh)
    requires Core(w) && Unused(w, ids)
    ensures Core(RetryRun(w, r, ids)) && Evolves(w, RetryRun(w, r, ids))
  {
    hide Core, Evolves;
    SameEvolves(w);
    if RetryDue(w, r) {
      RunRow(w, r);
      var row := w.runs[r];
      WaitingRunsFailed(w, r);
      AttemptAdds(w, r, row.(status := PendingDispatch, attemptCount := row.attemptCount + 1, nextRetryAt := None),
                  None, ids);
    }
  }

  lemma ExpireLeaseOk(w: World, a: Id, ids: Fresh)
    requires Core(w) && Unused(w, ids)
    ensures Core(ExpireLease(w, a, ids)) && Evolves(w, ExpireLease(w, a, ids))
  {
    hide Core, Evolves;
    SameEvolves(w);
    if LeaseLapsed(w, a) {
      AttemptRow(w, a);
      var t := w.attempts[a];
      var row := w.runs[t.run];
      if MayRetry(row) {
        // As if the failure had first parked the Run until its retry was due.
        var parked := row.(status := RetryWait, nextRetryAt := Some(w.now));
        var failed := t.(status := AFailed, leaseExpires := None);
        AttemptMoves(w, a, failed, parked);
        var w1 := w.(runs := w.runs[t.run := parked], attempts := w.attempts[a := failed]);
        RetryOk(w1, t.run, ids);
        EvolvesTransitive(w, w1, RetryRun(w1, t.run, ids));
        assert w1.runs[t.run := RetryRun(w1, t.run, ids).runs[t.run]]
            == w.runs[t.run := RetryRun(w1, t.run, ids).runs[t.run]];
        assert RetryRun(w1, t.run, ids) == ExpireLease(w, a, ids);
      } else {
        AttemptMoves(w, a, t.(status := AUnknown, leaseExpires := None), row.(status := Unknown));
      }
    }
  }

  lemma CreateOk(w: World, p: Prepared, ids: Fresh)
    requires Core(w) && p.id !in w.runs && Unused(w, ids)
    ensures Core(CreateRun(w, p, ids)) && Evolves(w, CreateRun(w, p, ids))
  {
    hide Core, Evolves;
    SameEvolves(w);
    if AttemptBounds(p) {
      AttemptAdds(w, p.id, Run(PendingDispatch, p.idempotent, 1, p.maxAttempts, None, p.queue, None), None, ids);
    }
  }

  lemma InsertOk(w: World, key: Occurrence, p: Prepared, execute: bool, rendered: bool,
                 deadline: Option<Instant>, ids: Fresh)
    requires Core(w) && p.id !in w.runs && Unused(w, ids)
    ensures var w' := InsertOccurrence(w, key, p, execute, rendered, deadline, ids);
            Core(w') && Evolves(w, w')
  {
    hide Core, Evolves;
    SameEvolves(w);
    if AttemptBounds(p) && !Materialized(w, key) {
      var row := InsertOccurrence(w, key, p, execute, rendered, deadline, ids).runs[p.id];
      if row.status.PendingDispatch? {
        AttemptAdds(w, p.id, row, deadline, ids);
      } else {
        RunAdds(w, p.id, row);
      }
    }
  }

  // ---- Rows that must exist ---------------------------------------------------------

  ghost predicate HasAttempt(attempts: map<Id, Attempt>, r: Id, n: nat) {
    exists a :: a in attempts && attempts[a].run == r && attempts[a].number == n
  }

  ghost predicate HasDispatch(outbox: map<Id, Outbox>, a: Id) {
    exists o :: o in outbox && outbox[o].attempt == a
  }

  ghost predicate WasGranted(grants: seq<Grant>, a: Id) {
    exists i :: 0 <= i < |grants| && grants[i].attempt == a
  }

  ghost predicate Cover(w: World) {
    && (forall r, n: nat :: r in w.runs && 1 <= n <= w.runs[r].attemptCount ==> HasAttempt(w.attempts, r, n))
    && (forall a :: a in w.attempts ==> HasDispatch(w.outbox, a))
    && (forall a :: a in w.attempts && w.attempts[a].worker.Some? ==> WasGranted(w.grants, a))
  }

  ghost predicate Inv(w: World) {
    Core(w) && Cover(w)
  }

  /** Only a new Attempt raises a count, brings a dispatch, or follows a grant. */
  ghost predicate Grows(w: World, w': World) {
    && (forall r :: r in w'.runs ==>
          || (r in w.runs && w'.runs[r].attemptCount == w.runs[r].attemptCount)
          || w'.runs[r].attemptCount == 0
          || ((r in w.runs ==> w'.runs[r].attemptCount == w.runs[r].attemptCount + 1)
              && (r !in w.runs ==> w'.runs[r].attemptCount == 1)
              && HasAttempt(w'.attempts, r, w'.runs[r].attemptCount)))
    && (forall a :: a in w'.attempts && a !in w.attempts ==> HasDispatch(w'.outbox, a))
    && (forall a :: a in w'.attempts && w'.attempts[a].worker.Some? ==>
          (a in w.attempts && w.attempts[a].worker.Some?) || WasGranted(w'.grants, a))
  }

  lemma AddGrows(w: World, r: Id, row: Run, deadline: Option<Instant>, ids: Fresh)
    requires Unused(w, ids) && row.attemptCount == if r in w.runs then w.runs[r].attemptCount + 1 else 1
    ensures Grows(w, CreateAttemptAndOutbox(
              w.(runs := w.runs[r := row]), r, row.attemptCount, row.queue, deadline, ids))
  {
    var w' := CreateAttemptAndOutbox(w.(runs := w.runs[r := row]), r, row.attemptCount, row.queue, deadline, ids);
    assert ids.attempt in w'.attempts && w'.attempts[ids.attempt].number == row.attemptCount;
    assert ids.dispatch in w'.outbox && w'.outbox[ids.dispatch].attempt == ids.attempt;
  }

  lemma CoverGrows(w: World, w': World)
    requires Cover(w) && Evolves(w, w') && Grows(w, w')
    ensures Cover(w')
  {
    hide RunEvolves;
    forall r, n: nat | r in w'.runs && 1 <= n <= w'.runs[r].attemptCount
      ensures HasAttempt(w'.attempts, r, n)
    {
      if r in w.runs && n <= w.runs[r].attemptCount {
        assert HasAttempt(w.attempts, r, n);
        var a :| a in w.attempts && w.attempts[a].run == r && w.attempts[a].number == n;
        assert a in w'.attempts && AttemptEvolves(w.attempts[a], w'.attempts[a], w.now);
      }
    }
    forall a | a in w'.attempts ensures HasDispatch(w'.outbox, a) {
      if a in w.attempts {
        var o :| o in w.outbox && w.outbox[o].attempt == a;
        assert o in w'.outbox && OutboxEvolves(w.outbox[o], w'.outbox[o], w.now);
      }
    }
    forall a | a in w'.attempts && w'.attempts[a].worker.Some? ensures WasGranted(w'.grants, a) {
      if a in w.attempts && w.attempts[a].worker.Some? {
        assert WasGranted(w.grants, a);
        var i :| 0 <= i < |w.grants| && w.grants[i].attempt == a;
        assert w'.grants[i] == w.grants[i];
      }
    }
  }

  lemma ClaimGrows(w: World, q: ClaimRequest)
    ensures Grows(w, ClaimAttempt(w, q))
  {
    var w' := ClaimAttempt(w, q);
    if ClaimOutcomeOf(w, q) == ClaimOutcome.Granted {
      assert w'.grants[|w.grants|].attempt == q.attempt;
    }
  }

  lemma ExpireLeaseGrows(w: World, a: Id, ids: Fresh)
    requires Core(w) && Unused(w, ids)
    ensures Grows(w, ExpireLease(w, a, ids))
  {
    hide Core;
    if LeaseLapsed(w, a) {
      AttemptRow(w, a);
      var t := w.attempts[a];
      if MayRetry(w.runs[t.run]) {
        var w1 := w.(attempts := w.attempts[a := t.(status := AFailed, leaseExpires := None)]);
        AddGrows(w1, t.run, ExpireLease(w, a, ids).runs[t.run], None, ids);
      }
    }
  }

  /** No new row, no new Attempt number, no new worker. */
  ghost predicate Quiet(w: World, w': World) {
    && w'.runs.Keys == w.runs.Keys && w'.attempts.Keys == w.attempts.Keys
    && (forall r :: r in w.runs ==> w'.runs[r].attemptCount == w.runs[r].attemptCount)
    && (forall a :: a in w.attempts ==> w'.attempts[a].worker == w.attempts[a].worker)
  }

  lemma QuietActions(w: World, act: Action)
    requires !act.DoCreate? && !act.DoInsert? && !act.DoClaim? && !act.DoRetry? && !act.DoExpireLease?
    ensures Quiet(w, Apply(w, act))
  {
    hide MarkPublished, CompleteAttempt, ExpireDispatch;
    match act
    case DoMark(h) => QuietMark(w, h);
    case DoComplete(c, retryAt) => QuietComplete(w, c, retryAt);
    case DoExpireDispatch(o) => QuietExpire(w, o);
    case _ =>
  }

  lemma QuietMark(w: World, h: Holding)
    ensures Quiet(w, MarkPublished(w, h))
  {
  }

  lemma QuietComplete(w: World, c: Completion, retryAt: Instant)
    ensures Quiet(w, CompleteAttempt(w, c, retryAt))
  {
  }

  lemma QuietExpire(w: World, o: Id)
    ensures Quiet(w, ExpireDispatch(w, o))
  {
  }

  lemma QuietGrows(w: World, w': World)
    requires Quiet(w, w')
    ensures Grows(w, w')
  {
  }

  lemma ActionGrows(w: World, act: Action)
    requires Core(w) && Allowed(w, act)
    ensures Grows(w, Apply(w, act))
  {
    hide Core;
    match act
    case DoCreate(p, ids) =>
      if AttemptBounds(p) {
        AddGrows(w, p.id, CreateRun(w, p, ids).runs[p.id], None, ids);
      }
    case DoInsert(key, p, execute, rendered, deadline, ids) =>
      if AttemptBounds(p) && !Materialized(w, key) && rendered && execute {
        AddGrows(w, p.id, Apply(w, act).runs[p.id], deadline, ids);
      }
    case DoClaim(q) =>
      ClaimGrows(w, q);
    case DoRetry(r, ids) =>
      if RetryDue(w, r) {
        AddGrows(w, r, Apply(w, act).runs[r], None, ids);
      }
    case DoExpireLease(a, ids) =>
      ExpireLeaseGrows(w, a, ids);
    case _ =>
      QuietActions(w, act);
      QuietGrows(w, Apply(w, act));
  }

  /** The step theorem: every transaction keeps the invariant and the order of rows. */
  lemma StepOk(w: World, act: Action)
    requires Inv(w) && Allowed(w, act)
    ensures Inv(Apply(w, act)) && Evolves(w, Apply(w, act))
  {
    hide Core, Cover, Evolves;
    match act {
    case DoTick(now) => TickOk(w, now);
    case DoCreate(p, ids) => CreateOk(w, p, ids);
    case DoInsert(key, p, execute, rendered, deadline, ids) =>
      InsertOk(w, key, p, execute, rendered, deadline, ids);
    case DoClaimOutbox(owner, o, lease) => ClaimOutboxOk(w, owner, o, lease);
    case DoPublish(h) => PublishOk(w, h);
    case DoMark(h) => MarkOk(w, h);
    case DoFail(owner, o, retryAt) => FailOk(w, owner, o, retryAt);
    case DoRelease(o) => ReleaseOk(w, o);
    case DoClaim(q) => ClaimOk(w, q);
    case DoRenew(a, worker) => RenewOk(w, a, worker);
    case DoOutput(a, worker, sequence, tails) => OutputOk(w, a, worker, sequence, tails);
    case DoComplete(c, retryAt) => CompleteOk(w, c, retryAt);
    case DoExpireDispatch(o) => ExpireDispatchOk(w, o);
    case DoRetry(r, ids) => RetryOk(w, r, ids);
    case DoExpireLease(a, ids) => ExpireLeaseOk(w, a, ids);
    }
    ActionGrows(w, act);
    CoverGrows(w, Apply(w, act));
  }
}
