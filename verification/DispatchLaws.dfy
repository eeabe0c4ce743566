/**
 What workers, publishers and callers can rely on, told by the columns they see
 and the grants they were given rather than by the guards of the transactions.
 */
module DispatchLaws {
  import opened Base
  import opened Dispatch
  import opened DispatchInvariant
  import opened DispatchTheorems

  // ---- Who may speak for an Attempt ----------------------------------------------------

  ghost predicate GrantedTo(w: World, a: Id, worker: Id) {
    exists k :: 0 <= k < |w.grants| && w.grants[k].attempt == a && w.grants[k].worker == worker
  }

  /** The worker column is the memory of the one grant. */
  lemma WorkerIsGrantee(w: World, a: Id, worker: Id)
    requires Inv(w)
    ensures GrantedTo(w, a, worker) <==> a in w.attempts && w.attempts[a].worker == Some(worker)
  {
    if a in w.attempts && w.attempts[a].worker == Some(worker) {
      assert WasGranted(w.grants, a);
      var k :| 0 <= k < |w.grants| && w.grants[k].attempt == a;
      assert w.attempts[w.grants[k].attempt].worker == Some(w.grants[k].worker);
    }
  }

  /** A worker that was never granted the Attempt cannot renew, report or complete it. */
  lemma StrangersChangeNothing(tr: seq<World>, i: nat, a: Id, worker: Id)
    requires Trace(tr) && i < |tr|
    requires forall k :: 0 <= k < |tr[i].grants| && tr[i].grants[k].attempt == a ==> tr[i].grants[k].worker != worker
    ensures RenewLease(tr[i], a, worker) == tr[i]
    ensures forall sequence, tails :: RecordOutput(tr[i], a, worker, sequence, tails) == tr[i]
    ensures forall c: Completion, retryAt :: c.attempt == a && c.worker == worker ==>
              CompleteAttempt(tr[i], c, retryAt) == tr[i]
  {
    hide Core, Cover;
    ReachableOk(tr, i);
    WorkerIsGrantee(tr[i], a, worker);
    assert !GrantedTo(tr[i], a, worker);
  }

  /** A granted Attempt that runs under an unexpired lease. */
  ghost predicate Serving(w: World, a: Id, worker: Id) {
    && GrantedTo(w, a, worker) && a in w.attempts && w.attempts[a].status.ARunning?
    && w.attempts[a].leaseExpires.Some? && w.now < w.attempts[a].leaseExpires.value
  }

  /** A renewal of a served Attempt lasts sixty seconds from now and changes nothing else. */
  lemma RenewalExtends(tr: seq<World>, i: nat, a: Id, worker: Id)
    requires Trace(tr) && i < |tr| && Serving(tr[i], a, worker)
    ensures var w' := RenewLease(tr[i], a, worker);
            && a in w'.attempts && w'.attempts[a].leaseExpires == Some(tr[i].now + 60 * SECOND)
            && w'.attempts[a].(leaseExpires := None) == tr[i].attempts[a].(leaseExpires := None)
            && w' == tr[i].(attempts := tr[i].attempts[a := w'.attempts[a]])
  {
    hide Core, Cover;
    ReachableOk(tr, i);
    WorkerIsGrantee(tr[i], a, worker);
  }

  /** The grantee's newer output is stored; anything not newer is refused. */
  lemma OutputStoredIffNewer(tr: seq<World>, i: nat, a: Id, worker: Id, sequence: nat, tails: Tails)
    requires Trace(tr) && i < |tr| && Serving(tr[i], a, worker)
    ensures var w' := RecordOutput(tr[i], a, worker, sequence, tails);
            if sequence <= tr[i].attempts[a].outputSequence then w' == tr[i]
            else w' == tr[i].(attempts := tr[i].attempts[a :=
                                tr[i].attempts[a].(tails := tails, outputSequence := sequence)])
  {
    hide Core, Cover;
    ReachableOk(tr, i);
    WorkerIsGrantee(tr[i], a, worker);
  }

  /** Once a snapshot was stored, no request with the same or an older sequence is ever stored again. */
  lemma StoredOutputIsNewest(
    tr: seq<World>, i: nat, j: nat, a: Id, worker: Id, sequence: nat, tails: Tails)
    requires Trace(tr) && i < j < |tr|
    requires tr[i + 1] == Apply(tr[i], DoOutput(a, worker, sequence, tails)) && tr[i + 1] != tr[i]
    ensures a in tr[i + 1].attempts && tr[i + 1].attempts[a].tails == tails
    ensures forall other, older: nat, stale :: older <= sequence ==>
              RecordOutput(tr[j], a, other, older, stale) == tr[j]
  {
    hide Core, Trace;
    assert tr[i + 1].attempts[a].outputSequence == sequence;
    AttemptHistory(tr, i + 1, j, a);
  }

  /** A served worker's completion settles the Attempt with its own tails and decides the Run. */
  lemma CompletionIsDecisive(tr: seq<World>, i: nat, c: Completion, retryAt: Instant)
    requires Trace(tr) && i < |tr| && Serving(tr[i], c.attempt, c.worker)
    ensures c.skipped && !c.succeeded ==> CompleteAttempt(tr[i], c, retryAt) == tr[i]
    ensures (c.skipped ==> c.succeeded) ==>
              var w', r := CompleteAttempt(tr[i], c, retryAt), tr[i].attempts[c.attempt].run;
              r in tr[i].runs && Settled(tr[i], w', c, r, retryAt)
  {
    hide Core, Cover;
    ReachableOk(tr, i);
    WorkerIsGrantee(tr[i], c.attempt, c.worker);
    AttemptRow(tr[i], c.attempt);
  }

  /** Columns after an accepted completion. */
  ghost predicate Settled(w: World, w': World, c: Completion, r: Id, retryAt: Instant)
    requires c.attempt in w.attempts && r in w.runs
  {
    && c.attempt in w'.attempts && r in w'.runs
    && var t, run, row := w'.attempts[c.attempt], w.runs[r], w'.runs[r];
    && var again := !c.succeeded && run.idempotent && run.attemptCount < run.maxAttempts;
    && t.tails == c.tails && t.leaseExpires.None? && t.worker == w.attempts[c.attempt].worker
    && (t.status.ASkipped? <==> c.skipped)
    && (t.status.ASucceeded? <==> c.succeeded && !c.skipped)
    && (t.status.AFailed? <==> !c.succeeded)
    && (row.status.Skipped? <==> c.skipped)
    && (row.status.Succeeded? <==> c.succeeded && !c.skipped)
    && (row.status.RetryWait? <==> again)
    && (row.status.Failed? <==> !c.succeeded && !again)
    && row.nextRetryAt == (if again then Some(retryAt) else None)
    && row.attemptCount == run.attemptCount
    && w' == w.(attempts := w.attempts[c.attempt := t], runs := w.runs[r := row])
  }

  // ---- Grants ----------------------------------------------------------------------------

  /** A worker is granted exactly a queued Attempt of the named Run, from the Run's own queue. */
  lemma GrantIffQueued(tr: seq<World>, i: nat, q: ClaimRequest)
    requires Trace(tr) && i < |tr|
    ensures var w, w' := tr[i], ClaimAttempt(tr[i], q);
            if q.attempt in w.attempts && w.attempts[q.attempt].run == q.run
               && w.attempts[q.attempt].status.AQueued? && q.run in w.runs && w.runs[q.run].queue == q.queue
            then
              && w'.grants == w.grants + [Grant(q.run, q.attempt, q.worker)]
              && q.attempt in w'.attempts && w'.attempts[q.attempt].status.ARunning?
              && w'.attempts[q.attempt].worker == Some(q.worker)
              && w'.attempts[q.attempt].leaseExpires == Some(w.now + 60 * SECOND)
              && q.run in w'.runs && w'.runs[q.run] == w.runs[q.run].(status := Running)
            else w' == w
  {
    ClaimNeverConflicts(tr, i, q);
  }

  // ---- What a caller asked for --------------------------------------------------------------

  /** A created Run starts pending with attempt 1 of the requested limit, due at once. */
  lemma CreationStarts(w: World, p: Prepared, ids: Fresh)
    requires 1 <= p.maxAttempts <= 100
    ensures var w' := CreateRun(w, p, ids);
            && p.id in w'.runs && w'.runs[p.id].status.PendingDispatch? && w'.runs[p.id].attemptCount == 1
            && w'.runs[p.id].idempotent == p.idempotent && w'.runs[p.id].maxAttempts == p.maxAttempts
            && w'.runs[p.id].queue == p.queue && w'.runs[p.id].occurrence.None?
            && StartsAttempt(w, w', p.id, 1, p.queue, None, ids)
  {
  }

  /** A fresh pending Attempt with an open outbox row that is due now. */
  ghost predicate StartsAttempt(
    w: World, w': World, r: Id, number: nat, queue: Id, deadline: Option<Instant>, ids: Fresh)
  {
    && ids.attempt in w'.attempts && ids.dispatch in w'.outbox
    && var t, d := w'.attempts[ids.attempt], w'.outbox[ids.dispatch];
    && t.run == r && t.number == number && t.status.APending? && t.worker.None? && t.outputSequence == 0
    && d.run == r && d.attempt == ids.attempt && d.queue == queue && d.deadline == deadline
    && d.failures == 0 && d.nextAttemptAt == w.now && d.claimedBy.None?
    && d.publishedAt.None? && d.cancelledAt.None?
  }

  /** Idempotence, attempt limit and queue of a request hold for the Run's whole life. */
  lemma RequestIsKept(tr: seq<World>, i: nat, j: nat, p: Prepared, ids: Fresh)
    requires Trace(tr) && i < j < |tr| && 1 <= p.maxAttempts <= 100
    requires tr[i + 1] == Apply(tr[i], DoCreate(p, ids))
    ensures p.id in tr[j].runs && tr[j].runs[p.id].idempotent == p.idempotent
    ensures tr[j].runs[p.id].maxAttempts == p.maxAttempts && tr[j].runs[p.id].queue == p.queue
  {
    hide Trace;
    CreationStarts(tr[i], p, ids);
    RunHistory(tr, i + 1, j, p.id);
  }

  // ---- Publishers --------------------------------------------------------------------------

  /** A claim keeps others away for the requested lease and no longer. */
  lemma ClaimLasts(w: World, owner: Id, o: Id, lease: nat, later: Instant)
    requires o in w.outbox && w.outbox[o].publishedAt.None? && w.outbox[o].cancelledAt.None?
    requires w.outbox[o].nextAttemptAt <= w.now <= later
    requires w.outbox[o].deadline.Some? ==> later <= w.outbox[o].deadline.value
    requires w.outbox[o].claimExpires.Some? ==> w.outbox[o].claimExpires.value < w.now
    ensures var w' := ClaimOutbox(w, owner, o, lease);
            && w'.outbox[o].claimedBy == Some(owner)
            && Holding(owner, Record(o, w.outbox[o].run, w.outbox[o].attempt, w.outbox[o].queue)) in w'.held
            && (Claimable(w'.(now := later), o) <==> w.now + lease < later)
            && (StaleClaim(w'.(now := later), o) <==> w.now + lease < later)
  {
  }

  /** Nobody claims a row before its time, past its deadline, or under a live claim. */
  lemma ClaimIffDue(w: World, owner: Id, o: Id, lease: nat)
    ensures var w', due := ClaimOutbox(w, owner, o, lease),
                           o in w.outbox && w.outbox[o].publishedAt.None? && w.outbox[o].cancelledAt.None?
                           && w.outbox[o].nextAttemptAt <= w.now
                           && (w.outbox[o].deadline.Some? ==> w.now <= w.outbox[o].deadline.value)
                           && (w.outbox[o].claimExpires.Some? ==> w.outbox[o].claimExpires.value < w.now);
            if due then
              && w'.outbox == w.outbox[o := w.outbox[o].(claimedBy := Some(owner), claimExpires := Some(w.now + lease))]
              && w' == w.(outbox := w'.outbox, held := w'.held)
            else w' == w
  {
  }

  /** A live claim ends only through its holder, or through the row's deadline. */
  lemma ClaimIsRespected(w: World, act: Action, o: Id)
    requires Inv(w) && Allowed(w, act) && o in w.outbox && w.outbox[o].claimedBy.Some?
    requires w.outbox[o].claimExpires.Some? && w.now <= w.outbox[o].claimExpires.value
    ensures o in Apply(w, act).outbox
    ensures Apply(w, act).outbox[o] == w.outbox[o]
            || (act.DoMark? && act.h.record.id == o && w.outbox[o].claimedBy == Some(act.h.owner))
            || (act.DoFail? && act.o == o && w.outbox[o].claimedBy == Some(act.owner))
            || (act.DoExpireDispatch? && act.o == o && w.outbox[o].deadline.Some?
                && w.outbox[o].deadline.value < w.now)
  {
    hide Inv;
  }

  /** A failed publication frees the row for anyone, exactly from its retry time on. */
  lemma FailureReschedules(w: World, owner: Id, o: Id, retryAt: Instant, later: Instant)
    requires o in w.outbox && w.outbox[o].claimedBy == Some(owner)
    requires w.outbox[o].publishedAt.None? && w.outbox[o].cancelledAt.None? && w.outbox[o].deadline.None?
    ensures var w' := RecordPublishFailure(w, owner, o, retryAt);
            && w'.outbox[o].failures == w.outbox[o].failures + 1 && w'.outbox[o].claimedBy.None?
            && (Claimable(w'.(now := later), o) <==> retryAt <= later)
            && w' == w.(outbox := w.outbox[o := w'.outbox[o]])
  {
  }

  // ---- Repairs ---------------------------------------------------------------------------------

  /** A dispatch is given up exactly when it is open and its deadline has passed. */
  lemma ExpiryIffOverdue(w: World, o: Id)
    requires Inv(w)
    ensures var w', due := ExpireDispatch(w, o),
                           o in w.outbox && w.outbox[o].publishedAt.None? && w.outbox[o].cancelledAt.None?
                           && w.outbox[o].deadline.Some? && w.outbox[o].deadline.value < w.now;
            if due then
              && w'.outbox[o].cancelledAt == Some(w.now) && w'.outbox[o].claimedBy.None?
              && w.outbox[o].attempt in w'.attempts && w'.attempts[w.outbox[o].attempt].status.ADead?
              && w.outbox[o].run in w'.runs && w'.runs[w.outbox[o].run].status.Skipped?
            else w' == w
  {
    hide Core, Cover;
    if o in w.outbox {
      OutboxRow(w, o);
    }
  }

  /** A waiting Run is dispatched again exactly from its retry time on, with the next Attempt number. */
  lemma RetryIffDue(w: World, r: Id, ids: Fresh)
    ensures var w', due := RetryRun(w, r, ids),
                           r in w.runs && w.runs[r].status.RetryWait? && w.runs[r].nextRetryAt.Some?
                           && w.runs[r].nextRetryAt.value <= w.now;
            if due then
              && r in w'.runs && w'.runs[r].status.PendingDispatch?
              && w'.runs[r].attemptCount == w.runs[r].attemptCount + 1 && w'.runs[r].nextRetryAt.None?
              && StartsAttempt(w, w', r, w.runs[r].attemptCount + 1, w.runs[r].queue, None, ids)
            else w' == w
  {
  }

  /** A lease is taken away exactly once it has passed; the Run is retried only if that is safe. */
  lemma LeaseLossIffPassed(w: World, a: Id, ids: Fresh)
    requires Inv(w) && Unused(w, ids)
    ensures var w', lost := ExpireLease(w, a, ids),
                            a in w.attempts && w.attempts[a].status.ARunning?
                            && w.attempts[a].leaseExpires.Some? && w.attempts[a].leaseExpires.value < w.now;
            if !lost then w' == w else
              var r := w.attempts[a].run;
              && r in w.runs && r in w'.runs && a in w'.attempts && w'.attempts[a].leaseExpires.None?
              && w'.attempts[a].tails == w.attempts[a].tails
              && if w.runs[r].idempotent && w.runs[r].attemptCount < w.runs[r].maxAttempts then
                   && w'.attempts[a].status.AFailed? && w'.runs[r].status.PendingDispatch?
                   && w'.runs[r].attemptCount == w.runs[r].attemptCount + 1
                   && StartsAttempt(w, w', r, w.runs[r].attemptCount + 1, w.runs[r].queue, None, ids)
                 else
                   w'.attempts[a].status.AUnknown? && w'.runs[r].status.Unknown?
  {
    hide Core, Cover;
    if a in w.attempts {
      AttemptRow(w, a);
    }
  }

  /** A claim is released exactly once its lease has passed on an open row. */
  lemma ReleaseIffStale(w: World, o: Id)
    ensures var w', stale := ReleaseClaim(w, o),
                             o in w.outbox && w.outbox[o].publishedAt.None? && w.outbox[o].cancelledAt.None?
                             && w.outbox[o].claimExpires.Some? && w.outbox[o].claimExpires.value < w.now;
            if stale then
              w' == w.(outbox := w.outbox[o := w.outbox[o].(claimedBy := None, claimExpires := None)])
            else w' == w
  {
  }

  // ---- Counting ------------------------------------------------------------------------------------

  /** The count of grants is the number of grants that name the Run. */
  lemma {:induction false} GrantsOfCounts(grants: seq<Grant>, r: Id)
    ensures GrantsOf(grants, r) == |Naming(grants, r)|
  {
    if grants == [] {
      assert Naming(grants, r) == {};
    } else {
      var n := |grants| - 1;
      GrantsOfCounts(grants[..n], r);
      NamingNext(grants, r);
    }
  }

  /** The positions of the grants that name the Run. */
  function Naming(grants: seq<Grant>, r: Id): set<nat> {
    set k: nat | k < |grants| && grants[k].run == r
  }

  lemma NamingNext(grants: seq<Grant>, r: Id)
    requires grants != []
    ensures var n := |grants| - 1;
            |Naming(grants, r)| == |Naming(grants[..n], r)| + (if grants[n].run == r then 1 else 0)
  {
    var n := |grants| - 1;
    var fewer := Naming(grants[..n], r);
    assert n !in fewer;
    if grants[n].run == r {
      assert Naming(grants, r) == fewer + {n};
    } else {
      assert Naming(grants, r) == fewer;
    }
  }
}
