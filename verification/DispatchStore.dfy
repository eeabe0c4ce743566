/**
 The store as the server drives it: tables updated statement by statement, with
 rollback, and reconciliation loops over the rows found to need repair. Each
 method is proved to be the transaction of `Dispatch`, or a finite play of them.
 */
module DispatchStore {
  import opened Base
  import opened Dispatch
  import opened DispatchInvariant
  import opened DispatchProgress

  /** `w'` is reached from `w` by these transactions and satisfies the invariant. */
  ghost predicate Reaches(w: World, acts: seq<Action>, w': World) {
    Inv(w') && Playable(w, acts) && w' == Play(w, acts)
  }

  lemma ReachesItself(w: World)
    requires Inv(w)
    ensures Reaches(w, [], w)
  {
  }

  lemma PlayMore(w: World, acts: seq<Action>, w': World, act: Action)
    requires Inv(w) && Reaches(w, acts, w') && Allowed(w', act)
    ensures Inv(w') && Reaches(w, acts + [act], Apply(w', act))
  {
    hide Core, Cover;
    PlayOne(w', act);
    PlayThen(w, acts, [act]);
    StepOk(w', act);
  }

  lemma ReachesThen(w: World, acts: seq<Action>, w': World, more: seq<Action>, w'': World)
    requires Reaches(w, acts, w') && Reaches(w', more, w'')
    ensures Reaches(w, acts + more, w'')
  {
    hide Inv;
    PlayThen(w, acts, more);
  }

  /** Nothing is left for reconciliation to repair. */
  ghost predicate Repaired(w: World) {
    && (forall o :: !DispatchExpired(w, o))
    && (forall r :: !RetryDue(w, r))
    && (forall a :: !LeaseLapsed(w, a))
    && (forall o :: !StaleClaim(w, o))
  }

  // ---- What a batch of claims touches ---------------------------------------------

  ghost predicate Listed(records: seq<Record>, o: Id) {
    exists i :: 0 <= i < |records| && records[i].id == o
  }

  /** A due row was handed out as it is stored and may be marked by its claimant. */
  ghost predicate Handed(w: World, w': World, owner: Id, m: Record) {
    && Claimable(w, m.id) && m == RecordOf(w, m.id) && !Claimable(w', m.id)
    && Markable(w', Holding(owner, m)) && Holding(owner, m) in w'.held
  }

  /** Rows outside `records` are as they were. */
  ghost predicate OnlyClaimed(w: World, w': World, records: seq<Record>) {
    && w' == w.(outbox := w'.outbox, held := w'.held) && w'.outbox.Keys == w.outbox.Keys
    && forall o :: o in w.outbox && !Listed(records, o) ==> w'.outbox[o] == w.outbox[o]
  }

  lemma ClaimedNothing(w: World)
    ensures OnlyClaimed(w, w, [])
  {
  }

  lemma ListedNext(records: seq<Record>, m: Record, o: Id)
    ensures Listed(records + [m], o) <==> Listed(records, o) || m.id == o
  {
    if Listed(records, o) {
      var i :| 0 <= i < |records| && records[i].id == o;
      assert (records + [m])[i].id == o;
    }
    if m.id == o {
      assert (records + [m])[|records|].id == o;
    }
  }

  lemma ClaimNext(v: World, w: World, owner: Id, records: seq<Record>, o: Id, lease: nat)
    requires OnlyClaimed(v, w, records) && Claimable(w, o)
    requires forall i :: 0 <= i < |records| ==> Handed(v, w, owner, records[i])
    ensures var w' := ClaimOutbox(w, owner, o, lease);
            && OnlyClaimed(v, w', records + [RecordOf(w, o)])
            && Handed(v, w', owner, RecordOf(w, o))
            && forall i :: 0 <= i < |records| ==> records[i].id != o && Handed(v, w', owner, records[i])
  {
    hide Listed;
    assert !Listed(records, o) by {
      NotListed(v, w, owner, records, o);
    }
    forall p { ListedNext(records, RecordOf(w, o), p); }
  }

  lemma NotListed(v: World, w: World, owner: Id, records: seq<Record>, o: Id)
    requires Claimable(w, o) && forall i :: 0 <= i < |records| ==> Handed(v, w, owner, records[i])
    ensures !Listed(records, o)
  {
  }

  // ---- What each repair touches ---------------------------------------------------

  /** Some overdue row belongs to the Run. */
  ghost predicate OverdueRun(w: World, r: Id) {
    exists o :: DispatchExpired(w, o) && w.outbox[o].run == r
  }

  ghost predicate OverdueAttempt(w: World, a: Id) {
    exists o :: DispatchExpired(w, o) && w.outbox[o].attempt == a
  }

  /** Only overdue rows, their Attempts and their Runs differ. */
  ghost predicate OnlyDispatchesExpired(w: World, w': World) {
    w'.now == w.now && ExpiredOutbox(w, w') && ExpiredAttempts(w, w') && ExpiredRuns(w, w')
  }

  ghost predicate ExpiredOutbox(w: World, w': World) {
    && w'.outbox.Keys == w.outbox.Keys
    && forall o :: o in w.outbox ==>
         w'.outbox[o] == w.outbox[o] || (DispatchExpired(w, o) && w'.outbox[o].cancelledAt.Some?)
  }

  ghost predicate ExpiredAttempts(w: World, w': World) {
    && w'.attempts.Keys == w.attempts.Keys
    && forall a :: a in w.attempts ==>
         w'.attempts[a] == w.attempts[a] || (OverdueAttempt(w, a) && w'.attempts[a].status.ADead?)
  }

  ghost predicate ExpiredRuns(w: World, w': World) {
    && w'.runs.Keys == w.runs.Keys
    && forall r :: r in w.runs ==>
         w'.runs[r] == w.runs[r] || (OverdueRun(w, r) && w'.runs[r].status.Skipped?)
  }

  lemma StillOverdue(v: World, w: World, o: Id)
    requires v.now == w.now && ExpiredOutbox(v, w) && DispatchExpired(w, o)
    ensures DispatchExpired(v, o) && OverdueRun(v, w.outbox[o].run) && OverdueAttempt(v, w.outbox[o].attempt)
  {
  }

  lemma ExpireDispatchOutbox(v: World, w: World, o: Id)
    requires v.now == w.now && ExpiredOutbox(v, w) && DispatchExpired(w, o) && DispatchExpired(v, o)
    ensures ExpiredOutbox(v, ExpireDispatch(w, o))
    ensures forall p :: DispatchExpired(ExpireDispatch(w, o), p) <==> DispatchExpired(w, p) && p != o
  {
  }

  lemma ExpireDispatchOwners(v: World, w: World, o: Id)
    requires ExpiredAttempts(v, w) && ExpiredRuns(v, w) && DispatchExpired(w, o)
    requires OverdueRun(v, w.outbox[o].run) && OverdueAttempt(v, w.outbox[o].attempt)
    ensures ExpiredAttempts(v, ExpireDispatch(w, o)) && ExpiredRuns(v, ExpireDispatch(w, o))
    ensures ExpireDispatch(w, o).now == w.now
  {
    hide OverdueRun, OverdueAttempt;
  }

  lemma ExpireDispatchRepairs(v: World, w: World, o: Id)
    requires OnlyDispatchesExpired(v, w) && DispatchExpired(w, o)
    ensures OnlyDispatchesExpired(v, ExpireDispatch(w, o)) && DispatchExpired(v, o)
    ensures forall p :: DispatchExpired(ExpireDispatch(w, o), p) <==> DispatchExpired(w, p) && p != o
  {
    hide OverdueRun, OverdueAttempt, ExpiredOutbox, ExpiredAttempts, ExpiredRuns, ExpireDispatch;
    StillOverdue(v, w, o);
    ExpireDispatchOutbox(v, w, o);
    ExpireDispatchOwners(v, w, o);
  }

  /** These acts expired overdue rows of `w`, each once, and none of them is overdue in `w'`. */
  ghost predicate Expiries(w: World, acts: seq<Action>, w': World) {
    && (forall i :: 0 <= i < |acts| ==>
          acts[i].DoExpireDispatch? && DispatchExpired(w, acts[i].o) && !DispatchExpired(w', acts[i].o))
    && (forall i, j :: 0 <= i < j < |acts| ==> acts[i].o != acts[j].o)
  }

  lemma ExpiryNext(v: World, acts: seq<Action>, w: World, o: Id)
    requires Expiries(v, acts, w) && OnlyDispatchesExpired(v, w) && DispatchExpired(w, o)
    ensures Expiries(v, acts + [DoExpireDispatch(o)], ExpireDispatch(w, o))
    ensures OnlyDispatchesExpired(v, ExpireDispatch(w, o))
  {
    hide OnlyDispatchesExpired, ExpireDispatch;
    ExpireDispatchRepairs(v, w, o);
  }

  /** Every Attempt and outbox row stays; new ones are neither running nor claimed nor overdue. */
  ghost predicate OnlyAdded(w: World, w': World) {
    && (forall a :: a in w'.attempts && a !in w.attempts ==> w'.attempts[a].status.APending?)
    && (forall o :: o in w.outbox ==> o in w'.outbox && w'.outbox[o] == w.outbox[o])
    && (forall o :: o in w'.outbox && o !in w.outbox ==>
          w'.outbox[o].deadline.None? && w'.outbox[o].claimExpires.None?)
  }

  /** Only Runs due for retry differ; their new Attempts and outbox rows come on top. */
  ghost predicate OnlyRetried(w: World, w': World) {
    && w'.now == w.now && w'.runs.Keys == w.runs.Keys && OnlyAdded(w, w')
    && (forall r :: r in w.runs ==>
          w'.runs[r] == w.runs[r] || (RetryDue(w, r) && w'.runs[r].status.PendingDispatch?))
    && (forall a :: a in w.attempts ==> a in w'.attempts && w'.attempts[a] == w.attempts[a])
  }

  lemma RetryRepairs(v: World, w: World, r: Id, ids: Fresh)
    requires OnlyRetried(v, w) && RetryDue(w, r) && Unused(w, ids)
    ensures OnlyRetried(v, RetryRun(w, r, ids)) && RetryDue(v, r)
    ensures forall q :: RetryDue(RetryRun(w, r, ids), q) <==> RetryDue(w, q) && q != r
  {
  }

  /** These acts retried due Runs of `w`, each once, and none of them is due in `w'`. */
  ghost predicate Retries(w: World, acts: seq<Action>, w': World) {
    && (forall i :: 0 <= i < |acts| ==>
          acts[i].DoRetry? && RetryDue(w, acts[i].r) && !RetryDue(w', acts[i].r))
    && (forall i, j :: 0 <= i < j < |acts| ==> acts[i].r != acts[j].r)
  }

  lemma RetryNext(v: World, acts: seq<Action>, w: World, r: Id, ids: Fresh)
    requires Retries(v, acts, w) && OnlyRetried(v, w) && RetryDue(w, r) && Unused(w, ids)
    ensures Retries(v, acts + [DoRetry(r, ids)], RetryRun(w, r, ids)) && OnlyRetried(v, RetryRun(w, r, ids))
  {
    hide OnlyRetried, RetryRun;
    RetryRepairs(v, w, r, ids);
  }

  /** Some lapsed Attempt belongs to the Run. */
  ghost predicate LapsedRun(w: World, r: Id) {
    exists a :: LeaseLapsed(w, a) && w.attempts[a].run == r
  }

  /** Only lapsed Attempts and their Runs differ; new Attempts and outbox rows come on top. */
  ghost predicate OnlyLeasesExpired(w: World, w': World) {
    && w'.now == w.now && OnlyAdded(w, w') && LapsedAttempts(w, w') && LapsedRuns(w, w')
  }

  ghost predicate LapsedAttempts(w: World, w': World) {
    forall a :: a in w.attempts ==>
      && a in w'.attempts
      && (w'.attempts[a] == w.attempts[a] || (LeaseLapsed(w, a) && !w'.attempts[a].status.Live()))
  }

  ghost predicate LapsedRuns(w: World, w': World) {
    && w'.runs.Keys == w.runs.Keys
    && forall r :: r in w.runs ==>
         w'.runs[r] == w.runs[r] || (LapsedRun(w, r) && !w'.runs[r].status.RetryWait?)
  }

  lemma StillLapsed(v: World, w: World, a: Id)
    requires OnlyLeasesExpired(v, w) && LeaseLapsed(w, a)
    ensures LeaseLapsed(v, a) && w.attempts[a] == v.attempts[a] && LapsedRun(v, w.attempts[a].run)
  {
    assert a in v.attempts;
  }

  lemma ExpireLeaseAdds(v: World, w: World, a: Id, ids: Fresh)
    requires OnlyAdded(v, w) && LeaseLapsed(w, a) && a in v.attempts && Unused(w, ids)
    ensures OnlyAdded(v, ExpireLease(w, a, ids)) && ExpireLease(w, a, ids).now == w.now
  {
  }

  lemma ExpireLeaseAttempts(v: World, w: World, a: Id, ids: Fresh)
    requires LapsedAttempts(v, w) && LeaseLapsed(w, a) && LeaseLapsed(v, a) && Unused(w, ids)
    ensures LapsedAttempts(v, ExpireLease(w, a, ids))
  {
  }

  lemma ExpireLeaseSettles(w: World, a: Id, ids: Fresh)
    requires LeaseLapsed(w, a) && Unused(w, ids)
    ensures forall b :: LeaseLapsed(ExpireLease(w, a, ids), b) <==> LeaseLapsed(w, b) && b != a
  {
  }

  lemma ExpireLeaseRuns(v: World, w: World, a: Id, ids: Fresh)
    requires Inv(w) && LapsedRuns(v, w) && LeaseLapsed(w, a) && LapsedRun(v, w.attempts[a].run)
    ensures LapsedRuns(v, ExpireLease(w, a, ids))
  {
    hide Core, Cover, LapsedRun;
    AttemptRow(w, a);
  }

  lemma ExpireLeaseRepairs(v: World, w: World, a: Id, ids: Fresh)
    requires Inv(w) && OnlyLeasesExpired(v, w) && LeaseLapsed(w, a) && Unused(w, ids)
    ensures OnlyLeasesExpired(v, ExpireLease(w, a, ids)) && LeaseLapsed(v, a)
    ensures forall b :: LeaseLapsed(ExpireLease(w, a, ids), b) <==> LeaseLapsed(w, b) && b != a
  {
    hide Inv, OnlyAdded, LapsedAttempts, LapsedRuns, ExpireLease;
    StillLapsed(v, w, a);
    ExpireLeaseAdds(v, w, a, ids);
    ExpireLeaseAttempts(v, w, a, ids);
    ExpireLeaseSettles(w, a, ids);
    ExpireLeaseRuns(v, w, a, ids);
  }

  /** These acts expired lapsed leases of `w`, each once, and none of them is lapsed in `w'`. */
  ghost predicate LeaseExpiries(w: World, acts: seq<Action>, w': World) {
    && (forall i :: 0 <= i < |acts| ==>
          acts[i].DoExpireLease? && LeaseLapsed(w, acts[i].a) && !LeaseLapsed(w', acts[i].a))
    && (forall i, j :: 0 <= i < j < |acts| ==> acts[i].a != acts[j].a)
  }

  lemma LeaseExpiryNext(v: World, acts: seq<Action>, w: World, a: Id, ids: Fresh)
    requires Inv(w) && LeaseExpiries(v, acts, w) && OnlyLeasesExpired(v, w) && LeaseLapsed(w, a) && Unused(w, ids)
    ensures LeaseExpiries(v, acts + [DoExpireLease(a, ids)], ExpireLease(w, a, ids))
    ensures OnlyLeasesExpired(v, ExpireLease(w, a, ids))
  {
    hide Inv, OnlyLeasesExpired, ExpireLease;
    ExpireLeaseRepairs(v, w, a, ids);
  }

  /** Only stale claims differ. */
  ghost predicate OnlyReleased(w: World, w': World) {
    && w' == w.(outbox := w'.outbox) && w'.outbox.Keys == w.outbox.Keys
    && forall o :: o in w.outbox ==>
         || w'.outbox[o] == w.outbox[o]
         || (StaleClaim(w, o) && w'.outbox[o] == w.outbox[o].(claimedBy := None, claimExpires := None))
  }

  lemma ReleaseRepairs(v: World, w: World, o: Id)
    requires OnlyReleased(v, w) && StaleClaim(w, o)
    ensures OnlyReleased(v, ReleaseClaim(w, o)) && StaleClaim(v, o)
    ensures forall p :: StaleClaim(ReleaseClaim(w, o), p) <==> StaleClaim(w, p) && p != o
  {
  }

  /** These acts released stale claims of `w`, each once, and none of them is stale in `w'`. */
  ghost predicate Releases(w: World, acts: seq<Action>, w': World) {
    && (forall i :: 0 <= i < |acts| ==>
          acts[i].DoRelease? && StaleClaim(w, acts[i].o) && !StaleClaim(w', acts[i].o))
    && (forall i, j :: 0 <= i < j < |acts| ==> acts[i].o != acts[j].o)
  }

  lemma ReleaseNext(v: World, acts: seq<Action>, w: World, o: Id)
    requires Releases(v, acts, w) && OnlyReleased(v, w) && StaleClaim(w, o)
    ensures Releases(v, acts + [DoRelease(o)], ReleaseClaim(w, o)) && OnlyReleased(v, ReleaseClaim(w, o))
    ensures forall p :: StaleClaim(ReleaseClaim(w, o), p) <==> StaleClaim(w, p) && p != o
  {
    hide OnlyReleased, ReleaseClaim;
    ReleaseRepairs(v, w, o);
  }

  /** An insert materializes its key and no other. */
  lemma InsertMaterializes(w: World, key: Occurrence, p: Prepared, execute: bool, rendered: bool,
                           deadline: Option<Instant>, ids: Fresh)
    requires AttemptBounds(p) && p.id !in w.runs
    ensures var w' := InsertOccurrence(w, key, p, execute, rendered, deadline, ids);
            forall k :: Materialized(w', k) <==> Materialized(w, k) || k == key
  {
    var w' := InsertOccurrence(w, key, p, execute, rendered, deadline, ids);
    if !Materialized(w, key) {
      assert w'.runs[p.id].occurrence == Some(key);
      assert forall r :: r in w.runs ==> w'.runs[r] == w.runs[r];
    }
  }

  method NewId(used: set<Id>) returns (id: Id)
    ensures id !in used
  {
    var rest := used;
    id := 0;
    while rest != {}
      invariant rest <= used
      invariant forall u :: u in used && u !in rest ==> u < id
      decreases rest
    {
      var u :| u in rest;
      id := if u < id then id else u + 1;
      rest := rest - {u};
    }
  }

  /** One Target a Schedule's Job runs on. */
  datatype Execution = Execution(target: Id, idempotent: bool, maxAttempts: nat, queue: Id)

  lemma NothingYet(w: World)
    requires Inv(w)
    ensures Reaches(w, [], w)
    ensures Expiries(w, [], w) && Retries(w, [], w) && LeaseExpiries(w, [], w) && Releases(w, [], w)
    ensures OnlyDispatchesExpired(w, w) && OnlyRetried(w, w) && OnlyLeasesExpired(w, w) && OnlyReleased(w, w)
  {
    hide Inv;
    ReachesItself(w);
  }

  class Store {
    var now: Instant
    var runs: map<Id, Run>
    var attempts: map<Id, Attempt>
    var outbox: map<Id, Outbox>
    // What publishers, the stream and workers were told; not stored in a table.
    ghost var held: set<Holding>
    ghost var stream: set<Record>
    ghost var grants: seq<Grant>

    ghost function View(): World
      reads this
    {
      World(now, runs, attempts, outbox, held, stream, grants)
    }

    constructor (start: Instant)
      ensures View() == Initial(start) && Inv(View())
    {
      now, runs, attempts, outbox := start, map[], map[], map[];
      held, stream, grants := {}, {}, [];
      new;
      InitialOk(start);
    }

    method NewIds() returns (ids: Fresh)
      ensures Unused(View(), ids)
    {
      var a := NewId(attempts.Keys);
      var d := NewId(outbox.Keys);
      ids := Fresh(a, d);
    }

    method CreateAttemptAndOutbox(run: Id, number: nat, queue: Id, deadline: Option<Instant>, ids: Fresh)
      modifies this`attempts, this`outbox
      ensures View() == Dispatch.CreateAttemptAndOutbox(old(View()), run, number, queue, deadline, ids)
    {
      attempts := attempts[ids.attempt := Attempt(run, number, APending, None, None, 0, Tails("", ""))];
      outbox := outbox[ids.dispatch := Outbox(run, ids.attempt, queue, deadline, 0, now, None, None, None, None)];
    }

    method CreateRun(p: Prepared) returns (ids: Fresh)
      requires Inv(View()) && p.id !in runs
      modifies this
      ensures Unused(old(View()), ids) && View() == Dispatch.CreateRun(old(View()), p, ids) && Inv(View())
    {
      hide Core, Cover, Evolves;
      ids := NewIds();
      CreateOk(View(), p, ids);
      StepOk(View(), DoCreate(p, ids));
      if 1 <= p.maxAttempts <= 100 {
        runs := runs[p.id := Run(PendingDispatch, p.idempotent, 1, p.maxAttempts, None, p.queue, None)];
        CreateAttemptAndOutbox(p.id, 1, p.queue, None, ids);
      }
    }

    /** One planned occurrence for one Target, unless its key already has a Run. */
    method InsertOccurrence(key: Occurrence, e: Execution, execute: bool, rendered: bool, deadline: Option<Instant>)
      returns (ghost act: Action)
      requires Inv(View()) && AttemptBounds(Prepared(0, e.idempotent, e.maxAttempts, e.queue))
      modifies this`runs, this`attempts, this`outbox
      ensures Inv(View()) && Allowed(old(View()), act) && View() == Apply(old(View()), act)
      ensures forall k :: Materialized(View(), k) <==> Materialized(old(View()), k) || k == key
      ensures act.DoInsert? && act.key == key && act.execute == execute && act.rendered == rendered
      ensures act.deadline == deadline
      ensures act.p == Prepared(act.p.id, e.idempotent, e.maxAttempts, e.queue)
    {
      hide Core, Cover, Evolves;
      var id := NewId(runs.Keys);
      var ids := NewIds();
      var p := Prepared(id, e.idempotent, e.maxAttempts, e.queue);
      act := DoInsert(key, p, execute, rendered, deadline, ids);
      StepOk(View(), act);
      InsertMaterializes(View(), key, p, execute, rendered, deadline, ids);
      if exists r :: r in runs && runs[r].occurrence == Some(key) {
        return;
      }
      var status := if !rendered then Failed else if execute then PendingDispatch else Skipped;
      var count := if status.PendingDispatch? then 1 else 0;
      runs := runs[id := Run(status, e.idempotent, count, e.maxAttempts, None, e.queue, Some(key))];
      if status.PendingDispatch? {
        CreateAttemptAndOutbox(id, 1, e.queue, deadline, ids);
      }
    }

    /** Hand up to `limit` due rows to a publisher; fewer only if no more are due. */
    method ClaimOutbox(owner: Id, limit: nat, lease: nat) returns (records: seq<Record>, ghost acts: seq<Action>)
      requires Inv(View())
      modifies this`outbox, this`held
      ensures Reaches(old(View()), acts, View()) && |acts| == |records| <= limit
      ensures forall i :: 0 <= i < |acts| ==> acts[i] == DoClaimOutbox(owner, records[i].id, lease)
      ensures forall i :: 0 <= i < |records| ==> Handed(old(View()), View(), owner, records[i])
      ensures forall i, j :: 0 <= i < j < |records| ==> records[i].id != records[j].id
      ensures OnlyClaimed(old(View()), View(), records)
      ensures |records| < limit ==> forall o :: !Claimable(View(), o)
    {
      hide Inv, Reaches, Handed, OnlyClaimed;
      records, acts := [], [];
      ghost var w := View();
      ReachesItself(w);
      ClaimedNothing(w);
      while |records| < limit && exists o :: o in outbox && outbox[o].Due(now)
        invariant |acts| == |records| <= limit
        invariant Reaches(w, acts, View()) && OnlyClaimed(w, View(), records)
        invariant forall i :: 0 <= i < |acts| ==> acts[i] == DoClaimOutbox(owner, records[i].id, lease)
        invariant forall i :: 0 <= i < |records| ==> Handed(w, View(), owner, records[i])
        invariant forall i, j :: 0 <= i < j < |records| ==> records[i].id != records[j].id
        decreases limit - |records|
      {
        var o :| o in outbox && outbox[o].Due(now);
        ghost var act := DoClaimOutbox(owner, o, lease);
        PlayMore(w, acts, View(), act);
        ClaimNext(w, View(), owner, records, o, lease);
        var m := Record(o, outbox[o].run, outbox[o].attempt, outbox[o].queue);
        outbox := outbox[o := outbox[o].(claimedBy := Some(owner), claimExpires := Some(now + lease))];
        held := held + {Holding(owner, m)};
        records := records + [m];
        acts := acts + [act];
      }
    }

    /** The update is conditional on the claim; false is the store's Conflict. */
    method MarkPublished(owner: Id, m: Record) returns (marked: bool)
      requires Inv(View()) && Holding(owner, m) in held && m in stream
      modifies this
      ensures marked == Markable(old(View()), Holding(owner, m))
      ensures View() == Dispatch.MarkPublished(old(View()), Holding(owner, m)) && Inv(View())
    {
      hide Core, Cover, Evolves;
      StepOk(View(), DoMark(Holding(owner, m)));
      marked := m.id in outbox && outbox[m.id].run == m.run
                && outbox[m.id].claimedBy == Some(owner) && outbox[m.id].publishedAt.None?;
      if !marked {
        return;
      }
      outbox := outbox[m.id := outbox[m.id].(publishedAt := Some(now), claimedBy := None, claimExpires := None)];
      if m.attempt in attempts && attempts[m.attempt].status == APending {
        attempts := attempts[m.attempt := attempts[m.attempt].(status := AQueued)];
      }
      if m.run in runs && runs[m.run].status == PendingDispatch {
        runs := runs[m.run := runs[m.run].(status := Queued)];
      }
    }

    /**
     The publisher: publish, and only after the acknowledgement mark the row. The
     stream may persist the message although its acknowledgement is lost, and the
     process may crash before it writes anything back.
     */
    method PublishOne(owner: Id, m: Record, persisted: bool, acknowledged: bool, crashed: bool, retryAt: Instant)
      requires Inv(View()) && Holding(owner, m) in held && (acknowledged ==> persisted)
      modifies this
      ensures Inv(View()) && Evolves(old(View()), View())
      ensures stream == if persisted then old(stream) + {m} else old(stream)
      ensures acknowledged && !crashed && old(Markable(View(), Holding(owner, m))) ==>
                m.run in runs && runs[m.run].status.Queued?
      ensures !acknowledged || crashed ==> runs == old(runs) && attempts == old(attempts)
      ensures crashed ==> outbox == old(outbox)
      ensures !acknowledged && !crashed && old(Markable(View(), Holding(owner, m))) ==>
                && m.id in outbox && outbox[m.id].Open() && outbox[m.id].claimedBy.None?
                && outbox[m.id].nextAttemptAt == retryAt
    {
      hide Core, Cover, Evolves;
      ghost var w := View();
      SameEvolves(w);
      if persisted {
        StepOk(View(), DoPublish(Holding(owner, m)));
        stream := stream + {m};
      }
      ghost var w1 := View();
      if acknowledged && !crashed {
        StepOk(w1, DoMark(Holding(owner, m)));
        if Markable(w1, Holding(owner, m)) { PublicationQueues(w1, Holding(owner, m)); }
        EvolvesTransitive(w, w1, Apply(w1, DoMark(Holding(owner, m))));
        var marked := MarkPublished(owner, m);
      } else if !acknowledged && !crashed {
        StepOk(w1, DoFail(owner, m.id, retryAt));
        if Markable(w1, Holding(owner, m)) { OutboxRow(w1, m.id); }
        EvolvesTransitive(w, w1, Apply(w1, DoFail(owner, m.id, retryAt)));
        RecordPublishFailure(owner, m.id, retryAt);
      }
    }

    method RecordPublishFailure(owner: Id, o: Id, retryAt: Instant)
      requires Inv(View())
      modifies this`outbox
      ensures View() == Dispatch.RecordPublishFailure(old(View()), owner, o, retryAt) && Inv(View())
    {
      hide Core, Cover, Evolves;
      StepOk(View(), DoFail(owner, o, retryAt));
      if o in outbox && outbox[o].claimedBy == Some(owner) && outbox[o].publishedAt.None? {
        outbox := outbox[o := outbox[o].(failures := outbox[o].failures + 1, nextAttemptAt := retryAt,
                                         claimedBy := None, claimExpires := None)];
      }
    }

    /** Update the Attempt first; a Run that is not queued rolls the transaction back. */
    method ClaimAttempt(q: ClaimRequest) returns (outcome: ClaimOutcome)
      requires Inv(View())
      modifies this
      ensures outcome == ClaimOutcomeOf(old(View()), q) != Conflict
      ensures View() == Dispatch.ClaimAttempt(old(View()), q) && Inv(View())
    {
      hide Core, Cover, Evolves;
      if q.attempt !in attempts || attempts[q.attempt].run != q.run || attempts[q.attempt].status != AQueued
         || q.run !in runs || runs[q.run].queue != q.queue
      {
        return NotClaimed;
      }
      var before := attempts;
      attempts := attempts[q.attempt :=
        attempts[q.attempt].(status := ARunning, worker := Some(q.worker), leaseExpires := Some(now + LEASE))];
      if runs[q.run].status == Queued {
        runs := runs[q.run := runs[q.run].(status := Running)];
        grants := grants + [Grant(q.run, q.attempt, q.worker)];
        outcome := ClaimOutcome.Granted;
      } else {
        attempts := before;
        outcome := Conflict;
      }
      StepOk(old(View()), DoClaim(q));
      ClaimOk(old(View()), q);
    }

    method RenewLease(a: Id, worker: Id) returns (renewed: bool)
      requires Inv(View())
      modifies this`attempts
      ensures renewed == HoldsLease(old(View()), a, worker)
      ensures View() == Dispatch.RenewLease(old(View()), a, worker) && Inv(View())
    {
      hide Core, Cover, Evolves;
      StepOk(View(), DoRenew(a, worker));
      renewed := a in attempts && attempts[a].LeasedTo(worker, now);
      if renewed {
        attempts := attempts[a := attempts[a].(leaseExpires := Some(now + LEASE))];
      }
    }

    method RecordOutput(a: Id, worker: Id, sequence: nat, tails: Tails) returns (stored: bool)
      requires Inv(View())
      modifies this`attempts
      ensures stored == (HoldsLease(old(View()), a, worker) && old(attempts)[a].outputSequence < sequence)
      ensures View() == Dispatch.RecordOutput(old(View()), a, worker, sequence, tails) && Inv(View())
    {
      hide Core, Cover, Evolves;
      StepOk(View(), DoOutput(a, worker, sequence, tails));
      stored := a in attempts && attempts[a].LeasedTo(worker, now) && attempts[a].outputSequence < sequence;
      if stored {
        attempts := attempts[a := attempts[a].(tails := tails, outputSequence := sequence)];
      }
    }

    method CompleteAttempt(c: Completion, retryAt: Instant) returns (r: Result<bool, ()>)
      requires Inv(View())
      modifies this`attempts, this`runs
      ensures r == if c.skipped && !c.succeeded then Err(()) else Ok(HoldsLease(old(View()), c.attempt, c.worker))
      ensures View() == Dispatch.CompleteAttempt(old(View()), c, retryAt) && Inv(View())
    {
      hide Core, Cover, Evolves;
      StepOk(View(), DoComplete(c, retryAt));
      if c.skipped && !c.succeeded {
        return Err(());
      }
      if c.attempt !in attempts || !attempts[c.attempt].LeasedTo(c.worker, now) {
        return Ok(false);
      }
      var settled := if c.skipped then ASkipped else if c.succeeded then ASucceeded else AFailed;
      attempts := attempts[c.attempt :=
        attempts[c.attempt].(status := settled, leaseExpires := None, tails := c.tails)];
      var run := attempts[c.attempt].run;
      if run in runs && runs[run].status == Running {
        var retry := !c.succeeded && !c.skipped && runs[run].idempotent
                     && runs[run].attemptCount < runs[run].maxAttempts;
        var status :=
          if c.skipped then Skipped else if c.succeeded then Succeeded else if retry then RetryWait else Failed;
        runs := runs[run := runs[run].(status := status, nextRetryAt := if retry then Some(retryAt) else None)];
      }
      return Ok(true);
    }

    // ---- Reconciliation ------------------------------------------------------------

    method ReconcileExpiredDispatches(limit: nat) returns (n: nat, ghost acts: seq<Action>)
      requires Inv(View())
      modifies this`runs, this`attempts, this`outbox
      ensures Reaches(old(View()), acts, View()) && |acts| == n <= limit
      ensures Expiries(old(View()), acts, View()) && OnlyDispatchesExpired(old(View()), View())
      ensures n < limit ==> forall o :: !DispatchExpired(View(), o)
    {
      hide Inv, Reaches, Expiries, OnlyDispatchesExpired, Dispatch.ExpireDispatch;
      n, acts := 0, [];
      ghost var w := View();
      NothingYet(w);
      while n < limit && exists o :: o in outbox && outbox[o].Expired(now)
        invariant |acts| == n <= limit
        invariant Reaches(w, acts, View()) && Expiries(w, acts, View()) && OnlyDispatchesExpired(w, View())
        decreases limit - n
      {
        var o :| o in outbox && outbox[o].Expired(now);
        PlayMore(w, acts, View(), DoExpireDispatch(o));
        ExpiryNext(w, acts, View(), o);
        acts := acts + [DoExpireDispatch(o)];
        ExpireDispatch(o);
        n := n + 1;
      }
    }

    method ExpireDispatch(o: Id)
      requires DispatchExpired(View(), o)
      modifies this`runs, this`attempts, this`outbox
      ensures View() == Dispatch.ExpireDispatch(old(View()), o)
    {
      var d := outbox[o];
      outbox := outbox[o := d.(cancelledAt := Some(now), claimedBy := None, claimExpires := None)];
      if d.attempt in attempts && attempts[d.attempt].status == APending {
        attempts := attempts[d.attempt := attempts[d.attempt].(status := ADead)];
      }
      if d.run in runs && runs[d.run].status == PendingDispatch {
        runs := runs[d.run := runs[d.run].(status := Skipped)];
      }
    }

    method ReconcileDueRetries(limit: nat) returns (n: nat, ghost acts: seq<Action>)
      requires Inv(View())
      modifies this`runs, this`attempts, this`outbox
      ensures Reaches(old(View()), acts, View()) && |acts| == n <= limit
      ensures Retries(old(View()), acts, View()) && OnlyRetried(old(View()), View())
      ensures n < limit ==> forall r :: !RetryDue(View(), r)
    {
      hide Inv, Reaches, Retries, OnlyRetried, Dispatch.RetryRun;
      n, acts := 0, [];
      ghost var w := View();
      NothingYet(w);
      while n < limit && exists r :: r in runs && runs[r].RetryIsDue(now)
        invariant |acts| == n <= limit
        invariant Reaches(w, acts, View()) && Retries(w, acts, View()) && OnlyRetried(w, View())
        decreases limit - n
      {
        var r :| r in runs && runs[r].RetryIsDue(now);
        var ids := NewIds();
        PlayMore(w, acts, View(), DoRetry(r, ids));
        RetryNext(w, acts, View(), r, ids);
        acts := acts + [DoRetry(r, ids)];
        RetryRun(r, ids);
        n := n + 1;
      }
    }

    method RetryRun(r: Id, ids: Fresh)
      requires RetryDue(View(), r)
      modifies this`runs, this`attempts, this`outbox
      ensures View() == Dispatch.RetryRun(old(View()), r, ids)
    {
      var next := runs[r].attemptCount + 1;
      runs := runs[r := runs[r].(status := PendingDispatch, attemptCount := next, nextRetryAt := None)];
      CreateAttemptAndOutbox(r, next, runs[r].queue, None, ids);
    }

    method ReconcileExpiredLeases(limit: nat) returns (n: nat, ghost acts: seq<Action>)
      requires Inv(View())
      modifies this`runs, this`attempts, this`outbox
      ensures Reaches(old(View()), acts, View()) && |acts| == n <= limit
      ensures LeaseExpiries(old(View()), acts, View()) && OnlyLeasesExpired(old(View()), View())
      ensures n < limit ==> forall a :: !LeaseLapsed(View(), a)
    {
      hide Inv, Reaches, LeaseExpiries, OnlyLeasesExpired, Dispatch.ExpireLease;
      n, acts := 0, [];
      ghost var w := View();
      NothingYet(w);
      while n < limit && exists a :: a in attempts && attempts[a].Lapsed(now) && attempts[a].run in runs
        invariant |acts| == n <= limit
        invariant Reaches(w, acts, View()) && LeaseExpiries(w, acts, View()) && OnlyLeasesExpired(w, View())
        decreases limit - n
      {
        var a :| a in attempts && attempts[a].Lapsed(now) && attempts[a].run in runs;
        var ids := NewIds();
        PlayMore(w, acts, View(), DoExpireLease(a, ids));
        LeaseExpiryNext(w, acts, View(), a, ids);
        acts := acts + [DoExpireLease(a, ids)];
        ExpireLease(a, ids);
        n := n + 1;
      }
    }

    method ExpireLease(a: Id, ids: Fresh)
      requires Inv(View()) && LeaseLapsed(View(), a) && Unused(View(), ids)
      modifies this`runs, this`attempts, this`outbox
      ensures View() == Dispatch.ExpireLease(old(View()), a, ids)
    {
      hide Core, Cover, Evolves;
      AttemptRow(View(), a);
      var run := attempts[a].run;
      var retry := runs[run].idempotent && runs[run].attemptCount < runs[run].maxAttempts;
      attempts := attempts[a :=
        attempts[a].(status := if retry then AFailed else AUnknown, leaseExpires := None)];
      if retry {
        var next := runs[run].attemptCount + 1;
        if runs[run].status == Running {
          runs := runs[run := runs[run].(status := PendingDispatch, attemptCount := next, nextRetryAt := None)];
        }
        CreateAttemptAndOutbox(run, next, runs[run].queue, None, ids);
      } else if runs[run].status == Running {
        runs := runs[run := runs[run].(status := Unknown)];
      }
    }

    /** Claims are released without a limit. */
    method ReleaseStaleClaims() returns (ghost acts: seq<Action>)
      requires Inv(View())
      modifies this`outbox
      ensures Reaches(old(View()), acts, View())
      ensures Releases(old(View()), acts, View()) && OnlyReleased(old(View()), View())
      ensures forall o :: !StaleClaim(View(), o)
    {
      hide Inv, Reaches, Releases, OnlyReleased;
      acts := [];
      ghost var w := View();
      NothingYet(w);
      var stale := set o | o in outbox && outbox[o].Stale(now);
      while stale != {}
        invariant Reaches(w, acts, View()) && Releases(w, acts, View()) && OnlyReleased(w, View())
        invariant forall o :: o in stale <==> StaleClaim(View(), o)
        decreases stale
      {
        var o :| o in stale;
        PlayMore(w, acts, View(), DoRelease(o));
        ReleaseNext(w, acts, View(), o);
        acts := acts + [DoRelease(o)];
        outbox := outbox[o := outbox[o].(claimedBy := None, claimExpires := None)];
        stale := stale - {o};
      }
    }

    /**
     One pass repairs everything, unless some phase used up its limit, and does
     nothing else: a Run that was running under a live lease keeps it.
     */
    method Reconcile(limit: nat) returns (expired: nat, due: nat, lapsed: nat, ghost acts: seq<Action>)
      requires Inv(View())
      modifies this`runs, this`attempts, this`outbox
      ensures Reaches(old(View()), acts, View()) && forall i :: 0 <= i < |acts| ==> Repairs(acts[i])
      ensures expired <= limit && due <= limit && lapsed <= limit && expired + due + lapsed <= |acts|
      ensures expired < limit && due < limit && lapsed < limit ==> Repaired(View())
      ensures Untouched(old(View()), View())
    {
      hide Inv, Reaches, OnlyDispatchesExpired, OnlyRetried, OnlyLeasesExpired, OnlyReleased;
      hide Untouched;
      ghost var w, a1, a2, a3, a4 := View(), [], [], [], [];
      expired, a1 := ReconcileExpiredDispatches(limit);
      ghost var w1 := View();
      ReachesInv(w, a1, w1);
      due, a2 := ReconcileDueRetries(limit);
      ghost var w2 := View();
      ReachesInv(w1, a2, w2);
      lapsed, a3 := ReconcileExpiredLeases(limit);
      ghost var w3 := View();
      ReachesInv(w2, a3, w3);
      a4 := ReleaseStaleClaims();
      ReachesThen(w, a1, w1, a2, w2);
      ReachesThen(w, a1 + a2, w2, a3, w3);
      ReachesThen(w, a1 + a2 + a3, w3, a4, View());
      acts := a1 + a2 + a3 + a4;
      RepairsOnly(w, w1, w2, w3, View());
      RepairsLast(w1, w2, w3, View());
    }
  }

  lemma ReachesInv(w: World, acts: seq<Action>, w': World)
    requires Reaches(w, acts, w')
    ensures Inv(w')
  {
  }

  predicate Repairs(act: Action) {
    act.DoExpireDispatch? || act.DoRetry? || act.DoExpireLease? || act.DoRelease?
  }

  /** Rows that needed no repair are as they were. */
  ghost predicate Untouched(w: World, w': World) {
    && (forall a :: a in w.attempts && !OverdueAttempt(w, a) && !LeaseLapsed(w, a) ==>
          a in w'.attempts && w'.attempts[a] == w.attempts[a])
    && (forall o :: o in w.outbox && !DispatchExpired(w, o) && !StaleClaim(w, o) ==>
          o in w'.outbox && w'.outbox[o] == w.outbox[o])
    && (forall r :: r in w.runs && !OverdueRun(w, r) && !RetryDue(w, r) && !LapsedRun(w, r) ==>
          r in w'.runs && w'.runs[r] == w.runs[r])
  }

  /** A Run with a lapsed Attempt after the first two phases had it from the start. */
  lemma LapsedBefore(w: World, w1: World, w2: World, a: Id)
    requires OnlyDispatchesExpired(w, w1) && OnlyRetried(w1, w2) && LeaseLapsed(w2, a)
    ensures LeaseLapsed(w, a) && w2.attempts[a] == w.attempts[a] && LapsedRun(w, w2.attempts[a].run)
  {
    assert a in w1.attempts && a in w.attempts;
    assert w1.attempts[a] == w.attempts[a];
  }

  lemma RepairsOnlyRuns(w: World, w1: World, w2: World, w3: World, r: Id)
    requires OnlyDispatchesExpired(w, w1) && OnlyRetried(w1, w2) && OnlyLeasesExpired(w2, w3)
    requires r in w.runs && !OverdueRun(w, r) && !RetryDue(w, r) && !LapsedRun(w, r)
    ensures r in w3.runs && w3.runs[r] == w.runs[r]
  {
    hide OverdueRun;
    assert w2.runs[r] == w.runs[r];
    if LapsedRun(w2, r) {
      var a :| LeaseLapsed(w2, a) && w2.attempts[a].run == r;
      LapsedBefore(w, w1, w2, a);
    }
  }

  lemma RepairsOnlyAttempts(w: World, w1: World, w2: World, w3: World, a: Id)
    requires OnlyDispatchesExpired(w, w1) && OnlyRetried(w1, w2) && OnlyLeasesExpired(w2, w3)
    requires a in w.attempts && !OverdueAttempt(w, a) && !LeaseLapsed(w, a)
    ensures a in w3.attempts && w3.attempts[a] == w.attempts[a]
  {
    hide OverdueAttempt, LapsedRuns, OnlyAdded;
    assert w2.attempts[a] == w.attempts[a];
    if LeaseLapsed(w2, a) {
      LapsedBefore(w, w1, w2, a);
    }
  }

  lemma RepairsOnlyOutbox(w: World, w1: World, w2: World, w3: World, w4: World, o: Id)
    requires OnlyDispatchesExpired(w, w1) && OnlyRetried(w1, w2) && OnlyLeasesExpired(w2, w3) && OnlyReleased(w3, w4)
    requires o in w.outbox && !DispatchExpired(w, o) && !StaleClaim(w, o)
    ensures o in w4.outbox && w4.outbox[o] == w.outbox[o]
  {
    hide ExpiredAttempts, ExpiredRuns, LapsedAttempts, LapsedRuns;
    assert w3.outbox[o] == w2.outbox[o] == w1.outbox[o] == w.outbox[o];
  }

  lemma RepairsOnly(w: World, w1: World, w2: World, w3: World, w4: World)
    requires OnlyDispatchesExpired(w, w1) && OnlyRetried(w1, w2) && OnlyLeasesExpired(w2, w3) && OnlyReleased(w3, w4)
    ensures Untouched(w, w4)
  {
    hide OverdueRun, OverdueAttempt, LapsedRun, OnlyDispatchesExpired, OnlyRetried, OnlyLeasesExpired;
    forall a | a in w.attempts && !OverdueAttempt(w, a) && !LeaseLapsed(w, a)
      ensures a in w4.attempts && w4.attempts[a] == w.attempts[a]
    {
      RepairsOnlyAttempts(w, w1, w2, w3, a);
    }
    forall o | o in w.outbox && !DispatchExpired(w, o) && !StaleClaim(w, o)
      ensures o in w4.outbox && w4.outbox[o] == w.outbox[o]
    {
      RepairsOnlyOutbox(w, w1, w2, w3, w4, o);
    }
    forall r | r in w.runs && !OverdueRun(w, r) && !RetryDue(w, r) && !LapsedRun(w, r)
      ensures r in w4.runs && w4.runs[r] == w.runs[r]
    {
      RepairsOnlyRuns(w, w1, w2, w3, r);
    }
  }

  /** Later phases bring no new work for earlier ones. */
  lemma RepairsLast(w1: World, w2: World, w3: World, w4: World)
    requires OnlyRetried(w1, w2) && OnlyLeasesExpired(w2, w3) && OnlyReleased(w3, w4)
    ensures forall o :: DispatchExpired(w4, o) ==> DispatchExpired(w1, o)
    ensures forall r :: RetryDue(w4, r) ==> RetryDue(w2, r)
    ensures forall a :: LeaseLapsed(w4, a) ==> LeaseLapsed(w3, a)
  {
    hide LapsedRun;
  }
}
