/**
 The Run / Attempt / outbox protocol. Every PostgreSQL transaction that moves
 execution state is one function on the `World`: the three tables, the dispatch
 records publishers still hold in memory, the messages the stream has accepted,
 and the grants workers have been told about. Guards are the WHERE clauses.
 */
module Dispatch {
  import opened Base

  datatype RunStatus =
    PendingDispatch | Queued | Running | RetryWait
    | Succeeded | Failed | Dead | Skipped | Cancelled | Unknown
  {
    predicate Terminal() {
      !PendingDispatch? && !Queued? && !Running? && !RetryWait?
    }
  }

  datatype AttemptStatus =
    APending | AQueued | ARunning | ASucceeded | ASkipped | AFailed | ADead | AUnknown
  {
    predicate Live() {
      APending? || AQueued? || ARunning?
    }

    /** Statuses an Attempt can have only after a worker was granted it. */
    predicate Granted() {
      ARunning? || ASucceeded? || ASkipped? || AFailed? || AUnknown?
    }
  }

  /** The key of the unique index on scheduled Runs. */
  datatype Occurrence = Occurrence(schedule: Id, at: Instant, target: Id)

  datatype Run = Run(
    status: RunStatus, idempotent: bool, attemptCount: nat, maxAttempts: nat,
    nextRetryAt: Option<Instant>, queue: Id, occurrence: Option<Occurrence>)
  {
    predicate RetryIsDue(now: Instant) {
      status == RetryWait && nextRetryAt.Some? && nextRetryAt.value <= now
    }
  }

  datatype Tails = Tails(stdout: string, stderr: string)

  datatype Attempt = Attempt(
    run: Id, number: nat, status: AttemptStatus, worker: Option<Id>,
    leaseExpires: Option<Instant>, outputSequence: nat, tails: Tails)
  {
    /** The fence on every request of the granted worker. */
    predicate LeasedTo(w: Id, now: Instant) {
      worker == Some(w) && status == ARunning && leaseExpires.Some? && leaseExpires.value > now
    }

    predicate Lapsed(now: Instant) {
      status == ARunning && leaseExpires.Some? && leaseExpires.value < now
    }
  }

  datatype Outbox = Outbox(
    run: Id, attempt: Id, queue: Id, deadline: Option<Instant>,
    failures: nat, nextAttemptAt: Instant,
    claimedBy: Option<Id>, claimExpires: Option<Instant>,
    publishedAt: Option<Instant>, cancelledAt: Option<Instant>)
  {
    /** Still intended for publication. */
    predicate Open() {
      publishedAt.None? && cancelledAt.None?
    }

    /** Ready for a publisher: due, inside its deadline, and not under a live claim. */
    predicate Due(now: Instant) {
      && Open()
      && nextAttemptAt <= now
      && (deadline.None? || deadline.value >= now)
      && (claimExpires.None? || claimExpires.value < now)
    }

    predicate Expired(now: Instant) {
      Open() && deadline.Some? && deadline.value < now
    }

    predicate Stale(now: Instant) {
      Open() && claimExpires.Some? && claimExpires.value < now
    }
  }

  /** What a claim hands to a publisher, and the envelope it publishes. */
  datatype Record = Record(id: Id, run: Id, attempt: Id, queue: Id)

  datatype Holding = Holding(owner: Id, record: Record)

  datatype Grant = Grant(run: Id, attempt: Id, worker: Id)

  datatype World = World(
    now: Instant,
    runs: map<Id, Run>,
    attempts: map<Id, Attempt>,
    outbox: map<Id, Outbox>,
    held: set<Holding>,
    stream: set<Record>,
    grants: seq<Grant>)

  const LEASE := 60 * SECOND

  function Initial(now: Instant): World {
    World(now, map[], map[], map[], {}, {}, [])
  }

  /** The UUIDs generated inside one transaction. */
  datatype Fresh = Fresh(attempt: Id, dispatch: Id)

  ghost predicate Unused(w: World, ids: Fresh) {
    ids.attempt !in w.attempts && ids.dispatch !in w.outbox
  }

  // ---- Creating execution intent ------------------------------------------

  function CreateAttemptAndOutbox(
    w: World, run: Id, number: nat, queue: Id, deadline: Option<Instant>, ids: Fresh): World
  {
    w.(attempts := w.attempts[ids.attempt :=
         Attempt(run, number, APending, None, None, 0, Tails("", ""))],
       outbox := w.outbox[ids.dispatch :=
         Outbox(run, ids.attempt, queue, deadline, 0, w.now, None, None, None, None)])
  }

  datatype Prepared = Prepared(id: Id, idempotent: bool, maxAttempts: nat, queue: Id)

  /** The table constraint on `max_attempts`; an insert that breaks it fails. */
  predicate AttemptBounds(p: Prepared) {
    1 <= p.maxAttempts <= 100
  }

  /** Manual, re-run and workflow intent: Run, first Attempt and outbox row. */
  function CreateRun(w: World, p: Prepared, ids: Fresh): World {
    if !AttemptBounds(p) then w else
    var run := Run(PendingDispatch, p.idempotent, 1, p.maxAttempts, None, p.queue, None);
    CreateAttemptAndOutbox(w.(runs := w.runs[p.id := run]), p.id, 1, p.queue, None, ids)
  }

  predicate Materialized(w: World, key: Occurrence) {
    exists r :: r in w.runs && w.runs[r].occurrence == Some(key)
  }

  /** One planned occurrence for one Target; an existing key is left alone. */
  function InsertOccurrence(
    w: World, key: Occurrence, p: Prepared, execute: bool, rendered: bool,
    deadline: Option<Instant>, ids: Fresh): World
  {
    if !AttemptBounds(p) || Materialized(w, key) then w else
    var status :=
      if !rendered then Failed else if execute then PendingDispatch else Skipped;
    var count := if status.PendingDispatch? then 1 else 0;
    var run := Run(status, p.idempotent, count, p.maxAttempts, None, p.queue, Some(key));
    var w' := w.(runs := w.runs[p.id := run]);
    if status.PendingDispatch?
    then CreateAttemptAndOutbox(w', p.id, 1, p.queue, deadline, ids)
    else w'
  }

  // ---- Publishing -----------------------------------------------------------

  predicate Claimable(w: World, o: Id) {
    o in w.outbox && w.outbox[o].Due(w.now)
  }

  function RecordOf(w: World, o: Id): Record
    requires o in w.outbox
  {
    Record(o, w.outbox[o].run, w.outbox[o].attempt, w.outbox[o].queue)
  }

  function ClaimOutbox(w: World, owner: Id, o: Id, lease: nat): World {
    if !Claimable(w, o) then w else
    w.(outbox := w.outbox[o := w.outbox[o].(claimedBy := Some(owner), claimExpires := Some(w.now + lease))],
       held := w.held + {Holding(owner, RecordOf(w, o))})
  }

  /** The stream persists a message; the publisher may crash right after. */
  function Publish(w: World, h: Holding): World {
    w.(stream := w.stream + {h.record})
  }

  function MoveAttempt(w: World, a: Id, from: AttemptStatus, to: AttemptStatus): World {
    if a in w.attempts && w.attempts[a].status == from
    then w.(attempts := w.attempts[a := w.attempts[a].(status := to)])
    else w
  }

  function MoveRun(w: World, r: Id, from: RunStatus, to: RunStatus): World {
    if r in w.runs && w.runs[r].status == from
    then w.(runs := w.runs[r := w.runs[r].(status := to)])
    else w
  }

  /** Guarded by the claim alone: `cancelled_at` is not tested. */
  predicate Markable(w: World, h: Holding) {
    && h.record.id in w.outbox
    && var d := w.outbox[h.record.id];
    && d.run == h.record.run
    && d.claimedBy == Some(h.owner)
    && d.publishedAt.None?
  }

  function MarkPublished(w: World, h: Holding): World {
    if !Markable(w, h) then w else
    var d := w.outbox[h.record.id];
    var w1 := w.(outbox := w.outbox[h.record.id :=
                   d.(publishedAt := Some(w.now), claimedBy := None, claimExpires := None)]);
    MoveRun(MoveAttempt(w1, h.record.attempt, APending, AQueued),
            h.record.run, PendingDispatch, Queued)
  }

  function RecordPublishFailure(w: World, owner: Id, o: Id, retryAt: Instant): World {
    if o !in w.outbox || w.outbox[o].claimedBy != Some(owner) || w.outbox[o].publishedAt.Some? then w else
    var d := w.outbox[o];
    w.(outbox := w.outbox[o := d.(failures := d.failures + 1, nextAttemptAt := retryAt,
                                  claimedBy := None, claimExpires := None)])
  }

  /** Reconciliation clears claims whose lease lapsed. */
  predicate StaleClaim(w: World, o: Id) {
    o in w.outbox && w.outbox[o].Stale(w.now)
  }

  function ReleaseClaim(w: World, o: Id): World {
    if !StaleClaim(w, o) then w else
    w.(outbox := w.outbox[o := w.outbox[o].(claimedBy := None, claimExpires := None)])
  }

  // ---- Worker control ---------------------------------------------------------

  datatype ClaimRequest = ClaimRequest(run: Id, attempt: Id, worker: Id, queue: Id)

  datatype ClaimOutcome = NotClaimed | Granted | Conflict

  predicate Grantable(w: World, q: ClaimRequest) {
    && q.attempt in w.attempts
    && w.attempts[q.attempt].run == q.run
    && w.attempts[q.attempt].status == AQueued
    && q.run in w.runs
    && w.runs[q.run].queue == q.queue
  }

  /** Tests only the Attempt; a Run that is not queued aborts the transaction. */
  function ClaimOutcomeOf(w: World, q: ClaimRequest): ClaimOutcome {
    if !Grantable(w, q) then NotClaimed
    else if w.runs[q.run].status != Queued then Conflict
    else ClaimOutcome.Granted
  }

  function ClaimAttempt(w: World, q: ClaimRequest): World {
    if ClaimOutcomeOf(w, q) != ClaimOutcome.Granted then w else
    var t := w.attempts[q.attempt];
    w.(attempts := w.attempts[q.attempt :=
         t.(status := ARunning, worker := Some(q.worker), leaseExpires := Some(w.now + LEASE))],
       runs := w.runs[q.run := w.runs[q.run].(status := Running)],
       grants := w.grants + [Grant(q.run, q.attempt, q.worker)])
  }

  predicate HoldsLease(w: World, a: Id, worker: Id) {
    a in w.attempts && w.attempts[a].LeasedTo(worker, w.now)
  }

  function RenewLease(w: World, a: Id, worker: Id): World {
    if !HoldsLease(w, a, worker) then w else
    w.(attempts := w.attempts[a := w.attempts[a].(leaseExpires := Some(w.now + LEASE))])
  }

  function RecordOutput(w: World, a: Id, worker: Id, sequence: nat, tails: Tails): World {
    if !HoldsLease(w, a, worker) || sequence <= w.attempts[a].outputSequence then w else
    w.(attempts := w.attempts[a := w.attempts[a].(tails := tails, outputSequence := sequence)])
  }

  datatype Completion = Completion(attempt: Id, worker: Id, succeeded: bool, skipped: bool, tails: Tails)

  predicate MayRetry(r: Run) {
    r.idempotent && r.attemptCount < r.maxAttempts
  }

  /** `retryAt` stands for the floating-point backoff instant. */
  function CompleteAttempt(w: World, c: Completion, retryAt: Instant): World {
    if (c.skipped && !c.succeeded) || !HoldsLease(w, c.attempt, c.worker) then w else
    var t := w.attempts[c.attempt];
    var settled := if c.skipped then ASkipped else if c.succeeded then ASucceeded else AFailed;
    var w1 := w.(attempts := w.attempts[c.attempt :=
                   t.(status := settled, leaseExpires := None, tails := c.tails)]);
    if t.run !in w.runs || w.runs[t.run].status != Running then w1 else
    var r := w.runs[t.run];
    var retry := !c.succeeded && !c.skipped && MayRetry(r);
    var status :=
      if c.skipped then Skipped else if c.succeeded then Succeeded
      else if retry then RetryWait else Failed;
    w1.(runs := w.runs[t.run :=
          r.(status := status, nextRetryAt := if retry then Some(retryAt) else None)])
  }

  // ---- Reconciliation, one row at a time --------------------------------------

  predicate DispatchExpired(w: World, o: Id) {
    o in w.outbox && w.outbox[o].Expired(w.now)
  }

  function ExpireDispatch(w: World, o: Id): World {
    if !DispatchExpired(w, o) then w else
    var d := w.outbox[o];
    var w1 := w.(outbox := w.outbox[o :=
                   d.(cancelledAt := Some(w.now), claimedBy := None, claimExpires := None)]);
    MoveRun(MoveAttempt(w1, d.attempt, APending, ADead), d.run, PendingDispatch, Skipped)
  }

  predicate RetryDue(w: World, r: Id) {
    r in w.runs && w.runs[r].RetryIsDue(w.now)
  }

  function Redispatch(w: World, r: Id, from: RunStatus, ids: Fresh): World
    requires r in w.runs
  {
    var row := w.runs[r];
    var w1 :=
      if row.status == from
      then w.(runs := w.runs[r := row.(status := PendingDispatch, attemptCount := row.attemptCount + 1,
                                       nextRetryAt := None)])
      else w;
    CreateAttemptAndOutbox(w1, r, row.attemptCount + 1, row.queue, None, ids)
  }

  function RetryRun(w: World, r: Id, ids: Fresh): World {
    if !RetryDue(w, r) then w else Redispatch(w, r, RetryWait, ids)
  }

  predicate LeaseLapsed(w: World, a: Id) {
    a in w.attempts && w.attempts[a].Lapsed(w.now) && w.attempts[a].run in w.runs
  }

  function ExpireLease(w: World, a: Id, ids: Fresh): World {
    if !LeaseLapsed(w, a) then w else
    var t := w.attempts[a];
    var retry := MayRetry(w.runs[t.run]);
    var w1 := w.(attempts := w.attempts[a :=
                   t.(status := if retry then AFailed else AUnknown, leaseExpires := None)]);
    if retry then Redispatch(w1, t.run, Running, ids) else MoveRun(w1, t.run, Running, Unknown)
  }

  // ---- The transition system --------------------------------------------------

  datatype Action =
    | DoTick(now: Instant)
    | DoCreate(p: Prepared, ids: Fresh)
    | DoInsert(key: Occurrence, p: Prepared, execute: bool, rendered: bool,
               deadline: Option<Instant>, ids: Fresh)
    | DoClaimOutbox(owner: Id, o: Id, lease: nat)
    | DoPublish(h: Holding)
    | DoMark(h: Holding)
    | DoFail(owner: Id, o: Id, retryAt: Instant)
    | DoRelease(o: Id)
    | DoClaim(q: ClaimRequest)
    | DoRenew(a: Id, worker: Id)
    | DoOutput(a: Id, worker: Id, sequence: nat, tails: Tails)
    | DoComplete(c: Completion, retryAt: Instant)
    | DoExpireDispatch(o: Id)
    | DoRetry(r: Id, ids: Fresh)
    | DoExpireLease(a: Id, ids: Fresh)

  /**
   What the environment may do. Clocks do not run backwards, generated UUIDs are
   unused, and a publisher publishes what it was handed and marks it published
   only after the stream acknowledged it. Every worker request is arbitrary.
   */
  ghost predicate Allowed(w: World, act: Action) {
    match act
    case DoTick(now) => w.now <= now
    case DoCreate(p, ids) => p.id !in w.runs && Unused(w, ids)
    case DoInsert(_, p, _, _, _, ids) => p.id !in w.runs && Unused(w, ids)
    case DoPublish(h) => h in w.held
    case DoMark(h) => h in w.held && h.record in w.stream
    case DoRetry(_, ids) => Unused(w, ids)
    case DoExpireLease(_, ids) => Unused(w, ids)
    case _ => true
  }

  function Apply(w: World, act: Action): World {
    match act
    case DoTick(now) => w.(now := now)
    case DoCreate(p, ids) => CreateRun(w, p, ids)
    case DoInsert(key, p, execute, rendered, deadline, ids) =>
      InsertOccurrence(w, key, p, execute, rendered, deadline, ids)
    case DoClaimOutbox(owner, o, lease) => ClaimOutbox(w, owner, o, lease)
    case DoPublish(h) => Publish(w, h)
    case DoMark(h) => MarkPublished(w, h)
    case DoFail(owner, o, retryAt) => RecordPublishFailure(w, owner, o, retryAt)
    case DoRelease(o) => ReleaseClaim(w, o)
    case DoClaim(q) => ClaimAttempt(w, q)
    case DoRenew(a, worker) => RenewLease(w, a, worker)
    case DoOutput(a, worker, sequence, tails) => RecordOutput(w, a, worker, sequence, tails)
    case DoComplete(c, retryAt) => CompleteAttempt(w, c, retryAt)
    case DoExpireDispatch(o) => ExpireDispatch(w, o)
    case DoRetry(r, ids) => RetryRun(w, r, ids)
    case DoExpireLease(a, ids) => ExpireLease(w, a, ids)
  }

  ghost predicate Next(w: World, w': World) {
    exists act :: Allowed(w, act) && w' == Apply(w, act)
  }
}
