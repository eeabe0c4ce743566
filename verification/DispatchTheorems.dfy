/** What the dispatch protocol guarantees over whole runs of the system. */
module DispatchTheorems {
  import opened Base
  import opened Dispatch
  import opened DispatchInvariant

  /** Consecutive states are one transaction apart. */
  ghost predicate Chain(tr: seq<World>) {
    |tr| > 0 && forall i :: 0 < i < |tr| ==> Next(tr[i - 1], tr[i])
  }

  /** A run of the system from an empty database. */
  ghost predicate Trace(tr: seq<World>) {
    Chain(tr) && tr[0] == Initial(tr[0].now)
  }

  lemma NextOk(w: World, w': World)
    requires Inv(w) && Next(w, w')
    ensures Inv(w') && Evolves(w, w')
  {
    var act :| Allowed(w, act) && w' == Apply(w, act);
    StepOk(w, act);
  }

  lemma {:induction false} ChainOk(tr: seq<World>, i: nat)
    requires Chain(tr) && Inv(tr[0]) && i < |tr|
    ensures Inv(tr[i])
  {
    if i > 0 {
      ChainOk(tr, i - 1);
      NextOk(tr[i - 1], tr[i]);
    }
  }

  /** Every state of every interleaving satisfies the invariant. */
  lemma ReachableOk(tr: seq<World>, i: nat)
    requires Trace(tr) && i < |tr|
    ensures Inv(tr[i])
  {
    InitialOk(tr[0].now);
    ChainOk(tr, i);
  }

  /** Rows only ever move forward. */
  lemma {:induction false} HistoryOk(tr: seq<World>, i: nat, j: nat)
    requires Trace(tr) && i <= j < |tr|
    ensures Inv(tr[i]) && Inv(tr[j]) && Evolves(tr[i], tr[j])
    decreases j - i
  {
    hide Core, Cover, Evolves;
    ReachableOk(tr, i);
    ReachableOk(tr, j);
    if i == j {
      SameEvolves(tr[i]);
    } else {
      HistoryOk(tr, i, j - 1);
      NextOk(tr[j - 1], tr[j]);
      EvolvesTransitive(tr[i], tr[j - 1], tr[j]);
    }
  }

  lemma RunHistory(tr: seq<World>, i: nat, j: nat, r: Id)
    requires Trace(tr) && i <= j < |tr| && r in tr[i].runs
    ensures r in tr[j].runs && RunEvolves(tr[i].runs[r], tr[j].runs[r])
    ensures RunOk(tr[i].runs[r]) && RunOk(tr[j].runs[r])
  {
    HistoryOk(tr, i, j);
  }

  lemma AttemptHistory(tr: seq<World>, i: nat, j: nat, a: Id)
    requires Trace(tr) && i <= j < |tr| && a in tr[i].attempts
    ensures a in tr[j].attempts && AttemptEvolves(tr[i].attempts[a], tr[j].attempts[a], tr[i].now)
    ensures Core(tr[i]) && Core(tr[j]) && tr[i].now <= tr[j].now
  {
    HistoryOk(tr, i, j);
  }

  lemma OutboxHistory(tr: seq<World>, i: nat, j: nat, o: Id)
    requires Trace(tr) && i <= j < |tr| && o in tr[i].outbox
    ensures o in tr[j].outbox && OutboxEvolves(tr[i].outbox[o], tr[j].outbox[o], tr[i].now)
    ensures Core(tr[i]) && Core(tr[j]) && tr[i].now <= tr[j].now
  {
    HistoryOk(tr, i, j);
  }

  // ---- The shape of a Run's rows -------------------------------------------------

  function LiveAttempts(w: World, r: Id): set<Id> {
    set a | a in w.attempts && w.attempts[a].run == r && w.attempts[a].status.Live()
  }

  function OpenRows(w: World, r: Id): set<Id> {
    set o | o in w.outbox && w.outbox[o].run == r && w.outbox[o].Open()
  }

  /** `a` is the one live Attempt of `r`, it is the latest, and has this status. */
  ghost predicate OnlyLive(w: World, r: Id, a: Id, status: AttemptStatus) {
    && r in w.runs && a in w.attempts
    && LiveAttempts(w, r) == {a}
    && w.attempts[a].number == w.runs[r].attemptCount
    && w.attempts[a].status == status
  }

  ghost predicate Dispatches(w: World, o: Id, a: Id) {
    o in w.outbox && w.outbox[o].attempt == a
  }

  ghost predicate Shape(w: World, r: Id)
    requires r in w.runs
  {
    match w.runs[r].status
    case PendingDispatch =>
      exists a: Id, o: Id :: OnlyLive(w, r, a, APending) && Dispatches(w, o, a) && OpenRows(w, r) == {o}
    case Queued =>
      && OpenRows(w, r) == {}
      && exists a: Id, o: Id :: OnlyLive(w, r, a, AQueued) && Dispatches(w, o, a) && RecordOf(w, o) in w.stream
    case Running =>
      && OpenRows(w, r) == {}
      && exists a: Id :: OnlyLive(w, r, a, ARunning) && WasGranted(w.grants, a)
    case RetryWait =>
      OpenRows(w, r) == {} && LiveAttempts(w, r) == {} && MayRetry(w.runs[r])
    case _ =>
      OpenRows(w, r) == {} && LiveAttempts(w, r) == {}
  }

  /** The latest Attempt of a Run, and its outbox row. */
  lemma Latest(w: World, r: Id) returns (a: Id, o: Id)
    requires Inv(w) && r in w.runs && w.runs[r].attemptCount > 0
    ensures a in w.attempts && w.attempts[a].run == r && w.attempts[a].number == w.runs[r].attemptCount
    ensures Dispatches(w, o, a) && w.outbox[o].run == r
    ensures RunOk(w.runs[r]) && AttemptOk(w.attempts[a], w.runs[r]) && OutboxOk(w.outbox[o], w.attempts[a])
    ensures w.outbox[o].publishedAt.Some? ==> RecordOf(w, o) in w.stream
    ensures w.attempts[a].worker.Some? ==> WasGranted(w.grants, a)
    ensures w.outbox[o].queue == w.runs[r].queue
  {
    assert HasAttempt(w.attempts, r, w.runs[r].attemptCount);
    a :| a in w.attempts && w.attempts[a].run == r && w.attempts[a].number == w.runs[r].attemptCount;
    assert HasDispatch(w.outbox, a);
    o :| o in w.outbox && w.outbox[o].attempt == a;
    OutboxRow(w, o);
  }

  /** Only the latest Attempt may be live. */
  lemma LiveIsLatest(w: World, r: Id, a: Id)
    requires Core(w) && r in w.runs && a in w.attempts && w.attempts[a].run == r
    requires w.attempts[a].number == w.runs[r].attemptCount
    ensures LiveAttempts(w, r) == if w.attempts[a].status.Live() then {a} else {}
  {
    forall b | b in LiveAttempts(w, r) ensures b == a {
      AttemptRow(w, b);
    }
  }

  /** Only the latest Attempt may still be waiting for publication. */
  lemma OpenIsLatest(w: World, r: Id, o: Id)
    requires Core(w) && r in w.runs && o in w.outbox && w.outbox[o].attempt in w.attempts
    requires w.attempts[w.outbox[o].attempt].run == r
    requires w.attempts[w.outbox[o].attempt].number == w.runs[r].attemptCount
    ensures OpenRows(w, r) == if w.outbox[o].Open() then {o} else {}
  {
    OutboxRow(w, o);
    forall p | p in OpenRows(w, r) ensures p == o {
      OutboxRow(w, p);
    }
  }

  lemma NoAttempts(w: World, r: Id)
    requires Core(w) && r in w.runs && w.runs[r].attemptCount == 0
    ensures LiveAttempts(w, r) == {} && OpenRows(w, r) == {}
  {
    forall o | o in OpenRows(w, r) ensures false {
      OutboxRow(w, o);
    }
  }

  /** In every reachable state, Run status fixes the shape of its rows. */
  lemma StatusFixesShape(tr: seq<World>, i: nat, r: Id)
    requires Trace(tr) && i < |tr| && r in tr[i].runs
    ensures Shape(tr[i], r)
  {
    hide Core, Cover;
    var w := tr[i];
    ReachableOk(tr, i);
    RunRow(w, r);
    if w.runs[r].attemptCount == 0 {
      NoAttempts(w, r);
    } else {
      var a, o := Latest(w, r);
      LiveIsLatest(w, r, a);
      OpenIsLatest(w, r, o);
    }
  }

  /** Attempt numbers are exactly 1..attempt_count, each used once. */
  lemma AttemptNumbers(tr: seq<World>, i: nat, r: Id)
    requires Trace(tr) && i < |tr| && r in tr[i].runs
    ensures tr[i].runs[r].attemptCount <= tr[i].runs[r].maxAttempts
    ensures forall n: nat :: 1 <= n <= tr[i].runs[r].attemptCount <==> HasAttempt(tr[i].attempts, r, n)
    ensures forall a, b ::
              (a in tr[i].attempts && b in tr[i].attempts && tr[i].attempts[a].run == tr[i].attempts[b].run == r
               && tr[i].attempts[a].number == tr[i].attempts[b].number) ==> a == b
  {
    ReachableOk(tr, i);
    RunRow(tr[i], r);
    forall n: nat | HasAttempt(tr[i].attempts, r, n) ensures 1 <= n <= tr[i].runs[r].attemptCount {
      var a :| a in tr[i].attempts && tr[i].attempts[a].run == r && tr[i].attempts[a].number == n;
      AttemptRow(tr[i], a);
    }
  }

  /** `claim_attempt` never meets a queued Attempt whose Run is not queued. */
  lemma ClaimNeverConflicts(tr: seq<World>, i: nat, q: ClaimRequest)
    requires Trace(tr) && i < |tr|
    ensures ClaimOutcomeOf(tr[i], q) != Conflict
  {
    ReachableOk(tr, i);
    ClaimOk(tr[i], q);
  }

  /** At most one Run exists per (schedule, instant, target), whatever the planners do. */
  lemma OneRunPerOccurrence(tr: seq<World>, i: nat, r: Id, q: Id)
    requires Trace(tr) && i < |tr| && r in tr[i].runs && q in tr[i].runs
    requires tr[i].runs[r].occurrence.Some? && tr[i].runs[r].occurrence == tr[i].runs[q].occurrence
    ensures r == q
  {
    ReachableOk(tr, i);
  }

  // ---- Grants ---------------------------------------------------------------------

  function GrantsOf(grants: seq<Grant>, r: Id): nat {
    if grants == [] then 0
    else GrantsOf(grants[..|grants| - 1], r) + (if grants[|grants| - 1].run == r then 1 else 0)
  }

  ghost predicate GrantedNumber(w: World, k: nat, r: Id, n: nat) {
    exists i :: 0 <= i < k && i < |w.grants| && w.grants[i].run == r
      && w.grants[i].attempt in w.attempts && w.attempts[w.grants[i].attempt].number == n
  }

  /** Distinct grants of one Run carry distinct Attempt numbers. */
  lemma {:induction false} GrantNumbers(w: World, k: nat, r: Id) returns (ns: set<nat>)
    requires Core(w) && r in w.runs && k <= |w.grants|
    ensures |ns| == GrantsOf(w.grants[..k], r)
    ensures forall n :: n in ns ==> 1 <= n <= w.runs[r].attemptCount && GrantedNumber(w, k, r, n)
  {
    if k == 0 {
      ns := {};
    } else {
      ns := GrantNumbers(w, k - 1, r);
      assert w.grants[..k][..k - 1] == w.grants[..k - 1];
      var g := w.grants[k - 1];
      if g.run == r {
        AttemptRow(w, g.attempt);
        var n := w.attempts[g.attempt].number;
        assert n !in ns;
        ns := ns + {n};
        assert GrantedNumber(w, k, r, n);
      }
    }
  }

  lemma {:induction false} BoundedSet(ns: set<nat>, bound: nat)
    requires forall n :: n in ns ==> 1 <= n <= bound
    ensures |ns| <= bound
  {
    if bound == 0 {
      assert ns == {};
    } else {
      BoundedSet(ns - {bound}, bound - 1);
    }
  }

  /**
   Over every run with duplicated, reordered or late deliveries, crashes and lost
   leases, a Run is granted at most `max_attempts` times, a non-idempotent Run at
   most once, and each Attempt at most once.
   */
  lemma GrantsBounded(tr: seq<World>, i: nat, r: Id)
    requires Trace(tr) && i < |tr| && r in tr[i].runs
    ensures GrantsOf(tr[i].grants, r) <= tr[i].runs[r].attemptCount <= tr[i].runs[r].maxAttempts
    ensures !tr[i].runs[r].idempotent ==> GrantsOf(tr[i].grants, r) <= 1
    ensures forall j, k :: 0 <= j < k < |tr[i].grants| ==> tr[i].grants[j].attempt != tr[i].grants[k].attempt
  {
    hide Cover;
    ReachableOk(tr, i);
    var w := tr[i];
    RunRow(w, r);
    var ns := GrantNumbers(w, |w.grants|, r);
    assert w.grants[..|w.grants|] == w.grants;
    BoundedSet(ns, w.runs[r].attemptCount);
  }

  // ---- Status changes ---------------------------------------------------------------

  predicate Changed(w: World, w': World, r: Id) {
    r in w.runs && r in w'.runs && w.runs[r].status != w'.runs[r].status
  }

  function Changes(tr: seq<World>, r: Id): nat {
    if |tr| < 2 then 0
    else Changes(tr[..|tr| - 1], r) + (if Changed(tr[|tr| - 2], tr[|tr| - 1], r) then 1 else 0)
  }

  lemma {:induction false} MeasurePays(tr: seq<World>, r: Id)
    requires Trace(tr)
    ensures var w := tr[|tr| - 1];
            if r !in w.runs || w.runs[r].attemptCount == 0 then Changes(tr, r) == 0
            else Changes(tr, r) + Measure(w.runs[r]) <= 4 * w.runs[r].maxAttempts - 1
  {
    hide Next;
    if |tr| > 1 {
      var n := |tr| - 1;
      var w, w' := tr[n - 1], tr[n];
      MeasurePays(tr[..n], r);
      if r in w.runs { RunHistory(tr, n - 1, n, r); }
      if r in w'.runs { RunHistory(tr, n, n, r); }
    }
  }

  /** Terminal Runs never change; every other Run changes status at most 4 * max_attempts - 1 times. */
  lemma StatusChangesBounded(tr: seq<World>, r: Id)
    requires Trace(tr) && r in tr[|tr| - 1].runs
    ensures Changes(tr, r) <= 4 * tr[|tr| - 1].runs[r].maxAttempts - 1
    ensures forall i, j :: 0 <= i <= j < |tr| && r in tr[i].runs && tr[i].runs[r].status.Terminal() ==>
              r in tr[j].runs && tr[j].runs[r] == tr[i].runs[r]
  {
    MeasurePays(tr, r);
    RunHistory(tr, |tr| - 1, |tr| - 1, r);
    forall i, j | 0 <= i <= j < |tr| && r in tr[i].runs && tr[i].runs[r].status.Terminal()
      ensures r in tr[j].runs && tr[j].runs[r] == tr[i].runs[r]
    {
      RunHistory(tr, i, j, r);
    }
  }

  // ---- Lease fencing ------------------------------------------------------------------

  /** No renewal, live output or completion request can touch Attempt `a`. */
  ghost predicate Fenced(w: World, a: Id) {
    && (forall worker :: RenewLease(w, a, worker) == w)
    && (forall worker, sequence, tails :: RecordOutput(w, a, worker, sequence, tails) == w)
    && (forall c: Completion, retryAt :: c.attempt == a ==> CompleteAttempt(w, c, retryAt) == w)
  }

  /**
   Once an Attempt is settled it never changes again, and once its lease has
   lapsed it is never revived: only expiry can settle it, its output is final,
   and every later request of a worker is refused.
   */
  lemma LeaseFencing(tr: seq<World>, i: nat, j: nat, a: Id)
    requires Trace(tr) && i <= j < |tr| && a in tr[i].attempts
    requires !tr[i].attempts[a].status.Live() || Lost(tr[i].attempts[a], tr[i].now)
    ensures a in tr[j].attempts && Fenced(tr[j], a)
    ensures tr[j].attempts[a].tails == tr[i].attempts[a].tails
    ensures !tr[i].attempts[a].status.Live() ==> tr[j].attempts[a] == tr[i].attempts[a]
    ensures tr[j].attempts[a] != tr[i].attempts[a] ==>
              tr[j].attempts[a].status.AFailed? || tr[j].attempts[a].status.AUnknown?
  {
    hide Core;
    AttemptHistory(tr, i, j, a);
    AttemptRow(tr[j], a);
    assert forall worker :: !HoldsLease(tr[j], a, worker);
  }

  /** A live snapshot never overwrites a newer one. */
  lemma SnapshotsNeverRegress(tr: seq<World>, i: nat, j: nat, a: Id)
    requires Trace(tr) && i <= j < |tr| && a in tr[i].attempts && tr[i].attempts[a].status.ARunning?
    ensures a in tr[j].attempts && tr[i].attempts[a].outputSequence <= tr[j].attempts[a].outputSequence
    ensures tr[j].attempts[a].worker == tr[i].attempts[a].worker
    ensures tr[j].attempts[a].status.ARunning?
            && tr[j].attempts[a].outputSequence == tr[i].attempts[a].outputSequence ==>
              tr[j].attempts[a].tails == tr[i].attempts[a].tails
  {
    hide Core;
    AttemptHistory(tr, i, j, a);
    AttemptRow(tr[i], a);
  }

  // ---- Dispatch deadlines ---------------------------------------------------------------

  /** Nobody can claim the row or mark it published. */
  ghost predicate Unpublishable(w: World, o: Id) {
    && !Claimable(w, o)
    && forall h: Holding :: h.record.id == o ==> !Markable(w, h)
  }

  /** A row that was published or cancelled is never claimed or marked again. */
  lemma ClosedRowsStayClosed(tr: seq<World>, i: nat, j: nat, o: Id)
    requires Trace(tr) && i <= j < |tr| && o in tr[i].outbox && !tr[i].outbox[o].Open()
    ensures o in tr[j].outbox && tr[j].outbox[o] == tr[i].outbox[o] && Unpublishable(tr[j], o)
  {
    hide Core;
    OutboxHistory(tr, i, j, o);
    OutboxRow(tr[j], o);
  }

  /** The only Attempt of the Run was never published, so no worker ever saw it. */
  lemma NeverGranted(w: World, o: Id)
    requires Core(w) && o in w.outbox && w.outbox[o].deadline.Some? && w.outbox[o].publishedAt.None?
    ensures w.outbox[o].run in w.runs
    ensures var s := w.runs[w.outbox[o].run].status; s.PendingDispatch? || s.Skipped?
    ensures forall k :: 0 <= k < |w.grants| ==> w.grants[k].run != w.outbox[o].run
  {
    OutboxRow(w, o);
    forall k | 0 <= k < |w.grants| ensures w.grants[k].run != w.outbox[o].run {
      AttemptRow(w, w.grants[k].attempt);
    }
  }

  /**
   Deadline cancellation beats an in-flight publication: even if the message is
   already in the stream, the row stays cancelled, the Run stays skipped, and
   the Run is never granted to a worker.
   */
  lemma CancellationWins(tr: seq<World>, i: nat, j: nat, o: Id)
    requires Trace(tr) && i <= j < |tr| && o in tr[i].outbox && tr[i].outbox[o].cancelledAt.Some?
    ensures o in tr[j].outbox && tr[j].outbox[o] == tr[i].outbox[o] && Unpublishable(tr[j], o)
    ensures tr[j].outbox[o].run in tr[j].runs && tr[j].runs[tr[j].outbox[o].run].status.Skipped?
    ensures tr[j].outbox[o].attempt in tr[j].attempts && tr[j].attempts[tr[j].outbox[o].attempt].status.ADead?
    ensures forall k :: 0 <= k < |tr[j].grants| ==> tr[j].grants[k].run != tr[j].outbox[o].run
  {
    hide Core;
    ClosedRowsStayClosed(tr, i, j, o);
    ReachableOk(tr, j);
    OutboxRow(tr[j], o);
    AttemptRow(tr[j], tr[j].outbox[o].attempt);
    NeverGranted(tr[j], o);
  }

  /**
   A row past its deadline and in no publisher's hands is never published: its
   Run can only end skipped and is never granted.
   */
  lemma PastDeadlineNeverRuns(tr: seq<World>, i: nat, j: nat, o: Id)
    requires Trace(tr) && i <= j < |tr| && o in tr[i].outbox && Unclaimable(tr[i].outbox[o], tr[i].now)
    ensures o in tr[j].outbox && Unpublishable(tr[j], o)
    ensures tr[j].outbox[o].run in tr[j].runs
    ensures var s := tr[j].runs[tr[j].outbox[o].run].status; s.PendingDispatch? || s.Skipped?
    ensures forall k :: 0 <= k < |tr[j].grants| ==> tr[j].grants[k].run != tr[j].outbox[o].run
  {
    hide Core;
    OutboxHistory(tr, i, j, o);
    NeverGranted(tr[j], o);
  }
}
