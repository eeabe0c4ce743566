/**
 What each transaction achieves in a reachable state, where the conditional
 updates always find their rows, and that no Run is ever stuck.
 */
module DispatchProgress {
  import opened Base
  import opened Dispatch
  import opened DispatchInvariant
  import opened DispatchTheorems

  // ---- Effects -------------------------------------------------------------------

  /** An acknowledged publication by the claim holder queues the Attempt and its Run. */
  lemma PublicationQueues(w: World, h: Holding)
    requires Inv(w) && h in w.held && h.record in w.stream && Markable(w, h)
    ensures var w' := MarkPublished(w, h);
            && h.record.attempt in w'.attempts && w'.attempts[h.record.attempt].status.AQueued?
            && h.record.run in w'.runs && w'.runs[h.record.run].status.Queued?
            && w'.outbox[h.record.id].publishedAt == Some(w.now)
            && !Markable(w', h)
  {
    hide Core, Cover;
    OutboxRow(w, h.record.id);
    HeldRow(w, h);
  }

  /** A grant starts a lease that lasts exactly 60 seconds unless renewed. */
  lemma GrantStartsLease(w: World, q: ClaimRequest, later: Instant)
    requires Inv(w) && Grantable(w, q) && w.now <= later
    ensures var w' := ClaimAttempt(w, q);
            && w'.grants == w.grants + [Grant(q.run, q.attempt, q.worker)]
            && w'.runs[q.run].status.Running?
            && (HoldsLease(w'.(now := later), q.attempt, q.worker) <==> later < w.now + 60 * SECOND)
            && (LeaseLapsed(w'.(now := later), q.attempt) <==> w.now + 60 * SECOND < later)
  {
    hide Core, Cover;
    ClaimOk(w, q);
  }

  /** A completion under a held lease decides the Run: retry only what is idempotent with attempts left. */
  lemma CompletionDecides(w: World, c: Completion, retryAt: Instant)
    requires Inv(w) && HoldsLease(w, c.attempt, c.worker) && (c.skipped ==> c.succeeded)
    ensures var w', r := CompleteAttempt(w, c, retryAt), w.attempts[c.attempt].run;
            && r in w.runs
            && !w'.attempts[c.attempt].status.Live() && w'.attempts[c.attempt].tails == c.tails
            && (w'.runs[r].status.Skipped? <==> c.skipped)
            && (w'.runs[r].status.Succeeded? <==> c.succeeded && !c.skipped)
            && (w'.runs[r].status.RetryWait? <==> !c.succeeded && MayRetry(w.runs[r]))
            && (w'.runs[r].status.Failed? <==> !c.succeeded && !MayRetry(w.runs[r]))
            && (w'.runs[r].nextRetryAt == if w'.runs[r].status.RetryWait? then Some(retryAt) else None)
  {
    hide Core, Cover;
    AttemptRow(w, c.attempt);
  }

  /** A lost lease retries an idempotent Run at once and makes any other outcome unknown. */
  lemma ExpiryDecides(w: World, a: Id, ids: Fresh)
    requires Inv(w) && LeaseLapsed(w, a) && Unused(w, ids)
    ensures var w', r := ExpireLease(w, a, ids), w.attempts[a].run;
            if MayRetry(w.runs[r]) then
              && w'.runs[r].status.PendingDispatch? && w'.runs[r].attemptCount == w.runs[r].attemptCount + 1
              && w'.attempts[a].status.AFailed?
              && w'.attempts[ids.attempt].run == r && w'.attempts[ids.attempt].number == w'.runs[r].attemptCount
              && w'.outbox[ids.dispatch].attempt == ids.attempt && Claimable(w', ids.dispatch)
            else w'.runs[r].status.Unknown? && w'.attempts[a].status.AUnknown?
  {
    hide Core, Cover;
    AttemptRow(w, a);
  }

  /** Publication trouble, claims and renewals never consume an execution attempt. */
  lemma DispatchRetriesAreFree(tr: seq<World>, i: nat, act: Action)
    requires Trace(tr) && i < |tr| && Allowed(tr[i], act)
    requires act.DoFail? || act.DoRelease? || act.DoClaimOutbox? || act.DoPublish? || act.DoRenew? || act.DoOutput?
    ensures Apply(tr[i], act).runs == tr[i].runs
    ensures act.DoFail? && Apply(tr[i], act) != tr[i] ==>
              Apply(tr[i], act).outbox[act.o].failures == tr[i].outbox[act.o].failures + 1
    ensures act.DoFail? && Apply(tr[i], act) != tr[i] ==>
              forall later :: later >= act.retryAt && tr[i].outbox[act.o].deadline.None? ==>
                Claimable(Apply(tr[i], act).(now := later), act.o)
  {
    hide Core, Cover;
    ReachableOk(tr, i);
    if act.DoFail? && Apply(tr[i], act) != tr[i] {
      OutboxRow(tr[i], act.o);
    }
  }

  // ---- No Run is stuck --------------------------------------------------------------

  lemma {:induction false} FreshId(used: set<Id>) returns (id: Id)
    ensures id !in used && forall u :: u in used ==> u < id
    decreases |used|
  {
    if used == {} {
      id := 0;
    } else {
      var u :| u in used;
      var rest := FreshId(used - {u});
      id := if rest > u then rest else u + 1;
      assert forall v :: v in used ==> v == u || v in used - {u};
    }
  }

  lemma FreshIds(w: World) returns (ids: Fresh)
    ensures Unused(w, ids)
  {
    var a := FreshId(w.attempts.Keys);
    var o := FreshId(w.outbox.Keys);
    ids := Fresh(a, o);
  }

  function Play(w: World, acts: seq<Action>): World
    decreases |acts|
  {
    if acts == [] then w else Play(Apply(w, acts[0]), acts[1..])
  }

  ghost predicate Playable(w: World, acts: seq<Action>)
    decreases |acts|
  {
    acts == [] || (Allowed(w, acts[0]) && Playable(Apply(w, acts[0]), acts[1..]))
  }

  lemma {:induction false} PlayOk(w: World, acts: seq<Action>)
    requires Inv(w) && Playable(w, acts)
    ensures Inv(Play(w, acts)) && Evolves(w, Play(w, acts))
    decreases |acts|
  {
    hide Core, Cover, Evolves;
    if acts == [] {
      SameEvolves(w);
    } else {
      StepOk(w, acts[0]);
      PlayOk(Apply(w, acts[0]), acts[1..]);
      EvolvesTransitive(w, Apply(w, acts[0]), Play(w, acts));
    }
  }

  /** Whatever is played, a Run that ended stays as it is. */
  lemma PlayKeepsEnded(w: World, acts: seq<Action>, r: Id)
    requires Inv(w) && Playable(w, acts) && r in w.runs
    ensures r in Play(w, acts).runs
    ensures w.runs[r].status.Terminal() ==> Play(w, acts).runs[r] == w.runs[r]
  {
    hide Inv, Playable, Play;
    PlayOk(w, acts);
  }

  lemma {:induction false} PlayThen(w: World, acts: seq<Action>, more: seq<Action>)
    requires Playable(w, acts) && Playable(Play(w, acts), more)
    ensures Playable(w, acts + more) && Play(w, acts + more) == Play(Play(w, acts), more)
    decreases |acts|
  {
    if acts == [] {
      assert acts + more == more;
    } else {
      assert (acts + more)[0] == acts[0] && (acts + more)[1..] == acts[1..] + more;
      PlayThen(Apply(w, acts[0]), acts[1..], more);
    }
  }

  lemma PlayOne(w: World, act: Action)
    requires Allowed(w, act)
    ensures Playable(w, [act]) && Play(w, [act]) == Apply(w, act)
  {
    assert Playable(Apply(w, act), [act][1..]);
  }

  lemma PlayTwo(w: World, first: Action, second: Action)
    requires Allowed(w, first) && Allowed(Apply(w, first), second)
    ensures Playable(w, [first, second]) && Play(w, [first, second]) == Apply(Apply(w, first), second)
  {
    PlayOne(w, first);
    PlayOne(Apply(w, first), second);
    PlayThen(w, [first], [second]);
    assert [first] + [second] == [first, second];
  }

  function Max(a: int, b: int): int {
    if a < b then b else a
  }

  /** Once its claim lapsed, a pending Run is either published or past its deadline. */
  lemma PendingMoves(w: World, r: Id) returns (acts: seq<Action>)
    requires Inv(w) && r in w.runs && w.runs[r].status.PendingDispatch?
    ensures Playable(w, acts) && Changed(w, Play(w, acts), r)
  {
    hide Core, Cover;
    RunRow(w, r);
    var a, o := Latest(w, r);
    var d := w.outbox[o];
    var free := if d.claimExpires.None? then w.now else Max(w.now, d.claimExpires.value + 1);
    var tick := DoTick(Max(free, d.nextAttemptAt));
    var w1 := Apply(w, tick);
    StepOk(w, tick);
    if d.deadline.Some? && d.deadline.value < w1.now {
      acts := [tick, DoExpireDispatch(o)];
      PlayTwo(w, tick, DoExpireDispatch(o));
    } else {
      var rest := DuePublishes(w1, r, o);
      PlayOne(w, tick);
      PlayThen(w, [tick], rest);
      acts := [tick] + rest;
    }
  }

  /** A due row can be claimed, published and marked. */
  lemma DuePublishes(w: World, r: Id, o: Id) returns (acts: seq<Action>)
    requires Inv(w) && r in w.runs && w.runs[r].status.PendingDispatch?
    requires Claimable(w, o) && w.outbox[o].run == r
    ensures Playable(w, acts) && Changed(w, Play(w, acts), r)
  {
    hide Core, Cover;
    var claim := DoClaimOutbox(0, o, 60 * SECOND);
    var h := Holding(0, RecordOf(w, o));
    var w1 := Apply(w, claim);
    StepOk(w, claim);
    StepOk(w1, DoPublish(h));
    PublicationQueues(Apply(w1, DoPublish(h)), h);
    PlayOne(w, claim);
    PlayTwo(w1, DoPublish(h), DoMark(h));
    PlayThen(w, [claim], [DoPublish(h), DoMark(h)]);
    acts := [claim] + [DoPublish(h), DoMark(h)];
  }

  /** In every reachable state, every Run that is not terminal can still change status. */
  lemma NeverStuck(w: World, r: Id) returns (acts: seq<Action>)
    requires Inv(w) && r in w.runs && !w.runs[r].status.Terminal()
    ensures Playable(w, acts) && Changed(w, Play(w, acts), r)
  {
    hide Core, Cover;
    RunRow(w, r);
    var a, o := Latest(w, r);
    var ids := FreshIds(w);
    match w.runs[r].status
    case PendingDispatch =>
      acts := PendingMoves(w, r);
    case Queued =>
      var claim := DoClaim(ClaimRequest(r, a, 0, w.runs[r].queue));
      PlayOne(w, claim);
      acts := [claim];
    case Running =>
      var tick := DoTick(Max(w.now, w.attempts[a].leaseExpires.value + 1));
      StepOk(w, tick);
      PlayTwo(w, tick, DoExpireLease(a, ids));
      ExpiryDecides(Apply(w, tick), a, ids);
      acts := [tick, DoExpireLease(a, ids)];
    case RetryWait =>
      var tick := DoTick(Max(w.now, w.runs[r].nextRetryAt.value));
      PlayTwo(w, tick, DoRetry(r, ids));
      acts := [tick, DoRetry(r, ids)];
  }

  lemma {:induction false} CanFinish(w: World, r: Id) returns (acts: seq<Action>)
    requires Inv(w) && r in w.runs
    ensures Playable(w, acts)
    ensures r in Play(w, acts).runs && Play(w, acts).runs[r].status.Terminal()
    decreases Measure(w.runs[r])
  {
    hide Core, Cover;
    if w.runs[r].status.Terminal() {
      acts := [];
    } else {
      var now := NeverStuck(w, r);
      PlayOk(w, now);
      var w1 := Play(w, now);
      RunRow(w1, r);
      assert RunEvolves(w.runs[r], w1.runs[r]);
      RunRow(w, r);
      var later := CanFinish(w1, r);
      PlayThen(w, now, later);
      acts := now + later;
    }
  }

  /** Durable intent: from every reachable state, every Run can still reach a terminal status. */
  lemma EveryRunCanFinish(tr: seq<World>, i: nat, r: Id) returns (acts: seq<Action>)
    requires Trace(tr) && i < |tr| && r in tr[i].runs
    ensures Playable(tr[i], acts)
    ensures r in Play(tr[i], acts).runs && Play(tr[i], acts).runs[r].status.Terminal()
  {
    ReachableOk(tr, i);
    acts := CanFinish(tr[i], r);
  }
}
