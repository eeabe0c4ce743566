/** Where Workflow nodes meet their Runs: a node ends when all of its Runs have. */
module WorkflowOutcome {
  import opened Base
  import D = Dispatch
  import DI = DispatchInvariant
  import DT = DispatchTheorems
  import DP = DispatchProgress
  import R = WorkflowRun

  /** How bad an ending is; a node takes its worst child's. */
  function Severity(s: D.RunStatus): nat {
    match s
    case Unknown => 4
    case Failed => 3
    case Dead => 3
    case Cancelled => 2
    case Skipped => 1
    case _ => 0
  }

  function EndingOf(s: D.RunStatus): R.NodeState {
    match s
    case Unknown => R.Unknown
    case Failed => R.Failed
    case Dead => R.Failed
    case Cancelled => R.Cancelled
    case Skipped => R.Skipped
    case _ => R.Succeeded
  }

  ghost predicate AllEnded(statuses: seq<D.RunStatus>) {
    statuses != [] && forall i :: 0 <= i < |statuses| ==> statuses[i].Terminal()
  }

  ghost predicate Worst(statuses: seq<D.RunStatus>, i: nat) {
    i < |statuses| && forall j :: 0 <= j < |statuses| ==> Severity(statuses[j]) <= Severity(statuses[i])
  }

  /** What the children of a node make of it. */
  ghost predicate Ends(statuses: seq<D.RunStatus>, state: Option<R.NodeState>) {
    && (state.Some? <==> AllEnded(statuses))
    && (state.Some? ==> exists i: nat :: Worst(statuses, i) && state.value == EndingOf(statuses[i]))
  }

  /** The worst ending of the children, once none can change any more; a retry keeps the node open. */
  method CompleteNode(statuses: seq<D.RunStatus>) returns (state: Option<R.NodeState>)
    ensures Ends(statuses, state)
    ensures state.Some? <==> statuses != [] && forall i :: 0 <= i < |statuses| ==>
              && !statuses[i].PendingDispatch? && !statuses[i].Queued?
              && !statuses[i].Running? && !statuses[i].RetryWait?
    ensures state.Some? ==>
              && (state.value.Unknown? <==> D.Unknown in statuses)
              && (state.value.Failed? <==> D.Unknown !in statuses && (D.Failed in statuses || D.Dead in statuses))
              && (state.value.Succeeded? <==> forall i :: 0 <= i < |statuses| ==> statuses[i].Succeeded?)
              && (state.value.Skipped? <==>
                    && (forall i :: 0 <= i < |statuses| ==> statuses[i].Succeeded? || statuses[i].Skipped?)
                    && D.Skipped in statuses)
              && (state.value.Cancelled? ==> D.Cancelled in statuses)
              && state.value.Terminal()
  {
    if statuses == [] || exists i :: 0 <= i < |statuses| && !statuses[i].Terminal() {
      return None;
    }
    var worst: nat;
    if i :| 0 <= i < |statuses| && statuses[i].Unknown? {
      state, worst := Some(R.Unknown), i;
    } else if i :| 0 <= i < |statuses| && (statuses[i].Failed? || statuses[i].Dead?) {
      state, worst := Some(R.Failed), i;
    } else if i :| 0 <= i < |statuses| && statuses[i].Cancelled? {
      state, worst := Some(R.Cancelled), i;
    } else if i :| 0 <= i < |statuses| && statuses[i].Skipped? {
      state, worst := Some(R.Skipped), i;
    } else {
      state, worst := Some(R.Succeeded), 0;
    }
    assert Worst(statuses, worst);
  }

  /** The children alone decide the node, in whatever order they are read. */
  lemma EndsOneWay(statuses: seq<D.RunStatus>, others: seq<D.RunStatus>, a: Option<R.NodeState>, b: Option<R.NodeState>)
    requires (forall s :: s in statuses <==> s in others) && Ends(statuses, a) && Ends(others, b)
    ensures a == b
  {
    assert AllEnded(statuses) <==> AllEnded(others) by {
      SameChildren(statuses, others);
      SameChildren(others, statuses);
    }
    if a.Some? && b.Some? {
      var i: nat :| Worst(statuses, i) && a.value == EndingOf(statuses[i]);
      var j: nat :| Worst(others, j) && b.value == EndingOf(others[j]);
      assert statuses[i] in others && others[j] in statuses;
    }
  }

  lemma SameChildren(statuses: seq<D.RunStatus>, others: seq<D.RunStatus>)
    requires forall s :: s in statuses <==> s in others
    ensures AllEnded(statuses) ==> AllEnded(others)
  {
    if AllEnded(statuses) {
      assert statuses[0] in others;
      forall i | 0 <= i < |others| ensures others[i].Terminal() {
        assert others[i] in statuses;
      }
    }
  }

  ghost predicate Present(w: D.World, runs: seq<Id>) {
    forall i :: 0 <= i < |runs| ==> runs[i] in w.runs
  }

  function Statuses(w: D.World, runs: seq<Id>): seq<D.RunStatus>
    requires Present(w, runs)
  {
    seq(|runs|, i requires 0 <= i < |runs| => w.runs[runs[i]].status)
  }

  /** A node's ending is final: no later step of the dispatch protocol can change it. */
  lemma NodeEndingIsFinal(tr: seq<D.World>, i: nat, j: nat, runs: seq<Id>, state: Option<R.NodeState>)
    requires DT.Trace(tr) && i <= j < |tr| && Present(tr[i], runs)
    requires Ends(Statuses(tr[i], runs), state) && state.Some?
    ensures Present(tr[j], runs) && Ends(Statuses(tr[j], runs), state)
  {
    forall k | 0 <= k < |runs|
      ensures runs[k] in tr[j].runs && tr[j].runs[runs[k]].status == tr[i].runs[runs[k]].status
    {
      assert Statuses(tr[i], runs)[k].Terminal();
      DT.RunHistory(tr, i, j, runs[k]);
    }
    assert Statuses(tr[j], runs) == Statuses(tr[i], runs);
  }

  ghost predicate Over(w: D.World, r: Id) {
    r in w.runs && w.runs[r].status.Terminal()
  }

  /** Ending one more Run, whatever ended before stays ended. */
  lemma OneMoreOver(w: D.World, r: Id) returns (acts: seq<D.Action>)
    requires DI.Inv(w) && r in w.runs
    ensures DP.Playable(w, acts) && DI.Inv(DP.Play(w, acts)) && Over(DP.Play(w, acts), r)
    ensures forall q :: q in w.runs ==> q in DP.Play(w, acts).runs
    ensures forall q :: Over(w, q) ==> Over(DP.Play(w, acts), q)
  {
    hide DI.Inv, DI.Evolves, DP.Playable, DP.Play;
    acts := DP.CanFinish(w, r);
    DP.PlayOk(w, acts);
    forall q | q in w.runs
      ensures q in DP.Play(w, acts).runs && (Over(w, q) ==> Over(DP.Play(w, acts), q))
    {
      DP.PlayKeepsEnded(w, acts, q);
    }
  }

  /** From every state the children of a started node can all be brought to an end. */
  lemma {:induction false} NodeCanEnd(w: D.World, runs: seq<Id>) returns (acts: seq<D.Action>)
    requires DI.Inv(w) && Present(w, runs)
    ensures DP.Playable(w, acts) && forall k :: 0 <= k < |runs| ==> Over(DP.Play(w, acts), runs[k])
  {
    acts := EndTheRest(w, runs, 0);
  }

  /** With the first `n` children over, the others can follow one by one. */
  lemma {:induction false} EndTheRest(w: D.World, runs: seq<Id>, n: nat) returns (acts: seq<D.Action>)
    requires DI.Inv(w) && Present(w, runs) && n <= |runs| && forall k :: 0 <= k < n ==> Over(w, runs[k])
    ensures DP.Playable(w, acts) && forall k :: 0 <= k < |runs| ==> Over(DP.Play(w, acts), runs[k])
    decreases |runs| - n
  {
    hide DI.Inv, Over;
    if n == |runs| {
      acts := [];
    } else {
      var one := OneMoreOver(w, runs[n]);
      var more := EndTheRest(DP.Play(w, one), runs, n + 1);
      DP.PlayThen(w, one, more);
      acts := one + more;
    }
  }
}
