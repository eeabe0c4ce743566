/**
 The durable driver of one Workflow invocation: launch, reconcile completions,
 propagate through a worklist of affected nodes, cancel, finish. Only affected
 nodes are looked at, yet no decided node is ever left waiting.
 */
module WorkflowDriver {
  import opened Graphs
  import opened WorkflowValidate
  import opened WorkflowRun

  datatype Overall = InProgress | AllSucceeded | SomeFailed | WasCancelled

  /** Pending nodes outside the worklist still wait. */
  ghost predicate Covered(edges: seq<Edge>, s: States, queue: seq<string>) {
    && (forall v :: v in queue ==> v in s)
    && (forall v :: v in s && s[v].Pending? && v !in queue ==> DecisionAt(edges, s, v).Waiting?)
  }

  /** Starting a node settles nothing, so every other decision stands. */
  lemma StartKeeps(edges: seq<Edge>, s: States, v: string, u: string)
    requires v in s && !s[v].Terminal()
    ensures DecisionAt(edges, s[v := Running], u) == DecisionAt(edges, s, u)
  {
    var s' := s[v := Running];
    if Blocked(edges, s, u) {
      var e :| e in edges && e.to == u && e.from in s && s[e.from].Terminal() && !Matches(e.condition, s[e.from]);
      assert s'[e.from] == s[e.from];
    }
    if Blocked(edges, s', u) {
      var e :| e in edges && e.to == u && e.from in s' && s'[e.from].Terminal() && !Matches(e.condition, s'[e.from]);
      assert s'[e.from] == s[e.from];
    }
    assert Cleared(edges, s, u) == Cleared(edges, s', u);
  }

  /** Settling a node matters only to its successors. */
  lemma SettleKeeps(edges: seq<Edge>, s: States, v: string, state: NodeState, u: string)
    requires v in s && forall e :: e in edges && e.to == u ==> e.from != v
    ensures DecisionAt(edges, s[v := state], u) == DecisionAt(edges, s, u)
  {
    var s' := s[v := state];
    if Blocked(edges, s, u) {
      var e :| e in edges && e.to == u && e.from in s && s[e.from].Terminal() && !Matches(e.condition, s[e.from]);
      assert s'[e.from] == s[e.from];
    }
    if Blocked(edges, s', u) {
      var e :| e in edges && e.to == u && e.from in s' && s'[e.from].Terminal() && !Matches(e.condition, s'[e.from]);
      assert s'[e.from] == s[e.from];
    }
    assert Cleared(edges, s, u) == Cleared(edges, s', u);
  }

  lemma CoveredStart(edges: seq<Edge>, s: States, v: string, queue: seq<string>)
    requires Covered(edges, s, [v] + queue) && s[v].Pending?
    ensures Covered(edges, s[v := Running], queue)
  {
    hide DecisionAt;
    forall u { StartKeeps(edges, s, v, u); }
  }

  lemma CoveredSettle(edges: seq<Edge>, s: States, v: string, state: NodeState, queue: seq<string>)
    requires Covered(edges, s, [v] + queue) && Closed(edges, s) && state.Terminal()
    ensures Covered(edges, s[v := state], queue + Targets(Pairs(edges), v))
  {
    hide DecisionAt, Blocked, Cleared;
    var s', after := s[v := state], Targets(Pairs(edges), v);
    TargetsAreEdges(Pairs(edges), v);
    forall e | e in edges ensures (e.from, e.to) in Pairs(edges) {
      var i :| 0 <= i < |edges| && edges[i] == e;
      assert Pairs(edges)[i] == (e.from, e.to);
    }
    forall u | u in after ensures u in s' {
      var i :| 0 <= i < |edges| && Pairs(edges)[i] == (v, u);
      assert edges[i] in edges;
    }
    forall u | u in s' && s'[u].Pending? && u !in queue + after ensures DecisionAt(edges, s', u).Waiting? {
      SettleKeeps(edges, s, v, state, u);
    }
  }

  lemma CoveredMore(edges: seq<Edge>, s: States, v: string, queue: seq<string>)
    requires Covered(edges, s, queue) && v in s
    ensures Covered(edges, s, [v] + queue)
  {
    hide DecisionAt;
  }

  /** Exactly the started nodes among `finished` took their outcomes. */
  ghost predicate Completed(s: States, s': States, finished: seq<string>, outcome: Outcomes) {
    && s'.Keys == s.Keys && OutcomesFor(s, outcome)
    && forall v :: v in s ==> s'[v] == if v in finished && s[v].Running? then outcome[v] else s[v]
  }

  lemma CompleteNone(s: States, finished: seq<string>, outcome: Outcomes)
    requires OutcomesFor(s, outcome)
    ensures Completed(s, s, finished[..0], outcome)
  {
  }

  lemma CompleteNext(s: States, s': States, finished: seq<string>, k: nat, outcome: Outcomes)
    requires k < |finished| && Completed(s, s', finished[..k], outcome) && finished[k] in s
    ensures finished[k] in s'
    ensures s'[finished[k]].Running? ==>
              && finished[k] in outcome
              && Completed(s, s'[finished[k] := outcome[finished[k]]], finished[..k + 1], outcome)
    ensures !s'[finished[k]].Running? ==> Completed(s, s', finished[..k + 1], outcome)
  {
    assert finished[..k + 1] == finished[..k] + [finished[k]];
  }

  lemma CompleteAll(s: States, s': States, finished: seq<string>, outcome: Outcomes)
    requires Completed(s, s', finished[..|finished|], outcome)
    ensures Completed(s, s', finished, outcome) && Settles(s, s')
    ensures forall v :: v in s && v in finished && s[v].Running? ==> v in s' && s'[v] == outcome[v]
  {
    assert finished[..|finished|] == finished;
  }

  /** Of the nodes seen so far exactly the roots run; nothing else has moved. */
  ghost predicate Launched(edges: seq<Edge>, s: States, seen: seq<string>) {
    forall v :: v in s ==>
      (s[v].Running? <==> v in seen && forall e :: e in edges ==> e.to != v) && (s[v].Running? || s[v].Pending?)
  }

  lemma LaunchedNone(edges: seq<Edge>, s: States, nodes: seq<string>)
    requires forall v :: v in s ==> s[v].Pending?
    ensures Launched(edges, s, nodes[..0])
  {
  }

  lemma LaunchNext(edges: seq<Edge>, s: States, nodes: seq<string>, k: nat)
    requires k < |nodes| && Launched(edges, s, nodes[..k]) && nodes[k] in s
    ensures var root := forall i :: 0 <= i < |edges| ==> edges[i].to != nodes[k];
            Launched(edges, if root && s[nodes[k]].Pending? then s[nodes[k] := Running] else s, nodes[..k + 1])
  {
    assert nodes[..k + 1] == nodes[..k] + [nodes[k]];
    if e :| e in edges && e.to == nodes[k] {
      var i :| 0 <= i < |edges| && edges[i] == e;
    }
  }

  /** With all nodes seen, every node still pending has an unsettled predecessor. */
  lemma LaunchedAll(edges: seq<Edge>, s: States, nodes: seq<string>)
    requires Launched(edges, s, nodes[..|nodes|]) && Closed(edges, s) && s.Keys == Elements(nodes) && nodes != []
    ensures Launched(edges, s, nodes) && Covered(edges, s, []) && Unsettled(s) != {}
    ensures forall v :: v in nodes ==>
              (s[v].Running? <==> forall e :: e in edges ==> e.to != v) && (s[v].Running? || s[v].Pending?)
  {
    assert nodes[..|nodes|] == nodes;
    assert nodes[0] in Unsettled(s);
    forall v | v in s && s[v].Pending? ensures DecisionAt(edges, s, v).Waiting? {
      var e :| e in edges && e.to == v;
    }
  }

  lemma RootIsReady(edges: seq<Edge>, s: States, v: string)
    requires forall e :: e in edges ==> e.to != v
    ensures DecisionAt(edges, s, v).Go?
  {
  }

  /** Some edge into `v` carries this condition and predecessor state. */
  ghost predicate Arrives(edges: seq<Edge>, s: States, v: string, x: (Condition, NodeState)) {
    exists e :: e in edges && e.to == v && e.from in s && x == (e.condition, s[e.from])
  }

  function Failures(s: States): set<string> {
    set v | v in s && (s[v].Failed? || s[v].Unknown? || s[v].Cancelled?)
  }

  lemma FailuresMean(s: States)
    ensures Failures(s) != {} <==> exists v :: v in s && (s[v].Failed? || s[v].Unknown? || s[v].Cancelled?)
  {
    if v :| v in s && (s[v].Failed? || s[v].Unknown? || s[v].Cancelled?) {
      assert v in Failures(s);
    }
  }

  /** Failures survive whatever the rest of the graph did about them. */
  function ResultOf(cancelling: bool, s: States): Overall {
    if cancelling then WasCancelled else if Failures(s) != {} then SomeFailed else AllSucceeded
  }

  lemma NoneUnsettled(s: States)
    ensures Unsettled(s) == {} <==> forall v :: v in s ==> s[v].Terminal()
  {
    if v :| v in s && !s[v].Terminal() {
      assert v in Unsettled(s);
    }
  }

  class Invocation {
    const nodes: seq<string>
    const edges: seq<Edge>
    /** What each node's Runs end with, should the node be started. */
    ghost const outcome: Outcomes
    var states: States
    var cancelling: bool
    var overall: Overall
    ghost var log: seq<States>

    /** Without cancellation the states are those of some order of moves. */
    ghost predicate Valid()
      reads this
    {
      && Acyclic(Pairs(edges)) && Closed(edges, states) && OutcomesFor(states, outcome)
      && states.Keys == Elements(nodes)
      && (forall v :: v in states ==> !states[v].Ready?)
      && (if cancelling then In(states, Pending) == {}
          else History(edges, outcome, log) && log[|log| - 1] == states)
    }

    /** Every decided node has been acted on, and the result is derived from settled nodes only. */
    ghost predicate Quiescent()
      reads this
    {
      && Covered(edges, states, [])
      && (overall.InProgress? <==> Unsettled(states) != {})
      && (!overall.InProgress? ==> overall == ResultOf(cancelling, states))
    }

    /** Launch: every node pending, then roots are activated. */
    constructor (nodes: seq<string>, edges: seq<Edge>, ghost outcome: Outcomes)
      requires nodes != [] && Acyclic(Pairs(edges)) && forall e :: e in edges ==> e.from in nodes && e.to in nodes
      requires forall v :: v in nodes ==> v in outcome && outcome[v].Terminal()
      ensures this.nodes == nodes && this.edges == edges && this.outcome == outcome && !cancelling
      ensures Valid() && Quiescent() && states.Keys == Elements(nodes)
      ensures forall v :: v in nodes ==>
                && (states[v].Running? <==> forall e :: e in edges ==> e.to != v)
                && (states[v].Running? || states[v].Pending?)
    {
      this.nodes, this.edges, this.outcome := nodes, edges, outcome;
      states := map v | v in nodes :: Pending;
      cancelling, overall := false, InProgress;
      log := [map v | v in nodes :: Pending];
      new;
      hide Acyclic, DecisionAt;
      assert forall v :: v in nodes ==> v in states;
      ActivateRoots();
    }

    /** A root waits for nobody; every other node has an unsettled predecessor. */
    method ActivateRoots()
      requires Valid() && !cancelling && overall.InProgress? && nodes != [] && states.Keys == Elements(nodes)
      requires forall v :: v in states ==> states[v].Pending?
      modifies this`states, this`log
      ensures Valid() && Quiescent() && states.Keys == Elements(nodes)
      ensures forall v :: v in nodes ==>
                && (states[v].Running? <==> forall e :: e in edges ==> e.to != v)
                && (states[v].Running? || states[v].Pending?)
    {
      hide Acyclic, History, OutcomesFor, DecisionAt, Blocked, Cleared, Covered, Launched;
      LaunchedNone(edges, states, nodes);
      for k := 0 to |nodes|
        invariant Valid() && states.Keys == Elements(nodes)
        invariant Launched(edges, states, nodes[..k])
      {
        var v := nodes[k];
        LaunchNext(edges, states, nodes, k);
        if (forall i :: 0 <= i < |edges| ==> edges[i].to != v) && states[v] == Pending {
          RootIsReady(edges, states, v);
          Change(v, Running);
        }
      }
      assert nodes[0] in Elements(nodes);
      LaunchedAll(edges, states, nodes);
    }

    /** One durable move, recorded in the log. */
    method Change(v: string, state: NodeState)
      requires Valid() && v in states && !state.Ready? && !state.Pending?
      requires !cancelling ==> Move(edges, outcome, states, v, states[v := state])
      modifies this`states, this`log
      ensures Valid() && states == old(states)[v := state]
    {
      hide Acyclic, DecisionAt;
      states := states[v := state];
      assert Moves(edges, outcome, old(states), states) || cancelling;
      log := log + [states];
      assert cancelling ==> In(states, Pending) <= In(old(states), Pending);
    }

    /** The states of the predecessors of `v` with their edge conditions. */
    method Incoming(v: string) returns (incoming: seq<(Condition, NodeState)>)
      requires Closed(edges, states)
      ensures AnyMismatch(incoming) <==> Blocked(edges, states, v)
      ensures AllTerminal(incoming) && !AnyMismatch(incoming) <==> Cleared(edges, states, v)
    {
      incoming := [];
      for k := 0 to |edges|
        invariant forall i :: 0 <= i < |incoming| ==> Arrives(edges, states, v, incoming[i])
        invariant forall j :: 0 <= j < k && edges[j].to == v ==>
                    (edges[j].condition, states[edges[j].from]) in incoming
      {
        assert edges[k] in edges;
        if edges[k].to == v {
          assert Arrives(edges, states, v, (edges[k].condition, states[edges[k].from]));
          incoming := incoming + [(edges[k].condition, states[edges[k].from])];
        }
      }
      if Blocked(edges, states, v) {
        var e :| e in edges && e.to == v && e.from in states && states[e.from].Terminal()
          && !Matches(e.condition, states[e.from]);
        assert (e.condition, states[e.from]) in incoming;
      }
      forall e | e in edges && e.to == v ensures (e.condition, states[e.from]) in incoming {
      }
    }

    /** Act on the decision of one affected node; a skip affects its own successors in turn. */
    method Evaluate(v: string, queue: seq<string>) returns (affected: seq<string>)
      requires Valid() && !cancelling && v in states && states[v].Pending? && Covered(edges, states, [v] + queue)
      modifies this`states, this`log
      ensures Valid() && Covered(edges, states, affected)
      ensures Settles(old(states), states) && states.Keys == old(states).Keys
      ensures states == old(states) ==> affected == queue
      ensures states != old(states) ==> |In(states, Pending)| < |In(old(states), Pending)|
    {
      hide Acyclic, Blocked, Cleared, History, In;
      affected := queue;
      var incoming := Incoming(v);
      var decision := DependencyDecision(incoming);
      assert decision == DecisionAt(edges, states, v);
      match decision
      case Waiting =>
      case Go =>
        CoveredStart(edges, states, v, queue);
        ChangeOne(states, v, Running);
        Change(v, Running);
      case Skip =>
        CoveredSettle(edges, states, v, Skipped, queue);
        ChangeOne(states, v, Skipped);
        Change(v, Skipped);
        affected := queue + Targets(Pairs(edges), v);
    }

    /** Re-evaluate affected pending nodes until the worklist is empty. */
    method Propagate(affected: seq<string>)
      requires Valid() && Covered(edges, states, affected)
      modifies this`states, this`log
      ensures Valid() && Covered(edges, states, [])
      ensures Settles(old(states), states) && states.Keys == old(states).Keys
      ensures cancelling ==> states == old(states)
    {
      hide Acyclic, DecisionAt, History, In;
      var queue := affected;
      while queue != []
        invariant Valid() && Covered(edges, states, queue)
        invariant Settles(old(states), states) && states.Keys == old(states).Keys
        invariant cancelling ==> states == old(states)
        decreases |In(states, Pending)|, |queue|
      {
        var v := queue[0];
        assert queue == [v] + queue[1..];
        queue := queue[1..];
        if states[v] == Pending && !cancelling {
          queue := Evaluate(v, queue);
        } else {
          CancelledWaits(states);
        }
      }
    }

    lemma CancelledWaits(s: States)
      ensures In(s, Pending) == {} ==> forall v :: v in s ==> !s[v].Pending?
    {
      if v :| v in s && s[v].Pending? {
        assert v in In(s, Pending);
      }
    }

    /** Settle the started nodes among `finished`, collecting their successors. */
    method CompleteNodes(finished: seq<string>, results: map<string, NodeState>) returns (affected: seq<string>)
      requires Valid() && Covered(edges, states, [])
      requires forall v :: v in finished ==> v in states && v in results && results[v] == outcome[v]
      modifies this`states, this`log
      ensures Valid() && Covered(edges, states, affected)
      ensures Settles(old(states), states) && Completed(old(states), states, finished, outcome)
      ensures forall v :: v in finished && old(states)[v].Running? ==> v in states && states[v] == results[v]
    {
      hide Acyclic, Closed, Covered, DecisionAt, History, In, Completed;
      affected := [];
      CompleteNone(states, finished, outcome);
      for k := 0 to |finished|
        invariant Valid() && Covered(edges, states, affected)
        invariant Completed(old(states), states, finished[..k], outcome)
      {
        var v := finished[k];
        CompleteNext(old(states), states, finished, k, outcome);
        if states[v] == Running {
          CoveredMore(edges, states, v, affected);
          CoveredSettle(edges, states, v, results[v], affected);
          Change(v, results[v]);
          affected := affected + Targets(Pairs(edges), v);
        }
      }
      CompleteAll(old(states), states, finished, outcome);
    }

    /** Nodes whose Runs all ended settle, then their successors are re-evaluated. */
    method Reconcile(finished: seq<string>, results: map<string, NodeState>)
      requires Valid() && Quiescent()
      requires forall v :: v in finished ==> v in states && v in results && results[v] == outcome[v]
      modifies this`states, this`log, this`overall
      ensures Valid() && Quiescent() && Settles(old(states), states)
      ensures forall v :: v in finished && old(states)[v].Running? ==> states[v] == results[v]
      ensures overall.InProgress? ==> exists v :: v in states && states[v].Running?
    {
      hide Acyclic, Closed, Covered, DecisionAt, History, In, Failures;
      var affected := CompleteNodes(finished, results);
      Propagate(affected);
      NoneUnsettled(old(states));
      NoneUnsettled(states);
      assert !overall.InProgress? ==> states == old(states);
      Finish();
      NeverStalls();
    }

    /** Derive the result only after every node is settled; failures survive rollback paths. */
    method Finish()
      requires !overall.InProgress? ==> Unsettled(states) == {}
      modifies this`overall
      ensures overall.InProgress? <==> Unsettled(states) != {}
      ensures old(overall).InProgress? && !overall.InProgress? ==>
                && (overall.WasCancelled? <==> cancelling)
                && (overall.SomeFailed? <==> !cancelling && Failures(states) != {})
                && (overall.AllSucceeded? <==> !cancelling && Failures(states) == {})
      ensures old(overall).InProgress? && overall.SomeFailed? ==>
                exists v :: v in states && (states[v].Failed? || states[v].Unknown? || states[v].Cancelled?)
      ensures old(overall).InProgress? && overall.AllSucceeded? ==>
                forall v :: v in states ==> states[v].Succeeded? || states[v].Skipped?
      ensures !old(overall).InProgress? ==> overall == old(overall)
    {
      NoneUnsettled(states);
      FailuresMean(states);
      if overall == InProgress && forall v :: v in states ==> states[v].Terminal() {
        overall :=
          if cancelling then WasCancelled
          else if Failures(states) != {} then SomeFailed else AllSucceeded;
      }
    }

    /** An unfinished invocation always has a started node, so another completion will come. */
    lemma NeverStalls()
      requires Valid() && Covered(edges, states, [])
      ensures Unsettled(states) != {} ==> exists v :: v in states && states[v].Running?
    {
      if Unsettled(states) != {} {
        var v := Progress(edges, states);
        assert cancelling ==> v !in In(states, Pending);
      }
    }

    /** Cancelling settles what has not started; nothing starts afterwards. */
    method Cancel()
      requires Valid() && Quiescent()
      modifies this`states, this`cancelling, this`overall
      ensures Valid() && Quiescent() && Settles(old(states), states)
      ensures forall v :: v in states && states[v].Running? ==> v in old(states) && old(states)[v].Running?
      ensures old(overall).InProgress? ==> cancelling
      ensures old(overall).InProgress? ==> forall v :: v in states ==> !states[v].Pending?
      ensures states.Keys == old(states).Keys
      ensures old(overall).InProgress? ==> forall v :: v in states ==>
                states[v] == if old(states)[v].Pending? then NodeState.Cancelled else old(states)[v]
      ensures old(overall).InProgress? ==>
                (overall.WasCancelled? <==> forall v :: v in states ==> !states[v].Running?)
      ensures !old(overall).InProgress? ==>
                states == old(states) && cancelling == old(cancelling) && overall == old(overall)
    {
      hide Acyclic, Blocked, Cleared, History, DecisionAt;
      if overall == InProgress {
        cancelling := true;
        states := map v | v in states ::
          if states[v] == Pending || states[v] == Ready then NodeState.Cancelled else states[v];
        assert In(states, Pending) == {};
        Finish();
        NoneUnsettled(states);
      }
    }
  }

  /**
   Two finished, never cancelled invocations of one definition whose Runs end
   alike agree on every node and on the result, however they were driven.
   */
  lemma SameResult(a: Invocation, b: Invocation)
    requires a.Valid() && a.Quiescent() && !a.cancelling && !a.overall.InProgress?
    requires b.Valid() && b.Quiescent() && !b.cancelling && !b.overall.InProgress?
    requires a.nodes == b.nodes && a.edges == b.edges && a.outcome == b.outcome
    ensures a.states == b.states && a.overall == b.overall
  {
    hide Acyclic, DecisionAt, Blocked, Cleared;
    NoneUnsettled(a.states);
    NoneUnsettled(b.states);
    var h, g := a.log, b.log;
    Confluence(a.edges, a.outcome, h, |h| - 1, g, |g| - 1);
  }
}
