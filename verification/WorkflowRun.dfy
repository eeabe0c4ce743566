/** Node decisions of a Workflow invocation, and what every order of completions has in common. */
module WorkflowRun {
  import opened Graphs
  import opened WorkflowValidate

  datatype NodeState = Pending | Ready | Running | Succeeded | Failed | Skipped | Cancelled | Unknown {
    predicate Terminal() {
      !Pending? && !Ready? && !Running?
    }
  }

  datatype Decision = Waiting | Go | Skip

  type States = map<string, NodeState>

  /** A terminal disposition satisfies a dependency; skipped and cancelled satisfy only Always. */
  predicate Matches(c: Condition, s: NodeState) {
    match c
    case Success => s.Succeeded?
    case Failure => s.Failed? || s.Unknown?
    case Always => true
  }

  /** Among settled predecessors success and failure exclude each other; only skips and cancellations are neither. */
  lemma ConditionsPartition(s: NodeState)
    requires s.Terminal()
    ensures Matches(Always, s) && !(Matches(Success, s) && Matches(Failure, s))
    ensures Matches(Success, s) || Matches(Failure, s) <==> !s.Skipped? && !s.Cancelled?
    ensures s.Unknown? ==> Matches(Failure, s)
  {
  }

  // ---- One AND join -------------------------------------------------------------------

  predicate AnyMismatch(incoming: seq<(Condition, NodeState)>) {
    exists i :: 0 <= i < |incoming| && incoming[i].1.Terminal() && !Matches(incoming[i].0, incoming[i].1)
  }

  predicate AllTerminal(incoming: seq<(Condition, NodeState)>) {
    forall i :: 0 <= i < |incoming| ==> incoming[i].1.Terminal()
  }

  /** Any terminal mismatch skips the node, even while another edge waits. */
  method DependencyDecision(incoming: seq<(Condition, NodeState)>) returns (d: Decision)
    ensures d.Skip? <==> AnyMismatch(incoming)
    ensures d.Go? <==> AllTerminal(incoming) && !AnyMismatch(incoming)
    ensures d.Waiting? <==> !AllTerminal(incoming) && !AnyMismatch(incoming)
    ensures d.Skip? <==> exists i ::
              && 0 <= i < |incoming|
              && !incoming[i].1.Pending? && !incoming[i].1.Ready? && !incoming[i].1.Running?
              && ((incoming[i].0.Success? && !incoming[i].1.Succeeded?)
                  || (incoming[i].0.Failure? && !incoming[i].1.Failed? && !incoming[i].1.Unknown?))
    ensures d.Go? <==> forall i :: 0 <= i < |incoming| ==>
              && (incoming[i].0.Success? ==> incoming[i].1.Succeeded?)
              && (incoming[i].0.Failure? ==> incoming[i].1.Failed? || incoming[i].1.Unknown?)
              && !incoming[i].1.Pending? && !incoming[i].1.Ready? && !incoming[i].1.Running?
  {
    var waiting := false;
    for k := 0 to |incoming|
      invariant waiting <==> exists i :: 0 <= i < k && !incoming[i].1.Terminal()
      invariant forall i :: 0 <= i < k && incoming[i].1.Terminal() ==> Matches(incoming[i].0, incoming[i].1)
    {
      var (condition, state) := incoming[k];
      if !state.Terminal() {
        waiting := true;
      } else {
        var matched := match condition
          case Success => state == Succeeded
          case Failure => state == Failed || state == Unknown
          case Always => true;
        if !matched {
          return Skip;
        }
      }
    }
    return if waiting then Waiting else Go;
  }

  // ---- A whole graph --------------------------------------------------------------------

  /** Every edge joins two nodes of the invocation. */
  ghost predicate Closed(edges: seq<Edge>, s: States) {
    forall e :: e in edges ==> e.from in s && e.to in s
  }

  /** Some settled predecessor rules the node out. */
  ghost predicate Blocked(edges: seq<Edge>, s: States, v: string) {
    exists e :: e in edges && e.to == v && e.from in s && s[e.from].Terminal() && !Matches(e.condition, s[e.from])
  }

  /** Every predecessor is settled and satisfies its edge. */
  ghost predicate Cleared(edges: seq<Edge>, s: States, v: string) {
    forall e :: e in edges && e.to == v ==>
      e.from in s && s[e.from].Terminal() && Matches(e.condition, s[e.from])
  }

  ghost function DecisionAt(edges: seq<Edge>, s: States, v: string): Decision {
    if Blocked(edges, s, v) then Skip else if Cleared(edges, s, v) then Go else Waiting
  }

  /** Outcomes are terminal; they are what each node would end with if it were started. */
  type Outcomes = map<string, NodeState>

  ghost predicate OutcomesFor(s: States, outcome: Outcomes) {
    forall v :: v in s ==> v in outcome && outcome[v].Terminal()
  }

  /** One move: a started node ends, a ruled-out node is skipped, a cleared node starts. */
  ghost predicate Move(edges: seq<Edge>, outcome: Outcomes, s: States, v: string, s': States)
    requires OutcomesFor(s, outcome)
  {
    && v in s
    && match s[v]
       case Running => s' == s[v := outcome[v]]
       case Pending =>
         || (DecisionAt(edges, s, v).Skip? && s' == s[v := Skipped])
         || (DecisionAt(edges, s, v).Go? && s' == s[v := Running])
       case _ => false
  }

  ghost predicate Moves(edges: seq<Edge>, outcome: Outcomes, s: States, s': States) {
    OutcomesFor(s, outcome) && exists v :: Move(edges, outcome, s, v, s')
  }

  ghost predicate AllPending(s: States) {
    forall v :: v in s ==> s[v].Pending?
  }

  /** An order of moves from launch. */
  ghost predicate History(edges: seq<Edge>, outcome: Outcomes, h: seq<States>) {
    && |h| > 0 && AllPending(h[0]) && Closed(edges, h[0])
    && (forall i :: 0 <= i < |h| ==> h[i].Keys == h[0].Keys && OutcomesFor(h[i], outcome))
    && (forall i :: 0 < i < |h| ==> Moves(edges, outcome, h[i - 1], h[i]))
  }

  /** Nothing can move any more. */
  ghost predicate Stuck(edges: seq<Edge>, outcome: Outcomes, s: States)
    requires OutcomesFor(s, outcome)
  {
    forall v, s' :: !Move(edges, outcome, s, v, s')
  }

  // ---- Why a node is where it is ------------------------------------------------------------

  ghost predicate Justified(edges: seq<Edge>, outcome: Outcomes, s: States) {
    && Closed(edges, s)
    && (forall v :: v in s ==> !s[v].Ready?)
    && (forall v :: v in s && s[v].Running? ==> Cleared(edges, s, v))
    && (forall v :: v in s && s[v].Terminal() ==>
          || (Cleared(edges, s, v) && v in outcome && s[v] == outcome[v])
          || (Blocked(edges, s, v) && s[v].Skipped?))
  }

  /** Settled nodes never change, so what cleared or ruled out a node stays true. */
  ghost predicate Settles(s: States, s': States) {
    s.Keys <= s'.Keys && forall v :: v in s && s[v].Terminal() ==> s'[v] == s[v]
  }

  lemma StillDecided(edges: seq<Edge>, s: States, s': States, v: string)
    requires Settles(s, s')
    ensures Cleared(edges, s, v) ==> Cleared(edges, s', v)
    ensures Blocked(edges, s, v) ==> Blocked(edges, s', v)
  {
    if Blocked(edges, s, v) {
      var e :| e in edges && e.to == v && e.from in s && s[e.from].Terminal() && !Matches(e.condition, s[e.from]);
      assert s'[e.from] == s[e.from];
    }
  }

  lemma MoveJustified(edges: seq<Edge>, outcome: Outcomes, s: States, v: string, s': States)
    requires OutcomesFor(s, outcome) && Justified(edges, outcome, s) && Move(edges, outcome, s, v, s')
    ensures Justified(edges, outcome, s') && Settles(s, s')
  {
    hide Cleared, Blocked;
    forall u | u in s' ensures
      && !s'[u].Ready?
      && (s'[u].Running? ==> Cleared(edges, s', u))
      && (s'[u].Terminal() ==> || (Cleared(edges, s', u) && u in outcome && s'[u] == outcome[u])
                               || (Blocked(edges, s', u) && s'[u].Skipped?))
    {
      StillDecided(edges, s, s', u);
    }
  }

  lemma {:induction false} HistoryJustified(edges: seq<Edge>, outcome: Outcomes, h: seq<States>, i: nat)
    requires History(edges, outcome, h) && i < |h|
    ensures Justified(edges, outcome, h[i])
  {
    if i > 0 {
      HistoryJustified(edges, outcome, h, i - 1);
      assert Moves(edges, outcome, h[i - 1], h[i]);
      var v :| Move(edges, outcome, h[i - 1], v, h[i]);
      MoveJustified(edges, outcome, h[i - 1], v, h[i]);
    }
  }

  // ---- Confluence ---------------------------------------------------------------------------

  /** Nodes settled differently by two histories. */
  function Disputed(s: States, t: States): set<string> {
    set v | v in s && v in t && s[v].Terminal() && t[v].Terminal() && s[v] != t[v]
  }

  /** A join cleared in one history and ruled out in another has a disputed predecessor. */
  lemma DisputeBehind(edges: seq<Edge>, s: States, t: States, v: string)
    requires Cleared(edges, s, v) && Blocked(edges, t, v)
    ensures HasPredecessor(Pairs(edges), Disputed(s, t), v)
    ensures HasPredecessor(Pairs(edges), Disputed(t, s), v)
  {
    var e :| e in edges && e.to == v && e.from in t && t[e.from].Terminal() && !Matches(e.condition, t[e.from]);
    var i :| 0 <= i < |edges| && edges[i] == e;
    assert Pairs(edges)[i] == (e.from, v);
    assert e.from in Disputed(s, t) && e.from in Disputed(t, s);
  }

  lemma NoDispute(edges: seq<Edge>, outcome: Outcomes, s: States, t: States)
    requires Acyclic(Pairs(edges)) && Justified(edges, outcome, s) && Justified(edges, outcome, t)
    ensures Disputed(s, t) == {}
  {
    var d := Disputed(s, t);
    forall v | v in d ensures HasPredecessor(Pairs(edges), d, v) {
      if Cleared(edges, s, v) && s[v] == outcome[v] {
        DisputeBehind(edges, s, t, v);
      } else {
        DisputeBehind(edges, t, s, v);
      }
    }
    if v :| v in d {
      CycleBehind(Pairs(edges), d, v);
    }
  }

  /**
   On an acyclic graph every two orders of completions agree: nodes settled in
   both have the same state, and a node started in one is never ruled out in the
   other, so an eager skip is never contradicted later.
   */
  lemma Confluence(edges: seq<Edge>, outcome: Outcomes, h: seq<States>, i: nat, g: seq<States>, j: nat)
    requires Acyclic(Pairs(edges)) && History(edges, outcome, h) && History(edges, outcome, g)
    requires i < |h| && j < |g| && h[0].Keys == g[0].Keys
    ensures forall v :: v in h[i] && h[i][v].Terminal() && g[j][v].Terminal() ==> h[i][v] == g[j][v]
    ensures forall v :: v in h[i] && (h[i][v].Running? || Cleared(edges, h[i], v)) ==> !Blocked(edges, g[j], v)
  {
    HistoryJustified(edges, outcome, h, i);
    HistoryJustified(edges, outcome, g, j);
    NoDispute(edges, outcome, h[i], g[j]);
    forall v | v in h[i] && h[i][v].Terminal() && g[j][v].Terminal() ensures h[i][v] == g[j][v] {
      assert v !in Disputed(h[i], g[j]);
    }
    forall v | v in h[i] && (h[i][v].Running? || Cleared(edges, h[i], v)) ensures !Blocked(edges, g[j], v) {
      if Blocked(edges, g[j], v) {
        DisputeBehind(edges, h[i], g[j], v);
      }
    }
  }

  // ---- Progress -----------------------------------------------------------------------------

  function Unsettled(s: States): set<string> {
    set v | v in s && !s[v].Terminal()
  }

  /** A configuration with unfinished nodes has a started node or one whose decision is made. */
  lemma Progress(edges: seq<Edge>, s: States) returns (v: string)
    requires Acyclic(Pairs(edges)) && Closed(edges, s) && (forall v :: v in s ==> !s[v].Ready?)
    requires Unsettled(s) != {}
    ensures v in s && (s[v].Running? || (s[v].Pending? && !DecisionAt(edges, s, v).Waiting?))
  {
    var u := Unsettled(s);
    if w :| w in u && (s[w].Running? || !DecisionAt(edges, s, w).Waiting?) {
      v := w;
    } else {
      forall w | w in u ensures HasPredecessor(Pairs(edges), u, w) {
        var e :| e in edges && e.to == w
          && !(e.from in s && s[e.from].Terminal() && Matches(e.condition, s[e.from]));
        var i :| 0 <= i < |edges| && edges[i] == e;
        assert Pairs(edges)[i] == (e.from, w);
        assert e.from in u;
      }
      v :| v in u;
      CycleBehind(Pairs(edges), u, v);
    }
  }

  /** When nothing can move, every node is settled. */
  lemma StuckIsFinished(edges: seq<Edge>, outcome: Outcomes, s: States)
    requires Acyclic(Pairs(edges)) && OutcomesFor(s, outcome) && Justified(edges, outcome, s)
    requires Stuck(edges, outcome, s)
    ensures Unsettled(s) == {}
  {
    if Unsettled(s) != {} {
      var v := Progress(edges, s);
      var s' := if s[v].Running? then s[v := outcome[v]]
                else if DecisionAt(edges, s, v).Skip? then s[v := Skipped] else s[v := Running];
      assert Move(edges, outcome, s, v, s');
    }
  }

  /** Every order of completions that cannot be continued ends in the same node states. */
  lemma SameEnd(edges: seq<Edge>, outcome: Outcomes, h: seq<States>, g: seq<States>)
    requires Acyclic(Pairs(edges)) && History(edges, outcome, h) && History(edges, outcome, g)
    requires h[0].Keys == g[0].Keys
    requires Stuck(edges, outcome, h[|h| - 1]) && Stuck(edges, outcome, g[|g| - 1])
    ensures h[|h| - 1] == g[|g| - 1]
    ensures forall v :: v in h[0] ==> h[|h| - 1][v].Terminal()
  {
    var s, t := h[|h| - 1], g[|g| - 1];
    HistoryJustified(edges, outcome, h, |h| - 1);
    HistoryJustified(edges, outcome, g, |g| - 1);
    StuckIsFinished(edges, outcome, s);
    StuckIsFinished(edges, outcome, t);
    NoDispute(edges, outcome, s, t);
    forall v | v in s ensures s[v] == t[v] && s[v].Terminal() {
      assert v !in Unsettled(s) && v !in Unsettled(t) && v !in Disputed(s, t);
    }
    assert s.Keys == h[0].Keys && t.Keys == h[0].Keys;
  }

  function In(s: States, state: NodeState): set<string> {
    set v | v in s && s[v] == state
  }

  /** Remaining work: two moves for a pending node, one for a started node. */
  function Work(s: States): nat {
    2 * |In(s, Pending)| + |In(s, Running)|
  }

  lemma ChangeOne(s: States, v: string, state: NodeState)
    requires v in s && s[v] != state
    ensures In(s[v := state], s[v]) == In(s, s[v]) - {v}
    ensures In(s[v := state], state) == In(s, state) + {v}
    ensures forall other: NodeState :: other != s[v] && other != state ==> In(s[v := state], other) == In(s, other)
    ensures |In(s[v := state], s[v])| == |In(s, s[v])| - 1
    ensures |In(s[v := state], state)| == |In(s, state)| + 1
  {
    assert In(s[v := state], s[v]) == In(s, s[v]) - {v};
    assert In(s[v := state], state) == In(s, state) + {v};
    forall other: NodeState | other != s[v] && other != state ensures In(s[v := state], other) == In(s, other) {
    }
  }

  lemma MoveWorks(edges: seq<Edge>, outcome: Outcomes, s: States, v: string, s': States)
    requires OutcomesFor(s, outcome) && Move(edges, outcome, s, v, s')
    ensures Work(s') < Work(s)
  {
    hide DecisionAt, In;
    ChangeOne(s, v, s'[v]);
  }

  /** Every history is finite: at most two moves per node. */
  lemma {:induction false} HistoryIsShort(edges: seq<Edge>, outcome: Outcomes, h: seq<States>)
    requires History(edges, outcome, h)
    ensures |h| - 1 + Work(h[|h| - 1]) <= 2 * |h[0].Keys|
  {
    var n := |h| - 1;
    if n == 0 {
      assert In(h[0], Pending) == h[0].Keys && In(h[0], Running) == {};
    } else {
      HistoryIsShort(edges, outcome, h[..n]);
      assert Moves(edges, outcome, h[n - 1], h[n]);
      var v :| Move(edges, outcome, h[n - 1], v, h[n]);
      MoveWorks(edges, outcome, h[n - 1], v, h[n]);
    }
  }

  // ---- What the node states say about each other ----------------------------------------------

  /** In every history a started node has exactly the predecessors its edges ask for. */
  lemma StartedIsSatisfied(edges: seq<Edge>, outcome: Outcomes, h: seq<States>, i: nat, v: string)
    requires History(edges, outcome, h) && i < |h| && v in h[i]
    requires h[i][v].Running? || (h[i][v].Terminal() && !h[i][v].Skipped?)
    ensures forall e :: e in edges && e.to == v ==>
              && e.from in h[i]
              && !h[i][e.from].Pending? && !h[i][e.from].Ready? && !h[i][e.from].Running?
              && (e.condition.Success? ==> h[i][e.from].Succeeded?)
              && (e.condition.Failure? ==> h[i][e.from].Failed? || h[i][e.from].Unknown?)
  {
    HistoryJustified(edges, outcome, h, i);
  }

  /** A node whose edges are all satisfied is skipped only if its own Runs ended skipped. */
  lemma SatisfiedIsNotSkipped(edges: seq<Edge>, outcome: Outcomes, h: seq<States>, i: nat, v: string)
    requires History(edges, outcome, h) && i < |h| && v in h[i]
    requires forall e :: e in edges && e.to == v ==>
               && e.from in h[i]
               && (e.condition.Success? ==> h[i][e.from].Succeeded?)
               && (e.condition.Failure? ==> h[i][e.from].Failed? || h[i][e.from].Unknown?)
    ensures h[i][v].Skipped? ==> v in outcome && outcome[v].Skipped?
  {
    HistoryJustified(edges, outcome, h, i);
  }

  /** A node that never started and was skipped has a predecessor that ruled it out. */
  lemma SkippedIsRuledOut(edges: seq<Edge>, outcome: Outcomes, h: seq<States>, i: nat, v: string)
    requires History(edges, outcome, h) && i < |h| && v in h[i] && h[i][v].Skipped?
    requires v in outcome && !outcome[v].Skipped?
    ensures exists e ::
              && e in edges && e.to == v && e.from in h[i]
              && !h[i][e.from].Pending? && !h[i][e.from].Ready? && !h[i][e.from].Running?
              && ((e.condition.Success? && !h[i][e.from].Succeeded?)
                  || (e.condition.Failure? && !h[i][e.from].Failed? && !h[i][e.from].Unknown?))
  {
    HistoryJustified(edges, outcome, h, i);
    var e :| e in edges && e.to == v && e.from in h[i] && h[i][e.from].Terminal()
             && !Matches(e.condition, h[i][e.from]);
  }
}
