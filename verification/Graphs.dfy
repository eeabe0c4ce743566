/** Directed graphs as edge lists: paths, cycles, and the counting behind Kahn's algorithm. */
module Graphs {
  import opened Base

  ghost predicate Path<N(!new)>(edges: seq<(N, N)>, p: seq<N>) {
    |p| > 0 && forall i :: 0 <= i < |p| - 1 ==> (p[i], p[i + 1]) in edges
  }

  ghost predicate Cycle<N(!new)>(edges: seq<(N, N)>, p: seq<N>) {
    Path(edges, p) && |p| > 1 && p[0] == p[|p| - 1]
  }

  ghost predicate Acyclic<N(!new)>(edges: seq<(N, N)>) {
    forall p :: !Cycle(edges, p)
  }

  /** Some cycle has a path to `v`. */
  ghost predicate BehindCycle<N(!new)>(edges: seq<(N, N)>, v: N) {
    exists c, p :: Cycle(edges, c) && Path(edges, p) && p[0] == c[0] && p[|p| - 1] == v
  }

  // ---- A set in which everyone has a predecessor holds a cycle -----------------------

  ghost predicate HasPredecessor<N(!new)>(edges: seq<(N, N)>, r: set<N>, v: N) {
    exists u :: u in r && (u, v) in edges
  }

  ghost predicate EveryoneHasPredecessor<N(!new)>(edges: seq<(N, N)>, r: set<N>) {
    forall v {:trigger HasPredecessor(edges, r, v)} :: v in r ==> HasPredecessor(edges, r, v)
  }

  lemma {:induction false} WalkBack<N(!new)>(edges: seq<(N, N)>, r: set<N>, v: N, steps: nat) returns (p: seq<N>)
    requires v in r && EveryoneHasPredecessor(edges, r)
    ensures Path(edges, p) && |p| == steps + 1 && p[steps] == v
    ensures forall i :: 0 <= i < |p| ==> p[i] in r
  {
    if steps == 0 {
      p := [v];
    } else {
      assert HasPredecessor(edges, r, v);
      var u :| u in r && (u, v) in edges;
      var q := WalkBack(edges, r, u, steps - 1);
      p := q + [v];
    }
  }

  lemma {:induction false} Repeats<N>(p: seq<N>, r: set<N>) returns (i: nat, j: nat)
    requires |p| > |r| && forall k :: 0 <= k < |p| ==> p[k] in r
    ensures i < j < |p| && p[i] == p[j]
  {
    var last := p[|p| - 1];
    if k :| 0 <= k < |p| - 1 && p[k] == last {
      i, j := k, |p| - 1;
    } else {
      i, j := Repeats(p[..|p| - 1], r - {last});
    }
  }

  /** Walking back from `v` forever, some node repeats. */
  lemma CycleBehind<N(!new)>(edges: seq<(N, N)>, r: set<N>, v: N)
    requires v in r && EveryoneHasPredecessor(edges, r)
    ensures BehindCycle(edges, v) && !Acyclic(edges)
  {
    var p := WalkBack(edges, r, v, |r|);
    var i, j := Repeats(p, r);
    var c, q := p[i..j + 1], p[j..];
    assert Cycle(edges, c) && Path(edges, q) && q[0] == c[0] && q[|q| - 1] == v;
  }

  function Elements<N(==)>(s: seq<N>): set<N> {
    set v | v in s
  }

  // ---- Topological orders ---------------------------------------------------------------

  /** Every predecessor of a listed node is listed before it. */
  ghost predicate Topological<N(!new)>(edges: seq<(N, N)>, order: seq<N>) {
    Distinct(order)
    && forall i, u :: 0 <= i < |order| && (u, order[i]) in edges ==> u in order[..i]
  }

  lemma {:induction false} PathsRunForward<N(!new)>(edges: seq<(N, N)>, order: seq<N>, p: seq<N>, k: nat)
    requires Topological(edges, order) && Path(edges, p) && |p| > 1
    requires k < |order| && p[|p| - 1] == order[k]
    ensures p[0] in order[..k]
  {
    var q := p[..|p| - 1];
    assert (p[|p| - 2], p[|p| - 1]) in edges;
    assert q[|q| - 1] in order[..k];
    if |q| > 1 {
      var i :| 0 <= i < k && order[i] == q[|q| - 1];
      PathsRunForward(edges, order, q, i);
    }
  }

  /** Nothing listed in a topological order lies behind a cycle. */
  lemma OrderedIsNotBehindCycle<N(!new)>(edges: seq<(N, N)>, order: seq<N>, v: N)
    requires Topological(edges, order) && v in order
    ensures !BehindCycle(edges, v)
  {
    if BehindCycle(edges, v) {
      var c, p :| Cycle(edges, c) && Path(edges, p) && p[0] == c[0] && p[|p| - 1] == v;
      var k :| 0 <= k < |order| && order[k] == v;
      if |p| > 1 {
        PathsRunForward(edges, order, p, k);
      }
      var i :| 0 <= i < |order| && order[i] == c[|c| - 1];
      PathsRunForward(edges, order, c, i);
    }
  }

  lemma TopologicalIsAcyclic<N(!new)>(edges: seq<(N, N)>, order: seq<N>)
    requires Topological(edges, order) && forall e :: e in edges ==> e.1 in order
    ensures Acyclic(edges)
  {
    if c :| Cycle(edges, c) {
      assert (c[|c| - 2], c[|c| - 1]) in edges;
      assert c[|c| - 1] in order;
      var i :| 0 <= i < |order| && order[i] == c[|c| - 1];
      PathsRunForward(edges, order, c, i);
    }
  }

  // ---- Unfinished in-degrees ---------------------------------------------------------------

  /** Edges into `v` whose source is not yet done. */
  function Blocking<N(==)>(edges: seq<(N, N)>, done: set<N>, v: N): nat {
    if edges == [] then 0
    else
      var e := edges[|edges| - 1];
      Blocking(edges[..|edges| - 1], done, v) + (if e.1 == v && e.0 !in done then 1 else 0)
  }

  /** Targets of the edges out of `u`, in edge order. */
  function Targets<N(==)>(edges: seq<(N, N)>, u: N): seq<N> {
    if edges == [] then []
    else
      var e := edges[|edges| - 1];
      Targets(edges[..|edges| - 1], u) + (if e.0 == u then [e.1] else [])
  }

  lemma {:induction false} NothingBlocks<N>(edges: seq<(N, N)>, done: set<N>, v: N)
    ensures Blocking(edges, done, v) == 0 <==> forall u :: (u, v) in edges ==> u in done
  {
    if edges != [] {
      var n := |edges| - 1;
      NothingBlocks(edges[..n], done, v);
      assert edges == edges[..n] + [edges[n]];
    }
  }

  /** Finishing `u` unblocks each target once per edge. */
  lemma {:induction false} FinishUnblocks<N>(edges: seq<(N, N)>, done: set<N>, u: N, v: N)
    requires u !in done
    ensures Blocking(edges, done + {u}, v) + multiset(Targets(edges, u))[v] == Blocking(edges, done, v)
  {
    if edges != [] {
      FinishUnblocks(edges[..|edges| - 1], done, u, v);
    }
  }

  lemma {:induction false} TargetsAreEdges<N>(edges: seq<(N, N)>, u: N)
    ensures forall v :: v in Targets(edges, u) <==> (u, v) in edges
  {
    if edges != [] {
      var n := |edges| - 1;
      TargetsAreEdges(edges[..n], u);
      assert edges == edges[..n] + [edges[n]];
    }
  }

  lemma BlockingNext<N>(edges: seq<(N, N)>, k: nat, done: set<N>, v: N)
    requires k < |edges|
    ensures Blocking(edges[..k + 1], done, v)
         == Blocking(edges[..k], done, v) + (if edges[k].1 == v && edges[k].0 !in done then 1 else 0)
    ensures Targets(edges[..k + 1], v) == Targets(edges[..k], v) + (if edges[k].0 == v then [edges[k].1] else [])
  {
    assert edges[..k + 1][..k] == edges[..k];
  }

  // ---- Kahn's algorithm -------------------------------------------------------------------

  /** Nodes already dequeued (`order`), nodes in the queue, and unfinished in-degrees. */
  ghost predicate KahnInv<N(!new)>(
    edges: seq<(N, N)>, nodes: set<N>, incoming: map<N, nat>,
    order: seq<N>, ready: seq<N>)
  {
    && incoming.Keys == nodes
    && Distinct(order + ready)
    && (forall v :: v in order + ready ==> v in nodes)
    && Topological(edges, order)
    && (forall v :: v in nodes ==> incoming[v] == Blocking(edges, Elements(order), v))
    && (forall v :: v in nodes ==> (incoming[v] == 0 <==> v in order + ready))
  }

  lemma SeqSize<N>(s: seq<N>, all: set<N>)
    requires Distinct(s) && forall v :: v in s ==> v in all
    ensures |s| <= |all|
    ensures |s| == |all| ==> forall v :: v in all ==> v in s
  {
    if s != [] {
      var last := s[|s| - 1];
      SeqSize(s[..|s| - 1], all - {last});
      assert s == s[..|s| - 1] + [last];
    } else {
      assert |all| == 0 ==> all == {};
    }
  }

  /** The node at the head of the queue has no unfinished predecessor. */
  lemma DequeueIsTopological<N(!new)>(
    edges: seq<(N, N)>, nodes: set<N>, incoming: map<N, nat>,
    order: seq<N>, ready: seq<N>)
    requires KahnInv(edges, nodes, incoming, order, ready) && ready != []
    ensures Topological(edges, order + [ready[0]]) && ready[0] !in order
  {
    var v := ready[0];
    assert (order + ready)[|order|] == v;
    forall i | 0 <= i < |order| ensures order[i] != v {
      assert order[i] == (order + ready)[i];
    }
    NothingBlocks(edges, Elements(order), v);
    var order' := order + [v];
    forall i, u | 0 <= i < |order'| && (u, order'[i]) in edges ensures u in order'[..i] {
      assert order'[..i] == order[..i];
    }
    forall i, j | 0 <= i < j < |order'| ensures order'[i] != order'[j] {
      assert order'[i] == (order + ready)[i] && order'[j] == (order + ready)[j];
    }
  }

  /** Nodes left over after the queue ran dry all have predecessors among themselves. */
  lemma LeftoversAreCyclic<N(!new)>(
    edges: seq<(N, N)>, nodes: set<N>, incoming: map<N, nat>, order: seq<N>)
    requires KahnInv(edges, nodes, incoming, order, [])
    requires forall e :: e in edges ==> e.0 in nodes && e.1 in nodes
    ensures |order| == |nodes| <==> Acyclic(edges)
    ensures forall v :: v in nodes ==> (v in order <==> !BehindCycle(edges, v))
  {
    assert order + [] == order;
    SeqSize(order, nodes);
    var done := Elements(order);
    var left := nodes - done;
    forall v | v in left ensures HasPredecessor(edges, left, v) {
      NothingBlocks(edges, done, v);
    }
    forall v | v in nodes ensures v in order <==> !BehindCycle(edges, v) {
      if v in order {
        OrderedIsNotBehindCycle(edges, order, v);
      } else {
        CycleBehind(edges, left, v);
      }
    }
    if |order| == |nodes| {
      TopologicalIsAcyclic(edges, order);
    } else {
      if left == {} {
        assert forall v :: v in nodes && v !in done ==> v in left;
        OrderCoversAll(order, nodes);
      }
      var v :| v in left;
      CycleBehind(edges, left, v);
    }
  }

  lemma {:induction false} OrderCoversAll<N>(s: seq<N>, all: set<N>)
    requires Distinct(s) && all == Elements(s)
    ensures |s| == |all|
  {
    if s != [] {
      var n := |s| - 1;
      OrderCoversAll(s[..n], all - {s[n]});
    }
  }
}
