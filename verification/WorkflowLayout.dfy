/** The browser's layered preview: a second Kahn traversal that also measures depth. */
module WorkflowLayout {
  import opened Base
  import opened Graphs

  const NODE_WIDTH := 224
  const NODE_HEIGHT := 128
  const COLUMN_GAP := 88
  const ROW_GAP := 96
  const PADDING := 72

  datatype NodePosition = NodePosition(index: nat, depth: nat, x: nat, y: nat)

  datatype GraphLayout = GraphLayout(nodes: seq<NodePosition>, width: nat, height: nat, unresolved: bool)

  // ---- What the traversal computes -------------------------------------------------------

  /** Missing endpoints are ignored. */
  function InRange(count: nat, edges: seq<(nat, nat)>): seq<(nat, nat)> {
    if edges == [] then []
    else
      var e := edges[|edges| - 1];
      InRange(count, edges[..|edges| - 1]) + (if e.0 < count && e.1 < count then [e] else [])
  }

  lemma {:induction false} InRangeKeeps(count: nat, edges: seq<(nat, nat)>)
    ensures forall e :: e in InRange(count, edges) <==> e in edges && e.0 < count && e.1 < count
  {
    if edges != [] {
      var n := |edges| - 1;
      InRangeKeeps(count, edges[..n]);
      assert edges == edges[..n] + [edges[n]];
    }
  }

  /** A path with `d` edges ends at `v`. */
  ghost predicate Reached(edges: seq<(nat, nat)>, v: nat, d: nat) {
    exists p :: Path(edges, p) && p[|p| - 1] == v && |p| == d + 1
  }

  /** The longest path ending at `v` has `d` edges. */
  ghost predicate Longest(edges: seq<(nat, nat)>, v: nat, d: nat) {
    Reached(edges, v, d) && forall p :: Path(edges, p) && p[|p| - 1] == v ==> |p| <= d + 1
  }

  function Degrees(incoming: seq<nat>): (m: map<nat, nat>)
    ensures forall v: nat :: v in m <==> v < |incoming|
    ensures forall v: nat :: v in m ==> m[v] == incoming[v]
  {
    map v: nat | v < |incoming| :: incoming[v]
  }

  /** Depths dominate every finished predecessor and are realized by some path. */
  ghost predicate DepthInv(edges: seq<(nat, nat)>, depths: seq<nat>, order: seq<nat>) {
    && (forall v: nat :: v < |depths| ==> Reached(edges, v, depths[v]))
    && (forall u: nat, v: nat :: u in order && u < |depths| && v < |depths| && (u, v) in edges ==>
          depths[u] < depths[v])
    && (forall v: nat :: v in order && v < |depths| ==> Longest(edges, v, depths[v]))
  }

  lemma ReachedNext(edges: seq<(nat, nat)>, u: nat, v: nat, d: nat)
    requires Reached(edges, u, d) && (u, v) in edges
    ensures Reached(edges, v, d + 1)
  {
    var p :| Path(edges, p) && p[|p| - 1] == u && |p| == d + 1;
    var q := p + [v];
    assert Path(edges, q) && q[|q| - 1] == v;
  }

  /** A node whose predecessors are all finished has its final depth. */
  lemma FinalDepth(edges: seq<(nat, nat)>, depths: seq<nat>, order: seq<nat>, v: nat)
    requires DepthInv(edges, depths, order) && v < |depths|
    requires forall u: nat :: (u, v) in edges ==> u in order && u < |depths|
    ensures Longest(edges, v, depths[v])
  {
    forall p | Path(edges, p) && p[|p| - 1] == v ensures |p| <= depths[v] + 1 {
      if |p| > 1 {
        var q := p[..|p| - 1];
        var u := p[|p| - 2];
        assert (p[|p| - 2], p[|p| - 1]) in edges;
        assert Path(edges, q) && q[|q| - 1] == u;
        assert Longest(edges, u, depths[u]);
      }
    }
  }

  // ---- The traversal -----------------------------------------------------------------------

  lemma TallyNext(count: nat, edges: seq<(nat, nat)>, k: nat, v: nat)
    requires k < |edges|
    ensures var (from, to) := edges[k];
            var before, after := InRange(count, edges[..k]), InRange(count, edges[..k + 1]);
            if from < count && to < count then
              && Blocking(after, {}, v) == Blocking(before, {}, v) + (if to == v then 1 else 0)
              && Targets<nat>(after, v) == Targets<nat>(before, v) + (if from == v then [edges[k].1] else [])
            else after == before
  {
    hide Blocking, Targets;
    assert edges[..k + 1][..k] == edges[..k];
    var before, after := InRange(count, edges[..k]), InRange(count, edges[..k + 1]);
    if edges[k].0 < count && edges[k].1 < count {
      assert after == before + [edges[k]];
      BlockingNext(after, |before|, {}, v);
      assert after[..|before|] == before && after[..|before| + 1] == after;
    }
  }

  lemma TallyNone(count: nat, edges: seq<(nat, nat)>, v: nat)
    requires edges == []
    ensures Blocking(InRange(count, edges), {}, v) == 0 && Targets<nat>(InRange(count, edges), v) == []
  {
  }

  method Tally(count: nat, edges: seq<(nat, nat)>) returns (incoming: seq<nat>, outgoing: seq<seq<nat>>)
    ensures |incoming| == |outgoing| == count
    ensures forall v: nat :: v < count ==> incoming[v] == Blocking(InRange(count, edges), {}, v)
    ensures forall v: nat :: v < count ==> outgoing[v] == Targets<nat>(InRange(count, edges), v)
  {
    hide Blocking, Targets, InRange;
    incoming, outgoing := seq(count, _ => 0), seq(count, _ => []);
    forall v: nat { TallyNone(count, edges[..0], v); }
    for k := 0 to |edges|
      invariant |incoming| == |outgoing| == count
      invariant forall v: nat :: v < count ==> incoming[v] == Blocking(InRange(count, edges[..k]), {}, v)
      invariant forall v: nat :: v < count ==> outgoing[v] == Targets<nat>(InRange(count, edges[..k]), v)
    {
      var (from, to) := edges[k];
      ghost var before, after := InRange(count, edges[..k]), InRange(count, edges[..k + 1]);
      forall v: nat
        ensures if from < count && to < count then
                  && Blocking(after, {}, v) == Blocking(before, {}, v) + (if to == v then 1 else 0)
                  && Targets<nat>(after, v) == Targets<nat>(before, v) + (if from == v then [edges[k].1] else [])
                else after == before
      {
        TallyNext(count, edges, k, v);
      }
      if from < count && to < count {
        incoming := incoming[to := incoming[to] + 1];
        outgoing := outgoing[from := outgoing[from] + [to]];
      }
    }
    assert edges[..|edges|] == edges;
  }

  method Roots(incoming: seq<nat>) returns (ready: seq<nat>)
    ensures Distinct(ready) && forall v: nat :: v in ready <==> v < |incoming| && incoming[v] == 0
  {
    ready := [];
    for k := 0 to |incoming|
      invariant Distinct(ready)
      invariant forall v: nat :: v in ready <==> v < k && incoming[v] == 0
    {
      if incoming[k] == 0 {
        ready := ready + [k];
      }
    }
  }

  function Max(a: nat, b: nat): nat {
    if a < b then b else a
  }

  /** What is left of the in-degrees after counting off these targets. */
  ghost predicate CountedOff(degrees: seq<nat>, targets: seq<nat>, incoming: seq<nat>) {
    && |incoming| == |degrees|
    && forall v: nat :: v < |degrees| ==> incoming[v] + multiset(targets)[v] == degrees[v]
  }

  /** Exactly the nodes nobody blocks any more are listed, each once. */
  ghost predicate Unblocked(incoming: seq<nat>, listed: seq<nat>) {
    && Distinct(listed) && (forall v: nat :: v in listed ==> v < |incoming|)
    && (forall v: nat :: v < |incoming| ==> (incoming[v] == 0 <==> v in listed))
  }

  /** These targets lie at least at `depth`; the other nodes keep their level. */
  ghost predicate Pushed(levels: seq<nat>, targets: seq<nat>, depth: nat, depths: seq<nat>) {
    && |depths| == |levels|
    && forall v: nat :: v < |levels| ==> depths[v] == if v in targets then Max(levels[v], depth) else levels[v]
  }

  lemma RelaxNone(degrees: seq<nat>, levels: seq<nat>, targets: seq<nat>, depth: nat)
    ensures CountedOff(degrees, targets[..0], degrees) && Pushed(levels, targets[..0], depth, levels)
  {
  }

  lemma CountNext(degrees: seq<nat>, targets: seq<nat>, k: nat, incoming: seq<nat>)
    requires k < |targets| && CountedOff(degrees, targets[..k], incoming) && targets[k] < |degrees|
    requires multiset(targets)[targets[k]] <= degrees[targets[k]]
    ensures incoming[targets[k]] > 0
    ensures CountedOff(degrees, targets[..k + 1], incoming[targets[k] := incoming[targets[k]] - 1])
  {
    assert targets[..k + 1] == targets[..k] + [targets[k]];
    assert targets == targets[..k + 1] + targets[k + 1..];
  }

  lemma UnblockNext(incoming: seq<nat>, listed: seq<nat>, d: nat)
    requires Unblocked(incoming, listed) && d < |incoming| && incoming[d] > 0
    ensures Unblocked(incoming[d := incoming[d] - 1], if incoming[d] == 1 then listed + [d] else listed)
  {
  }

  lemma PushNext(levels: seq<nat>, targets: seq<nat>, k: nat, depth: nat, depths: seq<nat>)
    requires k < |targets| && Pushed(levels, targets[..k], depth, depths) && targets[k] < |levels|
    ensures Pushed(levels, targets[..k + 1], depth, depths[targets[k] := Max(depths[targets[k]], depth)])
  {
    assert targets[..k + 1] == targets[..k] + [targets[k]];
  }

  /** Push the targets of a finished node down and count them off; nothing underflows. */
  method Relax(targets: seq<nat>, depth: nat, degrees: seq<nat>, levels: seq<nat>, queue: seq<nat>,
               ghost order: seq<nat>)
    returns (incoming: seq<nat>, depths: seq<nat>, ready: seq<nat>)
    requires |levels| == |degrees| && forall v: nat :: v in targets ==> v < |degrees|
    requires forall v: nat :: v < |degrees| ==> multiset(targets)[v] <= degrees[v]
    requires Unblocked(degrees, order + queue)
    ensures CountedOff(degrees, targets, incoming) && Pushed(levels, targets, depth, depths)
    ensures Unblocked(incoming, order + ready)
  {
    hide CountedOff, Unblocked, Pushed;
    incoming, depths, ready := degrees, levels, queue;
    RelaxNone(degrees, levels, targets, depth);
    for k := 0 to |targets|
      invariant |incoming| == |depths| == |degrees|
      invariant CountedOff(degrees, targets[..k], incoming) && Pushed(levels, targets[..k], depth, depths)
      invariant Unblocked(incoming, order + ready)
    {
      var d := targets[k];
      assert d in targets;
      CountNext(degrees, targets, k, incoming);
      UnblockNext(incoming, order + ready, d);
      PushNext(levels, targets, k, depth, depths);
      depths := depths[d := Max(depths[d], depth)];
      incoming := incoming[d := if incoming[d] > 0 then incoming[d] - 1 else 0];
      if incoming[d] == 0 {
        assert order + (ready + [d]) == (order + ready) + [d];
        ready := ready + [d];
      }
    }
    assert targets[..|targets|] == targets;
  }

  /** Finishing `node` pushes its targets below it and settles its own depth. */
  lemma FinishDepth(edges: seq<(nat, nat)>, levels: seq<nat>, order: seq<nat>, node: nat, depths: seq<nat>)
    requires DepthInv(edges, levels, order) && |depths| == |levels| && node < |levels|
    requires forall e :: e in edges ==> e.0 < |levels| && e.1 < |levels|
    requires Topological(edges, order + [node])
    requires forall v: nat :: v < |levels| ==>
               depths[v] == if (node, v) in edges then Max(levels[v], levels[node] + 1) else levels[v]
    ensures DepthInv(edges, depths, order + [node])
  {
    var order' := order + [node];
    forall u: nat | (u, node) in edges ensures u in order {
      assert order'[|order|] == node && u in order'[..|order|];
    }
    forall j | 0 <= j < |order'| ensures (node, order'[j]) !in edges {
      assert node !in order'[..j] by {
        assert order'[|order|] == node;
      }
    }
    FinalDepth(edges, levels, order, node);
    forall v: nat | v < |depths| ensures Reached(edges, v, depths[v]) {
      if (node, v) in edges { ReachedNext(edges, node, v, levels[node]); }
    }
    forall v: nat | v in order' && v < |levels| ensures depths[v] == levels[v] {
      assert (node, v) !in edges;
    }
    forall u: nat, v: nat | u in order' && u < |depths| && v < |depths| && (u, v) in edges
      ensures depths[u] < depths[v]
    {
      assert depths[u] == levels[u];
    }
  }

  /** The head of the queue may be finished: its targets can be counted off without underflow. */
  lemma Dequeue(edges: seq<(nat, nat)>, incoming: seq<nat>, order: seq<nat>, ready: seq<nat>, targets: seq<nat>)
    requires KahnInv(edges, Degrees(incoming).Keys, Degrees(incoming), order, ready) && ready != []
    requires targets == Targets(edges, ready[0])
    requires forall e :: e in edges ==> e.0 < |incoming| && e.1 < |incoming|
    ensures var order' := order + [ready[0]];
            && ready[0] < |incoming| && Topological(edges, order') && |order| < |incoming|
            && Distinct(order' + ready[1..]) && (forall v: nat :: v in order' + ready[1..] ==> v < |incoming|)
            && (forall v: nat :: v in targets <==> (ready[0], v) in edges)
            && (forall v: nat :: v in targets ==> v < |incoming|)
            && (forall v: nat :: v < |incoming| ==> (incoming[v] == 0 <==> v in order' + ready[1..]))
            && (forall v: nat :: v < |incoming| ==>
                  incoming[v] == Blocking(edges, Elements(order'), v) + multiset(targets)[v])
  {
    hide Topological, Blocking, Targets, Distinct;
    var index, order' := ready[0], order + [ready[0]];
    var nodes := Degrees(incoming).Keys;
    DequeueIsTopological(edges, nodes, Degrees(incoming), order, ready);
    assert order' + ready[1..] == order + ready && (order + ready)[|order|] == index;
    assert index in order + ready;
    assert Elements(order') == Elements(order) + {index};
    forall v: nat | v < |incoming|
      ensures incoming[v] == Blocking(edges, Elements(order'), v) + multiset(targets)[v]
    {
      FinishUnblocks(edges, Elements(order), index, v);
    }
    TargetsAreEdges(edges, index);
    SeqSize(order + ready, nodes);
    KeysBelow(|incoming|, nodes);
  }

  lemma {:induction false} KeysBelow(n: nat, keys: set<nat>)
    requires forall v: nat :: v in keys <==> v < n
    ensures |keys| == n
  {
    if n > 0 {
      KeysBelow(n - 1, keys - {n - 1});
    } else {
      assert keys == {};
    }
  }

  lemma Requeue(edges: seq<(nat, nat)>, incoming: seq<nat>, order: seq<nat>, ready: seq<nat>)
    requires Topological(edges, order) && Distinct(order + ready)
    requires forall v: nat :: v in order + ready ==> v < |incoming|
    requires forall v: nat :: v < |incoming| ==> incoming[v] == Blocking(edges, Elements(order), v)
    requires forall v: nat :: v < |incoming| ==> (incoming[v] == 0 <==> v in order + ready)
    ensures KahnInv(edges, Degrees(incoming).Keys, Degrees(incoming), order, ready)
  {
  }

  /**
   Every node enters the queue at most once, even with duplicate or self edges. A
   node is visited exactly when no cycle leads to it, and then its depth is the
   number of edges on the longest path that ends at it.
   */
  method Traverse(count: nat, edges: seq<(nat, nat)>) returns (depths: seq<nat>, visited: seq<bool>)
    ensures |depths| == |visited| == count
    ensures forall v: nat :: v < count ==> (visited[v] <==> !BehindCycle(InRange(count, edges), v))
    ensures forall v: nat :: v < count && visited[v] ==> Longest(InRange(count, edges), v, depths[v])
    ensures (forall v: nat :: v < count ==> visited[v]) <==> Acyclic(InRange(count, edges))
  {
    hide Blocking, Targets, Topological, Distinct, DepthInv, Longest, BehindCycle, Acyclic, KahnInv;
    ghost var graph := InRange(count, edges);
    InRangeKeeps(count, edges);
    var incoming, outgoing := Tally(count, edges);
    var ready := Roots(incoming);
    ghost var order: seq<nat> := [];
    depths, visited := seq(count, _ => 0), seq(count, _ => false);
    StartInv(graph, incoming, depths, ready);
    while ready != []
      invariant |incoming| == |depths| == |visited| == count
      invariant KahnInv(graph, Degrees(incoming).Keys, Degrees(incoming), order, ready)
      invariant DepthInv(graph, depths, order)
      invariant forall v: nat :: v < count ==> (visited[v] <==> v in order)
      decreases count - |order|
    {
      Dequeue(graph, incoming, order, ready, Targets(graph, ready[0]));
      var index := ready[0];
      visited := visited[index := true];
      ghost var levels := depths;
      order := order + [index];
      incoming, depths, ready := Relax(outgoing[index], depths[index] + 1, incoming, depths, ready[1..], order);
      FinishDepth(graph, levels, order[..|order| - 1], index, depths);
      Requeue(graph, incoming, order, ready);
    }
    AllVisited(graph, incoming, order, visited);
    assert forall v: nat :: v in order && v < count ==> Longest(graph, v, depths[v]) by {
      DepthsAreFinal(graph, depths, order);
    }
  }

  lemma DepthsAreFinal(edges: seq<(nat, nat)>, depths: seq<nat>, order: seq<nat>)
    requires DepthInv(edges, depths, order)
    ensures forall v: nat :: v in order && v < |depths| ==> Longest(edges, v, depths[v])
  {
  }

  lemma AllVisited(edges: seq<(nat, nat)>, incoming: seq<nat>, order: seq<nat>, visited: seq<bool>)
    requires KahnInv(edges, Degrees(incoming).Keys, Degrees(incoming), order, [])
    requires forall e :: e in edges ==> e.0 < |incoming| && e.1 < |incoming|
    requires |visited| == |incoming| && forall v: nat :: v < |visited| ==> (visited[v] <==> v in order)
    ensures forall v: nat :: v < |visited| ==> (visited[v] <==> !BehindCycle(edges, v))
    ensures (forall v: nat :: v < |visited| ==> visited[v]) <==> Acyclic(edges)
  {
    hide BehindCycle, Acyclic, Topological, Blocking;
    var nodes := Degrees(incoming).Keys;
    LeftoversAreCyclic(edges, nodes, Degrees(incoming), order);
    assert order + [] == order;
    SeqSize(order, nodes);
    if forall v: nat :: v < |visited| ==> visited[v] {
      assert nodes == Elements(order);
      OrderCoversAll(order, nodes);
    }
  }

  lemma StartInv(edges: seq<(nat, nat)>, incoming: seq<nat>, depths: seq<nat>, ready: seq<nat>)
    requires |depths| == |incoming| && forall v: nat :: v < |depths| ==> depths[v] == 0
    requires Distinct(ready) && forall v: nat :: v in ready <==> v < |incoming| && incoming[v] == 0
    requires forall v: nat :: v < |incoming| ==> incoming[v] == Blocking(edges, {}, v)
    ensures KahnInv(edges, Degrees(incoming).Keys, Degrees(incoming), [], ready)
    ensures DepthInv(edges, depths, [])
  {
    assert [] + ready == ready;
    assert Elements<nat>([]) == {};
    forall v: nat | v < |depths| ensures Reached(edges, v, 0) {
      assert Path(edges, [v]);
    }
  }

  // ---- Layers --------------------------------------------------------------------------------

  /** One more than the deepest visited node, or zero when nothing was visited. */
  ghost predicate IsDraftDepth(depths: seq<nat>, visited: seq<bool>, draft: nat)
    requires |depths| == |visited|
  {
    && (forall v: nat :: v < |depths| && visited[v] ==> depths[v] < draft)
    && (draft > 0 ==> exists v: nat :: v < |depths| && visited[v] && depths[v] + 1 == draft)
  }

  method DraftDepth(depths: seq<nat>, visited: seq<bool>) returns (draft: nat)
    requires |depths| == |visited|
    ensures IsDraftDepth(depths, visited, draft)
  {
    draft := 0;
    for k := 0 to |depths|
      invariant forall v: nat :: v < k && visited[v] ==> depths[v] < draft
      invariant draft > 0 ==> exists v: nat :: v < k && visited[v] && depths[v] + 1 == draft
    {
      if visited[k] && draft <= depths[k] {
        draft := depths[k] + 1;
      }
    }
  }

  /** How many of the first `k` nodes lie in layer `d`. */
  function InLayer(depths: seq<nat>, d: nat, k: nat): nat
    requires k <= |depths|
  {
    if k == 0 then 0 else InLayer(depths, d, k - 1) + (if depths[k - 1] == d then 1 else 0)
  }

  lemma {:induction false} LayerGrows(depths: seq<nat>, d: nat, j: nat, k: nat)
    requires j <= k <= |depths|
    ensures InLayer(depths, d, j) <= InLayer(depths, d, k)
    ensures j < k && depths[j] == d ==> InLayer(depths, d, j) < InLayer(depths, d, k)
    decreases k
  {
    if j < k {
      LayerGrows(depths, d, j, k - 1);
    }
  }

  function RowWidth(size: nat): nat {
    if size == 0 then 0 else size * (NODE_WIDTH + COLUMN_GAP) - COLUMN_GAP
  }

  method Deepest(values: seq<nat>) returns (deepest: nat)
    ensures forall i :: 0 <= i < |values| ==> values[i] <= deepest
    ensures values != [] ==> deepest in values
    ensures values == [] ==> deepest == 0
  {
    deepest := 0;
    for k := 0 to |values|
      invariant forall i :: 0 <= i < k ==> values[i] <= deepest
      invariant if k == 0 then deepest == 0 else deepest in values
    {
      deepest := Max(deepest, values[k]);
    }
  }

  method LayerSizes(depths: seq<nat>, layers: nat) returns (sizes: seq<nat>)
    requires forall i :: 0 <= i < |depths| ==> depths[i] < layers
    ensures |sizes| == layers && forall d: nat :: d < layers ==> sizes[d] == InLayer(depths, d, |depths|)
  {
    sizes := seq(layers, _ => 0);
    for k := 0 to |depths|
      invariant |sizes| == layers && forall d: nat :: d < layers ==> sizes[d] == InLayer(depths, d, k)
    {
      sizes := sizes[depths[k] := sizes[depths[k]] + 1];
    }
  }

  // ---- Coordinates ---------------------------------------------------------------------------

  ghost predicate Inside(g: GraphLayout, i: nat)
    requires i < |g.nodes|
  {
    g.nodes[i].x + NODE_WIDTH <= g.width && g.nodes[i].y + NODE_HEIGHT <= g.height
  }

  ghost predicate Apart(a: NodePosition, b: NodePosition) {
    || a.x + NODE_WIDTH <= b.x || b.x + NODE_WIDTH <= a.x
    || a.y + NODE_HEIGHT <= b.y || b.y + NODE_HEIGHT <= a.y
  }

  /** Centred row by row; the k-th node of a layer takes the k-th slot. */
  function PositionOf(depths: seq<nat>, widest: nat, i: nat): NodePosition
    requires i < |depths| && RowWidth(InLayer(depths, depths[i], |depths|)) <= widest
  {
    var d := depths[i];
    NodePosition(i, d,
      PADDING + (widest - RowWidth(InLayer(depths, d, |depths|))) / 2
        + InLayer(depths, d, i) * (NODE_WIDTH + COLUMN_GAP),
      PADDING + d * (NODE_HEIGHT + ROW_GAP))
  }

  lemma CardsApart(depths: seq<nat>, widest: nat, i: nat, j: nat)
    requires i < j < |depths|
    requires forall k: nat :: k < |depths| ==> RowWidth(InLayer(depths, depths[k], |depths|)) <= widest
    ensures Apart(PositionOf(depths, widest, i), PositionOf(depths, widest, j))
  {
    if depths[i] == depths[j] {
      LayerGrows(depths, depths[i], i, j);
    }
  }

  lemma CardInside(depths: seq<nat>, widest: nat, layers: nat, i: nat)
    requires i < |depths| && depths[i] < layers && RowWidth(InLayer(depths, depths[i], |depths|)) <= widest
    ensures var p := PositionOf(depths, widest, i);
            && p.x + NODE_WIDTH <= widest + 2 * PADDING
            && p.y + NODE_HEIGHT <= layers * (NODE_HEIGHT + ROW_GAP) - ROW_GAP + 2 * PADDING
  {
    LayerGrows(depths, depths[i], i, |depths|);
  }

  method Place(depths: seq<nat>, sizes: seq<nat>, widest: nat) returns (nodes: seq<NodePosition>)
    requires forall i: nat :: i < |depths| ==> depths[i] < |sizes|
    requires forall d: nat :: d < |sizes| ==> sizes[d] == InLayer(depths, d, |depths|) && RowWidth(sizes[d]) <= widest
    ensures |nodes| == |depths| && forall i: nat :: i < |depths| ==> nodes[i] == PositionOf(depths, widest, i)
  {
    nodes := [];
    var slots: seq<nat> := seq(|sizes|, _ => 0);
    for k := 0 to |depths|
      invariant |nodes| == k && forall i: nat :: i < k ==> nodes[i] == PositionOf(depths, widest, i)
      invariant |slots| == |sizes| && forall d: nat :: d < |slots| ==> slots[d] == InLayer(depths, d, k)
    {
      var depth := depths[k];
      var offset := slots[depth];
      slots := slots[depth := offset + 1];
      var x := PADDING + (widest - RowWidth(sizes[depth])) / 2 + offset * (NODE_WIDTH + COLUMN_GAP);
      nodes := nodes + [NodePosition(k, depth, x, PADDING + depth * (NODE_HEIGHT + ROW_GAP))];
    }
  }

  // ---- How the picture reads --------------------------------------------------------------------

  /** Deeper layers lie lower, 224 apart from 72 down; in a layer, cards follow each other 312 apart. */
  ghost predicate Rows(g: GraphLayout) {
    && (forall i: nat :: i < |g.nodes| ==> g.nodes[i].y == 72 + 224 * g.nodes[i].depth)
    && (forall i: nat, j: nat :: i < j < |g.nodes| && Neighbours(g, i, j) ==> g.nodes[j].x == g.nodes[i].x + 312)
  }

  /** Consecutive nodes of one layer, in definition order. */
  ghost predicate Neighbours(g: GraphLayout, i: nat, j: nat)
    requires i < j < |g.nodes|
  {
    && g.nodes[i].depth == g.nodes[j].depth
    && forall k: nat :: i < k < j ==> g.nodes[k].depth != g.nodes[i].depth
  }

  ghost predicate FirstOfLayer(g: GraphLayout, i: nat)
    requires i < |g.nodes|
  {
    forall k: nat :: k < i ==> g.nodes[k].depth != g.nodes[i].depth
  }

  ghost predicate LastOfLayer(g: GraphLayout, i: nat)
    requires i < |g.nodes|
  {
    forall k: nat :: i < k < |g.nodes| ==> g.nodes[k].depth != g.nodes[i].depth
  }

  /** The margins left and right of each layer differ by at most one. */
  ghost predicate Centred(g: GraphLayout) {
    forall i: nat, j: nat ::
      i <= j < |g.nodes| && g.nodes[i].depth == g.nodes[j].depth && FirstOfLayer(g, i) && LastOfLayer(g, j) ==>
        g.nodes[i].x <= g.width - (g.nodes[j].x + 224) <= g.nodes[i].x + 1
  }

  /** The canvas is no larger than the deepest layer and the widest one need, with 72 around them. */
  ghost predicate Tight(g: GraphLayout) {
    && (g.nodes == [] ==> g.width == 144 && g.height == 272)
    && (g.nodes != [] ==> exists i: nat :: i < |g.nodes| && g.nodes[i].y + 128 + 72 == g.height)
    && (g.nodes != [] ==> exists i: nat :: i < |g.nodes| && g.nodes[i].x + 224 + 72 == g.width)
  }

  /** `g` shows these depths, placed by `PositionOf`. */
  ghost predicate Shows(depths: seq<nat>, widest: nat, g: GraphLayout) {
    && |g.nodes| == |depths|
    && forall i: nat :: i < |depths| ==>
         RowWidth(InLayer(depths, depths[i], |depths|)) <= widest && g.nodes[i] == PositionOf(depths, widest, i)
  }

  lemma {:induction false} NoneBetween(depths: seq<nat>, d: nat, i: nat, j: nat)
    requires i <= j <= |depths| && forall k: nat :: i <= k < j ==> depths[k] != d
    ensures InLayer(depths, d, j) == InLayer(depths, d, i)
    decreases j
  {
    if i < j {
      NoneBetween(depths, d, i, j - 1);
    }
  }

  lemma RowsPlaced(depths: seq<nat>, widest: nat, g: GraphLayout)
    requires Shows(depths, widest, g)
    ensures Rows(g)
  {
    forall i: nat, j: nat | i < j < |g.nodes| && Neighbours(g, i, j) ensures g.nodes[j].x == g.nodes[i].x + 312 {
      NoneBetween(depths, depths[i], i + 1, j);
    }
  }

  /** Halving the free space leaves margins that differ by at most one. */
  lemma Margins(widest: nat, others: nat)
    requires RowWidth(others + 1) <= widest
    ensures var left := 72 + (widest - RowWidth(others + 1)) / 2;
            left <= widest + 144 - (left + others * 312 + 224) <= left + 1
  {
  }

  lemma CentredPair(depths: seq<nat>, widest: nat, i: nat, j: nat)
    requires i <= j < |depths| && depths[i] == depths[j]
    requires (forall k: nat :: k < i ==> depths[k] != depths[i])
    requires (forall k: nat :: j < k < |depths| ==> depths[k] != depths[i])
    requires RowWidth(InLayer(depths, depths[i], |depths|)) <= widest
    ensures var left, right := PositionOf(depths, widest, i).x, PositionOf(depths, widest, j).x;
            left <= widest + 144 - (right + 224) <= left + 1
  {
    hide RowWidth;
    NoneBetween(depths, depths[i], 0, i);
    NoneBetween(depths, depths[i], j + 1, |depths|);
    Margins(widest, InLayer(depths, depths[i], j));
  }

  lemma CentredPlaced(depths: seq<nat>, widest: nat, g: GraphLayout)
    requires Shows(depths, widest, g) && g.width == widest + 144
    ensures Centred(g)
  {
    forall i: nat, j: nat | i <= j < |g.nodes| && g.nodes[i].depth == g.nodes[j].depth
                            && FirstOfLayer(g, i) && LastOfLayer(g, j)
      ensures g.nodes[i].x <= g.width - (g.nodes[j].x + 224) <= g.nodes[i].x + 1
    {
      SameDepths(depths, widest, g);
      CentredPair(depths, widest, i, j);
    }
  }

  lemma SameDepths(depths: seq<nat>, widest: nat, g: GraphLayout)
    requires Shows(depths, widest, g)
    ensures forall k: nat :: k < |depths| ==> g.nodes[k].depth == depths[k]
  {
  }

  /** A layer with members has a last one. */
  lemma {:induction false} LastMember(depths: seq<nat>, d: nat, k: nat) returns (i: nat)
    requires k <= |depths| && InLayer(depths, d, k) > 0
    ensures i < k && depths[i] == d && InLayer(depths, d, i) + 1 == InLayer(depths, d, k)
  {
    if depths[k - 1] == d {
      i := k - 1;
    } else {
      i := LastMember(depths, d, k - 1);
    }
  }

  lemma TightPlaced(depths: seq<nat>, sizes: seq<nat>, most: nat, deepest: nat, g: GraphLayout)
    requires Shows(depths, RowWidth(most), g) && |sizes| == deepest + 1
    requires forall d: nat :: d < |sizes| ==> sizes[d] == InLayer(depths, d, |depths|) <= most
    requires most in sizes && (if depths == [] then deepest == 0 else deepest in depths)
    requires g.width == RowWidth(most) + 144 && g.height == (deepest + 1) * 224 + 48
    ensures Tight(g)
  {
    if depths != [] {
      var deep :| 0 <= deep < |depths| && depths[deep] == deepest;
      assert g.nodes[deep].y + 128 + 72 == g.height;
      LayerGrows(depths, deepest, deep, |depths|);
      var d :| 0 <= d < |sizes| && sizes[d] == most;
      var i := LastMember(depths, d, |depths|);
      assert g.nodes[i].x + 224 + 72 == g.width;
    } else {
      var d :| 0 <= d < |sizes| && sizes[d] == most;
      assert most == 0;
    }
  }

  /** All nodes behind a cycle share the layer below the deepest other node, or layer 0. */
  ghost predicate DraftLayer(count: nat, edges: seq<(nat, nat)>, g: GraphLayout, draft: nat)
    requires |g.nodes| == count
  {
    && (forall v: nat :: v < count && BehindCycle(edges, v) ==> g.nodes[v].depth == draft)
    && (forall v: nat :: v < count && !BehindCycle(edges, v) ==> g.nodes[v].depth < draft)
    && (draft > 0 ==> exists v: nat :: v < count && !BehindCycle(edges, v) && g.nodes[v].depth + 1 == draft)
  }

  /** Resolved nodes sit at their longest-path depth; a draft's unresolved nodes share the next layer. */
  ghost predicate Layered(count: nat, edges: seq<(nat, nat)>, g: GraphLayout)
    requires |g.nodes| == count
  {
    && (forall v: nat :: v < count && !BehindCycle(edges, v) ==> Longest(edges, v, g.nodes[v].depth))
    && exists draft: nat :: DraftLayer(count, edges, g, draft)
  }

  method LayeredLayout(count: nat, edges: seq<(nat, nat)>) returns (g: GraphLayout)
    ensures |g.nodes| == count && forall i: nat :: i < count ==> g.nodes[i].index == i
    ensures g.unresolved <==> !Acyclic(InRange(count, edges))
    ensures Layered(count, InRange(count, edges), g)
    ensures forall i: nat :: i < count ==> Inside(g, i)
    ensures forall i: nat, j: nat :: i < j < count ==> Apart(g.nodes[i], g.nodes[j])
    ensures Rows(g) && Centred(g) && Tight(g)
  {
    hide Longest, BehindCycle, Acyclic, InRange, Apart, Inside, Rows, Centred, Tight;
    var measured, visited := Traverse(count, edges);
    var unresolved := exists v: nat :: v < |visited| && !visited[v];
    var draft := DraftDepth(measured, visited);
    var depths := seq(count, v requires 0 <= v < count => if visited[v] then measured[v] else draft);
    g := Arrange(depths, unresolved);
    assert forall v: nat :: v < count ==> g.nodes[v].depth == if visited[v] then measured[v] else draft;
    assert DraftLayer(count, InRange(count, edges), g, draft);
  }

  /** Cards centred in rows: inside the canvas and never overlapping. */
  method Arrange(depths: seq<nat>, unresolved: bool) returns (g: GraphLayout)
    ensures |g.nodes| == |depths| && g.unresolved == unresolved
    ensures forall i: nat :: i < |depths| ==> g.nodes[i].index == i && g.nodes[i].depth == depths[i]
    ensures forall i: nat :: i < |depths| ==> Inside(g, i)
    ensures forall i: nat, j: nat :: i < j < |depths| ==> Apart(g.nodes[i], g.nodes[j])
    ensures Rows(g) && Centred(g) && Tight(g)
  {
    hide InLayer, Apart, Rows, Centred, Tight;
    var deepest := Deepest(depths);
    var layers := deepest + 1;
    var sizes := LayerSizes(depths, layers);
    var most := Deepest(sizes);
    var widest := RowWidth(most);
    forall d: nat | d < layers ensures RowWidth(sizes[d]) <= widest {
      assert sizes[d] <= most;
    }
    var nodes := Place(depths, sizes, widest);
    g := GraphLayout(nodes, widest + 2 * PADDING,
                     layers * (NODE_HEIGHT + ROW_GAP) - ROW_GAP + 2 * PADDING, unresolved);
    forall i: nat | i < |depths| ensures Inside(g, i) {
      CardInside(depths, widest, layers, i);
    }
    forall i: nat, j: nat | i < j < |depths| ensures Apart(g.nodes[i], g.nodes[j]) {
      CardsApart(depths, widest, i, j);
    }
    RowsPlaced(depths, widest, g);
    CentredPlaced(depths, widest, g);
    TightPlaced(depths, sizes, most, deepest, g);
  }
}
