/** Validation of Workflow definitions: bounds, identities, endpoints, acyclicity. */
module WorkflowValidate {
  import opened Base
  import opened Graphs

  datatype Condition = Success | Failure | Always

  datatype Edge = Edge(from: string, to: string, condition: Condition)

  datatype Definition = Definition(description: Option<string>, nodes: seq<string>, edges: seq<Edge>)

  datatype Verdict =
    Valid | BadSize | BadDescription | DuplicateNode | BadEndpoint | DuplicateEdge | Cyclic

  function Pairs(edges: seq<Edge>): (r: seq<(string, string)>)
    ensures |r| == |edges|
    ensures forall i :: 0 <= i < |edges| ==> r[i] == (edges[i].from, edges[i].to)
  {
    seq(|edges|, i requires 0 <= i < |edges| => (edges[i].from, edges[i].to))
  }

  // ---- What a valid definition is -----------------------------------------------------

  predicate SizeOk(d: Definition) {
    1 <= |d.nodes| <= 64 && |d.edges| <= 256
  }

  predicate DescriptionOk(d: Definition) {
    d.description.None? || ('\0' !in d.description.value && |d.description.value| <= 500)
  }

  predicate EndpointsOk(d: Definition, i: nat)
    requires i < |d.edges|
  {
    d.edges[i].from != d.edges[i].to && d.edges[i].from in d.nodes && d.edges[i].to in d.nodes
  }

  /** Edge `i` repeats the endpoints of an earlier edge, whatever its condition. */
  predicate RepeatsPair(d: Definition, i: nat)
    requires i < |d.edges|
  {
    exists j :: 0 <= j < i && d.edges[j].from == d.edges[i].from && d.edges[j].to == d.edges[i].to
  }

  predicate GoodEdges(d: Definition, k: nat)
    requires k <= |d.edges|
  {
    forall i :: 0 <= i < k ==> EndpointsOk(d, i) && !RepeatsPair(d, i)
  }

  ghost predicate WellFormed(d: Definition) {
    SizeOk(d) && DescriptionOk(d) && Distinct(d.nodes) && GoodEdges(d, |d.edges|)
  }

  // ---- Kahn's algorithm -------------------------------------------------------------------

  /** What is left of the in-degrees after counting off these targets. */
  ghost predicate CountedOff(degrees: map<string, nat>, targets: seq<string>, incoming: map<string, nat>) {
    incoming.Keys == degrees.Keys && forall v :: v in degrees ==> incoming[v] + multiset(targets)[v] == degrees[v]
  }

  /** Exactly the nodes nobody blocks any more are listed, each once. */
  ghost predicate Unblocked(incoming: map<string, nat>, listed: seq<string>) {
    && Distinct(listed) && (forall v :: v in listed ==> v in incoming)
    && (forall v :: v in incoming ==> (incoming[v] == 0 <==> v in listed))
  }

  lemma CountedNone(degrees: map<string, nat>, targets: seq<string>)
    ensures CountedOff(degrees, targets[..0], degrees)
  {
  }

  lemma CountNext(degrees: map<string, nat>, targets: seq<string>, k: nat, incoming: map<string, nat>)
    requires k < |targets| && CountedOff(degrees, targets[..k], incoming) && targets[k] in degrees
    requires multiset(targets)[targets[k]] <= degrees[targets[k]]
    ensures incoming[targets[k]] > 0
    ensures CountedOff(degrees, targets[..k + 1], incoming[targets[k] := incoming[targets[k]] - 1])
  {
    assert targets[..k + 1] == targets[..k] + [targets[k]];
    assert targets == targets[..k + 1] + targets[k + 1..];
  }

  lemma UnblockNext(incoming: map<string, nat>, listed: seq<string>, d: string)
    requires Unblocked(incoming, listed) && d in incoming && incoming[d] > 0
    ensures Unblocked(incoming[d := incoming[d] - 1], if incoming[d] == 1 then listed + [d] else listed)
  {
  }

  /** Count off each target once; a target nobody blocks any more joins the queue. */
  method Release(targets: seq<string>, degrees: map<string, nat>, queue: seq<string>, ghost order: seq<string>)
    returns (incoming: map<string, nat>, ready: seq<string>)
    requires forall v :: v in targets ==> v in degrees
    requires forall v :: v in degrees ==> multiset(targets)[v] <= degrees[v]
    requires Unblocked(degrees, order + queue)
    ensures CountedOff(degrees, targets, incoming) && Unblocked(incoming, order + ready)
  {
    hide CountedOff, Unblocked;
    incoming, ready := degrees, queue;
    CountedNone(degrees, targets);
    for k := 0 to |targets|
      invariant incoming.Keys == degrees.Keys
      invariant CountedOff(degrees, targets[..k], incoming) && Unblocked(incoming, order + ready)
    {
      var d := targets[k];
      CountNext(degrees, targets, k, incoming);
      UnblockNext(incoming, order + ready, d);
      incoming := incoming[d := incoming[d] - 1];
      if incoming[d] == 0 {
        assert order + (ready + [d]) == (order + ready) + [d];
        ready := ready + [d];
      }
    }
    assert targets[..|targets|] == targets;
  }

  /** Dequeuing a node: the edges out of it are what still has to be counted off. */
  lemma BeforeRelease(
    edges: seq<(string, string)>, incoming: map<string, nat>, order: seq<string>, ready: seq<string>)
    requires KahnInv(edges, incoming.Keys, incoming, order, ready) && ready != []
    requires forall e :: e in edges ==> e.0 in incoming && e.1 in incoming
    ensures Topological(edges, order + [ready[0]]) && |order| + 1 <= |incoming.Keys|
    ensures Unblocked(incoming, order + [ready[0]] + ready[1..])
    ensures forall v :: v in Targets(edges, ready[0]) ==> v in incoming
    ensures forall v :: v in incoming ==>
              incoming[v] == Blocking(edges, Elements(order + [ready[0]]), v) + multiset(Targets(edges, ready[0]))[v]
  {
    hide Topological, Blocking, Targets, Distinct;
    DequeueIsTopological(edges, incoming.Keys, incoming, order, ready);
    SeqSize(order + ready, incoming.Keys);
    assert order + [ready[0]] + ready[1..] == order + ready;
    TargetsAreEdges(edges, ready[0]);
    forall v | v in incoming
      ensures incoming[v] == Blocking(edges, Elements(order + [ready[0]]), v) + multiset(Targets(edges, ready[0]))[v]
    {
      assert Elements(order + [ready[0]]) == Elements(order) + {ready[0]};
      FinishUnblocks(edges, Elements(order), ready[0], v);
    }
  }

  lemma AfterRelease(
    edges: seq<(string, string)>, incoming: map<string, nat>, incoming': map<string, nat>,
    order: seq<string>, ready: seq<string>, targets: seq<string>)
    requires CountedOff(incoming, targets, incoming')
    requires Unblocked(incoming', order + ready) && Topological(edges, order)
    requires forall v :: v in incoming ==> incoming[v] == Blocking(edges, Elements(order), v) + multiset(targets)[v]
    ensures KahnInv(edges, incoming.Keys, incoming', order, ready)
  {
    hide Topological, Blocking, Distinct, Elements;
  }

  lemma TargetsOf(edges: seq<(string, string)>, degrees: map<string, nat>, outgoing: map<string, seq<string>>,
                  incoming: map<string, nat>, order: seq<string>, ready: seq<string>)
    requires Tallied(edges, degrees, outgoing) && KahnInv(edges, degrees.Keys, incoming, order, ready) && ready != []
    ensures incoming.Keys == degrees.Keys
    ensures Targets(edges, ready[0]) == if ready[0] in outgoing then outgoing[ready[0]] else []
  {
    assert (order + ready)[|order|] == ready[0];
  }

  method Kahn(ghost edges: seq<(string, string)>, degrees: map<string, nat>, outgoing: map<string, seq<string>>,
              roots: seq<string>) returns (visited: nat)
    requires KahnInv(edges, degrees.Keys, degrees, [], roots)
    requires forall e :: e in edges ==> e.0 in degrees && e.1 in degrees
    requires Tallied(edges, degrees, outgoing)
    ensures visited == |degrees.Keys| <==> Acyclic(edges)
  {
    hide Topological, Blocking, Targets, Acyclic, Elements, KahnInv, Tallied, CountedOff, Unblocked;
    ghost var order: seq<string> := [];
    var incoming, ready := degrees, roots;
    visited := 0;
    while ready != []
      invariant KahnInv(edges, degrees.Keys, incoming, order, ready) && visited == |order|
      decreases |degrees.Keys| - visited
    {
      TargetsOf(edges, degrees, outgoing, incoming, order, ready);
      BeforeRelease(edges, incoming, order, ready);
      ghost var before := incoming;
      var node := ready[0];
      var targets := if node in outgoing then outgoing[node] else [];
      order := order + [node];
      incoming, ready := Release(targets, incoming, ready[1..], order);
      AfterRelease(edges, before, incoming, order, ready, targets);
      visited := visited + 1;
    }
    LeftoversAreCyclic(edges, degrees.Keys, incoming, order);
  }

  // ---- Validation ------------------------------------------------------------------------------

  method CollectNodes(nodes: seq<string>) returns (unique: bool, incoming: map<string, nat>)
    ensures unique <==> Distinct(nodes)
    ensures unique ==> incoming.Keys == Elements(nodes) && forall v :: v in nodes ==> incoming[v] == 0
  {
    unique, incoming := true, map[];
    for k := 0 to |nodes|
      invariant Distinct(nodes[..k])
      invariant incoming.Keys == Elements(nodes[..k]) && forall v :: v in incoming ==> incoming[v] == 0
    {
      if nodes[k] in incoming {
        unique := false;
        return;
      }
      incoming := incoming[nodes[k] := 0];
    }
    assert nodes[..|nodes|] == nodes;
  }

  ghost predicate Seen(edges: seq<(string, string)>, pairs: set<(string, string)>) {
    forall p :: p in pairs <==> p in edges
  }

  lemma SeenBefore(d: Definition, k: nat, pairs: set<(string, string)>)
    requires k < |d.edges| && Seen(Pairs(d.edges)[..k], pairs)
    ensures RepeatsPair(d, k) <==> Pairs(d.edges)[k] in pairs
    ensures GoodEdges(d, k) && EndpointsOk(d, k) && !RepeatsPair(d, k) ==> GoodEdges(d, k + 1)
    ensures Seen(Pairs(d.edges)[..k + 1], pairs + {Pairs(d.edges)[k]})
  {
    var edges := Pairs(d.edges);
    assert edges[..k + 1] == edges[..k] + [edges[k]];
    assert forall j :: 0 <= j < k ==> edges[..k][j] == edges[j];
    if edges[k] in pairs {
      var j :| 0 <= j < k && edges[..k][j] == edges[k];
      assert d.edges[j].from == d.edges[k].from && d.edges[j].to == d.edges[k].to;
    }
    if RepeatsPair(d, k) {
      var j :| 0 <= j < k && d.edges[j].from == d.edges[k].from && d.edges[j].to == d.edges[k].to;
      assert edges[..k][j] == edges[k];
    }
  }

  /** In-degrees and adjacency count exactly these edges. */
  ghost predicate Tallied(
    edges: seq<(string, string)>, incoming: map<string, nat>, outgoing: map<string, seq<string>>)
  {
    && (forall v :: v in incoming ==> incoming[v] == Blocking(edges, {}, v))
    && (forall v :: v in incoming ==> Targets(edges, v) == if v in outgoing then outgoing[v] else [])
  }

  lemma TallyOne(edges: seq<(string, string)>, e: (string, string), v: string)
    ensures Blocking(edges + [e], {}, v) == Blocking(edges, {}, v) + (if e.1 == v then 1 else 0)
    ensures Targets(edges + [e], v) == Targets(edges, v) + (if e.0 == v then [e.1] else [])
  {
    hide Blocking, Targets;
    var more := edges + [e];
    assert more[..|edges|] == edges && more[..|more|] == more;
    BlockingNext(more, |edges|, {}, v);
  }

  lemma TallyNext(
    edges: seq<(string, string)>, e: (string, string), incoming: map<string, nat>, outgoing: map<string, seq<string>>)
    requires Tallied(edges, incoming, outgoing) && e.1 in incoming
    ensures Tallied(edges + [e], incoming[e.1 := incoming[e.1] + 1],
                    outgoing[e.0 := (if e.0 in outgoing then outgoing[e.0] else []) + [e.1]])
  {
    hide Blocking, Targets;
    var incoming' := incoming[e.1 := incoming[e.1] + 1];
    var outgoing' := outgoing[e.0 := (if e.0 in outgoing then outgoing[e.0] else []) + [e.1]];
    forall v | v in incoming'
      ensures incoming'[v] == Blocking(edges + [e], {}, v)
      ensures Targets(edges + [e], v) == if v in outgoing' then outgoing'[v] else []
    {
      TallyOne(edges, e, v);
    }
  }

  lemma NothingTallied(d: Definition, nodes: map<string, nat>)
    requires forall v :: v in nodes ==> nodes[v] == 0
    ensures Tallied(Pairs(d.edges)[..0], nodes, map[]) && Seen(Pairs(d.edges)[..0], {}) && GoodEdges(d, 0)
  {
  }

  lemma EndpointsAt(d: Definition, nodes: map<string, nat>, k: nat)
    requires nodes.Keys == Elements(d.nodes) && k < |d.edges|
    ensures var (from, to) := Pairs(d.edges)[k];
            EndpointsOk(d, k) <==> from != to && from in nodes && to in nodes
  {
    assert Pairs(d.edges)[k] == (d.edges[k].from, d.edges[k].to);
  }

  /** Tally the edges, or report the first edge that is not allowed. */
  method CollectEdges(d: Definition, nodes: map<string, nat>)
    returns (verdict: Verdict, incoming: map<string, nat>, outgoing: map<string, seq<string>>)
    requires nodes.Keys == Elements(d.nodes) && forall v :: v in nodes ==> nodes[v] == 0
    ensures verdict.Valid? || verdict.BadEndpoint? || verdict.DuplicateEdge?
    ensures verdict.Valid? ==> GoodEdges(d, |d.edges|)
    ensures verdict.BadEndpoint? ==> exists k :: 0 <= k < |d.edges| && GoodEdges(d, k) && !EndpointsOk(d, k)
    ensures verdict.DuplicateEdge? ==>
              exists k :: 0 <= k < |d.edges| && GoodEdges(d, k) && EndpointsOk(d, k) && RepeatsPair(d, k)
    ensures incoming.Keys == nodes.Keys
    ensures verdict.Valid? ==> Tallied(Pairs(d.edges), incoming, outgoing)
  {
    hide Tallied, RepeatsPair, EndpointsOk, GoodEdges, Seen, Elements;
    var edges := Pairs(d.edges);
    var pairs: set<(string, string)> := {};
    verdict, incoming, outgoing := Valid, nodes, map[];
    NothingTallied(d, nodes);
    for k := 0 to |edges|
      invariant incoming.Keys == nodes.Keys && GoodEdges(d, k)
      invariant Seen(edges[..k], pairs)
      invariant Tallied(edges[..k], incoming, outgoing)
    {
      SeenBefore(d, k, pairs);
      EndpointsAt(d, nodes, k);
      var (from, to) := edges[k];
      if from == to || from !in incoming || to !in incoming {
        return BadEndpoint, incoming, outgoing;
      }
      if (from, to) in pairs {
        return DuplicateEdge, incoming, outgoing;
      }
      TallyNext(edges[..k], edges[k], incoming, outgoing);
      assert edges[..k + 1] == edges[..k] + [edges[k]];
      pairs := pairs + {(from, to)};
      incoming := incoming[to := incoming[to] + 1];
      outgoing := outgoing[from := (if from in outgoing then outgoing[from] else []) + [to]];
    }
    assert edges[..|edges|] == edges;
  }

  method Roots(nodes: seq<string>, incoming: map<string, nat>) returns (ready: seq<string>)
    requires Distinct(nodes) && incoming.Keys == Elements(nodes)
    ensures Distinct(ready) && forall v :: v in ready <==> v in incoming && incoming[v] == 0
  {
    ready := [];
    for k := 0 to |nodes|
      invariant Distinct(ready)
      invariant forall v :: v in ready <==> v in nodes[..k] && incoming[v] == 0
    {
      assert nodes[..k + 1] == nodes[..k] + [nodes[k]];
      if incoming[nodes[k]] == 0 {
        assert nodes[k] !in nodes[..k];
        ready := ready + [nodes[k]];
      }
    }
    assert nodes[..|nodes|] == nodes;
  }

  /** Bounds, unique names, and edges between different existing nodes, no two with the same endpoints. */
  ghost predicate Sound(d: Definition) {
    && 1 <= |d.nodes| <= 64 && |d.edges| <= 256
    && (d.description.Some? ==> |d.description.value| <= 500 && '\0' !in d.description.value)
    && (forall i, j :: 0 <= i < j < |d.nodes| ==> d.nodes[i] != d.nodes[j])
    && (forall i :: 0 <= i < |d.edges| ==>
          d.edges[i].from in d.nodes && d.edges[i].to in d.nodes && d.edges[i].from != d.edges[i].to)
    && (forall i, j :: 0 <= i < j < |d.edges| ==>
          d.edges[i].from != d.edges[j].from || d.edges[i].to != d.edges[j].to)
  }

  lemma SoundIsWellFormed(d: Definition)
    ensures Sound(d) <==> WellFormed(d)
  {
    if WellFormed(d) {
      forall i, j | 0 <= i < j < |d.edges|
        ensures d.edges[i].from != d.edges[j].from || d.edges[i].to != d.edges[j].to
      {
        assert EndpointsOk(d, j) && !RepeatsPair(d, j);
      }
      forall i | 0 <= i < |d.edges|
        ensures d.edges[i].from in d.nodes && d.edges[i].to in d.nodes && d.edges[i].from != d.edges[i].to
      {
        assert EndpointsOk(d, i);
      }
    }
  }

  /** A definition is accepted exactly when it is well formed and has no directed cycle. */
  method Validate(d: Definition) returns (verdict: Verdict)
    ensures verdict.BadSize? <==> !SizeOk(d)
    ensures verdict.BadDescription? <==> SizeOk(d) && !DescriptionOk(d)
    ensures verdict.DuplicateNode? <==> SizeOk(d) && DescriptionOk(d) && !Distinct(d.nodes)
    ensures verdict.BadSize? <==> |d.nodes| < 1 || 64 < |d.nodes| || 256 < |d.edges|
    ensures verdict.BadDescription? ==>
              d.description.Some? && (500 < |d.description.value| || '\0' in d.description.value)
    ensures verdict.Valid? ==> Sound(d)
    ensures Sound(d) ==> verdict.Valid? || verdict.Cyclic?
    ensures verdict.BadEndpoint? ==> exists k :: 0 <= k < |d.edges| && GoodEdges(d, k) && !EndpointsOk(d, k)
    ensures verdict.DuplicateEdge? ==>
              exists k :: 0 <= k < |d.edges| && GoodEdges(d, k) && EndpointsOk(d, k) && RepeatsPair(d, k)
    ensures verdict.Cyclic? <==> WellFormed(d) && !Acyclic(Pairs(d.edges))
    ensures verdict.Valid? <==> WellFormed(d) && Acyclic(Pairs(d.edges))
  {
    hide Acyclic, Topological, Blocking, Targets, Sound;
    SoundIsWellFormed(d);
    if |d.nodes| == 0 || |d.nodes| > 64 || |d.edges| > 256 {
      return BadSize;
    }
    if d.description.Some? && ('\0' in d.description.value || |d.description.value| > 500) {
      return BadDescription;
    }
    var unique, nodes := CollectNodes(d.nodes);
    if !unique {
      return DuplicateNode;
    }
    var problem, incoming, outgoing := CollectEdges(d, nodes);
    if problem != Valid {
      return problem;
    }
    var ready := Roots(d.nodes, incoming);
    ghost var edges := Pairs(d.edges);
    NothingDoneYet(edges, incoming, ready);
    forall e | e in edges ensures e.0 in incoming && e.1 in incoming {
      var i :| 0 <= i < |edges| && edges[i] == e;
      assert EndpointsOk(d, i);
    }
    var visited := Kahn(edges, incoming, outgoing, ready);
    OrderCoversAll(d.nodes, incoming.Keys);
    verdict := if visited != |d.nodes| then Cyclic else Valid;
  }

  lemma NothingDoneYet(edges: seq<(string, string)>, incoming: map<string, nat>, ready: seq<string>)
    requires Distinct(ready) && forall v :: v in ready <==> v in incoming && incoming[v] == 0
    requires forall v :: v in incoming ==> incoming[v] == Blocking(edges, {}, v)
    ensures KahnInv(edges, incoming.Keys, incoming, [], ready)
  {
    assert [] + ready == ready;
    assert Elements<string>([]) == {};
  }
}
