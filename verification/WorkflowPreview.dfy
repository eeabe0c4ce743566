/** The browser's preview and the server's validation see the same cycles. */
module WorkflowPreview {
  import opened Graphs
  import opened WorkflowValidate
  import opened WorkflowLayout

  function IndexOf(nodes: seq<string>, name: string): (i: nat)
    ensures i <= |nodes|
    ensures i < |nodes| ==> nodes[i] == name
    ensures name in nodes ==> i < |nodes|
  {
    if nodes == [] then 0
    else if nodes[0] == name then 0
    else 1 + IndexOf(nodes[1..], name)
  }

  /** The editor's edges: positions of the named endpoints. */
  function IndexEdges(d: Definition): (r: seq<(nat, nat)>)
    ensures |r| == |d.edges|
    ensures forall i :: 0 <= i < |r| ==>
              r[i] == (IndexOf(d.nodes, d.edges[i].from), IndexOf(d.nodes, d.edges[i].to))
  {
    seq(|d.edges|, i requires 0 <= i < |d.edges| =>
      (IndexOf(d.nodes, d.edges[i].from), IndexOf(d.nodes, d.edges[i].to)))
  }

  /** A map that sends edges to edges sends cycles to cycles. */
  lemma CycleImage<N(!new), M(!new)>(edges: seq<(N, N)>, image: seq<(M, M)>, f: N -> M, c: seq<N>)
    requires Cycle(edges, c) && forall e :: e in edges ==> (f(e.0), f(e.1)) in image
    ensures Cycle(image, seq(|c|, i requires 0 <= i < |c| => f(c[i])))
  {
    var d := seq(|c|, i requires 0 <= i < |c| => f(c[i]));
    forall i | 0 <= i < |d| - 1 ensures (d[i], d[i + 1]) in image {
      assert (c[i], c[i + 1]) in edges;
    }
  }

  lemma AcyclicPullsBack<N(!new), M(!new)>(edges: seq<(N, N)>, image: seq<(M, M)>, f: N -> M)
    requires Acyclic(image) && forall e :: e in edges ==> (f(e.0), f(e.1)) in image
    ensures Acyclic(edges)
  {
    hide Cycle;
    forall c | Cycle(edges, c) ensures false {
      CycleImage(edges, image, f, c);
    }
  }

  /** Every named edge has its indexed image, and every indexed edge comes from a named one. */
  lemma SameEdges(d: Definition)
    requires WellFormed(d)
    ensures forall e :: e in Pairs(d.edges) ==>
              (IndexOf(d.nodes, e.0), IndexOf(d.nodes, e.1)) in InRange(|d.nodes|, IndexEdges(d))
    ensures forall e :: e in InRange(|d.nodes|, IndexEdges(d)) ==>
              (NameAt(d.nodes, e.0), NameAt(d.nodes, e.1)) in Pairs(d.edges)
  {
    hide InRange, WellFormed;
    forall e | e in Pairs(d.edges)
      ensures (IndexOf(d.nodes, e.0), IndexOf(d.nodes, e.1)) in InRange(|d.nodes|, IndexEdges(d))
    {
      NamedIsIndexed(d, e);
    }
    forall e | e in InRange(|d.nodes|, IndexEdges(d))
      ensures (NameAt(d.nodes, e.0), NameAt(d.nodes, e.1)) in Pairs(d.edges)
    {
      IndexedIsNamed(d, e);
    }
  }

  lemma NamedIsIndexed(d: Definition, e: (string, string))
    requires WellFormed(d) && e in Pairs(d.edges)
    ensures (IndexOf(d.nodes, e.0), IndexOf(d.nodes, e.1)) in InRange(|d.nodes|, IndexEdges(d))
  {
    hide InRange;
    InRangeKeeps(|d.nodes|, IndexEdges(d));
    var i :| 0 <= i < |d.edges| && Pairs(d.edges)[i] == e;
    assert EndpointsOk(d, i);
    assert IndexEdges(d)[i] == (IndexOf(d.nodes, e.0), IndexOf(d.nodes, e.1));
  }

  lemma IndexedIsNamed(d: Definition, e: (nat, nat))
    requires WellFormed(d) && e in InRange(|d.nodes|, IndexEdges(d))
    ensures (NameAt(d.nodes, e.0), NameAt(d.nodes, e.1)) in Pairs(d.edges)
  {
    hide InRange, WellFormed;
    InRangeKeeps(|d.nodes|, IndexEdges(d));
    var i :| 0 <= i < |d.edges| && IndexEdges(d)[i] == e;
    assert Pairs(d.edges)[i] == (NameAt(d.nodes, e.0), NameAt(d.nodes, e.1));
  }

  function NameAt(nodes: seq<string>, i: nat): string {
    if i < |nodes| then nodes[i] else ""
  }

  /** On a well-formed definition the preview is unresolved exactly when validation reports a cycle. */
  lemma SameCycles(d: Definition)
    requires WellFormed(d)
    ensures Acyclic(Pairs(d.edges)) <==> Acyclic(InRange(|d.nodes|, IndexEdges(d)))
  {
    hide InRange, Acyclic, WellFormed, Pairs, IndexEdges, IndexOf;
    var named, indexed := Pairs(d.edges), InRange(|d.nodes|, IndexEdges(d));
    SameEdges(d);
    if Acyclic(indexed) {
      AcyclicPullsBack(named, indexed, (name: string) => IndexOf(d.nodes, name));
    }
    if Acyclic(named) {
      AcyclicPullsBack(indexed, named, (i: nat) => NameAt(d.nodes, i));
    }
  }

  /** The same statement about what the two programs report. */
  method PreviewAgrees(d: Definition) returns (verdict: Verdict, g: GraphLayout)
    ensures verdict.Valid? ==> !g.unresolved
    ensures verdict.Cyclic? ==> g.unresolved
    ensures WellFormed(d) ==> (g.unresolved <==> verdict.Cyclic?)
  {
    hide Acyclic;
    verdict := Validate(d);
    g := LayeredLayout(|d.nodes|, IndexEdges(d));
    if WellFormed(d) {
      SameCycles(d);
    }
  }
}
