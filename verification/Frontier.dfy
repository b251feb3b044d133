/** Frontier analyses of a model graph: holes and boundary nodes. */
module Frontier {
  import opened Basics
  import opened Lint
  import opened Digraphs

  datatype HoleKind =
    | IsolatedNode | CapabilityNoProvider | CapabilityNoPolicy
    | PolicyGovernsNothing | ActorNoCapabilities | StructuralHole

  datatype Hole = Hole(kind: HoleKind, nodeId: string, nodeType: string)

  // --- what the holes mean, stated on the rows ---

  predicate PointedBy(edges: seq<GEdge>, typ: string, id: string) {
    exists e :: e in edges && e.typ == typ && e.to == id
  }
  predicate PointsAs(edges: seq<GEdge>, typ: string, id: string) {
    exists e :: e in edges && e.typ == typ && e.from == id
  }
  predicate Leaves(edges: seq<GEdge>, id: string) { exists e :: e in edges && e.from == id }

  function WhenHole(c: bool, kind: HoleKind, n: GNode): seq<Hole> { if c then [Hole(kind, n.id, n.typ)] else [] }

  function NodeHoles(edges: seq<GEdge>): GNode -> seq<Hole> {
    (n: GNode) =>
      if !Touched(edges, n.id) then [Hole(IsolatedNode, n.id, n.typ)]
      else
        WhenHole(n.typ == "capability" && !PointedBy(edges, "provides", n.id), CapabilityNoProvider, n)
        + WhenHole(n.typ == "capability" && !PointedBy(edges, "governs", n.id), CapabilityNoPolicy, n)
        + WhenHole(n.typ == "policy" && !PointsAs(edges, "governs", n.id), PolicyGovernsNothing, n)
        + WhenHole(n.typ == "actor" && !Leaves(edges, n.id), ActorNoCapabilities, n)
  }

  /** Some edge joins the node to another node. */
  predicate Bridges(edges: seq<GEdge>, v: string) {
    exists e :: e in edges && (e.from == v || e.to == v) && e.from != e.to
  }

  function TypeOf(nodes: seq<GNode>, id: string): string {
    if nodes == [] then ""
    else if nodes[|nodes| - 1].id == id then nodes[|nodes| - 1].typ
    else TypeOf(nodes[..|nodes| - 1], id)
  }

  function StructuralOf(nodes: seq<GNode>, edges: seq<GEdge>): seq<string> -> seq<Hole> {
    (scc: seq<string>) =>
      if |scc| == 1 && Bridges(edges, scc[0]) then [Hole(StructuralHole, scc[0], TypeOf(nodes, scc[0]))] else []
  }

  function HolesOf(nodes: seq<GNode>, edges: seq<GEdge>, sccs: seq<seq<string>>): seq<Hole> {
    Concat(nodes, NodeHoles(edges)) + Concat(sccs, StructuralOf(nodes, edges))
  }

  // --- detectHoles ---

  function ToId(id: string): GEdge -> bool { (e: GEdge) => e.to == id }
  function FromId(id: string): GEdge -> bool { (e: GEdge) => e.from == id }

  function At<T>(m: map<string, seq<T>>, k: string): seq<T> { if k in m then m[k] else [] }

  method IndexEdges(edges: seq<GEdge>) returns (toEdges: map<string, seq<GEdge>>, fromEdges: map<string, seq<GEdge>>)
    ensures forall id {:trigger At(toEdges, id)} :: At(toEdges, id) == Filter(edges, ToId(id))
    ensures forall id {:trigger At(fromEdges, id)} :: At(fromEdges, id) == Filter(edges, FromId(id))
  {
    toEdges, fromEdges := map[], map[];
    for i := 0 to |edges|
      invariant forall id {:trigger At(toEdges, id)} :: At(toEdges, id) == Filter(edges[..i], ToId(id))
      invariant forall id {:trigger At(fromEdges, id)} :: At(fromEdges, id) == Filter(edges[..i], FromId(id))
    {
      var e := edges[i];
      assert edges[..i + 1][..i] == edges[..i];
      ghost var to0, from0 := toEdges, fromEdges;
      toEdges := toEdges[e.to := At(toEdges, e.to) + [e]];
      fromEdges := fromEdges[e.from := At(fromEdges, e.from) + [e]];
      forall id
        ensures At(toEdges, id) == Filter(edges[..i + 1], ToId(id))
          && At(fromEdges, id) == Filter(edges[..i + 1], FromId(id))
      {
        assert At(to0, id) == Filter(edges[..i], ToId(id)) && At(from0, id) == Filter(edges[..i], FromId(id));
      }
    }
    assert edges[..|edges|] == edges;
  }

  method AnyOfType(es: seq<GEdge>, typ: string) returns (found: bool)
    ensures found <==> exists e :: e in es && e.typ == typ
  {
    found := false;
    for i := 0 to |es|
      invariant !found
      invariant forall j :: 0 <= j < i ==> es[j].typ != typ
    {
      if es[i].typ == typ {
        assert es[i] in es;
        found := true;
        break;
      }
    }
  }

  lemma FilteredType(edges: seq<GEdge>, id: string, typ: string)
    ensures (exists e :: e in Filter(edges, ToId(id)) && e.typ == typ) <==> PointedBy(edges, typ, id)
    ensures (exists e :: e in Filter(edges, FromId(id)) && e.typ == typ) <==> PointsAs(edges, typ, id)
  {
    FilterMembers(edges, ToId(id));
    FilterMembers(edges, FromId(id));
    if e :| e in edges && e.typ == typ && e.to == id { assert e in Filter(edges, ToId(id)); }
    if e :| e in edges && e.typ == typ && e.from == id { assert e in Filter(edges, FromId(id)); }
  }

  method HolesOfNode(n: GNode, edges: seq<GEdge>, g: Digraph, into: seq<GEdge>, outOf: seq<GEdge>)
      returns (holes: seq<Hole>)
    requires g.arcs == Arcs(edges)
    requires into == Filter(edges, ToId(n.id)) && outOf == Filter(edges, FromId(n.id))
    ensures holes == NodeHoles(edges)(n)
  {
    var inDeg, outDeg := |Preds(g.arcs, n.id)|, |Succs(g.arcs, n.id)|;
    DegreesFromRows(edges, n.id);
    if inDeg == 0 && outDeg == 0 {
      return [Hole(IsolatedNode, n.id, n.typ)];
    }
    holes := [];
    if n.typ == "capability" {
      FilteredType(edges, n.id, "provides");
      FilteredType(edges, n.id, "governs");
      var hasProvider := AnyOfType(into, "provides");
      if !hasProvider { holes := holes + [Hole(CapabilityNoProvider, n.id, n.typ)]; }
      var hasPolicy := AnyOfType(into, "governs");
      if !hasPolicy { holes := holes + [Hole(CapabilityNoPolicy, n.id, n.typ)]; }
    }
    if n.typ == "policy" {
      FilteredType(edges, n.id, "governs");
      var hasCap := AnyOfType(outOf, "governs");
      if !hasCap { holes := holes + [Hole(PolicyGovernsNothing, n.id, n.typ)]; }
    }
    if n.typ == "actor" && outDeg == 0 {
      holes := holes + [Hole(ActorNoCapabilities, n.id, n.typ)];
    }
  }

  /** Map the nodes of one component to its index. */
  method IndexComponent(before: map<string, int>, scc: seq<string>, c: int) returns (sccOf: map<string, int>)
    ensures forall v :: v in sccOf <==> v in before || v in scc
    ensures forall v :: v in sccOf ==> sccOf[v] == if v in scc then c else before[v]
  {
    sccOf := before;
    for i := 0 to |scc|
      invariant forall v :: v in sccOf <==> v in before || v in scc[..i]
      invariant forall v :: v in sccOf ==> sccOf[v] == if v in scc[..i] then c else before[v]
    {
      assert scc[..i + 1] == scc[..i] + [scc[i]];
      sccOf := sccOf[scc[i] := c];
    }
    assert scc[..|scc|] == scc;
  }

  method ComponentIndex(sccs: seq<seq<string>>, ghost vertices: set<string>, ghost arcs: set<(string, string)>)
      returns (sccOf: map<string, int>)
    requires AreComponents(sccs, vertices, arcs)
    ensures sccOf.Keys == vertices
    ensures forall v :: v in sccOf ==> InComponent(sccs, sccOf[v], v)
  {
    sccOf := map[];
    for c := 0 to |sccs|
      invariant forall v :: v in sccOf ==> sccOf[v] < c && InComponent(sccs, sccOf[v], v)
      invariant forall d, v :: d < c && InComponent(sccs, d, v) ==> v in sccOf
    {
      sccOf := IndexComponent(sccOf, sccs[c], c);
    }
    forall v ensures v in sccOf <==> v in vertices {
      if v in vertices {
        assert HasComponent(sccs, v);
        var c :| InComponent(sccs, c, v);
      }
    }
  }

  /** An edge leaves its component iff its ends are not mutually reachable. */
  lemma CrossesIff(sccs: seq<seq<string>>, vertices: set<string>, arcs: set<(string, string)>, sccOf: map<string, int>,
      u: string, v: string)
    requires AreComponents(sccs, vertices, arcs) && sccOf.Keys == vertices && u in vertices && v in vertices
    requires forall x :: x in sccOf ==> InComponent(sccs, sccOf[x], x)
    ensures sccOf[u] != sccOf[v] <==> !Mutual(arcs, u, v)
  {
    assert InComponent(sccs, sccOf[u], u) && InComponent(sccs, sccOf[v], v);
  }

  lemma OneElement(p: seq<string>, v: string)
    requires v in p
    ensures |p| == 1 <==> p == [v]
  {}

  /** The node of a one-element component is mutually reachable with no other node. */
  lemma SingletonIff(sccs: seq<seq<string>>, vertices: set<string>, arcs: set<(string, string)>, c: int, v: string)
    requires AreComponents(sccs, vertices, arcs) && InComponent(sccs, c, v)
    ensures |sccs[c]| == 1 <==> forall u :: u in vertices && u != v ==> !Mutual(arcs, u, v)
  {
    if |sccs[c]| == 1 {
      assert sccs[c] == [v];
      forall u | u in vertices && u != v ensures !Mutual(arcs, u, v) {
        assert HasComponent(sccs, u);
        var d :| InComponent(sccs, d, u);
      }
    } else {
      assert NoRepeats(sccs[c]);
      var i :| 0 <= i < |sccs[c]| && sccs[c][i] == v;
      var u := sccs[c][if i == 0 then 1 else 0];
      assert InComponent(sccs, c, u);
      assert u in vertices && u != v && Mutual(arcs, u, v);
    }
  }

  /** The edge joins v to another component. */
  predicate Crosses(e: GEdge, v: string, sccOf: map<string, int>)
    requires e.from in sccOf && e.to in sccOf
  {
    (e.from == v || e.to == v) && sccOf[e.from] != sccOf[e.to]
  }

  method InterEdges(edges: seq<GEdge>, sccOf: map<string, int>) returns (inter: set<string>)
    requires forall e :: e in edges ==> e.from in sccOf && e.to in sccOf
    ensures forall v :: v in inter <==> exists e :: e in edges && Crosses(e, v, sccOf)
  {
    inter := {};
    for i := 0 to |edges|
      invariant forall v :: v in inter <==> exists j :: 0 <= j < i && Crosses(edges[j], v, sccOf)
    {
      if sccOf[edges[i].from] != sccOf[edges[i].to] {
        inter := inter + {edges[i].from, edges[i].to};
      }
    }
    forall v ensures v in inter <==> exists e :: e in edges && Crosses(e, v, sccOf) {
      if j :| 0 <= j < |edges| && Crosses(edges[j], v, sccOf) {
        assert edges[j] in edges;
      }
    }
  }

  /** For a one-element component, crossing components and joining another node are the same. */
  lemma InterIsBridge(nodes: seq<GNode>, edges: seq<GEdge>, sccs: seq<seq<string>>, sccOf: map<string, int>, c: int,
      v: string)
    requires Closed(nodes, edges) && AreComponents(sccs, NodeIds(nodes), Arcs(edges)) && sccOf.Keys == NodeIds(nodes)
    requires forall x :: x in sccOf ==> InComponent(sccs, sccOf[x], x)
    requires InComponent(sccs, c, v) && |sccs[c]| == 1
    ensures (exists e :: e in edges && Crosses(e, v, sccOf)) <==> Bridges(edges, v)
  {
    SingletonIff(sccs, NodeIds(nodes), Arcs(edges), c, v);
    forall e | e in edges && (e.from == v || e.to == v) ensures sccOf[e.from] != sccOf[e.to] <==> e.from != e.to {
      CrossesIff(sccs, NodeIds(nodes), Arcs(edges), sccOf, e.from, e.to);
      MutualSelf(Arcs(edges), v);
    }
  }

  lemma {:induction false} TypeOfMember(nodes: seq<GNode>, i: nat)
    requires DistinctIds(nodes) && i < |nodes|
    ensures TypeOf(nodes, nodes[i].id) == nodes[i].typ
  {
    if i < |nodes| - 1 {
      TypeOfMember(nodes[..|nodes| - 1], i);
    }
  }

  method StructuralHoles(nodes: seq<GNode>, edges: seq<GEdge>, g: Digraph, sccs: seq<seq<string>>)
      returns (holes: seq<Hole>)
    requires DistinctIds(nodes) && Closed(nodes, edges) && g.Built(nodes, edges)
    requires AreComponents(sccs, NodeIds(nodes), Arcs(edges))
    ensures holes == Concat(sccs, StructuralOf(nodes, edges))
  {
    var sccOf := ComponentIndex(sccs, NodeIds(nodes), Arcs(edges));
    var inter := InterEdges(edges, sccOf);
    holes := [];
    for c := 0 to |sccs|
      invariant holes == Concat(sccs[..c], StructuralOf(nodes, edges))
    {
      ConcatNext(sccs, c, StructuralOf(nodes, edges));
      if |sccs[c]| == 1 {
        var v := sccs[c][0];
        assert InComponent(sccs, c, v);
        InterIsBridge(nodes, edges, sccs, sccOf, c, v);
        if v in inter {
          var n :| n in nodes && n.id == v;
          var i :| 0 <= i < |nodes| && nodes[i] == n;
          TypeOfMember(nodes, i);
          holes := holes + [Hole(StructuralHole, v, g.vertices[v].typ)];
        }
      }
    }
    assert sccs[..|sccs|] == sccs;
  }

  /** detectHoles on a built graph. */
  method DetectHoles(nodes: seq<GNode>, edges: seq<GEdge>, g: Digraph, sccs: seq<seq<string>>)
      returns (holes: seq<Hole>)
    requires DistinctIds(nodes) && Closed(nodes, edges) && g.Built(nodes, edges)
    requires AreComponents(sccs, NodeIds(nodes), Arcs(edges))
    ensures holes == HolesOf(nodes, edges, sccs)
  {
    var toEdges, fromEdges := IndexEdges(edges);
    holes := [];
    for i := 0 to |nodes|
      invariant holes == Concat(nodes[..i], NodeHoles(edges))
    {
      ConcatNext(nodes, i, NodeHoles(edges));
      var found := HolesOfNode(nodes[i], edges, g, At(toEdges, nodes[i].id), At(fromEdges, nodes[i].id));
      holes := holes + found;
    }
    assert nodes[..|nodes|] == nodes;
    var structural := StructuralHoles(nodes, edges, g, sccs);
    holes := holes + structural;
  }

  // --- what is reported, node by node ---

  /** Structural holes come from the component pass only. */
  lemma StructuralHoleSource(nodes: seq<GNode>, edges: seq<GEdge>, sccs: seq<seq<string>>, v: string)
    ensures Hole(StructuralHole, v, TypeOf(nodes, v)) in HolesOf(nodes, edges, sccs) <==>
      [v] in sccs && Bridges(edges, v)
  {
    var h := Hole(StructuralHole, v, TypeOf(nodes, v));
    ConcatMembers(nodes, NodeHoles(edges), h);
    ConcatMembers(sccs, StructuralOf(nodes, edges), h);
    forall n | n in nodes && h in NodeHoles(edges)(n) ensures false {
      NodeHoleFields(edges, n, h);
    }
    forall scc | scc in sccs ensures h in StructuralOf(nodes, edges)(scc) <==> scc == [v] && Bridges(edges, v) {}
  }

  /** A node that is mutually reachable with no other node. */
  ghost predicate Alone(nodes: seq<GNode>, edges: seq<GEdge>, v: string) {
    v in NodeIds(nodes) && forall u :: u in NodeIds(nodes) && u != v ==> !Mutual(Arcs(edges), u, v)
  }

  /** A node is reported as a structural hole iff it is joined to another node by an edge and is not
      mutually reachable with any other node. */
  lemma StructuralHoleIff(nodes: seq<GNode>, edges: seq<GEdge>, sccs: seq<seq<string>>, v: string)
    requires DistinctIds(nodes) && Closed(nodes, edges) && AreComponents(sccs, NodeIds(nodes), Arcs(edges))
    ensures Hole(StructuralHole, v, TypeOf(nodes, v)) in HolesOf(nodes, edges, sccs) <==>
      Alone(nodes, edges, v) && Bridges(edges, v)
  {
    StructuralHoleSource(nodes, edges, sccs, v);
    if [v] in sccs {
      var c :| 0 <= c < |sccs| && sccs[c] == [v];
      assert InComponent(sccs, c, v);
      SingletonIff(sccs, NodeIds(nodes), Arcs(edges), c, v);
    } else if v in NodeIds(nodes) {
      assert HasComponent(sccs, v);
      var c :| InComponent(sccs, c, v);
      SingletonIff(sccs, NodeIds(nodes), Arcs(edges), c, v);
      OneElement(sccs[c], v);
    }
  }

  /** When the only cycles are self-loops, exactly the nodes with an edge to or from another node are
      structural holes, whatever they bridge. */
  lemma AcyclicStructuralHoles(nodes: seq<GNode>, edges: seq<GEdge>, sccs: seq<seq<string>>, v: string)
    requires DistinctIds(nodes) && Closed(nodes, edges) && AreComponents(sccs, NodeIds(nodes), Arcs(edges))
    requires forall u, w :: u in NodeIds(nodes) && w in NodeIds(nodes) && Mutual(Arcs(edges), u, w) ==> u == w
    ensures Hole(StructuralHole, v, TypeOf(nodes, v)) in HolesOf(nodes, edges, sccs) <==> Bridges(edges, v)
  {
    StructuralHoleIff(nodes, edges, sccs, v);
  }

  // --- structural holes as the comment in the code describes them ---

  /** An edge of another component ends (starts) at v. */
  ghost predicate EnteredFromOutside(edges: seq<GEdge>, v: string) {
    exists e :: e in edges && e.to == v && !Mutual(Arcs(edges), e.from, v)
  }

  ghost predicate LeftToOutside(edges: seq<GEdge>, v: string) {
    exists e :: e in edges && e.from == v && !Mutual(Arcs(edges), e.to, v)
  }

  /** A component of one node with both incoming and outgoing edges of other components. */
  ghost predicate Described(nodes: seq<GNode>, edges: seq<GEdge>, v: string) {
    Alone(nodes, edges, v) && EnteredFromOutside(edges, v) && LeftToOutside(edges, v)
  }

  /** An edge from (to) another node. */
  predicate HasIncoming(edges: seq<GEdge>, v: string) { exists e :: e in edges && e.to == v && e.from != v }
  predicate HasOutgoing(edges: seq<GEdge>, v: string) { exists e :: e in edges && e.from == v && e.to != v }

  lemma DescribedIff(nodes: seq<GNode>, edges: seq<GEdge>, v: string)
    requires Closed(nodes, edges)
    ensures Described(nodes, edges, v) <==> Alone(nodes, edges, v) && HasIncoming(edges, v) && HasOutgoing(edges, v)
    ensures Bridges(edges, v) <==> HasIncoming(edges, v) || HasOutgoing(edges, v)
  {
    MutualSelf(Arcs(edges), v);
  }

  ghost predicate Reported(nodes: seq<GNode>, edges: seq<GEdge>, sccs: seq<seq<string>>, v: string) {
    Hole(StructuralHole, v, TypeOf(nodes, v)) in HolesOf(nodes, edges, sccs)
  }

  /** Every described node is reported; a reported one is not described exactly when its edges to other
      nodes all point the same way. */
  lemma ReportedVersusDescribed(nodes: seq<GNode>, edges: seq<GEdge>, sccs: seq<seq<string>>, v: string)
    requires DistinctIds(nodes) && Closed(nodes, edges) && AreComponents(sccs, NodeIds(nodes), Arcs(edges))
    ensures Described(nodes, edges, v) ==> Reported(nodes, edges, sccs, v)
    ensures (Reported(nodes, edges, sccs, v) <==> Described(nodes, edges, v)) <==>
      (Alone(nodes, edges, v) && Bridges(edges, v) ==> HasIncoming(edges, v) && HasOutgoing(edges, v))
  {
    StructuralHoleIff(nodes, edges, sccs, v);
    DescribedIff(nodes, edges, v);
  }

  /** Report and description agree on a graph iff every node that is joined to another one and lies on
      no cycle with one has edges from and to other nodes. */
  lemma DescriptionFitsIff(nodes: seq<GNode>, edges: seq<GEdge>, sccs: seq<seq<string>>)
    requires DistinctIds(nodes) && Closed(nodes, edges) && AreComponents(sccs, NodeIds(nodes), Arcs(edges))
    ensures (forall v :: Reported(nodes, edges, sccs, v) <==> Described(nodes, edges, v)) <==>
      forall v {:trigger Alone(nodes, edges, v)} ::
        Alone(nodes, edges, v) && Bridges(edges, v) ==> HasIncoming(edges, v) && HasOutgoing(edges, v)
  {
    forall v
      ensures (Reported(nodes, edges, sccs, v) <==> Described(nodes, edges, v)) <==>
        (Alone(nodes, edges, v) && Bridges(edges, v) ==> HasIncoming(edges, v) && HasOutgoing(edges, v))
    {
      ReportedVersusDescribed(nodes, edges, sccs, v);
    }
  }

  const TWO_NODES: seq<GNode> := [GNode("a", "actor"), GNode("b", "capability")]
  const ONE_EDGE: seq<GEdge> := [GEdge("a", "b", "provides", "edge")]

  lemma FirstStep(arcs: set<(string, string)>, p: seq<string>)
    requires Walk(arcs, p)
    ensures |p| == 1 || (p[0], p[1]) in arcs
  {}

  lemma OneWay()
    ensures Arcs(ONE_EDGE) == {("a", "b")} && NodeIds(TWO_NODES) == {"a", "b"}
    ensures !Reaches(Arcs(ONE_EDGE), "b", "a")
  {
    assert ONE_EDGE[0] in ONE_EDGE && TWO_NODES[0] in TWO_NODES && TWO_NODES[1] in TWO_NODES;
    assert Arcs(ONE_EDGE) == {("a", "b")};
    forall p | Walk(Arcs(ONE_EDGE), p) && p[0] == "b" ensures p[|p| - 1] != "a" {
      FirstStep(Arcs(ONE_EDGE), p);
    }
  }

  lemma EndOfOneEdge(v: string)
    requires v == "a" || v == "b"
    ensures Alone(TWO_NODES, ONE_EDGE, v) && Bridges(ONE_EDGE, v)
      && !(HasIncoming(ONE_EDGE, v) && HasOutgoing(ONE_EDGE, v))
  {
    OneWay();
    assert ONE_EDGE[0] in ONE_EDGE;
  }

  lemma TwoNodesFit()
    ensures DistinctIds(TWO_NODES) && Closed(TWO_NODES, ONE_EDGE)
  {
    OneWay();
  }

  /** The graph a -> b: its components are the two nodes, both are reported and neither is described. */
  lemma EndsAreReported(sccs: seq<seq<string>>, v: string)
    requires AreComponents(sccs, NodeIds(TWO_NODES), Arcs(ONE_EDGE)) && (v == "a" || v == "b")
    ensures Reported(TWO_NODES, ONE_EDGE, sccs, v) && !Described(TWO_NODES, ONE_EDGE, v)
  {
    TwoNodesFit();
    EndOfOneEdge(v);
    StructuralHoleIff(TWO_NODES, ONE_EDGE, sccs, v);
    DescribedIff(TWO_NODES, ONE_EDGE, v);
  }

  lemma EndsAreComponents()
    ensures AreComponents([["a"], ["b"]], NodeIds(TWO_NODES), Arcs(ONE_EDGE))
  {
    OneWay();
    var sccs := [["a"], ["b"]];
    assert InComponent(sccs, 0, "a") && InComponent(sccs, 1, "b");
    forall c, d, u, v | InComponent(sccs, c, u) && InComponent(sccs, d, v)
      ensures c == d <==> Mutual(Arcs(ONE_EDGE), u, v)
    {
      MutualSelf(Arcs(ONE_EDGE), u);
    }
  }

  lemma NodeHoleFields(edges: seq<GEdge>, n: GNode, h: Hole)
    requires h in NodeHoles(edges)(n)
    ensures n == GNode(h.nodeId, h.nodeType) && h.kind != StructuralHole
  {}

  /** Every other hole of a node comes from the node pass at that node. */
  lemma NodeHoleSource(nodes: seq<GNode>, edges: seq<GEdge>, sccs: seq<seq<string>>, n: GNode, kind: HoleKind)
    requires n in nodes && kind != StructuralHole
    ensures Hole(kind, n.id, n.typ) in HolesOf(nodes, edges, sccs) <==> Hole(kind, n.id, n.typ) in NodeHoles(edges)(n)
  {
    var h := Hole(kind, n.id, n.typ);
    ConcatMembers(nodes, NodeHoles(edges), h);
    ConcatMembers(sccs, StructuralOf(nodes, edges), h);
    forall scc | scc in sccs ensures h !in StructuralOf(nodes, edges)(scc) {}
    forall m | m in nodes && h in NodeHoles(edges)(m) ensures m == n {
      NodeHoleFields(edges, m, h);
    }
  }

  /** What is reported for a node, other than structural holes. */
  lemma NodeHoleIff(nodes: seq<GNode>, edges: seq<GEdge>, sccs: seq<seq<string>>, n: GNode, kind: HoleKind)
    requires n in nodes && kind != StructuralHole
    ensures Hole(kind, n.id, n.typ) in HolesOf(nodes, edges, sccs) <==>
      var isolated := forall e :: e in edges ==> e.from != n.id && e.to != n.id;
      match kind
      case IsolatedNode => isolated
      case CapabilityNoProvider =>
        !isolated && n.typ == "capability" && forall e :: e in edges && e.to == n.id ==> e.typ != "provides"
      case CapabilityNoPolicy =>
        !isolated && n.typ == "capability" && forall e :: e in edges && e.to == n.id ==> e.typ != "governs"
      case PolicyGovernsNothing =>
        !isolated && n.typ == "policy" && forall e :: e in edges && e.from == n.id ==> e.typ != "governs"
      case ActorNoCapabilities => !isolated && n.typ == "actor" && forall e :: e in edges ==> e.from != n.id
      case StructuralHole => true
  {
    NodeHoleSource(nodes, edges, sccs, n, kind);
  }

  // --- boundary ---

  datatype BoundaryKind = Leaf | Source | Sink
  datatype BoundaryNode = BoundaryNode(nodeId: string, nodeType: string, inDegree: nat, outDegree: nat,
      kind: BoundaryKind)

  /** A node is on the boundary iff its degrees add up to at most one. */
  function BoundaryOf(edges: seq<GEdge>): GNode -> seq<BoundaryNode> {
    (n: GNode) =>
      var ps, ss := Preds(Arcs(edges), n.id), Succs(Arcs(edges), n.id);
      if |ps| + |ss| > 1 then []
      else [BoundaryNode(n.id, n.typ, |ps|, |ss|, if |ss| == 1 then Source else if |ps| == 1 then Sink else Leaf)]
  }

  method Boundary(nodes: seq<GNode>, ghost edges: seq<GEdge>, g: Digraph) returns (boundary: seq<BoundaryNode>)
    requires g.Built(nodes, edges)
    ensures boundary == Concat(nodes, BoundaryOf(edges))
  {
    boundary := [];
    for i := 0 to |nodes|
      invariant boundary == Concat(nodes[..i], BoundaryOf(edges))
    {
      ConcatNext(nodes, i, BoundaryOf(edges));
      var n := nodes[i];
      var inDeg, outDeg := |Preds(g.arcs, n.id)|, |Succs(g.arcs, n.id)|;
      if inDeg + outDeg > 1 {
        continue;
      }
      var kind := Leaf;
      if inDeg == 0 && outDeg == 1 {
        kind := Source;
      } else if inDeg == 1 && outDeg == 0 {
        kind := Sink;
      }
      boundary := boundary + [BoundaryNode(n.id, n.typ, inDeg, outDeg, kind)];
    }
    assert nodes[..|nodes|] == nodes;
  }

  lemma EntryKind(edges: seq<GEdge>, n: GNode)
    ensures
      var ins, outs, entry := |Preds(Arcs(edges), n.id)|, |Succs(Arcs(edges), n.id)|, BoundaryOf(edges)(n);
      if ins == 0 && outs == 0 then entry == [BoundaryNode(n.id, n.typ, 0, 0, Leaf)]
      else if ins == 0 && outs == 1 then entry == [BoundaryNode(n.id, n.typ, 0, 1, Source)]
      else if ins == 1 && outs == 0 then entry == [BoundaryNode(n.id, n.typ, 1, 0, Sink)]
      else entry == []
  {}

  /** The rows that leave (enter) the node all go to (come from) u, and there are some. */
  ghost predicate OnlySucc(edges: seq<GEdge>, v: string, u: string) {
    (exists e :: e in edges && e.from == v) && forall e :: e in edges && e.from == v ==> e.to == u
  }

  ghost predicate OnlyPred(edges: seq<GEdge>, v: string, u: string) {
    (exists e :: e in edges && e.to == v) && forall e :: e in edges && e.to == v ==> e.from == u
  }

  lemma Singleton(s: set<string>, u: string)
    requires u in s
    ensures |s| == 1 <==> forall x :: x in s ==> x == u
  {
    assert |s - {u}| == |s| - 1;
    if forall x :: x in s ==> x == u {
      assert s == {u};
    } else if |s| == 1 {
      assert s - {u} == {};
    }
  }

  lemma OneSucc(edges: seq<GEdge>, v: string)
    ensures |Succs(Arcs(edges), v)| == 0 <==> forall e :: e in edges ==> e.from != v
    ensures |Succs(Arcs(edges), v)| == 1 <==> exists u :: OnlySucc(edges, v, u)
  {
    DegreesFromRows(edges, v);
    var ss := Succs(Arcs(edges), v);
    if e :| e in edges && e.from == v {
      assert e.to in ss;
      Singleton(ss, e.to);
      if forall x :: x in ss ==> x == e.to {
        forall f | f in edges && f.from == v ensures f.to == e.to { assert f.to in ss; }
        assert OnlySucc(edges, v, e.to);
      }
      if u :| OnlySucc(edges, v, u) {
        assert u == e.to;
      }
    }
  }

  lemma OnePred(edges: seq<GEdge>, v: string)
    ensures |Preds(Arcs(edges), v)| == 0 <==> forall e :: e in edges ==> e.to != v
    ensures |Preds(Arcs(edges), v)| == 1 <==> exists u :: OnlyPred(edges, v, u)
  {
    DegreesFromRows(edges, v);
    var ps := Preds(Arcs(edges), v);
    if e :| e in edges && e.to == v {
      assert e.from in ps;
      Singleton(ps, e.from);
      if forall x :: x in ps ==> x == e.from {
        forall f | f in edges && f.to == v ensures f.from == e.from { assert f.from in ps; }
        assert OnlyPred(edges, v, e.from);
      }
      if u :| OnlyPred(edges, v, u) {
        assert u == e.from;
      }
    } else {
      assert ps == {};
    }
  }

  /** A node is on the boundary iff all its rows join it to one and the same other node, all in one
      direction: none is a leaf, outgoing ones make it a source, incoming ones a sink. */
  lemma BoundaryIff(nodes: seq<GNode>, edges: seq<GEdge>, n: GNode, kind: BoundaryKind)
    requires n in nodes
    ensures
      (exists b :: b in Concat(nodes, BoundaryOf(edges)) && b.nodeId == n.id && b.nodeType == n.typ
        && b.kind == kind) <==>
      match kind
      case Leaf => forall e :: e in edges ==> e.from != n.id && e.to != n.id
      case Source => (forall e :: e in edges ==> e.to != n.id) && exists u :: OnlySucc(edges, n.id, u)
      case Sink => (forall e :: e in edges ==> e.from != n.id) && exists u :: OnlyPred(edges, n.id, u)
  {
    OneSucc(edges, n.id);
    OnePred(edges, n.id);
    EntryKind(edges, n);
    var entry := BoundaryOf(edges)(n);
    forall b | b in Concat(nodes, BoundaryOf(edges)) && b.nodeId == n.id && b.nodeType == n.typ ensures b in entry {
      ConcatMembers(nodes, BoundaryOf(edges), b);
    }
    if entry != [] {
      ConcatMembers(nodes, BoundaryOf(edges), entry[0]);
      assert entry[0] in entry;
    }
  }

  /** The "leaf" entries, described as degree one, are exactly the isolated nodes of the hole report. */
  lemma LeavesAreIsolated(nodes: seq<GNode>, edges: seq<GEdge>, sccs: seq<seq<string>>, n: GNode)
    requires n in nodes
    ensures BoundaryNode(n.id, n.typ, 0, 0, Leaf) in Concat(nodes, BoundaryOf(edges))
       <==> Hole(IsolatedNode, n.id, n.typ) in HolesOf(nodes, edges, sccs)
    ensures forall b :: b in Concat(nodes, BoundaryOf(edges)) && b.kind == Leaf ==> b.inDegree == 0 && b.outDegree == 0
  {
    NodeHoleIff(nodes, edges, sccs, n, IsolatedNode);
    DegreesFromRows(edges, n.id);
    var leaf := BoundaryNode(n.id, n.typ, 0, 0, Leaf);
    ConcatMembers(nodes, BoundaryOf(edges), leaf);
    if leaf in Concat(nodes, BoundaryOf(edges)) {
      var m :| m in nodes && leaf in BoundaryOf(edges)(m);
    }
    if !Touched(edges, n.id) {
      assert leaf in BoundaryOf(edges)(n);
    }
    forall b | b in Concat(nodes, BoundaryOf(edges)) && b.kind == Leaf ensures b.inDegree == 0 && b.outDegree == 0 {
      ConcatMembers(nodes, BoundaryOf(edges), b);
      var m :| m in nodes && b in BoundaryOf(edges)(m);
    }
  }
}
