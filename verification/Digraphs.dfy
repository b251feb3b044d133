/** The graph library by contract, and the graph the analyses build from a snapshot. */
module Digraphs {
  import opened Basics

  datatype GNode = GNode(id: string, typ: string)
  datatype GEdge = GEdge(from: string, to: string, typ: string, domain: string)

  function NodeIds(nodes: seq<GNode>): set<string> { set n | n in nodes :: n.id }
  function Arcs(edges: seq<GEdge>): set<(string, string)> { set e | e in edges :: (e.from, e.to) }

  ghost predicate DistinctIds(nodes: seq<GNode>) {
    forall i, j :: 0 <= i < j < |nodes| ==> nodes[i].id != nodes[j].id
  }

  /** Every edge joins two of the nodes. */
  ghost predicate Closed(nodes: seq<GNode>, edges: seq<GEdge>) {
    forall e :: e in edges ==> e.from in NodeIds(nodes) && e.to in NodeIds(nodes)
  }

  /** A directed graph: adding a known vertex, an edge with an unknown end or a known edge fails. */
  class Digraph {
    var vertices: map<string, GNode>
    var arcs: set<(string, string)>

    constructor ()
      ensures vertices == map[] && arcs == {}
    {
      vertices, arcs := map[], {};
    }

    method AddVertex(n: GNode) returns (ok: bool)
      modifies this
      ensures ok <==> n.id !in old(vertices)
      ensures vertices == (if ok then old(vertices)[n.id := n] else old(vertices)) && arcs == old(arcs)
    {
      ok := n.id !in vertices;
      if ok { vertices := vertices[n.id := n]; }
    }

    method AddEdge(from: string, to: string) returns (r: Result<bool>)
      modifies this
      ensures vertices == old(vertices)
      ensures r.Err? <==> from !in vertices || to !in vertices
      ensures r == Ok(true) <==> from in vertices && to in vertices && (from, to) !in old(arcs)
      ensures arcs == if r.Ok? then old(arcs) + {(from, to)} else old(arcs)
    {
      if from !in vertices || to !in vertices { return Err(VertexNotFound); }
      if (from, to) in arcs { return Ok(false); }
      arcs := arcs + {(from, to)};
      r := Ok(true);
    }

    /** The graph holds exactly these nodes and the distinct pairs of these edges. */
    ghost predicate Built(nodes: seq<GNode>, edges: seq<GEdge>)
      reads this
    {
      && vertices.Keys == NodeIds(nodes) && arcs == Arcs(edges)
      && (forall n :: n in nodes ==> n.id in vertices && vertices[n.id] == n)
    }
  }

  lemma IdsSnoc(nodes: seq<GNode>, n: GNode)
    ensures NodeIds(nodes + [n]) == NodeIds(nodes) + {n.id}
  {
    forall id ensures id in NodeIds(nodes + [n]) <==> id in NodeIds(nodes) + {n.id} {
      if id in NodeIds(nodes) {
        var x :| x in nodes && x.id == id;
        assert x in nodes + [n];
      }
      assert n in nodes + [n];
    }
  }

  lemma ArcsSnoc(edges: seq<GEdge>, e: GEdge)
    ensures Arcs(edges + [e]) == Arcs(edges) + {(e.from, e.to)}
  {
    forall a ensures a in Arcs(edges + [e]) <==> a in Arcs(edges) + {(e.from, e.to)} {
      if a in Arcs(edges) {
        var x :| x in edges && (x.from, x.to) == a;
        assert x in edges + [e];
      }
      assert e in edges + [e];
    }
  }

  /** The nodes are the vertices so far. */
  ghost predicate Indexed(vertices: map<string, GNode>, nodes: seq<GNode>) {
    vertices.Keys == NodeIds(nodes) && forall n :: n in nodes ==> n.id in vertices && vertices[n.id] == n
  }

  lemma IndexedSnoc(vertices: map<string, GNode>, nodes: seq<GNode>, n: GNode)
    requires Indexed(vertices, nodes) && DistinctIds(nodes)
    ensures n.id in vertices <==> !DistinctIds(nodes + [n])
    ensures n.id !in vertices ==> Indexed(vertices[n.id := n], nodes + [n])
  {
    var all := nodes + [n];
    if n.id in vertices {
      var m :| m in nodes && m.id == n.id;
      var j :| 0 <= j < |nodes| && nodes[j] == m;
      assert all[j].id == all[|nodes|].id;
    } else {
      IdsSnoc(nodes, n);
      forall j | 0 <= j < |nodes| ensures nodes[j].id != n.id {
        assert nodes[j] in nodes;
      }
    }
  }

  lemma DistinctPrefix(nodes: seq<GNode>, k: nat)
    requires k <= |nodes| && !DistinctIds(nodes[..k])
    ensures !DistinctIds(nodes)
  {}

  method AddNodes(g: Digraph, nodes: seq<GNode>) returns (ok: bool)
    requires g.vertices == map[] && g.arcs == {}
    modifies g
    ensures ok <==> DistinctIds(nodes)
    ensures ok ==> g.Built(nodes, [])
  {
    for i := 0 to |nodes|
      invariant Indexed(g.vertices, nodes[..i]) && g.arcs == {}
      invariant DistinctIds(nodes[..i])
    {
      assert nodes[..i + 1] == nodes[..i] + [nodes[i]];
      IndexedSnoc(g.vertices, nodes[..i], nodes[i]);
      ok := g.AddVertex(nodes[i]);
      if !ok {
        DistinctPrefix(nodes, i + 1);
        return;
      }
    }
    assert nodes[..|nodes|] == nodes;
    ok := true;
  }

  /** Building succeeds iff the ids are distinct and every edge end is a node; duplicate edges and
      their order do not matter. */
  method BuildGraph(nodes: seq<GNode>, edges: seq<GEdge>) returns (r: Result<Digraph>)
    ensures r.Ok? <==> DistinctIds(nodes) && Closed(nodes, edges)
    ensures r.Ok? ==> fresh(r.value) && r.value.Built(nodes, edges)
    ensures r.Err? ==> r.error == if DistinctIds(nodes) then VertexNotFound else VertexExists
  {
    var g := new Digraph();
    var ok := AddNodes(g, nodes);
    if !ok { return Err(VertexExists); }
    for i := 0 to |edges|
      invariant g.Built(nodes, edges[..i])
      invariant Closed(nodes, edges[..i])
    {
      assert edges[..i + 1] == edges[..i] + [edges[i]];
      ArcsSnoc(edges[..i], edges[i]);
      var added := g.AddEdge(edges[i].from, edges[i].to);
      if added.Err? {
        assert edges[i] in edges;
        return Err(VertexNotFound);
      }
    }
    assert edges[..|edges|] == edges;
    r := Ok(g);
  }

  // --- degrees ---

  function Preds(arcs: set<(string, string)>, v: string): set<string> { set a | a in arcs && a.1 == v :: a.0 }
  function Succs(arcs: set<(string, string)>, v: string): set<string> { set a | a in arcs && a.0 == v :: a.1 }

  /** Some edge row touches the node. */
  predicate Touched(edges: seq<GEdge>, id: string) { exists e :: e in edges && (e.from == id || e.to == id) }

  /** The in- and out-degrees of the built graph count the distinct predecessors and successors, so
      repeated and reordered rows do not change them; both are zero iff no row touches the node. */
  lemma DegreesFromRows(edges: seq<GEdge>, v: string)
    ensures forall u :: u in Preds(Arcs(edges), v) <==> exists e :: e in edges && e.from == u && e.to == v
    ensures forall u :: u in Succs(Arcs(edges), v) <==> exists e :: e in edges && e.from == v && e.to == u
    ensures |Preds(Arcs(edges), v)| == 0 && |Succs(Arcs(edges), v)| == 0 <==> !Touched(edges, v)
    ensures |Succs(Arcs(edges), v)| == 0 <==> !exists e :: e in edges && e.from == v
  {
    var ps, ss := Preds(Arcs(edges), v), Succs(Arcs(edges), v);
    forall u ensures u in ps <==> exists e :: e in edges && e.from == u && e.to == v {
      assert (u, v) in Arcs(edges) <==> exists e :: e in edges && e.from == u && e.to == v;
      assert (u, v) in Arcs(edges) <==> u in ps;
    }
    forall u ensures u in ss <==> exists e :: e in edges && e.from == v && e.to == u {
      assert (v, u) in Arcs(edges) <==> exists e :: e in edges && e.from == v && e.to == u;
      assert (v, u) in Arcs(edges) <==> u in ss;
    }
    if e :| e in edges && e.from == v {
      assert e.to in ss;
    }
    if e :| e in edges && e.to == v {
      assert e.from in ps;
    }
    if |ss| != 0 {
      var u :| u in ss;
    }
    if |ps| != 0 {
      var u :| u in ps;
    }
  }

  function SumIn(nodes: seq<GNode>, arcs: set<(string, string)>): nat {
    if nodes == [] then 0 else SumIn(nodes[..|nodes| - 1], arcs) + |Preds(arcs, nodes[|nodes| - 1].id)|
  }

  function SumOut(nodes: seq<GNode>, arcs: set<(string, string)>): nat {
    if nodes == [] then 0 else SumOut(nodes[..|nodes| - 1], arcs) + |Succs(arcs, nodes[|nodes| - 1].id)|
  }

  ghost function Into(arcs: set<(string, string)>, vs: set<string>): set<(string, string)> {
    set a | a in arcs && a.1 in vs
  }
  ghost function OutOfSet(arcs: set<(string, string)>, vs: set<string>): set<(string, string)> {
    set a | a in arcs && a.0 in vs
  }

  lemma {:induction false} PairUp(us: set<string>, v: string)
    ensures |set u | u in us :: (u, v)| == |us| && |set u | u in us :: (v, u)| == |us|
  {
    if us != {} {
      var x :| x in us;
      PairUp(us - {x}, v);
      assert (set u | u in us :: (u, v)) == (set u | u in us - {x} :: (u, v)) + {(x, v)};
      assert (set u | u in us :: (v, u)) == (set u | u in us - {x} :: (v, u)) + {(v, x)};
    }
  }

  /** The arcs into one more vertex. */
  lemma OneMoreIn(arcs: set<(string, string)>, vs: set<string>, v: string)
    requires v !in vs
    ensures |Into(arcs, vs + {v})| == |Into(arcs, vs)| + |Preds(arcs, v)|
  {
    var ins := set u | u in Preds(arcs, v) :: (u, v);
    PairUp(Preds(arcs, v), v);
    forall a ensures a in Into(arcs, vs + {v}) <==> a in Into(arcs, vs) + ins {
      if a in arcs && a.1 == v { assert a.0 in Preds(arcs, v); }
    }
    assert Into(arcs, vs + {v}) == Into(arcs, vs) + ins && Into(arcs, vs) !! ins;
  }

  /** The arcs out of one more vertex. */
  lemma OneMoreOut(arcs: set<(string, string)>, vs: set<string>, v: string)
    requires v !in vs
    ensures |OutOfSet(arcs, vs + {v})| == |OutOfSet(arcs, vs)| + |Succs(arcs, v)|
  {
    var outs := set u | u in Succs(arcs, v) :: (v, u);
    PairUp(Succs(arcs, v), v);
    forall a ensures a in OutOfSet(arcs, vs + {v}) <==> a in OutOfSet(arcs, vs) + outs {
      if a in arcs && a.0 == v { assert a.1 in Succs(arcs, v); }
    }
    assert OutOfSet(arcs, vs + {v}) == OutOfSet(arcs, vs) + outs && OutOfSet(arcs, vs) !! outs;
  }

  lemma NewId(nodes: seq<GNode>, k: nat)
    requires DistinctIds(nodes) && k < |nodes|
    ensures nodes[k].id !in NodeIds(nodes[..k]) && DistinctIds(nodes[..k])
  {}

  lemma {:induction false} SumsCountArcs(nodes: seq<GNode>, arcs: set<(string, string)>)
    requires DistinctIds(nodes)
    ensures SumIn(nodes, arcs) == |Into(arcs, NodeIds(nodes))|
      && SumOut(nodes, arcs) == |OutOfSet(arcs, NodeIds(nodes))|
  {
    if nodes == [] {
      assert Into(arcs, {}) == {} && OutOfSet(arcs, {}) == {};
      assert NodeIds(nodes) == {};
    } else {
      var k := |nodes| - 1;
      NewId(nodes, k);
      SumsCountArcs(nodes[..k], arcs);
      OneMoreIn(arcs, NodeIds(nodes[..k]), nodes[k].id);
      OneMoreOut(arcs, NodeIds(nodes[..k]), nodes[k].id);
      IdsSnoc(nodes[..k], nodes[k]);
      assert nodes == nodes[..k] + [nodes[k]];
    }
  }

  /** Handshake: over all nodes the in-degrees and the out-degrees both add up to the number of
      distinct edges. */
  lemma DegreeSums(nodes: seq<GNode>, edges: seq<GEdge>)
    requires DistinctIds(nodes) && Closed(nodes, edges)
    ensures SumIn(nodes, Arcs(edges)) == SumOut(nodes, Arcs(edges)) == |Arcs(edges)|
  {
    SumsCountArcs(nodes, Arcs(edges));
    assert Into(Arcs(edges), NodeIds(nodes)) == Arcs(edges);
    assert OutOfSet(Arcs(edges), NodeIds(nodes)) == Arcs(edges);
  }

  // --- reachability and components ---

  ghost predicate Walk(arcs: set<(string, string)>, p: seq<string>) {
    |p| > 0 && forall i :: 0 <= i < |p| - 1 ==> (p[i], p[i + 1]) in arcs
  }

  ghost predicate Reaches(arcs: set<(string, string)>, u: string, v: string) {
    exists p :: Walk(arcs, p) && p[0] == u && p[|p| - 1] == v
  }

  ghost predicate Mutual(arcs: set<(string, string)>, u: string, v: string) {
    Reaches(arcs, u, v) && Reaches(arcs, v, u)
  }

  lemma MutualSelf(arcs: set<(string, string)>, v: string)
    ensures Mutual(arcs, v, v)
  {
    assert Walk(arcs, [v]);
  }

  ghost predicate InComponent(sccs: seq<seq<string>>, c: int, v: string) { 0 <= c < |sccs| && v in sccs[c] }

  ghost predicate HasComponent(sccs: seq<seq<string>>, v: string) { exists c :: InComponent(sccs, c, v) }

  ghost predicate NoRepeats(p: seq<string>) { forall i, j :: 0 <= i < j < |p| ==> p[i] != p[j] }

  /** What StronglyConnectedComponents returns: the vertices split by mutual reachability. */
  ghost predicate AreComponents(sccs: seq<seq<string>>, vertices: set<string>, arcs: set<(string, string)>) {
    && (forall c :: 0 <= c < |sccs| ==> NoRepeats(sccs[c]))
    && (forall c, v :: InComponent(sccs, c, v) ==> v in vertices)
    && (forall v {:trigger HasComponent(sccs, v)} :: v in vertices ==> HasComponent(sccs, v))
    && (forall c, d, u, v :: InComponent(sccs, c, u) && InComponent(sccs, d, v) ==> (c == d <==> Mutual(arcs, u, v)))
  }
}
