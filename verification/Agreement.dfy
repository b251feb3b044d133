/** The linter, the frontier and the waypoint analysis of one stored snapshot agree. */
module Agreement {
  import opened Basics
  import opened Ordering
  import opened VersionedLog
  import opened Schema
  import opened Bundles
  import opened BundleLaws
  import opened RoundTrip
  import opened Lint
  import opened Digraphs
  import opened Frontier
  import opened Waypoint

  // --- the selections of the analyses ---

  function ToGNode(r: Row<Stored<NodeBody>>): GNode { GNode(Column(r.key, 1), r.val.body.typ) }
  function ToGEdge(r: Row<Stored<EdgeBody>>): GEdge {
    GEdge(Column(r.key, 1), Column(r.key, 2), Column(r.key, 4), Column(r.key, 3))
  }
  function ToNodeProperty(r: Row<Stored<PropertyBody>>): NodeProperty {
    NodeProperty(Column(r.key, 2), Column(r.key, 3), r.val.body)
  }

  function LoadNodes(db: Db, t: string, pin: Pin): seq<GNode> { Map(Query(db.nodes, AtPin(t, pin)), ToGNode) }
  function LoadEdges(db: Db, t: string, pin: Pin): seq<GEdge> { Map(Query(db.edges, AtPin(t, pin)), ToGEdge) }

  /** WHERE ... AND owner_type = 'node' */
  function NodeOwned(t: string, pin: Pin): Row<Stored<PropertyBody>> -> bool {
    (r: Row<Stored<PropertyBody>>) => Tenant(r.key) == t && r.val.pin == pin && Column(r.key, 1) == "node"
  }

  function LoadProperties(db: Db, t: string, pin: Pin): seq<NodeProperty> {
    Map(Query(db.props, NodeOwned(t, pin)), ToNodeProperty)
  }

  /** The pin all analyses and the export of a tenant read. */
  function EnabledPin(db: Db, t: string): Pin
    requires LatestEnabled(db.models, t).Some?
  {
    PinOf(LatestEnabled(db.models, t).value)
  }

  // --- the same rows, seen twice ---

  ghost predicate SameNodes(gs: seq<GNode>, ns: seq<BundleNode>) {
    |gs| == |ns| && forall i :: 0 <= i < |gs| ==> gs[i] == GNode(ns[i].id, ns[i].typ)
  }

  ghost predicate SameEdges(gs: seq<GEdge>, es: seq<BundleEdge>) {
    |gs| == |es| && forall i :: 0 <= i < |gs| ==> gs[i] == GEdge(es[i].from, es[i].to, es[i].typ, es[i].domain)
  }

  lemma SnapshotSeenTwice(db: Db, t: string, pin: Pin)
    ensures SameNodes(LoadNodes(db, t, pin), Map(Query(db.nodes, AtPin(t, pin)), ToNode))
    ensures SameEdges(LoadEdges(db, t, pin), Map(Query(db.edges, AtPin(t, pin)), ToEdge))
  {}

  lemma SameIds(gs: seq<GNode>, ns: seq<BundleNode>, id: string)
    requires SameNodes(gs, ns)
    ensures id in NodeIds(gs) <==> HasId(ns, id)
  {
    if id in NodeIds(gs) {
      var g :| g in gs && g.id == id;
      var i :| 0 <= i < |gs| && gs[i] == g;
      assert ns[i] in ns;
    }
    if HasId(ns, id) {
      var n :| n in ns && n.id == id;
      var i :| 0 <= i < |ns| && ns[i] == n;
      assert gs[i] in gs;
    }
  }

  lemma SamePointed(gs: seq<GEdge>, es: seq<BundleEdge>, typ: string, id: string)
    requires SameEdges(gs, es)
    ensures PointedBy(gs, typ, id) <==> Pointed(es, typ, id)
  {
    if PointedBy(gs, typ, id) {
      var g :| g in gs && g.typ == typ && g.to == id;
      var i :| 0 <= i < |gs| && gs[i] == g;
      assert es[i] in es;
    }
    if Pointed(es, typ, id) {
      var e :| e in es && e.typ == typ && e.to == id;
      var i :| 0 <= i < |es| && es[i] == e;
      assert gs[i] in gs;
    }
  }

  lemma SortedIsDistinct(gs: seq<GNode>, ns: seq<BundleNode>)
    requires SameNodes(gs, ns) && Sorted(ns, NodeKey)
    ensures DistinctIds(gs)
  {
    forall i, j | 0 <= i < j < |gs| ensures gs[i].id != gs[j].id {
      assert KeyLess(NodeKey(ns[i]), NodeKey(ns[j]));
      KeyTrichotomy(NodeKey(ns[i]), NodeKey(ns[i]));
    }
  }

  lemma ClosedIffNoDangling(gs: seq<GNode>, hs: seq<GEdge>, b: Bundle)
    requires SameNodes(gs, b.nodes) && SameEdges(hs, b.edges)
    requires forall e :: e in b.edges ==> EdgeWellFormed(e)
    ensures Closed(gs, hs) <==> !exists e :: e in b.edges && DanglingEdge(b, e)
  {
    if Closed(gs, hs) {
      forall e | e in b.edges ensures !DanglingEdge(b, e) {
        var i :| 0 <= i < |b.edges| && b.edges[i] == e;
        assert hs[i] in hs;
        SameIds(gs, b.nodes, e.from);
        SameIds(gs, b.nodes, e.to);
      }
    }
    if !exists e :: e in b.edges && DanglingEdge(b, e) {
      forall h | h in hs ensures h.from in NodeIds(gs) && h.to in NodeIds(gs) {
        var i :| 0 <= i < |hs| && hs[i] == h;
        assert b.edges[i] in b.edges && !DanglingEdge(b, b.edges[i]);
        SameIds(gs, b.nodes, h.from);
        SameIds(gs, b.nodes, h.to);
      }
    }
  }

  // --- agreement ---

  /** For every enabled snapshot, building the analysis graph succeeds iff linting the export finds
      no BAD_REF. */
  lemma BuildIffNoBadRef(db: Db, name: string, withContracts: bool)
    requires ValidDb(db) && ExportOf(db, name, withContracts).Ok?
    ensures
      var t := db.tenants[name];
      var gs, hs := LoadNodes(db, t, EnabledPin(db, t)), LoadEdges(db, t, EnabledPin(db, t));
      var e := ExportOf(db, name, withContracts).value;
      DistinctIds(gs) && Closed(gs, hs) <==> !exists i :: i in Issues(e, EnabledModel) && IsBadRef(i)
  {
    var t := db.tenants[name];
    var pin := EnabledPin(db, t);
    var e := ExportOf(db, name, withContracts).value;
    SnapshotSeenTwice(db, t, pin);
    ExportedNodesComplete(db, t, pin);
    ExportedEdgesComplete(db, t, pin);
    SortedIsDistinct(LoadNodes(db, t, pin), e.nodes);
    ClosedIffNoDangling(LoadNodes(db, t, pin), LoadEdges(db, t, pin), e);
    BadRefIff(e, EnabledModel);
  }

  lemma NoRowsIffNotPointed(edges: seq<GEdge>, id: string)
    ensures ProviderRows(edges, id) == 0 <==> !PointedBy(edges, "provides", id)
  {
    FilterMembers(edges, ProvidesTo(id));
    if PointedBy(edges, "provides", id) {
      var e :| e in edges && e.typ == "provides" && e.to == id;
      assert e in Filter(edges, ProvidesTo(id));
    } else {
      FilterNone(edges, ProvidesTo(id));
    }
  }

  lemma PointedIsTouched(edges: seq<GEdge>, typ: string, id: string)
    ensures PointedBy(edges, typ, id) ==> Touched(edges, id)
  {}

  /** The three analyses agree on every capability of every enabled snapshot. */
  lemma AnalysesAgree(db: Db, name: string, withContracts: bool, sccs: seq<seq<string>>, n: GNode)
    requires ValidDb(db) && ExportOf(db, name, withContracts).Ok?
    requires n in LoadNodes(db, db.tenants[name], EnabledPin(db, db.tenants[name])) && n.typ == "capability"
    ensures
      var t := db.tenants[name];
      var pin := EnabledPin(db, t);
      var gs, hs, ps := LoadNodes(db, t, pin), LoadEdges(db, t, pin), LoadProperties(db, t, pin);
      var issues := Issues(ExportOf(db, name, withContracts).value, EnabledModel);
      var holes, gaps := HolesOf(gs, hs, sccs), Concat(gs, GapsOf(hs, ps));
      && (CapNoProvider(n.id) in issues <==>
            Hole(CapabilityNoProvider, n.id, n.typ) in holes || Hole(IsolatedNode, n.id, n.typ) in holes)
      && (CapNoProvider(n.id) in issues <==> Gap(NoProvider, n.id, n.typ, 0) in gaps)
      && (CapNoPolicy(n.id) in issues <==>
            Hole(CapabilityNoPolicy, n.id, n.typ) in holes || Hole(IsolatedNode, n.id, n.typ) in holes)
  {
    var t := db.tenants[name];
    var pin := EnabledPin(db, t);
    var gs, hs := LoadNodes(db, t, pin), LoadEdges(db, t, pin);
    var e := ExportOf(db, name, withContracts).value;
    SnapshotSeenTwice(db, t, pin);
    ExportedNodesComplete(db, t, pin);
    var i :| 0 <= i < |gs| && gs[i] == n;
    assert e.nodes[i] in e.nodes;
    CapabilityIssueIff(e, e.nodes[i]);
    SamePointed(hs, e.edges, "provides", n.id);
    SamePointed(hs, e.edges, "governs", n.id);
    NoRowsIffNotPointed(hs, n.id);
    PointedIsTouched(hs, "provides", n.id);
    PointedIsTouched(hs, "governs", n.id);
    NodeHoleIff(gs, hs, sccs, n, IsolatedNode);
    NodeHoleIff(gs, hs, sccs, n, CapabilityNoProvider);
    NodeHoleIff(gs, hs, sccs, n, CapabilityNoPolicy);
    GapIff(gs, hs, LoadProperties(db, t, pin), n);
  }
}
