/** The lint as a gate for imports: when a bundle that passes it leaves an export that passes it. */
module LintGate {
  import opened Basics
  import opened Ordering
  import opened VersionedLog
  import opened Schema
  import opened Bundles
  import opened BundleLaws
  import opened RoundTrip
  import opened Lint
  import opened Digraphs
  import opened Frontier
  import opened Waypoint
  import opened Agreement

  // --- which nodes an import keeps ---

  /** No later node carries the id of node i, given or generated. */
  ghost predicate Kept(ns: seq<BundleNode>, ids: nat -> FreshId, i: int) {
    0 <= i < |ns| && forall j :: i < j < |ns| ==> ns[j].id != FirstNonEmpty(ns[i].id, ids(i))
  }

  ghost predicate KeepsType(ns: seq<BundleNode>, ids: nat -> FreshId, typ: string) {
    exists i :: Kept(ns, ids, i) && ns[i].typ == typ
  }

  /** A capability without an id is kept. */
  ghost predicate KeepsNameless(ns: seq<BundleNode>, ids: nat -> FreshId) {
    exists i :: Kept(ns, ids, i) && ns[i].typ == "capability" && ns[i].id == ""
  }

  /** Generated ids differ from all ids before them. */
  ghost predicate FreshInOrder(ns: seq<BundleNode>, ids: nat -> FreshId) {
    forall i, j :: 0 <= j < i < |ns| && ns[i].id == "" ==> FirstNonEmpty(ns[j].id, ids(j)) != ids(i)
  }

  lemma ImportedIsFresh(db: Db, b: Bundle, opts: Options, ids: Ids)
    requires ValidDb(db) && ImportOf(db, b, opts, ids).result.Ok?
    ensures FreshInOrder(b.nodes, ids.node)
  {
    ImportSucceedsIff(db, b, opts, ids);
    var t, given := TargetTenant(db, b, opts, ids), NodeIdsOf(b.nodes);
    forall i, j | 0 <= j < i < |b.nodes| && b.nodes[i].id == ""
      ensures FirstNonEmpty(b.nodes[j].id, ids.node(j)) != ids.node(i)
    {
      assert IdFree(db.nodes, t, given, ids.node, i);
      assert given[i] == b.nodes[i].id && given[j] == b.nodes[j].id;
    }
  }

  lemma LastIsKept(ns: seq<BundleNode>, ids: nat -> FreshId, i: int)
    requires FreshInOrder(ns, ids)
    ensures LastAt(FilledNodes(ns, ids), i, NodeKey) <==> Kept(ns, ids, i)
  {
    var ws := FilledNodes(ns, ids);
    if 0 <= i < |ns| {
      forall j | i < j < |ns|
        ensures NodeKey(ws[j]) != NodeKey(ws[i]) <==> ns[j].id != FirstNonEmpty(ns[i].id, ids(i))
      {
        assert NodeKey(ws[j])[0] == FirstNonEmpty(ns[j].id, ids(j))
          && NodeKey(ws[i])[0] == FirstNonEmpty(ns[i].id, ids(i));
      }
    }
  }

  /** The canonical nodes are exactly the kept ones, completed. */
  lemma CanonicalIsKept(xs: seq<BundleNode>, ns: seq<BundleNode>, ids: nat -> FreshId, x: BundleNode)
    requires Canonical(xs, FilledNodes(ns, ids), NodeKey) && FreshInOrder(ns, ids)
    ensures x in xs <==> exists i :: Kept(ns, ids, i) && x == FilledNode(ns[i], ids(i))
  {
    var ws := FilledNodes(ns, ids);
    if x in xs {
      assert LastWrite(ws, x, NodeKey);
      var i :| LastAt(ws, i, NodeKey) && ws[i] == x;
      LastIsKept(ns, ids, i);
    }
    if i :| Kept(ns, ids, i) && x == FilledNode(ns[i], ids(i)) {
      LastIsKept(ns, ids, i);
      assert ws[i] in ws && HasKey(xs, NodeKey(ws[i]), NodeKey);
      var y :| y in xs && NodeKey(y) == NodeKey(ws[i]);
      assert LastWrite(ws, y, NodeKey);
      var j :| LastAt(ws, j, NodeKey) && ws[j] == y;
      assert i == j;
    }
  }

  /** A type of node is exported iff some node of it is kept. */
  lemma SurvivorsOfType(xs: seq<BundleNode>, ns: seq<BundleNode>, ids: nat -> FreshId, typ: string)
    requires Canonical(xs, FilledNodes(ns, ids), NodeKey) && FreshInOrder(ns, ids)
    ensures HasNodeOfType(xs, typ) <==> KeepsType(ns, ids, typ)
  {
    if HasNodeOfType(xs, typ) {
      var x :| x in xs && x.typ == typ;
      CanonicalIsKept(xs, ns, ids, x);
    }
    if KeepsType(ns, ids, typ) {
      var i :| Kept(ns, ids, i) && ns[i].typ == typ;
      CanonicalIsKept(xs, ns, ids, FilledNode(ns[i], ids(i)));
    }
  }

  /** No written id is lost. */
  lemma IdsCarryOver(xs: seq<BundleNode>, ns: seq<BundleNode>, ids: nat -> FreshId, id: string)
    requires Canonical(xs, FilledNodes(ns, ids), NodeKey) && id != "" && HasId(ns, id)
    ensures HasId(xs, id)
  {
    var ws := FilledNodes(ns, ids);
    var n :| n in ns && n.id == id;
    var i :| 0 <= i < |ns| && ns[i] == n;
    assert ws[i] in ws && HasKey(xs, NodeKey(ws[i]), NodeKey);
    var x :| x in xs && NodeKey(x) == NodeKey(ws[i]);
    assert ws[i] == FilledNode(n, ids(i));
    assert NodeKey(x)[0] == x.id && NodeKey(ws[i])[0] == id;
  }

  /** The canonical form of the edges keeps ends and types, in both directions. */
  lemma CanonicalEdges(xs: seq<BundleEdge>, es: seq<BundleEdge>)
    requires Canonical(xs, Map(es, FilledEdge), EdgeKey)
    ensures forall x :: x in xs ==> exists e :: e in es && x == FilledEdge(e)
    ensures forall typ, id :: Pointed(es, typ, id) ==> Pointed(xs, typ, id)
  {
    var ws := Map(es, FilledEdge);
    forall x | x in xs ensures exists e :: e in es && x == FilledEdge(e) {
      assert LastWrite(ws, x, EdgeKey);
      var i :| LastAt(ws, i, EdgeKey) && ws[i] == x;
      assert es[i] in es;
    }
    forall typ, id | Pointed(es, typ, id) ensures Pointed(xs, typ, id) {
      var e :| e in es && e.typ == typ && e.to == id;
      var i :| 0 <= i < |es| && es[i] == e;
      assert ws[i] in ws && HasKey(xs, EdgeKey(ws[i]), EdgeKey);
      var x :| x in xs && EdgeKey(x) == EdgeKey(ws[i]);
      assert EdgeKey(x)[1] == x.to && EdgeKey(x)[3] == x.typ;
      assert EdgeKey(ws[i])[1] == e.to && EdgeKey(ws[i])[3] == e.typ;
    }
  }

  lemma OmitKeepsFields(b: Blob, name: string)
    ensures Field(Omit(b), name) == Field(b, name)
  {}

  lemma CapabilityCarriesOver(b: Bundle, e: Bundle, n: BundleNode)
    requires CapabilityClean(b, n) && n.id != ""
    requires forall typ, id :: Pointed(b.edges, typ, id) ==> Pointed(e.edges, typ, id)
    ensures CapabilityClean(e, FilledNode(n, ""))
  {
    OmitKeepsFields(n.blob, "ref");
    OmitKeepsFields(n.blob, "job");
  }

  // --- the export of a clean bundle ---

  /** e shows what an import of b stores. */
  ghost predicate Shows(e: Bundle, b: Bundle, ids: nat -> FreshId) {
    && Canonical(e.nodes, FilledNodes(b.nodes, ids), NodeKey) && Canonical(e.edges, Map(b.edges, FilledEdge), EdgeKey)
    && (forall n :: n in b.types ==> n in e.types) && FreshInOrder(b.nodes, ids)
  }

  lemma ImportShows(db: Db, b: Bundle, opts: Options, ids: Ids)
    requires ValidDb(db) && ImportStatus(b, opts) == "enabled" && ImportOf(db, b, opts, ids).result.Ok?
    ensures var exported := ExportOf(ImportOf(db, b, opts, ids).db, ImportTenant(b, opts), opts.withContracts);
      exported.Ok? && Shows(exported.value, b, ids.node)
  {
    ImportThenExport(db, b, opts, ids);
    ImportThenExportNames(db, b, opts, ids);
    ImportedIsFresh(db, b, opts, ids);
  }

  /** Edges of a clean bundle do not come to dangle. */
  lemma NoEdgeDangles(b: Bundle, e: Bundle, ids: nat -> FreshId)
    requires Shows(e, b, ids) && forall y :: y in b.edges ==> !DanglingEdge(b, y)
    ensures forall x :: x in e.edges ==> !DanglingEdge(e, x)
  {
    CanonicalEdges(e.edges, b.edges);
    forall x | x in e.edges ensures !DanglingEdge(e, x) {
      var y :| y in b.edges && x == FilledEdge(y);
      if x.from != "" { IdsCarryOver(e.nodes, b.nodes, ids, x.from); }
      if x.to != "" { IdsCarryOver(e.nodes, b.nodes, ids, x.to); }
    }
  }

  /** No node of the bundle is written with the id generated for a kept node. */
  lemma GeneratedIdIsUnknown(ns: seq<BundleNode>, ids: nat -> FreshId, i: nat)
    requires FreshInOrder(ns, ids) && Kept(ns, ids, i) && ns[i].id == ""
    ensures !HasId(ns, ids(i))
  {
    forall j | 0 <= j < |ns| ensures ns[j].id != ids(i) {
      if j < i { assert FirstNonEmpty(ns[j].id, ids(j)) != ids(i); }
    }
  }

  /** Nothing points to a kept node without an id: no edge of the bundle can name it. */
  lemma NamelessIsUnpointed(b: Bundle, e: Bundle, ids: nat -> FreshId, i: nat, typ: string)
    requires Shows(e, b, ids) && (forall y :: y in b.edges ==> !DanglingEdge(b, y))
    requires Kept(b.nodes, ids, i) && b.nodes[i].id == ""
    ensures !Pointed(e.edges, typ, ids(i))
  {
    CanonicalEdges(e.edges, b.edges);
    GeneratedIdIsUnknown(b.nodes, ids, i);
    forall x | x in e.edges ensures x.to != ids(i) {
      var y :| y in b.edges && x == FilledEdge(y);
      assert y.to == "" || HasId(b.nodes, y.to);
    }
  }

  /** An exported capability meets the rules iff it had an id in the bundle. */
  lemma KeptCapability(b: Bundle, e: Bundle, ids: nat -> FreshId, i: int)
    requires Clean(b) && Shows(e, b, ids) && Kept(b.nodes, ids, i) && b.nodes[i].typ == "capability"
    ensures CapabilityClean(e, FilledNode(b.nodes[i], ids(i))) <==> b.nodes[i].id != ""
    ensures b.nodes[i].id == "" ==> !Pointed(e.edges, "provides", ids(i))
  {
    var n := b.nodes[i];
    assert n in b.nodes;
    if n.id == "" {
      NamelessIsUnpointed(b, e, ids, i, "provides");
    } else {
      CanonicalEdges(e.edges, b.edges);
      CapabilityCarriesOver(b, e, n);
      assert FilledNode(n, ids(i)) == FilledNode(n, "");
    }
  }

  lemma CapabilitiesCleanIff(b: Bundle, e: Bundle, ids: nat -> FreshId)
    requires Clean(b) && Shows(e, b, ids)
    ensures (forall x :: x in e.nodes ==> CapabilityClean(e, x)) <==> !KeepsNameless(b.nodes, ids)
  {
    if KeepsNameless(b.nodes, ids) {
      var i :| Kept(b.nodes, ids, i) && b.nodes[i].typ == "capability" && b.nodes[i].id == "";
      KeptCapability(b, e, ids, i);
      CanonicalIsKept(e.nodes, b.nodes, ids, FilledNode(b.nodes[i], ids(i)));
    } else {
      forall x | x in e.nodes ensures CapabilityClean(e, x) {
        CanonicalIsKept(e.nodes, b.nodes, ids, x);
        var i :| Kept(b.nodes, ids, i) && x == FilledNode(b.nodes[i], ids(i));
        if x.typ == "capability" { KeptCapability(b, e, ids, i); }
      }
    }
  }

  /** What a clean bundle needs for its export to be clean: an actor, a policy and a capability are
      kept, and no capability without an id is. */
  ghost predicate GateHolds(ns: seq<BundleNode>, ids: nat -> FreshId) {
    && KeepsType(ns, ids, "actor") && KeepsType(ns, ids, "policy") && KeepsType(ns, ids, "capability")
    && !KeepsNameless(ns, ids)
  }

  lemma ShownIsCleanIff(b: Bundle, e: Bundle, ids: nat -> FreshId)
    requires Clean(b) && Shows(e, b, ids)
    ensures Clean(e) <==> GateHolds(b.nodes, ids)
  {
    SurvivorsOfType(e.nodes, b.nodes, ids, "actor");
    SurvivorsOfType(e.nodes, b.nodes, ids, "policy");
    SurvivorsOfType(e.nodes, b.nodes, ids, "capability");
    NoEdgeDangles(b, e, ids);
    CapabilitiesCleanIff(b, e, ids);
    forall n | n in RequiredTypes(EnabledModel) ensures HasType(e, n.domain, n.name) {
      assert HasType(b, n.domain, n.name);
    }
  }

  /** The gate, exactly: when a bundle passes the enabled-model lint and its enabled import succeeds, the
      export passes the lint iff an actor, a policy and a capability are kept and no capability without
      an id is. */
  lemma LintGateIff(db: Db, b: Bundle, opts: Options, ids: Ids)
    requires ValidDb(db) && ImportStatus(b, opts) == "enabled" && ImportOf(db, b, opts, ids).result.Ok?
    requires Issues(b, EnabledModel) == []
    ensures
      var exported := ExportOf(ImportOf(db, b, opts, ids).db, ImportTenant(b, opts), opts.withContracts);
      exported.Ok? && (Issues(exported.value, EnabledModel) == [] <==> GateHolds(b.nodes, ids.node))
  {
    ImportShows(db, b, opts, ids);
    var e := ExportOf(ImportOf(db, b, opts, ids).db, ImportTenant(b, opts), opts.withContracts).value;
    CleanIff(b);
    CleanIff(e);
    ShownIsCleanIff(b, e, ids.node);
  }

  // --- what the analyses then find ---

  /** Neither analysis finds the capability isolated, unprovided or ungoverned. */
  ghost predicate Served(db: Db, t: string, pin: Pin, sccs: seq<seq<string>>, n: GNode) {
    var gs, hs, ps := LoadNodes(db, t, pin), LoadEdges(db, t, pin), LoadProperties(db, t, pin);
    && Hole(IsolatedNode, n.id, n.typ) !in HolesOf(gs, hs, sccs)
    && Hole(CapabilityNoProvider, n.id, n.typ) !in HolesOf(gs, hs, sccs)
    && Hole(CapabilityNoPolicy, n.id, n.typ) !in HolesOf(gs, hs, sccs)
    && Gap(NoProvider, n.id, n.typ, 0) !in Concat(gs, GapsOf(hs, ps))
  }

  /** A capability of an enabled snapshot is served iff edges of both kinds point to it. */
  lemma ServedIff(db: Db, name: string, withContracts: bool, sccs: seq<seq<string>>, n: GNode)
    requires ValidDb(db) && ExportOf(db, name, withContracts).Ok?
    requires n in LoadNodes(db, db.tenants[name], EnabledPin(db, db.tenants[name])) && n.typ == "capability"
    ensures
      var t, e := db.tenants[name], ExportOf(db, name, withContracts).value;
      Served(db, t, EnabledPin(db, t), sccs, n) <==>
        Pointed(e.edges, "provides", n.id) && Pointed(e.edges, "governs", n.id)
  {
    var t, e := db.tenants[name], ExportOf(db, name, withContracts).value;
    var pin := EnabledPin(db, t);
    AnalysesAgree(db, name, withContracts, sccs, n);
    SnapshotSeenTwice(db, t, pin);
    ExportedNodesComplete(db, t, pin);
    var gs := LoadNodes(db, t, pin);
    var i :| 0 <= i < |gs| && gs[i] == n;
    assert e.nodes[i] in e.nodes;
    CapabilityIssueIff(e, e.nodes[i]);
  }

  /** Lint is a sound gate. When a bundle passes the enabled-model lint and its enabled import succeeds,
      the analysis graph can be built, and every capability is served in both analyses iff no
      capability without an id is kept. */
  lemma LintIsSoundGate(db: Db, b: Bundle, opts: Options, ids: Ids, sccs: seq<seq<string>>)
    requires ValidDb(db) && ImportStatus(b, opts) == "enabled" && ImportOf(db, b, opts, ids).result.Ok?
    requires Issues(b, EnabledModel) == []
    ensures
      var db2, name := ImportOf(db, b, opts, ids).db, ImportTenant(b, opts);
      && ExportOf(db2, name, opts.withContracts).Ok?
      && var t := db2.tenants[name];
      var pin := EnabledPin(db2, t);
      && DistinctIds(LoadNodes(db2, t, pin)) && Closed(LoadNodes(db2, t, pin), LoadEdges(db2, t, pin))
      && ((forall n :: n in LoadNodes(db2, t, pin) && n.typ == "capability" ==> Served(db2, t, pin, sccs, n))
          <==> !KeepsNameless(b.nodes, ids.node))
  {
    var db2, name := ImportOf(db, b, opts, ids).db, ImportTenant(b, opts);
    ImportThenExport(db, b, opts, ids);
    ImportShows(db, b, opts, ids);
    var e := ExportOf(db2, name, opts.withContracts).value;
    CleanIff(b);
    NoEdgeDangles(b, e, ids.node);
    BadRefIff(e, EnabledModel);
    BuildIffNoBadRef(db2, name, opts.withContracts);
    AllServedIff(db2, name, opts.withContracts, b, ids.node, sccs);
  }

  lemma AllServedIff(db: Db, name: string, withContracts: bool, b: Bundle, ids: nat -> FreshId, sccs: seq<seq<string>>)
    requires ValidDb(db) && ExportOf(db, name, withContracts).Ok?
    requires Clean(b) && Shows(ExportOf(db, name, withContracts).value, b, ids)
    ensures var t := db.tenants[name]; var pin := EnabledPin(db, t);
      (forall n :: n in LoadNodes(db, t, pin) && n.typ == "capability" ==> Served(db, t, pin, sccs, n))
      <==> !KeepsNameless(b.nodes, ids)
  {
    var t, e := db.tenants[name], ExportOf(db, name, withContracts).value;
    var pin := EnabledPin(db, t);
    var gs := LoadNodes(db, t, pin);
    SnapshotSeenTwice(db, t, pin);
    if KeepsNameless(b.nodes, ids) {
      var i :| Kept(b.nodes, ids, i) && b.nodes[i].typ == "capability" && b.nodes[i].id == "";
      var x := FilledNode(b.nodes[i], ids(i));
      KeptCapability(b, e, ids, i);
      CanonicalIsKept(e.nodes, b.nodes, ids, x);
      var k :| 0 <= k < |e.nodes| && e.nodes[k] == x;
      assert gs[k] in gs && gs[k] == GNode(x.id, x.typ);
      ServedIff(db, name, withContracts, sccs, gs[k]);
    } else {
      CapabilitiesCleanIff(b, e, ids);
      ExportedNodesComplete(db, t, pin);
      forall n | n in gs && n.typ == "capability" ensures Served(db, t, pin, sccs, n) {
        var k :| 0 <= k < |gs| && gs[k] == n;
        assert e.nodes[k] in e.nodes && CapabilityClean(e, e.nodes[k]);
        ServedIff(db, name, withContracts, sccs, n);
      }
    }
  }

  // --- the usual case: explicit, distinct ids ---

  ghost predicate DistinctNodeIds(ns: seq<BundleNode>) {
    forall i, j :: 0 <= i < j < |ns| ==> ns[i].id != ns[j].id
  }

  /** With explicit, distinct node ids a clean bundle always gets through. */
  lemma DistinctIdsHoldTheGate(b: Bundle, ids: nat -> FreshId)
    requires Clean(b) && DistinctNodeIds(b.nodes) && (forall n :: n in b.nodes ==> n.id != "")
    ensures GateHolds(b.nodes, ids)
  {
    var ns := b.nodes;
    forall i | 0 <= i < |ns| ensures Kept(ns, ids, i) && ns[i].id != "" {
      assert ns[i] in ns;
    }
    forall typ | HasNodeOfType(ns, typ) ensures KeepsType(ns, ids, typ) {
      var n :| n in ns && n.typ == typ;
      var i :| 0 <= i < |ns| && ns[i] == n;
      assert Kept(ns, ids, i);
    }
  }

  // --- bundles that pass the lint and fail after the import ---

  const EQUIPPED: Blob := Some(map["ref" := Text("r"), "job" := Text("j")])

  /** An actor and a policy share the id "x". */
  function ShadowedBundle(): Bundle {
    Bundle("t", BundleModel("m", 1, "enabled", ""), RequiredTypes(EnabledModel), [],
      [BundleNode("x", "node", "actor", None), BundleNode("x", "node", "policy", None),
        BundleNode("c", "node", "capability", EQUIPPED)],
      [BundleEdge("x", "c", "edge", "provides", None), BundleEdge("x", "c", "edge", "governs", None)],
      [], [])
  }

  lemma ShadowedMembers()
    ensures var b := ShadowedBundle();
      && HasId(b.nodes, "x") && HasId(b.nodes, "c")
      && HasNodeOfType(b.nodes, "actor") && HasNodeOfType(b.nodes, "policy") && HasNodeOfType(b.nodes, "capability")
      && Pointed(b.edges, "provides", "c") && Pointed(b.edges, "governs", "c")
  {
    var b := ShadowedBundle();
    assert b.nodes[0] in b.nodes && b.nodes[1] in b.nodes && b.nodes[2] in b.nodes;
    assert b.edges[0] in b.edges && b.edges[1] in b.edges;
  }

  lemma ShadowedEdges()
    ensures var b := ShadowedBundle(); forall e :: e in b.edges ==> !DanglingEdge(b, e) && EdgeWellFormed(e)
  {
    ShadowedMembers();
    forall e | e in ShadowedBundle().edges ensures e.from == "x" && e.to == "c" && e.typ != "" {}
  }

  lemma ShadowedNodes()
    ensures var b := ShadowedBundle();
      forall n :: n in b.nodes ==> CapabilityClean(b, n) && NodeWellFormed(n) && n.id != ""
  {
    ShadowedMembers();
    forall n | n in ShadowedBundle().nodes
      ensures n.id != "" && n.typ != "" && (n.typ == "capability" ==> n.id == "c" && n.blob == EQUIPPED)
    {}
    assert Field(EQUIPPED, "ref").Some? && Field(EQUIPPED, "job").Some?;
  }

  lemma ListedIsHad(b: Bundle, n: BundleName)
    requires n in b.types
    ensures HasType(b, n.domain, n.name)
  {}

  lemma ShadowedTypes()
    ensures forall n :: n in RequiredTypes(EnabledModel) ==> HasType(ShadowedBundle(), n.domain, n.name)
  {
    forall n | n in RequiredTypes(EnabledModel) ensures HasType(ShadowedBundle(), n.domain, n.name) {
      ListedIsHad(ShadowedBundle(), n);
    }
  }

  lemma MakesClean(b: Bundle)
    requires forall n :: n in RequiredTypes(EnabledModel) ==> HasType(b, n.domain, n.name)
    requires HasNodeOfType(b.nodes, "actor") && HasNodeOfType(b.nodes, "policy") && HasNodeOfType(b.nodes, "capability")
    requires forall e :: e in b.edges ==> !DanglingEdge(b, e)
    requires forall n :: n in b.nodes ==> CapabilityClean(b, n)
    ensures Issues(b, EnabledModel) == []
  {
    CleanIff(b);
  }

  lemma ShadowedIsClean()
    ensures Issues(ShadowedBundle(), EnabledModel) == []
  {
    var b := ShadowedBundle();
    ShadowedMembers();
    ShadowedEdges();
    ShadowedNodes();
    ShadowedTypes();
    MakesClean(b);
  }

  lemma ShadowedImports(db: Db, opts: Options, ids: Ids)
    requires ValidDb(db) && TenantUsable(db, ShadowedBundle(), opts, ids)
    ensures ImportOf(db, ShadowedBundle(), opts, ids).result.Ok?
  {
    var b := ShadowedBundle();
    ShadowedEdges();
    ShadowedNodes();
    ExplicitIdsAreFree(db, TargetTenant(db, b, opts, ids), b, opts.withContracts, ids);
    ImportSucceedsIff(db, b, opts, ids);
  }

  lemma ActorIsShadowed(ids: nat -> FreshId)
    ensures !KeepsType(ShadowedBundle().nodes, ids, "actor")
  {
    var ns := ShadowedBundle().nodes;
    assert ns[1].id == ns[0].id && ns[1].typ == "policy" && ns[2].typ == "capability";
  }

  /** A bundle that repeats a node id can pass the lint and be imported into any tenant, and still
      leave an export that fails the lint. */
  lemma RepeatedIdsBreakTheGate(db: Db, opts: Options, ids: Ids)
    requires ValidDb(db) && TenantUsable(db, ShadowedBundle(), opts, ids)
    ensures
      var b := ShadowedBundle();
      && Issues(b, EnabledModel) == [] && ImportOf(db, b, opts, ids).result.Ok?
      && var exported := ExportOf(ImportOf(db, b, opts, ids).db, ImportTenant(b, opts), opts.withContracts);
      exported.Ok? && Issues(exported.value, EnabledModel) != []
  {
    ShadowedIsClean();
    ShadowedImports(db, opts, ids);
    ActorIsShadowed(ids.node);
    LintGateIff(db, ShadowedBundle(), opts, ids);
  }

  /** The capability has no id. */
  function NamelessBundle(): Bundle {
    Bundle("t", BundleModel("m", 1, "enabled", ""), RequiredTypes(EnabledModel), [],
      [BundleNode("a", "node", "actor", None), BundleNode("p", "node", "policy", None),
        BundleNode("", "node", "capability", None)],
      [], [], [])
  }

  lemma NamelessMembers()
    ensures var b := NamelessBundle();
      && HasNodeOfType(b.nodes, "actor") && HasNodeOfType(b.nodes, "policy") && HasNodeOfType(b.nodes, "capability")
      && (forall n :: n in b.nodes ==> CapabilityClean(b, n) && NodeWellFormed(n))
  {
    var b := NamelessBundle();
    assert b.nodes[0] in b.nodes && b.nodes[1] in b.nodes && b.nodes[2] in b.nodes;
    forall n | n in b.nodes ensures n.typ != "" && (n.typ == "capability" ==> n.id == "") {}
  }

  lemma NamelessTypes()
    ensures forall n :: n in RequiredTypes(EnabledModel) ==> HasType(NamelessBundle(), n.domain, n.name)
  {
    forall n | n in RequiredTypes(EnabledModel) ensures HasType(NamelessBundle(), n.domain, n.name) {
      ListedIsHad(NamelessBundle(), n);
    }
  }

  lemma NamelessIsClean()
    ensures Issues(NamelessBundle(), EnabledModel) == []
  {
    NamelessMembers();
    NamelessTypes();
    MakesClean(NamelessBundle());
  }

  lemma NamelessImports(db: Db, opts: Options, ids: Ids)
    requires ValidDb(db) && TenantUsable(db, NamelessBundle(), opts, ids)
    requires var b := NamelessBundle();
      GeneratedIdsFree(db, TargetTenant(db, b, opts, ids), b, opts.withContracts, ids)
    ensures ImportOf(db, NamelessBundle(), opts, ids).result.Ok?
  {
    NamelessMembers();
    ImportSucceedsIff(db, NamelessBundle(), opts, ids);
  }

  /** So can a bundle with a capability that has no id: no edge can name it, the lint passes over it,
      and after the import it is a capability without provider. */
  lemma NamelessCapabilityBreaksTheGate(db: Db, opts: Options, ids: Ids)
    requires ValidDb(db) && TenantUsable(db, NamelessBundle(), opts, ids)
    requires var b := NamelessBundle();
      GeneratedIdsFree(db, TargetTenant(db, b, opts, ids), b, opts.withContracts, ids)
    ensures
      var b := NamelessBundle();
      && Issues(b, EnabledModel) == [] && ImportOf(db, b, opts, ids).result.Ok?
      && var exported := ExportOf(ImportOf(db, b, opts, ids).db, ImportTenant(b, opts), opts.withContracts);
      exported.Ok? && CapNoProvider(ids.node(2)) in Issues(exported.value, EnabledModel)
  {
    var b := NamelessBundle();
    NamelessIsClean();
    NamelessImports(db, opts, ids);
    ImportShows(db, b, opts, ids);
    var e := ExportOf(ImportOf(db, b, opts, ids).db, ImportTenant(b, opts), opts.withContracts).value;
    var x := FilledNode(b.nodes[2], ids.node(2));
    CleanIff(b);
    assert Kept(b.nodes, ids.node, 2);
    KeptCapability(b, e, ids.node, 2);
    CanonicalIsKept(e.nodes, b.nodes, ids.node, x);
    CapabilityIssueIff(e, x);
  }
}
