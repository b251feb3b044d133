/** Gaps that the waypoint analysis of an imported model never reports. */
module Availability {
  import opened Basics
  import opened Ordering
  import opened VersionedLog
  import opened Schema
  import opened Bundles
  import opened BundleLaws
  import opened RoundTrip
  import opened Lint
  import opened Digraphs
  import opened Waypoint
  import opened Agreement

  /** Bundle property values are maps, so an import stores objects or null, never a bare boolean. */
  lemma ImportedValuesAreMaps(db: Db, t: string, pin: Pin, ps: seq<BundleProperty>, r: Row<Stored<PropertyBody>>)
    requires Filter(db.props, AtPin(t, pin)) == []
    requires r in PutItems(db.models, db.props, PropertyItems(db.models, t, pin, ps)).log
      && AtPin<PropertyBody>(t, pin)(r)
    ensures r.val.body.Object? || r.val.body.Null?
  {
    var items := PropertyItems(db.models, t, pin, ps);
    var more := PutItemsRows(db.models, db.props, items);
    FilterMembers(db.props, AtPin(t, pin));
    assert r !in db.props;
    var i :| 0 <= i < |more| && more[i] == r;
    assert items[i] == PrepareProperty(db.models, PropertyRequest(t, pin, ps[i]));
  }

  lemma SuccessFillsProperties(db: Db, t: string, pin: Pin, b: Bundle, withContracts: bool, ids: Ids)
    requires ImportRows(db, t, pin, b, withContracts, ids).result.Ok?
    ensures ImportRows(db, t, pin, b, withContracts, ids).db.props
         == PutItems(db.models, db.props, PropertyItems(db.models, t, pin, b.properties)).log
    ensures ImportRows(db, t, pin, b, withContracts, ids).db.models == db.models
  {}

  /** No imported property of a pin that was empty before marks anything unavailable. */
  lemma NothingMarked(db: Db, db2: Db, t: string, pin: Pin, ps: seq<BundleProperty>, id: string)
    requires Filter(db.props, AtPin(t, pin)) == []
    requires db2.props == PutItems(db.models, db.props, PropertyItems(db.models, t, pin, ps)).log
    ensures !MarkedUnavailable(LoadProperties(db2, t, pin), id)
  {
    var rows := Query(db2.props, NodeOwned(t, pin));
    QueryMeaning(db2.props, NodeOwned(t, pin));
    forall i | 0 <= i < |rows| ensures LoadProperties(db2, t, pin)[i].value != Bool(false) {
      assert rows[i] in rows;
      ImportedValuesAreMaps(db, t, pin, ps, rows[i]);
    }
  }

  /** After a successful enabled import the waypoint analysis reports no capability unavailable,
      whatever availability properties the bundle carries: the analysis looks for the boolean false. */
  lemma ImportNeverUnavailable(db: Db, b: Bundle, opts: Options, ids: Ids, id: string)
    requires ValidDb(db) && ImportStatus(b, opts) == "enabled" && ImportOf(db, b, opts, ids).result.Ok?
    ensures
      var db2, t := ImportOf(db, b, opts, ids).db, TargetTenant(db, b, opts, ids);
      LatestEnabled(db2.models, t).Some? && !MarkedUnavailable(LoadProperties(db2, t, EnabledPin(db2, t)), id)
  {
    SuccessNeedsModel(db, b, opts, ids);
    ImportUnfolds(db, b, opts, ids);
    var t, row, named := TargetTenant(db, b, opts, ids), ModelRow(db, b, opts, ids).value, NamedDb(db, b, opts, ids);
    var db1, pin := named.(models := named.models + [row]), PinOf(row);
    SuccessFillsProperties(db1, t, pin, b, opts.withContracts, ids);
    NothingMarked(db1, ImportOf(db, b, opts, ids).db, t, pin, b.properties, id);
  }

  /** One actor provides the capability in two edge domains. */
  function RepeatedProviderBundle(): Bundle {
    Bundle("t", BundleModel("m", 1, "enabled", ""), [], [],
      [BundleNode("a", "node", "actor", None), BundleNode("c", "node", "capability", None)],
      [BundleEdge("a", "c", "d1", "provides", None), BundleEdge("a", "c", "d2", "provides", None)], [], [])
  }

  lemma RepeatedProviderOrder()
    ensures var b := RepeatedProviderBundle();
      Sorted(b.nodes, NodeKey) && Sorted(b.edges, EdgeKey)
  {
    var b := RepeatedProviderBundle();
    assert StrLess("a", "c");
    assert NodeKey(b.nodes[0]) == ["a"] && NodeKey(b.nodes[1]) == ["c"];
    assert "d1"[1..] == "1" && "d2"[1..] == "2" && StrLess("1", "2") && StrLess("d1", "d2");
    var k, l := EdgeKey(b.edges[0]), EdgeKey(b.edges[1]);
    assert KeyLess(k[2..], l[2..]);
    assert k[1..][1..] == k[2..] && l[1..][1..] == l[2..];
    assert KeyLess(k[1..], l[1..]);
    assert KeyLess(k, l);
  }

  lemma RepeatedProviderImports(db: Db, opts: Options, ids: Ids)
    requires ValidDb(db) && TenantUsable(db, RepeatedProviderBundle(), opts, ids)
    ensures ImportOf(db, RepeatedProviderBundle(), opts, ids).result.Ok?
  {
    var b := RepeatedProviderBundle();
    ExplicitIdsAreFree(db, TargetTenant(db, b, opts, ids), b, opts.withContracts, ids);
    ImportSucceedsIff(db, b, opts, ids);
  }

  /** After any import of it, its rows are exported as they are. */
  lemma RepeatedProviderExport(db: Db, opts: Options, ids: Ids)
    requires ValidDb(db) && TenantUsable(db, RepeatedProviderBundle(), opts, ids)
    ensures
      var b := RepeatedProviderBundle();
      var exported := ExportOf(ImportOf(db, b, opts, ids).db, ImportTenant(b, opts), opts.withContracts);
      && ValidDb(ImportOf(db, b, opts, ids).db) && exported.Ok?
      && exported.value.nodes == b.nodes && exported.value.edges == b.edges
  {
    var b := RepeatedProviderBundle();
    RepeatedProviderImports(db, opts, ids);
    ImportThenExport(db, b, opts, ids);
    SameRows(ExportOf(ImportOf(db, b, opts, ids).db, ImportTenant(b, opts), opts.withContracts).value, ids);
  }

  lemma SameRows(e: Bundle, ids: Ids)
    requires Canonical(e.nodes, FilledNodes(RepeatedProviderBundle().nodes, ids.node), NodeKey)
    requires Canonical(e.edges, Map(RepeatedProviderBundle().edges, FilledEdge), EdgeKey)
    ensures e.nodes == RepeatedProviderBundle().nodes && e.edges == RepeatedProviderBundle().edges
  {
    var b := RepeatedProviderBundle();
    RepeatedProviderOrder();
    assert FilledNodes(b.nodes, ids.node) == b.nodes by {
      forall i | 0 <= i < |b.nodes| ensures FilledNodes(b.nodes, ids.node)[i] == b.nodes[i] {
        assert FilledNodes(b.nodes, ids.node)[i] == FilledNode(b.nodes[i], ids.node(i));
      }
    }
    assert Map(b.edges, FilledEdge) == b.edges;
    SameCanonical(e.nodes, b.nodes, NodeKey);
    SameCanonical(e.edges, b.edges, EdgeKey);
  }

  lemma RepeatedProviderRows(hs: seq<GEdge>)
    requires SameEdges(hs, RepeatedProviderBundle().edges)
    ensures RepeatedProvider(hs, "c")
  {
    assert hs[0] in hs && hs[1] in hs;
    FilterAll(hs, ProvidesTo("c"));
    assert Providers(hs, "c") == {"a"};
  }

  lemma MissedOn(db: Db, t: string, pin: Pin)
    requires Map(Query(db.nodes, AtPin(t, pin)), ToNode) == RepeatedProviderBundle().nodes
    requires Map(Query(db.edges, AtPin(t, pin)), ToEdge) == RepeatedProviderBundle().edges
    ensures
      var gs, hs, ps := LoadNodes(db, t, pin), LoadEdges(db, t, pin), LoadProperties(db, t, pin);
      && GNode("c", "capability") in gs && RepeatedProvider(hs, "c")
      && Gap(SingleProvider, "c", "capability", 1) !in Concat(gs, GapsOf(hs, ps))
  {
    var gs, hs := LoadNodes(db, t, pin), LoadEdges(db, t, pin);
    SnapshotSeenTwice(db, t, pin);
    assert gs[1] in gs && gs[1] == GNode("c", "capability");
    RepeatedProviderRows(hs);
    SingleProviderGapIff(gs, hs, LoadProperties(db, t, pin), gs[1]);
  }

  /** On a stored snapshot: one actor provides the capability, and no single_provider gap is reported. */
  lemma SingleProviderIsMissed(db: Db, opts: Options, ids: Ids)
    requires ValidDb(db) && TenantUsable(db, RepeatedProviderBundle(), opts, ids)
    ensures
      var db2, name := ImportOf(db, RepeatedProviderBundle(), opts, ids).db,
        ImportTenant(RepeatedProviderBundle(), opts);
      && name in db2.tenants && LatestEnabled(db2.models, db2.tenants[name]).Some?
      && var t := db2.tenants[name];
      var pin := EnabledPin(db2, t);
      var gs, hs, ps := LoadNodes(db2, t, pin), LoadEdges(db2, t, pin), LoadProperties(db2, t, pin);
      && GNode("c", "capability") in gs && RepeatedProvider(hs, "c")
      && Gap(SingleProvider, "c", "capability", 1) !in Concat(gs, GapsOf(hs, ps))
  {
    var b := RepeatedProviderBundle();
    RepeatedProviderExport(db, opts, ids);
    var db2, name := ImportOf(db, b, opts, ids).db, ImportTenant(b, opts);
    MissedOn(db2, db2.tenants[name], EnabledPin(db2, db2.tenants[name]));
  }
}
