/** Theorems about whole imports and exports. */
module RoundTrip {
  import opened Basics
  import opened Ordering
  import opened VersionedLog
  import opened Schema
  import opened PutMeaning
  import opened ContractKeys
  import opened Bundles
  import opened BundleLaws

  /** The database when the import creates its model version, and the result of that. */
  function NamedDb(db: Db, b: Bundle, opts: Options, ids: Ids): Db {
    WithNames(TargetDb(db, b, opts, ids), TargetTenant(db, b, opts, ids), b)
  }

  function ModelRow(db: Db, b: Bundle, opts: Options, ids: Ids): Result<Row<ModelBody>> {
    PutModelResult(NamedDb(db, b, opts, ids), ImportedModel(TargetTenant(db, b, opts, ids), b, opts), ids.model)
  }

  predicate TenantUsable(db: Db, b: Bundle, opts: Options, ids: Ids) {
    var name := ImportTenant(b, opts);
    name != "" && (name in db.tenants || ids.tenant !in db.tenants.Values)
  }

  /** An import past its model version is the filling of the four tables under a fresh, usable pin,
      and from then on the tenant's latest enabled version is that pin when its status is enabled. */
  lemma ImportUnfolds(db: Db, b: Bundle, opts: Options, ids: Ids)
    requires ValidDb(db) && TenantUsable(db, b, opts, ids) && ModelRow(db, b, opts, ids).Ok?
    ensures
      var t, row := TargetTenant(db, b, opts, ids), ModelRow(db, b, opts, ids).value;
      var named := NamedDb(db, b, opts, ids);
      var db1 := named.(models := named.models + [row]);
      && ImportOf(db, b, opts, ids) == ImportRows(db1, t, PinOf(row), b, opts.withContracts, ids)
      && UsablePin(db1, t, PinOf(row)) && PinExists(db1.models, t, PinOf(row))
      && row.val == ModelBody(ImportStatus(b, opts), FirstNonEmpty(opts.changeNote, b.model.changeNote))
      && PinOf(row).model == FirstNonEmpty(b.model.modelId, ids.model)
      && (row.val.status == "enabled" ==> LatestEnabled(db1.models, t) == Some(row))
      && db1.tenants == TargetDb(db, b, opts, ids).tenants
      && ImportTenant(b, opts) in db1.tenants && db1.tenants[ImportTenant(b, opts)] == t
  {
    TargetValid(db, b, opts, ids);
    WithNamesValid(TargetDb(db, b, opts, ids), TargetTenant(db, b, opts, ids), b);
    CreatedModel(NamedDb(db, b, opts, ids), ImportedModel(TargetTenant(db, b, opts, ids), b, opts), ids.model);
  }

  lemma SuccessNeedsModel(db: Db, b: Bundle, opts: Options, ids: Ids)
    requires ImportOf(db, b, opts, ids).result.Ok?
    ensures TenantUsable(db, b, opts, ids) && ModelRow(db, b, opts, ids).Ok?
  {}

  predicate Registered(log: Log<()>, t: string, n: BundleName) { HasVersion(log, [t] + NameKey(n), 1) }

  lemma RegisteredIs(log: Log<()>, t: string, n: BundleName)
    ensures Registered(log, t, n) <==> HasVersion(log, [t, n.domain, n.name], 1)
  {
    assert [t] + NameKey(n) == [t, n.domain, n.name];
  }

  lemma NameKeyInjective(t: string, m: BundleName, n: BundleName)
    ensures [t] + NameKey(m) == [t] + NameKey(n) <==> m == n
  {
    if [t] + NameKey(m) == [t] + NameKey(n) {
      assert ([t] + NameKey(m))[1] == m.domain && ([t] + NameKey(m))[2] == m.name;
    }
  }

  lemma NameRow(log: Log<()>, t: string, r: Row<()>)
    requires NamesOk(log) && r in log && Tenant(r.key) == t
    ensures r.key == [t] + NameKey(ToName(r)) && Registered(log, t, ToName(r))
  {
    assert r.key == [t] + NameKey(ToName(r));
    RowExists(log, r);
  }

  /** Exported names are sorted. */
  lemma ExportedNamesSorted(log: Log<()>, t: string)
    requires NamesOk(log)
    ensures Sorted(Map(Query(log, OfTenant(t)), ToName), NameKey)
  {
    var rows := Query(log, OfTenant(t));
    QueryMeaning(log, OfTenant(t));
    forall i, j | 0 <= i < j < |rows| ensures KeyLess(NameKey(ToName(rows[i])), NameKey(ToName(rows[j]))) {
      assert rows[i] in rows && rows[j] in rows;
      NameRow(log, t, rows[i]);
      NameRow(log, t, rows[j]);
      assert rows[i].key[1..] == NameKey(ToName(rows[i])) && rows[j].key[1..] == NameKey(ToName(rows[j]));
    }
  }

  /** Exported names are those registered for the tenant. */
  lemma ExportedName(log: Log<()>, t: string, n: BundleName)
    requires NamesOk(log)
    ensures n in Map(Query(log, OfTenant(t)), ToName) <==> Registered(log, t, n)
  {
    var rows := Query(log, OfTenant(t));
    var names := Map(rows, ToName);
    QueryMeaning(log, OfTenant(t));
    if i :| 0 <= i < |names| && names[i] == n {
      assert rows[i] in rows;
      NameRow(log, t, rows[i]);
    }
    if Registered(log, t, n) {
      var j :| 0 <= j < |log| && log[j].key == [t] + NameKey(n) && log[j].version == 1;
      assert log[j] in log && HasKey(rows, log[j].key, RowKey);
      var r :| r in rows && RowKey(r) == log[j].key;
      NameRow(log, t, r);
      NameKeyInjective(t, ToName(r), n);
      var i :| 0 <= i < |rows| && rows[i] == r;
      assert names[i] == n;
    }
  }

  /** The registries after an import: what the tenant had, and what the bundle names. */
  lemma ImportThenExportNames(db: Db, b: Bundle, opts: Options, ids: Ids)
    requires ValidDb(db) && ImportStatus(b, opts) == "enabled" && ImportOf(db, b, opts, ids).result.Ok?
    ensures
      var t := TargetTenant(db, b, opts, ids);
      var exported := ExportOf(ImportOf(db, b, opts, ids).db, ImportTenant(b, opts), opts.withContracts);
      && exported.Ok?
      && Sorted(exported.value.types, NameKey) && Sorted(exported.value.statuses, NameKey)
      && (forall n :: n in exported.value.types <==> n in b.types || Registered(db.types, t, n))
      && (forall n :: n in exported.value.statuses <==> n in b.statuses || Registered(db.statuses, t, n))
  {
    SuccessNeedsModel(db, b, opts, ids);
    ImportUnfolds(db, b, opts, ids);
    var t, row, named := TargetTenant(db, b, opts, ids), ModelRow(db, b, opts, ids).value, NamedDb(db, b, opts, ids);
    var db1 := named.(models := named.models + [row]);
    ImportRowsFrame(db1, t, PinOf(row), b, opts.withContracts, ids);
    assert PartOk(db, RegistryPart);
    NamesAfter(db.types, t, b.types);
    NamesAfter(db.statuses, t, b.statuses);
  }

  lemma NamesAfter(log: Log<()>, t: string, names: seq<BundleName>)
    requires NamesOk(log)
    ensures var out := Map(Query(RegisterAll(log, t, names), OfTenant(t)), ToName);
      Sorted(out, NameKey) && forall n :: n in out <==> n in names || Registered(log, t, n)
  {
    var after := RegisterAll(log, t, names);
    RegisterAllNames(log, t, names);
    ExportedNamesSorted(after, t);
    forall n ensures n in Map(Query(after, OfTenant(t)), ToName) <==> n in names || Registered(log, t, n) {
      ExportedName(after, t, n);
      var k := [t] + NameKey(n);
      assert HasVersion(after, k, 1) <==> HasVersion(log, k, 1) || exists m :: m in names && k == [t] + NameKey(m);
      if m :| m in names && k == [t] + NameKey(m) {
        NameKeyInjective(t, m, n);
      }
    }
  }

  // --- where an import stops ---

  predicate NodeWellFormed(n: BundleNode) { n.typ != "" }
  predicate EdgeWellFormed(e: BundleEdge) { e.typ != "" && e.from != "" && e.to != "" }
  predicate PropertyWellFormed(p: BundleProperty) { p.ownerType != "" && p.ownerId != "" && p.key != "" }
  predicate ContractWellFormed(c: BundleContract) { c.typ != "" && c.status != "" }

  predicate WellFormed(b: Bundle, withContracts: bool) {
    && (forall n :: n in b.nodes ==> NodeWellFormed(n))
    && (forall e :: e in b.edges ==> EdgeWellFormed(e))
    && (forall p :: p in b.properties ==> PropertyWellFormed(p))
    && (withContracts ==> forall c :: c in b.contracts ==> ContractWellFormed(c))
  }

  /** If element i has no id, the one generated for it is new to the table and to the elements before it. */
  ghost predicate IdFree<V>(log: Log<V>, t: string, given: seq<string>, ids: nat -> FreshId, i: nat)
    requires i < |given|
  {
    given[i] == "" ==>
      MaxVersion(log, [t, ids(i)]) == 0 && forall j :: 0 <= j < i ==> FirstNonEmpty(given[j], ids(j)) != ids(i)
  }

  ghost predicate IdsFree<V>(log: Log<V>, t: string, given: seq<string>, ids: nat -> FreshId) {
    forall i :: 0 <= i < |given| ==> IdFree(log, t, given, ids, i)
  }

  function NodeIdsOf(ns: seq<BundleNode>): seq<string> { Map(ns, (n: BundleNode) => n.id) }
  function ContractIdsOf(cs: seq<BundleContract>): seq<string> { Map(cs, (c: BundleContract) => c.id) }

  /** All identifiers the import has the database generate are unused. */
  ghost predicate GeneratedIdsFree(db: Db, t: string, b: Bundle, withContracts: bool, ids: Ids) {
    && (b.model.modelId == "" ==> MaxVersion(db.models, [t, ids.model]) == 0)
    && IdsFree(db.nodes, t, NodeIdsOf(b.nodes), ids.node)
    && (withContracts ==> IdsFree(db.contracts, t, ContractIdsOf(b.contracts), ids.contract))
  }

  /** How many of len elements go before the first one that does not. */
  ghost function Leading(len: nat, goes: int -> bool): (n: nat)
    ensures n <= len && (forall i :: 0 <= i < n ==> goes(i)) && (n < len ==> !goes(n))
  {
    if len == 0 then 0
    else
      var m := Leading(len - 1, goes);
      if m == len - 1 && goes(m) then len else m
  }

  lemma LeadingIs(n: nat, len: nat, goes: int -> bool)
    requires n <= len && (forall i :: 0 <= i < n ==> goes(i)) && (n < len ==> !goes(n))
    ensures n == Leading(len, goes)
  {
    var m := Leading(len, goes);
    assert m < n ==> goes(m);
    assert n < m ==> goes(n);
  }

  ghost function NodeGoes(log: Log<Stored<NodeBody>>, t: string, ns: seq<BundleNode>,
      ids: nat -> FreshId): int -> bool {
    (i: int) => 0 <= i < |ns| && NodeWellFormed(ns[i]) && IdFree(log, t, NodeIdsOf(ns), ids, i)
  }

  ghost function EdgeGoes(es: seq<BundleEdge>): int -> bool {
    (i: int) => 0 <= i < |es| && EdgeWellFormed(es[i])
  }

  ghost function PropertyGoes(ps: seq<BundleProperty>): int -> bool {
    (i: int) => 0 <= i < |ps| && PropertyWellFormed(ps[i])
  }

  ghost function ContractGoes(log: Log<Stored<ContractBody>>, t: string, cs: seq<BundleContract>,
      ids: nat -> FreshId): int -> bool {
    (i: int) => 0 <= i < |cs| && ContractWellFormed(cs[i]) && IdFree(log, t, ContractIdsOf(cs), ids, i)
  }

  /** The cuts of an import, read off the bundle and the database before it: each section stops at its
      first element that lacks a required field or meets a taken generated id, and an incomplete
      section leaves all later ones empty. */
  ghost function CutsFor(db: Db, t: string, b: Bundle, withContracts: bool, ids: Ids): (c: Cuts)
    ensures CutsWithin(b, c)
  {
    var n := Leading(|b.nodes|, NodeGoes(db.nodes, t, b.nodes, ids.node));
    var e := if n == |b.nodes| then Leading(|b.edges|, EdgeGoes(b.edges)) else 0;
    var p := if n == |b.nodes| && e == |b.edges| then Leading(|b.properties|, PropertyGoes(b.properties)) else 0;
    var c := if n == |b.nodes| && e == |b.edges| && p == |b.properties| && withContracts
      then Leading(|b.contracts|, ContractGoes(db.contracts, t, b.contracts, ids.contract)) else 0;
    Cuts(n, e, p, c)
  }

  /** Keyed by given or generated ids: a generated key is free iff the id is. */
  lemma KeyFreeIff<V>(log: Log<V>, t: string, given: seq<string>, ids: nat -> FreshId, items: seq<Item<V>>, i: nat)
    requires |items| == |given| && i < |items|
    requires forall j :: 0 <= j <= i ==> !items[j].Reject? && items[j].key == [t, FirstNonEmpty(given[j], ids(j))]
    requires items[i].Generated? <==> given[i] == ""
    ensures KeyFree(log, items, i) <==> IdFree(log, t, given, ids, i)
  {
    forall j | 0 <= j < i
      ensures items[j].key == items[i].key <==> FirstNonEmpty(given[j], ids(j)) == FirstNonEmpty(given[i], ids(i))
    {
      assert items[j].key[1] == FirstNonEmpty(given[j], ids(j)) && items[i].key[1] == FirstNonEmpty(given[i], ids(i));
    }
  }

  ghost predicate PinUsable(models: Log<ModelBody>, t: string, pin: Pin) {
    t != "" && pin.model != "" && pin.version != 0 && PinExists(models, t, pin)
  }

  lemma NodeItem(models: Log<ModelBody>, t: string, pin: Pin, ns: seq<BundleNode>, ids: nat -> FreshId, i: nat)
    requires PinUsable(models, t, pin) && i < |ns|
    ensures var item := NodeItems(models, t, pin, ns, ids)[i];
      && (item.Reject? <==> !NodeWellFormed(ns[i])) && (ItemPinExists(models, item) <==> NodeWellFormed(ns[i]))
      && (!item.Reject? ==> item.key == [t, FirstNonEmpty(ns[i].id, ids(i))] && (item.Generated? <==> ns[i].id == ""))
  {
    assert NodeItems(models, t, pin, ns, ids)[i] == PrepareNode(models, NodeRequest(t, pin, ns[i]), ids(i));
  }

  lemma NodesStop(models: Log<ModelBody>, log: Log<Stored<NodeBody>>, t: string, pin: Pin, ns: seq<BundleNode>,
      ids: nat -> FreshId)
    returns (n: nat)
    requires Dense(log) && PinUsable(models, t, pin)
    ensures |PutItems(models, log, NodeItems(models, t, pin, ns, ids)).log| == |log| + n
    ensures PutItems(models, log, NodeItems(models, t, pin, ns, ids)).error.None? <==> n == |ns|
    ensures n == Leading(|ns|, NodeGoes(log, t, ns, ids))
  {
    var items := NodeItems(models, t, pin, ns, ids);
    n := PutItemsStop(models, log, items);
    forall i | 0 <= i <= n && i < |ns| ensures NodeGoes(log, t, ns, ids)(i) <==> Goes(models, log, items, i) {
      forall j | 0 <= j <= i ensures items[j].Reject? <==> !NodeWellFormed(ns[j]) {
        NodeItem(models, t, pin, ns, ids, j);
        if j < i { assert Goes(models, log, items, j); }
      }
      forall j | 0 <= j < i ensures !items[j].Reject? { assert Goes(models, log, items, j); }
      forall j | 0 <= j <= i && !items[j].Reject? ensures items[j].key == [t, FirstNonEmpty(ns[j].id, ids(j))] {
        NodeItem(models, t, pin, ns, ids, j);
      }
      NodeItem(models, t, pin, ns, ids, i);
      if NodeWellFormed(ns[i]) { KeyFreeIff(log, t, NodeIdsOf(ns), ids, items, i); }
    }
    LeadingIs(n, |ns|, NodeGoes(log, t, ns, ids));
  }

  lemma EdgesStop(models: Log<ModelBody>, log: Log<Stored<EdgeBody>>, t: string, pin: Pin, es: seq<BundleEdge>)
      returns (n: nat)
    requires Dense(log) && PinUsable(models, t, pin)
    ensures |PutItems(models, log, EdgeItems(models, t, pin, es)).log| == |log| + n
    ensures PutItems(models, log, EdgeItems(models, t, pin, es)).error.None? <==> n == |es|
    ensures n == Leading(|es|, EdgeGoes(es))
  {
    var items := EdgeItems(models, t, pin, es);
    n := PutItemsStop(models, log, items);
    forall i | 0 <= i < |es| ensures EdgeGoes(es)(i) <==> Goes(models, log, items, i) {}
    LeadingIs(n, |es|, EdgeGoes(es));
  }

  lemma PropertiesStop(models: Log<ModelBody>, log: Log<Stored<PropertyBody>>, t: string, pin: Pin,
      ps: seq<BundleProperty>)
    returns (n: nat)
    requires Dense(log) && PinUsable(models, t, pin)
    ensures |PutItems(models, log, PropertyItems(models, t, pin, ps)).log| == |log| + n
    ensures PutItems(models, log, PropertyItems(models, t, pin, ps)).error.None? <==> n == |ps|
    ensures n == Leading(|ps|, PropertyGoes(ps))
  {
    var items := PropertyItems(models, t, pin, ps);
    n := PutItemsStop(models, log, items);
    forall i | 0 <= i < |ps| ensures PropertyGoes(ps)(i) <==> Goes(models, log, items, i) {}
    LeadingIs(n, |ps|, PropertyGoes(ps));
  }

  lemma ContractItem(models: Log<ModelBody>, t: string, pin: Pin, cs: seq<BundleContract>, ids: nat -> FreshId, i: nat)
    requires PinUsable(models, t, pin) && i < |cs|
    ensures var item := ContractItems(models, t, pin, cs, ids)[i];
      && (item.Reject? <==> !ContractWellFormed(cs[i])) && (ItemPinExists(models, item) <==> ContractWellFormed(cs[i]))
      && (!item.Reject? ==> item.key == [t, FirstNonEmpty(cs[i].id, ids(i))] && (item.Generated? <==> cs[i].id == ""))
  {
    assert ContractItems(models, t, pin, cs, ids)[i] == PrepareContract(models, ContractRequest(t, pin, cs[i]), ids(i));
  }

  lemma ContractsStop(models: Log<ModelBody>, log: Log<Stored<ContractBody>>, t: string, pin: Pin,
      cs: seq<BundleContract>, ids: nat -> FreshId)
    returns (n: nat)
    requires Dense(log) && PinUsable(models, t, pin)
    ensures |PutItems(models, log, ContractItems(models, t, pin, cs, ids)).log| == |log| + n
    ensures PutItems(models, log, ContractItems(models, t, pin, cs, ids)).error.None? <==> n == |cs|
    ensures n == Leading(|cs|, ContractGoes(log, t, cs, ids))
  {
    var items := ContractItems(models, t, pin, cs, ids);
    n := PutItemsStop(models, log, items);
    forall i | 0 <= i <= n && i < |cs| ensures ContractGoes(log, t, cs, ids)(i) <==> Goes(models, log, items, i) {
      forall j | 0 <= j < i ensures !items[j].Reject? { assert Goes(models, log, items, j); }
      forall j | 0 <= j <= i && !items[j].Reject? ensures items[j].key == [t, FirstNonEmpty(cs[j].id, ids(j))] {
        ContractItem(models, t, pin, cs, ids, j);
      }
      ContractItem(models, t, pin, cs, ids, i);
      if ContractWellFormed(cs[i]) { KeyFreeIff(log, t, ContractIdsOf(cs), ids, items, i); }
    }
    LeadingIs(n, |cs|, ContractGoes(log, t, cs, ids));
  }

  lemma ModelRowCreated(db: Db, b: Bundle, opts: Options, ids: Ids)
    requires ValidDb(db) && TenantUsable(db, b, opts, ids)
    ensures ModelRow(db, b, opts, ids).Ok? <==>
      (b.model.modelId == "" ==> MaxVersion(db.models, [TargetTenant(db, b, opts, ids), ids.model]) == 0)
  {
    var t := TargetTenant(db, b, opts, ids);
    TargetValid(db, b, opts, ids);
    Parts(db);
    var m := ImportedModel(t, b, opts);
    PutItemLands(db.models, PrepareModel(m, ids.model), None, true);
  }

  /** The cuts by which the four tables were filled are those read off the bundle. */
  lemma FilledAtCuts(db: Db, out: Db, t: string, pin: Pin, b: Bundle, withContracts: bool, ids: Ids, c: Cuts)
    requires Dense(db.nodes) && Dense(db.edges) && Dense(db.props) && Dense(db.contracts)
    requires PinUsable(db.models, t, pin) && TablesLeft(db, out, t, pin, b, withContracts, ids)
    requires Filled(db, out, c)
    ensures c == CutsFor(db, t, b, withContracts, ids)
  {
    var n := NodesStop(db.models, db.nodes, t, pin, b.nodes, ids.node);
    n := EdgesStop(db.models, db.edges, t, pin, b.edges);
    n := PropertiesStop(db.models, db.props, t, pin, b.properties);
    n := ContractsStop(db.models, db.contracts, t, pin, b.contracts, ids.contract);
  }

  /** Filling the tables under a fresh pin. */
  lemma RowsStop(db: Db, t: string, pin: Pin, b: Bundle, withContracts: bool, ids: Ids)
    requires UsablePin(db, t, pin) && PinExists(db.models, t, pin)
    ensures
      var imp, c := ImportRows(db, t, pin, b, withContracts, ids), CutsFor(db, t, b, withContracts, ids);
      && ValidDb(imp.db) && SectionsUpTo(imp.db, t, pin, b, ids, c)
      && (imp.result.Ok? <==> Complete(b, withContracts, c)) && (imp.result.Ok? ==> imp.result.value == pin)
  {
    var out := ImportRows(db, t, pin, b, withContracts, ids).db;
    ImportRowsFrame(db, t, pin, b, withContracts, ids);
    ImportLeaves(db, t, pin, b, withContracts, ids);
    ImportedRowsValid(db, t, pin, b, withContracts, ids);
    ImportedResult(db, t, pin, b, withContracts, ids);
    var c := ImportedRowsKeep(db, out, t, pin, b, withContracts, ids);
    Parts(db);
    FilledAtCuts(db, out, t, pin, b, withContracts, ids, c);
  }

  lemma SameCuts(db: Db, db2: Db, t: string, b: Bundle, withContracts: bool, ids: Ids)
    requires db2.nodes == db.nodes && db2.contracts == db.contracts
    ensures CutsFor(db2, t, b, withContracts, ids) == CutsFor(db, t, b, withContracts, ids)
  {}

  /** Where an import stops. Past its model version, for every bundle and valid database, the cuts are
      determined by the bundle and the earlier database, each section is the canonical form of its
      elements before the cut, and the import succeeds iff nothing is cut off. */
  lemma ImportStops(db: Db, b: Bundle, opts: Options, ids: Ids)
    requires ValidDb(db) && TenantUsable(db, b, opts, ids) && ModelRow(db, b, opts, ids).Ok?
    ensures
      var imp, t := ImportOf(db, b, opts, ids), TargetTenant(db, b, opts, ids);
      var pin, c := PinOf(ModelRow(db, b, opts, ids).value), CutsFor(db, t, b, opts.withContracts, ids);
      && ValidDb(imp.db)
      && SectionsUpTo(imp.db, t, pin, b, ids, c)
      && (imp.result.Ok? <==> Complete(b, opts.withContracts, c)) && (imp.result.Ok? ==> imp.result.value == pin)
      && imp.db.models == db.models + [ModelRow(db, b, opts, ids).value]
      && imp.db.tenants == TargetDb(db, b, opts, ids).tenants
  {
    ImportUnfolds(db, b, opts, ids);
    var t, row, named := TargetTenant(db, b, opts, ids), ModelRow(db, b, opts, ids).value, NamedDb(db, b, opts, ids);
    var db1 := named.(models := named.models + [row]);
    RowsStop(db1, t, PinOf(row), b, opts.withContracts, ids);
    ImportRowsFrame(db1, t, PinOf(row), b, opts.withContracts, ids);
    SameCuts(db, db1, t, b, opts.withContracts, ids);
  }

  /** Nothing is cut off iff every row is well formed and every generated id is free. */
  lemma CompleteIff(db: Db, t: string, b: Bundle, withContracts: bool, ids: Ids)
    ensures Complete(b, withContracts, CutsFor(db, t, b, withContracts, ids)) <==>
      && WellFormed(b, withContracts) && IdsFree(db.nodes, t, NodeIdsOf(b.nodes), ids.node)
      && (withContracts ==> IdsFree(db.contracts, t, ContractIdsOf(b.contracts), ids.contract))
  {
    if Complete(b, withContracts, CutsFor(db, t, b, withContracts, ids)) {
      forall i | 0 <= i < |b.nodes|
        ensures NodeWellFormed(b.nodes[i]) && IdFree(db.nodes, t, NodeIdsOf(b.nodes), ids.node, i)
      {
        assert NodeGoes(db.nodes, t, b.nodes, ids.node)(i);
      }
      forall i | 0 <= i < |b.edges| ensures EdgeWellFormed(b.edges[i]) { assert EdgeGoes(b.edges)(i); }
      forall i | 0 <= i < |b.properties| ensures PropertyWellFormed(b.properties[i]) {
        assert PropertyGoes(b.properties)(i);
      }
      forall i | 0 <= i < |b.contracts| && withContracts
        ensures ContractWellFormed(b.contracts[i])
          && IdFree(db.contracts, t, ContractIdsOf(b.contracts), ids.contract, i)
      {
        assert ContractGoes(db.contracts, t, b.contracts, ids.contract)(i);
      }
    }
  }

  /** An import succeeds exactly when a tenant is named, every row has its required fields and the
      identifiers the database generates are unused; nothing already stored can make it fail. */
  lemma ImportSucceedsIff(db: Db, b: Bundle, opts: Options, ids: Ids)
    requires ValidDb(db)
    ensures ImportOf(db, b, opts, ids).result.Ok? <==>
      && TenantUsable(db, b, opts, ids) && WellFormed(b, opts.withContracts)
      && GeneratedIdsFree(db, TargetTenant(db, b, opts, ids), b, opts.withContracts, ids)
  {
    if TenantUsable(db, b, opts, ids) {
      ModelRowCreated(db, b, opts, ids);
      if ModelRow(db, b, opts, ids).Ok? {
        ImportStops(db, b, opts, ids);
        CompleteIff(db, TargetTenant(db, b, opts, ids), b, opts.withContracts, ids);
      }
    }
  }

  // --- what is exported after an import ---

  /** The bundle's sections up to the cuts, completed, last duplicates kept, sorted. */
  ghost predicate ShowsUpTo(e: Bundle, b: Bundle, withContracts: bool, ids: Ids, pin: Pin, c: Cuts)
    requires CutsWithin(b, c)
  {
    && Canonical(e.nodes, FilledNodes(b.nodes, ids.node)[..c.nodes], NodeKey)
    && Canonical(e.edges, Map(b.edges, FilledEdge)[..c.edges], EdgeKey)
    && Canonical(e.properties, b.properties[..c.properties], PropertyKey)
    && (if withContracts
        then Canonical(e.contracts, FilledContracts(b.contracts, ids.contract, pin)[..c.contracts], BundleContractKey)
        else e.contracts == [])
  }

  ghost predicate ExportsUpTo(e: Bundle, b: Bundle, opts: Options, ids: Ids, pin: Pin, c: Cuts)
    requires CutsWithin(b, c)
  {
    && e.model == BundleModel(pin.model, pin.version, "enabled", FirstNonEmpty(opts.changeNote, b.model.changeNote))
    && pin.model == FirstNonEmpty(b.model.modelId, ids.model)
    && ShowsUpTo(e, b, opts.withContracts, ids, pin, c)
  }

  /** When the pin is the tenant's latest enabled version, its sections are what the tenant exports. */
  lemma StoredIsExported(db: Db, name: string, pin: Pin, b: Bundle, withContracts: bool, ids: Ids, c: Cuts)
    requires name != "" && name in db.tenants && LatestEnabled(db.models, db.tenants[name]).Some?
    requires PinOf(LatestEnabled(db.models, db.tenants[name]).value) == pin
    requires CutsWithin(b, c) && SectionsUpTo(db, db.tenants[name], pin, b, ids, c)
    ensures var exported := ExportOf(db, name, withContracts);
      exported.Ok? && ShowsUpTo(exported.value, b, withContracts, ids, pin, c)
  {
    LastWinsCanonical(FilledNodes(b.nodes, ids.node)[..c.nodes], NodeKey);
    LastWinsCanonical(Map(b.edges, FilledEdge)[..c.edges], EdgeKey);
    LastWinsCanonical(b.properties[..c.properties], PropertyKey);
    LastWinsCanonical(FilledContracts(b.contracts, ids.contract, pin)[..c.contracts], BundleContractKey);
  }

  lemma ExportsWhole(e: Bundle, b: Bundle, opts: Options, ids: Ids, pin: Pin, c: Cuts)
    requires CutsWithin(b, c) && ShowsUpTo(e, b, opts.withContracts, ids, pin, c) && Complete(b, opts.withContracts, c)
    ensures Canonical(e.nodes, FilledNodes(b.nodes, ids.node), NodeKey)
    ensures Canonical(e.edges, Map(b.edges, FilledEdge), EdgeKey)
    ensures Canonical(e.properties, b.properties, PropertyKey)
    ensures opts.withContracts ==>
      Canonical(e.contracts, FilledContracts(b.contracts, ids.contract, pin), BundleContractKey)
  {
    assert FilledNodes(b.nodes, ids.node)[..|b.nodes|] == FilledNodes(b.nodes, ids.node);
    assert Map(b.edges, FilledEdge)[..|b.edges|] == Map(b.edges, FilledEdge);
    assert b.properties[..|b.properties|] == b.properties;
    var cs := FilledContracts(b.contracts, ids.contract, pin);
    assert cs[..|b.contracts|] == cs;
  }

  /** An import is not one transaction. An enabled import that creates its model version is exported
      from then on, whether or not its puts succeed: what the export shows is the canonical form of
      each section up to its cut. */
  lemma FailedImportPublishes(db: Db, b: Bundle, opts: Options, ids: Ids)
    requires ValidDb(db) && TenantUsable(db, b, opts, ids) && ModelRow(db, b, opts, ids).Ok?
    requires ImportStatus(b, opts) == "enabled"
    ensures
      var imp := ImportOf(db, b, opts, ids);
      var exported := ExportOf(imp.db, ImportTenant(b, opts), opts.withContracts);
      var c := CutsFor(db, TargetTenant(db, b, opts, ids), b, opts.withContracts, ids);
      && ValidDb(imp.db) && exported.Ok?
      && ExportsUpTo(exported.value, b, opts, ids, PinOf(ModelRow(db, b, opts, ids).value), c)
      && (imp.result.Ok? <==> Complete(b, opts.withContracts, c))
      && (imp.result.Ok? ==> imp.result.value == PinOf(ModelRow(db, b, opts, ids).value))
  {
    ImportUnfolds(db, b, opts, ids);
    ImportStops(db, b, opts, ids);
    var c := CutsFor(db, TargetTenant(db, b, opts, ids), b, opts.withContracts, ids);
    var pin := PinOf(ModelRow(db, b, opts, ids).value);
    StoredIsExported(ImportOf(db, b, opts, ids).db, ImportTenant(b, opts), pin, b, opts.withContracts, ids, c);
  }

  /** Import then export is canonicalisation. For every valid database and every bundle, after a
      successful enabled import the export shows the new model version with exactly the bundle's
      nodes, edges, properties and contracts: completed, last duplicate of each key kept, sorted. */
  lemma ImportThenExport(db: Db, b: Bundle, opts: Options, ids: Ids)
    requires ValidDb(db) && ImportStatus(b, opts) == "enabled" && ImportOf(db, b, opts, ids).result.Ok?
    ensures
      var imp := ImportOf(db, b, opts, ids);
      var exported := ExportOf(imp.db, ImportTenant(b, opts), opts.withContracts);
      var pin := imp.result.value;
      && ValidDb(imp.db) && exported.Ok?
      && var e := exported.value;
      && e.model == BundleModel(pin.model, pin.version, "enabled", FirstNonEmpty(opts.changeNote, b.model.changeNote))
      && pin.model == FirstNonEmpty(b.model.modelId, ids.model)
      && Canonical(e.nodes, FilledNodes(b.nodes, ids.node), NodeKey)
      && Canonical(e.edges, Map(b.edges, FilledEdge), EdgeKey)
      && Canonical(e.properties, b.properties, PropertyKey)
      && (if opts.withContracts
           then Canonical(e.contracts, FilledContracts(b.contracts, ids.contract, pin), BundleContractKey)
          else e.contracts == [])
  {
    SuccessNeedsModel(db, b, opts, ids);
    FailedImportPublishes(db, b, opts, ids);
    var c := CutsFor(db, TargetTenant(db, b, opts, ids), b, opts.withContracts, ids);
    var e := ExportOf(ImportOf(db, b, opts, ids).db, ImportTenant(b, opts), opts.withContracts).value;
    ExportsWhole(e, b, opts, ids, ImportOf(db, b, opts, ids).result.value, c);
  }

  // --- when an import moves the pointer ---

  /** The row an import creates was not there before. */
  lemma ModelRowIsNew(db: Db, b: Bundle, opts: Options, ids: Ids)
    requires ValidDb(db) && TenantUsable(db, b, opts, ids) && ModelRow(db, b, opts, ids).Ok?
    ensures ModelRow(db, b, opts, ids).value !in db.models
  {
    ImportUnfolds(db, b, opts, ids);
    var row := ModelRow(db, b, opts, ids).value;
    if row in db.models {
      RowExists(db.models, row);
    }
  }

  /** An import is enabled iff it is asked to be, or the bundle's model is. */
  lemma EnabledIff(b: Bundle, opts: Options)
    ensures ImportStatus(b, opts) == "enabled" <==> opts.enableImported || b.model.status == "enabled"
  {}

  /** The tenant an import is for: a tenant option wins over the bundle's own name, and only a name that is
      not known yet gets the generated id. */
  lemma ImportTarget(db: Db, b: Bundle, opts: Options, ids: Ids)
    ensures
      var name := if opts.tenantName != "" then opts.tenantName else b.tenant;
      && ImportTenant(b, opts) == name
      && TargetTenant(db, b, opts, ids) == (if name in db.tenants then db.tenants[name] else ids.tenant)
      && (TenantUsable(db, b, opts, ids) <==> name != "" && (name in db.tenants || ids.tenant !in db.tenants.Values))
      && (name == "" ==> ImportOf(db, b, opts, ids) == Imported(db, Err(TenantNameMissing)))
  {}

  /** The model version an import creates: the bundle's lineage or a generated one, its next version,
      enabled if asked for, otherwise with the bundle's status and a draft when it has none. */
  lemma ImportedModelIs(db: Db, b: Bundle, opts: Options, ids: Ids)
    requires ValidDb(db) && TenantUsable(db, b, opts, ids) && ModelRow(db, b, opts, ids).Ok?
    ensures
      var imp, row := ImportOf(db, b, opts, ids), ModelRow(db, b, opts, ids).value;
      var name := if opts.tenantName != "" then opts.tenantName else b.tenant;
      var t := if name in db.tenants then db.tenants[name] else ids.tenant;
      && imp.db.models == db.models + [row] && imp.db.tenants == db.tenants[name := t]
      && row.key == [t, if b.model.modelId != "" then b.model.modelId else ids.model]
      && row.version == MaxVersion(db.models, row.key) + 1
      && row.val.status ==
           (if opts.enableImported then "enabled" else if b.model.status != "" then b.model.status else "draft")
      && row.val.changeNote == (if opts.changeNote != "" then opts.changeNote else b.model.changeNote)
  {
    ImportTarget(db, b, opts, ids);
    TargetValid(db, b, opts, ids);
    ImportStops(db, b, opts, ids);
    var t := TargetTenant(db, b, opts, ids);
    WithNamesValid(TargetDb(db, b, opts, ids), t, b);
    PutModelMeaning(NamedDb(db, b, opts, ids), ImportedModel(t, b, opts), ids.model);
  }

  /** When an import moves the tenant's latest enabled version: exactly when it is to be enabled and gets
      as far as its model version. Whether its rows can be put plays no part. */
  lemma ImportMovesPointerIff(db: Db, b: Bundle, opts: Options, ids: Ids)
    requires ValidDb(db)
    ensures
      var name := if opts.tenantName != "" then opts.tenantName else b.tenant;
      var t := if name in db.tenants then db.tenants[name] else ids.tenant;
      LatestEnabled(ImportOf(db, b, opts, ids).db.models, t) != LatestEnabled(db.models, t) <==>
        && (opts.enableImported || b.model.status == "enabled")
        && name != "" && (name in db.tenants || ids.tenant !in db.tenants.Values)
        && (b.model.modelId == "" ==> MaxVersion(db.models, [t, ids.model]) == 0)
  {
    var t := TargetTenant(db, b, opts, ids);
    ImportTarget(db, b, opts, ids);
    EnabledIff(b, opts);
    if TenantUsable(db, b, opts, ids) {
      ModelRowCreated(db, b, opts, ids);
      if ModelRow(db, b, opts, ids).Ok? {
        ImportedModelIs(db, b, opts, ids);
        ModelRowIsNew(db, b, opts, ids);
        NewRowMovesPointerIff(db.models, ModelRow(db, b, opts, ids).value, t);
      }
    }
  }

  lemma NewRowMovesPointerIff(models: Log<ModelBody>, row: Row<ModelBody>, t: string)
    requires Tenant(row.key) == t && row !in models
    ensures LatestEnabled(models + [row], t) != LatestEnabled(models, t) <==> row.val.status == "enabled"
  {
    LatestEnabledMember(models, t);
    assert (models + [row])[..|models|] == models;
  }

  /** Two nodes, the second without a type, and an edge between them. */
  function BrokenBundle(): Bundle {
    Bundle("t", BundleModel("m", 1, "enabled", ""), [], [],
      [BundleNode("a", "node", "actor", None), BundleNode("b", "node", "", None)],
      [BundleEdge("a", "b", "edge", "provides", None)], [], [])
  }

  /** Importing it fails for any tenant, and the tenant then exports its first node and no edge. */
  lemma BrokenBundleIsPublished(db: Db, opts: Options, ids: Ids)
    requires ValidDb(db) && TenantUsable(db, BrokenBundle(), opts, ids)
    ensures
      var b := BrokenBundle();
      var imp, t := ImportOf(db, b, opts, ids), TargetTenant(db, b, opts, ids);
      var exported := ExportOf(imp.db, ImportTenant(b, opts), opts.withContracts);
      && imp.result.Err? && LatestEnabled(imp.db.models, t) != LatestEnabled(db.models, t)
      && exported.Ok? && exported.value.nodes == [b.nodes[0]] && exported.value.edges == []
  {
    var b := BrokenBundle();
    ModelRowCreated(db, b, opts, ids);
    ImportMovesPointerIff(db, b, opts, ids);
    FailedImportPublishes(db, b, opts, ids);
    BrokenCuts(db, TargetTenant(db, b, opts, ids), opts.withContracts, ids);
    var c := CutsFor(db, TargetTenant(db, b, opts, ids), b, opts.withContracts, ids);
    BrokenExport(ExportOf(ImportOf(db, b, opts, ids).db, ImportTenant(b, opts), opts.withContracts).value, ids, c);
  }

  lemma BrokenExport(e: Bundle, ids: Ids, c: Cuts)
    requires c.nodes == 1 && c.edges == 0
    requires Canonical(e.nodes, FilledNodes(BrokenBundle().nodes, ids.node)[..c.nodes], NodeKey)
    requires Canonical(e.edges, Map(BrokenBundle().edges, FilledEdge)[..c.edges], EdgeKey)
    ensures e.nodes == [BrokenBundle().nodes[0]] && e.edges == []
  {
    var b := BrokenBundle();
    var ns := FilledNodes(b.nodes, ids.node)[..1];
    assert ns == [b.nodes[0]] by {
      assert FilledNodes(b.nodes, ids.node)[0] == FilledNode(b.nodes[0], ids.node(0));
    }
    SameCanonical(e.nodes, ns, NodeKey);
    SameCanonical(e.edges, [], EdgeKey);
  }

  lemma BrokenCuts(db: Db, t: string, withContracts: bool, ids: Ids)
    ensures CutsFor(db, t, BrokenBundle(), withContracts, ids) == Cuts(1, 0, 0, 0)
  {
    var b := BrokenBundle();
    var goes := NodeGoes(db.nodes, t, b.nodes, ids.node);
    assert NodeIdsOf(b.nodes)[0] == "a" && b.nodes[0].typ != "" && b.nodes[1].typ == "";
    assert goes(0) && !goes(1);
    LeadingIs(1, 2, goes);
  }

  // --- export is a fixed point ---

  /** Every node and, when exported, every contract carries its id. */
  predicate ExplicitIds(b: Bundle, withContracts: bool) {
    && (forall n :: n in b.nodes ==> n.id != "")
    && (withContracts ==> forall c :: c in b.contracts ==> c.id != "")
  }

  lemma ExplicitIdsAreFree(db: Db, t: string, b: Bundle, withContracts: bool, ids: Ids)
    requires ExplicitIds(b, withContracts) && b.model.modelId != ""
    ensures GeneratedIdsFree(db, t, b, withContracts, ids)
  {
    forall i | 0 <= i < |b.nodes| ensures NodeIdsOf(b.nodes)[i] != "" {
      assert b.nodes[i] in b.nodes;
    }
    forall i | 0 <= i < |b.contracts| && withContracts ensures ContractIdsOf(b.contracts)[i] != "" {
      assert b.contracts[i] in b.contracts;
    }
  }

  /** What every exported section satisfies: explicit keys, completed fields, sorted. */
  lemma ExportedNodesComplete(db: Db, t: string, pin: Pin)
    requires ValidDb(db)
    ensures var ns := Map(Query(db.nodes, AtPin(t, pin)), ToNode);
      && Sorted(ns, NodeKey)
      && forall i :: 0 <= i < |ns| ==> ns[i].id != "" && NodeWellFormed(ns[i]) && FilledNode(ns[i], "") == ns[i]
  {
    var rows := Query(db.nodes, AtPin(t, pin));
    var ns := Map(rows, ToNode);
    assert PartOk(db, NodePart);
    QueryMeaning(db.nodes, AtPin(t, pin));
    ExportedNodes(db, t, pin);
    LastWinsCanonical(Map(Filter(db.nodes, AtPin(t, pin)), ToNode), NodeKey);
    forall i | 0 <= i < |ns| ensures ns[i].id != "" && NodeWellFormed(ns[i]) && FilledNode(ns[i], "") == ns[i] {
      assert rows[i] in rows;
      assert NodeOk(rows[i].key, rows[i].val.body);
      assert rows[i].key[1] in rows[i].key;
    }
  }

  lemma ExportedEdgesComplete(db: Db, t: string, pin: Pin)
    requires ValidDb(db)
    ensures var es := Map(Query(db.edges, AtPin(t, pin)), ToEdge);
      && Sorted(es, EdgeKey)
      && forall i :: 0 <= i < |es| ==> EdgeWellFormed(es[i]) && FilledEdge(es[i]) == es[i]
  {
    var rows := Query(db.edges, AtPin(t, pin));
    var es := Map(rows, ToEdge);
    assert PartOk(db, EdgePart);
    QueryMeaning(db.edges, AtPin(t, pin));
    ExportedEdges(db, t, pin);
    LastWinsCanonical(Map(Filter(db.edges, AtPin(t, pin)), ToEdge), EdgeKey);
    forall i | 0 <= i < |es| ensures EdgeWellFormed(es[i]) && FilledEdge(es[i]) == es[i] {
      assert rows[i] in rows;
      var k := rows[i].key;
      assert EdgeOk(k, rows[i].val.body);
      assert k[1] in k && k[2] in k && k[3] in k && k[4] in k;
    }
  }

  lemma ExportedPropertiesComplete(db: Db, t: string, pin: Pin)
    requires ValidDb(db)
    ensures var ps := Map(Query(db.props, AtPin(t, pin)), ToProperty);
      && Sorted(ps, PropertyKey) && forall i :: 0 <= i < |ps| ==> PropertyWellFormed(ps[i])
  {
    var rows := Query(db.props, AtPin(t, pin));
    var ps := Map(rows, ToProperty);
    assert PartOk(db, PropertyPart);
    QueryMeaning(db.props, AtPin(t, pin));
    ExportedProperties(db, t, pin);
    LastWinsCanonical(Map(Filter(db.props, AtPin(t, pin)), ToProperty), PropertyKey);
    forall i | 0 <= i < |ps| ensures PropertyWellFormed(ps[i]) {
      assert rows[i] in rows;
      var k := rows[i].key;
      assert PropertyOk(k, rows[i].val.body);
      assert k[1] in k && k[2] in k && k[3] in k;
    }
  }

  lemma ExportedContractsComplete(db: Db, t: string, pin: Pin)
    requires ValidDb(db)
    ensures var cs := Map(Query(db.contracts, AtPin(t, pin)), ToContract(db.reasons, db.obligations, t));
      && Sorted(cs, BundleContractKey)
      && forall i :: 0 <= i < |cs| ==>
           cs[i].id != "" && ContractWellFormed(cs[i]) && cs[i].domain != "" && Omit(cs[i].blob) == cs[i].blob
  {
    var rows, f := Query(db.contracts, AtPin(t, pin)), ToContract(db.reasons, db.obligations, t);
    var cs := Map(rows, f);
    assert PartOk(db, ContractPart);
    QueryMeaning(db.contracts, AtPin(t, pin));
    ExportedContracts(db, t, pin);
    LastWinsCanonical(Map(Filter(db.contracts, AtPin(t, pin)), f), BundleContractKey);
    forall i | 0 <= i < |cs|
      ensures cs[i].id != "" && ContractWellFormed(cs[i]) && cs[i].domain != "" && Omit(cs[i].blob) == cs[i].blob
    {
      assert rows[i] in rows;
      assert ContractOk(rows[i].key, rows[i].val.body);
      assert rows[i].key[1] in rows[i].key;
    }
  }

  /** c with another pin and without the extras that import does not write. */
  function Repinned(pin: Pin): BundleContract -> BundleContract {
    (c: BundleContract) => c.(modelId := pin.model, modelVersion := pin.version, reasons := [], obligations := [])
  }

  lemma ExportIsWellFormed(db: Db, name: string, withContracts: bool)
    requires ValidDb(db) && ExportOf(db, name, withContracts).Ok?
    ensures var e := ExportOf(db, name, withContracts).value;
      e.model.modelId != "" && WellFormed(e, withContracts) && ExplicitIds(e, withContracts)
  {
    var t := db.tenants[name];
    LatestEnabledMember(db.models, t);
    var mv := LatestEnabled(db.models, t).value;
    var pin := PinOf(mv);
    assert PartOk(db, ModelPart);
    assert ModelOk(mv.key, mv.val) && mv.key[1] in mv.key;
    ExportedNodesComplete(db, t, pin);
    ExportedEdgesComplete(db, t, pin);
    ExportedPropertiesComplete(db, t, pin);
    ExportedContractsComplete(db, t, pin);
  }

  /** Export is a fixed point: an exported bundle can be imported into any tenant of any valid
      database, and exporting again gives the same nodes, edges and properties and the same model id;
      contracts come back re-pinned and without reasons and obligations. */
  lemma ExportFixedPoint(db: Db, name: string, withContracts: bool, db2: Db, opts: Options, ids: Ids)
    requires ValidDb(db) && ValidDb(db2) && ExportOf(db, name, withContracts).Ok?
    requires var e := ExportOf(db, name, withContracts).value;
      opts.withContracts == withContracts && TenantUsable(db2, e, opts, ids)
    ensures
      var e := ExportOf(db, name, withContracts).value;
      var imp := ImportOf(db2, e, opts, ids);
      && imp.result.Ok?
      && var again := ExportOf(imp.db, ImportTenant(e, opts), withContracts);
      && again.Ok?
      && again.value.nodes == e.nodes && again.value.edges == e.edges && again.value.properties == e.properties
      && again.value.model.modelId == e.model.modelId
      && again.value.contracts == Map(e.contracts, Repinned(imp.result.value))
  {
    var e := ExportOf(db, name, withContracts).value;
    var t := db.tenants[name];
    var pin := PinOf(LatestEnabled(db.models, t).value);
    LatestEnabledMember(db.models, t);
    assert ImportStatus(e, opts) == "enabled";
    ExportIsWellFormed(db, name, withContracts);
    ExplicitIdsAreFree(db2, TargetTenant(db2, e, opts, ids), e, withContracts, ids);
    ImportSucceedsIff(db2, e, opts, ids);
    ImportThenExport(db2, e, opts, ids);
    var pin2 := ImportOf(db2, e, opts, ids).result.value;
    var again := ExportOf(ImportOf(db2, e, opts, ids).db, ImportTenant(e, opts), withContracts).value;

    NodesFixed(db, t, pin, again.nodes, ids.node);
    EdgesFixed(db, t, pin, again.edges);
    ExportedPropertiesComplete(db, t, pin);
    SameCanonical(again.properties, e.properties, PropertyKey);
    if withContracts {
      ContractsFixed(db, t, pin, pin2, again.contracts, ids.contract);
    }
  }

  /** What an export says of itself: the tenant's name and the most recently created enabled model version;
      it fails exactly when there is no name, no such tenant or no such version. */
  lemma ExportHeader(db: Db, name: string, withContracts: bool)
    requires ValidDb(db)
    ensures
      var exported := ExportOf(db, name, withContracts);
      && (exported.Err? <==> name == "" || name !in db.tenants || NoneEnabled(db.models, db.tenants[name]))
      && (exported.Err? ==> exported.error == if name == "" then TenantNameMissing else NotFound)
      && (exported.Ok? ==>
            && exported.value.tenant == name && (!withContracts ==> exported.value.contracts == [])
            && exists i :: NewestEnabled(db.models, db.tenants[name], i)
                 && db.models[i].key == [db.tenants[name], exported.value.model.modelId]
                 && exported.value.model.version == db.models[i].version && exported.value.model.status == "enabled"
                 && exported.value.model.changeNote == db.models[i].val.changeNote)
  {
    if name != "" && name in db.tenants {
      var t := db.tenants[name];
      Parts(db);
      LatestEnabledAt(db.models, t);
      if LatestEnabled(db.models, t).Some? {
        var i :| NewestEnabled(db.models, t, i) && db.models[i] == LatestEnabled(db.models, t).value;
        assert db.models[i] in db.models && ModelOk(db.models[i].key, db.models[i].val);
        assert db.models[i].key == [t, db.models[i].key[1]];
      }
    }
  }

  /** An exported file imported where it came from, without a tenant option, goes back to its own tenant
      and changes nothing but the model version that is exported. */
  lemma ReimportIsStable(db: Db, name: string, withContracts: bool, opts: Options, ids: Ids)
    requires ValidDb(db) && ExportOf(db, name, withContracts).Ok?
    requires opts.tenantName == "" && opts.withContracts == withContracts
    ensures
      var e := ExportOf(db, name, withContracts).value;
      var imp := ImportOf(db, e, opts, ids);
      && imp.result.Ok? && imp.db.tenants == db.tenants
      && var again := ExportOf(imp.db, name, withContracts);
      && again.Ok? && again.value.tenant == name
      && again.value.nodes == e.nodes && again.value.edges == e.edges && again.value.properties == e.properties
      && again.value.model.modelId == e.model.modelId && again.value.model.version > e.model.version
  {
    var e := ExportOf(db, name, withContracts).value;
    ExportHeader(db, name, withContracts);
    ImportTarget(db, e, opts, ids);
    ExportFixedPoint(db, name, withContracts, db, opts, ids);
    HomeTenant(db, e, opts, ids);
    NewerVersion(db, name, withContracts, opts, ids);
  }

  /** A bundle of a known tenant, imported without a tenant option, creates no tenant. */
  lemma HomeTenant(db: Db, b: Bundle, opts: Options, ids: Ids)
    requires ValidDb(db) && b.tenant in db.tenants && opts.tenantName == "" && ImportOf(db, b, opts, ids).result.Ok?
    ensures TenantUsable(db, b, opts, ids) && ModelRow(db, b, opts, ids).Ok?
      && ImportOf(db, b, opts, ids).db.tenants == db.tenants
  {
    SuccessNeedsModel(db, b, opts, ids);
    ImportTarget(db, b, opts, ids);
    ImportedModelIs(db, b, opts, ids);
  }

  lemma NewerVersion(db: Db, name: string, withContracts: bool, opts: Options, ids: Ids)
    requires ValidDb(db) && ExportOf(db, name, withContracts).Ok?
    requires var e := ExportOf(db, name, withContracts).value;
      && opts.tenantName == "" && TenantUsable(db, e, opts, ids) && ModelRow(db, e, opts, ids).Ok?
      && ImportOf(db, e, opts, ids).result.Ok?
    ensures var e := ExportOf(db, name, withContracts).value;
      var again := ExportOf(ImportOf(db, e, opts, ids).db, name, opts.withContracts);
      again.Ok? && again.value.tenant == name && again.value.model.version > e.model.version
  {
    var e := ExportOf(db, name, withContracts).value;
    ExportHeader(db, name, withContracts);
    ExportIsWellFormed(db, name, withContracts);
    ImportedModelIs(db, e, opts, ids);
    ImportThenExport(db, e, opts, ids);
    ImportUnfolds(db, e, opts, ids);
    ImportStops(db, e, opts, ids);
    var i :| NewestEnabled(db.models, db.tenants[name], i) && db.models[i].key == [db.tenants[name], e.model.modelId]
      && e.model.version == db.models[i].version;
    MaxBounds(db.models, db.models[i].key);
    assert db.models[i] in db.models;
    ExportHeader(ImportOf(db, e, opts, ids).db, name, opts.withContracts);
  }

  lemma NodesFixed(db: Db, t: string, pin: Pin, again: seq<BundleNode>, ids: nat -> FreshId)
    requires ValidDb(db) && Canonical(again, FilledNodes(Map(Query(db.nodes, AtPin(t, pin)), ToNode), ids), NodeKey)
    ensures again == Map(Query(db.nodes, AtPin(t, pin)), ToNode)
  {
    var ns := Map(Query(db.nodes, AtPin(t, pin)), ToNode);
    ExportedNodesComplete(db, t, pin);
    assert FilledNodes(ns, ids) == ns by {
      forall i | 0 <= i < |ns| ensures FilledNodes(ns, ids)[i] == ns[i] {
        assert FilledNode(ns[i], "") == ns[i] && FilledNode(ns[i], ids(i)) == ns[i];
      }
    }
    SameCanonical(again, ns, NodeKey);
  }

  lemma EdgesFixed(db: Db, t: string, pin: Pin, again: seq<BundleEdge>)
    requires ValidDb(db) && Canonical(again, Map(Map(Query(db.edges, AtPin(t, pin)), ToEdge), FilledEdge), EdgeKey)
    ensures again == Map(Query(db.edges, AtPin(t, pin)), ToEdge)
  {
    var es := Map(Query(db.edges, AtPin(t, pin)), ToEdge);
    ExportedEdgesComplete(db, t, pin);
    assert Map(es, FilledEdge) == es;
    SameCanonical(again, es, EdgeKey);
  }

  /** Completing an exported contract re-pins it and drops its extras, nothing else. */
  lemma RepinnedContracts(cs: seq<BundleContract>, ids: nat -> FreshId, pin: Pin)
    requires forall i :: 0 <= i < |cs| ==> cs[i].id != "" && cs[i].domain != "" && Omit(cs[i].blob) == cs[i].blob
    ensures FilledContracts(cs, ids, pin) == Map(cs, Repinned(pin))
  {
    var fs, us := FilledContracts(cs, ids, pin), Map(cs, Repinned(pin));
    forall i | 0 <= i < |cs| ensures fs[i] == us[i] {
      assert fs[i] == FilledContract(cs[i], ids(i), pin);
      assert us[i] == Repinned(pin)(cs[i]);
    }
  }

  lemma RepinnedSorted(cs: seq<BundleContract>, pin: Pin)
    requires Sorted(cs, BundleContractKey)
    ensures Sorted(Map(cs, Repinned(pin)), BundleContractKey)
  {
    var us := Map(cs, Repinned(pin));
    forall i, j | 0 <= i < j < |us| ensures KeyLess(BundleContractKey(us[i]), BundleContractKey(us[j])) {
      assert KeyLess(BundleContractKey(cs[i]), BundleContractKey(cs[j]));
    }
  }

  lemma ContractsFixed(db: Db, t: string, pin: Pin, pin2: Pin, again: seq<BundleContract>, ids: nat -> FreshId)
    requires ValidDb(db)
    requires var cs := Map(Query(db.contracts, AtPin(t, pin)), ToContract(db.reasons, db.obligations, t));
      Canonical(again, FilledContracts(cs, ids, pin2), BundleContractKey)
    ensures var cs := Map(Query(db.contracts, AtPin(t, pin)), ToContract(db.reasons, db.obligations, t));
      again == Map(cs, Repinned(pin2))
  {
    var cs := Map(Query(db.contracts, AtPin(t, pin)), ToContract(db.reasons, db.obligations, t));
    ExportedContractsComplete(db, t, pin);
    RepinnedContracts(cs, ids, pin2);
    RepinnedSorted(cs, pin2);
    SameCanonical(again, Map(cs, Repinned(pin2)), BundleContractKey);
  }

  lemma SameCanonical<T(!new)>(xs: seq<T>, ys: seq<T>, key: T -> Key)
    requires Canonical(xs, ys, key) && Sorted(ys, key)
    ensures xs == ys
  {
    LastWinsCanonical(ys, key);
    SortedIsCanonical(ys, key);
    CanonicalUnique(xs, ys, ys, key);
  }
}
