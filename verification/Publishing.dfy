/** How one put shows in the tenant's next export and in the analyses. */
module Publishing {
  import opened Basics
  import opened Ordering
  import opened VersionedLog
  import opened Schema
  import opened PutMeaning
  import opened ContractKeys
  import opened Bundles
  import opened BundleLaws
  import opened Lint
  import opened Digraphs
  import opened Waypoint
  import opened Agreement

  // --- requests that end up under the tenant's latest enabled version ---

  /** The request names the tenant's latest enabled model version, or none. */
  ghost predicate ForLatest(models: Log<ModelBody>, t: string, model: string, version: int) {
    LatestEnabled(models, t).Some? &&
    (model == "" || version == 0 || Pin(model, version) == PinOf(LatestEnabled(models, t).value))
  }

  lemma MeansLatest(db: Db, t: string, model: string, version: int, pin: Pin)
    requires ValidDb(db) && ForLatest(db.models, t, model, version) && Means(db.models, t, model, version, pin)
    ensures pin == PinOf(LatestEnabled(db.models, t).value)
  {
    Parts(db);
    ResolvedIff(db.tenants, db.models, t, model, version, pin);
  }

  /** A row just put is in every snapshot it matches. */
  lemma NewRowIsShown<V(!new)>(log: Log<V>, row: Row<V>, f: Row<V> -> bool)
    requires Dense(log + [row]) && f(row)
    ensures row in Query(log + [row], f)
  {
    var all := log + [row];
    assert all[..|log|] == log && all[|log|] == row;
    QueryMeaning(all, f);
    assert row in all && HasKey(Query(all, f), row.key, RowKey);
    var x :| x in Query(all, f) && RowKey(x) == row.key;
    MaxBounds(all, row.key);
    var i :| 0 <= i < |all| && all[i] == x;
    UniqueVersion(all, i, |log|);
  }

  lemma MapMember<T, U>(s: seq<T>, g: T -> U, x: T)
    requires x in s
    ensures g(x) in Map(s, g)
  {
    var i :| 0 <= i < |s| && s[i] == x;
    assert Map(s, g)[i] == g(x);
  }

  /** The map a stored value is exported as: an empty map is left out, and so is what is no map. */
  function ShownBlob(j: Json): Blob {
    match j
    case Object(fields) => if fields == map[] then None else Some(fields)
    case _ => None
  }

  function ShownValue(j: Json): Blob { match j case Object(fields) => Some(fields) case _ => None }

  // --- the next export shows the element, field by field ---

  lemma NodeShown(db: Db, name: string, row: Row<Stored<NodeBody>>, withContracts: bool)
    requires name != "" && name in db.tenants && LatestEnabled(db.models, db.tenants[name]).Some?
    requires row.val.pin == PinOf(LatestEnabled(db.models, db.tenants[name]).value)
    requires |row.key| == 2 && row.key[0] == db.tenants[name] && Dense(db.nodes + [row])
    ensures
      var exported := ExportOf(db.(nodes := db.nodes + [row]), name, withContracts);
      exported.Ok?
        && BundleNode(row.key[1], row.val.body.domain, row.val.body.typ,
        ShownBlob(row.val.body.blob)) in exported.value.nodes
  {
    var f := AtPin<NodeBody>(db.tenants[name], row.val.pin);
    NewRowIsShown(db.nodes, row, f);
    MapMember(Query(db.nodes + [row], f), ToNode, row);
  }

  lemma EdgeShown(db: Db, name: string, row: Row<Stored<EdgeBody>>, withContracts: bool)
    requires name != "" && name in db.tenants && LatestEnabled(db.models, db.tenants[name]).Some?
    requires row.val.pin == PinOf(LatestEnabled(db.models, db.tenants[name]).value)
    requires |row.key| == 5 && row.key[0] == db.tenants[name] && Dense(db.edges + [row])
    ensures
      var exported := ExportOf(db.(edges := db.edges + [row]), name, withContracts);
      exported.Ok?
        && BundleEdge(row.key[1], row.key[2], row.key[3], row.key[4], ShownBlob(row.val.body)) in exported.value.edges
  {
    var f := AtPin<EdgeBody>(db.tenants[name], row.val.pin);
    NewRowIsShown(db.edges, row, f);
    MapMember(Query(db.edges + [row], f), ToEdge, row);
  }

  lemma PropertyShown(db: Db, name: string, row: Row<Stored<PropertyBody>>, withContracts: bool)
    requires name != "" && name in db.tenants && LatestEnabled(db.models, db.tenants[name]).Some?
    requires row.val.pin == PinOf(LatestEnabled(db.models, db.tenants[name]).value)
    requires |row.key| == 4 && row.key[0] == db.tenants[name] && Dense(db.props + [row])
    ensures
      var exported := ExportOf(db.(props := db.props + [row]), name, withContracts);
      exported.Ok?
        && BundleProperty(row.key[1], row.key[2], row.key[3], ShownValue(row.val.body)) in exported.value.properties
  {
    var f := AtPin<PropertyBody>(db.tenants[name], row.val.pin);
    NewRowIsShown(db.props, row, f);
    MapMember(Query(db.props + [row], f), ToProperty, row);
  }

  /** A new row as an exported contract: without extras. */
  function FreshContract(row: Row<Stored<ContractBody>>): BundleContract
    requires |row.key| == 2
  {
    var body := row.val.body;
    BundleContract(row.key[1], body.domain, body.typ, body.status, if body.action.Some? then body.action.value else "",
      row.val.pin.model, row.val.pin.version, ShownBlob(body.blob), [], [])
  }

  lemma FreshHasNoExtras(db: Db, t: string, row: Row<Stored<ContractBody>>)
    requires ValidDb(db) && |row.key| == 2 && row.key[0] == t && row.version > MaxVersion(db.contracts, row.key)
    ensures ToContract(db.reasons, db.obligations, t)(row) == FreshContract(row)
  {
    assert row.key == [t, row.key[1]];
    NewVersionHasNoExtras(db, t, row.key[1], row.version);
  }

  lemma ContractShown(db: Db, name: string, row: Row<Stored<ContractBody>>)
    requires name != "" && name in db.tenants && LatestEnabled(db.models, db.tenants[name]).Some?
    requires row.val.pin == PinOf(LatestEnabled(db.models, db.tenants[name]).value)
    requires |row.key| == 2 && row.key[0] == db.tenants[name] && Dense(db.contracts + [row])
    requires ToContract(db.reasons, db.obligations, db.tenants[name])(row) == FreshContract(row)
    ensures
      var exported := ExportOf(db.(contracts := db.contracts + [row]), name, true);
      && exported.Ok? && FreshContract(row) in exported.value.contracts
      && exported.value.model.modelId == row.val.pin.model && exported.value.model.version == row.val.pin.version
  {
    var f := AtPin<ContractBody>(db.tenants[name], row.val.pin);
    NewRowIsShown(db.contracts, row, f);
    MapMember(Query(db.contracts + [row], f), ToContract(db.reasons, db.obligations, db.tenants[name]), row);
  }

  lemma LandedDense<B>(models: Log<ModelBody>, log: Log<Stored<B>>, item: Item<Stored<B>>, expected: Option<int>)
    requires Dense(log)
    ensures PutStored(models, log, item, expected).Ok? ==> Dense(log + [PutStored(models, log, item, expected).value])
  {
    PutItemLands(log, item, expected, ItemPinExists(models, item));
  }

  lemma NodeIsExported(db: Db, name: string, n: Node, expected: Option<int>, gen: FreshId, withContracts: bool)
    requires ValidDb(db) && name != "" && name in db.tenants && db.tenants[name] == n.tenant
    requires ForLatest(db.models, n.tenant, n.model, n.modelVersion)
    requires PutStored(db.models, db.nodes, PrepareNode(db.models, n, gen), expected).Ok?
    ensures
      var r := PutStored(db.models, db.nodes, PrepareNode(db.models, n, gen), expected);
      var exported := ExportOf(db.(nodes := Extended(db.nodes, r)), name, withContracts);
      && exported.Ok?
      && BundleNode(if n.id == "" then gen else n.id, if n.domain == "" then "node" else n.domain, n.typ,
                    ShownBlob(OrEmpty(n.blob))) in exported.value.nodes
  {
    var r := PutStored(db.models, db.nodes, PrepareNode(db.models, n, gen), expected);
    PutNodeMeaning(db, n, expected, gen);
    Parts(db);
    LandedDense(db.models, db.nodes, PrepareNode(db.models, n, gen), expected);
    MeansLatest(db, n.tenant, n.model, n.modelVersion, r.value.val.pin);
    NodeShown(db, name, r.value, withContracts);
  }

  lemma EdgeIsExported(db: Db, name: string, e: Edge, expected: Option<int>, withContracts: bool)
    requires ValidDb(db) && name != "" && name in db.tenants && db.tenants[name] == e.tenant
    requires ForLatest(db.models, e.tenant, e.model, e.modelVersion)
    requires PutStored(db.models, db.edges, PrepareEdge(db.models, e), expected).Ok?
    ensures
      var r := PutStored(db.models, db.edges, PrepareEdge(db.models, e), expected);
      var exported := ExportOf(db.(edges := Extended(db.edges, r)), name, withContracts);
      && exported.Ok?
      && BundleEdge(e.from, e.to, if e.domain == "" then "edge" else e.domain, e.typ, ShownBlob(OrEmpty(e.blob)))
           in exported.value.edges
  {
    var r := PutStored(db.models, db.edges, PrepareEdge(db.models, e), expected);
    PutEdgeMeaning(db, e, expected);
    Parts(db);
    LandedDense(db.models, db.edges, PrepareEdge(db.models, e), expected);
    MeansLatest(db, e.tenant, e.model, e.modelVersion, r.value.val.pin);
    EdgeShown(db, name, r.value, withContracts);
  }

  lemma PropertyIsExported(db: Db, name: string, p: Property, expected: Option<int>, withContracts: bool)
    requires ValidDb(db) && name != "" && name in db.tenants && db.tenants[name] == p.tenant
    requires ForLatest(db.models, p.tenant, p.model, p.modelVersion)
    requires PutStored(db.models, db.props, PrepareProperty(db.models, p), expected).Ok?
    ensures
      var r := PutStored(db.models, db.props, PrepareProperty(db.models, p), expected);
      var exported := ExportOf(db.(props := Extended(db.props, r)), name, withContracts);
      && exported.Ok?
      && BundleProperty(p.ownerType, p.ownerId, p.key, ShownValue(OrEmpty(p.value))) in exported.value.properties
  {
    var r := PutStored(db.models, db.props, PrepareProperty(db.models, p), expected);
    PutPropertyMeaning(db, p, expected);
    Parts(db);
    LandedDense(db.models, db.props, PrepareProperty(db.models, p), expected);
    MeansLatest(db, p.tenant, p.model, p.modelVersion, r.value.val.pin);
    PropertyShown(db, name, r.value, withContracts);
  }

  lemma ContractIsExported(db: Db, name: string, c: ContractRecord, expected: Option<int>, gen: FreshId)
    requires ValidDb(db) && name != "" && name in db.tenants && db.tenants[name] == c.tenant
    requires ForLatest(db.models, c.tenant, c.model, c.modelVersion)
    requires PutStored(db.models, db.contracts, PrepareContract(db.models, c, gen), expected).Ok?
    ensures
      var r := PutStored(db.models, db.contracts, PrepareContract(db.models, c, gen), expected);
      var exported := ExportOf(db.(contracts := Extended(db.contracts, r)), name, true);
      && exported.Ok?
      && BundleContract(if c.id == "" then gen else c.id, if c.domain == "" then "contract" else c.domain,
           c.typ, c.status, c.action, exported.value.model.modelId, exported.value.model.version,
           ShownBlob(OrEmpty(c.blob)), [], []) in exported.value.contracts
  {
    var r := PutStored(db.models, db.contracts, PrepareContract(db.models, c, gen), expected);
    PutContractMeaning(db, c, expected, gen);
    Parts(db);
    LandedDense(db.models, db.contracts, PrepareContract(db.models, c, gen), expected);
    MeansLatest(db, c.tenant, c.model, c.modelVersion, r.value.val.pin);
    FreshHasNoExtras(db, c.tenant, r.value);
    ContractShown(db, name, r.value);
  }

  // --- reasons and obligations ---

  function ReasonsFor(t: string, id: string, version: int): ReasonRow -> bool {
    (r: ReasonRow) => r.tenant == t && r.contract == id && r.version == version
  }

  function ObligationsFor(t: string, id: string, version: int): ObligationRow -> bool {
    (r: ObligationRow) => r.tenant == t && r.contract == id && r.version == version
  }

  /** Grouping the kept rows by contract version is selecting the rows of that version. */
  lemma {:induction false} SelectedItems<R, T>(rows: seq<R>, keep: R -> bool, tag: R -> Tagged<T>, sel: R -> bool,
      item: R -> T, id: string, version: int)
    requires forall r :: sel(r) <==> keep(r) && BelongsTo(id, version)(tag(r))
    requires forall r :: item(r) == tag(r).item
    ensures ItemsOf(Map(Filter(rows, keep), tag), id, version) == Map(Filter(rows, sel), item)
  {
    if rows != [] {
      var n := |rows| - 1;
      var us, r := rows[..n], rows[n];
      SelectedItems(us, keep, tag, sel, item, id, version);
      assert rows == us + [r];
      FilterSnoc(us, r, keep);
      FilterSnoc(us, r, sel);
      MapSnoc(Filter(us, sel), r, item);
      if keep(r) {
        MapSnoc(Filter(us, keep), r, tag);
        FilterSnoc(Map(Filter(us, keep), tag), tag(r), BelongsTo(id, version));
        MapSnoc(Filter(Map(Filter(us, keep), tag), BelongsTo<T>(id, version)), tag(r), ItemOf);
      }
    }
  }

  function CodeOf(r: ReasonRow): string { r.code }

  lemma ReasonsExact(rows: seq<ReasonRow>, t: string, id: string, version: int)
    ensures ItemsOf(ReasonRows(rows, t), id, version) == Map(Filter(rows, ReasonsFor(t, id, version)), CodeOf)
  {
    SelectedItems(rows, (r: ReasonRow) => r.tenant == t, (r: ReasonRow) => Tagged(r.contract, r.version, r.code),
      ReasonsFor(t, id, version), CodeOf, id, version);
  }

  function ShownObligation(r: ObligationRow): BundleObligation { BundleObligation(r.obligation, ShownValue(r.params)) }

  lemma ObligationsExact(rows: seq<ObligationRow>, t: string, id: string, version: int)
    ensures ItemsOf(ObligationRows(rows, t), id, version) ==
      Map(Filter(rows, ObligationsFor(t, id, version)), ShownObligation)
  {
    SelectedItems(rows, (r: ObligationRow) => r.tenant == t,
      (r: ObligationRow) => Tagged(r.contract, r.version, BundleObligation(r.obligation, Decode(r.params))),
      ObligationsFor(t, id, version), ShownObligation, id, version);
  }

  /** An exported contract carries the codes and the obligations stored for its own version, in their order. */
  lemma ExtrasExact(db: Db, t: string, pin: Pin, r: Row<Stored<ContractBody>>)
    requires ValidDb(db) && r in Query(db.contracts, AtPin(t, pin))
    ensures
      var c := ToContract(db.reasons, db.obligations, t)(r);
      && r.key == [t, c.id]
      && c.reasons == Map(Filter(db.reasons, ReasonsFor(t, c.id, r.version)), CodeOf)
      && c.obligations == Map(Filter(db.obligations, ObligationsFor(t, c.id, r.version)), ShownObligation)
  {
    ContractColumns(db, t, pin, r);
    ReasonsExact(db.reasons, t, r.key[1], r.version);
    ObligationsExact(db.obligations, t, r.key[1], r.version);
  }

  lemma ContractColumns(db: Db, t: string, pin: Pin, r: Row<Stored<ContractBody>>)
    requires ValidDb(db) && r in Query(db.contracts, AtPin(t, pin))
    ensures |r.key| == 2 && r.key == [t, r.key[1]]
  {
    Parts(db);
    QueryMeaning(db.contracts, AtPin(t, pin));
    assert ContractOk(r.key, r.val.body);
  }

  // --- availability ---

  /** A boolean false put as the availability of a node marks it in the gap analysis. */
  lemma AvailabilityIsSeen(db: Db, p: Property, expected: Option<int>)
    requires ValidDb(db) && ForLatest(db.models, p.tenant, p.model, p.modelVersion)
    requires p.ownerType == "node" && p.key == "availability" && p.value == Some(Bool(false))
    requires PutStored(db.models, db.props, PrepareProperty(db.models, p), expected).Ok?
    ensures
      var db2 :=
        db.(props := Extended(db.props, PutStored(db.models, db.props, PrepareProperty(db.models, p), expected)));
      MarkedUnavailable(LoadProperties(db2, p.tenant, EnabledPin(db2, p.tenant)), p.ownerId)
  {
    var r := PutStored(db.models, db.props, PrepareProperty(db.models, p), expected);
    var db2 := db.(props := Extended(db.props, r));
    PutPropertyMeaning(db, p, expected);
    PutPropertyKeepsValid(db, p, expected);
    Parts(db2);
    MeansLatest(db, p.tenant, p.model, p.modelVersion, r.value.val.pin);
    var f := NodeOwned(p.tenant, r.value.val.pin);
    NewRowIsShown(db.props, r.value, f);
    MapMember(Query(db2.props, f), ToNodeProperty, r.value);
    assert SaysUnavailable(ToNodeProperty(r.value), p.ownerId);
  }

  lemma LoadedIsExported(db: Db, t: string, pin: Pin, i: nat)
    requires TableOk(db.models, db.props, PropertyOk) && i < |LoadProperties(db, t, pin)|
    ensures
      var q := LoadProperties(db, t, pin)[i];
      exists p :: p in Map(Query(db.props, AtPin(t, pin)), ToProperty)
        && p.ownerType == "node" && p.ownerId == q.owner && p.key == q.key
  {
    var f, g := NodeOwned(t, pin), AtPin<PropertyBody>(t, pin);
    var r := Query(db.props, f)[i];
    QueryMeaning(db.props, f);
    QueryMeaning(db.props, g);
    assert r in Query(db.props, f) && PropertyOk(r.key, r.val.body);
    assert HasKey(Query(db.props, g), r.key, RowKey);
    var x :| x in Query(db.props, g) && RowKey(x) == r.key;
    MapMember(Query(db.props, g), ToProperty, x);
  }

  lemma ExportedIsLoaded(db: Db, t: string, pin: Pin, i: nat)
    requires TableOk(db.models, db.props, PropertyOk)
    requires i < |Query(db.props, AtPin<PropertyBody>(t, pin))|
    requires ToProperty(Query(db.props, AtPin<PropertyBody>(t, pin))[i]).ownerType == "node"
    ensures
      var p := ToProperty(Query(db.props, AtPin<PropertyBody>(t, pin))[i]);
      exists q :: q in LoadProperties(db, t, pin) && q.owner == p.ownerId && q.key == p.key
  {
    var f, g := NodeOwned(t, pin), AtPin<PropertyBody>(t, pin);
    var r := Query(db.props, g)[i];
    QueryMeaning(db.props, f);
    QueryMeaning(db.props, g);
    assert r in Query(db.props, g) && PropertyOk(r.key, r.val.body);
    assert HasKey(Query(db.props, f), r.key, RowKey);
    var x :| x in Query(db.props, f) && RowKey(x) == r.key;
    MapMember(Query(db.props, f), ToNodeProperty, x);
  }

  /** The properties the gap analysis selects are the exported ones of nodes. */
  lemma PropertiesSeenTwice(db: Db, t: string, pin: Pin, owner: string, key: string)
    requires ValidDb(db)
    ensures
      var loaded, ps := LoadProperties(db, t, pin), Map(Query(db.props, AtPin(t, pin)), ToProperty);
      (exists q :: q in loaded && q.owner == owner && q.key == key)
      <==> exists p :: p in ps && p.ownerType == "node" && p.ownerId == owner && p.key == key
  {
    assert PartOk(db, PropertyPart);
    var loaded, ps := LoadProperties(db, t, pin), Map(Query(db.props, AtPin(t, pin)), ToProperty);
    if q :| q in loaded && q.owner == owner && q.key == key {
      var i :| 0 <= i < |loaded| && loaded[i] == q;
      LoadedIsExported(db, t, pin, i);
    }
    if p :| p in ps && p.ownerType == "node" && p.ownerId == owner && p.key == key {
      var i :| 0 <= i < |ps| && ps[i] == p;
      ExportedIsLoaded(db, t, pin, i);
    }
  }
}
