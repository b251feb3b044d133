/** Model bundles: the file format, and what the store's rows look like in it. */
module Bundles {
  import opened Basics
  import opened Ordering
  import opened VersionedLog
  import opened Schema
  import opened ContractKeys

  datatype BundleName = BundleName(domain: string, name: string)   // a type or a status
  datatype BundleModel = BundleModel(modelId: string, version: int, status: string, changeNote: string)
  datatype BundleNode = BundleNode(id: string, domain: string, typ: string, blob: Blob)
  datatype BundleEdge = BundleEdge(from: string, to: string, domain: string, typ: string, blob: Blob)
  datatype BundleProperty = BundleProperty(ownerType: string, ownerId: string, key: string, value: Blob)
  datatype BundleObligation = BundleObligation(name: string, params: Blob)
  datatype BundleContract = BundleContract(id: string, domain: string, typ: string, status: string, action: string,
    modelId: string, modelVersion: int, blob: Blob, reasons: seq<string>, obligations: seq<BundleObligation>)

  datatype Bundle = Bundle(tenant: string, model: BundleModel, types: seq<BundleName>, statuses: seq<BundleName>,
    nodes: seq<BundleNode>, edges: seq<BundleEdge>, properties: seq<BundleProperty>, contracts: seq<BundleContract>)

  function NameKey(n: BundleName): Key { [n.domain, n.name] }
  function NodeKey(n: BundleNode): Key { [n.id] }
  function EdgeKey(e: BundleEdge): Key { [e.from, e.to, e.domain, e.typ] }
  function PropertyKey(p: BundleProperty): Key { [p.ownerType, p.ownerId, p.key] }
  function BundleContractKey(c: BundleContract): Key { [c.id] }

  /** `omitempty`: an empty map is not written, so it reads back as nil. */
  function Omit(b: Blob): Blob { if b == Some(map[]) then None else b }

  function Column(k: Key, i: nat): string { if i < |k| then k[i] else "" }

  // --- rows as exported ---

  function ToName(r: Row<()>): BundleName { BundleName(Column(r.key, 1), Column(r.key, 2)) }

  function ToNode(r: Row<Stored<NodeBody>>): BundleNode {
    BundleNode(Column(r.key, 1), r.val.body.domain, r.val.body.typ, Omit(Decode(r.val.body.blob)))
  }

  function ToEdge(r: Row<Stored<EdgeBody>>): BundleEdge {
    BundleEdge(Column(r.key, 1), Column(r.key, 2), Column(r.key, 3), Column(r.key, 4), Omit(Decode(r.val.body)))
  }

  function ToProperty(r: Row<Stored<PropertyBody>>): BundleProperty {
    BundleProperty(Column(r.key, 1), Column(r.key, 2), Column(r.key, 3), Decode(r.val.body))
  }

  /** SELECT contract_id, contract_version, code FROM contract_reasons WHERE tenant_id = t */
  function ReasonRows(reasons: seq<ReasonRow>, t: string): seq<Tagged<string>> {
    Map(Filter(reasons, (r: ReasonRow) => r.tenant == t), (r: ReasonRow) => Tagged(r.contract, r.version, r.code))
  }

  /** SELECT contract_id, contract_version, obligation, params FROM contract_obligations WHERE tenant_id = t */
  function ObligationRows(obligations: seq<ObligationRow>, t: string): seq<Tagged<BundleObligation>> {
    Map(Filter(obligations, (r: ObligationRow) => r.tenant == t),
        (r: ObligationRow) => Tagged(r.contract, r.version, BundleObligation(r.obligation, Decode(r.params))))
  }

  function ToContract(reasons: seq<ReasonRow>, obligations: seq<ObligationRow>,
      t: string): Row<Stored<ContractBody>> -> BundleContract {
    (r: Row<Stored<ContractBody>>) =>
      var id, b := Column(r.key, 1), r.val.body;
      BundleContract(id, b.domain, b.typ, b.status, if b.action.Some? then b.action.value else "",
        r.val.pin.model, r.val.pin.version, Omit(Decode(b.blob)),
        ItemsOf(ReasonRows(reasons, t), id, r.version), ItemsOf(ObligationRows(obligations, t), id, r.version))
  }

  function OfTenant(t: string): Row<()> -> bool { (r: Row<()>) => Tenant(r.key) == t }

  // --- ExportLatestEnabled ---

  /** The bundle written for the tenant's latest enabled model version. */
  function ExportOf(db: Db, name: string, withContracts: bool): Result<Bundle> {
    if name == "" then Err(TenantNameMissing)
    else if name !in db.tenants then Err(NotFound)
    else
      var t := db.tenants[name];
      match LatestEnabled(db.models, t)
      case None => Err(NotFound)
      case Some(mv) =>
        var pin := PinOf(mv);
        Ok(Bundle(name, BundleModel(pin.model, pin.version, mv.val.status, mv.val.changeNote),
          Map(Query(db.types, OfTenant(t)), ToName),
          Map(Query(db.statuses, OfTenant(t)), ToName),
          Map(Query(db.nodes, AtPin(t, pin)), ToNode),
          Map(Query(db.edges, AtPin(t, pin)), ToEdge),
          Map(Query(db.props, AtPin(t, pin)), ToProperty),
          if withContracts then Map(Query(db.contracts, AtPin(t, pin)), ToContract(db.reasons, db.obligations, t))
            else []))
  }

  // --- ImportBundle ---

  datatype Options = Options(withContracts: bool, tenantName: string, enableImported: bool, changeNote: string)

  /** The identifiers the database would generate: a tenant id, a model id, one per node, one per contract. */
  datatype Ids = Ids(tenant: FreshId, model: FreshId, node: nat -> FreshId, contract: nat -> FreshId)

  function NodeRequest(t: string, pin: Pin, n: BundleNode): Node {
    Node(t, n.id, FirstNonEmpty(n.domain, "node"), n.typ, pin.model, pin.version, Some(Encode(n.blob)))
  }

  function EdgeRequest(t: string, pin: Pin, e: BundleEdge): Edge {
    Edge(t, e.from, e.to, FirstNonEmpty(e.domain, "edge"), e.typ, pin.model, pin.version, Some(Encode(e.blob)))
  }

  function PropertyRequest(t: string, pin: Pin, p: BundleProperty): Property {
    Property(t, p.ownerType, p.ownerId, p.key, Some(Encode(p.value)), pin.model, pin.version)
  }

  function ContractRequest(t: string, pin: Pin, c: BundleContract): ContractRecord {
    ContractRecord(t, c.id, FirstNonEmpty(c.domain, "contract"), c.typ, c.status, c.action, pin.model, pin.version,
      Some(Encode(c.blob)))
  }

  function NodeItems(models: Log<ModelBody>, t: string, pin: Pin, ns: seq<BundleNode>,
      ids: nat -> FreshId): seq<Item<Stored<NodeBody>>> {
    seq(|ns|, i requires 0 <= i < |ns| => PrepareNode(models, NodeRequest(t, pin, ns[i]), ids(i)))
  }

  function EdgeItems(models: Log<ModelBody>, t: string, pin: Pin, es: seq<BundleEdge>): seq<Item<Stored<EdgeBody>>> {
    seq(|es|, i requires 0 <= i < |es| => PrepareEdge(models, EdgeRequest(t, pin, es[i])))
  }

  function PropertyItems(models: Log<ModelBody>, t: string, pin: Pin,
      ps: seq<BundleProperty>): seq<Item<Stored<PropertyBody>>> {
    seq(|ps|, i requires 0 <= i < |ps| => PrepareProperty(models, PropertyRequest(t, pin, ps[i])))
  }

  function ContractItems(models: Log<ModelBody>, t: string, pin: Pin, cs: seq<BundleContract>,
      ids: nat -> FreshId): seq<Item<Stored<ContractBody>>> {
    seq(|cs|, i requires 0 <= i < |cs| => PrepareContract(models, ContractRequest(t, pin, cs[i]), ids(i)))
  }

  /** A table after putting items one by one, and the error that stopped it, if one did. */
  datatype Puts<B> = Puts(log: Log<Stored<B>>, error: Option<Error>)

  function PutItems<B>(models: Log<ModelBody>, log: Log<Stored<B>>, items: seq<Item<Stored<B>>>): Puts<B>
    decreases |items|
  {
    if items == [] then Puts(log, None)
    else
      match PutStored(models, log, items[0], None)
      case Err(e) => Puts(log, Some(e))
      case Ok(row) => PutItems(models, log + [row], items[1..])
  }

  function RegisterAll(log: Log<()>, t: string, names: seq<BundleName>): Log<()> {
    if names == [] then log
    else Register(RegisterAll(log, t, names[..|names| - 1]), [t] + NameKey(names[|names| - 1]))
  }

  datatype Imported = Imported(db: Db, result: Result<Pin>)

  /** The four tables are filled in order; the first failing put stops the import where it is. */
  function ImportRows(db: Db, t: string, pin: Pin, b: Bundle, withContracts: bool, ids: Ids): Imported {
    var ns := PutItems(db.models, db.nodes, NodeItems(db.models, t, pin, b.nodes, ids.node));
    var db1 := db.(nodes := ns.log);
    if ns.error.Some? then Imported(db1, Err(ns.error.value)) else
    var es := PutItems(db.models, db.edges, EdgeItems(db.models, t, pin, b.edges));
    var db2 := db1.(edges := es.log);
    if es.error.Some? then Imported(db2, Err(es.error.value)) else
    var ps := PutItems(db.models, db.props, PropertyItems(db.models, t, pin, b.properties));
    var db3 := db2.(props := ps.log);
    if ps.error.Some? then Imported(db3, Err(ps.error.value)) else
    if !withContracts then Imported(db3, Ok(pin)) else
    var cs := PutItems(db.models, db.contracts, ContractItems(db.models, t, pin, b.contracts, ids.contract));
    var db4 := db3.(contracts := cs.log);
    if cs.error.Some? then Imported(db4, Err(cs.error.value)) else Imported(db4, Ok(pin))
  }

  function ImportStatus(b: Bundle, opts: Options): string {
    if opts.enableImported then "enabled" else FirstNonEmpty(b.model.status, "draft")
  }

  function ImportedModel(t: string, b: Bundle, opts: Options): ModelVersion {
    ModelVersion(t, b.model.modelId, ImportStatus(b, opts), FirstNonEmpty(opts.changeNote, b.model.changeNote))
  }

  function WithNames(db: Db, t: string, b: Bundle): Db {
    db.(statuses := RegisterAll(db.statuses, t, b.statuses), types := RegisterAll(db.types, t, b.types))
  }

  /** The import once the tenant is known. */
  function ImportFor(db: Db, t: string, b: Bundle, opts: Options, ids: Ids): Imported {
    var named := WithNames(db, t, b);
    match PutModelResult(named, ImportedModel(t, b, opts), ids.model)
    case Err(e) => Imported(named, Err(e))
    case Ok(row) => ImportRows(named.(models := named.models + [row]), t, PinOf(row), b, opts.withContracts, ids)
  }

  function ImportTenant(b: Bundle, opts: Options): string { FirstNonEmpty(opts.tenantName, b.tenant) }

  function ImportOf(db: Db, b: Bundle, opts: Options, ids: Ids): Imported {
    var name := ImportTenant(b, opts);
    if name == "" then Imported(db, Err(TenantNameMissing))
    else if name in db.tenants then ImportFor(db, db.tenants[name], b, opts, ids)
    else if ids.tenant in db.tenants.Values then Imported(db, Err(DuplicateKey))
    else ImportFor(db.(tenants := db.tenants[name := ids.tenant]), ids.tenant, b, opts, ids)
  }
}
