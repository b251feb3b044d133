/** The tables, their keys and foreign keys, and what each repository's Put prepares to insert. */
module Schema {
  import opened Basics
  import opened Ordering
  import opened VersionedLog

  /** The model version a row is written against; requests may carry any integer. */
  datatype Pin = Pin(model: string, version: int)

  datatype Stored<B> = Stored(pin: Pin, body: B)

  datatype ModelBody = ModelBody(status: string, changeNote: string)
  datatype NodeBody = NodeBody(domain: string, typ: string, blob: Json)
  datatype ContractBody = ContractBody(domain: string, typ: string, status: string, action: Option<string>, blob: Json)
  type EdgeBody = Json
  type PropertyBody = Json

  /** A generated identifier (gen_random_uuid); nothing but non-emptiness is known about it. */
  type FreshId = s: string | s != "" witness "0"

  // Requests, as the storage interface receives them. A None blob is an empty byte slice.
  datatype ModelVersion = ModelVersion(tenant: string, model: string, status: string, changeNote: string)
  datatype Node = Node(tenant: string, id: string, domain: string, typ: string, model: string, modelVersion: int,
      blob: Option<Json>)
  datatype Edge = Edge(tenant: string, from: string, to: string, domain: string, typ: string, model: string,
      modelVersion: int, blob: Option<Json>)
  datatype Property = Property(tenant: string, ownerType: string, ownerId: string, key: string, value: Option<Json>,
      model: string, modelVersion: int)
  datatype ContractRecord = ContractRecord(tenant: string, id: string, domain: string, typ: string, status: string,
      action: string, model: string, modelVersion: int, blob: Option<Json>)

  datatype ReasonRow = ReasonRow(tenant: string, contract: string, version: int, domain: string, code: string)
  datatype ObligationRow = ObligationRow(tenant: string, contract: string, version: int, obligation: string,
      params: Json)

  datatype Db = Db(
    tenants: map<string, string>,   // name to id
    types: Log<()>,
    statuses: Log<()>,
    models: Log<ModelBody>,         // position in the log is the created_at stamp
    nodes: Log<Stored<NodeBody>>,
    edges: Log<Stored<EdgeBody>>,
    props: Log<Stored<PropertyBody>>,
    contracts: Log<Stored<ContractBody>>,
    reasons: seq<ReasonRow>,
    obligations: seq<ObligationRow>)

  function Tenant(k: Key): string { if k == [] then "" else k[0] }

  /** WHERE tenant_id = t AND model_id = pin.model AND model_version = pin.version */
  function AtPin<B>(t: string, pin: Pin): Row<Stored<B>> -> bool {
    (r: Row<Stored<B>>) => Tenant(r.key) == t && r.val.pin == pin
  }

  /** The foreign key to model_versions(tenant_id, model_id, version). */
  predicate PinExists(models: Log<ModelBody>, t: string, pin: Pin) {
    pin.version >= 0 && HasVersion(models, [t, pin.model], pin.version)
  }

  // --- model_versions ---

  /** WHERE tenant_id = t AND status = 'enabled' ORDER BY created_at DESC LIMIT 1 */
  function LatestEnabled(models: Log<ModelBody>, t: string): Option<Row<ModelBody>> {
    if models == [] then None
    else
      var r := models[|models| - 1];
      if Tenant(r.key) == t && r.val.status == "enabled" then Some(r) else LatestEnabled(models[..|models| - 1], t)
  }

  function PinOf(r: Row<ModelBody>): Pin { Pin(if |r.key| == 2 then r.key[1] else "", r.version) }

  /** A missing model reference falls back to the tenant's latest enabled model version. */
  function ResolvePin(models: Log<ModelBody>, t: string, model: string, version: int): Result<Pin> {
    if model == "" || version == 0 then
      match LatestEnabled(models, t)
      case None => Err(NoEnabledModel)
      case Some(r) => Ok(PinOf(r))
    else Ok(Pin(model, version))
  }

  // --- what a Put is about to insert ---

  /** A validated and completed request: under its own key, or under a generated one. */
  datatype Item<V> = Reject(error: Error) | Keyed(key: Key, val: V) | Generated(key: Key, val: V)

  function OrEmptyObject(blob: Option<Json>): Json { if blob.Some? then blob.value else Object(map[]) }

  function PrepareModel(m: ModelVersion, gen: FreshId): Item<ModelBody> {
    if m.tenant == "" then Reject(TenantRequired)
    else
      var body := ModelBody(FirstNonEmpty(m.status, "draft"), m.changeNote);
      if m.model == "" then Generated([m.tenant, gen], body) else Keyed([m.tenant, m.model], body)
  }

  function PrepareNode(models: Log<ModelBody>, n: Node, gen: FreshId): Item<Stored<NodeBody>> {
    if n.tenant == "" then Reject(TenantRequired)
    else if n.typ == "" then Reject(TypeRequired)
    else match ResolvePin(models, n.tenant, n.model, n.modelVersion)
      case Err(e) => Reject(e)
      case Ok(pin) =>
        var val := Stored(pin, NodeBody(FirstNonEmpty(n.domain, "node"), n.typ, OrEmptyObject(n.blob)));
        if n.id == "" then Generated([n.tenant, gen], val) else Keyed([n.tenant, n.id], val)
  }

  function PrepareEdge(models: Log<ModelBody>, e: Edge): Item<Stored<EdgeBody>> {
    if e.tenant == "" then Reject(TenantRequired)
    else if e.typ == "" then Reject(TypeRequired)
    else if e.from == "" || e.to == "" then Reject(EndsRequired)
    else match ResolvePin(models, e.tenant, e.model, e.modelVersion)
      case Err(err) => Reject(err)
      case Ok(pin) =>
        Keyed([e.tenant, e.from, e.to, FirstNonEmpty(e.domain, "edge"), e.typ], Stored(pin, OrEmptyObject(e.blob)))
  }

  function PrepareProperty(models: Log<ModelBody>, p: Property): Item<Stored<PropertyBody>> {
    if p.tenant == "" || p.ownerType == "" || p.ownerId == "" || p.key == "" then Reject(FieldsRequired)
    else match ResolvePin(models, p.tenant, p.model, p.modelVersion)
      case Err(err) => Reject(err)
      case Ok(pin) => Keyed([p.tenant, p.ownerType, p.ownerId, p.key], Stored(pin, OrEmptyObject(p.value)))
  }

  /** nullableString: the empty action is stored as NULL. */
  function Nullable(s: string): Option<string> { if s == "" then None else Some(s) }

  function PrepareContract(models: Log<ModelBody>, c: ContractRecord, gen: FreshId): Item<Stored<ContractBody>> {
    if c.tenant == "" then Reject(TenantRequired)
    else if c.typ == "" then Reject(TypeRequired)
    else if c.status == "" then Reject(StatusRequired)
    else match ResolvePin(models, c.tenant, c.model, c.modelVersion)
      case Err(e) => Reject(e)
      case Ok(pin) =>
        var domain, blob := FirstNonEmpty(c.domain, "contract"), OrEmptyObject(c.blob);
        var val := Stored(pin, ContractBody(domain, c.typ, c.status, Nullable(c.action), blob));
        if c.id == "" then Generated([c.tenant, gen], val) else Keyed([c.tenant, c.id], val)
  }

  /** scanContract: a row as the record the interface returns. */
  function RecordOf(r: Row<Stored<ContractBody>>): ContractRecord {
    var b := r.val.body;
    ContractRecord(Tenant(r.key), if |r.key| == 2 then r.key[1] else "", b.domain, b.typ, b.status,
                   if b.action.Some? then b.action.value else "", r.val.pin.model, r.val.pin.version, Some(b.blob))
  }

  // --- a put that runs without interleaving ---

  function Land<V>(log: Log<V>, row: Row<V>, refExists: bool): Result<Row<V>> {
    if TryInsert(log, row).None? then Err(DuplicateKey)
    else if !refExists then Err(ForeignKey)
    else Ok(row)
  }

  function PutItem<V>(log: Log<V>, item: Item<V>, expected: Option<int>, refExists: bool): Result<Row<V>> {
    match item
    case Reject(e) => Err(e)
    case Generated(k, v) => Land(log, Row(k, 1, v), refExists)
    case Keyed(k, v) =>
      if expected.Some? && MaxVersion(log, k) != expected.value then Err(Conflict)
      else Land(log, NextRow(log, k, v), refExists)
  }

  predicate ItemPinExists<B>(models: Log<ModelBody>, item: Item<Stored<B>>) {
    !item.Reject? && PinExists(models, Tenant(item.key), item.val.pin)
  }

  function Extended<V>(log: Log<V>, r: Result<Row<V>>): Log<V> { if r.Ok? then log + [r.value] else log }

  function PutModelResult(db: Db, m: ModelVersion, gen: FreshId): Result<Row<ModelBody>> {
    PutItem(db.models, PrepareModel(m, gen), None, m.tenant in db.tenants.Values)
  }

  function PutStored<B>(models: Log<ModelBody>, log: Log<Stored<B>>, item: Item<Stored<B>>,
      expected: Option<int>): Result<Row<Stored<B>>> {
    PutItem(log, item, expected, ItemPinExists(models, item))
  }

  /** INSERT ... ON CONFLICT DO UPDATE SET name = name, for the type and status registries. */
  function Register(log: Log<()>, k: Key): Log<()> {
    if MaxVersion(log, k) > 0 then log else log + [Row(k, 1, ())]
  }

  // --- validity ---

  ghost predicate AllFilled(k: Key) { forall c :: c in k ==> c != "" }

  ghost predicate KeyOk(k: Key, columns: nat) { |k| == columns && AllFilled(k) }

  ghost predicate NodeOk(k: Key, b: NodeBody) { KeyOk(k, 2) && b.domain != "" && b.typ != "" }
  ghost predicate EdgeOk(k: Key, b: EdgeBody) { KeyOk(k, 5) }
  ghost predicate PropertyOk(k: Key, b: PropertyBody) { KeyOk(k, 4) }
  ghost predicate ContractOk(k: Key, b: ContractBody) {
    KeyOk(k, 2) && b.domain != "" && b.typ != "" && b.status != "" && b.action != Some("")
  }
  ghost predicate ModelOk(k: Key, b: ModelBody) { KeyOk(k, 2) && b.status != "" }

  /** Dense versions, well-formed rows, and every pin naming an existing model version. */
  ghost predicate TableOk<B>(models: Log<ModelBody>, log: Log<Stored<B>>, ok: (Key, B) -> bool) {
    && Dense(log)
    && forall r :: r in log ==> ok(r.key, r.val.body) && PinExists(models, Tenant(r.key), r.val.pin)
  }

  ghost predicate ModelsOk(tenants: map<string, string>, models: Log<ModelBody>) {
    && Dense(models)
    && forall r :: r in models ==> ModelOk(r.key, r.val) && Tenant(r.key) in tenants.Values
  }

  ghost predicate NamesOk(log: Log<()>) {
    Dense(log) && forall r :: r in log ==> |r.key| == 3 && r.version == 1
  }

  ghost predicate ContractRefsOk(db: Db) {
    && (forall r :: r in db.reasons ==> r.version >= 0 && HasVersion(db.contracts, [r.tenant, r.contract], r.version))
    && (forall r :: r in db.obligations ==>
         r.version >= 0 && HasVersion(db.contracts, [r.tenant, r.contract], r.version))
  }

  ghost predicate RegistriesOk(db: Db) {
    && "" !in db.tenants.Values
    && NamesOk(db.types) && NamesOk(db.statuses) && ContractRefsOk(db)
  }

  /** The parts of a database that can be judged one by one. */
  datatype Part = RegistryPart | ModelPart | NodePart | EdgePart | PropertyPart | ContractPart

  ghost predicate PartOk(db: Db, part: Part) {
    match part
    case RegistryPart => RegistriesOk(db)
    case ModelPart => ModelsOk(db.tenants, db.models)
    case NodePart => TableOk(db.models, db.nodes, NodeOk)
    case EdgePart => TableOk(db.models, db.edges, EdgeOk)
    case PropertyPart => TableOk(db.models, db.props, PropertyOk)
    case ContractPart => TableOk(db.models, db.contracts, ContractOk)
  }

  ghost predicate ValidDb(db: Db) {
    forall part :: PartOk(db, part)
  }

  // --- lemmas ---

  lemma Parts(db: Db)
    requires ValidDb(db)
    ensures RegistriesOk(db) && ModelsOk(db.tenants, db.models)
    ensures TableOk(db.models, db.nodes, NodeOk) && TableOk(db.models, db.edges, EdgeOk)
    ensures TableOk(db.models, db.props, PropertyOk) && TableOk(db.models, db.contracts, ContractOk)
  {
    assert PartOk(db, RegistryPart) && PartOk(db, ModelPart) && PartOk(db, NodePart);
    assert PartOk(db, EdgePart) && PartOk(db, PropertyPart) && PartOk(db, ContractPart);
  }

  lemma NodesKeepValid(db: Db, log: Log<Stored<NodeBody>>)
    requires ValidDb(db) && TableOk(db.models, log, NodeOk)
    ensures ValidDb(db.(nodes := log))
  {
    forall part ensures PartOk(db.(nodes := log), part) { assert PartOk(db, part); }
  }

  lemma EdgesKeepValid(db: Db, log: Log<Stored<EdgeBody>>)
    requires ValidDb(db) && TableOk(db.models, log, EdgeOk)
    ensures ValidDb(db.(edges := log))
  {
    forall part ensures PartOk(db.(edges := log), part) { assert PartOk(db, part); }
  }

  lemma PropertiesKeepValid(db: Db, log: Log<Stored<PropertyBody>>)
    requires ValidDb(db) && TableOk(db.models, log, PropertyOk)
    ensures ValidDb(db.(props := log))
  {
    forall part ensures PartOk(db.(props := log), part) { assert PartOk(db, part); }
  }

  lemma ContractsKeepValid(db: Db, more: Log<Stored<ContractBody>>)
    requires ValidDb(db) && TableOk(db.models, db.contracts + more, ContractOk)
    ensures ValidDb(db.(contracts := db.contracts + more))
  {
    assert PartOk(db, RegistryPart);
    ContractRefsGrow(db, more);
    forall part ensures PartOk(db.(contracts := db.contracts + more), part) { assert PartOk(db, part); }
  }

  /** Registering names keeps the database valid. */
  lemma NamesKeepValid(db: Db, types: Log<()>, statuses: Log<()>)
    requires ValidDb(db) && NamesOk(types) && NamesOk(statuses)
    ensures ValidDb(db.(types := types, statuses := statuses))
  {
    forall part ensures PartOk(db.(types := types, statuses := statuses), part) { assert PartOk(db, part); }
  }

  /** A new tenant name under an unused, non-empty id keeps the database valid. */
  lemma TenantKeepsValid(db: Db, name: string, newId: FreshId)
    requires ValidDb(db) && name !in db.tenants
    ensures ValidDb(db.(tenants := db.tenants[name := newId]))
  {
    var tenants' := db.tenants[name := newId];
    TenantsGrow(db.tenants, name, newId);
    forall part ensures PartOk(db.(tenants := tenants'), part) { assert PartOk(db, part); }
  }

  lemma PutNodeKeepsValid(db: Db, n: Node, expected: Option<int>, gen: FreshId)
    requires ValidDb(db)
    ensures ValidDb(db.(nodes :=
      Extended(db.nodes, PutStored(db.models, db.nodes, PrepareNode(db.models, n, gen), expected))))
  {
    assert PartOk(db, NodePart);
    PreparedNodeOk(db.models, n, gen);
    PutStoredKeepsTable(db.models, db.nodes, PrepareNode(db.models, n, gen), expected, NodeOk);
    NodesKeepValid(db, Extended(db.nodes, PutStored(db.models, db.nodes, PrepareNode(db.models, n, gen), expected)));
  }

  lemma PutEdgeKeepsValid(db: Db, e: Edge, expected: Option<int>)
    requires ValidDb(db)
    ensures ValidDb(db.(edges :=
      Extended(db.edges, PutStored(db.models, db.edges, PrepareEdge(db.models, e), expected))))
  {
    assert PartOk(db, EdgePart);
    PreparedEdgeOk(db.models, e);
    PutStoredKeepsTable(db.models, db.edges, PrepareEdge(db.models, e), expected, EdgeOk);
    EdgesKeepValid(db, Extended(db.edges, PutStored(db.models, db.edges, PrepareEdge(db.models, e), expected)));
  }

  lemma PutPropertyKeepsValid(db: Db, p: Property, expected: Option<int>)
    requires ValidDb(db)
    ensures ValidDb(db.(props :=
      Extended(db.props, PutStored(db.models, db.props, PrepareProperty(db.models, p), expected))))
  {
    assert PartOk(db, PropertyPart);
    PreparedPropertyOk(db.models, p);
    PutStoredKeepsTable(db.models, db.props, PrepareProperty(db.models, p), expected, PropertyOk);
    PropertiesKeepValid(db,
      Extended(db.props, PutStored(db.models, db.props, PrepareProperty(db.models, p), expected)));
  }

  lemma PutContractKeepsValid(db: Db, c: ContractRecord, expected: Option<int>, gen: FreshId)
    requires ValidDb(db)
    ensures ValidDb(db.(contracts :=
      Extended(db.contracts, PutStored(db.models, db.contracts, PrepareContract(db.models, c, gen), expected))))
  {
    assert PartOk(db, ContractPart);
    PreparedContractOk(db.models, c, gen);
    PutStoredKeepsTable(db.models, db.contracts, PrepareContract(db.models, c, gen), expected, ContractOk);
    var r := PutStored(db.models, db.contracts, PrepareContract(db.models, c, gen), expected);
    assert db.contracts + [] == db.contracts;
    ContractsKeepValid(db, if r.Ok? then [r.value] else []);
  }

  lemma {:induction false} LatestEnabledMember(models: Log<ModelBody>, t: string)
    ensures LatestEnabled(models, t).Some? ==>
      var r := LatestEnabled(models, t).value;
      r in models && Tenant(r.key) == t && r.val.status == "enabled"
  {
    if models != [] {
      LatestEnabledMember(models[..|models| - 1], t);
      assert models == models[..|models| - 1] + [models[|models| - 1]];
    }
  }

  /** The pointer is the most recently created enabled row of the tenant, over all lineages. */
  lemma {:induction false} LatestEnabledIsNewest(models: Log<ModelBody>, t: string, i: nat)
    requires i < |models| && Tenant(models[i].key) == t && models[i].val.status == "enabled"
    requires forall j :: i < j < |models| ==> Tenant(models[j].key) != t || models[j].val.status != "enabled"
    ensures LatestEnabled(models, t) == Some(models[i])
  {
    if i < |models| - 1 {
      LatestEnabledIsNewest(models[..|models| - 1], t, i);
    }
  }

  lemma HasVersionExtends<V>(log: Log<V>, more: Log<V>, k: Key, v: nat)
    requires HasVersion(log, k, v)
    ensures HasVersion(log + more, k, v)
  {
    var i :| 0 <= i < |log| && log[i].key == k && log[i].version == v;
    assert (log + more)[i] == log[i];
  }

  lemma RowExists<V>(log: Log<V>, r: Row<V>)
    requires r in log
    ensures HasVersion(log, r.key, r.version)
  {}

  /** Pins resolved by the store name existing versions, never version zero or the empty model. */
  lemma ResolvedPin(tenants: map<string, string>, models: Log<ModelBody>, t: string, model: string, version: int)
    requires ModelsOk(tenants, models) && (model == "" || version == 0)
    ensures ResolvePin(models, t, model, version).Ok? ==>
      var pin := ResolvePin(models, t, model, version).value;
      PinExists(models, t, pin) && pin.model != "" && pin.version >= 1
  {
    LatestEnabledMember(models, t);
    if LatestEnabled(models, t).Some? {
      var r := LatestEnabled(models, t).value;
      RowExists(models, r);
      assert r.key == [t, r.key[1]];
      assert r.key[1] in r.key;
      VersionsExact(models, r.key, r.version);
    }
  }

  /** An existing pin has a version of at least one. */
  lemma PinPositive(models: Log<ModelBody>, t: string, pin: Pin)
    requires Dense(models) && PinExists(models, t, pin)
    ensures pin.version >= 1
  {
    VersionsExact(models, [t, pin.model], pin.version);
  }

  lemma PreparedNodeOk(models: Log<ModelBody>, n: Node, gen: FreshId)
    ensures var item := PrepareNode(models, n, gen);
      !item.Reject? ==> NodeOk(item.key, item.val.body)
  {}

  lemma PreparedEdgeOk(models: Log<ModelBody>, e: Edge)
    ensures var item := PrepareEdge(models, e);
      !item.Generated? && (!item.Reject? ==> EdgeOk(item.key, item.val.body))
  {}

  lemma PreparedPropertyOk(models: Log<ModelBody>, p: Property)
    ensures var item := PrepareProperty(models, p);
      !item.Generated? && (!item.Reject? ==> PropertyOk(item.key, item.val.body))
  {}

  lemma PreparedContractOk(models: Log<ModelBody>, c: ContractRecord, gen: FreshId)
    ensures var item := PrepareContract(models, c, gen);
      !item.Reject? ==> ContractOk(item.key, item.val.body)
  {}

  /** A put on a dense table lands at the next version of its key, or not at all. */
  lemma PutItemLands<V>(log: Log<V>, item: Item<V>, expected: Option<int>, refExists: bool)
    requires Dense(log)
    ensures var r := PutItem(log, item, expected, refExists);
      && Dense(Extended(log, r))
      && (r.Ok? ==> !item.Reject? && refExists && r.value == NextRow(log, item.key, item.val))
      && (item.Keyed? ==>
           (r.Ok? <==> refExists && (expected.Some? ==> expected.value == MaxVersion(log, item.key))))
      && (item.Generated? ==> (r.Ok? <==> refExists && MaxVersion(log, item.key) == 0))
  {
    match item
    case Reject(_) =>
    case Generated(k, v) => InsertGuard(log, Row(k, 1, v));
    case Keyed(k, v) => InsertGuard(log, NextRow(log, k, v));
  }

  lemma PutStoredKeepsTable<B>(models: Log<ModelBody>, log: Log<Stored<B>>, item: Item<Stored<B>>,
      expected: Option<int>, ok: (Key, B) -> bool)
    requires TableOk(models, log, ok)
    requires !item.Reject? ==> ok(item.key, item.val.body)
    ensures TableOk(models, Extended(log, PutStored(models, log, item, expected)), ok)
  {
    PutItemLands(log, item, expected, ItemPinExists(models, item));
  }

  /** New model versions never invalidate a pin. */
  lemma TableOkExtends<B>(models: Log<ModelBody>, more: Log<ModelBody>, log: Log<Stored<B>>, ok: (Key, B) -> bool)
    requires TableOk(models, log, ok)
    ensures TableOk(models + more, log, ok)
  {
    forall r | r in log ensures PinExists(models + more, Tenant(r.key), r.val.pin) {
      HasVersionExtends(models, more, [Tenant(r.key), r.val.pin.model], r.val.pin.version);
    }
  }

  /** A model version that does not exist yet has an empty snapshot in every table. */
  lemma NewPinIsEmpty<B(!new)>(models: Log<ModelBody>, log: Log<Stored<B>>, t: string, pin: Pin, ok: (Key, B) -> bool)
    requires TableOk(models, log, ok) && !PinExists(models, t, pin)
    ensures Filter(log, AtPin(t, pin)) == [] && Query(log, AtPin(t, pin)) == []
  {
    FilterNone(log, AtPin(t, pin));
    QueryIsLastWins(log, AtPin(t, pin));
  }

  /** A key already registered stays as it is; a new one is added once. */
  lemma RegisterKeepsNames(log: Log<()>, k: Key)
    requires NamesOk(log) && |k| == 3
    ensures NamesOk(Register(log, k))
    ensures forall q {:trigger HasVersion(Register(log, k), q, 1)} ::
      HasVersion(Register(log, k), q, 1) <==> q == k || HasVersion(log, q, 1)
  {
    VersionsExact(log, k, 1);
    if MaxVersion(log, k) == 0 {
      NextRowDense(log, k, ());
      forall q ensures HasVersion(Register(log, k), q, 1) <==> q == k || HasVersion(log, q, 1) {
        HasVersionSnoc(log, Row(k, 1, ()), q, 1);
      }
    }
  }

  lemma TenantsGrow(tenants: map<string, string>, name: string, newId: string)
    requires name !in tenants
    ensures tenants[name := newId].Values == tenants.Values + {newId}
  {
    var tenants' := tenants[name := newId];
    forall id ensures id in tenants'.Values <==> id in tenants.Values + {newId} {
      if id in tenants.Values {
        var n :| n in tenants && tenants[n] == id;
        assert n in tenants' && tenants'[n] == id;
      }
      assert name in tenants' && tenants'[name] == newId;
    }
  }

  lemma ContractRefsGrow(db: Db, more: Log<Stored<ContractBody>>)
    requires ContractRefsOk(db)
    ensures ContractRefsOk(db.(contracts := db.contracts + more))
  {
    forall r | r in db.reasons ensures HasVersion(db.contracts + more, [r.tenant, r.contract], r.version) {
      HasVersionExtends(db.contracts, more, [r.tenant, r.contract], r.version);
    }
    forall r | r in db.obligations ensures HasVersion(db.contracts + more, [r.tenant, r.contract], r.version) {
      HasVersionExtends(db.contracts, more, [r.tenant, r.contract], r.version);
    }
  }

  /** A new model version of an existing tenant keeps the whole database valid. */
  lemma NewModelKeepsValid(db: Db, row: Row<ModelBody>)
    requires ValidDb(db) && Dense(db.models + [row])
    requires ModelOk(row.key, row.val) && Tenant(row.key) in db.tenants.Values
    ensures ValidDb(db.(models := db.models + [row]))
  {
    forall part ensures PartOk(db.(models := db.models + [row]), part) {
      assert PartOk(db, part);
      match part
      case NodePart => TableOkExtends(db.models, [row], db.nodes, NodeOk);
      case EdgePart => TableOkExtends(db.models, [row], db.edges, EdgeOk);
      case PropertyPart => TableOkExtends(db.models, [row], db.props, PropertyOk);
      case ContractPart => TableOkExtends(db.models, [row], db.contracts, ContractOk);
      case _ =>
    }
  }

  lemma PreparedModelOk(m: ModelVersion, gen: FreshId)
    ensures !PrepareModel(m, gen).Reject? ==>
      ModelOk(PrepareModel(m, gen).key, PrepareModel(m, gen).val) && Tenant(PrepareModel(m, gen).key) == m.tenant
  {}

  lemma PutModelKeepsValid(db: Db, m: ModelVersion, gen: FreshId)
    requires ValidDb(db)
    ensures ValidDb(db.(models := Extended(db.models, PutModelResult(db, m, gen))))
  {
    assert PartOk(db, ModelPart);
    PreparedModelOk(m, gen);
    PutItemLands(db.models, PrepareModel(m, gen), None, m.tenant in db.tenants.Values);
    if PutModelResult(db, m, gen).Ok? {
      NewModelKeepsValid(db, PutModelResult(db, m, gen).value);
    }
  }
}
