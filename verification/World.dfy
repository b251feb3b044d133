/** The whole database with any number of clients of every repository, statements interleaved. */
module World {
  import opened Basics
  import opened Ordering
  import opened VersionedLog
  import opened ConcurrentPut
  import opened Schema

  datatype World = World(
    db: Db,
    modelClients: map<nat, Phase<ModelBody>>,
    nodeClients: map<nat, Phase<Stored<NodeBody>>>,
    edgeClients: map<nat, Phase<Stored<EdgeBody>>>,
    propClients: map<nat, Phase<Stored<PropertyBody>>>,
    contractClients: map<nat, Phase<Stored<ContractBody>>>)
  {
    function Models(): Table<ModelBody> { Table(db.models, modelClients) }
    function Nodes(): Table<Stored<NodeBody>> { Table(db.nodes, nodeClients) }
    function Edges(): Table<Stored<EdgeBody>> { Table(db.edges, edgeClients) }
    function Props(): Table<Stored<PropertyBody>> { Table(db.props, propClients) }
    function Contracts(): Table<Stored<ContractBody>> { Table(db.contracts, contractClients) }

    function WithModels(t: Table<ModelBody>): World { this.(db := db.(models := t.log), modelClients := t.clients) }
    function WithNodes(t: Table<Stored<NodeBody>>): World { this.(db := db.(nodes := t.log), nodeClients := t.clients) }
    function WithEdges(t: Table<Stored<EdgeBody>>): World { this.(db := db.(edges := t.log), edgeClients := t.clients) }
    function WithProps(t: Table<Stored<PropertyBody>>): World {
      this.(db := db.(props := t.log), propClients := t.clients)
    }
    function WithContracts(t: Table<Stored<ContractBody>>): World {
      this.(db := db.(contracts := t.log), contractClients := t.clients)
    }
  }

  /** What a client asks for; validation, defaults, pin resolution and, for status changes, the
      read of the current row all happen in this first step. */
  datatype Request =
    | PutModel(m: ModelVersion, gen: FreshId)
    | PutNode(n: Node, nodeExpected: Option<int>, gen: FreshId)
    | PutEdge(e: Edge, edgeExpected: Option<int>)
    | PutProperty(q: Property, propExpected: Option<int>)
    | PutContract(c: ContractRecord, contractExpected: Option<int>, gen: FreshId)
    | SetContractStatus(tenant: string, id: string, status: string, statusExpected: Option<int>, gen: FreshId)
    | SetModelStatus(tenant: string, model: string, version: int, status: string, gen: FreshId)

  datatype Which = OnModels | OnNodes | OnEdges | OnProps | OnContracts
  datatype Statement = CheckExpected | TakeSnapshot | InsertRow

  datatype Move =
    | Ask(p: nat, req: Request)
    | Go(p: nat, which: Which, s: Statement)
    | AddTenant(name: string, newId: FreshId)
    | AddType(typeKey: Key)
    | AddStatus(statusKey: Key)

  function BeginItem<V>(t: Table<V>, p: nat, item: Item<V>, expected: Option<int>): Table<V> {
    match item
    case Reject(e) => if Idle(t, p) then t.(clients := t.clients[p := Failed(e)]) else t
    case Keyed(k, v) => Apply(t, Begin(p, k, v, expected))
    case Generated(k, v) => Apply(t, BeginFresh(p, k, v))
  }

  /** SetStatus of a contract: the latest row as a record, with the new status, put again. */
  function StatusItem(db: Db, tenant: string, id: string, status: string, gen: FreshId): Item<Stored<ContractBody>> {
    match Latest(db.contracts, [tenant, id])
    case None => Reject(NotFound)
    case Some(r) => PrepareContract(db.models, RecordOf(r).(status := status), gen)
  }

  /** SetStatus of a model version: the named row with the new status, created again. */
  function ModelStatusItem(db: Db, tenant: string, model: string, version: int, status: string,
      gen: FreshId): Item<ModelBody> {
    match VersionRow(db.models, [tenant, model], version)
    case None => Reject(NotFound)
    case Some(r) => PrepareModel(ModelVersion(tenant, model, status, r.val.changeNote), gen)
  }

  function AskStep(w: World, p: nat, req: Request): World {
    match req
    case PutModel(m, gen) => w.WithModels(BeginItem(w.Models(), p, PrepareModel(m, gen), None))
    case PutNode(n, expected, gen) => w.WithNodes(BeginItem(w.Nodes(), p, PrepareNode(w.db.models, n, gen), expected))
    case PutEdge(e, expected) => w.WithEdges(BeginItem(w.Edges(), p, PrepareEdge(w.db.models, e), expected))
    case PutProperty(q, expected) => w.WithProps(BeginItem(w.Props(), p, PrepareProperty(w.db.models, q), expected))
    case PutContract(c, expected, gen) =>
      w.WithContracts(BeginItem(w.Contracts(), p, PrepareContract(w.db.models, c, gen), expected))
    case SetContractStatus(t, id, status, expected, gen) =>
      w.WithContracts(BeginItem(w.Contracts(), p, StatusItem(w.db, t, id, status, gen), expected))
    case SetModelStatus(t, model, version, status, gen) =>
      w.WithModels(BeginItem(w.Models(), p, ModelStatusItem(w.db, t, model, version, status, gen), None))
  }

  /** The row client p is about to insert, if it is at that point. */
  function Pending<V>(t: Table<V>, p: nat): Option<Write<V>> {
    if p !in t.clients then None
    else match t.clients[p]
      case Fresh(k, v) => Some(Write(k, v))
      case Snapped(k, v, _, _, _, _) => Some(Write(k, v))
      case _ => None
  }

  function PinHolds<B>(models: Log<ModelBody>, t: Table<Stored<B>>, p: nat): bool {
    match Pending(t, p)
    case None => false
    case Some(w) => PinExists(models, Tenant(w.key), w.val.pin)
  }

  function TenantHolds(tenants: map<string, string>, t: Table<ModelBody>, p: nat): bool {
    match Pending(t, p)
    case None => false
    case Some(w) => Tenant(w.key) in tenants.Values
  }

  function ActionOf<V>(p: nat, s: Statement, refExists: bool): Action<V> {
    match s
    case CheckExpected => Check(p)
    case TakeSnapshot => Snap(p)
    case InsertRow => Insert(p, refExists)
  }

  function GoStep(w: World, p: nat, which: Which, s: Statement): World {
    match which
    case OnModels => w.WithModels(Apply(w.Models(), ActionOf(p, s, TenantHolds(w.db.tenants, w.Models(), p))))
    case OnNodes => w.WithNodes(Apply(w.Nodes(), ActionOf(p, s, PinHolds(w.db.models, w.Nodes(), p))))
    case OnEdges => w.WithEdges(Apply(w.Edges(), ActionOf(p, s, PinHolds(w.db.models, w.Edges(), p))))
    case OnProps => w.WithProps(Apply(w.Props(), ActionOf(p, s, PinHolds(w.db.models, w.Props(), p))))
    case OnContracts => w.WithContracts(Apply(w.Contracts(), ActionOf(p, s, PinHolds(w.db.models, w.Contracts(), p))))
  }

  function Step(w: World, mv: Move): World {
    match mv
    case Ask(p, req) => AskStep(w, p, req)
    case Go(p, which, s) => GoStep(w, p, which, s)
    case AddTenant(name, newId) =>
      if name in w.db.tenants || newId in w.db.tenants.Values then w
      else w.(db := w.db.(tenants := w.db.tenants[name := newId]))
    case AddType(k) => if |k| == 3 then w.(db := w.db.(types := Register(w.db.types, k))) else w
    case AddStatus(k) => if |k| == 3 then w.(db := w.db.(statuses := Register(w.db.statuses, k))) else w
  }

  function After(w: World, moves: seq<Move>): World {
    if moves == [] then w else Step(After(w, moves[..|moves| - 1]), moves[|moves| - 1])
  }

  function EmptyWorld(): World {
    World(Db(map[], [], [], [], [], [], [], [], [], []), map[], map[], map[], map[], map[])
  }

  // --- the invariant ---

  ghost predicate PhaseFits<V>(c: Phase<V>, ok: (Key, V) -> bool) {
    match c
    case Started(k, v, _) => ok(k, v)
    case Fresh(k, v) => ok(k, v)
    case Checked(k, v, _, _) => ok(k, v)
    case Snapped(k, v, _, _, _, _) => ok(k, v)
    case _ => true
  }

  ghost predicate ClientsFit<V>(clients: map<nat, Phase<V>>, ok: (Key, V) -> bool) {
    forall p {:trigger clients[p]} :: p in clients ==> PhaseFits(clients[p], ok)
  }

  ghost function Bodies<B>(ok: (Key, B) -> bool): (Key, Stored<B>) -> bool {
    (k: Key, v: Stored<B>) => ok(k, v.body)
  }

  ghost predicate StoredInv<B>(models: Log<ModelBody>, t: Table<Stored<B>>, ok: (Key, B) -> bool) {
    Inv(t) && TableOk(models, t.log, ok) && ClientsFit(t.clients, Bodies(ok))
  }

  /** The part of the invariant that concerns one table and its clients. */
  ghost predicate TableInv(w: World, which: Which) {
    match which
    case OnModels => Inv(w.Models()) && ClientsFit(w.modelClients, ModelOk) && ModelsOk(w.db.tenants, w.db.models)
    case OnNodes => StoredInv(w.db.models, w.Nodes(), NodeOk)
    case OnEdges => StoredInv(w.db.models, w.Edges(), EdgeOk)
    case OnProps => StoredInv(w.db.models, w.Props(), PropertyOk)
    case OnContracts => StoredInv(w.db.models, w.Contracts(), ContractOk)
  }

  ghost predicate WorldInv(w: World) {
    RegistriesOk(w.db) && forall which :: TableInv(w, which)
  }

  /** Every table of w2 extends the table of w. */
  ghost predicate Grows(w: World, w2: World) {
    && w.db.models <= w2.db.models && w.db.nodes <= w2.db.nodes && w.db.edges <= w2.db.edges
    && w.db.props <= w2.db.props && w.db.contracts <= w2.db.contracts
  }

  ghost predicate Enables(r: Row<ModelBody>, t: string) { Tenant(r.key) == t && r.val.status == "enabled" }

  /** Everything but the status. */
  ghost predicate SameButStatus(a: Stored<ContractBody>, b: Stored<ContractBody>) {
    a.pin == b.pin && a.body.(status := "") == b.body.(status := "")
  }

  /** A pending row for key k differs from v0 in status only; a generated-id put of k cannot land. */
  ghost predicate StatusPhase(c: Phase<Stored<ContractBody>>, k: Key, v0: Stored<ContractBody>) {
    match c
    case Started(key, v, _) => key == k ==> SameButStatus(v, v0)
    case Checked(key, v, _, _) => key == k ==> SameButStatus(v, v0)
    case Snapped(key, v, _, _, _, _) => key == k ==> SameButStatus(v, v0)
    case _ => true
  }

  ghost predicate StatusOnly(t: Table<Stored<ContractBody>>, k: Key, v0: Stored<ContractBody>) {
    && MaxVersion(t.log, k) >= 1
    && (forall r :: r in t.log && r.key == k ==> SameButStatus(r.val, v0))
    && (forall p {:trigger t.clients[p]} :: p in t.clients ==> StatusPhase(t.clients[p], k, v0))
  }

  /** The move does not put contract k directly. */
  ghost predicate NoDirectPut(mv: Move, k: Key) {
    mv.Ask? && mv.req.PutContract? ==> [mv.req.c.tenant, mv.req.c.id] != k
  }
}
