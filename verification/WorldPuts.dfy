/** What the statements of one client do to the whole database. */
module WorldPuts {
  import opened Basics
  import opened Ordering
  import opened VersionedLog
  import opened ConcurrentPut
  import opened Schema
  import opened World
  import opened WorldSafety
  import opened Lifecycle

  // --- the insert of a client that is about to insert ---

  predicate AboutToInsert<V>(t: Table<V>, p: nat) {
    p in t.clients && (t.clients[p].Snapped? || t.clients[p].Fresh?)
  }

  /** The insert lands the client's row at the next version of its key iff no row of the key was committed
      since its snapshot (its generated key is unused) and its reference holds; otherwise nothing is
      stored and the client gets the error of the constraint that refused it. */
  ghost predicate Inserted<V>(t: Table<V>, t2: Table<V>, p: nat, holds: bool)
    requires AboutToInsert(t, p)
  {
    var c := t.clients[p];
    var taken := if c.Fresh? then MaxVersion(t.log, c.key) > 0
                 else exists j :: c.snappedAt <= j < |t.log| && t.log[j].key == c.key;
    var row := Row(c.key, MaxVersion(t.log, c.key) + 1, c.val);
    && (forall q :: q != p ==>
         (q in t2.clients <==> q in t.clients) && (q in t.clients ==> t2.clients[q] == t.clients[q]))
    && p in t2.clients
    && (if taken then t2.log == t.log && t2.clients[p] == Failed(DuplicateKey)
        else if !holds then t2.log == t.log && t2.clients[p] == Failed(ForeignKey)
        else t2.log == t.log + [row] && t2.clients[p].Committed? && t2.clients[p].row == row)
  }

  lemma InsertedBy<V>(t: Table<V>, p: nat, holds: bool)
    requires Inv(t) && AboutToInsert(t, p)
    ensures Inserted(t, Apply(t, Insert(p, holds)), p, holds)
  {
    if t.clients[p].Snapped? {
      InsertOutcome(t, p, holds);
    } else {
      FreshOutcome(t, p, holds);
    }
  }

  /** In a world, the reference that counts is the pin's model version, as it is when the insert runs. */
  lemma StoredInsert<B>(models: Log<ModelBody>, t: Table<Stored<B>>, p: nat)
    requires Inv(t) && AboutToInsert(t, p)
    ensures Inserted(t, Apply(t, ActionOf(p, InsertRow, PinHolds(models, t, p))), p,
      PinExists(models, Tenant(t.clients[p].key), t.clients[p].val.pin))
  {
    InsertedBy(t, p, PinExists(models, Tenant(t.clients[p].key), t.clients[p].val.pin));
  }

  lemma NodeInsert(w: World, p: nat)
    requires WorldInv(w) && AboutToInsert(w.Nodes(), p)
    ensures
      var c, w2 := w.nodeClients[p], Step(w, Go(p, OnNodes, InsertRow));
      && Inserted(w.Nodes(), w2.Nodes(), p, PinExists(w.db.models, Tenant(c.key), c.val.pin))
      && w2 == w.WithNodes(w2.Nodes())
  {
    assert TableInv(w, OnNodes);
    StoredInsert(w.db.models, w.Nodes(), p);
  }

  lemma EdgeInsert(w: World, p: nat)
    requires WorldInv(w) && AboutToInsert(w.Edges(), p)
    ensures
      var c, w2 := w.edgeClients[p], Step(w, Go(p, OnEdges, InsertRow));
      && Inserted(w.Edges(), w2.Edges(), p, PinExists(w.db.models, Tenant(c.key), c.val.pin))
      && w2 == w.WithEdges(w2.Edges())
  {
    assert TableInv(w, OnEdges);
    StoredInsert(w.db.models, w.Edges(), p);
  }

  lemma PropertyInsert(w: World, p: nat)
    requires WorldInv(w) && AboutToInsert(w.Props(), p)
    ensures
      var c, w2 := w.propClients[p], Step(w, Go(p, OnProps, InsertRow));
      && Inserted(w.Props(), w2.Props(), p, PinExists(w.db.models, Tenant(c.key), c.val.pin))
      && w2 == w.WithProps(w2.Props())
  {
    assert TableInv(w, OnProps);
    StoredInsert(w.db.models, w.Props(), p);
  }

  lemma ContractInsert(w: World, p: nat)
    requires WorldInv(w) && AboutToInsert(w.Contracts(), p)
    ensures
      var c, w2 := w.contractClients[p], Step(w, Go(p, OnContracts, InsertRow));
      && Inserted(w.Contracts(), w2.Contracts(), p, PinExists(w.db.models, Tenant(c.key), c.val.pin))
      && w2 == w.WithContracts(w2.Contracts())
  {
    assert TableInv(w, OnContracts);
    StoredInsert(w.db.models, w.Contracts(), p);
  }

  /** For model versions the reference that counts is the tenant. */
  lemma ModelInsert(w: World, p: nat)
    requires WorldInv(w) && AboutToInsert(w.Models(), p)
    ensures
      var c, w2 := w.modelClients[p], Step(w, Go(p, OnModels, InsertRow));
      && Inserted(w.Models(), w2.Models(), p, Tenant(c.key) in w.db.tenants.Values)
      && w2 == w.WithModels(w2.Models())
  {
    assert TableInv(w, OnModels);
    InsertedBy(w.Models(), p, Tenant(w.modelClients[p].key) in w.db.tenants.Values);
  }

  // --- a request with nothing in between ---

  /** A table after a client has begun the item and run its check and its snapshot. */
  function ReadyTable<V>(t: Table<V>, p: nat, item: Item<V>, expected: Option<int>): Table<V> {
    Apply(Apply(BeginItem(t, p, item, expected), Check(p)), Snap(p))
  }

  /** At that point the client has its row pending, or has failed already, as the put fails whatever its
      reference. */
  lemma ReadyToInsert<V>(t: Table<V>, p: nat, item: Item<V>, expected: Option<int>)
    requires Inv(t) && Idle(t, p)
    ensures
      var t3 := ReadyTable(t, p, item, expected);
      if Pending(t3, p).Some? then !item.Reject? && Pending(t3, p).value == Write(item.key, item.val)
      else forall b: bool, c: bool :: PutItem(t.log, item, expected, b) == PutItem(t.log, item, expected, c)
  {}

  /** The insert then completes the sequential put. */
  lemma InsertCompletes<V>(t: Table<V>, p: nat, item: Item<V>, expected: Option<int>, passed: bool, holds: bool)
    requires Inv(t) && Idle(t, p)
    requires Pending(ReadyTable(t, p, item, expected), p).Some? ==> passed == holds
    ensures DidAs(t, Apply(ReadyTable(t, p, item, expected), Insert(p, passed)), p,
      PutItem(t.log, item, expected, holds))
  {
    PutIsRunAlone(t, p, item, expected, passed);
    RunFinish(BeginItem(t, p, item, expected), p, passed);
    ReadyToInsert(t, p, item, expected);
  }

  /** The same with the reference taken from the pending row, as a world does. */
  lemma StoredCompletes<B>(models: Log<ModelBody>, t: Table<Stored<B>>, p: nat, item: Item<Stored<B>>,
      expected: Option<int>)
    requires Inv(t) && Idle(t, p)
    ensures
      var t3 := ReadyTable(t, p, item, expected);
      DidAs(t, Apply(t3, ActionOf(p, InsertRow, PinHolds(models, t3, p))), p, PutStored(models, t.log, item, expected))
  {
    var t3 := ReadyTable(t, p, item, expected);
    ReadyToInsert(t, p, item, expected);
    InsertCompletes(t, p, item, expected, PinHolds(models, t3, p), ItemPinExists(models, item));
  }

  lemma ModelCompletes(tenants: map<string, string>, t: Table<ModelBody>, p: nat, item: Item<ModelBody>)
    requires Inv(t) && Idle(t, p)
    ensures
      var t3 := ReadyTable(t, p, item, None);
      DidAs(t, Apply(t3, ActionOf(p, InsertRow, TenantHolds(tenants, t3, p))), p,
        PutItem(t.log, item, None, !item.Reject? && Tenant(item.key) in tenants.Values))
  {
    var t3 := ReadyTable(t, p, item, None);
    ReadyToInsert(t, p, item, None);
    InsertCompletes(t, p, item, None, TenantHolds(tenants, t3, p), !item.Reject? && Tenant(item.key) in tenants.Values);
  }

  /** The statements of a put that has been asked for. */
  function Rest(p: nat, which: Which): seq<Move> {
    [Go(p, which, CheckExpected), Go(p, which, TakeSnapshot), Go(p, which, InsertRow)]
  }

  lemma AfterRest(w: World, p: nat, req: Request, which: Which)
    ensures After(w, [Ask(p, req)] + Rest(p, which)) ==
      Step(Step(Step(AskStep(w, p, req), Go(p, which, CheckExpected)), Go(p, which, TakeSnapshot)),
        Go(p, which, InsertRow))
  {
    var moves := [Ask(p, req)] + Rest(p, which);
    assert moves[..3][..2] == moves[..2] && moves[..2][..1] == moves[..1] && moves[..1][..0] == [];
    assert After(w, moves[..1]) == Step(w, moves[0]);
    assert After(w, moves[..2]) == Step(After(w, moves[..1]), moves[1]);
    assert After(w, moves[..3]) == Step(After(w, moves[..2]), moves[2]);
    assert moves[..4] == moves;
  }

  lemma NodeStatements(w: World, p: nat, item: Item<Stored<NodeBody>>, expected: Option<int>)
    requires WorldInv(w) && Idle(w.Nodes(), p)
    ensures
      var w1 := w.WithNodes(BeginItem(w.Nodes(), p, item, expected));
      var w4 :=
        Step(Step(Step(w1, Go(p, OnNodes, CheckExpected)), Go(p, OnNodes, TakeSnapshot)), Go(p, OnNodes, InsertRow));
      w4 == w.WithNodes(w4.Nodes())
        && DidAs(w.Nodes(), w4.Nodes(), p, PutStored(w.db.models, w.db.nodes, item, expected))
  {
    assert TableInv(w, OnNodes);
    StoredCompletes(w.db.models, w.Nodes(), p, item, expected);
  }

  lemma EdgeStatements(w: World, p: nat, item: Item<Stored<EdgeBody>>, expected: Option<int>)
    requires WorldInv(w) && Idle(w.Edges(), p)
    ensures
      var w1 := w.WithEdges(BeginItem(w.Edges(), p, item, expected));
      var w4 :=
        Step(Step(Step(w1, Go(p, OnEdges, CheckExpected)), Go(p, OnEdges, TakeSnapshot)), Go(p, OnEdges, InsertRow));
      w4 == w.WithEdges(w4.Edges())
        && DidAs(w.Edges(), w4.Edges(), p, PutStored(w.db.models, w.db.edges, item, expected))
  {
    assert TableInv(w, OnEdges);
    StoredCompletes(w.db.models, w.Edges(), p, item, expected);
  }

  lemma PropertyStatements(w: World, p: nat, item: Item<Stored<PropertyBody>>, expected: Option<int>)
    requires WorldInv(w) && Idle(w.Props(), p)
    ensures
      var w1 := w.WithProps(BeginItem(w.Props(), p, item, expected));
      var w4 :=
        Step(Step(Step(w1, Go(p, OnProps, CheckExpected)), Go(p, OnProps, TakeSnapshot)), Go(p, OnProps, InsertRow));
      w4 == w.WithProps(w4.Props())
        && DidAs(w.Props(), w4.Props(), p, PutStored(w.db.models, w.db.props, item, expected))
  {
    assert TableInv(w, OnProps);
    StoredCompletes(w.db.models, w.Props(), p, item, expected);
  }

  lemma ContractStatements(w: World, p: nat, item: Item<Stored<ContractBody>>, expected: Option<int>)
    requires WorldInv(w) && Idle(w.Contracts(), p)
    ensures
      var w1 := w.WithContracts(BeginItem(w.Contracts(), p, item, expected));
      var w4 :=
        Step(Step(Step(w1, Go(p, OnContracts, CheckExpected)), Go(p, OnContracts, TakeSnapshot)),
        Go(p, OnContracts, InsertRow));
      && w4 == w.WithContracts(w4.Contracts())
      && DidAs(w.Contracts(), w4.Contracts(), p, PutStored(w.db.models, w.db.contracts, item, expected))
  {
    assert TableInv(w, OnContracts);
    StoredCompletes(w.db.models, w.Contracts(), p, item, expected);
  }

  lemma ModelStatements(w: World, p: nat, item: Item<ModelBody>)
    requires WorldInv(w) && Idle(w.Models(), p)
    ensures
      var w1 := w.WithModels(BeginItem(w.Models(), p, item, None));
      var w4 :=
        Step(Step(Step(w1, Go(p, OnModels, CheckExpected)), Go(p, OnModels, TakeSnapshot)), Go(p, OnModels, InsertRow));
      var holds := !item.Reject? && Tenant(item.key) in w.db.tenants.Values;
      w4 == w.WithModels(w4.Models()) && DidAs(w.Models(), w4.Models(), p, PutItem(w.db.models, item, None, holds))
  {
    assert TableInv(w, OnModels);
    ModelCompletes(w.db.tenants, w.Models(), p, item);
  }

  /** A request of a client followed by its three statements, nothing in between, is the specified put: same
      row or same error, and nothing else changes. */
  lemma PutNodeAlone(w: World, p: nat, n: Node, expected: Option<int>, gen: FreshId)
    requires WorldInv(w) && Idle(w.Nodes(), p)
    ensures
      var w2 := After(w, [Ask(p, PutNode(n, expected, gen))] + Rest(p, OnNodes));
      w2 == w.WithNodes(w2.Nodes())
      && DidAs(w.Nodes(), w2.Nodes(), p, PutStored(w.db.models, w.db.nodes, PrepareNode(w.db.models, n, gen), expected))
  {
    AfterRest(w, p, PutNode(n, expected, gen), OnNodes);
    NodeStatements(w, p, PrepareNode(w.db.models, n, gen), expected);
  }

  lemma PutEdgeAlone(w: World, p: nat, e: Edge, expected: Option<int>)
    requires WorldInv(w) && Idle(w.Edges(), p)
    ensures
      var w2 := After(w, [Ask(p, PutEdge(e, expected))] + Rest(p, OnEdges));
      w2 == w.WithEdges(w2.Edges())
      && DidAs(w.Edges(), w2.Edges(), p, PutStored(w.db.models, w.db.edges, PrepareEdge(w.db.models, e), expected))
  {
    AfterRest(w, p, PutEdge(e, expected), OnEdges);
    EdgeStatements(w, p, PrepareEdge(w.db.models, e), expected);
  }

  lemma PutPropertyAlone(w: World, p: nat, q: Property, expected: Option<int>)
    requires WorldInv(w) && Idle(w.Props(), p)
    ensures
      var w2 := After(w, [Ask(p, PutProperty(q, expected))] + Rest(p, OnProps));
      w2 == w.WithProps(w2.Props())
      && DidAs(w.Props(), w2.Props(), p, PutStored(w.db.models, w.db.props, PrepareProperty(w.db.models, q), expected))
  {
    AfterRest(w, p, PutProperty(q, expected), OnProps);
    PropertyStatements(w, p, PrepareProperty(w.db.models, q), expected);
  }

  lemma PutContractAlone(w: World, p: nat, c: ContractRecord, expected: Option<int>, gen: FreshId)
    requires WorldInv(w) && Idle(w.Contracts(), p)
    ensures
      var w2 := After(w, [Ask(p, PutContract(c, expected, gen))] + Rest(p, OnContracts));
      w2 == w.WithContracts(w2.Contracts())
      && DidAs(w.Contracts(), w2.Contracts(), p,
           PutStored(w.db.models, w.db.contracts, PrepareContract(w.db.models, c, gen), expected))
  {
    AfterRest(w, p, PutContract(c, expected, gen), OnContracts);
    ContractStatements(w, p, PrepareContract(w.db.models, c, gen), expected);
  }

  lemma PutModelAlone(w: World, p: nat, m: ModelVersion, gen: FreshId)
    requires WorldInv(w) && Idle(w.Models(), p)
    ensures
      var w2 := After(w, [Ask(p, PutModel(m, gen))] + Rest(p, OnModels));
      w2 == w.WithModels(w2.Models()) && DidAs(w.Models(), w2.Models(), p, PutModelResult(w.db, m, gen))
  {
    AfterRest(w, p, PutModel(m, gen), OnModels);
    ModelStatements(w, p, PrepareModel(m, gen));
  }

  /** A contract's status change, with nothing in between. */
  lemma SetContractStatusAlone(w: World, p: nat, t: string, id: string, status: string, expected: Option<int>,
      gen: FreshId)
    requires WorldInv(w) && Idle(w.Contracts(), p)
    ensures
      var w2 := After(w, [Ask(p, SetContractStatus(t, id, status, expected, gen))] + Rest(p, OnContracts));
      w2 == w.WithContracts(w2.Contracts())
      && match Latest(w.db.contracts, [t, id])
         case None => DidAs(w.Contracts(), w2.Contracts(), p, Err(NotFound))
         case Some(r) => DidAs(w.Contracts(), w2.Contracts(), p,
           PutStored(w.db.models, w.db.contracts, PrepareContract(w.db.models, RecordOf(r).(status := status), gen),
             expected))
  {
    AfterRest(w, p, SetContractStatus(t, id, status, expected, gen), OnContracts);
    ContractStatements(w, p, StatusItem(w.db, t, id, status, gen), expected);
  }

  /** What putting a model version back with a new status returns. */
  lemma StatusPut(db: Db, t: string, model: string, version: int, status: string, gen: FreshId)
    requires ModelsOk(db.tenants, db.models)
    ensures
      var item := ModelStatusItem(db, t, model, version, status, gen);
      PutItem(db.models, item, None, !item.Reject? && Tenant(item.key) in db.tenants.Values) ==
        match VersionRow(db.models, [t, model], version)
        case None => Err(NotFound)
        case Some(r) =>
          Ok(NextRow(db.models, [t, model], ModelBody(if status == "" then "draft" else status, r.val.changeNote)))
  {
    VersionRowMember(db.models, [t, model], version);
    if VersionRow(db.models, [t, model], version).Some? {
      var r := VersionRow(db.models, [t, model], version).value;
      assert r in db.models && ModelOk(r.key, r.val) && r.key[0] in r.key && r.key[1] in r.key;
      InsertGuard(db.models,
        NextRow(db.models, [t, model], ModelBody(FirstNonEmpty(status, "draft"), r.val.changeNote)));
    }
  }

  lemma ModelStatusSteps(w: World, p: nat, t: string, model: string, version: int, status: string, gen: FreshId)
    requires WorldInv(w) && Idle(w.Models(), p)
    ensures
      var w2 := After(w, [Ask(p, SetModelStatus(t, model, version, status, gen))] + Rest(p, OnModels));
      var item := ModelStatusItem(w.db, t, model, version, status, gen);
      var holds := !item.Reject? && Tenant(item.key) in w.db.tenants.Values;
      w2 == w.WithModels(w2.Models()) && DidAs(w.Models(), w2.Models(), p, PutItem(w.db.models, item, None, holds))
  {
    AfterRest(w, p, SetModelStatus(t, model, version, status, gen), OnModels);
    ModelStatements(w, p, ModelStatusItem(w.db, t, model, version, status, gen));
  }

  /** A model version's status change, with nothing in between: the next version of its lineage with the
      new status and the old note. */
  lemma SetModelStatusAlone(w: World, p: nat, t: string, model: string, version: int, status: string, gen: FreshId)
    requires WorldInv(w) && Idle(w.Models(), p)
    ensures
      var w2 := After(w, [Ask(p, SetModelStatus(t, model, version, status, gen))] + Rest(p, OnModels));
      w2 == w.WithModels(w2.Models()) && DidAs(w.Models(), w2.Models(), p,
        match VersionRow(w.db.models, [t, model], version)
        case None => Err(NotFound)
        case Some(r) =>
          Ok(NextRow(w.db.models, [t, model], ModelBody(if status == "" then "draft" else status, r.val.changeNote))))
  {
    ModelStatusSteps(w, p, t, model, version, status, gen);
    assert TableInv(w, OnModels);
    StatusPut(w.db, t, model, version, status, gen);
  }

  // --- tenants and names ---

  /** A new name gets the generated id, a known one keeps its own; a taken id changes nothing. */
  lemma TenantAdded(w: World, name: string, newId: FreshId)
    ensures
      var db2 := Step(w, AddTenant(name, newId)).db;
      && db2 == w.db.(tenants := db2.tenants)
      && (name in w.db.tenants || newId in w.db.tenants.Values ==> db2.tenants == w.db.tenants)
      && (name !in w.db.tenants && newId !in w.db.tenants.Values ==>
            && name in db2.tenants && db2.tenants[name] == newId
            && (forall n :: n != name ==> (n in db2.tenants <==> n in w.db.tenants))
            && (forall n :: n != name && n in w.db.tenants ==> db2.tenants[n] == w.db.tenants[n]))
  {}

  /** Registering adds exactly the name that is registered, to the registry it is registered in. */
  lemma NamesAdded(w: World, k: Key, q: Key)
    requires WorldInv(w) && |k| == 3
    ensures
      var types2 := Step(w, AddType(k)).db;
      types2 == w.db.(types := types2.types)
        && (HasVersion(types2.types, q, 1) <==> q == k || HasVersion(w.db.types, q, 1))
    ensures
      var statuses2 := Step(w, AddStatus(k)).db;
      && statuses2 == w.db.(statuses := statuses2.statuses)
      && (HasVersion(statuses2.statuses, q, 1) <==> q == k || HasVersion(w.db.statuses, q, 1))
  {
    RegisterKeepsNames(w.db.types, k);
    RegisterKeepsNames(w.db.statuses, k);
  }
}
