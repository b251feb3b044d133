/** When each Put succeeds, what it stores and how it fails, stated on the request. */
module PutMeaning {
  import opened Basics
  import opened Ordering
  import opened VersionedLog
  import opened Schema

  // --- the model version a request is stored under ---

  ghost predicate EnabledRow(r: Row<ModelBody>, t: string) { Tenant(r.key) == t && r.val.status == "enabled" }

  /** Row i is the most recently created enabled row of the tenant. */
  ghost predicate NewestEnabled(models: Log<ModelBody>, t: string, i: int) {
    && 0 <= i < |models| && EnabledRow(models[i], t)
    && forall j :: i < j < |models| ==> !EnabledRow(models[j], t)
  }

  ghost predicate NoneEnabled(models: Log<ModelBody>, t: string) { forall r :: r in models ==> !EnabledRow(r, t) }

  /** A request that gives a model and a version means these; any other means the most recently created
      enabled model version of the tenant. */
  ghost predicate Means(models: Log<ModelBody>, t: string, model: string, version: int, pin: Pin) {
    if model != "" && version != 0 then pin.model == model && pin.version == version
    else exists i :: NewestEnabled(models, t, i) && models[i].key == [t, pin.model] && models[i].version == pin.version
  }

  lemma {:induction false} LatestEnabledAt(models: Log<ModelBody>, t: string)
    ensures LatestEnabled(models, t).None? <==> NoneEnabled(models, t)
    ensures LatestEnabled(models, t).Some? ==>
      exists i :: NewestEnabled(models, t, i) && models[i] == LatestEnabled(models, t).value
  {
    if models != [] {
      var n := |models| - 1;
      LatestEnabledAt(models[..n], t);
      assert models == models[..n] + [models[n]];
      if EnabledRow(models[n], t) {
        assert NewestEnabled(models, t, n);
      } else if LatestEnabled(models[..n], t).Some? {
        var i :| NewestEnabled(models[..n], t, i) && models[..n][i] == LatestEnabled(models[..n], t).value;
        assert NewestEnabled(models, t, i);
      }
    }
  }

  lemma NewestIsUnique(models: Log<ModelBody>, t: string, i: int, j: int)
    requires NewestEnabled(models, t, i) && NewestEnabled(models, t, j)
    ensures i == j
  {}

  lemma NewestIsLatest(models: Log<ModelBody>, t: string, i: int)
    requires NewestEnabled(models, t, i)
    ensures LatestEnabled(models, t) == Some(models[i])
  {
    LatestEnabledAt(models, t);
    assert models[i] in models;
    var j :| NewestEnabled(models, t, j) && models[j] == LatestEnabled(models, t).value;
    NewestIsUnique(models, t, i, j);
  }

  /** Resolution finds exactly the model version that is meant, and fails only when nothing is: for a
      request without one of a tenant without an enabled model version. */
  lemma ResolvedIff(tenants: map<string, string>, models: Log<ModelBody>, t: string, model: string, version: int,
      pin: Pin)
    requires ModelsOk(tenants, models)
    ensures ResolvePin(models, t, model, version) == Ok(pin) <==> Means(models, t, model, version, pin)
    ensures ResolvePin(models, t, model, version).Err? <==> (model == "" || version == 0) && NoneEnabled(models, t)
    ensures ResolvePin(models, t, model, version).Err? ==> ResolvePin(models, t, model, version).error == NoEnabledModel
  {
    LatestEnabledAt(models, t);
    if i :| NewestEnabled(models, t, i) {
      NewestIsLatest(models, t, i);
      assert models[i] in models && ModelOk(models[i].key, models[i].val);
      assert models[i].key == [t, models[i].key[1]];
      forall j | NewestEnabled(models, t, j) ensures j == i { NewestIsUnique(models, t, i, j); }
    }
  }

  /** The foreign key: some row of the table of model versions is the one the pin names. */
  ghost predicate Names(models: Log<ModelBody>, t: string, pin: Pin) {
    exists r :: r in models && r.key == [t, pin.model] && r.version == pin.version
  }

  lemma NamesIff(models: Log<ModelBody>, t: string, pin: Pin)
    ensures PinExists(models, t, pin) <==> Names(models, t, pin)
  {
    if PinExists(models, t, pin) {
      var i :| 0 <= i < |models| && models[i].key == [t, pin.model] && models[i].version == pin.version;
      assert models[i] in models;
    }
    if Names(models, t, pin) {
      var r :| r in models && r.key == [t, pin.model] && r.version == pin.version;
      RowExists(models, r);
    }
  }

  // --- the four Puts ---

  /** The outcome of a request that has all its fields. With given, key is the caller's; otherwise it holds
      a generated id, and there is no version check. */
  ghost predicate Outcome<B>(models: Log<ModelBody>, log: Log<Stored<B>>, r: Result<Row<Stored<B>>>,
                             t: string, model: string, version: int, key: Key, given: bool, expected: Option<int>,
                               body: B)
  {
    var nothingMeant := (model == "" || version == 0) && NoneEnabled(models, t);
    var clash := if given then expected.Some? && expected.value != MaxVersion(log, key) else MaxVersion(log, key) > 0;
    match r
    case Ok(row) =>
      && !clash && row.key == key && row.version == MaxVersion(log, key) + 1 && row.val.body == body
      && Means(models, t, model, version, row.val.pin) && Names(models, t, row.val.pin)
    case Err(e) =>
      if nothingMeant then e == NoEnabledModel
      else if clash then e == if given then Conflict else DuplicateKey
      else e == ForeignKey && forall pin :: Means(models, t, model, version, pin) ==> !Names(models, t, pin)
  }

  ghost predicate ItemIs<B>(models: Log<ModelBody>, item: Item<Stored<B>>,
                            t: string, model: string, version: int, key: Key, given: bool, body: B)
  {
    match ResolvePin(models, t, model, version)
    case Err(e) => item == Reject(e)
    case Ok(pin) => item == if given then Keyed(key, Stored(pin, body)) else Generated(key, Stored(pin, body))
  }

  lemma ItemOutcome<B>(db: Db, log: Log<Stored<B>>, item: Item<Stored<B>>, expected: Option<int>,
                       t: string, model: string, version: int, key: Key, given: bool, body: B)
    requires ModelsOk(db.tenants, db.models) && Dense(log) && Tenant(key) == t
    requires ItemIs(db.models, item, t, model, version, key, given, body)
    ensures Outcome(db.models, log, PutStored(db.models, log, item, expected), t, model, version, key, given, expected,
      body)
  {
    PutItemLands(log, item, expected, ItemPinExists(db.models, item));
    var resolved := ResolvePin(db.models, t, model, version);
    ResolvedIff(db.tenants, db.models, t, model, version, if resolved.Ok? then resolved.value else Pin("", 0));
    forall pin | Means(db.models, t, model, version, pin) ensures resolved == Ok(pin) {
      ResolvedIff(db.tenants, db.models, t, model, version, pin);
    }
    if resolved.Ok? && !item.Reject? {
      NamesIff(db.models, t, resolved.value);
      InsertGuard(log, Row(key, 1, item.val));
      InsertGuard(log, NextRow(log, key, item.val));
    }
  }

  function OrEmpty(blob: Option<Json>): Json { match blob case None => Object(map[]) case Some(j) => j }

  lemma PutNodeMeaning(db: Db, n: Node, expected: Option<int>, gen: FreshId)
    requires ValidDb(db)
    ensures
      var r := PutStored(db.models, db.nodes, PrepareNode(db.models, n, gen), expected);
      if n.tenant == "" then r == Err(TenantRequired)
      else if n.typ == "" then r == Err(TypeRequired)
      else
        var key := [n.tenant, if n.id == "" then gen else n.id];
        var body := NodeBody(if n.domain == "" then "node" else n.domain, n.typ, OrEmpty(n.blob));
        Outcome(db.models, db.nodes, r, n.tenant, n.model, n.modelVersion, key, n.id != "", expected, body)
  {
    Parts(db);
    if n.tenant != "" && n.typ != "" {
      var key := [n.tenant, if n.id == "" then gen else n.id];
      var body := NodeBody(if n.domain == "" then "node" else n.domain, n.typ, OrEmpty(n.blob));
      ItemOutcome(db, db.nodes, PrepareNode(db.models, n, gen), expected, n.tenant, n.model, n.modelVersion, key,
        n.id != "", body);
    }
  }

  lemma PutEdgeMeaning(db: Db, e: Edge, expected: Option<int>)
    requires ValidDb(db)
    ensures
      var r := PutStored(db.models, db.edges, PrepareEdge(db.models, e), expected);
      if e.tenant == "" then r == Err(TenantRequired)
      else if e.typ == "" then r == Err(TypeRequired)
      else if e.from == "" || e.to == "" then r == Err(EndsRequired)
      else
        var key := [e.tenant, e.from, e.to, if e.domain == "" then "edge" else e.domain, e.typ];
        Outcome(db.models, db.edges, r, e.tenant, e.model, e.modelVersion, key, true, expected, OrEmpty(e.blob))
  {
    Parts(db);
    if e.tenant != "" && e.typ != "" && e.from != "" && e.to != "" {
      var key := [e.tenant, e.from, e.to, if e.domain == "" then "edge" else e.domain, e.typ];
      ItemOutcome(db, db.edges, PrepareEdge(db.models, e), expected, e.tenant, e.model, e.modelVersion, key, true,
        OrEmpty(e.blob));
    }
  }

  lemma PutPropertyMeaning(db: Db, p: Property, expected: Option<int>)
    requires ValidDb(db)
    ensures
      var r := PutStored(db.models, db.props, PrepareProperty(db.models, p), expected);
      if p.tenant == "" || p.ownerType == "" || p.ownerId == "" || p.key == "" then r == Err(FieldsRequired)
      else
        var key := [p.tenant, p.ownerType, p.ownerId, p.key];
        Outcome(db.models, db.props, r, p.tenant, p.model, p.modelVersion, key, true, expected, OrEmpty(p.value))
  {
    Parts(db);
    if p.tenant != "" && p.ownerType != "" && p.ownerId != "" && p.key != "" {
      var key := [p.tenant, p.ownerType, p.ownerId, p.key];
      ItemOutcome(db, db.props, PrepareProperty(db.models, p), expected, p.tenant, p.model, p.modelVersion, key, true,
        OrEmpty(p.value));
    }
  }

  lemma PutContractMeaning(db: Db, c: ContractRecord, expected: Option<int>, gen: FreshId)
    requires ValidDb(db)
    ensures
      var r := PutStored(db.models, db.contracts, PrepareContract(db.models, c, gen), expected);
      if c.tenant == "" then r == Err(TenantRequired)
      else if c.typ == "" then r == Err(TypeRequired)
      else if c.status == "" then r == Err(StatusRequired)
      else
        var key := [c.tenant, if c.id == "" then gen else c.id];
        var domain, action := if c.domain == "" then "contract" else c.domain, if c.action == "" then None
          else Some(c.action);
        var body := ContractBody(domain, c.typ, c.status, action, OrEmpty(c.blob));
        Outcome(db.models, db.contracts, r, c.tenant, c.model, c.modelVersion, key, c.id != "", expected, body)
  {
    Parts(db);
    if c.tenant != "" && c.typ != "" && c.status != "" {
      var key := [c.tenant, if c.id == "" then gen else c.id];
      var domain, action := if c.domain == "" then "contract" else c.domain, if c.action == "" then None
        else Some(c.action);
      var body := ContractBody(domain, c.typ, c.status, action, OrEmpty(c.blob));
      ItemOutcome(db, db.contracts, PrepareContract(db.models, c, gen), expected, c.tenant, c.model, c.modelVersion,
        key, c.id != "", body);
    }
  }

  /** Creating a model version: a draft unless a status is given, at the next version of its lineage. */
  lemma PutModelMeaning(db: Db, m: ModelVersion, gen: FreshId)
    requires ValidDb(db)
    ensures
      var r := PutModelResult(db, m, gen);
      if m.tenant == "" then r == Err(TenantRequired)
      else
        var key := [m.tenant, if m.model == "" then gen else m.model];
        var body := ModelBody(if m.status == "" then "draft" else m.status, m.changeNote);
        if m.model == "" && MaxVersion(db.models, key) > 0 then r == Err(DuplicateKey)
        else if m.tenant !in db.tenants.Values then r == Err(ForeignKey)
        else r == Ok(Row(key, MaxVersion(db.models, key) + 1, body))
  {
    Parts(db);
    if m.tenant != "" {
      var key := [m.tenant, if m.model == "" then gen else m.model];
      var item := PrepareModel(m, gen);
      PutItemLands(db.models, item, None, m.tenant in db.tenants.Values);
      InsertGuard(db.models, Row(key, 1, item.val));
      InsertGuard(db.models, NextRow(db.models, key, item.val));
    }
  }
}
