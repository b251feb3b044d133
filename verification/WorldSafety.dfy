/** What holds of the database over every interleaved run. */
module WorldSafety {
  import opened Basics
  import opened Ordering
  import opened VersionedLog
  import opened ConcurrentPut
  import opened Schema
  import opened World

  lemma WorldIsValid(w: World)
    requires WorldInv(w)
    ensures ValidDb(w.db)
    ensures Inv(w.Models()) && ClientsFit(w.modelClients, ModelOk)
    ensures StoredInv(w.db.models, w.Nodes(), NodeOk) && StoredInv(w.db.models, w.Edges(), EdgeOk)
    ensures StoredInv(w.db.models, w.Props(), PropertyOk) && StoredInv(w.db.models, w.Contracts(), ContractOk)
  {
    assert TableInv(w, OnModels) && TableInv(w, OnNodes) && TableInv(w, OnEdges);
    assert TableInv(w, OnProps) && TableInv(w, OnContracts);
    forall part ensures PartOk(w.db, part) {}
  }

  /** An action adds at most one row: the pending row of the client that inserts. */
  lemma ApplyAdds<V>(t: Table<V>, a: Action<V>)
    requires Inv(t)
    ensures
      var t' := Apply(t, a);
      || t'.log == t.log
      || (a.Insert? && a.pinExists && Pending(t, a.p).Some?
          && t'.log == t.log + [NextRow(t.log, Pending(t, a.p).value.key, Pending(t, a.p).value.val)])
  {
    if a.Insert? && a.p in t.clients {
      var c := t.clients[a.p];
      assert PhaseOk(t.log, c);
      match c
      case Snapped(k, v, expected, checkedAt, next, snappedAt) =>
        StaleIsLower(t.log, snappedAt, k);
        LandedAdds(t, a.p, Row(k, next, v), expected, checkedAt, a.pinExists);
      case Fresh(k, v) => LandedAdds(t, a.p, Row(k, 1, v), None, |t.log|, a.pinExists);
      case _ =>
    }
  }

  lemma ApplyKeepsFit<V>(t: Table<V>, a: Action<V>, ok: (Key, V) -> bool)
    requires ClientsFit(t.clients, ok)
    requires (a.Begin? || a.BeginFresh?) ==> ok(a.key, a.val)
    ensures ClientsFit(Apply(t, a).clients, ok)
  {
    if !a.Begin? && !a.BeginFresh? && a.p in t.clients {
      assert PhaseFits(t.clients[a.p], ok);
    }
  }

  lemma PendingFits<V>(t: Table<V>, p: nat, ok: (Key, V) -> bool)
    requires ClientsFit(t.clients, ok) && Pending(t, p).Some?
    ensures ok(Pending(t, p).value.key, Pending(t, p).value.val)
  {
    assert PhaseFits(t.clients[p], ok);
  }

  lemma ApplyKeepsStored<B>(models: Log<ModelBody>, t: Table<Stored<B>>, a: Action<Stored<B>>, ok: (Key, B) -> bool)
    requires StoredInv(models, t, ok)
    requires (a.Begin? || a.BeginFresh?) ==> ok(a.key, a.val.body)
    requires a.Insert? ==> a.pinExists == PinHolds(models, t, a.p)
    ensures StoredInv(models, Apply(t, a), ok)
    ensures t.log <= Apply(t, a).log
  {
    ApplyKeepsInv(t, a);
    ApplyKeepsFit(t, a, Bodies(ok));
    ApplyAdds(t, a);
    if Apply(t, a).log != t.log {
      PendingFits(t, a.p, Bodies(ok));
    }
  }

  lemma BeginKeepsStored<B>(models: Log<ModelBody>, t: Table<Stored<B>>, p: nat, item: Item<Stored<B>>,
      expected: Option<int>, ok: (Key, B) -> bool)
    requires StoredInv(models, t, ok)
    requires !item.Reject? ==> ok(item.key, item.val.body)
    ensures StoredInv(models, BeginItem(t, p, item, expected), ok)
    ensures BeginItem(t, p, item, expected).log == t.log
  {
    match item
    case Reject(_) =>
    case Keyed(k, v) => ApplyKeepsStored(models, t, Begin(p, k, v, expected), ok);
    case Generated(k, v) => ApplyKeepsStored(models, t, BeginFresh(p, k, v), ok);
  }

  lemma StoredInvExtends<B>(models: Log<ModelBody>, more: Log<ModelBody>, t: Table<Stored<B>>, ok: (Key, B) -> bool)
    requires StoredInv(models, t, ok)
    ensures StoredInv(models + more, t, ok)
  {
    TableOkExtends(models, more, t.log, ok);
  }

  lemma BeginKeepsModels(t: Table<ModelBody>, p: nat, item: Item<ModelBody>)
    requires Inv(t) && ClientsFit(t.clients, ModelOk)
    requires !item.Reject? ==> ModelOk(item.key, item.val)
    ensures var t' := BeginItem(t, p, item, None);
      Inv(t') && ClientsFit(t'.clients, ModelOk) && t'.log == t.log
  {
    match item
    case Reject(_) =>
    case Keyed(k, v) =>
      ApplyKeepsInv(t, Begin(p, k, v, None));
      ApplyKeepsFit(t, Begin(p, k, v, None), ModelOk);
    case Generated(k, v) =>
      ApplyKeepsInv(t, BeginFresh(p, k, v));
      ApplyKeepsFit(t, BeginFresh(p, k, v), ModelOk);
  }

  /** A statement on model_versions appends at most one row, for an existing tenant. */
  lemma ApplyKeepsModels(tenants: map<string, string>, t: Table<ModelBody>, p: nat, s: Statement)
    requires Inv(t) && ClientsFit(t.clients, ModelOk) && ModelsOk(tenants, t.log)
    ensures var t' := Apply(t, ActionOf(p, s, TenantHolds(tenants, t, p)));
      Inv(t') && ClientsFit(t'.clients, ModelOk) && ModelsOk(tenants, t'.log) && t.log <= t'.log
  {
    var a := ActionOf(p, s, TenantHolds(tenants, t, p));
    ApplyKeepsInv(t, a);
    ApplyKeepsFit(t, a, ModelOk);
    ApplyAdds(t, a);
    if Apply(t, a).log != t.log {
      PendingFits(t, p, ModelOk);
    }
  }

  /** New model versions keep the invariant: every pin still holds. */
  lemma LiftModels(w: World, t: Table<ModelBody>)
    requires WorldInv(w) && Inv(t) && ClientsFit(t.clients, ModelOk)
    requires ModelsOk(w.db.tenants, t.log) && w.db.models <= t.log
    ensures WorldInv(w.WithModels(t)) && Grows(w, w.WithModels(t))
  {
    var more, w' := t.log[|w.db.models|..], w.WithModels(t);
    assert t.log == w.db.models + more;
    assert w'.Nodes() == w.Nodes() && w'.Edges() == w.Edges() && w'.Props() == w.Props()
      && w'.Contracts() == w.Contracts();
    forall which ensures TableInv(w', which) {
      assert TableInv(w, which);
      match which
      case OnModels =>
      case OnNodes => StoredInvExtends(w.db.models, more, w.Nodes(), NodeOk);
      case OnEdges => StoredInvExtends(w.db.models, more, w.Edges(), EdgeOk);
      case OnProps => StoredInvExtends(w.db.models, more, w.Props(), PropertyOk);
      case OnContracts => StoredInvExtends(w.db.models, more, w.Contracts(), ContractOk);
    }
  }

  lemma LiftNodes(w: World, t: Table<Stored<NodeBody>>)
    requires WorldInv(w) && StoredInv(w.db.models, t, NodeOk) && w.db.nodes <= t.log
    ensures WorldInv(w.WithNodes(t)) && Grows(w, w.WithNodes(t))
  {
    forall which ensures TableInv(w.WithNodes(t), which) {
      assert TableInv(w, which);
    }
  }

  lemma LiftEdges(w: World, t: Table<Stored<EdgeBody>>)
    requires WorldInv(w) && StoredInv(w.db.models, t, EdgeOk) && w.db.edges <= t.log
    ensures WorldInv(w.WithEdges(t)) && Grows(w, w.WithEdges(t))
  {
    forall which ensures TableInv(w.WithEdges(t), which) {
      assert TableInv(w, which);
    }
  }

  lemma LiftProps(w: World, t: Table<Stored<PropertyBody>>)
    requires WorldInv(w) && StoredInv(w.db.models, t, PropertyOk) && w.db.props <= t.log
    ensures WorldInv(w.WithProps(t)) && Grows(w, w.WithProps(t))
  {
    forall which ensures TableInv(w.WithProps(t), which) {
      assert TableInv(w, which);
    }
  }

  lemma LiftContracts(w: World, t: Table<Stored<ContractBody>>)
    requires WorldInv(w) && StoredInv(w.db.models, t, ContractOk) && w.db.contracts <= t.log
    ensures WorldInv(w.WithContracts(t)) && Grows(w, w.WithContracts(t))
  {
    var more := t.log[|w.db.contracts|..];
    assert t.log == w.db.contracts + more;
    ContractRefsGrow(w.db, more);
    forall which ensures TableInv(w.WithContracts(t), which) {
      assert TableInv(w, which);
    }
  }

  lemma AskModel(w: World, p: nat, item: Item<ModelBody>)
    requires WorldInv(w) && (!item.Reject? ==> ModelOk(item.key, item.val))
    ensures var w' := w.WithModels(BeginItem(w.Models(), p, item, None)); WorldInv(w') && Grows(w, w')
  {
    assert TableInv(w, OnModels);
    BeginKeepsModels(w.Models(), p, item);
    LiftModels(w, BeginItem(w.Models(), p, item, None));
  }

  lemma GoModels(w: World, p: nat, s: Statement)
    requires WorldInv(w)
    ensures var w' := w.WithModels(Apply(w.Models(), ActionOf(p, s, TenantHolds(w.db.tenants, w.Models(), p))));
      WorldInv(w') && Grows(w, w')
  {
    assert TableInv(w, OnModels);
    ApplyKeepsModels(w.db.tenants, w.Models(), p, s);
    LiftModels(w, Apply(w.Models(), ActionOf(p, s, TenantHolds(w.db.tenants, w.Models(), p))));
  }

  lemma AskNode(w: World, p: nat, item: Item<Stored<NodeBody>>, expected: Option<int>)
    requires WorldInv(w) && (!item.Reject? ==> NodeOk(item.key, item.val.body))
    ensures var w' := w.WithNodes(BeginItem(w.Nodes(), p, item, expected)); WorldInv(w') && Grows(w, w')
  {
    assert TableInv(w, OnNodes);
    BeginKeepsStored(w.db.models, w.Nodes(), p, item, expected, NodeOk);
    LiftNodes(w, BeginItem(w.Nodes(), p, item, expected));
  }

  lemma GoNodes(w: World, p: nat, s: Statement)
    requires WorldInv(w)
    ensures var w' := w.WithNodes(Apply(w.Nodes(), ActionOf(p, s, PinHolds(w.db.models, w.Nodes(), p))));
      WorldInv(w') && Grows(w, w')
  {
    assert TableInv(w, OnNodes);
    var a := ActionOf(p, s, PinHolds(w.db.models, w.Nodes(), p));
    ApplyKeepsStored(w.db.models, w.Nodes(), a, NodeOk);
    LiftNodes(w, Apply(w.Nodes(), a));
  }

  lemma AskEdge(w: World, p: nat, item: Item<Stored<EdgeBody>>, expected: Option<int>)
    requires WorldInv(w) && (!item.Reject? ==> EdgeOk(item.key, item.val.body))
    ensures var w' := w.WithEdges(BeginItem(w.Edges(), p, item, expected)); WorldInv(w') && Grows(w, w')
  {
    assert TableInv(w, OnEdges);
    BeginKeepsStored(w.db.models, w.Edges(), p, item, expected, EdgeOk);
    LiftEdges(w, BeginItem(w.Edges(), p, item, expected));
  }

  lemma GoEdges(w: World, p: nat, s: Statement)
    requires WorldInv(w)
    ensures var w' := w.WithEdges(Apply(w.Edges(), ActionOf(p, s, PinHolds(w.db.models, w.Edges(), p))));
      WorldInv(w') && Grows(w, w')
  {
    assert TableInv(w, OnEdges);
    var a := ActionOf(p, s, PinHolds(w.db.models, w.Edges(), p));
    ApplyKeepsStored(w.db.models, w.Edges(), a, EdgeOk);
    LiftEdges(w, Apply(w.Edges(), a));
  }

  lemma AskProp(w: World, p: nat, item: Item<Stored<PropertyBody>>, expected: Option<int>)
    requires WorldInv(w) && (!item.Reject? ==> PropertyOk(item.key, item.val.body))
    ensures var w' := w.WithProps(BeginItem(w.Props(), p, item, expected)); WorldInv(w') && Grows(w, w')
  {
    assert TableInv(w, OnProps);
    BeginKeepsStored(w.db.models, w.Props(), p, item, expected, PropertyOk);
    LiftProps(w, BeginItem(w.Props(), p, item, expected));
  }

  lemma GoProps(w: World, p: nat, s: Statement)
    requires WorldInv(w)
    ensures var w' := w.WithProps(Apply(w.Props(), ActionOf(p, s, PinHolds(w.db.models, w.Props(), p))));
      WorldInv(w') && Grows(w, w')
  {
    assert TableInv(w, OnProps);
    var a := ActionOf(p, s, PinHolds(w.db.models, w.Props(), p));
    ApplyKeepsStored(w.db.models, w.Props(), a, PropertyOk);
    LiftProps(w, Apply(w.Props(), a));
  }

  lemma AskContract(w: World, p: nat, item: Item<Stored<ContractBody>>, expected: Option<int>)
    requires WorldInv(w) && (!item.Reject? ==> ContractOk(item.key, item.val.body))
    ensures var w' := w.WithContracts(BeginItem(w.Contracts(), p, item, expected)); WorldInv(w') && Grows(w, w')
  {
    assert TableInv(w, OnContracts);
    BeginKeepsStored(w.db.models, w.Contracts(), p, item, expected, ContractOk);
    LiftContracts(w, BeginItem(w.Contracts(), p, item, expected));
  }

  lemma GoContracts(w: World, p: nat, s: Statement)
    requires WorldInv(w)
    ensures var w' := w.WithContracts(Apply(w.Contracts(), ActionOf(p, s, PinHolds(w.db.models, w.Contracts(), p))));
      WorldInv(w') && Grows(w, w')
  {
    assert TableInv(w, OnContracts);
    var a := ActionOf(p, s, PinHolds(w.db.models, w.Contracts(), p));
    ApplyKeepsStored(w.db.models, w.Contracts(), a, ContractOk);
    LiftContracts(w, Apply(w.Contracts(), a));
  }

  lemma StatusItemsFit(db: Db, t: string, id: string, version: int, status: string, gen: FreshId)
    ensures var item := StatusItem(db, t, id, status, gen); !item.Reject? ==> ContractOk(item.key, item.val.body)
    ensures var item := ModelStatusItem(db, t, id, version, status, gen); !item.Reject? ==> ModelOk(item.key, item.val)
  {}

  lemma AskKeepsInv(w: World, p: nat, req: Request)
    requires WorldInv(w)
    ensures WorldInv(AskStep(w, p, req)) && Grows(w, AskStep(w, p, req))
  {
    match req
    case PutModel(m, gen) =>
      PreparedModelOk(m, gen);
      AskModel(w, p, PrepareModel(m, gen));
    case SetModelStatus(t, model, version, status, gen) =>
      StatusItemsFit(w.db, t, model, version, status, gen);
      AskModel(w, p, ModelStatusItem(w.db, t, model, version, status, gen));
    case PutNode(n, expected, gen) =>
      PreparedNodeOk(w.db.models, n, gen);
      AskNode(w, p, PrepareNode(w.db.models, n, gen), expected);
    case PutEdge(e, expected) =>
      PreparedEdgeOk(w.db.models, e);
      AskEdge(w, p, PrepareEdge(w.db.models, e), expected);
    case PutProperty(q, expected) =>
      PreparedPropertyOk(w.db.models, q);
      AskProp(w, p, PrepareProperty(w.db.models, q), expected);
    case PutContract(c, expected, gen) =>
      PreparedContractOk(w.db.models, c, gen);
      AskContract(w, p, PrepareContract(w.db.models, c, gen), expected);
    case SetContractStatus(t, id, status, expected, gen) =>
      StatusItemsFit(w.db, t, id, 0, status, gen);
      AskContract(w, p, StatusItem(w.db, t, id, status, gen), expected);
  }

  lemma StatementKeepsInv(w: World, p: nat, which: Which, s: Statement)
    requires WorldInv(w)
    ensures WorldInv(GoStep(w, p, which, s)) && Grows(w, GoStep(w, p, which, s))
  {
    match which
    case OnModels => GoModels(w, p, s);
    case OnNodes => GoNodes(w, p, s);
    case OnEdges => GoEdges(w, p, s);
    case OnProps => GoProps(w, p, s);
    case OnContracts => GoContracts(w, p, s);
  }

  lemma LiftTenants(w: World, name: string, newId: FreshId)
    requires WorldInv(w) && name !in w.db.tenants
    ensures WorldInv(w.(db := w.db.(tenants := w.db.tenants[name := newId])))
  {
    var w' := w.(db := w.db.(tenants := w.db.tenants[name := newId]));
    TenantsGrow(w.db.tenants, name, newId);
    forall which ensures TableInv(w', which) {
      assert TableInv(w, which);
    }
  }

  lemma LiftTypes(w: World, k: Key)
    requires WorldInv(w) && |k| == 3
    ensures WorldInv(w.(db := w.db.(types := Register(w.db.types, k))))
  {
    RegisterKeepsNames(w.db.types, k);
    forall which ensures TableInv(w.(db := w.db.(types := Register(w.db.types, k))), which) {
      assert TableInv(w, which);
    }
  }

  lemma LiftStatuses(w: World, k: Key)
    requires WorldInv(w) && |k| == 3
    ensures WorldInv(w.(db := w.db.(statuses := Register(w.db.statuses, k))))
  {
    RegisterKeepsNames(w.db.statuses, k);
    forall which ensures TableInv(w.(db := w.db.(statuses := Register(w.db.statuses, k))), which) {
      assert TableInv(w, which);
    }
  }

  lemma TypeKeepsInv(w: World, k: Key)
    requires WorldInv(w)
    ensures WorldInv(Step(w, AddType(k))) && Grows(w, Step(w, AddType(k)))
  {
    if |k| == 3 { LiftTypes(w, k); }
  }

  lemma StatusKeepsInv(w: World, k: Key)
    requires WorldInv(w)
    ensures WorldInv(Step(w, AddStatus(k))) && Grows(w, Step(w, AddStatus(k)))
  {
    if |k| == 3 { LiftStatuses(w, k); }
  }

  lemma TenantKeepsInv(w: World, name: string, newId: FreshId)
    requires WorldInv(w)
    ensures WorldInv(Step(w, AddTenant(name, newId))) && Grows(w, Step(w, AddTenant(name, newId)))
  {
    if name !in w.db.tenants { LiftTenants(w, name, newId); }
  }

  lemma StepKeepsInv(w: World, mv: Move) returns (w2: World)
    requires WorldInv(w)
    ensures w2 == Step(w, mv) && WorldInv(w2) && Grows(w, w2)
  {
    match mv
    case Ask(p, req) =>
      AskKeepsInv(w, p, req);
      w2 := AskStep(w, p, req);
    case Go(p, which, s) =>
      StatementKeepsInv(w, p, which, s);
      w2 := GoStep(w, p, which, s);
    case AddTenant(name, newId) =>
      TenantKeepsInv(w, name, newId);
      w2 := Step(w, mv);
    case AddType(k) =>
      TypeKeepsInv(w, k);
      w2 := Step(w, mv);
    case AddStatus(k) =>
      StatusKeepsInv(w, k);
      w2 := Step(w, mv);
  }

  /** Referential safety and append-only storage over every interleaved run: all histories stay
      dense, every row's pin names an existing model version, and no committed row is touched. */
  lemma {:induction false} RunSafety(w: World, moves: seq<Move>)
    requires WorldInv(w)
    ensures WorldInv(After(w, moves)) && ValidDb(After(w, moves).db) && Grows(w, After(w, moves))
  {
    if moves != [] {
      RunSafety(w, moves[..|moves| - 1]);
      var w2 := StepKeepsInv(After(w, moves[..|moves| - 1]), moves[|moves| - 1]);
    }
    WorldIsValid(After(w, moves));
  }

  lemma EmptyWorldInv()
    ensures WorldInv(EmptyWorld())
  {
    forall which ensures TableInv(EmptyWorld(), which) {}
  }

  /** A contract version once returned by GetVersion is returned unchanged forever after. */
  lemma GetVersionForever(w: World, moves: seq<Move>, tenant: string, id: string, version: int)
    requires WorldInv(w) && VersionRow(w.db.contracts, [tenant, id], version).Some?
    ensures VersionRow(After(w, moves).db.contracts, [tenant, id], version) ==
      VersionRow(w.db.contracts, [tenant, id], version)
  {
    RunSafety(w, moves);
    assert TableInv(After(w, moves), OnContracts);
    var log, log' := w.db.contracts, After(w, moves).db.contracts;
    assert log' == log + log'[|log|..];
    VersionRowStable(log, log'[|log|..], [tenant, id], version);
  }

  /** At the moment a model version is created its snapshot is empty in all four tables. */
  lemma NewVersionIsEmpty(w: World, p: nat)
    requires WorldInv(w)
    ensures
      var w' := Step(w, Go(p, OnModels, InsertRow));
      w'.db.models != w.db.models ==>
        && |w'.db.models| == |w.db.models| + 1
        && var r := w'.db.models[|w.db.models|]; var t := Tenant(r.key);
        && !PinExists(w.db.models, t, PinOf(r)) && PinExists(w'.db.models, t, PinOf(r))
        && Query(w'.db.nodes, AtPin(t, PinOf(r))) == []
        && Query(w'.db.edges, AtPin(t, PinOf(r))) == []
        && Query(w'.db.props, AtPin(t, PinOf(r))) == []
        && Query(w'.db.contracts, AtPin(t, PinOf(r))) == []
  {
    WorldIsValid(w);
    var w' := Step(w, Go(p, OnModels, InsertRow));
    ApplyAdds(w.Models(), Insert(p, TenantHolds(w.db.tenants, w.Models(), p)));
    if w'.db.models != w.db.models {
      PendingFits(w.Models(), p, ModelOk);
      var r := w'.db.models[|w.db.models|];
      var t, pin := Tenant(r.key), PinOf(r);
      assert r.key == [t, pin.model];
      VersionsExact(w.db.models, r.key, r.version);
      RowExists(w'.db.models, r);
      NewPinIsEmpty(w.db.models, w.db.nodes, t, pin, NodeOk);
      NewPinIsEmpty(w.db.models, w.db.edges, t, pin, EdgeOk);
      NewPinIsEmpty(w.db.models, w.db.props, t, pin, PropertyOk);
      NewPinIsEmpty(w.db.models, w.db.contracts, t, pin, ContractOk);
    }
  }

  // --- the latest-enabled pointer over runs ---

  lemma {:induction false} PointerFrame(models: Log<ModelBody>, more: Log<ModelBody>, t: string)
    ensures (forall r :: r in more ==> !Enables(r, t)) ==> LatestEnabled(models + more, t) == LatestEnabled(models, t)
    ensures LatestEnabled(models, t).Some? ==> LatestEnabled(models + more, t).Some?
    ensures (exists r :: r in more && Enables(r, t)) ==>
      LatestEnabled(models + more, t).Some? && LatestEnabled(models + more, t).value in more
  {
    if more == [] {
      assert models + more == models;
    } else {
      var n := |more| - 1;
      assert more == more[..n] + [more[n]];
      assert more[n] in more && forall r :: r in more[..n] ==> r in more;
      assert (models + more)[..|models + more| - 1] == models + more[..n];
      PointerFrame(models, more[..n], t);
    }
  }

  /** Over every run: the pointer moves only to an enabled version created during the run, it stays
      put when none was created, and a tenant that has one never loses it. */
  lemma PointerOverRuns(w: World, moves: seq<Move>, t: string)
    requires WorldInv(w)
    ensures
      var before, after := w.db.models, After(w, moves).db.models;
      && before <= after
      && var created := after[|before|..];
      && ((forall r :: r in created ==> !Enables(r, t)) ==> LatestEnabled(after, t) == LatestEnabled(before, t))
      && ((exists r :: r in created && Enables(r, t)) ==>
           LatestEnabled(after, t).Some? && LatestEnabled(after, t).value in created)
      && (LatestEnabled(before, t).Some? ==> LatestEnabled(after, t).Some?)
  {
    RunSafety(w, moves);
    var before, after := w.db.models, After(w, moves).db.models;
    assert after == before + after[|before|..];
    PointerFrame(before, after[|before|..], t);
  }

  // --- contract status changes ---

  /** Putting a stored contract again with a new status neither re-pins nor re-defaults it. */
  lemma StatusItemSameButStatus(db: Db, t: string, id: string, status: string, gen: FreshId)
    requires ValidDb(db)
    ensures var item := StatusItem(db, t, id, status, gen);
      !item.Reject? ==>
        && item.Keyed? && item.key == [t, id] && item.val.body.status == status
        && Latest(db.contracts, [t, id]).Some?
        && SameButStatus(item.val, Latest(db.contracts, [t, id]).value.val)
  {
    Parts(db);
    LatestRefinesMap(db.contracts, [t, id]);
    if Latest(db.contracts, [t, id]).Some? {
      var r := Latest(db.contracts, [t, id]).value;
      assert r.key == [t, id] && ContractOk(r.key, r.val.body);
      assert r.key[0] in r.key && r.key[1] in r.key;
      var pin := r.val.pin;
      PinPositive(db.models, t, pin);
      var i :| 0 <= i < |db.models| && db.models[i].key == [t, pin.model];
      assert db.models[i] in db.models && db.models[i].key[1] in db.models[i].key;
    }
  }

  lemma StatusOnlyInsert(t: Table<Stored<ContractBody>>, p: nat, pinExists: bool, k: Key, v0: Stored<ContractBody>)
    requires Inv(t) && StatusOnly(t, k, v0)
    ensures StatusOnly(Apply(t, Insert(p, pinExists)), k, v0)
  {
    var t' := Apply(t, Insert(p, pinExists));
    ApplyAdds(t, Insert(p, pinExists));
    if t'.log != t.log {
      assert StatusPhase(t.clients[p], k, v0);
      if t.clients[p].Fresh? {
        FreshOutcome(t, p, pinExists);
      }
      MaxMonotone(t'.log, |t.log|, k);
      assert t'.log[..|t.log|] == t.log;
    }
  }

  lemma StatusOnlyApply(t: Table<Stored<ContractBody>>, a: Action<Stored<ContractBody>>, k: Key,
      v0: Stored<ContractBody>)
    requires Inv(t) && StatusOnly(t, k, v0)
    requires a.Begin? && a.key == k ==> SameButStatus(a.val, v0)
    ensures StatusOnly(Apply(t, a), k, v0)
  {
    match a
    case Insert(p, pinExists) => StatusOnlyInsert(t, p, pinExists, k, v0);
    case _ => assert a.p in t.clients ==> StatusPhase(t.clients[a.p], k, v0);
  }

  lemma StatusOnlyBegin(t: Table<Stored<ContractBody>>, p: nat, item: Item<Stored<ContractBody>>, expected: Option<int>,
                       k: Key, v0: Stored<ContractBody>)
    requires Inv(t) && StatusOnly(t, k, v0)
    requires item.Keyed? && item.key == k ==> SameButStatus(item.val, v0)
    ensures StatusOnly(BeginItem(t, p, item, expected), k, v0)
  {
    match item
    case Reject(_) =>
    case Keyed(key, v) => StatusOnlyApply(t, Begin(p, key, v, expected), k, v0);
    case Generated(key, v) => StatusOnlyApply(t, BeginFresh(p, key, v), k, v0);
  }

  lemma StatusOnlySet(w: World, p: nat, t: string, id: string, status: string, expected: Option<int>, gen: FreshId,
                     k: Key, v0: Stored<ContractBody>)
    requires WorldInv(w) && StatusOnly(w.Contracts(), k, v0)
    ensures StatusOnly(BeginItem(w.Contracts(), p, StatusItem(w.db, t, id, status, gen), expected), k, v0)
  {
    WorldIsValid(w);
    StatusItemSameButStatus(w.db, t, id, status, gen);
    LatestRefinesMap(w.db.contracts, [t, id]);
    StatusOnlyBegin(w.Contracts(), p, StatusItem(w.db, t, id, status, gen), expected, k, v0);
  }

  lemma StatusOnlyAsk(w: World, p: nat, req: Request, k: Key, v0: Stored<ContractBody>)
    requires WorldInv(w) && StatusOnly(w.Contracts(), k, v0) && NoDirectPut(Ask(p, req), k)
    ensures StatusOnly(AskStep(w, p, req).Contracts(), k, v0)
  {
    match req
    case SetContractStatus(t, id, status, expected, gen) => StatusOnlySet(w, p, t, id, status, expected, gen, k, v0);
    case PutContract(c, expected, gen) =>
      assert TableInv(w, OnContracts);
      StatusOnlyBegin(w.Contracts(), p, PrepareContract(w.db.models, c, gen), expected, k, v0);
    case _ =>
  }

  /** Statements on the other tables leave the contracts alone. */
  lemma ContractsUntouched(w: World, mv: Move)
    requires !mv.Ask? && !(mv.Go? && mv.which == OnContracts)
    ensures Step(w, mv).Contracts() == w.Contracts()
  {}

  lemma StatusOnlyGo(w: World, p: nat, which: Which, s: Statement, k: Key, v0: Stored<ContractBody>)
    requires WorldInv(w) && StatusOnly(w.Contracts(), k, v0)
    ensures StatusOnly(GoStep(w, p, which, s).Contracts(), k, v0)
  {
    if which == OnContracts {
      assert TableInv(w, OnContracts);
      StatusOnlyApply(w.Contracts(), ActionOf(p, s, PinHolds(w.db.models, w.Contracts(), p)), k, v0);
    } else {
      ContractsUntouched(w, Go(p, which, s));
    }
  }

  lemma StatusOnlyStep(w: World, mv: Move, k: Key, v0: Stored<ContractBody>)
    requires WorldInv(w) && StatusOnly(w.Contracts(), k, v0) && NoDirectPut(mv, k)
    ensures StatusOnly(Step(w, mv).Contracts(), k, v0)
  {
    match mv
    case Ask(p, req) => StatusOnlyAsk(w, p, req, k, v0);
    case Go(p, which, s) => StatusOnlyGo(w, p, which, s, k, v0);
    case _ =>
  }

  /** If every write to a contract after its creation is a status change, then under any
      interleaving, stale reads included, all its versions share domain, type, action, blob and pin. */
  lemma {:induction false} StatusChangesKeepTheRest(w: World, moves: seq<Move>, k: Key, v0: Stored<ContractBody>)
    requires WorldInv(w) && StatusOnly(w.Contracts(), k, v0)
    requires forall i :: 0 <= i < |moves| ==> NoDirectPut(moves[i], k)
    ensures StatusOnly(After(w, moves).Contracts(), k, v0)
    ensures var log := After(w, moves).db.contracts;
      forall r, s :: r in log && s in log && r.key == k && s.key == k ==> SameButStatus(r.val, s.val)
  {
    if moves != [] {
      var n := |moves| - 1;
      StatusChangesKeepTheRest(w, moves[..n], k, v0);
      RunSafety(w, moves[..n]);
      StatusOnlyStep(After(w, moves[..n]), moves[n], k, v0);
    }
  }
}
