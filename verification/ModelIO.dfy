/** ImportBundle and ExportLatestEnabled as loops over the store. */
module ModelIO {
  import opened Basics
  import opened Ordering
  import opened VersionedLog
  import opened Schema
  import opened SqlStore
  import opened ContractKeys
  import opened Bundles

  method LoadReasons(st: Store, tenant: string) returns (out: map<string, seq<string>>)
    ensures Grouped(out, ReasonRows(st.reasons, tenant))
    ensures Total(out) == |ReasonRows(st.reasons, tenant)|
  {
    out := GroupByContract(ReasonRows(st.reasons, tenant));
  }

  method LoadObligations(st: Store, tenant: string) returns (out: map<string, seq<BundleObligation>>)
    ensures Grouped(out, ObligationRows(st.obligations, tenant))
    ensures Total(out) == |ObligationRows(st.obligations, tenant)|
  {
    out := GroupByContract(ObligationRows(st.obligations, tenant));
  }

  /** A contract row joined with the groups found under its printed key. */
  function Joined(r: Row<Stored<ContractBody>>, reasons: map<string, seq<string>>,
      obligations: map<string, seq<BundleObligation>>): BundleContract {
    var id, body := Column(r.key, 1), r.val.body;
    var k := ContractKey(id, r.version);
    BundleContract(id, body.domain, body.typ, body.status, if body.action.Some? then body.action.value else "",
      r.val.pin.model, r.val.pin.version, Omit(Decode(body.blob)), Group(reasons, k), Group(obligations, k))
  }

  /** The join through the printed key finds exactly the rows of this contract version. */
  lemma JoinIsExact(r: Row<Stored<ContractBody>>, db: Db, t: string,
                    reasons: map<string, seq<string>>, obligations: map<string, seq<BundleObligation>>)
    requires Grouped(reasons, ReasonRows(db.reasons, t)) && Grouped(obligations, ObligationRows(db.obligations, t))
    ensures Joined(r, reasons, obligations) == ToContract(db.reasons, db.obligations, t)(r)
  {
    assert Group(reasons, ContractKey(Column(r.key, 1), r.version)) ==
      ItemsOf(ReasonRows(db.reasons, t), Column(r.key, 1), r.version);
    assert Group(obligations, ContractKey(Column(r.key, 1), r.version)) ==
      ItemsOf(ObligationRows(db.obligations, t), Column(r.key, 1), r.version);
  }

  lemma JoinStep(rows: seq<Row<Stored<ContractBody>>>, i: nat, db: Db, t: string,
                 reasons: map<string, seq<string>>, obligations: map<string, seq<BundleObligation>>)
    requires Grouped(reasons, ReasonRows(db.reasons, t)) && Grouped(obligations, ObligationRows(db.obligations, t))
      && i < |rows|
    ensures var f := ToContract(db.reasons, db.obligations, t);
      Map(rows[..i + 1], f) == Map(rows[..i], f) + [Joined(rows[i], reasons, obligations)]
  {
    JoinIsExact(rows[i], db, t, reasons, obligations);
    MapNext(rows, i, ToContract(db.reasons, db.obligations, t));
  }

  method ExportContracts(st: Store, tenant: string, pin: Pin) returns (cs: seq<BundleContract>)
    ensures cs == Map(Query(st.contracts, AtPin(tenant, pin)), ToContract(st.reasons, st.obligations, tenant))
  {
    var reasons := LoadReasons(st, tenant);
    var obligations := LoadObligations(st, tenant);
    var rows := Query(st.contracts, AtPin(tenant, pin));
    ghost var toContract := ToContract(st.reasons, st.obligations, tenant);
    cs := [];
    for i := 0 to |rows|
      invariant cs == Map(rows[..i], toContract)
    {
      JoinStep(rows, i, st.View(), tenant, reasons, obligations);
      cs := cs + [Joined(rows[i], reasons, obligations)];
    }
    assert rows[..|rows|] == rows;
  }

  method ExportNames(log: Log<()>, tenant: string) returns (names: seq<BundleName>)
    ensures names == Map(Query(log, OfTenant(tenant)), ToName)
  {
    var rows := Query(log, OfTenant(tenant));
    names := [];
    for i := 0 to |rows|
      invariant names == Map(rows[..i], ToName)
    {
      MapNext(rows, i, ToName);
      names := names + [ToName(rows[i])];
    }
    assert rows[..|rows|] == rows;
  }

  method ExportGraph(st: Store, tenant: string, pin: Pin) returns (ns: seq<BundleNode>, es: seq<BundleEdge>)
    ensures ns == Map(Query(st.nodes, AtPin(tenant, pin)), ToNode)
    ensures es == Map(Query(st.edges, AtPin(tenant, pin)), ToEdge)
  {
    var nRows, eRows := Query(st.nodes, AtPin(tenant, pin)), Query(st.edges, AtPin(tenant, pin));
    ns, es := [], [];
    for i := 0 to |nRows|
      invariant ns == Map(nRows[..i], ToNode)
    {
      MapNext(nRows, i, ToNode);
      ns := ns + [ToNode(nRows[i])];
    }
    for i := 0 to |eRows|
      invariant es == Map(eRows[..i], ToEdge)
    {
      MapNext(eRows, i, ToEdge);
      es := es + [ToEdge(eRows[i])];
    }
    assert nRows[..|nRows|] == nRows && eRows[..|eRows|] == eRows;
  }

  method ExportProperties(st: Store, tenant: string, pin: Pin) returns (ps: seq<BundleProperty>)
    ensures ps == Map(Query(st.props, AtPin(tenant, pin)), ToProperty)
  {
    var rows := Query(st.props, AtPin(tenant, pin));
    ps := [];
    for i := 0 to |rows|
      invariant ps == Map(rows[..i], ToProperty)
    {
      MapNext(rows, i, ToProperty);
      ps := ps + [ToProperty(rows[i])];
    }
    assert rows[..|rows|] == rows;
  }

  method ExportLatestEnabled(st: Store, name: string, withContracts: bool) returns (r: Result<Bundle>)
    ensures r == ExportOf(st.View(), name, withContracts)
  {
    if name == "" { return Err(TenantNameMissing); }
    if name !in st.tenants { return Err(NotFound); }
    var tenant := st.tenants[name];
    var mv := st.GetLatestEnabled(tenant);
    if mv.Err? { return Err(mv.error); }
    var pin := PinOf(mv.value);
    var types := ExportNames(st.types, tenant);
    var statuses := ExportNames(st.statuses, tenant);
    var ns, es := ExportGraph(st, tenant, pin);
    var ps := ExportProperties(st, tenant, pin);
    var cs := [];
    if withContracts {
      cs := ExportContracts(st, tenant, pin);
    }
    r := Ok(Bundle(name, BundleModel(pin.model, pin.version, mv.value.val.status, mv.value.val.changeNote),
      types, statuses, ns, es, ps, cs));
  }

  // --- import ---

  lemma PutItemsStep<B>(models: Log<ModelBody>, log: Log<Stored<B>>, items: seq<Item<Stored<B>>>, i: nat)
    requires i < |items|
    ensures var r := PutStored(models, log, items[i], None);
      && (r.Err? ==> PutItems(models, log, items[i..]) == Puts(log, Some(r.error)))
      && (r.Ok? ==> PutItems(models, log, items[i..]) == PutItems(models, log + [r.value], items[i + 1..]))
  {
    assert items[i..][1..] == items[i + 1..];
  }

  lemma RegisterAllNext(log: Log<()>, t: string, names: seq<BundleName>, i: nat)
    requires i < |names|
    ensures RegisterAll(log, t, names[..i + 1]) ==
      Register(RegisterAll(log, t, names[..i]), [t, names[i].domain, names[i].name])
  {
    assert names[..i + 1][..i] == names[..i];
    assert [t] + NameKey(names[i]) == [t, names[i].domain, names[i].name];
  }

  method ImportStatuses(st: Store, tenant: string, names: seq<BundleName>) returns (error: Option<Error>)
    requires ValidDb(st.View())
    modifies st
    ensures ValidDb(st.View())
    ensures tenant in old(st.tenants).Values ==>
      error.None? && st.View() == old(st.View()).(statuses := RegisterAll(old(st.statuses), tenant, names))
    ensures tenant !in old(st.tenants).Values ==>
      st.View() == old(st.View()) && error == if names == [] then None else Some(ForeignKey)
  {
    for i := 0 to |names|
      invariant ValidDb(st.View()) && (i > 0 ==> tenant in old(st.tenants).Values)
      invariant st.View() == old(st.View()).(statuses := RegisterAll(old(st.statuses), tenant, names[..i]))
    {
      RegisterAllNext(old(st.statuses), tenant, names, i);
      var r := st.CreateStatus(tenant, names[i].domain, names[i].name);
      if r.Err? { return Some(r.error); }
    }
    assert names[..|names|] == names;
    error := None;
  }

  method ImportTypes(st: Store, tenant: string, names: seq<BundleName>) returns (error: Option<Error>)
    requires ValidDb(st.View())
    modifies st
    ensures ValidDb(st.View())
    ensures tenant in old(st.tenants).Values ==>
      error.None? && st.View() == old(st.View()).(types := RegisterAll(old(st.types), tenant, names))
    ensures tenant !in old(st.tenants).Values ==>
      st.View() == old(st.View()) && error == if names == [] then None else Some(ForeignKey)
  {
    for i := 0 to |names|
      invariant ValidDb(st.View()) && (i > 0 ==> tenant in old(st.tenants).Values)
      invariant st.View() == old(st.View()).(types := RegisterAll(old(st.types), tenant, names[..i]))
    {
      RegisterAllNext(old(st.types), tenant, names, i);
      var r := st.CreateType(tenant, names[i].domain, names[i].name);
      if r.Err? { return Some(r.error); }
    }
    assert names[..|names|] == names;
    error := None;
  }

  method ImportNodes(st: Store, tenant: string, pin: Pin, ns: seq<BundleNode>, ids: nat -> FreshId)
      returns (error: Option<Error>)
    requires ValidDb(st.View())
    modifies st
    ensures ValidDb(st.View())
    ensures var p := PutItems(old(st.models), old(st.nodes), NodeItems(old(st.models), tenant, pin, ns, ids));
      st.View() == old(st.View()).(nodes := p.log) && error == p.error
  {
    ghost var models, items := st.models, NodeItems(st.models, tenant, pin, ns, ids);
    for i := 0 to |ns|
      invariant ValidDb(st.View()) && st.View() == old(st.View()).(nodes := st.nodes)
      invariant PutItems(models, st.nodes, items[i..]) == PutItems(models, old(st.nodes), items)
    {
      PutItemsStep(models, st.nodes, items, i);
      var r := st.PutNode(NodeRequest(tenant, pin, ns[i]), None, ids(i));
      if r.Err? { return Some(r.error); }
    }
    error := None;
  }

  method ImportEdges(st: Store, tenant: string, pin: Pin, es: seq<BundleEdge>) returns (error: Option<Error>)
    requires ValidDb(st.View())
    modifies st
    ensures ValidDb(st.View())
    ensures var p := PutItems(old(st.models), old(st.edges), EdgeItems(old(st.models), tenant, pin, es));
      st.View() == old(st.View()).(edges := p.log) && error == p.error
  {
    ghost var models, items := st.models, EdgeItems(st.models, tenant, pin, es);
    for i := 0 to |es|
      invariant ValidDb(st.View()) && st.View() == old(st.View()).(edges := st.edges)
      invariant PutItems(models, st.edges, items[i..]) == PutItems(models, old(st.edges), items)
    {
      PutItemsStep(models, st.edges, items, i);
      var r := st.PutEdge(EdgeRequest(tenant, pin, es[i]), None);
      if r.Err? { return Some(r.error); }
    }
    error := None;
  }

  method ImportProperties(st: Store, tenant: string, pin: Pin, ps: seq<BundleProperty>) returns (error: Option<Error>)
    requires ValidDb(st.View())
    modifies st
    ensures ValidDb(st.View())
    ensures var p := PutItems(old(st.models), old(st.props), PropertyItems(old(st.models), tenant, pin, ps));
      st.View() == old(st.View()).(props := p.log) && error == p.error
  {
    ghost var models, items := st.models, PropertyItems(st.models, tenant, pin, ps);
    for i := 0 to |ps|
      invariant ValidDb(st.View()) && st.View() == old(st.View()).(props := st.props)
      invariant PutItems(models, st.props, items[i..]) == PutItems(models, old(st.props), items)
    {
      PutItemsStep(models, st.props, items, i);
      var r := st.PutProperty(PropertyRequest(tenant, pin, ps[i]), None);
      if r.Err? { return Some(r.error); }
    }
    error := None;
  }

  method ImportContracts(st: Store, tenant: string, pin: Pin, cs: seq<BundleContract>, ids: nat -> FreshId)
      returns (error: Option<Error>)
    requires ValidDb(st.View())
    modifies st
    ensures ValidDb(st.View())
    ensures var p := PutItems(old(st.models), old(st.contracts), ContractItems(old(st.models), tenant, pin, cs, ids));
      st.View() == old(st.View()).(contracts := p.log) && error == p.error
  {
    ghost var models, items := st.models, ContractItems(st.models, tenant, pin, cs, ids);
    for i := 0 to |cs|
      invariant ValidDb(st.View()) && st.View() == old(st.View()).(contracts := st.contracts)
      invariant PutItems(models, st.contracts, items[i..]) == PutItems(models, old(st.contracts), items)
    {
      PutItemsStep(models, st.contracts, items, i);
      var r := st.PutContract(ContractRequest(tenant, pin, cs[i]), None, ids(i));
      if r.Err? { return Some(r.error); }
    }
    error := None;
  }

  method ImportTables(st: Store, tenant: string, pin: Pin, b: Bundle, withContracts: bool, ids: Ids)
      returns (r: Result<Pin>)
    requires ValidDb(st.View())
    modifies st
    ensures ValidDb(st.View())
    ensures Imported(st.View(), r) == ImportRows(old(st.View()), tenant, pin, b, withContracts, ids)
  {
    var error := ImportNodes(st, tenant, pin, b.nodes, ids.node);
    if error.Some? { return Err(error.value); }
    error := ImportEdges(st, tenant, pin, b.edges);
    if error.Some? { return Err(error.value); }
    error := ImportProperties(st, tenant, pin, b.properties);
    if error.Some? { return Err(error.value); }
    if withContracts {
      error := ImportContracts(st, tenant, pin, b.contracts, ids.contract);
      if error.Some? { return Err(error.value); }
    }
    r := Ok(pin);
  }

  /** The import into a tenant that was found or created. */
  method ImportInto(st: Store, tenant: string, b: Bundle, opts: Options, ids: Ids) returns (r: Result<Pin>)
    requires ValidDb(st.View()) && tenant in st.tenants.Values
    modifies st
    ensures ValidDb(st.View())
    ensures Imported(st.View(), r) == ImportFor(old(st.View()), tenant, b, opts, ids)
  {
    var failure := ImportStatuses(st, tenant, b.statuses);
    assert failure.None?;   // the tenant exists, so no name can be refused
    failure := ImportTypes(st, tenant, b.types);
    assert failure.None?;
    var status := "draft";
    if b.model.status != "" { status := b.model.status; }
    if opts.enableImported { status := "enabled"; }
    var changeNote := opts.changeNote;
    if changeNote == "" { changeNote := b.model.changeNote; }
    var mv := st.CreateModelVersion(ModelVersion(tenant, b.model.modelId, status, changeNote), ids.model);
    if mv.Err? { return Err(mv.error); }
    r := ImportTables(st, tenant, PinOf(mv.value), b, opts.withContracts, ids);
  }

  /** The import does exactly what ImportOf says, also when it stops half-way. */
  method ImportBundle(st: Store, b: Bundle, opts: Options, ids: Ids) returns (r: Result<Pin>)
    requires ValidDb(st.View())
    modifies st
    ensures ValidDb(st.View())
    ensures Imported(st.View(), r) == ImportOf(old(st.View()), b, opts, ids)
  {
    var name := opts.tenantName;
    if name == "" { name := b.tenant; }
    if name == "" { return Err(TenantNameMissing); }
    var t := st.EnsureTenant(name, ids.tenant);
    if t.Err? { return Err(t.error); }
    r := ImportInto(st, t.value, b, opts, ids);
  }
}
