/** The repositories over one database, as methods that run their statements in one go. */
module SqlStore {
  import opened Basics
  import opened Ordering
  import opened VersionedLog
  import opened Schema

  /** LIMIT: page sizes outside 1..max fall back to a default. */
  function Clamp(limit: int, def: nat, max: nat): nat {
    if limit <= 0 || limit > max then def else limit
  }

  function FirstN<T>(s: seq<T>, n: nat): seq<T> { if |s| <= n then s else s[..n] }

  /** WHERE tenant_id = t AND from_id = f AND domain = d AND type = ty, on edge keys. */
  function OutOf<B>(t: string, f: string, d: string, ty: string): Row<Stored<B>> -> bool {
    (r: Row<Stored<B>>) => |r.key| == 5 && r.key[0] == t && r.key[1] == f && r.key[3] == d && r.key[4] == ty
  }

  /** WHERE tenant_id = t AND domain = d AND type = ty, on contracts. */
  function OfType(t: string, d: string, ty: string): Row<Stored<ContractBody>> -> bool {
    (r: Row<Stored<ContractBody>>) => Tenant(r.key) == t && r.val.body.domain == d && r.val.body.typ == ty
  }

  function Found<V>(r: Option<Row<V>>): Result<Row<V>> {
    match r
    case None => Err(NotFound)
    case Some(x) => Ok(x)
  }

  /** r is the latest row of an edge of this tenant from this node with this domain and type. */
  ghost predicate EdgeRow(log: Log<Stored<EdgeBody>>, t: string, from: string, d: string, ty: string,
      r: Row<Stored<EdgeBody>>) {
    && Latest(log, r.key) == Some(r)
    && exists to {:trigger EdgeKeyOf(t, from, to, d, ty)} :: r.key == EdgeKeyOf(t, from, to, d, ty)
  }

  function EdgeKeyOf(t: string, from: string, to: string, d: string, ty: string): Key { [t, from, to, d, ty] }

  /** A page of exactly these rows, sorted by key; what is left out comes after a full page. */
  ghost predicate EdgePage(log: Log<Stored<EdgeBody>>, t: string, from: string, d: string, ty: string, n: nat,
                           out: seq<Row<Stored<EdgeBody>>>)
  {
    && |out| <= n && Sorted(out, RowKey)
    && (forall r :: r in out ==> EdgeRow(log, t, from, d, ty, r))
    && (forall r {:trigger EdgeRow(log, t, from, d, ty, r)} :: EdgeRow(log, t, from, d, ty, r) ==>
          r in out || (|out| == n && forall x :: x in out ==> KeyLess(x.key, r.key)))
  }

  /** A stored row of the tenant with this domain and type. */
  ghost predicate HasType(log: Log<Stored<ContractBody>>, t: string, d: string, ty: string,
      r: Row<Stored<ContractBody>>) {
    r in log && Tenant(r.key) == t && r.val.body.domain == d && r.val.body.typ == ty
  }

  /** r is the newest such row of its contract; it is the latest row of the contract iff that is such a row. */
  ghost predicate NewestOfType(log: Log<Stored<ContractBody>>, t: string, d: string, ty: string,
      r: Row<Stored<ContractBody>>) {
    && HasType(log, t, d, ty, r) && (forall s :: HasType(log, t, d, ty, s) && s.key == r.key ==> s.version <= r.version)
    && Latest(log, r.key).Some? && r.version <= Latest(log, r.key).value.version
    && (r == Latest(log, r.key).value <==> HasType(log, t, d, ty, Latest(log, r.key).value))
  }

  /** A page with the newest such row of every contract that ever had one, sorted by id; what is left out
      comes after a full page. */
  ghost predicate ContractPage(log: Log<Stored<ContractBody>>, t: string, d: string, ty: string, n: nat,
                               out: seq<Row<Stored<ContractBody>>>)
  {
    && |out| <= n && Sorted(out, RowKey)
    && (forall r :: r in out ==> NewestOfType(log, t, d, ty, r))
    && (forall r {:trigger HasType(log, t, d, ty, r)} :: HasType(log, t, d, ty, r) ==>
          HasKey(out, r.key, RowKey) || (|out| == n && forall x :: x in out ==> KeyLess(x.key, r.key)))
  }

  class Store {
    var tenants: map<string, string>
    var types: Log<()>
    var statuses: Log<()>
    var models: Log<ModelBody>
    var nodes: Log<Stored<NodeBody>>
    var edges: Log<Stored<EdgeBody>>
    var props: Log<Stored<PropertyBody>>
    var contracts: Log<Stored<ContractBody>>
    var reasons: seq<ReasonRow>
    var obligations: seq<ObligationRow>

    ghost function View(): Db
      reads this
    {
      Db(tenants, types, statuses, models, nodes, edges, props, contracts, reasons, obligations)
    }

    constructor ()
      ensures View() == Db(map[], [], [], [], [], [], [], [], [], [])
      ensures ValidDb(View())
    {
      tenants := map[];
      types, statuses, models, nodes, edges, props, contracts := [], [], [], [], [], [], [];
      reasons, obligations := [], [];
      new;
      forall part ensures PartOk(View(), part) {}
    }

    // --- tenants, types and statuses ---

    /** The tenant with this name, created under a generated id when there is none. */
    method EnsureTenant(name: string, newId: FreshId) returns (r: Result<string>)
      requires ValidDb(View())
      modifies this
      ensures ValidDb(View())
      ensures View() == old(View()).(tenants := tenants)
      ensures r.Ok? ==> r.value in tenants.Values
      ensures name in old(tenants) ==> tenants == old(tenants) && r == Ok(old(tenants)[name])
      ensures name !in old(tenants) && newId in old(tenants).Values ==>
        tenants == old(tenants) && r == Err(DuplicateKey)
      ensures name !in old(tenants) && newId !in old(tenants).Values ==>
        tenants == old(tenants)[name := newId] && r == Ok(newId)
    {
      if name in tenants {
        return Ok(tenants[name]);
      }
      if newId in tenants.Values {
        return Err(DuplicateKey);
      }
      TenantKeepsValid(View(), name, newId);
      tenants := tenants[name := newId];
      assert tenants[name] == newId;
      r := Ok(newId);
    }

    method CreateType(tenant: string, domain: string, name: string) returns (r: Result<()>)
      requires ValidDb(View())
      modifies this
      ensures ValidDb(View())
      ensures r == if tenant in old(tenants).Values then Ok(()) else Err(ForeignKey)
      ensures View() == if r.Ok? then old(View()).(types := Register(old(types), [tenant, domain, name]))
        else old(View())
    {
      if tenant !in tenants.Values { return Err(ForeignKey); }
      assert PartOk(View(), RegistryPart);
      RegisterKeepsNames(types, [tenant, domain, name]);
      NamesKeepValid(View(), Register(types, [tenant, domain, name]), statuses);
      types := Register(types, [tenant, domain, name]);
      r := Ok(());
    }

    method CreateStatus(tenant: string, domain: string, name: string) returns (r: Result<()>)
      requires ValidDb(View())
      modifies this
      ensures ValidDb(View())
      ensures r == if tenant in old(tenants).Values then Ok(()) else Err(ForeignKey)
      ensures View() == if r.Ok? then old(View()).(statuses := Register(old(statuses), [tenant, domain, name]))
        else old(View())
    {
      if tenant !in tenants.Values { return Err(ForeignKey); }
      assert PartOk(View(), RegistryPart);
      RegisterKeepsNames(statuses, [tenant, domain, name]);
      NamesKeepValid(View(), types, Register(statuses, [tenant, domain, name]));
      statuses := Register(statuses, [tenant, domain, name]);
      r := Ok(());
    }

    // --- model versions ---

    method CreateModelVersion(m: ModelVersion, gen: FreshId) returns (r: Result<Row<ModelBody>>)
      requires ValidDb(View())
      modifies this
      ensures ValidDb(View())
      ensures r == PutModelResult(old(View()), m, gen)
      ensures View() == old(View()).(models := Extended(old(models), r))
    {
      PutModelKeepsValid(View(), m, gen);
      if m.tenant == "" {
        return Err(TenantRequired);
      }
      var status := m.status;
      if status == "" {
        status := "draft";
      }
      var body := ModelBody(status, m.changeNote);
      var row;
      if m.model == "" {
        row := Row([m.tenant, gen], 1, body);
      } else {
        row := Row([m.tenant, m.model], MaxVersion(models, [m.tenant, m.model]) + 1, body);
      }
      if HasVersion(models, row.key, row.version) {
        return Err(DuplicateKey);
      }
      if m.tenant !in tenants.Values {
        return Err(ForeignKey);
      }
      models := models + [row];
      r := Ok(row);
    }

    method GetModelVersion(tenant: string, model: string, version: int) returns (r: Result<Row<ModelBody>>)
      requires ValidDb(View())
      ensures r == Found(VersionRow(models, [tenant, model], version))
      ensures r.Ok? <==> 1 <= version <= MaxVersion(models, [tenant, model])
      ensures r.Ok? ==> r.value in models && r.value.key == [tenant, model] && r.value.version == version
    {
      Parts(View());
      VersionRowMember(models, [tenant, model], version);
      if version >= 0 { VersionsExact(models, [tenant, model], version); }
      var found := VersionRow(models, [tenant, model], version);
      if found.None? { return Err(NotFound); }
      r := Ok(found.value);
    }

    method GetLatestEnabled(tenant: string) returns (r: Result<Row<ModelBody>>)
      ensures r == Found(LatestEnabled(models, tenant))
    {
      var found := LatestEnabled(models, tenant);
      if found.None? { return Err(NotFound); }
      r := Ok(found.value);
    }

    /** The model-version handler: fetch, overwrite the status, create again. */
    method SetModelStatus(tenant: string, model: string, version: int, status: string, gen: FreshId)
        returns (r: Result<Row<ModelBody>>)
      requires ValidDb(View())
      modifies this
      ensures ValidDb(View())
      ensures VersionRow(old(models), [tenant, model], version).None? ==> r == Err(NotFound)
      ensures VersionRow(old(models), [tenant, model], version).Some? ==>
        r == Ok(NextRow(old(models), [tenant, model],
          ModelBody(FirstNonEmpty(status, "draft"),
            VersionRow(old(models), [tenant, model], version).value.val.changeNote)))
      ensures View() == old(View()).(models := Extended(old(models), r))
    {
      var mv := GetModelVersion(tenant, model, version);
      if mv.Err? {
        return Err(mv.error);
      }
      Parts(View());
      VersionRowMember(models, [tenant, model], version);
      assert mv.value in models && ModelOk(mv.value.key, mv.value.val) && mv.value.key == [tenant, model];
      assert mv.value.key[0] in mv.value.key && mv.value.key[1] in mv.value.key;
      InsertGuard(models,
        NextRow(models, [tenant, model], ModelBody(FirstNonEmpty(status, "draft"), mv.value.val.changeNote)));
      r := CreateModelVersion(ModelVersion(tenant, model, status, mv.value.val.changeNote), gen);
    }

    // --- graph ---

    method GetNode(tenant: string, id: string) returns (r: Result<Row<Stored<NodeBody>>>)
      requires ValidDb(View())
      ensures r.Ok? <==> [tenant, id] in WriteMap(nodes)
      ensures r.Ok? ==>
        r.value.val == WriteMap(nodes)[[tenant, id]] && r.value.version == MaxVersion(nodes, [tenant, id])
      ensures r.Err? ==> r.error == NotFound
    {
      Parts(View());
      LatestRefinesMap(nodes, [tenant, id]);
      var found := Latest(nodes, [tenant, id]);
      if found.None? { return Err(NotFound); }
      r := Ok(found.value);
    }

    method PutNode(n: Node, expected: Option<int>, gen: FreshId) returns (r: Result<Row<Stored<NodeBody>>>)
      requires ValidDb(View())
      modifies this
      ensures ValidDb(View())
      ensures r == PutStored(old(models), old(nodes), PrepareNode(old(models), n, gen), expected)
      ensures View() == old(View()).(nodes := Extended(old(nodes), r))
    {
      PutNodeKeepsValid(View(), n, expected, gen);
      if n.tenant == "" { return Err(TenantRequired); }
      var domain := n.domain;
      if domain == "" { domain := "node"; }
      if n.typ == "" { return Err(TypeRequired); }
      var blob := OrEmptyObject(n.blob);
      var pin := Pin(n.model, n.modelVersion);
      if n.model == "" || n.modelVersion == 0 {
        var mv := GetLatestEnabled(n.tenant);
        if mv.Err? { return Err(NoEnabledModel); }
        pin := PinOf(mv.value);
      }
      var val := Stored(pin, NodeBody(domain, n.typ, blob));
      var key := [n.tenant, n.id];
      var version := 1;
      if n.id == "" {
        key := [n.tenant, gen];
      } else {
        if expected.Some? && MaxVersion(nodes, key) != expected.value { return Err(Conflict); }
        version := MaxVersion(nodes, key) + 1;
      }
      if HasVersion(nodes, key, version) { return Err(DuplicateKey); }
      if !PinExists(models, n.tenant, pin) { return Err(ForeignKey); }
      nodes := nodes + [Row(key, version, val)];
      r := Ok(Row(key, version, val));
    }

    method PutEdge(e: Edge, expected: Option<int>) returns (r: Result<Row<Stored<EdgeBody>>>)
      requires ValidDb(View())
      modifies this
      ensures ValidDb(View())
      ensures r == PutStored(old(models), old(edges), PrepareEdge(old(models), e), expected)
      ensures View() == old(View()).(edges := Extended(old(edges), r))
    {
      PutEdgeKeepsValid(View(), e, expected);
      if e.tenant == "" { return Err(TenantRequired); }
      var domain := e.domain;
      if domain == "" { domain := "edge"; }
      if e.typ == "" { return Err(TypeRequired); }
      if e.from == "" || e.to == "" { return Err(EndsRequired); }
      var blob := OrEmptyObject(e.blob);
      var pin := Pin(e.model, e.modelVersion);
      if e.model == "" || e.modelVersion == 0 {
        var mv := GetLatestEnabled(e.tenant);
        if mv.Err? { return Err(NoEnabledModel); }
        pin := PinOf(mv.value);
      }
      var key := [e.tenant, e.from, e.to, domain, e.typ];
      if expected.Some? && MaxVersion(edges, key) != expected.value { return Err(Conflict); }
      var row := Row(key, MaxVersion(edges, key) + 1, Stored(pin, blob));
      if HasVersion(edges, row.key, row.version) { return Err(DuplicateKey); }
      if !PinExists(models, e.tenant, pin) { return Err(ForeignKey); }
      edges := edges + [row];
      r := Ok(row);
    }

    /** At most limit rows, 100 when the limit is not in 1..500, of the latest rows of the edges from one node
        with one domain and type, sorted by key; what is left out comes after a full page. */
    method OutEdges(tenant: string, from: string, domain: string, typ: string, limit: int)
      returns (out: seq<Row<Stored<EdgeBody>>>)
      requires ValidDb(View())
      ensures EdgePage(edges, tenant, from, if domain == "" then "edge" else domain, typ,
        if 1 <= limit <= 500 then limit else 100, out)
    {
      var n := limit;
      if n <= 0 || n > 500 { n := 100; }
      var d := domain;
      if d == "" { d := "edge"; }
      var f := OutOf(tenant, from, d, typ);
      var rows := FirstN(Query(edges, f), n);
      out := [];
      for i := 0 to |rows|
        invariant out == rows[..i]
      {
        out := out + [rows[i]];
      }
      assert out == rows;
      Parts(View());
      OutEdgesMeaning(edges, tenant, from, d, typ, n);
    }

    // --- properties ---

    method GetProperty(tenant: string, ownerType: string, ownerId: string, key: string)
        returns (r: Result<Row<Stored<PropertyBody>>>)
      requires ValidDb(View())
      ensures var k := [tenant, ownerType, ownerId, key];
        && (r.Ok? <==> k in WriteMap(props))
        && (r.Ok? ==> r.value.val == WriteMap(props)[k] && r.value.version == MaxVersion(props, k))
        && (r.Err? ==> r.error == NotFound)
    {
      Parts(View());
      LatestRefinesMap(props, [tenant, ownerType, ownerId, key]);
      var found := Latest(props, [tenant, ownerType, ownerId, key]);
      if found.None? { return Err(NotFound); }
      r := Ok(found.value);
    }

    method PutProperty(p: Property, expected: Option<int>) returns (r: Result<Row<Stored<PropertyBody>>>)
      requires ValidDb(View())
      modifies this
      ensures ValidDb(View())
      ensures r == PutStored(old(models), old(props), PrepareProperty(old(models), p), expected)
      ensures View() == old(View()).(props := Extended(old(props), r))
    {
      PutPropertyKeepsValid(View(), p, expected);
      if p.tenant == "" || p.ownerType == "" || p.ownerId == "" || p.key == "" { return Err(FieldsRequired); }
      var value := OrEmptyObject(p.value);
      var pin := Pin(p.model, p.modelVersion);
      if p.model == "" || p.modelVersion == 0 {
        var mv := GetLatestEnabled(p.tenant);
        if mv.Err? { return Err(NoEnabledModel); }
        pin := PinOf(mv.value);
      }
      var key := [p.tenant, p.ownerType, p.ownerId, p.key];
      if expected.Some? && MaxVersion(props, key) != expected.value { return Err(Conflict); }
      var row := Row(key, MaxVersion(props, key) + 1, Stored(pin, value));
      if HasVersion(props, row.key, row.version) { return Err(DuplicateKey); }
      if !PinExists(models, p.tenant, pin) { return Err(ForeignKey); }
      props := props + [row];
      r := Ok(row);
    }

    // --- contracts ---

    method GetContract(tenant: string, id: string) returns (r: Result<Row<Stored<ContractBody>>>)
      requires ValidDb(View())
      ensures r == Found(Latest(contracts, [tenant, id]))
      ensures r.Ok? <==> [tenant, id] in WriteMap(contracts)
      ensures r.Ok? ==> r.value.val == WriteMap(contracts)[[tenant, id]]
    {
      Parts(View());
      LatestRefinesMap(contracts, [tenant, id]);
      var found := Latest(contracts, [tenant, id]);
      if found.None? { return Err(NotFound); }
      r := Ok(found.value);
    }

    method GetContractVersion(tenant: string, id: string, version: int) returns (r: Result<Row<Stored<ContractBody>>>)
      requires ValidDb(View())
      ensures r.Ok? <==> 1 <= version <= MaxVersion(contracts, [tenant, id])
      ensures r.Ok? ==> r.value in contracts && r.value.key == [tenant, id] && r.value.version == version
      ensures r.Err? ==> r.error == NotFound
    {
      Parts(View());
      VersionRowMember(contracts, [tenant, id], version);
      if version >= 0 { VersionsExact(contracts, [tenant, id], version); }
      var found := VersionRow(contracts, [tenant, id], version);
      if found.None? { return Err(NotFound); }
      r := Ok(found.value);
    }

    method PutContract(c: ContractRecord, expected: Option<int>, gen: FreshId)
        returns (r: Result<Row<Stored<ContractBody>>>)
      requires ValidDb(View())
      modifies this
      ensures ValidDb(View())
      ensures r == PutStored(old(models), old(contracts), PrepareContract(old(models), c, gen), expected)
      ensures View() == old(View()).(contracts := Extended(old(contracts), r))
    {
      PutContractKeepsValid(View(), c, expected, gen);
      if c.tenant == "" { return Err(TenantRequired); }
      var domain := c.domain;
      if domain == "" { domain := "contract"; }
      if c.typ == "" { return Err(TypeRequired); }
      if c.status == "" { return Err(StatusRequired); }
      var blob := OrEmptyObject(c.blob);
      var pin := Pin(c.model, c.modelVersion);
      if c.model == "" || c.modelVersion == 0 {
        var mv := GetLatestEnabled(c.tenant);
        if mv.Err? { return Err(NoEnabledModel); }
        pin := PinOf(mv.value);
      }
      var val := Stored(pin, ContractBody(domain, c.typ, c.status, Nullable(c.action), blob));
      var key := [c.tenant, c.id];
      var version := 1;
      if c.id == "" {
        key := [c.tenant, gen];
      } else {
        if expected.Some? && MaxVersion(contracts, key) != expected.value { return Err(Conflict); }
        version := MaxVersion(contracts, key) + 1;
      }
      if HasVersion(contracts, key, version) { return Err(DuplicateKey); }
      if !PinExists(models, c.tenant, pin) { return Err(ForeignKey); }
      contracts := contracts + [Row(key, version, val)];
      r := Ok(Row(key, version, val));
    }

    /** At most limit rows, 50 when the limit is not in 1..200: for every contract that ever had the domain
        and type the newest row that had them, sorted by id; what is left out comes after a full page. */
    method ListByType(tenant: string, domain: string, typ: string, limit: int)
      returns (out: seq<Row<Stored<ContractBody>>>)
      requires ValidDb(View())
      ensures ContractPage(contracts, tenant, if domain == "" then "contract" else domain, typ,
        if 1 <= limit <= 200 then limit else 50, out)
    {
      var n := limit;
      if n <= 0 || n > 200 { n := 50; }
      var d := domain;
      if d == "" { d := "contract"; }
      var f := OfType(tenant, d, typ);
      var rows := FirstN(Query(contracts, f), n);
      out := [];
      for i := 0 to |rows|
        invariant out == rows[..i]
      {
        out := out + [rows[i]];
      }
      assert out == rows;
      Parts(View());
      ListByTypeMeaning(contracts, tenant, d, typ, n);
    }

    /** The contract handler: read the latest record, change its status, put it back. */
    method SetContractStatus(tenant: string, id: string, status: string, expected: Option<int>, gen: FreshId)
      returns (r: Result<Row<Stored<ContractBody>>>)
      requires ValidDb(View())
      modifies this
      ensures ValidDb(View())
      ensures View() == old(View()).(contracts := Extended(old(contracts), r))
      ensures Latest(old(contracts), [tenant, id]).None? ==> r == Err(NotFound)
      ensures Latest(old(contracts), [tenant, id]).Some? ==>
        r == PutStored(old(models), old(contracts),
               PrepareContract(old(models), RecordOf(Latest(old(contracts), [tenant, id]).value).(status := status),
                 gen), expected)
    {
      var rec := GetContract(tenant, id);
      if rec.Err? {
        return Err(rec.error);
      }
      r := PutContract(RecordOf(rec.value).(status := status), expected, gen);
    }
  }

  /** OutEdges filters on key columns only, so its page shows latest rows. */
  lemma OutEdgesMeaning(log: Log<Stored<EdgeBody>>, t: string, from: string, d: string, ty: string, n: nat)
    requires Dense(log)
    ensures EdgePage(log, t, from, d, ty, n, FirstN(Query(log, OutOf(t, from, d, ty)), n))
  {
    var f := OutOf<EdgeBody>(t, from, d, ty);
    var all := Query(log, f);
    QueryMeaning(log, f);
    forall r ensures r in all <==> EdgeRow(log, t, from, d, ty, r) {
      KeyFilterCommutes(log, f, r);
      OutOfIff(t, from, d, ty, r);
    }
    forall r ensures r in FirstN(all, n) ==> r in all
      ensures r in all ==>
        r in FirstN(all, n) || (|FirstN(all, n)| == n && forall x :: x in FirstN(all, n) ==> KeyLess(x.key, r.key))
    {
      FirstNSplits(all, n, r);
    }
    if all != [] { FirstNSplits(all, n, all[0]); }
  }

  lemma OutOfIff(t: string, from: string, d: string, ty: string, r: Row<Stored<EdgeBody>>)
    ensures OutOf<EdgeBody>(t, from, d, ty)(r) <==>
      exists to {:trigger EdgeKeyOf(t, from, to, d, ty)} :: r.key == EdgeKeyOf(t, from, to, d, ty)
  {
    if OutOf<EdgeBody>(t, from, d, ty)(r) {
      assert r.key == EdgeKeyOf(t, from, r.key[2], d, ty);
    }
  }

  /** ListByType filters on row contents, so its page shows the newest row that ever had the domain and
      type, which may be older than the latest row. */
  lemma ListByTypeMeaning(log: Log<Stored<ContractBody>>, t: string, d: string, ty: string, n: nat)
    requires Dense(log)
    ensures ContractPage(log, t, d, ty, n, FirstN(Query(log, OfType(t, d, ty)), n))
  {
    var f := OfType(t, d, ty);
    var all := Query(log, f);
    var out := FirstN(all, n);
    QueryMeaning(log, f);
    forall r | r in out ensures NewestOfType(log, t, d, ty, r) {
      FirstNSplits(all, n, r);
      FilteredLatest(log, f, r);
      LatestRefinesMap(log, r.key);
    }
    forall r | HasType(log, t, d, ty, r)
      ensures HasKey(out, r.key, RowKey) || (|out| == n && forall x :: x in out ==> KeyLess(x.key, r.key))
    {
      assert f(r) && HasKey(all, r.key, RowKey);
      var x :| x in all && RowKey(x) == r.key;
      FirstNSplits(all, n, x);
    }
    if all != [] { FirstNSplits(all, n, all[0]); }
  }

  lemma FirstNSplits<V>(all: seq<Row<V>>, n: nat, r: Row<V>)
    requires Sorted(all, RowKey)
    ensures Sorted(FirstN(all, n), RowKey) && |FirstN(all, n)| <= n
    ensures forall x :: x in FirstN(all, n) ==> x in all
    ensures r in all ==>
      r in FirstN(all, n) || (|FirstN(all, n)| == n && forall x :: x in FirstN(all, n) ==> KeyLess(x.key, r.key))
  {
    var out := FirstN(all, n);
    if j :| 0 <= j < |all| && all[j] == r {
      if j < |out| {
        assert out[j] == r;
      } else {
        forall x | x in out ensures KeyLess(x.key, r.key) {
          var i :| 0 <= i < |out| && out[i] == x;
          assert all[i] == x;
        }
      }
    }
  }
}
