/** What an import stores and an export shows, section by section. */
module BundleLaws {
  import opened Basics
  import opened Ordering
  import opened VersionedLog
  import opened Schema
  import opened ContractKeys
  import opened Bundles

  // --- the bundle as it comes back ---

  function FilledNode(n: BundleNode, id: string): BundleNode {
    BundleNode(FirstNonEmpty(n.id, id), FirstNonEmpty(n.domain, "node"), n.typ, Omit(n.blob))
  }

  function FilledNodes(ns: seq<BundleNode>, ids: nat -> FreshId): seq<BundleNode> {
    seq(|ns|, i requires 0 <= i < |ns| => FilledNode(ns[i], ids(i)))
  }

  function FilledEdge(e: BundleEdge): BundleEdge {
    BundleEdge(e.from, e.to, FirstNonEmpty(e.domain, "edge"), e.typ, Omit(e.blob))
  }

  /** Re-pinned, and without the reasons and obligations that import does not write. */
  function FilledContract(c: BundleContract, id: string, pin: Pin): BundleContract {
    BundleContract(FirstNonEmpty(c.id, id), FirstNonEmpty(c.domain, "contract"), c.typ, c.status, c.action,
      pin.model, pin.version, Omit(c.blob), [], [])
  }

  function FilledContracts(cs: seq<BundleContract>, ids: nat -> FreshId, pin: Pin): seq<BundleContract> {
    seq(|cs|, i requires 0 <= i < |cs| => FilledContract(cs[i], ids(i), pin))
  }

  // --- snapshots as bundle sections ---

  lemma TailOrder<V(!new), U>(ws: seq<Row<V>>, t: string, toU: Row<V> -> U, keyU: U -> Key)
    requires forall r :: r in ws ==> r.key == [t] + keyU(toU(r))
    ensures KeepsOrder(ws, toU, RowKey, keyU)
  {
    forall a, b | a in ws && b in ws ensures SameOrder(a, b, toU, RowKey, keyU) {
      assert a.key[1..] == keyU(toU(a)) && b.key[1..] == keyU(toU(b));
    }
  }

  /** Export refines last-write-wins: for any dense table, the exported section is the fold over the
      rows written under the pin, in commit order, whatever was written under other pins. */
  lemma ExportIsLastWins<B(!new), U>(log: Log<Stored<B>>, t: string, pin: Pin, toU: Row<Stored<B>> -> U, keyU: U -> Key)
    requires Dense(log)
    requires forall r :: r in log && AtPin(t, pin)(r) ==> r.key == [t] + keyU(toU(r))
    ensures Map(Query(log, AtPin(t, pin)), toU) == LastWins(Map(Filter(log, AtPin(t, pin)), toU), keyU)
  {
    var ws := Filter(log, AtPin(t, pin));
    QueryIsLastWins(log, AtPin(t, pin));
    forall r | r in ws ensures r.key == [t] + keyU(toU(r)) {
      FilterMember(log, AtPin(t, pin), r);
    }
    TailOrder(ws, t, toU, keyU);
    LastWinsMap(ws, toU, RowKey, keyU);
  }

  /** The tenant column and the section key make up the row key. */
  lemma RowKeys(t: string, k: Key)
    ensures KeyOk(k, 2) && Tenant(k) == t ==> k == [t] + [Column(k, 1)]
    ensures KeyOk(k, 4) && Tenant(k) == t ==> k == [t] + [Column(k, 1), Column(k, 2), Column(k, 3)]
    ensures KeyOk(k, 5) && Tenant(k) == t ==> k == [t] + [Column(k, 1), Column(k, 2), Column(k, 3), Column(k, 4)]
  {}

  lemma ExportedNodes(db: Db, t: string, pin: Pin)
    requires TableOk(db.models, db.nodes, NodeOk)
    ensures Map(Query(db.nodes, AtPin(t, pin)), ToNode) ==
      LastWins(Map(Filter(db.nodes, AtPin(t, pin)), ToNode), NodeKey)
  {
    forall r | r in db.nodes && AtPin<NodeBody>(t, pin)(r) ensures r.key == [t] + NodeKey(ToNode(r)) {
      assert NodeOk(r.key, r.val.body);
      RowKeys(t, r.key);
    }
    ExportIsLastWins(db.nodes, t, pin, ToNode, NodeKey);
  }

  lemma ExportedEdges(db: Db, t: string, pin: Pin)
    requires TableOk(db.models, db.edges, EdgeOk)
    ensures Map(Query(db.edges, AtPin(t, pin)), ToEdge) ==
      LastWins(Map(Filter(db.edges, AtPin(t, pin)), ToEdge), EdgeKey)
  {
    forall r | r in db.edges && AtPin<EdgeBody>(t, pin)(r) ensures r.key == [t] + EdgeKey(ToEdge(r)) {
      assert EdgeOk(r.key, r.val.body);
      RowKeys(t, r.key);
    }
    ExportIsLastWins(db.edges, t, pin, ToEdge, EdgeKey);
  }

  lemma ExportedProperties(db: Db, t: string, pin: Pin)
    requires TableOk(db.models, db.props, PropertyOk)
    ensures Map(Query(db.props, AtPin(t, pin)), ToProperty) ==
      LastWins(Map(Filter(db.props, AtPin(t, pin)), ToProperty), PropertyKey)
  {
    forall r | r in db.props && AtPin<PropertyBody>(t, pin)(r) ensures r.key == [t] + PropertyKey(ToProperty(r)) {
      assert PropertyOk(r.key, r.val.body);
      RowKeys(t, r.key);
    }
    ExportIsLastWins(db.props, t, pin, ToProperty, PropertyKey);
  }

  lemma ExportedContracts(db: Db, t: string, pin: Pin)
    requires TableOk(db.models, db.contracts, ContractOk)
    ensures Map(Query(db.contracts, AtPin(t, pin)), ToContract(db.reasons, db.obligations, t)) ==
      LastWins(Map(Filter(db.contracts, AtPin(t, pin)), ToContract(db.reasons, db.obligations, t)), BundleContractKey)
  {
    forall r | r in db.contracts && AtPin<ContractBody>(t, pin)(r)
      ensures r.key == [t] + BundleContractKey(ToContract(db.reasons, db.obligations, t)(r))
    {
      assert ContractOk(r.key, r.val.body);
      RowKeys(t, r.key);
    }
    ExportIsLastWins(db.contracts, t, pin, ToContract(db.reasons, db.obligations, t), BundleContractKey);
  }

  // --- putting items one by one ---

  lemma PutItemLanded<B>(models: Log<ModelBody>, log: Log<Stored<B>>, item: Item<Stored<B>>)
    ensures var r := PutStored(models, log, item, None);
      r.Ok? ==> !item.Reject? && r.value.key == item.key && r.value.val == item.val
  {}

  /** The rows a run of puts adds: those of the items before the first failure. */
  lemma {:induction false} PutItemsRows<B>(models: Log<ModelBody>, log: Log<Stored<B>>, items: seq<Item<Stored<B>>>)
    returns (more: Log<Stored<B>>)
    ensures PutItems(models, log, items).log == log + more
    ensures |more| <= |items| && (PutItems(models, log, items).error.None? <==> |more| == |items|)
    ensures forall i :: 0 <= i < |more| ==>
      !items[i].Reject? && more[i].key == items[i].key && more[i].val == items[i].val
    decreases |items|
  {
    more := [];
    assert log + [] == log;
    if items != [] {
      var r := PutStored(models, log, items[0], None);
      PutItemLanded(models, log, items[0]);
      if r.Ok? {
        var rest := PutItemsRows(models, log + [r.value], items[1..]);
        more := [r.value] + rest;
        assert log + more == log + [r.value] + rest;
        forall i | 0 <= i < |more|
          ensures !items[i].Reject? && more[i].key == items[i].key && more[i].val == items[i].val
        {
          if i > 0 {
            assert more[i] == rest[i - 1] && items[i] == items[1..][i - 1];
          }
        }
      }
    }
  }

  ghost predicate ItemsFit<B>(items: seq<Item<Stored<B>>>, ok: (Key, B) -> bool) {
    forall i :: 0 <= i < |items| && !items[i].Reject? ==> ok(items[i].key, items[i].val.body)
  }

  lemma {:induction false} PutItemsKeepTable<B>(models: Log<ModelBody>, log: Log<Stored<B>>,
      items: seq<Item<Stored<B>>>, ok: (Key, B) -> bool)
    requires TableOk(models, log, ok) && ItemsFit(items, ok)
    ensures TableOk(models, PutItems(models, log, items).log, ok)
    decreases |items|
  {
    if items != [] {
      var r := PutStored(models, log, items[0], None);
      PutStoredKeepsTable(models, log, items[0], None, ok);
      if r.Ok? {
        PutItemsKeepTable(models, log + [r.value], items[1..], ok);
      }
    }
  }

  /** A generated key is new to the table and to the items before it. */
  ghost predicate KeyFree<V>(log: Log<V>, items: seq<Item<V>>, i: nat)
    requires i < |items|
  {
    items[i].Generated? ==>
      MaxVersion(log, items[i].key) == 0 && forall j :: 0 <= j < i && !items[j].Reject? ==> items[j].key != items[i].key
  }

  /** Once the first item is put, the rest face a table that also holds its key. */
  lemma KeyFreeTail<V>(log: Log<V>, row: Row<V>, items: seq<Item<V>>, i: nat)
    requires i + 1 < |items| && !items[0].Reject? && row.key == items[0].key && row.version > 0
    ensures KeyFree(log + [row], items[1..], i) <==> KeyFree(log, items, i + 1)
  {
    var tail := items[1..];
    assert (log + [row])[..|log|] == log;
    assert forall j :: 0 <= j < |tail| ==> tail[j] == items[j + 1];
    assert forall j :: 1 <= j < |items| ==> items[j] == tail[j - 1];
  }

  /** What it takes for item i to be put, after all items before it were. */
  ghost predicate Goes<B>(models: Log<ModelBody>, log: Log<Stored<B>>, items: seq<Item<Stored<B>>>, i: nat)
    requires i < |items|
  {
    ItemPinExists(models, items[i]) && KeyFree(log, items, i)
  }

  lemma GoesTail<B>(models: Log<ModelBody>, log: Log<Stored<B>>, row: Row<Stored<B>>, items: seq<Item<Stored<B>>>)
    requires items != [] && !items[0].Reject? && row.key == items[0].key && row.version > 0
    ensures forall i {:trigger Goes(models, log, items, i)} :: 1 <= i < |items| ==>
      (Goes(models, log, items, i) <==> Goes(models, log + [row], items[1..], i - 1))
  {
    forall i | 1 <= i < |items|
      ensures Goes(models, log, items, i) <==> Goes(models, log + [row], items[1..], i - 1)
    {
      KeyFreeTail(log, row, items, i - 1);
    }
  }

  /** The puts stop exactly at the first item that is rejected, has no existing pin or a taken generated key. */
  lemma {:induction false} PutItemsStop<B>(models: Log<ModelBody>, log: Log<Stored<B>>, items: seq<Item<Stored<B>>>)
    returns (n: nat)
    requires Dense(log)
    ensures n <= |items| && |PutItems(models, log, items).log| == |log| + n
    ensures PutItems(models, log, items).error.None? <==> n == |items|
    ensures forall i :: 0 <= i < n ==> Goes(models, log, items, i)
    ensures n < |items| ==> !Goes(models, log, items, n)
    decreases |items|
  {
    n := 0;
    if items != [] {
      PutItemLands(log, items[0], None, ItemPinExists(models, items[0]));
      var r := PutStored(models, log, items[0], None);
      assert r.Ok? <==> Goes(models, log, items, 0);
      if r.Ok? {
        var m := PutItemsStop(models, log + [r.value], items[1..]);
        n := m + 1;
        GoesTail(models, log, r.value, items);
      }
    }
  }

  /** The puts all succeed iff no item is rejected, every pin exists and every generated key is free. */
  lemma PutItemsSucceeds<B>(models: Log<ModelBody>, log: Log<Stored<B>>, items: seq<Item<Stored<B>>>)
    requires Dense(log)
    ensures PutItems(models, log, items).error.None? <==> forall i :: 0 <= i < |items| ==> Goes(models, log, items, i)
  {
    var n := PutItemsStop(models, log, items);
  }

  /** The item puts us[i] into the section: right tenant, right pin, and read back as us[i]. */
  ghost predicate Carries<B, U(!new)>(log: Log<Stored<B>>, t: string, pin: Pin, item: Item<Stored<B>>, u: U,
                                      toU: Row<Stored<B>> -> U, keyU: U -> Key) {
    && !item.Reject? && item.key == [t] + keyU(u) && item.val.pin == pin
    && forall v: nat {:trigger Row(item.key, v, item.val)} :: v > MaxVersion(log, item.key) ==>
         toU(Row(item.key, v, item.val)) == u
  }

  /** What the section holds after a run of puts under a pin nothing was written to before: the
      canonical form of the items before the first failure. */
  lemma PutItemsSection<B(!new), U(!new)>(models: Log<ModelBody>, log: Log<Stored<B>>, t: string, pin: Pin,
      items: seq<Item<Stored<B>>>, us: seq<U>, toU: Row<Stored<B>> -> U, keyU: U -> Key) returns (n: nat)
    requires Dense(PutItems(models, log, items).log) && Filter(log, AtPin(t, pin)) == []
    requires |us| == |items|
    requires forall i :: 0 <= i < |items| && !items[i].Reject? ==> Carries(log, t, pin, items[i], us[i], toU, keyU)
    ensures n <= |us| && |PutItems(models, log, items).log| == |log| + n
    ensures PutItems(models, log, items).error.None? <==> n == |us|
    ensures Map(Query(PutItems(models, log, items).log, AtPin(t, pin)), toU) == LastWins(us[..n], keyU)
  {
    var more := PutItemsRows(models, log, items);
    n := |more|;
    forall i | 0 <= i < n
      ensures AtPin<B>(t, pin)(more[i]) && toU(more[i]) == us[i] && more[i].key == [t] + keyU(us[i])
    {
      assert Carries(log, t, pin, items[i], us[i], toU, keyU);
      NewerThan(log, more, i);
      assert more[i] == Row(items[i].key, more[i].version, items[i].val);
    }
    AddedSection(log, more, t, pin, toU, keyU);
    assert Map(more, toU) == us[..n];
  }

  lemma NewerThan<V>(log: Log<V>, more: Log<V>, i: nat)
    requires Dense(log + more) && i < |more|
    ensures more[i].version > MaxVersion(log, more[i].key)
  {
    var all := log + more;
    assert all[..|log|] == log && all[|log| + i] == more[i];
    RowsBetween(all, |log|, |log| + i, 0);
  }

  /** A section whose rows all come from the end of the table. */
  lemma AddedSection<B(!new), U>(log: Log<Stored<B>>, more: Log<Stored<B>>, t: string, pin: Pin,
      toU: Row<Stored<B>> -> U, keyU: U -> Key)
    requires Dense(log + more) && Filter(log, AtPin(t, pin)) == []
    requires forall i :: 0 <= i < |more| ==> AtPin<B>(t, pin)(more[i]) && more[i].key == [t] + keyU(toU(more[i]))
    ensures Map(Query(log + more, AtPin(t, pin)), toU) == LastWins(Map(more, toU), keyU)
  {
    var f := AtPin<B>(t, pin);
    FilterConcat(log, more, f);
    FilterAll(more, f);
    assert Filter(log + more, f) == more;
    QueryIsLastWins(log + more, f);
    TailOrder(more, t, toU, keyU);
    LastWinsMap(more, toU, RowKey, keyU);
  }

  // --- the new model version ---

  lemma {:induction false} RegisterAllNames(log: Log<()>, t: string, names: seq<BundleName>)
    requires NamesOk(log)
    ensures NamesOk(RegisterAll(log, t, names))
    ensures forall k {:trigger HasVersion(RegisterAll(log, t, names), k, 1)} ::
      HasVersion(RegisterAll(log, t, names), k, 1) <==>
        HasVersion(log, k, 1) || exists n :: n in names && k == [t] + NameKey(n)
  {
    if names != [] {
      var n := |names| - 1;
      RegisterAllNames(log, t, names[..n]);
      var mid, k0 := RegisterAll(log, t, names[..n]), [t] + NameKey(names[n]);
      RegisterKeepsNames(mid, k0);
      assert names == names[..n] + [names[n]];
      forall k ensures HasVersion(Register(mid, k0), k, 1) <==>
        HasVersion(log, k, 1) || exists m :: m in names && k == [t] + NameKey(m)
      {
        assert HasVersion(mid, k, 1) <==> HasVersion(log, k, 1) || exists m :: m in names[..n] && k == [t] + NameKey(m);
        if k == k0 { assert names[n] in names; }
      }
    }
  }

  /** Nothing is stored yet under the pin. */
  ghost predicate EmptyAt(db: Db, t: string, pin: Pin) {
    && Filter(db.nodes, AtPin(t, pin)) == [] && Filter(db.edges, AtPin(t, pin)) == []
    && Filter(db.props, AtPin(t, pin)) == [] && Filter(db.contracts, AtPin(t, pin)) == []
  }

  lemma NewPinEmpty(db: Db, t: string, pin: Pin)
    requires ValidDb(db) && !PinExists(db.models, t, pin)
    ensures EmptyAt(db, t, pin)
  {
    Parts(db);
    NewPinIsEmpty(db.models, db.nodes, t, pin, NodeOk);
    NewPinIsEmpty(db.models, db.edges, t, pin, EdgeOk);
    NewPinIsEmpty(db.models, db.props, t, pin, PropertyOk);
    NewPinIsEmpty(db.models, db.contracts, t, pin, ContractOk);
  }

  /** A model version just created: valid, named by its pin, with nothing stored under it. */
  lemma CreatedModel(db: Db, m: ModelVersion, gen: FreshId)
    requires ValidDb(db) && PutModelResult(db, m, gen).Ok?
    ensures
      var row := PutModelResult(db, m, gen).value;
      var db1, pin := db.(models := db.models + [row]), PinOf(row);
      && ValidDb(db1) && EmptyAt(db1, m.tenant, pin)
      && row.key == [m.tenant, pin.model] && row.val == ModelBody(FirstNonEmpty(m.status, "draft"), m.changeNote)
      && m.tenant != "" && pin.model == FirstNonEmpty(m.model, gen) && pin.version >= 1
           && PinExists(db1.models, m.tenant, pin)
      && LatestEnabled(db1.models, m.tenant) ==
           (if row.val.status == "enabled" then Some(row) else LatestEnabled(db.models, m.tenant))
  {
    assert PartOk(db, ModelPart);
    PutModelKeepsValid(db, m, gen);
    PutItemLands(db.models, PrepareModel(m, gen), None, m.tenant in db.tenants.Values);
    var row := PutModelResult(db, m, gen).value;
    var pin := PinOf(row);
    assert row.key == [m.tenant, pin.model];
    VersionsExact(db.models, row.key, row.version);
    NewPinEmpty(db, m.tenant, pin);
    assert (db.models + [row])[..|db.models|] == db.models;
    assert (db.models + [row])[|db.models|] == row;
  }

  // --- each section of an import ---

  lemma NodeCarries(db: Db, t: string, pin: Pin, ns: seq<BundleNode>, ids: nat -> FreshId, i: nat)
    requires i < |ns| && t != "" && pin.model != "" && pin.version != 0
    ensures var item := NodeItems(db.models, t, pin, ns, ids)[i];
      !item.Reject? ==>
        NodeOk(item.key, item.val.body) && Carries(db.nodes, t, pin, item, FilledNodes(ns, ids)[i], ToNode, NodeKey)
  {
    PreparedNodeOk(db.models, NodeRequest(t, pin, ns[i]), ids(i));
    assert NodeItems(db.models, t, pin, ns, ids)[i] == PrepareNode(db.models, NodeRequest(t, pin, ns[i]), ids(i));
  }

  lemma EdgeCarries(db: Db, t: string, pin: Pin, es: seq<BundleEdge>, i: nat)
    requires i < |es| && t != "" && pin.model != "" && pin.version != 0
    ensures var item := EdgeItems(db.models, t, pin, es)[i];
      !item.Reject? ==>
        EdgeOk(item.key, item.val.body) && Carries(db.edges, t, pin, item, Map(es, FilledEdge)[i], ToEdge, EdgeKey)
  {
    PreparedEdgeOk(db.models, EdgeRequest(t, pin, es[i]));
    assert EdgeItems(db.models, t, pin, es)[i] == PrepareEdge(db.models, EdgeRequest(t, pin, es[i]));
  }

  lemma PropertyCarries(db: Db, t: string, pin: Pin, ps: seq<BundleProperty>, i: nat)
    requires i < |ps| && t != "" && pin.model != "" && pin.version != 0
    ensures var item := PropertyItems(db.models, t, pin, ps)[i];
      !item.Reject? ==>
        PropertyOk(item.key, item.val.body) && Carries(db.props, t, pin, item, ps[i], ToProperty, PropertyKey)
  {
    PreparedPropertyOk(db.models, PropertyRequest(t, pin, ps[i]));
    assert PropertyItems(db.models, t, pin, ps)[i] == PrepareProperty(db.models, PropertyRequest(t, pin, ps[i]));
  }

  lemma NodeSection(db: Db, t: string, pin: Pin, ns: seq<BundleNode>, ids: nat -> FreshId) returns (n: nat)
    requires ValidDb(db) && Filter(db.nodes, AtPin(t, pin)) == [] && t != "" && pin.model != "" && pin.version != 0
    ensures var p := PutItems(db.models, db.nodes, NodeItems(db.models, t, pin, ns, ids));
      && ValidDb(db.(nodes := p.log))
      && n <= |ns| && |p.log| == |db.nodes| + n && (p.error.None? <==> n == |ns|)
      && Map(Query(p.log, AtPin(t, pin)), ToNode) == LastWins(FilledNodes(ns, ids)[..n], NodeKey)
  {
    var items, us := NodeItems(db.models, t, pin, ns, ids), FilledNodes(ns, ids);
    forall i | 0 <= i < |items| && !items[i].Reject?
      ensures NodeOk(items[i].key, items[i].val.body) && Carries(db.nodes, t, pin, items[i], us[i], ToNode, NodeKey)
    {
      NodeCarries(db, t, pin, ns, ids, i);
    }
    assert PartOk(db, NodePart);
    PutItemsKeepTable(db.models, db.nodes, items, NodeOk);
    NodesKeepValid(db, PutItems(db.models, db.nodes, items).log);
    n := PutItemsSection(db.models, db.nodes, t, pin, items, us, ToNode, NodeKey);
  }

  lemma EdgeSection(db: Db, t: string, pin: Pin, es: seq<BundleEdge>) returns (n: nat)
    requires ValidDb(db) && Filter(db.edges, AtPin(t, pin)) == [] && t != "" && pin.model != "" && pin.version != 0
    ensures var p := PutItems(db.models, db.edges, EdgeItems(db.models, t, pin, es));
      && ValidDb(db.(edges := p.log))
      && n <= |es| && |p.log| == |db.edges| + n && (p.error.None? <==> n == |es|)
      && Map(Query(p.log, AtPin(t, pin)), ToEdge) == LastWins(Map(es, FilledEdge)[..n], EdgeKey)
  {
    var items, us := EdgeItems(db.models, t, pin, es), Map(es, FilledEdge);
    forall i | 0 <= i < |items| && !items[i].Reject?
      ensures EdgeOk(items[i].key, items[i].val.body) && Carries(db.edges, t, pin, items[i], us[i], ToEdge, EdgeKey)
    {
      EdgeCarries(db, t, pin, es, i);
    }
    assert PartOk(db, EdgePart);
    PutItemsKeepTable(db.models, db.edges, items, EdgeOk);
    EdgesKeepValid(db, PutItems(db.models, db.edges, items).log);
    n := PutItemsSection(db.models, db.edges, t, pin, items, us, ToEdge, EdgeKey);
  }

  lemma PropertySection(db: Db, t: string, pin: Pin, ps: seq<BundleProperty>) returns (n: nat)
    requires ValidDb(db) && Filter(db.props, AtPin(t, pin)) == [] && t != "" && pin.model != "" && pin.version != 0
    ensures var p := PutItems(db.models, db.props, PropertyItems(db.models, t, pin, ps));
      && ValidDb(db.(props := p.log))
      && n <= |ps| && |p.log| == |db.props| + n && (p.error.None? <==> n == |ps|)
      && Map(Query(p.log, AtPin(t, pin)), ToProperty) == LastWins(ps[..n], PropertyKey)
  {
    var items := PropertyItems(db.models, t, pin, ps);
    forall i | 0 <= i < |items| && !items[i].Reject?
      ensures PropertyOk(items[i].key, items[i].val.body)
        && Carries(db.props, t, pin, items[i], ps[i], ToProperty, PropertyKey)
    {
      PropertyCarries(db, t, pin, ps, i);
    }
    assert PartOk(db, PropertyPart);
    PutItemsKeepTable(db.models, db.props, items, PropertyOk);
    PropertiesKeepValid(db, PutItems(db.models, db.props, items).log);
    n := PutItemsSection(db.models, db.props, t, pin, items, ps, ToProperty, PropertyKey);
  }

  /** No reason or obligation row refers to a contract version that is not stored yet. */
  lemma NewVersionHasNoExtras(db: Db, t: string, id: string, v: nat)
    requires ValidDb(db) && v > MaxVersion(db.contracts, [t, id])
    ensures ItemsOf(ReasonRows(db.reasons, t), id, v) == [] && ItemsOf(ObligationRows(db.obligations, t), id, v) == []
  {
    Parts(db);
    VersionsExact(db.contracts, [t, id], v);
    var rs, os := ReasonRows(db.reasons, t), ObligationRows(db.obligations, t);
    FilterMembers(db.reasons, (r: ReasonRow) => r.tenant == t);
    FilterMembers(db.obligations, (r: ObligationRow) => r.tenant == t);
    forall r | r in rs ensures !BelongsTo<string>(id, v)(r) {
      var i :| 0 <= i < |rs| && rs[i] == r;
      assert Filter(db.reasons, (r: ReasonRow) => r.tenant == t)[i] in db.reasons;
    }
    forall r | r in os ensures !BelongsTo<BundleObligation>(id, v)(r) {
      var i :| 0 <= i < |os| && os[i] == r;
      assert Filter(db.obligations, (r: ObligationRow) => r.tenant == t)[i] in db.obligations;
    }
    FilterNone(rs, BelongsTo(id, v));
    FilterNone(os, BelongsTo(id, v));
  }

  lemma ContractCarries(db: Db, t: string, pin: Pin, cs: seq<BundleContract>, ids: nat -> FreshId, i: nat)
    requires ValidDb(db) && i < |cs| && t != "" && pin.model != "" && pin.version != 0
    ensures var item := ContractItems(db.models, t, pin, cs, ids)[i];
      !item.Reject? ==>
        && ContractOk(item.key, item.val.body)
        && Carries(db.contracts, t, pin, item, FilledContracts(cs, ids, pin)[i],
             ToContract(db.reasons, db.obligations, t), BundleContractKey)
  {
    PreparedContractOk(db.models, ContractRequest(t, pin, cs[i]), ids(i));
    var item, u := ContractItems(db.models, t, pin, cs, ids)[i], FilledContracts(cs, ids, pin)[i];
    assert item == PrepareContract(db.models, ContractRequest(t, pin, cs[i]), ids(i));
    if !item.Reject? {
      assert item.key == [t, u.id];
      forall v: nat | v > MaxVersion(db.contracts, item.key)
        ensures ToContract(db.reasons, db.obligations, t)(Row(item.key, v, item.val)) == u
      {
        NewVersionHasNoExtras(db, t, u.id, v);
      }
    }
  }

  lemma ContractSection(db: Db, t: string, pin: Pin, cs: seq<BundleContract>, ids: nat -> FreshId) returns (n: nat)
    requires ValidDb(db) && Filter(db.contracts, AtPin(t, pin)) == [] && t != "" && pin.model != "" && pin.version != 0
    ensures var p := PutItems(db.models, db.contracts, ContractItems(db.models, t, pin, cs, ids));
      && ValidDb(db.(contracts := p.log))
      && n <= |cs| && |p.log| == |db.contracts| + n && (p.error.None? <==> n == |cs|)
      && Map(Query(p.log, AtPin(t, pin)), ToContract(db.reasons, db.obligations, t)) ==
           LastWins(FilledContracts(cs, ids, pin)[..n], BundleContractKey)
  {
    var items, us := ContractItems(db.models, t, pin, cs, ids), FilledContracts(cs, ids, pin);
    forall i | 0 <= i < |items| && !items[i].Reject?
      ensures ContractOk(items[i].key, items[i].val.body)
      ensures Carries(db.contracts, t, pin, items[i], us[i], ToContract(db.reasons, db.obligations, t),
        BundleContractKey)
    {
      ContractCarries(db, t, pin, cs, ids, i);
    }
    assert PartOk(db, ContractPart);
    PutItemsKeepTable(db.models, db.contracts, items, ContractOk);
    n := PutItemsSection(db.models, db.contracts, t, pin, items, us, ToContract(db.reasons, db.obligations, t),
      BundleContractKey);
    var more := PutItemsRows(db.models, db.contracts, items);
    ContractsKeepValid(db, more);
  }

  // --- the import as a whole ---

  ghost predicate NodesAre(db: Db, t: string, pin: Pin, ns: seq<BundleNode>) {
    Map(Query(db.nodes, AtPin(t, pin)), ToNode) == LastWins(ns, NodeKey)
  }

  ghost predicate EdgesAre(db: Db, t: string, pin: Pin, es: seq<BundleEdge>) {
    Map(Query(db.edges, AtPin(t, pin)), ToEdge) == LastWins(es, EdgeKey)
  }

  ghost predicate PropertiesAre(db: Db, t: string, pin: Pin, ps: seq<BundleProperty>) {
    Map(Query(db.props, AtPin(t, pin)), ToProperty) == LastWins(ps, PropertyKey)
  }

  ghost predicate ContractsAre(db: Db, t: string, pin: Pin, cs: seq<BundleContract>) {
    Map(Query(db.contracts, AtPin(t, pin)), ToContract(db.reasons, db.obligations, t)) ==
      LastWins(cs, BundleContractKey)
  }

  /** How many elements of each section an import has put. */
  datatype Cuts = Cuts(nodes: nat, edges: nat, properties: nat, contracts: nat)

  ghost predicate CutsWithin(b: Bundle, c: Cuts) {
    && c.nodes <= |b.nodes| && c.edges <= |b.edges|
    && c.properties <= |b.properties| && c.contracts <= |b.contracts|
  }

  /** The sections stored under the pin are those of the bundle up to the cuts, completed. */
  ghost predicate SectionsUpTo(db: Db, t: string, pin: Pin, b: Bundle, ids: Ids, c: Cuts)
    requires CutsWithin(b, c)
  {
    && NodesAre(db, t, pin, FilledNodes(b.nodes, ids.node)[..c.nodes])
    && EdgesAre(db, t, pin, Map(b.edges, FilledEdge)[..c.edges])
    && PropertiesAre(db, t, pin, b.properties[..c.properties])
    && ContractsAre(db, t, pin, FilledContracts(b.contracts, ids.contract, pin)[..c.contracts])
  }

  predicate NodesDone(b: Bundle, c: Cuts) { c.nodes == |b.nodes| }
  predicate EdgesDone(b: Bundle, c: Cuts) { NodesDone(b, c) && c.edges == |b.edges| }
  predicate PropertiesDone(b: Bundle, c: Cuts) { EdgesDone(b, c) && c.properties == |b.properties| }

  /** Nothing is left to put. */
  predicate Complete(b: Bundle, withContracts: bool, c: Cuts) {
    PropertiesDone(b, c) && (withContracts ==> c.contracts == |b.contracts|)
  }

  /** The cuts are the rows added. */
  ghost predicate Filled(before: Db, after: Db, c: Cuts) {
    && |after.nodes| == |before.nodes| + c.nodes && |after.edges| == |before.edges| + c.edges
    && |after.props| == |before.props| + c.properties && |after.contracts| == |before.contracts| + c.contracts
  }

  ghost predicate UsablePin(db: Db, t: string, pin: Pin) {
    ValidDb(db) && EmptyAt(db, t, pin) && t != "" && pin.model != "" && pin.version != 0
  }

  lemma EmptySections(db: Db, t: string, pin: Pin)
    requires UsablePin(db, t, pin)
    ensures NodesAre(db, t, pin, []) && EdgesAre(db, t, pin, [])
    ensures PropertiesAre(db, t, pin, []) && ContractsAre(db, t, pin, [])
  {
    Parts(db);
    QueryIsLastWins(db.nodes, AtPin(t, pin));
    QueryIsLastWins(db.edges, AtPin(t, pin));
    QueryIsLastWins(db.props, AtPin(t, pin));
    QueryIsLastWins(db.contracts, AtPin(t, pin));
  }

  /** An import changes the four tables only. */
  lemma ImportRowsFrame(db: Db, t: string, pin: Pin, b: Bundle, withContracts: bool, ids: Ids)
    ensures var out := ImportRows(db, t, pin, b, withContracts, ids).db;
      && out.models == db.models && out.tenants == db.tenants && out.types == db.types && out.statuses == db.statuses
      && out.reasons == db.reasons && out.obligations == db.obligations
  {}

  /** The tables an import leaves: each is filled if the ones before it could be, and untouched otherwise. */
  ghost predicate TablesLeft(db: Db, out: Db, t: string, pin: Pin, b: Bundle, withContracts: bool, ids: Ids) {
    var ns := PutItems(db.models, db.nodes, NodeItems(db.models, t, pin, b.nodes, ids.node));
    var es := PutItems(db.models, db.edges, EdgeItems(db.models, t, pin, b.edges));
    var ps := PutItems(db.models, db.props, PropertyItems(db.models, t, pin, b.properties));
    var cs := PutItems(db.models, db.contracts, ContractItems(db.models, t, pin, b.contracts, ids.contract));
    var upToEdges := ns.error.None? && es.error.None?;
    && out.nodes == ns.log
    && out.edges == (if ns.error.None? then es.log else db.edges)
    && out.props == (if upToEdges then ps.log else db.props)
    && out.contracts == (if upToEdges && ps.error.None? && withContracts then cs.log else db.contracts)
  }

  lemma ImportLeaves(db: Db, t: string, pin: Pin, b: Bundle, withContracts: bool, ids: Ids)
    ensures TablesLeft(db, ImportRows(db, t, pin, b, withContracts, ids).db, t, pin, b, withContracts, ids)
  {}

  /** An import under a usable pin keeps the database valid, successful or not. */
  lemma ImportedRowsValid(db: Db, t: string, pin: Pin, b: Bundle, withContracts: bool, ids: Ids)
    requires UsablePin(db, t, pin)
    ensures ValidDb(ImportRows(db, t, pin, b, withContracts, ids).db)
  {
    var n := NodeSection(db, t, pin, b.nodes, ids.node);
    var db1 := db.(nodes := PutItems(db.models, db.nodes, NodeItems(db.models, t, pin, b.nodes, ids.node)).log);
    n := EdgeSection(db1, t, pin, b.edges);
    var db2 := db1.(edges := PutItems(db.models, db.edges, EdgeItems(db.models, t, pin, b.edges)).log);
    n := PropertySection(db2, t, pin, b.properties);
    var db3 := db2.(props := PutItems(db.models, db.props, PropertyItems(db.models, t, pin, b.properties)).log);
    n := ContractSection(db3, t, pin, b.contracts, ids.contract);
  }

  /** No put fails. */
  ghost predicate AllPut(db: Db, t: string, pin: Pin, b: Bundle, withContracts: bool, ids: Ids) {
    && PutItems(db.models, db.nodes, NodeItems(db.models, t, pin, b.nodes, ids.node)).error.None?
    && PutItems(db.models, db.edges, EdgeItems(db.models, t, pin, b.edges)).error.None?
    && PutItems(db.models, db.props, PropertyItems(db.models, t, pin, b.properties)).error.None?
    && (withContracts ==>
         PutItems(db.models, db.contracts, ContractItems(db.models, t, pin, b.contracts, ids.contract)).error.None?)
  }

  lemma ImportedResult(db: Db, t: string, pin: Pin, b: Bundle, withContracts: bool, ids: Ids)
    ensures var result := ImportRows(db, t, pin, b, withContracts, ids).result;
      (result.Ok? <==> AllPut(db, t, pin, b, withContracts, ids)) && (result.Ok? ==> result.value == pin)
  {}

  /** An import under a fresh pin, successful or not, leaves each section as the canonical form of what
      was put. */
  lemma ImportedRowsKeep(db: Db, out: Db, t: string, pin: Pin, b: Bundle, withContracts: bool, ids: Ids)
    returns (c: Cuts)
    requires UsablePin(db, t, pin) && TablesLeft(db, out, t, pin, b, withContracts, ids)
    requires out.reasons == db.reasons && out.obligations == db.obligations
    ensures CutsWithin(b, c) && SectionsUpTo(out, t, pin, b, ids, c) && Filled(db, out, c)
    ensures AllPut(db, t, pin, b, withContracts, ids) <==> Complete(b, withContracts, c)
  {
    EmptySections(db, t, pin);
    var n := NodeSection(db, t, pin, b.nodes, ids.node);
    var e := EdgeSection(db, t, pin, b.edges);
    var p := PropertySection(db, t, pin, b.properties);
    var k := ContractSection(db, t, pin, b.contracts, ids.contract);
    e := if out.edges == db.edges then 0 else e;
    p := if out.props == db.props then 0 else p;
    k := if out.contracts == db.contracts then 0 else k;
    c := Cuts(n, e, p, k);
  }

  lemma WithNamesValid(db: Db, t: string, b: Bundle)
    requires ValidDb(db)
    ensures ValidDb(WithNames(db, t, b))
  {
    assert PartOk(db, RegistryPart);
    RegisterAllNames(db.statuses, t, b.statuses);
    RegisterAllNames(db.types, t, b.types);
    NamesKeepValid(db, RegisterAll(db.types, t, b.types), RegisterAll(db.statuses, t, b.statuses));
  }

  /** The database and tenant an import works on once the tenant is found or created. */
  function TargetDb(db: Db, b: Bundle, opts: Options, ids: Ids): Db {
    var name := ImportTenant(b, opts);
    if name in db.tenants then db else db.(tenants := db.tenants[name := ids.tenant])
  }

  function TargetTenant(db: Db, b: Bundle, opts: Options, ids: Ids): string {
    var name := ImportTenant(b, opts);
    if name in db.tenants then db.tenants[name] else ids.tenant
  }

  lemma TargetValid(db: Db, b: Bundle, opts: Options, ids: Ids)
    requires ValidDb(db)
    ensures ValidDb(TargetDb(db, b, opts, ids))
    ensures TargetTenant(db, b, opts, ids) != ""
      && TargetTenant(db, b, opts, ids) in TargetDb(db, b, opts, ids).tenants.Values
  {
    var name := ImportTenant(b, opts);
    assert PartOk(db, RegistryPart);
    if name !in db.tenants {
      TenantsGrow(db.tenants, name, ids.tenant);
      TenantKeepsValid(db, name, ids.tenant);
    } else {
      assert db.tenants[name] in db.tenants.Values;
    }
  }
}
