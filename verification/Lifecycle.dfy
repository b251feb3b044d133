/** What changing the status of a model version does to the tenant's latest enabled version. */
module Lifecycle {
  import opened Basics
  import opened Ordering
  import opened VersionedLog
  import opened Schema
  import opened ConcurrentPut
  import opened Bundles
  import opened World

  /** The row the model-version status handler inserts. */
  function StatusRow(db: Db, t: string, model: string, version: int, status: string): Row<ModelBody>
    requires VersionRow(db.models, [t, model], version).Some?
  {
    NextRow(db.models, [t, model],
      ModelBody(FirstNonEmpty(status, "draft"), VersionRow(db.models, [t, model], version).value.val.changeNote))
  }

  /** Changing a status to anything but enabled leaves the pointer of every tenant where it was: in
      particular the latest enabled version cannot be disabled this way. */
  lemma StatusChangePointer(db: Db, t: string, model: string, version: int, status: string, u: string)
    requires VersionRow(db.models, [t, model], version).Some?
    ensures
      var row := StatusRow(db, t, model, version, status);
      var after := LatestEnabled(db.models + [row], u);
      if status == "enabled" && u == t then after == Some(row) else after == LatestEnabled(db.models, u)
  {
    var row := StatusRow(db, t, model, version, status);
    assert (db.models + [row])[..|db.models|] == db.models;
  }

  /** Enabling a version this way creates a version nothing is pinned to, so the tenant's export
      becomes empty, whatever the version that was named holds. */
  lemma EnablingExportsNothing(db: Db, name: string, model: string, version: int, withContracts: bool)
    requires ValidDb(db) && name != "" && name in db.tenants
    requires VersionRow(db.models, [db.tenants[name], model], version).Some?
    ensures
      var row := StatusRow(db, db.tenants[name], model, version, "enabled");
      var exported := ExportOf(db.(models := db.models + [row]), name, withContracts);
      && exported.Ok?
      && exported.value.model.modelId == model && exported.value.model.version == row.version
      && exported.value.nodes == [] && exported.value.edges == [] && exported.value.properties == []
           && exported.value.contracts == []
  {
    var t := db.tenants[name];
    var row := StatusRow(db, t, model, version, "enabled");
    Parts(db);
    StatusChangePointer(db, t, model, version, "enabled", t);
    VersionsExact(db.models, row.key, row.version);
    var pin := PinOf(row);
    NewPinIsEmpty(db.models, db.nodes, t, pin, NodeOk);
    NewPinIsEmpty(db.models, db.edges, t, pin, EdgeOk);
    NewPinIsEmpty(db.models, db.props, t, pin, PropertyOk);
    NewPinIsEmpty(db.models, db.contracts, t, pin, ContractOk);
  }

  /** The client p of table t has done what the sequential put returned. */
  ghost predicate DidAs<V>(t: Table<V>, t': Table<V>, p: nat, r: Result<Row<V>>) {
    && t'.log == Extended(t.log, r) && p in t'.clients
    && (r.Ok? ==> t'.clients[p].Committed? && t'.clients[p].row == r.value && t'.clients[p].at == |t.log|)
    && (r.Err? ==> t'.clients[p] == Failed(r.error))
  }

  lemma GeneratedAlone<V>(t: Table<V>, p: nat, k: Key, v: V, refExists: bool)
    requires Inv(t) && Idle(t, p)
    ensures DidAs(t, Run(Apply(t, BeginFresh(p, k, v)), Finish(p, refExists)), p, Land(t.log, Row(k, 1, v), refExists))
  {
    var t1 := Apply(t, BeginFresh(p, k, v));
    ApplyKeepsInv(t, BeginFresh(p, k, v));
    RunFinish(t1, p, refExists);
    assert Apply(Apply(t1, Check(p)), Snap(p)) == t1;
    FreshOutcome(t1, p, refExists);
    InsertGuard(t.log, Row(k, 1, v));
  }

  lemma KeyedAlone<V>(t: Table<V>, p: nat, k: Key, v: V, expected: Option<int>, refExists: bool)
    requires Inv(t) && Idle(t, p)
    ensures DidAs(t, Run(Apply(t, Begin(p, k, v, expected)), Finish(p, refExists)), p,
      PutItem(t.log, Keyed(k, v), expected, refExists))
  {
    FinishOutcome(Apply(t, Begin(p, k, v, expected)), p, refExists);
    InsertGuard(t.log, NextRow(t.log, k, v));
  }

  lemma RejectedAlone<V>(t: Table<V>, p: nat, e: Error, refExists: bool)
    requires Idle(t, p)
    ensures DidAs(t, Run(t.(clients := t.clients[p := Failed(e)]), Finish(p, refExists)), p, Err(e))
  {
    RunFinish(t.(clients := t.clients[p := Failed(e)]), p, refExists);
  }

  /** The sequential Put is the interleaved one with nothing in between, on every branch: rejected
      requests, given keys with and without an expected version, generated keys, and missing references. */
  lemma PutIsRunAlone<V>(t: Table<V>, p: nat, item: Item<V>, expected: Option<int>, refExists: bool)
    requires Inv(t) && Idle(t, p)
    ensures DidAs(t, Run(BeginItem(t, p, item, expected), Finish(p, refExists)), p,
      PutItem(t.log, item, expected, refExists))
  {
    match item
    case Reject(e) => RejectedAlone(t, p, e, refExists);
    case Keyed(k, v) => KeyedAlone(t, p, k, v, expected, refExists);
    case Generated(k, v) => GeneratedAlone(t, p, k, v, refExists);
  }
}
