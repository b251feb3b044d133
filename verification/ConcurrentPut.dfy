/** Any number of clients putting rows into one versioned table, their statements interleaved. */
module ConcurrentPut {
  import opened Basics
  import opened Ordering
  import opened VersionedLog

  /** Where a client is inside its put. checkedAt, snappedAt and at record how many rows were
      committed when the statement ran; no step reads them. */
  datatype Phase<V> =
    | Started(key: Key, val: V, expected: Option<int>)
    | Fresh(key: Key, val: V)
    | Checked(key: Key, val: V, expected: Option<int>, checkedAt: nat)
    | Snapped(key: Key, val: V, expected: Option<int>, checkedAt: nat, next: nat, snappedAt: nat)
    | Committed(row: Row<V>, expected: Option<int>, checkedAt: nat, at: nat)
    | Failed(error: Error)

  datatype Table<V> = Table(log: Log<V>, clients: map<nat, Phase<V>>)

  datatype Action<V> =
    | Begin(p: nat, key: Key, val: V, expected: Option<int>)
    | BeginFresh(p: nat, key: Key, val: V)   // empty id: key is generated, version is 1
    | Check(p: nat)                          // the optional ExpectedVersion query
    | Snap(p: nat)                           // MAX(version)+1 as seen by the insert's snapshot
    | Insert(p: nat, pinExists: bool)        // the guarded insert; pinExists is its foreign key

  predicate Idle<V>(t: Table<V>, p: nat) {
    p !in t.clients || t.clients[p].Committed? || t.clients[p].Failed?
  }

  function Landed<V>(t: Table<V>, p: nat, row: Row<V>, expected: Option<int>, checkedAt: nat,
      pinExists: bool): Table<V> {
    match TryInsert(t.log, row)
    case None => t.(clients := t.clients[p := Failed(DuplicateKey)])
    case Some(log') =>
      if pinExists then Table(log', t.clients[p := Committed(row, expected, checkedAt, |t.log|)])
      else t.(clients := t.clients[p := Failed(ForeignKey)])
  }

  /** One statement of one client; an action that is not enabled changes nothing. */
  function Apply<V>(t: Table<V>, a: Action<V>): Table<V> {
    match a
    case Begin(p, key, val, expected) =>
      if Idle(t, p) then t.(clients := t.clients[p := Started(key, val, expected)]) else t
    case BeginFresh(p, key, val) =>
      if Idle(t, p) then t.(clients := t.clients[p := Fresh(key, val)]) else t
    case Check(p) =>
      if p in t.clients && t.clients[p].Started? then
        var c := t.clients[p];
        if c.expected.Some? && MaxVersion(t.log, c.key) != c.expected.value
        then t.(clients := t.clients[p := Failed(Conflict)])
        else t.(clients := t.clients[p := Checked(c.key, c.val, c.expected, |t.log|)])
      else t
    case Snap(p) =>
      if p in t.clients && t.clients[p].Checked? then
        var c := t.clients[p];
        t.(clients :=
          t.clients[p := Snapped(c.key, c.val, c.expected, c.checkedAt, MaxVersion(t.log, c.key) + 1, |t.log|)])
      else t
    case Insert(p, pinExists) =>
      if p in t.clients && t.clients[p].Snapped? then
        var c := t.clients[p];
        Landed(t, p, Row(c.key, c.next, c.val), c.expected, c.checkedAt, pinExists)
      else if p in t.clients && t.clients[p].Fresh? then
        var c := t.clients[p];
        Landed(t, p, Row(c.key, 1, c.val), None, |t.log|, pinExists)
      else t
  }

  function Run<V>(t: Table<V>, acts: seq<Action<V>>): Table<V> {
    if acts == [] then t else Apply(Run(t, acts[..|acts| - 1]), acts[|acts| - 1])
  }

  ghost predicate CheckHeld<V>(log: Log<V>, key: Key, expected: Option<int>, checkedAt: nat) {
    checkedAt <= |log| && (expected.Some? ==> MaxVersion(log[..checkedAt], key) == expected.value)
  }

  /** What each client still knows about the table, however stale. */
  ghost predicate PhaseOk<V>(log: Log<V>, c: Phase<V>) {
    match c
    case Started(_, _, _) => true
    case Fresh(_, _) => true
    case Checked(key, _, expected, checkedAt) => CheckHeld(log, key, expected, checkedAt)
    case Snapped(key, _, expected, checkedAt, next, snappedAt) =>
      && CheckHeld(log, key, expected, checkedAt)
      && checkedAt <= snappedAt <= |log| && next == MaxVersion(log[..snappedAt], key) + 1
    case Committed(row, expected, checkedAt, at) =>
      && CheckHeld(log, row.key, expected, checkedAt)
      && checkedAt <= at < |log| && log[at] == row
    case Failed(_) => true
  }

  ghost predicate Inv<V>(t: Table<V>) {
    && Dense(t.log)
    && forall p {:trigger t.clients[p]} :: p in t.clients ==> PhaseOk(t.log, t.clients[p])
  }

  lemma PhaseOkExtends<V>(log: Log<V>, r: Row<V>, c: Phase<V>)
    requires PhaseOk(log, c)
    ensures PhaseOk(log + [r], c)
  {
    var all := log + [r];
    assert forall n :: 0 <= n <= |log| ==> all[..n] == log[..n];
  }

  /** The next version a client computed is at most one past the current maximum. */
  lemma StaleIsLower<V>(log: Log<V>, n: nat, k: Key)
    requires Dense(log) && n <= |log|
    ensures MaxVersion(log[..n], k) <= MaxVersion(log, k)
    ensures MaxVersion(log[..n], k) < MaxVersion(log, k) <==> exists j :: n <= j < |log| && log[j].key == k
  {
    MaxMonotone(log, n, k);
    if j :| n <= j < |log| && log[j].key == k {
      RowsBetween(log, n, j, 0);
      MaxBounds(log, k);
      assert log[j] in log;
    }
    if MaxVersion(log[..n], k) < MaxVersion(log, k) {
      var m := MaxVersion(log, k);
      VersionsExact(log, k, m);
      var j :| 0 <= j < |log| && log[j].key == k && log[j].version == m;
      if j < n { MaxBoundsAt(log, n, j); }
    }
  }

  /** An insert adds the row itself, at the next version of its key, or nothing. */
  lemma LandedAdds<V>(t: Table<V>, p: nat, row: Row<V>, expected: Option<int>, checkedAt: nat, pinExists: bool)
    requires Dense(t.log) && 1 <= row.version <= MaxVersion(t.log, row.key) + 1
    ensures
      var log' := Landed(t, p, row, expected, checkedAt, pinExists).log;
      log' == t.log || (pinExists && row == NextRow(t.log, row.key, row.val) && log' == t.log + [row])
  {
    InsertGuard(t.log, row);
  }

  /** One more row and one client that knows about it. */
  lemma InvSnoc<V>(t: Table<V>, p: nat, row: Row<V>, c: Phase<V>)
    requires Inv(t) && Dense(t.log + [row]) && PhaseOk(t.log + [row], c)
    ensures Inv(Table(t.log + [row], t.clients[p := c]))
  {
    var clients := t.clients[p := c];
    forall q | q in clients ensures PhaseOk(t.log + [row], clients[q]) {
      if q != p {
        PhaseOkExtends(t.log, row, t.clients[q]);
      }
    }
  }

  lemma CommittedOk<V>(log: Log<V>, row: Row<V>, expected: Option<int>, checkedAt: nat)
    requires CheckHeld(log, row.key, expected, checkedAt)
    ensures PhaseOk(log + [row], Committed(row, expected, checkedAt, |log|))
  {
    assert (log + [row])[..checkedAt] == log[..checkedAt];
  }

  lemma FailedKeepsInv<V>(t: Table<V>, p: nat, e: Error)
    requires Inv(t)
    ensures Inv(t.(clients := t.clients[p := Failed(e)]))
  {}

  lemma LandedKeepsInv<V>(t: Table<V>, p: nat, row: Row<V>, expected: Option<int>, checkedAt: nat, pinExists: bool)
    requires Inv(t) && 1 <= row.version <= MaxVersion(t.log, row.key) + 1
    requires CheckHeld(t.log, row.key, expected, checkedAt)
    ensures Inv(Landed(t, p, row, expected, checkedAt, pinExists))
  {
    InsertGuard(t.log, row);
    FailedKeepsInv(t, p, DuplicateKey);
    FailedKeepsInv(t, p, ForeignKey);
    if TryInsert(t.log, row).Some? {
      CommittedOk(t.log, row, expected, checkedAt);
      InvSnoc(t, p, row, Committed(row, expected, checkedAt, |t.log|));
    }
  }

  lemma ApplyKeepsInv<V>(t: Table<V>, a: Action<V>)
    requires Inv(t)
    ensures Inv(Apply(t, a))
  {
    assert t.log[..|t.log|] == t.log;
    if a.Insert? && a.p in t.clients {
      var c := t.clients[a.p];
      assert PhaseOk(t.log, c);
      match c
      case Snapped(key, val, expected, checkedAt, next, snappedAt) =>
        StaleIsLower(t.log, snappedAt, key);
        LandedKeepsInv(t, a.p, Row(key, next, val), expected, checkedAt, a.pinExists);
      case Fresh(key, val) =>
        LandedKeepsInv(t, a.p, Row(key, 1, val), None, |t.log|, a.pinExists);
      case _ =>
    }
  }

  lemma {:induction false} RunKeepsInv<V>(t: Table<V>, acts: seq<Action<V>>)
    requires Inv(t)
    ensures Inv(Run(t, acts))
  {
    if acts != [] {
      RunKeepsInv(t, acts[..|acts| - 1]);
      ApplyKeepsInv(Run(t, acts[..|acts| - 1]), acts[|acts| - 1]);
    }
  }

  /** Density under concurrency: whatever the interleaving, each key's versions are 1..n in
      commit order. */
  lemma DensityUnderConcurrency<V>(log: Log<V>, acts: seq<Action<V>>, k: Key)
    requires Dense(log)
    ensures Numbered(History(Run(Table(log, map[]), acts).log, k))
  {
    RunKeepsInv(Table(log, map[]), acts);
    DenseHistory(Run(Table(log, map[]), acts).log, k);
  }

  /** A put whose snapshot went stale is rejected by the primary key, and only such a put is; any other
      lands at the current maximum plus one if its foreign key holds. */
  lemma InsertOutcome<V>(t: Table<V>, p: nat, pinExists: bool)
    requires Inv(t) && p in t.clients && t.clients[p].Snapped?
    ensures
      var c, t' := t.clients[p], Apply(t, Insert(p, pinExists));
      var stale := exists j :: c.snappedAt <= j < |t.log| && t.log[j].key == c.key;
      var row := Row(c.key, MaxVersion(t.log, c.key) + 1, c.val);
      if !stale && pinExists
      then t'.log == t.log + [row] && t'.clients[p] == Committed(row, c.expected, c.checkedAt, |t.log|)
      else t'.log == t.log && t'.clients[p] == Failed(if stale then DuplicateKey else ForeignKey)
  {
    var c := t.clients[p];
    StaleIsLower(t.log, c.snappedAt, c.key);
    InsertGuard(t.log, Row(c.key, c.next, c.val));
  }

  /** The generated-id branch lands exactly when the generated key is new to the table and the foreign
      key holds. */
  lemma FreshOutcome<V>(t: Table<V>, p: nat, pinExists: bool)
    requires Inv(t) && p in t.clients && t.clients[p].Fresh?
    ensures
      var c, t' := t.clients[p], Apply(t, Insert(p, pinExists));
      var row, unused := Row(c.key, 1, c.val), MaxVersion(t.log, c.key) == 0;
      if unused && pinExists
      then t'.log == t.log + [row] && t'.clients[p] == Committed(row, None, |t.log|, |t.log|)
      else t'.log == t.log && t'.clients[p] == Failed(if unused then ForeignKey else DuplicateKey)
  {
    InsertGuard(t.log, Row(t.clients[p].key, 1, t.clients[p].val));
  }

  /** What a committed put with an expected version guarantees, over every run: the version it
      returned is above the expected one, the versions in between are exactly the rows other
      writers committed for the key since its check, and it is the very next one iff there were none. */
  lemma ExpectedVersionMeaning<V>(log: Log<V>, acts: seq<Action<V>>, p: nat)
    requires Dense(log)
    requires
      var t := Run(Table(log, map[]), acts);
      p in t.clients && t.clients[p].Committed? && t.clients[p].expected.Some?
    ensures
      var t := Run(Table(log, map[]), acts);
      var Committed(row, Some(e), checkedAt, at) := t.clients[p];
      && checkedAt <= at < |t.log| && t.log[at] == row
      && MaxVersion(t.log[..checkedAt], row.key) == e
      && row.version > e
      && (forall v: nat :: CommittedBetween(t.log, row.key, checkedAt, at, v) <==> e < v < row.version)
      && (row.version == e + 1 <==> !exists j :: checkedAt <= j < at && t.log[j].key == row.key)
  {
    RunKeepsInv(Table(log, map[]), acts);
    var t := Run(Table(log, map[]), acts);
    var Committed(row, Some(e), checkedAt, at) := t.clients[p];
    assert PhaseOk(t.log, t.clients[p]);
    forall v: nat ensures CommittedBetween(t.log, row.key, checkedAt, at, v) <==> e < v < row.version {
      RowsBetween(t.log, checkedAt, at, v);
    }
    RowsBetween(t.log, checkedAt, at, 0);
    if row.version != e + 1 {
      assert CommittedBetween(t.log, row.key, checkedAt, at, (e + 1) as nat);
    }
    forall j | checkedAt <= j < at && t.log[j].key == row.key ensures e < t.log[j].version < row.version {
      assert CommittedBetween(t.log, row.key, checkedAt, at, t.log[j].version);
    }
  }

  /** The statements of one put with nothing in between. */
  function Alone<V>(p: nat, key: Key, val: V, expected: Option<int>, pinExists: bool): seq<Action<V>> {
    [Begin(p, key, val, expected)] + Finish(p, pinExists)
  }

  /** The statements of a put that has begun. */
  function Finish<V>(p: nat, pinExists: bool): seq<Action<V>> { [Check(p), Snap(p), Insert(p, pinExists)] }

  lemma RunFinish<V>(t: Table<V>, p: nat, pinExists: bool)
    ensures Run(t, Finish(p, pinExists)) == Apply(Apply(Apply(t, Check(p)), Snap(p)), Insert(p, pinExists))
  {
    var acts := Finish<V>(p, pinExists);
    assert acts[..2][..1] == acts[..1] && acts[..1][..0] == [];
    assert Run(t, acts[..1]) == Apply(t, acts[0]);
    assert Run(t, acts[..2]) == Apply(Run(t, acts[..1]), acts[1]);
  }

  lemma {:induction false} RunConcat<V>(t: Table<V>, acts: seq<Action<V>>, more: seq<Action<V>>)
    ensures Run(t, acts + more) == Run(Run(t, acts), more)
  {
    if more == [] {
      assert acts + more == acts;
    } else {
      var n := |more| - 1;
      assert (acts + more)[..|acts + more| - 1] == acts + more[..n];
      RunConcat(t, acts, more[..n]);
    }
  }

  /** The check of a put that has just begun. */
  lemma CheckNow<V>(t: Table<V>, p: nat)
    requires p in t.clients && t.clients[p].Started?
    ensures
      var c, t2 := t.clients[p], Apply(t, Check(p));
      && t2.log == t.log && p in t2.clients
      && t2.clients[p] == if c.expected.Some? && MaxVersion(t.log, c.key) != c.expected.value then Failed(Conflict)
                          else Checked(c.key, c.val, c.expected, |t.log|)
  {}

  /** Snapshot and insert with nothing in between. */
  lemma InsertNow<V>(t: Table<V>, p: nat, pinExists: bool)
    requires Dense(t.log) && p in t.clients && t.clients[p].Checked?
    ensures
      var c, t2 := t.clients[p], Apply(Apply(t, Snap(p)), Insert(p, pinExists));
      var row := NextRow(t.log, c.key, c.val);
      && p in t2.clients
      && (if pinExists then t2.log == t.log + [row] && t2.clients[p] == Committed(row, c.expected, c.checkedAt, |t.log|)
          else t2.log == t.log && t2.clients[p] == Failed(ForeignKey))
  {
    InsertGuard(t.log, NextRow(t.log, t.clients[p].key, t.clients[p].val));
  }

  /** A put that has begun, finished with nothing in between. */
  lemma FinishOutcome<V>(t: Table<V>, p: nat, pinExists: bool)
    requires Dense(t.log) && p in t.clients && t.clients[p].Started?
    ensures
      var c, t' := t.clients[p], Run(t, Finish(p, pinExists));
      var row := NextRow(t.log, c.key, c.val);
      && p in t'.clients
      && (if c.expected.Some? && c.expected.value != MaxVersion(t.log, c.key)
          then t'.log == t.log && t'.clients[p] == Failed(Conflict)
          else if !pinExists then t'.log == t.log && t'.clients[p] == Failed(ForeignKey)
          else t'.log == t.log + [row] && t'.clients[p] == Committed(row, c.expected, |t.log|, |t.log|))
  {
    RunFinish(t, p, pinExists);
    CheckNow(t, p);
    var t2 := Apply(t, Check(p));
    if t2.clients[p].Checked? {
      InsertNow(t2, p, pinExists);
    }
  }

  /** Without interleaving the check passes iff the expected version is the current latest, and a
      put that passes (or has no check) commits the next version iff its foreign key holds. */
  lemma AloneOutcome<V>(t: Table<V>, p: nat, key: Key, val: V, expected: Option<int>, pinExists: bool)
    requires Inv(t) && Idle(t, p)
    ensures
      var t' := Run(t, Alone(p, key, val, expected, pinExists));
      var row := NextRow(t.log, key, val);
      && p in t'.clients
      && (if expected.Some? && expected.value != MaxVersion(t.log, key)
          then t'.log == t.log && t'.clients[p] == Failed(Conflict)
          else if !pinExists then t'.log == t.log && t'.clients[p] == Failed(ForeignKey)
          else t'.log == t.log + [row] && t'.clients[p] == Committed(row, expected, |t.log|, |t.log|))
  {
    var start := [Begin(p, key, val, expected)];
    RunConcat(t, start, Finish(p, pinExists));
    assert start[..0] == [] && Run(t, start) == Apply(t, start[0]);
    FinishOutcome(Run(t, start), p, pinExists);
  }

  /** Committed rows are never changed, moved or removed. */
  lemma {:induction false} RunAppends<V>(t: Table<V>, acts: seq<Action<V>>)
    ensures t.log <= Run(t, acts).log
  {
    if acts != [] {
      RunAppends(t, acts[..|acts| - 1]);
    }
  }
}
