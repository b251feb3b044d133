/** An append-only table of versioned rows in commit order, and the queries run against it. */
module VersionedLog {
  import opened Basics
  import opened Ordering

  /** A row of a versioned table: the primary key is (key, version). */
  datatype Row<V> = Row(key: Key, version: nat, val: V)

  type Log<V> = seq<Row<V>>

  function RowKey<V>(r: Row<V>): Key { r.key }

  /** SELECT COALESCE(MAX(version), 0) ... WHERE key = k */
  function MaxVersion<V>(log: Log<V>, k: Key): nat {
    if log == [] then 0
    else
      var m, r := MaxVersion(log[..|log| - 1], k), log[|log| - 1];
      if r.key == k && r.version > m then r.version else m
  }

  predicate HasVersion<V>(log: Log<V>, k: Key, v: nat) {
    exists i :: 0 <= i < |log| && log[i].key == k && log[i].version == v
  }

  /** INSERT guarded by the primary key; None when the key is taken. */
  function TryInsert<V>(log: Log<V>, row: Row<V>): Option<Log<V>> {
    if HasVersion(log, row.key, row.version) then None else Some(log + [row])
  }

  /** ... WHERE key = k ORDER BY version DESC LIMIT 1 */
  function Latest<V>(log: Log<V>, k: Key): Option<Row<V>> {
    if log == [] then None
    else
      var prev, r := Latest(log[..|log| - 1], k), log[|log| - 1];
      if r.key == k && (prev.None? || r.version > prev.value.version) then Some(r) else prev
  }

  /** ... WHERE key = k AND version = v */
  function VersionRow<V>(log: Log<V>, k: Key, v: int): Option<Row<V>> {
    if log == [] then None
    else if log[|log| - 1].key == k && log[|log| - 1].version == v then Some(log[|log| - 1])
    else VersionRow(log[..|log| - 1], k, v)
  }

  function KeepNewer<V>(out: seq<Row<V>>, r: Row<V>): seq<Row<V>> {
    if out == [] then [r]
    else if r.key == out[0].key then [if r.version > out[0].version then r else out[0]] + out[1..]
    else if KeyLess(r.key, out[0].key) then [r] + out
    else [out[0]] + KeepNewer(out[1..], r)
  }

  /** SELECT DISTINCT ON (key) ... WHERE f ORDER BY key, version DESC */
  function Query<V>(log: Log<V>, f: Row<V> -> bool): seq<Row<V>> {
    if log == [] then []
    else
      var prev, r := Query(log[..|log| - 1], f), log[|log| - 1];
      if f(r) then KeepNewer(prev, r) else prev
  }

  // --- Dense histories ---

  /** Every row was given the version after the greatest one of its key at that moment. */
  ghost predicate Dense<V>(log: Log<V>) {
    log == [] ||
    (Dense(log[..|log| - 1]) && log[|log| - 1].version == MaxVersion(log[..|log| - 1], log[|log| - 1].key) + 1)
  }

  function OfKey<V>(k: Key): Row<V> -> bool { (r: Row<V>) => r.key == k }

  /** The rows of one key in commit order. */
  function History<V>(log: Log<V>, k: Key): seq<Row<V>> { Filter(log, OfKey(k)) }

  /** The versions of h are 1, 2, ..., |h|. */
  ghost predicate Numbered<V>(h: seq<Row<V>>) {
    forall i :: 0 <= i < |h| ==> h[i].version == i + 1
  }

  lemma {:induction false} DenseHistory<V>(log: Log<V>, k: Key)
    requires Dense(log)
    ensures Numbered(History(log, k)) && MaxVersion(log, k) == |History(log, k)|
  {
    if log != [] {
      DenseHistory(log[..|log| - 1], k);
    }
  }

  lemma {:induction false} HistoryDense<V>(log: Log<V>)
    requires forall k {:trigger History(log, k)} :: Numbered(History(log, k))
    ensures Dense(log)
  {
    if log != [] {
      var n := |log| - 1;
      var r := log[n];
      forall k ensures Numbered(History(log[..n], k)) {
        var h := History(log, k);
        assert Numbered(h);
        assert log == log[..n] + [r];
        FilterSnoc(log[..n], r, OfKey(k));
        assert forall i :: 0 <= i < |History(log[..n], k)| ==> History(log[..n], k)[i] == h[i];
      }
      HistoryDense(log[..n]);
      DenseHistory(log[..n], r.key);
      var h := History(log, r.key);
      assert h == History(log[..n], r.key) + [r];
      assert h[|h| - 1] == r;
    }
  }

  /** Dense means: for every key the committed versions are exactly 1..n, in commit order. */
  lemma DenseIsNumbered<V>(log: Log<V>)
    ensures Dense(log) <==> forall k {:trigger History(log, k)} :: Numbered(History(log, k))
  {
    if Dense(log) {
      forall k ensures Numbered(History(log, k)) { DenseHistory(log, k); }
    } else if forall k {:trigger History(log, k)} :: Numbered(History(log, k)) {
      HistoryDense(log);
    }
  }

  lemma {:induction false} MaxBounds<V>(log: Log<V>, k: Key)
    ensures forall r :: r in log && r.key == k ==> r.version <= MaxVersion(log, k)
  {
    if log != [] {
      MaxBounds(log[..|log| - 1], k);
      assert log == log[..|log| - 1] + [log[|log| - 1]];
    }
  }

  lemma {:induction false} MaxMonotone<V>(log: Log<V>, n: nat, k: Key)
    requires n <= |log|
    ensures MaxVersion(log[..n], k) <= MaxVersion(log, k)
  {
    if n == |log| {
      assert log[..n] == log;
    } else {
      var init := log[..|log| - 1];
      MaxMonotone(init, n, k);
      assert init[..n] == log[..n];
    }
  }

  lemma {:induction false} DensePrefix<V>(log: Log<V>, n: nat)
    requires Dense(log) && n <= |log|
    ensures Dense(log[..n])
    ensures n < |log| ==> log[n].version == MaxVersion(log[..n], log[n].key) + 1
  {
    if n == |log| {
      assert log[..n] == log;
    } else {
      var init := log[..|log| - 1];
      if n < |init| {
        DensePrefix(init, n);
        assert init[..n] == log[..n];
      }
    }
  }

  lemma HasVersionSnoc<V>(log: Log<V>, r: Row<V>, k: Key, v: nat)
    ensures HasVersion(log + [r], k, v) <==> HasVersion(log, k, v) || (r.key == k && r.version == v)
  {
    var all := log + [r];
    if HasVersion(log, k, v) {
      var i :| 0 <= i < |log| && log[i].key == k && log[i].version == v;
      assert all[i] == log[i];
    }
    if r.key == k && r.version == v {
      assert all[|log|] == r;
    }
  }

  lemma MaxBoundsAt<V>(log: Log<V>, n: nat, i: nat)
    requires i < n <= |log|
    ensures log[i].version <= MaxVersion(log[..n], log[i].key)
  {
    MaxBounds(log[..n], log[i].key);
    assert log[..n][i] in log[..n];
  }

  /** In a dense table a version of a key exists exactly from 1 to the maximum. */
  lemma {:induction false} VersionsExact<V>(log: Log<V>, k: Key, v: nat)
    requires Dense(log)
    ensures HasVersion(log, k, v) <==> 1 <= v <= MaxVersion(log, k)
  {
    if log != [] {
      var n := |log| - 1;
      VersionsExact(log[..n], k, v);
      HasVersionSnoc(log[..n], log[n], k, v);
      assert log == log[..n] + [log[n]];
    }
  }

  /** (key, version) names at most one row of a dense table. */
  lemma UniqueVersion<V>(log: Log<V>, i: nat, j: nat)
    requires Dense(log) && i < |log| && j < |log|
    requires log[i].key == log[j].key && log[i].version == log[j].version
    ensures i == j
  {
    if i != j {
      var a, b := if i < j then i else j, if i < j then j else i;
      DensePrefix(log, b);
      MaxBoundsAt(log, b, a);
    }
  }

  /** The primary key turns a possibly stale next version into an exact one: the insert lands
      at the current maximum plus one or is rejected. */
  lemma InsertGuard<V>(log: Log<V>, row: Row<V>)
    requires Dense(log) && 1 <= row.version <= MaxVersion(log, row.key) + 1
    ensures TryInsert(log, row).Some? <==> row.version == MaxVersion(log, row.key) + 1
    ensures TryInsert(log, row).Some? ==> Dense(TryInsert(log, row).value)
  {
    VersionsExact(log, row.key, row.version);
    assert (log + [row])[..|log|] == log;
  }

  /** Version v of key k was committed at a position in [a, b). */
  ghost predicate CommittedBetween<V>(log: Log<V>, k: Key, a: nat, b: nat, v: nat)
    requires b <= |log|
  {
    exists j :: a <= j < b && log[j].key == k && log[j].version == v
  }

  /** The versions between the maximum at position c and a later row of the key are exactly the
      rows committed for that key in between. */
  lemma RowsBetween<V>(log: Log<V>, c: nat, i: nat, v: nat)
    requires Dense(log) && c <= i < |log|
    ensures log[i].version > MaxVersion(log[..c], log[i].key)
    ensures MaxVersion(log[..c], log[i].key) < v < log[i].version <==> CommittedBetween(log, log[i].key, c, i, v)
  {
    var k := log[i].key;
    DensePrefix(log, i);
    DensePrefix(log, c);
    MaxMonotone(log[..i], c, k);
    assert log[..i][..c] == log[..c];
    VersionsExact(log[..i], k, v);
    VersionsExact(log[..c], k, v);
    if MaxVersion(log[..c], k) < v < log[i].version {
      var j :| 0 <= j < i && log[..i][j].key == k && log[..i][j].version == v;
      assert log[j].key == k && log[j].version == v;
      if j < c { MaxBoundsAt(log, c, j); }
    }
    forall j | c <= j < i && log[j].key == k && log[j].version == v
      ensures MaxVersion(log[..c], k) < v < log[i].version
    {
      DensePrefix(log, j);
      MaxMonotone(log[..j], c, k);
      assert log[..j][..c] == log[..c];
      MaxBoundsAt(log, i, j);
    }
  }

  // --- Queries ---

  lemma {:induction false} KeepNewerMembers<V(!new)>(out: seq<Row<V>>, r: Row<V>)
    requires Sorted(out, RowKey)
    ensures Sorted(KeepNewer(out, r), RowKey)
    ensures forall y :: y in KeepNewer(out, r) <==>
      (y == r && forall x :: x in out && x.key == r.key ==> x.version < r.version)
      || (y in out && (y.key != r.key || y.version >= r.version))
  {
    if out != [] {
      var rest := out[1..];
      assert out == [out[0]] + rest;
      KeepNewerMembers(rest, r);
      forall y | y in rest ensures KeyLess(out[0].key, y.key) && y.key != out[0].key {
        KeyTrichotomy(out[0].key, out[0].key);
      }
      KeyTrichotomy(r.key, out[0].key);
      if KeyLess(r.key, out[0].key) {
        forall y | y in rest ensures KeyLess(r.key, y.key) && y.key != r.key {
          KeyTransitive(r.key, out[0].key, y.key);
          KeyTrichotomy(r.key, r.key);
        }
      }
    }
  }

  /** What DISTINCT ON returns, for any table: rows sorted by key, each the newest matching row of
      its key, and one for every key with a matching row. */
  lemma {:induction false} QueryMeaning<V(!new)>(log: Log<V>, f: Row<V> -> bool)
    ensures Sorted(Query(log, f), RowKey)
    ensures forall r :: r in Query(log, f) ==> r in log && f(r)
    ensures forall r, s :: r in Query(log, f) && s in log && f(s) && s.key == r.key ==> s.version <= r.version
    ensures forall s {:trigger HasKey(Query(log, f), s.key, RowKey)} ::
      s in log && f(s) ==> HasKey(Query(log, f), s.key, RowKey)
  {
    if log != [] {
      var n := |log| - 1;
      var us, r := log[..n], log[n];
      var prev, out := Query(us, f), Query(log, f);
      assert log == us + [r];
      QueryMeaning(us, f);
      if f(r) {
        KeepNewerMembers(prev, r);
        forall x, s | x in out && s in log && f(s) && s.key == x.key ensures s.version <= x.version {
          if x != r && s != r {
            assert x in prev && s in us;
          } else if x == r && s != r && r !in prev {
            assert HasKey(prev, s.key, RowKey);
            var y :| y in prev && RowKey(y) == s.key;
          }
        }
        forall s | s in log && f(s) ensures HasKey(out, s.key, RowKey) {
          if s.key == r.key {
            if x :| x in prev && x.key == r.key && x.version >= r.version {
              assert x in out;
            } else {
              assert r in out;
            }
          } else {
            assert HasKey(prev, s.key, RowKey);
            var x :| x in prev && RowKey(x) == s.key;
            assert x in out;
          }
        }
      }
    }
  }

  lemma {:induction false} KeepNewerIsUpsert<V(!new)>(out: seq<Row<V>>, r: Row<V>)
    requires forall x :: x in out && x.key == r.key ==> x.version < r.version
    ensures KeepNewer(out, r) == Upsert(out, r, RowKey)
  {
    if out != [] {
      assert out[0] in out;
      KeepNewerIsUpsert(out[1..], r);
    }
  }

  /** Snapshot refinement: on a dense table the newest-version query is the last-write-wins fold
      over the matching writes in commit order. */
  lemma {:induction false} QueryIsLastWins<V(!new)>(log: Log<V>, f: Row<V> -> bool)
    requires Dense(log)
    ensures Query(log, f) == LastWins(Filter(log, f), RowKey)
  {
    if log != [] {
      var n := |log| - 1;
      var r := log[n];
      QueryIsLastWins(log[..n], f);
      if f(r) {
        QueryMeaning(log[..n], f);
        MaxBounds(log[..n], r.key);
        KeepNewerIsUpsert(Query(log[..n], f), r);
        var fs := Filter(log[..n], f);
        assert (fs + [r])[..|fs|] == fs;
      }
    }
  }

  /** The simple map a table stands for: each write replaces the value of its key. */
  function WriteMap<V>(ws: seq<Row<V>>): map<Key, V> {
    if ws == [] then map[] else WriteMap(ws[..|ws| - 1])[ws[|ws| - 1].key := ws[|ws| - 1].val]
  }

  /** The snapshot holds exactly the entries of the last-write-wins map. */
  lemma {:induction false} SnapshotRefinesMap<V(!new)>(log: Log<V>, f: Row<V> -> bool)
    requires Dense(log)
    ensures forall r :: r in Query(log, f) ==>
      r.key in WriteMap(Filter(log, f)) && WriteMap(Filter(log, f))[r.key] == r.val
    ensures forall k {:trigger HasKey(Query(log, f), k, RowKey)} ::
      k in WriteMap(Filter(log, f)) ==> HasKey(Query(log, f), k, RowKey)
  {
    if log != [] {
      var n := |log| - 1;
      var r := log[n];
      SnapshotRefinesMap(log[..n], f);
      if f(r) {
        var prev, out := Query(log[..n], f), Query(log, f);
        QueryMeaning(log[..n], f);
        MaxBounds(log[..n], r.key);
        KeepNewerMembers(prev, r);
        assert r in out;
        var ws := Filter(log[..n], f);
        assert (ws + [r])[..|ws|] == ws;
        forall k | k in WriteMap(Filter(log, f)) ensures HasKey(out, k, RowKey) {
          if k != r.key {
            assert HasKey(prev, k, RowKey);
            var x :| x in prev && RowKey(x) == k;
            assert x in out;
          }
        }
      }
    }
  }

  /** GetNode and its siblings read the last committed write of the key. */
  lemma {:induction false} LatestRefinesMap<V>(log: Log<V>, k: Key)
    requires Dense(log)
    ensures Latest(log, k).Some? <==> k in WriteMap(log)
    ensures Latest(log, k).Some? ==>
      var r := Latest(log, k).value;
      r in log && r.key == k && r.version == MaxVersion(log, k) && r.val == WriteMap(log)[k]
    ensures Latest(log, k).None? ==> MaxVersion(log, k) == 0
  {
    if log != [] {
      LatestRefinesMap(log[..|log| - 1], k);
      assert log == log[..|log| - 1] + [log[|log| - 1]];
    }
  }

  /** f looks at the key only. */
  ghost predicate KeyOnly<V(!new)>(f: Row<V> -> bool) {
    forall r: Row<V>, s: Row<V> :: r.key == s.key ==> f(r) == f(s)
  }

  /** A filtered snapshot is never newer than the latest row, and shows the latest row of a key
      exactly when that row matches. */
  lemma FilteredLatest<V(!new)>(log: Log<V>, f: Row<V> -> bool, r: Row<V>)
    requires Dense(log) && r in Query(log, f)
    ensures Latest(log, r.key).Some? && r.version <= Latest(log, r.key).value.version
    ensures r == Latest(log, r.key).value <==> f(Latest(log, r.key).value)
  {
    QueryMeaning(log, f);
    LatestRefinesMap(log, r.key);
    MaxBounds(log, r.key);
    VersionsExact(log, r.key, 0);
    var i :| 0 <= i < |log| && log[i] == r;
    DensePrefix(log, i);
    if f(Latest(log, r.key).value) {
      var j :| 0 <= j < |log| && log[j] == Latest(log, r.key).value;
      UniqueVersion(log, i, j);
    }
  }

  /** Filtering on key columns commutes with taking the latest version. */
  lemma KeyFilterCommutes<V(!new)>(log: Log<V>, f: Row<V> -> bool, r: Row<V>)
    requires Dense(log) && KeyOnly(f)
    ensures r in Query(log, f) <==> f(r) && Latest(log, r.key) == Some(r)
  {
    QueryMeaning(log, f);
    if r in Query(log, f) {
      FilteredLatest(log, f, r);
      LatestRefinesMap(log, r.key);
    }
    if f(r) && Latest(log, r.key) == Some(r) {
      LatestRefinesMap(log, r.key);
      assert HasKey(Query(log, f), r.key, RowKey);
      var x :| x in Query(log, f) && RowKey(x) == r.key;
      FilteredLatest(log, f, x);
    }
  }

  /** Frame: rows that do not match leave the snapshot as it was. */
  lemma {:induction false} QueryFrame<V>(log: Log<V>, more: Log<V>, f: Row<V> -> bool)
    requires forall r :: r in more ==> !f(r)
    ensures Query(log + more, f) == Query(log, f)
  {
    if more == [] {
      assert log + more == log;
    } else {
      var n := |more| - 1;
      assert more[n] in more;
      QueryFrame(log, more[..n], f);
      assert (log + more)[..|log + more| - 1] == log + more[..n];
    }
  }

  lemma WritesKeepOrder<V(!new)>(ws: seq<Row<V>>)
    ensures KeepsOrder(ws, WriteOf, RowKey, WriteKey)
  {}

  /** Two dense tables with the same matching writes in the same order show the same snapshot, even
      when other writes of the same keys gave the rows other versions. */
  lemma SnapshotOfWrites<V(!new)>(log: Log<V>, log2: Log<V>, f: Row<V> -> bool)
    requires Dense(log) && Dense(log2)
    requires Map(Filter(log, f), WriteOf) == Map(Filter(log2, f), WriteOf)
    ensures Map(Query(log, f), WriteOf) == Map(Query(log2, f), WriteOf)
  {
    QueryIsLastWins(log, f);
    QueryIsLastWins(log2, f);
    WritesKeepOrder(Filter(log, f));
    WritesKeepOrder(Filter(log2, f));
    LastWinsMap(Filter(log, f), WriteOf, RowKey, WriteKey);
    LastWinsMap(Filter(log2, f), WriteOf, RowKey, WriteKey);
  }

  // --- Appending at the next version ---

  /** The row a put of v under k writes when nothing interleaves. */
  function NextRow<V>(log: Log<V>, k: Key, v: V): Row<V> { Row(k, MaxVersion(log, k) + 1, v) }

  /** A key and a value on their way into a table. */
  datatype Write<V> = Write(key: Key, val: V)

  function WriteKey<V>(w: Write<V>): Key { w.key }

  function WriteOf<V>(r: Row<V>): Write<V> { Write(r.key, r.val) }

  lemma NextRowDense<V>(log: Log<V>, k: Key, v: V)
    requires Dense(log)
    ensures Dense(log + [NextRow(log, k, v)])
  {
    assert (log + [NextRow(log, k, v)])[..|log|] == log;
  }

  /** A table is only ever extended: rows found by (key, version) stay. */
  lemma {:induction false} VersionRowStable<V>(log: Log<V>, more: Log<V>, k: Key, v: int)
    requires Dense(log + more) && VersionRow(log, k, v).Some?
    ensures VersionRow(log + more, k, v) == VersionRow(log, k, v)
  {
    if more == [] {
      assert log + more == log;
    } else {
      var n := |more| - 1;
      var all := log + more;
      assert all[..|all| - 1] == log + more[..n];
      VersionRowStable(log, more[..n], k, v);
      VersionRowMember(log + more[..n], k, v);
      MaxBounds(log + more[..n], k);
    }
  }

  lemma {:induction false} VersionRowMember<V>(log: Log<V>, k: Key, v: int)
    ensures VersionRow(log, k, v).Some? ==>
      VersionRow(log, k, v).value in log && VersionRow(log, k, v).value.key == k
        && VersionRow(log, k, v).value.version == v
    ensures VersionRow(log, k, v).Some? <==> v >= 0 && HasVersion(log, k, v)
  {
    if log != [] {
      var n := |log| - 1;
      VersionRowMember(log[..n], k, v);
      if v >= 0 {
        HasVersionSnoc(log[..n], log[n], k, v);
      }
      assert log == log[..n] + [log[n]];
    }
  }
}
