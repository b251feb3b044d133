/** Grouping the rows that belong to a contract version under a printed "id:version" key. */
module ContractKeys {
  import opened Basics

  function Digits(n: nat): string {
    if n < 10 then ["0123456789"[n]] else Digits(n / 10) + ["0123456789"[n % 10]]
  }

  /** fmt's %d */
  function Decimal(v: int): string { if v < 0 then "-" + Digits(-v) else Digits(v) }

  function ContractKey(id: string, version: int): string { id + ":" + Decimal(version) }

  /** Reading decimal digits back. */
  function NatOf(s: string): int {
    if s == [] then 0 else 10 * NatOf(s[..|s| - 1]) + (s[|s| - 1] as int - '0' as int)
  }

  lemma {:induction false} DigitsReadBack(n: nat)
    ensures NatOf(Digits(n)) == n
    ensures |Digits(n)| > 0 && forall c :: c in Digits(n) ==> '0' <= c <= '9'
  {
    if n < 10 {
      assert Digits(n)[..0] == [];
    } else {
      DigitsReadBack(n / 10);
      var d := Digits(n);
      assert d[..|d| - 1] == Digits(n / 10);
    }
  }

  lemma DecimalInjective(v: int, w: int)
    requires Decimal(v) == Decimal(w)
    ensures v == w
  {
    var a, b := if v < 0 then -v else v, if w < 0 then -w else w;
    DigitsReadBack(a);
    DigitsReadBack(b);
    assert Digits(a)[0] in Digits(a) && Digits(b)[0] in Digits(b);
    assert (v < 0) == (Decimal(v)[0] == '-') && (w < 0) == (Decimal(w)[0] == '-');
    if v < 0 {
      assert Decimal(v)[1..] == Digits(a) && Decimal(w)[1..] == Digits(b);
    }
  }

  lemma NoColonInDecimal(v: int)
    ensures ':' !in Decimal(v)
  {
    DigitsReadBack(if v < 0 then -v else v);
  }

  /** If two keys print alike, the version part of the second is no longer than that of the first. */
  lemma SameKeyLength(a: string, x: string, b: string, y: string)
    requires a + ":" + x == b + ":" + y && ':' !in y
    ensures |y| <= |x|
  {
    var s := a + ":" + x;
    assert s[|a|] == ':';
    forall i | |b| < i < |s| ensures s[i] != ':' {
      assert s[i] == y[i - |b| - 1];
    }
  }

  /** The printed key names one contract version: no two (id, version) pairs share it. */
  lemma ContractKeyInjective(a: string, v: int, b: string, w: int)
    ensures ContractKey(a, v) == ContractKey(b, w) <==> a == b && v == w
  {
    if ContractKey(a, v) == ContractKey(b, w) {
      NoColonInDecimal(v);
      NoColonInDecimal(w);
      SameKeyLength(a, Decimal(v), b, Decimal(w));
      SameKeyLength(b, Decimal(w), a, Decimal(v));
      var s := ContractKey(a, v);
      assert s[..|a|] == a && s[..|b|] == b && s[|a| + 1..] == Decimal(v) && s[|b| + 1..] == Decimal(w);
      DecimalInjective(v, w);
    }
  }

  // --- grouping ---

  /** A selected row: the contract version it belongs to and what it carries. */
  datatype Tagged<T> = Tagged(contract: string, version: int, item: T)

  function ItemOf<T>(r: Tagged<T>): T { r.item }

  function BelongsTo<T>(id: string, version: int): Tagged<T> -> bool {
    (r: Tagged<T>) => r.contract == id && r.version == version
  }

  /** The items of one contract version, in row order. */
  function ItemsOf<T>(rows: seq<Tagged<T>>, id: string, version: int): seq<T> {
    Map(Filter(rows, BelongsTo(id, version)), ItemOf)
  }

  /** Reading a missing key of a Go map of slices gives the nil slice. */
  function Group<T>(m: map<string, seq<T>>, k: string): seq<T> { if k in m then m[k] else [] }

  ghost predicate Grouped<T(!new)>(m: map<string, seq<T>>, rows: seq<Tagged<T>>) {
    forall id, v {:trigger ContractKey(id, v)} :: Group(m, ContractKey(id, v)) == ItemsOf(rows, id, v)
  }

  lemma GroupStep<T(!new)>(m: map<string, seq<T>>, rows: seq<Tagged<T>>, r: Tagged<T>)
    requires Grouped(m, rows)
    ensures var k := ContractKey(r.contract, r.version);
      Grouped(m[k := Group(m, k) + [r.item]], rows + [r])
  {
    var k := ContractKey(r.contract, r.version);
    var m' := m[k := Group(m, k) + [r.item]];
    forall id, v ensures Group(m', ContractKey(id, v)) == ItemsOf(rows + [r], id, v) {
      ContractKeyInjective(id, v, r.contract, r.version);
      assert Group(m, ContractKey(id, v)) == ItemsOf(rows, id, v);
      FilterSnoc(rows, r, BelongsTo(id, v));
      MapSnoc(Filter(rows, BelongsTo<T>(id, v)), r, ItemOf);
    }
  }

  /** The number of items in all groups together. */
  ghost function Total<T>(m: map<string, seq<T>>): nat
    decreases |m|
  {
    if m == map[] then 0
    else
      var k :| k in m;
      |m[k]| + Total(m - {k})
  }

  lemma {:induction false} TotalPick<T>(m: map<string, seq<T>>, k: string)
    requires k in m
    ensures Total(m) == |m[k]| + Total(m - {k})
    decreases |m|
  {
    var j :| j in m && Total(m) == |m[j]| + Total(m - {j});
    if j != k {
      TotalPick(m - {j}, k);
      TotalPick(m - {k}, j);
      assert m - {j} - {k} == m - {k} - {j};
    }
  }

  lemma TotalAppend<T>(m: map<string, seq<T>>, k: string, x: T)
    ensures Total(m[k := Group(m, k) + [x]]) == Total(m) + 1
  {
    var m' := m[k := Group(m, k) + [x]];
    TotalPick(m', k);
    if k in m {
      TotalPick(m, k);
      assert m' - {k} == m - {k};
    } else {
      assert m' - {k} == m;
    }
  }

  /** The loop of loadReasons and loadObligations: every row lands in the group of its own contract
      version and in no other, in order, and no row is lost or counted twice. */
  method GroupByContract<T(!new)>(rows: seq<Tagged<T>>) returns (out: map<string, seq<T>>)
    ensures Grouped(out, rows)
    ensures Total(out) == |rows|
  {
    out := map[];
    for i := 0 to |rows|
      invariant Grouped(out, rows[..i])
      invariant Total(out) == i
    {
      var k := ContractKey(rows[i].contract, rows[i].version);
      assert rows[..i + 1] == rows[..i] + [rows[i]];
      GroupStep(out, rows[..i], rows[i]);
      TotalAppend(out, k, rows[i].item);
      out := out[k := Group(out, k) + [rows[i].item]];
    }
    assert rows[..|rows|] == rows;
  }
}
