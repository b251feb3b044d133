/** The order in which queries return rows, and sorted last-write-wins lists over it. */
module Ordering {
  import opened Basics

  /** The columns of a primary key, without the version, in index order. */
  type Key = seq<string>

  predicate StrLess(a: string, b: string) {
    if b == [] then false
    else if a == [] then true
    else if a[0] == b[0] then StrLess(a[1..], b[1..])
    else a[0] < b[0]
  }

  predicate KeyLess(a: Key, b: Key) {
    if b == [] then false
    else if a == [] then true
    else if a[0] == b[0] then KeyLess(a[1..], b[1..])
    else StrLess(a[0], b[0])
  }

  lemma {:induction false} StrTrichotomy(a: string, b: string)
    ensures !StrLess(a, a)
    ensures StrLess(a, b) || a == b || StrLess(b, a)
    ensures !(StrLess(a, b) && StrLess(b, a))
  {
    if a != [] {
      StrTrichotomy(a[1..], if b == [] then [] else b[1..]);
      if b != [] && a[0] == b[0] && a[1..] == b[1..] {
        assert a == [a[0]] + a[1..] == b;
      }
    }
  }

  lemma {:induction false} StrTransitive(a: string, b: string, c: string)
    requires StrLess(a, b) && StrLess(b, c)
    ensures StrLess(a, c)
  {
    if a != [] && a[0] == b[0] == c[0] {
      StrTransitive(a[1..], b[1..], c[1..]);
    }
  }

  lemma {:induction false} KeyTrichotomy(a: Key, b: Key)
    ensures !KeyLess(a, a)
    ensures KeyLess(a, b) || a == b || KeyLess(b, a)
    ensures !(KeyLess(a, b) && KeyLess(b, a))
  {
    if a != [] {
      KeyTrichotomy(a[1..], if b == [] then [] else b[1..]);
      if b != [] {
        StrTrichotomy(a[0], b[0]);
        if a[0] == b[0] && a[1..] == b[1..] {
          assert a == [a[0]] + a[1..] == b;
        }
      }
    }
  }

  lemma {:induction false} KeyTransitive(a: Key, b: Key, c: Key)
    requires KeyLess(a, b) && KeyLess(b, c)
    ensures KeyLess(a, c)
  {
    if a != [] {
      if a[0] == b[0] == c[0] {
        KeyTransitive(a[1..], b[1..], c[1..]);
      } else if a[0] != b[0] && b[0] != c[0] {
        StrTransitive(a[0], b[0], c[0]);
        StrTrichotomy(a[0], c[0]);
      }
    }
  }

  /** Rows with strictly increasing keys: sorted, and no key twice. */
  ghost predicate Sorted<T>(xs: seq<T>, key: T -> Key) {
    forall i, j :: 0 <= i < j < |xs| ==> KeyLess(key(xs[i]), key(xs[j]))
  }

  /** ws[i] is the last element of ws with its key. */
  ghost predicate LastAt<T>(ws: seq<T>, i: int, key: T -> Key) {
    && 0 <= i < |ws|
    && forall j :: i < j < |ws| ==> key(ws[j]) != key(ws[i])
  }

  /** x is the last element of ws with its key. */
  ghost predicate LastWrite<T>(ws: seq<T>, x: T, key: T -> Key) {
    exists i :: LastAt(ws, i, key) && ws[i] == x
  }

  ghost predicate HasKey<T(!new)>(xs: seq<T>, k: Key, key: T -> Key) {
    exists x :: x in xs && key(x) == k
  }

  /** xs holds exactly the last element of ws for each key of ws, sorted by key. */
  ghost predicate Canonical<T(!new)>(xs: seq<T>, ws: seq<T>, key: T -> Key) {
    && Sorted(xs, key)
    && (forall x {:trigger LastWrite(ws, x, key)} :: x in xs ==> LastWrite(ws, x, key))
    && (forall w {:trigger HasKey(xs, key(w), key)} :: w in ws ==> HasKey(xs, key(w), key))
  }

  /** Put x into a sorted list, replacing the element with the same key. */
  function Upsert<T>(xs: seq<T>, x: T, key: T -> Key): seq<T> {
    if xs == [] then [x]
    else if key(x) == key(xs[0]) then [x] + xs[1..]
    else if KeyLess(key(x), key(xs[0])) then [x] + xs
    else [xs[0]] + Upsert(xs[1..], x, key)
  }

  /** All of ws written in order, the last write of each key winning. */
  function LastWins<T>(ws: seq<T>, key: T -> Key): seq<T> {
    if ws == [] then [] else Upsert(LastWins(ws[..|ws| - 1], key), ws[|ws| - 1], key)
  }

  lemma {:induction false} UpsertMembers<T(!new)>(xs: seq<T>, x: T, key: T -> Key)
    requires Sorted(xs, key)
    ensures Sorted(Upsert(xs, x, key), key)
    ensures forall y :: y in Upsert(xs, x, key) <==> y == x || (y in xs && key(y) != key(x))
  {
    if xs != [] {
      var rest := xs[1..];
      assert xs == [xs[0]] + rest;
      UpsertMembers(rest, x, key);
      forall y | y in rest ensures KeyLess(key(xs[0]), key(y)) && key(y) != key(xs[0]) {
        KeyTrichotomy(key(xs[0]), key(xs[0]));
      }
      KeyTrichotomy(key(x), key(xs[0]));
      if KeyLess(key(x), key(xs[0])) {
        forall y | y in rest ensures KeyLess(key(x), key(y)) && key(y) != key(x) {
          KeyTransitive(key(x), key(xs[0]), key(y));
          KeyTrichotomy(key(x), key(x));
        }
      }
    }
  }

  lemma UpsertCanonical<T(!new)>(ys: seq<T>, us: seq<T>, x: T, key: T -> Key)
    requires Canonical(ys, us, key)
    ensures Canonical(Upsert(ys, x, key), us + [x], key)
  {
    var zs, ws := Upsert(ys, x, key), us + [x];
    UpsertMembers(ys, x, key);
    forall z | z in zs ensures LastWrite(ws, z, key) {
      if z == x {
        assert LastAt(ws, |us|, key);
      } else {
        assert LastWrite(us, z, key);
        var i :| LastAt(us, i, key) && us[i] == z;
        assert LastAt(ws, i, key) && ws[i] == z;
      }
    }
    forall w | w in ws ensures HasKey(zs, key(w), key) {
      if key(w) == key(x) {
        assert x in zs;
      } else {
        assert HasKey(ys, key(w), key);
        var y :| y in ys && key(y) == key(w);
        assert y in zs;
      }
    }
  }

  /** The fold keeps exactly the last write of each key, sorted. */
  lemma {:induction false} LastWinsCanonical<T(!new)>(ws: seq<T>, key: T -> Key)
    ensures Canonical(LastWins(ws, key), ws, key)
  {
    if ws != [] {
      var n := |ws| - 1;
      LastWinsCanonical(ws[..n], key);
      UpsertCanonical(LastWins(ws[..n], key), ws[..n], ws[n], key);
      assert ws == ws[..n] + [ws[n]];
    }
  }

  lemma SomeMember<T(!new)>(xs: seq<T>)
    ensures xs == [] || exists x :: x in xs
  {
    if xs != [] {
      assert xs[0] in xs;
    }
  }

  lemma {:induction false} SortedSameElements<T(!new)>(xs: seq<T>, ys: seq<T>, key: T -> Key)
    requires Sorted(xs, key) && Sorted(ys, key)
    requires forall x :: x in xs <==> x in ys
    ensures xs == ys
  {
    if xs != [] {
      assert xs[0] in ys;
      KeyTrichotomy(key(xs[0]), key(ys[0]));
      assert xs[0] == ys[0] by { assert ys[0] in xs; }
      forall x ensures x in xs[1..] <==> x in ys[1..] {
        KeyTrichotomy(key(xs[0]), key(xs[0]));
        assert x in xs <==> x == xs[0] || x in xs[1..] by { assert xs == [xs[0]] + xs[1..]; }
        assert x in ys <==> x == ys[0] || x in ys[1..] by { assert ys == [ys[0]] + ys[1..]; }
      }
      SortedSameElements(xs[1..], ys[1..], key);
      assert xs == [xs[0]] + xs[1..] && ys == [ys[0]] + ys[1..];
    } else {
      SomeMember(ys);
    }
  }

  /** A write list has one canonical form. */
  lemma CanonicalUnique<T(!new)>(xs: seq<T>, ys: seq<T>, ws: seq<T>, key: T -> Key)
    requires Canonical(xs, ws, key) && Canonical(ys, ws, key)
    ensures xs == ys
  {
    CanonicalIncluded(xs, ys, ws, key);
    CanonicalIncluded(ys, xs, ws, key);
    SortedSameElements(xs, ys, key);
  }

  lemma CanonicalIncluded<T(!new)>(xs: seq<T>, ys: seq<T>, ws: seq<T>, key: T -> Key)
    requires Canonical(xs, ws, key) && Canonical(ys, ws, key)
    ensures forall x :: x in xs ==> x in ys
  {
    forall x | x in xs ensures x in ys {
      assert LastWrite(ws, x, key);
      var i :| LastAt(ws, i, key) && ws[i] == x;
      assert HasKey(ys, key(ws[i]), key);
      var y :| y in ys && key(y) == key(x);
      assert LastWrite(ws, y, key);
      var j :| LastAt(ws, j, key) && ws[j] == y;
      assert i == j;
    }
  }

  /** A sorted list is its own canonical form. */
  lemma SortedIsCanonical<T(!new)>(xs: seq<T>, key: T -> Key)
    requires Sorted(xs, key)
    ensures LastWins(xs, key) == xs
  {
    forall x | x in xs ensures LastWrite(xs, x, key) {
      var i :| 0 <= i < |xs| && xs[i] == x;
      forall j | i < j < |xs| ensures key(xs[j]) != key(xs[i]) {
        KeyTrichotomy(key(xs[i]), key(xs[i]));
      }
      assert LastAt(xs, i, key);
    }
    assert forall w :: w in xs ==> HasKey(xs, key(w), key);
    LastWinsCanonical(xs, key);
    CanonicalUnique(LastWins(xs, key), xs, xs, key);
  }

  ghost predicate SameOrder<T, U>(a: T, b: T, g: T -> U, keyT: T -> Key, keyU: U -> Key) {
    && (KeyLess(keyT(a), keyT(b)) <==> KeyLess(keyU(g(a)), keyU(g(b))))
    && (keyT(a) == keyT(b) <==> keyU(g(a)) == keyU(g(b)))
  }

  /** g carries the order of keyT to the order of keyU on everything it is applied to. */
  ghost predicate KeepsOrder<T(!new), U>(ws: seq<T>, g: T -> U, keyT: T -> Key, keyU: U -> Key) {
    forall a, b {:trigger SameOrder(a, b, g, keyT, keyU)} :: a in ws && b in ws ==> SameOrder(a, b, g, keyT, keyU)
  }

  lemma MapCons<T, U>(x: T, xs: seq<T>, g: T -> U)
    ensures Map([x] + xs, g) == [g(x)] + Map(xs, g)
  {}

  lemma {:induction false} UpsertMap<T(!new), U>(xs: seq<T>, x: T, g: T -> U, keyT: T -> Key, keyU: U -> Key)
    requires KeepsOrder(xs + [x], g, keyT, keyU)
    ensures Map(Upsert(xs, x, keyT), g) == Upsert(Map(xs, g), g(x), keyU)
  {
    if xs != [] {
      var rest := xs[1..];
      assert xs == [xs[0]] + rest;
      assert SameOrder(x, xs[0], g, keyT, keyU);
      assert KeepsOrder(rest + [x], g, keyT, keyU);
      UpsertMap(rest, x, g, keyT, keyU);
      MapCons(xs[0], rest, g);
      MapCons(x, rest, g);
      MapCons(x, xs, g);
      MapCons(xs[0], Upsert(rest, x, keyT), g);
      assert Map(xs, g)[1..] == Map(rest, g);
    }
  }

  /** Projecting rows commutes with last-write-wins when the projection keeps the key order. */
  lemma {:induction false} LastWinsMap<T(!new), U>(ws: seq<T>, g: T -> U, keyT: T -> Key, keyU: U -> Key)
    requires KeepsOrder(ws, g, keyT, keyU)
    ensures Map(LastWins(ws, keyT), g) == LastWins(Map(ws, g), keyU)
  {
    if ws != [] {
      var n := |ws| - 1;
      LastWinsMap(ws[..n], g, keyT, keyU);
      LastWinsCanonical(ws[..n], keyT);
      forall a | a in LastWins(ws[..n], keyT) ensures a in ws {
        assert LastWrite(ws[..n], a, keyT);
      }
      UpsertMap(LastWins(ws[..n], keyT), ws[n], g, keyT, keyU);
      assert Map(ws, g)[..n] == Map(ws[..n], g);
    }
  }
}
