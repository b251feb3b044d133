/** Implied edges: two-step chains whose direct provides edge is missing. */
module Implied {
  import opened Basics
  import opened Digraphs
  import opened Frontier

  datatype Basis = ViaRequirement | ViaDelegation

  /** An edge of type provides that the rules imply. */
  datatype ImpliedEdge = ImpliedEdge(from: string, to: string, basis: Basis, via: string, viaType: string)

  function Implies(nodes: seq<GNode>, basis: Basis, a: string, via: string, d: string): ImpliedEdge {
    ImpliedEdge(a, d, basis, via, TypeOf(nodes, via))
  }

  function IsRow(typ: string, from: string, to: string): GEdge -> bool {
    (e: GEdge) => e.typ == typ && e.from == from && e.to == to
  }

  /** How many rows of this type join the two nodes. */
  function Rows(edges: seq<GEdge>, typ: string, from: string, to: string): nat { |Filter(edges, IsRow(typ, from, to))| }

  predicate HasRow(edges: seq<GEdge>, typ: string, from: string, to: string) {
    exists e :: e in edges && e.typ == typ && e.from == from && e.to == to
  }

  lemma RowsPositive(edges: seq<GEdge>, typ: string, from: string, to: string)
    ensures Rows(edges, typ, from, to) > 0 <==> HasRow(edges, typ, from, to)
  {
    var f := IsRow(typ, from, to);
    FilterMembers(edges, f);
    if HasRow(edges, typ, from, to) {
      var e :| e in edges && e.typ == typ && e.from == from && e.to == to;
      assert e in Filter(edges, f);
    } else {
      FilterNone(edges, f);
    }
  }

  // --- exactness ---

  /** How often each chain is reported: once for every pair of rows that makes it up, unless the
      direct edge exists. AllPathsBetween finds a path for every chain with different ends; whether
      it finds one from a node to itself is the library's convention, selfPath. */
  function RequirementCount(edges: seq<GEdge>, selfPath: string -> bool, a: string, c: string, d: string): nat {
    if HasRow(edges, "provides", a, d) || (a == d && !selfPath(a)) then 0
    else Rows(edges, "provides", a, c) * Rows(edges, "requires", c, d)
  }

  function DelegationCount(edges: seq<GEdge>, a: string, via: string, c: string): nat {
    if HasRow(edges, "provides", a, c) then 0
    else Rows(edges, "can_delegate_to", a, via) * Rows(edges, "provides", via, c)
  }

  /** The output as a multiset: exactly the chains of the two rules, with their multiplicities. */
  ghost predicate Exact(implied: seq<ImpliedEdge>, nodes: seq<GNode>, edges: seq<GEdge>, selfPath: string -> bool) {
    && (forall a, c, d {:trigger RequirementCount(edges, selfPath, a, c, d)} ::
          multiset(implied)[Implies(nodes, ViaRequirement, a, c, d)] == RequirementCount(edges, selfPath, a, c, d))
    && (forall a, v, c {:trigger DelegationCount(edges, a, v, c)} ::
          multiset(implied)[Implies(nodes, ViaDelegation, a, v, c)] == DelegationCount(edges, a, v, c))
    && (forall e :: e in implied ==> e == Implies(nodes, e.basis, e.from, e.via, e.to))
  }

  /** Exactness fixes the multiset, so the order in which maps are walked does not matter. */
  lemma ExactIsUnique(xs: seq<ImpliedEdge>, ys: seq<ImpliedEdge>, nodes: seq<GNode>, edges: seq<GEdge>,
      selfPath: string -> bool)
    requires Exact(xs, nodes, edges, selfPath) && Exact(ys, nodes, edges, selfPath)
    ensures multiset(xs) == multiset(ys)
  {
    forall e ensures multiset(xs)[e] == multiset(ys)[e] {
      ExactCount(xs, nodes, edges, selfPath, e);
      ExactCount(ys, nodes, edges, selfPath, e);
    }
  }

  lemma ExactCount(xs: seq<ImpliedEdge>, nodes: seq<GNode>, edges: seq<GEdge>, selfPath: string -> bool, e: ImpliedEdge)
    requires Exact(xs, nodes, edges, selfPath)
    ensures multiset(xs)[e] ==
      if e != Implies(nodes, e.basis, e.from, e.via, e.to) then 0
      else if e.basis.ViaRequirement? then RequirementCount(edges, selfPath, e.from, e.via, e.to)
      else DelegationCount(edges, e.from, e.via, e.to)
  {
    var n1, n2 := RequirementCount(edges, selfPath, e.from, e.via, e.to), DelegationCount(edges, e.from, e.via, e.to);
    if multiset(xs)[e] > 0 {
      assert e in xs;
    }
  }

  /** The rows that make up a reported edge, and the direct row that is missing. */
  ghost predicate IsChain(edges: seq<GEdge>, basis: Basis, a: string, via: string, d: string) {
    && !HasRow(edges, "provides", a, d)
    && match basis
       case ViaRequirement => HasRow(edges, "provides", a, via) && HasRow(edges, "requires", via, d)
       case ViaDelegation => HasRow(edges, "can_delegate_to", a, via) && HasRow(edges, "provides", via, d)
  }

  ghost predicate Reports(implied: seq<ImpliedEdge>, basis: Basis, a: string, via: string, d: string) {
    exists e :: e in implied && e.basis == basis && e.from == a && e.via == via && e.to == d
  }

  /** Field by field: an edge from a to d over via is reported for a rule iff that rule's two rows exist and
      the direct one does not (for the requirement rule from a node to itself, if the library finds that
      path), and the type it carries is that of the via node. */
  lemma ReportedFields(implied: seq<ImpliedEdge>, nodes: seq<GNode>, edges: seq<GEdge>, selfPath: string -> bool)
    requires Exact(implied, nodes, edges, selfPath) && DistinctIds(nodes)
    ensures forall basis, a, via, d :: Reports(implied, basis, a, via, d) <==>
      IsChain(edges, basis, a, via, d) && (basis.ViaRequirement? && a == d ==> selfPath(a))
    ensures forall e, n :: e in implied && n in nodes && n.id == e.via ==> e.viaType == n.typ
  {
    forall basis, a, via, d
      ensures Reports(implied, basis, a, via, d) <==>
        IsChain(edges, basis, a, via, d) && (basis.ViaRequirement? && a == d ==> selfPath(a))
    {
      ReportedIff(implied, nodes, edges, selfPath, basis, a, via, d);
    }
    forall e, n | e in implied && n in nodes && n.id == e.via ensures e.viaType == n.typ {
      var i :| 0 <= i < |nodes| && nodes[i] == n;
      TypeOfMember(nodes, i);
      assert e == Implies(nodes, e.basis, e.from, e.via, e.to);
    }
  }

  lemma ReportedIff(implied: seq<ImpliedEdge>, nodes: seq<GNode>, edges: seq<GEdge>, selfPath: string -> bool,
                    basis: Basis, a: string, via: string, d: string)
    requires Exact(implied, nodes, edges, selfPath)
    ensures Reports(implied, basis, a, via, d) <==>
      IsChain(edges, basis, a, via, d) && (basis.ViaRequirement? && a == d ==> selfPath(a))
  {
    var e := Implies(nodes, basis, a, via, d);
    ExactCount(implied, nodes, edges, selfPath, e);
    if Reports(implied, basis, a, via, d) {
      var x :| x in implied && x.basis == basis && x.from == a && x.via == via && x.to == d;
      assert x == e;
    }
    assert e in implied <==> multiset(implied)[e] > 0;
    var m, n := if basis.ViaRequirement? then Rows(edges, "provides", a, via)
      else Rows(edges, "can_delegate_to", a, via),
                if basis.ViaRequirement? then Rows(edges, "requires", via, d) else Rows(edges, "provides", via, d);
    RowsPositive(edges, "provides", a, via);
    RowsPositive(edges, "requires", via, d);
    RowsPositive(edges, "can_delegate_to", a, via);
    RowsPositive(edges, "provides", via, d);
    ZeroProduct(m, n);
    if m > 0 && n > 0 { PositiveProduct(m, n); }
  }

  // --- one report for every pair of rows ---

  ghost function Places(edges: seq<GEdge>, typ: string, from: string, to: string): set<int> {
    set i | 0 <= i < |edges| && edges[i].typ == typ && edges[i].from == from && edges[i].to == to
  }

  lemma PlacesSnoc(edges: seq<GEdge>, e: GEdge, typ: string, from: string, to: string)
    ensures Places(edges + [e], typ, from, to) ==
      if IsRow(typ, from, to)(e) then Places(edges, typ, from, to) + {|edges|} else Places(edges, typ, from, to)
  {}

  lemma {:induction false} RowsArePlaces(edges: seq<GEdge>, typ: string, from: string, to: string)
    ensures Rows(edges, typ, from, to) == |Places(edges, typ, from, to)|
  {
    if edges != [] {
      var us, e := edges[..|edges| - 1], edges[|edges| - 1];
      RowsArePlaces(us, typ, from, to);
      assert edges == us + [e];
      PlacesSnoc(us, e, typ, from, to);
      FilterSnoc(us, e, IsRow(typ, from, to));
    }
  }

  ghost function Pairs<T, U>(xs: set<T>, ys: set<U>): set<(T, U)> { set x, y | x in xs && y in ys :: (x, y) }
  ghost function PairsOf<T, U>(a: T, ys: set<U>): set<(T, U)> { set y | y in ys :: (a, y) }

  lemma PairsSplit<T, U>(xs: set<T>, ys: set<U>, a: T)
    requires a in xs
    ensures Pairs(xs, ys) == Pairs(xs - {a}, ys) + PairsOf(a, ys) && Pairs(xs - {a}, ys) !! PairsOf(a, ys)
  {}

  lemma {:induction false} PairCount<T, U>(xs: set<T>, ys: set<U>)
    ensures |Pairs(xs, ys)| == |xs| * |ys|
  {
    if a :| a in xs {
      PairCount(xs - {a}, ys);
      PairsSplit(xs, ys, a);
      PairsOfCount(a, ys);
      Distribute(|xs - {a}|, |ys|);
    } else {
      assert xs == {} && Pairs(xs, ys) == {};
    }
  }

  lemma Distribute(m: nat, n: nat)
    ensures (m + 1) * n == m * n + n
  {}

  lemma {:induction false} PairsOfCount<T, U>(a: T, ys: set<U>)
    ensures |PairsOf(a, ys)| == |ys|
  {
    if b :| b in ys {
      PairsOfCount(a, ys - {b});
      assert PairsOf(a, ys) == PairsOf(a, ys - {b}) + {(a, b)};
    } else {
      assert ys == {} && PairsOf(a, ys) == {};
    }
  }

  /** A missing edge between different nodes is reported once for every pair of rows that makes it up. */
  lemma EachPairOnce(implied: seq<ImpliedEdge>, nodes: seq<GNode>, edges: seq<GEdge>, selfPath: string -> bool,
      basis: Basis, a: string, via: string, d: string)
    requires Exact(implied, nodes, edges, selfPath) && a != d && !HasRow(edges, "provides", a, d)
    ensures
      var firsts := Places(edges, if basis.ViaRequirement? then "provides" else "can_delegate_to", a, via);
      var seconds := Places(edges, if basis.ViaRequirement? then "requires" else "provides", via, d);
      multiset(implied)[Implies(nodes, basis, a, via, d)] == |Pairs(firsts, seconds)|
  {
    var first, second := if basis.ViaRequirement? then "provides" else "can_delegate_to",
                         if basis.ViaRequirement? then "requires" else "provides";
    ExactCount(implied, nodes, edges, selfPath, Implies(nodes, basis, a, via, d));
    RowsArePlaces(edges, first, a, via);
    RowsArePlaces(edges, second, via, d);
    PairCount(Places(edges, first, a, via), Places(edges, second, via, d));
  }

  /** provides is closed under both rules. */
  ghost predicate ClosedUnderRules(edges: seq<GEdge>, selfPath: string -> bool) {
    && (forall a, c, d :: HasRow(edges, "provides", a, c) && HasRow(edges, "requires", c, d) && (a != d || selfPath(a))
          ==> HasRow(edges, "provides", a, d))
    && (forall a, v, c :: HasRow(edges, "can_delegate_to", a, v) && HasRow(edges, "provides", v, c) ==>
         HasRow(edges, "provides", a, c))
  }

  /** Nothing is implied iff provides is closed under both rules. */
  lemma EmptyIffClosed(implied: seq<ImpliedEdge>, nodes: seq<GNode>, edges: seq<GEdge>, selfPath: string -> bool)
    requires Exact(implied, nodes, edges, selfPath)
    ensures implied == [] <==> ClosedUnderRules(edges, selfPath)
  {
    if implied == [] {
      forall a, c, d | HasRow(edges, "provides", a, c) && HasRow(edges, "requires", c, d) && (a != d || selfPath(a))
        ensures HasRow(edges, "provides", a, d)
      {
        RowsPositive(edges, "provides", a, c);
        RowsPositive(edges, "requires", c, d);
        assert RequirementCount(edges, selfPath, a, c, d) == 0;
        PositiveProduct(Rows(edges, "provides", a, c), Rows(edges, "requires", c, d));
      }
      forall a, v, c | HasRow(edges, "can_delegate_to", a, v) && HasRow(edges, "provides", v, c)
        ensures HasRow(edges, "provides", a, c)
      {
        RowsPositive(edges, "can_delegate_to", a, v);
        RowsPositive(edges, "provides", v, c);
        assert DelegationCount(edges, a, v, c) == 0;
        PositiveProduct(Rows(edges, "can_delegate_to", a, v), Rows(edges, "provides", v, c));
      }
    } else if ClosedUnderRules(edges, selfPath) {
      var e := implied[0];
      assert e in implied && multiset(implied)[e] > 0;
      ExactCount(implied, nodes, edges, selfPath, e);
      RowsPositive(edges, "provides", e.from, e.via);
      RowsPositive(edges, "requires", e.via, e.to);
      RowsPositive(edges, "can_delegate_to", e.from, e.via);
      RowsPositive(edges, "provides", e.via, e.to);
      ZeroProduct(Rows(edges, "provides", e.from, e.via), Rows(edges, "requires", e.via, e.to));
      ZeroProduct(Rows(edges, "can_delegate_to", e.from, e.via), Rows(edges, "provides", e.via, e.to));
    }
  }

  lemma PositiveProduct(x: nat, y: nat)
    requires x > 0 && y > 0
    ensures x * y > 0
  {}

  lemma ZeroProduct(x: nat, y: nat)
    ensures x == 0 || y == 0 ==> x * y == 0
  {}

  // --- paths ---

  ghost predicate SimplePath(arcs: set<(string, string)>, p: seq<string>, u: string, v: string) {
    Walk(arcs, p) && NoRepeats(p) && p[0] == u && p[|p| - 1] == v
  }

  /** What AllPathsBetween answers between different nodes; from a node to itself it is left open. */
  ghost predicate FindsPaths(arcs: set<(string, string)>, hasPath: (string, string) -> bool) {
    forall u, v :: u != v ==> (hasPath(u, v) <==> exists p :: SimplePath(arcs, p, u, v))
  }

  /** The path check never drops a chain with different ends. */
  lemma ChainHasPath(arcs: set<(string, string)>, hasPath: (string, string) -> bool, a: string, c: string, d: string)
    requires FindsPaths(arcs, hasPath) && (a, c) in arcs && (c, d) in arcs && a != d
    ensures hasPath(a, d)
  {
    var p := if c == a || c == d then [a, d] else [a, c, d];
    assert SimplePath(arcs, p, a, d);
  }

  // --- detectImpliedEdges ---

  type Links = map<string, seq<string>>

  /** The links of one type, as often as rows have them. */
  ghost predicate Counts(m: Links, edges: seq<GEdge>, typ: string) {
    forall a, c {:trigger Rows(edges, typ, a, c)} :: multiset(At(m, a))[c] == Rows(edges, typ, a, c)
  }

  function Linked(m: Links, e: GEdge): Links { m[e.from := At(m, e.from) + [e.to]] }

  lemma LinkedCountAt(m: Links, edges: seq<GEdge>, typ: string, e: GEdge, a: string, c: string)
    requires multiset(At(m, a))[c] == Rows(edges, typ, a, c)
    ensures multiset(At(if e.typ == typ then Linked(m, e) else m, a))[c] == Rows(edges + [e], typ, a, c)
  {
    FilterSnoc(edges, e, IsRow(typ, a, c));
    if e.typ == typ && e.from == a {
      assert At(Linked(m, e), a) == At(m, a) + [e.to];
      assert multiset(At(m, a) + [e.to])[c] == multiset(At(m, a))[c] + if e.to == c then 1 else 0;
    }
  }

  lemma LinkedCounts(m: Links, edges: seq<GEdge>, typ: string, e: GEdge)
    requires Counts(m, edges, typ)
    ensures Counts(if e.typ == typ then Linked(m, e) else m, edges + [e], typ)
  {
    forall a, c ensures multiset(At(if e.typ == typ then Linked(m, e) else m, a))[c] == Rows(edges + [e], typ, a, c) {
      assert multiset(At(m, a))[c] == Rows(edges, typ, a, c);
      LinkedCountAt(m, edges, typ, e, a, c);
    }
  }

  method IndexLinks(edges: seq<GEdge>)
      returns (edgeSet: set<(string, string, string)>, providers: Links, needs: Links, delegates: Links)
    ensures forall a, d, t :: (a, d, t) in edgeSet <==> HasRow(edges, t, a, d)
    ensures Counts(providers, edges, "provides")
    ensures Counts(needs, edges, "requires")
    ensures Counts(delegates, edges, "can_delegate_to")
  {
    edgeSet, providers, needs, delegates := {}, map[], map[], map[];
    for i := 0 to |edges|
      invariant forall a, d, t :: (a, d, t) in edgeSet <==>
        exists j :: 0 <= j < i && edges[j].typ == t && edges[j].from == a && edges[j].to == d
      invariant Counts(providers, edges[..i], "provides")
      invariant Counts(needs, edges[..i], "requires")
      invariant Counts(delegates, edges[..i], "can_delegate_to")
    {
      var e := edges[i];
      assert edges[..i + 1] == edges[..i] + [e];
      LinkedCounts(providers, edges[..i], "provides", e);
      LinkedCounts(needs, edges[..i], "requires", e);
      LinkedCounts(delegates, edges[..i], "can_delegate_to", e);
      edgeSet := edgeSet + {(e.from, e.to, e.typ)};
      if e.typ == "provides" {
        providers := Linked(providers, e);
      } else if e.typ == "requires" {
        needs := Linked(needs, e);
      } else if e.typ == "can_delegate_to" {
        delegates := Linked(delegates, e);
      }
    }
    assert edges[..|edges|] == edges;
    forall a, d, t ensures (a, d, t) in edgeSet <==> HasRow(edges, t, a, d) {
      if j :| 0 <= j < |edges| && edges[j].typ == t && edges[j].from == a && edges[j].to == d {
        assert edges[j] in edges;
      }
    }
  }

  ghost predicate ViaCounts(out: seq<ImpliedEdge>, nodes: seq<GNode>, basis: Basis, open: (string, string) -> bool,
                            a: string, via: string, ds: seq<string>) {
    && (forall d {:trigger Implies(nodes, basis, a, via, d)} ::
          multiset(out)[Implies(nodes, basis, a, via, d)] == if open(a, d) then multiset(ds)[d] else 0)
    && (forall e :: e in out ==> e == Implies(nodes, basis, a, via, e.to))
  }

  /** Chains from a over via to each of ds, in order. */
  method FromVia(nodes: seq<GNode>, basis: Basis, open: (string, string) -> bool, a: string, via: string,
      ds: seq<string>) returns (out: seq<ImpliedEdge>)
    ensures ViaCounts(out, nodes, basis, open, a, via, ds)
  {
    out := [];
    for i := 0 to |ds|
      invariant ViaCounts(out, nodes, basis, open, a, via, ds[..i])
    {
      assert ds[..i + 1] == ds[..i] + [ds[i]];
      if !open(a, ds[i]) {
        continue;
      }
      out := out + [Implies(nodes, basis, a, via, ds[i])];
    }
    assert ds[..|ds|] == ds;
  }

  lemma NotThere(out: seq<ImpliedEdge>, e: ImpliedEdge)
    requires e !in out
    ensures multiset(out)[e] == 0
  {}

  lemma OneMore(k: nat, m: nat)
    ensures (k + 1) * m == k * m + m
  {}

  ghost predicate FromCounts(out: seq<ImpliedEdge>, nodes: seq<GNode>, basis: Basis, open: (string, string) -> bool,
                             a: string, vias: seq<string>, second: Links) {
    && (forall v, d {:trigger Implies(nodes, basis, a, v, d)} ::
          multiset(out)[Implies(nodes, basis, a, v, d)] ==
            if open(a, d) then multiset(vias)[v] * multiset(At(second, v))[d] else 0)
    && (forall e :: e in out ==> e == Implies(nodes, basis, a, e.via, e.to))
  }

  lemma FromCountsAt(out: seq<ImpliedEdge>, more: seq<ImpliedEdge>, e: ImpliedEdge, isOpen: bool, vias: seq<string>,
      x: string, v: string, n: nat)
    requires multiset(out)[e] == if isOpen then multiset(vias)[v] * n else 0
    requires multiset(more)[e] == if isOpen && v == x then n else 0
    ensures multiset(out + more)[e] == if isOpen then multiset(vias + [x])[v] * n else 0
  {
    CountSnoc(vias, x, v, n);
    assert multiset(out + more)[e] == multiset(out)[e] + multiset(more)[e];
  }

  lemma FromCountsStepAt(out: seq<ImpliedEdge>, more: seq<ImpliedEdge>, nodes: seq<GNode>, basis: Basis,
      open: (string, string) -> bool,
                         a: string, vias: seq<string>, x: string, second: Links, v: string, d: string)
    requires FromCounts(out, nodes, basis, open, a, vias, second)
    requires ViaCounts(more, nodes, basis, open, a, x, At(second, x))
    ensures multiset(out + more)[Implies(nodes, basis, a, v, d)] ==
      if open(a, d) then multiset(vias + [x])[v] * multiset(At(second, v))[d] else 0
  {
    var e := Implies(nodes, basis, a, v, d);
    if v != x { NotThere(more, e); }
    FromCountsAt(out, more, e, open(a, d), vias, x, v, multiset(At(second, v))[d]);
  }

  lemma FromCountsStep(out: seq<ImpliedEdge>, more: seq<ImpliedEdge>, nodes: seq<GNode>, basis: Basis,
      open: (string, string) -> bool,
                       a: string, vias: seq<string>, x: string, second: Links)
    requires FromCounts(out, nodes, basis, open, a, vias, second)
    requires ViaCounts(more, nodes, basis, open, a, x, At(second, x))
    ensures FromCounts(out + more, nodes, basis, open, a, vias + [x], second)
  {
    forall v, d ensures multiset(out + more)[Implies(nodes, basis, a, v, d)] ==
      if open(a, d) then multiset(vias + [x])[v] * multiset(At(second, v))[d] else 0
    {
      FromCountsStepAt(out, more, nodes, basis, open, a, vias, x, second, v, d);
    }
    forall e | e in out + more ensures e == Implies(nodes, basis, a, e.via, e.to) {
      assert e in out || e in more;
    }
  }

  lemma CountSnoc(vias: seq<string>, x: string, v: string, n: nat)
    ensures multiset(vias + [x])[v] * n == multiset(vias)[v] * n + (if v == x then n else 0)
  {
    OneMore(multiset(vias)[v], n);
    assert multiset(vias + [x])[v] == multiset(vias)[v] + if v == x then 1 else 0;
  }

  method FromNode(nodes: seq<GNode>, basis: Basis, open: (string, string) -> bool, a: string, vias: seq<string>,
      second: Links) returns (out: seq<ImpliedEdge>)
    ensures FromCounts(out, nodes, basis, open, a, vias, second)
  {
    out := [];
    for i := 0 to |vias|
      invariant FromCounts(out, nodes, basis, open, a, vias[..i], second)
    {
      assert vias[..i + 1] == vias[..i] + [vias[i]];
      var more := FromVia(nodes, basis, open, a, vias[i], At(second, vias[i]));
      FromCountsStep(out, more, nodes, basis, open, a, vias[..i], vias[i], second);
      out := out + more;
    }
    assert vias[..|vias|] == vias;
  }

  ghost predicate ChainCounts(out: seq<ImpliedEdge>, nodes: seq<GNode>, basis: Basis, open: (string, string) -> bool,
                              first: Links, done: set<string>, second: Links) {
    && (forall a, v, d {:trigger Implies(nodes, basis, a, v, d)} ::
          multiset(out)[Implies(nodes, basis, a, v, d)] ==
            if a in done && open(a, d) then multiset(At(first, a))[v] * multiset(At(second, v))[d] else 0)
    && (forall e :: e in out ==> e == Implies(nodes, basis, e.from, e.via, e.to))
  }

  lemma ChainCountsStep(out: seq<ImpliedEdge>, more: seq<ImpliedEdge>, nodes: seq<GNode>, basis: Basis,
      open: (string, string) -> bool,
                        first: Links, done: set<string>, x: string, second: Links)
    requires ChainCounts(out, nodes, basis, open, first, done, second) && x !in done
    requires FromCounts(more, nodes, basis, open, x, At(first, x), second)
    ensures ChainCounts(out + more, nodes, basis, open, first, done + {x}, second)
  {
    forall a, v, d ensures multiset(out + more)[Implies(nodes, basis, a, v, d)] ==
      if a in done + {x} && open(a, d) then multiset(At(first, a))[v] * multiset(At(second, v))[d] else 0
    {
      var e := Implies(nodes, basis, a, v, d);
      assert multiset(out + more)[e] == multiset(out)[e] + multiset(more)[e];
      if a != x {
        NotThere(more, e);
      }
    }
  }

  /** All chains of one rule; the first map is walked in any order. */
  method Chains(nodes: seq<GNode>, basis: Basis, open: (string, string) -> bool, first: Links, second: Links)
      returns (out: seq<ImpliedEdge>)
    ensures ChainCounts(out, nodes, basis, open, first, first.Keys, second)
  {
    out := [];
    var todo := first.Keys;
    while todo != {}
      invariant todo <= first.Keys
      invariant ChainCounts(out, nodes, basis, open, first, first.Keys - todo, second)
      decreases |todo|
    {
      var a :| a in todo;
      var more := FromNode(nodes, basis, open, a, first[a], second);
      ChainCountsStep(out, more, nodes, basis, open, first, first.Keys - todo, a, second);
      out := out + more;
      todo := todo - {a};
      assert first.Keys - todo == first.Keys - (todo + {a}) + {a};
    }
    assert first.Keys - todo == first.Keys;
  }

  /** A reported count of the requirement rule, once the path check is known not to matter. */
  lemma RequirementExact(out: seq<ImpliedEdge>, nodes: seq<GNode>, edges: seq<GEdge>,
      hasPath: (string, string) -> bool, selfPath: string -> bool, open: (string, string) -> bool,
      providers: Links, needs: Links, a: string, c: string, d: string)
    requires FindsPaths(Arcs(edges), hasPath) && selfPath(a) == hasPath(a, a)
    requires open(a, d) == (!HasRow(edges, "provides", a, d) && hasPath(a, d))
    requires Counts(providers, edges, "provides") && Counts(needs, edges, "requires")
    requires ChainCounts(out, nodes, ViaRequirement, open, providers, providers.Keys, needs)
    ensures multiset(out)[Implies(nodes, ViaRequirement, a, c, d)] == RequirementCount(edges, selfPath, a, c, d)
  {
    var m, n := Rows(edges, "provides", a, c), Rows(edges, "requires", c, d);
    RowsPositive(edges, "provides", a, c);
    RowsPositive(edges, "requires", c, d);
    ZeroProduct(m, n);
    if m > 0 && n > 0 && a != d {
      var e :| e in edges && e.typ == "provides" && e.from == a && e.to == c;
      var f :| f in edges && f.typ == "requires" && f.from == c && f.to == d;
      assert (a, c) in Arcs(edges) && (c, d) in Arcs(edges);
      ChainHasPath(Arcs(edges), hasPath, a, c, d);
    }
  }

  lemma DelegationExact(out: seq<ImpliedEdge>, nodes: seq<GNode>, edges: seq<GEdge>, open: (string, string) -> bool,
                        delegates: Links, providers: Links, a: string, v: string, c: string)
    requires open(a, c) == !HasRow(edges, "provides", a, c)
    requires Counts(providers, edges, "provides") && Counts(delegates, edges, "can_delegate_to")
    requires ChainCounts(out, nodes, ViaDelegation, open, delegates, delegates.Keys, providers)
    ensures multiset(out)[Implies(nodes, ViaDelegation, a, v, c)] == DelegationCount(edges, a, v, c)
  {
    var m, n := Rows(edges, "can_delegate_to", a, v), Rows(edges, "provides", v, c);
    ZeroProduct(m, n);
  }

  /** detectImpliedEdges: exact, with multiplicities, for either convention about self paths. */
  method DetectImpliedEdges(nodes: seq<GNode>, edges: seq<GEdge>, hasPath: (string, string) -> bool)
      returns (implied: seq<ImpliedEdge>)
    requires FindsPaths(Arcs(edges), hasPath)
    ensures Exact(implied, nodes, edges, a => hasPath(a, a))
  {
    var edgeSet, providers, needs, delegates := IndexLinks(edges);
    var openReq := (a: string, d: string) => (a, d, "provides") !in edgeSet && hasPath(a, d);
    var openDel := (a: string, c: string) => (a, c, "provides") !in edgeSet;
    var byReq := Chains(nodes, ViaRequirement, openReq, providers, needs);
    var byDel := Chains(nodes, ViaDelegation, openDel, delegates, providers);
    implied := byReq + byDel;
    ghost var selfPath := a => hasPath(a, a);
    forall a, c, d
      ensures multiset(implied)[Implies(nodes, ViaRequirement, a, c, d)] == RequirementCount(edges, selfPath, a, c, d)
    {
      RequirementExact(byReq, nodes, edges, hasPath, selfPath, openReq, providers, needs, a, c, d);
      NotThere(byDel, Implies(nodes, ViaRequirement, a, c, d));
      assert multiset(implied) == multiset(byReq) + multiset(byDel);
    }
    forall a, v, c
      ensures multiset(implied)[Implies(nodes, ViaDelegation, a, v, c)] == DelegationCount(edges, a, v, c)
    {
      DelegationExact(byDel, nodes, edges, openDel, delegates, providers, a, v, c);
      NotThere(byReq, Implies(nodes, ViaDelegation, a, v, c));
      assert multiset(implied) == multiset(byReq) + multiset(byDel);
    }
  }
}
