/** LintBundle: the rules a bundle is checked against before it is imported. */
module Lint {
  import opened Basics
  import opened Bundles

  datatype Mode = EnabledModel | Bootstrap

  datatype Issue =
    | MissingType(domain: string, name: string)
    | NoActors | NoPolicies | NoCapabilities
    | BadFrom(id: string) | BadTo(id: string)      // BAD_REF on from_id, on to_id
    | CapNoProvider(id: string) | CapNoPolicy(id: string) | CapNoRef(id: string) | CapNoJob(id: string)

  // --- the rules, stated on the bundle ---

  predicate HasType(b: Bundle, domain: string, name: string) {
    exists n :: n in b.types && n.domain == domain && n.name == name
  }

  predicate HasId(ns: seq<BundleNode>, id: string) { exists n :: n in ns && n.id == id }

  predicate HasNodeOfType(ns: seq<BundleNode>, typ: string) { exists n :: n in ns && n.typ == typ }

  /** Some edge of this type points to id. */
  predicate Pointed(es: seq<BundleEdge>, typ: string, id: string) {
    exists e :: e in es && e.typ == typ && e.to == id
  }

  function When(c: bool, i: Issue): seq<Issue> { if c then [i] else [] }

  function Concat<T, U>(xs: seq<T>, f: T -> seq<U>): seq<U> {
    if xs == [] then [] else Concat(xs[..|xs| - 1], f) + f(xs[|xs| - 1])
  }

  const CORE_TYPES: seq<BundleName> := [BundleName("node", "capability"), BundleName("node", "policy"),
    BundleName("edge", "provides"), BundleName("edge", "requires"), BundleName("edge", "governs")]

  function RequiredTypes(mode: Mode): seq<BundleName> {
    if mode == Bootstrap then CORE_TYPES else CORE_TYPES + [BundleName("node", "actor")]
  }

  function TypeIssues(b: Bundle): BundleName -> seq<Issue> {
    (n: BundleName) => When(!HasType(b, n.domain, n.name), MissingType(n.domain, n.name))
  }

  function EdgeIssues(b: Bundle): BundleEdge -> seq<Issue> {
    (e: BundleEdge) =>
      When(e.from != "" && !HasId(b.nodes, e.from), BadFrom(e.from))
      + When(e.to != "" && !HasId(b.nodes, e.to), BadTo(e.to))
  }

  function CapabilityIssues(b: Bundle): BundleNode -> seq<Issue> {
    (n: BundleNode) =>
      if n.typ != "capability" || n.id == "" then []
      else
        When(!Pointed(b.edges, "provides", n.id), CapNoProvider(n.id))
        + When(!Pointed(b.edges, "governs", n.id), CapNoPolicy(n.id))
        + When(Field(n.blob, "ref").None?, CapNoRef(n.id))
        + When(Field(n.blob, "job").None?, CapNoJob(n.id))
  }

  /** All issues, in the order the linter reports them. */
  function Issues(b: Bundle, mode: Mode): seq<Issue> {
    HeadIssues(b, mode) + Concat(b.edges, EdgeIssues(b))
    + (if mode == Bootstrap then [] else Concat(b.nodes, CapabilityIssues(b)))
  }

  /** Missing types and missing kinds of node. */
  function HeadIssues(b: Bundle, mode: Mode): seq<Issue> {
    Concat(RequiredTypes(mode), TypeIssues(b))
    + When(mode != Bootstrap && !HasNodeOfType(b.nodes, "actor"), NoActors)
    + When(!HasNodeOfType(b.nodes, "policy"), NoPolicies)
    + When(mode != Bootstrap && !HasNodeOfType(b.nodes, "capability"), NoCapabilities)
  }

  lemma WhenAppended(xs: seq<Issue>, c: bool, i: Issue)
    ensures xs + When(c, i) == if c then xs + [i] else xs
  {}

  // --- the linter ---

  /** The registry key "domain:name" is exact for names without a colon. */
  lemma TypeKeyExact(d: string, n: string, d': string, n': string)
    requires ':' !in d && ':' !in n
    ensures d' + ":" + n' == d + ":" + n <==> d' == d && n' == n
  {
    var s := d + ":" + n;
    if d' + ":" + n' == s {
      assert s[|d'|] == ':' && s[|d|] == ':';
      assert forall i :: 0 <= i < |d| ==> s[i] == d[i];
      assert forall i :: |d| < i < |s| ==> s[i] == n[i - |d| - 1];
      assert |d'| == |d|;
      assert s[..|d|] == d && s[..|d'|] == d' && s[|d| + 1..] == n && s[|d'| + 1..] == n';
    }
  }

  lemma ConcatNext<T, U>(xs: seq<T>, i: nat, f: T -> seq<U>)
    requires i < |xs|
    ensures Concat(xs[..i + 1], f) == Concat(xs[..i], f) + f(xs[i])
  {
    assert xs[..i + 1][..i] == xs[..i];
  }

  lemma {:induction false} ConcatMembers<T, U>(xs: seq<T>, f: T -> seq<U>, u: U)
    ensures u in Concat(xs, f) <==> exists x :: x in xs && u in f(x)
  {
    if xs != [] {
      var n := |xs| - 1;
      ConcatMembers(xs[..n], f, u);
      assert xs == xs[..n] + [xs[n]];
      if u in f(xs[n]) { assert xs[n] in xs; }
    }
  }

  method TypeSet(b: Bundle) returns (typeSet: set<string>)
    ensures forall d, n {:trigger HasType(b, d, n)} :: ':' !in d && ':' !in n ==>
      (d + ":" + n in typeSet <==> HasType(b, d, n))
  {
    typeSet := {};
    for i := 0 to |b.types|
      invariant forall k :: k in typeSet <==> exists j :: 0 <= j < i && b.types[j].domain + ":" + b.types[j].name == k
    {
      typeSet := typeSet + {b.types[i].domain + ":" + b.types[i].name};
    }
    forall d, n | ':' !in d && ':' !in n ensures d + ":" + n in typeSet <==> HasType(b, d, n) {
      if d + ":" + n in typeSet {
        var j :| 0 <= j < |b.types| && b.types[j].domain + ":" + b.types[j].name == d + ":" + n;
        TypeKeyExact(d, n, b.types[j].domain, b.types[j].name);
        assert b.types[j] in b.types;
      }
      if HasType(b, d, n) {
        var t :| t in b.types && t.domain == d && t.name == n;
        var j :| 0 <= j < |b.types| && b.types[j] == t;
      }
    }
  }

  lemma RequiredHaveNoColon(mode: Mode, i: nat)
    requires i < |RequiredTypes(mode)|
    ensures ':' !in RequiredTypes(mode)[i].domain && ':' !in RequiredTypes(mode)[i].name
  {
    var n := RequiredTypes(mode)[i];
    assert n.domain == "node" || n.domain == "edge";
    assert n.name == "capability" || n.name == "policy" || n.name == "provides" || n.name == "requires"
      || n.name == "governs" || n.name == "actor";
  }

  method LintTypes(b: Bundle, mode: Mode) returns (issues: seq<Issue>)
    ensures issues == Concat(RequiredTypes(mode), TypeIssues(b))
  {
    var typeSet := TypeSet(b);
    var req := RequiredTypes(mode);
    issues := [];
    for i := 0 to |req|
      invariant issues == Concat(req[..i], TypeIssues(b))
    {
      ConcatNext(req, i, TypeIssues(b));
      RequiredHaveNoColon(mode, i);
      assert HasType(b, req[i].domain, req[i].name) <==> req[i].domain + ":" + req[i].name in typeSet;
      if req[i].domain + ":" + req[i].name !in typeSet {
        issues := issues + [MissingType(req[i].domain, req[i].name)];
      }
    }
    assert req[..|req|] == req;
  }

  method LintEdge(b: Bundle, e: BundleEdge, idSet: set<string>) returns (issues: seq<Issue>)
    requires forall id :: id != "" ==> (id in idSet <==> HasId(b.nodes, id))
    ensures issues == EdgeIssues(b)(e)
  {
    issues := [];
    if e.from != "" && e.from !in idSet {
      issues := issues + [BadFrom(e.from)];
    }
    if e.to != "" && e.to !in idSet {
      issues := issues + [BadTo(e.to)];
    }
  }

  method LintEdges(b: Bundle, idSet: set<string>)
      returns (issues: seq<Issue>, providers: set<string>, governed: set<string>)
    requires forall id :: id != "" ==> (id in idSet <==> HasId(b.nodes, id))
    ensures issues == Concat(b.edges, EdgeIssues(b))
    ensures forall id :: id in providers <==> Pointed(b.edges, "provides", id)
    ensures forall id :: id in governed <==> Pointed(b.edges, "governs", id)
  {
    issues, providers, governed := [], {}, {};
    var es := b.edges;
    for i := 0 to |es|
      invariant issues == Concat(es[..i], EdgeIssues(b))
      invariant forall id :: id in providers <==> Pointed(es[..i], "provides", id)
      invariant forall id :: id in governed <==> Pointed(es[..i], "governs", id)
    {
      var e := es[i];
      ConcatNext(es, i, EdgeIssues(b));
      var found := LintEdge(b, e, idSet);
      issues := issues + found;
      PointedNext(es, i, "provides", providers);
      PointedNext(es, i, "governs", governed);
      if e.typ == "provides" {
        providers := providers + {e.to};
      } else if e.typ == "governs" {
        governed := governed + {e.to};
      }
    }
    assert es[..|es|] == es;
  }

  lemma PointedNext(es: seq<BundleEdge>, i: nat, typ: string, ids: set<string>)
    requires i < |es| && forall id :: id in ids <==> Pointed(es[..i], typ, id)
    ensures
      var ids2 := if es[i].typ == typ then ids + {es[i].to} else ids;
      forall id :: id in ids2 <==> Pointed(es[..i + 1], typ, id)
  {
    assert es[..i + 1] == es[..i] + [es[i]];
    PointedSnoc(es[..i], es[i], typ);
  }

  lemma PointedSnoc(es: seq<BundleEdge>, e: BundleEdge, typ: string)
    ensures forall id :: Pointed(es + [e], typ, id) <==> Pointed(es, typ, id) || (e.typ == typ && e.to == id)
  {
    forall id ensures Pointed(es + [e], typ, id) <==> Pointed(es, typ, id) || (e.typ == typ && e.to == id) {
      if Pointed(es, typ, id) {
        var x :| x in es && x.typ == typ && x.to == id;
        assert x in es + [e];
      }
      if e.typ == typ && e.to == id {
        assert e in es + [e];
      }
    }
  }

  method LintCapability(b: Bundle, c: BundleNode, providers: set<string>, governed: set<string>)
      returns (issues: seq<Issue>)
    requires c.typ == "capability"
    requires c.id in providers <==> Pointed(b.edges, "provides", c.id)
    requires c.id in governed <==> Pointed(b.edges, "governs", c.id)
    ensures issues == CapabilityIssues(b)(c)
  {
    issues := [];
    if c.id == "" { return; }
    if c.id !in providers { issues := issues + [CapNoProvider(c.id)]; }
    if c.id !in governed { issues := issues + [CapNoPolicy(c.id)]; }
    if Field(c.blob, "ref").None? { issues := issues + [CapNoRef(c.id)]; }
    if Field(c.blob, "job").None? { issues := issues + [CapNoJob(c.id)]; }
  }

  method LintCapabilities(b: Bundle, caps: seq<BundleNode>, providers: set<string>, governed: set<string>)
      returns (issues: seq<Issue>)
    requires caps == Filter(b.nodes, OfNodeType("capability"))
    requires forall id :: id in providers <==> Pointed(b.edges, "provides", id)
    requires forall id :: id in governed <==> Pointed(b.edges, "governs", id)
    ensures issues == Concat(b.nodes, CapabilityIssues(b))
  {
    ghost var f := CapabilityIssues(b);
    issues := [];
    for i := 0 to |caps|
      invariant issues == Concat(caps[..i], f)
    {
      ConcatNext(caps, i, f);
      FilterMember(b.nodes, OfNodeType("capability"), caps[i]);
      var found := LintCapability(b, caps[i], providers, governed);
      issues := issues + found;
    }
    assert caps[..|caps|] == caps;
    ConcatFilter(b.nodes, OfNodeType("capability"), f);
  }

  function OfNodeType(typ: string): BundleNode -> bool { (n: BundleNode) => n.typ == typ }

  /** Elements that yield nothing can be filtered out first. */
  lemma {:induction false} ConcatFilter<T, U>(xs: seq<T>, p: T -> bool, f: T -> seq<U>)
    requires forall x :: x in xs && !p(x) ==> f(x) == []
    ensures Concat(Filter(xs, p), f) == Concat(xs, f)
  {
    if xs != [] {
      var n := |xs| - 1;
      assert xs[n] in xs;
      ConcatFilter(xs[..n], p, f);
      if p(xs[n]) {
        var fs := Filter(xs[..n], p);
        assert (fs + [xs[n]])[..|fs|] == fs;
      }
    }
  }

  lemma OfTypeFound(ns: seq<BundleNode>, typ: string)
    ensures Filter(ns, OfNodeType(typ)) == [] <==> !HasNodeOfType(ns, typ)
  {
    if HasNodeOfType(ns, typ) {
      FilterMembers(ns, OfNodeType(typ));
      var n :| n in ns && n.typ == typ;
      assert n in Filter(ns, OfNodeType(typ));
    } else {
      FilterNone(ns, OfNodeType(typ));
    }
  }

  method LintNodes(ns: seq<BundleNode>)
    returns (caps: seq<BundleNode>, pols: seq<BundleNode>, actors: seq<BundleNode>, idSet: set<string>)
    ensures caps == Filter(ns, OfNodeType("capability"))
    ensures pols == Filter(ns, OfNodeType("policy"))
    ensures actors == Filter(ns, OfNodeType("actor"))
    ensures forall id :: id in idSet <==> id != "" && HasId(ns, id)
  {
    caps, pols, actors, idSet := [], [], [], {};
    for i := 0 to |ns|
      invariant caps == Filter(ns[..i], OfNodeType("capability"))
      invariant pols == Filter(ns[..i], OfNodeType("policy"))
      invariant actors == Filter(ns[..i], OfNodeType("actor"))
      invariant forall id :: id in idSet <==> id != "" && exists j :: 0 <= j < i && ns[j].id == id
    {
      var n := ns[i];
      assert ns[..i + 1][..i] == ns[..i];
      if n.id != "" {
        idSet := idSet + {n.id};
      }
      if n.typ == "capability" {
        caps := caps + [n];
      } else if n.typ == "policy" {
        pols := pols + [n];
      } else if n.typ == "actor" {
        actors := actors + [n];
      }
    }
    assert ns[..|ns|] == ns;
    forall id ensures HasId(ns, id) <==> exists j :: 0 <= j < |ns| && ns[j].id == id {
      if j :| 0 <= j < |ns| && ns[j].id == id { assert ns[j] in ns; }
    }
  }

  /** The linter reports exactly the issues of the rules, in order; the report is ok iff there are none. */
  method LintBundle(b: Bundle, mode: Mode) returns (ok: bool, issues: seq<Issue>)
    ensures issues == Issues(b, mode)
    ensures ok <==> Issues(b, mode) == []
  {
    issues := LintTypes(b, mode);
    var caps, pols, actors, idSet := LintNodes(b.nodes);
    OfTypeFound(b.nodes, "capability");
    OfTypeFound(b.nodes, "policy");
    OfTypeFound(b.nodes, "actor");
    WhenAppended(issues, mode != Bootstrap && actors == [], NoActors);
    if mode != Bootstrap && |actors| == 0 { issues := issues + [NoActors]; }
    WhenAppended(issues, pols == [], NoPolicies);
    if |pols| == 0 { issues := issues + [NoPolicies]; }
    WhenAppended(issues, mode != Bootstrap && caps == [], NoCapabilities);
    if mode != Bootstrap && |caps| == 0 { issues := issues + [NoCapabilities]; }
    assert issues == HeadIssues(b, mode);

    var edgeIssues, providers, governed := LintEdges(b, idSet);
    issues := issues + edgeIssues;
    if mode != Bootstrap {
      var capIssues := LintCapabilities(b, caps, providers, governed);
      issues := issues + capIssues;
    }
    ok := |issues| == 0;
  }

  // --- which issues are reported ---

  lemma IssueSources(b: Bundle, mode: Mode, i: Issue)
    ensures i in Issues(b, mode) <==>
      || i in HeadIssues(b, mode)
      || (exists e :: e in b.edges && i in EdgeIssues(b)(e))
      || (mode != Bootstrap && exists n :: n in b.nodes && i in CapabilityIssues(b)(n))
  {
    ConcatMembers(b.edges, EdgeIssues(b), i);
    ConcatMembers(b.nodes, CapabilityIssues(b), i);
  }

  lemma HeadIssueKinds(b: Bundle, mode: Mode, i: Issue)
    requires i in HeadIssues(b, mode)
    ensures i.MissingType? || i.NoActors? || i.NoPolicies? || i.NoCapabilities?
  {
    ConcatMembers(RequiredTypes(mode), TypeIssues(b), i);
  }

  /** An edge end that is written but names no node. */
  predicate DanglingEdge(b: Bundle, e: BundleEdge) {
    (e.from != "" && !HasId(b.nodes, e.from)) || (e.to != "" && !HasId(b.nodes, e.to))
  }

  predicate IsBadRef(i: Issue) { i.BadFrom? || i.BadTo? }

  lemma EdgeIssueKinds(b: Bundle, e: BundleEdge)
    ensures forall i :: i in EdgeIssues(b)(e) ==> IsBadRef(i)
    ensures EdgeIssues(b)(e) == [] <==> !DanglingEdge(b, e)
    ensures EdgeIssues(b)(e) != [] ==> EdgeIssues(b)(e)[0] in EdgeIssues(b)(e)
  {}

  lemma CapabilityIssueKinds(b: Bundle, n: BundleNode, id: string)
    ensures forall i :: i in CapabilityIssues(b)(n) ==> i.CapNoProvider? || i.CapNoPolicy? || i.CapNoRef? || i.CapNoJob?
    ensures CapNoProvider(id) in CapabilityIssues(b)(n) <==>
      n.typ == "capability" && n.id == id != "" && !Pointed(b.edges, "provides", id)
    ensures CapNoPolicy(id) in CapabilityIssues(b)(n) <==>
      n.typ == "capability" && n.id == id != "" && !Pointed(b.edges, "governs", id)
  {}

  /** BAD_REF is reported iff some edge dangles. */
  lemma BadRefIff(b: Bundle, mode: Mode)
    ensures (exists i :: i in Issues(b, mode) && IsBadRef(i)) <==> exists e :: e in b.edges && DanglingEdge(b, e)
  {
    if i :| i in Issues(b, mode) && IsBadRef(i) {
      BadRefSource(b, mode, i);
    }
    if e :| e in b.edges && DanglingEdge(b, e) {
      EdgeIssueKinds(b, e);
      var i := EdgeIssues(b)(e)[0];
      IssueSources(b, mode, i);
      assert i in Issues(b, mode) && IsBadRef(i);
    }
  }

  lemma BadRefSource(b: Bundle, mode: Mode, i: Issue)
    requires i in Issues(b, mode) && IsBadRef(i)
    ensures exists e :: e in b.edges && DanglingEdge(b, e)
  {
    IssueSources(b, mode, i);
    if i in HeadIssues(b, mode) { HeadIssueKinds(b, mode, i); }
    if n :| n in b.nodes && i in CapabilityIssues(b)(n) { CapabilityIssueKinds(b, n, ""); }
    var e :| e in b.edges && i in EdgeIssues(b)(e);
    EdgeIssueKinds(b, e);
  }

  /** Capability issues come from the capability pass only. */
  lemma CapabilityIssueSource(b: Bundle, i: Issue)
    requires i.CapNoProvider? || i.CapNoPolicy?
    ensures i in Issues(b, EnabledModel) <==> exists n :: n in b.nodes && i in CapabilityIssues(b)(n)
  {
    IssueSources(b, EnabledModel, i);
    if i in HeadIssues(b, EnabledModel) { HeadIssueKinds(b, EnabledModel, i); }
    if e :| e in b.edges && i in EdgeIssues(b)(e) { EdgeIssueKinds(b, e); }
  }

  /** A capability with an id is reported without provider (policy) iff no provides (governs) edge points to it. */
  lemma CapabilityIssueIff(b: Bundle, n: BundleNode)
    requires n in b.nodes && n.typ == "capability" && n.id != ""
    ensures CapNoProvider(n.id) in Issues(b, EnabledModel) <==> !Pointed(b.edges, "provides", n.id)
    ensures CapNoPolicy(n.id) in Issues(b, EnabledModel) <==> !Pointed(b.edges, "governs", n.id)
  {
    CapabilityIssueSource(b, CapNoProvider(n.id));
    CapabilityIssueSource(b, CapNoPolicy(n.id));
    CapabilityIssueKinds(b, n, n.id);
    if m :| m in b.nodes && CapNoProvider(n.id) in CapabilityIssues(b)(m) { CapabilityIssueKinds(b, m, n.id); }
    if m :| m in b.nodes && CapNoPolicy(n.id) in CapabilityIssues(b)(m) { CapabilityIssueKinds(b, m, n.id); }
  }

  // --- a clean bundle ---

  predicate CapabilityClean(b: Bundle, n: BundleNode) {
    n.typ == "capability" && n.id != "" ==>
      && Pointed(b.edges, "provides", n.id) && Pointed(b.edges, "governs", n.id)
      && Field(n.blob, "ref").Some? && Field(n.blob, "job").Some?
  }

  /** What a bundle without issues in the enabled mode satisfies. */
  predicate Clean(b: Bundle) {
    && (forall n :: n in RequiredTypes(EnabledModel) ==> HasType(b, n.domain, n.name))
    && HasNodeOfType(b.nodes, "actor") && HasNodeOfType(b.nodes, "policy") && HasNodeOfType(b.nodes, "capability")
    && (forall e :: e in b.edges ==> !DanglingEdge(b, e))
    && (forall n :: n in b.nodes ==> CapabilityClean(b, n))
  }

  lemma {:induction false} ConcatEmpty<T, U>(xs: seq<T>, f: T -> seq<U>)
    ensures Concat(xs, f) == [] <==> forall x :: x in xs ==> f(x) == []
  {
    if xs != [] {
      var n := |xs| - 1;
      ConcatEmpty(xs[..n], f);
      assert xs == xs[..n] + [xs[n]];
      assert xs[n] in xs;
    }
  }

  lemma CapabilityCleanIff(b: Bundle, n: BundleNode)
    ensures CapabilityIssues(b)(n) == [] <==> CapabilityClean(b, n)
  {}

  lemma HeadCleanIff(b: Bundle)
    ensures HeadIssues(b, EnabledModel) == [] <==>
      && (forall n :: n in RequiredTypes(EnabledModel) ==> HasType(b, n.domain, n.name))
      && HasNodeOfType(b.nodes, "actor") && HasNodeOfType(b.nodes, "policy") && HasNodeOfType(b.nodes, "capability")
  {
    ConcatEmpty(RequiredTypes(EnabledModel), TypeIssues(b));
    forall n | n in RequiredTypes(EnabledModel) ensures TypeIssues(b)(n) == [] <==> HasType(b, n.domain, n.name) {}
  }

  /** The enabled-model lint passes iff the bundle is clean. */
  lemma CleanIff(b: Bundle)
    ensures Issues(b, EnabledModel) == [] <==> Clean(b)
  {
    HeadCleanIff(b);
    ConcatEmpty(b.edges, EdgeIssues(b));
    ConcatEmpty(b.nodes, CapabilityIssues(b));
    forall e | e in b.edges ensures EdgeIssues(b)(e) == [] <==> !DanglingEdge(b, e) { EdgeIssueKinds(b, e); }
    forall n | n in b.nodes ensures CapabilityIssues(b)(n) == [] <==> CapabilityClean(b, n) {
      CapabilityCleanIff(b, n);
    }
  }

  // --- every rule in full ---

  predicate Named(n: BundleName, domain: string, name: string) { n.domain == domain && n.name == name }

  /** The types every bundle needs; a bootstrap bundle does without actors. */
  predicate Needed(mode: Mode, domain: string, name: string) {
    || (domain == "node" && (name == "capability" || name == "policy" || (name == "actor" && mode == EnabledModel)))
    || (domain == "edge" && (name == "provides" || name == "requires" || name == "governs"))
  }

  predicate Lacks(blob: Blob, name: string) { blob.None? || name !in blob.value || blob.value[name] == Null }

  /** A capability node with this id. */
  predicate Capability(n: BundleNode, id: string) { n.typ == "capability" && n.id == id && id != "" }

  /** When each issue is due. */
  ghost predicate Due(b: Bundle, mode: Mode, i: Issue) {
    match i
    case MissingType(domain, name) => Needed(mode, domain, name) && forall n :: n in b.types ==> !Named(n, domain, name)
    case NoActors => mode == EnabledModel && forall n :: n in b.nodes ==> n.typ != "actor"
    case NoPolicies => forall n :: n in b.nodes ==> n.typ != "policy"
    case NoCapabilities => mode == EnabledModel && forall n :: n in b.nodes ==> n.typ != "capability"
    case BadFrom(id) =>
      id != "" && (exists e :: e in b.edges && e.from == id) && forall n :: n in b.nodes ==> n.id != id
    case BadTo(id) =>
      id != "" && (exists e :: e in b.edges && e.to == id) && forall n :: n in b.nodes ==> n.id != id
    case CapNoProvider(id) => mode == EnabledModel && (exists n :: n in b.nodes && Capability(n, id))
      && forall e :: e in b.edges && e.to == id ==> e.typ != "provides"
    case CapNoPolicy(id) => mode == EnabledModel && (exists n :: n in b.nodes && Capability(n, id))
      && forall e :: e in b.edges && e.to == id ==> e.typ != "governs"
    case CapNoRef(id) => mode == EnabledModel && exists n :: n in b.nodes && Capability(n, id) && Lacks(n.blob, "ref")
    case CapNoJob(id) => mode == EnabledModel && exists n :: n in b.nodes && Capability(n, id) && Lacks(n.blob, "job")
  }

  lemma NeededIff(mode: Mode, n: BundleName)
    ensures n in RequiredTypes(mode) <==> Needed(mode, n.domain, n.name)
  {
    var req := RequiredTypes(mode);
    assert BundleName("node", "capability") == req[0] && BundleName("node", "policy") == req[1];
    assert BundleName("edge", "provides") == req[2] && BundleName("edge", "requires") == req[3];
    assert BundleName("edge", "governs") == req[4];
    assert mode == EnabledModel ==> BundleName("node", "actor") == req[5];
    assert |req| == if mode == Bootstrap then 5 else 6;
    if n in req {
      var k :| 0 <= k < |req| && req[k] == n;
    }
    if Needed(mode, n.domain, n.name) {
      assert n == BundleName(n.domain, n.name);
    }
  }

  lemma TypeIssuesAre(b: Bundle, mode: Mode, i: Issue)
    ensures i in Concat(RequiredTypes(mode), TypeIssues(b)) <==> i.MissingType? && Due(b, mode, i)
  {
    ConcatMembers(RequiredTypes(mode), TypeIssues(b), i);
    if n :| n in RequiredTypes(mode) && i in TypeIssues(b)(n) {
      NeededIff(mode, n);
      assert i == MissingType(n.domain, n.name) && !HasType(b, n.domain, n.name);
    }
    if i.MissingType? && Due(b, mode, i) {
      var n := BundleName(i.domain, i.name);
      NeededIff(mode, n);
      assert !HasType(b, n.domain, n.name);
      assert i in TypeIssues(b)(n);
    }
  }

  predicate IsHead(i: Issue) { i.MissingType? || i.NoActors? || i.NoPolicies? || i.NoCapabilities? }

  lemma HeadIssuesAre(b: Bundle, mode: Mode, i: Issue)
    ensures i in HeadIssues(b, mode) <==> IsHead(i) && Due(b, mode, i)
  {
    TypeIssuesAre(b, mode, i);
  }

  lemma EdgeIssuesAre(b: Bundle, mode: Mode, i: Issue)
    ensures (exists e :: e in b.edges && i in EdgeIssues(b)(e)) <==> IsBadRef(i) && Due(b, mode, i)
  {
    if e :| e in b.edges && i in EdgeIssues(b)(e) {
      EdgeIssueKinds(b, e);
      assert i.BadFrom? ==> i.id == e.from && !HasId(b.nodes, i.id);
      assert i.BadTo? ==> i.id == e.to && !HasId(b.nodes, i.id);
    }
    if i.BadFrom? && Due(b, mode, i) {
      var e :| e in b.edges && e.from == i.id;
      assert !HasId(b.nodes, i.id) && i in EdgeIssues(b)(e);
    }
    if i.BadTo? && Due(b, mode, i) {
      var e :| e in b.edges && e.to == i.id;
      assert !HasId(b.nodes, i.id) && i in EdgeIssues(b)(e);
    }
  }

  predicate IsCapabilityIssue(i: Issue) { i.CapNoProvider? || i.CapNoPolicy? || i.CapNoRef? || i.CapNoJob? }

  /** The issues of one capability node. */
  lemma NodeIssuesAre(b: Bundle, n: BundleNode, i: Issue)
    ensures i in CapabilityIssues(b)(n) <==>
      && IsCapabilityIssue(i) && Capability(n, i.id)
      && match i
         case CapNoProvider(id) => forall e :: e in b.edges && e.to == id ==> e.typ != "provides"
         case CapNoPolicy(id) => forall e :: e in b.edges && e.to == id ==> e.typ != "governs"
         case CapNoRef(id) => Lacks(n.blob, "ref")
         case CapNoJob(id) => Lacks(n.blob, "job")
         case _ => false
  {
    CapabilityIssueKinds(b, n, n.id);
  }

  lemma CapabilityIssuesAre(b: Bundle, i: Issue)
    ensures (exists n :: n in b.nodes && i in CapabilityIssues(b)(n)) <==>
      IsCapabilityIssue(i) && Due(b, EnabledModel, i)
  {
    forall n | n in b.nodes && i in CapabilityIssues(b)(n) ensures IsCapabilityIssue(i) && Due(b, EnabledModel, i) {
      NodeIssuesAre(b, n, i);
    }
    if IsCapabilityIssue(i) && Due(b, EnabledModel, i) {
      var n :| n in b.nodes && Capability(n, i.id)
        && (i.CapNoRef? ==> Lacks(n.blob, "ref")) && (i.CapNoJob? ==> Lacks(n.blob, "job"));
      NodeIssuesAre(b, n, i);
    }
  }

  /** In both modes the linter reports an issue iff it is due. */
  lemma IssueMeaning(b: Bundle, mode: Mode, i: Issue)
    ensures i in Issues(b, mode) <==> Due(b, mode, i)
  {
    IssueSources(b, mode, i);
    HeadIssuesAre(b, mode, i);
    EdgeIssuesAre(b, mode, i);
    CapabilityIssuesAre(b, i);
  }

  function Rank(i: Issue): nat {
    match i
    case MissingType(_, _) => 0
    case NoActors => 1
    case NoPolicies => 2
    case NoCapabilities => 3
    case BadFrom(_) => 4
    case BadTo(_) => 4
    case _ => 5
  }

  lemma HeadOrder(b: Bundle, mode: Mode, j: nat, k: nat)
    requires j < k < |HeadIssues(b, mode)|
    ensures Rank(HeadIssues(b, mode)[j]) <= Rank(HeadIssues(b, mode)[k])
  {
    var types := Concat(RequiredTypes(mode), TypeIssues(b));
    var head := HeadIssues(b, mode);
    forall m | 0 <= m < |types| ensures Rank(head[m]) == 0 {
      assert head[m] == types[m] && types[m] in types;
      TypeIssuesAre(b, mode, types[m]);
    }
  }

  lemma PartRanks(b: Bundle, mode: Mode, i: Issue)
    ensures i in HeadIssues(b, mode) ==> Rank(i) <= 3
    ensures i in Concat(b.edges, EdgeIssues(b)) ==> Rank(i) == 4
    ensures i in Concat(b.nodes, CapabilityIssues(b)) ==> Rank(i) == 5
  {
    HeadIssuesAre(b, mode, i);
    EdgeRank(b, mode, i);
    CapabilityRank(b, i);
  }

  lemma EdgeRank(b: Bundle, mode: Mode, i: Issue)
    ensures i in Concat(b.edges, EdgeIssues(b)) ==> Rank(i) == 4
  {
    ConcatMembers(b.edges, EdgeIssues(b), i);
    EdgeIssuesAre(b, mode, i);
  }

  lemma CapabilityRank(b: Bundle, i: Issue)
    ensures i in Concat(b.nodes, CapabilityIssues(b)) ==> Rank(i) == 5
  {
    ConcatMembers(b.nodes, CapabilityIssues(b), i);
    CapabilityIssuesAre(b, i);
  }

  lemma ThreeParts(head: seq<Issue>, edges: seq<Issue>, caps: seq<Issue>, j: nat, k: nat)
    requires j < k < |head + edges + caps|
    requires forall i :: i in head ==> Rank(i) <= 3
    requires forall i :: i in edges ==> Rank(i) == 4
    requires forall i :: i in caps ==> Rank(i) == 5
    requires k < |head| ==> Rank(head[j]) <= Rank(head[k])
    ensures Rank((head + edges + caps)[j]) <= Rank((head + edges + caps)[k])
  {
    var all := head + edges + caps;
    assert forall m :: 0 <= m < |all| ==>
      all[m] == if m < |head| then head[m] else if m < |head| + |edges| then edges[m - |head|]
        else caps[m - |head| - |edges|];
  }

  /** Issues are reported by kind: missing types, missing nodes, references, capabilities. */
  lemma IssueOrder(b: Bundle, mode: Mode, j: nat, k: nat)
    requires j < k < |Issues(b, mode)|
    ensures Rank(Issues(b, mode)[j]) <= Rank(Issues(b, mode)[k])
  {
    var caps := if mode == Bootstrap then [] else Concat(b.nodes, CapabilityIssues(b));
    forall i
      ensures i in HeadIssues(b, mode) ==> Rank(i) <= 3
      ensures i in Concat(b.edges, EdgeIssues(b)) ==> Rank(i) == 4
      ensures i in caps ==> Rank(i) == 5
    {
      PartRanks(b, mode, i);
    }
    if k < |HeadIssues(b, mode)| { HeadOrder(b, mode, j, k); }
    ThreeParts(HeadIssues(b, mode), Concat(b.edges, EdgeIssues(b)), caps, j, k);
  }
}
