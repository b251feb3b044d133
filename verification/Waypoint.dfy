/** Waypoint analysis: gaps in what capabilities are provided and available. */
module Waypoint {
  import opened Basics
  import opened Lint
  import opened Digraphs

  /** A property row of a node, as selected for the analysis. */
  datatype NodeProperty = NodeProperty(owner: string, key: string, value: Json)

  datatype GapKind = NoProvider | SingleProvider | Unavailable

  /** capabilityType stays empty in an unavailable gap. */
  datatype Gap = Gap(kind: GapKind, capabilityId: string, capabilityType: string, providerCount: nat)

  // --- what the gaps mean ---

  function ProvidesTo(id: string): GEdge -> bool { (e: GEdge) => e.typ == "provides" && e.to == id }

  /** The number of provides rows that point to the capability. */
  function ProviderRows(edges: seq<GEdge>, id: string): nat { |Filter(edges, ProvidesTo(id))| }

  predicate SaysUnavailable(p: NodeProperty, id: string) {
    p.owner == id && p.key == "availability" && p.value == Bool(false)
  }

  /** The capability carries an availability property that is the boolean false. */
  predicate MarkedUnavailable(props: seq<NodeProperty>, id: string) {
    exists p :: p in props && SaysUnavailable(p, id)
  }

  function GapsOf(edges: seq<GEdge>, props: seq<NodeProperty>): GNode -> seq<Gap> {
    (n: GNode) =>
      var pc := ProviderRows(edges, n.id);
      if n.typ != "capability" then []
      else
        (if pc == 0 then [Gap(NoProvider, n.id, n.typ, 0)] else if pc == 1 then [Gap(SingleProvider, n.id, n.typ, 1)]
          else [])
        + (if MarkedUnavailable(props, n.id) then [Gap(Unavailable, n.id, "", pc)] else [])
  }

  // --- detectGaps ---

  function Count(m: map<string, nat>, k: string): nat { if k in m then m[k] else 0 }

  method CountProviders(edges: seq<GEdge>) returns (providerCount: map<string, nat>)
    ensures forall id {:trigger Count(providerCount, id)} :: Count(providerCount, id) == ProviderRows(edges, id)
  {
    providerCount := map[];
    for i := 0 to |edges|
      invariant forall id {:trigger Count(providerCount, id)} ::
        Count(providerCount, id) == ProviderRows(edges[..i], id)
    {
      var e := edges[i];
      assert edges[..i + 1][..i] == edges[..i];
      ghost var before := providerCount;
      if e.typ == "provides" {
        providerCount := providerCount[e.to := Count(providerCount, e.to) + 1];
      }
      forall id ensures Count(providerCount, id) == ProviderRows(edges[..i + 1], id) {
        assert Count(before, id) == ProviderRows(edges[..i], id);
      }
    }
    assert edges[..|edges|] == edges;
  }

  method MarkUnavailable(props: seq<NodeProperty>) returns (unavailable: set<string>)
    ensures forall id :: id in unavailable <==> MarkedUnavailable(props, id)
  {
    unavailable := {};
    for i := 0 to |props|
      invariant forall id :: id in unavailable <==>
        exists j :: 0 <= j < i && SaysUnavailable(props[j], id)
    {
      if props[i].key == "availability" {
        var v := props[i].value;
        if v.Bool? && !v.b {
          unavailable := unavailable + {props[i].owner};
        }
      }
    }
    forall id ensures id in unavailable <==> MarkedUnavailable(props, id) {
      if j :| 0 <= j < |props| && SaysUnavailable(props[j], id) {
        assert props[j] in props;
      }
    }
  }

  method GapsOfNode(n: GNode, pc: nat, marked: bool, ghost edges: seq<GEdge>, ghost props: seq<NodeProperty>)
      returns (found: seq<Gap>)
    requires pc == ProviderRows(edges, n.id) && marked == MarkedUnavailable(props, n.id)
    ensures found == GapsOf(edges, props)(n)
  {
    found := [];
    if n.typ != "capability" {
      return;
    }
    if pc == 0 {
      found := found + [Gap(NoProvider, n.id, n.typ, 0)];
    } else if pc == 1 {
      found := found + [Gap(SingleProvider, n.id, n.typ, 1)];
    }
    if marked {
      found := found + [Gap(Unavailable, n.id, "", pc)];
    }
  }

  method DetectGaps(nodes: seq<GNode>, edges: seq<GEdge>, props: seq<NodeProperty>) returns (gaps: seq<Gap>)
    ensures gaps == Concat(nodes, GapsOf(edges, props))
  {
    var providerCount := CountProviders(edges);
    var unavailable := MarkUnavailable(props);
    ghost var f := GapsOf(edges, props);
    gaps := [];
    for i := 0 to |nodes|
      invariant gaps == Concat(nodes[..i], f)
    {
      ConcatNext(nodes, i, f);
      var found := GapsOfNode(nodes[i], Count(providerCount, nodes[i].id), nodes[i].id in unavailable, edges, props);
      gaps := gaps + found;
    }
    assert nodes[..|nodes|] == nodes;
  }

  // --- what is reported ---

  lemma GapFields(edges: seq<GEdge>, props: seq<NodeProperty>, n: GNode, g: Gap)
    requires g in GapsOf(edges, props)(n)
    ensures g.capabilityId == n.id && n.typ == "capability"
  {}

  /** The gaps of a capability come from that node. */
  lemma GapSource(nodes: seq<GNode>, edges: seq<GEdge>, props: seq<NodeProperty>, n: GNode, g: Gap)
    requires n in nodes && n.typ == "capability" && g.capabilityId == n.id
    ensures g in Concat(nodes, GapsOf(edges, props)) <==> g in GapsOf(edges, props)(n)
  {
    ConcatMembers(nodes, GapsOf(edges, props), g);
    if m :| m in nodes && g in GapsOf(edges, props)(m) {
      GapFields(edges, props, m, g);
      assert m == n;
    }
  }

  /** Which gaps are reported for a capability. */
  lemma GapIff(nodes: seq<GNode>, edges: seq<GEdge>, props: seq<NodeProperty>, n: GNode)
    requires n in nodes && n.typ == "capability"
    ensures Gap(NoProvider, n.id, n.typ, 0) in Concat(nodes, GapsOf(edges, props)) <==> ProviderRows(edges, n.id) == 0
    ensures Gap(SingleProvider, n.id, n.typ, 1) in Concat(nodes, GapsOf(edges, props)) <==>
      ProviderRows(edges, n.id) == 1
    ensures Gap(Unavailable, n.id, "", ProviderRows(edges, n.id)) in Concat(nodes, GapsOf(edges, props)) <==>
      exists p :: p in props && p.owner == n.id && p.key == "availability" && p.value == Bool(false)
  {
    GapSource(nodes, edges, props, n, Gap(NoProvider, n.id, n.typ, 0));
    GapSource(nodes, edges, props, n, Gap(SingleProvider, n.id, n.typ, 1));
    GapSource(nodes, edges, props, n, Gap(Unavailable, n.id, "", ProviderRows(edges, n.id)));
  }

  /** The distinct actors that provide the capability. */
  ghost function Providers(edges: seq<GEdge>, id: string): set<string> {
    set e | e in edges && e.typ == "provides" && e.to == id :: e.from
  }

  ghost predicate DistinctSources(rows: seq<GEdge>) {
    forall i, j :: 0 <= i < j < |rows| ==> rows[i].from != rows[j].from
  }

  /** providerCount counts rows: it is never below the number of distinct providers, zero together
      with it, and equal to it when no provider has two rows (in different domains) to the capability. */
  lemma RowsVersusProviders(edges: seq<GEdge>, id: string)
    ensures |Providers(edges, id)| <= ProviderRows(edges, id)
    ensures |Providers(edges, id)| == 0 <==> ProviderRows(edges, id) == 0
    ensures |Providers(edges, id)| == ProviderRows(edges, id) <==> DistinctSources(Filter(edges, ProvidesTo(id)))
  {
    var rows := Filter(edges, ProvidesTo(id));
    FilterMembers(edges, ProvidesTo(id));
    Sources(rows);
    assert Providers(edges, id) == From(rows);
  }

  /** One actor provides the capability, through more than one row. */
  ghost predicate RepeatedProvider(edges: seq<GEdge>, id: string) {
    |Providers(edges, id)| == 1 && ProviderRows(edges, id) > 1
  }

  /** Counting rows instead of actors tells a single provider wrongly exactly for repeated providers. */
  lemma SingleRowIff(edges: seq<GEdge>, id: string)
    ensures ProviderRows(edges, id) == 1 ==> |Providers(edges, id)| == 1
    ensures (ProviderRows(edges, id) == 1 <==> |Providers(edges, id)| == 1) <==> !RepeatedProvider(edges, id)
  {
    RowsVersusProviders(edges, id);
  }

  /** A reported single_provider gap is always right; the report is wrong about a capability exactly when
      its only provider is repeated, and then by leaving the gap out. */
  lemma SingleProviderGapIff(nodes: seq<GNode>, edges: seq<GEdge>, props: seq<NodeProperty>, n: GNode)
    requires n in nodes && n.typ == "capability"
    ensures
      var reported := Gap(SingleProvider, n.id, n.typ, 1) in Concat(nodes, GapsOf(edges, props));
      && (reported ==> |Providers(edges, n.id)| == 1)
      && ((reported <==> |Providers(edges, n.id)| == 1) <==> !RepeatedProvider(edges, n.id))
  {
    GapIff(nodes, edges, props, n);
    SingleRowIff(edges, n.id);
  }

  ghost function From(rows: seq<GEdge>): set<string> { set e | e in rows :: e.from }

  lemma FromSnoc(us: seq<GEdge>, r: GEdge)
    ensures From(us + [r]) == From(us) + {r.from}
    ensures DistinctSources(us + [r]) <==> DistinctSources(us) && r.from !in From(us)
  {
    var all := us + [r];
    forall f ensures f in From(all) <==> f in From(us) + {r.from} {
      if f in From(us) {
        var e :| e in us && e.from == f;
        assert e in all;
      }
      assert r in all;
    }
    if r.from in From(us) {
      var e :| e in us && e.from == r.from;
      var i :| 0 <= i < |us| && us[i] == e;
      assert all[i].from == all[|us|].from;
    } else {
      forall i | 0 <= i < |us| ensures us[i].from != r.from {
        assert us[i] in us;
      }
    }
    if DistinctSources(all) {
      assert forall i, j :: 0 <= i < j < |us| ==> all[i] == us[i] && all[j] == us[j];
    }
  }

  lemma {:induction false} Sources(rows: seq<GEdge>)
    ensures |From(rows)| <= |rows| && (|From(rows)| == 0 <==> |rows| == 0)
    ensures |From(rows)| == |rows| <==> DistinctSources(rows)
  {
    if rows != [] {
      var n := |rows| - 1;
      Sources(rows[..n]);
      FromSnoc(rows[..n], rows[n]);
      assert rows == rows[..n] + [rows[n]];
    }
  }
}
