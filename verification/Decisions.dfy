/** Merging the outputs of all policies into one decision. */
module Decisions {
  import opened Basics

  datatype Obligation = Obligation(name: string, properties: Blob)

  /** A decision as a value; ZERO is the zero value of the decision. */
  datatype Verdict = Verdict(action: string, reasons: seq<string>, obligations: seq<Obligation>)

  const ZERO: Verdict := Verdict("", [], [])

  type Output = map<string, Json>

  // --- what one policy output says ---

  function ActionOf(out: Output): string {
    if "action" in out && out["action"].Text? then out["action"].s else ""
  }

  function Texts(items: seq<Json>): seq<string> {
    if items == [] then []
    else
      var rest, j := Texts(items[..|items| - 1]), items[|items| - 1];
      if j.Text? then rest + [j.s] else rest
  }

  function ObligationOf(m: map<string, Json>): Obligation {
    Obligation(if "name" in m && m["name"].Text? then m["name"].s else "",
               if "properties" in m then Decode(m["properties"]) else None)
  }

  function ObligationsIn(items: seq<Json>): seq<Obligation> {
    if items == [] then []
    else
      var rest, j := ObligationsIn(items[..|items| - 1]), items[|items| - 1];
      if j.Object? then rest + [ObligationOf(j.fields)] else rest
  }

  function Items(out: Output, name: string): seq<Json> {
    if name in out && out[name].Array? then out[name].items else []
  }

  function VerdictOf(out: Output): Verdict {
    Verdict(ActionOf(out), Texts(Items(out, "reasons")), ObligationsIn(Items(out, "obligations")))
  }

  /** Two decisions one after the other: a deny wins, otherwise the first action; the rest is appended. */
  function Combine(d: Verdict, e: Verdict): Verdict {
    Verdict(if e.action != "" && (d.action == "" || e.action == "deny") then e.action else d.action,
            d.reasons + e.reasons, d.obligations + e.obligations)
  }

  function Fold(outs: seq<Output>): Verdict {
    if outs == [] then ZERO else Combine(Fold(outs[..|outs| - 1]), VerdictOf(outs[|outs| - 1]))
  }

  // --- mergeDecision ---

  class Decision {
    var action: string
    var reasons: seq<string>
    var obligations: seq<Obligation>

    function Value(): Verdict
      reads this
    {
      Verdict(action, reasons, obligations)
    }

    constructor ()
      ensures Value() == ZERO
    {
      action, reasons, obligations := "", [], [];
    }

    method MergeReasons(items: seq<Json>)
      modifies this`reasons
      ensures reasons == old(reasons) + Texts(items)
    {
      for i := 0 to |items|
        invariant reasons == old(reasons) + Texts(items[..i])
      {
        assert items[..i + 1][..i] == items[..i];
        if items[i].Text? {
          reasons := reasons + [items[i].s];
        }
      }
      assert items[..|items|] == items;
    }

    method MergeObligations(items: seq<Json>)
      modifies this`obligations
      ensures obligations == old(obligations) + ObligationsIn(items)
    {
      for i := 0 to |items|
        invariant obligations == old(obligations) + ObligationsIn(items[..i])
      {
        assert items[..i + 1][..i] == items[..i];
        if items[i].Object? {
          var m := items[i].fields;
          var name, properties := "", None;
          if "name" in m && m["name"].Text? { name := m["name"].s; }
          if "properties" in m && m["properties"].Object? { properties := Some(m["properties"].fields); }
          obligations := obligations + [Obligation(name, properties)];
        }
      }
      assert items[..|items|] == items;
    }

    method Merge(out: Output)
      modifies this
      ensures Value() == Combine(old(Value()), VerdictOf(out))
    {
      if "action" in out && out["action"].Text? && out["action"].s != "" {
        if action == "" || out["action"].s == "deny" {
          action := out["action"].s;
        }
      }
      if "reasons" in out && out["reasons"].Array? {
        MergeReasons(out["reasons"].items);
      }
      if "obligations" in out && out["obligations"].Array? {
        MergeObligations(out["obligations"].items);
      }
    }
  }

  // --- Eval ---

  datatype ResolvedNode = ResolvedNode(nodeId: string, blob: Json)
  datatype ResolvedPolicy = ResolvedPolicy(policyNodeId: string, pkg: string, rule: string)

  /** The evaluation of a policy's source: None when it errs or returns no result. */
  type Rego = (ResolvedPolicy, string) -> Option<Json>

  /** The blob of the last node with this id whose blob reads as a map (an object or null). */
  function NodeBlob(nodes: seq<ResolvedNode>, id: string): Option<Blob> {
    if nodes == [] then None
    else
      var n := nodes[|nodes| - 1];
      if n.nodeId == id && (n.blob.Object? || n.blob.Null?) then Some(Decode(n.blob))
        else NodeBlob(nodes[..|nodes| - 1], id)
  }

  function SourceOf(b: Blob): string {
    if b.Some? && "source" in b.value && b.value["source"].Text? then b.value["source"].s else ""
  }

  /** What one policy contributes, or the error that ends the evaluation. */
  function Evaluated(nodes: seq<ResolvedNode>, rego: Rego, p: ResolvedPolicy): Result<Output> {
    match NodeBlob(nodes, p.policyNodeId)
    case None => Err(PolicyNodeNotFound)
    case Some(b) =>
      if SourceOf(b) == "" then Err(PolicyWithoutSource)
      else match rego(p, SourceOf(b))
        case None => Err(PolicyFailed)
        case Some(j) => if j.Object? then Ok(j.fields) else Err(PolicyFailed)
  }

  predicate AllEvaluate(nodes: seq<ResolvedNode>, rego: Rego, ps: seq<ResolvedPolicy>) {
    forall p :: p in ps ==> Evaluated(nodes, rego, p).Ok?
  }

  function Outputs(nodes: seq<ResolvedNode>, rego: Rego, ps: seq<ResolvedPolicy>): seq<Output>
    requires AllEvaluate(nodes, rego, ps)
  {
    seq(|ps|, i requires 0 <= i < |ps| => Evaluated(nodes, rego, ps[i]).value)
  }

  function Lookup(m: map<string, Blob>, id: string): Option<Blob> { if id in m then Some(m[id]) else None }

  /** The blobs by node id; nodes whose blob is no map are skipped. */
  method IndexBlobs(nodes: seq<ResolvedNode>) returns (nodeBlobs: map<string, Blob>)
    ensures forall id {:trigger NodeBlob(nodes, id)} :: NodeBlob(nodes, id) == Lookup(nodeBlobs, id)
  {
    nodeBlobs := map[];
    for i := 0 to |nodes|
      invariant forall id {:trigger NodeBlob(nodes[..i], id)} ::
        NodeBlob(nodes[..i], id) == Lookup(nodeBlobs, id)
    {
      ghost var before := nodeBlobs;
      assert nodes[..i + 1][..i] == nodes[..i];
      if nodes[i].blob.Object? || nodes[i].blob.Null? {
        nodeBlobs := nodeBlobs[nodes[i].nodeId := Decode(nodes[i].blob)];
      }
      forall id ensures NodeBlob(nodes[..i + 1], id) == Lookup(nodeBlobs, id) {
        assert NodeBlob(nodes[..i], id) == Lookup(before, id);
      }
    }
    assert nodes[..|nodes|] == nodes;
  }

  /** Look the policy's source up and evaluate it. */
  method EvalPolicy(nodeBlobs: map<string, Blob>, p: ResolvedPolicy, rego: Rego, ghost nodes: seq<ResolvedNode>)
      returns (r: Result<Output>)
    requires NodeBlob(nodes, p.policyNodeId) == Lookup(nodeBlobs, p.policyNodeId)
    ensures r == Evaluated(nodes, rego, p)
  {
    if p.policyNodeId !in nodeBlobs {
      return Err(PolicyNodeNotFound);
    }
    var src := SourceOf(nodeBlobs[p.policyNodeId]);
    if src == "" {
      return Err(PolicyWithoutSource);
    }
    var out := rego(p, src);
    if out.None? || !out.value.Object? {
      return Err(PolicyFailed);
    }
    r := Ok(out.value.fields);
  }

  /** Either every policy evaluates and the decision is the fold of all outputs, or the decision is
      dropped and the error is that of the first policy that fails. */
  method Eval(nodes: seq<ResolvedNode>, policies: seq<ResolvedPolicy>, rego: Rego) returns (r: Result<Verdict>)
    ensures AllEvaluate(nodes, rego, policies) ==> r == Ok(Fold(Outputs(nodes, rego, policies)))
    ensures !AllEvaluate(nodes, rego, policies) ==>
      exists k :: 0 <= k < |policies| && AllEvaluate(nodes, rego, policies[..k])
        && Evaluated(nodes, rego, policies[k]).Err? && r == Err(Evaluated(nodes, rego, policies[k]).error)
  {
    var nodeBlobs := IndexBlobs(nodes);
    var decision := new Decision();
    for i := 0 to |policies|
      invariant AllEvaluate(nodes, rego, policies[..i])
      invariant decision.Value() == Fold(Outputs(nodes, rego, policies[..i]))
    {
      assert NodeBlob(nodes, policies[i].policyNodeId).None? <==> policies[i].policyNodeId !in nodeBlobs;
      var out := EvalPolicy(nodeBlobs, policies[i], rego, nodes);
      if out.Err? {
        assert policies[i] in policies;
        return Err(out.error);
      }
      decision.Merge(out.value);
      OutputsNext(nodes, rego, policies, i);
    }
    assert policies[..|policies|] == policies;
    r := Ok(decision.Value());
  }

  lemma OutputsNext(nodes: seq<ResolvedNode>, rego: Rego, ps: seq<ResolvedPolicy>, i: nat)
    requires i < |ps| && AllEvaluate(nodes, rego, ps[..i]) && Evaluated(nodes, rego, ps[i]).Ok?
    ensures AllEvaluate(nodes, rego, ps[..i + 1])
    ensures Fold(Outputs(nodes, rego, ps[..i + 1])) ==
            Combine(Fold(Outputs(nodes, rego, ps[..i])), VerdictOf(Evaluated(nodes, rego, ps[i]).value))
  {
    assert ps[..i + 1] == ps[..i] + [ps[i]];
    var all := Outputs(nodes, rego, ps[..i + 1]);
    assert all[..i] == Outputs(nodes, rego, ps[..i]);
  }

  // --- the algebra of merging ---

  /** Combining is associative and ZERO is its unit: merging is a monoid. */
  lemma CombineMonoid(d: Verdict, e: Verdict, f: Verdict)
    ensures Combine(Combine(d, e), f) == Combine(d, Combine(e, f))
    ensures Combine(ZERO, d) == d && Combine(d, ZERO) == d
  {
    assert d.reasons + e.reasons + f.reasons == d.reasons + (e.reasons + f.reasons);
    assert d.obligations + e.obligations + f.obligations == d.obligations + (e.obligations + f.obligations);
    assert [] + d.reasons == d.reasons == d.reasons + [];
    assert [] + d.obligations == d.obligations == d.obligations + [];
  }

  /** Folding two policy lists one after the other is combining their folds. */
  lemma {:induction false} FoldConcat(xs: seq<Output>, ys: seq<Output>)
    ensures Fold(xs + ys) == Combine(Fold(xs), Fold(ys))
  {
    if ys == [] {
      assert xs + ys == xs;
      CombineMonoid(Fold(xs), ZERO, ZERO);
    } else {
      var n := |ys| - 1;
      FoldConcat(xs, ys[..n]);
      assert (xs + ys)[..|xs + ys| - 1] == xs + ys[..n];
      CombineMonoid(Fold(xs), Fold(ys[..n]), VerdictOf(ys[n]));
    }
  }

  /** The first non-empty action, in policy order. */
  function FirstAction(outs: seq<Output>): string {
    if outs == [] then "" else if ActionOf(outs[0]) != "" then ActionOf(outs[0]) else FirstAction(outs[1..])
  }

  predicate Denies(out: Output) { ActionOf(out) == "deny" }

  lemma {:induction false} FirstActionSnoc(outs: seq<Output>, out: Output)
    ensures FirstAction(outs + [out]) == if FirstAction(outs) != "" then FirstAction(outs) else ActionOf(out)
  {
    if outs != [] {
      FirstActionSnoc(outs[1..], out);
      assert (outs + [out])[1..] == outs[1..] + [out];
    } else {
      assert ([] + [out])[1..] == [];
    }
  }

  predicate AnyDenies(outs: seq<Output>) { exists i :: 0 <= i < |outs| && Denies(outs[i]) }

  lemma AnyDeniesSnoc(outs: seq<Output>, o: Output)
    ensures AnyDenies(outs + [o]) <==> AnyDenies(outs) || Denies(o)
  {
    var all := outs + [o];
    assert all[|outs|] == o;
    if i :| 0 <= i < |outs| && Denies(outs[i]) { assert all[i] == outs[i]; }
  }

  lemma {:induction false} FirstActionFacts(outs: seq<Output>)
    ensures FirstAction(outs) == "" ==> forall i :: 0 <= i < |outs| ==> ActionOf(outs[i]) == ""
    ensures FirstAction(outs) == "deny" ==> AnyDenies(outs)
  {
    if outs != [] {
      FirstActionFacts(outs[1..]);
      if i :| 0 <= i < |outs[1..]| && Denies(outs[1..][i]) { assert Denies(outs[i + 1]); }
      forall i | 0 <= i < |outs| && FirstAction(outs) == "" ensures ActionOf(outs[i]) == "" {
        if i > 0 { assert outs[i] == outs[1..][i - 1]; }
      }
    }
  }

  lemma FoldActionSnoc(us: seq<Output>, o: Output)
    ensures Fold(us + [o]).action ==
      if ActionOf(o) != "" && (Fold(us).action == "" || ActionOf(o) == "deny") then ActionOf(o) else Fold(us).action
  {
    assert (us + [o])[..|us|] == us;
  }

  /** One more action a after actions whose merge is prev. */
  lemma ActionStep(prev: string, a: string, anyDenies: bool, first: string)
    requires prev == if anyDenies then "deny" else first
    requires first == "deny" ==> anyDenies
    ensures (if a != "" && (prev == "" || a == "deny") then a else prev)
         == if anyDenies || a == "deny" then "deny" else if first != "" then first else a
  {}

  /** The decision denies iff some policy denies; otherwise it takes the first non-empty action. */
  lemma {:induction false} DenyWins(outs: seq<Output>)
    ensures Fold(outs).action == if AnyDenies(outs) then "deny" else FirstAction(outs)
  {
    if outs != [] {
      var us, o := outs[..|outs| - 1], outs[|outs| - 1];
      assert outs == us + [o];
      DenyWins(us);
      FoldActionSnoc(us, o);
      AnyDeniesSnoc(us, o);
      FirstActionSnoc(us, o);
      FirstActionFacts(us);
      ActionStep(Fold(us).action, ActionOf(o), AnyDenies(us), FirstAction(us));
    }
  }

  /** A decision denies iff one of the policies does. */
  lemma DeniesIff(outs: seq<Output>)
    ensures Fold(outs).action == "deny" <==> AnyDenies(outs)
  {
    DenyWins(outs);
    FirstActionFacts(outs);
  }

  /** All reasons of all policies, in order; likewise the obligations. */
  function AllReasons(outs: seq<Output>): seq<string> {
    if outs == [] then [] else AllReasons(outs[..|outs| - 1]) + Texts(Items(outs[|outs| - 1], "reasons"))
  }

  function AllObligations(outs: seq<Output>): seq<Obligation> {
    if outs == [] then []
      else AllObligations(outs[..|outs| - 1]) + ObligationsIn(Items(outs[|outs| - 1], "obligations"))
  }

  lemma {:induction false} FoldCollects(outs: seq<Output>)
    ensures Fold(outs).reasons == AllReasons(outs) && Fold(outs).obligations == AllObligations(outs)
  {
    if outs != [] {
      FoldCollects(outs[..|outs| - 1]);
    }
  }

  /** Swapping where one output stands moves its reasons and obligations, and loses none. */
  lemma FoldSplit(xs: seq<Output>, o: Output, ys: seq<Output>)
    ensures multiset(Fold(xs + [o] + ys).reasons) == multiset(VerdictOf(o).reasons) + multiset(Fold(xs + ys).reasons)
    ensures multiset(Fold(xs + [o] + ys).obligations) ==
      multiset(VerdictOf(o).obligations) + multiset(Fold(xs + ys).obligations)
  {
    FoldConcat(xs + [o], ys);
    FoldConcat(xs, [o]);
    FoldConcat(xs, ys);
    assert [o][..0] == [];
    assert Fold([o]) == Combine(ZERO, VerdictOf(o));
    CombineMonoid(VerdictOf(o), ZERO, ZERO);
  }

  lemma SameDenies(xs: seq<Output>, ys: seq<Output>)
    requires multiset(xs) == multiset(ys) && AnyDenies(xs)
    ensures AnyDenies(ys)
  {
    var i :| 0 <= i < |xs| && Denies(xs[i]);
    assert xs[i] in multiset(xs);
    assert xs[i] in ys;
  }

  lemma {:induction false} PermutedCollections(xs: seq<Output>, ys: seq<Output>)
    requires multiset(xs) == multiset(ys)
    ensures multiset(Fold(xs).reasons) == multiset(Fold(ys).reasons)
    ensures multiset(Fold(xs).obligations) == multiset(Fold(ys).obligations)
    decreases |xs|
  {
    assert |xs| == |multiset(xs)| == |multiset(ys)| == |ys|;
    if xs != [] {
      var o := xs[0];
      var i := SplitAtFirst(xs, ys);
      PermutedCollections(xs[1..], ys[..i] + ys[i + 1..]);
      FoldSplit([], o, xs[1..]);
      assert [] + [o] + xs[1..] == xs && [] + xs[1..] == xs[1..];
      FoldSplit(ys[..i], o, ys[i + 1..]);
    }
  }

  /** Reordering the policies keeps whether the decision denies and keeps all reasons and obligations. */
  lemma PermutationInvariant(xs: seq<Output>, ys: seq<Output>)
    requires multiset(xs) == multiset(ys)
    ensures Fold(xs).action == "deny" <==> Fold(ys).action == "deny"
    ensures multiset(Fold(xs).reasons) == multiset(Fold(ys).reasons)
    ensures multiset(Fold(xs).obligations) == multiset(Fold(ys).obligations)
  {
    DeniesIff(xs);
    DeniesIff(ys);
    if AnyDenies(xs) { SameDenies(xs, ys); }
    if AnyDenies(ys) { SameDenies(ys, xs); }
    PermutedCollections(xs, ys);
  }

  // --- what a policy's output says, and what it cannot say ---

  /** The output that says a decision. */
  function ObligationJson(o: Obligation): Json {
    Object(map["name" := Text(o.name), "properties" := if o.properties.Some? then Object(o.properties.value) else Null])
  }

  function OutputOf(v: Verdict): Output {
    map["action" := Text(v.action), "reasons" := Array(Map(v.reasons, (s: string) => Text(s))),
        "obligations" := Array(Map(v.obligations, ObligationJson))]
  }

  lemma {:induction false} TextsReadBack(ss: seq<string>)
    ensures Texts(Map(ss, (s: string) => Text(s))) == ss
  {
    if ss != [] {
      var n := |ss| - 1;
      var g := (s: string) => Text(s);
      TextsReadBack(ss[..n]);
      assert ss == ss[..n] + [ss[n]];
      MapSnoc(ss[..n], ss[n], g);
      assert Map(ss, g)[..n] == Map(ss[..n], g);
    }
  }

  lemma {:induction false} ObligationsReadBack(os: seq<Obligation>)
    ensures ObligationsIn(Map(os, ObligationJson)) == os
  {
    if os != [] {
      var n := |os| - 1;
      ObligationsReadBack(os[..n]);
      assert os == os[..n] + [os[n]];
      MapSnoc(os[..n], os[n], ObligationJson);
      assert Map(os, ObligationJson)[..n] == Map(os[..n], ObligationJson);
      assert ObligationOf(ObligationJson(os[n]).fields) == os[n];
    }
  }

  lemma OutputFields(v: Verdict)
    ensures ActionOf(OutputOf(v)) == v.action
    ensures Items(OutputOf(v), "reasons") == Map(v.reasons, (s: string) => Text(s))
    ensures Items(OutputOf(v), "obligations") == Map(v.obligations, ObligationJson)
  {
    var out := OutputOf(v);
    assert out["action"] == Text(v.action);
    assert out["reasons"] == Array(Map(v.reasons, (s: string) => Text(s)));
    assert out["obligations"] == Array(Map(v.obligations, ObligationJson));
  }

  /** Every decision can be said by an output, and is read back as it was said. */
  lemma VerdictReadsBack(v: Verdict)
    ensures VerdictOf(OutputOf(v)) == v
  {
    OutputFields(v);
    TextsReadBack(v.reasons);
    ObligationsReadBack(v.obligations);
  }

  /** Items of the wrong kind say nothing, wherever they stand. */
  lemma {:induction false} StraysSayNothing(xs: seq<Json>, j: Json, ys: seq<Json>)
    ensures !j.Text? ==> Texts(xs + [j] + ys) == Texts(xs + ys)
    ensures !j.Object? ==> ObligationsIn(xs + [j] + ys) == ObligationsIn(xs + ys)
  {
    if ys == [] {
      assert (xs + [j] + ys)[..|xs|] == xs && xs + ys == xs;
    } else {
      var n := |ys| - 1;
      StraysSayNothing(xs, j, ys[..n]);
      assert (xs + [j] + ys)[..|xs| + 1 + n] == xs + [j] + ys[..n];
      assert (xs + ys)[..|xs| + n] == xs + ys[..n];
    }
  }

  /** Fields of the wrong kind, or missing, read as empty; nothing else of the output counts. */
  lemma VerdictReadsFields(out: Output, d: Verdict)
    requires d == VerdictOf(out)
    ensures forall a :: a != "" ==> (d.action == a <==> "action" in out && out["action"] == Text(a))
    ensures "reasons" !in out || !out["reasons"].Array? ==> d.reasons == []
    ensures "obligations" !in out || !out["obligations"].Array? ==> d.obligations == []
    ensures forall items :: "reasons" in out && out["reasons"] == Array(items) ==> d.reasons == Texts(items)
    ensures forall items :: "obligations" in out && out["obligations"] == Array(items) ==>
      d.obligations == ObligationsIn(items)
  {}

  lemma ObligationReadsFields(m: map<string, Json>, o: Obligation)
    requires o == ObligationOf(m)
    ensures forall s :: s != "" ==> (o.name == s <==> "name" in m && m["name"] == Text(s))
    ensures forall p :: o.properties == Some(p) <==> "properties" in m && m["properties"] == Object(p)
  {}

  // --- which policies evaluate ---

  /** The blob that counts for an id is that of the last node with the id whose blob is an object or null. */
  ghost predicate BlobAt(nodes: seq<ResolvedNode>, id: string, i: int) {
    && 0 <= i < |nodes| && nodes[i].nodeId == id && (nodes[i].blob.Object? || nodes[i].blob == Null)
    && forall j :: i < j < |nodes| && nodes[j].nodeId == id ==> !nodes[j].blob.Object? && nodes[j].blob != Null
  }

  lemma {:induction false} NodeBlobIs(nodes: seq<ResolvedNode>, id: string)
    ensures NodeBlob(nodes, id).None? <==>
      forall n :: n in nodes && n.nodeId == id ==> !n.blob.Object? && n.blob != Null
    ensures forall i :: BlobAt(nodes, id, i) ==>
      NodeBlob(nodes, id) == Some(if nodes[i].blob.Object? then Some(nodes[i].blob.fields) else None)
  {
    if nodes != [] {
      var n := |nodes| - 1;
      NodeBlobIs(nodes[..n], id);
      assert nodes == nodes[..n] + [nodes[n]];
      forall i | BlobAt(nodes, id, i)
        ensures NodeBlob(nodes, id) == Some(if nodes[i].blob.Object? then Some(nodes[i].blob.fields) else None)
      {
        if i < n { assert BlobAt(nodes[..n], id, i); }
      }
    }
  }

  lemma {:induction false} BlobPlace(nodes: seq<ResolvedNode>, id: string) returns (i: nat)
    requires NodeBlob(nodes, id).Some?
    ensures BlobAt(nodes, id, i)
  {
    var n := |nodes| - 1;
    if nodes[n].nodeId == id && (nodes[n].blob.Object? || nodes[n].blob.Null?) {
      i := n;
    } else {
      i := BlobPlace(nodes[..n], id);
    }
  }

  /** The node that counts for the id has an object blob with this non-empty text as its source. */
  ghost predicate SourceAt(nodes: seq<ResolvedNode>, id: string, i: int, src: string) {
    && BlobAt(nodes, id, i) && nodes[i].blob.Object? && "source" in nodes[i].blob.fields
    && nodes[i].blob.fields["source"] == Text(src) && src != ""
  }

  /** A policy evaluates to an output iff the node that counts for it has a source, for which the evaluator
      returns that output as an object. */
  lemma EvaluatesIff(nodes: seq<ResolvedNode>, rego: Rego, p: ResolvedPolicy, out: Output)
    ensures Evaluated(nodes, rego, p) == Ok(out) <==>
      exists i, src :: SourceAt(nodes, p.policyNodeId, i, src) && rego(p, src) == Some(Object(out))
  {
    var id := p.policyNodeId;
    NodeBlobIs(nodes, id);
    if Evaluated(nodes, rego, p) == Ok(out) {
      var i := BlobPlace(nodes, id);
      assert SourceAt(nodes, id, i, SourceOf(NodeBlob(nodes, id).value));
    }
    forall i, src | SourceAt(nodes, id, i, src) && rego(p, src) == Some(Object(out))
      ensures Evaluated(nodes, rego, p) == Ok(out)
    {
      assert NodeBlob(nodes, id) == Some(Some(nodes[i].blob.fields));
    }
  }

  /** Which error a policy that does not evaluate ends with. */
  lemma FailsBecause(nodes: seq<ResolvedNode>, rego: Rego, p: ResolvedPolicy)
    ensures Evaluated(nodes, rego, p) == Err(PolicyNodeNotFound) <==> !exists i :: BlobAt(nodes, p.policyNodeId, i)
    ensures Evaluated(nodes, rego, p) == Err(PolicyWithoutSource) <==>
      (exists i :: BlobAt(nodes, p.policyNodeId, i)) && !exists i, src :: SourceAt(nodes, p.policyNodeId, i, src)
  {
    var id := p.policyNodeId;
    NodeBlobIs(nodes, id);
    if NodeBlob(nodes, id).Some? {
      var i := BlobPlace(nodes, id);
      var src := SourceOf(NodeBlob(nodes, id).value);
      assert src != "" ==> SourceAt(nodes, id, i, src);
      forall j, x | SourceAt(nodes, id, j, x) ensures src == x {}
    }
  }
}
