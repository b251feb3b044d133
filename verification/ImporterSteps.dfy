/** How an importer moves through its bundle, put by put. */
module ImporterSteps {
  import opened Basics
  import opened Ordering
  import opened VersionedLog
  import opened ConcurrentPut
  import opened Schema
  import opened Bundles
  import opened BundleLaws
  import opened World
  import opened WorldSafety
  import opened WorldPuts
  import opened Lifecycle
  import opened InterleavedImport

  lemma ProgressSnoc<V>(ts: seq<Table<V>>, evs: seq<Event<V>>, items: seq<Item<V>>, tab: Table<V>, ev: Event<V>)
    requires |ts| == |evs| + 1
    ensures ProgressOf(ts + [tab], evs + [ev], items) ==
      Advance(ProgressOf(ts, evs, items), ev, tab.log != ts[|evs|].log, items)
  {
    assert (ts + [tab])[..|evs| + 1] == ts && (evs + [ev])[..|evs|] == evs;
  }

  /** The four events of one put take the importer to the next item, or stop it if nothing landed. */
  lemma OnePut<V>(ts: seq<Table<V>>, evs: seq<Event<V>>, items: seq<Item<V>>, t1: Table<V>, t2: Table<V>, t3: Table<V>,
      t4: Table<V>)
    requires |ts| == |evs| + 1 && ProgressOf(ts, evs, items).Between? && ProgressOf(ts, evs, items).done < |items|
    requires t1.log == ts[|evs|].log && t2.log == t1.log && t3.log == t2.log
    ensures
      var i := ProgressOf(ts, evs, items).done;
      var evs2 := evs + [Asks(items[i])] + [Runs(CheckExpected)] + [Runs(TakeSnapshot)] + [Runs(InsertRow)];
      ProgressOf(ts + [t1] + [t2] + [t3] + [t4], evs2, items) == if t4.log != t3.log then Between(i + 1) else Stopped(i)
  {
    var i := ProgressOf(ts, evs, items).done;
    ProgressSnoc(ts, evs, items, t1, Asks(items[i]));
    ProgressSnoc(ts + [t1], evs + [Asks(items[i])], items, t2, Runs(CheckExpected));
    ProgressSnoc(ts + [t1] + [t2], evs + [Asks(items[i])] + [Runs(CheckExpected)], items, t3, Runs(TakeSnapshot));
    ProgressSnoc(ts + [t1] + [t2] + [t3], evs + [Asks(items[i])] + [Runs(CheckExpected)] + [Runs(TakeSnapshot)], items,
      t4, Runs(InsertRow));
  }

  /** The moves of one put: the request and its three statements. */
  function WithPut(moves: seq<Move>, m1: Move, p: nat, which: Which): seq<Move> {
    moves + [m1] + [Go(p, which, CheckExpected)] + [Go(p, which, TakeSnapshot)] + [Go(p, which, InsertRow)]
  }

  lemma BeforeSame(w: World, moves: seq<Move>, more: seq<Move>, k: nat)
    requires k <= |moves|
    ensures Before(w, moves + more, k) == Before(w, moves, k)
  {
    assert (moves + more)[..k] == moves[..k];
  }

  lemma AfterSnoc(w: World, moves: seq<Move>, mv: Move)
    ensures After(w, moves + [mv]) == Step(After(w, moves), mv)
  {
    assert (moves + [mv])[..|moves|] == moves;
  }

  /** The check and the snapshot leave the table's rows alone. */
  lemma ReadsKeepLog<V>(t: Table<V>, p: nat, item: Item<V>, refExists: bool)
    ensures
      var t1 := BeginItem(t, p, item, None);
      var t2 := Apply(t1, ActionOf(p, CheckExpected, refExists));
      t1.log == t.log && t2.log == t.log
    ensures forall u: Table<V> :: Apply(u, ActionOf(p, TakeSnapshot, refExists)).log == u.log
  {}

  lemma NodesAtPin(w: World, t: string, pin: Pin, b: Bundle, ids: Ids)
    requires UsablePin(w.db, t, pin)
    ensures ItemsAtPin(NodeItems(w.db.models, t, pin, b.nodes, ids.node), t, pin)
  {
    var items := NodeItems(w.db.models, t, pin, b.nodes, ids.node);
    forall i | 0 <= i < |items| && !items[i].Reject? ensures AtWrite(Write(items[i].key, items[i].val), t, pin) {
      NodeCarries(w.db, t, pin, b.nodes, ids.node, i);
      assert Carries(w.db.nodes, t, pin, items[i], FilledNodes(b.nodes, ids.node)[i], ToNode, NodeKey);
    }
  }

  lemma EdgesAtPin(w: World, t: string, pin: Pin, b: Bundle)
    requires UsablePin(w.db, t, pin)
    ensures ItemsAtPin(EdgeItems(w.db.models, t, pin, b.edges), t, pin)
  {
    var items := EdgeItems(w.db.models, t, pin, b.edges);
    forall i | 0 <= i < |items| && !items[i].Reject? ensures AtWrite(Write(items[i].key, items[i].val), t, pin) {
      EdgeCarries(w.db, t, pin, b.edges, i);
      assert Carries(w.db.edges, t, pin, items[i], Map(b.edges, FilledEdge)[i], ToEdge, EdgeKey);
    }
  }

  lemma PropertiesAtPin(w: World, t: string, pin: Pin, b: Bundle)
    requires UsablePin(w.db, t, pin)
    ensures ItemsAtPin(PropertyItems(w.db.models, t, pin, b.properties), t, pin)
  {
    var items := PropertyItems(w.db.models, t, pin, b.properties);
    forall i | 0 <= i < |items| && !items[i].Reject? ensures AtWrite(Write(items[i].key, items[i].val), t, pin) {
      PropertyCarries(w.db, t, pin, b.properties, i);
      assert Carries(w.db.props, t, pin, items[i], b.properties[i], ToProperty, PropertyKey);
    }
  }

  lemma ContractsAtPin(w: World, t: string, pin: Pin, b: Bundle, ids: Ids)
    requires UsablePin(w.db, t, pin)
    ensures ItemsAtPin(ContractItems(w.db.models, t, pin, b.contracts, ids.contract), t, pin)
  {
    var items := ContractItems(w.db.models, t, pin, b.contracts, ids.contract);
    forall i | 0 <= i < |items| && !items[i].Reject? ensures AtWrite(Write(items[i].key, items[i].val), t, pin) {
      ContractCarries(w.db, t, pin, b.contracts, ids.contract, i);
      assert Carries(w.db.contracts, t, pin, items[i], FilledContracts(b.contracts, ids.contract, pin)[i],
        ToContract(w.db.reasons, w.db.obligations, t), BundleContractKey);
    }
  }

  lemma NodeTableSnoc(w: World, moves: seq<Move>, mv: Move)
    ensures NodeTables(w, moves + [mv]) == NodeTables(w, moves) + [Step(After(w, moves), mv).Nodes()]
  {
    var ts, ts2 := NodeTables(w, moves), NodeTables(w, moves + [mv]);
    AfterSnoc(w, moves, mv);
    assert (moves + [mv])[..|moves| + 1] == moves + [mv];
    forall k | 0 <= k <= |moves| ensures ts2[k] == ts[k] {
      BeforeSame(w, moves, [mv], k);
    }
  }

  lemma NodeEventSnoc(w: World, moves: seq<Move>, mv: Move, p: nat)
    ensures NodeEvents(w, moves + [mv], p) == NodeEvents(w, moves, p) + [NodeEvent(After(w, moves), mv, p)]
  {
    var evs, evs2 := NodeEvents(w, moves, p), NodeEvents(w, moves + [mv], p);
    assert (moves + [mv])[..|moves|] == moves;
    forall k | 0 <= k < |moves| ensures evs2[k] == evs[k] {
      BeforeSame(w, moves, [mv], k);
    }
  }

  /** The four moves of a put as the table sees them. */
  lemma NodeMoves(w: World, moves: seq<Move>, m1: Move, p: nat)
    ensures
      var m2, m3, m4 := Go(p, OnNodes, CheckExpected), Go(p, OnNodes, TakeSnapshot), Go(p, OnNodes, InsertRow);
      var w0 := After(w, moves);
      var w1 := Step(w0, m1);
      var w2 := Step(w1, m2);
      var w3 := Step(w2, m3);
      && NodeTables(w, moves)[|moves|] == w0.Nodes()
      && NodeTables(w, WithPut(moves, m1, p, OnNodes)) ==
           NodeTables(w, moves) + [w1.Nodes()] + [w2.Nodes()] + [w3.Nodes()] + [Step(w3, m4).Nodes()]
      && NodeEvents(w, WithPut(moves, m1, p, OnNodes), p) ==
           NodeEvents(w, moves,
             p) + [NodeEvent(w0, m1, p)] + [Runs(CheckExpected)] + [Runs(TakeSnapshot)] + [Runs(InsertRow)]
  {
    var m2, m3, m4 := Go(p, OnNodes, CheckExpected), Go(p, OnNodes, TakeSnapshot), Go(p, OnNodes, InsertRow);
    assert moves[..|moves|] == moves;
    AfterSnoc(w, moves, m1);
    AfterSnoc(w, moves + [m1], m2);
    AfterSnoc(w, moves + [m1] + [m2], m3);
    NodeTableSnoc(w, moves, m1);
    NodeTableSnoc(w, moves + [m1], m2);
    NodeTableSnoc(w, moves + [m1] + [m2], m3);
    NodeTableSnoc(w, moves + [m1] + [m2] + [m3], m4);
    NodeEventSnoc(w, moves, m1, p);
    NodeEventSnoc(w, moves + [m1], m2, p);
    NodeEventSnoc(w, moves + [m1] + [m2], m3, p);
    NodeEventSnoc(w, moves + [m1] + [m2] + [m3], m4, p);
  }

  /** What the four moves do to the rows of the table. */
  lemma NodeRows(w: World, p: nat, m1: Move, item: Item<Stored<NodeBody>>)
    requires WorldInv(w) && Idle(w.Nodes(), p) && Step(w, m1) == w.WithNodes(BeginItem(w.Nodes(), p, item, None))
    ensures
      var w1 := Step(w, m1);
      var w2 := Step(w1, Go(p, OnNodes, CheckExpected));
      var w3 := Step(w2, Go(p, OnNodes, TakeSnapshot));
      && w1.Nodes().log == w.Nodes().log && w2.Nodes().log == w1.Nodes().log && w3.Nodes().log == w2.Nodes().log
      && (Step(w3, Go(p, OnNodes, InsertRow)).Nodes().log != w3.Nodes().log <==>
            PutStored(w.db.models, w.Nodes().log, item, None).Ok?)
  {
    var w1 := Step(w, m1);
    ReadsKeepLog(w.Nodes(), p, item, PinHolds(w1.db.models, w1.Nodes(), p));
    var w2 := Step(w1, Go(p, OnNodes, CheckExpected));
    ReadsKeepLog(w.Nodes(), p, item, PinHolds(w2.db.models, w2.Nodes(), p));
    NodeStatements(w, p, item, None);
  }

  lemma NodeIdle(w: World, moves: seq<Move>, p: nat, t: string, pin: Pin, b: Bundle, ids: Ids)
    requires ImportRun(w, moves, p, t, pin) && NodeProgress(w, moves, p, t, pin, b, ids).Between?
    ensures WorldInv(After(w, moves)) && Idle(After(w, moves).Nodes(), p)
  {
    NodesTrace(w, moves, p, t, pin);
    NodesAtPin(w, t, pin, b, ids);
    var rows :=
      TraceLands(NodeTables(w, moves), NodeEvents(w, moves, p), p, NodeItems(w.db.models, t, pin, b.nodes, ids.node),
      t, pin);
    RunEnds(w, moves);
    RunSafety(w, moves);
  }

  lemma NodeAsked(w: World, w0: World, p: nat, t: string, pin: Pin, b: Bundle, ids: Ids, i: nat)
    requires pin.model != "" && pin.version != 0 && i < |b.nodes|
    ensures
      var m1, item := Ask(p, PutNode(NodeRequest(t, pin, b.nodes[i]), None, ids.node(i))),
        NodeItems(w.db.models, t, pin, b.nodes, ids.node)[i];
      Step(w0, m1) == w0.WithNodes(BeginItem(w0.Nodes(), p, item, None)) && NodeEvent(w0, m1, p) == Asks(item)
  {
    assert NodeItems(w.db.models, t, pin, b.nodes, ids.node)[i] ==
      PrepareNode(w0.db.models, NodeRequest(t, pin, b.nodes[i]), ids.node(i));
  }

  lemma NodeAdvances(w: World, moves: seq<Move>, p: nat, m1: Move, items: seq<Item<Stored<NodeBody>>>, i: nat)
    requires ProgressOf(NodeTables(w, moves), NodeEvents(w, moves, p), items) == Between(i) && i < |items|
    requires WorldInv(After(w, moves)) && Idle(After(w, moves).Nodes(), p)
    requires NodeEvent(After(w, moves), m1, p) == Asks(items[i])
    requires Step(After(w, moves), m1) ==
      After(w, moves).WithNodes(BeginItem(After(w, moves).Nodes(), p, items[i], None))
    ensures var w0, moves2 := After(w, moves), WithPut(moves, m1, p, OnNodes);
      ProgressOf(NodeTables(w, moves2), NodeEvents(w, moves2, p), items)
        == if PutStored(w0.db.models, w0.Nodes().log, items[i], None).Ok? then Between(i + 1) else Stopped(i)
  {
    var w0 := After(w, moves);
    NodeMoves(w, moves, m1, p);
    NodeRows(w0, p, m1, items[i]);
    var w1 := Step(w0, m1);
    var w2 := Step(w1, Go(p, OnNodes, CheckExpected));
    var w3 := Step(w2, Go(p, OnNodes, TakeSnapshot));
    assert NodeEvents(w, WithPut(moves, m1, p, OnNodes), p) ==
      NodeEvents(w, moves, p) + [Asks(items[i])] + [Runs(CheckExpected)] + [Runs(TakeSnapshot)] + [Runs(InsertRow)];
    OnePut(NodeTables(w, moves), NodeEvents(w, moves, p), items, w1.Nodes(), w2.Nodes(), w3.Nodes(),
      Step(w3, Go(p, OnNodes, InsertRow)).Nodes());
  }

  /** When the importer asks for its next node and runs its statements, it moves on iff that put succeeds,
      and stops otherwise. */
  lemma NodePutAdvances(w: World, moves: seq<Move>, p: nat, t: string, pin: Pin, b: Bundle, ids: Ids)
    requires ImportRun(w, moves, p, t, pin)
    requires NodeProgress(w, moves, p, t, pin, b, ids).Between?
    requires NodeProgress(w, moves, p, t, pin, b, ids).done < |b.nodes|
    ensures
      var i, w0 := NodeProgress(w, moves, p, t, pin, b, ids).done, After(w, moves);
      var put := PutStored(w0.db.models, w0.Nodes().log, NodeItems(w.db.models, t, pin, b.nodes, ids.node)[i], None);
      NodeProgress(w, WithPut(moves, Ask(p, PutNode(NodeRequest(t, pin, b.nodes[i]), None, ids.node(i))), p, OnNodes),
        p, t, pin, b, ids)
        == if put.Ok? then Between(i + 1) else Stopped(i)
  {
    var i, w0 := NodeProgress(w, moves, p, t, pin, b, ids).done, After(w, moves);
    NodeIdle(w, moves, p, t, pin, b, ids);
    NodeAsked(w, w0, p, t, pin, b, ids, i);
    NodeAdvances(w, moves, p, Ask(p, PutNode(NodeRequest(t, pin, b.nodes[i]), None, ids.node(i))),
      NodeItems(w.db.models, t, pin, b.nodes, ids.node), i);
  }

  lemma EdgeTableSnoc(w: World, moves: seq<Move>, mv: Move)
    ensures EdgeTables(w, moves + [mv]) == EdgeTables(w, moves) + [Step(After(w, moves), mv).Edges()]
  {
    var ts, ts2 := EdgeTables(w, moves), EdgeTables(w, moves + [mv]);
    AfterSnoc(w, moves, mv);
    assert (moves + [mv])[..|moves| + 1] == moves + [mv];
    forall k | 0 <= k <= |moves| ensures ts2[k] == ts[k] {
      BeforeSame(w, moves, [mv], k);
    }
  }

  lemma EdgeEventSnoc(w: World, moves: seq<Move>, mv: Move, p: nat)
    ensures EdgeEvents(w, moves + [mv], p) == EdgeEvents(w, moves, p) + [EdgeEvent(After(w, moves), mv, p)]
  {
    var evs, evs2 := EdgeEvents(w, moves, p), EdgeEvents(w, moves + [mv], p);
    assert (moves + [mv])[..|moves|] == moves;
    forall k | 0 <= k < |moves| ensures evs2[k] == evs[k] {
      BeforeSame(w, moves, [mv], k);
    }
  }

  /** The four moves of a put as the table sees them. */
  lemma EdgeMoves(w: World, moves: seq<Move>, m1: Move, p: nat)
    ensures
      var m2, m3, m4 := Go(p, OnEdges, CheckExpected), Go(p, OnEdges, TakeSnapshot), Go(p, OnEdges, InsertRow);
      var w0 := After(w, moves);
      var w1 := Step(w0, m1);
      var w2 := Step(w1, m2);
      var w3 := Step(w2, m3);
      && EdgeTables(w, moves)[|moves|] == w0.Edges()
      && EdgeTables(w, WithPut(moves, m1, p, OnEdges)) ==
           EdgeTables(w, moves) + [w1.Edges()] + [w2.Edges()] + [w3.Edges()] + [Step(w3, m4).Edges()]
      && EdgeEvents(w, WithPut(moves, m1, p, OnEdges), p) ==
           EdgeEvents(w, moves,
             p) + [EdgeEvent(w0, m1, p)] + [Runs(CheckExpected)] + [Runs(TakeSnapshot)] + [Runs(InsertRow)]
  {
    var m2, m3, m4 := Go(p, OnEdges, CheckExpected), Go(p, OnEdges, TakeSnapshot), Go(p, OnEdges, InsertRow);
    assert moves[..|moves|] == moves;
    AfterSnoc(w, moves, m1);
    AfterSnoc(w, moves + [m1], m2);
    AfterSnoc(w, moves + [m1] + [m2], m3);
    EdgeTableSnoc(w, moves, m1);
    EdgeTableSnoc(w, moves + [m1], m2);
    EdgeTableSnoc(w, moves + [m1] + [m2], m3);
    EdgeTableSnoc(w, moves + [m1] + [m2] + [m3], m4);
    EdgeEventSnoc(w, moves, m1, p);
    EdgeEventSnoc(w, moves + [m1], m2, p);
    EdgeEventSnoc(w, moves + [m1] + [m2], m3, p);
    EdgeEventSnoc(w, moves + [m1] + [m2] + [m3], m4, p);
  }

  /** What the four moves do to the rows of the table. */
  lemma EdgeRows(w: World, p: nat, m1: Move, item: Item<Stored<EdgeBody>>)
    requires WorldInv(w) && Idle(w.Edges(), p) && Step(w, m1) == w.WithEdges(BeginItem(w.Edges(), p, item, None))
    ensures
      var w1 := Step(w, m1);
      var w2 := Step(w1, Go(p, OnEdges, CheckExpected));
      var w3 := Step(w2, Go(p, OnEdges, TakeSnapshot));
      && w1.Edges().log == w.Edges().log && w2.Edges().log == w1.Edges().log && w3.Edges().log == w2.Edges().log
      && (Step(w3, Go(p, OnEdges, InsertRow)).Edges().log != w3.Edges().log <==>
            PutStored(w.db.models, w.Edges().log, item, None).Ok?)
  {
    var w1 := Step(w, m1);
    ReadsKeepLog(w.Edges(), p, item, PinHolds(w1.db.models, w1.Edges(), p));
    var w2 := Step(w1, Go(p, OnEdges, CheckExpected));
    ReadsKeepLog(w.Edges(), p, item, PinHolds(w2.db.models, w2.Edges(), p));
    EdgeStatements(w, p, item, None);
  }

  lemma EdgeIdle(w: World, moves: seq<Move>, p: nat, t: string, pin: Pin, b: Bundle)
    requires ImportRun(w, moves, p, t, pin) && EdgeProgress(w, moves, p, t, pin, b).Between?
    ensures WorldInv(After(w, moves)) && Idle(After(w, moves).Edges(), p)
  {
    EdgesTrace(w, moves, p, t, pin);
    EdgesAtPin(w, t, pin, b);
    var rows :=
      TraceLands(EdgeTables(w, moves), EdgeEvents(w, moves, p), p, EdgeItems(w.db.models, t, pin, b.edges), t, pin);
    RunEnds(w, moves);
    RunSafety(w, moves);
  }

  lemma EdgeAsked(w: World, w0: World, p: nat, t: string, pin: Pin, b: Bundle, i: nat)
    requires pin.model != "" && pin.version != 0 && i < |b.edges|
    ensures
      var m1, item := Ask(p, PutEdge(EdgeRequest(t, pin, b.edges[i]), None)),
        EdgeItems(w.db.models, t, pin, b.edges)[i];
      Step(w0, m1) == w0.WithEdges(BeginItem(w0.Edges(), p, item, None)) && EdgeEvent(w0, m1, p) == Asks(item)
  {
    assert EdgeItems(w.db.models, t, pin, b.edges)[i] == PrepareEdge(w0.db.models, EdgeRequest(t, pin, b.edges[i]));
  }

  lemma EdgeAdvances(w: World, moves: seq<Move>, p: nat, m1: Move, items: seq<Item<Stored<EdgeBody>>>, i: nat)
    requires ProgressOf(EdgeTables(w, moves), EdgeEvents(w, moves, p), items) == Between(i) && i < |items|
    requires WorldInv(After(w, moves)) && Idle(After(w, moves).Edges(), p)
    requires EdgeEvent(After(w, moves), m1, p) == Asks(items[i])
    requires Step(After(w, moves), m1) ==
      After(w, moves).WithEdges(BeginItem(After(w, moves).Edges(), p, items[i], None))
    ensures var w0, moves2 := After(w, moves), WithPut(moves, m1, p, OnEdges);
      ProgressOf(EdgeTables(w, moves2), EdgeEvents(w, moves2, p), items)
        == if PutStored(w0.db.models, w0.Edges().log, items[i], None).Ok? then Between(i + 1) else Stopped(i)
  {
    var w0 := After(w, moves);
    EdgeMoves(w, moves, m1, p);
    EdgeRows(w0, p, m1, items[i]);
    var w1 := Step(w0, m1);
    var w2 := Step(w1, Go(p, OnEdges, CheckExpected));
    var w3 := Step(w2, Go(p, OnEdges, TakeSnapshot));
    assert EdgeEvents(w, WithPut(moves, m1, p, OnEdges), p) ==
      EdgeEvents(w, moves, p) + [Asks(items[i])] + [Runs(CheckExpected)] + [Runs(TakeSnapshot)] + [Runs(InsertRow)];
    OnePut(EdgeTables(w, moves), EdgeEvents(w, moves, p), items, w1.Edges(), w2.Edges(), w3.Edges(),
      Step(w3, Go(p, OnEdges, InsertRow)).Edges());
  }

  /** When the importer asks for its next edge and runs its statements, it moves on iff that put succeeds,
      and stops otherwise. */
  lemma EdgePutAdvances(w: World, moves: seq<Move>, p: nat, t: string, pin: Pin, b: Bundle)
    requires ImportRun(w, moves, p, t, pin)
    requires EdgeProgress(w, moves, p, t, pin, b).Between?
    requires EdgeProgress(w, moves, p, t, pin, b).done < |b.edges|
    ensures
      var i, w0 := EdgeProgress(w, moves, p, t, pin, b).done, After(w, moves);
      var put := PutStored(w0.db.models, w0.Edges().log, EdgeItems(w.db.models, t, pin, b.edges)[i], None);
      EdgeProgress(w, WithPut(moves, Ask(p, PutEdge(EdgeRequest(t, pin, b.edges[i]), None)), p, OnEdges), p, t, pin, b)
        == if put.Ok? then Between(i + 1) else Stopped(i)
  {
    var i, w0 := EdgeProgress(w, moves, p, t, pin, b).done, After(w, moves);
    EdgeIdle(w, moves, p, t, pin, b);
    EdgeAsked(w, w0, p, t, pin, b, i);
    EdgeAdvances(w, moves, p, Ask(p, PutEdge(EdgeRequest(t, pin, b.edges[i]), None)),
      EdgeItems(w.db.models, t, pin, b.edges), i);
  }

  lemma PropertyTableSnoc(w: World, moves: seq<Move>, mv: Move)
    ensures PropertyTables(w, moves + [mv]) == PropertyTables(w, moves) + [Step(After(w, moves), mv).Props()]
  {
    var ts, ts2 := PropertyTables(w, moves), PropertyTables(w, moves + [mv]);
    AfterSnoc(w, moves, mv);
    assert (moves + [mv])[..|moves| + 1] == moves + [mv];
    forall k | 0 <= k <= |moves| ensures ts2[k] == ts[k] {
      BeforeSame(w, moves, [mv], k);
    }
  }

  lemma PropertyEventSnoc(w: World, moves: seq<Move>, mv: Move, p: nat)
    ensures PropertyEvents(w, moves + [mv], p) == PropertyEvents(w, moves, p) + [PropertyEvent(After(w, moves), mv, p)]
  {
    var evs, evs2 := PropertyEvents(w, moves, p), PropertyEvents(w, moves + [mv], p);
    assert (moves + [mv])[..|moves|] == moves;
    forall k | 0 <= k < |moves| ensures evs2[k] == evs[k] {
      BeforeSame(w, moves, [mv], k);
    }
  }

  /** The four moves of a put as the table sees them. */
  lemma PropertyMoves(w: World, moves: seq<Move>, m1: Move, p: nat)
    ensures
      var m2, m3, m4 := Go(p, OnProps, CheckExpected), Go(p, OnProps, TakeSnapshot), Go(p, OnProps, InsertRow);
      var w0 := After(w, moves);
      var w1 := Step(w0, m1);
      var w2 := Step(w1, m2);
      var w3 := Step(w2, m3);
      && PropertyTables(w, moves)[|moves|] == w0.Props()
      && PropertyTables(w, WithPut(moves, m1, p, OnProps)) ==
           PropertyTables(w, moves) + [w1.Props()] + [w2.Props()] + [w3.Props()] + [Step(w3, m4).Props()]
      && PropertyEvents(w, WithPut(moves, m1, p, OnProps), p) ==
           PropertyEvents(w, moves,
             p) + [PropertyEvent(w0, m1, p)] + [Runs(CheckExpected)] + [Runs(TakeSnapshot)] + [Runs(InsertRow)]
  {
    var m2, m3, m4 := Go(p, OnProps, CheckExpected), Go(p, OnProps, TakeSnapshot), Go(p, OnProps, InsertRow);
    assert moves[..|moves|] == moves;
    AfterSnoc(w, moves, m1);
    AfterSnoc(w, moves + [m1], m2);
    AfterSnoc(w, moves + [m1] + [m2], m3);
    PropertyTableSnoc(w, moves, m1);
    PropertyTableSnoc(w, moves + [m1], m2);
    PropertyTableSnoc(w, moves + [m1] + [m2], m3);
    PropertyTableSnoc(w, moves + [m1] + [m2] + [m3], m4);
    PropertyEventSnoc(w, moves, m1, p);
    PropertyEventSnoc(w, moves + [m1], m2, p);
    PropertyEventSnoc(w, moves + [m1] + [m2], m3, p);
    PropertyEventSnoc(w, moves + [m1] + [m2] + [m3], m4, p);
  }

  /** What the four moves do to the rows of the table. */
  lemma PropertyRows(w: World, p: nat, m1: Move, item: Item<Stored<PropertyBody>>)
    requires WorldInv(w) && Idle(w.Props(), p) && Step(w, m1) == w.WithProps(BeginItem(w.Props(), p, item, None))
    ensures
      var w1 := Step(w, m1);
      var w2 := Step(w1, Go(p, OnProps, CheckExpected));
      var w3 := Step(w2, Go(p, OnProps, TakeSnapshot));
      && w1.Props().log == w.Props().log && w2.Props().log == w1.Props().log && w3.Props().log == w2.Props().log
      && (Step(w3, Go(p, OnProps, InsertRow)).Props().log != w3.Props().log <==>
            PutStored(w.db.models, w.Props().log, item, None).Ok?)
  {
    var w1 := Step(w, m1);
    ReadsKeepLog(w.Props(), p, item, PinHolds(w1.db.models, w1.Props(), p));
    var w2 := Step(w1, Go(p, OnProps, CheckExpected));
    ReadsKeepLog(w.Props(), p, item, PinHolds(w2.db.models, w2.Props(), p));
    PropertyStatements(w, p, item, None);
  }

  lemma PropertyIdle(w: World, moves: seq<Move>, p: nat, t: string, pin: Pin, b: Bundle)
    requires ImportRun(w, moves, p, t, pin) && PropertyProgress(w, moves, p, t, pin, b).Between?
    ensures WorldInv(After(w, moves)) && Idle(After(w, moves).Props(), p)
  {
    PropertiesTrace(w, moves, p, t, pin);
    PropertiesAtPin(w, t, pin, b);
    var rows :=
      TraceLands(PropertyTables(w, moves), PropertyEvents(w, moves, p), p,
      PropertyItems(w.db.models, t, pin, b.properties), t, pin);
    RunEnds(w, moves);
    RunSafety(w, moves);
  }

  lemma PropertyAsked(w: World, w0: World, p: nat, t: string, pin: Pin, b: Bundle, i: nat)
    requires pin.model != "" && pin.version != 0 && i < |b.properties|
    ensures
      var m1, item := Ask(p, PutProperty(PropertyRequest(t, pin, b.properties[i]), None)),
        PropertyItems(w.db.models, t, pin, b.properties)[i];
      Step(w0, m1) == w0.WithProps(BeginItem(w0.Props(), p, item, None)) && PropertyEvent(w0, m1, p) == Asks(item)
  {
    assert PropertyItems(w.db.models, t, pin, b.properties)[i] ==
      PrepareProperty(w0.db.models, PropertyRequest(t, pin, b.properties[i]));
  }

  lemma PropertyAdvances(w: World, moves: seq<Move>, p: nat, m1: Move, items: seq<Item<Stored<PropertyBody>>>, i: nat)
    requires ProgressOf(PropertyTables(w, moves), PropertyEvents(w, moves, p), items) == Between(i) && i < |items|
    requires WorldInv(After(w, moves)) && Idle(After(w, moves).Props(), p)
    requires PropertyEvent(After(w, moves), m1, p) == Asks(items[i])
    requires Step(After(w, moves), m1) ==
      After(w, moves).WithProps(BeginItem(After(w, moves).Props(), p, items[i], None))
    ensures var w0, moves2 := After(w, moves), WithPut(moves, m1, p, OnProps);
      ProgressOf(PropertyTables(w, moves2), PropertyEvents(w, moves2, p), items)
        == if PutStored(w0.db.models, w0.Props().log, items[i], None).Ok? then Between(i + 1) else Stopped(i)
  {
    var w0 := After(w, moves);
    PropertyMoves(w, moves, m1, p);
    PropertyRows(w0, p, m1, items[i]);
    var w1 := Step(w0, m1);
    var w2 := Step(w1, Go(p, OnProps, CheckExpected));
    var w3 := Step(w2, Go(p, OnProps, TakeSnapshot));
    assert PropertyEvents(w, WithPut(moves, m1, p, OnProps), p) ==
      PropertyEvents(w, moves, p) + [Asks(items[i])] + [Runs(CheckExpected)] + [Runs(TakeSnapshot)] + [Runs(InsertRow)];
    OnePut(PropertyTables(w, moves), PropertyEvents(w, moves, p), items, w1.Props(), w2.Props(), w3.Props(),
      Step(w3, Go(p, OnProps, InsertRow)).Props());
  }

  /** When the importer asks for its next property and runs its statements, it moves on iff that put succeeds,
      and stops otherwise. */
  lemma PropertyPutAdvances(w: World, moves: seq<Move>, p: nat, t: string, pin: Pin, b: Bundle)
    requires ImportRun(w, moves, p, t, pin)
    requires PropertyProgress(w, moves, p, t, pin, b).Between?
    requires PropertyProgress(w, moves, p, t, pin, b).done < |b.properties|
    ensures
      var i, w0 := PropertyProgress(w, moves, p, t, pin, b).done, After(w, moves);
      var put := PutStored(w0.db.models, w0.Props().log, PropertyItems(w.db.models, t, pin, b.properties)[i], None);
      PropertyProgress(w,
        WithPut(moves, Ask(p, PutProperty(PropertyRequest(t, pin, b.properties[i]), None)), p, OnProps), p, t, pin, b)
        == if put.Ok? then Between(i + 1) else Stopped(i)
  {
    var i, w0 := PropertyProgress(w, moves, p, t, pin, b).done, After(w, moves);
    PropertyIdle(w, moves, p, t, pin, b);
    PropertyAsked(w, w0, p, t, pin, b, i);
    PropertyAdvances(w, moves, p, Ask(p, PutProperty(PropertyRequest(t, pin, b.properties[i]), None)),
      PropertyItems(w.db.models, t, pin, b.properties), i);
  }

  lemma ContractTableSnoc(w: World, moves: seq<Move>, mv: Move)
    ensures ContractTables(w, moves + [mv]) == ContractTables(w, moves) + [Step(After(w, moves), mv).Contracts()]
  {
    var ts, ts2 := ContractTables(w, moves), ContractTables(w, moves + [mv]);
    AfterSnoc(w, moves, mv);
    assert (moves + [mv])[..|moves| + 1] == moves + [mv];
    forall k | 0 <= k <= |moves| ensures ts2[k] == ts[k] {
      BeforeSame(w, moves, [mv], k);
    }
  }

  lemma ContractEventSnoc(w: World, moves: seq<Move>, mv: Move, p: nat)
    ensures ContractEvents(w, moves + [mv], p) == ContractEvents(w, moves, p) + [ContractEvent(After(w, moves), mv, p)]
  {
    var evs, evs2 := ContractEvents(w, moves, p), ContractEvents(w, moves + [mv], p);
    assert (moves + [mv])[..|moves|] == moves;
    forall k | 0 <= k < |moves| ensures evs2[k] == evs[k] {
      BeforeSame(w, moves, [mv], k);
    }
  }

  /** The four moves of a put as the table sees them. */
  lemma ContractMoves(w: World, moves: seq<Move>, m1: Move, p: nat)
    ensures
      var m2, m3, m4 := Go(p, OnContracts, CheckExpected), Go(p, OnContracts, TakeSnapshot),
        Go(p, OnContracts, InsertRow);
      var w0 := After(w, moves);
      var w1 := Step(w0, m1);
      var w2 := Step(w1, m2);
      var w3 := Step(w2, m3);
      && ContractTables(w, moves)[|moves|] == w0.Contracts()
      && ContractTables(w, WithPut(moves, m1, p, OnContracts)) ==
           ContractTables(w,
             moves) + [w1.Contracts()] + [w2.Contracts()] + [w3.Contracts()] + [Step(w3, m4).Contracts()]
      && ContractEvents(w, WithPut(moves, m1, p, OnContracts), p) ==
           ContractEvents(w, moves,
             p) + [ContractEvent(w0, m1, p)] + [Runs(CheckExpected)] + [Runs(TakeSnapshot)] + [Runs(InsertRow)]
  {
    var m2, m3, m4 := Go(p, OnContracts, CheckExpected), Go(p, OnContracts, TakeSnapshot),
      Go(p, OnContracts, InsertRow);
    assert moves[..|moves|] == moves;
    AfterSnoc(w, moves, m1);
    AfterSnoc(w, moves + [m1], m2);
    AfterSnoc(w, moves + [m1] + [m2], m3);
    ContractTableSnoc(w, moves, m1);
    ContractTableSnoc(w, moves + [m1], m2);
    ContractTableSnoc(w, moves + [m1] + [m2], m3);
    ContractTableSnoc(w, moves + [m1] + [m2] + [m3], m4);
    ContractEventSnoc(w, moves, m1, p);
    ContractEventSnoc(w, moves + [m1], m2, p);
    ContractEventSnoc(w, moves + [m1] + [m2], m3, p);
    ContractEventSnoc(w, moves + [m1] + [m2] + [m3], m4, p);
  }

  /** What the four moves do to the rows of the table. */
  lemma ContractRows(w: World, p: nat, m1: Move, item: Item<Stored<ContractBody>>)
    requires WorldInv(w) && Idle(w.Contracts(), p) && Step(w, m1) ==
      w.WithContracts(BeginItem(w.Contracts(), p, item, None))
    ensures
      var w1 := Step(w, m1);
      var w2 := Step(w1, Go(p, OnContracts, CheckExpected));
      var w3 := Step(w2, Go(p, OnContracts, TakeSnapshot));
      && w1.Contracts().log == w.Contracts().log && w2.Contracts().log == w1.Contracts().log
           && w3.Contracts().log == w2.Contracts().log
      && (Step(w3, Go(p, OnContracts, InsertRow)).Contracts().log != w3.Contracts().log <==>
            PutStored(w.db.models, w.Contracts().log, item, None).Ok?)
  {
    var w1 := Step(w, m1);
    ReadsKeepLog(w.Contracts(), p, item, PinHolds(w1.db.models, w1.Contracts(), p));
    var w2 := Step(w1, Go(p, OnContracts, CheckExpected));
    ReadsKeepLog(w.Contracts(), p, item, PinHolds(w2.db.models, w2.Contracts(), p));
    ContractStatements(w, p, item, None);
  }

  lemma ContractIdle(w: World, moves: seq<Move>, p: nat, t: string, pin: Pin, b: Bundle, ids: Ids)
    requires ImportRun(w, moves, p, t, pin) && ContractProgress(w, moves, p, t, pin, b, ids).Between?
    ensures WorldInv(After(w, moves)) && Idle(After(w, moves).Contracts(), p)
  {
    ContractsTrace(w, moves, p, t, pin);
    ContractsAtPin(w, t, pin, b, ids);
    var rows :=
      TraceLands(ContractTables(w, moves), ContractEvents(w, moves, p), p,
      ContractItems(w.db.models, t, pin, b.contracts, ids.contract), t, pin);
    RunEnds(w, moves);
    RunSafety(w, moves);
  }

  lemma ContractAsked(w: World, w0: World, p: nat, t: string, pin: Pin, b: Bundle, ids: Ids, i: nat)
    requires pin.model != "" && pin.version != 0 && i < |b.contracts|
    ensures
      var m1, item := Ask(p, PutContract(ContractRequest(t, pin, b.contracts[i]), None, ids.contract(i))),
        ContractItems(w.db.models, t, pin, b.contracts, ids.contract)[i];
      Step(w0, m1) == w0.WithContracts(BeginItem(w0.Contracts(), p, item, None))
        && ContractEvent(w0, m1, p) == Asks(item)
  {
    assert ContractItems(w.db.models, t, pin, b.contracts, ids.contract)[i] ==
      PrepareContract(w0.db.models, ContractRequest(t, pin, b.contracts[i]), ids.contract(i));
  }

  lemma ContractAdvances(w: World, moves: seq<Move>, p: nat, m1: Move, items: seq<Item<Stored<ContractBody>>>, i: nat)
    requires ProgressOf(ContractTables(w, moves), ContractEvents(w, moves, p), items) == Between(i) && i < |items|
    requires WorldInv(After(w, moves)) && Idle(After(w, moves).Contracts(), p)
    requires ContractEvent(After(w, moves), m1, p) == Asks(items[i])
    requires Step(After(w, moves), m1) ==
      After(w, moves).WithContracts(BeginItem(After(w, moves).Contracts(), p, items[i], None))
    ensures var w0, moves2 := After(w, moves), WithPut(moves, m1, p, OnContracts);
      ProgressOf(ContractTables(w, moves2), ContractEvents(w, moves2, p), items)
        == if PutStored(w0.db.models, w0.Contracts().log, items[i], None).Ok? then Between(i + 1) else Stopped(i)
  {
    var w0 := After(w, moves);
    ContractMoves(w, moves, m1, p);
    ContractRows(w0, p, m1, items[i]);
    var w1 := Step(w0, m1);
    var w2 := Step(w1, Go(p, OnContracts, CheckExpected));
    var w3 := Step(w2, Go(p, OnContracts, TakeSnapshot));
    assert ContractEvents(w, WithPut(moves, m1, p, OnContracts), p) ==
      ContractEvents(w, moves, p) + [Asks(items[i])] + [Runs(CheckExpected)] + [Runs(TakeSnapshot)] + [Runs(InsertRow)];
    OnePut(ContractTables(w, moves), ContractEvents(w, moves, p), items, w1.Contracts(), w2.Contracts(), w3.Contracts(),
      Step(w3, Go(p, OnContracts, InsertRow)).Contracts());
  }

  /** When the importer asks for its next contract and runs its statements, it moves on iff that put succeeds,
      and stops otherwise. */
  lemma ContractPutAdvances(w: World, moves: seq<Move>, p: nat, t: string, pin: Pin, b: Bundle, ids: Ids)
    requires ImportRun(w, moves, p, t, pin)
    requires ContractProgress(w, moves, p, t, pin, b, ids).Between?
    requires ContractProgress(w, moves, p, t, pin, b, ids).done < |b.contracts|
    ensures
      var i, w0 := ContractProgress(w, moves, p, t, pin, b, ids).done, After(w, moves);
      var put :=
        PutStored(w0.db.models, w0.Contracts().log, ContractItems(w.db.models, t, pin, b.contracts, ids.contract)[i],
        None);
      ContractProgress(w,
        WithPut(moves, Ask(p, PutContract(ContractRequest(t, pin, b.contracts[i]), None, ids.contract(i))), p,
        OnContracts), p, t, pin, b, ids)
        == if put.Ok? then Between(i + 1) else Stopped(i)
  {
    var i, w0 := ContractProgress(w, moves, p, t, pin, b, ids).done, After(w, moves);
    ContractIdle(w, moves, p, t, pin, b, ids);
    ContractAsked(w, w0, p, t, pin, b, ids, i);
    ContractAdvances(w, moves, p, Ask(p, PutContract(ContractRequest(t, pin, b.contracts[i]), None, ids.contract(i))),
      ContractItems(w.db.models, t, pin, b.contracts, ids.contract), i);
  }
}
