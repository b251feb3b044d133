/** An import whose puts interleave with any number of other clients. */
module InterleavedImport {
  import opened Basics
  import opened Ordering
  import opened VersionedLog
  import opened ConcurrentPut
  import opened Schema
  import opened Bundles
  import opened BundleLaws
  import opened RoundTrip
  import opened World
  import opened WorldSafety

  // --- the importer's program on one table ---

  /** A step of a run as seen from one table: the importer's own, or somebody else's. Strays are steps of
      the importer's client that no import takes. */
  datatype Event<V> = Asks(item: Item<V>) | Runs(s: Statement) | Others | Strays

  /** How far the importer is: the items it has put, and where it is inside the next put. */
  datatype Progress =
    | Between(done: nat) | Begun(done: nat) | HasChecked(done: nat) | HasSnapshot(done: nat)
    | Stopped(done: nat) | Astray(done: nat)

  /** The import loop: put the items one after the other, and stop at the first put that fails. */
  function Advance<V(==)>(pc: Progress, ev: Event<V>, committed: bool, items: seq<Item<V>>): Progress {
    match ev
    case Others => pc
    case Strays => Astray(pc.done)
    case Asks(item) =>
      if pc.Between? && pc.done < |items| && item == items[pc.done] then Begun(pc.done) else Astray(pc.done)
    case Runs(CheckExpected) => if pc.Begun? then HasChecked(pc.done) else Astray(pc.done)
    case Runs(TakeSnapshot) => if pc.HasChecked? then HasSnapshot(pc.done) else Astray(pc.done)
    case Runs(InsertRow) =>
      if !pc.HasSnapshot? then Astray(pc.done)
      else if committed then Between(pc.done + 1) else Stopped(pc.done)
  }

  /** Where the importer is after the events; ts are the states of the table before, between and after them. */
  function ProgressOf<V(==)>(ts: seq<Table<V>>, evs: seq<Event<V>>, items: seq<Item<V>>): Progress
    requires |ts| == |evs| + 1
  {
    if evs == [] then Between(0)
    else
      var n := |evs| - 1;
      Advance(ProgressOf(ts[..n + 1], evs[..n], items), evs[n], ts[n + 1].log != ts[n].log, items)
  }

  /** A step of somebody else: the importer's phase stays, and at most the pending row of another client lands. */
  ghost predicate Quiet<V>(tab: Table<V>, tab2: Table<V>, p: nat) {
    && (p in tab2.clients <==> p in tab.clients) && (p in tab.clients ==> tab2.clients[p] == tab.clients[p])
    && (tab2.log == tab.log || exists q :: LandsFor(tab, tab2, p, q))
  }

  /** The pending row of another client q lands. */
  ghost predicate LandsFor<V>(tab: Table<V>, tab2: Table<V>, p: nat, q: nat) {
    && q != p && Pending(tab, q).Some?
    && tab2.log == tab.log + [NextRow(tab.log, Pending(tab, q).value.key, Pending(tab, q).value.val)]
  }

  ghost predicate Fits<V>(tab: Table<V>, tab2: Table<V>, p: nat, ev: Event<V>) {
    match ev
    case Asks(item) => tab2 == BeginItem(tab, p, item, None)
    case Runs(s) => tab2 == Apply(tab, ActionOf(p, s, true)) || tab2 == Apply(tab, ActionOf(p, s, false))
    case Others => Quiet(tab, tab2, p)
    case Strays => true
  }

  ghost predicate AtWrite<B>(w: Write<Stored<B>>, t: string, pin: Pin) { Tenant(w.key) == t && w.val.pin == pin }

  /** No other client is about to insert a row of the pin. */
  ghost predicate OthersAway<B>(tab: Table<Stored<B>>, p: nat, t: string, pin: Pin) {
    forall q {:trigger Pending(tab, q)} :: q != p && Pending(tab, q).Some? ==> !AtWrite(Pending(tab, q).value, t, pin)
  }

  // --- what the importer knows ---

  /** The phase of a client that is putting the item. */
  ghost predicate Putting<V>(c: Phase<V>, item: Item<V>, pc: Progress) {
    match item
    case Reject(_) => c.Failed?
    case Generated(k, v) => c == Fresh(k, v)
    case Keyed(k, v) =>
      match pc
      case Begun(_) => c == Started(k, v, None)
      case HasChecked(_) => c.Checked? && c.key == k && c.val == v && c.expected == None
      case HasSnapshot(_) => c.Snapped? && c.key == k && c.val == v && c.expected == None
      case _ => true
  }

  ghost predicate Knows<V>(tab: Table<V>, p: nat, pc: Progress, items: seq<Item<V>>) {
    match pc
    case Between(i) => i <= |items| && Idle(tab, p)
    case Stopped(i) => i < |items|
    case Astray(_) => true
    case _ => pc.done < |items| && p in tab.clients && Putting(tab.clients[p], items[pc.done], pc)
  }

  /** The rows are those of the first items, each newer than anything of its key in log0. */
  ghost predicate Landed<V>(rows: Log<V>, items: seq<Item<V>>, n: nat, log0: Log<V>) {
    && |rows| == n <= |items|
    && forall i {:trigger rows[i]} :: 0 <= i < n ==>
         && !items[i].Reject? && rows[i].key == items[i].key && rows[i].val == items[i].val
         && rows[i].version > MaxVersion(log0, rows[i].key)
  }

  /** Since log0 the table has grown, and what it gained under the pin are exactly the importer's rows. */
  ghost predicate Reached<B>(log0: Log<Stored<B>>, tab: Table<Stored<B>>, p: nat, pc: Progress,
                             items: seq<Item<Stored<B>>>, rows: Log<Stored<B>>, t: string, pin: Pin)
  {
    && Knows(tab, p, pc, items) && Landed(rows, items, pc.done, log0) && log0 <= tab.log
    && Filter(tab.log, AtPin(t, pin)) == Filter(log0, AtPin(t, pin)) + rows
  }

  ghost predicate ItemsAtPin<B>(items: seq<Item<Stored<B>>>, t: string, pin: Pin) {
    forall i :: 0 <= i < |items| && !items[i].Reject? ==> AtWrite(Write(items[i].key, items[i].val), t, pin)
  }

  lemma QuietStep<B>(log0: Log<Stored<B>>, tab: Table<Stored<B>>, tab2: Table<Stored<B>>, p: nat, pc: Progress,
                     items: seq<Item<Stored<B>>>, rows: Log<Stored<B>>, t: string, pin: Pin)
    requires Reached(log0, tab, p, pc, items, rows, t, pin) && Quiet(tab, tab2, p) && OthersAway(tab, p, t, pin)
    ensures Reached(log0, tab2, p, pc, items, rows, t, pin)
  {
    if tab2.log != tab.log {
      var q :| LandsFor(tab, tab2, p, q);
      var w := Pending(tab, q).value;
      assert !AtWrite(w, t, pin);
      FilterSnoc(tab.log, NextRow(tab.log, w.key, w.val), AtPin(t, pin));
    }
  }

  /** The importer begins a put. */
  lemma AskedStep<V>(tab: Table<V>, p: nat, i: nat, items: seq<Item<V>>)
    requires i < |items| && Knows(tab, p, Between(i), items)
    ensures var tab2 := BeginItem(tab, p, items[i], None);
      tab2.log == tab.log && Knows(tab2, p, Begun(i), items)
  {}

  /** The importer's check and snapshot. */
  lemma ReadSteps<V>(tab: Table<V>, p: nat, i: nat, items: seq<Item<V>>, refExists: bool)
    ensures Knows(tab, p, Begun(i), items) ==>
      var tab2 := Apply(tab, ActionOf(p, CheckExpected, refExists));
      tab2.log == tab.log && Knows(tab2, p, HasChecked(i), items)
    ensures Knows(tab, p, HasChecked(i), items) ==>
      var tab2 := Apply(tab, ActionOf(p, TakeSnapshot, refExists));
      tab2.log == tab.log && Knows(tab2, p, HasSnapshot(i), items)
  {}

  /** The importer's insert lands its own item at the next version, or nothing. */
  lemma InsertStep<V>(tab: Table<V>, p: nat, i: nat, items: seq<Item<V>>, refExists: bool)
    requires Inv(tab) && Knows(tab, p, HasSnapshot(i), items)
    ensures var tab2 := Apply(tab, ActionOf(p, InsertRow, refExists));
      if tab2.log == tab.log then true
      else
        && !items[i].Reject? && tab2.log == tab.log + [NextRow(tab.log, items[i].key, items[i].val)]
        && Knows(tab2, p, Between(i + 1), items)
  {
    ApplyAdds(tab, ActionOf(p, InsertRow, refExists));
  }

  lemma LandedSnoc<V>(rows: Log<V>, items: seq<Item<V>>, n: nat, log0: Log<V>, log: Log<V>)
    requires Landed(rows, items, n, log0) && n < |items| && !items[n].Reject? && log0 <= log
    ensures Landed(rows + [NextRow(log, items[n].key, items[n].val)], items, n + 1, log0)
  {
    var row := NextRow(log, items[n].key, items[n].val);
    var all := rows + [row];
    assert log[..|log0|] == log0;
    MaxMonotone(log, |log0|, items[n].key);
    forall i | 0 <= i < n + 1
      ensures !items[i].Reject? && all[i].key == items[i].key && all[i].val == items[i].val
        && all[i].version > MaxVersion(log0, all[i].key)
    {
      if i < n {
        assert all[i] == rows[i];
      } else {
        assert all[i] == row;
      }
    }
  }

  /** One event keeps what is known, with the importer's row added when its put commits. */
  lemma EventStep<B>(log0: Log<Stored<B>>, tab: Table<Stored<B>>, tab2: Table<Stored<B>>, p: nat, ev: Event<Stored<B>>,
                     pc: Progress, items: seq<Item<Stored<B>>>, rows: Log<Stored<B>>, t: string, pin: Pin)
    returns (rows2: Log<Stored<B>>)
    requires Inv(tab) && Fits(tab, tab2, p, ev) && OthersAway(tab, p, t, pin) && ItemsAtPin(items, t, pin)
    requires Reached(log0, tab, p, pc, items, rows, t, pin)
    requires !Advance(pc, ev, tab2.log != tab.log, items).Astray?
    ensures Reached(log0, tab2, p, Advance(pc, ev, tab2.log != tab.log, items), items, rows2, t, pin)
  {
    rows2 := rows;
    match ev
    case Others => QuietStep(log0, tab, tab2, p, pc, items, rows, t, pin);
    case Asks(item) => AskedStep(tab, p, pc.done, items);
    case Runs(s) =>
      match s
      case InsertRow =>
        InsertStep(tab, p, pc.done, items, true);
        InsertStep(tab, p, pc.done, items, false);
        if tab2.log != tab.log {
          var row := NextRow(tab.log, items[pc.done].key, items[pc.done].val);
          rows2 := rows + [row];
          LandedSnoc(rows, items, pc.done, log0, tab.log);
          assert AtWrite(Write(items[pc.done].key, items[pc.done].val), t, pin);
          FilterSnoc(tab.log, row, AtPin(t, pin));
        }
      case _ =>
        ReadSteps(tab, p, pc.done, items, true);
        ReadSteps(tab, p, pc.done, items, false);
  }

  ghost predicate TraceStep<B>(ts: seq<Table<Stored<B>>>, evs: seq<Event<Stored<B>>>, p: nat, t: string, pin: Pin,
      k: int)
    requires 0 <= k < |evs| < |ts|
  {
    Inv(ts[k]) && Fits(ts[k], ts[k + 1], p, evs[k]) && OthersAway(ts[k], p, t, pin)
  }

  /** A run as seen from one table. */
  ghost predicate Trace<B>(ts: seq<Table<Stored<B>>>, evs: seq<Event<Stored<B>>>, p: nat, t: string, pin: Pin) {
    && |ts| == |evs| + 1 && Idle(ts[0], p)
    && forall k {:trigger TraceStep(ts, evs, p, t, pin, k)} :: 0 <= k < |evs| ==> TraceStep(ts, evs, p, t, pin, k)
  }

  /** At every moment of a run the rows stored under the pin are those the table started with and those of
      the items the importer has put. */
  lemma {:induction false} TraceLands<B>(ts: seq<Table<Stored<B>>>, evs: seq<Event<Stored<B>>>, p: nat,
                                         items: seq<Item<Stored<B>>>, t: string, pin: Pin)
    returns (rows: Log<Stored<B>>)
    requires Trace(ts, evs, p, t, pin) && ItemsAtPin(items, t, pin) && !ProgressOf(ts, evs, items).Astray?
    ensures Reached(ts[0].log, ts[|evs|], p, ProgressOf(ts, evs, items), items, rows, t, pin)
    decreases |evs|
  {
    if evs == [] {
      rows := [];
    } else {
      var n := |evs| - 1;
      assert TraceStep(ts, evs, p, t, pin, n);
      var ts1, evs1 := ts[..n + 1], evs[..n];
      forall k | 0 <= k < n ensures TraceStep(ts1, evs1, p, t, pin, k) {
        assert TraceStep(ts, evs, p, t, pin, k);
      }
      rows := TraceLands(ts1, evs1, p, items, t, pin);
      rows := EventStep(ts[0].log, ts[n], ts[n + 1], p, evs[n], ProgressOf(ts[..n + 1], evs[..n], items), items, rows,
        t, pin);
    }
  }

  /** Landed rows read back as the elements they were made of. */
  lemma LandedShow<B(!new), U(!new)>(rows: Log<Stored<B>>, items: seq<Item<Stored<B>>>, n: nat, log0: Log<Stored<B>>,
      t: string, pin: Pin, us: seq<U>, toU: Row<Stored<B>> -> U, keyU: U -> Key)
    requires Landed(rows, items, n, log0) && |us| == |items|
    requires forall i :: 0 <= i < |items| && !items[i].Reject? ==> Carries(log0, t, pin, items[i], us[i], toU, keyU)
    ensures Map(rows, toU) == us[..n]
    ensures forall r :: r in rows ==> r.key == [t] + keyU(toU(r))
  {
    forall i | 0 <= i < n ensures toU(rows[i]) == us[i] && rows[i].key == [t] + keyU(us[i]) {
      var r := rows[i];
      assert !items[i].Reject? && r.key == items[i].key && r.val == items[i].val;
      assert Carries(log0, t, pin, items[i], us[i], toU, keyU);
      assert rows[i] == Row(items[i].key, rows[i].version, items[i].val);
    }
  }

  /** So a section nothing was stored in before is the canonical form of what the importer has put. */
  lemma TraceSection<B(!new), U(!new)>(ts: seq<Table<Stored<B>>>, evs: seq<Event<Stored<B>>>, p: nat,
      t: string, pin: Pin,
      items: seq<Item<Stored<B>>>, us: seq<U>, toU: Row<Stored<B>> -> U, keyU: U -> Key)
    requires Trace(ts, evs, p, t, pin) && !ProgressOf(ts, evs, items).Astray?
    requires Dense(ts[|evs|].log) && Filter(ts[0].log, AtPin(t, pin)) == [] && |us| == |items|
    requires forall i :: 0 <= i < |items| && !items[i].Reject? ==>
      Carries(ts[0].log, t, pin, items[i], us[i], toU, keyU)
    ensures ProgressOf(ts, evs, items).done <= |us|
    ensures Map(Query(ts[|evs|].log, AtPin(t, pin)), toU) == LastWins(us[..ProgressOf(ts, evs, items).done], keyU)
  {
    forall i | 0 <= i < |items| && !items[i].Reject? ensures AtWrite(Write(items[i].key, items[i].val), t, pin) {
      assert Carries(ts[0].log, t, pin, items[i], us[i], toU, keyU);
    }
    var rows := TraceLands(ts, evs, p, items, t, pin);
    assert Filter(ts[|evs|].log, AtPin(t, pin)) == rows;
    LandedShow(rows, items, ProgressOf(ts, evs, items).done, ts[0].log, t, pin, us, toU, keyU);
    QueryIsLastWins(ts[|evs|].log, AtPin(t, pin));
    TailOrder(rows, t, toU, keyU);
    LastWinsMap(rows, toU, RowKey, keyU);
  }

  // --- the four tables of a run ---

  lemma OtherBegins<V>(tab: Table<V>, p: nat, q: nat, item: Item<V>, expected: Option<int>)
    requires q != p
    ensures Quiet(tab, BeginItem(tab, q, item, expected), p)
  {}

  lemma OtherRuns<V>(tab: Table<V>, p: nat, q: nat, s: Statement, refExists: bool)
    requires Inv(tab) && q != p
    ensures Quiet(tab, Apply(tab, ActionOf(q, s, refExists)), p)
  {
    ApplyAdds(tab, ActionOf(q, s, refExists));
    assert Apply(tab, ActionOf(q, s, refExists)).log != tab.log ==>
      LandsFor(tab, Apply(tab, ActionOf(q, s, refExists)), p, q);
  }

  function NodeEvent(w: World, mv: Move, p: nat): Event<Stored<NodeBody>> {
    match mv
    case Ask(q, PutNode(n, expected, gen)) =>
      if q != p then Others else if expected == None then Asks(PrepareNode(w.db.models, n, gen)) else Strays
    case Go(q, OnNodes, s) => if q == p then Runs(s) else Others
    case _ => Others
  }

  lemma NodeAskFits(w: World, p: nat, q: nat, req: Request)
    ensures Fits(w.Nodes(), AskStep(w, q, req).Nodes(), p, NodeEvent(w, Ask(q, req), p))
  {
    match req
    case PutNode(n, expected, gen) =>
      if q != p { OtherBegins(w.Nodes(), p, q, PrepareNode(w.db.models, n, gen), expected); }
    case _ => assert AskStep(w, q, req).Nodes() == w.Nodes();
  }

  lemma NodeGoFits(w: World, p: nat, q: nat, which: Which, s: Statement)
    requires Inv(w.Nodes())
    ensures Fits(w.Nodes(), GoStep(w, q, which, s).Nodes(), p, NodeEvent(w, Go(q, which, s), p))
  {
    if which == OnNodes {
      if q != p { OtherRuns(w.Nodes(), p, q, s, PinHolds(w.db.models, w.Nodes(), q)); }
    } else {
      assert GoStep(w, q, which, s).Nodes() == w.Nodes();
    }
  }

  lemma NodeFits(w: World, mv: Move, p: nat)
    requires WorldInv(w)
    ensures Inv(w.Nodes()) && Fits(w.Nodes(), Step(w, mv).Nodes(), p, NodeEvent(w, mv, p))
  {
    assert TableInv(w, OnNodes);
    match mv
    case Ask(q, req) => NodeAskFits(w, p, q, req);
    case Go(q, which, s) => NodeGoFits(w, p, q, which, s);
    case _ =>
  }

  function EdgeEvent(w: World, mv: Move, p: nat): Event<Stored<EdgeBody>> {
    match mv
    case Ask(q, PutEdge(e, expected)) =>
      if q != p then Others else if expected == None then Asks(PrepareEdge(w.db.models, e)) else Strays
    case Go(q, OnEdges, s) => if q == p then Runs(s) else Others
    case _ => Others
  }

  lemma EdgeAskFits(w: World, p: nat, q: nat, req: Request)
    ensures Fits(w.Edges(), AskStep(w, q, req).Edges(), p, EdgeEvent(w, Ask(q, req), p))
  {
    match req
    case PutEdge(e, expected) =>
      if q != p { OtherBegins(w.Edges(), p, q, PrepareEdge(w.db.models, e), expected); }
    case _ => assert AskStep(w, q, req).Edges() == w.Edges();
  }

  lemma EdgeGoFits(w: World, p: nat, q: nat, which: Which, s: Statement)
    requires Inv(w.Edges())
    ensures Fits(w.Edges(), GoStep(w, q, which, s).Edges(), p, EdgeEvent(w, Go(q, which, s), p))
  {
    if which == OnEdges {
      if q != p { OtherRuns(w.Edges(), p, q, s, PinHolds(w.db.models, w.Edges(), q)); }
    } else {
      assert GoStep(w, q, which, s).Edges() == w.Edges();
    }
  }

  lemma EdgeFits(w: World, mv: Move, p: nat)
    requires WorldInv(w)
    ensures Inv(w.Edges()) && Fits(w.Edges(), Step(w, mv).Edges(), p, EdgeEvent(w, mv, p))
  {
    assert TableInv(w, OnEdges);
    match mv
    case Ask(q, req) => EdgeAskFits(w, p, q, req);
    case Go(q, which, s) => EdgeGoFits(w, p, q, which, s);
    case _ =>
  }

  function PropertyEvent(w: World, mv: Move, p: nat): Event<Stored<PropertyBody>> {
    match mv
    case Ask(q, PutProperty(r, expected)) =>
      if q != p then Others else if expected == None then Asks(PrepareProperty(w.db.models, r)) else Strays
    case Go(q, OnProps, s) => if q == p then Runs(s) else Others
    case _ => Others
  }

  lemma PropertyAskFits(w: World, p: nat, q: nat, req: Request)
    ensures Fits(w.Props(), AskStep(w, q, req).Props(), p, PropertyEvent(w, Ask(q, req), p))
  {
    match req
    case PutProperty(r, expected) =>
      if q != p { OtherBegins(w.Props(), p, q, PrepareProperty(w.db.models, r), expected); }
    case _ => assert AskStep(w, q, req).Props() == w.Props();
  }

  lemma PropertyGoFits(w: World, p: nat, q: nat, which: Which, s: Statement)
    requires Inv(w.Props())
    ensures Fits(w.Props(), GoStep(w, q, which, s).Props(), p, PropertyEvent(w, Go(q, which, s), p))
  {
    if which == OnProps {
      if q != p { OtherRuns(w.Props(), p, q, s, PinHolds(w.db.models, w.Props(), q)); }
    } else {
      assert GoStep(w, q, which, s).Props() == w.Props();
    }
  }

  lemma PropertyFits(w: World, mv: Move, p: nat)
    requires WorldInv(w)
    ensures Inv(w.Props()) && Fits(w.Props(), Step(w, mv).Props(), p, PropertyEvent(w, mv, p))
  {
    assert TableInv(w, OnProps);
    match mv
    case Ask(q, req) => PropertyAskFits(w, p, q, req);
    case Go(q, which, s) => PropertyGoFits(w, p, q, which, s);
    case _ =>
  }

  function ContractEvent(w: World, mv: Move, p: nat): Event<Stored<ContractBody>> {
    match mv
    case Ask(q, PutContract(c, expected, gen)) =>
      if q != p then Others else if expected == None then Asks(PrepareContract(w.db.models, c, gen)) else Strays
    case Ask(q, SetContractStatus(_, _, _, _, _)) => if q == p then Strays else Others
    case Go(q, OnContracts, s) => if q == p then Runs(s) else Others
    case _ => Others
  }

  lemma ContractAskFits(w: World, p: nat, q: nat, req: Request)
    ensures Fits(w.Contracts(), AskStep(w, q, req).Contracts(), p, ContractEvent(w, Ask(q, req), p))
  {
    match req
    case PutContract(c, expected, gen) =>
      if q != p { OtherBegins(w.Contracts(), p, q, PrepareContract(w.db.models, c, gen), expected); }
    case SetContractStatus(tenant, id, status, expected, gen) =>
      if q != p { OtherBegins(w.Contracts(), p, q, StatusItem(w.db, tenant, id, status, gen), expected); }
    case _ => assert AskStep(w, q, req).Contracts() == w.Contracts();
  }

  lemma ContractGoFits(w: World, p: nat, q: nat, which: Which, s: Statement)
    requires Inv(w.Contracts())
    ensures Fits(w.Contracts(), GoStep(w, q, which, s).Contracts(), p, ContractEvent(w, Go(q, which, s), p))
  {
    if which == OnContracts {
      if q != p { OtherRuns(w.Contracts(), p, q, s, PinHolds(w.db.models, w.Contracts(), q)); }
    } else {
      assert GoStep(w, q, which, s).Contracts() == w.Contracts();
    }
  }

  lemma ContractFits(w: World, mv: Move, p: nat)
    requires WorldInv(w)
    ensures Inv(w.Contracts()) && Fits(w.Contracts(), Step(w, mv).Contracts(), p, ContractEvent(w, mv, p))
  {
    assert TableInv(w, OnContracts);
    match mv
    case Ask(q, req) => ContractAskFits(w, p, q, req);
    case Go(q, which, s) => ContractGoFits(w, p, q, which, s);
    case _ =>
  }

  /** The world before move k of a run. */
  function Before(w: World, moves: seq<Move>, k: nat): World
    requires k <= |moves|
  {
    After(w, moves[..k])
  }

  lemma BeforeNext(w: World, moves: seq<Move>, k: nat)
    requires WorldInv(w) && k < |moves|
    ensures WorldInv(Before(w, moves, k)) && Before(w, moves, k + 1) == Step(Before(w, moves, k), moves[k])
  {
    RunSafety(w, moves[..k]);
    assert moves[..k + 1][..k] == moves[..k];
  }

  ghost predicate NobodyElse(w: World, p: nat, t: string, pin: Pin) {
    && OthersAway(w.Nodes(), p, t, pin) && OthersAway(w.Edges(), p, t, pin)
    && OthersAway(w.Props(), p, t, pin) && OthersAway(w.Contracts(), p, t, pin)
  }

  /** The importer is not inside a put, nothing is stored under its pin yet, and over the whole run no
      other client is ever about to insert a row of that pin; what else they write does not matter. */
  ghost predicate ImportRun(w: World, moves: seq<Move>, p: nat, t: string, pin: Pin) {
    && WorldInv(w) && UsablePin(w.db, t, pin)
    && Idle(w.Nodes(), p) && Idle(w.Edges(), p) && Idle(w.Props(), p) && Idle(w.Contracts(), p)
    && forall k {:trigger Before(w, moves, k)} :: 0 <= k < |moves| ==> NobodyElse(Before(w, moves, k), p, t, pin)
  }

  function NodeTables(w: World, moves: seq<Move>): seq<Table<Stored<NodeBody>>> {
    seq(|moves| + 1, k requires 0 <= k <= |moves| => Before(w, moves, k).Nodes())
  }

  function NodeEvents(w: World, moves: seq<Move>, p: nat): seq<Event<Stored<NodeBody>>> {
    seq(|moves|, k requires 0 <= k < |moves| => NodeEvent(Before(w, moves, k), moves[k], p))
  }

  function EdgeTables(w: World, moves: seq<Move>): seq<Table<Stored<EdgeBody>>> {
    seq(|moves| + 1, k requires 0 <= k <= |moves| => Before(w, moves, k).Edges())
  }

  function EdgeEvents(w: World, moves: seq<Move>, p: nat): seq<Event<Stored<EdgeBody>>> {
    seq(|moves|, k requires 0 <= k < |moves| => EdgeEvent(Before(w, moves, k), moves[k], p))
  }

  function PropertyTables(w: World, moves: seq<Move>): seq<Table<Stored<PropertyBody>>> {
    seq(|moves| + 1, k requires 0 <= k <= |moves| => Before(w, moves, k).Props())
  }

  function PropertyEvents(w: World, moves: seq<Move>, p: nat): seq<Event<Stored<PropertyBody>>> {
    seq(|moves|, k requires 0 <= k < |moves| => PropertyEvent(Before(w, moves, k), moves[k], p))
  }

  function ContractTables(w: World, moves: seq<Move>): seq<Table<Stored<ContractBody>>> {
    seq(|moves| + 1, k requires 0 <= k <= |moves| => Before(w, moves, k).Contracts())
  }

  function ContractEvents(w: World, moves: seq<Move>, p: nat): seq<Event<Stored<ContractBody>>> {
    seq(|moves|, k requires 0 <= k < |moves| => ContractEvent(Before(w, moves, k), moves[k], p))
  }

  // --- how far the importer of a bundle is ---

  function NodeProgress(w: World, moves: seq<Move>, p: nat, t: string, pin: Pin, b: Bundle, ids: Ids): Progress {
    ProgressOf(NodeTables(w, moves), NodeEvents(w, moves, p), NodeItems(w.db.models, t, pin, b.nodes, ids.node))
  }

  function EdgeProgress(w: World, moves: seq<Move>, p: nat, t: string, pin: Pin, b: Bundle): Progress {
    ProgressOf(EdgeTables(w, moves), EdgeEvents(w, moves, p), EdgeItems(w.db.models, t, pin, b.edges))
  }

  function PropertyProgress(w: World, moves: seq<Move>, p: nat, t: string, pin: Pin, b: Bundle): Progress {
    ProgressOf(PropertyTables(w, moves), PropertyEvents(w, moves, p), PropertyItems(w.db.models, t, pin, b.properties))
  }

  function ContractProgress(w: World, moves: seq<Move>, p: nat, t: string, pin: Pin, b: Bundle, ids: Ids): Progress {
    ProgressOf(ContractTables(w, moves), ContractEvents(w, moves, p),
      ContractItems(w.db.models, t, pin, b.contracts, ids.contract))
  }

  /** The requests of an import name their pin, so what they insert does not depend on when they are made. */
  lemma RequestsArePinned(m: Log<ModelBody>, m2: Log<ModelBody>, t: string, pin: Pin, n: BundleNode, e: BundleEdge,
                          q: BundleProperty, c: BundleContract, gen: FreshId)
    requires pin.model != "" && pin.version != 0
    ensures PrepareNode(m, NodeRequest(t, pin, n), gen) == PrepareNode(m2, NodeRequest(t, pin, n), gen)
    ensures PrepareEdge(m, EdgeRequest(t, pin, e)) == PrepareEdge(m2, EdgeRequest(t, pin, e))
    ensures PrepareProperty(m, PropertyRequest(t, pin, q)) == PrepareProperty(m2, PropertyRequest(t, pin, q))
    ensures PrepareContract(m, ContractRequest(t, pin, c), gen) == PrepareContract(m2, ContractRequest(t, pin, c), gen)
  {}

  lemma RunEnds(w: World, moves: seq<Move>)
    requires WorldInv(w)
    ensures Before(w, moves, 0) == w && Before(w, moves, |moves|) == After(w, moves)
    ensures var db := After(w, moves).db; Dense(db.nodes) && Dense(db.edges) && Dense(db.props) && Dense(db.contracts)
  {
    assert moves[..0] == [] && moves[..|moves|] == moves;
    RunSafety(w, moves);
    Parts(After(w, moves).db);
  }

  lemma NodesTrace(w: World, moves: seq<Move>, p: nat, t: string, pin: Pin)
    requires ImportRun(w, moves, p, t, pin)
    ensures Trace(NodeTables(w, moves), NodeEvents(w, moves, p), p, t, pin)
  {
    var ts, evs := NodeTables(w, moves), NodeEvents(w, moves, p);
    RunEnds(w, moves);
    forall k | 0 <= k < |evs| ensures TraceStep(ts, evs, p, t, pin, k) {
      BeforeNext(w, moves, k);
      NodeFits(Before(w, moves, k), moves[k], p);
    }
  }

  lemma NodesOfRun(w: World, moves: seq<Move>, p: nat, t: string, pin: Pin, b: Bundle, ids: Ids)
    requires ImportRun(w, moves, p, t, pin)
    requires !NodeProgress(w, moves, p, t, pin, b, ids).Astray?
    ensures NodeProgress(w, moves, p, t, pin, b, ids).done <= |b.nodes|
    ensures NodesAre(After(w, moves).db, t, pin,
      FilledNodes(b.nodes, ids.node)[..NodeProgress(w, moves, p, t, pin, b, ids).done])
  {
    var ts, evs := NodeTables(w, moves), NodeEvents(w, moves, p);
    NodesTrace(w, moves, p, t, pin);
    var items, us := NodeItems(w.db.models, t, pin, b.nodes, ids.node), FilledNodes(b.nodes, ids.node);
    forall i | 0 <= i < |items| && !items[i].Reject?
      ensures Carries(w.db.nodes, t, pin, items[i], us[i], ToNode, NodeKey)
    {
      NodeCarries(w.db, t, pin, b.nodes, ids.node, i);
    }
    RunEnds(w, moves);
    TraceSection(ts, evs, p, t, pin, items, us, ToNode, NodeKey);
  }

  lemma EdgesTrace(w: World, moves: seq<Move>, p: nat, t: string, pin: Pin)
    requires ImportRun(w, moves, p, t, pin)
    ensures Trace(EdgeTables(w, moves), EdgeEvents(w, moves, p), p, t, pin)
  {
    var ts, evs := EdgeTables(w, moves), EdgeEvents(w, moves, p);
    RunEnds(w, moves);
    forall k | 0 <= k < |evs| ensures TraceStep(ts, evs, p, t, pin, k) {
      BeforeNext(w, moves, k);
      EdgeFits(Before(w, moves, k), moves[k], p);
    }
  }

  lemma EdgesOfRun(w: World, moves: seq<Move>, p: nat, t: string, pin: Pin, b: Bundle)
    requires ImportRun(w, moves, p, t, pin)
    requires !EdgeProgress(w, moves, p, t, pin, b).Astray?
    ensures EdgeProgress(w, moves, p, t, pin, b).done <= |b.edges|
    ensures EdgesAre(After(w, moves).db, t, pin, Map(b.edges, FilledEdge)[..EdgeProgress(w, moves, p, t, pin, b).done])
  {
    var ts, evs := EdgeTables(w, moves), EdgeEvents(w, moves, p);
    EdgesTrace(w, moves, p, t, pin);
    var items, us := EdgeItems(w.db.models, t, pin, b.edges), Map(b.edges, FilledEdge);
    forall i | 0 <= i < |items| && !items[i].Reject?
      ensures Carries(w.db.edges, t, pin, items[i], us[i], ToEdge, EdgeKey)
    {
      EdgeCarries(w.db, t, pin, b.edges, i);
    }
    RunEnds(w, moves);
    TraceSection(ts, evs, p, t, pin, items, us, ToEdge, EdgeKey);
  }

  lemma PropertiesTrace(w: World, moves: seq<Move>, p: nat, t: string, pin: Pin)
    requires ImportRun(w, moves, p, t, pin)
    ensures Trace(PropertyTables(w, moves), PropertyEvents(w, moves, p), p, t, pin)
  {
    var ts, evs := PropertyTables(w, moves), PropertyEvents(w, moves, p);
    RunEnds(w, moves);
    forall k | 0 <= k < |evs| ensures TraceStep(ts, evs, p, t, pin, k) {
      BeforeNext(w, moves, k);
      PropertyFits(Before(w, moves, k), moves[k], p);
    }
  }

  lemma PropertiesOfRun(w: World, moves: seq<Move>, p: nat, t: string, pin: Pin, b: Bundle)
    requires ImportRun(w, moves, p, t, pin)
    requires !PropertyProgress(w, moves, p, t, pin, b).Astray?
    ensures PropertyProgress(w, moves, p, t, pin, b).done <= |b.properties|
    ensures PropertiesAre(After(w, moves).db, t, pin, b.properties[..PropertyProgress(w, moves, p, t, pin, b).done])
  {
    var ts, evs := PropertyTables(w, moves), PropertyEvents(w, moves, p);
    PropertiesTrace(w, moves, p, t, pin);
    var items, us := PropertyItems(w.db.models, t, pin, b.properties), b.properties;
    forall i | 0 <= i < |items| && !items[i].Reject?
      ensures Carries(w.db.props, t, pin, items[i], us[i], ToProperty, PropertyKey)
    {
      PropertyCarries(w.db, t, pin, b.properties, i);
    }
    RunEnds(w, moves);
    TraceSection(ts, evs, p, t, pin, items, us, ToProperty, PropertyKey);
  }

  ghost predicate SameExtras(db: Db, db2: Db) { db2.reasons == db.reasons && db2.obligations == db.obligations }

  lemma AskKeepsExtras(w: World, p: nat, req: Request)
    ensures SameExtras(w.db, AskStep(w, p, req).db)
  {
    match req
    case PutModel(_, _) =>
    case PutNode(_, _, _) =>
    case PutEdge(_, _) =>
    case PutProperty(_, _) =>
    case PutContract(_, _, _) =>
    case SetContractStatus(_, _, _, _, _) =>
    case SetModelStatus(_, _, _, _, _) =>
  }

  lemma GoKeepsExtras(w: World, p: nat, which: Which, s: Statement)
    ensures SameExtras(w.db, GoStep(w, p, which, s).db)
  {
    match which
    case OnModels =>
    case OnNodes =>
    case OnEdges =>
    case OnProps =>
    case OnContracts =>
  }

  lemma StepKeepsExtras(w: World, mv: Move)
    ensures SameExtras(w.db, Step(w, mv).db)
  {
    match mv
    case Ask(p, req) => AskKeepsExtras(w, p, req);
    case Go(p, which, s) => GoKeepsExtras(w, p, which, s);
    case _ =>
  }

  /** No step of a run writes reasons or obligations. */
  lemma {:induction false} ExtrasStay(w: World, moves: seq<Move>)
    ensures After(w, moves).db.reasons == w.db.reasons && After(w, moves).db.obligations == w.db.obligations
  {
    if moves != [] {
      ExtrasStay(w, moves[..|moves| - 1]);
      StepKeepsExtras(After(w, moves[..|moves| - 1]), moves[|moves| - 1]);
    }
  }

  lemma ContractsTrace(w: World, moves: seq<Move>, p: nat, t: string, pin: Pin)
    requires ImportRun(w, moves, p, t, pin)
    ensures Trace(ContractTables(w, moves), ContractEvents(w, moves, p), p, t, pin)
  {
    var ts, evs := ContractTables(w, moves), ContractEvents(w, moves, p);
    RunEnds(w, moves);
    forall k | 0 <= k < |evs| ensures TraceStep(ts, evs, p, t, pin, k) {
      BeforeNext(w, moves, k);
      ContractFits(Before(w, moves, k), moves[k], p);
    }
  }

  lemma ContractsOfRun(w: World, moves: seq<Move>, p: nat, t: string, pin: Pin, b: Bundle, ids: Ids)
    requires ImportRun(w, moves, p, t, pin)
    requires !ContractProgress(w, moves, p, t, pin, b, ids).Astray?
    ensures ContractProgress(w, moves, p, t, pin, b, ids).done <= |b.contracts|
    ensures ContractsAre(After(w, moves).db, t, pin,
      FilledContracts(b.contracts, ids.contract, pin)[..ContractProgress(w, moves, p, t, pin, b, ids).done])
  {
    var ts, evs := ContractTables(w, moves), ContractEvents(w, moves, p);
    ContractsTrace(w, moves, p, t, pin);
    var items, us := ContractItems(w.db.models, t, pin, b.contracts, ids.contract),
      FilledContracts(b.contracts, ids.contract, pin);
    forall i | 0 <= i < |items| && !items[i].Reject?
      ensures Carries(w.db.contracts, t, pin, items[i], us[i], ToContract(w.db.reasons, w.db.obligations, t),
        BundleContractKey)
    {
      ContractCarries(w.db, t, pin, b.contracts, ids.contract, i);
    }
    RunEnds(w, moves);
    ExtrasStay(w, moves);
    assert ValidDb(w.db);
    TraceSection(ts, evs, p, t, pin, items, us, ToContract(w.db.reasons, w.db.obligations, t), BundleContractKey);
  }

  /** An import among other clients. At every moment of every run in which the importer's client runs the
      import loops, and no other client inserts under its pin, the sections stored under the pin are the
      canonical forms of what it has put so far, whatever the others write in between, the same keys
      under other pins included. */
  lemma InterleavedSections(w: World, moves: seq<Move>, p: nat, t: string, pin: Pin, b: Bundle, ids: Ids)
      returns (c: Cuts)
    requires ImportRun(w, moves, p, t, pin)
    requires !NodeProgress(w, moves, p, t, pin, b, ids).Astray? && !EdgeProgress(w, moves, p, t, pin, b).Astray?
    requires !PropertyProgress(w, moves, p, t, pin, b).Astray? && !ContractProgress(w, moves, p, t, pin, b, ids).Astray?
    ensures c == Cuts(NodeProgress(w, moves, p, t, pin, b, ids).done, EdgeProgress(w, moves, p, t, pin, b).done,
                      PropertyProgress(w, moves, p, t, pin, b).done, ContractProgress(w, moves, p, t, pin, b, ids).done)
    ensures CutsWithin(b, c) && ValidDb(After(w, moves).db) && SectionsUpTo(After(w, moves).db, t, pin, b, ids, c)
  {
    c := Cuts(NodeProgress(w, moves, p, t, pin, b, ids).done, EdgeProgress(w, moves, p, t, pin, b).done,
              PropertyProgress(w, moves, p, t, pin, b).done, ContractProgress(w, moves, p, t, pin, b, ids).done);
    RunSafety(w, moves);
    NodesOfRun(w, moves, p, t, pin, b, ids);
    EdgesOfRun(w, moves, p, t, pin, b);
    PropertiesOfRun(w, moves, p, t, pin, b);
    ContractsOfRun(w, moves, p, t, pin, b, ids);
  }

  /** The pin of a model version that a run has just created is as an import needs it. */
  lemma CreatedPinIsUsable(w: World, p: nat)
    requires WorldInv(w)
    ensures
      var w' := Step(w, Go(p, OnModels, InsertRow));
      w'.db.models != w.db.models ==>
        && WorldInv(w') && |w'.db.models| == |w.db.models| + 1
        && var r := w'.db.models[|w.db.models|];
        UsablePin(w'.db, Tenant(r.key), PinOf(r))
  {
    var w' := Step(w, Go(p, OnModels, InsertRow));
    var w2 := StepKeepsInv(w, Go(p, OnModels, InsertRow));
    WorldIsValid(w);
    WorldIsValid(w');
    NewVersionIsEmpty(w, p);
    if w'.db.models != w.db.models {
      var r := w'.db.models[|w.db.models|];
      Parts(w'.db);
      assert r in w'.db.models && ModelOk(r.key, r.val) && r.key[0] in r.key && r.key[1] in r.key;
      PinPositive(w'.db.models, Tenant(r.key), PinOf(r));
      NewPinEmpty(w.db, Tenant(r.key), PinOf(r));
    }
  }

  /** Import then export among other clients: as long as no later model version of the tenant is enabled,
      the tenant exports the canonical form of what the importer has put. */
  lemma InterleavedExport(w: World, moves: seq<Move>, p: nat, name: string, pin: Pin, b: Bundle, withContracts: bool,
      ids: Ids)
    returns (c: Cuts)
    requires name != "" && name in After(w, moves).db.tenants
    requires var t := After(w, moves).db.tenants[name];
      && ImportRun(w, moves, p, t, pin)
      && !NodeProgress(w, moves, p, t, pin, b, ids).Astray? && !EdgeProgress(w, moves, p, t, pin, b).Astray?
      && !PropertyProgress(w, moves, p, t, pin, b).Astray? && !ContractProgress(w, moves, p, t, pin, b, ids).Astray?
      && LatestEnabled(w.db.models, t).Some? && PinOf(LatestEnabled(w.db.models, t).value) == pin
      && w.db.models <= After(w, moves).db.models
      && forall r :: r in After(w, moves).db.models[|w.db.models|..] ==> !Enables(r, t)
    ensures var t, exported := After(w, moves).db.tenants[name], ExportOf(After(w, moves).db, name, withContracts);
      && c == Cuts(NodeProgress(w, moves, p, t, pin, b, ids).done, EdgeProgress(w, moves, p, t, pin, b).done,
                   PropertyProgress(w, moves, p, t, pin, b).done, ContractProgress(w, moves, p, t, pin, b, ids).done)
      && CutsWithin(b, c) && exported.Ok? && ShowsUpTo(exported.value, b, withContracts, ids, pin, c)
  {
    var t := After(w, moves).db.tenants[name];
    c := InterleavedSections(w, moves, p, t, pin, b, ids);
    PointerOverRuns(w, moves, t);
    StoredIsExported(After(w, moves).db, name, pin, b, withContracts, ids, c);
  }
}
