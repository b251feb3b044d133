/** Exports read off the database after any interleaved run. */
module Runs {
  import opened Basics
  import opened Ordering
  import opened VersionedLog
  import opened Schema
  import opened Bundles
  import opened BundleLaws
  import opened World
  import opened WorldSafety

  /** After any run, the sections of a pin are the last writes made under that pin, sorted by key. */
  lemma SectionsAfterAnyRun(w: World, moves: seq<Move>, t: string, pin: Pin)
    requires WorldInv(w)
    ensures var db := After(w, moves).db;
      var ns, es := Filter(db.nodes, AtPin(t, pin)), Filter(db.edges, AtPin(t, pin));
      var ps, cs := Filter(db.props, AtPin(t, pin)), Filter(db.contracts, AtPin(t, pin));
      var toContract := ToContract(db.reasons, db.obligations, t);
      && Canonical(Map(Query(db.nodes, AtPin(t, pin)), ToNode), Map(ns, ToNode), NodeKey)
      && Canonical(Map(Query(db.edges, AtPin(t, pin)), ToEdge), Map(es, ToEdge), EdgeKey)
      && Canonical(Map(Query(db.props, AtPin(t, pin)), ToProperty), Map(ps, ToProperty), PropertyKey)
      && Canonical(Map(Query(db.contracts, AtPin(t, pin)), toContract), Map(cs, toContract), BundleContractKey)
  {
    RunSafety(w, moves);
    var db := After(w, moves).db;
    Parts(db);
    ExportedNodes(db, t, pin);
    ExportedEdges(db, t, pin);
    ExportedProperties(db, t, pin);
    ExportedContracts(db, t, pin);
    var toContract := ToContract(db.reasons, db.obligations, t);
    LastWinsCanonical(Map(Filter(db.nodes, AtPin(t, pin)), ToNode), NodeKey);
    LastWinsCanonical(Map(Filter(db.edges, AtPin(t, pin)), ToEdge), EdgeKey);
    LastWinsCanonical(Map(Filter(db.props, AtPin(t, pin)), ToProperty), PropertyKey);
    LastWinsCanonical(Map(Filter(db.contracts, AtPin(t, pin)), toContract), BundleContractKey);
  }

  /** The rows a run added to a table. */
  function Added<V>(before: Log<V>, after: Log<V>): Log<V>
    requires before <= after
  {
    after[|before|..]
  }

  /** No row of the pin is among the added ones. */
  ghost predicate Untouched<B>(before: Log<Stored<B>>, after: Log<Stored<B>>, t: string, pin: Pin) {
    before <= after && forall r :: r in Added(before, after) ==> !AtPin<B>(t, pin)(r)
  }

  lemma UndisturbedTable<B(!new)>(before: Log<Stored<B>>, after: Log<Stored<B>>, t: string, pin: Pin)
    requires Untouched(before, after, t, pin)
    ensures Query(after, AtPin(t, pin)) == Query(before, AtPin(t, pin))
  {
    assert after == before + Added(before, after);
    QueryFrame(before, Added(before, after), AtPin(t, pin));
  }

  /** Frame: a run that writes nothing under a pin leaves its snapshots as they were, whatever versions of
      the same keys it adds under other pins. */
  lemma OtherPinsDoNotDisturb(w: World, moves: seq<Move>, t: string, pin: Pin)
    requires WorldInv(w)
    ensures Grows(w, After(w, moves))
    ensures var db, db2 := w.db, After(w, moves).db;
      && (Untouched(db.nodes, db2.nodes, t, pin) ==> Query(db2.nodes, AtPin(t, pin)) == Query(db.nodes, AtPin(t, pin)))
      && (Untouched(db.edges, db2.edges, t, pin) ==> Query(db2.edges, AtPin(t, pin)) == Query(db.edges, AtPin(t, pin)))
      && (Untouched(db.props, db2.props, t, pin) ==> Query(db2.props, AtPin(t, pin)) == Query(db.props, AtPin(t, pin)))
      && (Untouched(db.contracts, db2.contracts, t, pin) ==>
            Query(db2.contracts, AtPin(t, pin)) == Query(db.contracts, AtPin(t, pin)))
  {
    RunSafety(w, moves);
    var db, db2 := w.db, After(w, moves).db;
    if Untouched(db.nodes, db2.nodes, t, pin) { UndisturbedTable(db.nodes, db2.nodes, t, pin); }
    if Untouched(db.edges, db2.edges, t, pin) { UndisturbedTable(db.edges, db2.edges, t, pin); }
    if Untouched(db.props, db2.props, t, pin) { UndisturbedTable(db.props, db2.props, t, pin); }
    if Untouched(db.contracts, db2.contracts, t, pin) { UndisturbedTable(db.contracts, db2.contracts, t, pin); }
  }
}
