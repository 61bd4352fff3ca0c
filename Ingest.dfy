/**
 * The push of a translation result into the graph database:
 * `Application.pushNodes`, `Application.close` and `Application.pushToNeo4j`.
 *
 * The Neo4j session and session factory are not modelled; what the program
 * does with them is recorded, call by call, in the event log of a Database
 * object. The analyser's node type is the type parameter N, its node equality
 * is Dafny's equality on N, and `SubgraphWalker.flattenAST` is the function
 * parameter `flatten`.
 */
module Ingest {

  import Connection

  /** One call on the session, its transaction or its factory. */
  datatype Event<N> =
    | Purged             // session.purgeDatabase()
    | TransactionBegun   // session.beginTransaction()
    | Saved(node: N)     // session.save(child), accepted by the database
    | Committed          // transaction.commit()
    | TransactionClosed  // the end of the `use` block around the transaction
    | Cleared            // session.clear()
    | FactoryClosed      // sessionFactory.close()

  /**
   * The database behind one session and its factory, as far as this program
   * can observe it: the ordered log of the calls made on them, and the nodes
   * whose save the database refuses (a save of one of those throws).
   */
  class Database<N(==)> {
    var trace: seq<Event<N>>
    const rejects: set<N>

    constructor (rejects: set<N>)
      ensures trace == [] && this.rejects == rejects
    {
      trace := [];
      this.rejects := rejects;
    }

    method PurgeDatabase()
      modifies this
      ensures trace == old(trace) + [Purged]
    {
      trace := trace + [Purged];
    }

    method BeginTransaction()
      modifies this
      ensures trace == old(trace) + [TransactionBegun]
    {
      trace := trace + [TransactionBegun];
    }

    /** A save either is accepted and logged, or throws and writes nothing. */
    method Save(node: N) returns (accepted: bool)
      modifies this
      ensures accepted <==> node !in rejects
      ensures trace == old(trace) + if accepted then [Saved(node)] else []
    {
      accepted := node !in rejects;
      if accepted {
        trace := trace + [Saved(node)];
      }
    }

    method Commit()
      modifies this
      ensures trace == old(trace) + [Committed]
    {
      trace := trace + [Committed];
    }

    method CloseTransaction()
      modifies this
      ensures trace == old(trace) + [TransactionClosed]
    {
      trace := trace + [TransactionClosed];
    }

    method Clear()
      modifies this
      ensures trace == old(trace) + [Cleared]
    {
      trace := trace + [Cleared];
    }

    method CloseFactory()
      modifies this
      ensures trace == old(trace) + [FactoryClosed]
    {
      trace := trace + [FactoryClosed];
    }
  }

  /** No element occurs twice. */
  predicate Distinct<T(==)>(s: seq<T>) {
    forall i, j :: 0 <= i < j < |s| ==> s[i] != s[j]
  }

  /** `order` lists every distinct element of `units` exactly once: an iteration order of the HashSet built from `units`. */
  predicate Enumerates<T(==)>(order: seq<T>, units: seq<T>) {
    && Distinct(order)
    && (forall u :: u in order ==> u in units)
    && (forall u :: u in units ==> u in order)
  }

  /** The elements of `units` as a set: what `HashSet(translationUnits)` holds. */
  function Members<T>(units: seq<T>): set<T> {
    set u | u in units
  }

  /** An enumeration of the distinct units is exactly as long as the set of units. */
  lemma EnumerationLength<T>(order: seq<T>, units: seq<T>)
    requires Enumerates(order, units)
    ensures |order| == |Members(units)|
  {
    EnumerationLengthOfSet(order, Members(units));
  }

  /** A sequence without repetitions that holds exactly the members of a set is as long as the set is large. */
  lemma {:induction false} EnumerationLengthOfSet<T>(order: seq<T>, units: set<T>)
    requires Distinct(order) && (forall u :: u in order ==> u in units) && (forall u :: u in units ==> u in order)
    ensures |order| == |units|
    decreases |order|
  {
    if order == [] {
      assert units == {} by {
        forall u | u in units ensures u in order { }
      }
    } else {
      var last := order[|order| - 1];
      var rest := order[..|order| - 1];
      forall u | u in rest ensures u in units - {last} {
        var k :| 0 <= k < |rest| && rest[k] == u;
        assert order[k] == u;
      }
      forall u | u in units - {last} ensures u in rest {
        var k :| 0 <= k < |order| && order[k] == u;
        assert rest[k] == u;
      }
      EnumerationLengthOfSet(rest, units - {last});
    }
  }

  /** The HashSet's iteration: some order in which every member of `units` comes exactly once. */
  method Enumerate<T>(units: set<T>) returns (order: seq<T>)
    ensures Distinct(order) && (forall u :: u in order ==> u in units) && (forall u :: u in units ==> u in order)
  {
    order := [];
    var rest := units;
    while rest != {}
      invariant rest <= units
      invariant Distinct(order)
      invariant forall u :: u in order ==> u in units && u !in rest
      invariant forall u :: u in units ==> u in order || u in rest
      decreases rest
    {
      var u :| u in rest;
      order := order + [u];
      rest := rest - {u};
    }
  }

  /** The nodes of every unit's flattened AST, unit after unit in `order`. */
  function FlattenAll<N>(order: seq<N>, flatten: N -> seq<N>): seq<N> {
    if order == [] then [] else FlattenAll(order[..|order| - 1], flatten) + flatten(order[|order| - 1])
  }

  /** A node is saved by a complete push exactly when it lies in the flattened AST of one of the units. */
  lemma {:induction false} FlattenAllMembers<N>(order: seq<N>, flatten: N -> seq<N>, n: N)
    ensures n in FlattenAll(order, flatten) <==> exists k :: 0 <= k < |order| && n in flatten(order[k])
    decreases |order|
  {
    if order != [] {
      var init := order[..|order| - 1];
      FlattenAllMembers(init, flatten, n);
      assert forall k :: 0 <= k < |init| ==> init[k] == order[k];
      if n in FlattenAll(order, flatten) && n !in flatten(order[|order| - 1]) {
        var k :| 0 <= k < |init| && n in flatten(init[k]);
        assert n in flatten(order[k]);
      }
    }
  }

  /** Over any HashSet order, a node is flattened exactly when it lies in the flattened AST of one of the units. */
  lemma FlattenAllOfUnits<N>(order: seq<N>, units: seq<N>, flatten: N -> seq<N>, n: N)
    requires Enumerates(order, units)
    ensures n in FlattenAll(order, flatten) <==> exists u :: u in units && n in flatten(u)
  {
    FlattenAllMembers(order, flatten, n);
    if n in FlattenAll(order, flatten) {
      var k :| 0 <= k < |order| && n in flatten(order[k]);
      assert order[k] in units;
    }
    if exists u :: u in units && n in flatten(u) {
      var u :| u in units && n in flatten(u);
      var k :| 0 <= k < |order| && order[k] == u;
      assert n in flatten(order[k]);
    }
  }

  /** The HashSet's iteration order does not change which nodes a complete push saves. */
  lemma SavedNodesIndependentOfOrder<N>(o1: seq<N>, o2: seq<N>, units: seq<N>, flatten: N -> seq<N>, n: N)
    requires Enumerates(o1, units) && Enumerates(o2, units)
    ensures n in FlattenAll(o1, flatten) <==> n in FlattenAll(o2, flatten)
  {
    FlattenAllOfUnits(o1, units, flatten, n);
    FlattenAllOfUnits(o2, units, flatten, n);
  }

  /** The index of the first node whose save the database refuses, |nodes| when there is none. */
  function FirstRejected<N>(nodes: seq<N>, rejects: set<N>): (p: nat)
    ensures p <= |nodes|
    ensures forall k :: 0 <= k < p ==> nodes[k] !in rejects
    ensures p < |nodes| ==> nodes[p] in rejects
  {
    if nodes == [] || nodes[0] in rejects then 0
    else 1 + FirstRejected(nodes[1..], rejects)
  }

  /** The log entries of the accepted saves of `nodes`, in order. */
  function Saves<N>(nodes: seq<N>): seq<Event<N>> {
    seq(|nodes|, i requires 0 <= i < |nodes| => Saved(nodes[i]))
  }

  lemma SavesAppend<N>(a: seq<N>, b: seq<N>)
    ensures Saves(a + b) == Saves(a) + Saves(b)
  {
    assert forall i :: 0 <= i < |a| ==> (a + b)[i] == a[i];
    assert forall i :: |a| <= i < |a| + |b| ==> (a + b)[i] == b[i - |a|];
  }

  /** Flattening two runs of units one after the other is flattening each run. */
  lemma {:induction false} FlattenAllAppend<N>(a: seq<N>, b: seq<N>, flatten: N -> seq<N>)
    ensures FlattenAll(a + b, flatten) == FlattenAll(a, flatten) + FlattenAll(b, flatten)
    decreases |b|
  {
    if b != [] {
      var b' := b[..|b| - 1];
      assert (a + b)[..|a + b| - 1] == a + b';
      FlattenAllAppend(a, b', flatten);
    } else {
      assert a + b == a;
    }
  }

  /**
   * `pushNodes`: the translation units are put into a HashSet, then every node
   * of each distinct unit's flattened AST is saved, unit by unit. A save that
   * the database refuses throws out of both loops.
   *
   * `order` is the HashSet's iteration order and `traversals` counts the calls
   * of `flattenAST`.
   */
  method PushNodes<N>(units: seq<N>, flatten: N -> seq<N>, db: Database<N>)
      returns (ok: bool, order: seq<N>, traversals: nat)
    modifies db
    ensures Enumerates(order, units)
    ensures var all := FlattenAll(order, flatten);
      && (ok <==> FirstRejected(all, db.rejects) == |all|)
      && db.trace == old(db.trace) + Saves(all[..FirstRejected(all, db.rejects)])
    ensures ok ==> traversals == |Members(units)|
  {
    var nodes := Members(units);
    order := Enumerate(nodes);
    traversals := 0;
    ghost var saved: seq<N> := [];
    var i := 0;
    while i < |order|
      invariant 0 <= i <= |order|
      invariant traversals == i
      invariant saved == FlattenAll(order[..i], flatten)
      invariant forall k :: 0 <= k < |saved| ==> saved[k] !in db.rejects
      invariant db.trace == old(db.trace) + Saves(saved)
    {
      var children := flatten(order[i]);
      traversals := traversals + 1;
      var j := 0;
      while j < |children|
        invariant 0 <= j <= |children|
        invariant forall k :: 0 <= k < j ==> children[k] !in db.rejects
        invariant db.trace == old(db.trace) + Saves(saved + children[..j])
      {
        var accepted := db.Save(children[j]);
        if !accepted {
          ok := false;
          PushNodesRejected(order, i, flatten, saved, children, j, db.rejects);
          return;
        }
        SavesAppend(saved + children[..j], [children[j]]);
        assert saved + children[..j + 1] == saved + children[..j] + [children[j]];
        j := j + 1;
      }
      FlattenAllStep(order, i, flatten);
      assert children[..j] == children;
      saved := saved + children;
      i := i + 1;
    }
    assert order[..i] == order;
    ok := true;
    EnumerationLength(order, units);
  }

  /** The flattened sequence around unit i: the units before it, its own AST, the units after it. */
  lemma FlattenAllAround<N>(order: seq<N>, i: nat, flatten: N -> seq<N>)
    requires i < |order|
    ensures FlattenAll(order, flatten) ==
      FlattenAll(order[..i], flatten) + flatten(order[i]) + FlattenAll(order[i + 1..], flatten)
  {
    FlattenAllSplit(order, i + 1, flatten);
    FlattenAllStep(order, i, flatten);
  }

  /** Cutting the units at m cuts the flattened sequence between the two parts' ASTs. */
  lemma FlattenAllSplit<N>(order: seq<N>, m: nat, flatten: N -> seq<N>)
    requires m <= |order|
    ensures FlattenAll(order, flatten) == FlattenAll(order[..m], flatten) + FlattenAll(order[m..], flatten)
  {
    assert order == order[..m] + order[m..];
    FlattenAllAppend(order[..m], order[m..], flatten);
  }

  /** One more unit appends its own flattened AST. */
  lemma FlattenAllStep<N>(order: seq<N>, i: nat, flatten: N -> seq<N>)
    requires i < |order|
    ensures FlattenAll(order[..i + 1], flatten) == FlattenAll(order[..i], flatten) + flatten(order[i])
  {
    assert order[..i + 1][..i] == order[..i];
  }

  /** A refused node preceded only by accepted ones is the first refused node. */
  lemma FirstRejectedAt<N>(nodes: seq<N>, rejects: set<N>, q: nat)
    requires q < |nodes| && nodes[q] in rejects
    requires forall k :: 0 <= k < q ==> nodes[k] !in rejects
    ensures FirstRejected(nodes, rejects) == q
  {
  }

  /** Where the first refused save lies in the whole flattened sequence, when it is child j of unit i. */
  lemma PushNodesRejected<N>(order: seq<N>, i: nat, flatten: N -> seq<N>, saved: seq<N>, children: seq<N>, j: nat, rejects: set<N>)
    requires i < |order| && children == flatten(order[i]) && j < |children|
    requires saved == FlattenAll(order[..i], flatten)
    requires forall k :: 0 <= k < |saved| ==> saved[k] !in rejects
    requires forall k :: 0 <= k < j ==> children[k] !in rejects
    requires children[j] in rejects
    ensures var all := FlattenAll(order, flatten);
      && FirstRejected(all, rejects) == |saved| + j < |all|
      && all[..FirstRejected(all, rejects)] == saved + children[..j]
  {
    var all := FlattenAll(order, flatten);
    FlattenAllAround(order, i, flatten);
    var rest := FlattenAll(order[i + 1..], flatten);
    assert all == saved + children + rest;
    forall k | 0 <= k < |saved| + j ensures all[k] !in rejects {
      if k < |saved| {
        assert all[k] == saved[k];
      } else {
        assert all[k] == children[k - |saved|];
      }
    }
    assert all[|saved| + j] == children[j];
    FirstRejectedAt(all, rejects, |saved| + j);
    assert all[..|saved| + j] == saved + children[..j];
  }

  /** `close`: the session is cleared, then its factory closed. */
  method Close<N>(db: Database<N>)
    modifies db
    ensures db.trace == old(db.trace) + [Cleared, FactoryClosed]
  {
    db.Clear();
    db.CloseFactory();
  }

  /** The calls of a run that pushed every node: purge, transaction, saves, commit, then close. */
  function NormalTrace<N>(saved: seq<N>): seq<Event<N>> {
    [Purged, TransactionBegun] + Saves(saved) + [Committed, TransactionClosed, Cleared, FactoryClosed]
  }

  /** The calls of a run whose save was refused: the transaction is closed without commit and `close` never runs. */
  function FailedTrace<N>(saved: seq<N>): seq<Event<N>> {
    [Purged, TransactionBegun] + Saves(saved) + [TransactionClosed]
  }

  /** How `pushToNeo4j` ends: normally, with the ConnectException, with exitProcess, or with the exception of a refused save. */
  datatype PushResult = Pushed | ConnectFailed(message: string) | Exited(status: int) | WriteFailed

  /**
   * `pushToNeo4j`: connect, purge (PURGE_DB is true), begin the transaction,
   * push the nodes, commit, let `use` close the transaction, then `close`.
   * There is no finally block: when a save throws, the `use` block still
   * closes the transaction, but nothing is committed and `close` is not called.
   */
  method PushToNeo4j<N, S, F>(outcome: nat -> Connection.Attempt<S, F>, units: seq<N>, flatten: N -> seq<N>, db: Database<N>)
      returns (r: PushResult, order: seq<N>)
    modifies db
    ensures var run := Connection.RetryFrom(outcome, 0);
      && (run.result.ConnectError? ==> r == ConnectFailed(run.result.message) && db.trace == old(db.trace))
      && (run.result.Exit? ==> r == Exited(run.result.status) && db.trace == old(db.trace))
      && (run.result.Connected? ==> Enumerates(order, units) && (r.Pushed? || r.WriteFailed?))
    ensures var all := FlattenAll(order, flatten);
      && (r.Pushed? ==> FirstRejected(all, db.rejects) == |all| && db.trace == old(db.trace) + NormalTrace(all))
      && (r.WriteFailed? ==>
            FirstRejected(all, db.rejects) < |all| &&
            db.trace == old(db.trace) + FailedTrace(all[..FirstRejected(all, db.rejects)]))
  {
    var run := Connection.Connect(outcome);
    order := [];
    match run.result
    case ConnectError(message) =>
      r := ConnectFailed(message);
    case Exit(status) =>
      r := Exited(status);
    case Connected(session, factory) =>
      r, order := PushSession(units, flatten, db);
  }

  /** The part of `pushToNeo4j` that runs once a session is open. */
  method PushSession<N>(units: seq<N>, flatten: N -> seq<N>, db: Database<N>)
      returns (r: PushResult, order: seq<N>)
    modifies db
    ensures Enumerates(order, units) && (r.Pushed? || r.WriteFailed?)
    ensures var all := FlattenAll(order, flatten);
      && (r.Pushed? ==> FirstRejected(all, db.rejects) == |all| && db.trace == old(db.trace) + NormalTrace(all))
      && (r.WriteFailed? ==>
            FirstRejected(all, db.rejects) < |all| &&
            db.trace == old(db.trace) + FailedTrace(all[..FirstRejected(all, db.rejects)]))
  {
    ghost var before := db.trace;
    db.PurgeDatabase();
    db.BeginTransaction();
    var ok, traversals;
    ok, order, traversals := PushNodes(units, flatten, db);
    ghost var all := FlattenAll(order, flatten);
    ghost var saved := all[..FirstRejected(all, db.rejects)];
    assert db.trace == before + [Purged, TransactionBegun] + Saves(saved);
    if !ok {
      db.CloseTransaction();
      r := WriteFailed;
      assert db.trace == before + FailedTrace(saved);
      return;
    }
    assert saved == all;
    db.Commit();
    db.CloseTransaction();
    Close(db);
    assert db.trace == before + NormalTrace(all);
    r := Pushed;
  }

  /**
   * The order of a complete run: the purge first and once, then the one
   * transaction, every save inside it, a single commit after the last save,
   * the end of the transaction, and `close` clearing the session before
   * closing the factory.
   */
  lemma NormalTraceOrder<N>(saved: seq<N>)
    ensures var t := NormalTrace(saved); var c := |t| - 4;
      && c == |saved| + 2
      && (forall i :: 0 <= i < |t| ==> (t[i] == Purged <==> i == 0))
      && (forall i :: 0 <= i < |t| ==> (t[i] == TransactionBegun <==> i == 1))
      && t[2..c] == Saves(saved)
      && (forall i :: 0 <= i < |t| && t[i].Saved? ==> 1 < i < c)
      && (forall i :: 0 <= i < |t| ==> (t[i] == Committed <==> i == c))
      && t[c + 1] == TransactionClosed && t[c + 2] == Cleared && t[c + 3] == FactoryClosed
  {
    var t := NormalTrace(saved);
    var c := |t| - 4;
    assert t[2..c] == Saves(saved);
    forall i | 2 <= i < c ensures t[i] == Saved(saved[i - 2]) {
      assert t[i] == t[2..c][i - 2];
    }
  }

  /**
   * The order of a run whose save was refused: purge and transaction as
   * before, the accepted saves, then only the end of the transaction. Nothing
   * is committed and the session is neither cleared nor its factory closed.
   */
  lemma FailedTraceOrder<N>(saved: seq<N>)
    ensures var t := FailedTrace(saved);
      && t[0] == Purged && t[1] == TransactionBegun
      && t[2..|t| - 1] == Saves(saved)
      && t[|t| - 1] == TransactionClosed
      && Committed !in t && Cleared !in t && FactoryClosed !in t
  {
    var t := FailedTrace(saved);
    assert t[2..|t| - 1] == Saves(saved);
    forall i | 2 <= i < |t| - 1 ensures t[i] == Saved(saved[i - 2]) {
      assert t[i] == t[2..|t| - 1][i - 2];
    }
  }

  /**
   * Three translation units of which two are the same node: the HashSet
   * holds two, so exactly two subgraphs are flattened, each once.
   */
  lemma DuplicateUnitFlattenedOnce<N>(a: N, b: N, order: seq<N>)
    requires a != b && Enumerates(order, [a, a, b])
    ensures |order| == 2 && (order == [a, b] || order == [b, a])
  {
    EnumerationLength(order, [a, a, b]);
    assert Members([a, a, b]) == {a, b};
    assert a in order && b in order;
  }
}
