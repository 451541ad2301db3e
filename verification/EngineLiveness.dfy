/** The guarantees are not met by doing nothing: an undisturbed root whose
    verdict accepts runs every node of its walk and succeeds. */
module EngineLiveness {
  import opened Options
  import opened Lifecycle
  import opened WorkflowDefinitions
  import opened StepRows
  import opened EngineSpec
  import opened EngineInvariants
  import opened EngineStaleness
  import EngineExactness

  /** Nothing fails, every verdict accepts, and the process stays for `stop` rounds. */
  ghost function AcceptingWorld(stop: nat): World {
    World(Recovers(true), (k: nat) => if k == stop then Leave else Continue,
      (k: nat, n: NodeId) => Returns(Output(k, true, [])), (k: nat) => 2, (k: nat) => true)
  }

  lemma AcceptingCalm(stop: nat)
    ensures Calm(AcceptingWorld(stop), stop)
  {
  }

  /** One undisturbed hop behind the gate, or off the end of the graph. */
  lemma HopOn(d: Definition, q: NodeId, depth: NodeId -> nat, db: Db, mem: Memory, n: NodeId, w: World, k: nat,
              stop: nat)
    requires WellFormed(d, q, depth) && Calm(w, stop) && k < stop && Plain(db.rows, mem.state)
    requires mem.current == Some(n) && n != q && !NextHop(d, n).Broken?
    ensures var m := Round(d, q, db, mem, w, k);
            && m.Go? && Kept(db.rows, mem.state, m.db.rows, m.mem.state, k, k + 1)
            && m.mem.current == (if NextHop(d, n).To? then Some(NextHop(d, n).node) else None)
  {
    hide WellFormed, Visit, FanOut, CommonJoin, Project, Latest, Plain, Pending, Successors, Kept;
    VisitKept(d, db, mem, n, w, k, stop);
    var v := Visit(d, db, mem, n, w, k);
    KeptPlain(db.rows, mem.state, v.db.rows, v.mem.state, k, k + 1);
    ForwardKept(d, q, depth, v.db, v.mem, n, None, w, k, stop);
    var f := Forward(d, v.db, v.mem, n, None, w, k);
    if NextHop(d, n).To? {
      ForwardGoes(d, q, depth, v.db, v.mem, n, w, k, stop);
    }
    assert f.Go?;
    KeptTwice(db.rows, mem.state, v.db.rows, v.mem.state, f.db.rows, f.mem.state, k, k + 1, k, k + 1);
  }

  /** A walk that leaves the graph ends in a succeeded root that has kept every output. */
  lemma {:induction false} WalkOut(d: Definition, q: NodeId, depth: NodeId -> nat, db: Db, mem: Memory, n: NodeId,
                                   w: World, k: nat, stop: nat)
    requires WellFormed(d, q, depth) && Calm(w, stop) && k + depth(n) < stop && Plain(db.rows, mem.state)
    requires mem.current == Some(n) && Escapes(d, q, depth, n)
    ensures var end := Loop(d, q, depth, db, mem, w, k);
            end.status == Succeeded && forall x :: x in mem.state ==> Latest(end.rows, x) == Latest(db.rows, x)
    decreases depth(n)
  {
    hide WellFormed, Round, Plain, Kept, Calm, NextHop, Latest, Loop;
    NextHopLower(d, q, depth, n);
    HopOn(d, q, depth, db, mem, n, w, k, stop);
    EngineExactness.LoopUnfolds(d, q, depth, db, mem, w, k);
    var m := Round(d, q, db, mem, w, k);
    KeptPlain(db.rows, mem.state, m.db.rows, m.mem.state, k, k + 1);
    KeptLatest(db.rows, mem.state, m.db.rows, m.mem.state, k, k + 1);
    if NextHop(d, n).To? {
      WalkOut(d, q, depth, m.db, m.mem, NextHop(d, n).node, w, k + 1, stop);
    } else {
      Ends(d, q, depth, m.db, m.mem, w, k + 1, stop);
    }
  }

  lemma KeptLatest(a: seq<Row>, sa: map<NodeId, Output>, b: seq<Row>, sb: map<NodeId, Output>, lo: nat, hi: nat)
    requires Kept(a, sa, b, sb, lo, hi)
    ensures forall n :: n in sa ==> n in sb && Latest(b, n) == Latest(a, n)
  {
  }

  lemma Ends(d: Definition, q: NodeId, depth: NodeId -> nat, db: Db, mem: Memory, w: World, k: nat, stop: nat)
    requires WellFormed(d, q, depth) && Calm(w, stop) && mem.current == None
    ensures Loop(d, q, depth, db, mem, w, k) == db.(status := Succeeded)
  {
  }

  /** Behind an accepting verdict there is at most one way on, and it leaves the graph. */
  ghost predicate AcceptLeadsOut(d: Definition, q: NodeId, depth: NodeId -> nat)
    requires WellFormed(d, q, depth)
  {
    var s := Successors(d, q, ACCEPT);
    s == [] || (|s| == 1 && Escapes(d, q, depth, s[0]))
  }

  /** The accepting round at the quality node. */
  lemma AcceptedHop(d: Definition, q: NodeId, db: Db, mem: Memory, w: World, k: nat, stop: nat)
    requires Calm(w, stop) && k < stop && Plain(db.rows, mem.state) && |Successors(d, q, ACCEPT)| <= 1
    requires mem.current == Some(q) && q !in mem.state && w.outcome(2 * k, q).out.accept
    ensures var m := Round(d, q, db, mem, w, k);
            var s := Successors(d, q, ACCEPT);
            && m.Go? && Kept(db.rows, mem.state, m.db.rows, m.mem.state, k, k + 1)
            && q in m.mem.state && Accepted(m.db.rows, q)
            && m.mem.current == if s == [] then None else Some(s[0])
  {
    hide Visit, Successors, Latest;
    VisitKept(d, db, mem, q, w, k, stop);
  }

  /** Main result: there is a run in which the root succeeds, its latest verdict
      accepts, and every node of its walk has succeeded. */
  lemma {:induction false} UndisturbedSucceeds(d: Definition, q: NodeId, depth: NodeId -> nat) returns (w: World)
    requires WellFormed(d, q, depth) && QualityAlone(d, q) && |InitialNodes(d)| == 1 && InitialHits(d, q, depth)
    requires AcceptLeadsOut(d, q, depth)
    ensures var end := Claimed(d, q, depth, NewRoot, w);
            && end.status == Succeeded && Accepted(end.rows, q)
            && forall n :: Runs(d, q, depth, InitialNodes(d)[0], n) ==> Latest(end.rows, n).Some?
  {
    hide WellFormed, QualityAlone, InitialNodes, Round, Loop, Plain, Kept, Runs, RunsBefore, Hits, Hops, Latest;
    hide ReadFrom, FreshMemory, Calm, Claimed, Escapes, Successors;
    var start := InitialNodes(d)[0];
    var k := Hops(d, q, depth, start);
    var s := Successors(d, q, ACCEPT);
    var stop := k + 2 + (if s == [] then 0 else depth(s[0]));
    w := AcceptingWorld(stop);
    AcceptingCalm(stop);
    EngineExactness.FirstClaim(d, q, depth, w);
    PlainEmpty();
    var db, mem := Arrive(d, q, depth, Db([], Running), FreshMemory([], start), start, w, 0, stop);
    KeptPlain([], map[], db.rows, mem.state, 0, k);
    AcceptedHop(d, q, db, mem, w, k, stop);
    EngineExactness.LoopUnfolds(d, q, depth, db, mem, w, k);
    var m := Round(d, q, db, mem, w, k);
    KeptPlain(db.rows, mem.state, m.db.rows, m.mem.state, k, k + 1);
    KeptLatest(db.rows, mem.state, m.db.rows, m.mem.state, k, k + 1);
    PlainLatest(db.rows, mem.state);
    if s == [] {
      Ends(d, q, depth, m.db, m.mem, w, k + 1, stop);
    } else {
      WalkOut(d, q, depth, m.db, m.mem, s[0], w, k + 1, stop);
    }
  }

  lemma PlainLatest(rows: seq<Row>, state: map<NodeId, Output>)
    requires Plain(rows, state)
    ensures forall n :: n in state ==> Latest(rows, n).Some?
  {
  }
}
