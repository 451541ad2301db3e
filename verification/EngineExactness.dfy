/** Where the engine's guarantees stop: the gate holds for exactly the safe
    routings, and what happens outside the stated conditions. */
module EngineExactness {
  import opened Options
  import opened Lifecycle
  import opened WorkflowDefinitions
  import opened StepRows
  import opened EngineSpec
  import opened EngineInvariants
  import EngineSafety

  /** An environment in which nothing fails and every output, verdicts included, is `r`. */
  ghost predicate Smooth(w: World, r: Output) {
    && (forall k :: w.boundary(k) == Continue)
    && (forall k, n :: w.outcome(k, n) == Returns(r))
    && (forall k :: w.commits(k) == 2)
    && (forall k :: w.closes(k))
    && w.recovery == Recovers(true)
  }

  /** No stored verdict accepts. */
  ghost predicate Rejecting(rows: seq<Row>) {
    forall i :: 0 <= i < |rows| && Won(rows[i]) ==> !rows[i].output.accept
  }

  ghost predicate GrewTo(before: seq<Row>, after: seq<Row>) {
    && (Rejecting(before) ==> Rejecting(after))
    && (forall n :: HasRow(before, n) ==> HasRow(after, n))
  }

  lemma PerformGrows(d: Definition, rows: seq<Row>, state: map<NodeId, Output>, n: NodeId, attempt: nat, r: Output)
    requires !r.accept
    ensures var after := Perform(d, rows, state, n, attempt, Returns(r));
            GrewTo(rows, after) && HasRow(after, n)
  {
    hide Known, NodeOf;
    var i := RowIndex(d, rows, n);
    var row := WrittenRow(d, rows, state, n, attempt, Returns(r)).value;
    var after := Put(rows, i, row);
    assert after[i].node == n;
    assert i < |rows| ==> rows[i].node == n;
    forall m | HasRow(rows, m) ensures HasRow(after, m) {
      var j :| 0 <= j < |rows| && rows[j].node == m;
      assert after[j].node == m;
    }
  }

  lemma {:induction false} FanGrows(d: Definition, rows: seq<Row>, state: map<NodeId, Output>,
                                    attempts: map<NodeId, nat>, nodes: seq<NodeId>, w: World, k: nat, r: Output)
    requires Smooth(w, r) && !r.accept
    ensures var fan := Fan(d, rows, state, attempts, nodes, w, k);
            && fan.stop.None? && GrewTo(rows, fan.rows)
            && (forall n :: n in fan.results ==> n in nodes)
            && (forall n :: n in nodes ==> HasRow(fan.rows, n))
    decreases |nodes|
  {
    hide Perform;
    if nodes != [] {
      assert nodes == [nodes[0]] + nodes[1..];
      var n := nodes[0];
      PerformGrows(d, rows, state, n, AttemptsOf(attempts, n) + 1, r);
      FanGrows(d, Perform(d, rows, state, n, AttemptsOf(attempts, n) + 1, Returns(r)), state, attempts, nodes[1..], w,
          k, r);
    }
  }

  lemma FanOutGrows(d: Definition, db: Db, mem: Memory, nodes: seq<NodeId>, w: World, k: nat, r: Output)
    requires Smooth(w, r) && !r.accept
    ensures var m := FanOut(d, db, mem, nodes, w, k);
            && m.Go? && GrewTo(db.rows, m.db.rows) && m.db.status == db.status
            && m.mem.rework == mem.rework && m.mem.history == mem.history && m.mem.current == mem.current
            && (forall n :: n in m.mem.state ==> n in mem.state || n in nodes)
            && (forall n :: n in nodes ==> HasRow(m.db.rows, n))
  {
    hide Fan;
    FanGrows(d, db.rows, mem.state, mem.attempts, nodes, w, k, r);
  }

  lemma VisitGrows(d: Definition, db: Db, mem: Memory, n: NodeId, w: World, k: nat, r: Output)
    requires Smooth(w, r) && !r.accept
    ensures var m := Visit(d, db, mem, n, w, k);
            && m.Go? && GrewTo(db.rows, m.db.rows) && m.db.status == db.status
            && m.mem.rework == mem.rework && m.mem.history == mem.history && m.mem.current == mem.current
            && m.mem.state.Keys == mem.state.Keys + {n}
            && (n !in mem.state ==> HasRow(m.db.rows, n) && m.mem.state[n] == r)
  {
    hide Perform;
    if n !in mem.state {
      PerformGrows(d, db.rows, mem.state, n, AttemptsOf(mem.attempts, n) + 1, r);
    }
  }

  lemma ForwardGrows(d: Definition, db: Db, mem: Memory, n: NodeId, c: Option<string>, w: World, k: nat, r: Output)
    requires Smooth(w, r) && !r.accept
    ensures GrewTo(db.rows, Forward(d, db, mem, n, c, w, k).db.rows)
  {
    hide FanOut;
    var next := Successors(d, n, c);
    if |next| > 1 {
      FanOutGrows(d, db, mem, Pending(mem.state, next), w, k, r);
    }
  }

  lemma RejectionGrows(d: Definition, q: NodeId, db: Db, mem: Memory, verdict: Output, w: World, k: nat, r: Output)
    requires Smooth(w, r) && !r.accept
    ensures GrewTo(db.rows, HandleRejection(d, q, db, mem, verdict, w, k).db.rows)
  {
    hide FanOut, ReworkTargets, CommonJoin;
    var defects := NormaliseDefects(verdict.defects);
    var targets := ReworkTargets(d, q, defects);
    FanOutGrows(d, db.(status := Running), Popped(q, mem, targets, SignatureOf(defects)), targets, w, k, r);
  }

  lemma RoundGrows(d: Definition, q: NodeId, db: Db, mem: Memory, w: World, k: nat, r: Output)
    requires mem.current.Some? && Smooth(w, r) && !r.accept
    ensures GrewTo(db.rows, Round(d, q, db, mem, w, k).db.rows)
  {
    hide Visit, Forward, HandleRejection;
    var n := mem.current.value;
    VisitGrows(d, db, mem, n, w, k, r);
    var v := Visit(d, db, mem, n, w, k);
    if n == q && !v.mem.state[n].accept {
      RejectionGrows(d, q, v.db, v.mem, v.mem.state[q], w, k, r);
    } else {
      ForwardGrows(d, v.db, v.mem, n, if n == q then ACCEPT else None, w, k, r);
    }
  }

  lemma {:induction false} LoopGrows(d: Definition, q: NodeId, depth: NodeId -> nat, db: Db, mem: Memory, w: World,
                                     k: nat, r: Output)
    requires WellFormed(d, q, depth) && Smooth(w, r) && !r.accept
    ensures GrewTo(db.rows, Loop(d, q, depth, db, mem, w, k).rows)
    decreases RoundsLeft(d, mem), Position(depth, mem)
  {
    hide Round, WellFormed;
    if mem.current.Some? {
      RoundGrows(d, q, db, mem, w, k, r);
      RoundProgress(d, q, depth, db, mem, w, k);
      var m := Round(d, q, db, mem, w, k);
      if m.Go? {
        LoopGrows(d, q, depth, m.db, m.mem, w, k + 1, r);
      }
    }
  }

  /** One undisturbed hop from a node that is not the quality node. */
  lemma SmoothHop(d: Definition, q: NodeId, depth: NodeId -> nat, db: Db, mem: Memory, c: NodeId, w: World, k: nat,
                  r: Output)
    requires WellFormed(d, q, depth) && QualityAlone(d, q) && Smooth(w, r) && !r.accept
    requires mem.current == Some(c) && c != q && q !in mem.state && !NextHop(d, c).Broken?
    ensures var m := Round(d, q, db, mem, w, k);
            && m.Go? && GrewTo(db.rows, m.db.rows) && m.db.status == db.status && q !in m.mem.state
            && m.mem.rework == mem.rework && m.mem.history == mem.history
            && m.mem.current == (if NextHop(d, c).To? then Some(NextHop(d, c).node) else None)
  {
    hide Visit, FanOut, CommonJoin, Successors, Pending;
    VisitGrows(d, db, mem, c, w, k, r);
    var v := Visit(d, db, mem, c, w, k);
    var next := Successors(d, c, None);
    if |next| > 1 {
      EngineSafety.QualityNotAmong(d, q, depth, c, None);
      PendingAmong(v.mem.state, next);
      FanOutGrows(d, v.db, v.mem, Pending(v.mem.state, next), w, k, r);
    }
  }

  lemma PendingAmong(state: map<NodeId, Output>, nodes: seq<NodeId>)
    ensures forall n :: n in Pending(state, nodes) ==> n in nodes
  {
  }

  /** Undisturbed, the walk from a node that hits the quality node arrives there. */
  lemma {:induction false} DriveToQuality(d: Definition, q: NodeId, depth: NodeId -> nat, db: Db, mem: Memory,
                                          c: NodeId, w: World, k: nat, r: Output)
    returns (db': Db, mem': Memory, k': nat)
    requires WellFormed(d, q, depth) && QualityAlone(d, q) && Smooth(w, r) && !r.accept
    requires mem.current == Some(c) && q !in mem.state && Hits(d, q, depth, c)
    ensures Loop(d, q, depth, db, mem, w, k) == Loop(d, q, depth, db', mem', w, k')
    ensures mem'.current == Some(q) && q !in mem'.state && mem'.rework == mem.rework && mem'.history == mem.history
    ensures GrewTo(db.rows, db'.rows) && db'.status == db.status
    decreases depth(c)
  {
    if c == q {
      db', mem', k' := db, mem, k;
    } else {
      hide Round, WellFormed;
      NextHopLower(d, q, depth, c);
      SmoothHop(d, q, depth, db, mem, c, w, k, r);
      var m := Round(d, q, db, mem, w, k);
      db', mem', k' := DriveToQuality(d, q, depth, m.db, m.mem, NextHop(d, c).node, w, k + 1, r);
    }
  }

  /** Undisturbed, a walk that escapes ends in a succeeded root. */
  lemma {:induction false} DriveToEnd(d: Definition, q: NodeId, depth: NodeId -> nat, db: Db, mem: Memory, c: NodeId,
                                      w: World, k: nat, r: Output)
    requires WellFormed(d, q, depth) && QualityAlone(d, q) && Smooth(w, r) && !r.accept
    requires mem.current == Some(c) && q !in mem.state && Escapes(d, q, depth, c)
    ensures Loop(d, q, depth, db, mem, w, k).status == Succeeded
    decreases depth(c)
  {
    hide Round, WellFormed;
    NextHopLower(d, q, depth, c);
    SmoothHop(d, q, depth, db, mem, c, w, k, r);
    var m := Round(d, q, db, mem, w, k);
    if NextHop(d, c).To? {
      DriveToEnd(d, q, depth, m.db, m.mem, NextHop(d, c).node, w, k + 1, r);
    }
  }

  /** The gate property of one state of the root. */
  ghost predicate GateAt(d: Definition, q: NodeId, db: Db, n: NodeId) {
    && (Gated(d, q, n) && HasRow(db.rows, n) ==> Accepted(db.rows, q))
    && (db.status == Succeeded ==> Accepted(db.rows, q))
  }

  /** The first rejection, in an undisturbed claim of a new root. */
  lemma FirstRejection(d: Definition, q: NodeId, db: Db, mem: Memory, defects: seq<Defect>, w: World, k: nat, r: Output)
    requires Smooth(w, r) && r == Output(0, false, defects) && Reworkable(defects)
    requires mem.current == Some(q) && q !in mem.state && mem.rework < d.maxRework && mem.history == []
    requires ReworkTargets(d, q, defects) != []
    ensures var m := Round(d, q, db, mem, w, k);
            var targets := ReworkTargets(d, q, defects);
            && GrewTo(db.rows, m.db.rows) && HasRow(m.db.rows, q)
            && (|targets| == 1 ==>
                m.Go? && m.mem.current == Some(targets[0]) && q !in m.mem.state && targets[0] !in m.mem.state)
            && (|targets| != 1 ==> forall t :: t in targets ==> HasRow(m.db.rows, t))
  {
    hide Visit, FanOut, ReworkTargets, CommonJoin, SignatureOf;
    VisitGrows(d, db, mem, q, w, k, r);
    var v := Visit(d, db, mem, q, w, k);
    var targets := ReworkTargets(d, q, defects);
    var popped := Popped(q, v.mem, targets, SignatureOf(defects));
    FanOutGrows(d, v.db.(status := Running), popped, targets, w, k, r);
  }

  lemma FirstClaim(d: Definition, q: NodeId, depth: NodeId -> nat, w: World)
    requires WellFormed(d, q, depth) && |InitialNodes(d)| == 1 && w.recovery == Recovers(true)
    ensures Claimed(d, q, depth, NewRoot, w)
      == Loop(d, q, depth, Db([], Running), FreshMemory([], InitialNodes(d)[0]), w, 0)
    ensures FreshMemory([], InitialNodes(d)[0]) == Memory(map[], map[], 0, [], Some(InitialNodes(d)[0]))
  {
    hide WellFormed, Loop, InitialNodes;
    assert RecoveredState([]) == map[];
    assert RecoveredAttempts([]) == map[];
  }

  /** An unsafe route has a run that breaks the gate. */
  lemma {:induction false} UnsafeRouteBreaks(d: Definition, q: NodeId, depth: NodeId -> nat, defects: seq<Defect>,
                                             w: World, t: NodeId)
    requires WellFormed(d, q, depth) && QualityAlone(d, q) && |InitialNodes(d)| == 1 && InitialHits(d, q, depth)
    requires d.maxRework > 0 && Reworkable(defects) && Smooth(w, Output(0, false, defects))
    requires var targets := ReworkTargets(d, q, defects);
             t in targets && (Gated(d, q, t) || (|targets| == 1 && Escapes(d, q, depth, t)))
    ensures !GateAt(d, q, Claimed(d, q, depth, NewRoot, w), t)
  {
    hide Round, WellFormed, Gated, ReworkTargets, QualityAlone, Claimed, InitialNodes, FreshMemory, Hits, Escapes;
    hide Reworkable, Loop;
    FirstClaim(d, q, depth, w);
    var r := Output(0, false, defects);
    var targets := ReworkTargets(d, q, defects);
    var start := InitialNodes(d)[0];
    var mem := FreshMemory([], start);
    var db, mem', k := DriveToQuality(d, q, depth, Db([], Running), mem, start, w, 0, r);
    FirstRejection(d, q, db, mem', defects, w, k, r);
    LoopUnfolds(d, q, depth, db, mem', w, k);
    var m := Round(d, q, db, mem', w, k);
    var end := Loop(d, q, depth, db, mem', w, k);
    LoopGrows(d, q, depth, db, mem', w, k, r);
    assert Rejecting(end.rows);
    if m.Go? {
      LoopGrows(d, q, depth, m.db, m.mem, w, k + 1, r);
      if |targets| == 1 {
        AfterSingle(d, q, depth, m.db, m.mem, t, w, k + 1, r);
      }
    }
  }

  lemma LoopUnfolds(d: Definition, q: NodeId, depth: NodeId -> nat, db: Db, mem: Memory, w: World, k: nat)
    requires WellFormed(d, q, depth) && mem.current.Some?
    ensures var m := Round(d, q, db, mem, w, k);
            Loop(d, q, depth, db, mem, w, k) == if m.Go? then Loop(d, q, depth, m.db, m.mem, w, k + 1) else m.db
  {
    hide WellFormed, Round;
    RoundProgress(d, q, depth, db, mem, w, k);
  }

  /** Sent back alone, the target runs, and if it escapes the root succeeds. */
  lemma AfterSingle(d: Definition, q: NodeId, depth: NodeId -> nat, db: Db, mem: Memory, t: NodeId, w: World, k: nat,
                    r: Output)
    requires WellFormed(d, q, depth) && QualityAlone(d, q) && Smooth(w, r) && !r.accept
    requires mem.current == Some(t) && t !in mem.state && q !in mem.state
    ensures HasRow(Loop(d, q, depth, db, mem, w, k).rows, t)
    ensures Escapes(d, q, depth, t) ==> Loop(d, q, depth, db, mem, w, k).status == Succeeded
  {
    hide WellFormed, Visit, Forward, HandleRejection;
    if Escapes(d, q, depth, t) {
      DriveToEnd(d, q, depth, db, mem, t, w, k, r);
    }
    VisitGrows(d, db, mem, t, w, k, r);
    var v := Visit(d, db, mem, t, w, k);
    if t == q {
      RejectionGrows(d, q, v.db, v.mem, v.mem.state[q], w, k, r);
    } else {
      ForwardGrows(d, v.db, v.mem, t, None, w, k, r);
    }
    RoundProgress(d, q, depth, db, mem, w, k);
    var m := Round(d, q, db, mem, w, k);
    if m.Go? {
      LoopGrows(d, q, depth, m.db, m.mem, w, k + 1, r);
    }
  }

  ghost function SmoothWorld(r: Output): World {
    World(Recovers(true), (k: nat) => Continue, (k: nat, n: NodeId) => Returns(r), (k: nat) => 2, (k: nat) => true)
  }

  /** What the gate claims of every run of a root. */
  ghost predicate GateHolds(d: Definition, q: NodeId, depth: NodeId -> nat)
    requires WellFormed(d, q, depth)
  {
    forall episodes, n :: GateAt(d, q, After(d, q, depth, NewRoot, episodes), n)
  }

  lemma SafeHolds(d: Definition, q: NodeId, depth: NodeId -> nat)
    requires WellFormed(d, q, depth) && QualityAlone(d, q) && SafeRoutes(d, q, depth) && InitialHits(d, q, depth)
    ensures GateHolds(d, q, depth)
  {
    hide WellFormed, QualityAlone, SafeRoutes, Gated, Accepted, HasRow, After, InitialHits;
    forall episodes, n ensures GateAt(d, q, After(d, q, depth, NewRoot, episodes), n) {
      EngineSafety.QualityGate(d, q, depth, episodes, n);
    }
  }

  lemma AfterOne(d: Definition, q: NodeId, depth: NodeId -> nat, w: World)
    requires WellFormed(d, q, depth)
    ensures After(d, q, depth, NewRoot, [ByEngine(w)]) == Claimed(d, q, depth, NewRoot, w)
  {
    hide WellFormed, Claimed;
    var episodes := [ByEngine(w)];
    assert episodes[..0] == [];
  }

  lemma UnsafeTarget(d: Definition, q: NodeId, depth: NodeId -> nat, targets: seq<NodeId>) returns (t: NodeId)
    requires WellFormed(d, q, depth) && !SafeRoute(d, q, depth, targets)
    ensures t in targets && (Gated(d, q, t) || (|targets| == 1 && Escapes(d, q, depth, t)))
  {
    hide WellFormed, Gated, Escapes;
    if u :| u in targets && Gated(d, q, u) {
      t := u;
    } else {
      t := targets[0];
    }
  }

  lemma UnsafeFails(d: Definition, q: NodeId, depth: NodeId -> nat)
    requires WellFormed(d, q, depth) && QualityAlone(d, q) && |InitialNodes(d)| == 1 && InitialHits(d, q, depth)
    requires d.maxRework > 0 && !SafeRoutes(d, q, depth)
    ensures !GateHolds(d, q, depth)
  {
    hide WellFormed, QualityAlone, InitialHits, InitialNodes, SafeRoute, ReworkTargets, GateAt, After, Claimed;
    hide Reworkable, Gated, Escapes;
    var defects :| Reworkable(defects) && !SafeRoute(d, q, depth, ReworkTargets(d, q, defects));
    var t := UnsafeTarget(d, q, depth, ReworkTargets(d, q, defects));
    var w := SmoothWorld(Output(0, false, defects));
    UnsafeRouteBreaks(d, q, depth, defects, w, t);
    AfterOne(d, q, depth, w);
    assert !GateAt(d, q, After(d, q, depth, NewRoot, [ByEngine(w)]), t);
  }

  /** Main result: for a root whose walk meets the quality node and that allows
      rework, the gate holds over all runs if and only if every route is safe. */
  lemma {:induction false} GateExactly(d: Definition, q: NodeId, depth: NodeId -> nat)
    requires WellFormed(d, q, depth) && QualityAlone(d, q) && |InitialNodes(d)| == 1 && InitialHits(d, q, depth)
    requires d.maxRework > 0
    ensures GateHolds(d, q, depth) <==> SafeRoutes(d, q, depth)
  {
    if SafeRoutes(d, q, depth) {
      SafeHolds(d, q, depth);
    } else {
      UnsafeFails(d, q, depth);
    }
  }

  // ------------------------------------------------ why forward edges must have no cycle

  /** The loop's position after `n` rounds, or where it halted. */
  function Rounds(d: Definition, q: NodeId, db: Db, mem: Memory, w: World, n: nat): Move {
    if n == 0 then Go(db, mem)
    else
      match Rounds(d, q, db, mem, w, n - 1)
      case Halt(stopped) => Halt(stopped)
      case Go(db', mem') => if mem'.current.None? then Halt(db') else Round(d, q, db', mem', w, n - 1)
  }

  /** Every walk inside `ring` stays inside it and away from the quality node. */
  ghost predicate Trapped(d: Definition, q: NodeId, ring: set<NodeId>) {
    forall c :: c in ring ==> c != q && NextHop(d, c).To? && NextHop(d, c).node in ring
  }

  lemma TrappedMeans(d: Definition, q: NodeId, ring: set<NodeId>, c: NodeId)
    requires Trapped(d, q, ring) && c in ring
    ensures c != q && NextHop(d, c).To? && NextHop(d, c).node in ring
  {
  }

  lemma RingHop(d: Definition, q: NodeId, db: Db, mem: Memory, c: NodeId, w: World, k: nat, r: Output)
    requires Smooth(w, r) && !r.accept && mem.current == Some(c) && c != q && NextHop(d, c).To?
    ensures var m := Round(d, q, db, mem, w, k);
            m.Go? && m.mem.current == Some(NextHop(d, c).node)
  {
    hide Visit, FanOut, CommonJoin, Successors, Pending;
    VisitGrows(d, db, mem, c, w, k, r);
    var v := Visit(d, db, mem, c, w, k);
    var next := Successors(d, c, None);
    if |next| > 1 {
      FanOutGrows(d, v.db, v.mem, Pending(v.mem.state, next), w, k, r);
    }
  }

  /** A trapped walk is still running after any number of rounds, though nothing fails. */
  lemma {:induction false} TrappedNeverEnds(d: Definition, q: NodeId, ring: set<NodeId>, db: Db, mem: Memory,
                                            w: World, n: nat, r: Output)
    requires Trapped(d, q, ring) && Smooth(w, r) && !r.accept && mem.current.Some? && mem.current.value in ring
    ensures var m := Rounds(d, q, db, mem, w, n);
            m.Go? && m.mem.current.Some? && m.mem.current.value in ring
  {
    hide Round, NextHop, Smooth, Trapped;
    if n > 0 {
      hide Rounds;
      TrappedNeverEnds(d, q, ring, db, mem, w, n - 1, r);
      var m := Rounds(d, q, db, mem, w, n - 1);
      var c := m.mem.current.value;
      TrappedMeans(d, q, ring, c);
      RingHop(d, q, m.db, m.mem, c, w, n - 1, r);
      NextRound(d, q, db, mem, w, n);
    }
  }

  lemma NextRound(d: Definition, q: NodeId, db: Db, mem: Memory, w: World, n: nat)
    requires n > 0 && Rounds(d, q, db, mem, w, n - 1).Go? && Rounds(d, q, db, mem, w, n - 1).mem.current.Some?
    ensures var m := Rounds(d, q, db, mem, w, n - 1);
            Rounds(d, q, db, mem, w, n) == Round(d, q, m.db, m.mem, w, n - 1)
  {
    hide Round;
  }

  /** Three nodes, the last leading back to the second. */
  const Ring: Definition := Definition(
    [Node("a", Action("A"), false, None), Node("b", Action("B"), false, None), Node("c", Action("C"), false, None)],
    [Edge("a", "b", None), Edge("b", "c", None), Edge("c", "b", None)], 0, map[])

  lemma RingRoutes()
    ensures Successors(Ring, "a", None) == ["b"] && Successors(Ring, "b", None) == ["c"]
    ensures Successors(Ring, "c", None) == ["b"]
  {
    var e := Ring.edges;
    assert e[1..] == [Edge("b", "c", None), Edge("c", "b", None)];
    assert e[1..][1..] == [Edge("c", "b", None)];
    assert e[1..][1..][1..] == [];
  }

  lemma RingValidated()
    ensures Validated(Ring)
  {
    var known := Ring.nodes;
    assert known[0].id == "a" && known[1].id == "b" && known[2].id == "c";
  }

  lemma RingTraps()
    ensures Trapped(Ring, "q", {"a", "b", "c"})
  {
    RingRoutes();
  }

  /** Validation accepts a definition on which the engine walks forever. */
  lemma {:induction false} CycleAccepted(n: nat)
    ensures Validated(Ring) && InitialNodes(Ring) == ["a"]
    ensures Rounds(Ring, "q", Db([], Running), FreshMemory([], "a"), SmoothWorld(Output(0, false, [])), n).Go?
  {
    hide Validated, Trapped, InitialNodes, Rounds;
    RingValidated();
    RingInitial();
    RingTraps();
    TrappedNeverEnds(Ring, "q", {"a", "b", "c"}, Db([], Running), FreshMemory([], "a"),
        SmoothWorld(Output(0, false, [])), n, Output(0, false, []));
  }

  lemma RingInitial()
    ensures InitialNodes(Ring) == ["a"]
  {
    var e, n := Ring.edges, Ring.nodes;
    assert e[0].target == "b" && e[1].target == "c";
    assert n[1..] == [Node("b", Action("B"), false, None), Node("c", Action("C"), false, None)];
    assert n[1..][1..] == [Node("c", Action("C"), false, None)];
    assert InitialIn([], e) == [];
    assert IsTarget(e, "b") && IsTarget(e, "c") && !IsTarget(e, "a");
    assert InitialIn(n[1..][1..], e) == [];
    assert InitialIn(n[1..], e) == [];
  }
}
