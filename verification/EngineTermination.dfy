/** Exactly when the execution loop ends: what must not be cyclic is the walk the
    engine takes, from the initial node and from whatever a verdict sends it to. */
module EngineTermination {
  import opened Options
  import opened Lifecycle
  import opened WorkflowDefinitions
  import opened StepRows
  import opened EngineSpec
  import EngineExactness

  /** Where the engine goes from a node whose verdict, if it is one, accepts. */
  function HopFrom(d: Definition, q: NodeId, n: NodeId): Hop {
    var s := Successors(d, n, if n == q then ACCEPT else None);
    if |s| == 0 then End
    else if |s| == 1 then To(s[0])
    else match CommonJoin(d, s) case Some(j) => To(j) case None => Broken
  }

  /** Where the walk from `n` stands after `k` hops. */
  function Walked(d: Definition, q: NodeId, n: NodeId, k: nat): Hop {
    if k == 0 then To(n)
    else match Walked(d, q, n, k - 1) case To(m) => HopFrom(d, q, m) case End => End case Broken => Broken
  }

  /** The walk from `n` comes to an end. */
  ghost predicate Ends(d: Definition, q: NodeId, n: NodeId) {
    exists k: nat :: !Walked(d, q, n, k).To?
  }

  /** The walk from `n` comes to the quality node. */
  ghost predicate Meets(d: Definition, q: NodeId, n: NodeId) {
    exists k: nat :: Walked(d, q, n, k) == To(q)
  }

  /** Some verdict sends the root back to `t` alone. */
  ghost predicate SentTo(d: Definition, q: NodeId, t: NodeId) {
    exists defects :: Reworkable(defects) && ReworkTargets(d, q, defects) == [t]
  }

  /** The walk from the initial node ends, and so does the walk from every node
      that a verdict met on it may send the root back to. */
  ghost predicate Terminating(d: Definition, q: NodeId, start: NodeId) {
    Ends(d, q, start) && (Meets(d, q, start) && d.maxRework > 0 ==> forall t :: SentTo(d, q, t) ==> Ends(d, q, t))
  }

  predicate Stopped(m: Move) {
    m.Halt? || m.mem.current.None?
  }

  /** From `mem` on, the loop stops after some number of rounds. */
  ghost predicate Stops(d: Definition, q: NodeId, db: Db, mem: Memory, w: World) {
    exists n: nat :: Stopped(EngineExactness.Rounds(d, q, db, mem, w, n))
  }

  // ------------------------------------------------ one round along the walk

  lemma {:induction false} WalkedLater(d: Definition, q: NodeId, n: NodeId, k: nat)
    requires HopFrom(d, q, n).To?
    ensures Walked(d, q, n, k + 1) == Walked(d, q, HopFrom(d, q, n).node, k)
  {
    hide HopFrom;
    if k > 0 {
      WalkedLater(d, q, n, k - 1);
    } else {
      assert Walked(d, q, n, 0) == To(n);
    }
  }

  lemma EndsOnward(d: Definition, q: NodeId, n: NodeId)
    requires HopFrom(d, q, n).To?
    ensures Ends(d, q, HopFrom(d, q, n).node) <==> Ends(d, q, n)
    ensures Meets(d, q, HopFrom(d, q, n).node) ==> Meets(d, q, n)
  {
    hide HopFrom, Walked;
    var next := HopFrom(d, q, n).node;
    if Ends(d, q, next) {
      var k: nat :| !Walked(d, q, next, k).To?;
      WalkedLater(d, q, n, k);
    }
    if Ends(d, q, n) {
      var k: nat :| !Walked(d, q, n, k).To?;
      WalkedFirst(d, q, n);
      WalkedLater(d, q, n, k - 1);
    }
    if Meets(d, q, next) {
      var k: nat :| Walked(d, q, next, k) == To(q);
      WalkedLater(d, q, n, k);
    }
  }

  lemma WalkedFirst(d: Definition, q: NodeId, n: NodeId)
    ensures Walked(d, q, n, 0) == To(n) && Walked(d, q, n, 1) == HopFrom(d, q, n)
  {
    assert Walked(d, q, n, 0) == To(n);
  }

  /** A round that goes on hops along the walk, or is a rework. */
  ghost predicate Hopped(d: Definition, q: NodeId, mem: Memory, c: NodeId, m: Move) {
    m.Go? ==>
      || (m.mem.rework == mem.rework
          && match HopFrom(d, q, c) case End => m.mem.current == None case To(n) => m.mem.current == Some(n)
            case Broken => false)
      || (c == q && mem.rework < d.maxRework && m.mem.rework == mem.rework + 1 && m.mem.current.Some?
          && (m.mem.current == Some(q) || SentTo(d, q, m.mem.current.value)))
  }

  lemma ForwardHops(d: Definition, q: NodeId, db: Db, mem: Memory, n: NodeId, w: World, k: nat)
    ensures Hopped(d, q, mem, n, Forward(d, db, mem, n, if n == q then ACCEPT else None, w, k))
  {
    hide Fan, Pending, Bump, CommonJoin, Successors;
    var next := Successors(d, n, if n == q then ACCEPT else None);
    if |next| > 1 {
      FanOutKeepsCounters(d, db, mem, Pending(mem.state, next), w, k);
    }
  }

  lemma RejectionHops(d: Definition, q: NodeId, db: Db, mem: Memory, verdict: Output, w: World, k: nat)
    ensures Hopped(d, q, mem, q, HandleRejection(d, q, db, mem, verdict, w, k))
  {
    hide FanOut, ReworkTargets, NormaliseDefects, SignatureOf, CommonJoin, HopFrom;
    var defects := NormaliseDefects(verdict.defects);
    var targets := ReworkTargets(d, q, defects);
    var popped := Popped(q, mem, targets, SignatureOf(defects));
    FanOutKeepsCounters(d, db.(status := Running), popped, targets, w, k);
    if Reworkable(defects) && |targets| == 1 {
      assert targets == [targets[0]];
      assert SentTo(d, q, targets[0]);
    }
  }

  lemma RoundHops(d: Definition, q: NodeId, db: Db, mem: Memory, c: NodeId, w: World, k: nat)
    requires mem.current == Some(c)
    ensures Hopped(d, q, mem, c, Round(d, q, db, mem, w, k))
  {
    hide Visit, Forward, HandleRejection, HopFrom, SentTo;
    if w.boundary(k).Continue? {
      VisitKeepsCounters(d, db, mem, c, w, k);
      var v := Visit(d, db, mem, c, w, k);
      if v.Go? {
        if c == q && !v.mem.state[c].accept {
          RejectionHops(d, q, v.db, v.mem, v.mem.state[c], w, k);
        } else {
          ForwardHops(d, q, v.db, v.mem, c, w, k);
        }
      }
    }
  }

  // ------------------------------------------------ terminating walks stop

  lemma {:induction false} StopsFrom(d: Definition, q: NodeId, start: NodeId, db0: Db, mem0: Memory, w: World, i: nat,
                                     steps: nat)
    requires Terminating(d, q, start)
    requires var m := EngineExactness.Rounds(d, q, db0, mem0, w, i);
             && m.Go? && m.mem.current.Some? && !Walked(d, q, m.mem.current.value, steps).To?
             && (Meets(d, q, m.mem.current.value) ==> Meets(d, q, start))
    ensures Stops(d, q, db0, mem0, w)
    decreases RoundsLeft(d, EngineExactness.Rounds(d, q, db0, mem0, w, i).mem), steps
  {
    hide EngineExactness.Rounds, Round, HopFrom, Walked, SentTo;
    var m := EngineExactness.Rounds(d, q, db0, mem0, w, i);
    var c := m.mem.current.value;
    EngineExactness.NextRound(d, q, db0, mem0, w, i + 1);
    RoundHops(d, q, m.db, m.mem, c, w, i);
    var next := EngineExactness.Rounds(d, q, db0, mem0, w, i + 1);
    WalkedFirst(d, q, c);
    if !Stopped(next) {
      var n := next.mem.current.value;
      if next.mem.rework == m.mem.rework {
        WalkedLater(d, q, c, steps - 1);
        EndsOnward(d, q, c);
        StopsFrom(d, q, start, db0, mem0, w, i + 1, steps - 1);
      } else {
        AtQuality(d, q);
        assert Ends(d, q, c) && Meets(d, q, c);
        assert Ends(d, q, n);
        var more: nat :| !Walked(d, q, n, more).To?;
        StopsFrom(d, q, start, db0, mem0, w, i + 1, more);
      }
    }
  }

  lemma AtQuality(d: Definition, q: NodeId)
    ensures Meets(d, q, q)
  {
    assert Walked(d, q, q, 0) == To(q);
  }

  /** A terminating definition stops from any memory at the initial node, in any environment. */
  lemma {:induction false} TerminatingStops(d: Definition, q: NodeId, start: NodeId, db: Db, mem: Memory, w: World)
    requires Terminating(d, q, start) && mem.current == Some(start)
    ensures Stops(d, q, db, mem, w)
  {
    hide Walked;
    var k: nat :| !Walked(d, q, start, k).To?;
    assert EngineExactness.Rounds(d, q, db, mem, w, 0) == Go(db, mem);
    StopsFrom(d, q, start, db, mem, w, 0, k);
  }

  // ------------------------------------------------ other walks need not stop

  /** Nothing fails; verdicts made before time `from` or at it reject with
      `defects`, later ones accept. */
  ghost function PatientWorld(defects: seq<Defect>, from: int): World {
    World(Recovers(true), (k: nat) => Continue, (i: nat, n: NodeId) => Returns(Output(0, i > from, defects)),
        (k: nat) => 2, (k: nat) => true)
  }

  /** Every output in the memory accepts, or every one rejects with `defects`. */
  ghost predicate AllAnswer(state: map<NodeId, Output>, q: NodeId, accept: bool, defects: seq<Defect>) {
    q in state ==> state[q] == Output(0, accept, defects)
  }

  lemma {:induction false} PatientFan(d: Definition, rows: seq<Row>, state: map<NodeId, Output>,
                                      attempts: map<NodeId, nat>, nodes: seq<NodeId>,
                                      defects: seq<Defect>, from: int, k: nat)
    ensures var fan := Fan(d, rows, state, attempts, nodes, PatientWorld(defects, from), k);
            fan.stop.None? && forall n :: n in fan.results ==> fan.results[n] == Output(0, 2 * k + 1 > from, defects)
    decreases |nodes|
  {
    hide Perform;
    if nodes != [] {
      var n := nodes[0];
      var o := PatientWorld(defects, from).outcome(2 * k + 1, n);
      PatientFan(d, Perform(d, rows, state, n, AttemptsOf(attempts, n) + 1, o), state, attempts, nodes[1..], defects,
          from, k);
    }
  }

  lemma PatientFanOut(d: Definition, q: NodeId, db: Db, mem: Memory, nodes: seq<NodeId>, defects: seq<Defect>,
                      from: int, k: nat, accept: bool)
    requires AllAnswer(mem.state, q, accept, defects) && accept == (2 * k + 1 > from)
    ensures var m := FanOut(d, db, mem, nodes, PatientWorld(defects, from), k);
            && m.Go? && AllAnswer(m.mem.state, q, accept, defects)
            && m.mem.rework == mem.rework && m.mem.history == mem.history && m.mem.current == mem.current
  {
    hide Fan;
    PatientFan(d, db.rows, mem.state, mem.attempts, nodes, defects, from, k);
  }

  lemma PatientVisit(d: Definition, q: NodeId, db: Db, mem: Memory, n: NodeId, defects: seq<Defect>, from: int,
                     k: nat, accept: bool)
    requires AllAnswer(mem.state, q, accept, defects) && accept == (2 * k > from)
    ensures var m := Visit(d, db, mem, n, PatientWorld(defects, from), k);
            && m.Go? && AllAnswer(m.mem.state, q, accept, defects) && n in m.mem.state
            && m.mem.rework == mem.rework && m.mem.history == mem.history && m.mem.current == mem.current
  {
    hide Perform;
  }

  /** Where nothing fails and no verdict is acted upon, a round is one hop. */
  lemma PatientHop(d: Definition, q: NodeId, db: Db, mem: Memory, c: NodeId, defects: seq<Defect>, from: int, k: nat,
                   accept: bool)
    requires mem.current == Some(c) && HopFrom(d, q, c).To? && AllAnswer(mem.state, q, accept, defects)
    requires accept == (2 * k > from) && accept == (2 * k + 1 > from) && (c == q ==> accept)
    ensures var m := Round(d, q, db, mem, PatientWorld(defects, from), k);
            && m.Go? && AllAnswer(m.mem.state, q, accept, defects)
            && m.mem.rework == mem.rework && m.mem.history == mem.history
              && m.mem.current == Some(HopFrom(d, q, c).node)
  {
    hide Visit, FanOut, CommonJoin, Successors, Pending, AllAnswer;
    var w := PatientWorld(defects, from);
    PatientVisit(d, q, db, mem, c, defects, from, k, accept);
    var v := Visit(d, db, mem, c, w, k);
    assert c == q ==> v.mem.state[q].accept by { Answers(v.mem.state, q, accept, defects); }
    var next := Successors(d, c, if c == q then ACCEPT else None);
    if |next| > 1 {
      PatientFanOut(d, q, v.db, v.mem, Pending(v.mem.state, next), defects, from, k, accept);
    }
  }

  lemma Answers(state: map<NodeId, Output>, q: NodeId, accept: bool, defects: seq<Defect>)
    requires AllAnswer(state, q, accept, defects)
    ensures q in state ==> state[q] == Output(0, accept, defects)
  {
  }

  /** A walk that does not end is still going after any number of rounds. */
  lemma {:induction false} GoesOn(d: Definition, q: NodeId, db: Db, mem: Memory, defects: seq<Defect>, from: int,
                                  i: nat, n: nat)
    requires var m := EngineExactness.Rounds(d, q, db, mem, PatientWorld(defects, from), i);
             && m.Go? && m.mem.current.Some? && !Ends(d, q, m.mem.current.value)
               && AllAnswer(m.mem.state, q, true, defects)
    requires 2 * i > from
    ensures var m := EngineExactness.Rounds(d, q, db, mem, PatientWorld(defects, from), i + n);
            && m.Go? && m.mem.current.Some? && !Ends(d, q, m.mem.current.value)
              && AllAnswer(m.mem.state, q, true, defects)
  {
    hide EngineExactness.Rounds, Round, HopFrom, Ends, AllAnswer, PatientWorld;
    if n > 0 {
      GoesOn(d, q, db, mem, defects, from, i, n - 1);
      var w := PatientWorld(defects, from);
      var m := EngineExactness.Rounds(d, q, db, mem, w, i + n - 1);
      var c := m.mem.current.value;
      EndlessHop(d, q, c);
      EndsOnward(d, q, c);
      PatientHop(d, q, m.db, m.mem, c, defects, from, i + n - 1, true);
      EngineExactness.NextRound(d, q, db, mem, w, i + n);
    }
  }

  lemma EndlessHop(d: Definition, q: NodeId, c: NodeId)
    requires !Ends(d, q, c)
    ensures HopFrom(d, q, c).To?
  {
    hide HopFrom, Walked;
    WalkedFirst(d, q, c);
    assert Walked(d, q, c, 1).To?;
  }

  lemma {:induction false} StoppedStays(d: Definition, q: NodeId, db: Db, mem: Memory, w: World, n: nat, k: nat)
    requires Stopped(EngineExactness.Rounds(d, q, db, mem, w, n))
    ensures Stopped(EngineExactness.Rounds(d, q, db, mem, w, n + k))
  {
    hide Round;
    if k > 0 {
      StoppedStays(d, q, db, mem, w, n, k - 1);
    }
  }

  /** Still going at every later round: the loop never stops. */
  lemma NeverStops(d: Definition, q: NodeId, db: Db, mem: Memory, defects: seq<Defect>, from: int, i: nat)
    requires var m := EngineExactness.Rounds(d, q, db, mem, PatientWorld(defects, from), i);
             && m.Go? && m.mem.current.Some? && !Ends(d, q, m.mem.current.value)
               && AllAnswer(m.mem.state, q, true, defects)
    requires 2 * i > from
    ensures !Stops(d, q, db, mem, PatientWorld(defects, from))
  {
    hide EngineExactness.Rounds, Ends, AllAnswer, PatientWorld;
    var w := PatientWorld(defects, from);
    forall n: nat ensures !Stopped(EngineExactness.Rounds(d, q, db, mem, w, n)) {
      GoesOn(d, q, db, mem, defects, from, i, n);
      if Stopped(EngineExactness.Rounds(d, q, db, mem, w, n)) {
        StoppedStays(d, q, db, mem, w, n, i);
      }
    }
  }

  /** The first `k` hops of a walk that has not met the quality node yet. */
  lemma {:induction false} WalksTo(d: Definition, q: NodeId, start: NodeId, db: Db, mem: Memory, defects: seq<Defect>,
                                   from: nat, k: nat)
    requires mem.current == Some(start) && AllAnswer(mem.state, q, false, defects) && 2 * k <= from + 1
    requires Walked(d, q, start, k).To? && forall j: nat :: j < k ==> Walked(d, q, start, j) != To(q)
    ensures var m := EngineExactness.Rounds(d, q, db, mem, PatientWorld(defects, from), k);
            && m.Go? && m.mem.current == Some(Walked(d, q, start, k).node) && AllAnswer(m.mem.state, q, false, defects)
            && m.mem.rework == mem.rework && m.mem.history == mem.history
  {
    hide Round, HopFrom, AllAnswer, PatientWorld;
    if k > 0 {
      assert Walked(d, q, start, k - 1).To?;
      WalksTo(d, q, start, db, mem, defects, from, k - 1);
      var w := PatientWorld(defects, from);
      var m := EngineExactness.Rounds(d, q, db, mem, w, k - 1);
      PatientHop(d, q, m.db, m.mem, m.mem.current.value, defects, from, k - 1, false);
    }
  }

  /** The rejection at round `k`, and the target it sends the root to. */
  lemma SendsBack(d: Definition, q: NodeId, db: Db, mem: Memory, defects: seq<Defect>, t: NodeId, k: nat)
    requires mem.current == Some(q) && AllAnswer(mem.state, q, false, defects) && mem.rework < d.maxRework
    requires mem.history == []
    requires Reworkable(defects) && ReworkTargets(d, q, defects) == [t]
    ensures var m := Round(d, q, db, mem, PatientWorld(defects, 2 * k), k);
            m.Go? && m.mem.current == Some(t) && q !in m.mem.state
  {
    hide Visit, ReworkTargets, SignatureOf, FanOut, CommonJoin, AllAnswer;
    PatientVisit(d, q, db, mem, q, defects, 2 * k, k, false);
    Answers(Visit(d, db, mem, q, PatientWorld(defects, 2 * k), k).mem.state, q, false, defects);
  }

  lemma {:induction false} FirstMeeting(d: Definition, q: NodeId, start: NodeId, k: nat) returns (first: nat)
    requires Walked(d, q, start, k) == To(q)
    ensures Walked(d, q, start, first) == To(q) && forall j: nat :: j < first ==> Walked(d, q, start, j) != To(q)
  {
    hide Walked;
    if j: nat :| j < k && Walked(d, q, start, j) == To(q) {
      first := FirstMeeting(d, q, start, j);
    } else {
      first := k;
    }
  }

  /** A definition that is not terminating has an environment in which a new root runs forever. */
  lemma {:induction false} EndlessRuns(d: Definition, q: NodeId, start: NodeId) returns (w: World)
    requires !Terminating(d, q, start)
    ensures !Stops(d, q, Db([], Running), FreshMemory([], start), w)
  {
    hide Walked, HopFrom, Round, ReworkTargets, SentTo, Meets, Stops, PatientWorld;
    var db, mem := Db([], Running), FreshMemory([], start);
    assert RecoveredState([]) == map[] && mem.history == [] && mem.rework == 0;
    if !Ends(d, q, start) {
      w := PatientWorld([], -1);
      assert EngineExactness.Rounds(d, q, db, mem, w, 0) == Go(db, mem);
      NeverStops(d, q, db, mem, [], -1, 0);
    } else {
      var t :| SentTo(d, q, t) && !Ends(d, q, t);
      var defects, k := Route(d, q, start, t);
      w := PatientWorld(defects, 2 * k);
      WalksTo(d, q, start, db, mem, defects, 2 * k, k);
      var m := EngineExactness.Rounds(d, q, db, mem, w, k);
      SendsBack(d, q, m.db, m.mem, defects, t, k);
      EngineExactness.NextRound(d, q, db, mem, w, k + 1);
      NeverStops(d, q, db, mem, defects, 2 * k, k + 1);
    }
  }

  lemma Route(d: Definition, q: NodeId, start: NodeId, t: NodeId) returns (defects: seq<Defect>, k: nat)
    requires SentTo(d, q, t) && Meets(d, q, start)
    ensures Reworkable(defects) && ReworkTargets(d, q, defects) == [t]
    ensures Walked(d, q, start, k) == To(q) && forall j: nat :: j < k ==> Walked(d, q, start, j) != To(q)
  {
    hide Walked, ReworkTargets, Reworkable;
    defects :| Reworkable(defects) && ReworkTargets(d, q, defects) == [t];
    var any: nat :| Walked(d, q, start, any) == To(q);
    k := FirstMeeting(d, q, start, any);
  }

  /** Main result: the loop of a new root stops in every environment if and only
      if the walks from the initial node and from the targets of its verdicts end.
      `q` is the definition's QualityCheck node, or no node if there is none. */
  lemma {:induction false} StopsExactly(d: Definition, q: NodeId, start: NodeId)
    ensures (forall w :: Stops(d, q, Db([], Running), FreshMemory([], start), w)) <==> Terminating(d, q, start)
  {
    hide Stops, Terminating;
    if Terminating(d, q, start) {
      forall w ensures Stops(d, q, Db([], Running), FreshMemory([], start), w) {
        TerminatingStops(d, q, start, Db([], Running), FreshMemory([], start), w);
      }
    } else {
      var w := EndlessRuns(d, q, start);
    }
  }

  /** Forward edges along which a depth falls are more than enough. */
  lemma {:induction false} WellFormedEnds(d: Definition, q: NodeId, depth: NodeId -> nat, n: NodeId)
    requires WellFormed(d, q, depth)
    ensures Ends(d, q, n)
    decreases depth(n)
  {
    hide WellFormed, Successors, CommonJoin, Ends, Walked;
    WalkedFirst(d, q, n);
    var c := if n == q then ACCEPT else None;
    var s := Successors(d, n, c);
    if HopFrom(d, q, n).To? {
      SuccessorIsKnownAndLower(d, q, depth, n, c, s[0]);
      if |s| > 1 {
        SuccessorIsKnownAndLower(d, q, depth, s[0], None, HopFrom(d, q, n).node);
      }
      WellFormedEnds(d, q, depth, HopFrom(d, q, n).node);
      EndsOnward(d, q, n);
    } else {
      EndsAtOnce(d, q, n);
    }
  }

  lemma EndsAtOnce(d: Definition, q: NodeId, n: NodeId)
    requires !HopFrom(d, q, n).To?
    ensures Ends(d, q, n)
  {
    WalkedFirst(d, q, n);
  }
}
