/** The rework counter after a crash is neither too low nor too high: it is what
    the attempts say, and a root that was cut off before its first verdict still
    gets every rework it is allowed. */
module EngineRework {
  import opened Options
  import opened Walks
  import opened Lifecycle
  import opened WorkflowDefinitions
  import opened StepRows
  import opened EngineSpec
  import opened EngineInvariants
  import opened EngineStaleness
  import EngineExactness

  lemma {:induction false} TopIs(rows: seq<Row>)
    ensures forall i :: 0 <= i < |rows| ==> rows[i].attempt <= TopAttempt(rows)
    ensures TopAttempt(rows) > 0 ==> exists i :: 0 <= i < |rows| && rows[i].attempt == TopAttempt(rows)
  {
    if rows != [] {
      var front := rows[..|rows| - 1];
      TopIs(front);
      assert forall i :: 0 <= i < |front| ==> front[i] == rows[i];
      if i :| 0 <= i < |front| && front[i].attempt == TopAttempt(front) {
        assert rows[i].attempt == TopAttempt(front);
      }
    }
  }

  /** Main result: the memory a claim starts from has used no rework if every row
      is a first attempt; otherwise some row is the attempt behind the counter, and
      none is a later one. */
  lemma {:induction false} CounterFromAttempts(rows: seq<Row>, start: NodeId)
    ensures var used := FreshMemory(rows, start).rework;
            && (forall i :: 0 <= i < |rows| ==> rows[i].attempt <= used + 1)
            && ((forall i :: 0 <= i < |rows| ==> rows[i].attempt <= 1) <==> used == 0)
            && (used > 0 ==> exists i :: 0 <= i < |rows| && rows[i].attempt == used + 1)
  {
    TopIs(rows);
  }

  // ------------------------------------------------ verdicts that never repeat

  function Mark(n: nat): string {
    seq(n, _ => 'x')
  }

  /** The same kinds of defects, told apart by their text. */
  function Marked(defects: seq<Defect>, n: nat): (r: seq<Defect>)
    ensures |r| == |defects|
  {
    seq(|defects|, i requires 0 <= i < |defects| => Defect(defects[i].code, Mark(n)))
  }

  lemma MarkedSame(d: Definition, q: NodeId, defects: seq<Defect>, n: nat)
    requires Reworkable(defects)
    ensures Reworkable(Marked(defects, n)) && NormaliseDefects(Marked(defects, n)) == Marked(defects, n)
    ensures ReworkTargets(d, q, Marked(defects, n)) == ReworkTargets(d, q, defects)
  {
    var m := Marked(defects, n);
    forall i | 0 <= i < |m| ensures m[i].code == defects[i].code {
    }
    assert Codes(m) == Codes(defects) by {
      forall c ensures c in Codes(m) <==> c in Codes(defects) {
        if i :| 0 <= i < |defects| && defects[i].code == c {
          assert m[i].code == c;
        }
      }
    }
  }

  lemma MarkedApart(defects: seq<Defect>, a: nat, b: nat)
    requires defects != [] && a != b
    ensures SignatureOf(Marked(defects, a)) != SignatureOf(Marked(defects, b))
  {
    var x, y := Marked(defects, a), Marked(defects, b);
    var s := seq(|x|, i requires 0 <= i < |x| => (x[i].code, x[i].target));
    var t := seq(|y|, i requires 0 <= i < |y| => (y[i].code, y[i].target));
    assert s[0] in multiset(s) && s[0].1 == Mark(a);
    assert |Mark(a)| == a && |Mark(b)| == b;
    forall i | 0 <= i < |t| ensures t[i].1 == Mark(b) {
    }
    assert s[0] !in t;
  }

  /** Nothing fails, the process leaves after `stop` rounds, and every verdict
      rejects with defects of its own. */
  ghost function RestlessWorld(defects: seq<Defect>, stop: nat): World {
    World(Recovers(true), (i: nat) => if i == stop then Leave else Continue,
      (i: nat, n: NodeId) => Returns(Output(i, false, Marked(defects, i))), (i: nat) => 2, (i: nat) => true)
  }

  lemma RestlessCalm(defects: seq<Defect>, stop: nat)
    ensures Calm(RestlessWorld(defects, stop), stop)
  {
  }

  /** Every signature recorded so far is that of an earlier verdict. */
  ghost predicate Recorded(defects: seq<Defect>, history: seq<Signature>, time: nat) {
    forall s :: s in history ==> exists j :: 0 <= j < time && s == SignatureOf(Marked(defects, j))
  }

  lemma RecordedFresh(defects: seq<Defect>, history: seq<Signature>, time: nat)
    requires defects != [] && Recorded(defects, history, time)
    ensures SignatureOf(Marked(defects, time)) !in history
    ensures forall later :: later > time ==> Recorded(defects, history + [SignatureOf(Marked(defects, time))], later)
  {
    hide SignatureOf, Marked;
    forall j | 0 <= j < time ensures SignatureOf(Marked(defects, j)) != SignatureOf(Marked(defects, time)) {
      MarkedApart(defects, j, time);
    }
  }

  // ------------------------------------------------ counting successes

  lemma SuccessesAppend(rows: seq<Row>, r: Row, n: NodeId)
    ensures Successes(rows + [r], n) == Successes(rows, n) + if r.node == n && Won(r) then 1 else 0
  {
    assert (rows + [r])[..|rows|] == rows;
  }

  lemma {:induction false} SuccessesElsewhere(rows: seq<Row>, more: seq<Row>, n: NodeId)
    requires |rows| <= |more| && more[..|rows|] == rows
    requires forall i :: |rows| <= i < |more| ==> more[i].node != n
    ensures Successes(more, n) == Successes(rows, n)
    decreases |more|
  {
    if |more| > |rows| {
      var front := more[..|more| - 1];
      assert front[..|rows|] == more[..|rows|];
      SuccessesElsewhere(rows, front, n);
    } else {
      assert more == rows;
    }
  }

  /** The rejecting round at the quality node: one more success of it, and back to the target if a rework is left. */
  lemma RejectsAgain(d: Definition, q: NodeId, db: Db, mem: Memory, defects: seq<Defect>, t: NodeId, k: nat, stop: nat)
    requires k < stop && Plain(db.rows, mem.state) && Recorded(defects, mem.history, 2 * k)
    requires mem.current == Some(q) && q !in mem.state
    requires Reworkable(defects) && ReworkTargets(d, q, defects) == [t]
    ensures var m := Round(d, q, db, mem, RestlessWorld(defects, stop), k);
            && Successes(m.db.rows, q) == Successes(db.rows, q) + 1
            && (mem.rework >= d.maxRework ==> m.Halt? && m.db.status == Blocked)
            && (mem.rework < d.maxRework ==>
                  && m.Go? && m.mem.current == Some(t) && m.mem.rework == mem.rework + 1
                  && Plain(m.db.rows, m.mem.state) && q !in m.mem.state && m.db.status == Running
                  && Recorded(defects, m.mem.history, 2 * (k + 1)))
  {
    hide ReworkTargets, Latest, SignatureOf, Marked, Recorded, Reworkable, Visit, Plain, Kept, FanOut, Successes;
    var w := RestlessWorld(defects, stop);
    RestlessCalm(defects, stop);
    MarkedSame(d, q, defects, 2 * k);
    MarkedRoute(defects, 2 * k);
    RecordedFresh(defects, mem.history, 2 * k);
    VisitKept(d, db, mem, q, w, k, stop);
    VisitCounts(d, db, mem, q, w, k, stop);
    var v := Visit(d, db, mem, q, w, k);
    KeptPlain(db.rows, mem.state, v.db.rows, v.mem.state, k, k + 1);
    var out := Output(2 * k, false, Marked(defects, 2 * k));
    RoundRejects(d, q, db, mem, w, k);
    DropKeepsPlain(v.db.rows, v.mem.state, Popped(q, v.mem, [t], SignatureOf(out.defects)).state);
  }

  lemma MarkedRoute(defects: seq<Defect>, n: nat)
    requires Reworkable(defects)
    ensures defects != []
  {
  }

  /** An undisturbed visit of a node that is not held is one more success of it. */
  lemma VisitCounts(d: Definition, db: Db, mem: Memory, n: NodeId, w: World, k: nat, stop: nat)
    requires Calm(w, stop) && Plain(db.rows, mem.state) && n !in mem.state
    ensures var v := Visit(d, db, mem, n, w, k);
            v.Go? && Successes(v.db.rows, n) == Successes(db.rows, n) + 1 && v.db.status == db.status
  {
    hide Perform, Project, Successes, Latest;
    var attempt, out := AttemptsOf(mem.attempts, n) + 1, w.outcome(2 * k, n).out;
    PerformAppends(d, db.rows, mem.state, n, attempt, out);
    SuccessesAppend(db.rows, Row(n, attempt, StepSucceeded, None, out, Project(d, mem.state, n)), n);
  }

  lemma RoundRejects(d: Definition, q: NodeId, db: Db, mem: Memory, w: World, k: nat)
    requires mem.current == Some(q) && w.boundary(k) == Continue
    requires var v := Visit(d, db, mem, q, w, k); v.Go? && q in v.mem.state && !v.mem.state[q].accept
    ensures var v := Visit(d, db, mem, q, w, k);
            Round(d, q, db, mem, w, k) == HandleRejection(d, q, v.db, v.mem, v.mem.state[q], w, k)
  {
    hide Visit, HandleRejection;
  }

  lemma DropKeepsPlain(rows: seq<Row>, state: map<NodeId, Output>, fewer: map<NodeId, Output>)
    requires Plain(rows, state) && forall n :: n in fewer ==> n in state && fewer[n] == state[n]
    ensures Plain(rows, fewer)
  {
    hide Latest;
  }

  /** Rounds for `n` more reworks that take `hops` rounds each. */
  function Span(n: nat, hops: nat): nat {
    if n == 0 then 1 else 1 + hops + Span(n - 1, hops)
  }

  /** From the quality node on, the verdict is given once for every rework left and once more. */
  lemma {:induction false} KeepsRejecting(d: Definition, q: NodeId, depth: NodeId -> nat, defects: seq<Defect>,
                                          t: NodeId, db: Db, mem: Memory, k: nat, stop: nat)
    requires WellFormed(d, q, depth) && QualityAlone(d, q) && Hits(d, q, depth, t)
    requires Reworkable(defects) && ReworkTargets(d, q, defects) == [t]
    requires Plain(db.rows, mem.state) && Recorded(defects, mem.history, 2 * k)
    requires mem.current == Some(q) && q !in mem.state && mem.rework <= d.maxRework
    requires k + Span(d.maxRework - mem.rework, Hops(d, q, depth, t)) <= stop
    ensures var end := Loop(d, q, depth, db, mem, RestlessWorld(defects, stop), k);
            Successes(end.rows, q) == Successes(db.rows, q) + (d.maxRework - mem.rework) + 1 && end.status == Blocked
    decreases d.maxRework - mem.rework
  {
    hide WellFormed, QualityAlone, Hits, Hops, ReworkTargets, Reworkable, Plain, Recorded, Round, Loop, RestlessWorld;
    hide Kept, Arrived, Successes, Latest, Calm;
    var w := RestlessWorld(defects, stop);
    RestlessCalm(defects, stop);
    RejectsAgain(d, q, db, mem, defects, t, k, stop);
    EngineExactness.LoopUnfolds(d, q, depth, db, mem, w, k);
    var m := Round(d, q, db, mem, w, k);
    if mem.rework < d.maxRework {
      var hops := Hops(d, q, depth, t);
      assert Span(d.maxRework - mem.rework, hops) == 1 + hops + Span(d.maxRework - mem.rework - 1, hops);
      var db', mem' := Arrive(d, q, depth, m.db, m.mem, t, w, k + 1, stop);
      AtQualityAgain(d, q, depth, t, m.db, m.mem, db', mem', k + 1);
      RecordedLater(defects, mem'.history, 2 * (k + 1), 2 * (k + 1 + hops));
      GrewSuccesses(q, m.db, m.mem, db', mem');
      KeepsRejecting(d, q, depth, defects, t, db', mem', k + 1 + hops, stop);
    }
  }

  lemma AtQualityAgain(d: Definition, q: NodeId, depth: NodeId -> nat, n: NodeId, db: Db, mem: Memory, db': Db,
                       mem': Memory, k: nat)
    requires WellFormed(d, q, depth) && Hits(d, q, depth, n) && Arrived(d, q, depth, n, db, mem, db', mem', k)
    ensures mem'.rework == mem.rework && mem'.history == mem.history && mem'.current == Some(q) && q !in mem'.state
    ensures Plain(db'.rows, mem'.state)
  {
    hide WellFormed, Hits, Hops, Runs, RunsBefore, Plain;
  }

  lemma RecordedLater(defects: seq<Defect>, history: seq<Signature>, time: nat, later: nat)
    requires Recorded(defects, history, time) && time <= later
    ensures Recorded(defects, history, later)
  {
  }

  lemma GrewSuccesses(q: NodeId, db: Db, mem: Memory, db': Db, mem': Memory)
    requires Grew(q, db, mem, db', mem')
    ensures Successes(db'.rows, q) == Successes(db.rows, q)
  {
    SuccessesElsewhere(db.rows, db'.rows, q);
  }

  // ------------------------------------------------ cut off before the first verdict

  /** What a claim that is cut off before the first verdict leaves: first attempts only, none of the quality node. */
  ghost predicate CutOff(q: NodeId, rows: seq<Row>) {
    AllWon(rows) && forall i :: 0 <= i < |rows| ==> rows[i].node != q && rows[i].attempt == 1
  }

  lemma {:induction false} NoneOf(rows: seq<Row>, q: NodeId)
    requires forall i :: 0 <= i < |rows| ==> rows[i].node != q
    ensures Latest(rows, q).None? && Successes(rows, q) == 0
  {
    if rows != [] {
      NoneOf(rows[..|rows| - 1], q);
    }
  }

  lemma RecoveredPlain(q: NodeId, rows: seq<Row>, start: NodeId)
    requires CutOff(q, rows)
    ensures var mem := FreshMemory(rows, start);
            && Plain(rows, mem.state) && q !in mem.state && mem.rework == 0 && mem.history == []
              && mem.current == Some(start)
    ensures SettleAll(rows) == rows
  {
    NoneOf(rows, q);
    CounterFromAttempts(rows, start);
  }

  lemma CutClaim(d: Definition, q: NodeId, depth: NodeId -> nat, defects: seq<Defect>)
    returns (rows: seq<Row>, w: World)
    requires WellFormed(d, q, depth) && QualityAlone(d, q) && |InitialNodes(d)| == 1 && InitialHits(d, q, depth)
    ensures Claimed(d, q, depth, NewRoot, w) == Db(rows, Running) && CutOff(q, rows)
  {
    hide WellFormed, QualityAlone, InitialNodes, Round, Loop, Plain, Kept, Hits, Hops, FreshMemory, Claimed, Arrived;
    hide Calm;
    hide RestlessWorld;
    var start := InitialNodes(d)[0];
    var k := Hops(d, q, depth, start);
    w := RestlessWorld(defects, k);
    RestlessCalm(defects, k);
    RestlessIs(defects, k);
    EngineExactness.FirstClaim(d, q, depth, w);
    PlainEmpty();
    var db, mem := Db([], Running), FreshMemory([], start);
    var db', mem' := Arrive(d, q, depth, db, mem, start, w, 0, k);
    AtQualityAgain(d, q, depth, start, db, mem, db', mem', 0);
    assert db'.rows == db'.rows[0..];
    assert AllWon(db'.rows) by { PlainWon(db'.rows, mem'.state); }
    LeavesAt(d, q, depth, db', mem', w, k);
    rows := db'.rows;
  }

  lemma RestlessIs(defects: seq<Defect>, stop: nat)
    ensures var w := RestlessWorld(defects, stop); w.recovery == Recovers(true) && w.boundary(stop) == Leave
  {
  }

  lemma PlainWon(rows: seq<Row>, state: map<NodeId, Output>)
    requires Plain(rows, state)
    ensures AllWon(rows)
  {
  }

  lemma LeavesAt(d: Definition, q: NodeId, depth: NodeId -> nat, db: Db, mem: Memory, w: World, k: nat)
    requires WellFormed(d, q, depth) && mem.current.Some? && w.boundary(k) == Leave
    ensures Loop(d, q, depth, db, mem, w, k) == db
  {
    hide WellFormed;
    EngineExactness.LoopUnfolds(d, q, depth, db, mem, w, k);
  }

  lemma ClaimAgain(d: Definition, q: NodeId, depth: NodeId -> nat, rows: seq<Row>, w: World)
    requires WellFormed(d, q, depth) && |InitialNodes(d)| == 1 && w.recovery == Recovers(true)
    requires SettleAll(rows) == rows
    ensures Claimed(d, q, depth, Db(rows, Running), w)
         == Loop(d, q, depth, Db(rows, Running), FreshMemory(rows, InitialNodes(d)[0]), w, 0)
  {
    hide WellFormed, Loop, FreshMemory, InitialNodes, SettleAll;
  }

  lemma AfterTwo(d: Definition, q: NodeId, depth: NodeId -> nat, a: World, b: World)
    requires WellFormed(d, q, depth)
    ensures After(d, q, depth, NewRoot, [ByEngine(a)]) == Claimed(d, q, depth, NewRoot, a)
    ensures After(d, q, depth, NewRoot, [ByEngine(a), ByEngine(b)])
         == Claimed(d, q, depth, Claimed(d, q, depth, NewRoot, a), b)
  {
    hide WellFormed, Claimed;
    EngineExactness.AfterOne(d, q, depth, a);
    var episodes := [ByEngine(a), ByEngine(b)];
    assert episodes[..1] == [ByEngine(a)];
  }

  /** Main result: the bound on reworks is reached, crash or no crash. Where a
      verdict can send the root back to a node whose walk returns to the quality
      node, a root that is cut off before its first verdict and claimed again is
      still given its verdict `maxRework + 1` times, and only then blocked. */
  lemma {:induction false} ReworkIsTight(d: Definition, q: NodeId, depth: NodeId -> nat, defects: seq<Defect>,
                                         t: NodeId)
    returns (cut: World, full: World)
    requires WellFormed(d, q, depth) && QualityAlone(d, q) && |InitialNodes(d)| == 1 && InitialHits(d, q, depth)
    requires Reworkable(defects) && ReworkTargets(d, q, defects) == [t] && Hits(d, q, depth, t)
    ensures var first := After(d, q, depth, NewRoot, [ByEngine(cut)]);
            var second := After(d, q, depth, NewRoot, [ByEngine(cut), ByEngine(full)]);
            && first.status == Running && !HasRow(first.rows, q)
            && Successes(second.rows, q) == d.maxRework + 1 && second.status == Blocked
  {
    hide WellFormed, QualityAlone, InitialNodes, Loop, Plain, Kept, Hits, Hops, FreshMemory, Claimed, Arrived, Calm;
    hide After;
    hide RestlessWorld, ReworkTargets, Reworkable, Successes, SettleAll;
    var rows: seq<Row>;
    rows, cut := CutClaim(d, q, depth, defects);
    var start := InitialNodes(d)[0];
    var k := Hops(d, q, depth, start);
    var stop := k + Span(d.maxRework, Hops(d, q, depth, t));
    full := RestlessWorld(defects, stop);
    RestlessCalm(defects, stop);
    RestlessIs(defects, stop);
    RecoveredPlain(q, rows, start);
    ClaimAgain(d, q, depth, rows, full);
    AfterTwo(d, q, depth, cut, full);
    var db, mem := Db(rows, Running), FreshMemory(rows, start);
    var db', mem' := Arrive(d, q, depth, db, mem, start, full, 0, stop);
    AtQualityAgain(d, q, depth, start, db, mem, db', mem', 0);
    GrewSuccesses(q, db, mem, db', mem');
    NoneOf(rows, q);
    assert Recorded(defects, mem'.history, 2 * k);
    KeepsRejecting(d, q, depth, defects, t, db', mem', k, stop);
  }
}
