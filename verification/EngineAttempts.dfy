/** The attempts of a skill are numbered 1, 2, 3 and so on without a gap, over any
    claims and crashes, though the numbers are kept in memory between them. */
module EngineAttempts {
  import opened Options
  import opened Walks
  import opened Lifecycle
  import opened WorkflowDefinitions
  import opened StepRows
  import opened EngineSpec

  /** Every row of `n` is numbered one above the rows of `n` before it. */
  ghost predicate Numbered(rows: seq<Row>, n: NodeId) {
    rows != [] ==>
      var front, last := rows[..|rows| - 1], rows[|rows| - 1];
      Numbered(front, n) && (last.node == n ==> last.attempt == RowsOf(front, n) + 1)
  }

  ghost predicate AllNumbered(d: Definition, rows: seq<Row>) {
    forall n :: IsSkill(d, n) ==> Numbered(rows, n)
  }

  /** The attempts in memory count the rows. */
  ghost predicate Counted(d: Definition, rows: seq<Row>, attempts: map<NodeId, nat>) {
    forall n :: IsSkill(d, n) ==> AttemptsOf(attempts, n) == RowsOf(rows, n)
  }

  lemma {:induction false} NumberedLast(rows: seq<Row>, n: NodeId)
    requires Numbered(rows, n)
    ensures LastAttempt(rows, n) == RowsOf(rows, n)
  {
    if rows != [] {
      NumberedLast(rows[..|rows| - 1], n);
    }
  }

  lemma {:induction false} PutNumbersOther(rows: seq<Row>, i: nat, r: Row, n: NodeId)
    requires i <= |rows| && n != r.node && (i < |rows| ==> rows[i].node == r.node)
    ensures RowsOf(Put(rows, i, r), n) == RowsOf(rows, n)
    ensures Numbered(rows, n) ==> Numbered(Put(rows, i, r), n)
    decreases |rows|
  {
    var put := Put(rows, i, r);
    if i == |rows| {
      assert put[..|rows|] == rows;
    } else {
      var front := rows[..|rows| - 1];
      if i == |rows| - 1 {
        assert put[..|rows| - 1] == front;
      } else {
        assert put[..|rows| - 1] == Put(front, i, r);
        PutNumbersOther(front, i, r, n);
      }
    }
  }

  lemma AppendNumbers(rows: seq<Row>, r: Row)
    ensures RowsOf(rows + [r], r.node) == RowsOf(rows, r.node) + 1
    ensures Numbered(rows, r.node) && r.attempt == RowsOf(rows, r.node) + 1 ==> Numbered(rows + [r], r.node)
  {
    assert (rows + [r])[..|rows|] == rows;
  }

  /** An execution of a node leaves the others' numbers, and adds the next one of a skill. */
  lemma PerformNumbers(d: Definition, rows: seq<Row>, state: map<NodeId, Output>, n: NodeId, attempt: nat, o: Outcome)
    requires AllNumbered(d, rows) && (IsSkill(d, n) ==> attempt == RowsOf(rows, n) + 1)
    ensures var after := Perform(d, rows, state, n, attempt, o);
            && AllNumbered(d, after)
            && (forall m :: m != n ==> RowsOf(after, m) == RowsOf(rows, m))
            && (o.Returns? && IsSkill(d, n) ==> RowsOf(after, n) == RowsOf(rows, n) + 1)
  {
    hide IsSkill, Project, Numbered, LastUnfinished, RowsOf;
    var r := WrittenRow(d, rows, state, n, attempt, o);
    if r.Some? {
      var i := RowIndex(d, rows, n);
      assert r.value.node == n && (i < |rows| ==> rows[i].node == n);
      forall m | m != n ensures RowsOf(Put(rows, i, r.value), m) == RowsOf(rows, m)
        && (Numbered(rows, m) ==> Numbered(Put(rows, i, r.value), m))
      {
        PutNumbersOther(rows, i, r.value, m);
      }
      if IsSkill(d, n) {
        AppendNumbers(rows, r.value);
      }
    }
  }

  lemma {:induction false} FanNumbers(d: Definition, rows: seq<Row>, state: map<NodeId, Output>,
                                      attempts: map<NodeId, nat>, nodes: seq<NodeId>, w: World, k: nat)
    requires AllNumbered(d, rows) && NoRepeats(nodes)
    requires forall n :: n in nodes && IsSkill(d, n) ==> AttemptsOf(attempts, n) == RowsOf(rows, n)
    ensures var fan := Fan(d, rows, state, attempts, nodes, w, k);
            && AllNumbered(d, fan.rows)
            && (forall m :: m !in nodes ==> RowsOf(fan.rows, m) == RowsOf(rows, m))
            && (fan.stop.None? ==>
                  forall n :: n in nodes && IsSkill(d, n) ==> RowsOf(fan.rows, n) == RowsOf(rows, n) + 1)
    decreases |nodes|
  {
    hide Perform, AllNumbered, RowsOf, IsSkill;
    if nodes != [] {
      var n, o := nodes[0], w.outcome(2 * k + 1, nodes[0]);
      var next := Perform(d, rows, state, n, AttemptsOf(attempts, n) + 1, o);
      assert nodes == [n] + nodes[1..];
      assert n !in nodes[1..];
      PerformNumbers(d, rows, state, n, AttemptsOf(attempts, n) + 1, o);
      FanNumbers(d, next, state, attempts, nodes[1..], w, k);
    }
  }

  /** What a move leaves. */
  ghost predicate StillNumbered(d: Definition, m: Move) {
    AllNumbered(d, m.db.rows) && (m.Go? ==> Counted(d, m.db.rows, m.mem.attempts))
  }

  lemma VisitNumbers(d: Definition, db: Db, mem: Memory, n: NodeId, w: World, k: nat)
    requires AllNumbered(d, db.rows) && Counted(d, db.rows, mem.attempts)
    ensures StillNumbered(d, Visit(d, db, mem, n, w, k))
  {
    hide Perform, AllNumbered, RowsOf, IsSkill;
    if n !in mem.state {
      PerformNumbers(d, db.rows, mem.state, n, AttemptsOf(mem.attempts, n) + 1, w.outcome(2 * k, n));
    }
  }

  lemma FanOutNumbers(d: Definition, db: Db, mem: Memory, nodes: seq<NodeId>, w: World, k: nat)
    requires AllNumbered(d, db.rows) && Counted(d, db.rows, mem.attempts) && NoRepeats(nodes)
    ensures StillNumbered(d, FanOut(d, db, mem, nodes, w, k))
  {
    hide Fan, AllNumbered, RowsOf, IsSkill;
    FanNumbers(d, db.rows, mem.state, mem.attempts, nodes, w, k);
  }

  lemma RoundNumbers(d: Definition, q: NodeId, depth: NodeId -> nat, db: Db, mem: Memory, w: World, k: nat)
    requires WellFormed(d, q, depth) && mem.current.Some?
    requires AllNumbered(d, db.rows) && Counted(d, db.rows, mem.attempts)
    ensures StillNumbered(d, Round(d, q, db, mem, w, k))
  {
    hide WellFormed, Visit, FanOut, AllNumbered, Counted, CommonJoin, ReworkTargets, SignatureOf, NormaliseDefects;
    hide Successors;
    if w.boundary(k).Continue? {
      var n := mem.current.value;
      VisitNumbers(d, db, mem, n, w, k);
      var v := Visit(d, db, mem, n, w, k);
      VisitKeepsCounters(d, db, mem, n, w, k);
      if v.Go? {
        if n == q && !v.mem.state[n].accept {
          var defects := NormaliseDefects(v.mem.state[n].defects);
          var targets := ReworkTargets(d, q, defects);
          FanOutNumbers(d, v.db.(status := Running), Popped(q, v.mem, targets, SignatureOf(defects)), targets, w, k);
        } else {
          var c := if n == q then ACCEPT else None;
          NextDistinct(d, q, depth, n, c);
          FanOutNumbers(d, v.db, v.mem, Pending(v.mem.state, Successors(d, n, c)), w, k);
        }
      }
    }
  }

  lemma NextDistinct(d: Definition, q: NodeId, depth: NodeId -> nat, n: NodeId, c: Option<string>)
    requires WellFormed(d, q, depth) && c != DEFECT
    ensures NoRepeats(Successors(d, n, c))
  {
    SuccessorsDistinct(d.edges, n, c);
  }

  lemma {:induction false} LoopNumbers(d: Definition, q: NodeId, depth: NodeId -> nat, db: Db, mem: Memory, w: World,
                                       k: nat)
    requires WellFormed(d, q, depth) && AllNumbered(d, db.rows) && Counted(d, db.rows, mem.attempts)
    ensures AllNumbered(d, Loop(d, q, depth, db, mem, w, k).rows)
    decreases RoundsLeft(d, mem), Position(depth, mem)
  {
    hide WellFormed, Round, AllNumbered, Counted;
    if mem.current.Some? {
      RoundProgress(d, q, depth, db, mem, w, k);
      RoundNumbers(d, q, depth, db, mem, w, k);
      var m := Round(d, q, db, mem, w, k);
      if m.Go? {
        LoopNumbers(d, q, depth, m.db, m.mem, w, k + 1);
      }
    }
  }

  lemma {:induction false} SettleNumbers(rows: seq<Row>, settled: seq<Row>, n: NodeId)
    requires |settled| == |rows|
    requires forall i :: 0 <= i < |rows| ==> settled[i].node == rows[i].node && settled[i].attempt == rows[i].attempt
    ensures RowsOf(settled, n) == RowsOf(rows, n) && (Numbered(rows, n) ==> Numbered(settled, n))
  {
    if rows != [] {
      SettleNumbers(rows[..|rows| - 1], settled[..|rows| - 1], n);
    }
  }

  lemma SettleKeepsNumbers(d: Definition, rows: seq<Row>, calls: seq<nat>)
    requires AllNumbered(d, rows)
    ensures AllNumbered(d, Settle(rows, calls))
  {
    hide Numbered, IsSkill;
    forall n | Numbered(rows, n) ensures Numbered(Settle(rows, calls), n) {
      SettleNumbers(rows, Settle(rows, calls), n);
    }
  }

  lemma RecoveredCounts(d: Definition, rows: seq<Row>, start: NodeId)
    requires AllNumbered(d, rows)
    ensures Counted(d, rows, FreshMemory(rows, start).attempts)
  {
    hide Numbered, IsSkill;
    forall n | Numbered(rows, n) ensures AttemptsOf(FreshMemory(rows, start).attempts, n) == RowsOf(rows, n) {
      NumberedLast(rows, n);
      if n !in NodesOf(rows) {
        NothingAfter(rows, n);
      }
    }
  }

  lemma ClaimNumbers(d: Definition, q: NodeId, depth: NodeId -> nat, db: Db, w: World)
    requires WellFormed(d, q, depth) && AllNumbered(d, db.rows)
    ensures AllNumbered(d, Claimed(d, q, depth, db, w).rows)
  {
    hide WellFormed, Settle, AllRows, AllNumbered, Counted, Loop, FreshMemory, InitialNodes;
    if w.recovery.RecoveryFails? {
      SettleKeepsNumbers(d, db.rows, w.recovery.calls);
    }
    var rows := SettleAll(db.rows);
    SettleKeepsNumbers(d, db.rows, AllRows(db.rows));
    if |InitialNodes(d)| == 1 {
      RecoveredCounts(d, rows, InitialNodes(d)[0]);
      LoopNumbers(d, q, depth, Db(rows, Running), FreshMemory(rows, InitialNodes(d)[0]), w, 0);
    }
  }

  lemma {:induction false} RunNumbers(d: Definition, q: NodeId, depth: NodeId -> nat, episodes: seq<Episode>)
    requires WellFormed(d, q, depth)
    ensures AllNumbered(d, After(d, q, depth, NewRoot, episodes).rows)
    decreases |episodes|
  {
    hide WellFormed, Claimed, IsSkill;
    if episodes != [] {
      RunNumbers(d, q, depth, episodes[..|episodes| - 1]);
      var earlier := After(d, q, depth, NewRoot, episodes[..|episodes| - 1]);
      if episodes[|episodes| - 1].ByEngine? {
        ClaimNumbers(d, q, depth, earlier, episodes[|episodes| - 1].world);
      }
    }
  }

  lemma {:induction false} NumberAt(rows: seq<Row>, n: NodeId, i: nat)
    requires Numbered(rows, n) && i < |rows| && rows[i].node == n
    ensures rows[i].attempt == RowsOf(rows[..i], n) + 1
  {
    if i < |rows| - 1 {
      var front := rows[..|rows| - 1];
      NumberAt(front, n, i);
      assert front[..i] == rows[..i];
    }
  }

  /** Main result: in every run, the attempt of a skill is numbered one above the
      attempts of it before, however often the process died in between. */
  lemma {:induction false} SkillAttemptsAreNumbered(d: Definition, q: NodeId, depth: NodeId -> nat,
                                                    episodes: seq<Episode>, i: nat)
    requires WellFormed(d, q, depth) && i < |After(d, q, depth, NewRoot, episodes).rows|
    ensures var rows := After(d, q, depth, NewRoot, episodes).rows;
            IsSkill(d, rows[i].node) ==> rows[i].attempt == RowsOf(rows[..i], rows[i].node) + 1
  {
    hide WellFormed, After, Numbered;
    RunNumbers(d, q, depth, episodes);
    var rows := After(d, q, depth, NewRoot, episodes).rows;
    if IsSkill(d, rows[i].node) {
      NumberAt(rows, rows[i].node, i);
    }
  }

  function Places(rows: seq<Row>, n: NodeId): set<nat> {
    set i: nat | i < |rows| && rows[i].node == n
  }

  lemma PlacesMore(rows: seq<Row>, n: NodeId)
    ensures rows == [] ==> Places(rows, n) == {}
    ensures rows != [] ==>
              var k := |rows| - 1;
              Places(rows, n) == Places(rows[..k], n) + (if rows[k].node == n then {k} else {})
                && k !in Places(rows[..k], n)
  {
  }

  /** How many rows of a node there are. */
  lemma {:induction false} RowsCount(rows: seq<Row>, n: NodeId)
    ensures RowsOf(rows, n) == |Places(rows, n)|
  {
    hide Places;
    PlacesMore(rows, n);
    if rows != [] {
      RowsCount(rows[..|rows| - 1], n);
    }
  }
}
