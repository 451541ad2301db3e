/** Safety of whole runs: the invariant a live claim keeps, and what holds of the
    persisted rows after any sequence of claims, crashes and control-plane moves. */
module EngineSafety {
  import opened Options
  import opened Walks
  import opened Lifecycle
  import opened WorkflowDefinitions
  import opened StepRows
  import opened EngineSpec
  import opened EngineInvariants

  // ------------------------------------------------ executing one node

  /** What has to hold for the engine to execute `n` now. */
  ghost predicate MayRun(d: Definition, q: NodeId, depth: NodeId -> nat, rows: seq<Row>,
                         state: map<NodeId, Output>, attempts: map<NodeId, nat>, n: NodeId)
    requires WellFormed(d, q, depth)
  {
    && n !in state
    && LastAttempt(rows, n) <= AttemptsOf(attempts, n)
    && !HasJournaled(rows, n)
    && Count(rows, n) <= d.maxRework
    && (!Repeatable(d, q, n) ==> Count(rows, n) == 0)
    && (GateConditions(d, q, depth) ==>
          (n == q ==> !Accepted(rows, q) && InitialHits(d, q, depth)) && (Gated(d, q, n) ==> Accepted(rows, q)))
    && (VerdictConditions(d, q, depth) ==>
          && Fits(rows, Project(d, state, n))
          && (Count(rows, n) > 0 ==> !Accepted(rows, q) && (n != q ==> !HasJournaled(rows, q)))
          && (n == q ==> forall i :: 0 <= i < |rows| ==> !Journaled(rows[i])))
    && (CoherenceConditions(d, q, depth) ==>
          && (n != q && Count(rows, n) > 0 ==> Sent(d, q, rows, n))
          && (n == q ==> Fresh(q, rows)))
  }

  lemma {:induction false} LatestCounts(rows: seq<Row>, n: NodeId)
    ensures Latest(rows, n).Some? ==> Count(rows, n) > 0
    ensures Latest(rows, n).None? && !HasJournaled(rows, n) ==> Count(rows, n) == 0
  {
    if rows != [] {
      var front := rows[..|rows| - 1];
      LatestCounts(front, n);
      if HasJournaled(front, n) {
        var i :| 0 <= i < |front| && front[i].node == n && Journaled(front[i]);
        assert rows[i] == front[i];
      }
      assert rows[|rows| - 1].node == n && Journaled(rows[|rows| - 1]) ==> HasJournaled(rows, n);
    }
  }

  lemma RowIndexFits(d: Definition, rows: seq<Row>, n: NodeId)
    requires Orderly(d, rows) && !HasJournaled(rows, n)
    ensures var i := RowIndex(d, rows, n);
            && (i < |rows| ==>
                rows[i].node == n && Open(d, rows[i]) && !Banked(rows[i]) && rows[i].attempt <= LastAttempt(rows, n))
            && (i == |rows| ==> forall j :: 0 <= j < |rows| && rows[j].node == n ==> !Open(d, rows[j]))
  {
    hide Known, NodeOf;
    LastAttemptBounds(d, rows, n);
  }

  lemma WrittenFits(d: Definition, rows: seq<Row>, state: map<NodeId, Output>, n: NodeId, attempt: nat, o: Outcome)
    requires Orderly(d, rows) && attempt > LastAttempt(rows, n) && !HasJournaled(rows, n)
    ensures var r := WrittenRow(d, rows, state, n, attempt, o);
            r.Some? ==>
              && CanPut(d, rows, RowIndex(d, rows, n), r.value)
              && r.value.node == n && r.value.attempt <= attempt
              && r.value.inputs == Project(d, state, n)
    ensures var i := RowIndex(d, rows, n); i < |rows| ==> rows[i].node == n && !Banked(rows[i])
  {
    hide RowIndex, LastUnfinished, LastAttempt, Project;
    RowIndexFits(d, rows, n);
  }

  lemma PerformKeeps(d: Definition, q: NodeId, depth: NodeId -> nat, rows: seq<Row>,
                     state: map<NodeId, Output>, attempts: map<NodeId, nat>, n: NodeId, o: Outcome)
    requires WellFormed(d, q, depth) && Durable(d, q, depth, rows)
    requires MayRun(d, q, depth, rows, state, attempts, n)
    ensures Durable(d, q, depth, Perform(d, rows, state, n, AttemptsOf(attempts, n) + 1, o))
  {
    hide WellFormed, WrittenRow, GateConditions, VerdictConditions, CoherenceConditions, GateRoom, VerdictRoom;
    hide CoherenceRoom, CountRoom;
    hide GateClosed, Judged, Coherent, Bounded, HasJournaled;
    var attempt := AttemptsOf(attempts, n) + 1;
    WrittenFits(d, rows, state, n, attempt, o);
    var r := WrittenRow(d, rows, state, n, attempt, o);
    if r.Some? {
      RunHasRoom(d, q, depth, rows, state, attempts, n, RowIndex(d, rows, n), r.value);
      PutDurable(d, q, depth, rows, RowIndex(d, rows, n), r.value);
    }
  }

  lemma RunHasRoom(d: Definition, q: NodeId, depth: NodeId -> nat, rows: seq<Row>,
                   state: map<NodeId, Output>, attempts: map<NodeId, nat>, n: NodeId, i: nat, r: Row)
    requires WellFormed(d, q, depth) && MayRun(d, q, depth, rows, state, attempts, n)
    requires r.node == n && r.inputs == Project(d, state, n)
    ensures CountRoom(d, q, rows, i, r)
    ensures GateConditions(d, q, depth) ==> GateRoom(d, q, depth, rows, r)
    ensures VerdictConditions(d, q, depth) ==> VerdictRoom(d, q, rows, r)
    ensures CoherenceConditions(d, q, depth) ==> CoherenceRoom(d, q, rows, r)
  {
    hide WellFormed, SafeRoutes, QualityReworkedAlone, QualityAlone, ReworkTakesReaders, VerdictUnread, Gated;
    hide InitialHits, Sent, Fresh, MayLag, Latest, Count;
    LatestCounts(rows, n);
  }

  /** Everything recovery reads about one node is the same in both row lists. */
  ghost predicate SameFor(before: seq<Row>, after: seq<Row>, n: NodeId) {
    && Count(after, n) == Count(before, n)
    && Latest(after, n) == Latest(before, n)
    && LastAttempt(after, n) == LastAttempt(before, n)
    && (HasRow(after, n) <==> HasRow(before, n))
    && (HasJournaled(after, n) <==> HasJournaled(before, n))
  }

  lemma PerformSame(d: Definition, rows: seq<Row>, state: map<NodeId, Output>, n: NodeId, attempt: nat, o: Outcome,
                    m: NodeId)
    requires Orderly(d, rows) && attempt > LastAttempt(rows, n) && !HasJournaled(rows, n) && m != n
    ensures SameFor(rows, Perform(d, rows, state, n, attempt, o), m)
  {
    hide RowIndex, WrittenRow, Project, Orderly, Count, Latest, LastAttempt, HasRow, HasJournaled, Open;
    WrittenFits(d, rows, state, n, attempt, o);
    var r := WrittenRow(d, rows, state, n, attempt, o);
    if r.Some? {
      PutOther(rows, RowIndex(d, rows, n), r.value, m);
      PutHasJournaled(d, rows, RowIndex(d, rows, n), r.value, m);
    }
  }

  /** A node that returned has its output as the latest, at one more success at most. */
  ghost predicate RanTo(before: seq<Row>, after: seq<Row>, attempts: map<NodeId, nat>, n: NodeId, out: Output) {
    && Latest(after, n).Some? && Latest(after, n).value.output == out
    && Count(after, n) <= Count(before, n) + 1
    && LastAttempt(after, n) <= AttemptsOf(attempts, n) + 1
    && HasRow(after, n)
    && !HasJournaled(after, n)
  }

  lemma PerformReturns(d: Definition, rows: seq<Row>, state: map<NodeId, Output>, attempts: map<NodeId, nat>,
                       n: NodeId, out: Output)
    requires Orderly(d, rows) && LastAttempt(rows, n) <= AttemptsOf(attempts, n) && !HasJournaled(rows, n)
    ensures var after := Perform(d, rows, state, n, AttemptsOf(attempts, n) + 1, Returns(out));
            RanTo(rows, after, attempts, n, out) && Latest(after, n).value.inputs == Project(d, state, n)
  {
    hide RowIndex, Project, Orderly, Count, Latest, LastAttempt, HasRow, HasJournaled, Open, LastUnfinished;
    var attempt := AttemptsOf(attempts, n) + 1;
    WrittenFits(d, rows, state, n, attempt, Returns(out));
    var r := WrittenRow(d, rows, state, n, attempt, Returns(out)).value;
    PutSame(d, rows, RowIndex(d, rows, n), r);
    PutJournaledSame(d, rows, RowIndex(d, rows, n), r);
  }

  lemma OtherMayRun(d: Definition, q: NodeId, depth: NodeId -> nat, rows: seq<Row>, after: seq<Row>,
                    state: map<NodeId, Output>, attempts: map<NodeId, nat>, n: NodeId, m: NodeId)
    requires WellFormed(d, q, depth)
    requires MayRun(d, q, depth, rows, state, attempts, n) && MayRun(d, q, depth, rows, state, attempts, m) && m != n
    requires forall x :: x != n ==> SameFor(rows, after, x)
    requires VerdictConditions(d, q, depth) ==> n != q && m != q
    ensures MayRun(d, q, depth, after, state, attempts, m)
  {
    hide WellFormed, Gated, GateConditions, Repeatable;
    assert SameFor(rows, after, m);
    if n != q {
      assert SameFor(rows, after, q);
    }
    if VerdictConditions(d, q, depth) {
      forall s | s in Project(d, state, m) ensures Latest(after, s) == Latest(rows, s) {
        assert SameFor(rows, after, s);
      }
    }
  }

  lemma StillMayRun(d: Definition, q: NodeId, depth: NodeId -> nat, rows: seq<Row>,
                    state: map<NodeId, Output>, attempts: map<NodeId, nat>, n: NodeId, o: Outcome, m: NodeId)
    requires WellFormed(d, q, depth) && Durable(d, q, depth, rows)
    requires MayRun(d, q, depth, rows, state, attempts, n) && MayRun(d, q, depth, rows, state, attempts, m) && m != n
    requires VerdictConditions(d, q, depth) ==> n != q && m != q
    ensures MayRun(d, q, depth, Perform(d, rows, state, n, AttemptsOf(attempts, n) + 1, o), state, attempts, m)
  {
    hide Perform;
    var next := Perform(d, rows, state, n, AttemptsOf(attempts, n) + 1, o);
    forall x | x != n ensures SameFor(rows, next, x) {
      PerformSame(d, rows, state, n, AttemptsOf(attempts, n) + 1, o, x);
    }
    OtherMayRun(d, q, depth, rows, next, state, attempts, n, m);
  }

  lemma {:induction false} FanKeeps(d: Definition, q: NodeId, depth: NodeId -> nat, rows: seq<Row>,
                 state: map<NodeId, Output>, attempts: map<NodeId, nat>, nodes: seq<NodeId>, w: World, k: nat)
    requires WellFormed(d, q, depth) && Durable(d, q, depth, rows)
    requires NoRepeats(nodes)
    requires forall n :: n in nodes ==> MayRun(d, q, depth, rows, state, attempts, n)
    requires VerdictConditions(d, q, depth) ==> q !in nodes
    ensures Durable(d, q, depth, Fan(d, rows, state, attempts, nodes, w, k).rows)
    decreases |nodes|
  {
    hide WellFormed, VerdictConditions, Perform, MayRun, Durable;
    if nodes != [] {
      var n := nodes[0];
      var o := w.outcome(2 * k + 1, n);
      var next := Perform(d, rows, state, n, AttemptsOf(attempts, n) + 1, o);
      assert n in nodes;
      PerformKeeps(d, q, depth, rows, state, attempts, n, o);
      var rest := nodes[1..];
      TailNoRepeats(nodes);
      forall m | m in rest ensures MayRun(d, q, depth, next, state, attempts, m) {
        StillMayRun(d, q, depth, rows, state, attempts, n, o, m);
      }
      FanKeeps(d, q, depth, next, state, attempts, rest, w, k);
    }
  }

  lemma TailNoRepeats(nodes: seq<NodeId>)
    requires nodes != [] && NoRepeats(nodes)
    ensures NoRepeats(nodes[1..]) && nodes[0] !in nodes[1..]
    ensures forall m :: m in nodes <==> m == nodes[0] || m in nodes[1..]
  {
    assert nodes == [nodes[0]] + nodes[1..];
  }

  /** The part of `MayRun` a row write depends on. */
  ghost predicate Ready(rows: seq<Row>, attempts: map<NodeId, nat>, n: NodeId) {
    LastAttempt(rows, n) <= AttemptsOf(attempts, n) && !HasJournaled(rows, n)
  }

  lemma PerformOrderly(d: Definition, rows: seq<Row>, state: map<NodeId, Output>, n: NodeId, attempt: nat, o: Outcome)
    requires Orderly(d, rows) && attempt > LastAttempt(rows, n) && !HasJournaled(rows, n)
    ensures Orderly(d, Perform(d, rows, state, n, attempt, o))
  {
    WrittenFits(d, rows, state, n, attempt, o);
    var r := WrittenRow(d, rows, state, n, attempt, o);
    if r.Some? {
      PutOrderly(d, rows, RowIndex(d, rows, n), r.value);
    }
  }

  lemma {:induction false} FanLeaves(d: Definition, rows: seq<Row>, state: map<NodeId, Output>,
                                     attempts: map<NodeId, nat>, nodes: seq<NodeId>, w: World, k: nat, m: NodeId)
    requires Orderly(d, rows) && NoRepeats(nodes) && m !in nodes
    requires forall n :: n in nodes ==> Ready(rows, attempts, n)
    ensures SameFor(rows, Fan(d, rows, state, attempts, nodes, w, k).rows, m)
    decreases |nodes|
  {
    hide Perform;
    if nodes != [] {
      TailNoRepeats(nodes);
      var n := nodes[0];
      var o := w.outcome(2 * k + 1, n);
      var next := Perform(d, rows, state, n, AttemptsOf(attempts, n) + 1, o);
      assert Ready(rows, attempts, n);
      PerformOrderly(d, rows, state, n, AttemptsOf(attempts, n) + 1, o);
      PerformSame(d, rows, state, n, AttemptsOf(attempts, n) + 1, o, m);
      forall x | x in nodes[1..] ensures Ready(next, attempts, x) {
        PerformSame(d, rows, state, n, AttemptsOf(attempts, n) + 1, o, x);
      }
      FanLeaves(d, next, state, attempts, nodes[1..], w, k, m);
    }
  }

  lemma {:induction false} FanRan(d: Definition, rows: seq<Row>, state: map<NodeId, Output>, attempts: map<NodeId, nat>,
               nodes: seq<NodeId>, w: World, k: nat, m: NodeId)
    requires Orderly(d, rows) && NoRepeats(nodes) && m in nodes
    requires forall n :: n in nodes ==> Ready(rows, attempts, n)
    requires Fan(d, rows, state, attempts, nodes, w, k).stop.None?
    ensures var fan := Fan(d, rows, state, attempts, nodes, w, k);
            && m in fan.results && RanTo(rows, fan.rows, attempts, m, fan.results[m])
            && Latest(fan.rows, m).value.inputs == Project(d, state, m)
    decreases |nodes|
  {
    hide Perform;
    TailNoRepeats(nodes);
    var n := nodes[0];
    var o := w.outcome(2 * k + 1, n);
    var next := Perform(d, rows, state, n, AttemptsOf(attempts, n) + 1, o);
    assert Ready(rows, attempts, n);
    PerformOrderly(d, rows, state, n, AttemptsOf(attempts, n) + 1, o);
    forall x | x in nodes[1..] ensures Ready(next, attempts, x) {
      PerformSame(d, rows, state, n, AttemptsOf(attempts, n) + 1, o, x);
    }
    if m == n {
      PerformReturns(d, rows, state, attempts, n, o.out);
      FanLeaves(d, next, state, attempts, nodes[1..], w, k, n);
    } else {
      PerformSame(d, rows, state, n, AttemptsOf(attempts, n) + 1, o, m);
      FanRan(d, next, state, attempts, nodes[1..], w, k, m);
    }
  }

  lemma {:induction false} FanResultKeys(d: Definition, rows: seq<Row>, state: map<NodeId, Output>,
                                         attempts: map<NodeId, nat>, nodes: seq<NodeId>, w: World, k: nat, m: NodeId)
    requires m !in nodes
    ensures m !in Fan(d, rows, state, attempts, nodes, w, k).results
    decreases |nodes|
  {
    hide Perform;
    if nodes != [] {
      assert nodes == [nodes[0]] + nodes[1..];
      var n := nodes[0];
      FanResultKeys(d, Perform(d, rows, state, n, AttemptsOf(attempts, n) + 1, w.outcome(2 * k + 1, n)),
                    state, attempts, nodes[1..], w, k, m);
    }
  }

  // ------------------------------------------------ the live invariant

  /** Process memory agrees with the rows, and the rework counter covers every success. */
  ghost predicate Backed(d: Definition, q: NodeId, rows: seq<Row>, mem: Memory) {
    && (forall n :: LastAttempt(rows, n) <= AttemptsOf(mem.attempts, n))
    && (forall n :: !HasJournaled(rows, n))
    && (forall n :: n in mem.state ==>
          Latest(rows, n).Some? && Latest(rows, n).value.output == mem.state[n] && Count(rows, n) <= mem.rework + 1)
    && (forall n :: n !in mem.state ==>
          Count(rows, n) == 0 || (Repeatable(d, q, n) && Count(rows, n) <= mem.rework <= d.maxRework
              && !Accepted(rows, q)))
  }

  /** Only the node about to run and the quality node can be waiting for a renewed output. */
  ghost predicate OneRenewed(q: NodeId, rows: seq<Row>, mem: Memory) {
    forall n :: n !in mem.state && n != q && Count(rows, n) > 0 ==> mem.current == Some(n)
  }

  ghost predicate SentAlone(d: Definition, q: NodeId, rows: seq<Row>, n: NodeId) {
    Sent(d, q, rows, n) && forall m :: Sent(d, q, rows, m) ==> m == n
  }

  /** A node waiting to be renewed was sent back alone, and while the quality
      node is about to run again nothing is behind. */
  ghost predicate Awaiting(d: Definition, q: NodeId, rows: seq<Row>, mem: Memory) {
    && (forall n :: n !in mem.state && n != q && Count(rows, n) > 0 ==> SentAlone(d, q, rows, n))
    && (q !in mem.state ==> Fresh(q, rows))
  }

  /** Where the walk stands relative to the gate. */
  ghost predicate Placed(d: Definition, q: NodeId, depth: NodeId -> nat, rows: seq<Row>, current: Option<NodeId>)
    requires WellFormed(d, q, depth)
  {
    match current
    case None => HasRow(rows, q) || InitialHits(d, q, depth) ==> Accepted(rows, q)
    case Some(c) =>
      && (Gated(d, q, c) ==> Accepted(rows, q))
      && (HasRow(rows, q) ==> Accepted(rows, q) || !Escapes(d, q, depth, c))
      && (!HasRow(rows, q) ==> (Hits(d, q, depth, c) <==> InitialHits(d, q, depth)))
  }

  ghost predicate Live(d: Definition, q: NodeId, depth: NodeId -> nat, rows: seq<Row>, mem: Memory)
    requires WellFormed(d, q, depth)
  {
    && Durable(d, q, depth, rows)
    && Backed(d, q, rows, mem)
    && OneRenewed(q, rows, mem)
    && (GateConditions(d, q, depth) ==> Placed(d, q, depth, rows, mem.current))
    && (CoherenceConditions(d, q, depth) ==> Awaiting(d, q, rows, mem))
  }

  /** All of `nodes` ran on `state`, and nothing else did. */
  ghost predicate RanOn(d: Definition, rows: seq<Row>, after: seq<Row>, state: map<NodeId, Output>,
                        nodes: seq<NodeId>) {
    && (forall m :: !HasJournaled(after, m))
    && (forall m :: m !in nodes ==> SameFor(rows, after, m))
    && (forall m :: m in nodes ==>
        m !in state && Latest(after, m).Some? && Latest(after, m).value.inputs == Project(d, state, m))
    && (forall s :: s in state ==> Latest(rows, s).Some? && Latest(rows, s).value.output == state[s])
  }

  /** Nodes that ran for the first time, were sent back alone, or are all that
      was sent back, leave nothing behind. */
  lemma FreshAfter(d: Definition, q: NodeId, rows: seq<Row>, after: seq<Row>, state: map<NodeId, Output>,
                   nodes: seq<NodeId>)
    requires RanOn(d, rows, after, state, nodes) && q !in nodes && Coherent(d, q, after)
    requires || (Fresh(q, rows) && forall b :: b in nodes ==> Count(rows, b) == 0 || SentAlone(d, q, rows, b))
             || (forall n :: Sent(d, q, rows, n) ==> n in nodes)
    ensures Fresh(q, after)
  {
    hide ReworkTargets, NormaliseDefects, Reworkable, Latest, InputSources, HasJournaled, Count;
    assert SameFor(rows, after, q);
    assert forall n :: Sent(d, q, after, n) <==> Sent(d, q, rows, n);
    forall x | x in after && Standing(q, after, x) ensures Fits(after, x.inputs) {
      StandingIsLatest(q, after, x);
      forall s | s in x.inputs ensures Latest(after, s).Some? && Latest(after, s).value.output == x.inputs[s] {
        if x.node in nodes {
          assert SameFor(rows, after, s);
        } else {
          assert SameFor(rows, after, x.node);
          assert FitsBut(d, q, after, x.node, x.inputs);
          if Fresh(q, rows) {
            LatestInRows(rows, x.node);
            if s !in nodes {
              assert SameFor(rows, after, s);
            } else {
              LatestCounts(rows, s);
            }
          }
        }
      }
    }
  }

  lemma StandingIsLatest(q: NodeId, rows: seq<Row>, x: Row)
    requires x in rows && Standing(q, rows, x) && forall m :: !HasJournaled(rows, m)
    ensures Latest(rows, x.node) == Some(x)
  {
    hide Latest, HasJournaled;
    if Journaled(x) {
      JournaledAmong(rows, x);
    }
  }

  lemma JournaledAmong(rows: seq<Row>, x: Row)
    requires x in rows && Journaled(x)
    ensures HasJournaled(rows, x.node)
  {
  }

  lemma LatestInRows(rows: seq<Row>, n: NodeId)
    ensures Latest(rows, n).Some? ==> Latest(rows, n).value in rows && Latest(rows, n).value.node == n
  {
  }

  lemma BackedFits(d: Definition, q: NodeId, rows: seq<Row>, mem: Memory, n: NodeId)
    requires Backed(d, q, rows, mem)
    ensures Fits(rows, Project(d, mem.state, n))
  {
  }

  lemma QualityHitsInitially(d: Definition, q: NodeId, depth: NodeId -> nat, rows: seq<Row>)
    requires WellFormed(d, q, depth) && GateConditions(d, q, depth)
    requires GateClosed(d, q, depth, rows) && Placed(d, q, depth, rows, Some(q))
    ensures InitialHits(d, q, depth)
  {
  }

  lemma CurrentMayRun(d: Definition, q: NodeId, depth: NodeId -> nat, rows: seq<Row>, mem: Memory)
    requires WellFormed(d, q, depth) && Live(d, q, depth, rows, mem)
    requires mem.current.Some? && mem.current.value !in mem.state
    ensures MayRun(d, q, depth, rows, mem.state, mem.attempts, mem.current.value)
  {
    hide WellFormed;
    var c := mem.current.value;
    BackedFits(d, q, rows, mem, c);
    LatestCounts(rows, q);
    forall i | 0 <= i < |rows| ensures !Journaled(rows[i]) {
      assert !HasJournaled(rows, rows[i].node);
    }
    if GateConditions(d, q, depth) && c == q {
      QualityHitsInitially(d, q, depth, rows);
    }
  }

  /** After `n` returned, and nothing else changed, memory with `n`'s output is backed. */
  lemma BackedAfter(d: Definition, q: NodeId, rows: seq<Row>, after: seq<Row>, mem: Memory, n: NodeId, out: Output)
    requires Backed(d, q, rows, mem) && n !in mem.state && OneRenewed(q, rows, mem) && mem.current == Some(n)
    requires forall m :: m != n ==> SameFor(rows, after, m)
    requires RanTo(rows, after, mem.attempts, n, out)
    ensures Backed(d, q, after,
        mem.(state := mem.state[n := out], attempts := mem.attempts[n := AttemptsOf(mem.attempts, n) + 1]))
  {
    var mem' := mem.(state := mem.state[n := out], attempts := mem.attempts[n := AttemptsOf(mem.attempts, n) + 1]);
    forall m
      ensures LastAttempt(after, m) <= AttemptsOf(mem'.attempts, m) && !HasJournaled(after, m)
      ensures m in mem'.state ==>
        Latest(after, m).Some? && Latest(after, m).value.output == mem'.state[m] && Count(after, m) <= mem'.rework + 1
      ensures m !in mem'.state ==>
        || Count(after, m) == 0
        || (Repeatable(d, q, m) && Count(after, m) <= mem'.rework <= d.maxRework && !Accepted(after, q))
    {
      if m != n {
        assert SameFor(rows, after, m);
        if n != q {
          assert SameFor(rows, after, q);
        }
      }
    }
  }

  lemma PlacedAfter(d: Definition, q: NodeId, depth: NodeId -> nat, rows: seq<Row>, after: seq<Row>, n: NodeId)
    requires WellFormed(d, q, depth) && Placed(d, q, depth, rows, Some(n))
    requires forall m :: m != n ==> SameFor(rows, after, m)
    requires HasRow(after, n)
    ensures Placed(d, q, depth, after, Some(n))
  {
    if n != q {
      assert SameFor(rows, after, q);
    }
  }

  lemma OneRenewedAfter(q: NodeId, rows: seq<Row>, after: seq<Row>, mem: Memory, mem': Memory, n: NodeId)
    requires OneRenewed(q, rows, mem) && mem.current == Some(n) == mem'.current
    requires mem'.state.Keys == mem.state.Keys + {n}
    requires forall m :: m != n ==> SameFor(rows, after, m)
    ensures OneRenewed(q, after, mem')
  {
    forall m | m !in mem'.state && m != q && Count(after, m) > 0 ensures mem'.current == Some(m) {
      assert SameFor(rows, after, m);
    }
  }

  lemma VisitReturns(d: Definition, q: NodeId, depth: NodeId -> nat, rows: seq<Row>, mem: Memory, n: NodeId,
                     out: Output)
    requires WellFormed(d, q, depth) && Live(d, q, depth, rows, mem)
    requires mem.current == Some(n) && n !in mem.state
    ensures var after := Perform(d, rows, mem.state, n, AttemptsOf(mem.attempts, n) + 1, Returns(out));
            Live(d, q, depth, after, mem.(state := mem.state[n := out],
                attempts := mem.attempts[n := AttemptsOf(mem.attempts, n) + 1]))
  {
    hide WellFormed, Bounded, Perform, MayRun, Durable, Placed, Backed, OneRenewed, SameFor, RanTo, GateConditions;
    hide CoherenceConditions, Awaiting, Orderly, HasRow, HasJournaled;
    CurrentMayRun(d, q, depth, rows, mem);
    PerformKeeps(d, q, depth, rows, mem.state, mem.attempts, n, Returns(out));
    var after := Perform(d, rows, mem.state, n, AttemptsOf(mem.attempts, n) + 1, Returns(out));
    LiveIsOrderly(d, q, depth, rows, mem);
    PerformReturns(d, rows, mem.state, mem.attempts, n, out);
    forall m | m != n ensures SameFor(rows, after, m) {
      PerformSame(d, rows, mem.state, n, AttemptsOf(mem.attempts, n) + 1, Returns(out), m);
    }
    BackedAfter(d, q, rows, after, mem, n, out);
    OneRenewedAfter(q, rows, after, mem,
                    mem.(state := mem.state[n := out],
                        attempts := mem.attempts[n := AttemptsOf(mem.attempts, n) + 1]), n);
    if GateConditions(d, q, depth) {
      RanHasRow(rows, after, mem.attempts, n, out);
      PlacedAfter(d, q, depth, rows, after, n);
    }
    if CoherenceConditions(d, q, depth) {
      VisitRanOn(d, q, rows, after, mem, n, out);
      DurableIsCoherent(d, q, depth, after);
      AwaitingAfter(d, q, rows, after, mem,
                    mem.(state := mem.state[n := out],
                        attempts := mem.attempts[n := AttemptsOf(mem.attempts, n) + 1]), n);
    }
  }

  lemma VisitRanOn(d: Definition, q: NodeId, rows: seq<Row>, after: seq<Row>, mem: Memory, n: NodeId, out: Output)
    requires Backed(d, q, rows, mem) && n !in mem.state
    requires forall m :: m != n ==> SameFor(rows, after, m)
    requires RanTo(rows, after, mem.attempts, n, out) && Latest(after, n).value.inputs == Project(d, mem.state, n)
    ensures RanOn(d, rows, after, mem.state, [n])
  {
    hide Project, Latest, Count, LastAttempt, HasJournaled;
    forall m ensures !HasJournaled(after, m) && (m !in [n] ==> SameFor(rows, after, m)) {
      if m != n {
        assert SameFor(rows, after, m);
      }
    }
  }

  lemma DurableIsCoherent(d: Definition, q: NodeId, depth: NodeId -> nat, rows: seq<Row>)
    requires WellFormed(d, q, depth) && Durable(d, q, depth, rows) && CoherenceConditions(d, q, depth)
    ensures Coherent(d, q, rows)
  {
  }

  lemma AwaitingAfter(d: Definition, q: NodeId, rows: seq<Row>, after: seq<Row>, mem: Memory, mem': Memory, n: NodeId)
    requires OneRenewed(q, rows, mem) && Awaiting(d, q, rows, mem) && mem.current == Some(n) && n !in mem.state
    requires mem'.state.Keys == mem.state.Keys + {n}
    requires RanOn(d, rows, after, mem.state, [n]) && Coherent(d, q, after)
    ensures Awaiting(d, q, after, mem')
  {
    hide Fresh, Coherent, SentAlone, Count;
    forall m | m !in mem'.state && m != q ensures Count(after, m) == 0 {
      assert SameFor(rows, after, m);
    }
    if q !in mem'.state {
      assert n !in [q];
      FreshAfter(d, q, rows, after, mem.state, [n]);
    }
  }

  lemma RanHasRow(rows: seq<Row>, after: seq<Row>, attempts: map<NodeId, nat>, n: NodeId, out: Output)
    requires RanTo(rows, after, attempts, n, out)
    ensures HasRow(after, n)
  {
  }

  lemma LiveIsOrderly(d: Definition, q: NodeId, depth: NodeId -> nat, rows: seq<Row>, mem: Memory)
    requires WellFormed(d, q, depth) && Live(d, q, depth, rows, mem)
    ensures Orderly(d, rows)
    ensures Backed(d, q, rows, mem) && OneRenewed(q, rows, mem)
    ensures forall n :: LastAttempt(rows, n) <= AttemptsOf(mem.attempts, n) && !HasJournaled(rows, n)
    ensures CoherenceConditions(d, q, depth) ==> Awaiting(d, q, rows, mem)
  {
  }

  lemma VisitKeeps(d: Definition, q: NodeId, depth: NodeId -> nat, db: Db, mem: Memory, w: World, k: nat)
    requires WellFormed(d, q, depth) && mem.current.Some? && Live(d, q, depth, db.rows, mem)
    ensures var v := Visit(d, db, mem, mem.current.value, w, k);
            && Durable(d, q, depth, v.db.rows)
            && (v.Go? ==>
                Live(d, q, depth, v.db.rows, v.mem) && v.mem.current == mem.current && mem.current.value in v.mem.state)
  {
    hide WellFormed, Perform, MayRun, Durable, Placed, Backed, OneRenewed;
    var n := mem.current.value;
    if n !in mem.state {
      var o := w.outcome(2 * k, n);
      CurrentMayRun(d, q, depth, db.rows, mem);
      PerformKeeps(d, q, depth, db.rows, mem.state, mem.attempts, n, o);
      if o.Returns? {
        VisitReturns(d, q, depth, db.rows, mem, n, o.out);
      }
    }
  }

  // ------------------------------------------------ moving forward

  /** Under the gate conditions a fan-out never contains the quality node. */
  lemma QualityNotAmong(d: Definition, q: NodeId, depth: NodeId -> nat, c: NodeId, condition: Option<string>)
    requires WellFormed(d, q, depth) && QualityAlone(d, q)
    requires condition == None || (c == q && condition == ACCEPT)
    requires |Successors(d, c, condition)| > 1
    ensures q !in Successors(d, c, condition)
  {
    if c != q {
      assert Successors(d, c, condition)[0] in Successors(d, c, condition);
      var i :| 0 <= i < |d.nodes| && d.nodes[i].id == c;
    } else if q in Successors(d, c, condition) {
      SuccessorIsKnownAndLower(d, q, depth, c, condition, q);
    }
  }

  lemma HopKeepsPlace(d: Definition, q: NodeId, depth: NodeId -> nat, rows: seq<Row>, c: NodeId)
    requires WellFormed(d, q, depth) && GateConditions(d, q, depth) && c != q
    requires Placed(d, q, depth, rows, Some(c))
    ensures NextHop(d, c).To? ==> Placed(d, q, depth, rows, Some(NextHop(d, c).node))
    ensures NextHop(d, c).End? ==> Placed(d, q, depth, rows, None)
    ensures forall b :: b in Successors(d, c, None) && Gated(d, q, b) ==> Accepted(rows, q)
  {
    NextHopLower(d, q, depth, c);
    if !Accepted(rows, q) {
      forall b | b in Successors(d, c, None) ensures !Gated(d, q, b) {
        FreeExtends(d, q, c, b);
      }
      var s := Successors(d, c, None);
      if |s| > 1 && NextHop(d, c).To? {
        QualityNotAmong(d, q, depth, c, None);
        FreeExtends(d, q, s[0], NextHop(d, c).node);
      }
    } else {
      AcceptedHasRow(rows, q);
    }
  }

  lemma AcceptedPlaces(d: Definition, q: NodeId, depth: NodeId -> nat, rows: seq<Row>, c: Option<NodeId>)
    requires WellFormed(d, q, depth) && Accepted(rows, q)
    ensures Placed(d, q, depth, rows, c)
  {
    AcceptedHasRow(rows, q);
  }

  lemma PlacedSame(d: Definition, q: NodeId, depth: NodeId -> nat, rows: seq<Row>, after: seq<Row>, c: Option<NodeId>)
    requires WellFormed(d, q, depth) && Placed(d, q, depth, rows, c) && SameFor(rows, after, q)
    ensures Placed(d, q, depth, after, c)
  {
  }

  /** Nothing but the quality node and `nodes` waits for a renewed output. */
  ghost predicate NothingElseRenewed(q: NodeId, rows: seq<Row>, state: map<NodeId, Output>, nodes: seq<NodeId>) {
    forall n :: n !in state && n !in nodes && n != q ==> Count(rows, n) == 0
  }

  lemma FanBacked(d: Definition, q: NodeId, rows: seq<Row>, mem: Memory, nodes: seq<NodeId>, w: World, k: nat,
                  fan: FanResult)
    requires Orderly(d, rows) && NoRepeats(nodes) && Backed(d, q, rows, mem)
    requires forall b :: b in nodes ==> b !in mem.state && Count(rows, b) <= mem.rework
    requires NothingElseRenewed(q, rows, mem.state, nodes)
    requires fan == Fan(d, rows, mem.state, mem.attempts, nodes, w, k) && fan.stop.None?
    ensures Backed(d, q, fan.rows, mem.(state := mem.state + fan.results, attempts := Bump(mem.attempts, nodes)))
    ensures NothingElseRenewed(q, fan.rows, mem.state + fan.results, [])
  {
    hide Repeatable, Perform, Fan;
    var state', attempts' := mem.state + fan.results, Bump(mem.attempts, nodes);
    assert forall b :: b in nodes ==> Ready(rows, mem.attempts, b);
    forall n
      ensures LastAttempt(fan.rows, n) <= AttemptsOf(attempts', n) && !HasJournaled(fan.rows, n)
      ensures n in state' ==>
        Latest(fan.rows, n).Some? && Latest(fan.rows, n).value.output == state'[n]
          && Count(fan.rows, n) <= mem.rework + 1
      ensures n !in state' && n != q ==> Count(fan.rows, n) == 0
      ensures n !in state' && n == q ==>
        Count(fan.rows, n) == 0 || (Repeatable(d, q, n) && Count(fan.rows, n) <= mem.rework <= d.maxRework
            && !Accepted(fan.rows, q))
    {
      if n in nodes {
        FanRan(d, rows, mem.state, mem.attempts, nodes, w, k, n);
      } else {
        FanLeaves(d, rows, mem.state, mem.attempts, nodes, w, k, n);
        FanResultKeys(d, rows, mem.state, mem.attempts, nodes, w, k, n);
      }
    }
  }

  lemma BranchMayRun(d: Definition, q: NodeId, depth: NodeId -> nat, rows: seq<Row>, mem: Memory, b: NodeId)
    requires WellFormed(d, q, depth) && Durable(d, q, depth, rows) && Backed(d, q, rows, mem)
    requires b !in mem.state && Count(rows, b) <= mem.rework
    requires QualityAlone(d, q) ==> b != q
    requires GateConditions(d, q, depth) ==> b != q && (Gated(d, q, b) ==> Accepted(rows, q))
    requires b != q ==> Count(rows, b) == 0
    ensures MayRun(d, q, depth, rows, mem.state, mem.attempts, b)
  {
    hide WellFormed, QualityReworkedAlone, SafeRoutes, Gated, Project, InitialHits, VerdictUnread, ReworkTakesReaders;
    hide Sent, Fresh;
    BackedFits(d, q, rows, mem, b);
  }

  lemma ForwardKeeps(d: Definition, q: NodeId, depth: NodeId -> nat, db: Db, mem: Memory, n: NodeId,
                     condition: Option<string>, w: World, k: nat)
    requires WellFormed(d, q, depth) && Live(d, q, depth, db.rows, mem)
    requires mem.current == Some(n) && n in mem.state
    requires (n != q && condition == None) || (n == q && condition == ACCEPT && mem.state[q].accept)
    ensures var m := Forward(d, db, mem, n, condition, w, k);
            && Durable(d, q, depth, m.db.rows)
            && (m.Go? ==> Live(d, q, depth, m.db.rows, m.mem))
  {
    hide WellFormed, Durable, Perform, Fan, MayRun, CommonJoin, Successors, Live, Placed;
    var next := Successors(d, n, condition);
    LiveParts(d, q, depth, db.rows, mem);
    if |next| > 1 {
      ForwardFan(d, q, depth, db, mem, n, condition, w, k);
    } else {
      ForwardPlaces(d, q, depth, db.rows, mem, n, condition);
      Repositioned(d, q, depth, db.rows, mem, n, ForwardTo(d, n, condition));
    }
  }

  lemma Repositioned(d: Definition, q: NodeId, depth: NodeId -> nat, rows: seq<Row>, mem: Memory, n: NodeId,
                     to: Option<NodeId>)
    requires WellFormed(d, q, depth) && Live(d, q, depth, rows, mem)
    requires mem.current == Some(n) && n in mem.state
    requires GateConditions(d, q, depth) ==> Placed(d, q, depth, rows, to)
    ensures Live(d, q, depth, rows, mem.(current := to))
  {
    hide WellFormed, Durable, Placed;
  }

  /** Where `Forward` would go from `n`, if it goes on. */
  function ForwardTo(d: Definition, n: NodeId, condition: Option<string>): Option<NodeId> {
    var next := Successors(d, n, condition);
    if |next| > 1 then CommonJoin(d, next) else if |next| == 1 then Some(next[0]) else None
  }

  lemma ForwardPlaces(d: Definition, q: NodeId, depth: NodeId -> nat, rows: seq<Row>, mem: Memory, n: NodeId,
                      condition: Option<string>)
    requires WellFormed(d, q, depth) && Live(d, q, depth, rows, mem)
    requires mem.current == Some(n) && n in mem.state
    requires (n != q && condition == None) || (n == q && condition == ACCEPT && mem.state[q].accept)
    ensures GateConditions(d, q, depth)
      && (|Successors(d, n, condition)| > 1 ==> CommonJoin(d, Successors(d, n, condition)).Some?)
      ==> Placed(d, q, depth, rows, ForwardTo(d, n, condition))
    ensures GateConditions(d, q, depth) ==>
      forall b :: b in Successors(d, n, condition) && Gated(d, q, b) ==> Accepted(rows, q)
  {
    if GateConditions(d, q, depth) {
      if n != q {
        HopKeepsPlace(d, q, depth, rows, n);
      } else {
        assert Accepted(rows, q);
        AcceptedPlaces(d, q, depth, rows, ForwardTo(d, n, condition));
      }
    }
  }

  lemma LiveParts(d: Definition, q: NodeId, depth: NodeId -> nat, rows: seq<Row>, mem: Memory)
    requires WellFormed(d, q, depth) && Live(d, q, depth, rows, mem)
    ensures Orderly(d, rows) && Durable(d, q, depth, rows) && Backed(d, q, rows, mem)
  {
  }

  lemma ForwardBranches(d: Definition, q: NodeId, depth: NodeId -> nat, rows: seq<Row>, mem: Memory, n: NodeId,
                        condition: Option<string>)
    requires WellFormed(d, q, depth) && Live(d, q, depth, rows, mem)
    requires mem.current == Some(n) && n in mem.state
    requires (n != q && condition == None) || (n == q && condition == ACCEPT && mem.state[q].accept)
    requires |Successors(d, n, condition)| > 1
    ensures var nodes := Pending(mem.state, Successors(d, n, condition));
            && NoRepeats(nodes)
            && (QualityAlone(d, q) ==> q !in nodes)
            && (GateConditions(d, q, depth) ==> q !in nodes)
            && NothingElseRenewed(q, rows, mem.state, nodes)
            && (forall b :: b in nodes && b != q ==> Count(rows, b) == 0)
            && forall b :: b in nodes ==>
                 b !in mem.state && Count(rows, b) <= mem.rework
                   && MayRun(d, q, depth, rows, mem.state, mem.attempts, b)
  {
    hide Durable, MayRun, Placed;
    var nodes := Pending(mem.state, Successors(d, n, condition));
    SuccessorsDistinct(d.edges, n, condition);
    ForwardPlaces(d, q, depth, rows, mem, n, condition);
    if QualityAlone(d, q) {
      QualityNotAmong(d, q, depth, n, condition);
    }
    forall b | b in nodes ensures Count(rows, b) <= mem.rework
      && MayRun(d, q, depth, rows, mem.state, mem.attempts, b) {
      BranchMayRun(d, q, depth, rows, mem, b);
    }
  }

  lemma ForwardFan(d: Definition, q: NodeId, depth: NodeId -> nat, db: Db, mem: Memory, n: NodeId,
                   condition: Option<string>, w: World, k: nat)
    requires WellFormed(d, q, depth) && Live(d, q, depth, db.rows, mem)
    requires mem.current == Some(n) && n in mem.state
    requires (n != q && condition == None) || (n == q && condition == ACCEPT && mem.state[q].accept)
    requires |Successors(d, n, condition)| > 1
    ensures var m := Forward(d, db, mem, n, condition, w, k);
            && Durable(d, q, depth, m.db.rows)
            && (m.Go? ==> Live(d, q, depth, m.db.rows, m.mem))
  {
    hide WellFormed, Durable, Perform, Fan, MayRun, Placed, Backed, OneRenewed, Live, Pending, Bump, CommonJoin;
    hide Successors;
    hide NothingElseRenewed, NoRepeats, Orderly, GateConditions, QualityAlone, QualityReworkedAlone;
    hide CoherenceConditions, Count, Gated, HasRow, Fresh;
    var next := Successors(d, n, condition);
    var nodes := Pending(mem.state, next);
    ForwardBranches(d, q, depth, db.rows, mem, n, condition);
    ForwardPlaces(d, q, depth, db.rows, mem, n, condition);
    LiveParts(d, q, depth, db.rows, mem);
    FanKeeps(d, q, depth, db.rows, mem.state, mem.attempts, nodes, w, k);
    var fan := Fan(d, db.rows, mem.state, mem.attempts, nodes, w, k);
    if fan.stop.None? && CommonJoin(d, next).Some? {
      ForwardFresh(d, q, depth, db.rows, mem, nodes, w, k, fan);
      FanLive(d, q, depth, db.rows, mem, nodes, w, k, fan, CommonJoin(d, next));
    }
  }

  lemma FanRanOn(d: Definition, q: NodeId, rows: seq<Row>, mem: Memory, nodes: seq<NodeId>, w: World, k: nat,
                 fan: FanResult)
    requires Orderly(d, rows) && NoRepeats(nodes) && Backed(d, q, rows, mem)
    requires forall b :: b in nodes ==> b !in mem.state
    requires fan == Fan(d, rows, mem.state, mem.attempts, nodes, w, k) && fan.stop.None?
    ensures RanOn(d, rows, fan.rows, mem.state, nodes)
  {
    hide Repeatable, Perform, Fan, Project, Latest, Count, LastAttempt, HasJournaled;
    assert forall b :: b in nodes ==> Ready(rows, mem.attempts, b);
    forall m
      ensures !HasJournaled(fan.rows, m) && (m !in nodes ==> SameFor(rows, fan.rows, m))
      ensures m in nodes ==> Latest(fan.rows, m).Some? && Latest(fan.rows, m).value.inputs == Project(d, mem.state, m)
    {
      if m in nodes {
        FanRan(d, rows, mem.state, mem.attempts, nodes, w, k, m);
      } else {
        FanLeaves(d, rows, mem.state, mem.attempts, nodes, w, k, m);
      }
    }
  }

  lemma ForwardFresh(d: Definition, q: NodeId, depth: NodeId -> nat, rows: seq<Row>, mem: Memory, nodes: seq<NodeId>,
                     w: World, k: nat, fan: FanResult)
    requires WellFormed(d, q, depth) && Live(d, q, depth, rows, mem) && NoRepeats(nodes)
    requires forall b :: b in nodes ==> b !in mem.state && (b != q ==> Count(rows, b) == 0)
    requires QualityAlone(d, q) ==> q !in nodes
    requires fan == Fan(d, rows, mem.state, mem.attempts, nodes, w, k) && fan.stop.None?
    requires Durable(d, q, depth, fan.rows)
    ensures CoherenceConditions(d, q, depth) ==> q in mem.state || Fresh(q, fan.rows)
  {
    hide WellFormed, Durable, Live, Fan, Fresh, Backed, RanOn, Coherent, SentAlone, Orderly, NoRepeats;
    LiveParts(d, q, depth, rows, mem);
    LiveIsOrderly(d, q, depth, rows, mem);
    if CoherenceConditions(d, q, depth) && q !in mem.state {
      FanRanOn(d, q, rows, mem, nodes, w, k, fan);
      DurableIsCoherent(d, q, depth, fan.rows);
      FreshAfter(d, q, rows, fan.rows, mem.state, nodes);
    }
  }

  /** After a fan-out that returned, the merged memory is live wherever the walk may stand. */
  lemma FanLive(d: Definition, q: NodeId, depth: NodeId -> nat, rows: seq<Row>, mem: Memory, nodes: seq<NodeId>,
                w: World, k: nat, fan: FanResult, current: Option<NodeId>)
    requires WellFormed(d, q, depth) && Orderly(d, rows) && Backed(d, q, rows, mem)
    requires NoRepeats(nodes) && (forall b :: b in nodes ==> b !in mem.state && Count(rows, b) <= mem.rework)
    requires NothingElseRenewed(q, rows, mem.state, nodes)
    requires fan == Fan(d, rows, mem.state, mem.attempts, nodes, w, k) && fan.stop.None?
    requires Durable(d, q, depth, fan.rows)
    requires GateConditions(d, q, depth) ==>
      (q !in nodes && Placed(d, q, depth, rows, current)) || (current == Some(q) && HasRow(rows, q))
    requires CoherenceConditions(d, q, depth) ==> q in mem.state || Fresh(q, fan.rows)
    requires current.Some?
    ensures Live(d, q, depth, fan.rows,
                 mem.(state := mem.state + fan.results, attempts := Bump(mem.attempts, nodes), current := current))
  {
    hide WellFormed, Durable, Perform, Fan, Bump;
    FanBacked(d, q, rows, mem, nodes, w, k, fan);
    if GateConditions(d, q, depth) {
      FanPlaced(d, q, depth, rows, mem, nodes, w, k, fan, current);
    }
  }

  lemma FanPlaced(d: Definition, q: NodeId, depth: NodeId -> nat, rows: seq<Row>, mem: Memory, nodes: seq<NodeId>,
                  w: World, k: nat, fan: FanResult, current: Option<NodeId>)
    requires WellFormed(d, q, depth) && Orderly(d, rows) && Backed(d, q, rows, mem) && NoRepeats(nodes)
    requires fan == Fan(d, rows, mem.state, mem.attempts, nodes, w, k) && fan.stop.None?
    requires (q !in nodes && Placed(d, q, depth, rows, current)) || (current == Some(q) && HasRow(rows, q))
    ensures Placed(d, q, depth, fan.rows, current)
  {
    hide Perform, Fan;
    assert forall b :: b in nodes ==> Ready(rows, mem.attempts, b);
    if q !in nodes {
      FanLeaves(d, rows, mem.state, mem.attempts, nodes, w, k, q);
      if Placed(d, q, depth, rows, current) {
        PlacedSame(d, q, depth, rows, fan.rows, current);
      }
    } else {
      FanRan(d, rows, mem.state, mem.attempts, nodes, w, k, q);
    }
  }

  // ------------------------------------------------ rework

  ghost predicate Rejected(d: Definition, q: NodeId, rows: seq<Row>, mem: Memory) {
    && mem.current == Some(q) && q in mem.state && !mem.state[q].accept
    && mem.rework < d.maxRework
  }

  lemma PoppedBacked(d: Definition, q: NodeId, rows: seq<Row>, mem: Memory, targets: seq<NodeId>, signature: Signature)
    requires Backed(d, q, rows, mem) && Rejected(d, q, rows, mem) && OneRenewed(q, rows, mem)
    requires forall t :: t in targets ==> Repeatable(d, q, t)
    ensures Backed(d, q, rows, Popped(q, mem, targets, signature))
    ensures NothingElseRenewed(q, rows, Popped(q, mem, targets, signature).state, targets)
    ensures forall t :: t in targets ==> Count(rows, t) <= mem.rework + 1
    ensures !Accepted(rows, q) && HasRow(rows, q)
  {
    AcceptedHasRow(rows, q);
  }

  lemma TargetMayRun(d: Definition, q: NodeId, depth: NodeId -> nat, rows: seq<Row>, mem: Memory,
                     targets: seq<NodeId>, signature: Signature, t: NodeId)
    requires WellFormed(d, q, depth) && Live(d, q, depth, rows, mem) && Rejected(d, q, rows, mem)
    requires forall x :: x in targets ==> Repeatable(d, q, x)
    requires t in targets && (GateConditions(d, q, depth) ==> !Gated(d, q, t))
    requires CoherenceConditions(d, q, depth) ==> t != q && Sent(d, q, rows, t)
    ensures var popped := Popped(q, mem, targets, signature);
            MayRun(d, q, depth, rows, popped.state, popped.attempts, t)
  {
    hide WellFormed, Perform, Sent, Fresh, VerdictUnread, ReworkTakesReaders, SafeRoutes, QualityReworkedAlone, Gated;
    hide Orderly, Bounded, Judged, Coherent, Placed, Awaiting;
    var popped := Popped(q, mem, targets, signature);
    PoppedBacked(d, q, rows, mem, targets, signature);
    BackedFits(d, q, rows, popped, t);
    forall i | 0 <= i < |rows| ensures !Journaled(rows[i]) {
      assert !HasJournaled(rows, rows[i].node);
    }
  }

  lemma RejectSingle(d: Definition, q: NodeId, depth: NodeId -> nat, rows: seq<Row>, mem: Memory, t: NodeId,
                     signature: Signature)
    requires WellFormed(d, q, depth) && Live(d, q, depth, rows, mem) && Rejected(d, q, rows, mem)
    requires Repeatable(d, q, t) && (GateConditions(d, q, depth) ==> !Gated(d, q, t) && !Escapes(d, q, depth, t))
    requires CoherenceConditions(d, q, depth) ==> SentAlone(d, q, rows, t)
    ensures Live(d, q, depth, rows, Popped(q, mem, [t], signature).(current := Some(t)))
  {
    hide GateConditions, CoherenceConditions, Gated, Escapes, Hits, Repeatable, WellFormed, Durable, Awaiting;
    hide SentAlone, Placed, OneRenewed, NothingElseRenewed, Latest, Accepted, HasRow;
    LiveIsOrderly(d, q, depth, rows, mem);
    PoppedBacked(d, q, rows, mem, [t], signature);
    OnlyTargetRenewed(q, rows, Popped(q, mem, [t], signature), t);
    if GateConditions(d, q, depth) {
      PlacedAtTarget(d, q, depth, rows, t);
    }
    if CoherenceConditions(d, q, depth) {
      DurableIsJudged(d, q, depth, rows);
      PoppedAwaits(d, q, rows, mem, t, signature);
    }
  }

  lemma OnlyTargetRenewed(q: NodeId, rows: seq<Row>, popped: Memory, t: NodeId)
    requires NothingElseRenewed(q, rows, popped.state, [t])
    ensures OneRenewed(q, rows, popped.(current := Some(t)))
  {
  }

  lemma PlacedAtTarget(d: Definition, q: NodeId, depth: NodeId -> nat, rows: seq<Row>, t: NodeId)
    requires WellFormed(d, q, depth) && !Gated(d, q, t) && !Escapes(d, q, depth, t) && HasRow(rows, q)
    ensures Placed(d, q, depth, rows, Some(t))
  {
  }

  lemma PoppedAwaits(d: Definition, q: NodeId, rows: seq<Row>, mem: Memory, t: NodeId, signature: Signature)
    requires Judged(d, q, rows) && Coherent(d, q, rows) && Rejected(d, q, rows, mem) && OneRenewed(q, rows, mem)
    requires SentAlone(d, q, rows, t)
    ensures Awaiting(d, q, rows, Popped(q, mem, [t], signature).(current := Some(t)))
  {
    hide Judged, Coherent, Fresh, Sent, Count;
    AloneIsFresh(d, q, rows, t);
  }

  lemma DurableIsJudged(d: Definition, q: NodeId, depth: NodeId -> nat, rows: seq<Row>)
    requires WellFormed(d, q, depth) && Durable(d, q, depth, rows) && CoherenceConditions(d, q, depth)
    ensures Judged(d, q, rows) && Coherent(d, q, rows)
  {
  }

  /** Nothing but the one node sent back could be behind, and it does not read itself. */
  lemma AloneIsFresh(d: Definition, q: NodeId, rows: seq<Row>, t: NodeId)
    requires Judged(d, q, rows) && Coherent(d, q, rows) && forall m :: Sent(d, q, rows, m) ==> m == t
    ensures Fresh(q, rows)
  {
    hide Sent, Latest;
    forall x | x in rows && Standing(q, rows, x) ensures Fits(rows, x.inputs) {
      var i :| 0 <= i < |rows| && rows[i] == x;
      assert Tracked(d, rows, rows[i]);
      assert FitsBut(d, q, rows, x.node, x.inputs);
    }
  }

  /** What is sent back is what the engine works off. */
  lemma SentAre(d: Definition, q: NodeId, rows: seq<Row>, mem: Memory)
    requires Backed(d, q, rows, mem) && q in mem.state && !mem.state[q].accept
    requires Reworkable(NormaliseDefects(mem.state[q].defects))
    ensures forall n :: Sent(d, q, rows, n) <==> n in ReworkTargets(d, q, NormaliseDefects(mem.state[q].defects))
  {
    hide ReworkTargets, NormaliseDefects, Reworkable;
  }

  lemma RejectFan(d: Definition, q: NodeId, depth: NodeId -> nat, db: Db, mem: Memory, targets: seq<NodeId>,
                  signature: Signature, w: World, k: nat)
    requires WellFormed(d, q, depth) && Live(d, q, depth, db.rows, mem) && Rejected(d, q, db.rows, mem)
    requires NoRepeats(targets) && (forall t :: t in targets ==> IsReworkTarget(d, q, t))
    requires GateConditions(d, q, depth) ==> forall t :: t in targets ==> !Gated(d, q, t)
    requires VerdictConditions(d, q, depth) ==> q !in targets
    requires forall t :: Sent(d, q, db.rows, t) <==> t in targets
    ensures var m := FanOut(d, db, Popped(q, mem, targets, signature), targets, w, k);
            && Durable(d, q, depth, m.db.rows)
            && (m.Go? ==> Live(d, q, depth, m.db.rows, m.mem.(current := Some(q))))
  {
    hide WellFormed, Durable, Perform, Fan, MayRun, Placed, Live, Bump, NoRepeats, Orderly, GateConditions;
    hide VerdictUnread, ReworkTakesReaders, Sent, Fresh;
    var popped := Popped(q, mem, targets, signature);
    LiveParts(d, q, depth, db.rows, mem);
    LiveOneRenewed(d, q, depth, db.rows, mem);
    PoppedBacked(d, q, db.rows, mem, targets, signature);
    forall t | t in targets ensures MayRun(d, q, depth, db.rows, popped.state, popped.attempts, t) {
      TargetMayRun(d, q, depth, db.rows, mem, targets, signature, t);
    }
    FanKeeps(d, q, depth, db.rows, popped.state, popped.attempts, targets, w, k);
    var fan := Fan(d, db.rows, popped.state, popped.attempts, targets, w, k);
    if fan.stop.None? {
      if CoherenceConditions(d, q, depth) {
        FanRanOn(d, q, db.rows, popped, targets, w, k, fan);
        DurableIsCoherent(d, q, depth, fan.rows);
        FreshAfter(d, q, db.rows, fan.rows, popped.state, targets);
      }
      FanLive(d, q, depth, db.rows, popped, targets, w, k, fan, Some(q));
    }
  }

  lemma LiveOneRenewed(d: Definition, q: NodeId, depth: NodeId -> nat, rows: seq<Row>, mem: Memory)
    requires WellFormed(d, q, depth) && Live(d, q, depth, rows, mem)
    ensures OneRenewed(q, rows, mem)
  {
  }

  lemma NoQualityTarget(d: Definition, q: NodeId, depth: NodeId -> nat, defects: seq<Defect>)
    requires WellFormed(d, q, depth) && Reworkable(defects) && |ReworkTargets(d, q, defects)| > 1
    ensures VerdictConditions(d, q, depth) ==> q !in ReworkTargets(d, q, defects)
  {
  }

  lemma RejectKeeps(d: Definition, q: NodeId, depth: NodeId -> nat, db: Db, mem: Memory, w: World, k: nat)
    requires WellFormed(d, q, depth) && Live(d, q, depth, db.rows, mem)
    requires mem.current == Some(q) && q in mem.state && !mem.state[q].accept
    ensures var m := HandleRejection(d, q, db, mem, mem.state[q], w, k);
            && Durable(d, q, depth, m.db.rows)
            && (m.Go? ==> Live(d, q, depth, m.db.rows, m.mem))
  {
    hide GateConditions, Orderly, Backed, WellFormed, Durable, Perform, Fan, Placed, Live, FanOut, ReworkTargets;
    hide NormaliseDefects, SignatureOf, Reworkable, Escapes, Gated, CommonJoin;
    var defects := NormaliseDefects(mem.state[q].defects);
    var targets := ReworkTargets(d, q, defects);
    var signature := SignatureOf(defects);
    LiveParts(d, q, depth, db.rows, mem);
    if Reworkable(defects) && mem.rework < d.maxRework && targets != [] {
      assert forall t :: t in targets ==> IsReworkTarget(d, q, t);
      SentAre(d, q, db.rows, mem);
      RouteIsSafe(d, q, depth, defects);
      if |targets| == 1 {
        assert targets == [targets[0]];
        RejectSingle(d, q, depth, db.rows, mem, targets[0], signature);
      } else {
        NoQualityTarget(d, q, depth, defects);
        RejectFan(d, q, depth, db.(status := Running), mem, targets, signature, w, k);
      }
    }
  }

  lemma RouteIsSafe(d: Definition, q: NodeId, depth: NodeId -> nat, defects: seq<Defect>)
    requires WellFormed(d, q, depth) && Reworkable(defects)
    ensures GateConditions(d, q, depth) ==> SafeRoute(d, q, depth, ReworkTargets(d, q, defects))
  {
  }

  // ------------------------------------------------ rounds and claims

  lemma RoundKeeps(d: Definition, q: NodeId, depth: NodeId -> nat, db: Db, mem: Memory, w: World, k: nat)
    requires WellFormed(d, q, depth) && mem.current.Some? && Live(d, q, depth, db.rows, mem)
    ensures var m := Round(d, q, db, mem, w, k);
            && Durable(d, q, depth, m.db.rows)
            && (m.Go? ==> Live(d, q, depth, m.db.rows, m.mem))
  {
    hide WellFormed, Durable, Live, Visit, Forward, HandleRejection;
    LiveParts(d, q, depth, db.rows, mem);
    if w.boundary(k).Continue? {
      var n := mem.current.value;
      VisitKeeps(d, q, depth, db, mem, w, k);
      var v := Visit(d, db, mem, n, w, k);
      if v.Go? {
        if n == q && !v.mem.state[n].accept {
          RejectKeeps(d, q, depth, v.db, v.mem, w, k);
        } else {
          ForwardKeeps(d, q, depth, v.db, v.mem, n, if n == q then ACCEPT else None, w, k);
        }
      }
    }
  }

  /** A root that succeeded has an accepting latest verdict, unless its walk never
      meets the quality node and there is no verdict at all. */
  ghost predicate RootOk(d: Definition, q: NodeId, depth: NodeId -> nat, db: Db)
    requires WellFormed(d, q, depth)
  {
    && Durable(d, q, depth, db.rows)
    && (GateConditions(d, q, depth) && db.status == Succeeded && (HasRow(db.rows, q) || InitialHits(d, q, depth))
        ==> Accepted(db.rows, q))
  }

  /** A round that halts never marks the root succeeded. */
  lemma RoundNeverSucceeds(d: Definition, q: NodeId, db: Db, mem: Memory, w: World, k: nat)
    requires mem.current.Some? && db.status != Succeeded
    ensures Round(d, q, db, mem, w, k).db.status != Succeeded
  {
    hide HandleRejection, CommonJoin, Successors, Pending, Bump, Perform, Fan;
    if w.boundary(k).Continue? {
      var v := Visit(d, db, mem, mem.current.value, w, k);
      if v.Go? && mem.current.value == q && !v.mem.state[q].accept {
        RejectionNeverSucceeds(d, q, v.db, v.mem, v.mem.state[q], w, k);
      }
    }
  }

  lemma RejectionNeverSucceeds(d: Definition, q: NodeId, db: Db, mem: Memory, verdict: Output, w: World, k: nat)
    requires db.status != Succeeded
    ensures HandleRejection(d, q, db, mem, verdict, w, k).db.status != Succeeded
  {
    hide ReworkTargets, Popped, NormaliseDefects, SignatureOf, Reworkable, CommonJoin, Fan;
  }

  lemma {:induction false} LoopKeeps(d: Definition, q: NodeId, depth: NodeId -> nat, db: Db, mem: Memory, w: World,
                                     k: nat)
    requires WellFormed(d, q, depth) && Live(d, q, depth, db.rows, mem) && db.status != Succeeded
    ensures RootOk(d, q, depth, Loop(d, q, depth, db, mem, w, k))
    decreases RoundsLeft(d, mem), Position(depth, mem)
  {
    hide Round;
    if mem.current.Some? {
      RoundProgress(d, q, depth, db, mem, w, k);
      RoundKeeps(d, q, depth, db, mem, w, k);
      RoundNeverSucceeds(d, q, db, mem, w, k);
      var m := Round(d, q, db, mem, w, k);
      if m.Go? {
        LoopKeeps(d, q, depth, m.db, m.mem, w, k + 1);
      }
    }
  }

  // ------------------------------------------------ recovery

  lemma SettledRoom(d: Definition, q: NodeId, depth: NodeId -> nat, rows: seq<Row>, i: nat)
    requires WellFormed(d, q, depth) && Durable(d, q, depth, rows)
    requires i < |rows| && Journaled(rows[i])
    ensures Durable(d, q, depth, Put(rows, i, Settled(rows[i])))
  {
    hide WellFormed, Judged, Coherent, CoherenceRoom, Gated, GateConditions, QualityReworkedAlone, VerdictUnread;
    hide ReworkTakesReaders;
    var r := Settled(rows[i]);
    assert HasJournaled(rows, r.node) && HasRow(rows, r.node);
    if VerdictConditions(d, q, depth) {
      SettledVerdictRoom(d, q, depth, rows, i);
    }
    if CoherenceConditions(d, q, depth) {
      SettledCoherenceRoom(d, q, rows, i);
    }
    PutDurable(d, q, depth, rows, i, r);
  }

  lemma SettledCoherenceRoom(d: Definition, q: NodeId, rows: seq<Row>, i: nat)
    requires Coherent(d, q, rows) && i < |rows| && Journaled(rows[i])
    ensures CoherenceRoom(d, q, rows, Settled(rows[i]))
  {
    hide Sent, Latest;
    assert rows[i] in rows;
    if rows[i].node == q {
      assert HasJournaled(rows, q);
      forall x | x in rows && Standing(q, rows, x) ensures Fits(rows, x.inputs) {
        assert FitsBut(d, q, rows, x.node, x.inputs);
      }
    } else {
      assert Standing(q, rows, rows[i]);
    }
  }

  lemma SettledVerdictRoom(d: Definition, q: NodeId, depth: NodeId -> nat, rows: seq<Row>, i: nat)
    requires WellFormed(d, q, depth)
    requires Orderly(d, rows) && Bounded(d, q, rows) && Judged(d, q, rows)
    requires i < |rows| && Journaled(rows[i])
    ensures VerdictRoom(d, q, rows, Settled(rows[i]))
  {
    hide WellFormed;
    var n := rows[i].node;
    assert HasJournaled(rows, n);
    if Latest(rows, n).Some? {
      TwoBanked(rows, i, n);
    }
    assert Tracked(d, rows, rows[i]);
  }

  /** A journaled row besides a successful one makes two. */
  lemma {:induction false} TwoBanked(rows: seq<Row>, i: nat, n: NodeId)
    requires i < |rows| && rows[i].node == n && Journaled(rows[i]) && Latest(rows, n).Some?
    ensures Count(rows, n) >= 2
  {
    var front := rows[..|rows| - 1];
    var last := rows[|rows| - 1];
    if i == |rows| - 1 {
      LatestCounts(front, n);
    } else {
      assert front[i] == rows[i];
      if last.node == n && Won(last) {
        LatestCounts(front, n);
        assert HasJournaled(front, n);
        BankedCounts(front, i, n);
      } else {
        TwoBanked(front, i, n);
      }
    }
  }

  lemma {:induction false} BankedCounts(rows: seq<Row>, i: nat, n: NodeId)
    requires i < |rows| && rows[i].node == n && Banked(rows[i])
    ensures Count(rows, n) >= 1
  {
    if i < |rows| - 1 {
      BankedCounts(rows[..|rows| - 1], i, n);
    }
  }

  lemma {:induction false} SettleKeeps(d: Definition, q: NodeId, depth: NodeId -> nat, rows: seq<Row>, calls: seq<nat>)
    requires WellFormed(d, q, depth) && Durable(d, q, depth, rows)
    ensures Durable(d, q, depth, Settle(rows, calls))
    decreases |calls|
  {
    hide WellFormed, Durable, Settle;
    if calls == [] {
      SettleNothing(rows);
    } else {
      var front, i := calls[..|calls| - 1], calls[|calls| - 1];
      SettleKeeps(d, q, depth, rows, front);
      SettleStep(rows, front, i);
      assert front + [i] == calls;
      var s := Settle(rows, front);
      if i < |rows| && Journaled(s[i]) {
        SettledRoom(d, q, depth, s, i);
      }
    }
  }

  lemma SettledAll(rows: seq<Row>)
    ensures forall i :: 0 <= i < |SettleAll(rows)| ==> !Journaled(SettleAll(rows)[i])
  {
  }

  lemma {:induction false} TopAttemptCovers(d: Definition, rows: seq<Row>, n: NodeId)
    requires Orderly(d, rows)
    ensures LastAttempt(rows, n) <= TopAttempt(rows)
  {
    if rows != [] {
      OrderlyFront(d, rows);
      TopAttemptCovers(d, rows[..|rows| - 1], n);
    }
  }

  lemma RecoveredBacked(d: Definition, q: NodeId, rows: seq<Row>, start: NodeId)
    requires Orderly(d, rows) && (forall i :: 0 <= i < |rows| ==> !Journaled(rows[i]))
    ensures Backed(d, q, rows, FreshMemory(rows, start))
    ensures OneRenewed(q, rows, FreshMemory(rows, start))
  {
    forall n
      ensures LastAttempt(rows, n) <= AttemptsOf(RecoveredAttempts(rows), n) && !HasJournaled(rows, n)
      ensures n in RecoveredState(rows) ==>
        Latest(rows, n).Some? && Latest(rows, n).value.output == RecoveredState(rows)[n]
          && Count(rows, n) <= RecoveredRework(rows) + 1
      ensures n !in RecoveredState(rows) ==> Count(rows, n) == 0
    {
      LatestCounts(rows, n);
      LastAttemptBounds(d, rows, n);
      TopAttemptCovers(d, rows, n);
      if n !in NodesOf(rows) {
        NothingAfter(rows, n);
      }
      if Latest(rows, n).Some? {
        AcceptedHasRow(rows, n);
      }
    }
  }

  lemma RecoveredPlaced(d: Definition, q: NodeId, depth: NodeId -> nat, rows: seq<Row>)
    requires WellFormed(d, q, depth) && GateClosed(d, q, depth, rows) && InitialNodes(d) != []
    ensures Placed(d, q, depth, rows, Some(InitialNodes(d)[0]))
  {
    var start := InitialNodes(d)[0];
    InitialIsFree(d, q);
    HitsOrEscapes(d, q, depth, start);
  }

  lemma {:induction false} ClaimKeeps(d: Definition, q: NodeId, depth: NodeId -> nat, db: Db, w: World)
    requires WellFormed(d, q, depth) && RootOk(d, q, depth, db)
    ensures RootOk(d, q, depth, Claimed(d, q, depth, db, w))
  {
    hide Settle, AllRows, Durable, InitialNodes, WellFormed, Loop, FreshMemory;
    if !IsTerminal(db.status) && db.status != Cancelling && !w.recovery.RecoveryDies? {
      if w.recovery.RecoveryFails? {
        SettleKeeps(d, q, depth, db.rows, w.recovery.calls);
      } else {
        var rows := SettleAll(db.rows);
        SettleKeeps(d, q, depth, db.rows, AllRows(db.rows));
        SettledAll(db.rows);
        if |InitialNodes(d)| == 1 {
          RecoveredLive(d, q, depth, rows);
          LoopKeeps(d, q, depth, Db(rows, Running), FreshMemory(rows, InitialNodes(d)[0]), w, 0);
        }
      }
    }
  }

  lemma RecoveredLive(d: Definition, q: NodeId, depth: NodeId -> nat, rows: seq<Row>)
    requires WellFormed(d, q, depth) && Durable(d, q, depth, rows) && InitialNodes(d) != []
    requires forall i :: 0 <= i < |rows| ==> !Journaled(rows[i])
    ensures Live(d, q, depth, rows, FreshMemory(rows, InitialNodes(d)[0]))
  {
    hide WellFormed, FreshMemory, OneRenewed, Backed, Placed, Awaiting, CoherenceConditions, VerdictConditions;
    hide SafeRoutes, QualityAlone, InitialNodes, Bounded, Judged, Coherent, GateClosed;
    RecoveredBacked(d, q, rows, InitialNodes(d)[0]);
    if GateConditions(d, q, depth) {
      RecoveredPlaced(d, q, depth, rows);
    }
    if CoherenceConditions(d, q, depth) {
      DurableIsJudged(d, q, depth, rows);
      RecoveredAwaits(d, q, rows, InitialNodes(d)[0]);
    }
    assert FreshMemory(rows, InitialNodes(d)[0]).current == Some(InitialNodes(d)[0])
      by { StartsAt(rows, InitialNodes(d)[0]); }
  }

  lemma StartsAt(rows: seq<Row>, start: NodeId)
    ensures FreshMemory(rows, start).current == Some(start)
  {
  }

  /** What a node's latest success left is in the memory again, a verdict too. */
  lemma RecoveredAwaits(d: Definition, q: NodeId, rows: seq<Row>, start: NodeId)
    requires Judged(d, q, rows) && Coherent(d, q, rows) && forall i :: 0 <= i < |rows| ==> !Journaled(rows[i])
    ensures Awaiting(d, q, rows, FreshMemory(rows, start))
  {
    hide Judged, Coherent, Fresh, Latest, Count;
    forall n | n !in RecoveredState(rows) ensures Count(rows, n) == 0 && Latest(rows, n).None? {
      LatestCounts(rows, n);
      if Latest(rows, n).Some? {
        AcceptedHasRow(rows, n);
      }
    }
    if q !in RecoveredState(rows) {
      AloneIsFresh(d, q, rows, q);
    }
  }

  lemma NewRootOk(d: Definition, q: NodeId, depth: NodeId -> nat)
    requires WellFormed(d, q, depth)
    ensures RootOk(d, q, depth, NewRoot)
  {
  }

  lemma {:induction false} RunKeeps(d: Definition, q: NodeId, depth: NodeId -> nat, episodes: seq<Episode>)
    requires WellFormed(d, q, depth)
    ensures RootOk(d, q, depth, After(d, q, depth, NewRoot, episodes))
    decreases |episodes|
  {
    hide WellFormed, Claimed;
    if episodes == [] {
      NewRootOk(d, q, depth);
    } else {
      RunKeeps(d, q, depth, episodes[..|episodes| - 1]);
      var earlier := After(d, q, depth, NewRoot, episodes[..|episodes| - 1]);
      if episodes[|episodes| - 1].ByEngine? {
        ClaimKeeps(d, q, depth, earlier, episodes[|episodes| - 1].world);
      }
    }
  }

  // ------------------------------------------------ main results

  /** Bounded rework: over any number of crashes, claims and control moves, no
      node succeeds more than `maxRework + 1` times, and a node no verdict can
      send back succeeds at most once. */
  lemma {:induction false} BoundedRework(d: Definition, q: NodeId, depth: NodeId -> nat, episodes: seq<Episode>,
                                         n: NodeId)
    requires WellFormed(d, q, depth)
    ensures var rows := After(d, q, depth, NewRoot, episodes).rows;
            && Successes(rows, n) <= d.maxRework + 1
            && (n != q && !IsReworkTarget(d, q, n) ==> Successes(rows, n) <= 1)
  {
    RunKeeps(d, q, depth, episodes);
    LastAttemptBounds(d, After(d, q, depth, NewRoot, episodes).rows, n);
  }

  /** Quality gate: unless the latest verdict accepts, no node behind the quality
      node has ever been attempted, and no root has succeeded whose walk meets the
      quality node or that has any verdict. */
  lemma {:induction false} QualityGate(d: Definition, q: NodeId, depth: NodeId -> nat, episodes: seq<Episode>,
                                       n: NodeId)
    requires WellFormed(d, q, depth) && QualityAlone(d, q) && SafeRoutes(d, q, depth)
    ensures var db := After(d, q, depth, NewRoot, episodes);
            && (Gated(d, q, n) && HasRow(db.rows, n) ==> Accepted(db.rows, q))
            && (db.status == Succeeded && (HasRow(db.rows, q) || InitialHits(d, q, depth)) ==> Accepted(db.rows, q))
  {
    RunKeeps(d, q, depth, episodes);
  }

  /** An accepting latest verdict was computed from exactly the latest outputs of
      the sources it was given, across any crashes. */
  lemma {:induction false} VerdictIsCurrent(d: Definition, q: NodeId, depth: NodeId -> nat, episodes: seq<Episode>)
    requires WellFormed(d, q, depth) && QualityAlone(d, q) && QualityReworkedAlone(d, q)
    ensures var rows := After(d, q, depth, NewRoot, episodes).rows;
            Accepted(rows, q) ==> Fits(rows, Latest(rows, q).value.inputs)
  {
    RunKeeps(d, q, depth, episodes);
  }

  /** Coherence: once the latest verdict accepts, every node's latest output,
      the verdict included, was computed from exactly the latest outputs of the
      sources it was given, across any crashes. */
  lemma {:induction false} AcceptedIsCoherent(d: Definition, q: NodeId, depth: NodeId -> nat, episodes: seq<Episode>,
                                              n: NodeId)
    requires WellFormed(d, q, depth) && QualityAlone(d, q) && SafeRoutes(d, q, depth)
    requires QualityReworkedAlone(d, q) && VerdictUnread(d, q) && ReworkTakesReaders(d, q)
    ensures var rows := After(d, q, depth, NewRoot, episodes).rows;
            Accepted(rows, q) && Latest(rows, n).Some? ==> Fits(rows, Latest(rows, n).value.inputs)
  {
    hide After, VerdictUnread, ReworkTakesReaders, Latest, Judged, Coherent, SafeRoutes;
    RunKeeps(d, q, depth, episodes);
    var rows := After(d, q, depth, NewRoot, episodes).rows;
    if Accepted(rows, q) && Latest(rows, n).Some? {
      AcceptedFits(d, q, rows, n);
    }
  }

  lemma AcceptedFits(d: Definition, q: NodeId, rows: seq<Row>, n: NodeId)
    requires Judged(d, q, rows) && Coherent(d, q, rows) && Accepted(rows, q) && Latest(rows, n).Some?
    ensures Fits(rows, Latest(rows, n).value.inputs)
  {
    hide Latest, Tracked;
    LatestInRows(rows, n);
    var x := Latest(rows, n).value;
    if n != q {
      assert Standing(q, rows, x);
      assert FitsBut(d, q, rows, n, x.inputs);
    }
  }
}
