/** The verdict misses nothing: every attempt of the quality node is given the
    output of each of its sources that the walk runs, across any crashes, unless
    verdicts send it back as one of several. */
module EngineCompleteness {
  import opened Options
  import opened Walks
  import opened Lifecycle
  import opened WorkflowDefinitions
  import opened StepRows
  import opened EngineSpec
  import opened EngineInvariants
  import opened EngineStaleness
  import EngineSafety
  import EngineExactness

  ghost predicate Conditions(d: Definition, q: NodeId, depth: NodeId -> nat)
    requires WellFormed(d, q, depth)
  {
    QualityAlone(d, q) && QualityReworkedAlone(d, q) && InitialHits(d, q, depth)
  }

  /** A source of the quality node that the walk from the initial node runs. */
  ghost predicate Feeds(d: Definition, q: NodeId, depth: NodeId -> nat, s: NodeId)
    requires WellFormed(d, q, depth) && Conditions(d, q, depth)
  {
    s in InputSources(d, q) && Runs(d, q, depth, InitialNodes(d)[0], s)
  }

  ghost predicate Complete(d: Definition, q: NodeId, depth: NodeId -> nat, r: Row)
    requires WellFormed(d, q, depth) && Conditions(d, q, depth)
  {
    r.node == q ==> forall s :: Feeds(d, q, depth, s) ==> s in r.inputs
  }

  ghost predicate AllComplete(d: Definition, q: NodeId, depth: NodeId -> nat, rows: seq<Row>)
    requires WellFormed(d, q, depth) && Conditions(d, q, depth)
  {
    forall i :: 0 <= i < |rows| ==> Complete(d, q, depth, rows[i])
  }

  /** On a walk that still hits the quality node, what the walk from the initial
      node runs is in the memory or still ahead. */
  ghost predicate Gathered(d: Definition, q: NodeId, depth: NodeId -> nat, state: map<NodeId, Output>,
                           current: Option<NodeId>)
    requires WellFormed(d, q, depth) && Conditions(d, q, depth)
  {
    current.Some? && Hits(d, q, depth, current.value) ==>
      forall m :: Runs(d, q, depth, InitialNodes(d)[0], m) ==> m in state || Runs(d, q, depth, current.value, m)
  }

  lemma {:induction false} HitsFromAbove(d: Definition, q: NodeId, depth: NodeId -> nat, n: NodeId)
    requires WellFormed(d, q, depth) && Hits(d, q, depth, n)
    ensures depth(n) >= depth(q)
    decreases depth(n)
  {
    hide WellFormed, NextHop;
    if n != q {
      NextHopLower(d, q, depth, n);
      HitsFromAbove(d, q, depth, NextHop(d, n).node);
    }
  }

  /** The walk to the quality node does not run the quality node on the way. */
  lemma {:induction false} NeverRunsQuality(d: Definition, q: NodeId, depth: NodeId -> nat, n: NodeId)
    requires WellFormed(d, q, depth) && QualityAlone(d, q) && Hits(d, q, depth, n)
    ensures !Runs(d, q, depth, n, q)
    decreases depth(n)
  {
    hide WellFormed, QualityAlone, NextHop, Successors;
    if n != q {
      NextHopLower(d, q, depth, n);
      NeverRunsQuality(d, q, depth, NextHop(d, n).node);
      if |Successors(d, n, None)| > 1 {
        EngineSafety.QualityNotAmong(d, q, depth, n, None);
      }
    }
  }

  // ------------------------------------------------ the rows

  lemma QualityIsSkill(d: Definition, q: NodeId, depth: NodeId -> nat)
    requires WellFormed(d, q, depth)
    ensures IsSkill(d, q)
  {
  }

  lemma PerformComplete(d: Definition, q: NodeId, depth: NodeId -> nat, rows: seq<Row>, state: map<NodeId, Output>,
                        n: NodeId, attempt: nat, o: Outcome)
    requires WellFormed(d, q, depth) && Conditions(d, q, depth) && AllComplete(d, q, depth, rows)
    requires n == q ==> forall s :: Feeds(d, q, depth, s) ==> s in state
    ensures AllComplete(d, q, depth, Perform(d, rows, state, n, attempt, o))
  {
    hide WellFormed, Conditions, Runs, InputSources, LastUnfinished, Feeds;
    QualityIsSkill(d, q, depth);
    var r := WrittenRow(d, rows, state, n, attempt, o);
    if r.Some? {
      var i := RowIndex(d, rows, n);
      assert r.value.node == n && r.value.inputs == Project(d, state, n);
      if n == q {
        FeedsProject(d, q, depth, state);
      }
      PutComplete(d, q, depth, rows, i, r.value);
    }
  }

  lemma FeedsProject(d: Definition, q: NodeId, depth: NodeId -> nat, state: map<NodeId, Output>)
    requires WellFormed(d, q, depth) && Conditions(d, q, depth)
    requires forall s :: Feeds(d, q, depth, s) ==> s in state
    ensures forall s :: Feeds(d, q, depth, s) ==> s in Project(d, state, q)
  {
    hide WellFormed, Conditions, Runs, InputSources;
  }

  lemma PutComplete(d: Definition, q: NodeId, depth: NodeId -> nat, rows: seq<Row>, i: nat, r: Row)
    requires WellFormed(d, q, depth) && Conditions(d, q, depth) && AllComplete(d, q, depth, rows) && i <= |rows|
    requires Complete(d, q, depth, r)
    ensures AllComplete(d, q, depth, Put(rows, i, r))
  {
    hide WellFormed, Conditions, Complete;
    var put := Put(rows, i, r);
    assert forall j :: 0 <= j < |rows| && j != i ==> put[j] == rows[j];
  }

  lemma {:induction false} FanComplete(d: Definition, q: NodeId, depth: NodeId -> nat, rows: seq<Row>,
                                       state: map<NodeId, Output>, attempts: map<NodeId, nat>,
                                       nodes: seq<NodeId>, w: World, k: nat)
    requires WellFormed(d, q, depth) && Conditions(d, q, depth) && AllComplete(d, q, depth, rows) && q !in nodes
    ensures var fan := Fan(d, rows, state, attempts, nodes, w, k);
            AllComplete(d, q, depth, fan.rows) && (fan.stop.None? ==> forall n :: n in nodes ==> n in fan.results)
    decreases |nodes|
  {
    hide WellFormed, Conditions, AllComplete, Perform;
    if nodes != [] {
      var n := nodes[0];
      assert nodes == [n] + nodes[1..];
      var o := w.outcome(2 * k + 1, n);
      PerformComplete(d, q, depth, rows, state, n, AttemptsOf(attempts, n) + 1, o);
      FanComplete(d, q, depth, Perform(d, rows, state, n, AttemptsOf(attempts, n) + 1, o), state, attempts,
          nodes[1..], w, k);
    }
  }

  lemma FanOutComplete(d: Definition, q: NodeId, depth: NodeId -> nat, db: Db, mem: Memory, nodes: seq<NodeId>,
                       w: World, k: nat)
    requires WellFormed(d, q, depth) && Conditions(d, q, depth) && AllComplete(d, q, depth, db.rows) && q !in nodes
    ensures var m := FanOut(d, db, mem, nodes, w, k);
            && AllComplete(d, q, depth, m.db.rows)
            && (m.Go? ==> m.mem.current == mem.current && forall n :: n in mem.state || n in nodes ==> n in m.mem.state)
  {
    hide WellFormed, Conditions, AllComplete, Fan;
    FanComplete(d, q, depth, db.rows, mem.state, mem.attempts, nodes, w, k);
  }

  // ------------------------------------------------ one round

  lemma VisitComplete(d: Definition, q: NodeId, depth: NodeId -> nat, db: Db, mem: Memory, n: NodeId, w: World, k: nat)
    requires WellFormed(d, q, depth) && Conditions(d, q, depth) && AllComplete(d, q, depth, db.rows)
    requires mem.current == Some(n) && Gathered(d, q, depth, mem.state, mem.current)
    ensures var m := Visit(d, db, mem, n, w, k);
            && AllComplete(d, q, depth, m.db.rows)
            && (m.Go? ==> m.mem.current == mem.current && (forall x :: x in m.mem.state <==> x in mem.state || x == n))
  {
    hide WellFormed, AllComplete, Perform, Conditions, InputSources;
    if n == q {
      GatheredAtQuality(d, q, depth, mem.state);
    }
    if n !in mem.state {
      PerformComplete(d, q, depth, db.rows, mem.state, n, AttemptsOf(mem.attempts, n) + 1, w.outcome(2 * k, n));
    }
  }

  lemma GatheredAtQuality(d: Definition, q: NodeId, depth: NodeId -> nat, state: map<NodeId, Output>)
    requires WellFormed(d, q, depth) && Conditions(d, q, depth) && Gathered(d, q, depth, state, Some(q))
    ensures forall s :: Runs(d, q, depth, InitialNodes(d)[0], s) ==> s in state
    ensures forall s :: Feeds(d, q, depth, s) ==> s in state
  {
  }

  lemma ForwardComplete(d: Definition, q: NodeId, depth: NodeId -> nat, db: Db, mem: Memory, n: NodeId,
                        c: Option<string>, w: World, k: nat)
    requires WellFormed(d, q, depth) && Conditions(d, q, depth) && AllComplete(d, q, depth, db.rows)
    requires mem.current == Some(n) && n in mem.state && (n == q ==> c == ACCEPT) && (n != q ==> c == None)
    requires n != q && Hits(d, q, depth, n) ==> Gathered(d, q, depth, mem.state, mem.current)
    ensures var m := Forward(d, db, mem, n, c, w, k);
            && AllComplete(d, q, depth, m.db.rows)
            && (m.Go? ==> Gathered(d, q, depth, m.mem.state, m.mem.current))
  {
    hide WellFormed, AllComplete, Gathered, FanOut, CommonJoin, Successors, Conditions, Hits;
    var next := Successors(d, n, c);
    assert QualityAlone(d, q) by { ConditionsAlone(d, q, depth); }
    var m := Forward(d, db, mem, n, c, w, k);
    if |next| > 1 {
      EngineSafety.QualityNotAmong(d, q, depth, n, c);
      var nodes := Pending(mem.state, next);
      FanOutComplete(d, q, depth, db, mem, nodes, w, k);
    }
    if m.Go? && n != q {
      OnwardGathered(d, q, depth, mem.state, n, m.mem.state, m.mem.current);
    } else if m.Go? {
      BehindGathered(d, q, depth, m.mem.state, m.mem.current, next);
    }
  }

  lemma ConditionsAlone(d: Definition, q: NodeId, depth: NodeId -> nat)
    requires WellFormed(d, q, depth) && Conditions(d, q, depth)
    ensures QualityAlone(d, q) && QualityReworkedAlone(d, q) && InitialHits(d, q, depth)
  {
  }

  /** One hop nearer to the quality node, the node and its branches are gathered. */
  lemma OnwardGathered(d: Definition, q: NodeId, depth: NodeId -> nat, state: map<NodeId, Output>, n: NodeId,
                       after: map<NodeId, Output>, current: Option<NodeId>)
    requires WellFormed(d, q, depth) && Conditions(d, q, depth) && n != q && n in after
    requires Hits(d, q, depth, n) ==> Gathered(d, q, depth, state, Some(n))
    requires (forall x :: x in state ==> x in after) && (forall b :: b in Branches(d, n) ==> b in after)
    requires current.Some? ==> NextHop(d, n) == To(current.value)
    ensures Gathered(d, q, depth, after, current)
  {
    hide WellFormed, Conditions, NextHop, Branches;
    NextHopLower(d, q, depth, n);
  }

  /** Behind the gate no walk hits the quality node again. */
  lemma BehindGathered(d: Definition, q: NodeId, depth: NodeId -> nat, after: map<NodeId, Output>,
                       current: Option<NodeId>, next: seq<NodeId>)
    requires WellFormed(d, q, depth) && Conditions(d, q, depth) && next == Successors(d, q, ACCEPT)
    requires current.Some? ==> current.value in next || (next != [] && current.value in Successors(d, next[0], None))
    ensures Gathered(d, q, depth, after, current)
  {
    hide WellFormed, Conditions, Successors;
    if current.Some? && Hits(d, q, depth, current.value) {
      HitsFromAbove(d, q, depth, current.value);
      if current.value in next {
        SuccessorIsKnownAndLower(d, q, depth, q, ACCEPT, current.value);
      } else {
        SuccessorIsKnownAndLower(d, q, depth, q, ACCEPT, next[0]);
        SuccessorIsKnownAndLower(d, q, depth, next[0], None, current.value);
      }
    }
  }

  lemma RejectComplete(d: Definition, q: NodeId, depth: NodeId -> nat, db: Db, mem: Memory, w: World, k: nat)
    requires WellFormed(d, q, depth) && Conditions(d, q, depth) && AllComplete(d, q, depth, db.rows)
    requires mem.current == Some(q) && q in mem.state
    requires forall s :: Runs(d, q, depth, InitialNodes(d)[0], s) ==> s in mem.state
    ensures var m := HandleRejection(d, q, db, mem, mem.state[q], w, k);
            && AllComplete(d, q, depth, m.db.rows)
            && (m.Go? ==> Gathered(d, q, depth, m.mem.state, m.mem.current))
  {
    hide WellFormed, AllComplete, Gathered, FanOut, CommonJoin, ReworkTargets, NormaliseDefects, SignatureOf;
    hide Conditions, Hits, Runs, Reworkable;
    var defects := NormaliseDefects(mem.state[q].defects);
    var targets := ReworkTargets(d, q, defects);
    var signature := SignatureOf(defects);
    var popped := Popped(q, mem, targets, signature);
    if Reworkable(defects) {
      if |targets| > 1 {
        NotSentBack(d, q, depth, defects);
      }
      if |targets| == 1 {
        SingleGathered(d, q, depth, mem, targets[0], popped.state);
      } else if targets != [] {
        FanOutComplete(d, q, depth, db.(status := Running), popped, targets, w, k);
        var m := FanOut(d, db.(status := Running), popped, targets, w, k);
        if m.Go? {
          AllGathered(d, q, depth, mem, targets, m.mem.state);
        }
      }
    }
  }

  lemma NotSentBack(d: Definition, q: NodeId, depth: NodeId -> nat, defects: seq<Defect>)
    requires WellFormed(d, q, depth) && Conditions(d, q, depth) && Reworkable(defects)
    requires |ReworkTargets(d, q, defects)| > 1
    ensures q !in ReworkTargets(d, q, defects)
  {
  }

  lemma SingleGathered(d: Definition, q: NodeId, depth: NodeId -> nat, mem: Memory, t: NodeId,
                       after: map<NodeId, Output>)
    requires WellFormed(d, q, depth) && Conditions(d, q, depth)
    requires forall s :: Runs(d, q, depth, InitialNodes(d)[0], s) ==> s in mem.state
    requires forall n :: n in mem.state && n != q && n != t ==> n in after
    ensures Gathered(d, q, depth, after, Some(t))
  {
    hide WellFormed, Branches, NextHop;
    NeverRunsQuality(d, q, depth, InitialNodes(d)[0]);
    if t != q && Hits(d, q, depth, t) {
      RunsSelf(d, q, depth, t);
    }
  }

  lemma AllGathered(d: Definition, q: NodeId, depth: NodeId -> nat, mem: Memory, targets: seq<NodeId>,
                    after: map<NodeId, Output>)
    requires WellFormed(d, q, depth) && Conditions(d, q, depth)
    requires forall s :: Runs(d, q, depth, InitialNodes(d)[0], s) ==> s in mem.state
    requires forall n :: (n in mem.state && n != q && n !in targets) || n in targets ==> n in after
    ensures Gathered(d, q, depth, after, Some(q))
  {
    hide WellFormed, Runs;
    NeverRunsQuality(d, q, depth, InitialNodes(d)[0]);
  }

  lemma RoundComplete(d: Definition, q: NodeId, depth: NodeId -> nat, db: Db, mem: Memory, w: World, k: nat)
    requires WellFormed(d, q, depth) && Conditions(d, q, depth) && AllComplete(d, q, depth, db.rows)
    requires mem.current.Some? && Gathered(d, q, depth, mem.state, mem.current)
    ensures var m := Round(d, q, db, mem, w, k);
            && AllComplete(d, q, depth, m.db.rows)
            && (m.Go? ==> Gathered(d, q, depth, m.mem.state, m.mem.current))
  {
    hide WellFormed, AllComplete, Visit, Forward, HandleRejection, Conditions;
    if w.boundary(k).Continue? {
      var n := mem.current.value;
      VisitComplete(d, q, depth, db, mem, n, w, k);
      VisitKeepsCounters(d, db, mem, n, w, k);
      var v := Visit(d, db, mem, n, w, k);
      if v.Go? {
        GatheredGrows(d, q, depth, mem.state, v.mem.state, mem.current);
        if n == q && !v.mem.state[q].accept {
          GatheredAtQuality(d, q, depth, v.mem.state);
          RejectComplete(d, q, depth, v.db, v.mem, w, k);
        } else {
          ForwardComplete(d, q, depth, v.db, v.mem, n, if n == q then ACCEPT else None, w, k);
        }
      }
    }
  }

  lemma GatheredGrows(d: Definition, q: NodeId, depth: NodeId -> nat, state: map<NodeId, Output>,
                      after: map<NodeId, Output>, current: Option<NodeId>)
    requires WellFormed(d, q, depth) && Conditions(d, q, depth) && Gathered(d, q, depth, state, current)
    requires forall n :: n in state ==> n in after
    ensures Gathered(d, q, depth, after, current)
  {
    hide WellFormed, Conditions, Runs, Hits;
  }

  // ------------------------------------------------ whole runs

  lemma {:induction false} LoopComplete(d: Definition, q: NodeId, depth: NodeId -> nat, db: Db, mem: Memory, w: World,
                                        k: nat)
    requires WellFormed(d, q, depth) && Conditions(d, q, depth) && AllComplete(d, q, depth, db.rows)
    requires Gathered(d, q, depth, mem.state, mem.current)
    ensures AllComplete(d, q, depth, Loop(d, q, depth, db, mem, w, k).rows)
    decreases RoundsLeft(d, mem), Position(depth, mem)
  {
    hide WellFormed, AllComplete, Gathered, Round, Conditions;
    if mem.current.Some? {
      RoundComplete(d, q, depth, db, mem, w, k);
      RoundProgress(d, q, depth, db, mem, w, k);
      var m := Round(d, q, db, mem, w, k);
      if m.Go? {
        LoopComplete(d, q, depth, m.db, m.mem, w, k + 1);
      }
    }
  }

  lemma SettleComplete(d: Definition, q: NodeId, depth: NodeId -> nat, rows: seq<Row>, calls: seq<nat>)
    requires WellFormed(d, q, depth) && Conditions(d, q, depth) && AllComplete(d, q, depth, rows)
    ensures AllComplete(d, q, depth, Settle(rows, calls))
  {
    hide WellFormed, Conditions, Feeds;
    forall i | 0 <= i < |rows| ensures Complete(d, q, depth, Settle(rows, calls)[i]) {
      assert Complete(d, q, depth, rows[i]);
    }
  }

  lemma ClaimComplete(d: Definition, q: NodeId, depth: NodeId -> nat, db: Db, w: World)
    requires WellFormed(d, q, depth) && Conditions(d, q, depth) && AllComplete(d, q, depth, db.rows)
    ensures AllComplete(d, q, depth, Claimed(d, q, depth, db, w).rows)
  {
    hide WellFormed, AllComplete, Settle, AllRows, Loop, FreshMemory, InitialNodes, Conditions;
    if w.recovery.RecoveryFails? {
      SettleComplete(d, q, depth, db.rows, w.recovery.calls);
    } else {
      var rows := SettleAll(db.rows);
      SettleComplete(d, q, depth, db.rows, AllRows(db.rows));
      if |InitialNodes(d)| == 1 {
        FreshGathered(d, q, depth, rows);
        LoopComplete(d, q, depth, Db(rows, Running), FreshMemory(rows, InitialNodes(d)[0]), w, 0);
      }
    }
  }

  lemma FreshGathered(d: Definition, q: NodeId, depth: NodeId -> nat, rows: seq<Row>)
    requires WellFormed(d, q, depth) && Conditions(d, q, depth) && InitialNodes(d) != []
    ensures var mem := FreshMemory(rows, InitialNodes(d)[0]);
            Gathered(d, q, depth, mem.state, mem.current)
  {
  }

  lemma {:induction false} RunComplete(d: Definition, q: NodeId, depth: NodeId -> nat, episodes: seq<Episode>)
    requires WellFormed(d, q, depth) && Conditions(d, q, depth)
    ensures AllComplete(d, q, depth, After(d, q, depth, NewRoot, episodes).rows)
    decreases |episodes|
  {
    hide WellFormed, AllComplete, Claimed, Conditions;
    if episodes == [] {
      NoneComplete(d, q, depth);
    } else {
      RunComplete(d, q, depth, episodes[..|episodes| - 1]);
      if episodes[|episodes| - 1].ByEngine? {
        ClaimComplete(d, q, depth, After(d, q, depth, NewRoot, episodes[..|episodes| - 1]),
            episodes[|episodes| - 1].world);
      }
    }
  }

  lemma NoneComplete(d: Definition, q: NodeId, depth: NodeId -> nat)
    requires WellFormed(d, q, depth) && Conditions(d, q, depth)
    ensures AllComplete(d, q, depth, [])
  {
  }

  /** An accepting latest verdict was given exactly the latest output of `s`. */
  ghost predicate Saw(q: NodeId, rows: seq<Row>, s: NodeId) {
    Accepted(rows, q) ==>
      && Latest(rows, s).Some? && s in Latest(rows, q).value.inputs
      && Latest(rows, q).value.inputs[s] == Latest(rows, s).value.output
  }

  /** Main result: an accepting latest verdict was given, for each source of the
      quality node that the walk runs, exactly that source's latest output: no
      later success of a source exists, and none was missing, across any crashes
      and whatever else reads what a rework renews. */
  lemma {:induction false} VerdictSawLatest(d: Definition, q: NodeId, depth: NodeId -> nat, episodes: seq<Episode>,
                                            s: NodeId)
    requires WellFormed(d, q, depth) && QualityAlone(d, q) && QualityReworkedAlone(d, q) && InitialHits(d, q, depth)
    requires s in InputSources(d, q) && Runs(d, q, depth, InitialNodes(d)[0], s)
    ensures Saw(q, After(d, q, depth, NewRoot, episodes).rows, s)
  {
    hide WellFormed, QualityAlone, QualityReworkedAlone, After, Latest, Runs, InputSources, InitialHits, InitialNodes;
    hide Hits, Gated;
    assert Conditions(d, q, depth);
    RunComplete(d, q, depth, episodes);
    EngineSafety.VerdictIsCurrent(d, q, depth, episodes);
    var rows := After(d, q, depth, NewRoot, episodes).rows;
    if Accepted(rows, q) {
      var i :| 0 <= i < |rows| && rows[i] == Latest(rows, q).value;
      assert Complete(d, q, depth, rows[i]) && Feeds(d, q, depth, s);
    }
  }

  // ------------------------------------------------ the quality node among others

  /** What a branch returned is its result. */
  lemma {:induction false} BranchResult(d: Definition, rows: seq<Row>, state: map<NodeId, Output>,
                                        attempts: map<NodeId, nat>, nodes: seq<NodeId>, w: World, k: nat, n: NodeId)
    requires n in nodes && w.outcome(2 * k + 1, n).Returns?
    ensures var fan := Fan(d, rows, state, attempts, nodes, w, k);
            n in fan.results && fan.results[n] == w.outcome(2 * k + 1, n).out
    decreases |nodes|
  {
    hide Perform;
    var m := nodes[0];
    var next := Perform(d, rows, state, m, AttemptsOf(attempts, m) + 1, w.outcome(2 * k + 1, m));
    if n in nodes[1..] {
      BranchResult(d, next, state, attempts, nodes[1..], w, k, n);
    }
  }

  /** What the rejecting round fans out from: the verdict and its targets are gone. */
  ghost function Dropped(d: Definition, q: NodeId, db: Db, mem: Memory, defects: seq<Defect>, w: World,
                         k: nat): Memory {
    var v := Visit(d, db, mem, q, w, k);
    if v.Go? then Popped(q, v.mem, ReworkTargets(d, q, defects), SignatureOf(defects)) else mem
  }

  /** Branches among which the quality node is have no join: the root fails. */
  lemma FailsBeside(d: Definition, q: NodeId, depth: NodeId -> nat, db: Db, mem: Memory, defects: seq<Defect>,
                    w: World, k: nat, stop: nat)
    requires WellFormed(d, q, depth) && Calm(w, stop) && k < stop && Plain(db.rows, mem.state)
    requires w.outcome(2 * k, q) == Returns(Output(2 * k, false, defects))
    requires mem.current == Some(q) && q !in mem.state && mem.rework < d.maxRework && mem.history == []
    requires Reworkable(defects) && q in ReworkTargets(d, q, defects) && |ReworkTargets(d, q, defects)| > 1
    ensures var v := Visit(d, db, mem, q, w, k);
            && v.Go? && Plain(v.db.rows, v.mem.state)
            && var f := FanOut(d, v.db.(status := Running), Dropped(d, q, db, mem, defects, w, k),
                               ReworkTargets(d, q, defects), w, k);
               var m := Round(d, q, db, mem, w, k);
               f.Go? ==> m.Halt? && m.db.rows == f.db.rows
  {
    hide WellFormed, Visit, ReworkTargets, Latest, SignatureOf, FanOut, CommonJoin, Project, Calm, Plain, Popped, Kept;
    if CommonJoin(d, ReworkTargets(d, q, defects)) == Some(q) {
      JoinedApart(d, q, depth, ReworkTargets(d, q, defects));
    }
    CalmRound(w, stop, k);
    VisitKept(d, db, mem, q, w, k, stop);
    var v := Visit(d, db, mem, q, w, k);
    KeptPlain(db.rows, mem.state, v.db.rows, v.mem.state, k, k + 1);
  }

  lemma DroppedIs(d: Definition, q: NodeId, db: Db, mem: Memory, defects: seq<Defect>, w: World, k: nat)
    requires var v := Visit(d, db, mem, q, w, k); v.Go? && Plain(v.db.rows, v.mem.state)
    ensures var state := Dropped(d, q, db, mem, defects, w, k).state;
            && Plain(Visit(d, db, mem, q, w, k).db.rows, state)
            && forall n :: n in ReworkTargets(d, q, defects) ==> n !in state
  {
    hide Visit, ReworkTargets, SignatureOf, Latest;
  }

  /** The rejecting round sends the quality node back beside `t`, and neither sees the other. */
  lemma JudgedBeside(d: Definition, q: NodeId, depth: NodeId -> nat, db: Db, mem: Memory, defects: seq<Defect>,
                     t: NodeId, w: World, k: nat, stop: nat)
    requires WellFormed(d, q, depth) && Calm(w, stop) && k < stop && Plain(db.rows, mem.state)
    requires w.outcome(2 * k, q) == Returns(Output(2 * k, false, defects)) && w.outcome(2 * k + 1, q).Returns?
    requires w.outcome(2 * k + 1, q).out.accept
    requires mem.current == Some(q) && q !in mem.state && mem.rework < d.maxRework && mem.history == []
    requires Reworkable(defects) && q in ReworkTargets(d, q, defects) && |ReworkTargets(d, q, defects)| > 1
    requires t in ReworkTargets(d, q, defects)
    ensures var m := Round(d, q, db, mem, w, k);
            m.Halt? && Accepted(m.db.rows, q) && t !in Latest(m.db.rows, q).value.inputs
  {
    hide WellFormed, Visit, ReworkTargets, Latest, Fan, Project, Calm, Plain, Reworkable, Round, Kept, Dropped;
    var targets := ReworkTargets(d, q, defects);
    FailsBeside(d, q, depth, db, mem, defects, w, k, stop);
    DroppedIs(d, q, db, mem, defects, w, k);
    var running := Visit(d, db, mem, q, w, k).db.(status := Running);
    var dropped := Dropped(d, q, db, mem, defects, w, k);
    FanOutKept(d, running, dropped, targets, w, k, stop);
    BranchResult(d, running.rows, dropped.state, dropped.attempts, targets, w, k, q);
    var f := FanOut(d, running, dropped, targets, w, k);
    HeldIsLatest(dropped.state, running.rows, f.db.rows, f.mem.state, k, q);
    ProjectsHeld(d, dropped.state, q, t);
  }

  lemma HeldIsLatest(before: map<NodeId, Output>, rows: seq<Row>, after: seq<Row>, state: map<NodeId, Output>,
                     k: nat, n: NodeId)
    requires Kept(rows, before, after, state, k, k + 1) && n in state
    ensures Latest(after, n).Some? && Latest(after, n).value.output == state[n]
  {
  }

  lemma ProjectsHeld(d: Definition, state: map<NodeId, Output>, n: NodeId, t: NodeId)
    requires t !in state
    ensures t !in Project(d, state, n)
  {
  }

  /** Sent back beside another node, the quality node accepts without having seen it. */
  lemma {:induction false} BlindVerdict(d: Definition, q: NodeId, depth: NodeId -> nat, defects: seq<Defect>, t: NodeId)
    returns (w: World)
    requires WellFormed(d, q, depth) && QualityAlone(d, q) && |InitialNodes(d)| == 1 && InitialHits(d, q, depth)
    requires d.maxRework > 0 && Reworkable(defects) && |ReworkTargets(d, q, defects)| > 1
    requires q in ReworkTargets(d, q, defects) && t in ReworkTargets(d, q, defects)
    ensures !Saw(q, Claimed(d, q, depth, NewRoot, w).rows, t)
  {
    hide WellFormed, QualityAlone, InitialNodes, Round, Loop, Plain, Kept, Runs, RunsBefore, Hits, Hops, NextHop;
    hide Latest, Reworkable, ReworkTargets, InputSources, FreshMemory, Calm, Claimed, Accepted;
    var start := InitialNodes(d)[0];
    var k := Hops(d, q, depth, start);
    w := StaleWorld(q, defects, k, k + 1);
    StaleWorldCalm(q, defects, k, k + 1);
    EngineExactness.FirstClaim(d, q, depth, w);
    var db, mem := Db([], Running), FreshMemory([], start);
    PlainEmpty();
    var first, firstMem := Arrive(d, q, depth, db, mem, start, w, 0, k + 1);
    KeptPlain(db.rows, mem.state, first.rows, firstMem.state, 0, k);
    EngineExactness.LoopUnfolds(d, q, depth, first, firstMem, w, k);
    JudgedBeside(d, q, depth, first, firstMem, defects, t, w, k, k + 1);
  }

  ghost predicate VerdictsSee(d: Definition, q: NodeId, depth: NodeId -> nat)
    requires WellFormed(d, q, depth) && InitialHits(d, q, depth)
  {
    forall episodes, s :: s in InputSources(d, q) && Runs(d, q, depth, InitialNodes(d)[0], s)
      ==> Saw(q, After(d, q, depth, NewRoot, episodes).rows, s)
  }

  /** Main result: where what verdicts send back are sources of the quality node
      that the walk runs, every accepting verdict of every run was given the
      latest output of each such source, if and only if no verdict sends the
      quality node itself back as one of several. */
  lemma {:induction false} VerdictExactly(d: Definition, q: NodeId, depth: NodeId -> nat)
    requires WellFormed(d, q, depth) && QualityAlone(d, q) && |InitialNodes(d)| == 1 && InitialHits(d, q, depth)
    requires d.maxRework > 0
    requires forall t :: IsReworkTarget(d, q, t) && t != q ==>
      t in InputSources(d, q) && Runs(d, q, depth, InitialNodes(d)[0], t)
    ensures VerdictsSee(d, q, depth) <==> QualityReworkedAlone(d, q)
  {
    hide WellFormed, QualityAlone, InitialNodes, After, Claimed, InputSources, Runs, ReworkTargets, Saw;
    hide Reworkable;
    if QualityReworkedAlone(d, q) {
      forall episodes, s | s in InputSources(d, q) && Runs(d, q, depth, InitialNodes(d)[0], s)
        ensures Saw(q, After(d, q, depth, NewRoot, episodes).rows, s)
      {
        VerdictSawLatest(d, q, depth, episodes, s);
      }
    } else {
      var defects :| Reworkable(defects) && |ReworkTargets(d, q, defects)| > 1 && q in ReworkTargets(d, q, defects);
      var t := Another(ReworkTargets(d, q, defects), q);
      assert IsReworkTarget(d, q, t);
      var w := BlindVerdict(d, q, depth, defects, t);
      EngineExactness.AfterOne(d, q, depth, w);
      assert !Saw(q, After(d, q, depth, NewRoot, [ByEngine(w)]).rows, t);
    }
  }

  lemma Another(nodes: seq<NodeId>, n: NodeId) returns (m: NodeId)
    requires NoRepeats(nodes) && |nodes| > 1
    ensures m in nodes && m != n
  {
    m := if nodes[0] == n then nodes[1] else nodes[0];
  }
}
