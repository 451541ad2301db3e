/** What the single steps of the engine leave behind: the row of an execution, what
    recovery makes of it, how a stop ends the root, and when a verdict sends it back. */
module EngineSteps {
  import opened Options
  import opened Walks
  import opened Lifecycle
  import opened WorkflowDefinitions
  import opened StepRows
  import opened EngineSpec
  import EngineInvariants
  import EngineSafety

  // ------------------------------------------------ one execution

  /** Row `i` is the attempt of an action that was interrupted last. */
  predicate LastInterrupted(rows: seq<Row>, n: NodeId, i: nat) {
    && i < |rows| && rows[i].node == n && rows[i].status in {StepPending, StepRunning}
    && forall j :: i < j < |rows| && rows[j].node == n ==> rows[j].status !in {StepPending, StepRunning}
  }

  lemma {:induction false} LastUnfinishedIs(rows: seq<Row>, n: NodeId)
    ensures LastUnfinished(rows, n).Some? ==> LastInterrupted(rows, n, LastUnfinished(rows, n).value)
    ensures LastUnfinished(rows, n).None? ==> forall i :: !LastInterrupted(rows, n, i)
  {
    if rows != [] && !(rows[|rows| - 1].node == n && Unfinished(rows[|rows| - 1])) {
      LastUnfinishedIs(rows[..|rows| - 1], n);
    }
  }

  /** How far an attempt got. */
  ghost predicate LeftAs(d: Definition, n: NodeId, r: Row, o: Outcome) {
    match o
    case Returns(out) => r.status == StepSucceeded && r.output == out
    case Stops(Stored(out), _) => r.status == StepSucceeded && r.output == out
    case Stops(LeftRunning(journal), _) =>
      r.status == StepRunning && r.journal == if IsSkill(d, n) then journal else None
    case Stops(Ended(status), _) =>
      r.journal == None && r.status == if status in {StepBlocked, StepCancelled} then status else StepFailed
    case Stops(Absent, _) => false
  }

  /** Main result: an execution writes one row, of its node, with the outputs it was
      given and how far it got: a new attempt with the next number, or for an action
      the attempt interrupted last, under its own number; unless it stopped before any row. */
  lemma {:induction false} ExecutionLeaves(d: Definition, rows: seq<Row>, state: map<NodeId, Output>, n: NodeId,
                                           attempt: nat, o: Outcome)
    ensures var after := Perform(d, rows, state, n, attempt, o);
            if o.Stops? && o.ending.Absent? then after == rows
            else
              exists i: nat ::
                && i <= |rows| && |after| == (if i == |rows| then |rows| + 1 else |rows|)
                && (forall j :: 0 <= j < |rows| && j != i ==> after[j] == rows[j])
                && after[i].node == n && after[i].inputs == Project(d, state, n) && LeftAs(d, n, after[i], o)
                && (if IsSkill(d, n) || forall k :: !LastInterrupted(rows, n, k)
                    then i == |rows| && after[i].attempt == attempt
                    else LastInterrupted(rows, n, i) && after[i].attempt == rows[i].attempt)
  {
    hide IsSkill, Project, LastUnfinished, LastInterrupted;
    LastUnfinishedIs(rows, n);
    var after, i := Perform(d, rows, state, n, attempt, o), RowIndex(d, rows, n);
    if !(o.Stops? && o.ending.Absent?) {
      assert i < |rows| ==> LastUnfinished(rows, n) == Some(i);
      assert LeftAs(d, n, after[i], o);
    }
  }

  /** A node is given exactly the held outputs of its declared sources, or of the
      nodes with an unconditional edge to it where none are declared. */
  lemma {:induction false} GivenExactly(d: Definition, state: map<NodeId, Output>, n: NodeId, s: NodeId)
    ensures s in Project(d, state, n) <==>
              s in state && if Known(d, n) && NodeOf(d, n).inputSources.Some? then s in NodeOf(d, n).inputSources.value
                            else Edge(s, n, None) in d.edges
    ensures s in Project(d, state, n) ==> Project(d, state, n)[s] == state[s]
  {
    SourcesAre(d.edges, n, s);
  }

  lemma {:induction false} SourcesAre(edges: seq<Edge>, n: NodeId, s: NodeId)
    ensures s in SourcesIn(edges, n) <==> Edge(s, n, None) in edges
  {
    if edges != [] {
      SourcesAre(edges[1..], n, s);
      assert edges == [edges[0]] + edges[1..];
    }
  }

  // ------------------------------------------------ what recovery makes of it

  lemma {:induction false} LatestAt(rows: seq<Row>, n: NodeId, i: nat)
    requires i < |rows| && rows[i].node == n && Won(rows[i]) && forall j :: i < j < |rows| ==> rows[j].node != n
    ensures Latest(rows, n) == Some(rows[i])
  {
    if i < |rows| - 1 {
      LatestAt(rows[..|rows| - 1], n, i);
    }
  }

  /** Main result: a skill that died with its provider's completion stored is not
      executed again: the next claim finds the completion as its output. */
  lemma {:induction false} CompletionIsUsed(d: Definition, rows: seq<Row>, state: map<NodeId, Output>, n: NodeId,
                                            attempt: nat, out: Output, stop: Stop, start: NodeId)
    requires Orderly(d, rows) && IsSkill(d, n) && attempt > LastAttempt(rows, n)
    requires !EngineInvariants.HasJournaled(rows, n)
    ensures var left := Perform(d, rows, state, n, attempt, Stops(LeftRunning(Some(out)), stop));
            var mem := FreshMemory(SettleAll(left), start);
            && n in mem.state && mem.state[n] == out
            && Latest(SettleAll(left), n).value.inputs == Project(d, state, n)
  {
    hide Project, IsSkill, LastAttempt, AllRows;
    var o := Stops(LeftRunning(Some(out)), stop);
    EngineSafety.WrittenFits(d, rows, state, n, attempt, o);
    var r := WrittenRow(d, rows, state, n, attempt, o).value;
    PutOrderly(d, rows, |rows|, r);
    var left := rows + [r];
    var settled := SettleAll(left);
    assert settled[|rows|] == Settled(r);
    LatestAt(settled, n, |rows|);
    assert settled[|rows|].node == n;
  }

  /** Settling marks journaled rows succeeded with the completion, and leaves everything else. */
  lemma SettlesExactly(rows: seq<Row>, i: nat)
    requires i < |rows|
    ensures var r, s := rows[i], SettleAll(rows)[i];
            if r.status == StepRunning && r.journal.Some?
            then s == Row(r.node, r.attempt, StepSucceeded, r.journal, r.journal.value, r.inputs) else s == r
  {
  }

  /** Row `i` is the last success of the node. */
  predicate LastSuccess(rows: seq<Row>, n: NodeId, i: nat) {
    && i < |rows| && rows[i].node == n && rows[i].status == StepSucceeded
    && forall j :: i < j < |rows| && rows[j].node == n ==> rows[j].status != StepSucceeded
  }

  /** The recovered memory holds a node exactly if some row of it succeeded, and then
      the output of the last of these. */
  lemma {:induction false} RecoversLatest(rows: seq<Row>, start: NodeId, n: NodeId)
    ensures var mem := FreshMemory(rows, start);
            && (n in mem.state <==> exists i :: LastSuccess(rows, n, i))
            && (n in mem.state ==> exists i: nat :: LastSuccess(rows, n, i) && rows[i].output == mem.state[n])
            && mem.history == [] && mem.current == Some(start)
  {
    hide Latest;
    LatestIs(rows, n);
    if Latest(rows, n).Some? {
      EngineInvariants.AcceptedHasRow(rows, n);
    }
  }

  lemma {:induction false} LatestIs(rows: seq<Row>, n: NodeId)
    ensures Latest(rows, n).None? ==> forall i :: !LastSuccess(rows, n, i)
    ensures Latest(rows, n).Some? ==> exists i: nat :: LastSuccess(rows, n, i) && rows[i] == Latest(rows, n).value
  {
    if rows != [] {
      var front := rows[..|rows| - 1];
      LatestIs(front, n);
      if rows[|rows| - 1].node == n && Won(rows[|rows| - 1]) {
        assert LastSuccess(rows, n, |rows| - 1);
      } else {
        forall i ensures LastSuccess(rows, n, i) <==> LastSuccess(front, n, i) {
          NotTheLast(rows, n, i);
        }
      }
    }
  }

  lemma NotTheLast(rows: seq<Row>, n: NodeId, i: nat)
    requires rows != [] && !(rows[|rows| - 1].node == n && Won(rows[|rows| - 1]))
    ensures LastSuccess(rows, n, i) <==> LastSuccess(rows[..|rows| - 1], n, i)
  {
    var front := rows[..|rows| - 1];
    assert forall j :: 0 <= j < |front| ==> front[j] == rows[j];
  }

  function Wins(rows: seq<Row>, n: NodeId): set<nat> {
    set i: nat | i < |rows| && rows[i].node == n && rows[i].status == StepSucceeded
  }

  lemma WinsMore(rows: seq<Row>, n: NodeId)
    requires rows != []
    ensures var k := |rows| - 1;
            Wins(rows, n) == Wins(rows[..k], n)
              + (if rows[k].node == n && rows[k].status == StepSucceeded then {k} else {})
            && k !in Wins(rows[..k], n)
  {
  }

  /** How many rows of a node succeeded. */
  lemma {:induction false} SuccessesCount(rows: seq<Row>, n: NodeId)
    ensures Successes(rows, n) == |Wins(rows, n)|
  {
    hide Wins;
    if rows != [] {
      SuccessesCount(rows[..|rows| - 1], n);
      WinsMore(rows, n);
    } else {
      assert Wins([], n) == {} by { NoWins(n); }
    }
  }

  lemma NoWins(n: NodeId)
    ensures Wins([], n) == {}
  {
  }

  // ------------------------------------------------ how a root is stopped

  /** What a node's stop makes of the root: nothing when the process is gone or its
      last write does not take effect. */
  function StatusAfter(stop: Stop, before: RunStatus, closes: bool): RunStatus {
    if !closes then before
    else
      match stop
      case Dies => before
      case Cancels => Cancelled
      case AwaitsApproval => WaitingApproval
      case Raises(blocked) => if blocked then Blocked else Failed
  }

  /** Inside a fan-out a cancellation goes unrecorded, and asking for approval is an error. */
  function StatusAfterBranch(stop: Stop, before: RunStatus, closes: bool): RunStatus {
    if !closes then before
    else
      match stop
      case Dies => before
      case Cancels => before
      case AwaitsApproval => Failed
      case Raises(blocked) => if blocked then Blocked else Failed
  }

  /** Main result: a held output is used as it is; otherwise the node runs, and what
      it returns is held, or its stop ends the claim. */
  lemma {:induction false} VisitExactly(d: Definition, db: Db, mem: Memory, n: NodeId, w: World, k: nat)
    ensures var m, o := Visit(d, db, mem, n, w, k), w.outcome(2 * k, n);
            var tried := Perform(d, db.rows, mem.state, n, AttemptsOf(mem.attempts, n) + 1, o);
            && (n in mem.state ==> m == Go(db, mem))
            && (n !in mem.state && o.Returns? ==>
                  && m.Go? && m.db == Db(tried, db.status)
                  && m.mem.state == mem.state[n := o.out]
                  && AttemptsOf(m.mem.attempts, n) == AttemptsOf(mem.attempts, n) + 1
                  && (forall x :: x != n ==> AttemptsOf(m.mem.attempts, x) == AttemptsOf(mem.attempts, x))
                  && m.mem.rework == mem.rework && m.mem.history == mem.history && m.mem.current == mem.current)
            && (n !in mem.state && o.Stops? ==> m == Halt(Db(tried, StatusAfter(o.stop, db.status, w.closes(k)))))
  {
    hide Perform;
  }

  /** The first branch that stopped, if any did. */
  ghost predicate FirstStop(nodes: seq<NodeId>, w: World, k: nat, stop: Option<Stop>) {
    match stop
    case None => forall i :: 0 <= i < |nodes| ==> w.outcome(2 * k + 1, nodes[i]).Returns?
    case Some(s) =>
      exists i :: 0 <= i < |nodes| && w.outcome(2 * k + 1, nodes[i]).Stops? && w.outcome(2 * k + 1, nodes[i]).stop == s
        && forall j :: 0 <= j < i ==> w.outcome(2 * k + 1, nodes[j]).Returns?
  }

  lemma {:induction false} FanStopIs(d: Definition, rows: seq<Row>, state: map<NodeId, Output>,
                                     attempts: map<NodeId, nat>, nodes: seq<NodeId>, w: World, k: nat)
    ensures FirstStop(nodes, w, k, Fan(d, rows, state, attempts, nodes, w, k).stop)
    decreases |nodes|
  {
    hide Perform;
    if nodes != [] {
      var n, o := nodes[0], w.outcome(2 * k + 1, nodes[0]);
      var next := Perform(d, rows, state, n, AttemptsOf(attempts, n) + 1, o);
      FanStopIs(d, next, state, attempts, nodes[1..], w, k);
      var rest := Fan(d, next, state, attempts, nodes[1..], w, k).stop;
      if o.Returns? && rest.Some? {
        var i :| 0 <= i < |nodes[1..]| && w.outcome(2 * k + 1, nodes[1..][i]).Stops?
          && w.outcome(2 * k + 1, nodes[1..][i]).stop == rest.value
          && forall j :: 0 <= j < i ==> w.outcome(2 * k + 1, nodes[1..][j]).Returns?;
        assert nodes[i + 1] == nodes[1..][i];
        forall j | 0 <= j < i + 1 ensures w.outcome(2 * k + 1, nodes[j]).Returns? {
          if j > 0 { assert nodes[j] == nodes[1..][j - 1]; }
        }
      } else if o.Returns? {
        forall j | 0 <= j < |nodes| ensures w.outcome(2 * k + 1, nodes[j]).Returns? {
          if j > 0 { assert nodes[j] == nodes[1..][j - 1]; }
        }
      }
    }
  }

  lemma {:induction false} FanResultsAre(d: Definition, rows: seq<Row>, state: map<NodeId, Output>,
                                         attempts: map<NodeId, nat>, nodes: seq<NodeId>, w: World, k: nat, n: NodeId)
    ensures var results := Fan(d, rows, state, attempts, nodes, w, k).results;
            && (n in results <==> n in nodes && w.outcome(2 * k + 1, n).Returns?)
            && (n in results ==> results[n] == w.outcome(2 * k + 1, n).out)
    decreases |nodes|
  {
    hide Perform;
    if nodes != [] {
      assert nodes == [nodes[0]] + nodes[1..];
      var o := w.outcome(2 * k + 1, nodes[0]);
      FanResultsAre(d, Perform(d, rows, state, nodes[0], AttemptsOf(attempts, nodes[0]) + 1, o), state, attempts,
          nodes[1..], w, k, n);
    }
  }

  /** Main result: a fan-out goes on when every branch returned, with each branch's
      output held and its attempts one up; otherwise its first stop ends the claim. */
  lemma {:induction false} FanOutExactly(d: Definition, db: Db, mem: Memory, nodes: seq<NodeId>, w: World, k: nat)
    ensures var m, fan := FanOut(d, db, mem, nodes, w, k), Fan(d, db.rows, mem.state, mem.attempts, nodes, w, k);
            && FirstStop(nodes, w, k, fan.stop)
            && (fan.stop.Some? ==> m == Halt(Db(fan.rows, StatusAfterBranch(fan.stop.value, db.status, w.closes(k)))))
            && (fan.stop.None? ==>
                  && m.Go? && m.db == Db(fan.rows, db.status)
                  && (forall n :: n in m.mem.state <==> n in mem.state || n in nodes)
                  && (forall n :: n in m.mem.state ==>
                        m.mem.state[n] == if n in nodes then w.outcome(2 * k + 1, n).out else mem.state[n])
                  && (forall n :: AttemptsOf(m.mem.attempts, n) ==
                                  AttemptsOf(mem.attempts, n) + if n in nodes then 1 else 0)
                  && m.mem.rework == mem.rework && m.mem.history == mem.history && m.mem.current == mem.current)
  {
    hide Fan, FirstStop;
    FanStopIs(d, db.rows, mem.state, mem.attempts, nodes, w, k);
    var fan := Fan(d, db.rows, mem.state, mem.attempts, nodes, w, k);
    if fan.stop.None? {
      AllReturn(nodes, w, k);
      forall n ensures (n in fan.results <==> n in nodes)
        && (n in nodes ==> fan.results[n] == w.outcome(2 * k + 1, n).out) {
        FanResultsAre(d, db.rows, mem.state, mem.attempts, nodes, w, k, n);
      }
    }
  }

  lemma AllReturn(nodes: seq<NodeId>, w: World, k: nat)
    ensures FirstStop(nodes, w, k, None) ==> forall n :: n in nodes ==> w.outcome(2 * k + 1, n).Returns?
  {
  }

  // ------------------------------------------------ verdicts

  /** Two verdicts count as the same exactly if they name the same defects as often. */
  lemma {:induction false} SameSignature(a: seq<Defect>, b: seq<Defect>)
    ensures SignatureOf(a) == SignatureOf(b) <==> multiset(a) == multiset(b)
  {
    forall s: seq<Defect>, x: Defect ensures SignatureOf(s)[(x.code, x.target)] == multiset(s)[x] {
      SignatureCounts(s, x);
    }
    if SignatureOf(a) == SignatureOf(b) {
      forall x: Defect ensures multiset(a)[x] == multiset(b)[x] {
        SignatureCounts(a, x);
        SignatureCounts(b, x);
      }
      assert multiset(a) == multiset(b);
    }
    if multiset(a) == multiset(b) {
      forall p: (DefectCode, string) ensures SignatureOf(a)[p] == SignatureOf(b)[p] {
        var x := Defect(p.0, p.1);
        assert p == (x.code, x.target);
        SignatureCounts(a, x);
        SignatureCounts(b, x);
      }
      assert SignatureOf(a) == SignatureOf(b);
    }
  }

  lemma {:induction false} SignatureCounts(s: seq<Defect>, x: Defect)
    ensures SignatureOf(s)[(x.code, x.target)] == multiset(s)[x]
  {
    if s != [] {
      var front, last := s[..|s| - 1], s[|s| - 1];
      SignatureCounts(front, x);
      assert s == front + [last];
      var pairs := seq(|s|, i requires 0 <= i < |s| => (s[i].code, s[i].target));
      var fewer := seq(|front|, i requires 0 <= i < |front| => (front[i].code, front[i].target));
      assert pairs == fewer + [(last.code, last.target)];
      assert multiset(s) == multiset(front) + multiset{last};
      assert multiset(pairs) == multiset(fewer) + multiset{(last.code, last.target)};
    }
  }

  /** A rejection without defects is one for a malformed answer, which can be reworked. */
  lemma NoDefectsMeansMalformed(defects: seq<Defect>)
    ensures defects != [] ==> NormaliseDefects(defects) == defects
    ensures NormaliseDefects([]) == [Defect(SchemaInvalid, "")] && Reworkable(NormaliseDefects([]))
    ensures Reworkable(NormaliseDefects(defects)) <==> forall x :: x in defects ==> x.code != SafetyViolation
  {
    var all := NormaliseDefects(defects);
    if forall x :: x in defects ==> x.code != SafetyViolation {
      forall i | 0 <= i < |all| ensures !all[i].code.SafetyViolation? {
        if defects != [] { assert all[i] in defects; }
      }
    } else {
      var x :| x in defects && x.code == SafetyViolation;
      var i :| 0 <= i < |defects| && defects[i] == x;
      assert all[i].code.SafetyViolation?;
    }
  }

  /** Where a verdict's defects lead: the known nodes its codes are routed to, or, where
      none of its codes has a route, those its defect edges lead to. */
  lemma {:induction false} SentBackTo(d: Definition, q: NodeId, defects: seq<Defect>, n: NodeId)
    ensures n in ReworkTargets(d, q, defects) <==>
              Known(d, n)
              && if Routed(d, defects) then RoutedTo(d, defects, n) else Edge(q, n, DEFECT) in d.edges
  {
    hide Known, RoutedBy, DefectEdgeTargets, Codes, Routed, RoutedTo;
    RoutesOf(d, defects, n);
    DefectEdgesAre(d.edges, q, n);
    var routed := RoutedBy(d.defectRoutes, CodesInOrder, Codes(defects));
    var candidates := CandidateTargets(d, q, defects);
    assert candidates == if routed != [] then routed else DefectEdgeTargets(d.edges, q);
    assert n in Distinct(d, candidates) <==> n in candidates && Known(d, n);
  }

  lemma RoutesOf(d: Definition, defects: seq<Defect>, n: NodeId)
    ensures RoutedBy(d.defectRoutes, CodesInOrder, Codes(defects)) != [] <==> Routed(d, defects)
    ensures n in RoutedBy(d.defectRoutes, CodesInOrder, Codes(defects)) <==> RoutedTo(d, defects, n)
  {
    hide RoutedBy, Codes, CodesInOrder;
    RoutedAre(d.defectRoutes, CodesInOrder, Codes(defects), n);
    AnyRoute(d.defectRoutes, CodesInOrder, Codes(defects));
    AllCodes();
    CodesAre(defects);
  }

  predicate Routed(d: Definition, defects: seq<Defect>) {
    exists x :: x in defects && x.code in d.defectRoutes && d.defectRoutes[x.code] != []
  }

  predicate RoutedTo(d: Definition, defects: seq<Defect>, n: NodeId) {
    exists x :: x in defects && x.code in d.defectRoutes && n in d.defectRoutes[x.code]
  }

  lemma AllCodes()
    ensures forall c: DefectCode :: c in CodesInOrder
  {
    forall c: DefectCode ensures c in CodesInOrder {
      match c
      case CitationMismatch => assert CodesInOrder[0] == c;
      case EvidenceMissing => assert CodesInOrder[1] == c;
      case FactConflict => assert CodesInOrder[2] == c;
      case InstructionalMismatch => assert CodesInOrder[3] == c;
      case SafetyViolation => assert CodesInOrder[4] == c;
      case SchemaInvalid => assert CodesInOrder[5] == c;
    }
  }

  lemma CodesAre(defects: seq<Defect>)
    ensures forall c :: c in Codes(defects) <==> exists x :: x in defects && x.code == c
  {
    forall c ensures c in Codes(defects) <==> exists x :: x in defects && x.code == c {
      if x :| x in defects && x.code == c {
        var i :| 0 <= i < |defects| && defects[i] == x;
        assert defects[i].code == c;
      }
      if c in Codes(defects) {
        var i :| 0 <= i < |defects| && defects[i].code == c;
        assert defects[i] in defects;
      }
    }
  }

  lemma {:induction false} RoutedAre(routes: map<DefectCode, seq<NodeId>>, codes: seq<DefectCode>,
                                     present: set<DefectCode>, n: NodeId)
    ensures n in RoutedBy(routes, codes, present) <==>
              exists c :: c in codes && c in present && c in routes && n in routes[c]
  {
    if codes != [] {
      RoutedAre(routes, codes[1..], present, n);
      assert codes == [codes[0]] + codes[1..];
    }
  }

  lemma {:induction false} AnyRoute(routes: map<DefectCode, seq<NodeId>>, codes: seq<DefectCode>,
                                    present: set<DefectCode>)
    ensures RoutedBy(routes, codes, present) != [] <==>
              exists c :: c in codes && c in present && c in routes && routes[c] != []
  {
    if codes != [] {
      AnyRoute(routes, codes[1..], present);
      assert codes == [codes[0]] + codes[1..];
    }
  }

  lemma {:induction false} DefectEdgesAre(edges: seq<Edge>, q: NodeId, n: NodeId)
    ensures n in DefectEdgeTargets(edges, q) <==> Edge(q, n, DEFECT) in edges
  {
    if edges != [] {
      DefectEdgesAre(edges[1..], q, n);
      assert edges == [edges[0]] + edges[1..];
    }
  }

  /** The verdict may be worked off: its defects are new to the claim, none is a
      safety violation, a rework is left, and they lead somewhere. */
  predicate CanRework(d: Definition, q: NodeId, mem: Memory, defects: seq<Defect>) {
    && SignatureOf(defects) !in mem.history
    && (forall x :: x in defects ==> x.code != SafetyViolation)
    && mem.rework < d.maxRework && exists n :: n in ReworkTargets(d, q, defects)
  }

  /** Every way out of each of the nodes leads to `t`, and there is one. */
  predicate AllLeadTo(d: Definition, nodes: seq<NodeId>, t: NodeId) {
    forall b :: b in nodes ==> OnlyTarget(d, b, t)
  }

  /** Main result: a rejection that cannot be worked off blocks the root; otherwise,
      as far as its two commits take effect, the root is sent back: the verdict and
      the targets are dropped, everything else is kept, and it goes on at the one
      target, or at the quality node after all of several, or fails if they do not
      meet there. */
  lemma {:induction false} RejectionExactly(d: Definition, q: NodeId, db: Db, mem: Memory, verdict: Output, w: World,
                                            k: nat)
    ensures var m, defects := HandleRejection(d, q, db, mem, verdict, w, k), NormaliseDefects(verdict.defects);
            var targets := ReworkTargets(d, q, defects);
            var kept := map n | n in mem.state && n != q && n !in targets :: mem.state[n];
            var sent := Memory(kept, mem.attempts, mem.rework + 1, mem.history + [SignatureOf(defects)], mem.current);
            if !CanRework(d, q, mem, defects) then
              m == Halt(Db(db.rows, if w.closes(k) then Blocked else db.status))
            else if w.commits(k) == 0 then m == Halt(db)
            else if w.commits(k) == 1 then m == Halt(Db(db.rows, Reworking))
            else if |targets| == 1 then m == Go(Db(db.rows, Running), sent.(current := Some(targets[0])))
            else
              var f := FanOut(d, Db(db.rows, Running), sent, targets, w, k);
              if f.Halt? then m == f
              else if AllLeadTo(d, targets, q) then m == Go(f.db, f.mem.(current := Some(q)))
              else m == Halt(Db(f.db.rows, if w.closes(k) then Failed else f.db.status))
  {
    hide ReworkTargets, NormaliseDefects, SignatureOf, CommonJoin, FanOut, OnlyTarget;
    var defects := NormaliseDefects(verdict.defects);
    var targets := ReworkTargets(d, q, defects);
    NormalisedSome(verdict.defects);
    ReworkableIs(defects);
    if targets != [] {
      assert targets[0] in targets;
    }
    CommonJoinExactly(d, targets, q);
  }

  lemma NormalisedSome(defects: seq<Defect>)
    ensures NormaliseDefects(defects) != []
  {
  }

  lemma ReworkableIs(defects: seq<Defect>)
    requires defects != []
    ensures Reworkable(defects) <==> forall x :: x in defects ==> x.code != SafetyViolation
  {
    NoDefectsMeansMalformed(defects);
  }

  /** Main result: going forward, the branches not held yet run together and meet at
      their one join, or the root fails without one; one successor is gone to, and
      none ends the walk. */
  lemma {:induction false} ForwardExactly(d: Definition, db: Db, mem: Memory, n: NodeId, condition: Option<string>,
                                          w: World, k: nat)
    ensures var m, next := Forward(d, db, mem, n, condition, w, k), Successors(d, n, condition);
            && (next == [] ==> m == Go(db, mem.(current := None)))
            && (|next| == 1 ==> m == Go(db, mem.(current := Some(next[0]))))
            && (|next| > 1 ==>
                  var open := Pending(mem.state, next);
                  var f := FanOut(d, db, mem, open, w, k);
                  && (forall x :: x in open <==> x in next && x !in mem.state)
                  && (f.Halt? ==> m == f)
                  && (f.Go? && m.Go? ==>
                        && m.mem.current.Some? && m == Go(f.db, f.mem.(current := m.mem.current))
                        && AllLeadTo(d, next, m.mem.current.value))
                  && (f.Go? && m.Halt? ==>
                        && m.db == Db(f.db.rows, if w.closes(k) then Failed else f.db.status)
                        && forall t :: !AllLeadTo(d, next, t)))
  {
    hide FanOut, CommonJoin, OnlyTarget, Successors;
    var next := Successors(d, n, condition);
    forall t ensures CommonJoin(d, next) == Some(t) <==> next != [] && AllLeadTo(d, next, t) {
      CommonJoinExactly(d, next, t);
    }
  }

  /** What the engine does at a boundary it does not cross. */
  lemma BoundaryExactly(d: Definition, q: NodeId, db: Db, mem: Memory, w: World, k: nat)
    requires mem.current.Some?
    ensures var m := Round(d, q, db, mem, w, k);
            && (w.boundary(k) == Leave ==> m == Halt(db))
            && (w.boundary(k) == SeePausing ==> m == Halt(Db(db.rows, if w.closes(k) then Paused else Pausing)))
            && (w.boundary(k) == SeeCancelling
                ==> m == Halt(Db(db.rows, if w.closes(k) then Cancelled else Cancelling)))
            && (w.boundary(k) == SeeBlocked ==> m == Halt(Db(db.rows, Blocked)))
  {
    hide Visit, Route;
  }

  /** Main result: a round visits the current node and then, by its verdict if it is
      the quality node, goes forward or handles the rejection. */
  lemma {:induction false} RoundExactly(d: Definition, q: NodeId, db: Db, mem: Memory, n: NodeId, w: World, k: nat)
    requires mem.current == Some(n) && w.boundary(k) == Continue
    ensures var m, v := Round(d, q, db, mem, w, k), Visit(d, db, mem, n, w, k);
            && (v.Halt? ==> m == v)
            && (v.Go? ==>
                  && n in v.mem.state
                  && (n != q ==> m == Forward(d, v.db, v.mem, n, None, w, k))
                  && (n == q && v.mem.state[n].accept ==> m == Forward(d, v.db, v.mem, n, Some("accept"), w, k))
                  && (n == q && !v.mem.state[n].accept
                      ==> m == HandleRejection(d, q, v.db, v.mem, v.mem.state[n], w, k)))
  {
    hide Perform, Forward, HandleRejection;
  }

  // ------------------------------------------------ claims that do not get to a node

  /** Main result: how a claim ends that never runs a node, and where one that does starts. */
  lemma {:induction false} ClaimExactly(d: Definition, q: NodeId, depth: NodeId -> nat, db: Db, w: World)
    requires WellFormed(d, q, depth)
    ensures var end, rows := Claimed(d, q, depth, db, w), SettleAll(db.rows);
            var live := db.status !in {Cancelled, Succeeded, Failed, Blocked, Cancelling};
            && (db.status in {Cancelled, Succeeded, Failed, Blocked} ==> end == db)
            && (db.status == Cancelling ==> end == Db(db.rows, if w.closes(0) then Cancelled else Cancelling))
            && (live && w.recovery.RecoveryDies? ==> end == db)
            && (live && w.recovery.RecoveryFails? ==>
                  end == if w.closes(0) then Db(Settle(db.rows, w.recovery.calls), Failed) else db)
            && (live && w.recovery.Recovers? && db.status == Pausing ==>
                  end == Db(rows, if w.closes(0) then Paused else Pausing))
            && (live && w.recovery.Recovers? && !w.recovery.starts && db.status !in {Pausing, Running} ==>
                  end == Db(rows, db.status))
            && (live && w.recovery.Recovers? && db.status != Pausing && (db.status == Running || w.recovery.starts) ==>
                  end == if |InitialNodes(d)| != 1 then Db(rows, if w.closes(0) then Failed else Running)
                         else Loop(d, q, depth, Db(rows, Running), FreshMemory(rows, InitialNodes(d)[0]), w, 0))
  {
    hide WellFormed, Settle, AllRows, Loop, FreshMemory, InitialNodes;
  }

  /** Running off the graph succeeds the root. */
  lemma WalkEnds(d: Definition, q: NodeId, depth: NodeId -> nat, db: Db, mem: Memory, w: World, k: nat)
    requires WellFormed(d, q, depth) && mem.current.None?
    ensures Loop(d, q, depth, db, mem, w, k) == Db(db.rows, if w.closes(k) then Succeeded else db.status)
  {
  }

  // ------------------------------------------------ in which order

  /** Successors come in the order of the edges. */
  lemma {:induction false} SuccessorsInOrder(edges: seq<Edge>, e: Edge, n: NodeId, c: Option<string>)
    ensures SuccessorsIn(edges + [e], n, c)
         == SuccessorsIn(edges, n, c)
           + (if e.source == n && (e.condition == None || e.condition == c) then [e.target] else [])
    ensures SuccessorsIn([], n, c) == []
  {
    if edges == [] {
      assert [] + [e] == [e] && [e][1..] == [];
    } else {
      SuccessorsInOrder(edges[1..], e, n, c);
      assert (edges + [e])[1..] == edges[1..] + [e];
    }
  }

  /** Defect edges too. */
  lemma {:induction false} DefectEdgesInOrder(edges: seq<Edge>, e: Edge, q: NodeId)
    ensures DefectEdgeTargets(edges + [e], q)
         == DefectEdgeTargets(edges, q) + (if e.source == q && e.condition == Some("defect") then [e.target] else [])
    ensures DefectEdgeTargets([], q) == []
  {
    if edges == [] {
      assert [] + [e] == [e] && [e][1..] == [];
    } else {
      DefectEdgesInOrder(edges[1..], e, q);
      assert (edges + [e])[1..] == edges[1..] + [e];
    }
  }

  /** Routes come code by code. */
  lemma {:induction false} RoutesInOrder(routes: map<DefectCode, seq<NodeId>>, codes: seq<DefectCode>, c: DefectCode,
                                         present: set<DefectCode>)
    ensures RoutedBy(routes, codes + [c], present)
         == RoutedBy(routes, codes, present) + (if c in present && c in routes then routes[c] else [])
    ensures RoutedBy(routes, [], present) == []
  {
    if codes == [] {
      assert [] + [c] == [c] && [c][1..] == [];
    } else {
      RoutesInOrder(routes, codes[1..], c, present);
      assert (codes + [c])[1..] == codes[1..] + [c];
    }
  }

  function FirstMention(targets: seq<NodeId>, n: NodeId): (i: nat)
    requires n in targets
    ensures i < |targets| && targets[i] == n && n !in targets[..i]
  {
    if targets[0] == n then 0
    else
      var i := FirstMention(targets[1..], n);
      assert targets[..1 + i] == [targets[0]] + targets[1..][..i];
      1 + i
  }

  /** Targets keep the order in which they are first mentioned. */
  lemma {:induction false} TargetsInOrder(d: Definition, targets: seq<NodeId>, i: nat, j: nat)
    requires i < j < |Distinct(d, targets)|
    ensures FirstMention(targets, Distinct(d, targets)[i]) < FirstMention(targets, Distinct(d, targets)[j])
  {
    hide Known;
    var front, last := targets[..|targets| - 1], targets[|targets| - 1];
    var kept, r := Distinct(d, front), Distinct(d, targets);
    forall n | n in front ensures FirstMention(front, n) == FirstMention(targets, n) {
      SameMention(front, targets, n);
    }
    if j < |kept| {
      TargetsInOrder(d, front, i, j);
      assert kept[i] in kept && kept[j] in kept;
    } else {
      assert r[j] == last && r[i] == kept[i] && kept[i] in kept;
      assert last !in front by { assert last in front ==> last in kept; }
      NoneBefore(targets, last, |front|);
    }
  }

  lemma SameMention(front: seq<NodeId>, targets: seq<NodeId>, n: NodeId)
    requires n in front && |front| <= |targets| && targets[..|front|] == front
    ensures n in targets && FirstMention(front, n) == FirstMention(targets, n)
  {
    var i := FirstMention(front, n);
    assert targets[i] == n && targets[..i] == front[..i];
    NoneBefore(targets, n, i);
    NoneBefore(targets, n, FirstMention(targets, n));
  }

  lemma NoneBefore(targets: seq<NodeId>, n: NodeId, k: nat)
    requires k <= |targets| && n !in targets[..k]
    ensures forall m :: 0 <= m < k ==> targets[m] != n
  {
    forall m | 0 <= m < k ensures targets[m] != n {
      assert targets[..k][m] in targets[..k];
    }
  }
}
