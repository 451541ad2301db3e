/** What one claim of a root does, as functions of the persisted rows and of an
    arbitrary environment. The environment may stop the process at any point,
    so a run is any sequence of claims, each working from what the last one left. */
module EngineSpec {
  import opened Options
  import opened Walks
  import opened Lifecycle
  import opened WorkflowDefinitions
  import opened StepRows

  /** How a node execution that did not return leaves its row. */
  datatype Ending =
    | Absent
    | LeftRunning(journal: Option<Output>)
    | Ended(status: StepStatus)
    | Stored(out: Output)

  /** How it stopped: the process died, or one of the errors the engine handles. */
  datatype Stop = Dies | Cancels | AwaitsApproval | Raises(blocked: bool)

  datatype Outcome = Returns(out: Output) | Stops(ending: Ending, stop: Stop)

  /** What the engine finds when it re-reads the root between two nodes. */
  datatype Boundary = Continue | Leave | SeePausing | SeeCancelling | SeeBlocked

  datatype Recovery = RecoveryDies | RecoveryFails(calls: seq<nat>) | Recovers(starts: bool)

  /** One claim's environment. Round `k` visits its node with outcome `2 * k`
      and fans out with outcome `2 * k + 1`; `commits` says how many of the two
      rework commits of the round take effect, `closes` whether its final one does. */
  datatype World = World(
    recovery: Recovery,
    boundary: nat -> Boundary,
    outcome: (nat, NodeId) -> Outcome,
    commits: nat -> nat,
    closes: nat -> bool)

  datatype Db = Db(rows: seq<Row>, status: RunStatus)

  type Signature = multiset<(DefectCode, string)>

  /** The process memory of a claim; lost with the process. */
  datatype Memory = Memory(
    state: map<NodeId, Output>, attempts: map<NodeId, nat>, rework: nat,
    history: seq<Signature>, current: Option<NodeId>)

  datatype Move = Halt(db: Db) | Go(db: Db, mem: Memory)

  function AttemptsOf(attempts: map<NodeId, nat>, n: NodeId): nat {
    if n in attempts then attempts[n] else 0
  }

  // ------------------------------------------------------------- recovery

  function NodesOf(rows: seq<Row>): set<NodeId> {
    set i | 0 <= i < |rows| :: rows[i].node
  }

  function RecoveredState(rows: seq<Row>): map<NodeId, Output> {
    map n | n in NodesOf(rows) && Latest(rows, n).Some? :: Latest(rows, n).value.output
  }

  function RecoveredAttempts(rows: seq<Row>): map<NodeId, nat> {
    map n | n in NodesOf(rows) :: LastAttempt(rows, n)
  }

  function TopAttempt(rows: seq<Row>): nat {
    if rows == [] then 0
    else
      var rest := TopAttempt(rows[..|rows| - 1]);
      if rows[|rows| - 1].attempt > rest then rows[|rows| - 1].attempt else rest
  }

  /** The rework counter rebuilt after a crash from attempt numbers alone. */
  function RecoveredRework(rows: seq<Row>): nat {
    if TopAttempt(rows) == 0 then 0 else TopAttempt(rows) - 1
  }

  /** Mark the journaled rows that `calls` point at succeeded. */
  function Settle(rows: seq<Row>, calls: seq<nat>): (r: seq<Row>)
    ensures |r| == |rows|
  {
    seq(|rows|, i requires 0 <= i < |rows| => if i in calls && Journaled(rows[i]) then Settled(rows[i]) else rows[i])
  }

  function AllRows(rows: seq<Row>): (calls: seq<nat>)
    ensures forall i: nat :: i < |rows| ==> i in calls
  {
    var calls := seq(|rows|, i requires 0 <= i < |rows| => i);
    assert forall i: nat :: i < |rows| ==> i in calls by {
      forall i: nat | i < |rows| ensures i in calls {
        assert calls[i] == i;
      }
    }
    calls
  }

  function SettleAll(rows: seq<Row>): seq<Row> {
    Settle(rows, AllRows(rows))
  }

  lemma SettleNothing(rows: seq<Row>)
    ensures Settle(rows, []) == rows
  {
  }

  /** Calls settle one after another, in any order. */
  lemma SettleStep(rows: seq<Row>, calls: seq<nat>, i: nat)
    ensures var s := Settle(rows, calls);
            Settle(rows, calls + [i]) == if i < |rows| && Journaled(s[i]) then s[i := Settled(s[i])] else s
  {
  }

  function Settled(r: Row): Row
    requires Journaled(r)
  {
    r.(status := StepSucceeded, output := r.journal.value)
  }

  // -------------------------------------------------------- node execution

  /** An interrupted action attempt is adopted, the one with the highest number. */
  function LastUnfinished(rows: seq<Row>, n: NodeId): (r: Option<nat>)
    ensures r.Some? ==> r.value < |rows| && rows[r.value].node == n && Unfinished(rows[r.value])
    ensures r.None? ==> forall i :: 0 <= i < |rows| && rows[i].node == n ==> !Unfinished(rows[i])
  {
    if rows == [] then None
    else if rows[|rows| - 1].node == n && Unfinished(rows[|rows| - 1]) then Some(|rows| - 1)
    else LastUnfinished(rows[..|rows| - 1], n)
  }

  function RowIndex(d: Definition, rows: seq<Row>, n: NodeId): (i: nat)
    ensures i <= |rows|
  {
    if IsSkill(d, n) || LastUnfinished(rows, n).None? then |rows| else LastUnfinished(rows, n).value
  }

  /** The authorised projection of the shared state. */
  function Project(d: Definition, state: map<NodeId, Output>, n: NodeId): map<NodeId, Output> {
    map s | s in state && s in InputSources(d, n) :: state[s]
  }

  /** The row an execution writes, if any: which index, which content. */
  function WrittenRow(d: Definition, rows: seq<Row>, state: map<NodeId, Output>, n: NodeId, attempt: nat,
                      o: Outcome): Option<Row> {
    var i := RowIndex(d, rows, n);
    var number := if i < |rows| then rows[i].attempt else attempt;
    var running := Row(n, number, StepRunning, None, Output(0, false, []), Project(d, state, n));
    match o
    case Returns(out) => Some(running.(status := StepSucceeded, output := out))
    case Stops(Absent, _) => None
    case Stops(LeftRunning(journal), _) => Some(running.(journal := if IsSkill(d, n) then journal else None))
    case Stops(Ended(status), _) =>
      Some(running.(status := if status in {StepFailed, StepBlocked, StepCancelled} then status else StepFailed))
    case Stops(Stored(out), _) => Some(running.(status := StepSucceeded, output := out))
  }

  function Perform(d: Definition, rows: seq<Row>, state: map<NodeId, Output>, n: NodeId, attempt: nat,
                   o: Outcome): seq<Row> {
    var r := WrittenRow(d, rows, state, n, attempt, o);
    if r.None? then rows else Put(rows, RowIndex(d, rows, n), r.value)
  }

  datatype FanResult = FanResult(rows: seq<Row>, stop: Option<Stop>, results: map<NodeId, Output>)

  /** All branches work from the same state; the first stop decides the fan-out. */
  function Fan(d: Definition, rows: seq<Row>, state: map<NodeId, Output>, attempts: map<NodeId, nat>,
               nodes: seq<NodeId>, w: World, k: nat): FanResult
    decreases |nodes|
  {
    if nodes == [] then FanResult(rows, None, map[])
    else
      var n := nodes[0];
      var o := w.outcome(2 * k + 1, n);
      var rest := Fan(d, Perform(d, rows, state, n, AttemptsOf(attempts, n) + 1, o), state, attempts, nodes[1..], w, k);
      match o
      case Returns(out) => FanResult(rest.rows, rest.stop, rest.results[n := out])
      case Stops(_, stop) => FanResult(rest.rows, Some(stop), rest.results)
  }

  function Bump(attempts: map<NodeId, nat>, nodes: seq<NodeId>): map<NodeId, nat> {
    map n | n in attempts.Keys + (set m | m in nodes) :: if n in nodes then AttemptsOf(attempts, n) + 1 else attempts[n]
  }

  // ---------------------------------------------------------- root endings

  function FailRoot(db: Db, blocked: bool, closes: bool): Db {
    if closes then db.(status := if blocked then Blocked else Failed) else db
  }

  function AfterStop(db: Db, stop: Stop, closes: bool): Db {
    match stop
    case Dies => db
    case Cancels => if closes then db.(status := Cancelled) else db
    case AwaitsApproval => if closes then db.(status := WaitingApproval) else db
    case Raises(blocked) => FailRoot(db, blocked, closes)
  }

  /** In a fan-out only runtime errors are handled; a cancellation propagates. */
  function AfterFanStop(db: Db, stop: Stop, closes: bool): Db {
    match stop
    case Dies => db
    case Cancels => db
    case AwaitsApproval => FailRoot(db, false, closes)
    case Raises(blocked) => FailRoot(db, blocked, closes)
  }

  // --------------------------------------------------------------- a round

  function Visit(d: Definition, db: Db, mem: Memory, n: NodeId, w: World, k: nat): Move {
    if n in mem.state then Go(db, mem)
    else
      var o := w.outcome(2 * k, n);
      var rows := Perform(d, db.rows, mem.state, n, AttemptsOf(mem.attempts, n) + 1, o);
      match o
      case Returns(out) =>
        Go(db.(rows := rows),
           mem.(state := mem.state[n := out], attempts := mem.attempts[n := AttemptsOf(mem.attempts, n) + 1]))
      case Stops(_, stop) => Halt(AfterStop(db.(rows := rows), stop, w.closes(k)))
  }

  function SignatureOf(defects: seq<Defect>): Signature {
    multiset(seq(|defects|, i requires 0 <= i < |defects| => (defects[i].code, defects[i].target)))
  }

  function FanOut(d: Definition, db: Db, mem: Memory, nodes: seq<NodeId>, w: World, k: nat): Move {
    var fan := Fan(d, db.rows, mem.state, mem.attempts, nodes, w, k);
    if fan.stop.Some? then Halt(AfterFanStop(db.(rows := fan.rows), fan.stop.value, w.closes(k)))
    else Go(db.(rows := fan.rows),
            mem.(state := mem.state + fan.results, attempts := Bump(mem.attempts, nodes)))
  }

  /** The verdict and what it sends back are dropped; the rest of the memory stays. */
  function Popped(q: NodeId, mem: Memory, targets: seq<NodeId>, signature: Signature): Memory {
    mem.(state := map n | n in mem.state && n != q && n !in targets :: mem.state[n],
         rework := mem.rework + 1, history := mem.history + [signature])
  }

  function HandleRejection(d: Definition, q: NodeId, db: Db, mem: Memory, verdict: Output, w: World, k: nat): Move {
    var defects := NormaliseDefects(verdict.defects);
    var targets := ReworkTargets(d, q, defects);
    if SignatureOf(defects) in mem.history || !Reworkable(defects) || mem.rework >= d.maxRework || targets == [] then
      Halt(FailRoot(db, true, w.closes(k)))
    else if w.commits(k) == 0 then Halt(db)
    else if w.commits(k) == 1 then Halt(db.(status := Reworking))
    else
      var running := db.(status := Running);
      var popped := Popped(q, mem, targets, SignatureOf(defects));
      if |targets| == 1 then Go(running, popped.(current := Some(targets[0])))
      else
        match FanOut(d, running, popped, targets, w, k)
        case Halt(stopped) => Halt(stopped)
        case Go(done, merged) =>
          if CommonJoin(d, targets) == Some(q) then Go(done, merged.(current := Some(q)))
          else Halt(FailRoot(done, false, w.closes(k)))
  }

  function Pending(state: map<NodeId, Output>, nodes: seq<NodeId>): (r: seq<NodeId>)
    ensures forall n :: n in r <==> n in nodes && n !in state
    ensures NoRepeats(nodes) ==> NoRepeats(r)
  {
    if nodes == [] then []
    else
      var rest := Pending(state, nodes[1..]);
      assert forall i :: 0 <= i < |nodes| - 1 ==> nodes[1..][i] == nodes[i + 1];
      if nodes[0] in state then rest else [nodes[0]] + rest
  }

  function Forward(d: Definition, db: Db, mem: Memory, n: NodeId, condition: Option<string>, w: World, k: nat): Move {
    var next := Successors(d, n, condition);
    if |next| > 1 then
      match FanOut(d, db, mem, Pending(mem.state, next), w, k)
      case Halt(stopped) => Halt(stopped)
      case Go(done, merged) =>
        if CommonJoin(d, next).Some? then Go(done, merged.(current := CommonJoin(d, next)))
        else Halt(FailRoot(done, false, w.closes(k)))
    else if |next| == 1 then Go(db, mem.(current := Some(next[0])))
    else Go(db, mem.(current := None))
  }

  function Route(d: Definition, q: NodeId, db: Db, mem: Memory, n: NodeId, w: World, k: nat): Move
    requires n in mem.state
  {
    if n != q then Forward(d, db, mem, n, None, w, k)
    else if mem.state[n].accept then Forward(d, db, mem, n, ACCEPT, w, k)
    else HandleRejection(d, q, db, mem, mem.state[n], w, k)
  }

  /** One iteration of the execution loop. */
  function Round(d: Definition, q: NodeId, db: Db, mem: Memory, w: World, k: nat): Move
    requires mem.current.Some?
  {
    match w.boundary(k)
    case Leave => Halt(db)
    case SeePausing => Halt(db.(status := if w.closes(k) then Paused else Pausing))
    case SeeCancelling => Halt(db.(status := if w.closes(k) then Cancelled else Cancelling))
    case SeeBlocked => Halt(db.(status := Blocked))
    case Continue =>
      match Visit(d, db, mem, mem.current.value, w, k)
      case Halt(stopped) => Halt(stopped)
      case Go(visited, after) => Route(d, q, visited, after, mem.current.value, w, k)
  }

  function RoundsLeft(d: Definition, mem: Memory): nat {
    if mem.rework < d.maxRework then d.maxRework - mem.rework else 0
  }

  ghost function Position(depth: NodeId -> nat, mem: Memory): nat {
    if mem.current.Some? then 1 + depth(mem.current.value) else 0
  }

  lemma FanOutKeepsCounters(d: Definition, db: Db, mem: Memory, nodes: seq<NodeId>, w: World, k: nat)
    ensures var m := FanOut(d, db, mem, nodes, w, k);
            m.Go? ==>
              && m.mem.rework == mem.rework && m.mem.current == mem.current
              && m.mem.history == mem.history && m.db.status == db.status
  {
  }

  lemma RejectUsesRework(d: Definition, q: NodeId, db: Db, mem: Memory, verdict: Output, w: World, k: nat)
    ensures var m := HandleRejection(d, q, db, mem, verdict, w, k);
            m.Go? ==> mem.rework < d.maxRework && m.mem.rework == mem.rework + 1
  {
    hide ReworkTargets, NormaliseDefects, SignatureOf, Reworkable, CommonJoin, Fan;
    var defects := NormaliseDefects(verdict.defects);
    var targets := ReworkTargets(d, q, defects);
    var popped := Popped(q, mem, targets, SignatureOf(defects));
    FanOutKeepsCounters(d, db.(status := Running), popped, targets, w, k);
  }

  /** A root is only sent back for defects that are new to this claim, none of
      them a safety violation, below the limit and along a route. */
  lemma {:induction false} ReworkOnlyIfNew(d: Definition, q: NodeId, db: Db, mem: Memory, verdict: Output, w: World,
                                           k: nat)
    ensures var m := HandleRejection(d, q, db, mem, verdict, w, k);
            var defects := NormaliseDefects(verdict.defects);
            && (m.Go? ==>
                  && SignatureOf(defects) !in mem.history && m.mem.history == mem.history + [SignatureOf(defects)]
                  && (forall i :: 0 <= i < |defects| ==> !defects[i].code.SafetyViolation?)
                  && mem.rework < d.maxRework && ReworkTargets(d, q, defects) != []
                  && m.db.status == Running)
            && (m.Halt? && w.commits(k) >= 2 && |ReworkTargets(d, q, defects)| == 1 && w.closes(k)
                ==> m.db.status == Blocked)
  {
    hide ReworkTargets, NormaliseDefects, SignatureOf, CommonJoin, Fan;
    var defects := NormaliseDefects(verdict.defects);
    var targets := ReworkTargets(d, q, defects);
    var popped := Popped(q, mem, targets, SignatureOf(defects));
    FanOutKeepsCounters(d, db.(status := Running), popped, targets, w, k);
  }

  lemma VisitKeepsCounters(d: Definition, db: Db, mem: Memory, n: NodeId, w: World, k: nat)
    ensures var m := Visit(d, db, mem, n, w, k);
            m.Go? ==> m.mem.rework == mem.rework && m.mem.current == mem.current && n in m.mem.state
  {
  }

  lemma RouteProgress(d: Definition, q: NodeId, depth: NodeId -> nat, db: Db, mem: Memory, n: NodeId, w: World, k: nat)
    requires WellFormed(d, q, depth) && mem.current == Some(n) && n in mem.state
    ensures Lower(d, depth, Route(d, q, db, mem, n, w, k), mem)
  {
    if n == q && !mem.state[n].accept {
      RejectUsesRework(d, q, db, mem, mem.state[n], w, k);
    } else {
      ForwardLowers(d, q, depth, db, mem, n, if n == q then ACCEPT else None, w, k);
    }
  }

  ghost predicate Lower(d: Definition, depth: NodeId -> nat, m: Move, mem: Memory) {
    m.Go? ==>
      || RoundsLeft(d, m.mem) < RoundsLeft(d, mem)
      || (RoundsLeft(d, m.mem) == RoundsLeft(d, mem) && Position(depth, m.mem) < Position(depth, mem))
  }

  /** A round that goes on either uses up a rework or moves to a node of less forward depth. */
  lemma {:induction false} RoundProgress(d: Definition, q: NodeId, depth: NodeId -> nat, db: Db, mem: Memory,
                                         w: World, k: nat)
    requires WellFormed(d, q, depth) && mem.current.Some?
    ensures Lower(d, depth, Round(d, q, db, mem, w, k), mem)
  {
    var n := mem.current.value;
    if w.boundary(k).Continue? {
      VisitKeepsCounters(d, db, mem, n, w, k);
      var v := Visit(d, db, mem, n, w, k);
      if v.Go? {
        RouteProgress(d, q, depth, v.db, v.mem, n, w, k);
      }
    }
  }

  lemma ForwardLowers(d: Definition, q: NodeId, depth: NodeId -> nat, db: Db, mem: Memory, n: NodeId,
                      c: Option<string>, w: World, k: nat)
    requires WellFormed(d, q, depth) && c != DEFECT && mem.current == Some(n)
    ensures var m := Forward(d, db, mem, n, c, w, k);
            m.Go? ==> m.mem.rework == mem.rework && Position(depth, m.mem) < Position(depth, mem)
  {
    hide Fan, Pending, Bump;
    var next := Successors(d, n, c);
    if |next| > 0 {
      SuccessorIsKnownAndLower(d, q, depth, n, c, next[0]);
      if |next| > 1 && CommonJoin(d, next).Some? {
        SuccessorIsKnownAndLower(d, q, depth, next[0], None, CommonJoin(d, next).value);
      }
    }
  }

  /** The loop runs to an end in every environment. */
  ghost function Loop(d: Definition, q: NodeId, depth: NodeId -> nat, db: Db, mem: Memory, w: World, k: nat): Db
    requires WellFormed(d, q, depth)
    decreases RoundsLeft(d, mem), Position(depth, mem)
  {
    if mem.current.None? then
      if w.closes(k) then db.(status := Succeeded) else db
    else
      RoundProgress(d, q, depth, db, mem, w, k);
      match Round(d, q, db, mem, w, k)
      case Halt(stopped) => stopped
      case Go(next, after) => Loop(d, q, depth, next, after, w, k + 1)
  }

  function FreshMemory(rows: seq<Row>, start: NodeId): Memory {
    Memory(RecoveredState(rows), RecoveredAttempts(rows), RecoveredRework(rows), [], Some(start))
  }

  /** One claim: `RuntimeEngine.execute` from the persisted rows to where it stops. */
  ghost function Claimed(d: Definition, q: NodeId, depth: NodeId -> nat, db: Db, w: World): Db
    requires WellFormed(d, q, depth)
  {
    if IsTerminal(db.status) then db
    else if db.status == Cancelling then (if w.closes(0) then db.(status := Cancelled) else db)
    else
      match w.recovery
      case RecoveryDies => db
      case RecoveryFails(calls) =>
        // whatever subset of the completed calls was settled before the failing one
        if w.closes(0) then Db(Settle(db.rows, calls), Failed) else db
      case Recovers(starts) =>
        var rows := SettleAll(db.rows);
        if db.status == Pausing then Db(rows, if w.closes(0) then Paused else Pausing)
        else if db.status != Running && (!starts || !MayMove(db.status, Running)) then Db(rows, db.status)
        else if |InitialNodes(d)| != 1 then FailRoot(Db(rows, Running), false, w.closes(0))
        else Loop(d, q, depth, Db(rows, Running), FreshMemory(rows, InitialNodes(d)[0]), w, 0)
  }

  /** Between claims the control plane may move any live root, but never to succeeded. */
  datatype Episode = ByEngine(world: World) | ByControlPlane(status: RunStatus)

  ghost function After(d: Definition, q: NodeId, depth: NodeId -> nat, db: Db, episodes: seq<Episode>): Db
    requires WellFormed(d, q, depth)
    decreases |episodes|
  {
    if episodes == [] then db
    else
      var earlier := After(d, q, depth, db, episodes[..|episodes| - 1]);
      match episodes[|episodes| - 1]
      case ByEngine(w) => Claimed(d, q, depth, earlier, w)
      case ByControlPlane(status) =>
        if IsTerminal(earlier.status) || status == Succeeded then earlier else earlier.(status := status)
  }

  const NewRoot := Db([], Queued)
}
