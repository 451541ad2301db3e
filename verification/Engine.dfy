/** The engine itself: one process working on one claimed root, with the
    persisted rows and the process memory as mutable fields. Every method is
    proved equal to its function in EngineSpec. */
module Engine {
  import opened Options
  import opened Walks
  import opened Lifecycle
  import opened WorkflowDefinitions
  import opened StepRows
  import opened EngineSpec
  import EngineInvariants
  import EngineSafety

  // ------------------------------------------------ what the recovery loops rely on

  /** Settling one journaled row moves the recovered memory at that node only. */
  lemma SettleOne(d: Definition, rows: seq<Row>, i: nat)
    requires Orderly(d, rows) && i < |rows| && Journaled(rows[i])
    ensures var after := rows[i := Settled(rows[i])];
            && Orderly(d, after)
            && RecoveredState(after) == RecoveredState(rows)[rows[i].node := rows[i].journal.value]
            && RecoveredAttempts(after) == RecoveredAttempts(rows)
            && rows[i].node in RecoveredAttempts(rows) && rows[i].attempt <= RecoveredAttempts(rows)[rows[i].node]
  {
    hide Latest, LastAttempt, NodesOf, Orderly, Open;
    var r := Settled(rows[i]);
    var after := Put(rows, i, r);
    SettledCanPut(d, rows, i);
    PutOrderly(d, rows, i, r);
    PutSame(d, rows, i, r);
    SameNodes(rows, i, r);
    forall n | n != r.node ensures Latest(after, n) == Latest(rows, n)
      && LastAttempt(after, n) == LastAttempt(rows, n) {
      PutOther(rows, i, r, n);
    }
  }

  lemma SettledCanPut(d: Definition, rows: seq<Row>, i: nat)
    requires Orderly(d, rows) && i < |rows| && Journaled(rows[i])
    ensures CanPut(d, rows, i, Settled(rows[i])) && rows[i].attempt <= LastAttempt(rows, rows[i].node)
    ensures LastAttempt(rows, rows[i].node) == rows[i].attempt
  {
    LastAttemptBounds(d, rows, rows[i].node);
    LastAttemptRow(rows, rows[i].node);
  }

  lemma SameNodes(rows: seq<Row>, i: nat, r: Row)
    requires i < |rows| && rows[i].node == r.node
    ensures NodesOf(rows[i := r]) == NodesOf(rows) && r.node in NodesOf(rows)
  {
    var after := rows[i := r];
    forall n | n in NodesOf(rows) ensures n in NodesOf(after) {
      var j :| 0 <= j < |rows| && rows[j].node == n;
      assert after[j].node == n;
    }
    forall n | n in NodesOf(after) ensures n in NodesOf(rows) {
      var j :| 0 <= j < |after| && after[j].node == n;
      assert rows[j].node == n;
    }
  }

  lemma {:induction false} TopIsReached(rows: seq<Row>)
    ensures forall i :: 0 <= i < |rows| ==> rows[i].attempt <= TopAttempt(rows)
    ensures TopAttempt(rows) > 0 ==> exists i :: 0 <= i < |rows| && rows[i].attempt == TopAttempt(rows)
  {
    if rows != [] {
      var front := rows[..|rows| - 1];
      TopIsReached(front);
      assert forall i :: 0 <= i < |front| ==> front[i] == rows[i];
      if TopAttempt(front) > 0 {
        var i :| 0 <= i < |front| && front[i].attempt == TopAttempt(front);
        assert rows[i].attempt == TopAttempt(front);
      }
    }
  }

  /** The highest recovered attempt number is the highest of any row. */
  lemma TopOfAttempts(d: Definition, rows: seq<Row>, top: nat)
    requires Orderly(d, rows)
    requires forall n :: n in RecoveredAttempts(rows) ==> RecoveredAttempts(rows)[n] <= top
    requires top == 0 || exists n :: n in RecoveredAttempts(rows) && RecoveredAttempts(rows)[n] == top
    ensures top == TopAttempt(rows)
  {
    TopIsReached(rows);
    if TopAttempt(rows) > 0 {
      var i :| 0 <= i < |rows| && rows[i].attempt == TopAttempt(rows);
      LastAttemptBounds(d, rows, rows[i].node);
      assert rows[i].node in RecoveredAttempts(rows);
    }
    if top > 0 {
      var n :| n in RecoveredAttempts(rows) && RecoveredAttempts(rows)[n] == top;
      EngineSafety.TopAttemptCovers(d, rows, n);
    }
  }

  /** The rows from `i` on have been read, the last attempt of each node first. */
  ghost predicate Scanned(rows: seq<Row>, i: nat, state: map<NodeId, Output>, attempts: map<NodeId, nat>)
    requires i <= |rows|
  {
    && (forall n :: n in state ==> Latest(rows, n).Some? && Latest(rows, n).value.output == state[n])
    && (forall n :: n !in state ==> Latest(rows, n) == Latest(rows[..i], n))
    && (forall n :: n in attempts ==> n in NodesOf(rows) && attempts[n] == LastAttempt(rows, n))
    && (forall n :: n !in attempts ==> LastAttempt(rows, n) == LastAttempt(rows[..i], n))
    && (forall j :: i <= j < |rows| ==> rows[j].node in attempts)
  }

  lemma ScannedNothing(rows: seq<Row>)
    ensures Scanned(rows, |rows|, map[], map[])
  {
    assert rows[..|rows|] == rows;
  }

  lemma ScanOne(d: Definition, rows: seq<Row>, i: nat, state: map<NodeId, Output>, attempts: map<NodeId, nat>)
    requires Orderly(d, rows) && i < |rows| && Scanned(rows, i + 1, state, attempts)
    ensures var row := rows[i];
            Scanned(rows, i, if row.node !in state && Won(row) then state[row.node := row.output] else state,
                    attempts[row.node :=
                      if AttemptsOf(attempts, row.node) > row.attempt then AttemptsOf(attempts, row.node)
                      else row.attempt])
  {
    hide Orderly;
    var row := rows[i];
    assert rows[..i + 1][..i] == rows[..i];
    LastAttemptBounds(d, rows, row.node);
  }

  lemma ScannedAll(rows: seq<Row>, state: map<NodeId, Output>, attempts: map<NodeId, nat>)
    requires Scanned(rows, 0, state, attempts)
    ensures state == RecoveredState(rows) && attempts == RecoveredAttempts(rows)
  {
    assert rows[..0] == [];
    forall n | Latest(rows, n).Some? ensures n in NodesOf(rows) {
      EngineInvariants.AcceptedHasRow(rows, n);
    }
  }

  /** A later part of a fan-out seen together with what came before it. */
  function Earlier(stop: Option<Stop>, results: map<NodeId, Output>, rest: FanResult): FanResult {
    FanResult(rest.rows, if stop.Some? then stop else rest.stop, rest.results + results)
  }

  lemma NoRepeatsBefore(nodes: seq<NodeId>, i: nat)
    requires i < |nodes| && NoRepeats(nodes)
    ensures nodes[i] !in nodes[..i]
  {
  }

  lemma FanHead(d: Definition, rows: seq<Row>, state: map<NodeId, Output>, attempts: map<NodeId, nat>,
                nodes: seq<NodeId>, w: World, k: nat)
    requires nodes != []
    ensures var n := nodes[0];
            var o := w.outcome(2 * k + 1, n);
            var rest := Fan(d, Perform(d, rows, state, n, AttemptsOf(attempts, n) + 1, o), state, attempts,
                nodes[1..], w, k);
            Fan(d, rows, state, attempts, nodes, w, k)
              == if o.Returns? then rest.(results := rest.results[n := o.out]) else rest.(stop := Some(o.stop))
  {
    hide Perform;
  }

  lemma FanStep(d: Definition, rows: seq<Row>, state: map<NodeId, Output>, attempts: map<NodeId, nat>,
                nodes: seq<NodeId>, w: World, k: nat, i: nat, stop: Option<Stop>, results: map<NodeId, Output>)
    requires i < |nodes| && NoRepeats(nodes) && forall n :: n in results ==> n in nodes[..i]
    ensures var n := nodes[i];
            var o := w.outcome(2 * k + 1, n);
            var rest := Fan(d, Perform(d, rows, state, n, AttemptsOf(attempts, n) + 1, o), state, attempts,
                nodes[i + 1..], w, k);
            var all := Earlier(stop, results, Fan(d, rows, state, attempts, nodes[i..], w, k));
            match o
            case Returns(out) => all == Earlier(stop, results[n := out], rest)
            case Stops(_, s) => all == Earlier(if stop.None? then Some(s) else stop, results, rest)
    ensures nodes[i] in nodes[..i + 1] && forall n :: n in nodes[..i] ==> n in nodes[..i + 1]
  {
    hide Perform, NoRepeats, Fan;
    FanHead(d, rows, state, attempts, nodes[i..], w, k);
    var n := nodes[i];
    assert n !in results by { NoRepeatsBefore(nodes, i); }
    assert nodes[i..][0] == n && nodes[i..][1..] == nodes[i + 1..];
    assert nodes[..i + 1] == nodes[..i] + [n];
    var o := w.outcome(2 * k + 1, n);
    if o.Returns? {
      var rest := Fan(d, Perform(d, rows, state, n, AttemptsOf(attempts, n) + 1, o), state, attempts, nodes[i + 1..],
          w, k);
      assert rest.results[n := o.out] + results == rest.results + results[n := o.out];
    }
  }

  lemma EarlierNothing(d: Definition, rows: seq<Row>, state: map<NodeId, Output>, attempts: map<NodeId, nat>,
                       nodes: seq<NodeId>, w: World, k: nat, stop: Option<Stop>, results: map<NodeId, Output>)
    ensures Earlier(stop, results, Fan(d, rows, state, attempts, nodes[|nodes|..], w, k))
      == FanResult(rows, stop, results)
    ensures Earlier(None, map[], Fan(d, rows, state, attempts, nodes[0..], w, k))
      == Fan(d, rows, state, attempts, nodes, w, k)
  {
    hide Perform;
    assert nodes[0..] == nodes;
    var fan := Fan(d, rows, state, attempts, nodes, w, k);
    assert fan.results + map[] == fan.results;
    assert map[] + results == results;
  }

  lemma BumpOne(attempts: map<NodeId, nat>, nodes: seq<NodeId>, i: nat)
    requires i < |nodes| && NoRepeats(nodes)
    ensures var n := nodes[i];
            var before := Bump(attempts, nodes[..i]);
            Bump(attempts, nodes[..i + 1]) == before[n := AttemptsOf(before, n) + 1]
  {
    assert nodes[..i + 1] == nodes[..i] + [nodes[i]];
    assert nodes[i] !in nodes[..i];
  }

  /** A fan-out that returned has a result for every branch. */
  lemma {:induction false} FanAnswers(d: Definition, rows: seq<Row>, state: map<NodeId, Output>,
                                      attempts: map<NodeId, nat>, nodes: seq<NodeId>, w: World, k: nat)
    ensures var fan := Fan(d, rows, state, attempts, nodes, w, k);
            fan.stop.None? ==> fan.results.Keys == set n | n in nodes
    decreases |nodes|
  {
    hide Perform;
    if nodes != [] {
      var n := nodes[0];
      assert nodes == [n] + nodes[1..];
      FanAnswers(d, Perform(d, rows, state, n, AttemptsOf(attempts, n) + 1, w.outcome(2 * k + 1, n)), state, attempts,
          nodes[1..], w, k);
    }
  }

  /** The results of the branches `done` have been taken over. */
  ghost predicate Merged(before: map<NodeId, Output>, results: map<NodeId, Output>, done: seq<NodeId>,
                         state: map<NodeId, Output>) {
    && (forall n :: n in done ==> n in results)
    && (forall n :: n in state <==> n in before || n in done)
    && (forall n :: n in state ==> state[n] == if n in done then results[n] else before[n])
  }

  lemma MergedNothing(before: map<NodeId, Output>, results: map<NodeId, Output>, done: seq<NodeId>)
    requires done == []
    ensures Merged(before, results, done, before)
  {
  }

  lemma MergeOne(before: map<NodeId, Output>, results: map<NodeId, Output>, nodes: seq<NodeId>, i: nat,
                 state: map<NodeId, Output>)
    requires i < |nodes| && nodes[i] in results && Merged(before, results, nodes[..i], state)
    ensures Merged(before, results, nodes[..i + 1], state[nodes[i] := results[nodes[i]]])
  {
    assert nodes[..i + 1] == nodes[..i] + [nodes[i]];
  }

  lemma MergedAll(before: map<NodeId, Output>, results: map<NodeId, Output>, nodes: seq<NodeId>,
                  state: map<NodeId, Output>)
    requires Merged(before, results, nodes, state) && results.Keys == set n | n in nodes
    ensures state == before + results
  {
  }

  lemma BumpNothing(attempts: map<NodeId, nat>, nodes: seq<NodeId>)
    ensures Bump(attempts, nodes[..0]) == attempts
  {
  }

  lemma RootOrderly(d: Definition, q: NodeId, depth: NodeId -> nat, db: Db)
    requires WellFormed(d, q, depth) && EngineSafety.RootOk(d, q, depth, db)
    ensures Orderly(d, db.rows)
  {
  }

  lemma FreshIsHeld(mem: Memory, rows: seq<Row>, start: NodeId)
    requires mem == Memory(RecoveredState(rows), RecoveredAttempts(rows), RecoveredRework(rows), [], Some(start))
    ensures mem == FreshMemory(rows, start)
  {
  }

  lemma LoopUnfolds(d: Definition, q: NodeId, depth: NodeId -> nat, db: Db, mem: Memory, w: World, k: nat)
    requires WellFormed(d, q, depth) && mem.current.Some?
    ensures var m := Round(d, q, db, mem, w, k);
            && Lower(d, depth, m, mem)
            && Loop(d, q, depth, db, mem, w, k) == if m.Go? then Loop(d, q, depth, m.db, m.mem, w, k + 1) else m.db
  {
    hide WellFormed, Round;
    RoundProgress(d, q, depth, db, mem, w, k);
  }

  lemma LoopEnds(d: Definition, q: NodeId, depth: NodeId -> nat, db: Db, mem: Memory, w: World, k: nat)
    requires WellFormed(d, q, depth) && mem.current.None?
    ensures Loop(d, q, depth, db, mem, w, k) == if w.closes(k) then db.(status := Succeeded) else db
  {
  }

  /** Several successors, or several rework targets, are distinct nodes. */
  lemma PendingDistinct(d: Definition, q: NodeId, depth: NodeId -> nat, n: NodeId, c: Option<string>,
                        state: map<NodeId, Output>)
    requires WellFormed(d, q, depth) && c != DEFECT
    ensures NoRepeats(Pending(state, Successors(d, n, c)))
  {
    SuccessorsDistinct(d.edges, n, c);
  }

  class RuntimeEngine {
    const d: Definition
    const q: NodeId
    // the durable part
    var rows: seq<Row>
    var status: RunStatus
    // the process memory
    var state: map<NodeId, Output>
    var attempts: map<NodeId, nat>
    var reworkCount: nat
    var history: seq<Signature>
    var current: Option<NodeId>

    function Stored(): Db reads this { Db(rows, status) }

    function Held(): Memory reads this { Memory(state, attempts, reworkCount, history, current) }

    constructor (d: Definition, q: NodeId, stored: Db)
      ensures this.d == d && this.q == q && Stored() == stored
    {
      this.d, this.q := d, q;
      rows, status := stored.rows, stored.status;
      state, attempts, reworkCount, history, current := map[], map[], 0, [], None;
    }

    /** Rebuild the outputs and the attempt numbers from the rows, last attempt first. */
    method RecoverState()
      requires Orderly(d, rows)
      modifies this`state, this`attempts
      ensures state == RecoveredState(rows) && attempts == RecoveredAttempts(rows)
    {
      hide Scanned, RecoveredState, RecoveredAttempts, Orderly, LastAttempt, Latest;
      state, attempts := map[], map[];
      ScannedNothing(rows);
      var i := |rows|;
      while i > 0
        invariant 0 <= i <= |rows|
        invariant Scanned(rows, i, state, attempts)
      {
        i := i - 1;
        var row := rows[i];
        ScanOne(d, rows, i, state, attempts);
        attempts := attempts[row.node :=
          if AttemptsOf(attempts, row.node) > row.attempt then AttemptsOf(attempts, row.node) else row.attempt];
        if row.node !in state && Won(row) {
          state := state[row.node := row.output];
        }
      }
      ScannedAll(rows, state, attempts);
    }

    /** Mark the steps of journaled provider completions succeeded, in the order of
        the calls, without calling the provider. */
    method RecoverCompletedProviderResults(calls: seq<nat>)
      requires Orderly(d, rows)
      requires state == RecoveredState(rows) && attempts == RecoveredAttempts(rows)
      modifies this`rows, this`state, this`attempts
      ensures rows == Settle(old(rows), calls) && Orderly(d, rows)
      ensures state == RecoveredState(rows) && attempts == RecoveredAttempts(rows)
    {
      hide RecoveredState, RecoveredAttempts, Orderly, Settle, Settled, LastAttempt;
      SettleNothing(rows);
      assert calls[..0] == [];
      for k := 0 to |calls|
        invariant |rows| == old(|rows|) && Orderly(d, rows)
        invariant rows == Settle(old(rows), calls[..k])
        invariant state == RecoveredState(rows) && attempts == RecoveredAttempts(rows)
      {
        var i := calls[k];
        SettleStep(old(rows), calls[..k], i);
        assert calls[..k + 1] == calls[..k] + [i];
        if i < |rows| && Journaled(rows[i]) {
          var row := rows[i];
          SettleOne(d, rows, i);
          rows := rows[i := Settled(row)];
          state := state[row.node := row.journal.value];
          attempts := attempts[row.node := HighestAttempt(row.node, row.attempt)];
        }
      }
      assert calls[..|calls|] == calls;
    }

    function HighestAttempt(n: NodeId, attempt: nat): nat reads this {
      if AttemptsOf(attempts, n) > attempt then AttemptsOf(attempts, n) else attempt
    }

    /** The bounded rework counter, rebuilt from the recovered attempt numbers. */
    method RecoverReworkCount()
      requires Orderly(d, rows) && attempts == RecoveredAttempts(rows)
      modifies this`reworkCount
      ensures reworkCount == RecoveredRework(rows)
    {
      var top, rest := 0, attempts.Keys;
      while rest != {}
        invariant rest <= attempts.Keys
        invariant forall n :: n in attempts && n !in rest ==> attempts[n] <= top
        invariant top == 0 || exists n :: n in attempts && attempts[n] == top
        decreases rest
      {
        var n :| n in rest;
        if attempts[n] > top {
          top := attempts[n];
        }
        rest := rest - {n};
      }
      TopOfAttempts(d, rows, top);
      reworkCount := if top == 0 then 0 else top - 1;
    }

    /** The interrupted attempt of an action that a new execution adopts. */
    method FindUnfinished(n: NodeId) returns (i: nat)
      ensures i == RowIndex(d, rows, n)
    {
      if IsSkill(d, n) {
        return |rows|;
      }
      i := |rows|;
      assert rows[..i] == rows;
      while i > 0
        invariant 0 <= i <= |rows|
        invariant LastUnfinished(rows, n) == LastUnfinished(rows[..i], n)
      {
        assert rows[..i][..i - 1] == rows[..i - 1];
        if rows[i - 1].node == n && Unfinished(rows[i - 1]) {
          return i - 1;
        }
        i := i - 1;
      }
      return |rows|;
    }

    /** One node execution: create or adopt the attempt, then store how it went. */
    method ExecuteNode(n: NodeId, attempt: nat, o: Outcome)
      modifies this`rows
      ensures rows == Perform(d, old(rows), state, n, attempt, o)
    {
      if o.Stops? && o.ending.Absent? {
        return;
      }
      var i := FindUnfinished(n);
      var adopted := i < |rows|;
      var row := Row(n, if adopted then rows[i].attempt else attempt, StepRunning, None, Output(0, false, []),
          Project(d, state, n));
      rows := if adopted then rows[i := row] else rows + [row];
      match o {
        case Returns(out) =>
          rows := rows[i := row.(status := StepSucceeded, output := out)];
        case Stops(LeftRunning(journal), _) =>
          if IsSkill(d, n) {
            rows := rows[i := row.(journal := journal)];
          }
        case Stops(Ended(status), _) =>
          var final := if status in {StepFailed, StepBlocked, StepCancelled} then status else StepFailed;
          rows := rows[i := row.(status := final)];
        case Stops(Stored(out), _) =>
          rows := rows[i := row.(status := StepSucceeded, output := out)];
      }
    }

    /** Every branch executes from the state at the fork; the first stop is reported. */
    method ExecuteFanout(nodes: seq<NodeId>, w: World, k: nat)
      returns (stop: Option<Stop>, results: map<NodeId, Output>)
      requires NoRepeats(nodes)
      modifies this`rows
      ensures FanResult(rows, stop, results) == Fan(d, old(rows), state, attempts, nodes, w, k)
    {
      hide Fan;
      stop, results := None, map[];
      EarlierNothing(d, rows, state, attempts, nodes, w, k, stop, results);
      var i := 0;
      while i < |nodes|
        invariant 0 <= i <= |nodes|
        invariant forall n :: n in results ==> n in nodes[..i]
        invariant Fan(d, old(rows), state, attempts, nodes, w, k)
               == Earlier(stop, results, Fan(d, rows, state, attempts, nodes[i..], w, k))
      {
        hide *;
        var n := nodes[i];
        var o := w.outcome(2 * k + 1, n);
        FanStep(d, rows, state, attempts, nodes, w, k, i, stop, results);
        ExecuteNode(n, AttemptsOf(attempts, n) + 1, o);
        match o {
          case Returns(out) => results := results[n := out];
          case Stops(_, s) => if stop.None? { stop := Some(s); }
        }
        i := i + 1;
      }
      EarlierNothing(d, rows, state, attempts, nodes, w, k, stop, results);
    }

    /** What the fields say after a round that halted or goes on. */
    function Moved(halted: bool): Move reads this {
      if halted then Halt(Stored()) else Go(Stored(), Held())
    }

    method FailRoot(blocked: bool, closes: bool)
      modifies this`status
      ensures Stored() == EngineSpec.FailRoot(old(Stored()), blocked, closes)
    {
      if closes {
        status := if blocked then Blocked else Failed;
      }
    }

    /** Run the current node unless its output is already held. */
    method VisitCurrent(w: World, k: nat) returns (halted: bool)
      requires current.Some?
      modifies this`rows, this`status, this`state, this`attempts
      ensures Moved(halted) == Visit(d, old(Stored()), old(Held()), old(current).value, w, k)
    {
      hide Perform;
      var n := current.value;
      if n in state {
        return false;
      }
      var o := w.outcome(2 * k, n);
      ExecuteNode(n, AttemptsOf(attempts, n) + 1, o);
      match o {
        case Returns(out) =>
          state := state[n := out];
          attempts := attempts[n := AttemptsOf(attempts, n) + 1];
          return false;
        case Stops(_, Dies) => return true;
        case Stops(_, Cancels) =>
          if w.closes(k) { status := Cancelled; }
          return true;
        case Stops(_, AwaitsApproval) =>
          if w.closes(k) { status := WaitingApproval; }
          return true;
        case Stops(_, Raises(blocked)) =>
          FailRoot(blocked, w.closes(k));
          return true;
      }
    }

    /** Run branches and merge what they returned. */
    method FanOutAndMerge(nodes: seq<NodeId>, w: World, k: nat) returns (halted: bool)
      requires NoRepeats(nodes)
      modifies this`rows, this`status, this`state, this`attempts
      ensures Moved(halted) == FanOut(d, old(Stored()), old(Held()), nodes, w, k)
    {
      hide Fan, Bump, NoRepeats, Merged;
      FanAnswers(d, rows, state, attempts, nodes, w, k);
      var stop, results := ExecuteFanout(nodes, w, k);
      if stop.Some? {
        match stop.value {
          case Dies | Cancels =>
          case AwaitsApproval => FailRoot(false, w.closes(k));
          case Raises(blocked) => FailRoot(blocked, w.closes(k));
        }
        return true;
      }
      BumpNothing(attempts, nodes);
      MergedNothing(state, results, nodes[..0]);
      ghost var stored := Stored();
      for i := 0 to |nodes|
        invariant Stored() == stored
        invariant Merged(old(state), results, nodes[..i], state)
        invariant attempts == Bump(old(attempts), nodes[..i])
      {
        BumpOne(old(attempts), nodes, i);
        MergeOne(old(state), results, nodes, i, state);
        state := state[nodes[i] := results[nodes[i]]];
        attempts := attempts[nodes[i] := AttemptsOf(attempts, nodes[i]) + 1];
      }
      assert nodes[..|nodes|] == nodes;
      MergedAll(old(state), results, nodes, state);
      return false;
    }

    /** The verdict rejects: block the root, or send it back within the rework limit. */
    method HandleRejection(w: World, k: nat) returns (halted: bool)
      requires q in state
      modifies this
      ensures Moved(halted) == EngineSpec.HandleRejection(d, q, old(Stored()), old(Held()), old(state)[q], w, k)
    {
      hide Fan, Bump, SignatureOf, ReworkTargets, CommonJoin, FanOut;
      var defects := NormaliseDefects(state[q].defects);
      var repeated := SignatureOf(defects) in history;
      var targets := CollectReworkTargets(d, q, defects);
      if repeated || !Reworkable(defects) || reworkCount >= d.maxRework || targets == [] {
        FailRoot(true, w.closes(k));
        return true;
      }
      if w.commits(k) == 0 {
        return true;
      }
      status := Reworking;
      if w.commits(k) == 1 {
        return true;
      }
      status := Running;
      history := history + [SignatureOf(defects)];
      reworkCount := reworkCount + 1;
      state := map n | n in state && n != q && n !in targets :: state[n];
      if |targets| == 1 {
        current := Some(targets[0]);
        return false;
      }
      halted := FanOutAndMerge(targets, w, k);
      if !halted {
        if CommonJoin(d, targets) == Some(q) {
          current := Some(q);
        } else {
          FailRoot(false, w.closes(k));
          return true;
        }
      }
    }

    /** Move to the next node, through a fan-out if there are several. */
    method GoForward(ghost depth: NodeId -> nat, condition: Option<string>, w: World, k: nat) returns (halted: bool)
      requires WellFormed(d, q, depth) && condition != DEFECT && current.Some?
      modifies this
      ensures Moved(halted) == Forward(d, old(Stored()), old(Held()), old(current).value, condition, w, k)
    {
      hide Fan, Bump, Successors, CommonJoin, FanOut, WellFormed;
      var next := Successors(d, current.value, condition);
      if |next| > 1 {
        PendingDistinct(d, q, depth, current.value, condition, state);
        halted := FanOutAndMerge(Pending(state, next), w, k);
        if !halted {
          var join := CommonJoin(d, next);
          if join.Some? {
            current := join;
          } else {
            FailRoot(false, w.closes(k));
            return true;
          }
        }
      } else {
        current := if |next| == 1 then Some(next[0]) else None;
        return false;
      }
    }

    /** The body of the loop. */
    method RunRound(ghost depth: NodeId -> nat, w: World, k: nat) returns (halted: bool)
      requires WellFormed(d, q, depth) && current.Some?
      modifies this
      ensures Moved(halted) == Round(d, q, old(Stored()), old(Held()), w, k)
    {
      hide WellFormed, Visit, Forward, EngineSpec.HandleRejection;
      match w.boundary(k) {
        case Leave => return true;
        case SeePausing =>
          status := if w.closes(k) then Paused else Pausing;
          return true;
        case SeeCancelling =>
          status := if w.closes(k) then Cancelled else Cancelling;
          return true;
        case SeeBlocked =>
          status := Blocked;
          return true;
        case Continue =>
          var n := current.value;
          VisitKeepsCounters(d, Stored(), Held(), n, w, k);
          halted := VisitCurrent(w, k);
          if halted {
            return;
          }
          if n != q {
            halted := GoForward(depth, None, w, k);
          } else if state[n].accept {
            halted := GoForward(depth, ACCEPT, w, k);
          } else {
            halted := HandleRejection(w, k);
          }
      }
    }

    /** One claim of the root, from recovery to where the engine stops. */
    method Execute(ghost depth: NodeId -> nat, w: World)
      requires WellFormed(d, q, depth) && EngineSafety.RootOk(d, q, depth, Stored())
      modifies this
      ensures Stored() == Claimed(d, q, depth, old(Stored()), w)
      ensures EngineSafety.RootOk(d, q, depth, Stored())
    {
      hide WellFormed, EngineSafety.RootOk, Settle, AllRows, FreshMemory, RecoveredState, RecoveredAttempts;
      hide RecoveredRework, Round, InitialNodes, Orderly, EngineSpec.FailRoot, Loop;
      EngineSafety.ClaimKeeps(d, q, depth, Stored(), w);
      RootOrderly(d, q, depth, Stored());
      if IsTerminal(status) {
        return;
      }
      if status == Cancelling {
        if w.closes(0) { status := Cancelled; }
        return;
      }
      if w.recovery.RecoveryDies? {
        return;
      }
      RecoverState();
      if w.recovery.RecoveryFails? {
        if w.closes(0) {
          RecoverCompletedProviderResults(w.recovery.calls);
          status := Failed;
        }
        return;
      }
      RecoverCompletedProviderResults(AllRows(rows));
      if status == Pausing {
        status := if w.closes(0) then Paused else Pausing;
        return;
      }
      if status != Running {
        if !w.recovery.starts || !MayMove(status, Running) {
          return;
        }
        status := Running;
      }
      var initial := InitialNodes(d);
      if |initial| != 1 {
        FailRoot(false, w.closes(0));
        return;
      }
      current := Some(initial[0]);
      RecoverReworkCount();
      history := [];
      FreshIsHeld(Held(), rows, initial[0]);
      var k := 0;
      while current.Some?
        invariant Loop(d, q, depth, Stored(), Held(), w, k) == Claimed(d, q, depth, old(Stored()), w)
        decreases RoundsLeft(d, Held()), Position(depth, Held())
      {
        LoopUnfolds(d, q, depth, Stored(), Held(), w, k);
        var halted := RunRound(depth, w, k);
        if halted {
          return;
        }
        k := k + 1;
      }
      LoopEnds(d, q, depth, Stored(), Held(), w, k);
      if w.closes(k) {
        status := Succeeded;
      }
    }
  }
}
