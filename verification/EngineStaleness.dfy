/** Why coherence asks that a rework renews the readers of what it renews: it
    drops its targets and the verdict, and nothing in between. */
module EngineStaleness {
  import opened Options
  import opened Walks
  import opened Lifecycle
  import opened WorkflowDefinitions
  import opened StepRows
  import opened EngineSpec
  import opened EngineInvariants
  import EngineSafety
  import EngineExactness

  // ------------------------------------------------ the walk, node by node

  /** The branches run in one fan-out when the walk leaves `n`. */
  function Branches(d: Definition, n: NodeId): seq<NodeId> {
    var s := Successors(d, n, None);
    if |s| > 1 then s else []
  }

  /** Rounds from `n` to the quality node. */
  ghost function Hops(d: Definition, q: NodeId, depth: NodeId -> nat, n: NodeId): nat
    requires WellFormed(d, q, depth) && Hits(d, q, depth, n)
    decreases depth(n)
  {
    if n == q then 0 else
      NextHopLower(d, q, depth, n);
      1 + Hops(d, q, depth, NextHop(d, n).node)
  }

  /** The walk from `n` to the quality node runs `m`, in person or as a branch. */
  ghost predicate Runs(d: Definition, q: NodeId, depth: NodeId -> nat, n: NodeId, m: NodeId)
    requires WellFormed(d, q, depth) && Hits(d, q, depth, n)
    decreases depth(n)
  {
    n != q &&
    (NextHopLower(d, q, depth, n);
     n == m || m in Branches(d, n) || Runs(d, q, depth, NextHop(d, n).node, m))
  }

  /** The walk from `n` to the quality node has run `t` when it runs `m`. */
  ghost predicate RunsBefore(d: Definition, q: NodeId, depth: NodeId -> nat, n: NodeId, t: NodeId, m: NodeId)
    requires WellFormed(d, q, depth) && Hits(d, q, depth, n)
    decreases depth(n)
  {
    n != q &&
    (NextHopLower(d, q, depth, n);
     var next := NextHop(d, n).node;
     || (n == t && m in Branches(d, n))
     || ((n == t || t in Branches(d, n)) && Runs(d, q, depth, next, m))
     || RunsBefore(d, q, depth, next, t, m))
  }

  // ------------------------------------------------ undisturbed rounds

  /** Until round `stop` nothing fails; outputs carry the time they were made. */
  ghost predicate Calm(w: World, stop: nat) {
    && (forall k: nat :: k < stop ==> w.boundary(k) == Continue)
    && w.boundary(stop) == Leave
    && (forall k, n :: w.outcome(k, n).Returns? && w.outcome(k, n).out.content == k)
    && (forall k :: w.commits(k) == 2)
    && (forall k :: w.closes(k))
    && w.recovery == Recovers(true)
  }

  predicate AllWon(rows: seq<Row>) {
    forall i :: 0 <= i < |rows| ==> Won(rows[i])
  }

  /** Every attempt succeeded and the memory holds each node's latest output. */
  ghost predicate Plain(rows: seq<Row>, state: map<NodeId, Output>) {
    && AllWon(rows)
    && (forall n :: n in state ==> Latest(rows, n).Some? && Latest(rows, n).value.output == state[n])
  }

  /** What one state of the root keeps of an earlier one. */
  ghost predicate Kept(before: seq<Row>, state: map<NodeId, Output>, after: seq<Row>, state': map<NodeId, Output>,
                       lo: nat, hi: nat) {
    && Plain(after, state')
    && (forall n :: n in state ==> n in state' && state'[n] == state[n] && Latest(after, n) == Latest(before, n))
    && (forall n :: n in state' && n !in state ==> 2 * lo <= state'[n].content < 2 * hi)
  }

  lemma {:induction false} NoUnfinished(rows: seq<Row>, n: NodeId)
    requires AllWon(rows)
    ensures LastUnfinished(rows, n).None?
  {
    if rows != [] {
      NoUnfinished(rows[..|rows| - 1], n);
    }
  }

  lemma PerformAppends(d: Definition, rows: seq<Row>, state: map<NodeId, Output>, n: NodeId, attempt: nat, out: Output)
    requires AllWon(rows)
    ensures Perform(d, rows, state, n, attempt, Returns(out))
         == rows + [Row(n, attempt, StepSucceeded, None, out, Project(d, state, n))]
  {
    hide IsSkill, Project;
    NoUnfinished(rows, n);
  }

  lemma AppendLatest(rows: seq<Row>, r: Row, n: NodeId)
    requires Won(r)
    ensures Latest(rows + [r], n) == if n == r.node then Some(r) else Latest(rows, n)
  {
    assert (rows + [r])[..|rows|] == rows;
  }

  /** The latest success of `n` is `out`, computed from what `state` authorises. */
  ghost predicate Stored(d: Definition, rows: seq<Row>, state: map<NodeId, Output>, n: NodeId, out: Output) {
    Latest(rows, n).Some? && Latest(rows, n).value.output == out && Latest(rows, n).value.inputs == Project(d, state, n)
  }

  ghost predicate Fanned(d: Definition, rows: seq<Row>, state: map<NodeId, Output>, nodes: seq<NodeId>, k: nat,
                         fan: FanResult) {
    && fan.stop.None?
    && AllWon(fan.rows)
    && (forall n :: n in fan.results <==> n in nodes)
    && (forall n :: n !in nodes ==> Latest(fan.rows, n) == Latest(rows, n))
    && (forall n :: n in nodes ==> Stored(d, fan.rows, state, n, fan.results[n]) && fan.results[n].content == 2 * k + 1)
  }

  lemma StoredSame(d: Definition, a: seq<Row>, b: seq<Row>, state: map<NodeId, Output>, n: NodeId, out: Output)
    requires Stored(d, a, state, n, out) && Latest(b, n) == Latest(a, n)
    ensures Stored(d, b, state, n, out)
  {
  }

  lemma AppendStored(d: Definition, rows: seq<Row>, state: map<NodeId, Output>, n: NodeId, attempt: nat, out: Output)
    ensures var after := rows + [Row(n, attempt, StepSucceeded, None, out, Project(d, state, n))];
            Stored(d, after, state, n, out) && (AllWon(rows) ==> AllWon(after)) && forall m :: m != n ==>
              Latest(after, m) == Latest(rows, m)
  {
    hide Project, Latest;
    var r := Row(n, attempt, StepSucceeded, None, out, Project(d, state, n));
    forall m ensures Latest(rows + [r], m) == if m == n then Some(r) else Latest(rows, m) {
      AppendLatest(rows, r, m);
    }
  }

  lemma FannedStep(d: Definition, rows: seq<Row>, state: map<NodeId, Output>, nodes: seq<NodeId>, k: nat,
                   after: seq<Row>, rest: FanResult, out: Output)
    requires NoRepeats(nodes) && nodes != [] && out.content == 2 * k + 1
    requires Stored(d, after, state, nodes[0], out) && forall m :: m != nodes[0] ==> Latest(after, m) == Latest(rows, m)
    requires Fanned(d, after, state, nodes[1..], k, rest)
    ensures Fanned(d, rows, state, nodes, k, rest.(results := rest.results[nodes[0] := out]))
  {
    hide Stored, Latest;
    assert nodes == [nodes[0]] + nodes[1..];
    assert nodes[0] !in nodes[1..];
    StoredSame(d, after, rest.rows, state, nodes[0], out);
  }

  lemma CalmReturns(w: World, stop: nat, k: nat, n: NodeId)
    requires Calm(w, stop)
    ensures w.outcome(k, n).Returns? && w.outcome(k, n).out.content == k
  {
  }

  /** Each branch's success is stored with the inputs it was given. */
  lemma {:induction false} FanAppends(d: Definition, rows: seq<Row>, state: map<NodeId, Output>,
                                      attempts: map<NodeId, nat>, nodes: seq<NodeId>, w: World, k: nat, stop: nat)
    requires Calm(w, stop) && NoRepeats(nodes) && AllWon(rows)
    ensures Fanned(d, rows, state, nodes, k, Fan(d, rows, state, attempts, nodes, w, k))
    decreases |nodes|
  {
    if nodes != [] {
      hide *;
      var n, attempt := nodes[0], AttemptsOf(attempts, nodes[0]) + 1;
      NoRepeatsTail(nodes);
      CalmReturns(w, stop, 2 * k + 1, n);
      var out := w.outcome(2 * k + 1, n).out;
      var r := Row(n, attempt, StepSucceeded, None, out, Project(d, state, n));
      AppendStored(d, rows, state, n, attempt, out);
      FanReturns(d, rows, state, attempts, nodes, w, k);
      FanAppends(d, rows + [r], state, attempts, nodes[1..], w, k, stop);
      FannedStep(d, rows, state, nodes, k, rows + [r], Fan(d, rows + [r], state, attempts, nodes[1..], w, k), out);
    }
  }

  lemma FanOutKept(d: Definition, db: Db, mem: Memory, nodes: seq<NodeId>, w: World, k: nat, stop: nat)
    requires Calm(w, stop) && NoRepeats(nodes) && Plain(db.rows, mem.state)
    requires forall n :: n in nodes ==> n !in mem.state
    ensures var m := FanOut(d, db, mem, nodes, w, k);
            && m.Go? && Kept(db.rows, mem.state, m.db.rows, m.mem.state, k, k + 1)
            && m.mem.rework == mem.rework && m.mem.history == mem.history && m.mem.current == mem.current
            && m.mem.state.Keys == mem.state.Keys + (set n | n in nodes)
            && (forall n :: n in nodes ==> Latest(m.db.rows, n).value.inputs == Project(d, mem.state, n))
  {
    hide Fan, Project, Latest, Kept;
    FanAppends(d, db.rows, mem.state, mem.attempts, nodes, w, k, stop);
    FannedKept(d, db.rows, mem.state, nodes, k, Fan(d, db.rows, mem.state, mem.attempts, nodes, w, k));
  }

  lemma FannedKept(d: Definition, rows: seq<Row>, state: map<NodeId, Output>, nodes: seq<NodeId>, k: nat,
                   fan: FanResult)
    requires Plain(rows, state) && Fanned(d, rows, state, nodes, k, fan) && forall n :: n in nodes ==> n !in state
    ensures Kept(rows, state, fan.rows, state + fan.results, k, k + 1)
  {
    hide Project, Latest;
  }

  lemma VisitKept(d: Definition, db: Db, mem: Memory, n: NodeId, w: World, k: nat, stop: nat)
    requires Calm(w, stop) && Plain(db.rows, mem.state)
    ensures var m := Visit(d, db, mem, n, w, k);
            && m.Go? && Kept(db.rows, mem.state, m.db.rows, m.mem.state, k, k + 1)
            && m.mem.rework == mem.rework && m.mem.history == mem.history && m.mem.current == mem.current
            && m.mem.state.Keys == mem.state.Keys + {n}
            && (n !in mem.state ==>
                  && m.mem.state[n] == w.outcome(2 * k, n).out
                  && Latest(m.db.rows, n).value.inputs == Project(d, mem.state, n))
  {
    hide Perform, Project, Latest, Kept;
    if n in mem.state {
      KeptSelf(db.rows, mem.state, k);
    } else {
      var out := w.outcome(2 * k, n).out;
      var attempt := AttemptsOf(mem.attempts, n) + 1;
      PerformAppends(d, db.rows, mem.state, n, attempt, out);
      AppendStored(d, db.rows, mem.state, n, attempt, out);
      StoredKept(d, db.rows, mem.state, n, out, Perform(d, db.rows, mem.state, n, attempt, Returns(out)), k);
    }
  }

  lemma KeptSelf(rows: seq<Row>, state: map<NodeId, Output>, k: nat)
    requires Plain(rows, state)
    ensures Kept(rows, state, rows, state, k, k + 1)
  {
  }

  lemma StoredKept(d: Definition, rows: seq<Row>, state: map<NodeId, Output>, n: NodeId, out: Output, after: seq<Row>,
                   k: nat)
    requires Plain(rows, state) && n !in state && Stored(d, after, state, n, out) && 2 * k <= out.content < 2 * k + 2
    requires AllWon(after) && forall m :: m != n ==> Latest(after, m) == Latest(rows, m)
    ensures Kept(rows, state, after, state[n := out], k, k + 1)
  {
    hide Project, Latest;
  }

  lemma KeptTwice(a: seq<Row>, sa: map<NodeId, Output>, b: seq<Row>, sb: map<NodeId, Output>, c: seq<Row>,
                  sc: map<NodeId, Output>, lo: nat, mid: nat, mid': nat, hi: nat)
    requires Kept(a, sa, b, sb, lo, mid) && Kept(b, sb, c, sc, mid', hi) && lo <= mid' && mid <= hi
    ensures Kept(a, sa, c, sc, lo, hi)
  {
    hide Plain, Latest;
  }

  /** `m` has been computed from what the memory holds for `t`. */
  ghost predicate ReadFrom(rows: seq<Row>, state: map<NodeId, Output>, t: NodeId, m: NodeId) {
    && m in state && t in state && Latest(rows, m).Some?
    && t in Latest(rows, m).value.inputs && Latest(rows, m).value.inputs[t] == state[t]
  }

  lemma ReadFromKept(a: seq<Row>, sa: map<NodeId, Output>, b: seq<Row>, sb: map<NodeId, Output>, lo: nat, hi: nat,
                     t: NodeId, m: NodeId)
    requires Kept(a, sa, b, sb, lo, hi) && ReadFrom(a, sa, t, m)
    ensures ReadFrom(b, sb, t, m)
  {
    hide Plain, Latest;
  }

  /** Going on from an accepted or unchecked node keeps everything and reads what is there. */
  lemma ForwardKept(d: Definition, q: NodeId, depth: NodeId -> nat, db: Db, mem: Memory, n: NodeId, c: Option<string>,
                    w: World, k: nat, stop: nat)
    requires WellFormed(d, q, depth) && Calm(w, stop) && Plain(db.rows, mem.state) && c != DEFECT
    ensures var m := Forward(d, db, mem, n, c, w, k);
            && Kept(db.rows, mem.state, m.db.rows, (if m.Go? then m.mem.state else mem.state), k, k + 1)
            && (m.Go? ==>
                  && m.mem.rework == mem.rework && m.mem.history == mem.history
                  && (forall x :: x in m.mem.state <==>
                      x in mem.state || (|Successors(d, n, c)| > 1 && x in Successors(d, n, c)))
                  && (forall x :: x in m.mem.state && x !in mem.state ==>
                      Latest(m.db.rows, x).value.inputs == Project(d, mem.state, x)))
  {
    hide WellFormed, FanOut, CommonJoin, Successors, Project, Latest;
    var next := Successors(d, n, c);
    if |next| > 1 {
      SuccessorsNoRepeats(d, q, depth, n, c);
      FanOutKept(d, db, mem, Pending(mem.state, next), w, k, stop);
    }
  }

  lemma SuccessorsNoRepeats(d: Definition, q: NodeId, depth: NodeId -> nat, n: NodeId, c: Option<string>)
    requires WellFormed(d, q, depth) && c != DEFECT
    ensures NoRepeats(Successors(d, n, c))
  {
    SuccessorsDistinct(d.edges, n, c);
  }

  /** One undisturbed hop of the walk. */
  lemma Hop(d: Definition, q: NodeId, depth: NodeId -> nat, db: Db, mem: Memory, n: NodeId, w: World, k: nat, stop: nat)
    requires WellFormed(d, q, depth) && QualityAlone(d, q) && Calm(w, stop) && k < stop
    requires Plain(db.rows, mem.state) && mem.current == Some(n) && n != q && q !in mem.state && NextHop(d, n).To?
    ensures var m := Round(d, q, db, mem, w, k);
            && m.Go? && Kept(db.rows, mem.state, m.db.rows, m.mem.state, k, k + 1)
            && m.mem.rework == mem.rework && m.mem.history == mem.history
            && m.mem.current == Some(NextHop(d, n).node) && q !in m.mem.state
            && (forall x :: x in m.mem.state <==> x in mem.state || x == n || x in Branches(d, n))
            && (n !in mem.state ==> Latest(m.db.rows, n).value.inputs == Project(d, mem.state, n))
            && (forall x :: x in Branches(d, n) && x !in mem.state && x != n ==>
                  Latest(m.db.rows, x).value.inputs == Project(d, Visit(d, db, mem, n, w, k).mem.state, x))
  {
    hide WellFormed, QualityAlone, Visit, Forward, Round, CommonJoin, Successors, NextHop, Project, Latest, Plain;
    hide Pending, Calm, Kept;
    VisitKept(d, db, mem, n, w, k, stop);
    var v := Visit(d, db, mem, n, w, k);
    RoundIsForward(d, q, db, mem, n, w, k, stop);
    if |Successors(d, n, None)| > 1 {
      EngineSafety.QualityNotAmong(d, q, depth, n, None);
    }
    KeptPlain(db.rows, mem.state, v.db.rows, v.mem.state, k, k + 1);
    ForwardKept(d, q, depth, v.db, v.mem, n, None, w, k, stop);
    var f := Forward(d, v.db, v.mem, n, None, w, k);
    ForwardGoes(d, q, depth, v.db, v.mem, n, w, k, stop);
    KeptTwice(db.rows, mem.state, v.db.rows, v.mem.state, f.db.rows, f.mem.state, k, k + 1, k, k + 1);
    VisitedStays(v.db.rows, v.mem.state, f.db.rows, f.mem.state, k, n);
  }

  lemma VisitedStays(a: seq<Row>, sa: map<NodeId, Output>, b: seq<Row>, sb: map<NodeId, Output>, k: nat, n: NodeId)
    requires Kept(a, sa, b, sb, k, k + 1) && n in sa
    ensures Latest(b, n) == Latest(a, n)
  {
  }

  lemma RoundIsForward(d: Definition, q: NodeId, db: Db, mem: Memory, n: NodeId, w: World, k: nat, stop: nat)
    requires Calm(w, stop) && k < stop && Plain(db.rows, mem.state) && mem.current == Some(n) && n != q
    ensures var v := Visit(d, db, mem, n, w, k);
            v.Go? && Round(d, q, db, mem, w, k) == Forward(d, v.db, v.mem, n, None, w, k)
  {
    hide Visit, Forward, Kept, Plain, Project, Latest;
    VisitKept(d, db, mem, n, w, k, stop);
  }

  lemma KeptPlain(a: seq<Row>, sa: map<NodeId, Output>, b: seq<Row>, sb: map<NodeId, Output>, lo: nat, hi: nat)
    requires Kept(a, sa, b, sb, lo, hi)
    ensures Plain(b, sb)
  {
  }

  lemma ForwardGoes(d: Definition, q: NodeId, depth: NodeId -> nat, db: Db, mem: Memory, n: NodeId, w: World, k: nat,
                    stop: nat)
    requires WellFormed(d, q, depth) && Calm(w, stop) && Plain(db.rows, mem.state) && NextHop(d, n).To?
    ensures var m := Forward(d, db, mem, n, None, w, k);
            m.Go? && m.mem.current == Some(NextHop(d, n).node)
  {
    hide WellFormed, FanOut, CommonJoin, Successors, Project, Latest;
    var next := Successors(d, n, None);
    if |next| > 1 {
      SuccessorsNoRepeats(d, q, depth, n, None);
      FanOutKept(d, db, mem, Pending(mem.state, next), w, k, stop);
    }
  }

  /** The rows only grew, by attempts of nodes other than the quality node, and by
      first attempts as long as only held nodes had been attempted. */
  ghost predicate Grew(q: NodeId, before: Db, mem: Memory, after: Db, mem': Memory) {
    && |before.rows| <= |after.rows| && after.rows[..|before.rows|] == before.rows && after.status == before.status
    && (forall i :: |before.rows| <= i < |after.rows| ==> after.rows[i].node != q)
    && (mem.attempts.Keys <= mem.state.Keys ==>
          && mem'.attempts.Keys <= mem'.state.Keys
          && forall i :: |before.rows| <= i < |after.rows| ==> after.rows[i].attempt == 1)
  }

  lemma GrewSelf(q: NodeId, db: Db, mem: Memory)
    ensures Grew(q, db, mem, db, mem)
  {
  }

  lemma GrewTwice(q: NodeId, a: Db, ma: Memory, b: Db, mb: Memory, c: Db, mc: Memory)
    requires Grew(q, a, ma, b, mb) && Grew(q, b, mb, c, mc)
    ensures Grew(q, a, ma, c, mc)
  {
    assert c.rows[..|a.rows|] == c.rows[..|b.rows|][..|a.rows|];
    forall i | |a.rows| <= i < |c.rows|
      ensures c.rows[i].node != q && (ma.attempts.Keys <= ma.state.Keys ==> c.rows[i].attempt == 1)
    {
      if i < |b.rows| {
        assert c.rows[i] == c.rows[..|b.rows|][i] == b.rows[i];
      }
    }
  }

  /** A fan-out that returned: its rows are new attempts of its nodes. */
  ghost predicate FanTook(rows: seq<Row>, attempts: map<NodeId, nat>, nodes: seq<NodeId>, fan: FanResult) {
    && fan.stop.None? && |rows| <= |fan.rows| && fan.rows[..|rows|] == rows
    && (forall n :: n in fan.results <==> n in nodes)
    && forall i :: |rows| <= i < |fan.rows| ==>
         fan.rows[i].node in nodes && fan.rows[i].attempt == AttemptsOf(attempts, fan.rows[i].node) + 1
  }

  lemma FanTookMore(rows: seq<Row>, attempts: map<NodeId, nat>, nodes: seq<NodeId>, r: Row, rest: FanResult)
    requires nodes != [] && r.node == nodes[0] && r.attempt == AttemptsOf(attempts, nodes[0]) + 1
    requires FanTook(rows + [r], attempts, nodes[1..], rest)
    ensures FanTook(rows, attempts, nodes, rest.(results := rest.results[nodes[0] := r.output]))
  {
    hide AttemptsOf;
    assert nodes == [nodes[0]] + nodes[1..];
    GrownOn(rows, r, rest.rows);
  }

  lemma {:induction false} FanGrew(d: Definition, rows: seq<Row>, state: map<NodeId, Output>,
                                   attempts: map<NodeId, nat>, nodes: seq<NodeId>, w: World, k: nat, stop: nat)
    requires Calm(w, stop) && AllWon(rows)
    ensures FanTook(rows, attempts, nodes, Fan(d, rows, state, attempts, nodes, w, k))
    decreases |nodes|
  {
    if nodes == [] {
      assert rows[..|rows|] == rows;
    } else {
      hide *;
      var n := nodes[0];
      CalmReturns(w, stop, 2 * k + 1, n);
      var out := w.outcome(2 * k + 1, n).out;
      var r := Row(n, AttemptsOf(attempts, n) + 1, StepSucceeded, None, out, Project(d, state, n));
      WonMore(rows, r);
      FanReturns(d, rows, state, attempts, nodes, w, k);
      FanGrew(d, rows + [r], state, attempts, nodes[1..], w, k, stop);
      FanTookMore(rows, attempts, nodes, r, Fan(d, rows + [r], state, attempts, nodes[1..], w, k));
    }
  }

  /** The first branch of a fan-out that returned. */
  lemma FanReturns(d: Definition, rows: seq<Row>, state: map<NodeId, Output>, attempts: map<NodeId, nat>,
                   nodes: seq<NodeId>, w: World, k: nat)
    requires AllWon(rows) && nodes != [] && w.outcome(2 * k + 1, nodes[0]).Returns?
    ensures var n := nodes[0];
            var out := w.outcome(2 * k + 1, n).out;
            var r := Row(n, AttemptsOf(attempts, n) + 1, StepSucceeded, None, out, Project(d, state, n));
            var rest := Fan(d, rows + [r], state, attempts, nodes[1..], w, k);
            Fan(d, rows, state, attempts, nodes, w, k) == FanResult(rest.rows, rest.stop, rest.results[n := out])
  {
    hide Perform, Project, AllWon, AttemptsOf;
    PerformAppends(d, rows, state, nodes[0], AttemptsOf(attempts, nodes[0]) + 1, w.outcome(2 * k + 1, nodes[0]).out);
  }

  lemma WonMore(rows: seq<Row>, r: Row)
    requires AllWon(rows) && r.status.StepSucceeded?
    ensures AllWon(rows + [r])
  {
  }

  lemma GrownOn(rows: seq<Row>, r: Row, last: seq<Row>)
    requires |rows| < |last| && last[..|rows| + 1] == rows + [r]
    ensures last[..|rows|] == rows && last[|rows|] == r
  {
    assert last[..|rows|] == last[..|rows| + 1][..|rows|];
    assert last[|rows|] == last[..|rows| + 1][|rows|];
  }

  lemma VisitGrew(d: Definition, q: NodeId, db: Db, mem: Memory, n: NodeId, w: World, k: nat, stop: nat)
    requires Calm(w, stop) && AllWon(db.rows) && n != q
    ensures var m := Visit(d, db, mem, n, w, k);
            m.Go? && Grew(q, db, mem, m.db, m.mem)
  {
    hide Perform, Project;
    if n !in mem.state {
      PerformAppends(d, db.rows, mem.state, n, AttemptsOf(mem.attempts, n) + 1, w.outcome(2 * k, n).out);
    }
  }

  lemma FanOutGrew(d: Definition, q: NodeId, db: Db, mem: Memory, nodes: seq<NodeId>, w: World, k: nat, stop: nat)
    requires Calm(w, stop) && AllWon(db.rows) && q !in nodes && forall n :: n in nodes ==> n !in mem.state
    ensures var m := FanOut(d, db, mem, nodes, w, k);
            m.Go? && Grew(q, db, mem, m.db, m.mem)
  {
    hide Fan;
    FanGrew(d, db.rows, mem.state, mem.attempts, nodes, w, k, stop);
    var fan := Fan(d, db.rows, mem.state, mem.attempts, nodes, w, k);
    if mem.attempts.Keys <= mem.state.Keys {
      forall i | |db.rows| <= i < |fan.rows| ensures fan.rows[i].attempt == 1 {
        assert fan.rows[i].node !in mem.attempts;
      }
    }
  }

  lemma HopGrew(d: Definition, q: NodeId, depth: NodeId -> nat, db: Db, mem: Memory, n: NodeId, w: World, k: nat,
                stop: nat)
    requires WellFormed(d, q, depth) && QualityAlone(d, q) && Calm(w, stop) && k < stop
    requires Plain(db.rows, mem.state) && mem.current == Some(n) && n != q && q !in mem.state && NextHop(d, n).To?
    ensures var m := Round(d, q, db, mem, w, k);
            m.Go? && Grew(q, db, mem, m.db, m.mem)
  {
    hide WellFormed, QualityAlone, Visit, FanOut, Round, CommonJoin, Successors, NextHop, Pending, Calm, Grew, Kept;
    Hop(d, q, depth, db, mem, n, w, k, stop);
    VisitKept(d, db, mem, n, w, k, stop);
    VisitGrew(d, q, db, mem, n, w, k, stop);
    RoundIsForward(d, q, db, mem, n, w, k, stop);
    var v := Visit(d, db, mem, n, w, k);
    KeptPlain(db.rows, mem.state, v.db.rows, v.mem.state, k, k + 1);
    var next := Successors(d, n, None);
    var f := Forward(d, v.db, v.mem, n, None, w, k);
    if |next| > 1 {
      EngineSafety.QualityNotAmong(d, q, depth, n, None);
      FanOutGrew(d, q, v.db, v.mem, Pending(v.mem.state, next), w, k, stop);
      var o := FanOut(d, v.db, v.mem, Pending(v.mem.state, next), w, k);
      assert f == Go(o.db, o.mem.(current := f.mem.current));
      GrewElsewhere(q, v.db, v.mem, v.mem, o.db, o.mem, f.mem);
    } else {
      assert f == Go(v.db, v.mem.(current := f.mem.current));
      GrewSelf(q, v.db, v.mem);
      GrewElsewhere(q, v.db, v.mem, v.mem, v.db, v.mem, f.mem);
    }
    GrewTwice(q, db, mem, v.db, v.mem, f.db, f.mem);
  }

  /** Where the memory stands does not matter. */
  lemma GrewElsewhere(q: NodeId, a: Db, ma: Memory, ma': Memory, b: Db, mb: Memory, mb': Memory)
    requires Grew(q, a, ma, b, mb) && ma'.state == ma.state && ma'.attempts == ma.attempts
    requires mb'.state == mb.state && mb'.attempts == mb.attempts
    ensures Grew(q, a, ma', b, mb')
  {
  }

  /** What an undisturbed walk to the quality node leaves. */
  ghost predicate Arrived(d: Definition, q: NodeId, depth: NodeId -> nat, n: NodeId, db: Db, mem: Memory, db': Db,
                          mem': Memory, k: nat)
    requires WellFormed(d, q, depth) && Hits(d, q, depth, n)
  {
    && Kept(db.rows, mem.state, db'.rows, mem'.state, k, k + Hops(d, q, depth, n))
    && mem'.rework == mem.rework && mem'.history == mem.history
    && mem'.current == Some(q) && q !in mem'.state
    && (forall m :: Runs(d, q, depth, n, m) ==> m in mem'.state)
    && (forall t, m :: t in mem.state && m !in mem.state && Runs(d, q, depth, n, m) && t in InputSources(d, m) ==>
          ReadFrom(db'.rows, mem'.state, t, m))
    && (forall t, m :: RunsBefore(d, q, depth, n, t, m) && t !in mem.state && m !in mem.state &&
                       t != m && t in InputSources(d, m) ==>
          ReadFrom(db'.rows, mem'.state, t, m))
  }

  lemma ArrivesNow(d: Definition, q: NodeId, depth: NodeId -> nat, db: Db, mem: Memory, k: nat)
    requires WellFormed(d, q, depth) && Plain(db.rows, mem.state) && mem.current == Some(q) && q !in mem.state
    ensures Arrived(d, q, depth, q, db, mem, db, mem, k)
  {
  }

  /** A hop puts the branches and the node itself in the memory, in that order of reading. */
  lemma HopReads(d: Definition, q: NodeId, depth: NodeId -> nat, db: Db, mem: Memory, n: NodeId, w: World, k: nat,
                 stop: nat, t: NodeId, m: NodeId)
    requires WellFormed(d, q, depth) && QualityAlone(d, q) && Calm(w, stop) && k < stop
    requires Plain(db.rows, mem.state) && mem.current == Some(n) && n != q && q !in mem.state && NextHop(d, n).To?
    requires m !in mem.state && t != m && t in InputSources(d, m)
    requires (t in mem.state && (m == n || m in Branches(d, n))) || (t == n && m in Branches(d, n))
    ensures var r := Round(d, q, db, mem, w, k);
            r.Go? && ReadFrom(r.db.rows, r.mem.state, t, m)
  {
    hide WellFormed, QualityAlone, CommonJoin, Successors, Latest, InputSources, Round, Branches, Visit;
    Hop(d, q, depth, db, mem, n, w, k, stop);
    VisitKept(d, db, mem, n, w, k, stop);
    RoundExtendsVisit(d, q, depth, db, mem, n, w, k, stop);
    var r := Round(d, q, db, mem, w, k);
    assert Latest(r.db.rows, m).Some?;
  }

  lemma RoundExtendsVisit(d: Definition, q: NodeId, depth: NodeId -> nat, db: Db, mem: Memory, n: NodeId, w: World,
                          k: nat, stop: nat)
    requires WellFormed(d, q, depth) && Calm(w, stop) && k < stop && Plain(db.rows, mem.state)
    requires mem.current == Some(n) && n != q
    ensures var v := Visit(d, db, mem, n, w, k);
            var r := Round(d, q, db, mem, w, k);
            v.Go? && (r.Go? ==> Kept(v.db.rows, v.mem.state, r.db.rows, r.mem.state, k, k + 1))
  {
    hide WellFormed, Visit, FanOut, CommonJoin, Successors, Project, Latest, Plain, Pending;
    VisitKept(d, db, mem, n, w, k, stop);
    var v := Visit(d, db, mem, n, w, k);
    KeptPlain(db.rows, mem.state, v.db.rows, v.mem.state, k, k + 1);
    ForwardKept(d, q, depth, v.db, v.mem, n, None, w, k, stop);
  }

  lemma BranchesAbove(d: Definition, q: NodeId, depth: NodeId -> nat, n: NodeId)
    requires WellFormed(d, q, depth) && NextHop(d, n).To?
    ensures depth(n) > depth(NextHop(d, n).node)
    ensures forall x :: x in Branches(d, n) ==> depth(n) > depth(x) > depth(NextHop(d, n).node)
  {
    NextHopLower(d, q, depth, n);
    forall x | x in Branches(d, n) ensures depth(n) > depth(x) > depth(NextHop(d, n).node) {
      SuccessorIsKnownAndLower(d, q, depth, n, None, x);
      SuccessorIsKnownAndLower(d, q, depth, x, None, NextHop(d, n).node);
    }
  }

  /** Everything a walk runs lies at or below where it starts. */
  lemma {:induction false} RunsLower(d: Definition, q: NodeId, depth: NodeId -> nat, n: NodeId, t: NodeId, m: NodeId)
    requires WellFormed(d, q, depth) && Hits(d, q, depth, n)
    ensures Runs(d, q, depth, n, m) ==> depth(m) <= depth(n)
    ensures RunsBefore(d, q, depth, n, t, m) ==> depth(t) <= depth(n) && depth(m) < depth(t)
    decreases depth(n)
  {
    hide WellFormed, Branches, NextHop;
    if n != q {
      BranchesAbove(d, q, depth, n);
      RunsLower(d, q, depth, NextHop(d, n).node, t, m);
    }
  }

  lemma ArrivedReads(d: Definition, q: NodeId, depth: NodeId -> nat, n: NodeId, db: Db, mem: Memory, db': Db,
                     mem': Memory, k: nat, t: NodeId, m: NodeId)
    requires WellFormed(d, q, depth) && Hits(d, q, depth, n) && Arrived(d, q, depth, n, db, mem, db', mem', k)
    requires m !in mem.state && t != m && t in InputSources(d, m)
    requires if t in mem.state then Runs(d, q, depth, n, m) else RunsBefore(d, q, depth, n, t, m)
    ensures ReadFrom(db'.rows, mem'.state, t, m)
  {
    hide WellFormed, Kept, ReadFrom, Runs, RunsBefore, InputSources, Hits, Hops;
  }

  lemma ArrivedKept(d: Definition, q: NodeId, depth: NodeId -> nat, n: NodeId, db: Db, mem: Memory, db': Db,
                    mem': Memory, k: nat)
    requires WellFormed(d, q, depth) && Hits(d, q, depth, n) && Arrived(d, q, depth, n, db, mem, db', mem', k)
    ensures Kept(db.rows, mem.state, db'.rows, mem'.state, k, k + Hops(d, q, depth, n))
  {
  }

  /** The second leg of a walk follows the first hop. */
  ghost predicate SecondLeg(d: Definition, q: NodeId, depth: NodeId -> nat, db: Db, mem: Memory, n: NodeId, r: Move,
                            db': Db, mem': Memory, k: nat)
    requires WellFormed(d, q, depth)
  {
    && n != q && NextHop(d, n).To? && Hits(d, q, depth, NextHop(d, n).node) && r.Go?
    && (forall x :: x in r.mem.state <==> x in mem.state || x == n || x in Branches(d, n))
    && Arrived(d, q, depth, NextHop(d, n).node, r.db, r.mem, db', mem', k + 1)
  }

  /** What the second leg reads. */
  lemma LaterReads(d: Definition, q: NodeId, depth: NodeId -> nat, db: Db, mem: Memory, n: NodeId, r: Move, db': Db,
                   mem': Memory, k: nat, t: NodeId, m: NodeId)
    requires WellFormed(d, q, depth) && Hits(d, q, depth, n) && SecondLeg(d, q, depth, db, mem, n, r, db', mem', k)
    requires m !in mem.state && t != m && t in InputSources(d, m)
    requires if t in mem.state then Runs(d, q, depth, n, m) else RunsBefore(d, q, depth, n, t, m)
    requires !(t in mem.state && (m == n || m in Branches(d, n))) && !(t == n && m in Branches(d, n))
    ensures ReadFrom(db'.rows, mem'.state, t, m)
  {
    hide WellFormed, InputSources, Branches, NextHop, ReadFrom, Hits, Hops, Arrived, Runs, RunsBefore;
    LaterLeg(d, q, depth, n, t, m);
    ArrivedReads(d, q, depth, NextHop(d, n).node, r.db, r.mem, db', mem', k + 1, t, m);
  }

  /** What the first hop reads stays read. */
  lemma EarlierReads(d: Definition, q: NodeId, depth: NodeId -> nat, n: NodeId, mem: Memory, db: Db, r: Move, db': Db,
                     mem': Memory, k: nat, t: NodeId, m: NodeId)
    requires WellFormed(d, q, depth) && SecondLeg(d, q, depth, db, mem, n, r, db', mem', k)
    requires ReadFrom(r.db.rows, r.mem.state, t, m)
    ensures ReadFrom(db'.rows, mem'.state, t, m)
  {
    hide WellFormed, Branches, NextHop, ReadFrom, Hits, Hops, Arrived;
    var next := NextHop(d, n).node;
    ArrivedKept(d, q, depth, next, r.db, r.mem, db', mem', k + 1);
    ReadFromKept(r.db.rows, r.mem.state, db'.rows, mem'.state, k + 1, k + 1 + Hops(d, q, depth, next), t, m);
  }

  /** What a walk runs but its first hop does not is run by the rest of the walk. */
  lemma LaterLeg(d: Definition, q: NodeId, depth: NodeId -> nat, n: NodeId, t: NodeId, m: NodeId)
    requires WellFormed(d, q, depth) && Hits(d, q, depth, n) && n != q && NextHop(d, n).To?
    requires Hits(d, q, depth, NextHop(d, n).node)
    ensures var next := NextHop(d, n).node;
            && (Runs(d, q, depth, n, m) && m != n && m !in Branches(d, n) ==> Runs(d, q, depth, next, m))
            && (RunsBefore(d, q, depth, n, t, m) && !(t == n && m in Branches(d, n)) ==>
                  && m != n && m !in Branches(d, n)
                  && if t == n || t in Branches(d, n) then Runs(d, q, depth, next, m)
                    else RunsBefore(d, q, depth, next, t, m))
  {
    hide WellFormed, Branches, NextHop, Hits;
    var next := NextHop(d, n).node;
    BranchesAbove(d, q, depth, n);
    RunsLower(d, q, depth, next, t, m);
  }

  /** A hop followed by the walk from the next node is the walk. */
  lemma HopThenArrive(d: Definition, q: NodeId, depth: NodeId -> nat, db: Db, mem: Memory, n: NodeId, db': Db,
                      mem': Memory, w: World, k: nat, stop: nat)
    requires WellFormed(d, q, depth) && QualityAlone(d, q) && Calm(w, stop) && k < stop
    requires Plain(db.rows, mem.state) && mem.current == Some(n) && n != q && q !in mem.state && Hits(d, q, depth, n)
    requires NextHop(d, n).To? && Hits(d, q, depth, NextHop(d, n).node) && Round(d, q, db, mem, w, k).Go?
    requires var r := Round(d, q, db, mem, w, k);
             Arrived(d, q, depth, NextHop(d, n).node, r.db, r.mem, db', mem', k + 1)
    ensures Arrived(d, q, depth, n, db, mem, db', mem', k)
  {
    hide WellFormed, QualityAlone, CommonJoin, Successors, Latest, InputSources, Round, Branches, NextHop, Plain;
    hide ReadFrom, Kept, Calm, Hits, RunsBefore;
    Hop(d, q, depth, db, mem, n, w, k, stop);
    var r := Round(d, q, db, mem, w, k);
    assert SecondLeg(d, q, depth, db, mem, n, r, db', mem', k);
    var hi := k + Hops(d, q, depth, n);
    KeptTwice(db.rows, mem.state, r.db.rows, r.mem.state, db'.rows, mem'.state, k, k + 1, k + 1, hi);
    KeptHolds(r.db.rows, r.mem.state, db'.rows, mem'.state, k + 1, hi);
    forall t, m | m !in mem.state && t != m && t in InputSources(d, m)
      && if t in mem.state then Runs(d, q, depth, n, m) else RunsBefore(d, q, depth, n, t, m)
      ensures ReadFrom(db'.rows, mem'.state, t, m)
    {
      if (t in mem.state && (m == n || m in Branches(d, n))) || (t == n && m in Branches(d, n)) {
        HopReads(d, q, depth, db, mem, n, w, k, stop, t, m);
        EarlierReads(d, q, depth, n, mem, db, r, db', mem', k, t, m);
      } else {
        LaterReads(d, q, depth, db, mem, n, r, db', mem', k, t, m);
      }
    }
  }

  lemma KeptHolds(a: seq<Row>, sa: map<NodeId, Output>, b: seq<Row>, sb: map<NodeId, Output>, lo: nat, hi: nat)
    requires Kept(a, sa, b, sb, lo, hi)
    ensures forall n :: n in sa ==> n in sb && sb[n] == sa[n]
  {
  }

  /** The undisturbed walk to the quality node. */
  lemma {:induction false} Arrive(d: Definition, q: NodeId, depth: NodeId -> nat, db: Db, mem: Memory, n: NodeId,
                                  w: World, k: nat, stop: nat)
    returns (db': Db, mem': Memory)
    requires WellFormed(d, q, depth) && QualityAlone(d, q) && Calm(w, stop) && Hits(d, q, depth, n)
    requires k + Hops(d, q, depth, n) <= stop
    requires Plain(db.rows, mem.state) && mem.current == Some(n) && q !in mem.state
    ensures Loop(d, q, depth, db, mem, w, k) == Loop(d, q, depth, db', mem', w, k + Hops(d, q, depth, n))
    ensures Arrived(d, q, depth, n, db, mem, db', mem', k)
    ensures Grew(q, db, mem, db', mem')
    decreases depth(n)
  {
    hide WellFormed, QualityAlone, Round, Arrived, Plain, Kept, Calm, NextHop, Runs, RunsBefore, Loop, Branches;
    hide InputSources, Latest, Grew;
    if n == q {
      db', mem' := db, mem;
      ArrivesNow(d, q, depth, db, mem, k);
      GrewSelf(q, db, mem);
    } else {
      NextHopLower(d, q, depth, n);
      Hop(d, q, depth, db, mem, n, w, k, stop);
      EngineExactness.LoopUnfolds(d, q, depth, db, mem, w, k);
      var r := Round(d, q, db, mem, w, k);
      KeptPlain(db.rows, mem.state, r.db.rows, r.mem.state, k, k + 1);
      db', mem' := Arrive(d, q, depth, r.db, r.mem, NextHop(d, n).node, w, k + 1, stop);
      HopGrew(d, q, depth, db, mem, n, w, k, stop);
      GrewTwice(q, db, mem, r.db, r.mem, db', mem');
      HopThenArrive(d, q, depth, db, mem, n, db', mem', w, k, stop);
    }
  }

  // ------------------------------------------------ the stale run

  /** The quality node rejects with `defects` up to round `k` and accepts from then on. */
  ghost function StaleWorld(q: NodeId, defects: seq<Defect>, k: nat, stop: nat): World {
    World(Recovers(true), (i: nat) => if i == stop then Leave else Continue,
      (i: nat, n: NodeId) => Returns(Output(i, n == q && i > 2 * k, defects)), (i: nat) => 2, (i: nat) => true)
  }

  /** The first verdict rejects: its one target and the verdict are dropped, nothing else. */
  lemma SentBack(d: Definition, q: NodeId, db: Db, mem: Memory, defects: seq<Defect>, t: NodeId, w: World, k: nat,
                 stop: nat)
    requires Calm(w, stop) && k < stop && Plain(db.rows, mem.state)
    requires w.outcome(2 * k, q) == Returns(Output(2 * k, false, defects))
    requires mem.current == Some(q) && q !in mem.state && mem.rework < d.maxRework && mem.history == []
    requires Reworkable(defects) && ReworkTargets(d, q, defects) == [t]
    ensures var m := Round(d, q, db, mem, w, k);
            && m.Go? && m.mem.current == Some(t) && Plain(m.db.rows, m.mem.state)
            && (forall n :: n in m.mem.state <==> n in mem.state && n != t && n != q)
            && (forall n :: n != q ==> Latest(m.db.rows, n) == Latest(db.rows, n))
            && (forall n :: n in m.mem.state ==> m.mem.state[n] == mem.state[n])
  {
    hide Visit, ReworkTargets, Latest, SignatureOf, FanOut, CommonJoin;
    VisitKept(d, db, mem, q, w, k, stop);
    VerdictRow(d, db, mem, q, w, k, stop);
  }

  /** Several targets are dropped with the verdict and run again at once. */
  lemma SentBackTogether(d: Definition, q: NodeId, db: Db, mem: Memory, defects: seq<Defect>, w: World, k: nat,
                         stop: nat)
    requires Calm(w, stop) && k < stop && Plain(db.rows, mem.state)
    requires w.outcome(2 * k, q) == Returns(Output(2 * k, false, defects))
    requires mem.current == Some(q) && q !in mem.state && mem.rework < d.maxRework && mem.history == []
    requires Reworkable(defects) && |ReworkTargets(d, q, defects)| > 1 && q !in ReworkTargets(d, q, defects)
    requires CommonJoin(d, ReworkTargets(d, q, defects)) == Some(q)
    ensures var m := Round(d, q, db, mem, w, k);
            var targets := ReworkTargets(d, q, defects);
            && m.Go? && m.mem.current == Some(q) && q !in m.mem.state && Plain(m.db.rows, m.mem.state)
            && (forall n :: n in mem.state && n !in targets ==>
                n in m.mem.state && Latest(m.db.rows, n) == Latest(db.rows, n))
            && (forall t :: t in targets ==> t in m.mem.state && m.mem.state[t].content >= 2 * k)
  {
    hide Visit, ReworkTargets, Latest, SignatureOf, FanOut, CommonJoin, Project, Calm;
    CalmRound(w, stop, k);
    VisitKept(d, db, mem, q, w, k, stop);
    VerdictRow(d, db, mem, q, w, k, stop);
    var v := Visit(d, db, mem, q, w, k);
    var targets := ReworkTargets(d, q, defects);
    var popped := Popped(q, v.mem, targets, SignatureOf(defects));
    FanOutKept(d, v.db.(status := Running), popped, targets, w, k, stop);
  }

  lemma CalmRound(w: World, stop: nat, k: nat)
    requires Calm(w, stop) && k < stop
    ensures w.boundary(k) == Continue && w.commits(k) == 2
  {
  }

  /** Visiting a node changes no other node's latest success. */
  lemma VerdictRow(d: Definition, db: Db, mem: Memory, n: NodeId, w: World, k: nat, stop: nat)
    requires Calm(w, stop) && Plain(db.rows, mem.state) && n !in mem.state
    ensures var m := Visit(d, db, mem, n, w, k);
            forall x :: x != n ==> Latest(m.db.rows, x) == Latest(db.rows, x)
  {
    hide Perform, Project, Latest;
    var out := w.outcome(2 * k, n).out;
    var attempt := AttemptsOf(mem.attempts, n) + 1;
    PerformAppends(d, db.rows, mem.state, n, attempt, out);
    AppendStored(d, db.rows, mem.state, n, attempt, out);
  }

  /** The accepting round, after which the process leaves the root. */
  lemma AcceptsAndLeaves(d: Definition, q: NodeId, depth: NodeId -> nat, db: Db, mem: Memory, w: World, k: nat)
    requires WellFormed(d, q, depth) && Calm(w, k + 1) && Plain(db.rows, mem.state)
    requires mem.current == Some(q) && q !in mem.state && w.outcome(2 * k, q).out.accept
    ensures var rows := Loop(d, q, depth, db, mem, w, k).rows;
            && Accepted(rows, q)
            && (forall n :: n in mem.state ==> Latest(rows, n) == Latest(db.rows, n))
  {
    hide WellFormed, Visit, Latest, Forward;
    VisitKept(d, db, mem, q, w, k, k + 1);
    var v := Visit(d, db, mem, q, w, k);
    KeptPlain(db.rows, mem.state, v.db.rows, v.mem.state, k, k + 1);
    ForwardKept(d, q, depth, v.db, v.mem, q, ACCEPT, w, k, k + 1);
    RoundProgress(d, q, depth, db, mem, w, k);
    var m := Round(d, q, db, mem, w, k);
    assert m == Forward(d, v.db, v.mem, q, ACCEPT, w, k);
    if m.Go? {
      assert Loop(d, q, depth, m.db, m.mem, w, k + 1).rows == m.db.rows;
    }
  }

  /** A rework that sends `targets` back returns to the quality node. */
  ghost predicate ComesBack(d: Definition, q: NodeId, depth: NodeId -> nat, targets: seq<NodeId>)
    requires WellFormed(d, q, depth)
  {
    if |targets| == 1 then Hits(d, q, depth, targets[0]) else |targets| > 1 && CommonJoin(d, targets) == Some(q)
  }

  /** Rounds from the rejecting round to the next visit of the quality node. */
  ghost function WayBack(d: Definition, q: NodeId, depth: NodeId -> nat, targets: seq<NodeId>): (rounds: nat)
    requires WellFormed(d, q, depth) && ComesBack(d, q, depth, targets)
    ensures rounds > 0
  {
    if |targets| == 1 then 1 + Hops(d, q, depth, targets[0]) else 1
  }

  /** Some node reads a rework target that ran before it and is not itself sent
      back, and the rework returns to the quality node. */
  ghost predicate StaleReader(d: Definition, q: NodeId, depth: NodeId -> nat, defects: seq<Defect>, t: NodeId,
                              m: NodeId)
    requires WellFormed(d, q, depth) && InitialHits(d, q, depth)
  {
    && Reworkable(defects) && t in ReworkTargets(d, q, defects) && m !in ReworkTargets(d, q, defects)
    && t != q && m != q && t in InputSources(d, m)
    && ComesBack(d, q, depth, ReworkTargets(d, q, defects)) && RunsBefore(d, q, depth, InitialNodes(d)[0], t, m)
  }

  /** Every latest output was computed from the latest outputs of its sources. */
  ghost predicate CoherentAt(q: NodeId, rows: seq<Row>, n: NodeId) {
    Accepted(rows, q) && Latest(rows, n).Some? ==> Fits(rows, Latest(rows, n).value.inputs)
  }

  lemma StaleWorldCalm(q: NodeId, defects: seq<Defect>, k: nat, stop: nat)
    ensures Calm(StaleWorld(q, defects, k, stop), stop)
  {
  }

  /** Back at the quality node with `t` renewed and `m` as it was. */
  ghost predicate BackWithout(q: NodeId, first: Db, second: Db, mem: Memory, t: NodeId, m: NodeId, k: nat) {
    && Plain(second.rows, mem.state) && mem.current == Some(q) && q !in mem.state
    && t in mem.state && mem.state[t].content >= 2 * k
    && m in mem.state && Latest(second.rows, m) == Latest(first.rows, m)
  }

  /** The target is renewed while the reader keeps what it read before. */
  lemma StaleEnd(q: NodeId, t: NodeId, m: NodeId, first: Db, firstMem: Memory, second: Db, secondMem: Memory,
                 rows: seq<Row>, k: nat)
    requires ReadFrom(first.rows, firstMem.state, t, m) && Kept([], map[], first.rows, firstMem.state, 0, k)
    requires BackWithout(q, first, second, secondMem, t, m, k)
    requires Accepted(rows, q) && forall n :: n in secondMem.state ==> Latest(rows, n) == Latest(second.rows, n)
    ensures !CoherentAt(q, rows, m)
  {
    hide Latest;
    var inputs := Latest(rows, m).value.inputs;
    assert t in inputs && inputs[t] == firstMem.state[t];
    assert Latest(rows, t).value.output == secondMem.state[t];
    assert !Fits(rows, inputs);
  }

  lemma KeptReader(q: NodeId, t: NodeId, m: NodeId, first: Db, back: Db, backMem: Memory, second: Db,
                   secondMem: Memory, k: nat, hi: nat)
    requires m in backMem.state && t !in backMem.state && Latest(back.rows, m) == Latest(first.rows, m)
    requires Kept(back.rows, backMem.state, second.rows, secondMem.state, k + 1, hi) && t in secondMem.state
    requires secondMem.current == Some(q) && q !in secondMem.state
    ensures BackWithout(q, first, second, secondMem, t, m, k)
  {
    hide Latest;
  }

  /** One target: its walk leads back; several: their join does. */
  lemma {:induction false} Renews(d: Definition, q: NodeId, depth: NodeId -> nat, defects: seq<Defect>, t: NodeId,
                                  m: NodeId, first: Db, firstMem: Memory, w: World, k: nat, k': nat)
    returns (second: Db, secondMem: Memory)
    requires WellFormed(d, q, depth) && QualityAlone(d, q) && InitialHits(d, q, depth)
    requires StaleReader(d, q, depth, defects, t, m)
    requires k' == k + WayBack(d, q, depth, ReworkTargets(d, q, defects)) && Calm(w, k' + 1)
    requires w.outcome(2 * k, q) == Returns(Output(2 * k, false, defects))
    requires Plain(first.rows, firstMem.state) && firstMem.current == Some(q) && q !in firstMem.state
    requires firstMem.rework < d.maxRework && firstMem.history == [] && m in firstMem.state
    ensures Loop(d, q, depth, first, firstMem, w, k) == Loop(d, q, depth, second, secondMem, w, k')
    ensures BackWithout(q, first, second, secondMem, t, m, k)
  {
    hide WellFormed, QualityAlone, InitialNodes, Round, Loop, Plain, Kept, Runs, RunsBefore, Hits, Hops, NextHop;
    hide Latest, Reworkable, ReworkTargets, InputSources, CommonJoin, Calm, BackWithout;
    var targets := ReworkTargets(d, q, defects);
    EngineExactness.LoopUnfolds(d, q, depth, first, firstMem, w, k);
    var r := Round(d, q, first, firstMem, w, k);
    if |targets| == 1 {
      assert targets == [t];
      SentBack(d, q, first, firstMem, defects, t, w, k, k' + 1);
      RunsSelf(d, q, depth, t);
      second, secondMem := Arrive(d, q, depth, r.db, r.mem, t, w, k + 1, k' + 1);
      KeptReader(q, t, m, first, r.db, r.mem, second, secondMem, k, k');
    } else {
      JoinedApart(d, q, depth, targets);
      SentBackTogether(d, q, first, firstMem, defects, w, k, k' + 1);
      second, secondMem := r.db, r.mem;
      RenewedTogether(q, t, m, first, second, secondMem, k);
    }
  }

  /** The join of several branches is none of them. */
  lemma JoinedApart(d: Definition, q: NodeId, depth: NodeId -> nat, targets: seq<NodeId>)
    requires WellFormed(d, q, depth) && CommonJoin(d, targets) == Some(q)
    ensures q !in targets
  {
    if q in targets {
      SuccessorIsKnownAndLower(d, q, depth, q, None, q);
    }
  }

  lemma RenewedTogether(q: NodeId, t: NodeId, m: NodeId, first: Db, second: Db, secondMem: Memory, k: nat)
    requires Plain(second.rows, secondMem.state) && secondMem.current == Some(q) && q !in secondMem.state
    requires t in secondMem.state && secondMem.state[t].content >= 2 * k
    requires m in secondMem.state && Latest(second.rows, m) == Latest(first.rows, m)
    ensures BackWithout(q, first, second, secondMem, t, m, k)
  {
  }

  lemma PlainEmpty()
    ensures Plain([], map[])
  {
  }

  lemma RunsSelf(d: Definition, q: NodeId, depth: NodeId -> nat, t: NodeId)
    requires WellFormed(d, q, depth) && Hits(d, q, depth, t) && t != q
    ensures Runs(d, q, depth, t, t)
  {
  }

  lemma ReadFromState(rows: seq<Row>, state: map<NodeId, Output>, t: NodeId, m: NodeId)
    requires ReadFrom(rows, state, t, m)
    ensures t in state && m in state
  {
  }

  /** A stale reader has a run whose accepted root was computed from outdated outputs. */
  lemma {:induction false} StaleReaderBreaks(d: Definition, q: NodeId, depth: NodeId -> nat, defects: seq<Defect>,
                                             t: NodeId, m: NodeId) returns (w: World)
    requires WellFormed(d, q, depth) && QualityAlone(d, q) && |InitialNodes(d)| == 1 && InitialHits(d, q, depth)
    requires d.maxRework > 0 && StaleReader(d, q, depth, defects, t, m)
    ensures !CoherentAt(q, Claimed(d, q, depth, NewRoot, w).rows, m)
  {
    hide WellFormed, QualityAlone, InitialNodes, Round, Loop, Plain, Kept, Runs, RunsBefore, Hits, Hops, NextHop;
    hide Latest, Reworkable, ReworkTargets, InputSources, ReadFrom, CoherentAt, Accepted, FreshMemory, Calm, Claimed;
    hide ComesBack, WayBack, BackWithout;
    var start := InitialNodes(d)[0];
    var k := Hops(d, q, depth, start);
    var k' := k + WayBack(d, q, depth, ReworkTargets(d, q, defects));
    w := StaleWorld(q, defects, k, k' + 1);
    StaleWorldCalm(q, defects, k, k' + 1);
    EngineExactness.FirstClaim(d, q, depth, w);
    var db, mem := Db([], Running), FreshMemory([], start);
    PlainEmpty();
    var first, firstMem := Arrive(d, q, depth, db, mem, start, w, 0, k' + 1);
    assert ReadFrom(first.rows, firstMem.state, t, m);
    KeptPlain(db.rows, mem.state, first.rows, firstMem.state, 0, k);
    ReadFromState(first.rows, firstMem.state, t, m);
    var second, secondMem := Renews(d, q, depth, defects, t, m, first, firstMem, w, k, k');
    BackAtQuality(q, first, second, secondMem, t, m, k);
    AcceptsAndLeaves(d, q, depth, second, secondMem, w, k');
    StaleEnd(q, t, m, first, firstMem, second, secondMem, Claimed(d, q, depth, NewRoot, w).rows, k);
  }

  lemma BackAtQuality(q: NodeId, first: Db, second: Db, mem: Memory, t: NodeId, m: NodeId, k: nat)
    requires BackWithout(q, first, second, mem, t, m, k)
    ensures Plain(second.rows, mem.state) && mem.current == Some(q) && q !in mem.state
  {
  }

  /** Every rework returns to the quality node, and a node that reads something
      a rework renews runs after it. */
  ghost predicate Staged(d: Definition, q: NodeId, depth: NodeId -> nat)
    requires WellFormed(d, q, depth) && InitialHits(d, q, depth)
  {
    && (forall defects :: Reworkable(defects) && ReworkTargets(d, q, defects) != [] ==>
        ComesBack(d, q, depth, ReworkTargets(d, q, defects)))
    && (forall n, s :: ReadsAhead(d, q, n, s) && IsReworkTarget(d, q, s) ==>
        RunsBefore(d, q, depth, InitialNodes(d)[0], s, n))
  }

  ghost predicate CoherenceHolds(d: Definition, q: NodeId, depth: NodeId -> nat)
    requires WellFormed(d, q, depth)
  {
    forall episodes, n :: CoherentAt(q, After(d, q, depth, NewRoot, episodes).rows, n)
  }

  /** Main result: where every rework returns to the quality node, an accepted
      root is coherent in every run if and only if every rework that renews a
      node renews, in the same go, each reader of it ahead of the gate other
      than the quality node. */
  lemma {:induction false} CoherenceExactly(d: Definition, q: NodeId, depth: NodeId -> nat)
    requires WellFormed(d, q, depth) && QualityAlone(d, q) && SafeRoutes(d, q, depth) && VerdictUnread(d, q)
    requires |InitialNodes(d)| == 1 && InitialHits(d, q, depth) && Staged(d, q, depth) && d.maxRework > 0
    ensures CoherenceHolds(d, q, depth) <==> ReworkTakesReaders(d, q)
  {
    hide WellFormed, QualityAlone, SafeRoutes, InitialHits, InitialNodes, After, Claimed, CoherentAt, Gated;
    hide InputSources, Latest, IsReworkTarget, RunsBefore, Hits, ReworkTargets, ComesBack, VerdictUnread, LeftBehind;
    if ReworkTakesReaders(d, q) {
      StagesReworkAlone(d, q, depth);
      forall episodes, n ensures CoherentAt(q, After(d, q, depth, NewRoot, episodes).rows, n) {
        TakesReadersCoherent(d, q, depth, episodes, n);
      }
    } else {
      var defects, t, m :| LeftBehind(d, q, defects, t, m);
      LeftBehindIsStale(d, q, depth, defects, t, m);
      var w := StaleReaderBreaks(d, q, depth, defects, t, m);
      EngineExactness.AfterOne(d, q, depth, w);
      assert !CoherentAt(q, After(d, q, depth, NewRoot, [ByEngine(w)]).rows, m);
    }
  }

  lemma LeftBehindIsStale(d: Definition, q: NodeId, depth: NodeId -> nat, defects: seq<Defect>, t: NodeId, m: NodeId)
    requires WellFormed(d, q, depth) && InitialHits(d, q, depth) && Staged(d, q, depth) && VerdictUnread(d, q)
    requires LeftBehind(d, q, defects, t, m)
    ensures StaleReader(d, q, depth, defects, t, m)
  {
    hide WellFormed, InitialHits, Gated, InputSources, ReworkTargets, RunsBefore, ComesBack, Reworkable;
    assert ReadsAhead(d, q, m, t) && !ReadsAhead(d, q, m, q);
    assert IsReworkTarget(d, q, t);
  }

  lemma StagesReworkAlone(d: Definition, q: NodeId, depth: NodeId -> nat)
    requires WellFormed(d, q, depth) && InitialHits(d, q, depth) && Staged(d, q, depth)
    ensures QualityReworkedAlone(d, q)
  {
    hide WellFormed, InitialHits, Gated, InputSources, ReworkTargets, RunsBefore, Reworkable, Hits, CommonJoin;
    forall defects | Reworkable(defects) && |ReworkTargets(d, q, defects)| > 1
      ensures q !in ReworkTargets(d, q, defects) {
      assert ComesBack(d, q, depth, ReworkTargets(d, q, defects));
      JoinedApart(d, q, depth, ReworkTargets(d, q, defects));
    }
  }

  lemma TakesReadersCoherent(d: Definition, q: NodeId, depth: NodeId -> nat, episodes: seq<Episode>, n: NodeId)
    requires WellFormed(d, q, depth) && QualityAlone(d, q) && SafeRoutes(d, q, depth)
    requires QualityReworkedAlone(d, q) && VerdictUnread(d, q) && ReworkTakesReaders(d, q)
    ensures CoherentAt(q, After(d, q, depth, NewRoot, episodes).rows, n)
  {
    hide WellFormed, QualityAlone, SafeRoutes, QualityReworkedAlone, VerdictUnread, ReworkTakesReaders, After, Latest;
    hide Fits;
    EngineSafety.AcceptedIsCoherent(d, q, depth, episodes, n);
  }
}
