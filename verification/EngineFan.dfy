/** Branches of a fan-out do not touch each other's rows: each leaves what it would
    leave alone, whatever the others do and in whatever order they come. */
module EngineFan {
  import opened Options
  import opened Walks
  import opened WorkflowDefinitions
  import opened StepRows
  import opened EngineSpec

  /** The rows of one node. */
  function Only(rows: seq<Row>, n: NodeId): seq<Row> {
    if rows == [] then []
    else
      var last := rows[|rows| - 1];
      Only(rows[..|rows| - 1], n) + if last.node == n then [last] else []
  }

  /** A write of another node's row. */
  lemma {:induction false} OnlyOther(rows: seq<Row>, i: nat, r: Row, n: NodeId)
    requires i <= |rows| && r.node != n && (i < |rows| ==> rows[i].node == r.node)
    ensures Only(Put(rows, i, r), n) == Only(rows, n)
    decreases |rows|
  {
    var put := Put(rows, i, r);
    if i == |rows| {
      assert put[..|rows|] == rows;
    } else {
      var front := rows[..|rows| - 1];
      if i == |rows| - 1 {
        assert put[..|rows| - 1] == front;
      } else {
        assert put[..|rows| - 1] == Put(front, i, r);
        OnlyOther(front, i, r, n);
      }
    }
  }

  /** A write of its own row, at the place that row has among the node's rows. */
  lemma {:induction false} OnlySame(rows: seq<Row>, i: nat, r: Row, n: NodeId)
    requires i <= |rows| && r.node == n && (i < |rows| ==> rows[i].node == n)
    ensures var k := |Only(rows[..i], n)|;
            && k <= |Only(rows, n)| && (i == |rows| <==> k == |Only(rows, n)|)
            && Only(Put(rows, i, r), n) == if i < |rows| then Only(rows, n)[k := r] else Only(rows, n) + [r]
    decreases |rows|
  {
    var put := Put(rows, i, r);
    if i == |rows| {
      assert rows[..i] == rows;
      assert put[..|rows|] == rows;
    } else {
      var front := rows[..|rows| - 1];
      if i == |rows| - 1 {
        assert put[..|rows| - 1] == front && rows[..i] == front;
      } else {
        assert put[..|rows| - 1] == Put(front, i, r);
        assert front[..i] == rows[..i];
        OnlySame(front, i, r, n);
      }
    }
  }

  /** The interrupted attempt, by its place among the node's rows. */
  lemma {:induction false} InterruptedAmong(rows: seq<Row>, n: NodeId)
    ensures LastUnfinished(rows, n).Some? <==> LastUnfinished(Only(rows, n), n).Some?
    ensures LastUnfinished(rows, n).Some? ==>
              var i := LastUnfinished(rows, n).value;
              && LastUnfinished(Only(rows, n), n).value == |Only(rows[..i], n)|
              && Only(rows, n)[|Only(rows[..i], n)|] == rows[i]
  {
    if rows != [] {
      hide Unfinished;
      var front, last := rows[..|rows| - 1], rows[|rows| - 1];
      var only := Only(rows, n);
      InterruptedAmong(front, n);
      if last.node == n {
        assert only == Only(front, n) + [last];
        assert only[..|only| - 1] == Only(front, n);
      } else {
        assert only == Only(front, n);
      }
      if !(last.node == n && Unfinished(last)) && LastUnfinished(front, n).Some? {
        var i := LastUnfinished(front, n).value;
        assert front[..i] == rows[..i];
      }
    }
  }

  /** What a node's execution leaves of its own rows depends on its own rows only. */
  lemma PerformOnly(d: Definition, a: seq<Row>, b: seq<Row>, state: map<NodeId, Output>, n: NodeId, attempt: nat,
                    o: Outcome)
    requires Only(a, n) == Only(b, n)
    ensures Only(Perform(d, a, state, n, attempt, o), n) == Only(Perform(d, b, state, n, attempt, o), n)
  {
    hide IsSkill, Project, Only, LastUnfinished;
    InterruptedAmong(a, n);
    InterruptedAmong(b, n);
    var i, j := RowIndex(d, a, n), RowIndex(d, b, n);
    var r, s := WrittenRow(d, a, state, n, attempt, o), WrittenRow(d, b, state, n, attempt, o);
    assert i < |a| <==> j < |b|;
    assert r == s;
    if r.Some? {
      OnlySame(a, i, r.value, n);
      OnlySame(b, j, s.value, n);
    }
  }

  lemma PerformElsewhere(d: Definition, rows: seq<Row>, state: map<NodeId, Output>, n: NodeId, attempt: nat,
                         o: Outcome, m: NodeId)
    requires m != n
    ensures Only(Perform(d, rows, state, n, attempt, o), m) == Only(rows, m)
  {
    hide IsSkill, Project, Only, LastUnfinished;
    var r := WrittenRow(d, rows, state, n, attempt, o);
    if r.Some? {
      OnlyOther(rows, RowIndex(d, rows, n), r.value, m);
    }
  }

  /** Main result: after a fan-out, stopped or not, the rows of each branch are those
      of executing it alone on the state at the fork, and other nodes' rows are unchanged. */
  lemma {:induction false} BranchesAreIndependent(d: Definition, rows: seq<Row>, state: map<NodeId, Output>,
                                                  attempts: map<NodeId, nat>, nodes: seq<NodeId>, w: World, k: nat,
                                                  m: NodeId)
    requires NoRepeats(nodes)
    ensures Only(Fan(d, rows, state, attempts, nodes, w, k).rows, m) ==
              if m in nodes
              then Only(Perform(d, rows, state, m, AttemptsOf(attempts, m) + 1, w.outcome(2 * k + 1, m)), m)
              else Only(rows, m)
    decreases |nodes|
  {
    hide Perform, Only;
    if nodes != [] {
      var n, o := nodes[0], w.outcome(2 * k + 1, nodes[0]);
      NoRepeatsTail(nodes);
      assert nodes == [n] + nodes[1..];
      var next := Perform(d, rows, state, n, AttemptsOf(attempts, n) + 1, o);
      BranchesAreIndependent(d, next, state, attempts, nodes[1..], w, k, m);
      if m != n {
        PerformElsewhere(d, rows, state, n, AttemptsOf(attempts, n) + 1, o, m);
        PerformOnly(d, next, rows, state, m, AttemptsOf(attempts, m) + 1, w.outcome(2 * k + 1, m));
      }
    }
  }
}
