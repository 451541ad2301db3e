/** The persisted step attempts of one root and what recovery reads off them. */
module StepRows {
  import opened Options
  import opened WorkflowDefinitions

  /** A node's output; `accept` and `defects` matter for the quality node only. */
  datatype Output = Output(content: int, accept: bool, defects: seq<Defect>)

  datatype StepStatus = StepPending | StepRunning | StepSucceeded | StepFailed | StepBlocked | StepCancelled

  /** `journal` is a provider completion stored before the step itself succeeded;
      `inputs` are the shared outputs the attempt was given. */
  datatype Row = Row(
    node: NodeId, attempt: nat, status: StepStatus,
    journal: Option<Output>, output: Output, inputs: map<NodeId, Output>)

  predicate Won(r: Row) { r.status.StepSucceeded? }

  predicate Journaled(r: Row) { r.status.StepRunning? && r.journal.Some? }

  /** Succeeded, or bound to be marked so by the next recovery. */
  predicate Banked(r: Row) { Won(r) || Journaled(r) }

  predicate Unfinished(r: Row) { r.status in {StepPending, StepRunning} }

  /** Rows a later claim still writes to: journaled skills and interrupted actions. */
  predicate Open(d: Definition, r: Row) {
    Journaled(r) || (Unfinished(r) && !IsSkill(d, r.node))
  }

  function Count(rows: seq<Row>, n: NodeId): nat {
    if rows == [] then 0
    else Count(rows[..|rows| - 1], n) + (if rows[|rows| - 1].node == n && Banked(rows[|rows| - 1]) then 1 else 0)
  }

  function RowsOf(rows: seq<Row>, n: NodeId): nat {
    if rows == [] then 0
    else RowsOf(rows[..|rows| - 1], n) + (if rows[|rows| - 1].node == n then 1 else 0)
  }

  /** How many attempts of `n` have succeeded. */
  function Successes(rows: seq<Row>, n: NodeId): nat {
    if rows == [] then 0
    else Successes(rows[..|rows| - 1], n) + (if rows[|rows| - 1].node == n && Won(rows[|rows| - 1]) then 1 else 0)
  }

  function LastAttempt(rows: seq<Row>, n: NodeId): nat {
    if rows == [] then 0
    else if rows[|rows| - 1].node == n then rows[|rows| - 1].attempt
    else LastAttempt(rows[..|rows| - 1], n)
  }

  /** The successful attempt of `n` with the highest attempt number. */
  function Latest(rows: seq<Row>, n: NodeId): (r: Option<Row>)
    ensures r.Some? ==> r.value in rows && r.value.node == n && Won(r.value)
  {
    if rows == [] then None
    else if rows[|rows| - 1].node == n && Won(rows[|rows| - 1]) then Some(rows[|rows| - 1])
    else Latest(rows[..|rows| - 1], n)
  }

  predicate HasRow(rows: seq<Row>, n: NodeId) {
    exists i :: 0 <= i < |rows| && rows[i].node == n
  }

  /** The latest verdict of the quality node accepts. */
  predicate Accepted(rows: seq<Row>, q: NodeId) {
    Latest(rows, q).Some? && Latest(rows, q).value.output.accept
  }

  /** Rows of one node carry rising attempt numbers, and only its last row can still be open. */
  ghost predicate Orderly(d: Definition, rows: seq<Row>) {
    && (forall i :: 0 <= i < |rows| ==> rows[i].attempt >= 1)
    && (forall i, j :: 0 <= i < j < |rows| && rows[i].node == rows[j].node ==>
          rows[i].attempt < rows[j].attempt && !Open(d, rows[i]))
  }

  /** Replace row `i`, or append when `i` is the number of rows. */
  function Put(rows: seq<Row>, i: nat, r: Row): seq<Row>
    requires i <= |rows|
  {
    if i == |rows| then rows + [r] else rows[i := r]
  }

  ghost predicate CanPut(d: Definition, rows: seq<Row>, i: nat, r: Row) {
    && i <= |rows|
    && r.attempt >= 1
    && (i == |rows| ==> r.attempt > LastAttempt(rows, r.node))
    && (i < |rows| ==> rows[i].node == r.node && rows[i].attempt == r.attempt && Open(d, rows[i]))
    && (i == |rows| ==> forall j :: 0 <= j < |rows| && rows[j].node == r.node ==> !Open(d, rows[j]))
  }

  lemma {:induction false} LastAttemptBounds(d: Definition, rows: seq<Row>, n: NodeId)
    requires Orderly(d, rows)
    ensures forall i :: 0 <= i < |rows| && rows[i].node == n ==> rows[i].attempt <= LastAttempt(rows, n)
    ensures RowsOf(rows, n) <= LastAttempt(rows, n)
    ensures Count(rows, n) <= RowsOf(rows, n)
    ensures Successes(rows, n) <= Count(rows, n)
  {
    if rows != [] {
      var front := rows[..|rows| - 1];
      OrderlyFront(d, rows);
      LastAttemptBounds(d, front, n);
      assert forall i :: 0 <= i < |front| ==> front[i] == rows[i];
      if rows[|rows| - 1].node == n {
        LastAttemptBelow(d, rows, n);
      }
    }
  }

  lemma OrderlyFront(d: Definition, rows: seq<Row>)
    requires Orderly(d, rows) && rows != []
    ensures Orderly(d, rows[..|rows| - 1])
  {
  }

  lemma {:induction false} LastAttemptRow(rows: seq<Row>, n: NodeId)
    ensures || LastAttempt(rows, n) == 0
            || exists i :: 0 <= i < |rows| && rows[i].node == n && rows[i].attempt == LastAttempt(rows, n)
  {
    if rows != [] && rows[|rows| - 1].node != n {
      var front := rows[..|rows| - 1];
      LastAttemptRow(front, n);
      if LastAttempt(front, n) != 0 {
        var i :| 0 <= i < |front| && front[i].node == n && front[i].attempt == LastAttempt(front, n);
        assert rows[i] == front[i];
      }
    }
  }

  lemma LastAttemptBelow(d: Definition, rows: seq<Row>, n: NodeId)
    requires Orderly(d, rows) && rows != [] && rows[|rows| - 1].node == n
    ensures LastAttempt(rows[..|rows| - 1], n) < rows[|rows| - 1].attempt
  {
    var front := rows[..|rows| - 1];
    LastAttemptRow(front, n);
    if LastAttempt(front, n) != 0 {
      var i :| 0 <= i < |front| && front[i].node == n && front[i].attempt == LastAttempt(front, n);
      assert rows[i] == front[i];
    }
  }

  lemma PutOrderly(d: Definition, rows: seq<Row>, i: nat, r: Row)
    requires Orderly(d, rows) && CanPut(d, rows, i, r)
    ensures Orderly(d, Put(rows, i, r))
  {
    LastAttemptBounds(d, rows, r.node);
  }

  /** Writing a row of one node leaves everything recovery reads about other nodes. */
  lemma {:induction false} PutOther(rows: seq<Row>, i: nat, r: Row, n: NodeId)
    requires i <= |rows| && n != r.node && (i < |rows| ==> rows[i].node == r.node)
    ensures Count(Put(rows, i, r), n) == Count(rows, n)
    ensures Latest(Put(rows, i, r), n) == Latest(rows, n)
    ensures LastAttempt(Put(rows, i, r), n) == LastAttempt(rows, n)
    ensures HasRow(Put(rows, i, r), n) <==> HasRow(rows, n)
    decreases |rows|
  {
    var put := Put(rows, i, r);
    if i == |rows| {
      assert put[..|rows|] == rows;
    } else {
      var front := rows[..|rows| - 1];
      if i == |rows| - 1 {
        assert put[..|rows| - 1] == front;
      } else {
        assert put[..|rows| - 1] == Put(front, i, r);
        PutOther(front, i, r, n);
      }
    }
    assert forall j :: 0 <= j < |rows| && j != i ==> put[j] == rows[j];
    if HasRow(rows, n) {
      var j :| 0 <= j < |rows| && rows[j].node == n;
      assert put[j].node == n;
    }
  }

  lemma {:induction false} NothingAfter(rows: seq<Row>, n: NodeId)
    requires forall j :: 0 <= j < |rows| ==> rows[j].node != n
    ensures Count(rows, n) == 0 && Latest(rows, n) == None && LastAttempt(rows, n) == 0
  {
    if rows != [] {
      NothingAfter(rows[..|rows| - 1], n);
    }
  }

  /** Writing the last row of a node: the count moves by that row, and the
      latest success is that row if it succeeded. */
  lemma {:induction false} PutSame(d: Definition, rows: seq<Row>, i: nat, r: Row)
    requires Orderly(d, rows) && CanPut(d, rows, i, r)
    ensures var before := if i < |rows| && Banked(rows[i]) then 1 else 0;
            Count(Put(rows, i, r), r.node) == Count(rows, r.node) - before + (if Banked(r) then 1 else 0)
    ensures Latest(Put(rows, i, r), r.node) == if Won(r) then Some(r) else Latest(rows, r.node)
    ensures LastAttempt(Put(rows, i, r), r.node) == r.attempt
    ensures HasRow(Put(rows, i, r), r.node)
    decreases |rows|
  {
    hide Orderly, Open, Banked, CanPut;
    assert i <= |rows| && (i < |rows| ==> rows[i].node == r.node && !Won(rows[i])) by { PutIndex(d, rows, i, r); }
    var put := Put(rows, i, r);
    assert put[i].node == r.node;
    if i == |rows| {
      assert put[..|rows|] == rows;
    } else {
      var front := rows[..|rows| - 1];
      if i == |rows| - 1 {
        assert put[..|rows| - 1] == front;
      } else {
        PutBefore(d, rows, i, r);
        assert put[..|rows| - 1] == Put(front, i, r);
        PutSame(d, front, i, r);
      }
    }
  }

  lemma PutIndex(d: Definition, rows: seq<Row>, i: nat, r: Row)
    requires CanPut(d, rows, i, r)
    ensures i <= |rows| && (i < |rows| ==> rows[i].node == r.node && !Won(rows[i]))
  {
  }

  /** A row that can still be written is its node's last. */
  lemma PutBefore(d: Definition, rows: seq<Row>, i: nat, r: Row)
    requires Orderly(d, rows) && CanPut(d, rows, i, r) && i < |rows| - 1
    ensures var front := rows[..|rows| - 1];
            Orderly(d, front) && CanPut(d, front, i, r) && rows[|rows| - 1].node != r.node
  {
  }
}
