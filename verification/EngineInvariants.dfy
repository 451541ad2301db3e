/** What every durable write of the engine keeps true of the persisted rows. */
module EngineInvariants {
  import opened Options
  import opened WorkflowDefinitions
  import opened StepRows

  ghost predicate HasJournaled(rows: seq<Row>, n: NodeId) {
    exists i :: 0 <= i < |rows| && rows[i].node == n && Journaled(rows[i])
  }

  /** The inputs an attempt was given are the latest outputs of those sources. */
  ghost predicate Fits(rows: seq<Row>, inputs: map<NodeId, Output>) {
    forall s :: s in inputs ==> Latest(rows, s).Some? && Latest(rows, s).value.output == inputs[s]
  }

  ghost predicate Repeatable(d: Definition, q: NodeId, n: NodeId) {
    n == q || IsReworkTarget(d, q, n)
  }

  ghost predicate InitialHits(d: Definition, q: NodeId, depth: NodeId -> nat)
    requires WellFormed(d, q, depth)
  {
    InitialNodes(d) != [] && Hits(d, q, depth, InitialNodes(d)[0])
  }

  /** No node succeeds more often than the rework limit allows. */
  ghost predicate Bounded(d: Definition, q: NodeId, rows: seq<Row>) {
    forall n :: Count(rows, n) <= d.maxRework + 1 && (!Repeatable(d, q, n) ==> Count(rows, n) <= 1)
  }

  /** The gate: nothing behind the quality node has run unless the latest verdict accepts. */
  ghost predicate GateClosed(d: Definition, q: NodeId, depth: NodeId -> nat, rows: seq<Row>)
    requires WellFormed(d, q, depth)
  {
    && (forall n :: Gated(d, q, n) && HasRow(rows, n) ==> Accepted(rows, q))
    && (HasRow(rows, q) ==> InitialHits(d, q, depth))
    && (Accepted(rows, q) ==> !HasJournaled(rows, q))
  }

  /** An attempt was given outputs of its own sources only, each of which has succeeded. */
  ghost predicate Tracked(d: Definition, rows: seq<Row>, r: Row) {
    forall s :: s in r.inputs ==> s in InputSources(d, r.node) && s != r.node && Latest(rows, s).Some?
  }

  /** An accepting verdict was computed from the latest outputs of its sources,
      and so will be one that recovery still has to settle. */
  ghost predicate Judged(d: Definition, q: NodeId, rows: seq<Row>) {
    && (forall i :: 0 <= i < |rows| ==> Tracked(d, rows, rows[i]))
    && (Accepted(rows, q) ==> Fits(rows, Latest(rows, q).value.inputs))
    && (forall i :: 0 <= i < |rows| && rows[i].node == q && Journaled(rows[i]) ==> Fits(rows, rows[i].inputs))
    && (forall i :: 0 <= i < |rows| && Journaled(rows[i]) && Latest(rows, rows[i].node).Some? ==>
          !Accepted(rows, q) && (rows[i].node != q ==> !HasJournaled(rows, q)))
  }

  /** The latest verdict sends `n` back. */
  ghost predicate Sent(d: Definition, q: NodeId, rows: seq<Row>, n: NodeId) {
    && Latest(rows, q).Some? && !Latest(rows, q).value.output.accept
    && var defects := NormaliseDefects(Latest(rows, q).value.output.defects);
       Reworkable(defects) && n in ReworkTargets(d, q, defects)
  }

  /** Between two nodes the latest verdict sends back, one may already be renewed
      and the other not, until the quality node runs again. */
  ghost predicate MayLag(d: Definition, q: NodeId, rows: seq<Row>, n: NodeId, s: NodeId) {
    !HasJournaled(rows, q) && Sent(d, q, rows, n) && Sent(d, q, rows, s)
  }

  ghost predicate FitsBut(d: Definition, q: NodeId, rows: seq<Row>, n: NodeId, inputs: map<NodeId, Output>) {
    forall s :: s in inputs ==>
      Latest(rows, s).Some? && (Latest(rows, s).value.output == inputs[s] || MayLag(d, q, rows, n, s))
  }

  /** What a node other than the quality node has to show, or will after recovery. */
  ghost predicate Standing(q: NodeId, rows: seq<Row>, x: Row) {
    x.node != q && (Journaled(x) || Latest(rows, x.node) == Some(x))
  }

  /** Every other node's latest output was computed from the latest outputs of
      its sources, but for what the latest verdict sends back. */
  ghost predicate Coherent(d: Definition, q: NodeId, rows: seq<Row>) {
    && (forall x :: x in rows && Standing(q, rows, x) ==> FitsBut(d, q, rows, x.node, x.inputs))
    && (forall x :: x in rows && Standing(q, rows, x) && Journaled(x) && Latest(rows, x.node).Some? ==>
        Sent(d, q, rows, x.node))
  }

  /** Without exception. */
  ghost predicate Fresh(q: NodeId, rows: seq<Row>) {
    forall x :: x in rows && Standing(q, rows, x) ==> Fits(rows, x.inputs)
  }

  ghost predicate GateConditions(d: Definition, q: NodeId, depth: NodeId -> nat)
    requires WellFormed(d, q, depth)
  {
    QualityAlone(d, q) && SafeRoutes(d, q, depth)
  }

  ghost predicate VerdictConditions(d: Definition, q: NodeId, depth: NodeId -> nat)
    requires WellFormed(d, q, depth)
  {
    QualityAlone(d, q) && QualityReworkedAlone(d, q)
  }

  ghost predicate CoherenceConditions(d: Definition, q: NodeId, depth: NodeId -> nat)
    requires WellFormed(d, q, depth)
  {
    GateConditions(d, q, depth) && VerdictConditions(d, q, depth) && VerdictUnread(d, q) && ReworkTakesReaders(d, q)
  }

  ghost predicate Durable(d: Definition, q: NodeId, depth: NodeId -> nat, rows: seq<Row>)
    requires WellFormed(d, q, depth)
  {
    && Orderly(d, rows)
    && Bounded(d, q, rows)
    && (GateConditions(d, q, depth) ==> GateClosed(d, q, depth, rows))
    && (VerdictConditions(d, q, depth) ==> Judged(d, q, rows))
    && (CoherenceConditions(d, q, depth) ==> Coherent(d, q, rows))
  }

  // ------------------------------------------------------ one durable write

  ghost predicate CountRoom(d: Definition, q: NodeId, rows: seq<Row>, i: nat, r: Row) {
    Banked(r) && !(i < |rows| && Banked(rows[i])) ==>
      Count(rows, r.node) <= d.maxRework && (!Repeatable(d, q, r.node) ==> Count(rows, r.node) == 0)
  }

  ghost predicate GateRoom(d: Definition, q: NodeId, depth: NodeId -> nat, rows: seq<Row>, r: Row)
    requires WellFormed(d, q, depth)
  {
    && (r.node == q ==> !Accepted(rows, q) && InitialHits(d, q, depth))
    && (Gated(d, q, r.node) ==> Accepted(rows, q))
  }

  ghost predicate VerdictRoom(d: Definition, q: NodeId, rows: seq<Row>, r: Row) {
    && r.node !in r.inputs
    && (forall s :: s in r.inputs ==> s in InputSources(d, r.node) && Latest(rows, s).Some?)
    && (r.node == q ==> Fits(rows, r.inputs))
    && (Banked(r) && Latest(rows, r.node).Some? ==>
          && Repeatable(d, q, r.node)
          && !Accepted(rows, q)
          && (r.node != q ==> !HasJournaled(rows, q)))
    && (r.node == q ==> forall i :: 0 <= i < |rows| && rows[i].node != q && Journaled(rows[i]) ==>
        Latest(rows, rows[i].node).None?)
  }

  /** What is written fits, a renewal was asked for by the latest verdict, and
      the quality node runs when nothing is behind. */
  ghost predicate CoherenceRoom(d: Definition, q: NodeId, rows: seq<Row>, r: Row) {
    && (r.node != q ==> FitsBut(d, q, rows, r.node, r.inputs))
    && (r.node != q && Banked(r) && Latest(rows, r.node).Some? ==> Sent(d, q, rows, r.node))
    && (r.node == q && Banked(r) ==> Fresh(q, rows))
  }

  lemma PutBounded(d: Definition, q: NodeId, rows: seq<Row>, i: nat, r: Row)
    requires Orderly(d, rows) && CanPut(d, rows, i, r) && Bounded(d, q, rows) && CountRoom(d, q, rows, i, r)
    ensures Bounded(d, q, Put(rows, i, r))
  {
    forall n ensures Count(Put(rows, i, r), n) <= d.maxRework + 1
    ensures !Repeatable(d, q, n) ==> Count(Put(rows, i, r), n) <= 1
    {
      if n == r.node {
        PutSame(d, rows, i, r);
      } else {
        PutOther(rows, i, r, n);
      }
    }
  }

  lemma PutHasJournaled(d: Definition, rows: seq<Row>, i: nat, r: Row, n: NodeId)
    requires CanPut(d, rows, i, r) && n != r.node
    ensures HasJournaled(Put(rows, i, r), n) <==> HasJournaled(rows, n)
  {
    var put := Put(rows, i, r);
    assert forall j :: 0 <= j < |rows| && j != i ==> put[j] == rows[j];
    if HasJournaled(rows, n) {
      var j :| 0 <= j < |rows| && rows[j].node == n && Journaled(rows[j]);
      assert put[j] == rows[j];
    }
  }

  lemma PutJournaledSame(d: Definition, rows: seq<Row>, i: nat, r: Row)
    requires Orderly(d, rows) && CanPut(d, rows, i, r)
    ensures HasJournaled(Put(rows, i, r), r.node) <==> Journaled(r)
    ensures forall j :: 0 <= j < |Put(rows, i, r)| && j != i && Put(rows, i, r)[j].node == r.node ==>
      !Journaled(Put(rows, i, r)[j])
  {
    var put := Put(rows, i, r);
    PutOrderly(d, rows, i, r);
    assert put[i] == r;
    forall j | 0 <= j < |put| && j != i && put[j].node == r.node ensures !Journaled(put[j]) {
      assert put[j] == rows[j];
      if j < i {
        assert !Open(d, put[j]);
      }
    }
  }

  lemma AcceptedHasRow(rows: seq<Row>, q: NodeId)
    requires Latest(rows, q).Some?
    ensures HasRow(rows, q)
  {
    var i :| 0 <= i < |rows| && rows[i] == Latest(rows, q).value;
  }

  lemma PutGate(d: Definition, q: NodeId, depth: NodeId -> nat, rows: seq<Row>, i: nat, r: Row)
    requires WellFormed(d, q, depth)
    requires Orderly(d, rows) && CanPut(d, rows, i, r)
    requires GateClosed(d, q, depth, rows) && GateRoom(d, q, depth, rows, r)
    ensures GateClosed(d, q, depth, Put(rows, i, r))
  {
    hide WellFormed;
    var put := Put(rows, i, r);
    PutSame(d, rows, i, r);
    PutJournaledSame(d, rows, i, r);
    if r.node != q {
      PutOther(rows, i, r, q);
      PutHasJournaled(d, rows, i, r, q);
    }
    forall n | Gated(d, q, n) && HasRow(put, n) ensures Accepted(put, q) {
      if n != r.node {
        PutOther(rows, i, r, n);
      }
    }
  }

  /** The latest output of `s` only changes when a row of `s` succeeds. */
  lemma PutLatest(d: Definition, rows: seq<Row>, i: nat, r: Row, s: NodeId)
    requires Orderly(d, rows) && CanPut(d, rows, i, r)
    ensures !(s == r.node && Won(r)) ==> Latest(Put(rows, i, r), s) == Latest(rows, s)
    ensures s == r.node && Won(r) ==> Latest(Put(rows, i, r), s) == Some(r)
  {
    if s == r.node {
      PutSame(d, rows, i, r);
    } else {
      PutOther(rows, i, r, s);
    }
  }

  lemma PutFits(d: Definition, rows: seq<Row>, i: nat, r: Row, inputs: map<NodeId, Output>)
    requires Orderly(d, rows) && CanPut(d, rows, i, r)
    requires Fits(rows, inputs) && (Won(r) ==> r.node !in inputs)
    ensures Fits(Put(rows, i, r), inputs)
  {
    forall s | s in inputs ensures Latest(Put(rows, i, r), s) == Latest(rows, s) {
      PutLatest(d, rows, i, r, s);
    }
  }

  /** A success that renews an output which a verdict was given comes after a rejection. */
  lemma RenewedNotJudged(d: Definition, q: NodeId, rows: seq<Row>, r: Row, x: Row)
    requires Judged(d, q, rows) && VerdictRoom(d, q, rows, r)
    requires Won(r) && x in rows && r.node in x.inputs
    ensures !Accepted(rows, q) && (x.node == q ==> r.node != q) && (r.node != q ==> !HasJournaled(rows, q))
    ensures Repeatable(d, q, r.node)
    ensures r.node in InputSources(d, x.node)
  {
    hide Fits;
    var i :| 0 <= i < |rows| && rows[i] == x;
    assert Tracked(d, rows, rows[i]);
  }

  /** A success that renews an output which another node was given is one the
      latest verdict sends back, together with that node. */
  lemma RenewedIsSent(d: Definition, q: NodeId, depth: NodeId -> nat, rows: seq<Row>, r: Row, x: Row)
    requires WellFormed(d, q, depth) && VerdictUnread(d, q) && ReworkTakesReaders(d, q)
    requires GateClosed(d, q, depth, rows) && Judged(d, q, rows)
    requires VerdictRoom(d, q, rows, r) && CoherenceRoom(d, q, rows, r) && (r.node == q ==> !Accepted(rows, q))
    requires Won(r) && x in rows && x.node != q && r.node in x.inputs
    ensures r.node != q && MayLag(d, q, rows, x.node, r.node)
  {
    hide WellFormed, Fits, Judged, Gated, InputSources, IsReworkTarget, ReworkTargets, NormaliseDefects, FitsBut;
    hide Repeatable, Reworkable, Fresh;
    RenewedNotJudged(d, q, rows, r, x);
    var i :| 0 <= i < |rows| && rows[i] == x;
    assert HasRow(rows, x.node);
    assert ReadsAhead(d, q, x.node, r.node);
    assert r.node != q && Sent(d, q, rows, r.node) && !HasJournaled(rows, q) by {
      assert Tracked(d, rows, rows[i]) by { InRows(d, q, rows, i); }
    }
    assert !LeftBehind(d, q, NormaliseDefects(Latest(rows, q).value.output.defects), r.node, x.node);
  }

  lemma InRows(d: Definition, q: NodeId, rows: seq<Row>, i: nat)
    requires Judged(d, q, rows) && i < |rows|
    ensures Tracked(d, rows, rows[i])
  {
  }

  lemma PutJudged(d: Definition, q: NodeId, rows: seq<Row>, i: nat, r: Row)
    requires Orderly(d, rows) && CanPut(d, rows, i, r) && Judged(d, q, rows) && VerdictRoom(d, q, rows, r)
    ensures Judged(d, q, Put(rows, i, r))
  {
    hide Orderly, Tracked, Repeatable;
    var put := Put(rows, i, r);
    PutLatest(d, rows, i, r, q);
    PutVerdictFits(d, q, rows, i, r);
    PutJudgedJournals(d, q, rows, i, r);
    forall j | 0 <= j < |put| ensures Tracked(d, put, put[j]) {
      PutTracked(d, q, rows, i, r, j);
    }
  }

  lemma PutVerdictFits(d: Definition, q: NodeId, rows: seq<Row>, i: nat, r: Row)
    requires Orderly(d, rows) && CanPut(d, rows, i, r) && Judged(d, q, rows) && VerdictRoom(d, q, rows, r)
    ensures Accepted(Put(rows, i, r), q) ==> Fits(Put(rows, i, r), Latest(Put(rows, i, r), q).value.inputs)
  {
    hide Orderly, Tracked, Repeatable;
    var put := Put(rows, i, r);
    PutLatest(d, rows, i, r, q);
    if Accepted(put, q) {
      var x := Latest(put, q).value;
      if Won(r) && r.node != q && r.node in x.inputs {
        RenewedNotJudged(d, q, rows, r, x);
      }
      PutFits(d, rows, i, r, x.inputs);
    }
  }

  lemma PutJudgedJournals(d: Definition, q: NodeId, rows: seq<Row>, i: nat, r: Row)
    requires Orderly(d, rows) && CanPut(d, rows, i, r) && Judged(d, q, rows) && VerdictRoom(d, q, rows, r)
    ensures var put := Put(rows, i, r);
            && (forall j :: 0 <= j < |put| && put[j].node == q && Journaled(put[j]) ==> Fits(put, put[j].inputs))
            && (forall j :: 0 <= j < |put| && Journaled(put[j]) && Latest(put, put[j].node).Some? ==>
                  !Accepted(put, q) && (put[j].node != q ==> !HasJournaled(put, q)))
  {
    var put := Put(rows, i, r);
    PutLatest(d, rows, i, r, q);
    PutJournaledSame(d, rows, i, r);
    if r.node != q {
      PutHasJournaled(d, rows, i, r, q);
    }
    forall j | 0 <= j < |put| && Journaled(put[j])
      ensures put[j].node == q ==> Fits(put, put[j].inputs)
      ensures Latest(put, put[j].node).Some? ==> !Accepted(put, q) && (put[j].node != q ==> !HasJournaled(put, q))
    {
      PutLatest(d, rows, i, r, put[j].node);
      if j != i {
        assert put[j] == rows[j] && put[j].node != r.node;
        if put[j].node == q && Won(r) && r.node in put[j].inputs {
          assert HasJournaled(rows, q);
          RenewedNotJudged(d, q, rows, r, rows[j]);
        }
      }
      if put[j].node == q {
        PutFits(d, rows, i, r, put[j].inputs);
      }
    }
  }

  /** Writes of other nodes, and of the quality node without a verdict, leave
      open what the latest verdict sends back. */
  lemma PutMayLag(d: Definition, q: NodeId, rows: seq<Row>, i: nat, r: Row, n: NodeId, s: NodeId)
    requires Orderly(d, rows) && CanPut(d, rows, i, r) && (r.node == q ==> !Banked(r))
    ensures Sent(d, q, rows, n) ==> Sent(d, q, Put(rows, i, r), n)
    ensures MayLag(d, q, rows, n, s) ==> MayLag(d, q, Put(rows, i, r), n, s)
  {
    hide ReworkTargets, NormaliseDefects, Reworkable, Latest;
    PutLatest(d, rows, i, r, q);
    if r.node == q {
      PutJournaledSame(d, rows, i, r);
    } else {
      PutHasJournaled(d, rows, i, r, q);
    }
  }

  /** What stands after a write stood before it, or is the row written. */
  lemma PutStanding(d: Definition, q: NodeId, rows: seq<Row>, i: nat, r: Row, x: Row)
    requires Orderly(d, rows) && CanPut(d, rows, i, r) && x in Put(rows, i, r) && Standing(q, Put(rows, i, r), x)
    ensures x == r || (x in rows && Standing(q, rows, x))
    ensures x != r && Journaled(x) ==> x.node != r.node
  {
    hide Orderly, Latest;
    var put := Put(rows, i, r);
    var j :| 0 <= j < |put| && put[j] == x;
    PutLatest(d, rows, i, r, x.node);
    PutJournaledSame(d, rows, i, r);
    if j != i {
      assert rows[j] == x;
    }
  }

  lemma PutFitsBut(d: Definition, q: NodeId, depth: NodeId -> nat, rows: seq<Row>, i: nat, r: Row, x: Row)
    requires WellFormed(d, q, depth) && VerdictUnread(d, q) && ReworkTakesReaders(d, q)
    requires Orderly(d, rows) && CanPut(d, rows, i, r)
    requires GateClosed(d, q, depth, rows) && Judged(d, q, rows)
    requires VerdictRoom(d, q, rows, r) && CoherenceRoom(d, q, rows, r) && (r.node == q ==> !Accepted(rows, q))
    requires x in rows && Standing(q, rows, x) && FitsBut(d, q, rows, x.node, x.inputs)
    ensures FitsBut(d, q, Put(rows, i, r), x.node, x.inputs)
  {
    hide WellFormed, VerdictUnread, ReworkTakesReaders, GateClosed, Judged, VerdictRoom, Orderly, Standing, MayLag;
    hide Latest, Sent, Put;
    var put := Put(rows, i, r);
    assert x.node != q by { assert Standing(q, rows, x); StandingIsOther(q, rows, x); }
    forall s | s in x.inputs
      ensures Latest(put, s).Some? && (Latest(put, s).value.output == x.inputs[s] || MayLag(d, q, put, x.node, s))
    {
      PutLatest(d, rows, i, r, s);
      if Won(r) && s == r.node {
        RenewedIsSent(d, q, depth, rows, r, x);
        PutMayLag(d, q, rows, i, r, x.node, s);
      } else if r.node == q && Banked(r) {
        assert Fits(rows, x.inputs);
      } else {
        PutMayLag(d, q, rows, i, r, x.node, s);
      }
    }
  }

  lemma StandingIsOther(q: NodeId, rows: seq<Row>, x: Row)
    requires Standing(q, rows, x)
    ensures x.node != q
  {
  }

  /** The written row itself. */
  lemma PutOwnFits(d: Definition, q: NodeId, rows: seq<Row>, i: nat, r: Row)
    requires Orderly(d, rows) && CanPut(d, rows, i, r) && VerdictRoom(d, q, rows, r)
    requires r.node != q && FitsBut(d, q, rows, r.node, r.inputs)
    ensures FitsBut(d, q, Put(rows, i, r), r.node, r.inputs)
  {
    hide Orderly, MayLag, Latest, Sent, Put, VerdictRoom;
    OwnOutputUnread(d, q, rows, r);
    forall s | s in r.inputs ensures Latest(Put(rows, i, r), s) == Latest(rows, s)
      && (MayLag(d, q, rows, r.node, s) ==> MayLag(d, q, Put(rows, i, r), r.node, s)) {
      PutLatest(d, rows, i, r, s);
      PutMayLag(d, q, rows, i, r, r.node, s);
    }
  }

  /** A completion that renews an output is of a node the latest verdict sends back. */
  lemma PutJournalSent(d: Definition, q: NodeId, rows: seq<Row>, i: nat, r: Row, x: Row)
    requires Orderly(d, rows) && CanPut(d, rows, i, r) && Judged(d, q, rows) && Coherent(d, q, rows)
    requires VerdictRoom(d, q, rows, r) && CoherenceRoom(d, q, rows, r)
    requires x in Put(rows, i, r) && Standing(q, Put(rows, i, r), x) && Journaled(x)
    requires Latest(Put(rows, i, r), x.node).Some?
    ensures Sent(d, q, Put(rows, i, r), x.node)
  {
    hide Orderly, Judged, Sent, Put, FitsBut, Fresh, Latest, Tracked;
    PutStanding(d, q, rows, i, r, x);
    PutLatest(d, rows, i, r, x.node);
    PutMayLag(d, q, rows, i, r, x.node, x.node);
  }

  lemma PutCoherent(d: Definition, q: NodeId, depth: NodeId -> nat, rows: seq<Row>, i: nat, r: Row)
    requires WellFormed(d, q, depth) && VerdictUnread(d, q) && ReworkTakesReaders(d, q)
    requires Orderly(d, rows) && CanPut(d, rows, i, r)
    requires GateClosed(d, q, depth, rows) && Judged(d, q, rows)
    requires VerdictRoom(d, q, rows, r) && CoherenceRoom(d, q, rows, r) && (r.node == q ==> !Accepted(rows, q))
    requires Coherent(d, q, rows)
    ensures Coherent(d, q, Put(rows, i, r))
  {
    hide WellFormed, VerdictUnread, ReworkTakesReaders, Judged, VerdictRoom, GateClosed, Orderly, FitsBut, Sent, Put;
    hide Latest, Fresh;
    var put := Put(rows, i, r);
    forall x | x in put && Standing(q, put, x)
      ensures FitsBut(d, q, put, x.node, x.inputs)
      ensures Journaled(x) && Latest(put, x.node).Some? ==> Sent(d, q, put, x.node)
    {
      PutStanding(d, q, rows, i, r, x);
      if x == r {
        PutOwnFits(d, q, rows, i, r);
      } else {
        PutFitsBut(d, q, depth, rows, i, r, x);
      }
      if Journaled(x) && Latest(put, x.node).Some? {
        PutJournalSent(d, q, rows, i, r, x);
      }
    }
  }

  lemma OwnOutputUnread(d: Definition, q: NodeId, rows: seq<Row>, r: Row)
    requires VerdictRoom(d, q, rows, r)
    ensures r.node !in r.inputs
  {
  }

  lemma PutTracked(d: Definition, q: NodeId, rows: seq<Row>, i: nat, r: Row, j: nat)
    requires Orderly(d, rows) && CanPut(d, rows, i, r)
    requires (forall x :: 0 <= x < |rows| ==> Tracked(d, rows, rows[x])) && VerdictRoom(d, q, rows, r)
    requires j < |Put(rows, i, r)|
    ensures Tracked(d, Put(rows, i, r), Put(rows, i, r)[j])
  {
    var put := Put(rows, i, r);
    assert j != i ==> put[j] == rows[j] && Tracked(d, rows, rows[j]);
    forall s | s in put[j].inputs ensures Latest(put, s).Some? {
      PutLatest(d, rows, i, r, s);
    }
  }

  lemma PutDurable(d: Definition, q: NodeId, depth: NodeId -> nat, rows: seq<Row>, i: nat, r: Row)
    requires WellFormed(d, q, depth) && Durable(d, q, depth, rows)
    requires CanPut(d, rows, i, r) && CountRoom(d, q, rows, i, r)
    requires GateConditions(d, q, depth) ==> GateRoom(d, q, depth, rows, r)
    requires VerdictConditions(d, q, depth) ==> VerdictRoom(d, q, rows, r)
    requires CoherenceConditions(d, q, depth) ==> CoherenceRoom(d, q, rows, r)
    ensures Durable(d, q, depth, Put(rows, i, r))
  {
    hide WellFormed, GateClosed, Coherent, Judged, VerdictRoom, CoherenceRoom, Fits;
    PutOrderly(d, rows, i, r);
    PutBounded(d, q, rows, i, r);
    if GateConditions(d, q, depth) {
      PutGate(d, q, depth, rows, i, r);
    }
    if VerdictConditions(d, q, depth) {
      PutJudged(d, q, rows, i, r);
    }
    if CoherenceConditions(d, q, depth) {
      PutCoherent(d, q, depth, rows, i, r);
    }
  }
}
