/** The root lifecycle: the transition table, the compare-and-set row and every
    writer of a root's status, interleaved arbitrarily. */
module Lifecycle {
  import opened Options

  datatype RunStatus =
    | Queued | Running | Reworking | Pausing | Paused | WaitingApproval
    | Cancelling | Cancelled | Succeeded | Failed | Blocked

  predicate IsTerminal(s: RunStatus) {
    s in {Cancelled, Succeeded, Failed, Blocked}
  }

  function RootTransitions(s: RunStatus): set<RunStatus> {
    match s
    case Queued => {Running, Cancelling, Cancelled, Failed, Blocked}
    case Running => {Reworking, Pausing, WaitingApproval, Cancelling, Succeeded, Failed, Blocked}
    case Reworking => {Running, Cancelling, Blocked, Failed}
    case Pausing => {Paused, Cancelling, Failed}
    case Paused => {Queued, Running, Cancelling, Blocked}
    case WaitingApproval => {Queued, Running, Cancelling, Blocked}
    case Cancelling => {Cancelled, Failed, Blocked}
    case _ => {}
  }

  /** The check of `assert_run_transition`: staying put is always allowed. */
  predicate MayMove(current: RunStatus, target: RunStatus) {
    current == target || target in RootTransitions(current)
  }

  datatype EventKind = Progress | Evidence | Token | ArtifactEvent | Trace | Done | Error

  predicate Closing(k: EventKind) { k.Done? || k.Error? }

  /** The persisted row of one root together with its event log. */
  datatype Root = Root(
    status: RunStatus, version: nat, epoch: nat, cancelRequested: bool, approvalRequested: bool, log: seq<EventKind>)

  const FreshRoot := Root(Queued, 0, 0, false, false, [])

  predicate HasClosing(log: seq<EventKind>) {
    exists i :: 0 <= i < |log| && Closing(log[i])
  }

  /** Every place in the program that writes a root's status. */
  datatype Writer =
    | EngineStart | EngineRework | EngineContinue | EngineSucceed | EngineFail(blocked: bool)
    | EngineCancel | EnginePause | EngineWait
    | RecoveryWait | RecoveryBlock
    | Pause | Resume | Retry | Approve | Reject | Cancel

  datatype Write = Write(target: RunStatus, kind: EventKind, fenced: bool)

  predicate Claimable(s: RunStatus) {
    s in {Queued, Running, Reworking, Pausing, Cancelling}
  }

  /** What a writer decides to write after it has read the row `seen`. */
  function Intent(w: Writer, seen: Root): Option<Write> {
    var s := seen.status;
    match w
    case EngineStart =>
      if IsTerminal(s) || seen.cancelRequested || s in {Cancelling, Pausing, Running} || !MayMove(s, Running) then None
      else Some(Write(Running, Progress, true))
    case EngineRework => if MayMove(s, Reworking) then Some(Write(Reworking, Progress, true)) else None
    case EngineContinue => if MayMove(s, Running) then Some(Write(Running, Progress, true)) else None
    case EngineSucceed => if MayMove(s, Succeeded) then Some(Write(Succeeded, Done, true)) else None
    case EngineFail(blocked) =>
      var target := if blocked then Blocked else Failed;
      if MayMove(s, target) then Some(Write(target, Error, true)) else None
    case EngineCancel => if s != Cancelled && MayMove(s, Cancelled) then Some(Write(Cancelled, Done, true)) else None
    case EnginePause => if s == Pausing then Some(Write(Paused, Progress, true)) else None
    case EngineWait => if s != WaitingApproval && MayMove(s, WaitingApproval)
      then Some(Write(WaitingApproval, Progress, true)) else None
    // The recovery service runs on a claimed root that was not queued; it never consults the table.
    case RecoveryWait => if Claimable(s) && s != Queued then Some(Write(WaitingApproval, Trace, true)) else None
    case RecoveryBlock => if Claimable(s) && s != Queued then Some(Write(Blocked, Error, true)) else None
    case Pause => if s != Paused && MayMove(s, Pausing) then Some(Write(Pausing, Progress, false)) else None
    case Resume => if s == Paused then Some(Write(Queued, Progress, false)) else None
    case Retry => if s == WaitingApproval then Some(Write(Queued, Progress, false)) else None
    // a decision needs an approval of this root; once decided it can be decided again
    case Approve => if s == WaitingApproval && seen.approvalRequested then Some(Write(Queued, Progress, false))
      else None
    case Reject => if !IsTerminal(s) && seen.approvalRequested then Some(Write(Blocked, Error, false)) else None
    case Cancel =>
      if IsTerminal(s) || (seen.cancelRequested && s == Cancelling) then None
      else Some(Write(Cancelling, Progress, false))
  }

  /** `transition_run`: fenced compare-and-set plus the event of the same
      transaction, which the log refuses once a closing event exists. */
  predicate Commits(root: Root, w: Writer, seen: Root, leaseActive: bool) {
    && Intent(w, seen).Some?
    && seen.version == root.version
    && (Intent(w, seen).value.fenced ==> seen.epoch == root.epoch && leaseActive)
    && !HasClosing(root.log)
  }

  function Committed(root: Root, w: Writer, seen: Root): Root
    requires Intent(w, seen).Some?
  {
    var write := Intent(w, seen).value;
    Root(write.target, root.version + 1, root.epoch, root.cancelRequested || w.Cancel?,
         root.approvalRequested || w.EngineWait?, root.log + [write.kind])
  }

  /** The stored row, written in place by whichever session gets there first. */
  class RunRow {
    var root: Root

    constructor ()
      ensures root == FreshRoot
    {
      root := FreshRoot;
    }

    method TransitionRun(w: Writer, seen: Root, leaseActive: bool) returns (ok: bool)
      modifies this
      ensures ok == Commits(old(root), w, seen, leaseActive)
      ensures root == if ok then Committed(old(root), w, seen) else old(root)
    {
      var intent := Intent(w, seen);
      if intent.None? || seen.version != root.version {
        return false;
      }
      if intent.value.fenced && !(seen.epoch == root.epoch && leaseActive) {
        return false;
      }
      // the terminal event is a barrier for every later append
      var i := 0;
      while i < |root.log|
        invariant 0 <= i <= |root.log|
        invariant forall j :: 0 <= j < i ==> !Closing(root.log[j])
      {
        if Closing(root.log[i]) {
          return false;
        }
        i := i + 1;
      }
      root := Root(intent.value.target, root.version + 1, root.epoch, root.cancelRequested || w.Cancel?,
                   root.approvalRequested || w.EngineWait?, root.log + [intent.value.kind]);
      return true;
    }
  }

  // ---------------------------------------------------------------------
  // All interleavings of engine workers, recovery and control-plane requests
  // ---------------------------------------------------------------------

  datatype Step =
    | Read(actor: nat)
    | Claim(actor: nat)
    | Attempt(actor: nat, writer: Writer, leaseActive: bool)
    | Emit(kind: EventKind)

  datatype Change = Change(writer: Writer, before: RunStatus, after: RunStatus)

  /** `seen` holds the row each actor last read, however stale it has become. */
  datatype System = System(root: Root, seen: map<nat, Root>, history: seq<Change>)

  const Start := System(FreshRoot, map[], [])

  function Do(sys: System, step: Step): System {
    match step
    case Read(actor) => sys.(seen := sys.seen[actor := sys.root])
    case Claim(actor) =>
      if Claimable(sys.root.status) then
        var claimed := sys.root.(version := sys.root.version + 1, epoch := sys.root.epoch + 1);
        sys.(root := claimed, seen := sys.seen[actor := claimed])
      else sys
    case Attempt(actor, w, leaseActive) =>
      if actor in sys.seen && Commits(sys.root, w, sys.seen[actor], leaseActive) then
        var after := Committed(sys.root, w, sys.seen[actor]);
        System(after, sys.seen[actor := after], sys.history + [Change(w, sys.root.status, after.status)])
      else sys
    case Emit(kind) =>
      if Closing(kind) || HasClosing(sys.root.log) then sys
      else sys.(root := sys.root.(log := sys.root.log + [kind]))
  }

  function Run(sys: System, steps: seq<Step>): System
    decreases |steps|
  {
    if steps == [] then sys else Run(Do(sys, steps[0]), steps[1..])
  }

  /** The writes that bypass the table, each from the statuses where it matters. */
  predicate OffTable(w: Writer, before: RunStatus) {
    || (w.Reject? && before == Pausing)
    || (w.RecoveryBlock? && before == Pausing)
    || (w.RecoveryWait? && before in {Reworking, Pausing, Cancelling})
  }

  function ClosingCount(log: seq<EventKind>): nat {
    if log == [] then 0
    else ClosingCount(log[..|log| - 1]) + (if Closing(log[|log| - 1]) then 1 else 0)
  }

  predicate SnapshotOk(root: Root, s: Root) {
    && s.version <= root.version
    && (s.version == root.version ==>
          && s.status == root.status && s.epoch == root.epoch
          && s.cancelRequested == root.cancelRequested && s.approvalRequested == root.approvalRequested)
  }

  ghost predicate Consistent(sys: System) {
    && (forall a :: a in sys.seen ==> SnapshotOk(sys.root, sys.seen[a]))
    && (IsTerminal(sys.root.status) <==> HasClosing(sys.root.log))
    && ClosingCount(sys.root.log) == (if IsTerminal(sys.root.status) then 1 else 0)
    && (IsTerminal(sys.root.status) ==> Closing(sys.root.log[|sys.root.log| - 1]))
    && (forall i :: 0 <= i < |sys.history| ==>
          var c := sys.history[i];
          !IsTerminal(c.before) && (MayMove(c.before, c.after) <==> !OffTable(c.writer, c.before)))
  }

  lemma NoClosingCount(log: seq<EventKind>)
    requires !HasClosing(log)
    ensures ClosingCount(log) == 0
  {
    if log != [] {
      assert forall i :: 0 <= i < |log| - 1 ==> log[..|log| - 1][i] == log[i];
      NoClosingCount(log[..|log| - 1]);
    }
  }

  lemma AppendKind(log: seq<EventKind>, k: EventKind)
    ensures ClosingCount(log + [k]) == ClosingCount(log) + (if Closing(k) then 1 else 0)
    ensures HasClosing(log + [k]) <==> HasClosing(log) || Closing(k)
  {
    assert (log + [k])[..|log|] == log;
    if HasClosing(log) {
      var i :| 0 <= i < |log| && Closing(log[i]);
      assert Closing((log + [k])[i]);
    }
    if Closing(k) {
      assert Closing((log + [k])[|log|]);
    }
  }

  /** What a writer decides on an up-to-date row is an edge of the table, except
      for the off-table writes, and it closes the log exactly when it ends the root. */
  lemma IntentFollowsTable(w: Writer, seen: Root)
    requires Intent(w, seen).Some? && !IsTerminal(seen.status)
    ensures MayMove(seen.status, Intent(w, seen).value.target) <==> !OffTable(w, seen.status)
    ensures IsTerminal(Intent(w, seen).value.target) <==> Closing(Intent(w, seen).value.kind)
  {
  }

  lemma DoKeeps(sys: System, step: Step)
    requires Consistent(sys)
    ensures Consistent(Do(sys, step))
  {
    match step
    case Read(_) =>
    case Claim(_) =>
    case Attempt(actor, w, leaseActive) =>
      if actor in sys.seen && Commits(sys.root, w, sys.seen[actor], leaseActive) {
        var seen := sys.seen[actor];
        assert SnapshotOk(sys.root, seen);
        IntentFollowsTable(w, seen);
        AppendKind(sys.root.log, Intent(w, seen).value.kind);
        NoClosingCount(sys.root.log);
      }
    case Emit(kind) =>
      AppendKind(sys.root.log, kind);
  }

  lemma {:induction false} RunKeeps(sys: System, steps: seq<Step>)
    requires Consistent(sys)
    ensures Consistent(Run(sys, steps))
    decreases |steps|
  {
    if steps != [] {
      DoKeeps(sys, steps[0]);
      RunKeeps(Do(sys, steps[0]), steps[1..]);
    }
  }

  /** Main result: over every interleaving, a committed status change is an edge
      of the table if and only if it is not one of the off-table writes, and no
      change ever leaves a terminal status. */
  lemma {:induction false} ChangesFollowTable(steps: seq<Step>, i: nat)
    requires i < |Run(Start, steps).history|
    ensures var c := Run(Start, steps).history[i];
            !IsTerminal(c.before) && (MayMove(c.before, c.after) <==> !OffTable(c.writer, c.before))
  {
    assert Consistent(Start);
    RunKeeps(Start, steps);
  }

  /** Main result: the log holds a done/error event exactly when the root is
      terminal, then exactly one, and nothing follows it. */
  lemma {:induction false} OneClosingEvent(steps: seq<Step>)
    ensures var root := Run(Start, steps).root;
            && (HasClosing(root.log) <==> IsTerminal(root.status))
            && ClosingCount(root.log) == (if IsTerminal(root.status) then 1 else 0)
            && (IsTerminal(root.status) ==> Closing(root.log[|root.log| - 1]))
  {
    assert Consistent(Start);
    RunKeeps(Start, steps);
  }

  /** Main result: a terminal root is absorbing; no later interleaving changes
      its status or appends to its log. */
  lemma {:induction false} TerminalAbsorbs(sys: System, steps: seq<Step>)
    requires Consistent(sys) && IsTerminal(sys.root.status)
    ensures Run(sys, steps).root.status == sys.root.status
    ensures Run(sys, steps).root.log == sys.root.log
    ensures Run(sys, steps).history == sys.history
    decreases |steps|
  {
    if steps != [] {
      DoKeeps(sys, steps[0]);
      TerminalAbsorbs(Do(sys, steps[0]), steps[1..]);
    }
  }

  /** The compare-and-set makes a stale check sound: a write that commits was
      decided on the status it replaces, whatever other actors did meanwhile. */
  lemma {:induction false} CommitSawCurrentStatus(steps: seq<Step>, actor: nat, w: Writer, leaseActive: bool)
    requires var sys := Run(Start, steps);
             actor in sys.seen && Commits(sys.root, w, sys.seen[actor], leaseActive)
    ensures var sys := Run(Start, steps);
            sys.seen[actor].status == sys.root.status && !IsTerminal(sys.root.status)
  {
    assert Consistent(Start);
    RunKeeps(Start, steps);
    var sys := Run(Start, steps);
    assert SnapshotOk(sys.root, sys.seen[actor]);
  }

  // ---------------------------------------------------------------------
  // Each off-table write is reachable
  // ---------------------------------------------------------------------

  lemma {:induction false} RunConcat(sys: System, a: seq<Step>, b: seq<Step>)
    ensures Run(sys, a + b) == Run(Run(sys, a), b)
    decreases |a|
  {
    if a == [] {
      assert a + b == b;
    } else {
      assert (a + b)[0] == a[0] && (a + b)[1..] == a[1..] + b;
      RunConcat(Do(sys, a[0]), a[1..], b);
    }
  }

  lemma RunTwo(sys: System, a: Step, b: Step)
    ensures Run(sys, [a, b]) == Do(Do(sys, a), b)
  {
    assert [a, b][1..] == [b] && [b][1..] == [];
    assert Run(Do(sys, a), [b]) == Run(Do(Do(sys, a), b), []);
  }

  /** An actor reads or claims the root and at once writes. */
  datatype Leg = Leg(claims: bool, actor: nat, writer: Writer)

  function StepsOf(legs: seq<Leg>): seq<Step> {
    if legs == [] then []
    else
      var leg := legs[|legs| - 1];
      StepsOf(legs[..|legs| - 1])
      + [if leg.claims then Claim(leg.actor) else Read(leg.actor), Attempt(leg.actor, leg.writer, true)]
  }

  /** The root after a leg that commits. */
  function Stepped(r: Root, leg: Leg): Option<Root> {
    var seen := if leg.claims then r.(version := r.version + 1, epoch := r.epoch + 1) else r;
    if (leg.claims && !Claimable(r.status)) || IsTerminal(r.status) || Intent(leg.writer, seen).None? then None
    else Some(Committed(seen, leg.writer, seen))
  }

  /** The root after the legs, when each of them commits. */
  function RootAfter(legs: seq<Leg>): Option<Root> {
    if legs == [] then Some(FreshRoot)
    else
      match RootAfter(legs[..|legs| - 1])
      case None => None
      case Some(r) => Stepped(r, legs[|legs| - 1])
  }

  lemma LegRuns(sys: System, leg: Leg)
    requires Stepped(sys.root, leg).Some? && !HasClosing(sys.root.log)
    ensures var after := Run(sys,
        [if leg.claims then Claim(leg.actor) else Read(leg.actor), Attempt(leg.actor, leg.writer, true)]);
            && after.root == Stepped(sys.root, leg).value
            && after.history == sys.history + [Change(leg.writer, sys.root.status, after.root.status)]
  {
    hide Intent, Run;
    RunTwo(sys, if leg.claims then Claim(leg.actor) else Read(leg.actor), Attempt(leg.actor, leg.writer, true));
  }

  /** Legs that all commit are a run, and its last change is that of the last leg. */
  lemma {:induction false} LegsRun(legs: seq<Leg>)
    requires RootAfter(legs).Some?
    ensures var sys := Run(Start, StepsOf(legs));
            && sys.root == RootAfter(legs).value && |sys.history| == |legs|
            && (legs != [] ==>
                  sys.history[|legs| - 1] ==
                    Change(legs[|legs| - 1].writer, RootAfter(legs[..|legs| - 1]).value.status, sys.root.status))
  {
    if legs != [] {
      hide Stepped, Run;
      var front, leg := legs[..|legs| - 1], legs[|legs| - 1];
      LegsRun(front);
      OneClosingEvent(StepsOf(front));
      NotEnded(RootAfter(front).value, leg);
      LegRuns(Run(Start, StepsOf(front)), leg);
      RunConcat(Start, StepsOf(front),
          [if leg.claims then Claim(leg.actor) else Read(leg.actor), Attempt(leg.actor, leg.writer, true)]);
    }
  }

  lemma NotEnded(r: Root, leg: Leg)
    requires Stepped(r, leg).Some?
    ensures !IsTerminal(r.status)
  {
  }

  lemma OneMore(legs: seq<Leg>, leg: Leg)
    ensures (legs + [leg])[..|legs|] == legs && (legs + [leg])[|legs|] == leg
    ensures RootAfter(legs + [leg]) == if RootAfter(legs).None? then None else Stepped(RootAfter(legs).value, leg)
  {
    assert (legs + [leg])[..|legs|] == legs;
  }

  const StartLeg := Leg(true, 0, EngineStart)
  const WaitLeg := Leg(false, 0, EngineWait)
  const ApproveLeg := Leg(false, 1, Approve)
  const PauseLeg := Leg(false, 1, Pause)
  const CancelLeg := Leg(false, 1, Cancel)
  const ReworkLeg := Leg(false, 0, EngineRework)

  /** A running root whose approval was granted, paused by a request. */
  const ToPausing := [StartLeg, WaitLeg, ApproveLeg, StartLeg, PauseLeg]

  lemma Waits()
    ensures var after := RootAfter([StartLeg, WaitLeg]);
            after.Some? && after.value.status == WaitingApproval && after.value.approvalRequested
              && !after.value.cancelRequested
  {
    hide RootAfter;
    NoLegs();
    assert [] + [StartLeg] == [StartLeg] && [StartLeg] + [WaitLeg] == [StartLeg, WaitLeg];
    OneMore([], StartLeg);
    OneMore([StartLeg], WaitLeg);
  }

  lemma Approves()
    ensures var after := RootAfter([StartLeg, WaitLeg, ApproveLeg]);
            after.Some? && after.value.status == Queued && after.value.approvalRequested && !after.value.cancelRequested
  {
    hide RootAfter;
    Waits();
    assert [StartLeg, WaitLeg] + [ApproveLeg] == [StartLeg, WaitLeg, ApproveLeg];
    OneMore([StartLeg, WaitLeg], ApproveLeg);
  }

  lemma Pauses()
    ensures RootAfter(ToPausing).Some? && RootAfter(ToPausing).value.status == Pausing
    ensures RootAfter(ToPausing).value.approvalRequested
  {
    hide RootAfter;
    Approves();
    var c := [StartLeg, WaitLeg, ApproveLeg];
    assert c + [StartLeg] + [PauseLeg] == ToPausing;
    OneMore(c, StartLeg);
    OneMore(c + [StartLeg], PauseLeg);
  }

  lemma NoLegs()
    ensures RootAfter([]) == Some(FreshRoot)
  {
  }

  lemma OneLegOn(leg: Leg)
    requires leg in {CancelLeg, ReworkLeg}
    ensures RootAfter([StartLeg, leg]).Some?
    ensures RootAfter([StartLeg, leg]).value.status == if leg == CancelLeg then Cancelling else Reworking
  {
    hide RootAfter;
    NoLegs();
    OneMore([], StartLeg);
    assert [] + [StartLeg] == [StartLeg] && [StartLeg] + [leg] == [StartLeg, leg];
    OneMore([StartLeg], leg);
  }

  /** Which root an off-table write finds. */
  function LegsTo(s: RunStatus): seq<Leg> {
    if s == Pausing then ToPausing else if s == Cancelling then [StartLeg, CancelLeg] else [StartLeg, ReworkLeg]
  }

  /** The documented lifecycle is violated: a root that is pausing, reworking or
      cancelling is moved along something that is not an edge, by every writer and
      from every status that `OffTable` lists. */
  lemma {:induction false} OffTableReached(w: Writer, before: RunStatus)
    requires OffTable(w, before)
    ensures var legs := LegsTo(before) + [Leg(!w.Reject?, 3, w)];
            var h := Run(Start, StepsOf(legs)).history;
            |h| == |legs| && h[|h| - 1].writer == w && h[|h| - 1].before == before && !MayMove(before, h[|h| - 1].after)
  {
    hide RootAfter, StepsOf, Run;
    var legs, leg := LegsTo(before), Leg(!w.Reject?, 3, w);
    OneMore(legs, leg);
    if before == Pausing {
      Pauses();
    } else {
      OneLegOn(if before == Cancelling then CancelLeg else ReworkLeg);
    }
    LegsRun(legs + [leg]);
  }

  /** Rejecting an approval while a pause is pending blocks a pausing root. */
  lemma RejectWhilePausing()
    ensures var h := Run(Start, StepsOf(ToPausing + [Leg(false, 3, Reject)])).history;
            |h| == 6 && h[5] == Change(Reject, Pausing, Blocked) && !MayMove(Pausing, Blocked)
  {
    hide RootAfter, StepsOf, Run;
    OneMore(ToPausing, Leg(false, 3, Reject));
    Pauses();
    LegsRun(ToPausing + [Leg(false, 3, Reject)]);
  }

  /** Re-claiming a pausing root whose provider call has an unknown outcome moves
      it to waiting for approval and loses the pause. */
  lemma RecoveryDropsPause()
    ensures var h := Run(Start, StepsOf(ToPausing + [Leg(true, 3, RecoveryWait)])).history;
            |h| == 6 && h[5] == Change(RecoveryWait, Pausing, WaitingApproval) && !MayMove(Pausing, WaitingApproval)
  {
    hide RootAfter, StepsOf, Run;
    OneMore(ToPausing, Leg(true, 3, RecoveryWait));
    Pauses();
    LegsRun(ToPausing + [Leg(true, 3, RecoveryWait)]);
  }
}
