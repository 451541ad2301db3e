/** Which writes of a root take effect, told from statuses, requests and leases
    alone, and what the history of a root says about its flags and its log. */
module LifecycleWriters {
  import opened Options
  import opened Lifecycle

  /** Workers and recovery hold a lease; requests from users do not. */
  predicate WorksUnderLease(w: Writer) {
    !(w.Pause? || w.Resume? || w.Retry? || w.Approve? || w.Reject? || w.Cancel?)
  }

  /** The live statuses each writer acts on, and what else it asks of the root. */
  predicate ActsOn(w: Writer, s: RunStatus, cancelRequested: bool, approvalRequested: bool) {
    match w
    case EngineStart => s in {Queued, Reworking, Paused, WaitingApproval} && !cancelRequested
    case EngineRework => s in {Running, Reworking}
    case EngineContinue => s in {Queued, Running, Reworking, Paused, WaitingApproval}
    case EngineSucceed => s == Running
    case EngineFail(blocked) =>
      if blocked then s in {Queued, Running, Reworking, Paused, WaitingApproval, Cancelling}
      else s in {Queued, Running, Reworking, Pausing, Cancelling}
    case EngineCancel => s in {Queued, Cancelling}
    case EnginePause => s == Pausing
    case EngineWait => s == Running
    case RecoveryWait => s in {Running, Reworking, Pausing, Cancelling}
    case RecoveryBlock => s in {Running, Reworking, Pausing, Cancelling}
    case Pause => s in {Running, Pausing}
    case Resume => s == Paused
    case Retry => s == WaitingApproval
    case Approve => s == WaitingApproval && approvalRequested
    case Reject => approvalRequested
    case Cancel => !(s == Cancelling && cancelRequested)
  }

  /** Where each writer takes the root, and the event it adds to the log. */
  function Brings(w: Writer): (RunStatus, EventKind) {
    match w
    case EngineStart => (Running, Progress)
    case EngineRework => (Reworking, Progress)
    case EngineContinue => (Running, Progress)
    case EngineSucceed => (Succeeded, Done)
    case EngineFail(blocked) => (if blocked then Blocked else Failed, Error)
    case EngineCancel => (Cancelled, Done)
    case EnginePause => (Paused, Progress)
    case EngineWait => (WaitingApproval, Progress)
    case RecoveryWait => (WaitingApproval, Trace)
    case RecoveryBlock => (Blocked, Error)
    case Pause => (Pausing, Progress)
    case Resume => (Queued, Progress)
    case Retry => (Queued, Progress)
    case Approve => (Queued, Progress)
    case Reject => (Blocked, Error)
    case Cancel => (Cancelling, Progress)
  }

  predicate Alive(s: RunStatus) {
    s in {Queued, Running, Reworking, Pausing, Paused, WaitingApproval, Cancelling}
  }

  /** An attempt takes effect: nothing was written since the actor read, the root is
      alive, the writer acts on its status, and its lease, if it needs one, is active. */
  predicate TakesEffect(sys: System, actor: nat, w: Writer, leaseActive: bool)
    requires actor in sys.seen
  {
    var root := sys.root;
    && sys.seen[actor].version == root.version && Alive(root.status)
    && ActsOn(w, root.status, root.cancelRequested, root.approvalRequested)
    && (WorksUnderLease(w) ==> leaseActive)
  }

  lemma Reached(steps: seq<Step>)
    ensures Consistent(Run(Start, steps))
  {
    assert Consistent(Start);
    RunKeeps(Start, steps);
  }

  lemma IntentIs(w: Writer, seen: Root)
    requires Alive(seen.status)
    ensures Intent(w, seen) ==
              if ActsOn(w, seen.status, seen.cancelRequested, seen.approvalRequested)
              then Some(Write(Brings(w).0, Brings(w).1, WorksUnderLease(w))) else None
  {
  }

  lemma AliveMeans(s: RunStatus)
    ensures Alive(s) <==> !IsTerminal(s)
  {
  }

  /** Main result: in every interleaving, an attempt takes effect exactly as
      `TakesEffect` says, and then it moves the root, raises its version, keeps
      its epoch and adds its event; otherwise nothing changes. */
  lemma {:induction false} AttemptExactly(steps: seq<Step>, actor: nat, w: Writer, leaseActive: bool)
    requires actor in Run(Start, steps).seen
    ensures var sys := Run(Start, steps);
            var root := sys.root;
            var after := Root(Brings(w).0, root.version + 1, root.epoch, root.cancelRequested || w == Cancel,
                              root.approvalRequested || w == EngineWait, root.log + [Brings(w).1]);
            Do(sys, Attempt(actor, w, leaseActive)) ==
              if TakesEffect(sys, actor, w, leaseActive)
              then System(after, sys.seen[actor := after], sys.history + [Change(w, root.status, Brings(w).0)])
              else sys
  {
    hide Intent, Run, ActsOn, Brings;
    Reached(steps);
    var sys := Run(Start, steps);
    assert SnapshotOk(sys.root, sys.seen[actor]);
    AliveMeans(sys.root.status);
    if sys.seen[actor].version == sys.root.version && Alive(sys.root.status) {
      IntentIs(w, sys.seen[actor]);
    }
  }

  /** Main result: the table has no edge that nothing in the program takes. */
  lemma {:induction false} EdgesAreTaken(s: RunStatus, t: RunStatus)
    requires t in RootTransitions(s)
    ensures Alive(s) && exists w :: Brings(w).0 == t && ActsOn(w, s, false, true)
  {
    var w := match t
      case Queued => if s == Paused then Resume else Retry
      case Running => EngineStart
      case Reworking => EngineRework
      case Pausing => Pause
      case Paused => EnginePause
      case WaitingApproval => EngineWait
      case Cancelling => Cancel
      case Cancelled => EngineCancel
      case Succeeded => EngineSucceed
      case Failed => EngineFail(false)
      case Blocked => EngineFail(true);
    assert Brings(w).0 == t && ActsOn(w, s, false, true);
  }

  // ------------------------------------------------ the fence

  /** Main result: a worker or the recovery whose lease has run out changes
      nothing, even before the root is claimed again. */
  lemma {:induction false} ExpiredIsFenced(steps: seq<Step>, actor: nat, w: Writer)
    requires WorksUnderLease(w)
    ensures Do(Run(Start, steps), Attempt(actor, w, false)) == Run(Start, steps)
  {
    hide Run;
    if actor in Run(Start, steps).seen {
      AttemptExactly(steps, actor, w, false);
    }
  }

  /** What a user asks for does not depend on any lease. */
  lemma {:induction false} RequestsNeedNoLease(steps: seq<Step>, actor: nat, w: Writer)
    requires !WorksUnderLease(w)
    ensures Do(Run(Start, steps), Attempt(actor, w, false)) == Do(Run(Start, steps), Attempt(actor, w, true))
  {
    hide Run;
    if actor in Run(Start, steps).seen {
      AttemptExactly(steps, actor, w, false);
      AttemptExactly(steps, actor, w, true);
    }
  }

  /** How often the root has been claimed. */
  function Claims(steps: seq<Step>): nat {
    if steps == [] then 0
    else
      var front, last := steps[..|steps| - 1], steps[|steps| - 1];
      Claims(front)
      + if last.Claim? && Run(Start, front).root.status in {Queued, Running, Reworking, Pausing, Cancelling} then 1
        else 0
  }

  /** `actor` has read, claimed or written the row since the latest claim. */
  predicate SinceClaim(steps: seq<Step>, actor: nat) {
    steps != [] &&
    var front, last := steps[..|steps| - 1], steps[|steps| - 1];
    match last
    case Read(a) => a == actor || SinceClaim(front, actor)
    case Claim(a) => if Claims(steps) > Claims(front) then a == actor else SinceClaim(front, actor)
    case Attempt(a, _, _) => SinceClaim(front, actor)
    case Emit(_) => SinceClaim(front, actor)
  }

  lemma {:induction false} RunLast(sys: System, steps: seq<Step>)
    requires steps != []
    ensures Run(sys, steps) == Do(Run(sys, steps[..|steps| - 1]), steps[|steps| - 1])
    decreases |steps|
  {
    hide Do;
    var front, last := steps[..|steps| - 1], steps[|steps| - 1];
    assert steps == front + [last];
    RunConcat(sys, front, [last]);
    assert [last][1..] == [];
    assert Run(Run(sys, front), [last]) == Run(Do(Run(sys, front), last), []);
  }

  ghost predicate EpochsFit(sys: System, steps: seq<Step>) {
    && sys.root.epoch == Claims(steps)
    && forall a :: a in sys.seen ==>
         sys.seen[a].epoch <= sys.root.epoch
         && (sys.seen[a].epoch == sys.root.epoch && sys.root.epoch > 0 ==> SinceClaim(steps, a))
  }

  lemma ClaimIs(sys: System, actor: nat)
    ensures var claimed := sys.root.(version := sys.root.version + 1, epoch := sys.root.epoch + 1);
            Do(sys, Claim(actor)) ==
              if sys.root.status in {Queued, Running, Reworking, Pausing, Cancelling}
              then sys.(root := claimed, seen := sys.seen[actor := claimed]) else sys
  {
  }

  lemma {:induction false} EpochsKeep(steps: seq<Step>)
    ensures EpochsFit(Run(Start, steps), steps)
  {
    if steps != [] {
      hide Run, Do;
      var front, last := steps[..|steps| - 1], steps[|steps| - 1];
      EpochsKeep(front);
      RunLast(Start, steps);
      var sys := Run(Start, front);
      match last
      case Read(actor) => ReadIs(sys, actor);
      case Claim(actor) => ClaimIs(sys, actor);
      case Emit(kind) => EmitIs(sys, kind);
      case Attempt(actor, w, leaseActive) =>
        if actor in sys.seen {
          AttemptExactly(front, actor, w, leaseActive);
          Reached(front);
          assert SnapshotOk(sys.root, sys.seen[actor]);
        } else {
          AttemptStranger(sys, actor, w, leaseActive);
        }
    }
  }

  lemma ReadIs(sys: System, actor: nat)
    ensures Do(sys, Read(actor)) == sys.(seen := sys.seen[actor := sys.root])
  {
  }

  lemma AttemptStranger(sys: System, actor: nat, w: Writer, leaseActive: bool)
    requires actor !in sys.seen
    ensures Do(sys, Attempt(actor, w, leaseActive)) == sys
  {
  }

  lemma EmitIs(sys: System, kind: EventKind)
    ensures Do(sys, Emit(kind)) ==
              if kind in {Done, Error} || HasClosing(sys.root.log) then sys
              else sys.(root := sys.root.(log := sys.root.log + [kind]))
  {
    hide HasClosing;
  }

  /** Main result: the epoch counts the claims, and a worker or the recovery whose
      attempt takes effect has looked at the row since the latest of them. */
  lemma {:induction false} CommitsAreOfLatestClaim(steps: seq<Step>, actor: nat, w: Writer, leaseActive: bool)
    requires WorksUnderLease(w)
    requires Do(Run(Start, steps), Attempt(actor, w, leaseActive)) != Run(Start, steps)
    ensures Run(Start, steps).root.epoch == Claims(steps)
    ensures leaseActive && (Claims(steps) > 0 ==> SinceClaim(steps, actor))
  {
    hide Run, Do, Claims, SinceClaim;
    EpochsKeep(steps);
    var sys := Run(Start, steps);
    if actor !in sys.seen {
      AttemptStranger(sys, actor, w, leaseActive);
    } else {
      AttemptExactly(steps, actor, w, leaseActive);
      Reached(steps);
      assert SnapshotOk(sys.root, sys.seen[actor]);
    }
  }

  /** Main result: a claim takes away the row from everyone who read it before,
      whatever they try to write. */
  lemma {:induction false} ClaimFencesOthers(steps: seq<Step>, claimer: nat, actor: nat, w: Writer, leaseActive: bool)
    requires actor != claimer && Claims(steps + [Claim(claimer)]) > Claims(steps)
    ensures var claimed := Run(Start, steps + [Claim(claimer)]);
            Do(claimed, Attempt(actor, w, leaseActive)) == claimed
  {
    hide Run, Do;
    var more := steps + [Claim(claimer)];
    assert more[..|steps|] == steps && more[|steps|] == Claim(claimer);
    RunLast(Start, more);
    var sys, claimed := Run(Start, steps), Run(Start, more);
    ClaimIs(sys, claimer);
    Reached(steps);
    if actor !in claimed.seen {
      AttemptStranger(claimed, actor, w, leaseActive);
    } else {
      assert SnapshotOk(sys.root, sys.seen[actor]);
      AttemptExactly(more, actor, w, leaseActive);
    }
  }

  // ------------------------------------------------ what the history says

  predicate WrittenBy(history: seq<Change>, w: Writer) {
    exists i :: 0 <= i < |history| && history[i].writer == w
  }

  ghost predicate FlagsFit(sys: System) {
    && (sys.root.cancelRequested <==> WrittenBy(sys.history, Cancel))
    && (sys.root.approvalRequested <==> WrittenBy(sys.history, EngineWait))
    && (forall i :: 0 <= i < |sys.history| && sys.history[i].writer in {Approve, Reject} ==>
          WrittenBy(sys.history[..i], EngineWait))
    && (forall i :: 0 <= i < |sys.history| && sys.history[i].writer == EngineStart ==>
          !WrittenBy(sys.history[..i], Cancel))
    && (|sys.history| > 0 ==> sys.history[|sys.history| - 1].after == sys.root.status)
    && (|sys.history| == 0 ==> sys.root.status == Queued)
    && (forall i :: 0 < i < |sys.history| ==> sys.history[i].before == sys.history[i - 1].after)
  }

  lemma WrittenAppend(history: seq<Change>, c: Change, w: Writer)
    ensures WrittenBy(history + [c], w) <==> WrittenBy(history, w) || c.writer == w
  {
    assert (history + [c])[|history|] == c;
    if i :| 0 <= i < |history| && history[i].writer == w {
      assert (history + [c])[i] == history[i];
    }
  }

  lemma FlagsStep(sys: System, after: System, w: Writer)
    requires FlagsFit(sys)
    requires after.history == sys.history + [Change(w, sys.root.status, Brings(w).0)]
    requires ActsOn(w, sys.root.status, sys.root.cancelRequested, sys.root.approvalRequested)
    requires after.root.status == Brings(w).0
    requires after.root.cancelRequested == (sys.root.cancelRequested || w == Cancel)
    requires after.root.approvalRequested == (sys.root.approvalRequested || w == EngineWait)
    ensures FlagsFit(after)
  {
    hide ActsOn, Brings, WrittenBy;
    var h, c := sys.history, Change(w, sys.root.status, Brings(w).0);
    WrittenAppend(h, c, Cancel);
    WrittenAppend(h, c, EngineWait);
    assert forall i :: 0 <= i <= |h| ==> (h + [c])[..i] == h[..i];
    assert h[..|h|] == h;
    assert w in {Approve, Reject} ==> sys.root.approvalRequested by { AsksFirst(w, sys.root); }
    assert w == EngineStart ==> !sys.root.cancelRequested by { AsksFirst(w, sys.root); }
  }

  lemma AsksFirst(w: Writer, root: Root)
    requires ActsOn(w, root.status, root.cancelRequested, root.approvalRequested)
    ensures w in {Approve, Reject} ==> root.approvalRequested
    ensures w == EngineStart ==> !root.cancelRequested
  {
  }

  lemma {:induction false} FlagsKeep(steps: seq<Step>)
    ensures FlagsFit(Run(Start, steps))
  {
    if steps != [] {
      hide Run, Do, FlagsFit;
      var front, last := steps[..|steps| - 1], steps[|steps| - 1];
      FlagsKeep(front);
      RunLast(Start, steps);
      var sys := Run(Start, front);
      match last
      case Read(actor) => ReadIs(sys, actor); FlagsElsewhere(sys, Do(sys, last));
      case Claim(actor) => ClaimIs(sys, actor); FlagsElsewhere(sys, Do(sys, last));
      case Emit(kind) => EmitIs(sys, kind); FlagsElsewhere(sys, Do(sys, last));
      case Attempt(actor, w, leaseActive) =>
        if actor in sys.seen {
          AttemptExactly(front, actor, w, leaseActive);
          if TakesEffect(sys, actor, w, leaseActive) {
            FlagsStep(sys, Do(sys, last), w);
          }
        } else {
          AttemptStranger(sys, actor, w, leaseActive);
        }
    } else {
      assert FlagsFit(Start);
    }
  }

  lemma FlagsElsewhere(sys: System, after: System)
    requires FlagsFit(sys) && after.history == sys.history && after.root.status == sys.root.status
    requires after.root.cancelRequested == sys.root.cancelRequested
    requires after.root.approvalRequested == sys.root.approvalRequested
    ensures FlagsFit(after)
  {
  }

  /** Main result: the status is the end of an unbroken chain of changes from
      queued; a cancellation or an approval is pending exactly if it was asked for,
      no claim starts a root after its cancellation was asked for, and every
      decision on an approval comes after a request. */
  lemma {:induction false} HistoryExplainsRoot(steps: seq<Step>)
    ensures var sys := Run(Start, steps);
            && (sys.root.cancelRequested <==> WrittenBy(sys.history, Cancel))
            && (sys.root.approvalRequested <==> WrittenBy(sys.history, EngineWait))
            && (forall i :: 0 <= i < |sys.history| && sys.history[i].writer in {Approve, Reject} ==>
                  WrittenBy(sys.history[..i], EngineWait))
            && (forall i :: 0 <= i < |sys.history| && sys.history[i].writer == EngineStart ==>
                  !WrittenBy(sys.history[..i], Cancel))
            && sys.root.status == (if sys.history == [] then Queued else sys.history[|sys.history| - 1].after)
            && (forall i :: 0 < i < |sys.history| ==> sys.history[i].before == sys.history[i - 1].after)
  {
    FlagsKeep(steps);
  }

  /** The event an attempt would add. */
  function EventOf(sys: System, step: Step): seq<EventKind> {
    match step
    case Attempt(actor, w, leaseActive) =>
      if actor in sys.seen && TakesEffect(sys, actor, w, leaseActive) then [Brings(w).1] else []
    case Emit(kind) => if kind !in {Done, Error} && Alive(sys.root.status) then [kind] else []
    case _ => []
  }

  /** Main result: every write that takes effect adds its one event to the log, a
      worker's own events join it while the root is alive, and nothing else does. */
  lemma {:induction false} LogGrowsByStep(steps: seq<Step>, step: Step)
    ensures var sys := Run(Start, steps);
            Do(sys, step).root.log == sys.root.log + EventOf(sys, step)
  {
    hide Run, Do, ActsOn, Brings;
    Reached(steps);
    var sys := Run(Start, steps);
    AliveMeans(sys.root.status);
    match step
    case Read(actor) => ReadIs(sys, actor);
    case Claim(actor) => ClaimIs(sys, actor);
    case Emit(kind) => EmitIs(sys, kind);
    case Attempt(actor, w, leaseActive) =>
      if actor in sys.seen {
        AttemptExactly(steps, actor, w, leaseActive);
      } else {
        AttemptStranger(sys, actor, w, leaseActive);
      }
  }
}
