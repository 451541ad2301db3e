/** How a subscription replicates a run's event log over a network that loses,
    repeats, reorders and interrupts, with the events it misses replayed on demand. */
module ReplicatedLog {
  import opened Options
  import opened RunView

  /** What reaches the client while a gap is being replayed; the list ends when
      the replay is cut off, times out or is over. */
  datatype Delivery = Frame(event: Event) | Unsubscribed

  /** A subscription without any set of received sequences. `applied` are the
      events reduced so far, `cursor` what was last stored for the next subscription. */
  datatype Sub = Sub(audit: bool, active: bool, view: View, applied: seq<Event>, presented: seq<Event>,
                     cursor: Option<nat>)

  datatype Result = Result(sub: Sub, ok: bool)

  function Apply(s: Sub, e: Event): Sub {
    var after := Reduce(s.view, e);
    s.(view := after, applied := s.applied + [e],
       presented := if ShouldForward(s.view, e) then s.presented + [e] else s.presented,
       cursor := if s.audit then s.cursor else Some(after.last))
  }

  /** `processEvent` for an event that is itself part of a replay. */
  function ProcessMissing(s: Sub, e: Event): Result {
    if !s.active || e.run != s.view.run || e.sequence <= s.view.last then Result(s, true)
    else if e.sequence > s.view.last + 1 then Result(s, false)
    else Result(Apply(s, e), true)
  }

  /** `recoverGap`, with what has been recovered so far. */
  function Recover(s: Sub, from: nat, through: nat, recovered: nat, deliveries: seq<Delivery>): Result
    decreases |deliveries|
  {
    if recovered >= through then Result(s, true)
    else if deliveries == [] then Result(s, false)
    else
      match deliveries[0]
      case Unsubscribed => Recover(s.(active := false), from, through, recovered, deliveries[1..])
      case Frame(e) =>
        if e.sequence < from || e.sequence > through then Recover(s, from, through, recovered, deliveries[1..])
        else if e.sequence != recovered + 1 then Result(s, false)
        else
          var r := ProcessMissing(s, e);
          if !r.ok then r else Recover(r.sub, from, through, e.sequence, deliveries[1..])
  }

  /** `processEvent` for an event of the live stream. */
  function Process(s: Sub, e: Event, deliveries: seq<Delivery>): Result {
    if !s.active || e.run != s.view.run || e.sequence <= s.view.last then Result(s, true)
    else if e.sequence == s.view.last + 1 then Result(Apply(s, e), true)
    else
      var r := Recover(s, s.view.last + 1, e.sequence - 1, s.view.last, deliveries);
      // the program does not ask again whether the subscription is still active
      if !r.ok || e.sequence <= r.sub.view.last then r else Result(Apply(r.sub, e), true)
  }

  datatype Step = Deliver(event: Event, deliveries: seq<Delivery>) | Unsubscribe

  function Do(s: Sub, step: Step): Sub {
    match step
    case Deliver(e, deliveries) => Process(s, e, deliveries).sub
    case Unsubscribe => s.(active := false)
  }

  function Run(s: Sub, steps: seq<Step>): Sub {
    if steps == [] then s else Do(Run(s, steps[..|steps| - 1]), steps[|steps| - 1])
  }

  /** A fresh subscription on an initial view; a stored cursor only moves it forward. */
  function Open(initial: View, stored: Option<nat>, audit: bool): Sub {
    var restored := if audit then 0 else ValueOr(stored, 0);
    Sub(audit, true, initial.(last := if restored > initial.last then restored else initial.last), [], [], None)
  }

  // ------------------------------------------------ the log

  /** Entry `i` of a run's log carries sequence `i + 1`. */
  predicate IsLog(run: string, log: seq<Event>) {
    forall i :: 0 <= i < |log| ==> log[i].run == run && log[i].sequence == i + 1
  }

  predicate InLog(log: seq<Event>, e: Event) {
    1 <= e.sequence <= |log| && log[e.sequence - 1] == e
  }

  /** The network invents nothing: everything delivered is some log entry. */
  predicate Genuine(log: seq<Event>, step: Step) {
    step.Deliver? ==> InLog(log, step.event) && GenuineReplay(log, step.deliveries)
  }

  predicate GenuineReplay(log: seq<Event>, deliveries: seq<Delivery>) {
    forall i :: 0 <= i < |deliveries| && deliveries[i].Frame? ==> InLog(log, deliveries[i].event)
  }

  /** What a view reads of a log after position `from`: the presenter's share. */
  function Presented(v: View, events: seq<Event>): seq<Event> {
    if events == [] then []
    else
      var front := Presented(v, events[..|events| - 1]);
      if ShouldForward(Fold(v, events[..|events| - 1]), events[|events| - 1]) then front + [events[|events| - 1]]
        else front
  }

  /** Exactly the log entries start + 1 .. last, in order, have been applied, and nothing else. */
  ghost predicate Prefix(origin: Sub, log: seq<Event>, s: Sub) {
    var start := origin.view.last;
    && start <= s.view.last <= |log|
    && s.audit == origin.audit
    && s.applied == log[start..s.view.last]
    && s.view == Fold(origin.view, s.applied)
    && s.presented == Presented(origin.view, s.applied)
    && (s.cursor == if s.audit || s.applied == [] then None else Some(s.view.last))
  }

  lemma {:induction false} FoldAppend(v: View, events: seq<Event>, e: Event)
    ensures Fold(v, events + [e]) == Reduce(Fold(v, events), e)
    ensures Presented(v, events + [e]) == Presented(v, events) + (if ShouldForward(Fold(v, events), e) then [e] else [])
  {
    assert (events + [e])[..|events|] == events;
  }

  lemma ReduceKeepsRun(v: View, e: Event)
    ensures Reduce(v, e).run == v.run
    ensures !Skips(v, e) ==> Reduce(v, e).last == e.sequence
  {
  }

  lemma ApplyPrefix(origin: Sub, log: seq<Event>, s: Sub, e: Event)
    requires IsLog(s.view.run, log) && Prefix(origin, log, s) && InLog(log, e) && e.sequence == s.view.last + 1
    ensures Prefix(origin, log, Apply(s, e)) && Apply(s, e).view.last == e.sequence
    ensures Apply(s, e).view.run == s.view.run
  {
    hide Reduce, ShouldForward, Fold, Presented;
    FoldAppend(origin.view, s.applied, e);
    ReduceKeepsRun(s.view, e);
    assert log[origin.view.last..e.sequence] == log[origin.view.last..s.view.last] + [e];
  }

  lemma MissingPrefix(origin: Sub, log: seq<Event>, s: Sub, e: Event)
    requires IsLog(s.view.run, log) && Prefix(origin, log, s) && InLog(log, e)
    ensures var r := ProcessMissing(s, e);
            Prefix(origin, log, r.sub) && r.sub.view.run == s.view.run && r.sub.active == s.active
  {
    hide Apply, Prefix;
    if s.active && e.sequence == s.view.last + 1 {
      ApplyPrefix(origin, log, s, e);
      ApplyActive(s, e);
    }
  }

  lemma ApplyActive(s: Sub, e: Event)
    ensures Apply(s, e).active == s.active
  {
  }

  /** Recovery keeps the prefix whatever the replay delivers; if it succeeds and
      the subscription is still active, the gap is closed; if it was ended on the
      way, the gap is still open. */
  lemma {:induction false} RecoverPrefix(origin: Sub, log: seq<Event>, s: Sub, from: nat, through: nat,
                                         recovered: nat, deliveries: seq<Delivery>)
    requires IsLog(s.view.run, log) && Prefix(origin, log, s) && GenuineReplay(log, deliveries)
    requires from <= recovered + 1 && recovered <= through && s.view.last <= recovered
    requires s.active ==> s.view.last == recovered
    requires !s.active ==> s.view.last < through
    ensures var r := Recover(s, from, through, recovered, deliveries);
            && Prefix(origin, log, r.sub) && r.sub.view.run == s.view.run && r.sub.view.last <= through
            && (!s.active ==> !r.sub.active)
            && (r.ok && r.sub.active ==> r.sub.view.last == through)
            && (r.ok && !r.sub.active ==> r.sub.view.last < through)
    decreases |deliveries|
  {
    hide Prefix, ProcessMissing, Apply;
    if recovered < through && deliveries != [] {
      assert GenuineReplay(log, deliveries[1..]);
      match deliveries[0]
      case Unsubscribed =>
        PrefixInactive(origin, log, s);
        RecoverPrefix(origin, log, s.(active := false), from, through, recovered, deliveries[1..]);
      case Frame(e) =>
        assert InLog(log, e);
        if e.sequence < from || e.sequence > through {
          RecoverPrefix(origin, log, s, from, through, recovered, deliveries[1..]);
        } else if e.sequence == recovered + 1 {
          MissingPrefix(origin, log, s, e);
          MissingMoves(s, e);
          RecoverPrefix(origin, log, ProcessMissing(s, e).sub, from, through, e.sequence, deliveries[1..]);
        }
    }
  }

  lemma PrefixInactive(origin: Sub, log: seq<Event>, s: Sub)
    requires Prefix(origin, log, s)
    ensures Prefix(origin, log, s.(active := false))
  {
  }

  lemma MissingMoves(s: Sub, e: Event)
    requires e.run == s.view.run && s.view.last < e.sequence
    ensures !s.active ==> ProcessMissing(s, e) == Result(s, true)
    ensures s.active && e.sequence == s.view.last + 1
      ==> ProcessMissing(s, e).ok && ProcessMissing(s, e).sub.view.last == e.sequence
  {
    ReduceKeepsRun(s.view, e);
  }

  // ------------------------------------------------ when a replay fills a gap

  predicate InRangeFrame(d: Delivery, from: nat, through: nat) {
    d.Frame? && from <= d.event.sequence <= through
  }

  /** The frames of a replay that the recovery looks at. */
  function InRange(deliveries: seq<Delivery>, from: nat, through: nat): seq<nat> {
    if deliveries == [] then []
    else
      var rest := InRange(deliveries[1..], from, through);
      if InRangeFrame(deliveries[0], from, through) then [deliveries[0].event.sequence] + rest else rest
  }

  /** The first in-range frames are recovered + 1 .. through, in order. */
  predicate Consecutive(sequences: seq<nat>, recovered: nat, through: nat) {
    recovered <= through && |sequences| >= through - recovered
    && forall i :: 0 <= i < through - recovered ==> sequences[i] == recovered + 1 + i
  }

  /** The subscription is ended before `count` in-range frames have arrived. */
  predicate EndedBefore(deliveries: seq<Delivery>, from: nat, through: nat, count: nat) {
    count > 0 && deliveries != [] &&
    (deliveries[0].Unsubscribed?
     || EndedBefore(deliveries[1..], from, through,
         if InRangeFrame(deliveries[0], from, through) then count - 1 else count))
  }

  predicate OfRun(deliveries: seq<Delivery>, run: string) {
    forall i :: 0 <= i < |deliveries| && deliveries[i].Frame? ==> deliveries[i].event.run == run
  }

  /** A replay closes the gap if and only if its in-range frames begin with the
      missing sequences in order; and it leaves the subscription active unless
      that was ended before the last of them arrived. */
  lemma {:induction false} ReplayFills(s: Sub, from: nat, through: nat, recovered: nat, deliveries: seq<Delivery>)
    requires from <= recovered + 1 && recovered <= through && OfRun(deliveries, s.view.run)
    requires s.active ==> s.view.last == recovered
    ensures var r := Recover(s, from, through, recovered, deliveries);
            && (r.ok <==> Consecutive(InRange(deliveries, from, through), recovered, through))
            && (r.ok ==> (r.sub.active <==> s.active && !EndedBefore(deliveries, from, through, through - recovered)))
    decreases |deliveries|
  {
    hide Apply, ProcessMissing;
    if recovered < through && deliveries != [] {
      assert OfRun(deliveries[1..], s.view.run);
      match deliveries[0]
      case Unsubscribed =>
        ReplayFills(s.(active := false), from, through, recovered, deliveries[1..]);
      case Frame(e) =>
        if e.sequence < from || e.sequence > through {
          ReplayFills(s, from, through, recovered, deliveries[1..]);
        } else if e.sequence == recovered + 1 {
          MissingTakes(s, e);
          ReplayFills(ProcessMissing(s, e).sub, from, through, recovered + 1, deliveries[1..]);
          ConsecutiveTail(InRange(deliveries[1..], from, through), recovered, through);
        } else {
          assert InRange(deliveries, from, through)[0] == e.sequence;
        }
    }
  }

  lemma MissingTakes(s: Sub, e: Event)
    requires e.run == s.view.run && (s.active ==> e.sequence == s.view.last + 1)
    ensures var r := ProcessMissing(s, e);
            && r.ok && r.sub.active == s.active && r.sub.view.run == s.view.run
            && (s.active ==> r.sub.view.last == e.sequence)
  {
    ReduceKeepsRun(s.view, e);
  }

  lemma ConsecutiveTail(rest: seq<nat>, recovered: nat, through: nat)
    requires recovered < through
    ensures Consecutive([recovered + 1] + rest, recovered, through) <==> Consecutive(rest, recovered + 1, through)
  {
    var all := [recovered + 1] + rest;
    assert forall i :: 0 <= i < |rest| ==> all[i + 1] == rest[i];
    if Consecutive(all, recovered, through) {
      forall i | 0 <= i < through - (recovered + 1) ensures rest[i] == recovered + 1 + 1 + i {
        assert all[i + 1] == recovered + 1 + (i + 1);
      }
    }
    if Consecutive(rest, recovered + 1, through) {
      forall i | 0 <= i < through - recovered ensures all[i] == recovered + 1 + i {
        if i > 0 { assert rest[i - 1] == recovered + 1 + 1 + (i - 1); }
      }
    }
  }

  // ------------------------------------------------ prefix, exactly

  /** The event is ahead of a gap, its replay begins with all the missing events in
      order, and the subscription is ended before the last of them has arrived. */
  predicate OverGap(s: Sub, e: Event, deliveries: seq<Delivery>) {
    && s.active && e.sequence > s.view.last + 1
    && var from, through := s.view.last + 1, e.sequence - 1;
       && Consecutive(InRange(deliveries, from, through), s.view.last, through)
       && EndedBefore(deliveries, from, through, through - s.view.last)
  }

  lemma GenuineIsOfRun(run: string, log: seq<Event>, deliveries: seq<Delivery>)
    requires IsLog(run, log) && GenuineReplay(log, deliveries)
    ensures OfRun(deliveries, run)
  {
  }

  /** Processing one event keeps the prefix, except exactly when it is applied over a gap. */
  lemma {:induction false} ProcessPrefix(origin: Sub, log: seq<Event>, s: Sub, e: Event, deliveries: seq<Delivery>)
    requires IsLog(s.view.run, log) && Prefix(origin, log, s) && InLog(log, e) && GenuineReplay(log, deliveries)
    ensures var r := Process(s, e, deliveries);
            && (Prefix(origin, log, r.sub) <==> !OverGap(s, e, deliveries))
            && r.sub.view.run == s.view.run
            && (!s.active ==> r.sub == s)
            && (r.sub.active ==> Prefix(origin, log, r.sub))
            && (r.ok && r.sub.active ==> r.sub.view.last >= e.sequence)
  {
    hide Apply, Prefix, Recover, InRange, EndedBefore, Consecutive, GenuineReplay, OfRun;
    if s.active && e.sequence == s.view.last + 1 {
      ApplyPrefix(origin, log, s, e);
      ApplyActive(s, e);
    } else if s.active && e.sequence > s.view.last {
      GenuineIsOfRun(s.view.run, log, deliveries);
      RecoverPrefix(origin, log, s, s.view.last + 1, e.sequence - 1, s.view.last, deliveries);
      ReplayFills(s, s.view.last + 1, e.sequence - 1, s.view.last, deliveries);
      var r := Recover(s, s.view.last + 1, e.sequence - 1, s.view.last, deliveries);
      if r.ok && e.sequence > r.sub.view.last {
        ApplyActive(r.sub, e);
        if r.sub.active {
          ApplyPrefix(origin, log, r.sub, e);
        } else {
          GapBreaks(origin, log, r.sub, e);
        }
      }
    }
  }

  lemma GapBreaks(origin: Sub, log: seq<Event>, s: Sub, e: Event)
    requires IsLog(s.view.run, log) && Prefix(origin, log, s) && InLog(log, e) && e.sequence > s.view.last + 1
    ensures !Prefix(origin, log, Apply(s, e)) && Apply(s, e).view.run == s.view.run
  {
    ReduceKeepsRun(s.view, e);
    var after := Apply(s, e);
    assert |after.applied| == |s.applied| + 1;
  }

  lemma OpenPrefix(initial: View, stored: Option<nat>, audit: bool, log: seq<Event>)
    requires IsLog(initial.run, log) && Open(initial, stored, audit).view.last <= |log|
    ensures Prefix(Open(initial, stored, audit), log, Open(initial, stored, audit))
  {
  }

  /** Step `i` applies an event over a gap. */
  predicate GapAt(origin: Sub, steps: seq<Step>, i: nat)
    requires i < |steps|
  {
    var s := Run(origin, steps[..i]);
    steps[i].Deliver? && OverGap(s, steps[i].event, steps[i].deliveries)
  }

  lemma StepPrefix(origin: Sub, log: seq<Event>, s: Sub, step: Step)
    requires IsLog(s.view.run, log) && Genuine(log, step) && (s.active ==> Prefix(origin, log, s))
    ensures var after := Do(s, step);
            var gap := step.Deliver? && OverGap(s, step.event, step.deliveries);
            && after.view.run == s.view.run
            && (Prefix(origin, log, after) <==> Prefix(origin, log, s) && !gap)
            && (after.active ==> Prefix(origin, log, after))
  {
    hide Recover, Apply, Reduce;
    if step.Deliver? {
      if s.active {
        ProcessPrefix(origin, log, s, step.event, step.deliveries);
      }
    }
  }

  /** Main result: while a subscription is active, whatever was lost, repeated,
      reordered or interrupted, the view is the fold of exactly the log entries
      start + 1 .. last in order; and so it stays after the end if and only if no
      event arrived whose complete replay the end of the subscription cut into. */
  lemma {:induction false} ReplicatesPrefix(initial: View, stored: Option<nat>, audit: bool, log: seq<Event>,
                                            steps: seq<Step>)
    requires IsLog(initial.run, log) && Open(initial, stored, audit).view.last <= |log|
    requires forall i :: 0 <= i < |steps| ==> Genuine(log, steps[i])
    ensures var origin := Open(initial, stored, audit);
            var s := Run(origin, steps);
            && s.view.run == initial.run
            && (s.active ==> Prefix(origin, log, s))
            && (Prefix(origin, log, s) <==> forall i :: 0 <= i < |steps| ==> !GapAt(origin, steps, i))
    decreases |steps|
  {
    hide Prefix, Process, OverGap, Reduce, Genuine, Do, IsLog;
    var origin := Open(initial, stored, audit);
    if steps == [] {
      OpenPrefix(initial, stored, audit, log);
    } else {
      var k := |steps| - 1;
      var front := steps[..k];
      ReplicatesPrefix(initial, stored, audit, log, front);
      forall i | 0 <= i < k ensures GapAt(origin, front, i) == GapAt(origin, steps, i) {
        assert front[i] == steps[i] && front[..i] == steps[..i];
      }
      StepPrefix(origin, log, Run(origin, front), steps[k]);
      if Prefix(origin, log, Run(origin, front)) {
        assert forall i :: 0 <= i < k ==> !GapAt(origin, front, i);
        assert forall i :: 0 <= i < k ==> !GapAt(origin, steps, i);
        var last := steps[k];
        assert GapAt(origin, steps, k) == (last.Deliver? && OverGap(Run(origin, front), last.event, last.deliveries));
        assert Run(origin, steps) == Do(Run(origin, front), last);
      } else {
        var i :| 0 <= i < k && GapAt(origin, front, i);
        assert GapAt(origin, steps, i);
      }
    }
  }

  // ------------------------------------------------ opening and ending

  /** A stored cursor moves a fresh subscription forward only, and one that audits ignores it. */
  lemma OpensAt(initial: View, stored: Option<nat>, audit: bool)
    ensures var s := Open(initial, stored, audit);
            && s.active && s.audit == audit && s.applied == [] && s.presented == [] && s.cursor == None
            && s.view == initial.(last := s.view.last) && s.view.last >= initial.last
            && (audit || stored.None? ==> s.view == initial)
            && (!audit && stored.Some? ==> s.view.last >= stored.value && s.view.last in {stored.value, initial.last})
  {
  }

  /** Once ended, a subscription takes nothing any more. */
  lemma {:induction false} EndedTakesNothing(s: Sub, before: seq<Step>, more: seq<Step>)
    ensures var ended := Run(s, before).(active := false);
            Run(s, before + [Unsubscribe] + more) == ended
    decreases |more|
  {
    var all := before + [Unsubscribe] + more;
    if more == [] {
      assert all[..|all| - 1] == before && all[|all| - 1] == Unsubscribe;
    } else {
      EndedTakesNothing(s, before, more[..|more| - 1]);
      assert all[..|all| - 1] == before + [Unsubscribe] + more[..|more| - 1] && all[|all| - 1] == more[|more| - 1];
    }
  }

  /** An ended subscription, an event of another run, and one already behind the
      cursor: nothing happens, and that is no failure. */
  lemma PassesOver(s: Sub, e: Event, deliveries: seq<Delivery>)
    requires !s.active || e.run != s.view.run || e.sequence <= s.view.last
    ensures Process(s, e, deliveries) == Result(s, true) && ProcessMissing(s, e) == Result(s, true)
  {
  }

  /** A replayed event that would leave a gap is refused, an older one passed over. */
  lemma MissingExactly(s: Sub, e: Event)
    requires s.active && e.run == s.view.run
    ensures ProcessMissing(s, e).ok <==> e.sequence <= s.view.last + 1
    ensures e.sequence != s.view.last + 1 ==> ProcessMissing(s, e).sub == s
  {
  }

  // ------------------------------------------------ the event applied over a gap

  /** Ending a subscription while a gap is replayed applies the late event without
      the missing ones and stores its sequence, so that no later subscription that
      restores the cursor ever sees them. */
  lemma UnsubscribeSkipsEvents(run: string, log: seq<Event>)
    requires IsLog(run, log) && |log| >= 3
    ensures var origin := Open(Create(run), None, false);
            var replay := [Unsubscribed, Frame(log[0]), Frame(log[1])];
            var s := Run(origin, [Deliver(log[2], replay)]);
            && Genuine(log, Deliver(log[2], replay))
            && s.applied == [log[2]] && s.view.last == 3 && s.cursor == Some(3)
            && !Prefix(origin, log, s)
            && Open(Create(run), s.cursor, false).view.last == 3
  {
    hide Reduce, ShouldForward;
    var origin := Open(Create(run), None, false);
    var replay := [Unsubscribed, Frame(log[0]), Frame(log[1])];
    var ended := origin.(active := false);
    assert replay[1..] == [Frame(log[0]), Frame(log[1])];
    assert replay[1..][1..] == [Frame(log[1])];
    var tail := [Frame(log[1])];
    assert Recover(ended, 1, 2, 1, tail) == Result(ended, true) by {
      assert Recover(ended, 1, 2, 2, tail[1..]) == Result(ended, true);
    }
    assert Recover(ended, 1, 2, 0, replay[1..]) == Result(ended, true);
    assert Recover(origin, 1, 2, 0, replay) == Result(ended, true);
    ReduceKeepsRun(ended.view, log[2]);
    var step := Deliver(log[2], replay);
    assert [step][..0] == [];
    assert Run(origin, [step]) == Do(origin, step);
    var s := Do(origin, step);
    assert s.applied == [log[2]];
    assert |s.applied| == 1 && |log[0..3]| == 3;
  }
}
