/** Every part of a view, read off the events it was folded from. */
module ViewHistory {
  import opened Options
  import opened Lifecycle
  import opened RunView
  import Text

  // ------------------------------------------------ which events count

  /** The highest sequence delivered for a run. */
  function Highest(run: string, events: seq<Event>): nat {
    if events == [] then 0
    else
      var rest, e := Highest(run, events[..|events| - 1]), events[|events| - 1];
      if e.run == run && e.sequence > rest then e.sequence else rest
  }

  /** The events of a run that are newer than everything delivered before them. */
  function Newer(run: string, events: seq<Event>): seq<Event> {
    if events == [] then []
    else
      var front, e := events[..|events| - 1], events[|events| - 1];
      Newer(run, front) + if e.run == run && e.sequence > Highest(run, front) then [e] else []
  }

  /** A done event, or an error that is not marked as survivable. */
  predicate Ends(e: Event) {
    e.payload.DonePayload? || (e.payload.ErrorPayload? && e.payload.terminal)
  }

  /** Everything up to the first event that ends the run. */
  function UpToEnd(events: seq<Event>): seq<Event> {
    if events == [] then []
    else
      var front := UpToEnd(events[..|events| - 1]);
      if front != [] && Ends(front[|front| - 1]) then front else front + [events[|events| - 1]]
  }

  function EndOf(events: seq<Event>): Option<Ending> {
    if events == [] || !Ends(events[|events| - 1]) then None
    else if events[|events| - 1].payload.DonePayload? then Some(EndedDone) else Some(EndedError)
  }

  lemma UpToEndAppend(events: seq<Event>, e: Event)
    ensures UpToEnd(events + [e]) == if EndOf(UpToEnd(events)).Some? then UpToEnd(events) else UpToEnd(events) + [e]
  {
    assert (events + [e])[..|events|] == events;
  }

  lemma ReduceEnds(v: View, e: Event)
    requires !Skips(v, e) && v.ending.None?
    ensures Reduce(v, e).ending == EndOf([e]) && Reduce(v, e).last == e.sequence && Reduce(v, e).run == v.run
  {
    hide ApplyToken, ApplyEvidence, ApplyProgress, ApplyTrace;
    if e.payload.ProgressPayload? {
      ProgressElsewhere(v.(last := e.sequence), e);
    } else if e.payload.TracePayload? {
      TraceRoot(v.(last := e.sequence), e);
    }
  }

  /** Main result: the fold acts on the events of its run that are newer than all
      before them, up to the first that ends the run, and on no others; its cursor
      is the highest sequence delivered. */
  lemma {:induction false} EffectiveExactly(run: string, events: seq<Event>)
    ensures var v := Fold(Create(run), events);
            && Effective(Create(run), events) == UpToEnd(Newer(run, events))
            && v.run == run && v.last == Highest(run, events)
            && v.ending == EndOf(UpToEnd(Newer(run, events)))
  {
    if events != [] {
      hide Reduce, UpToEnd, Fold, Effective, Newer, Highest, EndOf, Skips;
      var front, e := events[..|events| - 1], events[|events| - 1];
      EffectiveExactly(run, front);
      OneMore(run, events);
      var v := Fold(Create(run), front);
      SkippedIs(v, e);
      UpToEndAppend(Newer(run, front), e);
      if !Skips(v, e) && v.ending.None? {
        ReduceEnds(v, e);
        EndOfLast(UpToEnd(Newer(run, front)), e);
      }
    } else {
      assert UpToEnd([]) == [];
    }
  }

  lemma OneMore(run: string, events: seq<Event>)
    requires events != []
    ensures var front, e := events[..|events| - 1], events[|events| - 1];
            var v, newer := Fold(Create(run), front), e.run == run && e.sequence > Highest(run, front);
            && Fold(Create(run), events) == Reduce(v, e)
            && Effective(Create(run), events) ==
                 Effective(Create(run), front) + (if Skips(v, e) || v.ending.Some? then [] else [e])
            && Newer(run, events) == (if newer then Newer(run, front) + [e] else Newer(run, front))
            && Highest(run, events) == (if newer then e.sequence else Highest(run, front))
            && (Skips(v, e) <==> e.run != v.run || e.sequence <= v.last)
  {
    hide Reduce;
    var front := events[..|events| - 1];
    assert Newer(run, front) + [] == Newer(run, front);
    assert Effective(Create(run), front) + [] == Effective(Create(run), front);
  }

  lemma EndOfLast(events: seq<Event>, e: Event)
    ensures EndOf(events + [e]) == EndOf([e])
  {
  }

  lemma SkippedIs(v: View, e: Event)
    ensures Skips(v, e) ==> Reduce(v, e) == v
    ensures !Skips(v, e) && v.ending.Some? ==> Reduce(v, e) == v.(last := e.sequence)
  {
  }

  // ------------------------------------------------ what one event says

  function RootSays(e: Event): Option<RunStatus> {
    match e.payload
    case ProgressPayload(node, root, _, _) => if node.None? || node.value == "" then root else None
    case DonePayload(status) => Some(status)
    case ErrorPayload(_, terminal, status) =>
      if !terminal then None else if status.Some? then status else Some(Failed)
    case _ => None
  }

  function NodeSays(e: Event, n: string): Option<NodeStatus> {
    if n == "" then None
    else
      match e.payload
      case ProgressPayload(node, _, status, _) =>
        if node != Some(n) then None else if status.Some? then status else Some(NodeRunning)
      case TracePayload(_, _, _, node, agent, status, _) =>
        if node == Some(n) || (node.None? && agent == Some(n)) then status else None
      case _ => None
  }

  /** The last item of a chunk wins. */
  function ItemOf(items: seq<(string, string)>, chunk: string): Option<string> {
    if items == [] then None
    else if items[|items| - 1].0 == chunk then Some(items[|items| - 1].1)
    else ItemOf(items[..|items| - 1], chunk)
  }

  function ChunkSays(e: Event, chunk: string): Option<string> {
    if e.payload.EvidencePayload? then ItemOf(e.payload.items, chunk) else None
  }

  function ArtifactSays(e: Event, resource: string): Option<string> {
    if e.payload.ArtifactPayload? && e.payload.live && e.payload.resource == resource then Some(e.payload.title)
      else None
  }

  /** A provider switch is filed under its own sequence, another trace under its
      id, or under its sequence if it has none. */
  function TraceSays(e: Event, id: string): Option<Payload> {
    if e.payload.TracePayload?
       && (if e.payload.switches then id == "provider-switch-" + Text.Decimal(e.sequence)
           else e.payload.id == Some(id) || (e.payload.id.None? && id == "trace-" + Text.Decimal(e.sequence)))
    then Some(e.payload) else None
  }

  /** An error is shown until the run is done. */
  function ErrorSays(e: Event): Option<Option<string>> {
    match e.payload
    case ErrorPayload(message, _, _) => Some(Some(message))
    case DonePayload(_) => Some(None)
    case _ => None
  }

  /** A wait names its approval or leaves it; any other root status in a progress clears it. */
  function ApprovalSays(e: Event): Option<Option<string>> {
    match e.payload
    case ProgressPayload(_, root, _, approval) =>
      if root == Some(WaitingApproval) then (if approval.Some? then Some(approval) else None)
      else if root.Some? then Some(None) else None
    case _ => None
  }

  function NodeTeller(n: string): Event -> Option<NodeStatus> { (e: Event) => NodeSays(e, n) }

  function ChunkTeller(chunk: string): Event -> Option<string> { (e: Event) => ChunkSays(e, chunk) }

  function ArtifactTeller(resource: string): Event -> Option<string> { (e: Event) => ArtifactSays(e, resource) }

  function TraceTeller(id: string): Event -> Option<Payload> { (e: Event) => TraceSays(e, id) }

  /** The last thing said in a history. */
  function Last<T>(history: seq<Event>, says: Event -> Option<T>): Option<T> {
    if history == [] then None
    else if says(history[|history| - 1]).Some? then says(history[|history| - 1])
    else Last(history[..|history| - 1], says)
  }

  lemma LastAppend<T>(history: seq<Event>, e: Event, says: Event -> Option<T>)
    ensures Last(history + [e], says) == if says(e).Some? then says(e) else Last(history, says)
  {
    assert (history + [e])[..|history|] == history;
  }

  /** The last thing said is said at some place, and nothing is said after it. */
  lemma {:induction false} LastMeans<T>(history: seq<Event>, says: Event -> Option<T>, x: T)
    ensures Last(history, says) == Some(x) <==>
              exists i :: 0 <= i < |history| && says(history[i]) == Some(x)
                          && forall j :: i < j < |history| ==> says(history[j]).None?
  {
    if history != [] {
      var front := history[..|history| - 1];
      LastMeans(front, says, x);
      if says(history[|history| - 1]).None? {
        if i :| 0 <= i < |front| && says(front[i]) == Some(x) && forall j :: i < j < |front| ==> says(front[j]).None? {
          assert says(history[i]) == Some(x);
          forall j | i < j < |history| ensures says(history[j]).None? {
            if j < |front| { assert says(front[j]).None?; }
          }
        }
        if i :| 0 <= i < |history| && says(history[i]) == Some(x) && forall j :: i < j < |history| ==>
          says(history[j]).None? {
          assert i < |front| && says(front[i]) == Some(x);
          assert forall j :: i < j < |front| ==> front[j] == history[j];
        }
      }
    }
  }

  function At<T>(m: map<string, T>, k: string): Option<T> {
    if k in m then Some(m[k]) else None
  }

  // ------------------------------------------------ the view, part by part

  ghost predicate RootTold(v: View, h: seq<Event>) {
    && v.status == ValueOr(Last(h, RootSays), Queued)
    && v.error == ValueOr(Last(h, ErrorSays), None)
    && v.approval == ValueOr(Last(h, ApprovalSays), None)
  }

  ghost predicate NodeTold(v: View, h: seq<Event>, n: string) {
    At(v.nodes, n) == Last(h, NodeTeller(n))
  }

  ghost predicate ItemsTold(v: View, h: seq<Event>, k: string) {
    && At(v.evidence, k) == Last(h, ChunkTeller(k))
    && At(v.artifacts, k) == Last(h, ArtifactTeller(k))
    && At(v.traces, k) == Last(h, TraceTeller(k))
  }

  lemma ReduceRoot(v: View, e: Event)
    requires !Skips(v, e) && v.ending.None?
    ensures var after := Reduce(v, e);
            && after.status == ValueOr(RootSays(e), v.status)
            && after.error == ValueOr(ErrorSays(e), v.error)
            && after.approval == ValueOr(ApprovalSays(e), v.approval)
  {
    hide ApplyToken, ApplyEvidence, ApplyProgress, ApplyTrace, RootSays, ApprovalSays;
    if e.payload.ProgressPayload? {
      assert Reduce(v, e) == ApplyProgress(v.(last := e.sequence), e.payload);
      ProgressRoot(v.(last := e.sequence), e);
      ProgressElsewhere(v.(last := e.sequence), e);
    } else if e.payload.TracePayload? {
      assert Reduce(v, e) == ApplyTrace(v.(last := e.sequence), e.payload, e.sequence);
      TraceRoot(v.(last := e.sequence), e);
    } else {
      SaysOtherwise(e);
    }
  }

  lemma ProgressRoot(v: View, e: Event)
    requires e.payload.ProgressPayload?
    ensures var after := ApplyProgress(v, e.payload);
            && after.status == ValueOr(RootSays(e), v.status)
            && after.approval == ValueOr(ApprovalSays(e), v.approval)
  {
    hide ErrorSays;
    var p := e.payload;
    assert ApprovalSays(e) ==
      if p.rootStatus == Some(WaitingApproval) then (if p.approval.Some? then Some(p.approval) else None)
      else if p.rootStatus.Some? then Some(None) else None;
    assert RootSays(e) == if p.nodeId.None? || p.nodeId.value == "" then p.rootStatus else None;
    hide RootSays, ApprovalSays;
  }

  lemma TraceRoot(v: View, e: Event)
    requires e.payload.TracePayload?
    ensures var after := ApplyTrace(v, e.payload, e.sequence);
            && after.status == v.status && after.error == v.error && after.approval == v.approval
            && RootSays(e).None? && ErrorSays(e).None? && ApprovalSays(e).None?
            && after.ending == v.ending && after.last == v.last && after.run == v.run
  {
    hide MarkDraftReplacement, Text.Decimal;
  }

  lemma SaysOtherwise(e: Event)
    requires !e.payload.ProgressPayload? && !e.payload.TracePayload?
    ensures ApprovalSays(e).None?
    ensures RootSays(e) == (match e.payload
                            case DonePayload(status) => Some(status)
                            case ErrorPayload(_, terminal, status) =>
                              if terminal then Some(ValueOr(status, Failed)) else None
                            case _ => None)
  {
  }

  lemma RootStep(v: View, h: seq<Event>, e: Event)
    requires RootTold(v, h) && !Skips(v, e) && v.ending.None?
    ensures RootTold(Reduce(v, e), h + [e])
  {
    hide Reduce, Last;
    ReduceRoot(v, e);
    LastAppend(h, e, RootSays);
    LastAppend(h, e, ErrorSays);
    LastAppend(h, e, ApprovalSays);
  }

  /** Only progress and traces that name a node touch the nodes. */
  lemma ReduceNodes(v: View, e: Event, n: string)
    requires !Skips(v, e) && v.ending.None?
    ensures At(Reduce(v, e).nodes, n) == if NodeSays(e, n).Some? then NodeSays(e, n) else At(v.nodes, n)
  {
    hide ApplyToken, ApplyEvidence, MarkDraftReplacement, Text.Decimal;
    match e.payload
    case ProgressPayload(_, _, _, _) => assert Reduce(v, e) == ApplyProgress(v.(last := e.sequence), e.payload);
    case TracePayload(_, _, _, _, _, _, _) =>
      assert Reduce(v, e) == ApplyTrace(v.(last := e.sequence), e.payload, e.sequence);
    case _ =>
  }

  lemma NodeStep(v: View, h: seq<Event>, e: Event, n: string)
    requires NodeTold(v, h, n) && !Skips(v, e) && v.ending.None?
    ensures NodeTold(Reduce(v, e), h + [e], n)
  {
    hide Reduce, Last, NodeSays;
    ReduceNodes(v, e, n);
    LastAppend(h, e, NodeTeller(n));
  }

  lemma {:induction false} EvidenceIs(evidence: map<string, string>, items: seq<(string, string)>, chunk: string)
    ensures At(ApplyEvidence(evidence, items), chunk) ==
              if ItemOf(items, chunk).Some? then ItemOf(items, chunk) else At(evidence, chunk)
    decreases |items|
  {
    if items != [] {
      EvidenceIs(evidence[items[0].0 := items[0].1], items[1..], chunk);
      ItemOfFirst(items, chunk);
    }
  }

  lemma {:induction false} ItemOfFirst(items: seq<(string, string)>, chunk: string)
    requires items != []
    ensures ItemOf(items, chunk) ==
              if ItemOf(items[1..], chunk).Some? then ItemOf(items[1..], chunk)
              else if items[0].0 == chunk then Some(items[0].1) else None
  {
    if |items| > 1 {
      ItemOfFirst(items[..|items| - 1], chunk);
      assert items[..|items| - 1][1..] == items[1..][..|items[1..]| - 1];
      assert items[1..][|items[1..]| - 1] == items[|items| - 1];
    } else {
      assert items[..0] == [] && items[1..] == [];
    }
  }

  lemma ItemsStep(v: View, h: seq<Event>, e: Event, k: string)
    requires ItemsTold(v, h, k) && !Skips(v, e) && v.ending.None?
    ensures ItemsTold(Reduce(v, e), h + [e], k)
  {
    hide ApplyToken, ApplyEvidence, MarkDraftReplacement, Last, ItemOf, ApplyProgress, Text.Decimal;
    LastAppend(h, e, ChunkTeller(k));
    LastAppend(h, e, ArtifactTeller(k));
    LastAppend(h, e, TraceTeller(k));
    if e.payload.EvidencePayload? {
      EvidenceIs(v.evidence, e.payload.items, k);
    }
    if e.payload.ProgressPayload? {
      ProgressElsewhere(v.(last := e.sequence), e);
    }
  }

  lemma ProgressElsewhere(v: View, e: Event)
    requires e.payload.ProgressPayload?
    ensures var after := ApplyProgress(v, e.payload);
            && after.evidence == v.evidence && after.artifacts == v.artifacts && after.traces == v.traces
            && after.error == v.error && after.ending == v.ending && after.last == v.last && after.run == v.run
  {
  }

  /** Main result: whatever was lost, repeated or late, the status is the last one
      announced for the root, a node's status the last one given for it, evidence,
      artifacts and traces the last of their key, and the error and the approval
      shown are the last that was not withdrawn. */
  lemma {:induction false} ViewReflectsHistory(run: string, events: seq<Event>, k: string)
    ensures var v, h := Fold(Create(run), events), UpToEnd(Newer(run, events));
            RootTold(v, h) && NodeTold(v, h, k) && ItemsTold(v, h, k)
  {
    if events == [] {
      NothingTold(run, k);
    } else {
      hide Reduce, RootTold, NodeTold, ItemsTold, UpToEnd;
      var front, e := events[..|events| - 1], events[|events| - 1];
      ViewReflectsHistory(run, front, k);
      EffectiveExactly(run, front);
      EffectiveExactly(run, events);
      var v, h := Fold(Create(run), front), UpToEnd(Newer(run, front));
      SkippedIs(v, e);
      if !Skips(v, e) && v.ending.None? {
        RootStep(v, h, e);
        NodeStep(v, h, e, k);
        ItemsStep(v, h, e, k);
      } else {
        CursorOnly(v, v.(last := e.sequence), h, k);
      }
    }
  }

  lemma CursorOnly(v: View, after: View, h: seq<Event>, k: string)
    requires after == v.(last := after.last) && RootTold(v, h) && NodeTold(v, h, k) && ItemsTold(v, h, k)
    ensures RootTold(after, h) && NodeTold(after, h, k) && ItemsTold(after, h, k)
  {
  }

  lemma NothingTold(run: string, k: string)
    ensures RootTold(Create(run), []) && NodeTold(Create(run), [], k) && ItemsTold(Create(run), [], k)
  {
  }

  // ------------------------------------------------ the drafts, whole

  /** The parts of a token's key: its step attempt, else its node, else the root;
      its provider call; its stream attempt. */
  lemma TokenKeyIs(p: Payload)
    requires p.TokenPayload?
    ensures var step := if p.step.Some? then p.step.value else if p.nodeId.Some? then p.nodeId.value else "root";
            var call := if p.call.Some? then p.call.value else "legacy";
            var attempt := if p.attempt.Some? then p.attempt.value else 0;
            && StepOf(p) == step && CallOf(p) == call
            && DraftKeyOf(p) == step + ":" + call + ":" + Text.Decimal(attempt)
  {
    hide Text.Decimal;
    assert StepOf(p) + [':'] + (CallOf(p) + [':'] + Text.Decimal(ValueOr(p.attempt, 0)))
        == StepOf(p) + ":" + CallOf(p) + ":" + Text.Decimal(ValueOr(p.attempt, 0));
  }

  /** Which step a trace makes start over: its step attempt, else its node. */
  lemma StartsOverIs(p: Payload)
    requires p.TracePayload?
    ensures ReplacedStep(p) ==
              if !p.startsOver then None
              else
                match p.step
                case Some(step) => if step == "" then None else Some(step)
                case None => if p.nodeId == Some("") then None else p.nodeId
  {
  }

  /** No longer followed since `sequence`. */
  function Displaced(d: Option<Draft>, sequence: nat): Option<Draft> {
    match d case None => None case Some(d) => Some(d.(active := false, replacedAt := Some(sequence)))
  }

  /** The draft filed under a key: opened and extended by the accepted tokens of its
      stream, displaced when its step turns to another one or starts over. */
  function Filed(history: seq<Event>, key: string): Option<Draft> {
    if history == [] then None
    else
      var front, e := history[..|history| - 1], history[|history| - 1];
      var before, p := Filed(front, key), e.payload;
      if p.TokenPayload? && Accepts(front, p) then
        if DraftKeyOf(p) == key then
          var text := (if before.Some? then before.value.content else "") + p.content;
          Some(Draft(StepOf(p), CallOf(p), ValueOr(p.attempt, 0), text, true, None))
        else if Following(front, StepOf(p)) == Some(key) then Displaced(before, e.sequence)
        else before
      else if p.TracePayload? && ReplacedStep(p).Some? && Following(front, ReplacedStep(p).value) == Some(key) then
        match Displaced(before, e.sequence) case None => None case Some(d) => Some(d.(content := ""))
      else before
  }

  ghost predicate DraftTold(t: Tokens, history: seq<Event>, key: string) {
    At(t.drafts, key) == Filed(history, key)
  }

  lemma TokenFiled(t: Tokens, history: seq<Event>, e: Event, key: string)
    requires e.payload.TokenPayload? && Rooted(t) && Reflects(t, history) && DraftTold(t, history, key)
    ensures DraftTold(ApplyToken(t, e.payload, e.sequence), history + [e], key)
  {
    TokenTaken(t, history, e);
    var p := e.payload;
    FollowingIs(t, history, StepOf(p));
    PendingFree(t, StepOf(p));
    hide Accepts, DraftKeyOf, StepOf, CallOf, Rooted, Reflects, Following;
    assert (history + [e])[..|history|] == history;
  }

  lemma FollowingIs(t: Tokens, history: seq<Event>, step: string)
    requires Reflects(t, history)
    ensures Following(history, step) == At(t.active, step)
  {
  }

  lemma PendingFree(t: Tokens, step: string)
    requires Rooted(t)
    ensures step in t.pending ==> step !in t.active
    ensures step in t.active ==> t.active[step] in t.drafts
  {
  }

  lemma ReplacementFiled(t: Tokens, history: seq<Event>, e: Event, key: string)
    requires e.payload.TracePayload? && ReplacedStep(e.payload).Some?
    requires Rooted(t) && Reflects(t, history) && DraftTold(t, history, key)
    ensures DraftTold(MarkDraftReplacement(t, ReplacedStep(e.payload).value, e.sequence), history + [e], key)
  {
    FollowingIs(t, history, ReplacedStep(e.payload).value);
    hide Reflects, Following, Rooted;
    assert (history + [e])[..|history|] == history;
  }

  lemma OtherFiled(t: Tokens, history: seq<Event>, e: Event, key: string)
    requires !e.payload.TokenPayload? && !(e.payload.TracePayload? && ReplacedStep(e.payload).Some?)
    requires DraftTold(t, history, key)
    ensures DraftTold(t, history + [e], key)
  {
    assert (history + [e])[..|history|] == history;
  }

  /** Main result: a draft is what the effective events filed under its key, with
      its step, call and attempt, its text, whether it is followed, and the
      sequence at which it was displaced. */
  lemma {:induction false} DraftsAreFiled(run: string, events: seq<Event>, key: string)
    ensures DraftTold(Fold(Create(run), events).tokens, Effective(Create(run), events), key)
  {
    if events != [] {
      hide ApplyToken, MarkDraftReplacement, Rooted, Reflects, Reduce, Skips, DraftTold, Fold, Effective;
      var front, e := events[..|events| - 1], events[|events| - 1];
      DraftsAreFiled(run, front, key);
      DraftsReflectHistory(run, front);
      OneMore(run, events);
      var before, history := Fold(Create(run), front), Effective(Create(run), front);
      ReduceTokens(before, e);
      assert history + [] == history;
      if !Skips(before, e) && before.ending.None? {
        if e.payload.TokenPayload? {
          TokenFiled(before.tokens, history, e, key);
        } else if e.payload.TracePayload? && ReplacedStep(e.payload).Some? {
          ReplacementFiled(before.tokens, history, e, key);
        } else {
          OtherFiled(before.tokens, history, e, key);
        }
      }
    }
  }

  // ------------------------------------------------ what is shown

  /** The events of a history that reach the presenter: all but the refused tokens. */
  function Shown(history: seq<Event>): seq<Event> {
    if history == [] then []
    else
      var front, e := history[..|history| - 1], history[|history| - 1];
      Shown(front) + if e.payload.TokenPayload? && !Accepts(front, e.payload) then [] else [e]
  }

  /** Main result: an event is shown exactly if the run has not ended and it is not
      a token of a stream its step does not follow. */
  lemma {:induction false} ShownExactly(run: string, events: seq<Event>, e: Event)
    requires e.run == run && e.sequence > Highest(run, events)
    ensures var v, h := Fold(Create(run), events), UpToEnd(Newer(run, events));
            && (ShouldForward(v, e) <==> EndOf(h).None? && (e.payload.TokenPayload? ==> Accepts(h, e.payload)))
            && Shown(UpToEnd(Newer(run, events + [e]))) == Shown(h) + (if ShouldForward(v, e) then [e] else [])
  {
    hide Fold, Reflects, Rooted, UpToEnd, Newer, Highest, Accepts, EndOf;
    EffectiveExactly(run, events);
    DraftsReflectHistory(run, events);
    var v, h := Fold(Create(run), events), UpToEnd(Newer(run, events));
    if e.payload.TokenPayload? {
      TokenTaken(v.tokens, h, e);
    }
    OneMore(run, events + [e]);
    assert (events + [e])[..|events|] == events;
    UpToEndAppend(Newer(run, events), e);
    assert (h + [e])[..|h|] == h;
    assert Shown(h) + [] == Shown(h);
  }
}
