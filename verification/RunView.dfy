/** The view a client folds from a run's event log, and its token drafts. */
module RunView {
  import opened Options
  import opened Lifecycle
  import Text

  datatype NodeStatus =
    | NodePending | NodeReady | NodeRunning | NodeSucceeded | NodeFailed | NodeBlocked | NodeCancelled | NodeSkipped

  datatype Payload =
    | ProgressPayload(nodeId: Option<string>, rootStatus: Option<RunStatus>, nodeStatus: Option<NodeStatus>,
        approval: Option<string>)
    | EvidencePayload(items: seq<(string, string)>)
    | TokenPayload(step: Option<string>, nodeId: Option<string>, call: Option<string>, attempt: Option<nat>,
        content: string, replaceDraft: bool)
    | ArtifactPayload(resource: string, live: bool, title: string)
    | TracePayload(id: Option<string>, switches: bool, step: Option<string>, nodeId: Option<string>,
        agent: Option<string>, nodeStatus: Option<NodeStatus>, startsOver: bool)
    | DonePayload(doneStatus: RunStatus)
    | ErrorPayload(message: string, terminal: bool, errorStatus: Option<RunStatus>)

  datatype Event = Event(run: string, sequence: nat, payload: Payload)

  datatype Draft = Draft(step: string, call: string, attempt: nat, content: string, active: bool,
                         replacedAt: Option<nat>)

  /** The drafts, the stream each step follows, and the steps told to start over. */
  datatype Tokens = Tokens(drafts: map<string, Draft>, active: map<string, string>, pending: set<string>)

  const NoTokens := Tokens(map[], map[], {})

  datatype Ending = EndedDone | EndedError

  datatype View = View(
    run: string, status: RunStatus, nodes: map<string, NodeStatus>, evidence: map<string, string>,
    artifacts: map<string, string>, traces: map<string, Payload>,
    tokens: Tokens,
    last: nat, ending: Option<Ending>, error: Option<string>, approval: Option<string>)

  function Create(run: string): View {
    View(run, Queued, map[], map[], map[], map[], NoTokens, 0, None, None, None)
  }

  // ------------------------------------------------ the reducer

  /** A key is the step, the provider call and the stream attempt joined by colons. */
  function MakeDraftKey(step: string, call: string, attempt: nat): string {
    step + [':'] + (call + [':'] + Text.Decimal(attempt))
  }

  function StepOf(p: Payload): string
    requires p.TokenPayload?
  {
    ValueOr(Or(p.step, p.nodeId), "root")
  }

  function CallOf(p: Payload): string
    requires p.TokenPayload?
  {
    ValueOr(p.call, "legacy")
  }

  function DraftKeyOf(p: Payload): string
    requires p.TokenPayload?
  {
    MakeDraftKey(StepOf(p), CallOf(p), ValueOr(p.attempt, 0))
  }

  function ApplyProgress(v: View, p: Payload): View
    requires p.ProgressPayload?
  {
    var approval :=
      if p.rootStatus == Some(WaitingApproval) then Or(p.approval, v.approval)
      else if p.rootStatus.Some? then None else v.approval;
    if p.nodeId.None? || p.nodeId.value == "" then
      if p.rootStatus.Some? then v.(status := p.rootStatus.value, approval := approval) else v
    else v.(nodes := v.nodes[p.nodeId.value := ValueOr(p.nodeStatus, NodeRunning)], approval := approval)
  }

  function ApplyEvidence(evidence: map<string, string>, items: seq<(string, string)>): map<string, string>
    decreases |items|
  {
    if items == [] then evidence else ApplyEvidence(evidence[items[0].0 := items[0].1], items[1..])
  }

  function ApplyToken(t: Tokens, p: Payload, sequence: nat): Tokens
    requires p.TokenPayload?
  {
    var step, key := StepOf(p), DraftKeyOf(p);
    var renews := p.replaceDraft || step in t.pending;
    if step in t.active && t.active[step] != key && !renews then t
    else
      var drafts :=
        if step in t.active && (t.active[step] != key || renews) && t.active[step] in t.drafts then
          t.drafts[t.active[step] := t.drafts[t.active[step]].(active := false, replacedAt := Some(sequence))]
        else t.drafts;
      var before := if key in drafts then drafts[key].content else "";
      Tokens(drafts[key := Draft(step, CallOf(p), ValueOr(p.attempt, 0), before + p.content, true, None)],
             t.active[step := key], t.pending - {step})
  }

  function MarkDraftReplacement(t: Tokens, step: string, sequence: nat): Tokens {
    var drafts :=
      if step in t.active && t.active[step] in t.drafts then
        t.drafts[t.active[step] := t.drafts[t.active[step]].(active := false, content := "",
            replacedAt := Some(sequence))]
      else t.drafts;
    Tokens(drafts, t.active - {step}, t.pending + {step})
  }

  /** The step a trace asks to start over, if any. */
  function ReplacedStep(p: Payload): Option<string>
    requires p.TracePayload?
  {
    var step := Or(p.step, p.nodeId);
    if p.startsOver && step.Some? && step.value != "" then step else None
  }

  function ApplyTrace(v: View, p: Payload, sequence: nat): View
    requires p.TracePayload?
  {
    var id :=
      if p.switches then "provider-switch-" + Text.Decimal(sequence)
      else if p.id.None? then "trace-" + Text.Decimal(sequence) else p.id.value;
    var node := Or(p.nodeId, p.agent);
    v.(traces := v.traces[id := p],
       nodes := if node.Some? && node.value != "" && p.nodeStatus.Some? then v.nodes[node.value := p.nodeStatus.value]
         else v.nodes,
       tokens := match ReplacedStep(p)
                 case Some(step) => MarkDraftReplacement(v.tokens, step, sequence)
                 case None => v.tokens)
  }

  /** Of another run, or already behind the cursor. */
  predicate Skips(v: View, e: Event) {
    e.run != v.run || e.sequence <= v.last
  }

  function Reduce(v: View, e: Event): View {
    if Skips(v, e) then v
    else
      var next := v.(last := e.sequence);
      if next.ending.Some? then next
      else
        match e.payload
        case ProgressPayload(_, _, _, _) => ApplyProgress(next, e.payload)
        case EvidencePayload(items) => next.(evidence := ApplyEvidence(next.evidence, items))
        case TokenPayload(_, _, _, _, _, _) => next.(tokens := ApplyToken(next.tokens, e.payload, e.sequence))
        case ArtifactPayload(resource, live, title) =>
          if live then next.(artifacts := next.artifacts[resource := title]) else next
        case TracePayload(_, _, _, _, _, _, _) => ApplyTrace(next, e.payload, e.sequence)
        case DonePayload(status) => next.(status := status, ending := Some(EndedDone), error := None)
        case ErrorPayload(message, terminal, status) =>
          if !terminal then next.(error := Some(message))
          else next.(status := ValueOr(status, Failed), ending := Some(EndedError), error := Some(message))
  }

  function Fold(v: View, events: seq<Event>): View {
    if events == [] then v else Reduce(Fold(v, events[..|events| - 1]), events[|events| - 1])
  }

  /** What the client shows the presenter. */
  predicate ShouldForward(v: View, e: Event) {
    v.ending.None? &&
    (e.payload.TokenPayload? ==>
       var step := StepOf(e.payload);
       || step !in v.tokens.active
       || v.tokens.active[step] == DraftKeyOf(e.payload)
       || e.payload.replaceDraft || step in v.tokens.pending)
  }

  /** Nothing but the cursor moves after a terminal event. */
  lemma {:induction false} EndingFreezes(v: View, events: seq<Event>)
    requires v.ending.Some?
    ensures Fold(v, events) == v.(last := Fold(v, events).last) && Fold(v, events).last >= v.last
  {
    if events != [] {
      EndingFreezes(v, events[..|events| - 1]);
    }
  }

  /** An event delivered again, or any older one, changes nothing. */
  lemma {:induction false} RepeatsIgnored(v: View, e: Event, again: Event)
    requires e.run == v.run && again.sequence <= e.sequence
    ensures Reduce(Reduce(v, e), again) == Reduce(v, e)
  {
  }

  // ------------------------------------------------ the drafts, from the history alone

  /** The events of a log that the fold acts on. */
  function Effective(v: View, events: seq<Event>): seq<Event> {
    if events == [] then []
    else
      var front, e := events[..|events| - 1], events[|events| - 1];
      var before := Fold(v, front);
      if Skips(before, e) || before.ending.Some? then Effective(v, front) else Effective(v, front) + [e]
  }

  /** The stream `step` is following: the last accepted one, unless it was told to start over since. */
  function Following(history: seq<Event>, step: string): Option<string>
    decreases |history|, 0
  {
    if history == [] then None
    else
      var front, p := history[..|history| - 1], history[|history| - 1].payload;
      if p.TokenPayload? && StepOf(p) == step && Accepts(front, p) then Some(DraftKeyOf(p))
      else if p.TracePayload? && ReplacedStep(p) == Some(step) then None
      else Following(front, step)
  }

  /** A token is taken unless its step follows another stream and no replacement is announced. */
  predicate Accepts(history: seq<Event>, p: Payload)
    requires p.TokenPayload?
    decreases |history|, 1
  {
    Following(history, StepOf(p)) in {None, Some(DraftKeyOf(p))} || p.replaceDraft
  }

  /** The accepted text of a stream, in order, since its step last started over while following it. */
  function Spoken(history: seq<Event>, key: string): Option<string> {
    if history == [] then None
    else
      var front, p := history[..|history| - 1], history[|history| - 1].payload;
      if p.TokenPayload? && DraftKeyOf(p) == key && Accepts(front, p)
        then Some(ValueOr(Spoken(front, key), "") + p.content)
      else if p.TracePayload? && ReplacedStep(p).Some? && Following(front, ReplacedStep(p).value) == Some(key)
        then Some("")
      else Spoken(front, key)
  }

  /** Told to start over and not yet followed by a new stream. */
  predicate StartsOver(history: seq<Event>, step: string) {
    history != [] &&
    var front, p := history[..|history| - 1], history[|history| - 1].payload;
    if p.TokenPayload? && StepOf(p) == step && Accepts(front, p) then false
    else (p.TracePayload? && ReplacedStep(p) == Some(step)) || StartsOver(front, step)
  }

  // ------------------------------------------------ main results

  /** Identifiers do not contain the key separator. */
  predicate Tagged(e: Event) {
    e.payload.TokenPayload? ==> ':' !in StepOf(e.payload) && ':' !in CallOf(e.payload)
  }

  lemma KeyInjective(step: string, call: string, attempt: nat, step': string, call': string, attempt': nat)
    requires ':' !in step && ':' !in step' && ':' !in call && ':' !in call'
    requires MakeDraftKey(step, call, attempt) == MakeDraftKey(step', call', attempt')
    ensures step == step' && call == call' && attempt == attempt'
  {
    Text.JoinInjective(':', step, call + [':'] + Text.Decimal(attempt), step', call' + [':'] + Text.Decimal(attempt'));
    Text.JoinInjective(':', call, Text.Decimal(attempt), call', Text.Decimal(attempt'));
    Text.DecimalInjective(attempt, attempt');
  }

  /** With a colon in an identifier two steps can share a draft. */
  lemma KeysCollide()
    ensures MakeDraftKey("a:b", "c", 0) == MakeDraftKey("a", "b:c", 0)
  {
    var n := Text.Decimal(0);
    assert "a:b" + [':'] + ("c" + [':'] + n) == "a" + [':'] + ("b:c" + [':'] + n);
  }

  predicate KeyFits(key: string, d: Draft) {
    ':' !in d.step && ':' !in d.call && key == MakeDraftKey(d.step, d.call, d.attempt)
  }

  /** Every draft is filed under the key of its own step, call and attempt. */
  ghost predicate KeysFit(t: Tokens) {
    forall k :: k in t.drafts ==> KeyFits(k, t.drafts[k])
  }

  /** Draft isolation: a step has at most one active draft, `active` names exactly
      it, and a pending replacement excludes one. */
  ghost predicate Isolated(t: Tokens) {
    && (forall s :: s in t.active ==>
        t.active[s] in t.drafts && t.drafts[t.active[s]].active && t.drafts[t.active[s]].step == s)
    && (forall k :: k in t.drafts && t.drafts[k].active ==>
        t.drafts[k].step in t.active && t.active[t.drafts[k].step] == k)
    && (forall s :: s in t.pending ==> s !in t.active)
  }

  /** The reducer takes this token. */
  predicate Taken(t: Tokens, p: Payload)
    requires p.TokenPayload?
  {
    var step := StepOf(p);
    step !in t.active || t.active[step] == DraftKeyOf(p) || p.replaceDraft || step in t.pending
  }

  /** Another step follows the stream this token belongs to. */
  predicate Collides(t: Tokens, p: Payload)
    requires p.TokenPayload?
  {
    exists s :: s in t.active && s != StepOf(p) && t.active[s] == DraftKeyOf(p)
  }

  /** A token breaks isolation exactly when it is taken into a stream that another step follows. */
  lemma {:induction false} TokenIsolatedExactly(t: Tokens, p: Payload, sequence: nat)
    requires p.TokenPayload? && Isolated(t)
    ensures Isolated(ApplyToken(t, p, sequence)) <==> !(Taken(t, p) && Collides(t, p))
  {
    hide DraftKeyOf;
    var after := ApplyToken(t, p, sequence);
    if Taken(t, p) {
      assert after.active[StepOf(p)] == DraftKeyOf(p) && after.drafts[DraftKeyOf(p)].step == StepOf(p);
      if s :| s in t.active && s != StepOf(p) && t.active[s] == DraftKeyOf(p) {
        assert after.active[s] == DraftKeyOf(p);
      }
    }
  }

  lemma ReplacementIsolated(t: Tokens, step: string, sequence: nat)
    requires Isolated(t)
    ensures Isolated(MarkDraftReplacement(t, step, sequence))
    ensures KeysFit(t) ==> KeysFit(MarkDraftReplacement(t, step, sequence))
  {
    hide MakeDraftKey;
  }

  /** With fitting keys and a fitting token there is nothing to collide with. */
  lemma FittingKeysApart(t: Tokens, p: Payload, sequence: nat)
    requires p.TokenPayload? && Isolated(t) && KeysFit(t) && ':' !in StepOf(p) && ':' !in CallOf(p)
    ensures !Collides(t, p) && KeysFit(ApplyToken(t, p, sequence))
  {
    hide MakeDraftKey;
    forall s | s in t.active && t.active[s] == DraftKeyOf(p) ensures s == StepOf(p) {
      var d := t.drafts[t.active[s]];
      assert KeyFits(t.active[s], d);
      KeyInjective(StepOf(p), CallOf(p), ValueOr(p.attempt, 0), d.step, d.call, d.attempt);
    }
  }

  /** The token at `i` is taken by the fold into a stream that another step follows. */
  ghost predicate CollisionAt(run: string, events: seq<Event>, i: nat)
    requires i < |events|
  {
    var v := Fold(Create(run), events[..i]);
    && !Skips(v, events[i]) && v.ending.None? && events[i].payload.TokenPayload?
    && Taken(v.tokens, events[i].payload) && Collides(v.tokens, events[i].payload)
  }

  lemma ReduceIsolated(v: View, e: Event)
    requires Isolated(v.tokens)
    ensures Isolated(Reduce(v, e).tokens) <==>
              !(!Skips(v, e) && v.ending.None? && e.payload.TokenPayload? && Taken(v.tokens, e.payload)
                  && Collides(v.tokens, e.payload))
    ensures KeysFit(v.tokens) && Tagged(e) ==> Isolated(Reduce(v, e).tokens) && KeysFit(Reduce(v, e).tokens)
  {
    hide ApplyToken, MarkDraftReplacement, Isolated, KeysFit, Taken, Collides, Reduce, Skips;
    ReduceTokens(v, e);
    if !Skips(v, e) && v.ending.None? {
      if e.payload.TokenPayload? {
        TokenIsolatedExactly(v.tokens, e.payload, e.sequence);
        if KeysFit(v.tokens) && Tagged(e) {
          FittingKeysApart(v.tokens, e.payload, e.sequence);
        }
      } else if e.payload.TracePayload? && ReplacedStep(e.payload).Some? {
        ReplacementIsolated(v.tokens, ReplacedStep(e.payload).value, e.sequence);
      }
    }
  }

  /** Main result: draft isolation holds of every view a log of colon-free identifiers folds to. */
  lemma {:induction false} DraftsIsolated(run: string, events: seq<Event>)
    requires forall e :: e in events ==> Tagged(e)
    ensures Isolated(Fold(Create(run), events).tokens) && KeysFit(Fold(Create(run), events).tokens)
  {
    hide Reduce, Tagged;
    if events != [] {
      DraftsIsolated(run, events[..|events| - 1]);
      ReduceIsolated(Fold(Create(run), events[..|events| - 1]), events[|events| - 1]);
    }
  }

  /** Main result: for any identifiers, isolation holds throughout a log if and
      only if no token is taken into a stream that another step follows. */
  lemma {:induction false} DraftsIsolatedExactly(run: string, events: seq<Event>)
    ensures (forall i :: 0 <= i <= |events| ==> Isolated(Fold(Create(run), events[..i]).tokens))
       <==> (forall i :: 0 <= i < |events| ==> !CollisionAt(run, events, i))
  {
    hide Reduce, Isolated, Skips, Taken, Collides, Fold;
    if events != [] {
      var k := |events| - 1;
      var front := events[..k];
      DraftsIsolatedExactly(run, front);
      assert forall i :: 0 <= i <= k ==> front[..i] == events[..i];
      assert forall i :: 0 <= i < k ==> CollisionAt(run, front, i) == CollisionAt(run, events, i);
      assert events[..|events|] == events;
      LastFold(run, events);
      if Isolated(Fold(Create(run), front).tokens) {
        ReduceIsolated(Fold(Create(run), front), events[k]);
        assert CollisionAt(run, events, k) <==> !Isolated(Fold(Create(run), events[..k + 1]).tokens);
      }
      assert front[..k] == front;
    } else {
      NothingIsolated(run);
      assert events[..0] == [];
    }
  }

  lemma LastFold(run: string, events: seq<Event>)
    requires events != []
    ensures Fold(Create(run), events) == Reduce(Fold(Create(run), events[..|events| - 1]), events[|events| - 1])
  {
  }

  lemma NothingIsolated(run: string)
    ensures Isolated(Fold(Create(run), []).tokens)
  {
  }

  /** With colons in identifiers it can happen: the step `a:b` is left following a
      draft of the step `a`, which holds the text of both. */
  lemma CollisionBreaksIsolation()
    ensures var first := TokenPayload(Some("a:b"), None, Some("c"), None, "x", false);
            var second := TokenPayload(Some("a"), None, Some("b:c"), None, "y", false);
            var t := ApplyToken(ApplyToken(NoTokens, first, 1), second, 2);
            && Isolated(ApplyToken(NoTokens, first, 1)) && !Isolated(t)
            && t.active["a:b"] == t.active["a"] && t.drafts[t.active["a:b"]].step == "a"
              && t.drafts[t.active["a:b"]].content == "xy"
  {
    hide MakeDraftKey;
    KeysCollide();
    var first := TokenPayload(Some("a:b"), None, Some("c"), None, "x", false);
    var second := TokenPayload(Some("a"), None, Some("b:c"), None, "y", false);
    var t := ApplyToken(ApplyToken(NoTokens, first, 1), second, 2);
    assert t.active["a:b"] == DraftKeyOf(first) && t.drafts[DraftKeyOf(first)].step == "a";
    assert "x" + "y" == "xy";
  }

  /** The drafts are what the history says. */
  ghost predicate Reflects(t: Tokens, history: seq<Event>) {
    && (forall s :: (if s in t.active then Some(t.active[s]) else None) == Following(history, s))
    && (forall k :: (if k in t.drafts then Some(t.drafts[k].content) else None) == Spoken(history, k))
    && (forall s :: s in t.pending <==> StartsOver(history, s))
  }

  /** What holds of the drafts even where keys collide. */
  ghost predicate Rooted(t: Tokens) {
    (forall s :: s in t.active ==> t.active[s] in t.drafts) && (forall s :: s in t.pending ==> s !in t.active)
  }

  lemma TokenTaken(t: Tokens, history: seq<Event>, e: Event)
    requires e.payload.TokenPayload? && Rooted(t) && Reflects(t, history)
    ensures Accepts(history, e.payload) <==> Taken(t, e.payload)
  {
    hide MakeDraftKey;
    var step := StepOf(e.payload);
    assert Following(history, step) == if step in t.active then Some(t.active[step]) else None;
  }

  lemma TokenReflects(t: Tokens, history: seq<Event>, e: Event)
    requires e.payload.TokenPayload? && Rooted(t) && Reflects(t, history)
    ensures Reflects(ApplyToken(t, e.payload, e.sequence), history + [e])
  {
    hide Accepts, DraftKeyOf, StepOf, CallOf, Rooted;
    TokenTaken(t, history, e);
    ActiveKnown(t);
    assert (history + [e])[..|history|] == history;
    var key := DraftKeyOf(e.payload);
    assert Spoken(history, key) == if key in t.drafts then Some(t.drafts[key].content) else None;
  }

  lemma ActiveKnown(t: Tokens)
    requires Rooted(t)
    ensures forall s :: s in t.active ==> t.active[s] in t.drafts
  {
  }

  lemma TokenRooted(t: Tokens, p: Payload, sequence: nat)
    requires p.TokenPayload? && Rooted(t)
    ensures Rooted(ApplyToken(t, p, sequence))
  {
    hide DraftKeyOf;
  }

  lemma ReplacementReflects(t: Tokens, history: seq<Event>, e: Event)
    requires e.payload.TracePayload? && ReplacedStep(e.payload).Some? && Rooted(t) && Reflects(t, history)
    ensures Rooted(MarkDraftReplacement(t, ReplacedStep(e.payload).value, e.sequence))
    ensures Reflects(MarkDraftReplacement(t, ReplacedStep(e.payload).value, e.sequence), history + [e])
  {
    hide MakeDraftKey;
    assert (history + [e])[..|history|] == history;
    var step := ReplacedStep(e.payload).value;
    assert Following(history, step) == if step in t.active then Some(t.active[step]) else None;
  }

  lemma OtherReflects(t: Tokens, history: seq<Event>, e: Event)
    requires !e.payload.TokenPayload? && !(e.payload.TracePayload? && ReplacedStep(e.payload).Some?)
    requires Reflects(t, history)
    ensures Reflects(t, history + [e])
  {
    assert (history + [e])[..|history|] == history;
  }

  lemma ReduceTokens(v: View, e: Event)
    ensures Reduce(v, e).tokens ==
              if Skips(v, e) || v.ending.Some? then v.tokens
              else if e.payload.TokenPayload? then ApplyToken(v.tokens, e.payload, e.sequence)
              else if e.payload.TracePayload? && ReplacedStep(e.payload).Some? then
                MarkDraftReplacement(v.tokens, ReplacedStep(e.payload).value, e.sequence)
              else v.tokens
  {
    hide ApplyToken, MarkDraftReplacement;
  }

  /** Main result: whatever was lost, repeated or late, a draft's text, the stream
      a step follows and the pending replacements are those of the history of
      effective events, colons in identifiers or not. */
  lemma {:induction false} DraftsReflectHistory(run: string, events: seq<Event>)
    ensures Rooted(Fold(Create(run), events).tokens)
    ensures Reflects(Fold(Create(run), events).tokens, Effective(Create(run), events))
  {
    if events != [] {
      hide ApplyToken, MarkDraftReplacement, Rooted, Reflects, ApplyEvidence, ApplyProgress, Skips;
      var front, e := events[..|events| - 1], events[|events| - 1];
      DraftsReflectHistory(run, front);
      hide Reduce;
      var before, history := Fold(Create(run), front), Effective(Create(run), front);
      ReduceTokens(before, e);
      if !Skips(before, e) && before.ending.None? {
        if e.payload.TokenPayload? {
          TokenRooted(before.tokens, e.payload, e.sequence);
          TokenReflects(before.tokens, history, e);
        } else if e.payload.TracePayload? && ReplacedStep(e.payload).Some? {
          ReplacementReflects(before.tokens, history, e);
        } else {
          OtherReflects(before.tokens, history, e);
        }
      }
    } else {
      NothingReflects();
    }
  }

  lemma NothingReflects()
    ensures Rooted(NoTokens) && Reflects(NoTokens, [])
  {
  }

  /** Main result: a token the reducer has not seen is shown exactly when the
      reducer takes it: then its step follows its stream, text or not, its text
      ends that stream's draft, and otherwise no token state changes. */
  lemma ForwardedIffAccepted(v: View, e: Event)
    requires !Skips(v, e) && e.payload.TokenPayload?
    ensures ShouldForward(v, e) <==> v.ending.None? && Taken(v.tokens, e.payload)
    ensures v.ending.None? ==>
              var active := Reduce(v, e).tokens.active;
              ShouldForward(v, e) <==> StepOf(e.payload) in active && active[StepOf(e.payload)] == DraftKeyOf(e.payload)
    ensures !ShouldForward(v, e) ==> Reduce(v, e).tokens == v.tokens
    ensures e.payload.content != "" ==> (ShouldForward(v, e) <==> Reduce(v, e).tokens != v.tokens)
    ensures ShouldForward(v, e) ==>
              var key := DraftKeyOf(e.payload);
              var before := if key in v.tokens.drafts then v.tokens.drafts[key].content else "";
              key in Reduce(v, e).tokens.drafts && Reduce(v, e).tokens.drafts[key].content == before + e.payload.content
  {
    hide MakeDraftKey;
    var p, t := e.payload, v.tokens;
    var key := DraftKeyOf(p);
    var after := Reduce(v, e).tokens;
    if ShouldForward(v, e) && key in t.drafts && p.content != "" {
      assert after.drafts[key].content == t.drafts[key].content + p.content;
      assert |after.drafts[key].content| > |t.drafts[key].content|;
    }
  }
}
