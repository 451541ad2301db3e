/** From the stored log to the learner's view: gateway, wire and subscription together. */
module EndToEnd {
  import opened Options
  import opened RunView
  import ReplicatedLog
  import Gateway
  import ViewHistory
  import Sse
  import Text

  /** The JSON text of an event: one line, from which the event can be read back. */
  ghost predicate Faithful(encode: Event -> string, decode: string -> Event) {
    forall e :: Sse.OneLine(encode(e)) && decode(encode(e)) == e
  }

  function TypeOf(p: Payload): (t: string)
    ensures Sse.OneLine(t)
  {
    match p
    case ProgressPayload(_, _, _, _) => "progress"
    case EvidencePayload(_) => "evidence"
    case TokenPayload(_, _, _, _, _, _) => "token"
    case ArtifactPayload(_, _, _) => "artifact"
    case TracePayload(_, _, _, _, _, _, _) => "trace"
    case DonePayload(_) => "done"
    case ErrorPayload(_, _, _) => "error"
  }

  /** The event name on the wire tells the kind of payload; done and error are the
      ones behind which the gateway stops, and an event that ends a view is one. */
  lemma TypesTell(e: Event)
    ensures TypeOf(e.payload) == "progress" <==> e.payload.ProgressPayload?
    ensures TypeOf(e.payload) == "evidence" <==> e.payload.EvidencePayload?
    ensures TypeOf(e.payload) == "token" <==> e.payload.TokenPayload?
    ensures TypeOf(e.payload) == "artifact" <==> e.payload.ArtifactPayload?
    ensures TypeOf(e.payload) == "trace" <==> e.payload.TracePayload?
    ensures TypeOf(e.payload) == "done" <==> e.payload.DonePayload?
    ensures TypeOf(e.payload) == "error" <==> e.payload.ErrorPayload?
    ensures Gateway.Terminal(e) <==> TypeOf(e.payload) in {"done", "error"}
    ensures ViewHistory.Ends(e) ==> Gateway.Terminal(e)
  {
    assert |"progress"| == 8 && |"evidence"| == 8 && "progress"[0] == 'p' && "evidence"[0] == 'e';
    assert |"token"| == 5 && |"trace"| == 5 && "token"[1] == 'o' && "trace"[1] == 'r' && |"artifact"| == 8;
    assert "artifact"[0] == 'a' && |"done"| == 4 && |"error"| == 5 && "error"[0] == 'e' && "token"[0] == 't';
  }

  function Envelopes(events: seq<Event>, encode: Event -> string): seq<Sse.Envelope> {
    seq(|events|, i requires 0 <= i < |events| =>
      Sse.Envelope(events[i].sequence, TypeOf(events[i].payload), encode(events[i])))
  }

  /** Main result: each event the gateway yields arrives as one frame, in order,
      under its sequence and its name, with its JSON text. */
  lemma {:induction false} FramesNameEvents(events: seq<Event>, encode: Event -> string, decode: string -> Event,
                                            chunks: seq<string>)
    requires Faithful(encode, decode) && Sse.Concat(chunks) == Sse.PrintAll(Envelopes(events, encode))
    ensures var frames := Sse.Frames(Sse.Concat(chunks));
            && |frames| == |events|
            && forall i :: 0 <= i < |events| ==>
                 && frames[i].event == Some(TypeOf(events[i].payload)) && decode(frames[i].data) == events[i]
                 && frames[i].id.Some? && (forall k :: 0 <= k < |frames[i].id.value| ==>
                     Text.IsDigit(frames[i].id.value[k]))
                 && Text.Value(frames[i].id.value) == events[i].sequence
  {
    hide Sse.Frames, Sse.PrintAll, Sse.Concat, TypeOf;
    Sse.RoundTrip(Envelopes(events, encode), chunks);
  }

  /** The steps a subscription takes for the frames it reads; no replay is at hand. */
  function Steps(frames: seq<Sse.Frame>, decode: string -> Event): seq<ReplicatedLog.Step> {
    seq(|frames|, i requires 0 <= i < |frames| => ReplicatedLog.Deliver(decode(frames[i].data), []))
  }

  function Deliveries(events: seq<Event>): seq<ReplicatedLog.Step> {
    seq(|events|, i requires 0 <= i < |events| => ReplicatedLog.Deliver(events[i], []))
  }

  /** Consecutive events arrive without a gap. */
  lemma {:induction false} TakesAll(origin: ReplicatedLog.Sub, log: seq<Event>, count: nat)
    requires ReplicatedLog.IsLog(origin.view.run, log) && origin.active && ReplicatedLog.Prefix(origin, log, origin)
    requires origin.view.last + count <= |log|
    ensures var s := ReplicatedLog.Run(origin, Deliveries(log[origin.view.last..origin.view.last + count]));
            && ReplicatedLog.Prefix(origin, log, s) && s.active && s.view.run == origin.view.run
            && s.view.last == origin.view.last + count
  {
    hide ReplicatedLog.Prefix, ReplicatedLog.Apply, ReplicatedLog.IsLog, ReplicatedLog.Recover;
    var start := origin.view.last;
    var steps := Deliveries(log[start..start + count]);
    if count > 0 {
      TakesAll(origin, log, count - 1);
      assert steps[..count - 1] == Deliveries(log[start..start + count - 1]);
      var s := ReplicatedLog.Run(origin, steps[..count - 1]);
      var e := log[start + count - 1];
      assert ReplicatedLog.InLog(log, e) && e.sequence == start + count && e.run == s.view.run
        by { EntryIs(s.view.run, log, start + count - 1); }
      ReplicatedLog.ApplyPrefix(origin, log, s, e);
      ReplicatedLog.ApplyActive(s, e);
      assert steps[count - 1] == ReplicatedLog.Deliver(e, []);
    }
  }

  lemma EntryIs(run: string, log: seq<Event>, i: nat)
    requires ReplicatedLog.IsLog(run, log) && i < |log|
    ensures log[i].sequence == i + 1 && log[i].run == run && ReplicatedLog.InLog(log, log[i])
  {
  }

  /** Main result: however the log grows between the gateway's polls and however
      the wire cuts the text, a subscription that reads the stream from its cursor
      holds the fold of exactly the log entries behind that cursor that the
      gateway yielded, without any replay. */
  lemma {:induction false} StreamedViewIsLogPrefix(initial: View, log: seq<Event>, polls: seq<Gateway.Poll>,
                                encode: Event -> string, decode: string -> Event, chunks: seq<string>)
    requires ReplicatedLog.IsLog(initial.run, log) && initial.last <= |log|
    requires forall i :: 0 <= i < |polls| ==> Gateway.Shows(polls[i].rows, log)
    requires Faithful(encode, decode)
    requires Sse.Concat(chunks) == Sse.PrintAll(Envelopes(Gateway.Stream(polls, initial.last, None).yielded, encode))
    ensures var m := Gateway.Stream(polls, initial.last, None);
            var origin := ReplicatedLog.Open(initial, None, true);
            var s := ReplicatedLog.Run(origin, Steps(Sse.Frames(Sse.Concat(chunks)), decode));
            && ReplicatedLog.Prefix(origin, log, s) && s.active && s.view.last == m.cursor
            && s.view == Fold(initial, log[initial.last..m.cursor])
  {
    hide Sse.Frames, Gateway.Stream, Sse.PrintAll, Sse.Concat, Fold, ReplicatedLog.Run, ReplicatedLog.IsLog;
    hide Gateway.Shows;
    var m := Gateway.Stream(polls, initial.last, None);
    Gateway.StreamIsRun(initial.run, log, polls, initial.last, None);
    var envelopes := Envelopes(m.yielded, encode);
    Sse.RoundTrip(envelopes, chunks);
    var origin := ReplicatedLog.Open(initial, None, true);
    assert origin.view == initial;
    var frames := Sse.Frames(Sse.Concat(chunks));
    assert Steps(frames, decode) == Deliveries(m.yielded);
    if m.yielded == [] {
      assert m.yielded == log[initial.last..initial.last + 0];
    }
    ReplicatedLog.OpenPrefix(initial, None, true, log);
    TakesAll(origin, log, |m.yielded|);
  }
}
