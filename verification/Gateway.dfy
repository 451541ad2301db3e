/** The event stream a gateway serves: replay from the cursor, poll for more,
    stop behind a terminal event or the requested bound. */
module Gateway {
  import opened Options
  import opened RunView
  import opened ReplicatedLog

  /** A stored event; a staged artifact's event has its sequence but is not ready. */
  datatype Row = Row(event: Event, ready: bool)

  /** What one poll reads: the rows, and whether the root's status is terminal. */
  datatype Poll = Poll(rows: seq<Row>, ended: bool)

  predicate Terminal(e: Event) {
    e.payload.DonePayload? || e.payload.ErrorPayload?
  }

  const PAGE := 10_000

  // ------------------------------------------------ replay

  function ReadyPrefix(rows: seq<Row>): seq<Event> {
    if rows == [] || !rows[0].ready then [] else [rows[0].event] + ReadyPrefix(rows[1..])
  }

  function Page(rows: seq<Row>, after: nat): seq<Row> {
    if after >= |rows| then [] else if |rows| - after <= PAGE then rows[after..] else rows[after..after + PAGE]
  }

  function UpTo(events: seq<Event>, until: Option<nat>): seq<Event> {
    if events == [] then []
    else if until.None? || events[0].sequence <= until.value then [events[0]] + UpTo(events[1..], until)
    else UpTo(events[1..], until)
  }

  function Replay(rows: seq<Row>, after: nat, until: Option<nat>): seq<Event> {
    UpTo(ReadyPrefix(Page(rows, after)), until)
  }

  /** The contiguous ready prefix of a page, row by row. */
  method ReplayEvents(rows: seq<Row>, after: nat) returns (visible: seq<Event>)
    ensures visible == ReadyPrefix(Page(rows, after))
  {
    var page := Page(rows, after);
    visible := [];
    assert page[0..] == page;
    for i := 0 to |page|
      invariant visible + ReadyPrefix(page[i..]) == ReadyPrefix(page)
    {
      assert page[i..][1..] == page[i + 1..];
      if !page[i].ready {
        return;
      }
      assert visible + ([page[i].event] + ReadyPrefix(page[i + 1..]))
        == visible + [page[i].event] + ReadyPrefix(page[i + 1..]);
      visible := visible + [page[i].event];
    }
  }

  // ------------------------------------------------ the stream

  /** What has been yielded, where the cursor stands, and whether the stream returned. */
  datatype Emission = Emission(yielded: seq<Event>, cursor: nat, done: bool)

  predicate Reached(cursor: nat, until: Option<nat>) {
    until.Some? && cursor >= until.value
  }

  function Emit(events: seq<Event>, cursor: nat, until: Option<nat>): Emission {
    if events == [] then Emission([], cursor, false)
    else
      var e := events[0];
      if e.sequence <= cursor then Emit(events[1..], cursor, until)
      else if Terminal(e) || Reached(e.sequence, until) then Emission([e], e.sequence, true)
      else
        var rest := Emit(events[1..], e.sequence, until);
        rest.(yielded := [e] + rest.yielded)
  }

  /** The stream over successive polls; unfinished when the polls run out. */
  function Stream(polls: seq<Poll>, cursor: nat, until: Option<nat>): Emission {
    if polls == [] then Emission([], cursor, false)
    else
      var events := Replay(polls[0].rows, cursor, until);
      if events != [] then
        var now := Emit(events, cursor, until);
        if now.done then now
        else
          var rest := Stream(polls[1..], now.cursor, until);
          rest.(yielded := now.yielded + rest.yielded)
      // a terminal status is waited out before the bound is looked at
      else if !polls[0].ended && Reached(cursor, until) then Emission([], cursor, true)
      else Stream(polls[1..], cursor, until)
  }

  /** The generator: its cursor moves with every yielded event. */
  method RunStream(polls: seq<Poll>, after: nat, until: Option<nat>) returns (yielded: seq<Event>, done: bool)
    ensures Stream(polls, after, until) == Emission(yielded, Stream(polls, after, until).cursor, done)
  {
    hide Replay, Emit;
    yielded, done := [], false;
    var cursor, i := after, 0;
    assert polls[0..] == polls;
    while i < |polls|
      invariant 0 <= i <= |polls|
      invariant Stream(polls, after, until) == Later(yielded, Stream(polls[i..], cursor, until))
    {
      assert polls[i..][0] == polls[i] && polls[i..][1..] == polls[i + 1..];
      var visible := ReplayEvents(polls[i].rows, cursor);
      var events := UpTo(visible, until);
      assert events == Replay(polls[i].rows, cursor, until) by { ReplayIs(polls[i].rows, cursor, until); }
      if events != [] {
        var more, ended, next := YieldAll(events, cursor, until);
        LaterTwice(yielded, more, Stream(polls[i + 1..], next, until));
        yielded, cursor := yielded + more, next;
        if ended {
          return yielded, true;
        }
      } else if !polls[i].ended && Reached(cursor, until) {
        return yielded, true;
      }
      i := i + 1;
    }
  }

  lemma ReplayIs(rows: seq<Row>, after: nat, until: Option<nat>)
    ensures Replay(rows, after, until) == UpTo(ReadyPrefix(Page(rows, after)), until)
  {
  }

  function Later(yielded: seq<Event>, rest: Emission): Emission {
    rest.(yielded := yielded + rest.yielded)
  }

  lemma LaterTwice(a: seq<Event>, b: seq<Event>, rest: Emission)
    ensures Later(a + b, rest) == Later(a, Later(b, rest))
  {
    assert a + b + rest.yielded == a + (b + rest.yielded);
  }

  method YieldAll(events: seq<Event>, after: nat, until: Option<nat>)
    returns (yielded: seq<Event>, done: bool, cursor: nat)
    ensures Emit(events, after, until) == Emission(yielded, cursor, done)
  {
    yielded, done, cursor := [], false, after;
    assert events[0..] == events;
    var i := 0;
    while i < |events|
      invariant 0 <= i <= |events|
      invariant Emit(events, after, until) == Later(yielded, Emit(events[i..], cursor, until))
    {
      var e := events[i];
      assert events[i..][0] == e && events[i..][1..] == events[i + 1..];
      if e.sequence > cursor {
        LaterTwice(yielded, [e], Emit(events[i + 1..], e.sequence, until));
        cursor := e.sequence;
        yielded := yielded + [e];
        if Terminal(e) || Reached(cursor, until) {
          return yielded, true, cursor;
        }
      }
      i := i + 1;
    }
  }

  // ------------------------------------------------ exactness

  /** Ready rows hold the log's entries; a hidden row may be rewritten before it is published. */
  predicate Shows(rows: seq<Row>, log: seq<Event>) {
    |rows| <= |log| && forall i :: 0 <= i < |rows| && rows[i].ready ==> rows[i].event == log[i]
  }

  /** A gap-free piece of the log behind `cursor`, ending at the first terminal event or the bound. */
  ghost predicate IsPiece(log: seq<Event>, after: nat, until: Option<nat>, m: Emission) {
    && m.cursor == after + |m.yielded|
    && (m.yielded != [] ==> m.cursor <= |log| && m.yielded == log[after..m.cursor])
    && (forall i :: 0 <= i < |m.yielded| - 1 ==> !Terminal(m.yielded[i]) && !Reached(m.yielded[i].sequence, until))
    && (m.yielded != [] ==> (m.done <==> Terminal(m.yielded[|m.yielded| - 1]) || Reached(m.cursor, until)))
    && (m.yielded == [] && m.done ==> Reached(after, until))
  }

  lemma {:induction false} ReadyPrefixIs(rows: seq<Row>)
    ensures |ReadyPrefix(rows)| <= |rows|
    ensures forall i :: 0 <= i < |ReadyPrefix(rows)| ==> rows[i].ready && ReadyPrefix(rows)[i] == rows[i].event
    ensures |ReadyPrefix(rows)| < |rows| ==> !rows[|ReadyPrefix(rows)|].ready
  {
    if rows != [] && rows[0].ready {
      ReadyPrefixIs(rows[1..]);
      forall i | 0 < i < |ReadyPrefix(rows)| ensures rows[i].ready && ReadyPrefix(rows)[i] == rows[i].event {
        assert rows[1..][i - 1] == rows[i];
      }
    }
  }

  /** Filtering consecutive sequences by a bound keeps a prefix. */
  lemma {:induction false} UpToIsPrefix(events: seq<Event>, first: nat, until: Option<nat>)
    requires forall i :: 0 <= i < |events| ==> events[i].sequence == first + i
    ensures var r := UpTo(events, until);
            && |r| <= |events| && r == events[..|r|]
            && (forall i :: 0 <= i < |r| ==> until.None? || r[i].sequence <= until.value)
            && (|r| < |events| ==> until.Some? && first + |r| > until.value)
  {
    if events != [] {
      assert forall i :: 0 <= i < |events| - 1 ==> events[1..][i].sequence == first + 1 + i;
      UpToIsPrefix(events[1..], first + 1, until);
      if until.Some? && first > until.value {
        UpToNothing(events, first, until);
      } else {
        var rest := UpTo(events[1..], until);
        assert events[..1 + |rest|] == [events[0]] + events[1..][..|rest|];
      }
    }
  }

  lemma {:induction false} UpToNothing(events: seq<Event>, first: nat, until: Option<nat>)
    requires until.Some? && first > until.value && forall i :: 0 <= i < |events| ==> events[i].sequence == first + i
    ensures UpTo(events, until) == []
  {
    if events != [] {
      assert forall i :: 0 <= i < |events| - 1 ==> events[1..][i].sequence == first + 1 + i;
      UpToNothing(events[1..], first + 1, until);
    }
  }

  /** A replay is the ready part of the log right behind the cursor, within the bound. */
  lemma ReplayIsRun(run: string, log: seq<Event>, rows: seq<Row>, after: nat, until: Option<nat>)
    requires IsLog(run, log) && Shows(rows, log)
    ensures var r := Replay(rows, after, until);
            && (r != [] ==> after + |r| <= |rows| && r == log[after..after + |r|])
            && (after < |rows| && rows[after].ready && !Reached(after, until) ==> r != [])
            && (r == [] ==> Reached(after, until) || after >= |rows| || !rows[after].ready)
  {
    var page := Page(rows, after);
    ReadyPrefixIs(page);
    var ready := ReadyPrefix(page);
    assert forall i :: 0 <= i < |page| ==> page[i] == rows[after + i];
    forall i | 0 <= i < |ready| ensures ready[i] == log[after + i] && ready[i].sequence == after + 1 + i {
      assert page[i].event == log[after + i];
    }
    UpToIsPrefix(ready, after + 1, until);
    var r := Replay(rows, after, until);
    if r != [] {
      assert r == log[after..after + |r|];
    }
  }

  lemma {:induction false} EmitIsRun(run: string, log: seq<Event>, events: seq<Event>, cursor: nat, until: Option<nat>)
    requires IsLog(run, log) && cursor + |events| <= |log| && events == log[cursor..cursor + |events|]
    ensures IsPiece(log, cursor, until, Emit(events, cursor, until))
    ensures events != [] ==> Emit(events, cursor, until).yielded != []
    decreases |events|
  {
    if events != [] {
      var e := events[0];
      assert e == log[cursor] && e.sequence == cursor + 1;
      var whole, rest := Emit(events, cursor, until), Emit(events[1..], cursor + 1, until);
      if Terminal(e) || Reached(e.sequence, until) {
        assert whole == Emission([e], cursor + 1, true);
      } else {
        assert whole == Later([e], rest);
        hide Emit;
        assert events[1..] == log[cursor + 1..cursor + 1 + |events[1..]|];
        EmitIsRun(run, log, events[1..], cursor + 1, until);
        RunPrepends(log, cursor, until, [e], rest);
      }
    }
  }

  lemma RunPrepends(log: seq<Event>, after: nat, until: Option<nat>, first: seq<Event>, rest: Emission)
    requires first != [] && after + |first| <= |log| && first == log[after..after + |first|]
    requires forall i :: 0 <= i < |first| ==> !Terminal(first[i]) && !Reached(first[i].sequence, until)
    requires first[|first| - 1].sequence == after + |first|
    requires IsPiece(log, after + |first|, until, rest)
    ensures IsPiece(log, after, until, Later(first, rest))
  {
    var m := Later(first, rest);
    if rest.yielded == [] {
      assert m.yielded == first;
    } else {
      var middle := after + |first|;
      assert log[after..m.cursor] == log[after..middle] + log[middle..m.cursor];
      forall i | 0 <= i < |m.yielded| - 1 ensures !Terminal(m.yielded[i]) && !Reached(m.yielded[i].sequence, until) {
        if i < |first| {
          assert m.yielded[i] == first[i];
        } else {
          assert m.yielded[i] == rest.yielded[i - |first|];
        }
      }
    }
  }

  /** Main result: however the log grows between polls, the stream yields a
      gap-free piece of it right behind the cursor, it never goes past the first
      terminal event or the bound, and once it has yielded anything it returns
      exactly when it has reached one of the two. */
  lemma {:induction false} StreamIsRun(run: string, log: seq<Event>, polls: seq<Poll>, after: nat, until: Option<nat>)
    requires IsLog(run, log) && forall i :: 0 <= i < |polls| ==> Shows(polls[i].rows, log)
    ensures IsPiece(log, after, until, Stream(polls, after, until))
    decreases |polls|
  {
    hide Replay, Emit;
    if polls != [] {
      var events := Replay(polls[0].rows, after, until);
      ReplayIsRun(run, log, polls[0].rows, after, until);
      if events != [] {
        EmitIsRun(run, log, events, after, until);
        var now := Emit(events, after, until);
        if !now.done {
          StreamIsRun(run, log, polls[1..], now.cursor, until);
          RunPrepends(log, after, until, now.yielded, Stream(polls[1..], now.cursor, until));
        }
      } else {
        StreamIsRun(run, log, polls[1..], after, until);
      }
    }
  }

  /** With the bound already reached there is nothing to replay, and the stream
      returns at the first poll that finds the root still going. */
  lemma {:induction false} BoundReached(run: string, log: seq<Event>, polls: seq<Poll>, after: nat, until: Option<nat>)
    requires IsLog(run, log) && Reached(after, until) && forall i :: 0 <= i < |polls| ==> Shows(polls[i].rows, log)
    ensures Stream(polls, after, until) == Emission([], after, exists i :: 0 <= i < |polls| && !polls[i].ended)
    decreases |polls|
  {
    hide Replay;
    if polls != [] {
      assert forall i :: 0 <= i < |polls| - 1 ==> polls[1..][i] == polls[i + 1];
      NothingBeyond(run, log, polls[0].rows, after, until);
      BoundReached(run, log, polls[1..], after, until);
      if polls[0].ended && exists i :: 0 <= i < |polls| && !polls[i].ended {
        var i :| 0 <= i < |polls| && !polls[i].ended;
        assert !polls[1..][i - 1].ended;
      }
    }
  }

  lemma NothingBeyond(run: string, log: seq<Event>, rows: seq<Row>, after: nat, until: Option<nat>)
    requires IsLog(run, log) && Shows(rows, log) && Reached(after, until)
    ensures Replay(rows, after, until) == []
  {
    var page := Page(rows, after);
    ReadyPrefixIs(page);
    assert forall i :: 0 <= i < |page| ==> page[i] == rows[after + i];
    UpToNothing(ReadyPrefix(page), after + 1, until);
  }

  /** How far the ready rows that successive polls show lead on from a cursor. */
  function Shown(polls: seq<Poll>, cursor: nat): nat {
    if polls == [] then cursor else Shown(polls[1..], cursor + |ReadyPrefix(Page(polls[0].rows, cursor))|)
  }

  /** A stream goes no further than sequence `p`. */
  predicate StopsAt(log: seq<Event>, until: Option<nat>, p: nat) {
    0 < p <= |log| && (Terminal(log[p - 1]) || Reached(p, until))
  }

  /** What is asked for behind `after` has an end, and the polls show it. */
  predicate EndShown(log: seq<Event>, polls: seq<Poll>, after: nat, until: Option<nat>) {
    exists p :: after < p <= Shown(polls, after) && StopsAt(log, until, p)
  }

  lemma {:induction false} ShownGrows(polls: seq<Poll>, cursor: nat)
    ensures Shown(polls, cursor) >= cursor
    decreases |polls|
  {
    if polls != [] {
      ShownGrows(polls[1..], cursor + |ReadyPrefix(Page(polls[0].rows, cursor))|);
    }
  }

  /** A replay leaves ready rows of its page out only past the bound. */
  lemma ReplayShows(run: string, log: seq<Event>, rows: seq<Row>, after: nat, until: Option<nat>)
    requires IsLog(run, log) && Shows(rows, log)
    ensures var r, ready := Replay(rows, after, until), ReadyPrefix(Page(rows, after));
            |r| <= |ready| && (|r| < |ready| ==> Reached(after + |r|, until))
  {
    var page := Page(rows, after);
    ReadyPrefixIs(page);
    assert forall i :: 0 <= i < |page| ==> page[i] == rows[after + i];
    UpToIsPrefix(ReadyPrefix(page), after + 1, until);
  }

  /** Every event handed over is yielded, unless one of them ends the stream. */
  lemma {:induction false} EmitsAll(run: string, log: seq<Event>, events: seq<Event>, cursor: nat, until: Option<nat>)
    requires IsLog(run, log) && cursor + |events| <= |log| && events == log[cursor..cursor + |events|]
    ensures var m := Emit(events, cursor, until);
            |m.yielded| <= |events| && (!m.done ==> |m.yielded| == |events|)
    decreases |events|
  {
    if events != [] {
      assert events[0] == log[cursor];
      assert events[1..] == log[cursor + 1..cursor + 1 + |events[1..]|];
      EmitsAll(run, log, events[1..], cursor + 1, until);
    }
  }

  /** A piece holds no end before its last event, and one there exactly if it is done. */
  lemma PieceStops(log: seq<Event>, run: string, after: nat, until: Option<nat>, m: Emission)
    requires IsLog(run, log) && IsPiece(log, after, until, m) && m.yielded != []
    ensures forall p :: after < p < m.cursor ==> !StopsAt(log, until, p)
    ensures m.done <==> StopsAt(log, until, m.cursor)
  {
    assert m.yielded == log[after..m.cursor];
    forall p | after < p < m.cursor ensures !StopsAt(log, until, p) {
      assert m.yielded[p - after - 1] == log[p - 1];
    }
    assert m.yielded[|m.yielded| - 1] == log[m.cursor - 1];
  }

  /** Main result: exactly when a stream returns, read off the log and the polls.
      From a cursor that has reached the bound, when some poll finds the root not
      ended; from any other, when the polls show everything up to a terminal event
      or the bound. */
  lemma {:induction false} ReturnsExactly(run: string, log: seq<Event>, polls: seq<Poll>, after: nat,
                                          until: Option<nat>)
    requires IsLog(run, log) && forall i :: 0 <= i < |polls| ==> Shows(polls[i].rows, log)
    ensures Stream(polls, after, until).done <==>
              if Reached(after, until) then exists i :: 0 <= i < |polls| && !polls[i].ended
              else EndShown(log, polls, after, until)
    decreases |polls|
  {
    hide Replay, Emit, IsPiece, ReadyPrefix, Page, StopsAt, IsLog;
    if Reached(after, until) {
      BoundReached(run, log, polls, after, until);
    } else if polls != [] {
      var events, next := Replay(polls[0].rows, after, until), after + |ReadyPrefix(Page(polls[0].rows, after))|;
      ReplayIsRun(run, log, polls[0].rows, after, until);
      ReplayShows(run, log, polls[0].rows, after, until);
      if events == [] {
        assert next == after;
        ReturnsExactly(run, log, polls[1..], after, until);
      } else {
        EmitIsRun(run, log, events, after, until);
        EmitsAll(run, log, events, after, until);
        var now := Emit(events, after, until);
        PieceStops(log, run, after, until, now);
        PieceCursor(log, after, until, now);
        ShownGrows(polls[1..], next);
        if !now.done {
          NotReached(log, until, now.cursor);
          ReturnsExactly(run, log, polls[1..], next, until);
        }
      }
    }
  }

  lemma PieceCursor(log: seq<Event>, after: nat, until: Option<nat>, m: Emission)
    requires IsPiece(log, after, until, m)
    ensures m.cursor == after + |m.yielded| && (m.yielded != [] ==> m.cursor <= |log|)
  {
  }

  lemma NotReached(log: seq<Event>, until: Option<nat>, p: nat)
    requires 0 < p <= |log| && !StopsAt(log, until, p)
    ensures !Reached(p, until)
  {
  }

  /** A page of a finished run is ready as a whole. */
  lemma FinishedPage(rows: seq<Row>, after: nat)
    requires forall i :: 0 <= i < |rows| ==> rows[i].ready
    ensures |ReadyPrefix(Page(rows, after))|
         == if after + PAGE <= |rows| then PAGE else if after < |rows| then |rows| - after else 0
  {
    var page := Page(rows, after);
    assert forall i :: 0 <= i < |page| ==> page[i].ready;
    ReadyPrefixIs(page);
  }

  lemma ShownFirst(poll: Poll, polls: seq<Poll>, cursor: nat)
    ensures Shown([poll] + polls, cursor) == Shown(polls, cursor + |ReadyPrefix(Page(poll.rows, cursor))|)
  {
    assert ([poll] + polls)[1..] == polls;
  }

  /** Polls of a finished run lead on by a page each. */
  lemma {:induction false} FinishedShown(rows: seq<Row>, n: nat, after: nat)
    requires forall i :: 0 <= i < |rows| ==> rows[i].ready
    ensures Shown(seq(n, _ => Poll(rows, true)), after)
         == if after + n * PAGE <= |rows| then after + n * PAGE else if after < |rows| then |rows| else after
    decreases n
  {
    if n > 0 {
      hide Shown, Page, ReadyPrefix;
      var poll, rest := Poll(rows, true), seq(n - 1, _ => Poll(rows, true));
      assert seq(n, _ => Poll(rows, true)) == [poll] + rest;
      ShownFirst(poll, rest, after);
      FinishedPage(rows, after);
      FinishedShown(rows, n - 1, after + |ReadyPrefix(Page(rows, after))|);
    }
  }

  /** Main result: the stream of a finished run, polled often enough, returns if
      and only if it starts ahead of the last event and of the bound. */
  lemma {:induction false} FinishedReturns(run: string, log: seq<Event>, rows: seq<Row>, n: nat, after: nat,
                                           until: Option<nat>)
    requires IsLog(run, log) && |rows| == |log| && Shows(rows, log) && forall i :: 0 <= i < |rows| ==> rows[i].ready
    requires log != [] && Terminal(log[|log| - 1]) && |log| <= after + n * PAGE
    ensures Stream(seq(n, _ => Poll(rows, true)), after, until).done <==> after < |log| && !Reached(after, until)
  {
    hide Stream, Shown, IsLog;
    var polls := seq(n, _ => Poll(rows, true));
    ReturnsExactly(run, log, polls, after, until);
    FinishedShown(rows, n, after);
    if after < |log| {
      assert StopsAt(log, until, |log|);
    }
  }

  /** A poll that shows a ready event behind the cursor moves the cursor. */
  lemma PollAdvances(run: string, log: seq<Event>, poll: Poll, after: nat, until: Option<nat>)
    requires IsLog(run, log) && Shows(poll.rows, log) && after < |poll.rows| && poll.rows[after].ready
    requires !Reached(after, until)
    ensures Stream([poll], after, until).cursor > after
  {
    hide Replay, Emit;
    var events := Replay(poll.rows, after, until);
    ReplayIsRun(run, log, poll.rows, after, until);
    EmitIsRun(run, log, events, after, until);
    assert [poll][1..] == [];
    assert Stream([], Emit(events, after, until).cursor, until)
      == Emission([], Emit(events, after, until).cursor, false);
  }

  /** A stream resumed where a finished run ended never returns, bound or no
      bound: its polls find the status terminal and nothing left to replay. */
  lemma {:induction false} ResumedAtEndNeverReturns(rows: seq<Row>, polls: nat, until: Option<nat>)
    ensures Stream(seq(polls, _ => Poll(rows, true)), |rows|, until) == Emission([], |rows|, false)
  {
    var all := seq(polls, _ => Poll(rows, true));
    if polls > 0 {
      ResumedAtEndNeverReturns(rows, polls - 1, until);
      assert all[1..] == seq(polls - 1, _ => Poll(rows, true));
      assert Replay(rows, |rows|, until) == [];
    }
  }
}
