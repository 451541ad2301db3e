/** What one replay returns, entry by entry, and what the stream yields of any
    events at all, in order or not. */
module GatewayPages {
  import opened Options
  import opened RunView
  import opened ReplicatedLog
  import opened Gateway

  /** Entry `after + k` is on the page: at most ten thousand entries behind the
      cursor, nothing hidden up to it, and within the bound. */
  predicate OnPage(rows: seq<Row>, after: nat, until: Option<nat>, k: nat) {
    && k < 10_000 && after + k < |rows|
    && (forall i :: after <= i <= after + k ==> rows[i].ready)
    && (until.None? || after + k + 1 <= until.value)
  }

  lemma PageIs(rows: seq<Row>, after: nat)
    ensures |Page(rows, after)| ==
              if after >= |rows| then 0 else if |rows| - after <= 10_000 then |rows| - after else 10_000
    ensures forall i :: 0 <= i < |Page(rows, after)| ==> Page(rows, after)[i] == rows[after + i]
  {
  }

  /** Main result: a replay is exactly the log entries on its page, in order. */
  lemma {:induction false} ReplayExactly(run: string, log: seq<Event>, rows: seq<Row>, after: nat, until: Option<nat>)
    requires IsLog(run, log) && Shows(rows, log)
    ensures var r := Replay(rows, after, until);
            && (forall k: nat :: k < |r| <==> OnPage(rows, after, until, k))
            && (forall k :: 0 <= k < |r| ==> after + k < |log| && r[k] == log[after + k])
  {
    var page, ready := Page(rows, after), ReadyPrefix(Page(rows, after));
    PageIs(rows, after);
    ReadyPrefixIs(page);
    hide Page, ReadyPrefix;
    UpToIsPrefix(ready, after + 1, until);
    var r := Replay(rows, after, until);
    assert |ready| < |page| ==> rows[after + |ready|] == page[|ready|] && !page[|ready|].ready;
    hide UpTo;
    forall k: nat ensures k < |r| <==> OnPage(rows, after, until, k) {
      if k < |r| {
        assert r[k].sequence == after + k + 1;
        assert forall i :: after <= i <= after + k ==> rows[i] == page[i - after] && page[i - after].ready;
      }
    }
  }

  /** Filtering by the bound keeps what is within it, in order. */
  predicate Within(e: Event, until: Option<nat>) {
    until.None? || e.sequence <= until.value
  }

  lemma {:induction false} UpToAppends(a: seq<Event>, b: seq<Event>, until: Option<nat>)
    ensures UpTo(a + b, until) == UpTo(a, until) + UpTo(b, until)
  {
    if a == [] {
      assert a + b == b;
    } else {
      UpToAppends(a[1..], b, until);
      assert (a + b)[1..] == a[1..] + b;
    }
  }

  lemma {:induction false} UpToFilters(a: seq<Event>, e: Event, b: seq<Event>, until: Option<nat>)
    ensures UpTo(a + [e] + b, until) == UpTo(a, until) + (if Within(e, until) then [e] else []) + UpTo(b, until)
  {
    UpToAppends(a, [e], until);
    UpToAppends(a + [e], b, until);
    assert [e][1..] == [] && [e] + UpTo([], until) == [e];
  }

  /** What is yielded rises strictly from the cursor on, the cursor is its last, and
      the stream is done exactly at a last event that ends it. */
  ghost predicate Rises(events: seq<Event>, cursor: nat, until: Option<nat>, m: Emission) {
    && m.cursor == (if m.yielded == [] then cursor else m.yielded[|m.yielded| - 1].sequence) && m.cursor >= cursor
    && (forall i :: 0 <= i < |m.yielded| ==> m.yielded[i] in events && cursor < m.yielded[i].sequence <= m.cursor)
    && (forall i, j :: 0 <= i < j < |m.yielded| ==> m.yielded[i].sequence < m.yielded[j].sequence)
    && (!m.done ==> forall e :: e in events ==> e.sequence <= m.cursor)
    && (forall i :: 0 <= i < |m.yielded| ==>
          (Terminal(m.yielded[i]) || Reached(m.yielded[i].sequence, until) <==> m.done && i == |m.yielded| - 1))
    && (m.done ==> m.yielded != [])
  }

  lemma RisesOn(e: Event, events: seq<Event>, cursor: nat, until: Option<nat>, rest: Emission)
    requires e.sequence > cursor && !Terminal(e) && !Reached(e.sequence, until)
    requires Rises(events, e.sequence, until, rest)
    ensures Rises([e] + events, cursor, until, Later([e], rest))
  {
    hide Terminal, Reached;
    var m := Later([e], rest);
    assert forall i :: 0 < i < |m.yielded| ==> m.yielded[i] == rest.yielded[i - 1];
  }

  /** Whatever a poll hands over, repeats and older events included, what is yielded rises. */
  lemma {:induction false} EmitRises(events: seq<Event>, cursor: nat, until: Option<nat>)
    ensures Rises(events, cursor, until, Emit(events, cursor, until))
  {
    if events != [] {
      var e := events[0];
      assert events == [e] + events[1..];
      if e.sequence <= cursor {
        EmitRises(events[1..], cursor, until);
      } else if !(Terminal(e) || Reached(e.sequence, until)) {
        hide Rises;
        EmitRises(events[1..], e.sequence, until);
        RisesOn(e, events[1..], cursor, until, Emit(events[1..], e.sequence, until));
      }
    }
  }
}
