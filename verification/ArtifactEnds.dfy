/** How an execution of the persistence action ends, and what becomes of the
    resource it works on, told from its fate. */
module ArtifactEnds {
  import opened Options
  import opened Artifacts

  /** What becomes of a staged resource, given what the first sweep of it found. */
  function Becomes(id: nat, swept: Option<bool>, fate: Fate): (Status, End) {
    match swept
    case Some(true) => (Active, Returned(id))
    case Some(false) => (Orphaned, Raised)
    case None =>
      if fate.crash == BeforeActivation then (Staging, Died)
      else if fate.intact then (Active, Returned(id)) else (Orphaned, Raised)
  }

  /** There is a resource of the kind to go on with: an active one, or a staged one
      that no sweep has touched between the two reads. */
  predicate GoesOnWith(read: Store, kind: string, fate: Fate, id: nat) {
    && id < |read| && read[id].kind == kind
    && (read[id].status == Active || (read[id].status == Staging && FirstSweep(fate.between, id).None?))
  }

  lemma ActivateIs(store: Store, id: nat, swept: Option<bool>, fate: Fate)
    requires id < |store|
    requires store[id].status == match swept case None => Staging
      case Some(intact) => if intact then Active else Orphaned
    ensures var x := Activate(store, id, fate);
            && |x.store| == |store| && (x.store[id].status, x.end) == Becomes(id, swept, fate)
            && x.store[id].kind == store[id].kind && forall j :: 0 <= j < |store| && j != id ==> x.store[j] == store[j]
  {
  }

  /** Main result: an active resource of the kind is returned at once; a staged one
      is finished as its fate decides; nothing is added, and every other resource is
      as the sweeps left it. */
  lemma {:induction false} GoesOnExactly(read: Store, kind: string, fate: Fate, id: nat)
    requires OneLive(read) && GoesOnWith(read, kind, fate, id)
    ensures var x, swept := Persist(read, kind, fate), SweptAll(read, fate.between);
            && |x.store| == |read| == |swept|
            && (x.store[id].status, x.end) ==
                 (if read[id].status == Active then (Active, Returned(id)) else Becomes(id, None, fate))
            && forall j :: 0 <= j < |read| && j != id ==> x.store[j] == swept[j]
  {
    hide Reuse, Activate, SweptAll, FirstSweep, LiveIds;
    var store := SweptAll(read, fate.between);
    SweptSame(read, fate.between);
    LiveIdsAre(read, kind);
    assert id in LiveIds(read, kind);
    ReuseFound(read, store, kind, id, fate);
    if read[id].status == Staging {
      FirstSweepDecides(read, fate.between, id);
      ActivateIs(store, id, None, fate);
    }
  }

  /** Main result: with nothing to go on with, an execution that gets so far adds
      one resource of the kind, which becomes what its fate decides. */
  lemma {:induction false} StagesExactly(read: Store, kind: string, fate: Fate)
    requires OneLive(read) && forall id: nat :: !GoesOnWith(read, kind, fate, id)
    ensures var x, n := Persist(read, kind, fate), |read|;
            if fate.crash == BeforeStaging then x == Execution(SweptAll(read, fate.between), Died)
            else
              && |x.store| == n + 1 && x.store[n].kind == kind
              && (x.store[n].status, x.end) == Becomes(n, FirstSweep(fate.during, n), fate)
              && var staged := SweptAll(read, fate.between) + [Resource(kind, Staging)];
                 && |SweptAll(staged, fate.during)| == n + 1
                 && forall j :: 0 <= j < n ==> x.store[j] == SweptAll(staged, fate.during)[j]
  {
    hide Reuse, Activate, SweptAll, FirstSweep, LiveIds;
    var store := SweptAll(read, fate.between);
    SweptSame(read, fate.between);
    LiveIdsAre(read, kind);
    if LiveIds(read, kind) == [] {
      NothingToReuse(read, store, kind, fate);
    } else {
      var id := LiveIds(read, kind)[0];
      assert id in LiveIds(read, kind);
      assert !GoesOnWith(read, kind, fate, id);
      ReuseFound(read, store, kind, id, fate);
      FirstSweepDecides(read, fate.between, id);
    }
    if fate.crash != BeforeStaging {
      var more := store + [Resource(kind, Staging)];
      SweptSame(more, fate.during);
      FirstSweepDecides(more, fate.during, |read|);
      ActivateIs(SweptAll(more, fate.during), |read|, FirstSweep(fate.during, |read|), fate);
    }
  }

  /** The first sweep of a resource is the first in the list that names it. */
  lemma {:induction false} FirstSweepIs(sweeps: seq<Sweep>, id: nat)
    ensures FirstSweep(sweeps, id).None? <==> forall s :: s in sweeps ==> s.id != id
    ensures FirstSweep(sweeps, id).Some? ==>
              exists i :: 0 <= i < |sweeps| && sweeps[i] == Sweep(id, FirstSweep(sweeps, id).value)
                          && forall j :: 0 <= j < i ==> sweeps[j].id != id
  {
    if sweeps != [] {
      var front := sweeps[..|sweeps| - 1];
      FirstSweepIs(front, id);
      if FirstSweep(front, id).Some? {
        var i :| 0 <= i < |front| && front[i] == Sweep(id, FirstSweep(front, id).value)
          && forall j :: 0 <= j < i ==> front[j].id != id;
        assert sweeps[i] == front[i];
        forall j | 0 <= j < i ensures sweeps[j].id != id {
          assert front[j].id != id;
        }
        assert sweeps[i] in sweeps;
      } else {
        assert forall j :: 0 <= j < |front| ==> front[j] in front && sweeps[j] == front[j];
      }
    }
  }

  /** Nothing cuts the execution off and the bytes verify. */
  predicate Undisturbed(fate: Fate) {
    fate.between == [] && fate.during == [] && fate.crash == NoCrash && fate.intact
  }

  /** An undisturbed fan-out returns for every producer, whatever was left over before. */
  lemma {:induction false} UndisturbedReturns(store: Store, producers: set<string>, fates: nat -> Fate, i: nat)
    requires OneLive(store) && forall k :: Undisturbed(fates(k))
    ensures FanoutReturns(store, producers, fates, i)
    decreases |FanoutKinds| - i
  {
    hide Persist;
    if i < |FanoutKinds| {
      var kind, fate := FanoutKinds[i].1, fates(i);
      if id: nat :| GoesOnWith(store, kind, fate, id) {
        GoesOnExactly(store, kind, fate, id);
      } else {
        StagesExactly(store, kind, fate);
      }
      assert OneLive(Persist(store, kind, fate).store) by {
        AtomicNotUnderneath(store, kind, fate);
        PersistKeepsOne(store, kind, fate);
      }
      UndisturbedReturns(store, producers, fates, i + 1);
      UndisturbedReturns(Persist(store, kind, fate).store, producers, fates, i + 1);
    }
  }

  // ------------------------------------------------ the kinds

  /** Main result: a fan-out persists, for each producer present and in the order of
      the table, the kind its node is named after. */
  lemma {:induction false} KindsAreNamed()
    ensures |FanoutKinds| == 7
    ensures forall i :: 0 <= i < |FanoutKinds| ==> FanoutKinds[i].0 == "resource_" + FanoutKinds[i].1
    ensures seq(7, i requires 0 <= i < 7 => FanoutKinds[i].1) ==
              ["doc", "ppt", "mindmap", "quiz", "lab", "video", "readings"]
  {
    assert "resource_" + "doc" == "resource_doc" && "resource_" + "ppt" == "resource_ppt";
    assert "resource_" + "mindmap" == "resource_mindmap" && "resource_" + "quiz" == "resource_quiz";
    assert "resource_" + "lab" == "resource_lab" && "resource_" + "video" == "resource_video";
    assert "resource_" + "readings" == "resource_readings";
  }

  /** A kind is wanted exactly if the producer of it is present. */
  lemma {:induction false} WantedIs(kinds: seq<(string, string)>, producers: set<string>, k: string)
    ensures k in Wanted(kinds, producers) <==>
              exists i :: 0 <= i < |kinds| && kinds[i].0 in producers && kinds[i].1 == k
  {
    if kinds != [] {
      var front := kinds[..|kinds| - 1];
      WantedIs(front, producers, k);
      if i :| 0 <= i < |kinds| && kinds[i].0 in producers && kinds[i].1 == k {
        assert i < |front| ==> front[i] == kinds[i];
      }
      if i :| 0 <= i < |front| && front[i].0 in producers && front[i].1 == k {
        assert kinds[i] == front[i];
      }
    }
  }

  /** In the order of the table. */
  lemma {:induction false} WantedInOrder(kinds: seq<(string, string)>, producers: set<string>)
    requires kinds != []
    ensures Wanted(kinds, producers)
         == (if kinds[0].0 in producers then [kinds[0].1] else []) + Wanted(kinds[1..], producers)
  {
    if |kinds| > 1 {
      WantedInOrder(kinds[..|kinds| - 1], producers);
      assert kinds[..|kinds| - 1][1..] == kinds[1..][..|kinds[1..]| - 1];
      assert kinds[1..][|kinds[1..]| - 1] == kinds[|kinds| - 1];
    } else {
      assert kinds[..0] == [] && kinds[1..] == [];
    }
  }
}
