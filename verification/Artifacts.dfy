/** Artifact persistence: staging and activation in two commits, resumed after
    crashes, with a background sweeper that activates what was left staged. */
module Artifacts {
  import opened Options

  datatype Status = Staging | Active | Orphaned

  /** One generated resource together with its storage object; its id is its position. */
  datatype Resource = Resource(kind: string, status: Status)

  type Store = seq<Resource>

  predicate Live(r: Resource) { r.status in {Staging, Active} }

  // ------------------------------------------------ the environment

  /** The sweeper verifies one staged object and activates or orphans it. */
  datatype Sweep = Sweep(id: nat, intact: bool)

  function Swept(store: Store, s: Sweep): Store {
    if s.id < |store| && store[s.id].status == Staging
      then store[s.id := store[s.id].(status := if s.intact then Active else Orphaned)]
    else store
  }

  function SweptAll(store: Store, sweeps: seq<Sweep>): Store {
    if sweeps == [] then store else Swept(SweptAll(store, sweeps[..|sweeps| - 1]), sweeps[|sweeps| - 1])
  }

  /** Where one execution of the action is cut off, if it is. */
  datatype Crash = NoCrash | BeforeStaging | BeforeActivation

  /** What happens around one execution: sweeps between the lookup's two reads
      and between the two commits, the crash point, and whether the staged bytes
      still verify. */
  datatype Fate = Fate(between: seq<Sweep>, during: seq<Sweep>, crash: Crash, intact: bool)

  datatype End = Returned(id: nat) | Raised | Died

  datatype Execution = Execution(store: Store, end: End)

  // ------------------------------------------------ one execution

  /** Verify and activate; an object that is active already is left alone. */
  function Activate(store: Store, id: nat, fate: Fate): Execution
    requires id < |store|
  {
    if store[id].status == Active then Execution(store, Returned(id))
    else if store[id].status == Orphaned then Execution(store, Raised)
    else if fate.crash == BeforeActivation then Execution(store, Died)
    else if fate.intact then Execution(store[id := store[id].(status := Active)], Returned(id))
    else Execution(store[id := store[id].(status := Orphaned)], Raised)
  }

  /** The live resources of a kind, the newest first, as the first read finds them. */
  function LiveIds(store: Store, kind: string): seq<nat> {
    if store == [] then []
    else
      var k := |store| - 1;
      (if store[k].kind == kind && Live(store[k]) then [k] else []) + LiveIds(store[..k], kind)
  }

  /** Finish or reuse what an earlier execution left; `read` is the store as the
      rows were read, `store` as the storage objects are. */
  function Reuse(read: Store, store: Store, ids: seq<nat>, fate: Fate): Option<Execution>
    requires |read| == |store| && forall i :: 0 <= i < |ids| ==> ids[i] < |store|
    decreases |ids|
  {
    if ids == [] then None
    else if read[ids[0]].status == Active then Some(Execution(store, Returned(ids[0])))
    else if store[ids[0]].status == Staging then Some(Activate(store, ids[0], fate))
    else Reuse(read, store, ids[1..], fate)
  }

  function StageAndActivate(store: Store, kind: string, fate: Fate): Execution {
    if fate.crash == BeforeStaging then Execution(store, Died)
    else
      var committed := SweptAll(store + [Resource(kind, Staging)], fate.during);
      SweptSame(store + [Resource(kind, Staging)], fate.during);
      Activate(committed, |store|, fate)
  }

  function Persist(read: Store, kind: string, fate: Fate): Execution {
    var store := SweptAll(read, fate.between);
    SweptSame(read, fate.between);
    LiveIdsAre(read, kind);
    match Reuse(read, store, LiveIds(read, kind), fate)
    case Some(x) => x
    case None => StageAndActivate(store, kind, fate)
  }

  lemma {:induction false} SweptSame(store: Store, sweeps: seq<Sweep>)
    ensures var after := SweptAll(store, sweeps);
            && |after| == |store|
            && forall i :: 0 <= i < |store| ==>
                 after[i].kind == store[i].kind && (after[i].status == store[i].status || store[i].status == Staging)
    decreases |sweeps|
  {
    if sweeps != [] {
      SweptSame(store, sweeps[..|sweeps| - 1]);
    }
  }

  lemma {:induction false} LiveIdsAre(store: Store, kind: string)
    ensures forall i :: 0 <= i < |LiveIds(store, kind)| ==> LiveIds(store, kind)[i] < |store|
    ensures forall id: nat :: id in LiveIds(store, kind) <==> id < |store| && store[id].kind == kind && Live(store[id])
  {
    if store != [] {
      var k := |store| - 1;
      LiveIdsAre(store[..k], kind);
      forall id: nat ensures id in LiveIds(store, kind) <==> id < |store| && store[id].kind == kind && Live(store[id]) {
        if id < k {
          assert store[..k][id] == store[id];
        }
      }
    }
  }

  // ------------------------------------------------ at most one

  /** At most one resource of each kind is staged or active. */
  ghost predicate OneLive(store: Store) {
    forall i, j :: 0 <= i < j < |store| && Live(store[i]) && Live(store[j]) ==> store[i].kind != store[j].kind
  }

  /** What the first sweep of `id` finds, if there is one. */
  function FirstSweep(sweeps: seq<Sweep>, id: nat): Option<bool> {
    if sweeps == [] then None
    else
      var earlier := FirstSweep(sweeps[..|sweeps| - 1], id);
      if earlier.Some? || sweeps[|sweeps| - 1].id != id then earlier else Some(sweeps[|sweeps| - 1].intact)
  }

  lemma {:induction false} FirstSweepDecides(store: Store, sweeps: seq<Sweep>, id: nat)
    requires id < |store| && store[id].status == Staging
    ensures |SweptAll(store, sweeps)| == |store|
    ensures SweptAll(store, sweeps)[id].status ==
              match FirstSweep(sweeps, id) case None => Staging case Some(intact) => if intact then Active else Orphaned
  {
    SweptSame(store, sweeps);
    if sweeps != [] {
      SweptSame(store, sweeps[..|sweeps| - 1]);
      FirstSweepDecides(store, sweeps[..|sweeps| - 1], id);
    }
  }

  /** A resource of the kind is staged as the rows are read, and the sweeper
      activates it before the storage objects are. */
  predicate SweptUnderneath(read: Store, kind: string, between: seq<Sweep>) {
    exists id :: 0 <= id < |read| && read[id].kind == kind && read[id].status == Staging
      && FirstSweep(between, id) == Some(true)
  }

  /** A resource staged now as `id` goes live: its staging is committed, and either
      the sweeper activates it first, or it is left to this execution, which stops
      before the activation or finds the bytes intact. */
  predicate NewLives(fate: Fate, id: nat) {
    fate.crash != BeforeStaging &&
    match FirstSweep(fate.during, id)
    case Some(intact) => intact
    case None => fate.crash == BeforeActivation || fate.intact
  }

  lemma StagedLives(store: Store, kind: string, fate: Fate)
    ensures var after := StageAndActivate(store, kind, fate).store;
            |after| > |store| && Live(after[|store|]) <==> NewLives(fate, |store|)
  {
    var more := store + [Resource(kind, Staging)];
    assert more[|store|].status == Staging;
    SweptSame(more, fate.during);
    FirstSweepDecides(more, fate.during, |store|);
  }

  lemma SweepsKeepOne(store: Store, sweeps: seq<Sweep>)
    requires OneLive(store)
    ensures OneLive(SweptAll(store, sweeps))
  {
    SweptSame(store, sweeps);
  }

  lemma OnlyOne(ids: seq<nat>, id: nat)
    requires ids != [] && (forall i :: 0 <= i < |ids| ==> ids[i] == id)
    requires forall i, j :: 0 <= i < j < |ids| ==> ids[i] > ids[j]
    ensures ids == [id]
  {
    var last := |ids| - 1;
    assert ids[0] == id && ids[last] == id;
  }

  lemma ReuseFound(read: Store, store: Store, kind: string, id: nat, fate: Fate)
    requires OneLive(read) && |read| == |store| && id in LiveIds(read, kind)
    requires forall i :: 0 <= i < |LiveIds(read, kind)| ==> LiveIds(read, kind)[i] < |store|
    ensures Reuse(read, store, LiveIds(read, kind), fate)
         == if read[id].status == Active then Some(Execution(store, Returned(id)))
            else if store[id].status == Staging then Some(Activate(store, id, fate)) else None
  {
    hide Activate;
    LiveIdsAre(read, kind);
    var ids := LiveIds(read, kind);
    LiveIdsDistinct(read, kind);
    forall i | 0 <= i < |ids| ensures ids[i] == id {
      assert ids[i] in ids;
      assert read[ids[i]].kind == kind && Live(read[ids[i]]) && read[id].kind == kind && Live(read[id]);
    }
    OnlyOne(ids, id);
    assert ids[1..] == [];
  }

  lemma {:induction false} LiveIdsDistinct(store: Store, kind: string)
    ensures forall i, j :: 0 <= i < j < |LiveIds(store, kind)| ==> LiveIds(store, kind)[i] > LiveIds(store, kind)[j]
  {
    if store != [] {
      LiveIdsAre(store[..|store| - 1], kind);
      LiveIdsDistinct(store[..|store| - 1], kind);
    }
  }

  /** A resource added beside no live one of its kind. */
  lemma AddOne(store: Store, kind: string)
    requires OneLive(store) && forall i :: 0 <= i < |store| && Live(store[i]) ==> store[i].kind != kind
    ensures OneLive(store + [Resource(kind, Staging)])
  {
    var more := store + [Resource(kind, Staging)];
    assert forall i :: 0 <= i < |store| ==> more[i] == store[i];
  }

  lemma ActivateKeepsOne(store: Store, id: nat, fate: Fate)
    requires OneLive(store) && id < |store|
    ensures OneLive(Activate(store, id, fate).store)
  {
  }

  /** Main result: one execution, whatever it is cut off by, keeps at most one
      live resource per kind, unless the sweeper activates a staged one between
      the two reads and what is then staged beside it goes live. */
  lemma {:induction false} PersistKeepsOne(read: Store, kind: string, fate: Fate)
    requires OneLive(read)
    ensures OneLive(Persist(read, kind, fate).store)
      <==> !(SweptUnderneath(read, kind, fate.between) && NewLives(fate, |read|))
  {
    hide Reuse, Activate, NewLives, StageAndActivate, SweptAll, FirstSweep, LiveIds;
    var store := SweptAll(read, fate.between);
    SweptSame(read, fate.between);
    SweepsKeepOne(read, fate.between);
    LiveIdsAre(read, kind);
    if LiveIds(read, kind) != [] {
      var id := LiveIds(read, kind)[0];
      assert id in LiveIds(read, kind);
      ReuseFound(read, store, kind, id, fate);
      if read[id].status == Staging {
        FirstSweepDecides(read, fate.between, id);
      }
      if read[id].status == Active || store[id].status == Staging {
        ReuseKeeps(store, id, fate);
      } else if store[id].status == Active {
        StagedTwice(store, kind, id, fate);
        StagedLives(store, kind, fate);
      } else {
        StagedFresh(store, kind, fate);
      }
    } else {
      NothingToReuse(read, store, kind, fate);
      StagedFresh(store, kind, fate);
    }
  }

  lemma ReuseKeeps(store: Store, id: nat, fate: Fate)
    requires OneLive(store) && id < |store|
    ensures OneLive(Activate(store, id, fate).store) && |Activate(store, id, fate).store| == |store|
  {
  }

  lemma NothingToReuse(read: Store, store: Store, kind: string, fate: Fate)
    requires |read| == |store| && LiveIds(read, kind) == []
    ensures Reuse(read, store, LiveIds(read, kind), fate) == None
  {
  }

  lemma StagedFresh(store: Store, kind: string, fate: Fate)
    requires OneLive(store) && forall i :: 0 <= i < |store| && Live(store[i]) ==> store[i].kind != kind
    ensures OneLive(StageAndActivate(store, kind, fate).store)
  {
    hide Activate;
    if fate.crash != BeforeStaging {
      AddOne(store, kind);
      SweepsKeepOne(store + [Resource(kind, Staging)], fate.during);
      SweptSame(store + [Resource(kind, Staging)], fate.during);
      ActivateKeepsOne(SweptAll(store + [Resource(kind, Staging)], fate.during), |store|, fate);
    }
  }

  lemma StagedTwice(store: Store, kind: string, id: nat, fate: Fate)
    requires OneLive(store) && id < |store| && store[id] == Resource(kind, Active)
    ensures var after := StageAndActivate(store, kind, fate).store;
            OneLive(after) <==> !(|after| > |store| && Live(after[|store|]))
  {
    if fate.crash != BeforeStaging {
      var more := store + [Resource(kind, Staging)];
      SweptSame(more, fate.during);
      var swept := SweptAll(more, fate.during);
      var after := Activate(swept, |store|, fate).store;
      assert after[id] == more[id] == store[id];
      forall i, j | 0 <= i < j < |store| && Live(after[i]) && Live(after[j]) ensures after[i].kind != after[j].kind {
        assert more[i] == store[i] && more[j] == store[j];
      }
      if !Live(after[|store|]) {
        assert OneLive(after);
      }
    }
  }

  // ------------------------------------------------ whole runs

  /** The quiet case: the lookup is one atomic read. */
  predicate Atomic(fate: Fate) { fate.between == [] }

  datatype Op = Execute(kind: string, fate: Fate) | SweepOne(sweep: Sweep)

  function Do(store: Store, op: Op): Store {
    match op
    case Execute(kind, fate) => Persist(store, kind, fate).store
    case SweepOne(sweep) => Swept(store, sweep)
  }

  function Run(ops: seq<Op>): Store {
    if ops == [] then [] else Do(Run(ops[..|ops| - 1]), ops[|ops| - 1])
  }

  lemma AtomicNotUnderneath(read: Store, kind: string, fate: Fate)
    requires Atomic(fate)
    ensures !SweptUnderneath(read, kind, fate.between)
  {
  }

  /** An execution that makes a second live resource of its kind. */
  predicate Race(store: Store, op: Op) {
    op.Execute? && SweptUnderneath(store, op.kind, op.fate.between) && NewLives(op.fate, |store|)
  }

  lemma DoKeepsOne(store: Store, op: Op)
    requires OneLive(store)
    ensures OneLive(Do(store, op)) <==> !Race(store, op)
  {
    hide Persist, SweptUnderneath, NewLives;
    if op.Execute? {
      PersistKeepsOne(store, op.kind, op.fate);
    } else {
      OneSweep(store, op.sweep);
      SweepsKeepOne(store, [op.sweep]);
    }
  }

  /** The `i`th step is a race. */
  predicate RaceAt(ops: seq<Op>, i: nat)
    requires i < |ops|
  {
    Race(Run(ops[..i]), ops[i])
  }

  ghost predicate OneLiveAt(ops: seq<Op>, i: nat)
    requires i <= |ops|
  {
    OneLive(Run(ops[..i]))
  }

  /** Main result: however often the action is cut off and resumed and the
      sweeper runs, there is never more than one staged or active resource of a
      kind, if and only if no execution is a race. */
  lemma {:induction false} OneEffectExactly(ops: seq<Op>)
    ensures (forall i :: 0 <= i <= |ops| ==> OneLiveAt(ops, i)) <==> (forall i :: 0 <= i < |ops| ==> !RaceAt(ops, i))
  {
    hide RaceAt, OneLiveAt;
    if ops == [] {
      StartsLive(ops);
    } else {
      var k := |ops| - 1;
      var front := ops[..k];
      OneEffectExactly(front);
      forall i | 0 <= i <= k ensures OneLiveAt(front, i) == OneLiveAt(ops, i)
        && (i < k ==> RaceAt(front, i) == RaceAt(ops, i)) {
        SameBefore(ops, k, i);
      }
      assert OneLiveAt(front, k) ==> (OneLiveAt(ops, k + 1) <==> !RaceAt(ops, k)) by { LastStep(ops); }
      if forall i :: 0 <= i < |ops| ==> !RaceAt(ops, i) {
        assert forall i :: 0 <= i < k ==> !RaceAt(front, i);
        assert OneLiveAt(front, k);
      }
    }
  }

  lemma SameBefore(ops: seq<Op>, k: nat, i: nat)
    requires i <= k <= |ops|
    ensures OneLiveAt(ops[..k], i) == OneLiveAt(ops, i) && (i < k ==> RaceAt(ops[..k], i) == RaceAt(ops, i))
  {
    hide Race, OneLive, Run;
    assert ops[..k][..i] == ops[..i];
  }

  lemma LastStep(ops: seq<Op>)
    requires ops != []
    ensures var k := |ops| - 1;
            OneLiveAt(ops[..k], k) ==> (OneLiveAt(ops, k + 1) <==> !RaceAt(ops, k))
  {
    hide Race, OneLive, Do;
    var k := |ops| - 1;
    assert ops[..k][..k] == ops[..k] && ops[..k + 1] == ops;
    if OneLive(Run(ops[..k])) {
      DoKeepsOne(Run(ops[..k]), ops[k]);
    }
  }

  lemma StartsLive(ops: seq<Op>)
    ensures OneLiveAt(ops, 0)
  {
  }

  /** With an atomic lookup no execution is a race, so there is one effect. */
  lemma {:induction false} OneEffect(ops: seq<Op>)
    requires forall i :: 0 <= i < |ops| && ops[i].Execute? ==> Atomic(ops[i].fate)
    ensures OneLive(Run(ops))
  {
    hide OneLive, SweptUnderneath, NewLives;
    forall i | 0 <= i < |ops| ensures !RaceAt(ops, i) {
      if ops[i].Execute? {
        AtomicNotUnderneath(Run(ops[..i]), ops[i].kind, ops[i].fate);
      }
    }
    OneEffectExactly(ops);
    assert OneLiveAt(ops, |ops|);
    assert ops[..|ops|] == ops;
  }

  lemma OneSweep(store: Store, s: Sweep)
    ensures SweptAll(store, [s]) == Swept(store, s)
  {
    assert [s][..0] == [];
    assert SweptAll(store, [s][..0]) == store;
  }

  /** Without the atomic read: a staged resource that the sweeper activates
      between the two reads is overlooked, and a second one goes active. */
  lemma RaceDuplicates(kind: string)
    ensures var race := Fate([Sweep(0, true)], [], NoCrash, true);
            var x := Persist([Resource(kind, Staging)], kind, race);
            x.store == [Resource(kind, Active), Resource(kind, Active)] && x.end == Returned(1) && !OneLive(x.store)
  {
    var read := [Resource(kind, Staging)];
    var race := Fate([Sweep(0, true)], [], NoCrash, true);
    OneSweep(read, Sweep(0, true));
    var store := SweptAll(read, race.between);
    assert store == [Resource(kind, Active)];
    assert read[..0] == [];
    assert LiveIds(read, kind) == [0] + LiveIds(read[..0], kind);
    assert LiveIds(read, kind) == [0] && [0][1..] == [];
    assert Reuse(read, store, [0], race) == None;
    var more := store + [Resource(kind, Staging)];
    assert SweptAll(more, []) == more;
    assert more[1].status == Staging;
    var after := [Resource(kind, Active), Resource(kind, Active)];
    assert Live(after[0]) && Live(after[1]) && after[0].kind == after[1].kind;
  }

  // ------------------------------------------------ the fan-out

  /** The nodes whose output is persisted, with the kind each produces. */
  const FanoutKinds: seq<(string, string)> :=
    [("resource_doc", "doc"), ("resource_ppt", "ppt"), ("resource_mindmap", "mindmap"), ("resource_quiz", "quiz"),
     ("resource_lab", "lab"), ("resource_video", "video"), ("resource_readings", "readings")]

  datatype FanoutEnd = Completed(ids: seq<nat>) | Interrupted

  /** Nothing about a store is lost: what is there stays, what is active stays active. */
  ghost predicate Grown(before: Store, after: Store) {
    && |before| <= |after|
    && (forall i :: 0 <= i < |before| ==>
          after[i].kind == before[i].kind && (after[i].status == before[i].status || before[i].status == Staging))
  }

  lemma PersistGrows(read: Store, kind: string, fate: Fate)
    ensures Grown(read, Persist(read, kind, fate).store)
  {
    hide Activate, SweptAll, LiveIds, Reuse, StageAndActivate, Grown;
    LiveIdsAre(read, kind);
    var store := SweptAll(read, fate.between);
    SweptGrows(read, fate.between);
    ReuseGrows(read, store, LiveIds(read, kind), fate);
    StageGrows(store, kind, fate);
    GrownTwice(read, store, StageAndActivate(store, kind, fate).store);
  }

  lemma SweptGrows(store: Store, sweeps: seq<Sweep>)
    ensures Grown(store, SweptAll(store, sweeps)) && |SweptAll(store, sweeps)| == |store|
  {
    hide SweptAll;
    SweptSame(store, sweeps);
  }

  lemma ActivateGrows(store: Store, id: nat, fate: Fate)
    requires id < |store|
    ensures Grown(store, Activate(store, id, fate).store)
  {
  }

  lemma GrownTwice(a: Store, b: Store, c: Store)
    requires Grown(a, b) && Grown(b, c)
    ensures Grown(a, c)
  {
  }

  lemma StageGrows(store: Store, kind: string, fate: Fate)
    ensures Grown(store, StageAndActivate(store, kind, fate).store)
  {
    hide Activate, SweptAll, Grown;
    var more := store + [Resource(kind, Staging)];
    assert Grown(store, store) && Grown(store, more) by { GrownByOne(store, kind); }
    SweptGrows(more, fate.during);
    var swept := SweptAll(more, fate.during);
    ActivateGrows(swept, |store|, fate);
    GrownTwice(store, more, swept);
    GrownTwice(store, swept, Activate(swept, |store|, fate).store);
  }

  lemma GrownByOne(store: Store, kind: string)
    ensures Grown(store, store) && Grown(store, store + [Resource(kind, Staging)])
  {
  }

  lemma {:induction false} ReuseGrows(read: Store, store: Store, ids: seq<nat>, fate: Fate)
    requires |read| == |store| && forall i :: 0 <= i < |ids| ==> ids[i] < |store|
    requires Grown(read, store)
    ensures Reuse(read, store, ids, fate).Some? ==> Grown(read, Reuse(read, store, ids, fate).value.store)
    decreases |ids|
  {
    hide Activate, Grown;
    if ids != [] {
      ActivateGrows(store, ids[0], fate);
      GrownTwice(read, store, Activate(store, ids[0], fate).store);
      if read[ids[0]].status != Active && store[ids[0]].status != Staging {
        ReuseGrows(read, store, ids[1..], fate);
      }
    }
  }

  /** An execution that returns has returned an active resource of the kind; a
      live one from before is returned exactly when it was active or no sweep
      came between the two reads. */
  lemma {:induction false} PersistReturns(read: Store, kind: string, fate: Fate)
    requires OneLive(read) && Persist(read, kind, fate).end.Returned?
    ensures var x := Persist(read, kind, fate);
            && x.end.id < |x.store| && x.store[x.end.id] == Resource(kind, Active)
            && (forall id: nat :: id < |read| && read[id].kind == kind && Live(read[id]) ==>
                  (x.end.id == id <==> read[id].status == Active || FirstSweep(fate.between, id).None?))
  {
    hide Activate, FirstSweep, SweptAll, LiveIds, Reuse;
    var store := SweptAll(read, fate.between);
    SweptSame(read, fate.between);
    LiveIdsAre(read, kind);
    if LiveIds(read, kind) != [] {
      var id := LiveIds(read, kind)[0];
      assert id in LiveIds(read, kind);
      ReuseFound(read, store, kind, id, fate);
      if read[id].status == Staging {
        FirstSweepDecides(read, fate.between, id);
      }
      ActivateReturns(store, id, fate);
      forall other: nat | other < |read| && read[other].kind == kind && Live(read[other]) ensures other == id {
        assert read[id].kind == kind && Live(read[id]);
      }
    } else {
      NothingToReuse(read, store, kind, fate);
    }
    if Reuse(read, store, LiveIds(read, kind), fate).None? && fate.crash != BeforeStaging {
      var more := store + [Resource(kind, Staging)];
      SweptSame(more, fate.during);
      ActivateReturns(SweptAll(more, fate.during), |store|, fate);
    }
  }

  lemma ActivateReturns(store: Store, id: nat, fate: Fate)
    requires id < |store|
    ensures Activate(store, id, fate).end.Returned? ==>
              Activate(store, id, fate).end.id == id
                && Activate(store, id, fate).store[id] == Resource(store[id].kind, Active)
    ensures |Activate(store, id, fate).store| == |store|
  {
  }

  /** The rows and storage objects, written in place. */
  class ArtifactStore {
    var resources: Store

    constructor ()
      ensures resources == []
    {
      resources := [];
    }

    /** Finish or reuse a resource that the first read found live. */
    method RecoverExistingResource(read: Store, ids: seq<nat>, fate: Fate) returns (end: Option<End>)
      requires |read| == |resources| && forall i :: 0 <= i < |ids| ==> ids[i] < |resources|
      modifies this
      ensures end.Some? ==> Reuse(read, old(resources), ids, fate) == Some(Execution(resources, end.value))
      ensures end.None? ==> Reuse(read, old(resources), ids, fate) == None && resources == old(resources)
    {
      hide Activate;
      var i := 0;
      assert ids[0..] == ids;
      while i < |ids|
        invariant 0 <= i <= |ids| && resources == old(resources)
        invariant Reuse(read, resources, ids, fate) == Reuse(read, resources, ids[i..], fate)
      {
        assert ids[i..][0] == ids[i] && ids[i..][1..] == ids[i + 1..];
        if read[ids[i]].status == Active {
          return Some(Returned(ids[i]));
        }
        if resources[ids[i]].status == Staging {
          var done := ActivateStored(ids[i], fate);
          return Some(done);
        }
        i := i + 1;
      }
      return None;
    }

    /** The lookup, then staging and activation, each in its own commit. */
    method PersistGeneratedResource(kind: string, fate: Fate) returns (end: End)
      modifies this
      ensures Execution(resources, end) == Persist(old(resources), kind, fate)
    {
      hide Activate, Reuse, SweptAll, LiveIds;
      var read := resources;
      LiveIdsAre(read, kind);
      SweptSame(read, fate.between);
      resources := SweptAll(read, fate.between);
      var reused := RecoverExistingResource(read, LiveIds(read, kind), fate);
      if reused.Some? {
        return reused.value;
      }
      if fate.crash == BeforeStaging {
        return Died;
      }
      var id := |resources|;
      SweptSame(resources + [Resource(kind, Staging)], fate.during);
      resources := SweptAll(resources + [Resource(kind, Staging)], fate.during);
      end := ActivateStored(id, fate);
    }

    method ActivateStored(id: nat, fate: Fate) returns (end: End)
      requires id < |resources|
      modifies this
      ensures Execution(resources, end) == Activate(old(resources), id, fate)
    {
      var r := resources[id];
      match r.status {
        case Active => return Returned(id);
        case Orphaned => return Raised;
        case Staging =>
          if fate.crash == BeforeActivation {
            return Died;
          }
          resources := resources[id := r.(status := if fate.intact then Active else Orphaned)];
          return if fate.intact then Returned(id) else Raised;
      }
    }

    /** Main result: unless one of its executions is a race, a fan-out that
        completes leaves exactly one active resource for every producer present,
        reusing the ids of earlier attempts, and one that is interrupted still
        leaves at most one live resource per kind. Nothing is ever lost. */
    method PersistResourceFanout(producers: set<string>, fates: nat -> Fate) returns (end: FanoutEnd)
      requires OneLive(resources)
      modifies this
      ensures Grown(old(resources), resources)
      ensures end.Completed? <==>
        FanoutReturns(old(resources), producers, fates, 0) && Wanted(FanoutKinds, producers) != []
      ensures end.Completed? ==> |end.ids| == |Wanted(FanoutKinds, producers)|
      ensures !FanoutRaces(old(resources), producers, fates, 0) ==> OneLive(resources)
      ensures !FanoutRaces(old(resources), producers, fates, 0) && end.Completed? ==> forall k :: 0 <= k < |end.ids| ==>
                IsTheOne(old(resources), resources, Wanted(FanoutKinds, producers)[k], end.ids[k])
    {
      hide Persist, Race, FanoutRaces, FanoutReturns, Grown, IsTheOne, OneLive;
      ghost var raced := FanoutRaces(resources, producers, fates, 0);
      assert Grown(resources, resources) by { GrownByOne(resources, ""); }
      var ids := [];
      assert FanoutKinds[..0] == [];
      for i := 0 to |FanoutKinds|
        invariant Grown(old(resources), resources)
        invariant |ids| == |Wanted(FanoutKinds[..i], producers)|
        invariant FanoutReturns(old(resources), producers, fates, 0) <==> FanoutReturns(resources, producers, fates, i)
        invariant !raced ==> OneLive(resources) && !FanoutRaces(resources, producers, fates, i)
        invariant !raced ==> forall k :: 0 <= k < |ids| ==>
          IsTheOne(old(resources), resources, Wanted(FanoutKinds[..i], producers)[k], ids[k])
      {
        assert FanoutKinds[..i + 1][..i] == FanoutKinds[..i];
        var (node, kind) := FanoutKinds[i];
        ReturnsLater(resources, producers, fates, i);
        if !raced {
          RacesLater(resources, producers, fates, i);
        }
        if node in producers {
          PersistGrows(resources, kind, fates(i));
          GrownTwice(old(resources), resources, Persist(resources, kind, fates(i)).store);
          if !raced {
            FanoutStep(old(resources), resources, kind, fates(i));
          }
          var result := PersistGeneratedResource(kind, fates(i));
          if !result.Returned? {
            return Interrupted;
          }
          ids := ids + [result.id];
        }
      }
      assert FanoutKinds[..|FanoutKinds|] == FanoutKinds;
      assert FanoutReturns(resources, producers, fates, |FanoutKinds|) by { AllReturned(resources, producers, fates); }
      return if ids == [] then Interrupted else Completed(ids);
    }
  }

  /** The kinds of the producers present, in the fixed order. */
  function Wanted(kinds: seq<(string, string)>, producers: set<string>): seq<string> {
    if kinds == [] then []
    else
      var last := kinds[|kinds| - 1];
      Wanted(kinds[..|kinds| - 1], producers) + (if last.0 in producers then [last.1] else [])
  }

  /** `id` is the active resource of its kind, and the one that was live before if there was one. */
  ghost predicate IsTheOne(before: Store, after: Store, kind: string, id: nat) {
    && id < |after| && after[id] == Resource(kind, Active)
    && (forall j :: 0 <= j < |after| && j != id && after[j].kind == kind ==> !Live(after[j]))
    && (forall j :: 0 <= j < |before| && before[j] == Resource(kind, Active) ==> j == id)
  }

  /** Some execution of the fan-out from entry `i` on is a race. */
  predicate FanoutRaces(store: Store, producers: set<string>, fates: nat -> Fate, i: nat)
    decreases |FanoutKinds| - i
  {
    i < |FanoutKinds| &&
    if FanoutKinds[i].0 !in producers then FanoutRaces(store, producers, fates, i + 1)
    else
      var x := Persist(store, FanoutKinds[i].1, fates(i));
      Race(store, Execute(FanoutKinds[i].1, fates(i)))
        || (x.end.Returned? && FanoutRaces(x.store, producers, fates, i + 1))
  }

  /** Every execution of the fan-out from entry `i` on returns. */
  predicate FanoutReturns(store: Store, producers: set<string>, fates: nat -> Fate, i: nat)
    decreases |FanoutKinds| - i
  {
    i >= |FanoutKinds| ||
    if FanoutKinds[i].0 !in producers then FanoutReturns(store, producers, fates, i + 1)
    else
      var x := Persist(store, FanoutKinds[i].1, fates(i));
      x.end.Returned? && FanoutReturns(x.store, producers, fates, i + 1)
  }

  lemma AllReturned(store: Store, producers: set<string>, fates: nat -> Fate)
    ensures FanoutReturns(store, producers, fates, |FanoutKinds|)
  {
  }

  lemma ReturnsLater(store: Store, producers: set<string>, fates: nat -> Fate, i: nat)
    requires i < |FanoutKinds|
    ensures FanoutReturns(store, producers, fates, i) <==>
              if FanoutKinds[i].0 !in producers then FanoutReturns(store, producers, fates, i + 1)
              else
                var x := Persist(store, FanoutKinds[i].1, fates(i));
                x.end.Returned? && FanoutReturns(x.store, producers, fates, i + 1)
  {
    hide Persist;
  }

  lemma RacesLater(store: Store, producers: set<string>, fates: nat -> Fate, i: nat)
    requires i < |FanoutKinds| && !FanoutRaces(store, producers, fates, i)
    ensures FanoutKinds[i].0 !in producers ==> !FanoutRaces(store, producers, fates, i + 1)
    ensures FanoutKinds[i].0 in producers ==>
              var x := Persist(store, FanoutKinds[i].1, fates(i));
              && !Race(store, Execute(FanoutKinds[i].1, fates(i)))
              && (x.end.Returned? ==> !FanoutRaces(x.store, producers, fates, i + 1))
  {
    hide Persist, Race;
  }

  lemma AtomicNeverRaces(store: Store, producers: set<string>, fates: nat -> Fate, i: nat)
    requires forall k :: Atomic(fates(k))
    ensures !FanoutRaces(store, producers, fates, i)
    decreases |FanoutKinds| - i
  {
    hide Persist, NewLives, SweptUnderneath;
    if i < |FanoutKinds| {
      AtomicNotUnderneath(store, FanoutKinds[i].1, fates(i));
      AtomicNeverRaces(store, producers, fates, i + 1);
      AtomicNeverRaces(Persist(store, FanoutKinds[i].1, fates(i)).store, producers, fates, i + 1);
    }
  }

  lemma FanoutStep(first: Store, before: Store, kind: string, fate: Fate)
    requires OneLive(before) && Grown(first, before) && !Race(before, Execute(kind, fate))
    ensures var x := Persist(before, kind, fate);
            && OneLive(x.store)
            && (x.end.Returned? ==> IsTheOne(first, x.store, kind, x.end.id))
            && (forall k, id: nat :: IsTheOne(first, before, k, id) ==> IsTheOne(first, x.store, k, id))
  {
    hide Persist, SweptUnderneath, NewLives;
    var x := Persist(before, kind, fate);
    PersistKeepsOne(before, kind, fate);
    PersistGrows(before, kind, fate);
    if x.end.Returned? {
      PersistReturns(before, kind, fate);
    }
    forall k, id: nat | IsTheOne(first, before, k, id) ensures IsTheOne(first, x.store, k, id) {
      assert x.store[id] == before[id];
    }
  }
}
