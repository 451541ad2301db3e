/** The collaboration state shared by workflow nodes: typed values, their
    checkpoint, and branches that work on copies of it. */
module TypedState {
  import opened Options

  /** A reference to durable evidence; its snapshot id is required. */
  datatype EvidenceRef = EvidenceRef(snapshot: string, citation: string)

  /** A node's output record. `facts` stands for the fields copied as they are. */
  datatype NodeState = NodeState(output: string, snapshots: seq<string>, evidence: seq<EvidenceRef>,
                                 facts: map<string, string>)

  /** The mapping a node hands over; an output that is no mapping reads as empty,
      and a listed snapshot id may be null. */
  datatype Payload = Payload(output: Option<string>, snapshots: seq<Option<string>>, evidence: seq<EvidenceRef>,
                             facts: map<string, string>)

  const EmptyOutput := "{}"

  function Present(ids: seq<Option<string>>): seq<string> {
    if ids == [] then []
    else (if ids[0].Some? then [ids[0].value] else []) + Present(ids[1..])
  }

  /** The snapshot ids of the evidence that are not empty. */
  function SnapshotsOf(evidence: seq<EvidenceRef>): seq<string> {
    if evidence == [] then []
    else (if evidence[0].snapshot != "" then [evidence[0].snapshot] else []) + SnapshotsOf(evidence[1..])
  }

  /** `from_payload`: snapshot ids default to those of the evidence. */
  function FromPayload(p: Payload): NodeState {
    NodeState(
      if p.output.Some? then p.output.value else EmptyOutput,
      if p.snapshots != [] then Present(p.snapshots) else SnapshotsOf(p.evidence),
      p.evidence, p.facts)
  }

  function Listed(ids: seq<string>): (r: seq<Option<string>>)
    ensures |r| == |ids|
  {
    seq(|ids|, i requires 0 <= i < |ids| => Some(ids[i]))
  }

  /** `model_dump`: every field present. */
  function Dump(v: NodeState): Payload {
    Payload(Some(v.output), Listed(v.snapshots), v.evidence, v.facts)
  }

  /** Evidence comes with its snapshot ids, if any of those is not empty. */
  predicate Normal(v: NodeState) {
    v.snapshots != [] || forall e :: e in v.evidence ==> e.snapshot == ""
  }

  lemma {:induction false} NothingToDefault(evidence: seq<EvidenceRef>)
    ensures SnapshotsOf(evidence) == [] <==> forall e :: e in evidence ==> e.snapshot == ""
  {
    if evidence != [] {
      NothingToDefault(evidence[1..]);
      assert forall e :: e in evidence <==> e == evidence[0] || e in evidence[1..];
    }
  }

  lemma {:induction false} PresentListed(ids: seq<string>)
    ensures Present(Listed(ids)) == ids
  {
    if ids != [] {
      PresentListed(ids[1..]);
      assert Listed(ids)[1..] == Listed(ids[1..]);
    }
  }

  /** Main result: dumping a record and reading it back is the identity exactly
      on records whose evidence comes with its snapshot ids. */
  lemma DumpRoundTrip(v: NodeState)
    ensures FromPayload(Dump(v)) == v <==> Normal(v)
  {
    PresentListed(v.snapshots);
    NothingToDefault(v.evidence);
  }

  /** Reading a payload gives a normal record unless it lists nothing but nulls
      as snapshot ids beside evidence that has some. */
  lemma FromPayloadNormal(p: Payload)
    ensures Normal(FromPayload(p)) <==>
              !(p.snapshots != [] && (forall id :: id in p.snapshots ==> id.None?)
                && exists e :: e in p.evidence && e.snapshot != "")
  {
    NothingToDefault(p.evidence);
    NothingPresent(p.snapshots);
  }

  lemma {:induction false} NothingPresent(ids: seq<Option<string>>)
    ensures Present(ids) == [] <==> forall id :: id in ids ==> id.None?
  {
    if ids != [] {
      NothingPresent(ids[1..]);
      if ids[0].Some? {
        assert ids[0] in ids;
      } else {
        assert forall id :: id in ids <==> id == ids[0] || id in ids[1..];
      }
    }
  }

  lemma SnapshotsFirst(a: seq<EvidenceRef>)
    requires a != []
    ensures SnapshotsOf(a) == (if a[0].snapshot == "" then [] else [a[0].snapshot]) + SnapshotsOf(a[1..])
  {
  }

  lemma {:induction false} SnapshotsAppend(a: seq<EvidenceRef>, b: seq<EvidenceRef>)
    ensures SnapshotsOf(a + b) == SnapshotsOf(a) + SnapshotsOf(b)
  {
    if a == [] {
      assert a + b == b;
    } else {
      hide SnapshotsOf;
      var joined, rest := a + b, a[1..];
      assert joined[0] == a[0] && joined[1..] == rest + b;
      SnapshotsAppend(rest, b);
      SnapshotsFirst(joined);
      SnapshotsFirst(a);
    }
  }

  /** The default is the evidence's own ids, in order, without the empty ones. */
  lemma {:induction false} SnapshotsFilter(a: seq<EvidenceRef>, e: EvidenceRef)
    ensures SnapshotsOf(a + [e]) == SnapshotsOf(a) + (if e.snapshot == "" then [] else [e.snapshot])
    ensures SnapshotsOf([]) == []
  {
    SnapshotsAppend(a, [e]);
    assert [e][1..] == [];
    assert SnapshotsOf([e]) == if e.snapshot == "" then [] else [e.snapshot];
  }

  lemma {:induction false} PresentAppend(a: seq<Option<string>>, b: seq<Option<string>>)
    ensures Present(a + b) == Present(a) + Present(b)
  {
    if a == [] {
      assert a + b == b;
    } else {
      PresentAppend(a[1..], b);
      assert (a + b)[1..] == a[1..] + b;
    }
  }

  /** Listed ids are kept in order, without nulls. */
  lemma {:induction false} PresentFilters(a: seq<Option<string>>, id: Option<string>)
    ensures Present(a + [id]) == Present(a) + (match id case Some(x) => [x] case None => [])
    ensures Present([]) == []
  {
    PresentAppend(a, [id]);
    assert [id][1..] == [];
    assert Present([id]) == match id case Some(x) => [x] case None => [];
  }

  /** What a payload reads as: its own fields, an empty mapping for an output that is
      none, and its listed ids, or the evidence's where it lists none. */
  lemma PayloadReadsAs(p: Payload)
    ensures var v := FromPayload(p);
            && v.evidence == p.evidence && v.facts == p.facts
            && v.output == (match p.output case Some(o) => o case None => "{}")
            && (p.snapshots == [] ==> v.snapshots == SnapshotsOf(p.evidence))
            && (p.snapshots != [] ==> v.snapshots == Present(p.snapshots))
  {
  }

  datatype Signature = Signature(node: string, defects: multiset<(string, string)>)

  datatype Checkpoint = Checkpoint(version: string, nodes: map<string, Payload>, approved: map<string, string>,
                                   defects: seq<Signature>)

  /** The abstract state: what the mutable container holds. */
  datatype Shared = Shared(version: string, values: map<string, NodeState>, approved: map<string, string>,
                           defects: seq<Signature>)

  ghost predicate AllNormal(s: Shared) {
    forall n :: n in s.values ==> Normal(s.values[n])
  }

  function ToCheckpoint(s: Shared): Checkpoint {
    Checkpoint(s.version, map n | n in s.values :: Dump(s.values[n]), s.approved, s.defects)
  }

  /** An empty version reads as the first. */
  function FromCheckpoint(c: Checkpoint): Shared {
    Shared(if c.version == "" then "v1" else c.version,
           map n | n in c.nodes :: FromPayload(c.nodes[n]), c.approved, c.defects)
  }

  function Copy(s: Shared): Shared { FromCheckpoint(ToCheckpoint(s)) }

  /** Main result: a copy through the checkpoint is the same state exactly when
      every record is normal (and the version is named). */
  lemma CheckpointRoundTrip(s: Shared)
    ensures Copy(s) == s <==> AllNormal(s) && s.version != ""
  {
    hide FromPayload, Dump, Normal;
    forall n | n in s.values ensures FromPayload(Dump(s.values[n])) == s.values[n] <==> Normal(s.values[n]) {
      DumpRoundTrip(s.values[n]);
    }
    if Copy(s) == s {
      forall n | n in s.values ensures Normal(s.values[n]) {
        assert Copy(s).values[n] == s.values[n];
      }
    }
    if AllNormal(s) && s.version != "" {
      assert Copy(s).values == s.values;
    }
  }

  /** Copying once more changes nothing: a copy names its version and is normal. */
  lemma {:induction false} CopyIsIdempotent(s: Shared)
    ensures Copy(Copy(s)) == Copy(s) && AllNormal(Copy(s))
    ensures Copy(s).version == (if s.version == "" then "v1" else s.version)
    ensures Copy(s).approved == s.approved && Copy(s).defects == s.defects && Copy(s).values.Keys == s.values.Keys
    ensures forall n :: n in s.values ==> Copy(s).values[n] == FromPayload(Dump(s.values[n]))
  {
    hide FromPayload, Dump, Normal;
    forall n | n in s.values ensures Normal(FromPayload(Dump(s.values[n]))) {
      DumpedIsNormal(s.values[n]);
    }
    CheckpointRoundTrip(Copy(s));
  }

  lemma DumpedIsNormal(v: NodeState)
    ensures Normal(FromPayload(Dump(v)))
  {
    FromPayloadNormal(Dump(v));
    if v.snapshots != [] {
      assert Listed(v.snapshots)[0] in Listed(v.snapshots) && Listed(v.snapshots)[0].Some?;
    }
  }

  /** What a node may read. */
  function Project(s: Shared, sources: Option<seq<string>>): map<string, Payload> {
    map n | n in s.values && (sources.None? || n in sources.value) :: Dump(s.values[n])
  }

  function With(s: Shared, n: string, p: Payload): Shared {
    s.(values := s.values[n := FromPayload(p)])
  }

  function Without(s: Shared, nodes: set<string>): Shared {
    s.(values := s.values - nodes)
  }

  /** Main result: taking a record out and storing what was taken restores the
      state exactly when the record is normal. */
  lemma {:induction false} TakenThenStored(s: Shared, n: string)
    requires n in s.values
    ensures With(Without(s, {n}), n, Dump(s.values[n])) == s <==> Normal(s.values[n])
  {
    hide FromPayload, Dump, Normal;
    DumpRoundTrip(s.values[n]);
    var restored := With(Without(s, {n}), n, Dump(s.values[n]));
    assert restored.values.Keys == s.values.Keys;
    if FromPayload(Dump(s.values[n])) == s.values[n] {
      assert restored.values == s.values;
    } else {
      assert restored.values[n] != s.values[n];
    }
  }

  /** What is dropped is gone from every projection, and nothing else is. */
  lemma {:induction false} DroppedUnread(s: Shared, nodes: set<string>, sources: Option<seq<string>>)
    ensures Project(Without(s, nodes), sources) == Project(s, sources) - nodes
  {
    hide Dump;
  }

  // ------------------------------------------------ the container

  class TypedWorkflowState {
    var version: string
    var values: map<string, NodeState>
    var approved: map<string, string>
    var defects: seq<Signature>

    function Held(): Shared reads this { Shared(version, values, approved, defects) }

    constructor (s: Shared)
      ensures Held() == s
    {
      version, values, approved, defects := s.version, s.values, s.approved, s.defects;
    }

    method SetItem(n: string, p: Payload)
      modifies this`values
      ensures Held() == old(Held()).(values := old(values)[n := FromPayload(p)])
    {
      values := values[n := FromPayload(p)];
    }

    method Pop(n: string) returns (r: Option<Payload>)
      modifies this`values
      ensures Held() == old(Held()).(values := old(values) - {n})
      ensures r == if n in old(values) then Some(Dump(old(values)[n])) else None
    {
      r := if n in values then Some(Dump(values[n])) else None;
      values := values - {n};
    }

    /** A rejected verdict and the nodes it sends back leave the state together. */
    method DropForRework(quality: string, targets: seq<string>)
      modifies this`values
      ensures Held() == Without(old(Held()), {quality} + set t | t in targets)
    {
      var _ := Pop(quality);
      for i := 0 to |targets|
        invariant Held() == Without(old(Held()), {quality} + set t | t in targets[..i])
      {
        assert targets[..i + 1] == targets[..i] + [targets[i]];
        var _ := Pop(targets[i]);
      }
      assert targets[..|targets|] == targets;
    }

    /** The results of a fan-out are taken over one by one, in any order of the branches. */
    method TakeOver(nodes: seq<string>, results: map<string, Payload>)
      requires results.Keys == set n | n in nodes
      modifies this`values
      ensures Held() == Merge(old(Held()), results)
    {
      hide FromPayload;
      for i := 0 to |nodes|
        invariant Held().(values := old(values)) == old(Held())
        invariant values.Keys == old(values).Keys + set n | n in nodes[..i]
        invariant forall n :: n in values ==>
          values[n] == if n in nodes[..i] then FromPayload(results[n]) else old(values)[n]
      {
        assert nodes[..i + 1] == nodes[..i] + [nodes[i]];
        assert nodes[i] in results;
        SetItem(nodes[i], results[nodes[i]]);
      }
      assert nodes[..|nodes|] == nodes;
      assert values == Merge(old(Held()), results).values;
    }

    /** Record a verdict's defects, in any order; a set seen before at this node is reported. */
    method RecordDefects(found: seq<(string, string)>, node: string) returns (repeated: bool)
      modifies this`defects
      ensures repeated <==> exists i :: 0 <= i < |old(defects)| && old(defects)[i] == Signature(node, multiset(found))
      ensures Held() == old(Held()).(defects := old(defects) + [Signature(node, multiset(found))])
    {
      var signature := Signature(node, multiset(found));
      repeated := signature in defects;
      defects := defects + [signature];
    }
  }

  // ------------------------------------------------ fan-out

  /** A branch: its node, what it may read, and what it makes of that. */
  datatype Branch = Branch(node: string, sources: seq<string>, work: map<string, Payload> -> Payload)

  function Result(b: Branch, s: Shared): Payload {
    b.work(Project(s, Some(b.sources)))
  }

  function Merge(s: Shared, results: map<string, Payload>): Shared {
    s.(values := map n | n in s.values.Keys + results.Keys ::
        if n in results then FromPayload(results[n]) else s.values[n])
  }

  /** A node reads exactly the outputs present among the sources it may read. */
  lemma ReadsItsSources(s: Shared, sources: seq<string>, n: string)
    ensures n in Project(s, Some(sources)) <==> n in s.values && n in sources
    ensures n in Project(s, None) <==> n in s.values
    ensures n in s.values && n in sources ==> Project(s, Some(sources))[n] == Dump(s.values[n])
    ensures n in s.values ==> Project(s, None)[n] == Dump(s.values[n])
  {
  }

  /** Merging replaces what branches returned and keeps everything else. */
  lemma MergeKeepsRest(s: Shared, results: map<string, Payload>, n: string)
    ensures var merged := Merge(s, results);
            && (n in merged.values <==> n in s.values || n in results)
            && (n in results ==> merged.values[n] == FromPayload(results[n]))
            && (n in s.values && n !in results ==> merged.values[n] == s.values[n])
            && merged.version == s.version && merged.approved == s.approved && merged.defects == s.defects
  {
  }

  /** The sequential fallback: each branch works on a copy of the copy taken at the fork. */
  method RunSequentially(branches: seq<Branch>, s: Shared) returns (results: map<string, Payload>)
    requires forall i, j :: 0 <= i < j < |branches| ==> branches[i].node != branches[j].node
    ensures IsResultOf(branches, s, results)
  {
    results := map[];
    var base := Copy(s);
    for i := 0 to |branches|
      invariant forall n :: n in results <==> exists k :: 0 <= k < i && branches[k].node == n
      invariant forall k :: 0 <= k < i ==>
        branches[k].node in results && results[branches[k].node] == Result(branches[k], Copy(Copy(s)))
    {
      results := results[branches[i].node := Result(branches[i], Copy(base))];
    }
  }

  /** Every branch's result from the state at the fork, and nothing else. */
  ghost predicate IsResultOf(branches: seq<Branch>, s: Shared, results: map<string, Payload>) {
    && (forall n :: n in results <==> exists k :: 0 <= k < |branches| && branches[k].node == n)
    && (forall k :: 0 <= k < |branches| ==> results[branches[k].node] == Result(branches[k], Copy(Copy(s))))
  }

  /** Parallel branches: each reads its copy at some point and returns at a later one. */
  datatype Move = Begin(branch: nat) | Return(branch: nat)

  datatype Progress = Progress(reading: map<nat, map<string, Payload>>, results: map<string, Payload>)

  function Step(branches: seq<Branch>, base: Shared, p: Progress, m: Move): Progress {
    match m
    case Begin(k) =>
      if k < |branches| && k !in p.reading
        then p.(reading := p.reading[k := Project(Copy(base), Some(branches[k].sources))]) else p
    case Return(k) =>
      if k < |branches| && k in p.reading
        then p.(results := p.results[branches[k].node := branches[k].work(p.reading[k])]) else p
  }

  function Interleaved(branches: seq<Branch>, base: Shared, moves: seq<Move>): Progress {
    if moves == [] then Progress(map[], map[])
    else Step(branches, base, Interleaved(branches, base, moves[..|moves| - 1]), moves[|moves| - 1])
  }

  ghost predicate Sound(branches: seq<Branch>, s: Shared, p: Progress) {
    && (forall k :: k in p.reading ==>
        k < |branches| && p.reading[k] == Project(Copy(Copy(s)), Some(branches[k].sources)))
    && (forall n :: n in p.results ==> exists k :: 0 <= k < |branches| && branches[k].node == n)
    && (forall k :: 0 <= k < |branches| && branches[k].node in p.results ==>
        p.results[branches[k].node] == Result(branches[k], Copy(Copy(s))))
  }

  lemma {:induction false} InterleavedSound(branches: seq<Branch>, s: Shared, moves: seq<Move>)
    requires forall i, j :: 0 <= i < j < |branches| ==> branches[i].node != branches[j].node
    ensures Sound(branches, s, Interleaved(branches, Copy(s), moves))
  {
    hide Copy, Project;
    if moves != [] {
      InterleavedSound(branches, s, moves[..|moves| - 1]);
    }
  }

  /** Main result: every interleaving in which all branches have returned merges
      to the state the sequential fallback merges to. */
  lemma {:induction false} OrderIndependent(branches: seq<Branch>, s: Shared, moves: seq<Move>,
                                            sequential: map<string, Payload>)
    requires forall i, j :: 0 <= i < j < |branches| ==> branches[i].node != branches[j].node
    requires IsResultOf(branches, s, sequential)
    requires forall k :: 0 <= k < |branches| ==> branches[k].node in Interleaved(branches, Copy(s), moves).results
    ensures Merge(s, Interleaved(branches, Copy(s), moves).results) == Merge(s, sequential)
  {
    hide Copy, Project, Interleaved, FromPayload, Merge;
    InterleavedSound(branches, s, moves);
    assert Interleaved(branches, Copy(s), moves).results == sequential;
  }

  /** On a normal state the copies do not matter: each branch's record is what
      the node makes of the state at the fork itself. */
  lemma {:induction false} MergedFromFork(branches: seq<Branch>, s: Shared, results: map<string, Payload>, k: nat)
    requires AllNormal(s) && s.version != "" && IsResultOf(branches, s, results) && k < |branches|
    ensures Merge(s, results).values[branches[k].node] == FromPayload(Result(branches[k], s))
  {
    hide Copy, Project, FromPayload;
    CheckpointRoundTrip(s);
  }
}
