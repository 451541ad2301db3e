/** Versioned workflow graphs: validation, routing queries and the graph-level
    notions the engine's guarantees are stated with. */
module WorkflowDefinitions {
  import opened Options
  import opened Walks

  type NodeId = string

  datatype NodeKind = Skill(agentName: string, skillName: string) | Action(actionName: string)

  datatype Node = Node(id: NodeId, kind: NodeKind, checkedByWorkflow: bool, inputSources: Option<seq<NodeId>>)

  datatype Edge = Edge(source: NodeId, target: NodeId, condition: Option<string>)

  /** The defect taxonomy a verdict is normalised to. */
  datatype DefectCode =
    | CitationMismatch | EvidenceMissing | FactConflict | InstructionalMismatch | SafetyViolation | SchemaInvalid

  /** The taxonomy in the order of the codes' names. */
  const CodesInOrder: seq<DefectCode> :=
    [CitationMismatch, EvidenceMissing, FactConflict, InstructionalMismatch, SafetyViolation, SchemaInvalid]

  datatype Defect = Defect(code: DefectCode, target: string)

  datatype Definition = Definition(
    nodes: seq<Node>, edges: seq<Edge>, maxRework: nat, defectRoutes: map<DefectCode, seq<NodeId>>)

  const DEFECT := Some("defect")
  const ACCEPT := Some("accept")

  predicate Known(d: Definition, n: NodeId) {
    exists i :: 0 <= i < |d.nodes| && d.nodes[i].id == n
  }

  function NodeOf(d: Definition, n: NodeId): (r: Node)
    requires Known(d, n)
    ensures r in d.nodes && r.id == n
  {
    NodeIn(d.nodes, n)
  }

  function NodeIn(nodes: seq<Node>, n: NodeId): (r: Node)
    requires exists i :: 0 <= i < |nodes| && nodes[i].id == n
    ensures r in nodes && r.id == n
  {
    if nodes[0].id == n then nodes[0] else NodeIn(nodes[1..], n)
  }

  predicate IsQuality(node: Node) {
    node.kind.Skill? && node.kind.skillName == "QualityCheck"
  }

  predicate IsSkill(d: Definition, n: NodeId) {
    Known(d, n) && NodeOf(d, n).kind.Skill?
  }

  /** The checks `WorkflowDefinition.__post_init__` makes on the graph. */
  predicate Validated(d: Definition) {
    && d.nodes != []
    && (forall i, j :: 0 <= i < j < |d.nodes| ==> d.nodes[i].id != d.nodes[j].id)
    && (forall e :: e in d.edges ==> Known(d, e.source) && Known(d, e.target))
    && (forall node :: node in d.nodes && node.inputSources.Some? ==>
          node.id !in node.inputSources.value && forall s :: s in node.inputSources.value ==> Known(d, s))
    && ((exists node :: node in d.nodes && node.checkedByWorkflow) ==>
          exists q :: q in d.nodes && IsQuality(q) && !q.checkedByWorkflow && q.kind.agentName == "outcome_evaluator"
            && forall other :: other in d.nodes && IsQuality(other) ==> other == q)
  }

  /** What validation is for: every node is found under its id, edges and declared
      sources lead to nodes, no node reads itself, and where a node asks to be
      checked, there is one QualityCheck node, run by the evaluator and not itself
      to be checked. */
  lemma {:induction false} ValidatedMeans(d: Definition)
    requires Validated(d)
    ensures d.nodes != [] && forall node :: node in d.nodes ==> Known(d, node.id) && NodeOf(d, node.id) == node
    ensures forall i, j :: 0 <= i < |d.nodes| && 0 <= j < |d.nodes| && d.nodes[i].id == d.nodes[j].id ==> i == j
    ensures forall e :: e in d.edges ==> Known(d, e.source) && Known(d, e.target)
    ensures forall node, s :: node in d.nodes && node.inputSources.Some? && s in node.inputSources.value ==>
              s != node.id && Known(d, s)
    ensures (exists node :: node in d.nodes && node.checkedByWorkflow) ==>
              exists q :: Known(d, q) && IsTheQualityNode(d, q) && !NodeOf(d, q).checkedByWorkflow
                          && NodeOf(d, q).kind.agentName == "outcome_evaluator"
  {
    hide NodeIn;
    forall node | node in d.nodes ensures Known(d, node.id) && NodeOf(d, node.id) == node {
      var i :| 0 <= i < |d.nodes| && d.nodes[i] == node;
      assert Known(d, node.id);
      var found := NodeOf(d, node.id);
      var j :| 0 <= j < |d.nodes| && d.nodes[j] == found;
      assert d.nodes[i].id == d.nodes[j].id;
    }
    if node :| node in d.nodes && node.checkedByWorkflow {
      var q :| q in d.nodes && IsQuality(q) && !q.checkedByWorkflow && q.kind.agentName == "outcome_evaluator"
        && forall other :: other in d.nodes && IsQuality(other) ==> other == q;
      assert Known(d, q.id) && IsTheQualityNode(d, q.id);
    }
  }

  predicate IsTarget(edges: seq<Edge>, n: NodeId) {
    exists i :: 0 <= i < |edges| && edges[i].condition != DEFECT && edges[i].target == n
  }

  function InitialIn(nodes: seq<Node>, edges: seq<Edge>): (r: seq<NodeId>)
    ensures forall n :: n in r <==> (exists i :: 0 <= i < |nodes| && nodes[i].id == n) && !IsTarget(edges, n)
  {
    if nodes == [] then []
    else
      var rest := InitialIn(nodes[1..], edges);
      if IsTarget(edges, nodes[0].id) then rest else [nodes[0].id] + rest
  }

  /** A defect edge is a back-edge and does not make its target non-initial. */
  function InitialNodes(d: Definition): seq<NodeId> {
    InitialIn(d.nodes, d.edges)
  }

  predicate Opens(e: Edge, n: NodeId, condition: Option<string>) {
    e.source == n && (e.condition.None? || e.condition == condition)
  }

  function SuccessorsIn(edges: seq<Edge>, n: NodeId, condition: Option<string>): (r: seq<NodeId>)
    ensures forall m :: m in r <==>
      exists i :: 0 <= i < |edges| && Opens(edges[i], n, condition) && edges[i].target == m
  {
    if edges == [] then []
    else
      var rest := SuccessorsIn(edges[1..], n, condition);
      if Opens(edges[0], n, condition) then [edges[0].target] + rest else rest
  }

  function Successors(d: Definition, n: NodeId, condition: Option<string>): seq<NodeId> {
    SuccessorsIn(d.edges, n, condition)
  }

  function SourcesIn(edges: seq<Edge>, n: NodeId): seq<NodeId> {
    if edges == [] then []
    else if edges[0].target == n && edges[0].condition.None? then [edges[0].source] + SourcesIn(edges[1..], n)
    else SourcesIn(edges[1..], n)
  }

  /** The shared outputs a node may read: declared, or its direct predecessors. */
  function InputSources(d: Definition, n: NodeId): seq<NodeId> {
    if Known(d, n) && NodeOf(d, n).inputSources.Some? then NodeOf(d, n).inputSources.value
    else SourcesIn(d.edges, n)
  }

  /** The one unconditional target all branches share, if there is exactly one. */
  function CommonJoin(d: Definition, branches: seq<NodeId>): (j: Option<NodeId>)
    ensures j.Some? ==> branches != [] && forall b :: b in branches ==> j.value in Successors(d, b, None)
  {
    if branches == [] then None
    else
      var first := Successors(d, branches[0], None);
      if first != [] && forall b :: b in branches ==> OnlyTarget(d, b, first[0])
      then Some(first[0]) else None
  }

  /** The join is found exactly when it is the only unconditional target of every branch. */
  lemma {:induction false} CommonJoinExactly(d: Definition, branches: seq<NodeId>, t: NodeId)
    ensures CommonJoin(d, branches) == Some(t) <==> branches != [] && forall b :: b in branches ==> OnlyTarget(d, b, t)
  {
    hide Successors;
    if branches != [] {
      var first := Successors(d, branches[0], None);
      assert branches[0] in branches;
      if OnlyTarget(d, branches[0], t) {
        assert first[0] == t;
      }
    }
  }

  /** Every unconditional edge out of `b` goes to `t`, and there is one. */
  predicate OnlyTarget(d: Definition, b: NodeId, t: NodeId) {
    var s := Successors(d, b, None);
    t in s && forall i :: 0 <= i < |s| ==> s[i] == t
  }

  function RoutedBy(routes: map<DefectCode, seq<NodeId>>, codes: seq<DefectCode>,
                    present: set<DefectCode>): seq<NodeId> {
    if codes == [] then []
    else
      var here := if codes[0] in present && codes[0] in routes then routes[codes[0]] else [];
      here + RoutedBy(routes, codes[1..], present)
  }

  /** Known nodes in order of first mention. */
  function Distinct(d: Definition, targets: seq<NodeId>): (r: seq<NodeId>)
    ensures forall n :: n in r <==> n in targets && Known(d, n)
    ensures NoRepeats(r)
  {
    if targets == [] then []
    else
      var kept := Distinct(d, targets[..|targets| - 1]);
      var last := targets[|targets| - 1];
      if Known(d, last) && last !in kept then kept + [last] else kept
  }

  function DefectEdgeTargets(edges: seq<Edge>, n: NodeId): seq<NodeId> {
    if edges == [] then []
    else if edges[0].source == n && edges[0].condition == DEFECT
      then [edges[0].target] + DefectEdgeTargets(edges[1..], n)
    else DefectEdgeTargets(edges[1..], n)
  }

  function Codes(defects: seq<Defect>): set<DefectCode> {
    set i | 0 <= i < |defects| :: defects[i].code
  }

  function CandidateTargets(d: Definition, quality: NodeId, defects: seq<Defect>): seq<NodeId> {
    var routed := RoutedBy(d.defectRoutes, CodesInOrder, Codes(defects));
    if routed != [] then routed else DefectEdgeTargets(d.edges, quality)
  }

  /** The branches a rejecting verdict sends the root back to. */
  function ReworkTargets(d: Definition, quality: NodeId, defects: seq<Defect>): (r: seq<NodeId>)
    ensures forall n :: n in r ==> Known(d, n)
    ensures NoRepeats(r)
  {
    Distinct(d, CandidateTargets(d, quality, defects))
  }

  /** The same query with the two local lists the program builds. */
  method CollectReworkTargets(d: Definition, quality: NodeId, defects: seq<Defect>) returns (result: seq<NodeId>)
    ensures result == ReworkTargets(d, quality, defects)
  {
    var targets := CollectRoutes(d.defectRoutes, Codes(defects));
    if targets == [] {
      targets := DefectEdgeTargets(d.edges, quality);
    }
    result := [];
    for i := 0 to |targets|
      invariant result == Distinct(d, targets[..i])
    {
      assert targets[..i + 1][..i] == targets[..i];
      if Known(d, targets[i]) && targets[i] !in result {
        result := result + [targets[i]];
      }
    }
    assert targets[..|targets|] == targets;
  }

  method CollectRoutes(routes: map<DefectCode, seq<NodeId>>, present: set<DefectCode>) returns (targets: seq<NodeId>)
    ensures targets == RoutedBy(routes, CodesInOrder, present)
  {
    targets := [];
    var rest := CodesInOrder;
    while rest != []
      invariant targets + RoutedBy(routes, rest, present) == RoutedBy(routes, CodesInOrder, present)
      decreases |rest|
    {
      var here := if rest[0] in present && rest[0] in routes then routes[rest[0]] else [];
      assert targets + (here + RoutedBy(routes, rest[1..], present))
        == targets + here + RoutedBy(routes, rest[1..], present);
      targets, rest := targets + here, rest[1..];
    }
  }

  // ---------------------------------------------------------------------
  // Graph-level notions
  // ---------------------------------------------------------------------

  /** `q` is the definition's one QualityCheck node. */
  predicate IsTheQualityNode(d: Definition, q: NodeId) {
    && Known(d, q) && IsQuality(NodeOf(d, q))
    && forall node :: node in d.nodes && IsQuality(node) ==> node.id == q
  }

  /** `depth` falls along every edge that is not a defect edge: the forward graph has no cycle. */
  ghost predicate ForwardDepth(d: Definition, depth: NodeId -> nat) {
    forall e :: e in d.edges && e.condition != DEFECT ==> depth(e.source) > depth(e.target)
  }

  function ForwardArcs(d: Definition): set<(NodeId, NodeId)> {
    set e | e in d.edges && e.condition != DEFECT :: (e.source, e.target)
  }

  /** Such a depth exists exactly when the forward graph has no closed walk. */
  lemma {:induction false} ForwardDepthIffAcyclic(d: Definition)
    ensures (exists depth: NodeId -> nat :: ForwardDepth(d, depth)) <==> Acyclic(ForwardArcs(d))
  {
    hide Acyclic;
    forall depth: NodeId -> nat ensures ForwardDepth(d, depth) <==> Falls(ForwardArcs(d), depth) {
      if Falls(ForwardArcs(d), depth) {
        forall e | e in d.edges && e.condition != DEFECT ensures depth(e.source) > depth(e.target) {
          assert (e.source, e.target) in ForwardArcs(d);
        }
      }
    }
    DepthIffAcyclic(ForwardArcs(d));
  }

  /** No two forward edges join the same pair of nodes. */
  predicate SimpleForward(d: Definition) {
    SimpleEdges(d.edges)
  }

  ghost predicate WellFormed(d: Definition, q: NodeId, depth: NodeId -> nat) {
    && Validated(d)
    && IsTheQualityNode(d, q)
    && ForwardDepth(d, depth)
    && SimpleForward(d)
  }

  lemma SuccessorIsKnownAndLower(d: Definition, q: NodeId, depth: NodeId -> nat, n: NodeId, c: Option<string>,
                                 m: NodeId)
    requires WellFormed(d, q, depth) && c != DEFECT
    requires m in Successors(d, n, c)
    ensures Known(d, m) && depth(n) > depth(m)
  {
  }

  predicate SimpleEdges(edges: seq<Edge>) {
    forall i, j :: 0 <= i < j < |edges| && edges[i].condition != DEFECT && edges[j].condition != DEFECT
      ==> (edges[i].source != edges[j].source || edges[i].target != edges[j].target)
  }

  lemma {:induction false} SuccessorsDistinct(edges: seq<Edge>, n: NodeId, c: Option<string>)
    requires c != DEFECT && SimpleEdges(edges)
    ensures NoRepeats(SuccessorsIn(edges, n, c))
  {
    if edges != [] {
      assert forall i :: 0 <= i < |edges| - 1 ==> edges[1..][i] == edges[i + 1];
      SuccessorsDistinct(edges[1..], n, c);
      assert Opens(edges[0], n, c) ==> edges[0].target !in SuccessorsIn(edges[1..], n, c);
    }
  }

  /** A way from `start` to `n` along unconditional edges that does not leave the quality node. */
  ghost predicate FreePath(d: Definition, q: NodeId, start: NodeId, n: NodeId, p: seq<NodeId>) {
    && |p| > 0 && p[0] == start && p[|p| - 1] == n
    && forall i :: 0 <= i < |p| - 1 ==> p[i] != q && p[i + 1] in Successors(d, p[i], None)
  }

  /** Reachable only through the quality node. */
  ghost predicate Gated(d: Definition, q: NodeId, n: NodeId) {
    && n != q
    && InitialNodes(d) != []
    && !exists p :: FreePath(d, q, InitialNodes(d)[0], n, p)
  }

  lemma FreeExtends(d: Definition, q: NodeId, n: NodeId, m: NodeId)
    requires n != q && !Gated(d, q, n) && m in Successors(d, n, None)
    ensures !Gated(d, q, m)
  {
    if InitialNodes(d) != [] {
      var p :| FreePath(d, q, InitialNodes(d)[0], n, p);
      var p' := p + [m];
      assert p'[..|p|] == p;
      assert FreePath(d, q, InitialNodes(d)[0], m, p');
    }
  }

  lemma InitialIsFree(d: Definition, q: NodeId)
    requires InitialNodes(d) != []
    ensures !Gated(d, q, InitialNodes(d)[0])
  {
    assert FreePath(d, q, InitialNodes(d)[0], InitialNodes(d)[0], [InitialNodes(d)[0]]);
  }

  /** Where the engine goes from a node that is not the quality node. */
  datatype Hop = End | To(node: NodeId) | Broken

  function NextHop(d: Definition, n: NodeId): Hop {
    var s := Successors(d, n, None);
    if |s| == 0 then End
    else if |s| == 1 then To(s[0])
    else match CommonJoin(d, s) case Some(j) => To(j) case None => Broken
  }

  lemma NextHopLower(d: Definition, q: NodeId, depth: NodeId -> nat, n: NodeId)
    requires WellFormed(d, q, depth)
    ensures NextHop(d, n).To? ==> depth(n) > depth(NextHop(d, n).node)
  {
    var s := Successors(d, n, None);
    if |s| > 1 && NextHop(d, n).To? {
      SuccessorIsKnownAndLower(d, q, depth, n, None, s[0]);
      SuccessorIsKnownAndLower(d, q, depth, s[0], None, NextHop(d, n).node);
    } else if |s| == 1 {
      SuccessorIsKnownAndLower(d, q, depth, n, None, s[0]);
    }
  }

  /** The engine's walk from `n` arrives at the quality node. */
  ghost predicate Hits(d: Definition, q: NodeId, depth: NodeId -> nat, n: NodeId)
    requires WellFormed(d, q, depth)
    decreases depth(n)
  {
    n == q ||
    (NextHopLower(d, q, depth, n);
     NextHop(d, n).To? && Hits(d, q, depth, NextHop(d, n).node))
  }

  /** The engine's walk from `n` runs off the graph without meeting the quality node. */
  ghost predicate Escapes(d: Definition, q: NodeId, depth: NodeId -> nat, n: NodeId)
    requires WellFormed(d, q, depth)
    decreases depth(n)
  {
    n != q &&
    (NextHopLower(d, q, depth, n);
     NextHop(d, n).End? || (NextHop(d, n).To? && Escapes(d, q, depth, NextHop(d, n).node)))
  }

  lemma {:induction false} HitsOrEscapes(d: Definition, q: NodeId, depth: NodeId -> nat, n: NodeId)
    requires WellFormed(d, q, depth)
    ensures !(Hits(d, q, depth, n) && Escapes(d, q, depth, n))
    decreases depth(n)
  {
    NextHopLower(d, q, depth, n);
    if NextHop(d, n).To? {
      HitsOrEscapes(d, q, depth, NextHop(d, n).node);
    }
  }

  /** The quality node never runs as one branch of a fan-out. */
  predicate QualityAlone(d: Definition, q: NodeId) {
    forall i :: 0 <= i < |d.nodes| ==>
      var s := Successors(d, d.nodes[i].id, None);
      q in s ==> |s| == 1
  }

  /** An empty defect list reads as one schema defect. */
  function NormaliseDefects(defects: seq<Defect>): seq<Defect> {
    if defects == [] then [Defect(SchemaInvalid, "")] else defects
  }

  predicate Reworkable(defects: seq<Defect>) {
    defects != [] && forall i :: 0 <= i < |defects| ==> !defects[i].code.SafetyViolation?
  }

  /** No verdict can send the root to a gated node, nor alone to a node whose
      walk leaves the graph without being checked again. */
  ghost predicate SafeRoutes(d: Definition, q: NodeId, depth: NodeId -> nat)
    requires WellFormed(d, q, depth)
  {
    forall defects :: Reworkable(defects) ==> SafeRoute(d, q, depth, ReworkTargets(d, q, defects))
  }

  ghost predicate SafeRoute(d: Definition, q: NodeId, depth: NodeId -> nat, targets: seq<NodeId>)
    requires WellFormed(d, q, depth)
  {
    && (forall t :: t in targets ==> !Gated(d, q, t))
    && (|targets| == 1 ==> !Escapes(d, q, depth, targets[0]))
  }

  /** `n` can be sent back by some verdict. */
  ghost predicate IsReworkTarget(d: Definition, q: NodeId, n: NodeId) {
    exists defects :: Reworkable(defects) && n in ReworkTargets(d, q, defects)
  }

  /** No verdict sends the quality node back as one branch of several. */
  ghost predicate QualityReworkedAlone(d: Definition, q: NodeId) {
    forall defects :: Reworkable(defects) && |ReworkTargets(d, q, defects)| > 1 ==> q !in ReworkTargets(d, q, defects)
  }

  /** Ahead of the gate, `n` reads `s`. */
  ghost predicate ReadsAhead(d: Definition, q: NodeId, n: NodeId, s: NodeId) {
    n != q && !Gated(d, q, n) && s in InputSources(d, n)
  }

  /** A verdict with `defects` renews `t`, and not `n` which reads it. */
  ghost predicate LeftBehind(d: Definition, q: NodeId, defects: seq<Defect>, t: NodeId, n: NodeId) {
    && Reworkable(defects) && t in ReworkTargets(d, q, defects)
    && ReadsAhead(d, q, n, t) && n !in ReworkTargets(d, q, defects)
  }

  /** Ahead of the gate nothing reads the verdict. */
  ghost predicate VerdictUnread(d: Definition, q: NodeId) {
    forall n :: !ReadsAhead(d, q, n, q)
  }

  /** Ahead of the gate, a rework that renews a node renews every reader of it
      but the quality node in the same go. */
  ghost predicate ReworkTakesReaders(d: Definition, q: NodeId) {
    forall defects, t, n :: !LeftBehind(d, q, defects, t, n)
  }
}
