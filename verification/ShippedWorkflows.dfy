/** The six-resource course workflow meets every condition the engine's
    guarantees ask for, so they hold of it outright. */
module ShippedWorkflows {
  import opened Options
  import opened Walks
  import opened Lifecycle
  import opened WorkflowDefinitions
  import opened StepRows
  import opened EngineSpec
  import opened EngineInvariants
  import EngineSafety
  import EngineStaleness
  import EngineCompleteness
  import EngineLiveness
  import EngineExactness

  const PATH := "generate_path"
  const QC := "quality_check"
  const PERSIST := "persist_artifacts"

  const Producers: seq<NodeId> :=
    ["resource_doc", "resource_ppt", "resource_mindmap", "resource_quiz", "resource_lab", "resource_video"]

  /** The canonical producer of each resource node. */
  function SkillOf(n: NodeId): NodeKind {
    match n
    case "resource_doc" => Skill("doc_archivist", "GenerateCourseDoc")
    case "resource_ppt" => Skill("doc_archivist", "GenerateCoursePPT")
    case "resource_mindmap" => Skill("doc_archivist", "GenerateMindmap")
    case "resource_quiz" => Skill("competition_advisor", "GenerateQuiz")
    case "resource_lab" => Skill("topic_explorer", "GenerateHandsOnLab")
    case _ => Skill("doc_archivist", "GenerateVideoStoryboard")
  }

  function ProducerNode(n: NodeId): Node {
    Node(n, SkillOf(n), true, Some([PATH]))
  }

  function ProducerNodes(ids: seq<NodeId>): seq<Node> {
    seq(|ids|, i requires 0 <= i < |ids| => ProducerNode(ids[i]))
  }

  function EdgesFrom(source: NodeId, targets: seq<NodeId>, condition: Option<string>): seq<Edge> {
    seq(|targets|, i requires 0 <= i < |targets| => Edge(source, targets[i], condition))
  }

  function EdgesTo(sources: seq<NodeId>, target: NodeId): seq<Edge> {
    seq(|sources|, i requires 0 <= i < |sources| => Edge(sources[i], target, None))
  }

  const Reworkables: set<DefectCode> :=
    {EvidenceMissing, FactConflict, SchemaInvalid, InstructionalMismatch, CitationMismatch}

  const PathNode := Node(PATH, Skill("task_orchestrator", "GenerateLearningPath"), true, Some([]))
  const QualityNode := Node(QC, Skill("outcome_evaluator", "QualityCheck"), false, Some(Producers))
  const PersistNode := Node(PERSIST, Action("PersistResourceFanout"), false, Some(Producers + [QC]))

  const FullV2: Definition := Definition(
    [PathNode] + ProducerNodes(Producers) + [QualityNode, PersistNode],
    EdgesFrom(PATH, Producers, None) + EdgesTo(Producers, QC) + [Edge(QC, PERSIST, ACCEPT)]
      + EdgesFrom(QC, Producers, DEFECT),
    1,
    map c | c in Reworkables :: Producers)

  const Depth: NodeId -> nat := n => if n == PATH then 3 else if n == PERSIST then 0 else if n == QC then 1 else 2

  lemma ProducersAre()
    ensures NoRepeats(Producers)
    ensures forall n :: n in Producers ==> n != PATH && n != QC && n != PERSIST
  {
    var p := Producers;
    assert p[0] == "resource_doc" && p[1] == "resource_ppt" && p[2] == "resource_mindmap" && p[3] == "resource_quiz"
        && p[4] == "resource_lab" && p[5] == "resource_video";
    forall i, j | 0 <= i < j < 6 ensures p[i] != p[j] {
      assert p[i][9] != p[j][9];
    }
    forall n | n in p ensures n != PATH && n != QC && n != PERSIST {
      assert n[0] == 'r';
    }
  }

  lemma NodesAre()
    ensures forall node :: node in FullV2.nodes <==>
              || node == PathNode || node == QualityNode || node == PersistNode
              || exists i :: 0 <= i < 6 && node == ProducerNode(Producers[i])
    ensures forall n :: Known(FullV2, n) <==> n in Producers || n == PATH || n == QC || n == PERSIST
  {
    var d := FullV2;
    assert d.nodes[0] == PathNode && d.nodes[7] == QualityNode && d.nodes[8] == PersistNode;
    assert forall i :: 0 <= i < 6 ==> d.nodes[i + 1] == ProducerNode(Producers[i]) && d.nodes[i + 1].id == Producers[i];
    forall node | node in d.nodes
      ensures || node == PathNode || node == QualityNode || node == PersistNode
              || exists i :: 0 <= i < 6 && node == ProducerNode(Producers[i])
    {
      var k :| 0 <= k < |d.nodes| && d.nodes[k] == node;
      if 1 <= k <= 6 {
        assert node == ProducerNode(Producers[k - 1]);
      }
    }
    forall n | Known(d, n) ensures n in Producers || n == PATH || n == QC || n == PERSIST {
      var k :| 0 <= k < |d.nodes| && d.nodes[k].id == n;
      assert d.nodes[k] in d.nodes;
    }
  }

  /** Every edge, by where it goes. */
  lemma EdgesAre(e: Edge)
    requires e in FullV2.edges
    ensures || (e.source == PATH && e.target in Producers && e.condition == None)
            || (e.source in Producers && e.target == QC && e.condition == None)
            || e == Edge(QC, PERSIST, ACCEPT)
            || (e.source == QC && e.target in Producers && e.condition == DEFECT)
  {
  }

  lemma ProducerIsNoQuality(n: NodeId)
    ensures !IsQuality(ProducerNode(n))
  {
    var quality := "QualityCheck";
    assert SkillOf(n).skillName[0] != quality[0];
  }

  lemma NodeIds(i: nat)
    requires i < 9
    ensures |FullV2.nodes| == 9
    ensures FullV2.nodes[i].id == if i == 0 then PATH else if i < 7 then Producers[i - 1] else if i == 7 then QC
      else PERSIST
  {
    var d := FullV2;
    assert d.nodes[0] == PathNode && d.nodes[7] == QualityNode && d.nodes[8] == PersistNode;
    assert 1 <= i <= 6 ==> d.nodes[i] == ProducerNode(Producers[i - 1]);
  }

  lemma IdsDistinct()
    ensures forall i, j :: 0 <= i < j < |FullV2.nodes| ==> FullV2.nodes[i].id != FullV2.nodes[j].id
  {
    hide FullV2;
    ProducersAre();
    NodeIds(0);
    forall i, j | 0 <= i < j < |FullV2.nodes| ensures FullV2.nodes[i].id != FullV2.nodes[j].id {
      NodeIds(i);
      NodeIds(j);
      if 0 < i && j < 7 {
        assert Producers[i - 1] != Producers[j - 1];
      }
      assert j == 8 ==> PERSIST != QC && PERSIST != PATH;
      assert i == 0 && j == 7 ==> QC[0] != PATH[0];
    }
  }

  lemma QualityIs()
    ensures IsTheQualityNode(FullV2, QC) && QualityNode in FullV2.nodes && IsQuality(QualityNode)
    ensures forall node :: node in FullV2.nodes && IsQuality(node) ==> node == QualityNode
  {
    NodesAre();
    ProducersAre();
    forall node | node in FullV2.nodes && IsQuality(node) ensures node == QualityNode {
      if i :| 0 <= i < 6 && node == ProducerNode(Producers[i]) {
        ProducerIsNoQuality(Producers[i]);
      }
      assert PathNode.kind.skillName[0] == 'G';
    }
    assert FullV2.nodes[7] == QualityNode;
    assert Known(FullV2, QC);
    IdsDistinct();
    var node := NodeOf(FullV2, QC);
    var k :| 0 <= k < |FullV2.nodes| && FullV2.nodes[k] == node;
    NodeIds(7);
  }

  lemma SourcesKnown()
    ensures forall node :: node in FullV2.nodes && node.inputSources.Some? ==>
              node.id !in node.inputSources.value && forall s :: s in node.inputSources.value ==> Known(FullV2, s)
  {
    hide FullV2, Known;
    NodesAre();
    ProducersAre();
  }

  lemma Valid()
    ensures Validated(FullV2)
  {
    hide FullV2, Known, IsQuality;
    NodesAre();
    IdsDistinct();
    SourcesKnown();
    QualityIs();
    NodeIds(0);
    assert QualityNode.kind.agentName == "outcome_evaluator";
    forall e | e in FullV2.edges ensures Known(FullV2, e.source) && Known(FullV2, e.target) {
      EdgesAre(e);
    }
  }

  lemma EdgeAt(i: nat)
    requires i < |FullV2.edges| && FullV2.edges[i].condition != DEFECT
    ensures i < 13
    ensures FullV2.edges[i] == if i < 6 then Edge(PATH, Producers[i], None)
      else if i < 12 then Edge(Producers[i - 6], QC, None) else Edge(QC, PERSIST, ACCEPT)
  {
  }

  lemma Simple()
    ensures SimpleForward(FullV2)
  {
    hide FullV2;
    ProducersAre();
    var edges := FullV2.edges;
    forall i, j | 0 <= i < j < |edges| && edges[i].condition != DEFECT && edges[j].condition != DEFECT
      ensures edges[i].source != edges[j].source || edges[i].target != edges[j].target
    {
      EdgeAt(i);
      EdgeAt(j);
      if j < 6 {
        assert Producers[i] != Producers[j];
      } else if 6 <= i && j < 12 {
        assert Producers[i - 6] != Producers[j - 6];
      } else {
        assert PERSIST[0] == 'p' && QC[0] == 'q' && PATH[0] == 'g';
        assert i < 6 <= j < 12 ==> Producers[j - 6] in Producers;
      }
    }
  }

  lemma Falls()
    ensures ForwardDepth(FullV2, Depth)
  {
    hide FullV2;
    ProducersAre();
    assert PERSIST[0] == 'p' && QC[0] == 'q' && PATH[0] == 'g';
    forall e | e in FullV2.edges && e.condition != DEFECT ensures Depth(e.source) > Depth(e.target) {
      EdgesAre(e);
    }
  }

  lemma {:induction false} FullV2WellFormed()
    ensures WellFormed(FullV2, QC, Depth)
  {
    hide FullV2, Validated, IsTheQualityNode, ForwardDepth, SimpleForward;
    Valid();
    QualityIs();
    Falls();
    Simple();
  }

  // ------------------------------------------------ routing

  lemma OnwardFrom(n: NodeId, m: NodeId)
    requires m in Successors(FullV2, n, None)
    ensures (n == PATH && m in Producers) || (n in Producers && m == QC)
  {
    hide FullV2;
    var i :| 0 <= i < |FullV2.edges| && Opens(FullV2.edges[i], n, None) && FullV2.edges[i].target == m;
    EdgesAre(FullV2.edges[i]);
  }

  lemma ToProducer(n: NodeId)
    requires n in Producers
    ensures n in Successors(FullV2, PATH, None) && QC in Successors(FullV2, n, None)
  {
    var i :| 0 <= i < 6 && Producers[i] == n;
    assert FullV2.edges[i] == Edge(PATH, n, None) && FullV2.edges[i + 6] == Edge(n, QC, None);
    assert Opens(FullV2.edges[i], PATH, None) && Opens(FullV2.edges[i + 6], n, None);
  }

  lemma SuccessorsDistinctFrom(n: NodeId, c: Option<string>)
    requires c != DEFECT
    ensures NoRepeats(Successors(FullV2, n, c))
  {
    hide FullV2;
    Simple();
    SuccessorsDistinct(FullV2.edges, n, c);
  }

  lemma Alone()
    ensures QualityAlone(FullV2, QC)
  {
    hide FullV2, NextHop;
    ProducersAre();
    forall i | 0 <= i < |FullV2.nodes| && QC in Successors(FullV2, FullV2.nodes[i].id, None)
      ensures |Successors(FullV2, FullV2.nodes[i].id, None)| == 1
    {
      var n := FullV2.nodes[i].id;
      OnwardFrom(n, QC);
      assert QC !in Producers;
      OneHop(n);
    }
  }

  lemma OneHop(n: NodeId)
    requires n in Producers
    ensures Successors(FullV2, n, None) == [QC]
  {
    hide FullV2, Successors, CommonJoin;
    ToProducer(n);
    ProducersAre();
    SuccessorsDistinctFrom(n, None);
    var s := Successors(FullV2, n, None);
    forall i | 0 <= i < |s| ensures s[i] == QC {
      OnwardFrom(n, s[i]);
    }
    assert s[0] == QC && s[|s| - 1] == QC;
  }

  lemma Initial()
    ensures InitialNodes(FullV2) == [PATH]
  {
    var d := FullV2;
    ProducersAre();
    NodeIds(0);
    forall i | 1 <= i < 9 ensures IsTarget(d.edges, d.nodes[i].id) {
      NodeIds(i);
      var k := if i < 7 then i - 1 else if i == 7 then 6 else 12;
      assert d.edges[k].target == d.nodes[i].id && d.edges[k].condition != DEFECT;
    }
    assert !IsTarget(d.edges, PATH) by { PathIsNoTarget(); }
    var rest := d.nodes[1..];
    assert forall i :: 0 <= i < |rest| ==> rest[i] == d.nodes[i + 1];
    var more := InitialIn(rest, d.edges);
    MemberIfAny(more);
    assert forall n :: n !in more;
  }

  lemma MemberIfAny(s: seq<NodeId>)
    ensures s == [] || exists n :: n in s
  {
    if s != [] {
      assert s[0] in s;
    }
  }

  lemma PathIsNoTarget()
    ensures !IsTarget(FullV2.edges, PATH)
  {
    hide FullV2;
    ProducersAre();
    assert PATH[0] == 'g' && QC[0] == 'q' && PERSIST[0] == 'p';
    forall i | 0 <= i < |FullV2.edges| && FullV2.edges[i].condition != DEFECT ensures FullV2.edges[i].target != PATH {
      EdgesAre(FullV2.edges[i]);
    }
  }

  lemma {:induction false} RoutedWithin(codes: seq<DefectCode>, present: set<DefectCode>, n: NodeId)
    requires n in RoutedBy(FullV2.defectRoutes, codes, present)
    ensures n in Producers
    decreases |codes|
  {
    var here := if codes[0] in present && codes[0] in FullV2.defectRoutes then FullV2.defectRoutes[codes[0]] else [];
    if n !in here {
      RoutedWithin(codes[1..], present, n);
    }
  }

  lemma {:induction false} DefectEdgesWithin(edges: seq<Edge>, n: NodeId)
    requires forall i :: 0 <= i < |edges| ==> edges[i] in FullV2.edges
    requires n in DefectEdgeTargets(edges, QC)
    ensures n in Producers
    decreases |edges|
  {
    hide FullV2;
    if edges[0].source == QC && edges[0].condition == DEFECT && edges[0].target == n {
      EdgesAre(edges[0]);
      assert PATH[0] == 'g' && QC[0] == 'q';
    } else {
      assert forall i :: 0 <= i < |edges| - 1 ==> edges[1..][i] == edges[i + 1];
      DefectEdgesWithin(edges[1..], n);
    }
  }

  /** Whatever the verdict, only resource nodes are sent back. */
  lemma SentBackAreProducers(defects: seq<Defect>, n: NodeId)
    requires n in ReworkTargets(FullV2, QC, defects)
    ensures n in Producers
  {
    hide FullV2, RoutedBy, DefectEdgeTargets;
    if RoutedBy(FullV2.defectRoutes, CodesInOrder, Codes(defects)) != [] {
      RoutedWithin(CodesInOrder, Codes(defects), n);
    } else {
      DefectEdgesWithin(FullV2.edges, n);
    }
  }

  lemma ProducerIsFreeAndHits(n: NodeId)
    requires n in Producers && WellFormed(FullV2, QC, Depth)
    ensures !Gated(FullV2, QC, n) && Hits(FullV2, QC, Depth, n) && !Escapes(FullV2, QC, Depth, n)
  {
    hide FullV2, WellFormed, Gated, Successors;
    Initial();
    InitialIsFree(FullV2, QC);
    ToProducer(n);
    assert PATH[0] == 'g' && QC[0] == 'q';
    FreeExtends(FullV2, QC, PATH, n);
    OneHop(n);
    assert NextHop(FullV2, n) == To(QC);
    NextHopLower(FullV2, QC, Depth, n);
    assert Hits(FullV2, QC, Depth, QC);
    HitsOrEscapes(FullV2, QC, Depth, n);
  }

  lemma Safe()
    requires WellFormed(FullV2, QC, Depth)
    ensures SafeRoutes(FullV2, QC, Depth)
  {
    hide FullV2, WellFormed, Gated, Escapes, ReworkTargets, Reworkable;
    forall defects | Reworkable(defects) ensures SafeRoute(FullV2, QC, Depth, ReworkTargets(FullV2, QC, defects)) {
      forall t | t in ReworkTargets(FullV2, QC, defects)
        ensures !Gated(FullV2, QC, t) && !Escapes(FullV2, QC, Depth, t) {
        SentBackAreProducers(defects, t);
        ProducerIsFreeAndHits(t);
      }
    }
  }

  lemma {:induction false} FreeStays(p: seq<NodeId>, n: NodeId, i: nat)
    requires FreePath(FullV2, QC, PATH, n, p) && i < |p|
    ensures p[i] == PATH || p[i] in Producers || p[i] == QC
  {
    hide FullV2;
    if i > 0 {
      FreeStays(p, n, i - 1);
      assert p[i - 1] != QC && p[i - 1 + 1] in Successors(FullV2, p[i - 1], None);
      OnwardFrom(p[i - 1], p[i]);
    }
  }

  /** Nothing but an accepting verdict leads to the persistence of artifacts. */
  lemma PersistGated()
    ensures Gated(FullV2, QC, PERSIST)
  {
    hide FullV2, FreePath;
    Initial();
    ProducersAre();
    assert PATH[0] == 'g' && QC[0] == 'q' && PERSIST[0] == 'p';
    forall p ensures !FreePath(FullV2, QC, PATH, PERSIST, p) {
      if FreePath(FullV2, QC, PATH, PERSIST, p) {
        FreeEnds(p, PERSIST);
        FreeStays(p, PERSIST, |p| - 1);
      }
    }
  }

  lemma FreeEnds(p: seq<NodeId>, n: NodeId)
    requires FreePath(FullV2, QC, PATH, n, p)
    ensures |p| > 0 && p[|p| - 1] == n
  {
  }

  lemma {:induction false} SourcesWithin(edges: seq<Edge>, n: NodeId, s: NodeId)
    requires s in SourcesIn(edges, n)
    ensures Edge(s, n, None) in edges
    decreases |edges|
  {
    if !(edges[0].target == n && edges[0].condition.None? && edges[0].source == s) {
      SourcesWithin(edges[1..], n, s);
    }
  }

  /** The sources of a node other than the quality node, before the gate. */
  lemma ReadsPathOnly(n: NodeId, s: NodeId)
    requires n != QC && n != PERSIST && s in InputSources(FullV2, n)
    ensures s == PATH
  {
    hide FullV2, Known;
    NodesAre();
    ProducersAre();
    if Known(FullV2, n) {
      var node := NodeOf(FullV2, n);
      assert node in FullV2.nodes && node.id == n;
    } else {
      SourcesWithin(FullV2.edges, n, s);
      EdgesAre(Edge(s, n, None));
    }
  }

  lemma QualityNotSentBack()
    ensures QualityReworkedAlone(FullV2, QC)
  {
    hide FullV2, ReworkTargets, Reworkable;
    ProducersAre();
    forall defects | Reworkable(defects) ensures QC !in ReworkTargets(FullV2, QC, defects) {
      if QC in ReworkTargets(FullV2, QC, defects) {
        SentBackAreProducers(defects, QC);
      }
    }
  }

  lemma NotSentBack(t: NodeId)
    requires t !in Producers
    ensures !IsReworkTarget(FullV2, QC, t)
  {
    hide FullV2, ReworkTargets, Reworkable;
    forall defects | Reworkable(defects) ensures t !in ReworkTargets(FullV2, QC, defects) {
      if t in ReworkTargets(FullV2, QC, defects) {
        SentBackAreProducers(defects, t);
      }
    }
  }

  lemma PathReadAhead(n: NodeId, s: NodeId)
    ensures ReadsAhead(FullV2, QC, n, s) ==> s == PATH
  {
    hide FullV2, InputSources, Gated;
    PersistGated();
    if ReadsAhead(FullV2, QC, n, s) {
      ReadsPathOnly(n, s);
    }
  }

  lemma NothingLeftBehind()
    ensures VerdictUnread(FullV2, QC) && ReworkTakesReaders(FullV2, QC)
  {
    hide FullV2, ReadsAhead, ReworkTargets, Reworkable;
    PathNotSentBack();
    forall n ensures !ReadsAhead(FullV2, QC, n, QC) {
      PathReadAhead(n, QC);
    }
    forall defects, t, n ensures !LeftBehind(FullV2, QC, defects, t, n) {
      PathReadAhead(n, t);
    }
  }

  /** A root of this workflow after any claims, crashes and control moves. */
  ghost function FullV2Run(episodes: seq<Episode>): Db {
    FullV2WellFormed();
    After(FullV2, QC, Depth, NewRoot, episodes)
  }

  /** The fan-out of the path meets at the quality node. */
  lemma PathHop()
    ensures NextHop(FullV2, PATH) == To(QC) && Successors(FullV2, PATH, None) == EngineStaleness.Branches(FullV2, PATH)
  {
    hide FullV2, Successors, CommonJoin;
    ProducersAre();
    var s := Successors(FullV2, PATH, None);
    ToProducer(Producers[0]);
    ToProducer(Producers[1]);
    var i :| 0 <= i < |s| && s[i] == Producers[0];
    var j :| 0 <= j < |s| && s[j] == Producers[1];
    assert |s| > 1;
    forall b | b in s ensures OnlyTarget(FullV2, b, QC) {
      OnwardFrom(PATH, b);
      assert PATH[0] == 'g';
      OneHop(b);
    }
    CommonJoinExactly(FullV2, s, QC);
  }

  lemma StartsTowardsQuality()
    requires WellFormed(FullV2, QC, Depth)
    ensures InitialHits(FullV2, QC, Depth) && InitialNodes(FullV2) == [PATH]
    ensures forall n :: n in Producers ==> EngineStaleness.Runs(FullV2, QC, Depth, PATH, n)
  {
    hide FullV2, WellFormed, Successors, NextHop;
    Initial();
    PathHop();
    NextHopLower(FullV2, QC, Depth, PATH);
    assert PATH[0] == 'g' && QC[0] == 'q';
    assert Hits(FullV2, QC, Depth, QC);
    assert Hits(FullV2, QC, Depth, PATH);
    forall n | n in Producers ensures EngineStaleness.Runs(FullV2, QC, Depth, PATH, n) {
      ToProducer(n);
    }
  }

  lemma BehindTheGate()
    ensures Successors(FullV2, QC, ACCEPT) == [PERSIST] && Successors(FullV2, PERSIST, None) == []
  {
    hide FullV2, Successors;
    ProducersAre();
    assert QC[0] == 'q' && PERSIST[0] == 'p' && PATH[0] == 'g';
    var s := Successors(FullV2, QC, ACCEPT);
    SuccessorsDistinctFrom(QC, ACCEPT);
    forall m | m in s ensures m == PERSIST {
      AcceptedFrom(m);
    }
    LeadsToPersist();
    assert forall i :: 0 <= i < |s| ==> s[i] in s;
    assert s[0] == PERSIST && s[|s| - 1] == PERSIST;
    var t := Successors(FullV2, PERSIST, None);
    forall m ensures m !in t {
      if m in t {
        OnwardFrom(PERSIST, m);
      }
    }
    MemberIfAny(t);
  }

  lemma AcceptedFrom(m: NodeId)
    requires m in Successors(FullV2, QC, ACCEPT)
    ensures m == PERSIST
  {
    hide FullV2;
    ProducersAre();
    assert QC[0] == 'q' && PATH[0] == 'g';
    var i :| 0 <= i < |FullV2.edges| && Opens(FullV2.edges[i], QC, ACCEPT) && FullV2.edges[i].target == m;
    EdgesAre(FullV2.edges[i]);
  }

  lemma LeadsToPersist()
    ensures PERSIST in Successors(FullV2, QC, ACCEPT)
  {
    assert FullV2.edges[12] == Edge(QC, PERSIST, ACCEPT);
    assert Opens(FullV2.edges[12], QC, ACCEPT);
  }

  /** Main result: the workflow can succeed, with every node of its walk run. */
  lemma {:induction false} FullV2CanSucceed() returns (w: World)
    ensures var end := FullV2Run([ByEngine(w)]);
            end.status == Succeeded && Accepted(end.rows, QC) && forall n :: n in Producers ==>
              Latest(end.rows, n).Some?
  {
    hide FullV2, WellFormed, QualityAlone, Successors, After, Latest, Claimed, Accepted, EngineStaleness.Runs;
    hide InitialHits, InitialNodes;
    FullV2WellFormed();
    Alone();
    StartsTowardsQuality();
    BehindTheGate();
    PersistEscapes();
    w := EngineLiveness.UndisturbedSucceeds(FullV2, QC, Depth);
    EngineExactness.AfterOne(FullV2, QC, Depth, w);
  }

  lemma PersistEscapes()
    requires WellFormed(FullV2, QC, Depth)
    ensures Escapes(FullV2, QC, Depth, PERSIST)
  {
    hide FullV2, WellFormed, Successors;
    BehindTheGate();
    assert QC[0] == 'q' && PERSIST[0] == 'p';
    NextHopLower(FullV2, QC, Depth, PERSIST);
  }

  lemma ProducersFeedQuality(n: NodeId)
    requires n in Producers
    ensures n in InputSources(FullV2, QC)
  {
    hide FullV2;
    NodesAre();
    ProducersAre();
    assert PATH[0] == 'g' && QC[0] == 'q' && PERSIST[0] == 'p';
    var node := NodeOf(FullV2, QC);
    assert node in FullV2.nodes;
  }

  /** Main result: in every run of the six-resource workflow, with any number of
      crashes and claims, every node succeeds at most twice and the path at most
      once; nothing is persisted without an accepting latest verdict; and then
      that verdict was given exactly the latest output of every resource node. */
  lemma {:induction false} FullV2Guaranteed(episodes: seq<Episode>, n: NodeId)
    ensures var db := FullV2Run(episodes);
            && Successes(db.rows, n) <= 2 && Successes(db.rows, PATH) <= 1
            && (HasRow(db.rows, PERSIST) || db.status == Succeeded ==> Accepted(db.rows, QC))
            && (Accepted(db.rows, QC) && Latest(db.rows, n).Some? ==> Fits(db.rows, Latest(db.rows, n).value.inputs))
            && (Accepted(db.rows, QC) && n in Producers ==>
                  && Latest(db.rows, n).Some? && n in Latest(db.rows, QC).value.inputs
                  && Latest(db.rows, QC).value.inputs[n] == Latest(db.rows, n).value.output)
  {
    hide FullV2, WellFormed, QualityAlone, SafeRoutes, VerdictUnread, ReworkTakesReaders, QualityReworkedAlone, After;
    hide Latest, Fits, Gated, HasRow, Accepted, ReworkTargets, Successes;
    hide EngineStaleness.Runs, InitialHits, InputSources, InitialNodes;
    AtMostOneRework();
    FullV2WellFormed();
    Alone();
    Safe();
    NothingLeftBehind();
    QualityNotSentBack();
    PersistGated();
    PathNotSentBack();
    StartsTowardsQuality();
    EngineSafety.BoundedRework(FullV2, QC, Depth, episodes, n);
    EngineSafety.BoundedRework(FullV2, QC, Depth, episodes, PATH);
    EngineSafety.QualityGate(FullV2, QC, Depth, episodes, PERSIST);
    EngineSafety.AcceptedIsCoherent(FullV2, QC, Depth, episodes, n);
    if n in Producers {
      ProducersFeedQuality(n);
      EngineCompleteness.VerdictSawLatest(FullV2, QC, Depth, episodes, n);
    }
  }

  lemma AtMostOneRework()
    ensures FullV2.maxRework == 1
  {
  }

  lemma PathNotSentBack()
    ensures PATH != QC && !IsReworkTarget(FullV2, QC, PATH)
  {
    ProducersAre();
    assert PATH[0] == 'g' && QC[0] == 'q';
    NotSentBack(PATH);
  }
}
