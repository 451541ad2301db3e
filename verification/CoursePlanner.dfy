/** What a learner is told to do next: the recommendation, the labelled path and
    the recorded progress, built on the prerequisite order. */
module CoursePlanner {
  import opened Options
  import opened Walks
  import opened CourseGraph

  /** The first entry of `order` not yet completed. */
  function FirstUncompleted(order: seq<Id>, completed: set<Id>): (r: Option<Id>)
    ensures r.None? <==> forall n :: n in order ==> n in completed
    ensures r.Some? ==> r.value in order && r.value !in completed
  {
    if order == [] then None
    else if order[0] !in completed then Some(order[0])
    else FirstUncompleted(order[1..], completed)
  }

  /** In a prerequisite order, whatever comes first among the uncompleted is unlocked. */
  lemma {:induction false} FirstIsUnlocked(edges: seq<Prerequisite>, order: seq<Id>, completed: set<Id>, k: nat)
    requires PrerequisitesFirst(edges, order) && k <= |order|
    requires forall i :: 0 <= i < k ==> order[i] in completed
    ensures FirstUncompleted(order[k..], completed).Some? ==>
              Unlocked(edges, FirstUncompleted(order[k..], completed).value, completed)
    decreases |order| - k
  {
    if k < |order| {
      if order[k] in completed {
        assert order[k..][1..] == order[k + 1..];
        FirstIsUnlocked(edges, order, completed, k + 1);
      } else {
        assert Unlocked(edges, order[k], Members(order[..k]));
        assert Members(order[..k]) <= completed;
      }
    }
  }

  datatype Recommendation = Recommend(node: Option<KnowledgeNode>) | GraphNotAcyclic

  function IdOf(node: Option<KnowledgeNode>): Option<Id> {
    match node case None => None case Some(n) => Some(n.id)
  }

  /** Main result: the search over uncompleted, unlocked nodes finds the first
      uncompleted node of the order, and nothing only when all are completed. */
  method NextNode(nodes: seq<KnowledgeNode>, edges: seq<Prerequisite>, completed: set<Id>)
    returns (r: Recommendation, ghost order: seq<Id>)
    requires Stored(nodes, edges)
    ensures r.Recommend? <==> NoCycle(edges)
    ensures r.Recommend? ==>
      && IsOrder(nodes, edges, false, order)
      && IdOf(r.node) == FirstUncompleted(order, completed)
      && (r.node.None? <==> Ids(nodes) <= completed)
      && (r.node.Some? ==> r.node.value in nodes && Unlocked(edges, r.node.value.id, completed))
  {
    hide NoCycle, Stored, Prioritised, KeyOf, TaughtInTurn;
    order := [];
    var sorted := TopologicalOrder(nodes, edges, false);
    if sorted.NotAcyclic? {
      return GraphNotAcyclic, order;
    }
    var list := sorted.nodes;
    order := IdsOf(list);
    FirstIsUnlocked(edges, order, completed, 0);
    assert order[0..] == order;
    for i := 0 to |list|
      invariant FirstUncompleted(order, completed) == FirstUncompleted(order[i..], completed)
    {
      assert order[i] == list[i].id && order[i..][1..] == order[i + 1..];
      assert list[i] in list;
      if list[i].id !in completed && Unlocked(edges, list[i].id, completed) {
        return Recommend(Some(list[i])), order;
      }
    }
    return Recommend(None), order;
  }

  // ------------------------------------------------ the labelled path

  datatype Status = Done | InProgress | Ready | Locked

  datatype PathNode = PathNode(id: Id, status: Status)

  datatype Path = Labelled(path: seq<PathNode>) | PathNotAcyclic

  function Label(edges: seq<Prerequisite>, completed: set<Id>, active: Option<Id>, n: Id): Status {
    if n in completed then Status.Done
    else if active == Some(n) then InProgress
    else if Unlocked(edges, n, completed) then Ready
    else Locked
  }

  predicate LabelsAreRight(known: set<Id>, edges: seq<Prerequisite>, completed: set<Id>, path: seq<PathNode>) {
    && (forall i :: 0 <= i < |path| ==> (path[i].status == Status.Done <==> path[i].id in completed))
    && (forall i :: 0 <= i < |path| && path[i].status in {InProgress, Ready} ==> Unlocked(edges, path[i].id, completed))
    && (forall i :: 0 <= i < |path| && path[i].status == Locked ==> !Unlocked(edges, path[i].id, completed))
    && (forall i, j :: 0 <= i < j < |path| ==> !(path[i].status == InProgress && path[j].status == InProgress))
    && ((exists i :: 0 <= i < |path| && path[i].status == InProgress) <==> !(known <= completed))
  }

  /** Main result: the labels say exactly what is done, what can be started and
      what is locked, with one node in progress unless everything is done. */
  method GetPath(nodes: seq<KnowledgeNode>, edges: seq<Prerequisite>, completed: set<Id>, accelerated: bool)
    returns (r: Path)
    requires Stored(nodes, edges)
    ensures r.Labelled? <==> NoCycle(edges)
    ensures r.Labelled? ==>
      && IsOrder(nodes, edges, accelerated, seq(|r.path|, i requires 0 <= i < |r.path| => r.path[i].id))
      && LabelsAreRight(Ids(nodes), edges, completed, r.path)
  {
    hide NoCycle, Stored, Unlocked, Prioritised, PrerequisitesFirst, KeyOf, LabelsAreRight, Ids, TaughtInTurn;
    var next, order := NextNode(nodes, edges, completed);
    if next.GraphNotAcyclic? {
      return PathNotAcyclic;
    }
    var sorted := TopologicalOrder(nodes, edges, accelerated);
    var active, list := IdOf(next.node), sorted.nodes;
    var path := [];
    for i := 0 to |list|
      invariant |path| == i
      invariant forall j :: 0 <= j < i ==> path[j] == PathNode(list[j].id, Label(edges, completed, active, list[j].id))
    {
      path := path + [PathNode(list[i].id, Label(edges, completed, active, list[i].id))];
    }
    r := Labelled(path);
    assert seq(|path|, i requires 0 <= i < |path| => path[i].id) == IdsOf(list);
    LabelsMean(Ids(nodes), edges, completed, active, IdsOf(list), path);
  }

  lemma LabelsMean(known: set<Id>, edges: seq<Prerequisite>, completed: set<Id>, active: Option<Id>, ids: seq<Id>,
                   path: seq<PathNode>)
    requires NoRepeats(ids) && Members(ids) == known && |path| == |ids|
    requires forall i :: 0 <= i < |ids| ==> path[i] == PathNode(ids[i], Label(edges, completed, active, ids[i]))
    requires active.None? <==> known <= completed
    requires active.Some? ==>
      active.value in known && active.value !in completed && Unlocked(edges, active.value, completed)
    ensures LabelsAreRight(known, edges, completed, path)
  {
    hide Unlocked;
    if active.Some? {
      var k :| 0 <= k < |ids| && ids[k] == active.value;
      assert path[k].status == InProgress;
    }
  }

  // ------------------------------------------------ following the recommendation

  function Remaining(nodes: seq<KnowledgeNode>, completed: set<Id>): nat {
    |Ids(nodes) - completed|
  }

  /** Each step completes what the recommendation named. */
  ghost predicate Follows(nodes: seq<KnowledgeNode>, edges: seq<Prerequisite>, trace: seq<set<Id>>, taken: seq<Id>) {
    && |trace| == |taken| + 1
    && forall i :: 0 <= i < |taken| ==>
         trace[i + 1] == trace[i] + {taken[i]} && Recommended(nodes, edges, trace[i], taken[i])
  }

  ghost predicate Recommended(nodes: seq<KnowledgeNode>, edges: seq<Prerequisite>, completed: set<Id>, n: Id) {
    exists order :: IsOrder(nodes, edges, false, order) && FirstUncompleted(order, completed) == Some(n)
  }

  lemma RecommendedStep(nodes: seq<KnowledgeNode>, edges: seq<Prerequisite>, completed: set<Id>, n: Id)
    requires Recommended(nodes, edges, completed, n)
    ensures Unlocked(edges, n, completed) && n !in completed
    ensures Remaining(nodes, completed) == Remaining(nodes, completed + {n}) + 1
  {
    var order :| IsOrder(nodes, edges, false, order) && FirstUncompleted(order, completed) == Some(n);
    assert order[0..] == order;
    FirstIsUnlocked(edges, order, completed, 0);
    assert Ids(nodes) - completed == (Ids(nodes) - (completed + {n})) + {n};
  }

  /** Main result: following the recommendation takes exactly one node a step,
      never one whose prerequisites are open, and has a next step until exactly
      the remaining nodes are used up. */
  lemma {:induction false} FollowingFinishes(nodes: seq<KnowledgeNode>, edges: seq<Prerequisite>, trace: seq<set<Id>>,
                                             taken: seq<Id>)
    requires Follows(nodes, edges, trace, taken)
    ensures Remaining(nodes, trace[|taken|]) == Remaining(nodes, trace[0]) - |taken|
    ensures forall i :: 0 <= i < |taken| ==> Unlocked(edges, taken[i], trace[i]) && taken[i] !in trace[i]
    ensures forall order :: IsOrder(nodes, edges, false, order) ==>
              (FirstUncompleted(order, trace[|taken|]).None? <==> |taken| == Remaining(nodes, trace[0]))
    decreases |taken|
  {
    hide IsOrder, Unlocked;
    if taken != [] {
      var k := |taken| - 1;
      FollowingFinishes(nodes, edges, trace[..k + 1], taken[..k]);
      RecommendedStep(nodes, edges, trace[k], taken[k]);
      forall i | 0 <= i < k ensures Unlocked(edges, taken[i], trace[i]) && taken[i] !in trace[i] {
        assert taken[..k][i] == taken[i] && trace[..k + 1][i] == trace[i];
      }
    }
    forall order | IsOrder(nodes, edges, false, order)
      ensures FirstUncompleted(order, trace[|taken|]).None? <==> |taken| == Remaining(nodes, trace[0])
    {
      NothingLeft(nodes, edges, order, trace[|taken|]);
    }
  }

  lemma NothingLeft(nodes: seq<KnowledgeNode>, edges: seq<Prerequisite>, order: seq<Id>, completed: set<Id>)
    requires IsOrder(nodes, edges, false, order)
    ensures FirstUncompleted(order, completed).None? <==> Remaining(nodes, completed) == 0
  {
    hide Ids, PrerequisitesFirst, Prioritised, KeyOf, NoRepeats;
    var open := Ids(nodes) - completed;
    assert forall n :: n in Ids(nodes) ==> n in completed || n in open;
    if Remaining(nodes, completed) == 0 {
      assert open == {};
    }
  }

  // ------------------------------------------------ recorded progress

  datatype Activity = Activity(id: string, node: Id)

  function LastHundred(activities: seq<Activity>): seq<Activity> {
    if |activities| <= 100 then activities else activities[|activities| - 100..]
  }

  /** A new activity joins the last hundred; a known one is not repeated. */
  function WithActivity(activities: seq<Activity>, a: Activity): seq<Activity> {
    if exists i :: 0 <= i < |activities| && activities[i].id == a.id then activities else LastHundred(activities + [a])
  }

  /** A new activity comes last and pushes out the oldest beyond a hundred. */
  lemma WithActivityMeans(activities: seq<Activity>, a: Activity)
    requires |activities| <= 100
    ensures var after := WithActivity(activities, a);
            var known := exists i :: 0 <= i < |activities| && activities[i].id == a.id;
            && |after| <= 100
            && (known ==> after == activities)
            && (!known ==> after == (if |activities| < 100 then activities + [a] else activities[1..] + [a]))
  {
  }

  /** The stored progress of one learner in one course. */
  class CourseProgress {
    const known: set<Id>
    var completed: seq<Id>
    var activities: seq<Activity>

    predicate Valid() reads this {
      NoRepeats(completed) && Members(completed) <= known && |activities| <= 100
    }

    constructor (known: set<Id>)
      ensures Valid() && this.known == known && completed == [] && activities == []
    {
      this.known := known;
      completed, activities := [], [];
    }

    /** Record a completed activity; a repeated node or activity changes nothing of its kind. */
    method RecordCompletion(n: Id, activity: string) returns (ok: bool)
      requires Valid()
      modifies this
      ensures Valid() && ok == (n in known)
      ensures !ok ==> completed == old(completed) && activities == old(activities)
      ensures ok ==> completed == if n in old(completed) then old(completed) else old(completed) + [n]
      ensures ok ==> activities == WithActivity(old(activities), Activity(activity, n))
      ensures ok ==> exists i :: 0 <= i < |activities| && activities[i].id == activity
      ensures ok && (forall i :: 0 <= i < |old(activities)| ==> old(activities)[i].id != activity) ==>
        activities == (if |old(activities)| < 100 then old(activities) else old(activities)[1..])
          + [Activity(activity, n)]
    {
      if n !in known {
        return false;
      }
      WithActivityMeans(activities, Activity(activity, n));
      if n !in completed {
        MembersAppend(completed, n);
        completed := completed + [n];
      }
      var seen := false;
      for i := 0 to |activities|
        invariant activities == old(activities)
        invariant Valid() && completed == if n in old(completed) then old(completed) else old(completed) + [n]
        invariant seen <==> exists j :: 0 <= j < i && activities[j].id == activity
      {
        seen := seen || activities[i].id == activity;
      }
      if !seen {
        activities := LastHundred(activities + [Activity(activity, n)]);
        assert activities[|activities| - 1].id == activity;
      }
      return true;
    }
  }
}
