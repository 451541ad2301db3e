/** Finite directed graphs: a depth that falls along every arc exists exactly
    when there is no closed walk. */
module Walks {

  ghost predicate Walk<T>(arcs: set<(T, T)>, walk: seq<T>) {
    forall i :: 0 <= i < |walk| - 1 ==> (walk[i], walk[i + 1]) in arcs
  }

  ghost predicate Cycle<T>(arcs: set<(T, T)>, walk: seq<T>) {
    |walk| > 1 && walk[0] == walk[|walk| - 1] && Walk(arcs, walk)
  }

  ghost predicate Acyclic<T(!new)>(arcs: set<(T, T)>) {
    forall walk :: !Cycle(arcs, walk)
  }

  ghost predicate Falls<T(!new)>(arcs: set<(T, T)>, depth: T -> nat) {
    forall a, b :: (a, b) in arcs ==> depth(a) > depth(b)
  }

  predicate NoRepeats<T(==)>(s: seq<T>) {
    forall i, j :: 0 <= i < j < |s| ==> s[i] != s[j]
  }

  lemma NoRepeatsTail<T>(s: seq<T>)
    requires NoRepeats(s) && s != []
    ensures NoRepeats(s[1..]) && s[0] !in s[1..]
  {
    assert forall i :: 0 <= i < |s| - 1 ==> s[1..][i] == s[i + 1];
  }

  function Members<T>(s: seq<T>): set<T> {
    set x | x in s
  }

  lemma {:induction false} CardinalityOfNoRepeats<T>(s: seq<T>)
    requires NoRepeats(s)
    ensures |Members(s)| == |s|
  {
    if s != [] {
      var front, last := s[..|s| - 1], s[|s| - 1];
      CardinalityOfNoRepeats(front);
      assert s == front + [last];
      assert Members(s) == Members(front) + {last};
      assert last !in front;
    }
  }

  lemma SubsetCardinality<T>(a: set<T>, b: set<T>)
    requires a <= b
    ensures |a| <= |b| && (|a| == |b| ==> a == b)
  {
    var rest := b - a;
    assert b == a + rest;
  }

  lemma {:induction false} FallsAlong<T(!new)>(arcs: set<(T, T)>, depth: T -> nat, walk: seq<T>, k: nat)
    requires Falls(arcs, depth) && Walk(arcs, walk) && 0 < k < |walk|
    ensures depth(walk[0]) > depth(walk[k])
  {
    assert (walk[k - 1], walk[k - 1 + 1]) in arcs;
    if k > 1 {
      FallsAlong(arcs, depth, walk, k - 1);
    }
  }

  lemma FallingIsAcyclic<T(!new)>(arcs: set<(T, T)>, depth: T -> nat)
    requires Falls(arcs, depth)
    ensures Acyclic(arcs)
  {
    forall walk ensures !Cycle(arcs, walk) {
      if Cycle(arcs, walk) {
        FallsAlong(arcs, depth, walk, |walk| - 1);
      }
    }
  }

  ghost predicate EnteredFrom<T(!new)>(arcs: set<(T, T)>, nodes: set<T>, n: T) {
    exists p :: p in nodes && (p, n) in arcs
  }

  lemma Entry<T(!new)>(arcs: set<(T, T)>, nodes: set<T>, n: T) returns (p: T)
    requires EnteredFrom(arcs, nodes, n)
    ensures p in nodes && (p, n) in arcs
  {
    p :| p in nodes && (p, n) in arcs;
  }

  /** A finite set each of whose members has an arc from within holds a cycle. */
  lemma {:induction false} StuckHasCycle<T(!new)>(arcs: set<(T, T)>, stuck: set<T>, walk: seq<T>)
    requires walk != [] && NoRepeats(walk) && Members(walk) <= stuck && Walk(arcs, walk)
    requires forall n :: n in stuck ==> EnteredFrom(arcs, stuck, n)
    ensures !Acyclic(arcs)
    decreases |stuck| - |walk|
  {
    hide Acyclic, Walk, NoRepeats, EnteredFrom;
    assert walk[0] in Members(walk);
    var p := Entry(arcs, stuck, walk[0]);
    if p in walk {
      ClosesCycle(arcs, p, walk);
    } else {
      LongerWalk(arcs, stuck, p, walk);
      CardinalityOfNoRepeats([p] + walk);
      SubsetCardinality(Members([p] + walk), stuck);
      StuckHasCycle(arcs, stuck, [p] + walk);
    }
  }

  lemma LongerWalk<T(!new)>(arcs: set<(T, T)>, stuck: set<T>, p: T, walk: seq<T>)
    requires walk != [] && NoRepeats(walk) && Members(walk) <= stuck && Walk(arcs, walk) && p in stuck && p !in walk
    requires (p, walk[0]) in arcs
    ensures NoRepeats([p] + walk) && Members([p] + walk) <= stuck && Walk(arcs, [p] + walk)
  {
    var longer := [p] + walk;
    forall i | 0 <= i < |longer| - 1 ensures (longer[i], longer[i + 1]) in arcs {
      if i > 0 { assert (walk[i - 1], walk[i - 1 + 1]) in arcs; }
    }
    forall x | x in longer ensures x in stuck {
      assert x == p || x in Members(walk);
    }
  }

  lemma ClosesCycle<T(!new)>(arcs: set<(T, T)>, p: T, walk: seq<T>)
    requires p in walk && Walk(arcs, walk) && (p, walk[0]) in arcs
    ensures !Acyclic(arcs)
  {
    var k :| 0 <= k < |walk| && walk[k] == p;
    var cycle := [p] + walk[..k + 1];
    forall i | 0 <= i < |cycle| - 1 ensures (cycle[i], cycle[i + 1]) in arcs {
      if i > 0 { assert (walk[i - 1], walk[i - 1 + 1]) in arcs; }
    }
    assert Cycle(arcs, cycle);
  }

  ghost predicate FallsWithin<T(!new)>(arcs: set<(T, T)>, nodes: set<T>, depth: T -> nat) {
    forall a, b :: (a, b) in arcs && a in nodes && b in nodes ==> depth(a) > depth(b)
  }

  /** Peeling off a node no arc enters from within leaves a smaller graph. */
  lemma {:induction false} DepthWithin<T(!new)>(arcs: set<(T, T)>, nodes: set<T>) returns (depth: T -> nat)
    requires Acyclic(arcs)
    ensures FallsWithin(arcs, nodes, depth)
    decreases |nodes|
  {
    hide Acyclic;
    if nodes == {} {
      depth := (x: T) => 0;
    } else {
      var top := Top(arcs, nodes);
      var below := DepthWithin(arcs, nodes - {top});
      var high := Highest(below, nodes);
      depth := (x: T) => if x == top then high + 1 else below(x);
    }
  }

  /** In an acyclic graph some node has no arc from within. */
  lemma Top<T(!new)>(arcs: set<(T, T)>, nodes: set<T>) returns (top: T)
    requires Acyclic(arcs) && nodes != {}
    ensures top in nodes && !EnteredFrom(arcs, nodes, top)
  {
    hide Acyclic, EnteredFrom;
    if n :| n in nodes && !EnteredFrom(arcs, nodes, n) {
      top := n;
    } else {
      top :| top in nodes;
      assert Members([top]) == {top};
      StuckHasCycle(arcs, nodes, [top]);
    }
  }

  lemma {:induction false} Highest<T>(depth: T -> nat, nodes: set<T>) returns (high: nat)
    ensures forall x :: x in nodes ==> depth(x) <= high
    decreases |nodes|
  {
    if nodes == {} {
      high := 0;
    } else {
      var y :| y in nodes;
      high := Highest(depth, nodes - {y});
      forall x | x in nodes ensures x == y || depth(x) <= high {
        assert x == y || x in nodes - {y};
      }
      high := if depth(y) > high then depth(y) else high;
    }
  }

  /** Main result: a falling depth exists if and only if there is no cycle. */
  lemma DepthIffAcyclic<T(!new)>(arcs: set<(T, T)>)
    ensures (exists depth: T -> nat :: Falls(arcs, depth)) <==> Acyclic(arcs)
  {
    hide Acyclic;
    if depth: T -> nat :| Falls(arcs, depth) {
      FallingIsAcyclic(arcs, depth);
    }
    if Acyclic(arcs) {
      var nodes := (set arc | arc in arcs :: arc.0) + (set arc | arc in arcs :: arc.1);
      var depth := DepthWithin(arcs, nodes);
      forall a, b | (a, b) in arcs ensures depth(a) > depth(b) {
        var arc := (a, b);
        assert arc.0 in nodes && arc.1 in nodes;
      }
      assert Falls(arcs, depth);
    }
  }
}
