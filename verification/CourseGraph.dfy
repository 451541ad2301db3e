/** The prerequisite graph of a course and its prioritised topological order. */
module CourseGraph {
  import opened Options
  import opened Walks

  /** Identifiers are compared as the program compares their text. */
  type Id = nat

  datatype KnowledgeNode = KnowledgeNode(id: Id, level: Option<int>, name: string)

  /** `source` is a prerequisite of `target`. */
  datatype Prerequisite = Prerequisite(source: Id, target: Id)

  function Ids(nodes: seq<KnowledgeNode>): set<Id> {
    set i | 0 <= i < |nodes| :: nodes[i].id
  }

  /** Primary keys are unique and the repository returns edges between known nodes only. */
  predicate Stored(nodes: seq<KnowledgeNode>, edges: seq<Prerequisite>) {
    && (forall i, j :: 0 <= i < j < |nodes| ==> nodes[i].id != nodes[j].id)
    && (forall e :: e in edges ==> e.source in Ids(nodes) && e.target in Ids(nodes))
  }

  function Parents(edges: seq<Prerequisite>, n: Id): set<Id> {
    set e | e in edges && e.target == n :: e.source
  }

  function Dependents(edges: seq<Prerequisite>, n: Id): set<Id> {
    set e | e in edges && e.source == n :: e.target
  }

  function NodeWith(nodes: seq<KnowledgeNode>, n: Id): (r: KnowledgeNode)
    requires n in Ids(nodes)
    ensures r in nodes && r.id == n
  {
    if nodes[0].id == n then nodes[0]
    else
      assert exists i :: 1 <= i < |nodes| && nodes[i].id == n;
      assert forall i :: 1 <= i < |nodes| ==> nodes[1..][i - 1] == nodes[i];
      NodeWith(nodes[1..], n)
  }

  // ------------------------------------------------ the priority

  /** Text compared character by character. */
  predicate TextLe(a: string, b: string) {
    a == [] || (b != [] && (a[0] < b[0] || (a[0] == b[0] && TextLe(a[1..], b[1..]))))
  }

  datatype Key = Key(first: int, second: int, name: string)

  predicate KeyLe(a: Key, b: Key) {
    a.first < b.first || (a.first == b.first
        && (a.second < b.second || (a.second == b.second && TextLe(a.name, b.name))))
  }

  /** An absent level and level 0 read alike: 0 in the accelerated key, 999 otherwise. */
  function LevelOr(level: Option<int>, default: int): int {
    match level case None => default case Some(v) => if v == 0 then default else v
  }

  function KeyOf(nodes: seq<KnowledgeNode>, edges: seq<Prerequisite>, accelerated: bool): Id -> Key {
    (n: Id) =>
      if n !in Ids(nodes) then Key(0, 0, "")
      else
        var node := NodeWith(nodes, n);
        if accelerated then Key(-|Dependents(edges, n)|, LevelOr(node.level, 0), node.name)
        else Key(LevelOr(node.level, 999), 0, node.name)
  }

  lemma {:induction false} TextLeTotal(a: string, b: string)
    ensures TextLe(a, b) || TextLe(b, a)
  {
    if a != [] && b != [] && a[0] == b[0] {
      TextLeTotal(a[1..], b[1..]);
    }
  }

  lemma {:induction false} TextLeTransitive(a: string, b: string, c: string)
    requires TextLe(a, b) && TextLe(b, c)
    ensures TextLe(a, c)
  {
    if a != [] && a[0] == b[0] && b[0] == c[0] {
      TextLeTransitive(a[1..], b[1..], c[1..]);
    }
  }

  lemma KeyLeOrder(a: Key, b: Key, c: Key)
    ensures KeyLe(a, b) || KeyLe(b, a)
    ensures KeyLe(a, b) && KeyLe(b, c) ==> KeyLe(a, c)
  {
    TextLeTotal(a.name, b.name);
    if KeyLe(a, b) && KeyLe(b, c) && a.first == b.first == c.first && a.second == b.second == c.second {
      TextLeTransitive(a.name, b.name, c.name);
    }
  }

  /** Text `a` is `b`, an initial part of it, or smaller at the first difference. */
  predicate Alphabetical(a: string, b: string) {
    exists k :: 0 <= k <= |a| && DiffersAt(a, b, k)
  }

  /** The two agree up to `k`, where `a` ends or is smaller. */
  predicate DiffersAt(a: string, b: string, k: nat)
    requires k <= |a|
  {
    k <= |b| && a[..k] == b[..k] && (k == |a| || (k < |b| && a[k] < b[k]))
  }

  lemma {:induction false} TextLeMeans(a: string, b: string)
    ensures TextLe(a, b) <==> Alphabetical(a, b)
  {
    if a == [] {
      assert DiffersAt(a, b, 0);
    } else if b != [] && a[0] == b[0] {
      TextLeMeans(a[1..], b[1..]);
      if k :| 0 <= k <= |a[1..]| && DiffersAt(a[1..], b[1..], k) {
        assert a[..k + 1] == [a[0]] + a[1..][..k] && b[..k + 1] == [b[0]] + b[1..][..k];
        assert DiffersAt(a, b, k + 1);
      }
      if k :| 0 <= k <= |a| && DiffersAt(a, b, k) {
        assert k > 0 && a[1..][..k - 1] == a[..k][1..] && b[1..][..k - 1] == b[..k][1..];
        assert DiffersAt(a[1..], b[1..], k - 1);
      }
    } else if b != [] {
      assert a[0] < b[0] ==> DiffersAt(a, b, 0);
      assert forall k :: 0 < k <= |a| && k <= |b| ==> a[..k][0] != b[..k][0];
    }
  }

  // ------------------------------------------------ sorting

  predicate Sorted(key: Id -> Key, s: seq<Id>) {
    forall i, j :: 0 <= i <= j < |s| ==> KeyLe(key(s[i]), key(s[j]))
  }

  /** `x` goes in front of the first entry that is not smaller, so equal keys keep their order. */
  function Insert(key: Id -> Key, x: Id, s: seq<Id>): seq<Id> {
    if s == [] || KeyLe(key(x), key(s[0])) then [x] + s else [s[0]] + Insert(key, x, s[1..])
  }

  function SortByKey(key: Id -> Key, s: seq<Id>): seq<Id> {
    if s == [] then [] else Insert(key, s[0], SortByKey(key, s[1..]))
  }

  lemma {:induction false} InsertSorted(key: Id -> Key, x: Id, s: seq<Id>)
    requires Sorted(key, s)
    ensures Sorted(key, Insert(key, x, s)) && multiset(Insert(key, x, s)) == multiset{x} + multiset(s)
  {
    var r := Insert(key, x, s);
    if s == [] {
      KeyLeOrder(key(x), key(x), key(x));
    } else if KeyLe(key(x), key(s[0])) {
      forall j | 0 <= j < |s| ensures KeyLe(key(x), key(s[j])) {
        KeyLeOrder(key(x), key(s[0]), key(s[j]));
      }
      KeyLeOrder(key(x), key(x), key(x));
    } else {
      assert s == [s[0]] + s[1..];
      InsertSorted(key, x, s[1..]);
      var rest := Insert(key, x, s[1..]);
      KeyLeOrder(key(x), key(s[0]), key(x));
      forall j | 0 <= j < |rest| ensures KeyLe(key(s[0]), key(rest[j])) {
        assert rest[j] in multiset(rest);
      }
      KeyLeOrder(key(s[0]), key(s[0]), key(s[0]));
    }
  }

  lemma {:induction false} SortByKeySorts(key: Id -> Key, s: seq<Id>)
    ensures Sorted(key, SortByKey(key, s)) && multiset(SortByKey(key, s)) == multiset(s)
  {
    if s != [] {
      assert s == [s[0]] + s[1..];
      SortByKeySorts(key, s[1..]);
      InsertSorted(key, s[0], SortByKey(key, s[1..]));
    }
  }

  /** The entries of one key. */
  function WithKey(key: Id -> Key, s: seq<Id>, k: Key): seq<Id> {
    if s == [] then [] else (if key(s[0]) == k then [s[0]] else []) + WithKey(key, s[1..], k)
  }

  lemma WithKeyFirst(key: Id -> Key, x: Id, s: seq<Id>, k: Key)
    ensures WithKey(key, [x] + s, k) == (if key(x) == k then [x] else []) + WithKey(key, s, k)
  {
    assert ([x] + s)[1..] == s;
  }

  lemma {:induction false} InsertStable(key: Id -> Key, x: Id, s: seq<Id>, k: Key)
    ensures WithKey(key, Insert(key, x, s), k) == WithKey(key, [x] + s, k)
  {
    if s != [] && !KeyLe(key(x), key(s[0])) {
      var rest := Insert(key, x, s[1..]);
      assert Insert(key, x, s) == [s[0]] + rest;
      assert key(x) != key(s[0]) by { KeyLeOrder(key(x), key(x), key(x)); }
      InsertStable(key, x, s[1..], k);
      WithKeyFirst(key, s[0], rest, k);
      WithKeyFirst(key, x, s[1..], k);
      WithKeyFirst(key, x, s, k);
      WithKeyFirst(key, s[0], s[1..], k);
      assert [s[0]] + s[1..] == s;
    }
  }

  /** Entries of the same key keep their order. */
  lemma {:induction false} SortIsStable(key: Id -> Key, s: seq<Id>, k: Key)
    ensures WithKey(key, SortByKey(key, s), k) == WithKey(key, s, k)
  {
    if s != [] {
      SortIsStable(key, s[1..], k);
      InsertStable(key, s[0], SortByKey(key, s[1..]), k);
      var all := [s[0]] + SortByKey(key, s[1..]);
      assert all[1..] == SortByKey(key, s[1..]);
    }
  }

  lemma {:induction false} SameElements(a: seq<Id>, b: seq<Id>)
    requires multiset(a) == multiset(b)
    ensures forall x :: x in a <==> x in b
    ensures NoRepeats(b) ==> NoRepeats(a)
  {
    forall x ensures x in a <==> x in b {
      assert x in multiset(a) <==> x in multiset(b);
    }
    if NoRepeats(b) {
      DistinctCounts(b);
      forall i, j | 0 <= i < j < |a| ensures a[i] != a[j] {
        assert a[i] in multiset(a);
        assert multiset(a)[a[i]] == 1;
        if a[i] == a[j] {
          RepeatCounts(a, i, j);
        }
      }
    }
  }

  lemma RepeatCounts(s: seq<Id>, i: nat, j: nat)
    requires i < j < |s| && s[i] == s[j]
    ensures multiset(s)[s[i]] >= 2
  {
    assert s == s[..j] + s[j..];
    assert s[..j][i] == s[i] && s[j..][0] == s[j];
    assert s[i] in multiset(s[..j]) && s[j] in multiset(s[j..]);
  }

  lemma {:induction false} DistinctCounts(s: seq<Id>)
    requires NoRepeats(s)
    ensures forall x :: x in s ==> multiset(s)[x] == 1
  {
    if s != [] {
      assert s == [s[0]] + s[1..];
      assert NoRepeats(s[1..]) by { assert forall i :: 0 <= i < |s| - 1 ==> s[1..][i] == s[i + 1]; }
      DistinctCounts(s[1..]);
      assert s[0] !in s[1..];
      assert s[0] !in multiset(s[1..]);
    }
  }

  predicate IsLeast(m: Id, s: set<Id>) {
    m in s && forall x :: x in s ==> m <= x
  }

  /** The members of a set in ascending order. */
  function Ascending(s: set<Id>): (r: seq<Id>)
    ensures forall x :: x in r <==> x in s
    ensures NoRepeats(r)
  {
    if s == {} then []
    else
      LeastExists(s);
      var m :| IsLeast(m, s);
      [m] + Ascending(s - {m})
  }

  lemma {:induction false} LeastExists(s: set<Id>)
    requires s != {}
    ensures exists m :: IsLeast(m, s)
  {
    var y :| y in s;
    var rest := s - {y};
    if rest == {} {
      assert s == {y};
      assert IsLeast(y, s);
    } else {
      LeastExists(rest);
      var m :| IsLeast(m, rest);
      LeastOfTwo(s, y, m);
    }
  }

  lemma LeastOfTwo(s: set<Id>, y: Id, m: Id)
    requires y in s && IsLeast(m, s - {y})
    ensures IsLeast(if m <= y then m else y, s)
  {
    forall x | x in s ensures x == y || m <= x {
      if x != y { assert x in s - {y}; }
    }
  }

  // ------------------------------------------------ what an order must be

  /** All prerequisites of `n` are among `done`. */
  predicate Unlocked(edges: seq<Prerequisite>, n: Id, done: set<Id>) {
    Parents(edges, n) <= done
  }

  predicate PrerequisitesFirst(edges: seq<Prerequisite>, order: seq<Id>) {
    forall i :: 0 <= i < |order| ==> Unlocked(edges, order[i], Members(order[..i]))
  }

  /** No node that could have been emitted instead has a smaller key. */
  predicate Prioritised(known: set<Id>, edges: seq<Prerequisite>, key: Id -> Key, order: seq<Id>) {
    forall i, n :: 0 <= i < |order| && n in known && n !in order[..i] && Unlocked(edges, n, Members(order[..i])) ==>
      KeyLe(key(order[i]), key(n))
  }

  /** A permutation of the nodes, prerequisites first, by priority. */
  predicate IsOrder(nodes: seq<KnowledgeNode>, edges: seq<Prerequisite>, accelerated: bool, order: seq<Id>) {
    && NoRepeats(order)
    && Members(order) == Ids(nodes)
    && PrerequisitesFirst(edges, order)
    && Prioritised(Ids(nodes), edges, KeyOf(nodes, edges, accelerated), order)
  }

  /** `x` may be taught before `y` where both could be: the lower level, a missing
      or zero one counting as 999, and among equals the name. */
  predicate Foundational(x: KnowledgeNode, y: KnowledgeNode) {
    var a := if x.level.Some? && x.level.value != 0 then x.level.value else 999;
    var b := if y.level.Some? && y.level.value != 0 then y.level.value else 999;
    a < b || (a == b && Alphabetical(x.name, y.name))
  }

  /** The same for a learner who is ahead: what unlocks more, then the lower level,
      a missing one counting as 0, then the name. */
  predicate OpensMore(edges: seq<Prerequisite>, x: KnowledgeNode, y: KnowledgeNode) {
    var m, n := |Dependents(edges, x.id)|, |Dependents(edges, y.id)|;
    var a := if x.level.Some? then x.level.value else 0;
    var b := if y.level.Some? then y.level.value else 0;
    m > n || (m == n && (a < b || (a == b && Alphabetical(x.name, y.name))))
  }

  /** Whenever a node is taught and another one could have been, it may go first. */
  ghost predicate TaughtInTurn(nodes: seq<KnowledgeNode>, edges: seq<Prerequisite>, accelerated: bool,
                               order: seq<KnowledgeNode>) {
    forall i, y :: 0 <= i < |order| && y in nodes && y !in order[..i] && Parents(edges, y.id) <= Ids(order[..i]) ==>
      if accelerated then OpensMore(edges, order[i], y) else Foundational(order[i], y)
  }

  lemma KeyMeans(nodes: seq<KnowledgeNode>, edges: seq<Prerequisite>, accelerated: bool, x: KnowledgeNode,
                 y: KnowledgeNode)
    requires Stored(nodes, edges) && x in nodes && y in nodes
    ensures var key := KeyOf(nodes, edges, accelerated);
            KeyLe(key(x.id), key(y.id)) <==> if accelerated then OpensMore(edges, x, y) else Foundational(x, y)
  {
    hide Dependents, TextLe, Alphabetical;
    TheNodeWith(nodes, edges, x);
    TheNodeWith(nodes, edges, y);
    TextLeMeans(x.name, y.name);
  }

  lemma TheNodeWith(nodes: seq<KnowledgeNode>, edges: seq<Prerequisite>, x: KnowledgeNode)
    requires Stored(nodes, edges) && x in nodes
    ensures x.id in Ids(nodes) && NodeWith(nodes, x.id) == x
  {
    var i :| 0 <= i < |nodes| && nodes[i] == x;
    var found := NodeWith(nodes, x.id);
    assert found in nodes && found.id == x.id;
    var j :| 0 <= j < |nodes| && nodes[j] == NodeWith(nodes, x.id);
    assert nodes[i].id == nodes[j].id;
  }

  /** What the priority of an order means for the nodes themselves. */
  lemma OrderMeans(nodes: seq<KnowledgeNode>, edges: seq<Prerequisite>, accelerated: bool, order: seq<KnowledgeNode>)
    requires Stored(nodes, edges) && IsOrder(nodes, edges, accelerated, IdsOf(order))
    requires forall node :: node in order ==> node in nodes
    ensures TaughtInTurn(nodes, edges, accelerated, order)
  {
    hide KeyOf, OpensMore, Foundational, Parents, Ids, IsOrder;
    forall i, y | 0 <= i < |order| && y in nodes && y !in order[..i] && Parents(edges, y.id) <= Ids(order[..i])
      ensures if accelerated then OpensMore(edges, order[i], y) else Foundational(order[i], y)
    {
      TurnMeans(nodes, edges, accelerated, order, i, y);
    }
  }

  lemma TurnMeans(nodes: seq<KnowledgeNode>, edges: seq<Prerequisite>, accelerated: bool, order: seq<KnowledgeNode>,
                  i: nat, y: KnowledgeNode)
    requires Stored(nodes, edges) && IsOrder(nodes, edges, accelerated, IdsOf(order))
    requires forall node :: node in order ==> node in nodes
    requires i < |order| && y in nodes && y !in order[..i] && Parents(edges, y.id) <= Ids(order[..i])
    ensures if accelerated then OpensMore(edges, order[i], y) else Foundational(order[i], y)
  {
    hide KeyOf, KeyLe, OpensMore, Foundational, Parents, Ids, Stored, PrerequisitesFirst, NoRepeats, IdsOf, NodeWith;
    var ids := IdsOf(order);
    IdsMembers(order[..i]);
    IdsUpTo(order, i);
    assert forall node :: node in order[..i] ==> node in order;
    NotAmong(nodes, edges, order[..i], y);
    assert Unlocked(edges, y.id, Members(ids[..i]));
    assert order[i] in order;
    TheNodeWith(nodes, edges, y);
    KeyMeans(nodes, edges, accelerated, order[i], y);
  }

  lemma IdsUpTo(some: seq<KnowledgeNode>, i: nat)
    requires i < |some|
    ensures IdsOf(some[..i]) == IdsOf(some)[..i] && IdsOf(some)[i] == some[i].id
  {
  }

  lemma NotAmong(nodes: seq<KnowledgeNode>, edges: seq<Prerequisite>, some: seq<KnowledgeNode>, y: KnowledgeNode)
    requires Stored(nodes, edges) && y in nodes && y !in some && forall node :: node in some ==> node in nodes
    ensures y.id !in IdsOf(some)
  {
    TheNodeWith(nodes, edges, y);
    forall k | 0 <= k < |some| ensures IdsOf(some)[k] != y.id {
      assert some[k] in some;
      TheNodeWith(nodes, edges, some[k]);
    }
  }

  lemma IdsMembers(some: seq<KnowledgeNode>)
    ensures Members(IdsOf(some)) == Ids(some)
  {
    forall x | x in Ids(some) ensures x in Members(IdsOf(some)) {
      var i :| 0 <= i < |some| && some[i].id == x;
      assert IdsOf(some)[i] == x;
    }
  }

  ghost function Arcs(edges: seq<Prerequisite>): set<(Id, Id)> {
    set e | e in edges :: (e.source, e.target)
  }

  /** No closed walk along prerequisites. */
  ghost predicate NoCycle(edges: seq<Prerequisite>) {
    Acyclic(Arcs(edges))
  }

  function Position(order: seq<Id>, n: Id): (i: nat)
    requires n in order
    ensures i < |order| && order[i] == n
  {
    if order[0] == n then 0 else 1 + Position(order[1..], n)
  }

  /** Where something has an order, nothing is cyclic: positions rise along a walk. */
  lemma OrderHasNoCycle(edges: seq<Prerequisite>, order: seq<Id>)
    requires PrerequisitesFirst(edges, order) && NoRepeats(order)
    requires forall e :: e in edges ==> e.source in order && e.target in order
    ensures NoCycle(edges)
  {
    var depth: Id -> nat := (n: Id) => if n in order then |order| - Position(order, n) else 0;
    forall a, b | (a, b) in Arcs(edges) ensures depth(a) > depth(b) {
      var e :| e in edges && e.source == a && e.target == b;
      var j := Position(order, b);
      assert Unlocked(edges, order[j], Members(order[..j])) && a in Parents(edges, b);
      var i :| 0 <= i < j && order[i] == a;
      assert Position(order, a) == i;
    }
    FallingIsAcyclic(Arcs(edges), depth);
  }

  // ------------------------------------------------ Kahn's algorithm

  /** Between two emissions: what is emitted, what is ready, and which prerequisites are open. */
  ghost predicate Progress(known: set<Id>, edges: seq<Prerequisite>, key: Id -> Key,
                           done: seq<Id>, ready: seq<Id>, incoming: map<Id, set<Id>>) {
    && NoRepeats(done) && NoRepeats(ready)
    && Members(done) <= known
    && (forall n :: n in ready <==> n in known && n !in done && Unlocked(edges, n, Members(done)))
    && incoming.Keys == known
    && (forall n :: n in incoming ==> incoming[n] == Parents(edges, n) - Members(done))
    && PrerequisitesFirst(edges, done)
    && Prioritised(known, edges, key, done)
    && Sorted(key, ready)
  }

  lemma MembersAppend(s: seq<Id>, x: Id)
    ensures Members(s + [x]) == Members(s) + {x}
  {
  }

  /** Emitting the head of the ready list and sorting in what it unlocks. */
  lemma EmitHead(known: set<Id>, edges: seq<Prerequisite>, key: Id -> Key, done: seq<Id>, ready: seq<Id>,
                 incoming: map<Id, set<Id>>, released: seq<Id>, incoming': map<Id, set<Id>>)
    requires Progress(known, edges, key, done, ready, incoming) && ready != []
    requires forall e :: e in edges ==> e.source in known && e.target in known
    requires incoming' == map n | n in incoming :: incoming[n] - {ready[0]}
    requires NoRepeats(released)
    requires forall n :: n in released <==> n in Dependents(edges, ready[0]) && n in incoming' && incoming'[n] == {}
    ensures Progress(known, edges, key, done + [ready[0]], SortByKey(key, ready[1..] + released), incoming')
  {
    hide Sorted, KeyLe, Prioritised, PrerequisitesFirst, Parents, Dependents, Unlocked;
    var v := ready[0];
    var next := ready[1..] + released;
    MembersAppend(done, v);
    SortByKeySorts(key, next);
    SameElements(SortByKey(key, next), next);
    EmitKeepsOrder(known, edges, key, done, ready, incoming);
    ReadyAfter(known, edges, key, done, ready, incoming, released, incoming');
    assert v in ready;
    forall n | n in incoming' ensures incoming'[n] == Parents(edges, n) - Members(done + [v]) {
    }
  }

  lemma ReadyAfter(known: set<Id>, edges: seq<Prerequisite>, key: Id -> Key, done: seq<Id>, ready: seq<Id>,
                   incoming: map<Id, set<Id>>, released: seq<Id>, incoming': map<Id, set<Id>>)
    requires Progress(known, edges, key, done, ready, incoming) && ready != []
    requires forall e :: e in edges ==> e.source in known && e.target in known
    requires incoming' == map n | n in incoming :: incoming[n] - {ready[0]}
    requires NoRepeats(released)
    requires forall n :: n in released <==> n in Dependents(edges, ready[0]) && n in incoming' && incoming'[n] == {}
    ensures var next := ready[1..] + released;
            && NoRepeats(next)
            && forall n :: n in next <==>
              n in known && n !in done + [ready[0]] && Unlocked(edges, n, Members(done + [ready[0]]))
  {
    hide Sorted, KeyLe, Prioritised, Parents, Dependents, Unlocked, NoRepeats;
    var v := ready[0];
    var next := ready[1..] + released;
    NoRepeatsTail(ready);
    assert ready == [v] + ready[1..];
    forall n ensures n in next <==> n in known && n !in done + [v] && Unlocked(edges, n, Members(done + [v])) {
      Unlocking(edges, done, v, n);
      if n in done {
        EmittedStay(edges, done, n);
      }
    }
    forall n | n in released ensures n !in ready[1..] {
      Unlocking(edges, done, v, n);
    }
    DistinctConcat(ready[1..], released);
  }

  /** An emitted node had its prerequisites emitted before it. */
  lemma EmittedStay(edges: seq<Prerequisite>, done: seq<Id>, n: Id)
    requires PrerequisitesFirst(edges, done) && n in done
    ensures Unlocked(edges, n, Members(done))
  {
    var i :| 0 <= i < |done| && done[i] == n;
    assert Members(done[..i]) <= Members(done);
  }

  lemma DistinctConcat(a: seq<Id>, b: seq<Id>)
    requires NoRepeats(a) && NoRepeats(b) && forall x :: x in b ==> x !in a
    ensures NoRepeats(a + b)
  {
    forall i, j | 0 <= i < j < |a + b| ensures (a + b)[i] != (a + b)[j] {
      if i < |a| <= j {
        assert (a + b)[j] == b[j - |a|] && b[j - |a|] in b;
      }
    }
  }

  lemma Unlocking(edges: seq<Prerequisite>, done: seq<Id>, v: Id, n: Id)
    ensures Unlocked(edges, n, Members(done + [v])) <==> Parents(edges, n) - Members(done) <= {v}
    ensures Unlocked(edges, n, Members(done)) ==> Unlocked(edges, n, Members(done + [v]))
    ensures v !in Members(done) ==> (Unlocked(edges, n, Members(done + [v])) && !Unlocked(edges, n, Members(done)) <==>
              n in Dependents(edges, v) && Parents(edges, n) - Members(done) - {v} == {})
  {
    MembersAppend(done, v);
    assert v in Parents(edges, n) <==> n in Dependents(edges, v);
  }

  lemma EmitKeepsOrder(known: set<Id>, edges: seq<Prerequisite>, key: Id -> Key, done: seq<Id>, ready: seq<Id>,
                       incoming: map<Id, set<Id>>)
    requires Progress(known, edges, key, done, ready, incoming) && ready != []
    ensures var after := done + [ready[0]];
            NoRepeats(after) && PrerequisitesFirst(edges, after) && Prioritised(known, edges, key, after)
  {
    hide KeyLe, Unlocked;
    var after := done + [ready[0]];
    assert ready[0] in ready;
    assert forall i :: 0 <= i < |done| ==> after[..i] == done[..i] && after[i] == done[i];
    assert after[..|done|] == done && after[|done|] == ready[0];
    forall n | n in known && n !in done && Unlocked(edges, n, Members(done)) ensures KeyLe(key(ready[0]), key(n)) {
      var j :| 0 <= j < |ready| && ready[j] == n;
    }
  }

  /** When nothing is ready, either everything was emitted or the rest is stuck on a cycle. */
  lemma {:induction false} NothingReady(known: set<Id>, edges: seq<Prerequisite>, key: Id -> Key, done: seq<Id>,
                                        incoming: map<Id, set<Id>>)
    requires Progress(known, edges, key, done, [], incoming)
    requires forall e :: e in edges ==> e.source in known && e.target in known
    ensures NoCycle(edges) <==> |done| == |known|
    ensures |done| == |known| ==> Members(done) == known
  {
    hide NoCycle, Prioritised, Sorted, Unlocked, Parents, PrerequisitesFirst;
    CardinalityOfNoRepeats(done);
    SubsetCardinality(Members(done), known);
    if |done| == |known| {
      OrderHasNoCycle(edges, done);
    } else {
      SomethingStuck(known, Members(done));
      RestIsCyclic(known, edges, done);
    }
  }

  lemma RestIsCyclic(known: set<Id>, edges: seq<Prerequisite>, done: seq<Id>)
    requires known - Members(done) != {}
    requires forall n :: n in known && n !in done ==> !Unlocked(edges, n, Members(done))
    requires forall e :: e in edges ==> e.source in known && e.target in known
    ensures !NoCycle(edges)
  {
    hide Acyclic, Unlocked, EnteredFrom;
    var stuck := known - Members(done);
    var n :| n in stuck;
    forall m | m in stuck ensures EnteredFrom(Arcs(edges), stuck, m) {
      LockedIsEntered(known, edges, done, m);
    }
    assert Members([n]) == {n};
    StuckHasCycle(Arcs(edges), stuck, [n]);
  }

  lemma LockedIsEntered(known: set<Id>, edges: seq<Prerequisite>, done: seq<Id>, n: Id)
    requires !Unlocked(edges, n, Members(done))
    requires forall e :: e in edges ==> e.source in known && e.target in known
    ensures EnteredFrom(Arcs(edges), known - Members(done), n)
  {
    var p :| p in Parents(edges, n) && p !in Members(done);
    var e :| e in edges && e.target == n && e.source == p;
    assert (p, n) in Arcs(edges);
  }

  lemma SomethingStuck(known: set<Id>, done: set<Id>)
    requires done <= known && |done| < |known|
    ensures known - done != {}
  {
    assert known == done + (known - done);
  }

  datatype Ordering = Ordered(nodes: seq<KnowledgeNode>) | NotAcyclic

  function IdsOf(nodes: seq<KnowledgeNode>): (r: seq<Id>)
    ensures |r| == |nodes|
  {
    seq(|nodes|, i requires 0 <= i < |nodes| => nodes[i].id)
  }

  lemma NoEdges()
    ensures forall n :: Parents([], n) == {} && Dependents([], n) == {}
  {
  }

  lemma IdsOfAppend(nodes: seq<KnowledgeNode>, node: KnowledgeNode)
    ensures IdsOf(nodes + [node]) == IdsOf(nodes) + [node.id] && IdsOf([]) == []
  {
  }

  lemma ParentsOfMore(edges: seq<Prerequisite>, i: nat, n: Id)
    requires i < |edges|
    ensures Parents(edges[..i + 1], n)
      == Parents(edges[..i], n) + (if edges[i].target == n then {edges[i].source} else {})
    ensures Dependents(edges[..i + 1], n)
      == Dependents(edges[..i], n) + (if edges[i].source == n then {edges[i].target} else {})
  {
    assert edges[..i + 1] == edges[..i] + [edges[i]];
  }

  /** The open prerequisites and the dependents of every node. */
  method Adjacency(nodes: seq<KnowledgeNode>, edges: seq<Prerequisite>)
    returns (incoming: map<Id, set<Id>>, outgoing: map<Id, set<Id>>)
    requires Stored(nodes, edges)
    ensures incoming.Keys == Ids(nodes) && outgoing.Keys == Ids(nodes)
    ensures forall n :: n in incoming ==> incoming[n] == Parents(edges, n) && outgoing[n] == Dependents(edges, n)
  {
    hide Parents, Dependents, Stored, Ids;
    StoredEdges(nodes, edges);
    NoEdges();
    assert edges[..0] == [];
    incoming := map n | n in Ids(nodes) :: {};
    outgoing := map n | n in Ids(nodes) :: {};
    for i := 0 to |edges|
      invariant incoming.Keys == Ids(nodes) && outgoing.Keys == Ids(nodes)
      invariant forall n :: n in incoming ==>
        incoming[n] == Parents(edges[..i], n) && outgoing[n] == Dependents(edges[..i], n)
    {
      var e := edges[i];
      assert e in edges;
      incoming := incoming[e.target := incoming[e.target] + {e.source}];
      outgoing := outgoing[e.source := outgoing[e.source] + {e.target}];
      forall n ensures Parents(edges[..i + 1], n) == Parents(edges[..i], n) + (if e.target == n then {e.source} else {})
        && Dependents(edges[..i + 1], n) == Dependents(edges[..i], n) + (if e.source == n then {e.target} else {})
      {
        ParentsOfMore(edges, i, n);
      }
    }
    assert edges[..|edges|] == edges;
  }

  /** Drop `v` from the open prerequisites of its dependents; those left with none become ready. */
  method Release(v: Id, targets: seq<Id>, before: map<Id, set<Id>>)
    returns (released: seq<Id>, incoming: map<Id, set<Id>>)
    requires NoRepeats(targets) && forall t :: t in targets ==> t in before
    requires forall n :: n in before && v in before[n] ==> n in targets
    ensures incoming == map n | n in before :: before[n] - {v}
    ensures NoRepeats(released) && forall n :: n in released <==> n in targets && incoming[n] == {}
  {
    released, incoming := [], before;
    for i := 0 to |targets|
      invariant incoming.Keys == before.Keys
      invariant forall n :: n in before ==> incoming[n] == if n in targets[..i] then before[n] - {v} else before[n]
      invariant NoRepeats(released) && forall n :: n in released <==> n in targets[..i] && before[n] - {v} == {}
    {
      var t := targets[i];
      assert targets[..i + 1] == targets[..i] + [t];
      assert t !in targets[..i];
      incoming := incoming[t := incoming[t] - {v}];
      if incoming[t] == {} {
        released := released + [t];
      }
    }
    assert targets[..|targets|] == targets;
    forall n | n in before ensures incoming[n] == before[n] - {v} {
      if n !in targets {
        assert before[n] - {v} == before[n];
      }
    }
  }

  /** The nodes with nothing open, in the order of the list. */
  method WithoutPrerequisites(nodes: seq<KnowledgeNode>, edges: seq<Prerequisite>, incoming: map<Id, set<Id>>)
    returns (initial: seq<Id>)
    requires Stored(nodes, edges) && incoming.Keys == Ids(nodes)
    ensures NoRepeats(initial) && forall n :: n in initial <==> n in Ids(nodes) && incoming[n] == {}
  {
    initial := [];
    for i := 0 to |nodes|
      invariant NoRepeats(initial)
      invariant forall n :: n in initial <==> exists k :: 0 <= k < i && nodes[k].id == n && incoming[n] == {}
    {
      if incoming[nodes[i].id] == {} {
        initial := initial + [nodes[i].id];
      }
    }
  }

  lemma StartsReady(known: set<Id>, edges: seq<Prerequisite>, key: Id -> Key, initial: seq<Id>,
                    incoming: map<Id, set<Id>>)
    requires incoming.Keys == known && forall n :: n in incoming ==> incoming[n] == Parents(edges, n)
    requires NoRepeats(initial) && forall n :: n in initial <==> n in known && incoming[n] == {}
    ensures Progress(known, edges, key, [], SortByKey(key, initial), incoming)
  {
    SortByKeySorts(key, initial);
    SameElements(SortByKey(key, initial), initial);
    assert Members<Id>([]) == {};
  }

  /** Main result: a prioritised topological order exactly when there is no cycle. */
  method TopologicalOrder(nodes: seq<KnowledgeNode>, edges: seq<Prerequisite>, accelerated: bool) returns (r: Ordering)
    requires Stored(nodes, edges)
    ensures r.Ordered? <==> NoCycle(edges)
    ensures r.Ordered? ==>
      && IsOrder(nodes, edges, accelerated, IdsOf(r.nodes))
      && (forall node :: node in r.nodes ==> node in nodes)
      && TaughtInTurn(nodes, edges, accelerated, r.nodes)
  {
    hide TaughtInTurn;
    hide Progress, NoCycle, IsOrder, Stored, Ids, Parents, Dependents, SortByKey, KeyOf, NoRepeats, Ascending, IdsOf;
    var known, key := Ids(nodes), KeyOf(nodes, edges, accelerated);
    StoredEdges(nodes, edges);
    var incoming, outgoing := Adjacency(nodes, edges);
    var initial := WithoutPrerequisites(nodes, edges, incoming);
    var ready := SortByKey(key, initial);
    StartsReady(known, edges, key, initial, incoming);
    var ordered: seq<KnowledgeNode> := [];
    ghost var done: seq<Id> := IdsOf([]);
    while ready != []
      invariant done == IdsOf(ordered) && |done| == |ordered|
      invariant forall node :: node in ordered ==> node in nodes
      invariant Progress(known, edges, key, done, ready, incoming)
      decreases |known| - |done|
    {
      var v := ready[0];
      HeadIsNew(known, edges, key, done, ready, incoming);
      IdsOfAppend(ordered, NodeWith(nodes, v));
      ordered := ordered + [NodeWith(nodes, v)];
      var targets := Ascending(outgoing[v]);
      DependentsKnown(edges, known, v);
      HeadParents(known, edges, key, done, ready, incoming);
      var released, fewer := Release(v, targets, incoming);
      EmitHead(known, edges, key, done, ready, incoming, released, fewer);
      ready, incoming, done := SortByKey(key, ready[1..] + released), fewer, done + [v];
    }
    NothingReady(known, edges, key, done, incoming);
    CountIds(nodes, edges);
    if |ordered| != |nodes| {
      return NotAcyclic;
    }
    ProgressIsOrder(nodes, edges, accelerated, done, incoming);
    OrderMeans(nodes, edges, accelerated, ordered);
    return Ordered(ordered);
  }

  lemma StoredEdges(nodes: seq<KnowledgeNode>, edges: seq<Prerequisite>)
    requires Stored(nodes, edges)
    ensures forall e :: e in edges ==> e.source in Ids(nodes) && e.target in Ids(nodes)
  {
  }

  lemma CountIds(nodes: seq<KnowledgeNode>, edges: seq<Prerequisite>)
    requires Stored(nodes, edges)
    ensures |Ids(nodes)| == |nodes|
  {
    var ids := IdsOf(nodes);
    CardinalityOfNoRepeats(ids);
    assert Members(ids) == Ids(nodes) by {
      forall x | x in Ids(nodes) ensures x in Members(ids) {
        var i :| 0 <= i < |nodes| && nodes[i].id == x;
        assert ids[i] == x;
      }
    }
  }

  lemma HeadIsNew(known: set<Id>, edges: seq<Prerequisite>, key: Id -> Key, done: seq<Id>, ready: seq<Id>,
                  incoming: map<Id, set<Id>>)
    requires Progress(known, edges, key, done, ready, incoming) && ready != []
    ensures ready[0] in known && ready[0] !in done && |done| < |known|
  {
    assert ready[0] in ready;
    CardinalityOfNoRepeats(done);
    SubsetCardinality(Members(done) + {ready[0]}, known);
  }

  lemma HeadParents(known: set<Id>, edges: seq<Prerequisite>, key: Id -> Key, done: seq<Id>, ready: seq<Id>,
                    incoming: map<Id, set<Id>>)
    requires Progress(known, edges, key, done, ready, incoming) && ready != []
    ensures incoming.Keys == known
    ensures forall n :: n in incoming && ready[0] in incoming[n] ==> n in Dependents(edges, ready[0])
  {
  }

  lemma DependentsKnown(edges: seq<Prerequisite>, known: set<Id>, v: Id)
    requires forall e :: e in edges ==> e.source in known && e.target in known
    ensures Dependents(edges, v) <= known
  {
  }

  lemma ProgressIsOrder(nodes: seq<KnowledgeNode>, edges: seq<Prerequisite>, accelerated: bool, done: seq<Id>,
                        incoming: map<Id, set<Id>>)
    requires Progress(Ids(nodes), edges, KeyOf(nodes, edges, accelerated), done, [], incoming)
    requires Members(done) == Ids(nodes)
    ensures IsOrder(nodes, edges, accelerated, done)
  {
  }
}
