/** When every list names exactly the descendants of its endpoint in some forest, the shown
    order is that forest, parents first. */
module EndpointForest {
  import opened EndpointTree

  datatype Node = Node(id: int, kids: seq<Node>)

  function Ids(t: Node): set<int> {
    {t.id} + AllIds(t.kids)
  }

  function AllIds(ts: seq<Node>): set<int> {
    if ts == [] then {}
    else
      assert ts decreases to ts[0];
      Ids(ts[0]) + AllIds(ts[1..])
  }

  function TopIds(ts: seq<Node>): set<int> {
    if ts == [] then {} else {ts[0].id} + TopIds(ts[1..])
  }

  /** No endpoint twice, siblings ascending. */
  predicate Proper(t: Node) {
    t.id !in AllIds(t.kids) && AllProper(t.kids)
  }

  predicate AllProper(ts: seq<Node>) {
    ts == [] ||
    (assert ts decreases to ts[0];
     && Proper(ts[0]) && AllProper(ts[1..]) && Ids(ts[0]) !! AllIds(ts[1..])
     && (|ts| > 1 ==> ts[0].id < ts[1].id))
  }

  /** Each list has exactly the descendants, in any order and with any repetitions. */
  predicate Lists(t: Node, parts: Parts, ids: seq<int>) {
    Elements(PartsOf(parts, ids, t.id)) == AllIds(t.kids) && AllList(t.kids, parts, ids)
  }

  predicate AllList(ts: seq<Node>, parts: Parts, ids: seq<int>) {
    ts == [] || (assert ts decreases to ts[0]; Lists(ts[0], parts, ids) && AllList(ts[1..], parts, ids))
  }

  /** The forest, parents first, with true depths. */
  function Preorder(t: Node, depth: nat): seq<Entry> {
    [Entry(t.id, depth)] + AllPreorder(t.kids, depth + 1)
  }

  function AllPreorder(ts: seq<Node>, depth: nat): seq<Entry> {
    if ts == [] then []
    else
      assert ts decreases to ts[0];
      Preorder(ts[0], depth) + AllPreorder(ts[1..], depth)
  }

  // ---- direct children are kids -----------------------------------------------------------------

  lemma {:induction false} TopIdsAreIds(ts: seq<Node>)
    ensures TopIds(ts) <= AllIds(ts)
  {
    if ts != [] {
      TopIdsAreIds(ts[1..]);
    }
  }

  /** What an endpoint of the tree lists lies strictly below the tree's root. */
  lemma {:induction false} ListedBelow(t: Node, parts: Parts, ids: seq<int>, other: int)
    requires Lists(t, parts, ids) && other in Ids(t)
    ensures Elements(PartsOf(parts, ids, other)) <= AllIds(t.kids)
  {
    if other != t.id {
      ListedBelowSome(t.kids, parts, ids, other);
    }
  }

  lemma {:induction false} ListedBelowSome(ts: seq<Node>, parts: Parts, ids: seq<int>, other: int)
    requires AllList(ts, parts, ids) && other in AllIds(ts)
    ensures Elements(PartsOf(parts, ids, other)) <= AllIds(ts)
  {
    assert ts decreases to ts[0];
    if other in Ids(ts[0]) {
      ListedBelow(ts[0], parts, ids, other);
    } else {
      ListedBelowSome(ts[1..], parts, ids, other);
    }
  }

  /** Among disjoint trees, no endpoint lists one of the roots. */
  lemma {:induction false} RootsUnlisted(ts: seq<Node>, parts: Parts, ids: seq<int>, other: int, c: int)
    requires AllProper(ts) && AllList(ts, parts, ids) && other in AllIds(ts) && c in TopIds(ts)
    ensures c !in PartsOf(parts, ids, other)
  {
    TopIdsAreIds(ts[1..]);
    if other in Ids(ts[0]) {
      ListedBelow(ts[0], parts, ids, other);
      assert c !in AllIds(ts[0].kids) by {
        if c != ts[0].id {
          assert c in AllIds(ts[1..]);
        }
      }
      assert c !in Elements(PartsOf(parts, ids, other));
    } else if c == ts[0].id {
      ListedBelowSome(ts[1..], parts, ids, other);
      assert c !in Elements(PartsOf(parts, ids, other));
    } else {
      RootsUnlisted(ts[1..], parts, ids, other, c);
    }
  }

  /** Below the roots, every endpoint is listed by one of them. */
  lemma {:induction false} ListedByRoot(ts: seq<Node>, parts: Parts, ids: seq<int>, c: int) returns (root: int)
    requires AllProper(ts) && AllList(ts, parts, ids) && c in AllIds(ts) && c !in TopIds(ts)
    ensures root in TopIds(ts) && root != c && c in PartsOf(parts, ids, root)
  {
    if c in Ids(ts[0]) {
      root := ts[0].id;
      assert c in Elements(PartsOf(parts, ids, root));
    } else {
      root := ListedByRoot(ts[1..], parts, ids, c);
    }
  }

  /** The kept children of an endpoint are the roots of what it lists. */
  lemma {:induction false} DirectAreTop(ts: seq<Node>, parts: Parts, ids: seq<int>, id: int)
    requires AllProper(ts) && AllList(ts, parts, ids) && Elements(PartsOf(parts, ids, id)) == AllIds(ts)
    ensures Elements(DirectChildren(parts, ids, id)) == TopIds(ts) && Sorted(DirectChildren(parts, ids, id))
  {
    var list := PartsOf(parts, ids, id);
    SortKeeps(Direct(parts, ids, list, list));
    TopIdsAreIds(ts);
    forall c ensures c in DirectChildren(parts, ids, id) <==> c in TopIds(ts) {
      ChildIsKnown(parts, ids, id, c);
      TopIsDirect(ts, parts, ids, list, c);
    }
  }

  lemma {:induction false} TopIsDirect(ts: seq<Node>, parts: Parts, ids: seq<int>, list: seq<int>, c: int)
    requires AllProper(ts) && AllList(ts, parts, ids) && Elements(list) == AllIds(ts)
    ensures c in list && !Indirect(parts, ids, list, c) <==> c in TopIds(ts)
  {
    TopIdsAreIds(ts);
    assert c in list <==> c in AllIds(ts);
    if c in TopIds(ts) {
      forall other | other in list && other != c ensures c !in PartsOf(parts, ids, other) {
        assert other in Elements(list);
        RootsUnlisted(ts, parts, ids, other, c);
      }
    } else if c in list {
      var root := ListedByRoot(ts, parts, ids, c);
      assert root in Elements(list);
    }
  }

  // ---- visiting ---------------------------------------------------------------------------------

  /** The children of every endpoint of the tree are its kids, ascending. */
  predicate Matches(t: Node, children: Children) {
    && t.id in children && Elements(children[t.id]) == TopIds(t.kids) && Sorted(children[t.id])
    && AllMatch(t.kids, children)
  }

  predicate AllMatch(ts: seq<Node>, children: Children) {
    ts == [] || (assert ts decreases to ts[0]; Matches(ts[0], children) && AllMatch(ts[1..], children))
  }

  lemma {:induction false} ListsMatch(t: Node, parts: Parts, ids: seq<int>)
    requires Proper(t) && Lists(t, parts, ids) && Ids(t) <= Elements(ids)
    ensures Matches(t, ChildrenOf(parts, ids))
  {
    assert t.id in Elements(ids);
    DirectAreTop(t.kids, parts, ids, t.id);
    AllListsMatch(t.kids, parts, ids);
  }

  lemma {:induction false} AllListsMatch(ts: seq<Node>, parts: Parts, ids: seq<int>)
    requires AllProper(ts) && AllList(ts, parts, ids) && AllIds(ts) <= Elements(ids)
    ensures AllMatch(ts, ChildrenOf(parts, ids))
  {
    if ts != [] {
      assert ts decreases to ts[0];
      ListsMatch(ts[0], parts, ids);
      AllListsMatch(ts[1..], parts, ids);
    }
  }

  /** The first root is the least, and no root is among another's descendants. */
  lemma {:induction false} FirstIsLeast(ts: seq<Node>, c: int)
    requires AllProper(ts) && ts != [] && c in TopIds(ts)
    ensures ts[0].id <= c
  {
    if c != ts[0].id {
      FirstIsLeast(ts[1..], c);
    }
  }

  function Emit(t: Trace, ids: set<int>, entries: seq<Entry>): Trace {
    Trace(t.visited + ids, t.ordered + entries)
  }

  lemma {:induction false} VisitTree(children: Children, t: Node, depth: nat, trace: Trace)
    requires Closed(children) && Matches(t, children) && Proper(t) && Ids(t) !! trace.visited
    ensures Visit(children, t.id, depth, trace) == Emit(trace, Ids(t), Preorder(t, depth))
    decreases t, 0
  {
    var entered := Enter(trace, t.id, depth);
    var list := children[t.id];
    assert Elements(list) - entered.visited == TopIds(t.kids) by {
      TopIdsAreIds(t.kids);
    }
    VisitForest(children, t.kids, list, depth + 1, entered);
    EmitBelow(trace, t, depth);
  }

  lemma {:induction false} EmitBelow(trace: Trace, t: Node, depth: nat)
    ensures Emit(Enter(trace, t.id, depth), AllIds(t.kids), AllPreorder(t.kids, depth + 1))
         == Emit(trace, Ids(t), Preorder(t, depth))
  {
    assert trace.visited + {t.id} + AllIds(t.kids) == trace.visited + Ids(t);
    assert trace.ordered + [Entry(t.id, depth)] + AllPreorder(t.kids, depth + 1) == trace.ordered + Preorder(t, depth);
  }

  /** A sorted list whose unvisited endpoints are the roots of a forest emits that forest. */
  lemma {:induction false} VisitForest(children: Children, ts: seq<Node>, list: seq<int>, depth: nat, trace: Trace)
    requires Closed(children) && Within(list, children) && AllMatch(ts, children) && AllProper(ts)
    requires AllIds(ts) !! trace.visited && Sorted(list) && Elements(list) - trace.visited == TopIds(ts)
    ensures VisitAll(children, list, depth, trace) == Emit(trace, AllIds(ts), AllPreorder(ts, depth))
    decreases ts, |list|
  {
    if list == [] {
      assert Elements(list) == {};
      assert ts == [];
      assert trace.ordered + [] == trace.ordered;
    } else {
      assert Elements(list) == {list[0]} + Elements(list[1..]);
      if list[0] in trace.visited {
        assert Elements(list[1..]) - trace.visited == TopIds(ts);
        VisitForest(children, ts, list[1..], depth, trace);
      } else {
        VisitFirst(children, ts, list, depth, trace);
      }
    }
  }

  lemma {:induction false} VisitFirst(children: Children, ts: seq<Node>, list: seq<int>, depth: nat, trace: Trace)
    requires Closed(children) && Within(list, children) && AllMatch(ts, children) && AllProper(ts)
    requires AllIds(ts) !! trace.visited && Sorted(list) && Elements(list) - trace.visited == TopIds(ts)
    requires list != [] && list[0] !in trace.visited
    ensures VisitAll(children, list, depth, trace) == Emit(trace, AllIds(ts), AllPreorder(ts, depth))
    decreases ts, |list|, 0
  {
    assert list[0] in Elements(list) - trace.visited;
    assert ts != [];
    assert ts decreases to ts[0];
    FirstListed(ts, list, trace);
    VisitTree(children, ts[0], depth, trace);
    var first := Emit(trace, Ids(ts[0]), Preorder(ts[0], depth));
    RestListed(ts, list, trace);
    VisitForest(children, ts[1..], list[1..], depth, first);
    EmitRest(trace, ts, depth);
  }

  lemma {:induction false} FirstListed(ts: seq<Node>, list: seq<int>, trace: Trace)
    requires AllProper(ts) && Sorted(list) && list != [] && list[0] !in trace.visited
    requires ts != [] && Elements(list) - trace.visited == TopIds(ts)
    ensures list[0] == ts[0].id
  {
    assert list[0] in Elements(list) - trace.visited;
    FirstIsLeast(ts, list[0]);
    assert ts[0].id in Elements(list);
    SortedFirst(list, ts[0].id);
  }

  lemma {:induction false} RestListed(ts: seq<Node>, list: seq<int>, trace: Trace)
    requires AllProper(ts) && ts != [] && list != [] && list[0] == ts[0].id
    requires AllIds(ts) !! trace.visited && Elements(list) - trace.visited == TopIds(ts)
    ensures Elements(list[1..]) - (trace.visited + Ids(ts[0])) == TopIds(ts[1..])
    ensures AllIds(ts[1..]) !! trace.visited + Ids(ts[0])
  {
    TopIdsAreIds(ts[1..]);
    assert Elements(list) == {list[0]} + Elements(list[1..]);
    forall c ensures c in Elements(list[1..]) - (trace.visited + Ids(ts[0])) <==> c in TopIds(ts[1..]) {
      assert c in Elements(list) - trace.visited <==> c in TopIds(ts);
    }
  }

  lemma {:induction false} EmitRest(trace: Trace, ts: seq<Node>, depth: nat)
    requires ts != []
    ensures Emit(Emit(trace, Ids(ts[0]), Preorder(ts[0], depth)), AllIds(ts[1..]), AllPreorder(ts[1..], depth))
         == Emit(trace, AllIds(ts), AllPreorder(ts, depth))
  {
    assert trace.visited + Ids(ts[0]) + AllIds(ts[1..]) == trace.visited + AllIds(ts);
    assert trace.ordered + Preorder(ts[0], depth) + AllPreorder(ts[1..], depth) == trace.ordered + AllPreorder(ts, depth);
  }

  // ---- the roots --------------------------------------------------------------------------------

  lemma {:induction false} ChildBelow(ts: seq<Node>, children: Children, id: int, c: int)
    requires AllMatch(ts, children) && AllProper(ts) && id in AllIds(ts) && id in children && c in children[id]
    ensures c in AllIds(ts) && c !in TopIds(ts)
    decreases ts
  {
    assert ts decreases to ts[0];
    TopIdsAreIds(ts[1..]);
    TopIdsAreIds(ts[0].kids);
    if id in AllIds(ts[1..]) {
      ChildBelow(ts[1..], children, id, c);
    } else if id == ts[0].id {
      assert c in Elements(children[id]);
    } else {
      ChildBelow(ts[0].kids, children, id, c);
    }
  }

  lemma {:induction false} HasParentBelow(ts: seq<Node>, children: Children, c: int) returns (id: int)
    requires AllMatch(ts, children) && AllProper(ts) && c in AllIds(ts) && c !in TopIds(ts)
    ensures id in AllIds(ts) && id in children && c in children[id]
    decreases ts
  {
    assert ts decreases to ts[0];
    if c in AllIds(ts[1..]) {
      id := HasParentBelow(ts[1..], children, c);
    } else if c in TopIds(ts[0].kids) {
      id := ts[0].id;
      assert c in Elements(children[id]);
    } else {
      id := HasParentBelow(ts[0].kids, children, c);
    }
  }

  lemma {:induction false} RootsAreTop(ts: seq<Node>, parts: Parts, ids: seq<int>)
    requires AllProper(ts) && AllList(ts, parts, ids) && Elements(ids) == AllIds(ts)
    ensures Elements(Roots(parts, ids)) == TopIds(ts) && Sorted(Roots(parts, ids))
  {
    AllListsMatch(ts, parts, ids);
    TopIdsAreIds(ts);
    RootsHas(parts, ids, 0);
    forall c ensures c in Roots(parts, ids) <==> c in TopIds(ts) {
      RootsHas(parts, ids, c);
      TopIsRoot(ts, parts, ids, c);
    }
  }

  lemma {:induction false} TopIsRoot(ts: seq<Node>, parts: Parts, ids: seq<int>, c: int)
    requires AllProper(ts) && AllMatch(ts, ChildrenOf(parts, ids)) && Elements(ids) == AllIds(ts)
    ensures c in ids && !HasParent(parts, ids, c) <==> c in TopIds(ts)
  {
    var children := ChildrenOf(parts, ids);
    TopIdsAreIds(ts);
    assert c in ids <==> c in AllIds(ts);
    if c in TopIds(ts) {
      forall id | id in ids ensures c !in DirectChildren(parts, ids, id) {
        assert id in Elements(ids);
        if c in children[id] {
          ChildBelow(ts, children, id, c);
        }
      }
    } else if c in ids {
      var id := HasParentBelow(ts, children, c);
      assert id in Elements(ids);
    }
  }

  /** The forest is recovered: parents first, siblings ascending, true depths. */
  lemma {:induction false} ForestRecovered(ts: seq<Node>, parts: Parts, ids: seq<int>)
    requires AllProper(ts) && AllList(ts, parts, ids) && Elements(ids) == AllIds(ts)
    ensures Tree(parts, ids).ordered == AllPreorder(ts, 0)
  {
    var children := ChildrenOf(parts, ids);
    ChildrenClosed(parts, ids);
    RootsWithin(parts, ids);
    AllListsMatch(ts, parts, ids);
    RootsAreTop(ts, parts, ids);
    var start := Trace({}, []);
    assert Elements(Roots(parts, ids)) - {} == TopIds(ts);
    VisitForest(children, ts, Roots(parts, ids), 0, start);
    var reached := Emit(start, AllIds(ts), AllPreorder(ts, 0));
    SortKeeps(ids);
    assert Elements(Sort(ids)) - reached.visited == {};
    VisitForest(children, [], Sort(ids), 0, reached);
    assert [] + AllPreorder(ts, 0) == AllPreorder(ts, 0);
    assert AllPreorder(ts, 0) + [] == AllPreorder(ts, 0);
  }
}
