/** The order in which a node's endpoints are shown, recovered from lists of descendants. */
module EndpointTree {

  /** An endpoint and its depth. */
  datatype Entry = Entry(endpointId: int, depth: nat)

  /** The raw descendant lists; an endpoint may lack one. */
  type Parts = map<int, seq<int>>

  type Children = map<int, seq<int>>

  // ---- filtering and sorting ------------------------------------------------------------------

  function Elements(xs: seq<int>): set<int> {
    set x | x in xs
  }

  /** The listed endpoints that exist, without the endpoint itself. */
  function Known(list: seq<int>, ids: seq<int>, id: int): seq<int> {
    if list == [] then []
    else (if list[0] in ids && list[0] != id then [list[0]] else []) + Known(list[1..], ids, id)
  }

  function PartsOf(parts: Parts, ids: seq<int>, id: int): seq<int> {
    Known(if id in parts then parts[id] else [], ids, id)
  }

  /** Another endpoint of the list also lists the child. */
  predicate Indirect(parts: Parts, ids: seq<int>, list: seq<int>, child: int) {
    exists other | other in list :: other != child && child in PartsOf(parts, ids, other)
  }

  function Direct(parts: Parts, ids: seq<int>, list: seq<int>, candidates: seq<int>): seq<int> {
    if candidates == [] then []
    else
      (if Indirect(parts, ids, list, candidates[0]) then [] else [candidates[0]])
      + Direct(parts, ids, list, candidates[1..])
  }

  function Insert(x: int, xs: seq<int>): seq<int> {
    if xs == [] || x <= xs[0] then [x] + xs else [xs[0]] + Insert(x, xs[1..])
  }

  function Sort(xs: seq<int>): seq<int> {
    if xs == [] then [] else Insert(xs[0], Sort(xs[1..]))
  }

  predicate Sorted(xs: seq<int>) {
    |xs| <= 1 || (xs[0] <= xs[1] && Sorted(xs[1..]))
  }

  lemma {:induction false} InsertKeeps(x: int, xs: seq<int>)
    ensures forall y :: y in Insert(x, xs) <==> y == x || y in xs
    ensures Sorted(xs) ==> Sorted(Insert(x, xs))
  {
    if xs != [] && x > xs[0] {
      InsertKeeps(x, xs[1..]);
      assert Insert(x, xs)[1..] == Insert(x, xs[1..]);
    }
  }

  lemma {:induction false} SortKeeps(xs: seq<int>)
    ensures Elements(Sort(xs)) == Elements(xs) && Sorted(Sort(xs))
  {
    if xs != [] {
      SortKeeps(xs[1..]);
      InsertKeeps(xs[0], Sort(xs[1..]));
      forall y ensures y in Sort(xs) <==> y in xs {
        assert y in xs <==> y == xs[0] || y in xs[1..];
        assert y in Sort(xs[1..]) <==> y in Elements(Sort(xs[1..]));
        assert y in xs[1..] <==> y in Elements(xs[1..]);
      }
    }
  }

  lemma {:induction false} SortedFirst(xs: seq<int>, y: int)
    requires Sorted(xs) && y in xs
    ensures xs[0] <= y
  {
    if |xs| > 1 && y != xs[0] {
      SortedFirst(xs[1..], y);
    }
  }

  lemma {:induction false} KnownHas(list: seq<int>, ids: seq<int>, id: int, c: int)
    ensures c in Known(list, ids, id) <==> c in list && c in ids && c != id
  {
    if list != [] {
      KnownHas(list[1..], ids, id, c);
    }
  }

  lemma {:induction false} DirectHas(parts: Parts, ids: seq<int>, list: seq<int>, candidates: seq<int>, c: int)
    ensures c in Direct(parts, ids, list, candidates) <==> c in candidates && !Indirect(parts, ids, list, c)
  {
    if candidates != [] {
      DirectHas(parts, ids, list, candidates[1..], c);
    }
  }

  // ---- the tree ---------------------------------------------------------------------------------

  /** The children kept for an endpoint, ascending. */
  function DirectChildren(parts: Parts, ids: seq<int>, id: int): seq<int> {
    var list := PartsOf(parts, ids, id);
    Sort(Direct(parts, ids, list, list))
  }

  function ChildrenOf(parts: Parts, ids: seq<int>): Children {
    map id | id in ids :: DirectChildren(parts, ids, id)
  }

  predicate HasParent(parts: Parts, ids: seq<int>, c: int) {
    exists id | id in ids :: c in DirectChildren(parts, ids, id)
  }

  function RootsAmong(parts: Parts, ids: seq<int>, candidates: seq<int>): seq<int> {
    if candidates == [] then []
    else
      (if HasParent(parts, ids, candidates[0]) then [] else [candidates[0]]) + RootsAmong(parts, ids, candidates[1..])
  }

  datatype Trace = Trace(visited: set<int>, ordered: seq<Entry>)

  /** Every child is itself an endpoint. */
  predicate Closed(children: Children) {
    forall id | id in children :: Within(children[id], children)
  }

  predicate Within(list: seq<int>, children: Children) {
    forall c | c in list :: c in children
  }

  function Enter(t: Trace, id: int, depth: nat): Trace {
    Trace(t.visited + {id}, t.ordered + [Entry(id, depth)])
  }

  /** How many endpoints are left. */
  function Left(children: Children, t: Trace): nat {
    |children.Keys - t.visited|
  }

  function Visit(children: Children, id: int, depth: nat, t: Trace): (r: Trace)
    requires Closed(children) && id in children
    ensures t.visited <= r.visited
    decreases Left(children, t), 0
  {
    if id in t.visited then t
    else
      EnterLeft(children, id, depth, t);
      VisitAll(children, children[id], depth + 1, Enter(t, id, depth))
  }

  function VisitAll(children: Children, list: seq<int>, depth: nat, t: Trace): (r: Trace)
    requires Closed(children) && Within(list, children)
    ensures t.visited <= r.visited
    decreases Left(children, t), |list|
  {
    if list == [] then t
    else
      var first := Visit(children, list[0], depth, t);
      LaterLeft(children, t, first);
      VisitAll(children, list[1..], depth, first)
  }

  lemma {:induction false} EnterLeft(children: Children, id: int, depth: nat, t: Trace)
    requires id in children && id !in t.visited
    ensures Left(children, Enter(t, id, depth)) < Left(children, t)
  {
    assert id in children.Keys - t.visited;
    SmallerSet(children.Keys - (t.visited + {id}), children.Keys - t.visited);
  }

  lemma {:induction false} LaterLeft(children: Children, t: Trace, r: Trace)
    requires t.visited <= r.visited
    ensures Left(children, r) <= Left(children, t)
  {
    SubsetSize(children.Keys - r.visited, children.Keys - t.visited);
  }

  lemma {:induction false} SmallerSet(a: set<int>, b: set<int>)
    requires a < b
    ensures |a| < |b|
  {
    assert b == a + (b - a);
  }

  lemma {:induction false} SubsetSize(a: set<int>, b: set<int>)
    requires a <= b
    ensures |a| <= |b|
  {
    assert b == a + (b - a);
  }

  lemma {:induction false} ChildrenClosed(parts: Parts, ids: seq<int>)
    ensures Closed(ChildrenOf(parts, ids)) && Within(ids, ChildrenOf(parts, ids))
    ensures forall id | id in ids :: Within(DirectChildren(parts, ids, id), ChildrenOf(parts, ids))
  {
    forall id, c | id in ids && c in DirectChildren(parts, ids, id) ensures c in ids {
      ChildIsKnown(parts, ids, id, c);
    }
  }

  lemma {:induction false} ChildIsKnown(parts: Parts, ids: seq<int>, id: int, c: int)
    ensures c in DirectChildren(parts, ids, id)
       <==> c in PartsOf(parts, ids, id) && !Indirect(parts, ids, PartsOf(parts, ids, id), c)
    ensures c in PartsOf(parts, ids, id) ==> c in ids
  {
    var list := PartsOf(parts, ids, id);
    SortKeeps(Direct(parts, ids, list, list));
    assert c in Sort(Direct(parts, ids, list, list)) <==> c in Elements(Direct(parts, ids, list, list));
    DirectHas(parts, ids, list, list, c);
    KnownHas(if id in parts then parts[id] else [], ids, id, c);
  }

  function Roots(parts: Parts, ids: seq<int>): seq<int> {
    Sort(RootsAmong(parts, ids, ids))
  }

  lemma {:induction false} RootsAmongHas(parts: Parts, ids: seq<int>, candidates: seq<int>, c: int)
    ensures c in RootsAmong(parts, ids, candidates) <==> c in candidates && !HasParent(parts, ids, c)
  {
    if candidates != [] {
      RootsAmongHas(parts, ids, candidates[1..], c);
    }
  }

  lemma {:induction false} RootsHas(parts: Parts, ids: seq<int>, c: int)
    ensures c in Roots(parts, ids) <==> c in ids && !HasParent(parts, ids, c)
    ensures Sorted(Roots(parts, ids))
  {
    var roots := RootsAmong(parts, ids, ids);
    SortKeeps(roots);
    assert c in Sort(roots) <==> c in Elements(roots);
    RootsAmongHas(parts, ids, ids, c);
  }

  lemma {:induction false} RootsWithin(parts: Parts, ids: seq<int>)
    ensures Within(Roots(parts, ids), ChildrenOf(parts, ids)) && Within(Sort(ids), ChildrenOf(parts, ids))
  {
    forall c | c in Roots(parts, ids) ensures c in ids {
      RootsHas(parts, ids, c);
    }
    SortKeeps(ids);
    forall c | c in Sort(ids) ensures c in ids {
      assert c in Elements(Sort(ids));
    }
  }

  /** The shown order: from the roots, then from every endpoint that is left. */
  function Tree(parts: Parts, ids: seq<int>): Trace {
    var children := ChildrenOf(parts, ids);
    ChildrenClosed(parts, ids);
    RootsWithin(parts, ids);
    VisitAll(children, Sort(ids), 0, VisitAll(children, Roots(parts, ids), 0, Trace({}, [])))
  }

  // ---- any data: each endpoint once -------------------------------------------------------------

  function IdsOf(es: seq<Entry>): (r: seq<int>)
    ensures |r| == |es| && forall i | 0 <= i < |es| :: r[i] == es[i].endpointId
  {
    seq(|es|, i requires 0 <= i < |es| => es[i].endpointId)
  }

  predicate Distinct(xs: seq<int>) {
    forall i, j | 0 <= i < j < |xs| :: xs[i] != xs[j]
  }

  /** The entries are the visited endpoints, each once. */
  predicate Faithful(t: Trace) {
    Distinct(IdsOf(t.ordered)) && Elements(IdsOf(t.ordered)) == t.visited
  }

  predicate Sound(t: Trace, children: Children) {
    Faithful(t) && t.visited <= children.Keys
  }

  lemma {:induction false} EnterSound(children: Children, t: Trace, id: int, depth: nat)
    requires Sound(t, children) && id !in t.visited && id in children
    ensures Sound(Enter(t, id, depth), children)
  {
    var xs := IdsOf(t.ordered);
    assert IdsOf(t.ordered + [Entry(id, depth)]) == xs + [id];
    assert id !in Elements(xs);
    assert Elements(xs + [id]) == Elements(xs) + {id};
  }

  lemma {:induction false} VisitSound(children: Children, id: int, depth: nat, t: Trace)
    requires Closed(children) && id in children && Sound(t, children)
    ensures Sound(Visit(children, id, depth, t), children) && id in Visit(children, id, depth, t).visited
    decreases Left(children, t), 0
  {
    if id !in t.visited {
      EnterSound(children, t, id, depth);
      EnterLeft(children, id, depth, t);
      VisitAllSound(children, children[id], depth + 1, Enter(t, id, depth));
    }
  }

  lemma {:induction false} VisitAllSound(children: Children, list: seq<int>, depth: nat, t: Trace)
    requires Closed(children) && Within(list, children) && Sound(t, children)
    ensures Sound(VisitAll(children, list, depth, t), children)
    ensures forall c | c in list :: c in VisitAll(children, list, depth, t).visited
    decreases Left(children, t), |list|
  {
    if list != [] {
      VisitSound(children, list[0], depth, t);
      var first := Visit(children, list[0], depth, t);
      LaterLeft(children, t, first);
      VisitAllSound(children, list[1..], depth, first);
    }
  }

  /** On any descendant lists, cyclic or not, each endpoint is shown exactly once. */
  lemma {:induction false} EachOnce(parts: Parts, ids: seq<int>)
    ensures var shown := IdsOf(Tree(parts, ids).ordered); Distinct(shown) && Elements(shown) == Elements(ids)
  {
    var children := ChildrenOf(parts, ids);
    ChildrenClosed(parts, ids);
    RootsWithin(parts, ids);
    var start := Trace({}, []);
    VisitAllSound(children, Roots(parts, ids), 0, start);
    VisitAllSound(children, Sort(ids), 0, VisitAll(children, Roots(parts, ids), 0, start));
    SortedAll(ids, Tree(parts, ids).visited);
    assert children.Keys == Elements(ids);
  }

  lemma {:induction false} SortedAll(ids: seq<int>, visited: set<int>)
    requires forall c | c in Sort(ids) :: c in visited
    ensures Elements(ids) <= visited
  {
    SortKeeps(ids);
    forall c | c in ids ensures c in visited {
      assert c in Elements(Sort(ids));
    }
  }

  // ---- the program ------------------------------------------------------------------------------

  /** The endpoints visited and emitted so far. */
  class Traversal {
    const children: Children
    var visited: set<int>
    var ordered: seq<Entry>

    constructor (c: Children)
      ensures children == c && Now() == Trace({}, [])
    {
      children := c;
      visited, ordered := {}, [];
    }

    ghost function Now(): Trace
      reads this
    {
      Trace(visited, ordered)
    }

    method VisitOne(id: int, depth: nat)
      requires Closed(children) && id in children
      modifies this
      ensures Now() == Visit(children, id, depth, old(Now()))
      decreases Left(children, Now()), 0
    {
      if id !in visited {
        EnterLeft(children, id, depth, Now());
        visited := visited + {id};
        ordered := ordered + [Entry(id, depth)];
        VisitEach(children[id], depth + 1);
      }
    }

    method VisitEach(list: seq<int>, depth: nat)
      requires Closed(children) && Within(list, children)
      modifies this
      ensures Now() == VisitAll(children, list, depth, old(Now()))
      decreases Left(children, Now()), 1
    {
      for i := 0 to |list|
        invariant old(Now()).visited <= visited
        invariant VisitAll(children, list[i..], depth, Now()) == VisitAll(children, list, depth, old(Now()))
      {
        LaterLeft(children, old(Now()), Now());
        assert list[i..][0] == list[i] && list[i..][1..] == list[i + 1..];
        VisitOne(list[i], depth);
      }
    }
  }

  predicate ParentIn(parts: Parts, ids: seq<int>, among: seq<int>, c: int) {
    exists id | id in among :: c in DirectChildren(parts, ids, id)
  }

  ghost predicate Parents(parts: Parts, ids: seq<int>, among: seq<int>, hasParent: set<int>) {
    forall c :: c in hasParent <==> ParentIn(parts, ids, among, c)
  }

  lemma {:induction false} NextParent(parts: Parts, ids: seq<int>, i: nat, hasParent: set<int>)
    requires i < |ids| && Parents(parts, ids, ids[..i], hasParent)
    ensures Parents(parts, ids, ids[..i + 1], hasParent + Elements(DirectChildren(parts, ids, ids[i])))
  {
    var list := DirectChildren(parts, ids, ids[i]);
    forall c ensures c in hasParent + Elements(list) <==> ParentIn(parts, ids, ids[..i + 1], c) {
      assert ids[..i + 1] == ids[..i] + [ids[i]];
    }
  }

  method Relate(parts: Parts, ids: seq<int>) returns (children: Children, hasParent: set<int>)
    ensures children == ChildrenOf(parts, ids) && Parents(parts, ids, ids, hasParent)
  {
    children, hasParent := map[], {};
    for i := 0 to |ids|
      invariant children == map id | id in ids[..i] :: DirectChildren(parts, ids, id)
      invariant Parents(parts, ids, ids[..i], hasParent)
    {
      var directChildren := DirectChildren(parts, ids, ids[i]);
      NextParent(parts, ids, i, hasParent);
      children := children[ids[i] := directChildren];
      hasParent := hasParent + Elements(directChildren);
    }
    assert ids[..|ids|] == ids;
  }

  function Without(candidates: seq<int>, excluded: set<int>): seq<int> {
    if candidates == [] then []
    else (if candidates[0] in excluded then [] else [candidates[0]]) + Without(candidates[1..], excluded)
  }

  lemma {:induction false} WithoutParents(parts: Parts, ids: seq<int>, hasParent: set<int>, candidates: seq<int>)
    requires Parents(parts, ids, ids, hasParent)
    ensures Without(candidates, hasParent) == RootsAmong(parts, ids, candidates)
  {
    if candidates != [] {
      assert HasParent(parts, ids, candidates[0]) <==> ParentIn(parts, ids, ids, candidates[0]);
      WithoutParents(parts, ids, hasParent, candidates[1..]);
    }
  }

  method GetEndpointTree(parts: Parts, ids: seq<int>) returns (ordered: seq<Entry>)
    ensures ordered == Tree(parts, ids).ordered
  {
    var children, hasParent := Relate(parts, ids);
    WithoutParents(parts, ids, hasParent, ids);
    ChildrenClosed(parts, ids);
    RootsWithin(parts, ids);
    var traversal := new Traversal(children);
    traversal.VisitEach(Sort(Without(ids, hasParent)), 0);
    traversal.VisitEach(Sort(ids), 0);
    ordered := traversal.ordered;
  }
}
