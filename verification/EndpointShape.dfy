/** On any lists, cyclic or not, the depths shown are true: every endpoint below the top stands in
    the part of a parent, and the top level is the roots and then what no root leads to. */
module EndpointShape {
  import opened EndpointTree

  /** The entry at i is a child of an earlier one, one level up, in whose part it stands. */
  predicate Under(children: Children, es: seq<Entry>, i: nat)
    requires i < |es|
  {
    exists j | 0 <= j < i :: IsParent(children, es, j, i)
  }

  predicate IsParent(children: Children, es: seq<Entry>, j: nat, i: nat)
    requires j < i < |es|
  {
    && es[j].depth + 1 == es[i].depth
    && es[j].endpointId in children && es[i].endpointId in children[es[j].endpointId]
    && forall k | j < k < i :: es[k].depth >= es[i].depth
  }

  /** Entries at the depth or deeper; those at the depth are listed, the others have a parent. */
  ghost predicate Nested(children: Children, es: seq<Entry>, depth: nat, listed: set<int>) {
    && (forall e | e in es :: e.depth >= depth)
    && (forall e | e in es && e.depth == depth :: e.endpointId in listed)
    && (forall i | 0 <= i < |es| && es[i].depth > depth :: Under(children, es, i))
  }

  lemma {:induction false} UnderLeft(children: Children, a: seq<Entry>, b: seq<Entry>, i: nat)
    requires i < |a| && Under(children, a, i)
    ensures Under(children, a + b, i)
  {
    var j :| 0 <= j < i && IsParent(children, a, j, i);
    assert IsParent(children, a + b, j, i);
  }

  lemma {:induction false} UnderRight(children: Children, a: seq<Entry>, b: seq<Entry>, i: nat)
    requires i < |b| && Under(children, b, i)
    ensures Under(children, a + b, |a| + i)
  {
    var j :| 0 <= j < i && IsParent(children, b, j, i);
    forall k | |a| + j < k < |a| + i ensures (a + b)[k].depth >= (a + b)[|a| + i].depth {
      assert (a + b)[k] == b[k - |a|];
    }
    assert IsParent(children, a + b, |a| + j, |a| + i);
  }

  lemma {:induction false} NestedJoin(children: Children, a: seq<Entry>, b: seq<Entry>, depth: nat,
                                      x: set<int>, y: set<int>)
    requires Nested(children, a, depth, x) && Nested(children, b, depth, y)
    ensures Nested(children, a + b, depth, x + y)
  {
    forall i | 0 <= i < |a + b| && (a + b)[i].depth > depth ensures Under(children, a + b, i) {
      if i < |a| {
        UnderLeft(children, a, b, i);
      } else {
        UnderRight(children, a, b, i - |a|);
      }
    }
  }

  /** Right behind a parent, deeper entries come under it or under each other. */
  lemma {:induction false} UnderFirst(children: Children, id: int, depth: nat, es: seq<Entry>, i: nat)
    requires id in children && i < |es| && es[i].endpointId in children[id] && es[i].depth == depth + 1
    requires forall e | e in es :: e.depth >= depth + 1
    ensures Under(children, [Entry(id, depth)] + es, i + 1)
  {
    var all := [Entry(id, depth)] + es;
    assert all[0] == Entry(id, depth) && all[i + 1] == es[i];
    forall k | 0 < k < i + 1 ensures all[k].depth >= all[i + 1].depth {
      assert all[k] == es[k - 1];
    }
    assert IsParent(children, all, 0, i + 1);
  }

  /** An endpoint's part: itself, then the parts of its children, one level down. */
  lemma {:induction false} NestedBelow(children: Children, id: int, depth: nat, es: seq<Entry>)
    requires id in children && Nested(children, es, depth + 1, Elements(children[id]))
    ensures Nested(children, [Entry(id, depth)] + es, depth, {id})
  {
    var all := [Entry(id, depth)] + es;
    forall i | 0 <= i < |all| && all[i].depth > depth ensures Under(children, all, i) {
      assert all[i] == es[i - 1];
      BelowFirst(children, id, depth, es, i - 1);
    }
    assert forall e | e in all :: e == Entry(id, depth) || e in es;
  }

  lemma {:induction false} BelowFirst(children: Children, id: int, depth: nat, es: seq<Entry>, i: nat)
    requires id in children && Nested(children, es, depth + 1, Elements(children[id])) && i < |es|
    ensures Under(children, [Entry(id, depth)] + es, i + 1)
  {
    assert es[i] in es;
    if es[i].depth > depth + 1 {
      UnderRight(children, [Entry(id, depth)], es, i);
      OneBefore(id, depth, es, i);
    } else {
      assert es[i].endpointId in Elements(children[id]);
      UnderFirst(children, id, depth, es, i);
    }
  }

  lemma {:induction false} OneBefore(id: int, depth: nat, es: seq<Entry>, i: nat)
    ensures |[Entry(id, depth)]| + i == i + 1
  {
  }

  // ---- the top level ------------------------------------------------------------------------------

  /** The endpoints shown at the depth, in order. */
  function TopOf(es: seq<Entry>, depth: nat): seq<int> {
    if es == [] then [] else (if es[0].depth == depth then [es[0].endpointId] else []) + TopOf(es[1..], depth)
  }

  lemma {:induction false} TopJoin(a: seq<Entry>, b: seq<Entry>, depth: nat)
    ensures TopOf(a + b, depth) == TopOf(a, depth) + TopOf(b, depth)
  {
    if a == [] {
      assert a + b == b;
    } else {
      assert (a + b)[0] == a[0] && (a + b)[1..] == a[1..] + b;
      TopJoin(a[1..], b, depth);
      var first := if a[0].depth == depth then [a[0].endpointId] else [];
      assert first + (TopOf(a[1..], depth) + TopOf(b, depth)) == first + TopOf(a[1..], depth) + TopOf(b, depth);
    }
  }

  lemma {:induction false} TopNone(es: seq<Entry>, depth: nat)
    requires forall e | e in es :: e.depth > depth
    ensures TopOf(es, depth) == []
  {
    if es != [] {
      assert es[0] in es;
      TopNone(es[1..], depth);
    }
  }

  /** xs comes from ys by leaving elements out. */
  predicate Thinned(xs: seq<int>, ys: seq<int>) {
    if ys == [] then xs == []
    else Thinned(xs, ys[1..]) || (xs != [] && xs[0] == ys[0] && Thinned(xs[1..], ys[1..]))
  }

  lemma {:induction false} ThinnedSorted(xs: seq<int>, ys: seq<int>)
    requires Thinned(xs, ys) && Sorted(ys)
    ensures Sorted(xs) && forall x | x in xs :: x in ys
    decreases ys
  {
    if ys != [] {
      if Thinned(xs, ys[1..]) {
        ThinnedSorted(xs, ys[1..]);
      } else {
        ThinnedSorted(xs[1..], ys[1..]);
        forall x | x in xs ensures x in ys {
          assert x == xs[0] || x in xs[1..];
        }
        if |xs| > 1 {
          assert xs[1] == xs[1..][0] && xs[1] in xs[1..];
          SortedFirst(ys, xs[1]);
        }
      }
    }
  }

  // ---- visits -------------------------------------------------------------------------------------

  /** r is t with the entries of a part added. */
  ghost predicate Shaped(children: Children, t: Trace, r: Trace, es: seq<Entry>, depth: nat, list: seq<int>) {
    r.ordered == t.ordered + es && Nested(children, es, depth, Elements(list)) && Thinned(TopOf(es, depth), list)
  }

  lemma {:induction false} NothingShaped(children: Children, t: Trace, depth: nat, list: seq<int>)
    ensures Shaped(children, t, t, [], depth, list)
  {
    assert t.ordered + [] == t.ordered;
    NothingThinned(list);
  }

  lemma {:induction false} NothingThinned(list: seq<int>)
    ensures Thinned([], list)
  {
    if list != [] {
      NothingThinned(list[1..]);
    }
  }

  lemma {:induction false} EnteredShaped(children: Children, id: int, depth: nat, t: Trace, r: Trace, below: seq<Entry>)
    requires id in children && Shaped(children, Enter(t, id, depth), r, below, depth + 1, children[id])
    ensures Shaped(children, t, r, [Entry(id, depth)] + below, depth, [id])
  {
    NestedBelow(children, id, depth, below);
    TopBelow(id, depth, below);
    ItselfThinned(id);
    OneElement(id);
    Regroup(t.ordered, [Entry(id, depth)], below);
  }

  lemma {:induction false} OneElement(id: int)
    ensures Elements([id]) == {id}
  {
  }

  lemma {:induction false} ItselfThinned(id: int)
    ensures Thinned([id], [id])
  {
    assert [id][1..] == [];
  }

  lemma {:induction false} Regroup(a: seq<Entry>, b: seq<Entry>, c: seq<Entry>)
    ensures a + b + c == a + (b + c)
  {
  }

  lemma {:induction false} JoinShaped(children: Children, t: Trace, mid: Trace, r: Trace, a: seq<Entry>, b: seq<Entry>,
                                      depth: nat, list: seq<int>)
    requires list != [] && Shaped(children, t, mid, a, depth, [list[0]]) && Shaped(children, mid, r, b, depth, list[1..])
    ensures Shaped(children, t, r, a + b, depth, list)
  {
    Regroup(t.ordered, a, b);
    NestedJoin(children, a, b, depth, Elements([list[0]]), Elements(list[1..]));
    assert Elements([list[0]]) + Elements(list[1..]) == Elements(list);
    TopJoin(a, b, depth);
    OneThinned(TopOf(a, depth), list[0]);
    NextThinned(TopOf(a, depth), TopOf(b, depth), list);
  }

  lemma {:induction false} OneThinned(xs: seq<int>, x: int)
    requires Thinned(xs, [x])
    ensures xs == [] || xs == [x]
  {
    assert [x][1..] == [];
  }

  lemma {:induction false} VisitShape(children: Children, id: int, depth: nat, t: Trace) returns (es: seq<Entry>)
    requires Closed(children) && id in children
    ensures Shaped(children, t, Visit(children, id, depth, t), es, depth, [id])
    decreases Left(children, t), 0
  {
    if id in t.visited {
      es := [];
      NothingShaped(children, t, depth, [id]);
    } else {
      VisitEnters(children, id, depth, t);
      var below := VisitAllShape(children, children[id], depth + 1, Enter(t, id, depth));
      EnteredShaped(children, id, depth, t, Visit(children, id, depth, t), below);
      es := [Entry(id, depth)] + below;
    }
  }

  lemma {:induction false} VisitEnters(children: Children, id: int, depth: nat, t: Trace)
    requires Closed(children) && id in children && id !in t.visited
    ensures Left(children, Enter(t, id, depth)) < Left(children, t)
    ensures Visit(children, id, depth, t) == VisitAll(children, children[id], depth + 1, Enter(t, id, depth))
  {
    EnterLeft(children, id, depth, t);
  }

  lemma {:induction false} VisitsFirst(children: Children, list: seq<int>, depth: nat, t: Trace)
    requires Closed(children) && Within(list, children) && list != []
    ensures var first := Visit(children, list[0], depth, t);
      Left(children, first) <= Left(children, t)
      && VisitAll(children, list, depth, t) == VisitAll(children, list[1..], depth, first)
  {
    LaterLeft(children, t, Visit(children, list[0], depth, t));
  }

  lemma {:induction false} TopBelow(id: int, depth: nat, es: seq<Entry>)
    requires forall e | e in es :: e.depth > depth
    ensures TopOf([Entry(id, depth)] + es, depth) == [id]
  {
    assert ([Entry(id, depth)] + es)[1..] == es;
    TopNone(es, depth);
  }

  lemma {:induction false} NextThinned(first: seq<int>, rest: seq<int>, list: seq<int>)
    requires list != [] && (first == [] || first == [list[0]]) && Thinned(rest, list[1..])
    ensures Thinned(first + rest, list)
  {
    if first == [] {
      assert first + rest == rest;
    } else {
      assert (first + rest)[1..] == rest;
    }
  }

  lemma {:induction false} VisitAllShape(children: Children, list: seq<int>, depth: nat, t: Trace)
    returns (es: seq<Entry>)
    requires Closed(children) && Within(list, children)
    ensures Shaped(children, t, VisitAll(children, list, depth, t), es, depth, list)
    decreases Left(children, t), |list|
  {
    if list == [] {
      es := [];
      NothingShaped(children, t, depth, list);
    } else {
      var first := Visit(children, list[0], depth, t);
      VisitsFirst(children, list, depth, t);
      var a := VisitShape(children, list[0], depth, t);
      var b := VisitAllShape(children, list[1..], depth, first);
      JoinShaped(children, t, first, VisitAll(children, list, depth, t), a, b, depth, list);
      es := a + b;
    }
  }

  /** What is reached between t and r includes all children of what is reached. */
  ghost predicate Closes(children: Children, t: Trace, r: Trace) {
    forall x | x in r.visited && x !in t.visited && x in children :: AllIn(children[x], r.visited)
  }

  predicate AllIn(list: seq<int>, visited: set<int>) {
    forall c | c in list :: c in visited
  }

  lemma {:induction false} EnteredCloses(children: Children, id: int, depth: nat, t: Trace, r: Trace)
    requires id in children && Closes(children, Enter(t, id, depth), r)
    requires AllIn(children[id], r.visited)
    ensures Closes(children, t, r)
  {
    forall x | x in r.visited && x !in t.visited && x in children ensures AllIn(children[x], r.visited) {
      if x != id {
        assert x !in Enter(t, id, depth).visited;
      }
    }
  }

  lemma {:induction false} VisitCloses(children: Children, id: int, depth: nat, t: Trace)
    requires Closed(children) && id in children && Sound(t, children)
    ensures Closes(children, t, Visit(children, id, depth, t))
    decreases Left(children, t), 0
  {
    if id !in t.visited {
      VisitEnters(children, id, depth, t);
      EnterSound(children, t, id, depth);
      VisitAllSound(children, children[id], depth + 1, Enter(t, id, depth));
      VisitAllCloses(children, children[id], depth + 1, Enter(t, id, depth));
      EnteredCloses(children, id, depth, t, Visit(children, id, depth, t));
    }
  }

  lemma {:induction false} VisitAllCloses(children: Children, list: seq<int>, depth: nat, t: Trace)
    requires Closed(children) && Within(list, children) && Sound(t, children)
    ensures Closes(children, t, VisitAll(children, list, depth, t))
    decreases Left(children, t), |list|
  {
    if list != [] {
      var first := Visit(children, list[0], depth, t);
      VisitSound(children, list[0], depth, t);
      VisitCloses(children, list[0], depth, t);
      VisitsFirst(children, list, depth, t);
      VisitAllCloses(children, list[1..], depth, first);
    }
  }

  // ---- the whole tree -----------------------------------------------------------------------------

  /** The entries of a part of the tree. */
  ghost predicate Part(children: Children, es: seq<Entry>, list: seq<int>) {
    Nested(children, es, 0, Elements(list)) && Sorted(TopOf(es, 0))
  }

  lemma {:induction false} TreeParts(parts: Parts, ids: seq<int>) returns (a: seq<Entry>, b: seq<Entry>, mid: Trace)
    ensures Closed(ChildrenOf(parts, ids)) && Within(Roots(parts, ids), ChildrenOf(parts, ids))
    ensures mid == VisitAll(ChildrenOf(parts, ids), Roots(parts, ids), 0, Trace({}, []))
    ensures mid.ordered == a && Tree(parts, ids).ordered == a + b
    ensures Part(ChildrenOf(parts, ids), a, Roots(parts, ids)) && Part(ChildrenOf(parts, ids), b, ids)
  {
    var children := ChildrenOf(parts, ids);
    ChildrenClosed(parts, ids);
    RootsWithin(parts, ids);
    mid := VisitAll(children, Roots(parts, ids), 0, Trace({}, []));
    a := VisitAllShape(children, Roots(parts, ids), 0, Trace({}, []));
    b := VisitAllShape(children, Sort(ids), 0, mid);
    assert [] + a == a;
    SortKeeps(RootsAmong(parts, ids, ids));
    SortKeeps(ids);
    ThinnedSorted(TopOf(a, 0), Roots(parts, ids));
    ThinnedSorted(TopOf(b, 0), Sort(ids));
  }

  /** The first part holds the roots and all children of what it holds. */
  ghost predicate Full(children: Children, roots: seq<int>, es: seq<Entry>) {
    && AllIn(roots, Elements(IdsOf(es)))
    && forall x | x in Elements(IdsOf(es)) && x in children :: AllIn(children[x], Elements(IdsOf(es)))
  }

  lemma {:induction false} FirstPartFull(children: Children, roots: seq<int>)
    requires Closed(children) && Within(roots, children)
    ensures Full(children, roots, VisitAll(children, roots, 0, Trace({}, [])).ordered)
  {
    var start := Trace({}, []);
    assert Elements(IdsOf(start.ordered)) == {};
    VisitAllSound(children, roots, 0, start);
    VisitAllCloses(children, roots, 0, start);
    assert Elements(IdsOf(VisitAll(children, roots, 0, start).ordered)) == VisitAll(children, roots, 0, start).visited;
  }

  /** For any lists: first the endpoints without a parent, ascending, each with its part; then,
      ascending, what they do not lead to. In both, an endpoint below the top is a direct child of
      the one in whose part it stands. */
  lemma {:induction false} TreeShape(parts: Parts, ids: seq<int>) returns (a: seq<Entry>, b: seq<Entry>)
    ensures var children := ChildrenOf(parts, ids);
      && Tree(parts, ids).ordered == a + b && Full(children, Roots(parts, ids), a)
      && Part(children, a, Roots(parts, ids)) && Part(children, b, ids)
  {
    var mid;
    a, b, mid := TreeParts(parts, ids);
    FirstPartFull(ChildrenOf(parts, ids), Roots(parts, ids));
  }
}
