/** Who owns what: the ids of the objects inside an object, and the statement that no object
    has two owners. */
module SbpOwnership {
  import opened Wrappers
  import opened SbpForest

  function NodeIds(n: Node): set<Id>
    decreases n, 1
  {
    {n.id} + HalfIds(n) + ChildrenIds(n.children)
  }

  /** The ids below the two halves of a merged node, and of the edge between them. */
  function HalfIds(n: Node): set<Id>
    decreases n, 0
  {
    match n.body
    case Origin(_, _) => {}
    case Merged(f, s, _, inner) =>
      NodeIds(f) + NodeIds(s) + (if inner.Some? then EdgeIds(inner.value) else {})
  }

  function ChildIds(c: Child): set<Id>
    decreases c
  {
    NodeIds(c.node) + EdgeIds(c.edge)
  }

  function ChildrenIds(cs: seq<Child>): set<Id>
    decreases cs
  {
    if cs == [] then {} else ChildrenIds(cs[..|cs| - 1]) + ChildIds(cs[|cs| - 1])
  }

  function EdgeIds(e: Edge): set<Id>
    decreases e
  {
    {e.id} +
    match e.body
    case Bare(_, _) => {}
    case Parallel(list) => ListIds(list)
    case Through(mid, a, b, _) => NodeIds(mid) + EdgeIds(a) + EdgeIds(b)
  }

  function ListIds(es: seq<Edge>): set<Id>
    decreases es
  {
    if es == [] then {} else ListIds(es[..|es| - 1]) + EdgeIds(es[|es| - 1])
  }

  /** No object inside n has two owners. */
  ghost predicate ForestNode(n: Node)
    decreases n
  {
    && n.id !in HalfIds(n) && n.id !in ChildrenIds(n.children) && HalfIds(n) !! ChildrenIds(n.children)
    && (match n.body
        case Origin(_, _) => true
        case Merged(f, s, _, inner) =>
          && ForestNode(f) && ForestNode(s) && NodeIds(f) !! NodeIds(s)
          && (inner.Some? ==>
                && ForestEdge(inner.value)
                && EdgeIds(inner.value) !! NodeIds(f) && EdgeIds(inner.value) !! NodeIds(s)))
    && (forall c :: c in n.children ==> ForestNode(c.node) && ForestEdge(c.edge) && NodeIds(c.node) !! EdgeIds(c.edge))
    && forall i, j :: 0 <= i < j < |n.children| ==> ChildIds(n.children[i]) !! ChildIds(n.children[j])
  }

  ghost predicate ForestEdge(e: Edge)
    decreases e
  {
    match e.body
    case Bare(_, _) => true
    case Parallel(list) =>
      && e.id !in ListIds(list)
      && (forall a :: a in list ==> ForestEdge(a))
      && forall i, j :: 0 <= i < j < |list| ==> EdgeIds(list[i]) !! EdgeIds(list[j])
    case Through(mid, a, b, _) =>
      && e.id !in NodeIds(mid) && e.id !in EdgeIds(a) && e.id !in EdgeIds(b)
      && ForestNode(mid) && ForestEdge(a) && ForestEdge(b)
      && NodeIds(mid) !! EdgeIds(a) && NodeIds(mid) !! EdgeIds(b) && EdgeIds(a) !! EdgeIds(b)
  }

  lemma {:induction false} CompsAreOwned(n: Node)
    ensures Comps(PartsOf(n)) <= {n.id} + HalfIds(n)
    decreases n
  {
    match n.body
    case Origin(_, _) =>
    case Merged(f, s, _, _) => CompsAreOwned(f); CompsAreOwned(s);
  }

  lemma {:induction false} ChildrenIdsMember(cs: seq<Child>, i: Id)
    ensures i in ChildrenIds(cs) <==> exists c :: c in cs && i in ChildIds(c)
    decreases |cs|
  {
    if cs != [] {
      var p, l := cs[..|cs| - 1], cs[|cs| - 1];
      assert cs == p + [l];
      ChildrenIdsMember(p, i);
      assert l in cs && forall c :: c in p ==> c in cs;
      forall c | c in cs && i in ChildIds(c) ensures i in ChildrenIds(cs) {
        assert c in p || c == l;
      }
    }
  }

  lemma {:induction false} ListIdsMember(es: seq<Edge>, i: Id)
    ensures i in ListIds(es) <==> exists e :: e in es && i in EdgeIds(e)
    decreases |es|
  {
    if es != [] {
      var p, l := es[..|es| - 1], es[|es| - 1];
      assert es == p + [l];
      ListIdsMember(p, i);
      assert l in es && forall e :: e in p ==> e in es;
      forall e | e in es && i in EdgeIds(e) ensures i in ListIds(es) {
        assert e in p || e == l;
      }
    }
  }
}
