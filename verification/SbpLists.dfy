/** The vectors of the graph: node_list_ with node_list_id_, and edges_out_ / edges_in_ of the
    live nodes.  Order does not matter in any of them, so slots are removed by moving the last
    one in. */
module SbpLists {
  import opened Sums
  import opened SbpForest
  import opened SbpSteps

  // ----- removal -----

  /** RemoveFrom: the last slot replaces slot i. */
  function RemoveAt<T>(v: seq<T>, i: nat): (w: seq<T>)
    requires i < |v|
    ensures multiset(w) == multiset(v) - multiset{v[i]}
  {
    var last := |v| - 1;
    assert v == v[..i] + [v[i]] + v[i + 1..];
    assert v[i := v[last]][..last] == if i == last then v[..i] else v[..i] + [v[last]] + v[i + 1..last];
    assert i < last ==> v[i + 1..] == v[i + 1..last] + [v[last]];
    v[i := v[last]][..last]
  }

  lemma RemoveAtFacts(v: seq<Id>, i: nat)
    requires Distinct(v) && i < |v|
    ensures Distinct(RemoveAt(v, i)) && |RemoveAt(v, i)| == |v| - 1
    ensures forall k :: k in RemoveAt(v, i) <==> k in v && k != v[i]
  {
    var w := RemoveAt(v, i);
    forall k ensures k in w <==> k in v && k != v[i] {
      if k in v && k != v[i] {
        var p :| 0 <= p < |v| && v[p] == k;
        if p == |v| - 1 { assert w[i] == k; } else { assert w[p] == k; }
      }
    }
  }

  /** CheckAndRemoveFrom: drop t from the list, if it is there. */
  method CheckAndRemoveFrom(v: seq<Id>, t: Id) returns (w: seq<Id>)
    ensures multiset(w) == multiset(v) - multiset{t}
    ensures Distinct(v) ==> (Distinct(w) && forall k :: k in w <==> k in v && k != t)
  {
    w := v;
    var i := |v|;
    while i > 0
      invariant 0 <= i <= |v| && w == v && t !in v[i..]
    {
      i := i - 1;
      if v[i] == t {
        w := RemoveAt(v, i);
        if Distinct(v) { RemoveAtFacts(v, i); }
        return;
      }
    }
    assert v[0..] == v;
  }

  // ----- node_list_ and node_list_id_ -----

  /** node_list_[k]->node_list_id_ == k, for exactly the live nodes. */
  ghost predicate Indexed(list: seq<Id>, at: map<Id, nat>, ids: set<Id>) {
    && at.Keys == ids
    && (forall p :: 0 <= p < |list| ==> list[p] in at && at[list[p]] == p)
    && (forall i :: i in at ==> at[i] < |list| && list[at[i]] == i)
  }

  lemma RemoveIndexed(list: seq<Id>, at: map<Id, nat>, ids: set<Id>, i: Id, at': map<Id, nat>)
    requires Indexed(list, at, ids) && i in at && at' == at[list[|list| - 1] := at[i]] - {i}
    ensures Indexed(RemoveAt(list, at[i]), at', ids - {i})
  {
    var w, last := RemoveAt(list, at[i]), list[|list| - 1];
    forall p | 0 <= p < |w| ensures w[p] in at' && at'[w[p]] == p {
      if p == at[i] { assert w[p] == last && last != i; } else { assert w[p] == list[p]; }
    }
    forall j | j in at' ensures at'[j] < |w| && w[at'[j]] == j {
      if j == last { assert at'[j] == at[i]; } else { assert list[at[j]] == j && at[j] != |list| - 1; }
    }
  }

  lemma AppendIndexed(list: seq<Id>, at: map<Id, nat>, ids: set<Id>, i: Id)
    requires Indexed(list, at, ids) && i !in ids
    ensures Indexed(list + [i], at[i := |list|], ids + {i})
  {
  }

  // ----- edges_out_ and edges_in_ -----

  ghost predicate OutList(edge: map<Id, Edge>, i: Id, list: seq<Id>) {
    Distinct(list) && forall k :: k in list <==> k in edge && edge[k].start == i
  }

  ghost predicate InList(edge: map<Id, Edge>, i: Id, list: seq<Id>) {
    Distinct(list) && forall k :: k in list <==> k in edge && edge[k].end == i
  }

  /** Every live edge is once in edges_out_ of its start and once in edges_in_ of its end. */
  ghost predicate Listed(g: Graph, out: map<Id, seq<Id>>, into: map<Id, seq<Id>>) {
    && out.Keys == g.node.Keys && into.Keys == g.node.Keys
    && (forall i :: i in out ==> OutList(g.edge, i, out[i]))
    && (forall i :: i in into ==> InList(g.edge, i, into[i]))
  }

  function EdgesOf(edge: map<Id, Edge>, ks: seq<Id>): (es: seq<Edge>)
    requires forall k :: k in ks ==> k in edge
    ensures |es| == |ks| && forall j :: 0 <= j < |ks| ==> es[j] == edge[ks[j]]
  {
    seq(|ks|, j requires 0 <= j < |ks| => edge[ks[j]])
  }

  /** edges_out_ followed by edges_in_: without self-loops, the edges at i, each once. */
  lemma AtNode(g: Graph, out: map<Id, seq<Id>>, into: map<Id, seq<Id>>, i: Id)
    requires Wired(g) && Listed(g, out, into) && i in g.node
    ensures Distinct(out[i] + into[i]) && Distinct(into[i] + out[i])
    ensures forall k :: k in out[i] + into[i] <==> k in g.edge && Touches(g.edge[k], i)
    ensures forall k :: k in into[i] + out[i] <==> k in g.edge && Touches(g.edge[k], i)
  {
    assert OutList(g.edge, i, out[i]) && InList(g.edge, i, into[i]);
    forall k | k in out[i] ensures k !in into[i] { assert g.edge[k].start != g.edge[k].end; }
    DistinctAppend(out[i], into[i]);
    DistinctAppend(into[i], out[i]);
  }

  lemma DistinctAppend(a: seq<Id>, b: seq<Id>)
    requires Distinct(a) && Distinct(b) && forall k :: k in a ==> k !in b
    ensures Distinct(a + b)
  {
    var c := a + b;
    forall p, q | 0 <= p < q < |c| ensures c[p] != c[q] {
      if p < |a| && |a| <= q { assert c[p] == a[p] && c[q] == b[q - |a|] && a[p] in a && b[q - |a|] in b; }
    }
  }

  // ----- the two sweeps of EdgeElimination -----

  /** LookForParallelEdge: take out of a list, behind slot stop, the edges that end at v. */
  method TakeParallel(edge: map<Id, Edge>, list: seq<Id>, v: Id, stop: nat) returns (found: seq<Id>, rest: seq<Id>)
    requires Distinct(list) && stop <= |list| && forall k :: k in list ==> k in edge
    ensures Distinct(found) && Distinct(rest) && stop <= |rest| && rest[..stop] == list[..stop]
    ensures |found| + |rest| == |list|
    ensures forall k :: k in found <==> k in list[stop..] && edge[k].end == v
    ensures forall k :: k in rest[stop..] <==> k in list[stop..] && edge[k].end != v
    ensures found == [] ==> rest == list
  {
    found, rest := [], list;
    var j := |list|;
    while j > stop
      invariant stop <= j <= |rest| && Distinct(found) && Distinct(rest) && |found| + |rest| == |list|
      invariant rest[..j] == list[..j]
      invariant forall k :: k in found <==> k in list[j..] && edge[k].end == v
      invariant forall k :: k in rest[j..] <==> k in list[j..] && edge[k].end != v
      invariant found == [] ==> rest == list
    {
      j := j - 1;
      var k := rest[j];
      assert k == list[..j + 1][j] == list[j];
      assert list[j..] == [k] + list[j + 1..] && rest[j..] == [k] + rest[j + 1..];
      if edge[k].end == v {
        found := found + [k];
        ghost var before := rest;
        rest := RemoveAt(rest, j);
        RemoveAtFacts(before, j);
        SweptTail(before, j);
      }
    }
  }

  lemma SweptTail(v: seq<Id>, j: nat)
    requires Distinct(v) && j < |v|
    ensures RemoveAt(v, j)[..j] == v[..j]
    ensures forall k :: k in RemoveAt(v, j)[j..] <==> k in v[j + 1..]
  {
    var w := RemoveAt(v, j);
    forall k | k in w[j..] ensures k in v[j + 1..] {
      var p :| 0 <= p < |w[j..]| && w[j..][p] == k;
      if p == 0 { assert k == v[|v| - 1] && j < |v| - 1; } else { assert k == v[j + p]; }
    }
    forall k | k in v[j + 1..] ensures k in w[j..] {
      var p :| 0 <= p < |v[j + 1..]| && v[j + 1..][p] == k;
      if p == |v| - 1 - (j + 1) { assert w[j] == k; } else { assert w[j + 1 + p] == k; }
    }
  }

  /** RemoveFromEdgesIn: drop from a list every edge that starts at u. */
  method DropFrom(edge: map<Id, Edge>, list: seq<Id>, u: Id) returns (rest: seq<Id>)
    requires Distinct(list) && forall k :: k in list ==> k in edge
    ensures Distinct(rest) && forall k :: k in rest <==> k in list && edge[k].start != u
  {
    rest := list;
    var i := |list|;
    while i > 0
      invariant 0 <= i <= |rest| && i <= |list| && Distinct(rest) && rest[..i] == list[..i]
      invariant forall k :: k in rest[i..] <==> k in list[i..] && edge[k].start != u
    {
      i := i - 1;
      var k := rest[i];
      assert k == list[..i + 1][i] == list[i];
      assert list[i..] == [k] + list[i + 1..] && rest[i..] == [k] + rest[i + 1..];
      if edge[k].start == u {
        ghost var before := rest;
        rest := RemoveAt(rest, i);
        RemoveAtFacts(before, i);
        SweptTail(before, i);
      }
    }
    assert rest[0..] == rest && list[0..] == list;
  }
}
