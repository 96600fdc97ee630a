/** Role memberships as a graph, and the breadth-first search for witness paths. */
module RoleGraph {
  import opened Common

  type Role = string

  datatype Edge = Edge(from: Role, to: Role, inheritOption: bool, setOption: bool, adminOption: bool, grantor: string)

  datatype Mode = Inherit | SetRole

  predicate Allows(e: Edge, mode: Mode) {
    if mode == Inherit then e.inheritOption else e.setOption
  }

  // ---------------------------------------------------------------- walks

  /** `p` is a connected walk of `mode` edges from `s` to `t`. */
  predicate IsWalk(edges: seq<Edge>, mode: Mode, s: Role, p: seq<Edge>, t: Role) {
    if p == [] then s == t
    else
      var e := p[|p| - 1];
      e in edges && Allows(e, mode) && e.to == t && IsWalk(edges, mode, s, p[..|p| - 1], e.from)
  }

  ghost predicate Reachable(edges: seq<Edge>, mode: Mode, s: Role, t: Role) {
    exists p :: IsWalk(edges, mode, s, p, t)
  }

  /** A shortest walk. */
  ghost predicate IsShortest(edges: seq<Edge>, mode: Mode, s: Role, p: seq<Edge>, t: Role) {
    IsWalk(edges, mode, s, p, t) && forall q :: IsWalk(edges, mode, s, q, t) ==> |p| <= |q|
  }

  ghost predicate OnCycle(edges: seq<Edge>, mode: Mode, r: Role) {
    exists p :: p != [] && IsWalk(edges, mode, r, p, r)
  }

  ghost predicate ReachesCycle(edges: seq<Edge>, mode: Mode, s: Role) {
    exists r :: Reachable(edges, mode, s, r) && OnCycle(edges, mode, r)
  }

  ghost predicate Acyclic(edges: seq<Edge>, mode: Mode) {
    forall r :: !OnCycle(edges, mode, r)
  }

  /** The start and every role a path passes. */
  function RolesOn(start: Role, p: seq<Edge>): set<Role> {
    if p == [] then {start} else RolesOn(start, p[..|p| - 1]) + {p[|p| - 1].to}
  }

  lemma Extend(edges: seq<Edge>, mode: Mode, s: Role, p: seq<Edge>, e: Edge)
    requires IsWalk(edges, mode, s, p, e.from) && e in edges && Allows(e, mode)
    ensures IsWalk(edges, mode, s, p + [e], e.to)
    ensures RolesOn(s, p + [e]) == RolesOn(s, p) + {e.to}
  {
    assert (p + [e])[..|p|] == p;
  }

  lemma {:induction false} WalkConcat(edges: seq<Edge>, mode: Mode, s: Role, p: seq<Edge>, t: Role, q: seq<Edge>,
      u: Role)
    requires IsWalk(edges, mode, s, p, t) && IsWalk(edges, mode, t, q, u)
    ensures IsWalk(edges, mode, s, p + q, u)
  {
    if q == [] {
      assert p + q == p;
    } else {
      var e := q[|q| - 1];
      WalkConcat(edges, mode, s, p, t, q[..|q| - 1], e.from);
      assert (p + q)[..|p + q| - 1] == p + q[..|q| - 1];
    }
  }

  /** Every role on a walk reaches its end. */
  lemma {:induction false} SuffixFrom(edges: seq<Edge>, mode: Mode, s: Role, p: seq<Edge>, t: Role, v: Role)
    returns (q: seq<Edge>)
    requires IsWalk(edges, mode, s, p, t) && v in RolesOn(s, p)
    ensures IsWalk(edges, mode, v, q, t)
    ensures Reachable(edges, mode, s, v)
  {
    if p == [] || v == t {
      q := [];
    } else {
      var e := p[|p| - 1];
      var q0 := SuffixFrom(edges, mode, s, p[..|p| - 1], e.from, v);
      Extend(edges, mode, v, q0, e);
      q := q0 + [e];
    }
  }

  /** More memberships, more reachability. */
  lemma {:induction false} WalkMonotone(edges: seq<Edge>, more: seq<Edge>, mode: Mode, s: Role, p: seq<Edge>, t: Role)
    requires IsWalk(edges, mode, s, p, t) && forall e :: e in edges ==> e in more
    ensures IsWalk(more, mode, s, p, t)
  {
    if p == [] {
    } else {
      WalkMonotone(edges, more, mode, s, p[..|p| - 1], p[|p| - 1].from);
    }
  }

  // ---------------------------------------------------------------- adjacency lists

  type Graph = map<Role, seq<Edge>>

  function EdgesOf(g: Graph, r: Role): seq<Edge> {
    if r in g then g[r] else []
  }

  /** The graph lists under each role exactly the edges that leave it. */
  ghost predicate Represents(g: Graph, edges: seq<Edge>) {
    forall r, e :: e in EdgesOf(g, r) <==> e in edges && e.from == r
  }

  /** The sort key of an adjacency list is the granted role, then the grantor. */
  predicate KeyLess(a: Edge, b: Edge) {
    TextLess(a.to, b.to) || (a.to == b.to && TextLess(a.grantor, b.grantor))
  }

  /** No later edge has a smaller key. */
  ghost predicate SortedByKey(es: seq<Edge>) {
    forall i, j :: 0 <= i < j < |es| ==> !KeyLess(es[j], es[i])
  }

  lemma KeyLessTransitive(a: Edge, b: Edge, c: Edge)
    requires !KeyLess(b, a) && !KeyLess(c, b)
    ensures !KeyLess(c, a)
  {
    TextLessTotal(a.to, b.to);
    TextLessTotal(b.to, c.to);
    TextLessTotal(a.to, c.to);
    TextLessTransitive(a.to, b.to, c.to);
    TextLessTransitive(a.grantor, b.grantor, c.grantor);
  }

  /** Stable insertion into a sorted list: behind every edge whose key is not larger. */
  method Insert(es: seq<Edge>, e: Edge) returns (r: seq<Edge>)
    requires SortedByKey(es)
    ensures SortedByKey(r) && multiset(r) == multiset(es) + multiset{e}
  {
    var k := |es|;
    while k > 0 && KeyLess(e, es[k - 1])
      invariant 0 <= k <= |es|
      invariant forall j :: k <= j < |es| ==> KeyLess(e, es[j])
    {
      k := k - 1;
    }
    r := es[..k] + [e] + es[k..];
    assert es == es[..k] + es[k..];
    forall i, j | 0 <= i < j < |r| ensures !KeyLess(r[j], r[i]) {
      InsertKeepsOrder(es, e, k, i, j);
    }
  }

  lemma InsertKeepsOrder(es: seq<Edge>, e: Edge, k: nat, i: nat, j: nat)
    requires SortedByKey(es) && k <= |es| && i < j <= |es|
    requires k > 0 ==> !KeyLess(e, es[k - 1])
    requires forall m :: k <= m < |es| ==> KeyLess(e, es[m])
    ensures var r := es[..k] + [e] + es[k..]; !KeyLess(r[j], r[i])
  {
    var r := es[..k] + [e] + es[k..];
    if j == k {
      assert r[j] == e && r[i] == es[i];
      if i < k - 1 {
        KeyLessTransitive(es[i], es[k - 1], e);
      }
    } else if i == k {
      assert r[i] == e && r[j] == es[j - 1];
      TextLessTotal(e.to, es[j - 1].to);
      TextLessTotal(e.grantor, es[j - 1].grantor);
    }
  }

  lemma AddRow(g: Graph, edges: seq<Edge>, e: Edge, list: seq<Edge>)
    requires Represents(g, edges) && multiset(list) == multiset(EdgesOf(g, e.from)) + multiset{e}
    ensures Represents(g[e.from := list], edges + [e])
  {
    var g' := g[e.from := list];
    forall r, x ensures x in EdgesOf(g', r) <==> x in edges + [e] && x.from == r {
      assert x in EdgesOf(g, r) <==> x in edges && x.from == r;
      assert x in list <==> x in multiset(list);
      assert x in EdgesOf(g, e.from) <==> x in multiset(EdgesOf(g, e.from));
    }
  }

  /** Groups the membership rows by member and keeps each list sorted. */
  method Adjacency(edges: seq<Edge>) returns (g: Graph)
    ensures Represents(g, edges)
    ensures forall r :: SortedByKey(EdgesOf(g, r))
  {
    g := map[];
    for n := 0 to |edges|
      invariant Represents(g, edges[..n])
      invariant forall r :: SortedByKey(EdgesOf(g, r))
    {
      var list := Insert(EdgesOf(g, edges[n].from), edges[n]);
      AddRow(g, edges[..n], edges[n], list);
      assert edges[..n + 1] == edges[..n] + [edges[n]];
      ghost var before := g;
      g := g[edges[n].from := list];
      forall r ensures SortedByKey(EdgesOf(g, r)) {
        assert SortedByKey(EdgesOf(before, r));
      }
    }
    assert edges[..|edges|] == edges;
  }
}
