/** The search of `_paths`: what it returns, when it raises, and which cycles it misses. */
module RolePaths {
  import opened RoleGraph
  import opened RoleSearch
  import opened RoleOrder

  datatype PathsResult = Found(paths: map<Role, seq<Edge>>) | CycleError

  // ---------------------------------------------------------------- the search

  /** Where every found role must come from. */
  function Universe(start: Role, edges: seq<Edge>): set<Role> {
    {start} + set e | e in edges :: e.to
  }

  lemma SearchStarts(edges: seq<Edge>, mode: Mode, start: Role)
    ensures Searching(edges, mode, start, map[start := []], [start])
    ensures start in Universe(start, edges)
  {}

  /** Nothing happened yet, or a role was added behind the one being expanded. */
  ghost predicate Grown(found: map<Role, seq<Edge>>, pending: seq<Role>, found': map<Role, seq<Edge>>,
      pending': seq<Role>) {
    && pending != [] && pending' != [] && pending'[0] == pending[0]
    && (found.Keys < found'.Keys || (found.Keys == found'.Keys && pending' == pending))
  }

  /** The search with `k` edges of the first pending role looked at. */
  ghost predicate Expanding(g: Graph, edges: seq<Edge>, mode: Mode, start: Role,
                            found: map<Role, seq<Edge>>, pending: seq<Role>, k: nat)
  {
    && pending != [] && Represents(g, edges) && found.Keys <= Universe(start, edges)
    && Searching(edges, mode, start, found, pending)
    && InOrder(g, edges, mode, start, found, pending, k)
    && AllSettled(start, found, EdgesOf(g, pending[0]), mode, k)
  }

  /** The first `k` edges of the list are settled. */
  ghost predicate AllSettled(start: Role, found: map<Role, seq<Edge>>, list: seq<Edge>, mode: Mode, k: nat) {
    k <= |list| && forall j :: 0 <= j < k && Allows(list[j], mode) ==> Settled(start, found, list[j])
  }

  /** No path that was kept is ever replaced. */
  ghost predicate Extends(found: map<Role, seq<Edge>>, found': map<Role, seq<Edge>>) {
    forall t :: t in found ==> t in found' && found'[t] == found[t]
  }

  lemma SettledStays(start: Role, found: map<Role, seq<Edge>>, found': map<Role, seq<Edge>>, list: seq<Edge>,
      mode: Mode, k: nat)
    requires Extends(found, found') && AllSettled(start, found, list, mode, k)
    requires k < |list| && (Allows(list[k], mode) ==> Settled(start, found', list[k]))
    ensures AllSettled(start, found', list, mode, k + 1)
  {}

  lemma SettledByPlace(g: Graph, mode: Mode, start: Role, found: map<Role, seq<Edge>>, head: Role, k: nat)
    requires AllSettled(start, found, EdgesOf(g, head), mode, k) && forall f :: f in EdgesOf(g, head) ==> f.from == head
    ensures SettledBefore(g, mode, start, found, head, k)
  {}

  /** An edge of the head that leads to a new role. */
  lemma VisitNew(g: Graph, edges: seq<Edge>, mode: Mode, start: Role, found: map<Role, seq<Edge>>, pending: seq<Role>,
      k: nat)
    requires Expanding(g, edges, mode, start, found, pending, k) && k < |EdgesOf(g, pending[0])|
    requires var e := EdgesOf(g, pending[0])[k];
      Allows(e, mode) && e.to !in RolesOn(start, found[pending[0]]) && e.to !in found
    ensures var e := EdgesOf(g, pending[0])[k]; var found' := found[e.to := found[pending[0]] + [e]];
      && Expanding(g, edges, mode, start, found', pending + [e.to], k + 1)
      && Grown(found, pending, found', pending + [e.to])
  {
    var list := EdgesOf(g, pending[0]);
    var e := list[k];
    assert e in list;
    var found' := found[e.to := found[pending[0]] + [e]];
    SettledByPlace(g, mode, start, found, pending[0], k);
    PlaceIsNew(g, mode, start, found, pending[0], k);
    NewKeepsOrder(g, edges, mode, start, found, pending, e, k);
    AddFound(edges, mode, start, found, pending, e);
    SettledStays(start, found, found', list, mode, k);
  }

  /** An edge that is not of this kind, or leads to a role found before. */
  lemma VisitOld(g: Graph, edges: seq<Edge>, mode: Mode, start: Role, found: map<Role, seq<Edge>>, pending: seq<Role>,
      k: nat)
    requires Expanding(g, edges, mode, start, found, pending, k) && k < |EdgesOf(g, pending[0])|
    requires var e := EdgesOf(g, pending[0])[k];
      Allows(e, mode) ==> e.to !in RolesOn(start, found[pending[0]]) && e.to in found
    ensures Expanding(g, edges, mode, start, found, pending, k + 1)
  {
    var list := EdgesOf(g, pending[0]);
    assert list[k] in list;
    SettledStays(start, found, found, list, mode, k);
    OneEdgeOn(g, edges, mode, start, found, pending, k);
  }

  /** An edge back onto the path of the head. */
  lemma VisitClosed(g: Graph, edges: seq<Edge>, mode: Mode, start: Role, found: map<Role, seq<Edge>>,
      pending: seq<Role>, k: nat)
    requires Expanding(g, edges, mode, start, found, pending, k) && k < |EdgesOf(g, pending[0])|
    requires var e := EdgesOf(g, pending[0])[k]; Allows(e, mode) && e.to in RolesOn(start, found[pending[0]])
    ensures ClosesLeast(g, edges, mode, start)
  {
    var list := EdgesOf(g, pending[0]);
    assert list[k] in list;
    assert ClosesOnto(g, edges, mode, start, found[pending[0]], list[k]);
  }

  lemma Expanded(g: Graph, edges: seq<Edge>, mode: Mode, start: Role, found: map<Role, seq<Edge>>, pending: seq<Role>)
    requires pending != [] && Expanding(g, edges, mode, start, found, pending, |EdgesOf(g, pending[0])|)
    ensures Searching(edges, mode, start, found, pending[1..]) && InOrder(g, edges, mode, start, found, pending[1..], 0)
  {
    forall e | e in edges && e.from == pending[0] && Allows(e, mode) ensures Settled(start, found, e) {
      assert e in EdgesOf(g, pending[0]);
    }
    FinishRole(edges, mode, start, found, pending);
    NextRole(g, edges, mode, start, found, pending, |EdgesOf(g, pending[0])|);
  }

  /** Expands the first pending role: looks at each of its edges in turn, and stops at one that
      closes its path. The role itself stays in front until its caller takes it off. */
  method Expand(start: Role, mode: Mode, g: Graph, found: map<Role, seq<Edge>>, pending: seq<Role>,
      ghost edges: seq<Edge>)
    returns (found': map<Role, seq<Edge>>, pending': seq<Role>, closed: bool)
    requires pending != [] && Expanding(g, edges, mode, start, found, pending, 0)
    ensures Grown(found, pending, found', pending') && found'.Keys <= Universe(start, edges)
    ensures closed ==> ClosesLeast(g, edges, mode, start)
    ensures !closed ==>
      Searching(edges, mode, start, found', pending'[1..]) && InOrder(g, edges, mode, start, found', pending'[1..], 0)
  {
    found', pending', closed := found, pending, false;
    var list := EdgesOf(g, pending[0]);
    for k := 0 to |list|
      invariant Grown(found, pending, found', pending') && Expanding(g, edges, mode, start, found', pending', k)
    {
      var e := list[k];
      if Allows(e, mode) && e.to in RolesOn(start, found'[pending[0]]) {
        VisitClosed(g, edges, mode, start, found', pending', k);
        closed := true;
        return;
      }
      if Allows(e, mode) && e.to !in found' {
        VisitNew(g, edges, mode, start, found', pending', k);
        found' := found'[e.to := found'[pending[0]] + [e]];
        pending' := pending' + [e.to];
      } else {
        VisitOld(g, edges, mode, start, found', pending', k);
      }
    }
    Expanded(g, edges, mode, start, found', pending');
  }

  /** The breadth-first search. It ends on every graph. It fails exactly when some edge leads back
      onto the path kept for its own role, which is the least shortest walk there in the order of
      the adjacency lists. */
  method Paths(start: Role, g: Graph, mode: Mode, ghost edges: seq<Edge>) returns (r: PathsResult)
    requires Represents(g, edges)
    ensures r.Found? ==> GoodPaths(edges, mode, start, r.paths) && AllLeast(g, edges, mode, start, r.paths)
    ensures r.CycleError? <==> ClosesLeast(g, edges, mode, start)
  {
    var found: map<Role, seq<Edge>> := map[start := []];
    var queue := [start];
    SearchStarts(edges, mode, start);
    OrderStarts(g, edges, mode, start);
    while queue != []
      invariant Searching(edges, mode, start, found, queue) && InOrder(g, edges, mode, start, found, queue, 0)
      invariant found.Keys <= Universe(start, edges)
      decreases |Universe(start, edges) - found.Keys|, |queue|
    {
      var found', pending, closed := Expand(start, mode, g, found, queue, edges);
      if closed {
        return CycleError;
      }
      Shrinks(Universe(start, edges), found.Keys, found'.Keys);
      found, queue := found', pending[1..];
    }
    EmptyQueueIsGood(edges, mode, start, found);
    GoodClosesNothing(g, edges, mode, start, found);
    r := Found(found);
  }

  lemma Shrinks(u: set<Role>, a: set<Role>, b: set<Role>)
    requires a <= b <= u
    ensures a < b ==> |u - b| < |u - a|
  {
    if a < b {
      var x :| x in b && x !in a;
      assert x in b - a;
      assert u - a == (u - b) + (b - a);
    }
  }

  // ---------------------------------------------------------------- which cycles are caught

  /** An error is never raised without a real reachable cycle. */
  lemma ErrorMeansCycle(g: Graph, edges: seq<Edge>, mode: Mode, start: Role)
    requires ClosesLeast(g, edges, mode, start)
    ensures ReachesCycle(edges, mode, start)
  {
    var p, e :| ClosesOnto(g, edges, mode, start, p, e);
    var q := SuffixFrom(edges, mode, start, p, e.from, e.to);
    Extend(edges, mode, e.to, q, e);
    assert OnCycle(edges, mode, e.to);
  }

  /** The last edge of a cycle, which the search cannot miss if the role is on every path to it. */
  lemma ReturnRulesOutCyclesThroughStart(edges: seq<Edge>, mode: Mode, start: Role, found: map<Role, seq<Edge>>)
    requires GoodPaths(edges, mode, start, found)
    ensures !OnCycle(edges, mode, start)
  {
    if OnCycle(edges, mode, start) {
      var p: seq<Edge> :| p != [] && IsWalk(edges, mode, start, p, start);
      var e := p[|p| - 1];
      assert IsWalk(edges, mode, start, p[..|p| - 1], e.from);
      StartIsOnPath(start, found[e.from]);
    }
  }

  lemma {:induction false} StartIsOnPath(start: Role, p: seq<Edge>)
    ensures start in RolesOn(start, p)
  {
    if p == [] {
    } else {
      StartIsOnPath(start, p[..|p| - 1]);
    }
  }

  lemma EndIsOnPath(edges: seq<Edge>, mode: Mode, start: Role, p: seq<Edge>, t: Role)
    requires IsWalk(edges, mode, start, p, t)
    ensures t in RolesOn(start, p)
  {}

  /** A normal return also rules out every self-membership of a reachable role. */
  lemma ReturnRulesOutSelfLoops(edges: seq<Edge>, mode: Mode, start: Role, found: map<Role, seq<Edge>>, e: Edge)
    requires GoodPaths(edges, mode, start, found)
    requires e in edges && Allows(e, mode) && Reachable(edges, mode, start, e.from)
    ensures e.to != e.from
  {
    EndIsOnPath(edges, mode, start, found[e.from], e.from);
  }

  /** The search does not reject every cyclic graph. On s -> a, s -> b, a -> b, b -> a it returns
      normally, although a and b are on a reachable cycle. */
  method MissedCycle(s: Role, a: Role, b: Role) returns (r: PathsResult)
    requires s != a && s != b && a != b
    ensures r.Found? && r.paths.Keys == {s, a, b}
    ensures var edges := Diamond(s, a, b); ReachesCycle(edges, SetRole, s) && OnCycle(edges, SetRole, a)
  {
    var edges := Diamond(s, a, b);
    var g := Adjacency(edges);
    DiamondClosesNothing(g, s, a, b);
    r := Paths(s, g, SetRole, edges);
    DiamondCycle(s, a, b);
    if r.Found? {
      DiamondKeys(s, a, b, r.paths);
    }
  }

  lemma DiamondKeys(s: Role, a: Role, b: Role, found: map<Role, seq<Edge>>)
    requires s != a && s != b && a != b && GoodPaths(Diamond(s, a, b), SetRole, s, found)
    ensures found.Keys == {s, a, b}
  {
    DiamondRoles(s, a, b);
  }

  function Granted(m: Role, t: Role): Edge {
    Edge(m, t, true, true, false, "")
  }

  function Diamond(s: Role, a: Role, b: Role): seq<Edge> {
    [Granted(s, a), Granted(s, b), Granted(a, b), Granted(b, a)]
  }

  lemma DiamondRoles(s: Role, a: Role, b: Role)
    requires s != a && s != b && a != b
    ensures forall t :: Reachable(Diamond(s, a, b), SetRole, s, t) <==> t in {s, a, b}
  {
    var edges := Diamond(s, a, b);
    assert IsWalk(edges, SetRole, s, [], s);
    Extend(edges, SetRole, s, [], edges[0]);
    Extend(edges, SetRole, s, [], edges[1]);
    forall p, t | IsWalk(edges, SetRole, s, p, t) ensures t in {s, a, b} {
      DiamondWalk(s, a, b, p, t);
    }
  }

  lemma DiamondCycle(s: Role, a: Role, b: Role)
    requires s != a && s != b && a != b
    ensures OnCycle(Diamond(s, a, b), SetRole, a) && ReachesCycle(Diamond(s, a, b), SetRole, s)
  {
    var edges := Diamond(s, a, b);
    assert IsWalk(edges, SetRole, a, [], a);
    Extend(edges, SetRole, a, [], edges[2]);
    Extend(edges, SetRole, a, [] + [edges[2]], edges[3]);
    DiamondRoles(s, a, b);
    assert Reachable(edges, SetRole, s, a);
  }

  lemma DiamondClosesNothing(g: Graph, s: Role, a: Role, b: Role)
    requires s != a && s != b && a != b
    ensures !ClosesLeast(g, Diamond(s, a, b), SetRole, s)
  {
    forall p, e | ClosesOnto(g, Diamond(s, a, b), SetRole, s, p, e) ensures false {
      DiamondWalk(s, a, b, p, e.from);
      DiamondShort(s, a, b, p, e.from);
    }
  }

  lemma DiamondWalk(s: Role, a: Role, b: Role, p: seq<Edge>, t: Role)
    requires IsWalk(Diamond(s, a, b), SetRole, s, p, t)
    ensures t in {s, a, b}
  {}

  /** The shortest paths of the diamond are its single edges from s. */
  lemma DiamondShort(s: Role, a: Role, b: Role, p: seq<Edge>, t: Role)
    requires s != a && s != b && a != b && IsShortest(Diamond(s, a, b), SetRole, s, p, t)
    ensures RolesOn(s, p) == {s, t}
  {
    var edges := Diamond(s, a, b);
    DiamondWalk(s, a, b, p, t);
    assert IsWalk(edges, SetRole, s, [], s);
    Extend(edges, SetRole, s, [], edges[0]);
    Extend(edges, SetRole, s, [], edges[1]);
    assert |p| <= 1;
    if |p| == 1 {
      assert p[..0] == [];
      assert RolesOn(s, []) == {s};
    }
  }
}
