/** Which of several shortest paths the search keeps: the least, in the order in which the adjacency
    lists name the edges. */
module RoleOrder {
  import opened RoleGraph
  import opened RoleSearch

  /** The place of an edge in a list, or the length of the list. */
  function IndexOf(list: seq<Edge>, e: Edge): (n: nat)
    ensures n <= |list|
    ensures n < |list| ==> list[n] == e
    ensures e in list ==> n < |list|
    ensures forall k :: 0 <= k < n ==> list[k] != e
  {
    if list == [] || list[0] == e then 0 else 1 + IndexOf(list[1..], e)
  }

  function Place(g: Graph, e: Edge): nat {
    IndexOf(EdgesOf(g, e.from), e)
  }

  /** Walks of one length from one role are compared at the first edge where they part. */
  predicate WalkLess(g: Graph, p: seq<Edge>, q: seq<Edge>) {
    && |p| == |q| && p != []
    && var n := |p| - 1;
       WalkLess(g, p[..n], q[..n]) || (p[..n] == q[..n] && Place(g, p[n]) < Place(g, q[n]))
  }

  lemma {:induction false} WalkLessTransitive(g: Graph, p: seq<Edge>, q: seq<Edge>, r: seq<Edge>)
    requires WalkLess(g, p, q) && WalkLess(g, q, r)
    ensures WalkLess(g, p, r)
  {
    var n := |p| - 1;
    if WalkLess(g, p[..n], q[..n]) && WalkLess(g, q[..n], r[..n]) {
      WalkLessTransitive(g, p[..n], q[..n], r[..n]);
    }
  }

  lemma {:induction false} WalkLessAsymmetric(g: Graph, p: seq<Edge>, q: seq<Edge>)
    requires WalkLess(g, p, q)
    ensures p != q && !WalkLess(g, q, p)
  {
    var n := |p| - 1;
    if WalkLess(g, p[..n], q[..n]) {
      WalkLessAsymmetric(g, p[..n], q[..n]);
    }
  }

  /** The least of the shortest walks to a role. */
  ghost predicate IsLeast(g: Graph, edges: seq<Edge>, mode: Mode, start: Role, p: seq<Edge>, t: Role) {
    && IsShortest(edges, mode, start, p, t)
    && forall q :: IsShortest(edges, mode, start, q, t) ==> NotAfter(g, p, q)
  }

  predicate NotAfter(g: Graph, p: seq<Edge>, q: seq<Edge>) {
    p == q || WalkLess(g, p, q)
  }

  lemma LeastIsUnique(g: Graph, edges: seq<Edge>, mode: Mode, start: Role, p: seq<Edge>, q: seq<Edge>, t: Role)
    requires IsLeast(g, edges, mode, start, p, t) && IsLeast(g, edges, mode, start, q, t)
    ensures p == q
  {
    assert NotAfter(g, p, q) && NotAfter(g, q, p);
    if p != q {
      WalkLessAsymmetric(g, p, q);
    }
  }

  // ---------------------------------------------------------------- the order kept by the search

  ghost predicate AllLeast(g: Graph, edges: seq<Edge>, mode: Mode, start: Role, found: map<Role, seq<Edge>>) {
    forall t :: t in found ==> IsLeast(g, edges, mode, start, found[t], t)
  }

  /** Roles of one level wait in the order of their paths. */
  ghost predicate QueueOrdered(g: Graph, found: map<Role, seq<Edge>>, pending: seq<Role>)
    requires forall i :: 0 <= i < |pending| ==> pending[i] in found
  {
    forall i, j :: 0 <= i < j < |pending| && |found[pending[i]]| == |found[pending[j]]| ==>
      WalkLess(g, found[pending[i]], found[pending[j]])
  }

  /** The path was kept before edge `k` of a role with path `head` was looked at. */
  predicate KeptBefore(g: Graph, p: seq<Edge>, head: seq<Edge>, k: nat) {
    && p != []
    && var n := |p| - 1;
       WalkLess(g, p[..n], head) || (p[..n] == head && Place(g, p[n]) < k)
  }

  ghost predicate NextLevelOrdered(g: Graph, found: map<Role, seq<Edge>>, pending: seq<Role>, k: nat)
    requires pending != [] && pending[0] in found
  {
    forall t :: t in found && |found[t]| == |found[pending[0]]| + 1 ==> KeptBefore(g, found[t], found[pending[0]], k)
  }

  /** The order that goes with `Searching`, with `k` edges of the first pending role looked at. */
  ghost predicate InOrder(g: Graph, edges: seq<Edge>, mode: Mode, start: Role,
                          found: map<Role, seq<Edge>>, pending: seq<Role>, k: nat)
  {
    && (forall i :: 0 <= i < |pending| ==> pending[i] in found)
    && AllLeast(g, edges, mode, start, found)
    && QueueOrdered(g, found, pending)
    && (pending != [] ==> NextLevelOrdered(g, found, pending, k))
  }

  lemma OrderStarts(g: Graph, edges: seq<Edge>, mode: Mode, start: Role)
    ensures InOrder(g, edges, mode, start, map[start := []], [start], 0)
  {
    forall q | IsShortest(edges, mode, start, q, start) ensures NotAfter(g, [], q) {
      assert IsWalk(edges, mode, start, [], start);
    }
  }

  lemma OneEdgeOn(g: Graph, edges: seq<Edge>, mode: Mode, start: Role, found: map<Role, seq<Edge>>,
      pending: seq<Role>, k: nat)
    requires InOrder(g, edges, mode, start, found, pending, k)
    ensures InOrder(g, edges, mode, start, found, pending, k + 1)
  {}

  lemma NextRole(g: Graph, edges: seq<Edge>, mode: Mode, start: Role, found: map<Role, seq<Edge>>, pending: seq<Role>,
      k: nat)
    requires Searching(edges, mode, start, found, pending) && pending != []
    requires InOrder(g, edges, mode, start, found, pending, k)
    ensures InOrder(g, edges, mode, start, found, pending[1..], 0)
  {
    var rest := pending[1..];
    assert forall i :: 0 <= i < |rest| ==> rest[i] == pending[i + 1];
    if rest != [] && |found[rest[0]]| == |found[pending[0]]| {
      forall t | t in found && |found[t]| == |found[rest[0]]| + 1 ensures KeptBefore(g, found[t], found[rest[0]], 0) {
        assert KeptBefore(g, found[t], found[pending[0]], k);
        assert WalkLess(g, found[pending[0]], found[pending[1]]);
        var front := found[t][..|found[t]| - 1];
        if WalkLess(g, front, found[pending[0]]) {
          WalkLessTransitive(g, front, found[pending[0]], found[pending[1]]);
        }
      }
    }
  }

  // ---------------------------------------------------------------- a new role gets its least path

  /** The edges of the head before place `k` have been looked at. */
  ghost predicate SettledBefore(g: Graph, mode: Mode, start: Role, found: map<Role, seq<Edge>>, head: Role, k: nat) {
    forall f :: f in EdgesOf(g, head) && Allows(f, mode) && Place(g, f) < k ==> Settled(start, found, f)
  }

  /** Where a shortest walk to a role not yet found must come from: a waiting role of the level of
      the head. */
  lemma LastStepIsPending(edges: seq<Edge>, mode: Mode, start: Role, found: map<Role, seq<Edge>>, pending: seq<Role>,
      t: Role, q: seq<Edge>)
    requires Searching(edges, mode, start, found, pending) && pending != [] && t !in found
    requires IsWalk(edges, mode, start, q, t) && |q| <= |found[pending[0]]| + 1
    ensures q != [] && |q| == |found[pending[0]]| + 1
    ensures var u := q[|q| - 1].from; u in pending && u in found && |found[u]| == |found[pending[0]]|
  {
    var d := |found[pending[0]]|;
    HeadIsExplored(edges, mode, start, found, pending);
    if |q| <= d {
      NoShorterWalk(edges, mode, start, found, d, q, t);
    }
    var f := q[|q| - 1];
    NoShorterWalk(edges, mode, start, found, d, q[..|q| - 1], f.from);
    assert f in edges && Allows(f, mode) && f.to == t;
    assert f.from in pending;
    var i :| 0 <= i < |pending| && pending[i] == f.from;
    assert d <= |found[f.from]|;
  }

  lemma NewIsShortest(edges: seq<Edge>, mode: Mode, start: Role, found: map<Role, seq<Edge>>, pending: seq<Role>,
      e: Edge)
    requires Searching(edges, mode, start, found, pending) && pending != [] && e.from == pending[0]
    requires e in edges && Allows(e, mode) && e.to !in found
    ensures IsShortest(edges, mode, start, found[e.from] + [e], e.to)
  {
    Extend(edges, mode, start, found[e.from], e);
    forall q | IsWalk(edges, mode, start, q, e.to) ensures |found[e.from]| + 1 <= |q| {
      if |q| <= |found[e.from]| + 1 {
        LastStepIsPending(edges, mode, start, found, pending, e.to, q);
      }
    }
  }

  /** A walk as long as the path kept for its end is a shortest one. */
  lemma FrontIsShortest(edges: seq<Edge>, mode: Mode, start: Role, p: seq<Edge>, q: seq<Edge>, u: Role)
    requires IsShortest(edges, mode, start, p, u) && IsWalk(edges, mode, start, q, u) && |q| == |p|
    ensures IsShortest(edges, mode, start, q, u)
  {}

  lemma NewBeatsOther(g: Graph, edges: seq<Edge>, mode: Mode, start: Role, found: map<Role, seq<Edge>>,
      pending: seq<Role>,
                      e: Edge, k: nat, q: seq<Edge>)
    requires Represents(g, edges) && Searching(edges, mode, start, found, pending) && pending != []
    requires InOrder(g, edges, mode, start, found, pending, k) && SettledBefore(g, mode, start, found, pending[0], k)
    requires e in edges && Allows(e, mode) && e.from == pending[0] && e.to !in found
    requires Place(g, e) <= k && IsWalk(edges, mode, start, q, e.to) && |q| == |found[e.from]| + 1
    ensures NotAfter(g, found[e.from] + [e], q)
  {
    LastStepIsPending(edges, mode, start, found, pending, e.to, q);
    var f, front := q[|q| - 1], q[..|q| - 1];
    var u := f.from;
    FrontIsShortest(edges, mode, start, found[u], front, u);
    assert NotAfter(g, found[u], front);
    if u == e.from {
      SamePlace(g, edges, mode, start, found, e, f, k);
      NewBeatsFront(g, found[u], e, q);
    } else {
      var i :| 0 <= i < |pending| && pending[i] == u;
      assert WalkLess(g, found[pending[0]], found[pending[i]]);
      if found[u] != front {
        WalkLessTransitive(g, found[e.from], found[u], front);
      }
      NewBeatsFront(g, found[e.from], e, q);
    }
  }

  /** Another edge of the head to the new role comes behind the one that found it. */
  lemma SamePlace(g: Graph, edges: seq<Edge>, mode: Mode, start: Role, found: map<Role, seq<Edge>>, e: Edge, f: Edge,
      k: nat)
    requires Represents(g, edges) && SettledBefore(g, mode, start, found, e.from, k)
    requires e in edges && f in edges && f.from == e.from && f.to == e.to && e.to !in found && Allows(f, mode)
    requires Place(g, e) <= k
    ensures f == e || Place(g, e) < Place(g, f)
  {
    assert f in EdgesOf(g, e.from) && e in EdgesOf(g, e.from);
    assert !Settled(start, found, f);
    assert Place(g, f) >= k;
  }

  lemma NewBeatsFront(g: Graph, p: seq<Edge>, e: Edge, q: seq<Edge>)
    requires q != [] && |q| == |p| + 1
    requires var f := q[|q| - 1];
      WalkLess(g, p, q[..|q| - 1]) || (p == q[..|q| - 1] && (f == e || Place(g, e) < Place(g, f)))
    ensures NotAfter(g, p + [e], q)
  {
    var n := |p|;
    assert (p + [e])[..n] == p && (p + [e])[n] == e;
    if p == q[..n] && q[n] == e {
      assert q == q[..n] + [q[n]];
    }
  }

  lemma NewIsLeast(g: Graph, edges: seq<Edge>, mode: Mode, start: Role, found: map<Role, seq<Edge>>,
      pending: seq<Role>, e: Edge, k: nat)
    requires Represents(g, edges) && Searching(edges, mode, start, found, pending) && pending != []
    requires InOrder(g, edges, mode, start, found, pending, k) && SettledBefore(g, mode, start, found, pending[0], k)
    requires e in edges && Allows(e, mode) && e.from == pending[0] && e.to !in found && Place(g, e) <= k
    ensures IsLeast(g, edges, mode, start, found[e.from] + [e], e.to)
  {
    NewIsShortest(edges, mode, start, found, pending, e);
    var p := found[e.from] + [e];
    forall q | IsShortest(edges, mode, start, q, e.to) ensures NotAfter(g, p, q) {
      assert |q| == |p|;
      NewBeatsOther(g, edges, mode, start, found, pending, e, k, q);
    }
  }

  /** The place of the edge that finds a new role is the place just looked at. */
  lemma PlaceIsNew(g: Graph, mode: Mode, start: Role, found: map<Role, seq<Edge>>, head: Role, k: nat)
    requires k < |EdgesOf(g, head)| && SettledBefore(g, mode, start, found, head, k)
    requires var e := EdgesOf(g, head)[k]; e.from == head && Allows(e, mode) && e.to !in found
    ensures Place(g, EdgesOf(g, head)[k]) == k
  {
    var e := EdgesOf(g, head)[k];
    assert e in EdgesOf(g, head);
    assert !Settled(start, found, e);
  }

  lemma QueueGrowsInOrder(g: Graph, found: map<Role, seq<Edge>>, pending: seq<Role>, e: Edge, k: nat)
    requires Levels(found, pending) && pending != [] && e.from == pending[0] && e.to !in found && Place(g, e) == k
    requires QueueOrdered(g, found, pending) && NextLevelOrdered(g, found, pending, k)
    ensures var found' := found[e.to := found[e.from] + [e]]; var pending' := pending + [e.to];
      && (forall i :: 0 <= i < |pending'| ==> pending'[i] in found')
      && QueueOrdered(g, found', pending') && NextLevelOrdered(g, found', pending', k + 1)
  {
    var p := found[e.from] + [e];
    var found', pending' := found[e.to := p], pending + [e.to];
    assert p[..|p| - 1] == found[e.from] && p[|p| - 1] == e;
    forall i | 0 <= i < |pending| && |found'[pending[i]]| == |p| ensures WalkLess(g, found'[pending[i]], p) {
      assert KeptBefore(g, found[pending[i]], found[pending[0]], k);
    }
    forall t | t in found' && |found'[t]| == |found'[pending'[0]]| + 1
      ensures KeptBefore(g, found'[t], found'[pending'[0]], k + 1)
    {
      assert t != e.to ==> KeptBefore(g, found[t], found[pending[0]], k);
    }
  }

  /** Finding a new role over the edge at place `k` keeps the order. */
  lemma NewKeepsOrder(g: Graph, edges: seq<Edge>, mode: Mode, start: Role, found: map<Role, seq<Edge>>,
      pending: seq<Role>, e: Edge, k: nat)
    requires Represents(g, edges) && Searching(edges, mode, start, found, pending) && pending != []
    requires InOrder(g, edges, mode, start, found, pending, k) && SettledBefore(g, mode, start, found, pending[0], k)
    requires e in edges && Allows(e, mode) && e.from == pending[0] && e.to !in found && Place(g, e) == k
    ensures InOrder(g, edges, mode, start, found[e.to := found[e.from] + [e]], pending + [e.to], k + 1)
  {
    NewIsLeast(g, edges, mode, start, found, pending, e, k);
    QueueGrowsInOrder(g, found, pending, e, k);
  }

  // ---------------------------------------------------------------- the verdict

  /** Some edge leads back onto the least shortest walk to its own role. */
  ghost predicate ClosesLeast(g: Graph, edges: seq<Edge>, mode: Mode, start: Role) {
    exists p, e :: ClosesOnto(g, edges, mode, start, p, e)
  }

  ghost predicate ClosesOnto(g: Graph, edges: seq<Edge>, mode: Mode, start: Role, p: seq<Edge>, e: Edge) {
    e in edges && Allows(e, mode) && IsLeast(g, edges, mode, start, p, e.from) && e.to in RolesOn(start, p)
  }

  /** If the search has come to an end, no edge does. */
  lemma GoodClosesNothing(g: Graph, edges: seq<Edge>, mode: Mode, start: Role, found: map<Role, seq<Edge>>)
    requires GoodPaths(edges, mode, start, found) && AllLeast(g, edges, mode, start, found)
    ensures !ClosesLeast(g, edges, mode, start)
  {
    if ClosesLeast(g, edges, mode, start) {
      var p, e :| ClosesOnto(g, edges, mode, start, p, e);
      assert Reachable(edges, mode, start, e.from);
      LeastIsUnique(g, edges, mode, start, p, found[e.from], e.from);
    }
  }
}
