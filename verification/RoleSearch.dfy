/** The state of a breadth-first search over the membership edges, and why its paths are shortest. */
module RoleSearch {
  import opened RoleGraph

  /** The promise of a normal return: exactly the reachable roles, each with a shortest witness
      path, and no edge of a reachable role leading back onto that role's own path. */
  ghost predicate GoodPaths(edges: seq<Edge>, mode: Mode, start: Role, found: map<Role, seq<Edge>>) {
    && (forall t :: t in found <==> Reachable(edges, mode, start, t))
    && (forall t :: t in found ==> IsShortest(edges, mode, start, found[t], t))
    && (forall e :: e in edges && Allows(e, mode) && e.from in found ==> e.to !in RolesOn(start, found[e.from]))
  }

  // ---------------------------------------------------------------- why breadth-first paths are shortest

  /** Every role nearer than `level` has all its successors found, at most one step further. */
  ghost predicate Explored(edges: seq<Edge>, mode: Mode, start: Role, found: map<Role, seq<Edge>>, level: nat) {
    && start in found && found[start] == []
    && forall e :: e in edges && Allows(e, mode) && e.from in found && |found[e.from]| < level ==>
         e.to in found && |found[e.to]| <= |found[e.from]| + 1
  }

  lemma {:induction false} NoShorterWalk(edges: seq<Edge>, mode: Mode, start: Role, found: map<Role, seq<Edge>>,
                                         level: nat, p: seq<Edge>, t: Role)
    requires Explored(edges, mode, start, found, level) && IsWalk(edges, mode, start, p, t) && |p| <= level
    ensures t in found && |found[t]| <= |p|
  {
    if p == [] {
    } else {
      NoShorterWalk(edges, mode, start, found, level, p[..|p| - 1], p[|p| - 1].from);
    }
  }

  lemma ExploredIsShortest(edges: seq<Edge>, mode: Mode, start: Role, found: map<Role, seq<Edge>>, t: Role)
    requires t in found && IsWalk(edges, mode, start, found[t], t)
    requires Explored(edges, mode, start, found, |found[t]|)
    ensures IsShortest(edges, mode, start, found[t], t)
  {
    forall q | IsWalk(edges, mode, start, q, t) ensures |found[t]| <= |q| {
      if |q| < |found[t]| {
        NoShorterWalk(edges, mode, start, found, |found[t]|, q, t);
      }
    }
  }

  // ---------------------------------------------------------------- the state of the search

  ghost predicate AllWalks(edges: seq<Edge>, mode: Mode, start: Role, found: map<Role, seq<Edge>>) {
    start in found && found[start] == [] && forall t :: t in found ==> IsWalk(edges, mode, start, found[t], t)
  }

  /** An edge already looked at: its target is found, one step further at most, and off the path. */
  predicate Settled(start: Role, found: map<Role, seq<Edge>>, e: Edge) {
    && e.from in found
    && e.to in found && |found[e.to]| <= |found[e.from]| + 1
    && e.to !in RolesOn(start, found[e.from])
  }

  ghost predicate DoneSettled(edges: seq<Edge>, mode: Mode, start: Role, found: map<Role, seq<Edge>>,
      pending: seq<Role>) {
    forall e :: e in edges && Allows(e, mode) && e.from in found && e.from !in pending ==> Settled(start, found, e)
  }

  /** The queue is ordered by distance, spans at most two levels, and holds the farthest roles. */
  ghost predicate Levels(found: map<Role, seq<Edge>>, pending: seq<Role>) {
    && (forall i :: 0 <= i < |pending| ==> pending[i] in found)
    && (forall i, j :: 0 <= i < j < |pending| ==> pending[i] != pending[j])
    && (forall i, j :: 0 <= i < j < |pending| ==> |found[pending[i]]| <= |found[pending[j]]|)
    && (pending != [] ==> forall t :: t in found ==> |found[t]| <= |found[pending[0]]| + 1)
    && (pending != [] ==> forall t :: t in found && t !in pending ==> |found[t]| <= |found[pending[0]]|)
  }

  /** The whole search invariant; `pending[0]` is the role being expanded. */
  ghost predicate Searching(edges: seq<Edge>, mode: Mode, start: Role, found: map<Role, seq<Edge>>,
      pending: seq<Role>) {
    && AllWalks(edges, mode, start, found)
    && DoneSettled(edges, mode, start, found, pending)
    && Levels(found, pending)
  }

  /** A new role found over an edge of the role being expanded. */
  lemma AddFound(edges: seq<Edge>, mode: Mode, start: Role, found: map<Role, seq<Edge>>, pending: seq<Role>, e: Edge)
    requires Searching(edges, mode, start, found, pending) && pending != [] && e.from == pending[0]
    requires e in edges && Allows(e, mode) && e.to !in found
    ensures Searching(edges, mode, start, found[e.to := found[e.from] + [e]], pending + [e.to])
  {
    Extend(edges, mode, start, found[e.from], e);
    AddKeepsLevels(found, pending, e);
  }

  lemma AddKeepsLevels(found: map<Role, seq<Edge>>, pending: seq<Role>, e: Edge)
    requires Levels(found, pending) && pending != [] && e.from == pending[0] && e.to !in found
    ensures Levels(found[e.to := found[e.from] + [e]], pending + [e.to])
  {}

  /** The expanded role leaves the queue once all its edges are settled. */
  lemma FinishRole(edges: seq<Edge>, mode: Mode, start: Role, found: map<Role, seq<Edge>>, pending: seq<Role>)
    requires Searching(edges, mode, start, found, pending) && pending != []
    requires forall e :: e in edges && e.from == pending[0] && Allows(e, mode) ==> Settled(start, found, e)
    ensures Searching(edges, mode, start, found, pending[1..])
  {
    assert pending == [pending[0]] + pending[1..];
    forall t | t in found && t !in pending[1..] && t !in pending ensures |found[t]| <= |found[pending[0]]| {}
  }

  lemma HeadIsExplored(edges: seq<Edge>, mode: Mode, start: Role, found: map<Role, seq<Edge>>, pending: seq<Role>)
    requires Searching(edges, mode, start, found, pending) && pending != []
    ensures Explored(edges, mode, start, found, |found[pending[0]]|)
  {
    forall e | e in edges && Allows(e, mode) && e.from in found && |found[e.from]| < |found[pending[0]]|
      ensures Settled(start, found, e)
    {}
  }

  lemma EmptyQueueIsGood(edges: seq<Edge>, mode: Mode, start: Role, found: map<Role, seq<Edge>>)
    requires Searching(edges, mode, start, found, [])
    ensures GoodPaths(edges, mode, start, found)
  {
    forall t ensures t in found <==> Reachable(edges, mode, start, t) {
      if t in found {
        assert IsWalk(edges, mode, start, found[t], t);
      } else if Reachable(edges, mode, start, t) {
        var p :| IsWalk(edges, mode, start, p, t);
        NoShorterWalk(edges, mode, start, found, |p|, p, t);
      }
    }
    forall t | t in found ensures IsShortest(edges, mode, start, found[t], t) {
      ExploredIsShortest(edges, mode, start, found, t);
    }
  }
}
