/** The authority of a principal: the evaluator's proofs against a relational specification. */
module RoleAuthority {
  import opened RoleGraph
  import opened RoleSearch
  import opened RoleOrder
  import opened RolePaths

  datatype Attribute = RolSuper | RolBypassRls | RolCreateRole | RolCreateDb | RolReplication

  /** A row of the role catalogue: the special attributes the role has. */
  datatype RoleRow = RoleRow(name: Role, attributes: set<Attribute>)

  const SPECIAL_ROLE_ATTRIBUTES := [RolSuper, RolBypassRls, RolCreateRole, RolCreateDb, RolReplication]

  function SpecialPrivilege(a: Attribute): string {
    match a
    case RolSuper => "SUPERUSER"
    case RolBypassRls => "BYPASSRLS"
    case RolCreateRole => "CREATEROLE"
    case RolCreateDb => "CREATEDB"
    case RolReplication => "REPLICATION"
  }

  datatype AccessMode = Direct | Inherited | SetRoleAccess | AdminCapability

  /** The role an inherited privilege comes from. */
  datatype Source = NoSource | From(role: Role)

  datatype Proof = Proof(privilege: string, access: AccessMode, state: Role, path: seq<Edge>, source: Source)

  datatype Evaluation = Evaluated(proofs: seq<Proof>, summary: set<string>) | RoleCycle | Unclassified(role: Role)

  datatype Catalogue = Catalogue(roles: map<Role, RoleRow>, edges: seq<Edge>, privileges: map<Role, set<string>>)

  function AdminPrivilege(t: Role): string {
    "ADMIN_ROLE_MEMBERSHIP:" + t
  }

  function PrivilegesOf(c: Catalogue, r: Role): set<string> {
    if r in c.privileges then c.privileges[r] else {}
  }

  // ---------------------------------------------------------------- the relational specification

  /** What a session in role state `s` may do. */
  ghost predicate Grants(c: Catalogue, s: Role, privilege: string) {
    || SpecialGrants(c, s, privilege)
    || InheritGrants(c, s, privilege)
    || AdminGrants(c, s, privilege)
  }

  ghost predicate SpecialGrants(c: Catalogue, s: Role, privilege: string) {
    s in c.roles && exists a :: a in c.roles[s].attributes && privilege == SpecialPrivilege(a)
  }

  ghost predicate InheritGrants(c: Catalogue, s: Role, privilege: string) {
    exists t :: Reachable(c.edges, Inherit, s, t) && privilege in PrivilegesOf(c, t)
  }

  ghost predicate AdminGrants(c: Catalogue, s: Role, privilege: string) {
    exists e :: e in c.edges && e.from == s && e.adminOption && privilege == AdminPrivilege(e.to)
  }

  /** The authority of a principal: whatever some role state it can SET into grants. */
  ghost predicate HasAuthority(c: Catalogue, principal: Role, privilege: string) {
    exists s :: Reachable(c.edges, SetRole, principal, s) && Grants(c, s, privilege)
  }

  // ---------------------------------------------------------------- what a proof must show

  /** The role that holds an ordinary privilege. */
  function Holder(p: Proof): Role {
    match p.source
    case NoSource => p.state
    case From(role) => role
  }

  function AccessOf(principal: Role, state: Role, source: Source): AccessMode {
    if state != principal then SetRoleAccess else if source.NoSource? then Direct else Inherited
  }

  /** A SET path to the state, then nothing, an INHERIT path, or one admin edge. */
  ghost predicate ProofHolds(c: Catalogue, principal: Role, p: Proof, cut: int) {
    && 0 <= cut <= |p.path|
    && IsWalk(c.edges, SetRole, principal, p.path[..cut], p.state)
    && if p.access == AdminCapability then
         && cut + 1 == |p.path|
         && p.path[cut] in c.edges && p.path[cut].from == p.state && p.path[cut].adminOption
         && p.privilege == AdminPrivilege(p.path[cut].to)
       else
         && p.access == AccessOf(principal, p.state, p.source)
         && IsWalk(c.edges, Inherit, p.state, p.path[cut..], Holder(p))
         && (p.source.NoSource? ==> cut == |p.path|)
         && (|| p.privilege in PrivilegesOf(c, Holder(p))
             || (p.source.NoSource? && SpecialGrants(c, p.state, p.privilege)))
  }

  ghost predicate ValidProof(c: Catalogue, principal: Role, p: Proof) {
    exists cut :: ProofHolds(c, principal, p, cut)
  }

  /** A valid proof is evidence of authority. */
  lemma ValidProofIsAuthority(c: Catalogue, principal: Role, p: Proof)
    requires ValidProof(c, principal, p)
    ensures HasAuthority(c, principal, p.privilege)
  {
    var cut :| ProofHolds(c, principal, p, cut);
    assert Reachable(c.edges, SetRole, principal, p.state);
    if p.access == AdminCapability {
      assert AdminGrants(c, p.state, p.privilege);
    } else {
      assert Reachable(c.edges, Inherit, p.state, Holder(p));
      assert p.privilege in PrivilegesOf(c, Holder(p)) ==> InheritGrants(c, p.state, p.privilege);
    }
  }

  // ---------------------------------------------------------------- collecting proofs

  ghost predicate NoDuplicates(ps: seq<Proof>) {
    forall i, j :: 0 <= i < j < |ps| ==> ps[i] != ps[j]
  }

  ghost predicate Sound(c: Catalogue, principal: Role, ps: seq<Proof>) {
    NoDuplicates(ps) && forall k :: 0 <= k < |ps| ==> ValidProof(c, principal, ps[k])
  }

  function Summary(ps: seq<Proof>): set<string> {
    set p | p in ps :: p.privilege
  }

  /** The proofs a step adds: those of `added`, and no others. */
  ghost predicate Adds(ps: seq<Proof>, ps': seq<Proof>, added: iset<Proof>) {
    NoDuplicates(ps') && forall p :: p in ps' <==> p in ps || p in added
  }

  lemma AddsTwice(ps: seq<Proof>, ps1: seq<Proof>, ps2: seq<Proof>, a: iset<Proof>, b: iset<Proof>)
    requires Adds(ps, ps1, a) && Adds(ps1, ps2, b)
    ensures Adds(ps, ps2, a + b)
  {}

  method AddProof(ps: seq<Proof>, p: Proof) returns (ps': seq<Proof>)
    requires NoDuplicates(ps)
    ensures Adds(ps, ps', iset{p})
  {
    if p in ps {
      ps' := ps;
    } else {
      ps' := ps + [p];
    }
  }

  /** The proofs of the special attributes of a role state. */
  ghost function SpecialProofs(c: Catalogue, principal: Role, state: Role, path: seq<Edge>): iset<Proof> {
    iset a | state in c.roles && a in c.roles[state].attributes ::
      Proof(SpecialPrivilege(a), AccessOf(principal, state, NoSource), state, path, NoSource)
  }

  function SourceOf(state: Role, role: Role): Source {
    if role == state then NoSource else From(role)
  }

  /** The proofs of the ordinary privileges of a role, held by `state` itself or inherited along `tail`. */
  ghost function OrdinaryProofs(c: Catalogue, principal: Role, state: Role, path: seq<Edge>, tail: seq<Edge>,
      role: Role): iset<Proof>
  {
    iset x | x in PrivilegesOf(c, role) ::
      var source := SourceOf(state, role);
      Proof(x, AccessOf(principal, state, source), state, path + tail, source)
  }

  /** The same for every role the state inherits, along these paths. */
  ghost function InheritedProofs(c: Catalogue, principal: Role, state: Role, path: seq<Edge>,
      paths: map<Role, seq<Edge>>): iset<Proof>
  {
    iset t, p | t in paths && p in OrdinaryProofs(c, principal, state, path, paths[t], t) :: p
  }

  function AdminProof(state: Role, path: seq<Edge>, e: Edge): Proof {
    Proof(AdminPrivilege(e.to), AdminCapability, state, path + [e], NoSource)
  }

  /** The proofs of the admin edges of a role state. */
  ghost function AdminProofs(edges: seq<Edge>, state: Role, path: seq<Edge>): iset<Proof> {
    iset e | e in edges && e.from == state && e.adminOption :: AdminProof(state, path, e)
  }

  lemma EveryAttributeIsListed(a: Attribute)
    ensures a in SPECIAL_ROLE_ATTRIBUTES
  {
    match a
    case RolSuper => assert SPECIAL_ROLE_ATTRIBUTES[0] == a;
    case RolBypassRls => assert SPECIAL_ROLE_ATTRIBUTES[1] == a;
    case RolCreateRole => assert SPECIAL_ROLE_ATTRIBUTES[2] == a;
    case RolCreateDb => assert SPECIAL_ROLE_ATTRIBUTES[3] == a;
    case RolReplication => assert SPECIAL_ROLE_ATTRIBUTES[4] == a;
  }

  /** The special attributes of one role state. */
  method AddSpecial(ps: seq<Proof>, c: Catalogue, principal: Role, state: Role, path: seq<Edge>)
    returns (ps': seq<Proof>)
    requires NoDuplicates(ps) && state in c.roles
    ensures Adds(ps, ps', SpecialProofs(c, principal, state, path))
  {
    ps' := ps;
    ghost var added: iset<Proof> := iset{};
    var has := c.roles[state].attributes;
    for k := 0 to |SPECIAL_ROLE_ATTRIBUTES|
      invariant Adds(ps, ps', added)
      invariant added == iset a | a in has && a in SPECIAL_ROLE_ATTRIBUTES[..k] ::
        Proof(SpecialPrivilege(a), AccessOf(principal, state, NoSource), state, path, NoSource)
    {
      var a := SPECIAL_ROLE_ATTRIBUTES[k];
      assert SPECIAL_ROLE_ATTRIBUTES[..k + 1] == SPECIAL_ROLE_ATTRIBUTES[..k] + [a];
      if a in has {
        var p := Proof(SpecialPrivilege(a), AccessOf(principal, state, NoSource), state, path, NoSource);
        var next := AddProof(ps', p);
        AddsTwice(ps, ps', next, added, iset{p});
        ps', added := next, added + iset{p};
      }
    }
    forall a: Attribute ensures a in SPECIAL_ROLE_ATTRIBUTES[..|SPECIAL_ROLE_ATTRIBUTES|] {
      EveryAttributeIsListed(a);
    }
    assert added == SpecialProofs(c, principal, state, path);
  }

  /** The ordinary privileges of one role. */
  method AddOrdinary(ps: seq<Proof>, c: Catalogue, principal: Role, state: Role, path: seq<Edge>, tail: seq<Edge>,
      role: Role)
    returns (ps': seq<Proof>)
    requires NoDuplicates(ps)
    ensures Adds(ps, ps', OrdinaryProofs(c, principal, state, path, tail, role))
  {
    ps' := ps;
    ghost var added: iset<Proof> := iset{};
    var all, source := PrivilegesOf(c, role), SourceOf(state, role);
    var todo := all;
    while todo != {}
      invariant todo <= all && Adds(ps, ps', added)
      invariant added == iset x | x in all && x !in todo ::
        Proof(x, AccessOf(principal, state, source), state, path + tail, source)
      decreases |todo|
    {
      var x :| x in todo;
      var p := Proof(x, AccessOf(principal, state, source), state, path + tail, source);
      var next := AddProof(ps', p);
      AddsTwice(ps, ps', next, added, iset{p});
      ps', added, todo := next, added + iset{p}, todo - {x};
    }
    assert added == OrdinaryProofs(c, principal, state, path, tail, role);
  }

  /** The privileges of the state itself and of every role it inherits. */
  method AddInherited(ps: seq<Proof>, c: Catalogue, principal: Role, state: Role, path: seq<Edge>,
      paths: map<Role, seq<Edge>>)
    returns (ps': seq<Proof>)
    requires NoDuplicates(ps)
    ensures Adds(ps, ps', InheritedProofs(c, principal, state, path, paths))
  {
    ps' := ps;
    ghost var added: iset<Proof> := iset{};
    var todo := paths.Keys;
    while todo != {}
      invariant todo <= paths.Keys && Adds(ps, ps', added)
      invariant added == iset t, p | t in paths && t !in todo
        && p in OrdinaryProofs(c, principal, state, path, paths[t], t) :: p
      decreases |todo|
    {
      var role :| role in todo;
      var next := AddOrdinary(ps', c, principal, state, path, paths[role], role);
      ghost var more := OrdinaryProofs(c, principal, state, path, paths[role], role);
      AddsTwice(ps, ps', next, added, more);
      ps', added, todo := next, added + more, todo - {role};
    }
    assert added == InheritedProofs(c, principal, state, path, paths);
  }

  /** The admin edges of one role state. */
  method AddAdmin(ps: seq<Proof>, g: Graph, state: Role, path: seq<Edge>, ghost edges: seq<Edge>)
    returns (ps': seq<Proof>)
    requires NoDuplicates(ps) && Represents(g, edges)
    ensures Adds(ps, ps', AdminProofs(edges, state, path))
  {
    ps' := ps;
    ghost var added: iset<Proof> := iset{};
    var list := EdgesOf(g, state);
    for k := 0 to |list|
      invariant Adds(ps, ps', added)
      invariant added == iset e | e in list[..k] && e.adminOption :: AdminProof(state, path, e)
    {
      assert list[..k + 1] == list[..k] + [list[k]];
      if list[k].adminOption {
        var p := AdminProof(state, path, list[k]);
        var next := AddProof(ps', p);
        AddsTwice(ps, ps', next, added, iset{p});
        ps', added := next, added + iset{p};
      }
    }
    assert list[..|list|] == list;
    assert added == AdminProofs(edges, state, path);
  }

  // ---------------------------------------------------------------- the evaluator

  /** Everything proved of a principal in one role state, reached along `path`: its attributes, what
      it holds and inherits along the least paths, and what it administers. */
  ghost predicate IsProofIn(c: Catalogue, g: Graph, principal: Role, state: Role, path: seq<Edge>, p: Proof) {
    || p in SpecialProofs(c, principal, state, path)
    || (exists t, tail :: IsLeast(g, c.edges, Inherit, state, tail, t)
         && p in OrdinaryProofs(c, principal, state, path, tail, t))
    || p in AdminProofs(c.edges, state, path)
  }

  ghost function ProofsIn(c: Catalogue, g: Graph, principal: Role, state: Role, path: seq<Edge>): iset<Proof> {
    iset p | IsProofIn(c, g, principal, state, path, p)
  }

  lemma InheritedAlongLeast(c: Catalogue, g: Graph, principal: Role, state: Role, path: seq<Edge>,
      paths: map<Role, seq<Edge>>, p: Proof)
    requires GoodPaths(c.edges, Inherit, state, paths) && AllLeast(g, c.edges, Inherit, state, paths)
    ensures p in InheritedProofs(c, principal, state, path, paths) <==>
      exists t, tail :: IsLeast(g, c.edges, Inherit, state, tail, t)
        && p in OrdinaryProofs(c, principal, state, path, tail, t)
  {
    forall t, tail | IsLeast(g, c.edges, Inherit, state, tail, t) ensures t in paths && tail == paths[t] {
      assert Reachable(c.edges, Inherit, state, t);
      LeastIsUnique(g, c.edges, Inherit, state, tail, paths[t], t);
    }
    if p in InheritedProofs(c, principal, state, path, paths) {
      var t :| t in paths && p in OrdinaryProofs(c, principal, state, path, paths[t], t);
      assert IsLeast(g, c.edges, Inherit, state, paths[t], t);
    }
  }

  /** All proofs of one role state the principal can SET into. */
  method AddState(ps: seq<Proof>, c: Catalogue, g: Graph, principal: Role, state: Role, path: seq<Edge>)
    returns (ps': seq<Proof>, cycle: bool)
    requires Represents(g, c.edges) && NoDuplicates(ps) && state in c.roles
    ensures cycle <==> ClosesLeast(g, c.edges, Inherit, state)
    ensures !cycle ==> Adds(ps, ps', ProofsIn(c, g, principal, state, path))
    ensures !cycle ==> forall t :: Reachable(c.edges, Inherit, state, t) ==>
      exists tail :: IsLeast(g, c.edges, Inherit, state, tail, t)
  {
    var special := AddSpecial(ps, c, principal, state, path);
    var inherit := Paths(state, g, Inherit, c.edges);
    cycle := inherit.CycleError?;
    if cycle {
      return special, true;
    }
    var ordinary := AddInherited(special, c, principal, state, path, inherit.paths);
    ps' := AddAdmin(ordinary, g, state, path, c.edges);
    forall p ensures p in ps' <==> p in ps || p in ProofsIn(c, g, principal, state, path) {
      InheritedAlongLeast(c, g, principal, state, path, inherit.paths, p);
    }
  }

  /** The evaluation of a principal. The states and roles are visited in no particular order, so
      the result holds for the program's sorted order too.

      When it succeeds, every role the principal can become is in the catalogue, the proofs are
      those of every such role along its least path, each once, and the summary is exactly the
      authority of the principal. It succeeds exactly when `Evaluable` holds of the adjacency lists
      `g` it works on. It fails only on a cycle the search can reach or on a role that is not in
      the catalogue. */
  method EvaluateAuthority(principal: Role, c: Catalogue) returns (r: Evaluation, ghost g: Graph)
    ensures Represents(g, c.edges) && forall role :: SortedByKey(EdgesOf(g, role))
    ensures r.Evaluated? <==> Evaluable(c, g, principal)
    ensures r.Evaluated? ==>
      && NoDuplicates(r.proofs) && (forall p :: p in r.proofs <==> IsProof(c, g, principal, p))
      && Sound(c, principal, r.proofs)
      && r.summary == Summary(r.proofs)
      && (forall x :: x in r.summary <==> HasAuthority(c, principal, x))
      && (forall s :: Reachable(c.edges, SetRole, principal, s) ==> s in c.roles)
    ensures principal !in c.roles ==> r == Unclassified(principal)
    ensures r.RoleCycle? ==>
      || ReachesCycle(c.edges, SetRole, principal)
      || exists s :: Reachable(c.edges, SetRole, principal, s) && ReachesCycle(c.edges, Inherit, s)
    ensures r.Unclassified? ==> r.role !in c.roles && Reachable(c.edges, SetRole, principal, r.role)
  {
    var lists := Adjacency(c.edges);
    g := lists;
    assert IsWalk(c.edges, SetRole, principal, [], principal);
    if principal !in c.roles {
      return Unclassified(principal), g;
    }
    var set_ := Paths(principal, lists, SetRole, c.edges);
    if set_.CycleError? {
      ErrorMeansCycle(g, c.edges, SetRole, principal);
      return RoleCycle, g;
    }
    var proofs: seq<Proof> := [];
    var todo := set_.paths.Keys;
    ghost var done: set<Role> := {};
    while todo != {}
      invariant done == set_.paths.Keys - todo && todo <= set_.paths.Keys
      invariant forall s :: s in done ==> StateOk(c, g, s) && AllHaveLeast(c, g, s)
      invariant Collected(c, g, principal, set_.paths, done, proofs)
      decreases |todo|
    {
      var state :| state in todo;
      assert IsShortest(c.edges, SetRole, principal, set_.paths[state], state);
      assert Reachable(c.edges, SetRole, principal, state);
      if state !in c.roles {
        return Unclassified(state), g;
      }
      var next, cycle := AddState(proofs, c, lists, principal, state, set_.paths[state]);
      if cycle {
        ErrorMeansCycle(g, c.edges, Inherit, state);
        return RoleCycle, g;
      }
      CollectedNext(c, g, principal, set_.paths, done, state, proofs, next);
      proofs, todo, done := next, todo - {state}, done + {state};
    }
    ProofsOfStates(c, g, principal, set_.paths, proofs);
    ProofsAreSound(c, g, principal, proofs);
    ProofsCover(c, g, principal, set_.paths, proofs);
    SummaryIsAuthority(c, principal, set_.paths, proofs);
    r := Evaluated(proofs, Summary(proofs));
  }

  /** Every role this one inherits has a least path. */
  ghost predicate AllHaveLeast(c: Catalogue, g: Graph, s: Role) {
    forall t :: Reachable(c.edges, Inherit, s, t) ==> exists tail :: IsLeast(g, c.edges, Inherit, s, tail, t)
  }

  /** The proofs of these states, along their paths, each once. */
  ghost predicate Collected(c: Catalogue, g: Graph, principal: Role, paths: map<Role, seq<Edge>>, done: set<Role>,
      ps: seq<Proof>)
    requires done <= paths.Keys
  {
    && NoDuplicates(ps)
    && forall p :: p in ps <==> p.state in done && IsProofIn(c, g, principal, p.state, paths[p.state], p)
  }

  lemma CollectedNext(c: Catalogue, g: Graph, principal: Role, paths: map<Role, seq<Edge>>, done: set<Role>,
      state: Role, ps: seq<Proof>, ps': seq<Proof>)
    requires done <= paths.Keys && state in paths && state !in done && Collected(c, g, principal, paths, done, ps)
    requires Adds(ps, ps', ProofsIn(c, g, principal, state, paths[state]))
    ensures Collected(c, g, principal, paths, done + {state}, ps')
  {
    forall p | IsProofIn(c, g, principal, state, paths[state], p) ensures p.state == state {}
  }

  /** What is proved of the principal: in every role it can become, along the least path there. */
  ghost predicate IsProof(c: Catalogue, g: Graph, principal: Role, p: Proof) {
    exists path :: IsLeast(g, c.edges, SetRole, principal, path, p.state)
      && IsProofIn(c, g, principal, p.state, path, p)
  }

  lemma ProofsOfStates(c: Catalogue, g: Graph, principal: Role, paths: map<Role, seq<Edge>>, ps: seq<Proof>)
    requires GoodPaths(c.edges, SetRole, principal, paths) && AllLeast(g, c.edges, SetRole, principal, paths)
    requires Collected(c, g, principal, paths, paths.Keys, ps)
    ensures forall p :: p in ps <==> IsProof(c, g, principal, p)
  {
    forall p ensures p in ps <==> IsProof(c, g, principal, p) {
      if p in ps {
        assert IsLeast(g, c.edges, SetRole, principal, paths[p.state], p.state);
      }
      forall path | IsLeast(g, c.edges, SetRole, principal, path, p.state)
        ensures p.state in paths && path == paths[p.state]
      {
        assert Reachable(c.edges, SetRole, principal, p.state);
        LeastIsUnique(g, c.edges, SetRole, principal, path, paths[p.state], p.state);
      }
    }
  }

  /** Each of them is valid. */
  lemma ProofInHolds(c: Catalogue, g: Graph, principal: Role, path: seq<Edge>, p: Proof)
    requires IsWalk(c.edges, SetRole, principal, path, p.state) && IsProofIn(c, g, principal, p.state, path, p)
    ensures ValidProof(c, principal, p)
  {
    if p in AdminProofs(c.edges, p.state, path) {
      assert p.path[..|path|] == path;
      assert ProofHolds(c, principal, p, |path|);
    } else if p in SpecialProofs(c, principal, p.state, path) {
      assert path[..|path|] == path && path[|path|..] == [];
      assert ProofHolds(c, principal, p, |path|);
    } else {
      var t, tail :| IsLeast(g, c.edges, Inherit, p.state, tail, t)
        && p in OrdinaryProofs(c, principal, p.state, path, tail, t);
      OrdinaryHolds(c, principal, p, path, tail, t);
    }
  }

  lemma OrdinaryHolds(c: Catalogue, principal: Role, p: Proof, path: seq<Edge>, tail: seq<Edge>, t: Role)
    requires IsWalk(c.edges, SetRole, principal, path, p.state) && IsShortest(c.edges, Inherit, p.state, tail, t)
    requires p in OrdinaryProofs(c, principal, p.state, path, tail, t)
    ensures ValidProof(c, principal, p)
  {
    if t == p.state {
      assert IsWalk(c.edges, Inherit, t, [], t);
    }
    assert p.path[..|path|] == path && p.path[|path|..] == tail;
    assert ProofHolds(c, principal, p, |path|);
  }

  lemma ProofsAreSound(c: Catalogue, g: Graph, principal: Role, ps: seq<Proof>)
    requires NoDuplicates(ps) && forall p :: p in ps <==> IsProof(c, g, principal, p)
    ensures Sound(c, principal, ps)
  {
    forall k | 0 <= k < |ps| ensures ValidProof(c, principal, ps[k]) {
      var p := ps[k];
      assert IsProof(c, g, principal, p);
      var path :| IsLeast(g, c.edges, SetRole, principal, path, p.state)
        && IsProofIn(c, g, principal, p.state, path, p);
      ProofInHolds(c, g, principal, path, p);
    }
  }

  /** Everything the state grants is in the summary. */
  ghost predicate Covered(c: Catalogue, state: Role, ps: seq<Proof>) {
    forall x :: Grants(c, state, x) ==> x in Summary(ps)
  }

  lemma ProofsCover(c: Catalogue, g: Graph, principal: Role, paths: map<Role, seq<Edge>>, ps: seq<Proof>)
    requires forall s :: s in paths ==> AllHaveLeast(c, g, s)
    requires Collected(c, g, principal, paths, paths.Keys, ps)
    ensures forall s :: s in paths ==> Covered(c, s, ps)
  {
    forall s, x | s in paths && Grants(c, s, x) ensures x in Summary(ps) {
      var p := ProofOfGrant(c, g, principal, s, paths[s], x);
      assert p in ps;
    }
  }

  /** Every grant of a state has a proof. */
  lemma ProofOfGrant(c: Catalogue, g: Graph, principal: Role, s: Role, path: seq<Edge>, x: string) returns (p: Proof)
    requires AllHaveLeast(c, g, s) && Grants(c, s, x)
    ensures p.state == s && p.privilege == x && IsProofIn(c, g, principal, s, path, p)
  {
    if SpecialGrants(c, s, x) {
      p := Proof(x, AccessOf(principal, s, NoSource), s, path, NoSource);
    } else if AdminGrants(c, s, x) {
      var e :| e in c.edges && e.from == s && e.adminOption && x == AdminPrivilege(e.to);
      p := AdminProof(s, path, e);
    } else {
      var t :| Reachable(c.edges, Inherit, s, t) && x in PrivilegesOf(c, t);
      var tail :| IsLeast(g, c.edges, Inherit, s, tail, t);
      p := Proof(x, AccessOf(principal, s, SourceOf(s, t)), s, path + tail, SourceOf(s, t));
      assert p in OrdinaryProofs(c, principal, s, path, tail, t);
    }
  }

  /** A role state that can be evaluated: it is in the catalogue and its search finds no error. */
  ghost predicate StateOk(c: Catalogue, g: Graph, s: Role) {
    s in c.roles && !ClosesLeast(g, c.edges, Inherit, s)
  }

  /** The exact condition for an evaluation to succeed. */
  ghost predicate Evaluable(c: Catalogue, g: Graph, principal: Role) {
    && principal in c.roles
    && !ClosesLeast(g, c.edges, SetRole, principal)
    && forall s :: Reachable(c.edges, SetRole, principal, s) ==> StateOk(c, g, s)
  }

  lemma SummaryIsAuthority(c: Catalogue, principal: Role, paths: map<Role, seq<Edge>>, ps: seq<Proof>)
    requires GoodPaths(c.edges, SetRole, principal, paths) && Sound(c, principal, ps)
    requires forall s :: s in paths ==> Covered(c, s, ps)
    ensures forall x :: x in Summary(ps) <==> HasAuthority(c, principal, x)
  {
    forall x | x in Summary(ps) ensures HasAuthority(c, principal, x) {
      var p :| p in ps && p.privilege == x;
      ValidProofIsAuthority(c, principal, p);
    }
    forall x | HasAuthority(c, principal, x) ensures x in Summary(ps) {
      var s :| Reachable(c.edges, SetRole, principal, s) && Grants(c, s, x);
      assert s in paths && Covered(c, s, ps);
    }
  }

  // ---------------------------------------------------------------- adding a membership

  /** Every role an edge mentions is in the catalogue. */
  ghost predicate AllListed(c: Catalogue, principal: Role) {
    principal in c.roles && forall e :: e in c.edges ==> e.to in c.roles
  }

  lemma ReachableListed(c: Catalogue, principal: Role, mode: Mode, s: Role)
    requires AllListed(c, principal) && Reachable(c.edges, mode, principal, s)
    ensures s in c.roles
  {}

  /** On acyclic graphs whose roles are all listed the evaluation cannot fail. */
  method EvaluateAcyclic(principal: Role, c: Catalogue) returns (r: Evaluation)
    requires Acyclic(c.edges, SetRole) && Acyclic(c.edges, Inherit) && AllListed(c, principal)
    ensures r.Evaluated?
    ensures forall x :: x in r.summary <==> HasAuthority(c, principal, x)
  {
    ghost var g;
    r, g := EvaluateAuthority(principal, c);
    if r.Unclassified? {
      ReachableListed(c, principal, SetRole, r.role);
    }
  }

  /** Adding memberships never takes a privilege away. */
  lemma AddingMembershipsKeepsAuthority(c: Catalogue, more: seq<Edge>, principal: Role, privilege: string)
    requires HasAuthority(c, principal, privilege) && forall e :: e in c.edges ==> e in more
    ensures HasAuthority(c.(edges := more), principal, privilege)
  {
    var c' := c.(edges := more);
    var s :| Reachable(c.edges, SetRole, principal, s) && Grants(c, s, privilege);
    var p :| IsWalk(c.edges, SetRole, principal, p, s);
    WalkMonotone(c.edges, more, SetRole, principal, p, s);
    assert Reachable(more, SetRole, principal, s);
    if InheritGrants(c, s, privilege) {
      var t :| Reachable(c.edges, Inherit, s, t) && privilege in PrivilegesOf(c, t);
      var q :| IsWalk(c.edges, Inherit, s, q, t);
      WalkMonotone(c.edges, more, Inherit, s, q, t);
      assert Reachable(more, Inherit, s, t);
      assert InheritGrants(c', s, privilege);
    } else if AdminGrants(c, s, privilege) {
      assert AdminGrants(c', s, privilege);
    }
    assert Grants(c', s, privilege);
  }
}
