/** What the witness paths and the proofs of a principal say, read edge by edge. */
module RoleMeaning {
  import opened Common
  import opened RoleGraph
  import opened RoleSearch
  import opened RoleOrder
  import opened RolePaths
  import opened RoleAuthority

  // ---------------------------------------------------------------- walks, edge by edge

  /** Memberships, each of the role the one before it grants, from `s` to `t`. */
  predicate IsChain(edges: seq<Edge>, s: Role, p: seq<Edge>, t: Role) {
    && (forall k :: 0 <= k < |p| ==> p[k] in edges)
    && (forall k :: 0 <= k < |p| - 1 ==> p[k].to == p[k + 1].from)
    && if p == [] then s == t else p[0].from == s && p[|p| - 1].to == t
  }

  predicate InheritChain(edges: seq<Edge>, s: Role, p: seq<Edge>, t: Role) {
    IsChain(edges, s, p, t) && forall k :: 0 <= k < |p| ==> p[k].inheritOption
  }

  predicate SetChain(edges: seq<Edge>, s: Role, p: seq<Edge>, t: Role) {
    IsChain(edges, s, p, t) && forall k :: 0 <= k < |p| ==> p[k].setOption
  }

  lemma ChainWithoutLast(edges: seq<Edge>, s: Role, p: seq<Edge>, t: Role)
    requires p != []
    ensures IsChain(edges, s, p, t) <==>
      var n := |p| - 1; p[n] in edges && p[n].to == t && IsChain(edges, s, p[..n], p[n].from)
  {
    var n := |p| - 1;
    var front := p[..n];
    if IsChain(edges, s, p, t) {
      assert n > 0 ==> p[n - 1].to == p[n].from;
    }
    if p[n] in edges && p[n].to == t && IsChain(edges, s, front, p[n].from) {
      forall k | 0 <= k < |p| ensures p[k] in edges {
        assert k < n ==> p[k] == front[k];
      }
      forall k | 0 <= k < n ensures p[k].to == p[k + 1].from {
        assert p[k] == front[k];
        assert k + 1 < n ==> p[k + 1] == front[k + 1];
      }
      assert n > 0 ==> front[0] == p[0];
    }
  }

  /** A walk is a chain of memberships that all carry the option of its kind. */
  lemma {:induction false} WalkExactlyWhen(edges: seq<Edge>, s: Role, p: seq<Edge>, t: Role)
    ensures IsWalk(edges, Inherit, s, p, t) <==> InheritChain(edges, s, p, t)
    ensures IsWalk(edges, SetRole, s, p, t) <==> SetChain(edges, s, p, t)
  {
    if p == [] {
    } else {
      var n := |p| - 1;
      WalkExactlyWhen(edges, s, p[..n], p[n].from);
      ChainWithoutLast(edges, s, p, t);
      assert forall k :: 0 <= k < n ==> p[..n][k] == p[k];
    }
  }

  // ---------------------------------------------------------------- authority

  /** What the role has and is granted by the catalogue. */
  predicate HasSpecial(c: Catalogue, s: Role, privilege: string) {
    && s in c.roles
    && var has := c.roles[s].attributes;
       || (RolSuper in has && privilege == "SUPERUSER")
       || (RolBypassRls in has && privilege == "BYPASSRLS")
       || (RolCreateRole in has && privilege == "CREATEROLE")
       || (RolCreateDb in has && privilege == "CREATEDB")
       || (RolReplication in has && privilege == "REPLICATION")
  }

  predicate Listed(c: Catalogue, t: Role, privilege: string) {
    t in c.privileges && privilege in c.privileges[t]
  }

  ghost predicate Inherits(c: Catalogue, s: Role, privilege: string) {
    exists q, t :: InheritChain(c.edges, s, q, t) && Listed(c, t, privilege)
  }

  predicate Administers(c: Catalogue, s: Role, e: Edge, privilege: string) {
    e in c.edges && e.from == s && e.adminOption && privilege == "ADMIN_ROLE_MEMBERSHIP:" + e.to
  }

  lemma SpecialExactlyWhen(c: Catalogue, s: Role, privilege: string)
    ensures SpecialGrants(c, s, privilege) <==> HasSpecial(c, s, privilege)
  {
    if HasSpecial(c, s, privilege) {
      var has := c.roles[s].attributes;
      var a := if RolSuper in has && privilege == "SUPERUSER" then RolSuper
               else if RolBypassRls in has && privilege == "BYPASSRLS" then RolBypassRls
               else if RolCreateRole in has && privilege == "CREATEROLE" then RolCreateRole
               else if RolCreateDb in has && privilege == "CREATEDB" then RolCreateDb
               else RolReplication;
      assert a in has && privilege == SpecialPrivilege(a);
    }
  }

  ghost predicate Has(c: Catalogue, s: Role, privilege: string) {
    HasSpecial(c, s, privilege) || Inherits(c, s, privilege) || exists e :: Administers(c, s, e, privilege)
  }

  lemma GrantsExactlyWhen(c: Catalogue, s: Role, privilege: string)
    ensures Grants(c, s, privilege) <==> Has(c, s, privilege)
  {
    SpecialExactlyWhen(c, s, privilege);
    forall q, t ensures IsWalk(c.edges, Inherit, s, q, t) <==> InheritChain(c.edges, s, q, t) {
      WalkExactlyWhen(c.edges, s, q, t);
    }
    if InheritGrants(c, s, privilege) {
      var t :| Reachable(c.edges, Inherit, s, t) && privilege in PrivilegesOf(c, t);
      var q :| IsWalk(c.edges, Inherit, s, q, t);
      assert InheritChain(c.edges, s, q, t) && Listed(c, t, privilege);
    }
    if Inherits(c, s, privilege) {
      var q, t :| InheritChain(c.edges, s, q, t) && Listed(c, t, privilege);
      assert IsWalk(c.edges, Inherit, s, q, t);
      assert Reachable(c.edges, Inherit, s, t);
    }
    if e :| Administers(c, s, e, privilege) {
      assert AdminGrants(c, s, privilege);
    }
    if AdminGrants(c, s, privilege) {
      var e :| e in c.edges && e.from == s && e.adminOption && privilege == AdminPrivilege(e.to);
      assert Administers(c, s, e, privilege);
    }
  }

  /** A principal has a privilege exactly when memberships with the SET option lead it to a role that
      has it as an attribute, that inherits it along memberships with the INHERIT option from a role
      it is granted to, or that holds the ADMIN option of the membership it names. */
  lemma AuthorityExactlyWhen(c: Catalogue, principal: Role, privilege: string)
    ensures HasAuthority(c, principal, privilege) <==>
      exists path, s :: SetChain(c.edges, principal, path, s) && Has(c, s, privilege)
  {
    if HasAuthority(c, principal, privilege) {
      var s :| Reachable(c.edges, SetRole, principal, s) && Grants(c, s, privilege);
      var path :| IsWalk(c.edges, SetRole, principal, path, s);
      WalkExactlyWhen(c.edges, principal, path, s);
      GrantsExactlyWhen(c, s, privilege);
      assert SetChain(c.edges, principal, path, s);
    }
    if path, s :| SetChain(c.edges, principal, path, s) && Has(c, s, privilege) {
      WalkExactlyWhen(c.edges, principal, path, s);
      GrantsExactlyWhen(c, s, privilege);
      assert IsWalk(c.edges, SetRole, principal, path, s);
      assert Reachable(c.edges, SetRole, principal, s);
    }
  }

  // ---------------------------------------------------------------- what a proof says

  /** The two parts of a proof's path: to the state, and on from there to a role. */
  predicate Leads(c: Catalogue, principal: Role, p: Proof, cut: int, role: Role) {
    && 0 <= cut <= |p.path|
    && SetChain(c.edges, principal, p.path[..cut], p.state) && InheritChain(c.edges, p.state, p.path[cut..], role)
  }

  /** The principal's own privilege, or one it inherits, or one of another role it can become; and
      the membership a proof of administration ends with. */
  ghost predicate ProofReads(c: Catalogue, principal: Role, p: Proof) {
    match p.access
    case Direct =>
      && p.state == principal && p.source == NoSource && p.path == []
      && (HasSpecial(c, principal, p.privilege) || Listed(c, principal, p.privilege))
    case Inherited =>
      && p.state == principal && p.source.From? && p.source.role != principal
      && Leads(c, principal, p, 0, p.source.role) && Listed(c, p.source.role, p.privilege)
    case SetRoleAccess =>
      && p.state != principal
      && if p.source == NoSource then
           && SetChain(c.edges, principal, p.path, p.state)
           && (HasSpecial(c, p.state, p.privilege) || Listed(c, p.state, p.privilege))
         else
           && p.source.role != p.state && Listed(c, p.source.role, p.privilege)
           && exists cut :: Leads(c, principal, p, cut, p.source.role)
    case AdminCapability =>
      && p.path != [] && p.source == NoSource
      && var n := |p.path| - 1;
         SetChain(c.edges, principal, p.path[..n], p.state) && Administers(c, p.state, p.path[n], p.privilege)
  }

  lemma ShortestToItself(edges: seq<Edge>, mode: Mode, s: Role, p: seq<Edge>)
    requires IsShortest(edges, mode, s, p, s)
    ensures p == []
  {
    assert IsWalk(edges, mode, s, [], s);
  }

  /** Every proof of an evaluation reads so. */
  lemma ProofsRead(c: Catalogue, g: Graph, principal: Role, p: Proof)
    requires IsProof(c, g, principal, p)
    ensures ProofReads(c, principal, p)
  {
    var path :| IsLeast(g, c.edges, SetRole, principal, path, p.state) && IsProofIn(c, g, principal, p.state, path, p);
    WalkExactlyWhen(c.edges, principal, path, p.state);
    if p.state == principal {
      ShortestToItself(c.edges, SetRole, principal, path);
    }
    if p in AdminProofs(c.edges, p.state, path) {
      assert p.path[..|path|] == path;
    } else if p in SpecialProofs(c, principal, p.state, path) {
      SpecialExactlyWhen(c, p.state, p.privilege);
    } else {
      var t, tail :| IsLeast(g, c.edges, Inherit, p.state, tail, t)
        && p in OrdinaryProofs(c, principal, p.state, path, tail, t);
      OrdinaryReads(c, principal, p, path, tail, t);
    }
  }

  lemma OrdinaryReads(c: Catalogue, principal: Role, p: Proof, path: seq<Edge>, tail: seq<Edge>, t: Role)
    requires SetChain(c.edges, principal, path, p.state) && (p.state == principal ==> path == [])
    requires IsShortest(c.edges, Inherit, p.state, tail, t)
    requires p in OrdinaryProofs(c, principal, p.state, path, tail, t)
    ensures ProofReads(c, principal, p)
  {
    WalkExactlyWhen(c.edges, p.state, tail, t);
    if t == p.state {
      ShortestToItself(c.edges, Inherit, t, tail);
      assert p.path == path;
    } else {
      assert p.path[..|path|] == path && p.path[|path|..] == tail;
      assert Leads(c, principal, p, |path|, t);
    }
  }

  // ---------------------------------------------------------------- the order of an adjacency list

  /** By the granted role and then by the grantor, each compared as texts. */
  lemma SortedExactlyWhen(es: seq<Edge>)
    ensures SortedByKey(es) <==> forall i, j :: 0 <= i < j < |es| ==>
      TextLess(es[i].to, es[j].to) || (es[i].to == es[j].to && !TextLess(es[j].grantor, es[i].grantor))
  {
    forall i, j | 0 <= i < j < |es|
      ensures !KeyLess(es[j], es[i]) <==>
        TextLess(es[i].to, es[j].to) || (es[i].to == es[j].to && !TextLess(es[j].grantor, es[i].grantor))
    {
      TextLessTotal(es[i].to, es[j].to);
    }
  }
}
