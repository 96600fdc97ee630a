/** Who may run an audit operation, and what everyone else is told, in plain terms. */
module AuditPermissions {
  import opened Common
  import opened Checks
  import opened LedgerLimit
  import opened AbuseLimiter
  import opened AuditInvocation

  // ---------------------------------------------------------------- the counts of the last minute

  /** A record of this capability from the last minute, of one user or of the whole tenant. */
  predicate Recent(r: Record, tenant: string, user: Option<string>, c: Capability, now: int) {
    && r.tenant == tenant && r.capability == c && r.createdAt >= now - 60_000_000
    && (user == None || user == Some(r.user))
  }

  function AllRecent(ledger: seq<Record>, tenant: string, user: Option<string>, c: Capability, now: int): set<int> {
    set k | 0 <= k < |ledger| && Recent(ledger[k], tenant, user, c, now)
  }

  lemma OneRecordMore(ledger: seq<Record>, r: Record, tenant: string, user: Option<string>, c: Capability, now: int)
    ensures |AllRecent(ledger + [r], tenant, user, c, now)|
      == |AllRecent(ledger, tenant, user, c, now)| + if Recent(r, tenant, user, c, now) then 1 else 0
  {
    var more := if Recent(r, tenant, user, c, now) then {|ledger|} else {};
    assert AllRecent(ledger + [r], tenant, user, c, now) == AllRecent(ledger, tenant, user, c, now) + more;
  }

  function UserOf(s: Scope): Option<string> {
    if s.wholeTenant then None else Some(s.user)
  }

  lemma {:induction false} CountIsSize(ledger: seq<Record>, s: Scope, now: int)
    ensures Count(ledger, s, now - 60_000_000) == |AllRecent(ledger, s.tenant, UserOf(s), s.capability, now)|
  {
    if ledger == [] {
    } else {
      var front, last := ledger[..|ledger| - 1], ledger[|ledger| - 1];
      CountIsSize(front, s, now);
      OneRecordMore(front, last, s.tenant, UserOf(s), s.capability, now);
      assert ledger == front + [last];
    }
  }

  /** Room for one more, in the last minute, for the user and for the tenant. */
  predicate HasRoom(ledger: seq<Record>, limits: Limits, turn: Turn, c: Capability, now: int) {
    && |AllRecent(ledger, turn.tenant, Some(turn.user), c, now)| < limits.user
    && |AllRecent(ledger, turn.tenant, None, c, now)| < limits.tenant
  }

  lemma RoomIsChecked(ledger: seq<Record>, limits: Limits, turn: Turn, c: Capability, now: int)
    ensures RateCheck(ledger, limits, turn.tenant, turn.user, c, now) <==> HasRoom(ledger, limits, turn, c, now)
  {
    CountIsSize(ledger, Scope(turn.tenant, turn.user, c, false), now);
    CountIsSize(ledger, Scope(turn.tenant, turn.user, c, true), now);
  }

  // ---------------------------------------------------------------- the conditions of an operation

  /** The value, put to lower case and stripped, is there and on the list. */
  predicate Listed(policy: Policy, value: string, list: set<string>) {
    policy.normal(value) != "" && policy.normal(value) in list
  }

  /** What the turn must be like, in the order in which it is asked. */
  function TurnChecks(policy: Policy, turn: Turn, w: World): seq<Check<Code>> {
    [ Check(policy.invocationEnabled, InvocationDisabled),
      Check(turn.route == DirectAgent, RouteDenied),
      Check(turn.channel == ChatJson || turn.channel == ChatSse, ChannelDenied),
      Check(turn.ownershipLocked, OwnershipRequired),
      Check(turn.resolvedAgent == "auditor" && turn.turnOwner == "auditor", AgentDenied),
      Check(w.requestedAgent == Some("auditor"), AgentIdentityMismatch),
      Check(turn.executionAllowed, ExecutionDenied),
      Check(!turn.externalWriteAllowed, ExternalWriteForbidden) ]
  }

  /** What the caller must be granted, and then that there is room. */
  function GrantChecks(policy: Policy, turn: Turn, w: World, c: Capability, ledger: seq<Record>): seq<Check<Code>> {
    [ Check(c in policy.enabled, CapabilityDisabled),
      Check(w.privileged, UserDenied),
      Check(Listed(policy, "auditor", policy.agents), SubjectDenied),
      Check(Listed(policy, turn.tenant, policy.tenants), TenantDenied),
      Check(Listed(policy, policy.environment, policy.environments), EnvironmentDenied),
      Check(w.ledgerReadable, LimiterUnavailable),
      Check(HasRoom(ledger, policy.limits, turn, c, w.checkedAt), RateLimited) ]
  }

  function InvocationChecks(policy: Policy, turn: Turn, w: World, c: Capability, ledger: seq<Record>):
    seq<Check<Code>>
  {
    TurnChecks(policy, turn, w) + GrantChecks(policy, turn, w, c, ledger)
  }

  lemma TurnTells(policy: Policy, turn: Turn, w: World)
    ensures Tells(TurnChecks(policy, turn, w), PreflightReason(policy, turn, w.requestedAgent))
  {
    var h := TurnChecks(policy, turn, w);
    var k := if !h[0].passed then 0 else if !h[1].passed then 1 else if !h[2].passed then 2
             else if !h[3].passed then 3 else if !h[4].passed then 4 else if !h[5].passed then 5
             else if !h[6].passed then 6 else if !h[7].passed then 7 else 8;
    assert k < 8 ==> FailsAt(h, k);
  }

  lemma GrantTells(policy: Policy, turn: Turn, w: World, c: Capability, ledger: seq<Record>)
    requires turn.resolvedAgent == "auditor" && w.requestedAgent == Some("auditor")
    ensures Tells(GrantChecks(policy, turn, w, c, ledger), Authorize(policy, turn, w, c, ledger))
  {
    RoomIsChecked(ledger, policy.limits, turn, c, w.checkedAt);
    var h := GrantChecks(policy, turn, w, c, ledger);
    var k := if !h[0].passed then 0 else if !h[1].passed then 1 else if !h[2].passed then 2
             else if !h[3].passed then 3 else if !h[4].passed then 4 else if !h[5].passed then 5
             else if !h[6].passed then 6 else 7;
    assert k < 7 ==> FailsAt(h, k);
  }

  /** Why a directive is not run, if it is not. */
  function Refused(policy: Policy, turn: Turn, w: World, c: Capability, ledger: seq<Record>): Option<Code> {
    var preflight := PreflightReason(policy, turn, w.requestedAgent);
    if preflight.Some? then preflight else Authorize(policy, turn, w, c, ledger)
  }

  lemma RefusedTells(policy: Policy, turn: Turn, w: World, c: Capability, ledger: seq<Record>)
    ensures Tells(InvocationChecks(policy, turn, w, c, ledger), Refused(policy, turn, w, c, ledger))
  {
    var grant := GrantChecks(policy, turn, w, c, ledger);
    TurnTells(policy, turn, w);
    var h := TurnChecks(policy, turn, w);
    if PreflightReason(policy, turn, w.requestedAgent).None? {
      assert h[4].passed && h[5].passed;
      GrantTells(policy, turn, w, c, ledger);
    }
    TellsTogether(h, grant, Refused(policy, turn, w, c, ledger));
  }

  // ---------------------------------------------------------------- what the caller is told

  /** A denial: without internal persistence, or where the append fails, that is what is raised. */
  predicate IsDenial(turn: Turn, w: World, code: Code, r: Outcome) {
    if !turn.internalPersistenceAllowed then r == Raised(PersistenceRequired, None)
    else if w.appendError.Some? then r == Raised(PersistenceFailed(w.appendError.value), None)
    else r == Raised(code, Some(Denied))
  }

  /** The end of an operation that ran. */
  predicate IsEnd(turn: Turn, w: World, r: Outcome) {
    match w.execution
    case ArchiveHidden => IsDenial(turn, w, ArchiveNotFound, r)
    case Done =>
      r == if w.appendError.Some? then Raised(PersistenceFailed(w.appendError.value), None) else Returned
    case Broken(code) =>
      r == if w.appendError.Some? then Raised(PersistenceFailed(w.appendError.value), None)
           else Raised(ExecutionFailed(code), Some(Failed))
  }

  /** How many of the times lie in the minute before this reading. */
  function InLastMinute(times: seq<real>, now: real): set<int> {
    set k | 0 <= k < |times| && times[k] > now - 60.0
  }

  lemma OneTimeMore(times: seq<real>, t: real, now: real)
    ensures |InLastMinute(times + [t], now)| == |InLastMinute(times, now)| + if t > now - 60.0 then 1 else 0
  {
    var more := if t > now - 60.0 then {|times|} else {};
    assert InLastMinute(times + [t], now) == InLastMinute(times, now) + more;
  }

  lemma {:induction false} SinceIsSize(times: seq<real>, now: real)
    ensures Since(times, now - 60.0) == |InLastMinute(times, now)|
  {
    if times == [] {
    } else {
      var front, last := times[..|times| - 1], times[|times| - 1];
      SinceIsSize(front, now);
      OneTimeMore(front, last, now);
      assert times == front + [last];
    }
  }

  /** The user has used up the guard's minute. */
  predicate Crowded(s: State, perUserLimit: nat, turn: Turn, now: real) {
    |InLastMinute(TimesOf(s.accepted, Key(turn.tenant, turn.user)), now)| >= perUserLimit
  }

  /** The whole of one invocation, in plain terms. What looks like no directive changes nothing. A
      user who has used up the guard's minute is refused and only that; everyone else uses one place
      of it. Parse errors and messages that are no directive end there. A directive runs if and only
      if all fifteen conditions are met; if not, the code is that of the first that is not. */
  lemma InvocationTells(policy: Policy, perUserLimit: nat, s: State, turn: Turn, w: World)
    ensures var (s', r) := Invoked(policy, perUserLimit, s, turn, w); var key := Key(turn.tenant, turn.user);
      if !w.looksLikeDirective then r == NotADirective && s' == s
      else if Crowded(s, perUserLimit, turn, w.monotonic) then
        r == Raised(DirectiveRateLimited, None) && s'.history == s.history
        && TimesOf(s'.accepted, key) == TimesOf(s.accepted, key)
      else
        && TimesOf(s'.accepted, key) == TimesOf(s.accepted, key) + [w.monotonic]
        && match w.parsed
           case ParseError(code) => r == Raised(ParseFailed(code), None) && s'.history == s.history
           case NoDirective => r == NotADirective && s'.history == s.history
           case Directive(c) =>
             DirectiveTells(InvocationChecks(policy, turn, w, c, Records(s.history)), s, turn, w, s', r)
  {
    SinceIsSize(TimesOf(s.accepted, Key(turn.tenant, turn.user)), w.monotonic);
    if w.parsed.Directive? {
      RefusedTells(policy, turn, w, w.parsed.capability, Records(s.history));
    }
  }

  /** One attempt is added; it ran exactly when all conditions were met, and the caller is told the
      end of the operation or the first that was not. */
  ghost predicate DirectiveTells(checks: seq<Check<Code>>, s: State, turn: Turn, w: World, s': State, r: Outcome) {
    && |s'.history| == |s.history| + 1 && s'.history[..|s.history|] == s.history
    && (s'.history[|s.history|].run.Some? <==> AllPassed(checks))
    && (AllPassed(checks) ==> IsEnd(turn, w, r))
    && (!AllPassed(checks) ==> exists k :: FailsAt(checks, k) && IsDenial(turn, w, checks[k].error, r))
  }
}
