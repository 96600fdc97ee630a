/** One governed audit invocation: guard, preflight, authorization, operation, evidence record. */
module AuditInvocation {
  import opened Common
  import opened LedgerLimit
  import opened AbuseLimiter

  const CANONICAL_AGENT := "auditor"

  datatype Route = DirectAgent | Team
  datatype Channel = ChatJson | ChatSse | Realtime

  datatype Turn = Turn(
    tenant: string,
    user: string,
    route: Route,
    channel: Channel,
    ownershipLocked: bool,
    resolvedAgent: string,
    turnOwner: string,
    executionAllowed: bool,
    externalWriteAllowed: bool,
    internalPersistenceAllowed: bool
  )

  /** `normal` is strip-and-lower, which the allow lists have been through already. */
  datatype Policy = Policy(
    invocationEnabled: bool,
    enabled: set<Capability>,
    agents: set<string>,
    tenants: set<string>,
    environments: set<string>,
    environment: string,
    limits: Limits,
    normal: string -> string
  )

  datatype Code =
    | DirectiveRateLimited | ParseFailed(code: string)
    | InvocationDisabled | RouteDenied | ChannelDenied | OwnershipRequired | AgentDenied
    | AgentIdentityMismatch | ExecutionDenied | ExternalWriteForbidden
    | CapabilityDisabled | UserDenied | SubjectDenied | SubjectMismatch | TenantDenied | EnvironmentDenied
    | RateLimited | LimiterUnavailable
    | PersistenceRequired | PersistenceFailed(code: string)
    | ArchiveNotFound | ExecutionFailed(code: string)

  datatype Parsed = ParseError(code: string) | NoDirective | Directive(capability: Capability)

  /** How the guarded operation and the check of its result end. */
  datatype Execution = Done | ArchiveHidden | Broken(code: string)

  /** What one call meets outside the service: the message, the clocks and the database. */
  datatype World = World(
    looksLikeDirective: bool,
    parsed: Parsed,
    requestedAgent: Option<string>,
    privileged: bool,
    monotonic: real,
    checkedAt: int,
    ledgerReadable: bool,
    ranAt: int,
    execution: Execution,
    appendError: Option<string>,
    createdAt: int
  )

  /** The clock does not go back from the check to the run to the record. */
  predicate ClockOk(w: World) {
    w.checkedAt <= w.ranAt <= w.createdAt
  }

  datatype Outcome =
    | NotADirective
    | Raised(code: Code, reference: Option<Status>)
    | Returned

  function PreflightReason(policy: Policy, turn: Turn, requested: Option<string>): Option<Code> {
    if !policy.invocationEnabled then Some(InvocationDisabled)
    else if turn.route != DirectAgent then Some(RouteDenied)
    else if turn.channel !in {ChatJson, ChatSse} then Some(ChannelDenied)
    else if !turn.ownershipLocked then Some(OwnershipRequired)
    else if turn.resolvedAgent != CANONICAL_AGENT || turn.turnOwner != CANONICAL_AGENT then Some(AgentDenied)
    else if requested != Some(CANONICAL_AGENT) then Some(AgentIdentityMismatch)
    else if !turn.executionAllowed then Some(ExecutionDenied)
    else if turn.externalWriteAllowed then Some(ExternalWriteForbidden)
    else None
  }

  /** The authorization chain; `None` allows. A ledger that cannot be read denies. */
  function Authorize(policy: Policy, turn: Turn, w: World, c: Capability, ledger: seq<Record>): Option<Code> {
    var subject := policy.normal(turn.resolvedAgent);
    var tenant, environment := policy.normal(turn.tenant), policy.normal(policy.environment);
    if c !in policy.enabled then Some(CapabilityDisabled)
    else if !w.privileged then Some(UserDenied)
    else if subject == "" || subject !in policy.agents then Some(SubjectDenied)
    else if w.requestedAgent.Some? && w.requestedAgent.value != ""
         && policy.normal(w.requestedAgent.value) != subject then
      Some(SubjectMismatch)
    else if tenant == "" || tenant !in policy.tenants then Some(TenantDenied)
    else if environment == "" || environment !in policy.environments then Some(EnvironmentDenied)
    else if !w.ledgerReadable then Some(LimiterUnavailable)
    else if !RateCheck(ledger, policy.limits, turn.tenant, turn.user, c, w.checkedAt) then Some(RateLimited)
    else None
  }

  /** Nothing stands between the directive and its operation. */
  predicate Permitted(policy: Policy, turn: Turn, w: World, c: Capability, ledger: seq<Record>) {
    PreflightReason(policy, turn, w.requestedAgent).None? && Authorize(policy, turn, w, c, ledger).None?
  }

  // ---------------------------------------------------------------- what one directive comes to

  /** The record as the ledger gets it, unless the append fails. */
  function Recorded(turn: Turn, c: Capability, status: Status, w: World): Option<Record> {
    if w.appendError.Some? then None else Some(Record(turn.tenant, turn.user, c, status, w.createdAt))
  }

  /** What the caller is told, and the record that is left. */
  datatype Answer = Answer(outcome: Outcome, record: Option<Record>)

  function Denial(turn: Turn, c: Capability, reason: Code, w: World): Answer {
    if !turn.internalPersistenceAllowed then Answer(Raised(PersistenceRequired, None), None)
    else if w.appendError.Some? then Answer(Raised(PersistenceFailed(w.appendError.value), None), None)
    else Answer(Raised(reason, Some(Denied)), Recorded(turn, c, Denied, w))
  }

  function Ran(turn: Turn, c: Capability, w: World): Answer {
    if w.execution.ArchiveHidden? then Denial(turn, c, ArchiveNotFound, w)
    else if w.appendError.Some? then Answer(Raised(PersistenceFailed(w.appendError.value), None), None)
    else if w.execution.Done? then Answer(Returned, Recorded(turn, c, Completed, w))
    else Answer(Raised(ExecutionFailed(w.execution.code), Some(Failed)), Recorded(turn, c, Failed, w))
  }

  function Dispatched(policy: Policy, ledger: seq<Record>, turn: Turn, c: Capability, w: World): Answer {
    var preflight := PreflightReason(policy, turn, w.requestedAgent);
    if preflight.Some? then Denial(turn, c, preflight.value, w)
    else
      var refused := Authorize(policy, turn, w, c, ledger);
      if refused.Some? then Denial(turn, c, refused.value, w) else Ran(turn, c, w)
  }

  function AttemptOf(policy: Policy, ledger: seq<Record>, turn: Turn, c: Capability, w: World): Attempt {
    Attempt(turn.tenant, turn.user, c, w.monotonic,
            if Permitted(policy, turn, w, c, ledger) then Some(OpRun(w.checkedAt, w.ranAt)) else None,
            Dispatched(policy, ledger, turn, c, w).record)
  }

  /** The record and the answer agree: there is a record exactly when the caller gets the outcome or
      a reference, which is exactly when the append works and it is either allowed inside or about
      an operation that ran to an end; and its status says what happened. */
  lemma RecordExactlyWhen(policy: Policy, ledger: seq<Record>, turn: Turn, c: Capability, w: World)
    ensures var a := Dispatched(policy, ledger, turn, c, w); var ran := Permitted(policy, turn, w, c, ledger);
      && (a.record.Some? <==> a.outcome.Returned? || (a.outcome.Raised? && a.outcome.reference.Some?))
      && (a.record.Some? <==>
            w.appendError.None? && (turn.internalPersistenceAllowed || (ran && !w.execution.ArchiveHidden?)))
      && (a.outcome.Returned? <==> ran && w.execution.Done? && w.appendError.None?)
      && (a.record.Some? ==>
            && (a.record.value.status == Completed <==> a.outcome.Returned?)
            && (a.record.value.status == Failed <==> ran && w.execution.Broken?)
            && (a.outcome.Raised? ==> a.outcome.reference == Some(a.record.value.status)))
  {}

  /** Told by the answer alone: with a reference or an outcome there is a record. */
  lemma AnswerTellsRecord(policy: Policy, ledger: seq<Record>, turn: Turn, c: Capability, w: World)
    ensures var r := Dispatched(policy, ledger, turn, c, w).outcome; var ran := Permitted(policy, turn, w, c, ledger);
      && !r.NotADirective?
      && ((r.Returned? || (r.Raised? && r.reference.Some?)) <==>
            w.appendError.None? && (turn.internalPersistenceAllowed || (ran && !w.execution.ArchiveHidden?)))
  {
    RecordExactlyWhen(policy, ledger, turn, c, w);
  }

  lemma DispatchedIsOwn(policy: Policy, ledger: seq<Record>, turn: Turn, c: Capability, w: World)
    ensures var record := Dispatched(policy, ledger, turn, c, w).record;
      record.Some? ==>
        && record.value.tenant == turn.tenant && record.value.user == turn.user
        && record.value.capability == c && record.value.createdAt == w.createdAt
  {}

  lemma PermittedWasChecked(policy: Policy, turn: Turn, w: World, c: Capability, ledger: seq<Record>)
    requires Permitted(policy, turn, w, c, ledger)
    ensures RateCheck(ledger, policy.limits, turn.tenant, turn.user, c, w.checkedAt)
  {}

  lemma AttemptIsSound(policy: Policy, ledger: seq<Record>, turn: Turn, c: Capability, w: World)
    requires ClockOk(w)
    ensures var a := AttemptOf(policy, ledger, turn, c, w);
      && Sound(a)
      && (a.run.Some? ==>
            RateCheck(ledger, policy.limits, a.tenant, a.user, a.capability, a.run.value.checkedAt))
  {
    DispatchedIsOwn(policy, ledger, turn, c, w);
    if Permitted(policy, turn, w, c, ledger) {
      PermittedWasChecked(policy, turn, w, c, ledger);
    }
  }

  /** The attempt made by a dispatch keeps the history governed, and adds its record to the ledger. */
  lemma AttemptKeepsHistory(policy: Policy, history: seq<Attempt>, turn: Turn, c: Capability, w: World)
    requires Governed(history, policy.limits) && ClockOk(w)
    ensures var a := AttemptOf(policy, Records(history), turn, c, w);
      && Governed(history + [a], policy.limits)
      && Records(history + [a]) == Records(history) + Optional(Dispatched(policy, Records(history), turn, c, w).record)
  {
    var a := AttemptOf(policy, Records(history), turn, c, w);
    AttemptIsSound(policy, Records(history), turn, c, w);
    GovernedMore(history, policy.limits, a);
    RecordsMore(history, a);
  }

  class GovernedAuditInvocationService {
    const policy: Policy
    const limiter: AuditDirectiveAbuseLimiter
    var ledger: seq<Record>

    /** Every parsed directive since the ledger was empty. */
    ghost var history: seq<Attempt>

    ghost predicate Valid()
      reads this, limiter
    {
      limiter.Valid() && ledger == Records(history) && Governed(history, policy.limits)
    }

    constructor (policy: Policy, limiter: AuditDirectiveAbuseLimiter)
      requires limiter.Valid()
      ensures Valid() && this.policy == policy && this.limiter == limiter && history == []
    {
      this.policy, this.limiter := policy, limiter;
      ledger, history := [], [];
    }

    /** Writes the record of this invocation, or fails with the ledger as it was. */
    method PersistEvidence(turn: Turn, c: Capability, status: Status, w: World) returns (error: Option<Code>)
      modifies this`ledger
      ensures error == if w.appendError.Some? then Some(PersistenceFailed(w.appendError.value)) else None
      ensures ledger == old(ledger) + Optional(Recorded(turn, c, status, w))
    {
      if w.appendError.Some? {
        return Some(PersistenceFailed(w.appendError.value));
      }
      ledger := ledger + [Record(turn.tenant, turn.user, c, status, w.createdAt)];
      error := None;
    }

    method Deny(turn: Turn, c: Capability, reason: Code, w: World) returns (r: Outcome)
      modifies this`ledger
      ensures r == Denial(turn, c, reason, w).outcome && r.Raised?
      ensures ledger == old(ledger) + Optional(Denial(turn, c, reason, w).record)
    {
      if !turn.internalPersistenceAllowed {
        return Raised(PersistenceRequired, None);
      }
      var error := PersistEvidence(turn, c, Denied, w);
      r := if error.Some? then Raised(error.value, None) else Raised(reason, Some(Denied));
    }

    /** A parsed directive: denied, or run and recorded. */
    method Dispatch(turn: Turn, c: Capability, w: World) returns (r: Outcome, ran: bool)
      requires Valid() && ClockOk(w)
      modifies this
      ensures Valid() && !r.NotADirective?
      ensures r == Dispatched(policy, old(ledger), turn, c, w).outcome
      ensures ran <==> Permitted(policy, turn, w, c, old(ledger))
      ensures history == old(history) + [AttemptOf(policy, old(ledger), turn, c, w)]
      ensures (r.Returned? || (r.Raised? && r.reference.Some?)) <==>
        w.appendError.None? && (turn.internalPersistenceAllowed || (ran && !w.execution.ArchiveHidden?))
    {
      AnswerTellsRecord(policy, ledger, turn, c, w);
      AttemptKeepsHistory(policy, history, turn, c, w);
      ghost var attempt := AttemptOf(policy, ledger, turn, c, w);
      r, ran := Decide(turn, c, w);
      history := history + [attempt];
    }

    /** The branches of a dispatch; `ran` tells whether the operation was started. */
    method Decide(turn: Turn, c: Capability, w: World) returns (r: Outcome, ran: bool)
      modifies this`ledger
      ensures r == Dispatched(policy, old(ledger), turn, c, w).outcome
      ensures ran <==> Permitted(policy, turn, w, c, old(ledger))
      ensures ledger == old(ledger) + Optional(Dispatched(policy, old(ledger), turn, c, w).record)
    {
      var preflight := PreflightReason(policy, turn, w.requestedAgent);
      if preflight.Some? {
        r := Deny(turn, c, preflight.value, w);
        return r, false;
      }
      var refused := Authorize(policy, turn, w, c, ledger);
      if refused.Some? {
        r := Deny(turn, c, refused.value, w);
        return r, false;
      }
      ran := true;
      if w.execution.ArchiveHidden? {
        r := Deny(turn, c, ArchiveNotFound, w);
        return;
      }
      if w.execution.Broken? {
        var error := PersistEvidence(turn, c, Failed, w);
        r := if error.Some? then Raised(error.value, None) else Raised(ExecutionFailed(w.execution.code), Some(Failed));
        return;
      }
      var error := PersistEvidence(turn, c, Completed, w);
      r := if error.Some? then Raised(error.value, None) else Returned;
    }

    /** What is behind the service: its history and the guard's. */
    ghost function Contents(): State
      reads this, limiter
    {
      State(history, limiter.accepted)
    }

    method Guard(turn: Turn, monotonic: real) returns (ok: bool)
      requires Valid() && limiter.clock <= monotonic
      modifies limiter
      ensures Valid() && limiter.clock == monotonic
      ensures ok <==> !GuardFull(old(limiter.accepted), limiter.perUserLimit, turn, monotonic)
      ensures limiter.accepted == WithTime(old(limiter.accepted), Key(turn.tenant, turn.user), monotonic, ok)
    {
      ok := limiter.Consume(turn.tenant, turn.user, monotonic);
    }

    /** The whole invocation is the step `Invoked` of the history. */
    method InvokeIfDirective(turn: Turn, w: World) returns (r: Outcome)
      requires Valid() && limiter.clock <= w.monotonic && ClockOk(w)
      modifies this, limiter
      ensures Valid() && old(limiter.clock) <= limiter.clock <= w.monotonic
      ensures (Contents(), r) == Invoked(policy, limiter.perUserLimit, old(Contents()), turn, w)
    {
      if !w.looksLikeDirective {
        return NotADirective;
      }
      var ok := Guard(turn, w.monotonic);
      if !ok {
        return Raised(DirectiveRateLimited, None);
      }
      if w.parsed.ParseError? {
        return Raised(ParseFailed(w.parsed.code), None);
      }
      if w.parsed.NoDirective? {
        return NotADirective;
      }
      var ran;
      r, ran := Dispatch(turn, w.parsed.capability, w);
    }
  }

  function Optional<T>(x: Option<T>): seq<T> {
    if x.Some? then [x.value] else []
  }

  datatype State = State(history: seq<Attempt>, accepted: map<Key, seq<real>>)

  /** The user has used up the guard's window. */
  predicate GuardFull(accepted: map<Key, seq<real>>, perUserLimit: nat, turn: Turn, monotonic: real) {
    Since(TimesOf(accepted, Key(turn.tenant, turn.user)), monotonic - AbuseLimiter.WINDOW) >= perUserLimit
  }

  /** One invocation: what looks like no directive leaves no trace; a full guard, a parse error and
      a message that is no directive after all leave none in the history. */
  function Invoked(policy: Policy, perUserLimit: nat, s: State, turn: Turn, w: World): (State, Outcome) {
    if !w.looksLikeDirective then (s, NotADirective)
    else
      var ok := !GuardFull(s.accepted, perUserLimit, turn, w.monotonic);
      var s' := s.(accepted := WithTime(s.accepted, Key(turn.tenant, turn.user), w.monotonic, ok));
      if !ok then (s', Raised(DirectiveRateLimited, None))
      else match w.parsed
           case ParseError(code) => (s', Raised(ParseFailed(code), None))
           case NoDirective => (s', NotADirective)
           case Directive(c) =>
             (s'.(history := s.history + [AttemptOf(policy, Records(s.history), turn, c, w)]),
              Dispatched(policy, Records(s.history), turn, c, w).outcome)
  }
}
