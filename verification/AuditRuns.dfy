/** What holds over every serial run of audit invocations, from a service with an empty ledger. */
module AuditRuns {
  import opened Common
  import opened LedgerLimit
  import opened AbuseLimiter
  import opened AuditInvocation

  datatype Call = Call(turn: Turn, world: World)

  const FRESH := State([], map[])

  /** The state after a series of invocations, one after the other. */
  function Serial(policy: Policy, perUserLimit: nat, calls: seq<Call>): State {
    if calls == [] then FRESH
    else
      var last := calls[|calls| - 1];
      Invoked(policy, perUserLimit, Serial(policy, perUserLimit, calls[..|calls| - 1]), last.turn, last.world).0
  }

  lemma OneCallMore(policy: Policy, perUserLimit: nat, calls: seq<Call>, call: Call)
    ensures Serial(policy, perUserLimit, calls + [call])
      == Invoked(policy, perUserLimit, Serial(policy, perUserLimit, calls), call.turn, call.world).0
  {
    assert (calls + [call])[..|calls|] == calls;
  }

  /** Within each invocation the wall clock does not go back. */
  predicate Timely(calls: seq<Call>) {
    forall k :: 0 <= k < |calls| ==> ClockOk(calls[k].world)
  }

  /** The guard's clock does not go back either. */
  predicate Monotone(calls: seq<Call>) {
    forall j, k :: 0 <= j < k < |calls| ==> calls[j].world.monotonic <= calls[k].world.monotonic
  }

  // ---------------------------------------------------------------- the ledger's limit

  lemma InvokedKeepsGoverned(policy: Policy, perUserLimit: nat, s: State, turn: Turn, w: World)
    requires Governed(s.history, policy.limits) && ClockOk(w)
    ensures Governed(Invoked(policy, perUserLimit, s, turn, w).0.history, policy.limits)
  {
    if w.parsed.Directive? {
      AttemptKeepsHistory(policy, s.history, turn, w.parsed.capability, w);
    }
  }

  lemma {:induction false} SerialIsGoverned(policy: Policy, perUserLimit: nat, calls: seq<Call>)
    requires Timely(calls)
    ensures Governed(Serial(policy, perUserLimit, calls).history, policy.limits)
  {
    if calls == [] {
    } else {
      var front, last := calls[..|calls| - 1], calls[|calls| - 1];
      SerialIsGoverned(policy, perUserLimit, front);
      InvokedKeepsGoverned(policy, perUserLimit, Serial(policy, perUserLimit, front), last.turn, last.world);
    }
  }

  // ---------------------------------------------------------------- calls that escape the limit

  /** The operation runs, if the ledger is empty. */
  predicate RunsAtFirst(policy: Policy, call: Call) {
    && call.world.looksLikeDirective && call.world.parsed.Directive?
    && Permitted(policy, call.turn, call.world, call.world.parsed.capability, [])
  }

  /** An operation that runs leaves no record: the append fails, or the archive turns out hidden in
      a turn that may not persist a denial. */
  predicate LeavesNoRecord(call: Call) {
    || call.world.appendError.Some?
    || (call.world.execution.ArchiveHidden? && !call.turn.internalPersistenceAllowed)
  }

  predicate Escapes(policy: Policy, call: Call) {
    RunsAtFirst(policy, call) && LeavesNoRecord(call)
  }

  /** What is permitted on any ledger is permitted on the empty one, and to every user. */
  lemma PermittedAtFirst(policy: Policy, turn: Turn, w: World, c: Capability, ledger: seq<Record>, user: string)
    requires Permitted(policy, turn, w, c, ledger)
    ensures Permitted(policy, turn.(user := user), w, c, [])
  {
    PermittedWasChecked(policy, turn, w, c, ledger);
    assert RateCheck([], policy.limits, turn.tenant, user, c, w.checkedAt);
  }

  /** The attempt of an escaping call. */
  function Escaped(call: Call): Attempt
    requires call.world.parsed.Directive?
  {
    Attempt(call.turn.tenant, call.turn.user, call.world.parsed.capability, call.world.monotonic,
            Some(OpRun(call.world.checkedAt, call.world.ranAt)), None)
  }

  /** On every ledger, an operation that runs and leaves no record is that of an escaping call. */
  lemma LostIsEscaped(policy: Policy, ledger: seq<Record>, call: Call)
    requires call.world.looksLikeDirective && call.world.parsed.Directive?
    ensures var a := AttemptOf(policy, ledger, call.turn, call.world.parsed.capability, call.world);
      a.run.Some? && a.record.None? ==> Escapes(policy, call) && a == Escaped(call)
  {
    var c := call.world.parsed.capability;
    RecordExactlyWhen(policy, ledger, call.turn, c, call.world);
    if Permitted(policy, call.turn, call.world, c, ledger) {
      PermittedAtFirst(policy, call.turn, call.world, c, ledger, call.turn.user);
    }
  }

  /** An invocation adds its attempt to the history, or nothing. */
  lemma InvokedHistory(policy: Policy, perUserLimit: nat, s: State, turn: Turn, w: World)
    ensures var h := Invoked(policy, perUserLimit, s, turn, w).0.history;
      || h == s.history
      || (&& w.looksLikeDirective && w.parsed.Directive?
          && h == s.history + [AttemptOf(policy, Records(s.history), turn, w.parsed.capability, w)])
  {}

  /** The call escapes, and would run in this scope and window. */
  predicate EscapesIn(policy: Policy, call: Call, s: Scope, from: int) {
    Escapes(policy, call) && RanIn(Escaped(call), s, from)
  }

  function EscapeCount(policy: Policy, calls: seq<Call>, s: Scope, from: int): nat {
    if calls == [] then 0
    else
      var last := calls[|calls| - 1];
      EscapeCount(policy, calls[..|calls| - 1], s, from) + if EscapesIn(policy, last, s, from) then 1 else 0
  }

  lemma LostMore(history: seq<Attempt>, a: Attempt, s: Scope, from: int)
    ensures LostCount(history + [a], s, from) == LostCount(history, s, from)
      + if RanIn(a, s, from) && a.record.None? then 1 else 0
  {
    assert (history + [a])[..|history|] == history;
  }

  lemma {:induction false} LostAreEscapes(policy: Policy, perUserLimit: nat, calls: seq<Call>, s: Scope, from: int)
    ensures LostCount(Serial(policy, perUserLimit, calls).history, s, from) <= EscapeCount(policy, calls, s, from)
  {
    if calls == [] {
    } else {
      var front, last := calls[..|calls| - 1], calls[|calls| - 1];
      var st := Serial(policy, perUserLimit, front);
      LostAreEscapes(policy, perUserLimit, front, s, from);
      InvokedHistory(policy, perUserLimit, st, last.turn, last.world);
      if last.world.looksLikeDirective && last.world.parsed.Directive? {
        var a := AttemptOf(policy, Records(st.history), last.turn, last.world.parsed.capability, last.world);
        LostIsEscaped(policy, Records(st.history), last);
        LostMore(st.history, a, s, from);
      }
    }
  }

  /** Over every serial run, every window and both scopes: the operations that run are at most the
      limit and the escaping calls. */
  lemma OperationsAreLimited(policy: Policy, perUserLimit: nat, calls: seq<Call>, s: Scope, from: int)
    requires Timely(calls)
    ensures RunCount(Serial(policy, perUserLimit, calls).history, s, from)
      <= LimitOf(policy.limits, s) + EscapeCount(policy, calls, s, from)
  {
    SerialIsGoverned(policy, perUserLimit, calls);
    WindowBound(Serial(policy, perUserLimit, calls).history, policy.limits, s, from);
    LostAreEscapes(policy, perUserLimit, calls, s, from);
  }

  lemma {:induction false} NoEscapesNoCount(policy: Policy, calls: seq<Call>, s: Scope, from: int)
    requires forall k :: 0 <= k < |calls| ==> !Escapes(policy, calls[k])
    ensures EscapeCount(policy, calls, s, from) == 0
  {
    if calls == [] {
    } else {
      NoEscapesNoCount(policy, calls[..|calls| - 1], s, from);
    }
  }

  /** Every serial run without an escaping call keeps the limit, in every window and both scopes. */
  lemma LimitHoldsWithoutEscapes(policy: Policy, perUserLimit: nat, calls: seq<Call>, s: Scope, from: int)
    requires Timely(calls) && forall k :: 0 <= k < |calls| ==> !Escapes(policy, calls[k])
    ensures RunCount(Serial(policy, perUserLimit, calls).history, s, from) <= LimitOf(policy.limits, s)
  {
    OperationsAreLimited(policy, perUserLimit, calls, s, from);
    NoEscapesNoCount(policy, calls, s, from);
  }

  // ---------------------------------------------------------------- one escaping call

  lemma EscapingAttempt(policy: Policy, call: Call)
    requires Escapes(policy, call)
    ensures AttemptOf(policy, [], call.turn, call.world.parsed.capability, call.world) == Escaped(call)
  {
    RecordExactlyWhen(policy, [], call.turn, call.world.parsed.capability, call.world);
  }

  /** What such a call does while the ledger is empty and the guard lets it through. */
  lemma EscapingStep(policy: Policy, perUserLimit: nat, s: State, call: Call)
    requires Escapes(policy, call) && Records(s.history) == []
    requires !GuardFull(s.accepted, perUserLimit, call.turn, call.world.monotonic)
    ensures Invoked(policy, perUserLimit, s, call.turn, call.world).0
      == State(s.history + [Escaped(call)],
               WithTime(s.accepted, Key(call.turn.tenant, call.turn.user), call.world.monotonic, true))
    ensures Records(s.history + [Escaped(call)]) == []
  {
    EscapingAttempt(policy, call);
    RecordsMore(s.history, Escaped(call));
  }

  lemma RunCountMore(history: seq<Attempt>, a: Attempt, s: Scope, from: int)
    ensures RunCount(history + [a], s, from) == RunCount(history, s, from) + if RanIn(a, s, from) then 1 else 0
  {
    assert (history + [a])[..|history|] == history;
  }

  // ---------------------------------------------------------------- many users

  /** The k-th of any number of different users. */
  function UserName(k: nat): string {
    seq(k, _ => 'u')
  }

  function ByUser(call: Call, k: nat): Call {
    call.(turn := call.turn.(user := UserName(k)))
  }

  /** The same call by `n` different users. */
  function Crowd(call: Call, n: nat): seq<Call> {
    seq(n, k requires 0 <= k < n => ByUser(call, k))
  }

  function TenantScope(call: Call): Scope
    requires call.world.parsed.Directive?
  {
    Scope(call.turn.tenant, "", call.world.parsed.capability, true)
  }

  /** Whether a call escapes does not depend on the user. */
  lemma EscapesByUser(policy: Policy, call: Call, k: nat)
    ensures Escapes(policy, ByUser(call, k)) <==> Escapes(policy, call)
  {
    var other := ByUser(call, k);
    if RunsAtFirst(policy, call) {
      PermittedAtFirst(policy, call.turn, call.world, call.world.parsed.capability, [], UserName(k));
    }
    if RunsAtFirst(policy, other) {
      PermittedAtFirst(policy, other.turn, other.world, other.world.parsed.capability, [], call.turn.user);
      assert other.turn.(user := call.turn.user) == call.turn;
    }
  }

  /** After a crowd no ledger record is there, and the next user's guard is still empty. */
  ghost predicate CrowdState(call: Call, n: nat, s: State)
    requires call.world.parsed.Directive?
  {
    && Records(s.history) == []
    && RunCount(s.history, TenantScope(call), call.world.ranAt) == n
    && forall k :: k >= n ==> Key(call.turn.tenant, UserName(k)) !in s.accepted
  }

  lemma CrowdGrows(policy: Policy, perUserLimit: nat, call: Call, n: nat, s: State)
    requires Escapes(policy, call) && perUserLimit >= 1 && CrowdState(call, n, s)
    ensures var next := ByUser(call, n);
      CrowdState(call, n + 1, Invoked(policy, perUserLimit, s, next.turn, next.world).0)
  {
    var next := ByUser(call, n);
    EscapesByUser(policy, call, n);
    EscapingStep(policy, perUserLimit, s, next);
    RunCountMore(s.history, Escaped(next), TenantScope(call), call.world.ranAt);
    NamesDiffer(call.turn.tenant, n);
  }

  lemma NamesDiffer(tenant: string, n: nat)
    ensures forall k :: k >= n + 1 ==> Key(tenant, UserName(k)) != Key(tenant, UserName(n))
  {
    forall k | k >= n + 1 ensures Key(tenant, UserName(k)) != Key(tenant, UserName(n)) {
      assert |UserName(k)| == k && |UserName(n)| == n;
    }
  }

  lemma {:induction false} CrowdRuns(policy: Policy, perUserLimit: nat, call: Call, n: nat)
    requires Escapes(policy, call) && perUserLimit >= 1
    ensures CrowdState(call, n, Serial(policy, perUserLimit, Crowd(call, n)))
  {
    if n == 0 {
    } else {
      CrowdRuns(policy, perUserLimit, call, n - 1);
      assert Crowd(call, n) == Crowd(call, n - 1) + [ByUser(call, n - 1)];
      OneCallMore(policy, perUserLimit, Crowd(call, n - 1), ByUser(call, n - 1));
      CrowdGrows(policy, perUserLimit, call, n - 1, Serial(policy, perUserLimit, Crowd(call, n - 1)));
    }
  }

  /** Whatever the limits, any number of operations of one tenant run at one instant, one by each of
      as many users, if the call escapes. */
  lemma EscapesLiftTheLimit(policy: Policy, perUserLimit: nat, call: Call, n: nat)
    requires Escapes(policy, call) && perUserLimit >= 1
    ensures var history := Serial(policy, perUserLimit, Crowd(call, n)).history;
      RunCount(history, TenantScope(call), call.world.ranAt) == n && Records(history) == []
  {
    CrowdRuns(policy, perUserLimit, call, n);
  }

  ghost predicate CrowdsAreLimited(policy: Policy, perUserLimit: nat, call: Call)
    requires call.world.parsed.Directive?
  {
    forall n: nat, from: int :: CrowdIsLimited(policy, perUserLimit, call, n, from)
  }

  ghost predicate CrowdIsLimited(policy: Policy, perUserLimit: nat, call: Call, n: nat, from: int)
    requires call.world.parsed.Directive?
  {
    RunCount(Serial(policy, perUserLimit, Crowd(call, n)).history, TenantScope(call), from) <= policy.limits.tenant
  }

  /** "No more operations run in a minute than the limit" is false, and exactly for these calls: the
      tenant limit holds for every number of users making a call at once if and only if the call
      does not escape. */
  lemma TenantLimitHoldsExactlyWhen(policy: Policy, perUserLimit: nat, call: Call)
    requires perUserLimit >= 1 && ClockOk(call.world) && call.world.parsed.Directive?
    ensures CrowdsAreLimited(policy, perUserLimit, call) <==> !Escapes(policy, call)
  {
    if Escapes(policy, call) {
      EscapesLiftTheLimit(policy, perUserLimit, call, policy.limits.tenant + 1);
      assert !CrowdIsLimited(policy, perUserLimit, call, policy.limits.tenant + 1, call.world.ranAt);
    } else {
      forall n: nat, from: int ensures CrowdIsLimited(policy, perUserLimit, call, n, from) {
        forall k | 0 <= k < n ensures !Escapes(policy, Crowd(call, n)[k]) {
          EscapesByUser(policy, call, k);
        }
        LimitHoldsWithoutEscapes(policy, perUserLimit, Crowd(call, n), TenantScope(call), from);
      }
    }
  }

  // ---------------------------------------------------------------- one user

  function UserScope(call: Call): Scope
    requires call.world.parsed.Directive?
  {
    Scope(call.turn.tenant, call.turn.user, call.world.parsed.capability, false)
  }

  function Same(call: Call, n: nat): seq<Call> {
    seq(n, _ => call)
  }

  /** The guard's times after `n` calls at one instant. */
  function Instants(t: real, n: nat): (times: seq<real>)
    ensures Since(times, t - AbuseLimiter.WINDOW) == n
  {
    if n == 0 then []
    else
      var front := Instants(t, n - 1);
      SinceAppend(front, t, t - AbuseLimiter.WINDOW);
      front + [t]
  }

  ghost predicate SameState(call: Call, n: nat, s: State)
    requires call.world.parsed.Directive?
  {
    && Records(s.history) == []
    && RunCount(s.history, UserScope(call), call.world.ranAt) == n
    && TimesOf(s.accepted, Key(call.turn.tenant, call.turn.user)) == Instants(call.world.monotonic, n)
  }

  lemma SameGrows(policy: Policy, perUserLimit: nat, call: Call, n: nat, s: State)
    requires Escapes(policy, call) && n < perUserLimit && SameState(call, n, s)
    ensures SameState(call, n + 1, Invoked(policy, perUserLimit, s, call.turn, call.world).0)
  {
    EscapingStep(policy, perUserLimit, s, call);
    RunCountMore(s.history, Escaped(call), UserScope(call), call.world.ranAt);
  }

  /** One user runs as many operations at one instant as the guard lets through, if the call
      escapes. */
  lemma {:induction false} EscapesLiftTheUserLimit(policy: Policy, perUserLimit: nat, call: Call, n: nat)
    requires Escapes(policy, call) && n <= perUserLimit
    ensures SameState(call, n, Serial(policy, perUserLimit, Same(call, n)))
  {
    if n == 0 {
    } else {
      EscapesLiftTheUserLimit(policy, perUserLimit, call, n - 1);
      assert Same(call, n) == Same(call, n - 1) + [call];
      OneCallMore(policy, perUserLimit, Same(call, n - 1), call);
      SameGrows(policy, perUserLimit, call, n - 1, Serial(policy, perUserLimit, Same(call, n - 1)));
    }
  }

  // ---------------------------------------------------------------- the two ways to escape

  const SOME_POLICY := Policy(true, {ArchiveInspect}, {CANONICAL_AGENT}, {"tenant"}, {"test"}, "test",
                              Limits(4, 20), (s: string) => s)

  function SomeTurn(persistence: bool): Turn {
    Turn("tenant", "user", DirectAgent, ChatJson, true, CANONICAL_AGENT, CANONICAL_AGENT, true, false, persistence)
  }

  function SomeWorld(execution: Execution, appendError: Option<string>): World {
    World(true, Directive(ArchiveInspect), Some(CANONICAL_AGENT), true, 0.0, 0, true, 0, execution, appendError, 0)
  }

  /** An ordinary policy, and two calls that escape it: one whose record cannot be written, and one
      for a hidden archive in a turn without internal persistence, with every append working. */
  lemma BothWaysEscape()
    ensures Escapes(SOME_POLICY, Call(SomeTurn(true), SomeWorld(Done, Some("down"))))
    ensures Escapes(SOME_POLICY, Call(SomeTurn(false), SomeWorld(ArchiveHidden, None)))
  {}

  // ---------------------------------------------------------------- the guard's limit

  predicate ArrivesIn(a: Attempt, key: Key, from: real) {
    a.tenant == key.tenant && a.user == key.user && from < a.arrivedAt <= from + AbuseLimiter.WINDOW
  }

  /** Parsed directives of one user that arrived in the half-open guard window after `from`. */
  function ArrivedIn(history: seq<Attempt>, key: Key, from: real): nat {
    if history == [] then 0
    else
      var last := history[|history| - 1];
      ArrivedIn(history[..|history| - 1], key, from)
      + if ArrivesIn(last, key, from) then 1 else 0
  }

  /** What the guard keeps about one user. */
  ghost predicate TimesOk(times: seq<real>, perUserLimit: nat, clock: real) {
    Ordered(times) && Spaced(times, perUserLimit) && forall k :: 0 <= k < |times| ==> times[k] <= clock
  }

  /** Every arrival was let through by the guard at its time. */
  ghost predicate Admitted(history: seq<Attempt>, key: Key, times: seq<real>) {
    forall from :: ArrivedIn(history, key, from) <= Within(times, from, from + AbuseLimiter.WINDOW)
  }

  ghost predicate GuardOk(s: State, perUserLimit: nat, clock: real, key: Key) {
    TimesOk(TimesOf(s.accepted, key), perUserLimit, clock) && Admitted(s.history, key, TimesOf(s.accepted, key))
  }

  lemma WithinMore(times: seq<real>, t: real, from: real, to: real)
    ensures Within(times + [t], from, to) == Within(times, from, to) + if from < t <= to then 1 else 0
  {
    assert (times + [t])[..|times|] == times;
  }

  lemma ArrivedMore(history: seq<Attempt>, a: Attempt, key: Key, from: real)
    ensures ArrivedIn(history + [a], key, from) == ArrivedIn(history, key, from)
      + if ArrivesIn(a, key, from) then 1 else 0
  {
    assert (history + [a])[..|history|] == history;
  }

  lemma TimesGoOn(times: seq<real>, perUserLimit: nat, clock: real, now: real)
    requires perUserLimit >= 1 && clock <= now && TimesOk(times, perUserLimit, clock)
    ensures TimesOk(times, perUserLimit, now)
    ensures Since(times, now - AbuseLimiter.WINDOW) < perUserLimit ==> TimesOk(times + [now], perUserLimit, now)
  {
    if Since(times, now - AbuseLimiter.WINDOW) < perUserLimit {
      KeepsSpacing(times, now, perUserLimit);
    }
  }

  lemma AdmittedMore(history: seq<Attempt>, key: Key, times: seq<real>, now: real)
    requires Admitted(history, key, times)
    ensures Admitted(history, key, times + [now])
  {
    forall from ensures ArrivedIn(history, key, from) <= Within(times + [now], from, from + AbuseLimiter.WINDOW) {
      WithinMore(times, now, from, from + AbuseLimiter.WINDOW);
    }
  }

  lemma ArrivalAdmitted(history: seq<Attempt>, a: Attempt, key: Key, times: seq<real>)
    requires Admitted(history, key, times)
    ensures Key(a.tenant, a.user) == key ==> Admitted(history + [a], key, times + [a.arrivedAt])
    ensures Key(a.tenant, a.user) != key ==> Admitted(history + [a], key, times)
  {
    if Key(a.tenant, a.user) == key {
      var more := times + [a.arrivedAt];
      forall from ensures ArrivedIn(history + [a], key, from) <= Within(more, from, from + AbuseLimiter.WINDOW) {
        ArrivedMore(history, a, key, from);
        WithinMore(times, a.arrivedAt, from, from + AbuseLimiter.WINDOW);
      }
    } else {
      forall from ensures ArrivedIn(history + [a], key, from) <= Within(times, from, from + AbuseLimiter.WINDOW) {
        ArrivedMore(history, a, key, from);
      }
    }
  }

  /** What an invocation does to the guard's times and to the history. */
  lemma InvokedParts(policy: Policy, perUserLimit: nat, s: State, turn: Turn, w: World, key: Key)
    ensures var s' := Invoked(policy, perUserLimit, s, turn, w).0;
      var ok := w.looksLikeDirective && !GuardFull(s.accepted, perUserLimit, turn, w.monotonic);
      var mine := key == Key(turn.tenant, turn.user);
      && TimesOf(s'.accepted, key) == TimesOf(s.accepted, key) + (if ok && mine then [w.monotonic] else [])
      && s'.history == s.history + (if ok && w.parsed.Directive?
           then [AttemptOf(policy, Records(s.history), turn, w.parsed.capability, w)] else [])
  {}

  lemma InvokedKeepsGuard(policy: Policy, perUserLimit: nat, s: State, turn: Turn, w: World, clock: real, key: Key)
    requires perUserLimit >= 1 && clock <= w.monotonic && GuardOk(s, perUserLimit, clock, key)
    ensures GuardOk(Invoked(policy, perUserLimit, s, turn, w).0, perUserLimit, w.monotonic, key)
  {
    var times, now := TimesOf(s.accepted, key), w.monotonic;
    InvokedParts(policy, perUserLimit, s, turn, w, key);
    TimesGoOn(times, perUserLimit, clock, now);
    assert times + [] == times && s.history + [] == s.history;
    if w.looksLikeDirective && !GuardFull(s.accepted, perUserLimit, turn, now) {
      if w.parsed.Directive? {
        ArrivalAdmitted(s.history, AttemptOf(policy, Records(s.history), turn, w.parsed.capability, w), key, times);
      } else {
        AdmittedMore(s.history, key, times, now);
      }
    }
  }

  lemma {:induction false} SerialKeepsGuard(policy: Policy, perUserLimit: nat, calls: seq<Call>, key: Key, clock: real)
    requires perUserLimit >= 1 && Monotone(calls)
    requires forall k :: 0 <= k < |calls| ==> calls[k].world.monotonic <= clock
    ensures GuardOk(Serial(policy, perUserLimit, calls), perUserLimit, clock, key)
  {
    if calls == [] {
    } else {
      var front, last := calls[..|calls| - 1], calls[|calls| - 1];
      SerialKeepsGuard(policy, perUserLimit, front, key, last.world.monotonic);
      InvokedKeepsGuard(policy, perUserLimit, Serial(policy, perUserLimit, front), last.turn, last.world,
                        last.world.monotonic, key);
    }
  }

  /** Even without a single record the guard holds: over every serial run with a monotone clock, in
      any half-open guard window one user gets no more directives through to dispatch, run or
      denied, than the guard's own limit. */
  lemma GuardLimitsEveryUser(policy: Policy, perUserLimit: nat, calls: seq<Call>, key: Key, from: real)
    requires perUserLimit >= 1 && Monotone(calls)
    ensures ArrivedIn(Serial(policy, perUserLimit, calls).history, key, from) <= perUserLimit
  {
    var clock := if calls == [] then 0.0 else calls[|calls| - 1].world.monotonic;
    var s := Serial(policy, perUserLimit, calls);
    SerialKeepsGuard(policy, perUserLimit, calls, key, clock);
    SpacedMeansBounded(TimesOf(s.accepted, key), from, perUserLimit);
  }

  // ---------------------------------------------------------------- the user limit, exactly

  /** Every attempt was made by this user at this instant. */
  predicate AllAt(history: seq<Attempt>, key: Key, t: real) {
    forall k :: 0 <= k < |history| ==>
      history[k].tenant == key.tenant && history[k].user == key.user && history[k].arrivedAt == t
  }

  lemma {:induction false} RunsHaveArrived(history: seq<Attempt>, key: Key, t: real, s: Scope, from: int)
    requires AllAt(history, key, t)
    ensures RunCount(history, s, from) <= ArrivedIn(history, key, t - AbuseLimiter.WINDOW)
  {
    if history == [] {
    } else {
      RunsHaveArrived(history[..|history| - 1], key, t, s, from);
    }
  }

  lemma {:induction false} SameAreAllAt(policy: Policy, perUserLimit: nat, call: Call, n: nat)
    ensures AllAt(Serial(policy, perUserLimit, Same(call, n)).history,
                  Key(call.turn.tenant, call.turn.user), call.world.monotonic)
  {
    if n == 0 {
    } else {
      SameAreAllAt(policy, perUserLimit, call, n - 1);
      assert Same(call, n) == Same(call, n - 1) + [call];
      OneCallMore(policy, perUserLimit, Same(call, n - 1), call);
      InvokedHistory(policy, perUserLimit, Serial(policy, perUserLimit, Same(call, n - 1)), call.turn, call.world);
    }
  }

  ghost predicate UserIsLimited(policy: Policy, perUserLimit: nat, call: Call, n: nat, from: int)
    requires call.world.parsed.Directive?
  {
    RunCount(Serial(policy, perUserLimit, Same(call, n)).history, UserScope(call), from) <= policy.limits.user
  }

  ghost predicate RepeatsAreLimited(policy: Policy, perUserLimit: nat, call: Call)
    requires call.world.parsed.Directive?
  {
    forall n: nat, from: int :: UserIsLimited(policy, perUserLimit, call, n, from)
  }

  /** The user limit holds for every number of repeats of a call at one instant if and only if the
      call does not escape or the guard is no wider than the limit. */
  lemma UserLimitHoldsExactlyWhen(policy: Policy, perUserLimit: nat, call: Call)
    requires perUserLimit >= 1 && ClockOk(call.world) && call.world.parsed.Directive?
    ensures RepeatsAreLimited(policy, perUserLimit, call) <==>
      !Escapes(policy, call) || perUserLimit <= policy.limits.user
  {
    var n := policy.limits.user + 1;
    if !Escapes(policy, call) {
      forall n: nat, from: int ensures UserIsLimited(policy, perUserLimit, call, n, from) {
        LimitHoldsWithoutEscapes(policy, perUserLimit, Same(call, n), UserScope(call), from);
      }
    } else if perUserLimit <= policy.limits.user {
      var key, t := Key(call.turn.tenant, call.turn.user), call.world.monotonic;
      forall n: nat, from: int ensures UserIsLimited(policy, perUserLimit, call, n, from) {
        SameAreAllAt(policy, perUserLimit, call, n);
        RunsHaveArrived(Serial(policy, perUserLimit, Same(call, n)).history, key, t, UserScope(call), from);
        GuardLimitsEveryUser(policy, perUserLimit, Same(call, n), key, t - AbuseLimiter.WINDOW);
      }
    } else {
      EscapesLiftTheUserLimit(policy, perUserLimit, call, n);
      assert !UserIsLimited(policy, perUserLimit, call, n, call.world.ranAt);
    }
  }
}
