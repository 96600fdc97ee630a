/** The rate limit that counts the very ledger governed invocations write to. Times are in
    microseconds. */
module LedgerLimit {
  import opened Common

  const WINDOW := 60_000_000

  datatype Capability = FileInspect | ArchiveInspect | RuntimeFileSha256 | RuntimeSearchMarker

  datatype Status = Completed | Failed | Denied

  datatype Record = Record(tenant: string, user: string, capability: Capability, status: Status, createdAt: int)

  /** Who is counted together: one user of a tenant, or the whole tenant. */
  datatype Scope = Scope(tenant: string, user: string, capability: Capability, wholeTenant: bool)

  predicate Covers(s: Scope, r: Record) {
    && r.tenant == s.tenant && r.capability == s.capability
    && (s.wholeTenant || r.user == s.user)
  }

  /** Records of any status in the window that starts at `cutoff`. */
  function Count(ledger: seq<Record>, s: Scope, cutoff: int): nat {
    if ledger == [] then 0
    else
      var r := ledger[|ledger| - 1];
      Count(ledger[..|ledger| - 1], s, cutoff) + if Covers(s, r) && r.createdAt >= cutoff then 1 else 0
  }

  datatype Limits = Limits(user: nat, tenant: nat)

  function LimitOf(limits: Limits, s: Scope): nat {
    if s.wholeTenant then limits.tenant else limits.user
  }

  function RateCheck(ledger: seq<Record>, limits: Limits, tenant: string, user: string, capability: Capability,
      now: int): bool {
    && Count(ledger, Scope(tenant, user, capability, false), now - WINDOW) < limits.user
    && Count(ledger, Scope(tenant, user, capability, true), now - WINDOW) < limits.tenant
  }

  // ---------------------------------------------------------------- attempts

  /** When the check let an operation through, and when the operation ran. */
  datatype OpRun = OpRun(checkedAt: int, ranAt: int)

  /** One parsed directive: whether its operation ran, and the record it left, if any. */
  datatype Attempt = Attempt(
    tenant: string,
    user: string,
    capability: Capability,
    arrivedAt: real,          // on the guard's own clock
    run: Option<OpRun>,
    record: Option<Record>
  )

  /** The ledger: the records of the attempts, in order. */
  function Records(history: seq<Attempt>): seq<Record> {
    if history == [] then []
    else
      var last := history[|history| - 1];
      Records(history[..|history| - 1]) + if last.record.Some? then [last.record.value] else []
  }

  /** The record is the attempt's own, and the clock moved on from check to run to record. */
  predicate Sound(a: Attempt) {
    && (a.record.Some? ==>
          a.record.value.tenant == a.tenant && a.record.value.user == a.user
          && a.record.value.capability == a.capability)
    && (a.run.Some? ==> a.run.value.checkedAt <= a.run.value.ranAt)
    && (a.run.Some? && a.record.Some? ==> a.run.value.ranAt <= a.record.value.createdAt)
  }

  ghost predicate Governs(history: seq<Attempt>, limits: Limits, k: nat)
    requires k < |history|
  {
    var a := history[k];
    && Sound(a)
    && (a.run.Some? ==> RateCheck(Records(history[..k]), limits, a.tenant, a.user, a.capability, a.run.value.checkedAt))
  }

  /** Every operation that ran was let through by a check of the ledger as it then was. */
  ghost predicate Governed(history: seq<Attempt>, limits: Limits) {
    forall k :: 0 <= k < |history| ==> Governs(history, limits, k)
  }

  lemma GovernedMore(history: seq<Attempt>, limits: Limits, a: Attempt)
    requires Governed(history, limits) && Sound(a)
    requires a.run.Some? ==>
      RateCheck(Records(history), limits, a.tenant, a.user, a.capability, a.run.value.checkedAt)
    ensures Governed(history + [a], limits)
  {
    var more := history + [a];
    forall k | 0 <= k < |more| ensures Governs(more, limits, k) {
      assert k < |history| ==> Governs(history, limits, k);
      assert more[..k] == history[..k];
    }
  }

  lemma RecordsMore(history: seq<Attempt>, a: Attempt)
    ensures Records(history + [a]) == Records(history) + if a.record.Some? then [a.record.value] else []
  {
    assert (history + [a])[..|history|] == history;
  }

  // ---------------------------------------------------------------- what the check guarantees

  predicate InScope(s: Scope, a: Attempt) {
    && a.tenant == s.tenant && a.capability == s.capability
    && (s.wholeTenant || a.user == s.user)
  }

  /** The operation of this attempt ran in the closed window that starts at `from`. */
  predicate RanIn(a: Attempt, s: Scope, from: int) {
    InScope(s, a) && a.run.Some? && from <= a.run.value.ranAt <= from + WINDOW
  }

  function RunCount(history: seq<Attempt>, s: Scope, from: int): nat {
    if history == [] then 0
    else
      RunCount(history[..|history| - 1], s, from) + if RanIn(history[|history| - 1], s, from) then 1 else 0
  }

  /** Those of them that left no record. */
  function LostCount(history: seq<Attempt>, s: Scope, from: int): nat {
    if history == [] then 0
    else
      var last := history[|history| - 1];
      LostCount(history[..|history| - 1], s, from) + if RanIn(last, s, from) && last.record.None? then 1 else 0
  }

  lemma {:induction false} CountMore(ledger: seq<Record>, r: Record, s: Scope, cutoff: int)
    ensures Count(ledger + [r], s, cutoff)
      == Count(ledger, s, cutoff) + if Covers(s, r) && r.createdAt >= cutoff then 1 else 0
  {
    assert (ledger + [r])[..|ledger|] == ledger;
  }

  lemma EarlierGoverned(history: seq<Attempt>, limits: Limits)
    requires history != [] && Governed(history, limits)
    ensures Governed(history[..|history| - 1], limits)
  {
    var n := |history| - 1;
    forall k | 0 <= k < n ensures Governs(history[..n], limits, k) {
      assert Governs(history, limits, k);
      assert history[..n][..k] == history[..k];
    }
  }

  /** A check sees every run of its window that left a record. */
  lemma {:induction false} RunsAreCounted(history: seq<Attempt>, limits: Limits, s: Scope, from: int, cutoff: int)
    requires Governed(history, limits) && cutoff <= from
    ensures RunCount(history, s, from) <= Count(Records(history), s, cutoff) + LostCount(history, s, from)
  {
    if history == [] {
    } else {
      var n := |history| - 1;
      EarlierGoverned(history, limits);
      RunsAreCounted(history[..n], limits, s, from, cutoff);
      assert Governs(history, limits, n);
      if history[n].record.Some? {
        CountMore(Records(history[..n]), history[n].record.value, s, cutoff);
      } else {
        assert Records(history) == Records(history[..n]);
      }
    }
  }

  /** What the check sees does not depend on which user of the scope asks. */
  lemma {:induction false} CountByScope(ledger: seq<Record>, s: Scope, user: string, cutoff: int)
    requires s.wholeTenant || user == s.user
    ensures Count(ledger, Scope(s.tenant, user, s.capability, s.wholeTenant), cutoff) == Count(ledger, s, cutoff)
  {
    if ledger == [] {
    } else {
      CountByScope(ledger[..|ledger| - 1], s, user, cutoff);
    }
  }

  /** In no closed window of a minute do more operations run than the limit, plus those whose record
      could not be written: of one user of a capability against the user limit, of a whole tenant
      against the tenant limit. */
  lemma {:induction false} WindowBound(history: seq<Attempt>, limits: Limits, s: Scope, from: int)
    requires Governed(history, limits)
    ensures RunCount(history, s, from) <= LimitOf(limits, s) + LostCount(history, s, from)
  {
    if history == [] {
    } else {
      var n := |history| - 1;
      var a := history[n];
      EarlierGoverned(history, limits);
      if RanIn(a, s, from) {
        assert Governs(history, limits, n);
        var cutoff := a.run.value.checkedAt - WINDOW;
        CountByScope(Records(history[..n]), s, a.user, cutoff);
        RunsAreCounted(history[..n], limits, s, from, cutoff);
      } else {
        WindowBound(history[..n], limits, s, from);
      }
    }
  }

  /** Denied attempts use up the budget too: once the window holds as many records as the limit,
      whatever became of them, the check refuses. */
  lemma DeniedAttemptsCount(ledger: seq<Record>, limits: Limits, tenant: string, user: string, c: Capability,
      now: int, r: Record)
    requires Covers(Scope(tenant, user, c, false), r) && r.createdAt >= now - WINDOW
    requires Count(ledger, Scope(tenant, user, c, false), now - WINDOW) + 1 == limits.user
    ensures !RateCheck(ledger + [r], limits, tenant, user, c, now)
  {
    assert (ledger + [r])[..|ledger|] == ledger;
  }
}
