/** The process-local guard in front of the audit directive parser: a sliding window per user. */
module AbuseLimiter {
  const WINDOW: real := 60.0

  datatype Key = Key(tenant: string, user: string)

  /** How many of the times lie after `cutoff`. */
  function Since(times: seq<real>, cutoff: real): nat {
    if times == [] then 0
    else Since(times[..|times| - 1], cutoff) + if times[|times| - 1] > cutoff then 1 else 0
  }

  /** How many of the times lie after `from` and not after `to`. */
  function Within(times: seq<real>, from: real, to: real): nat {
    if times == [] then 0
    else Within(times[..|times| - 1], from, to) + if from < times[|times| - 1] <= to then 1 else 0
  }

  predicate Ordered(times: seq<real>) {
    forall i, j :: 0 <= i < j < |times| ==> times[i] <= times[j]
  }

  /** Among any `limit + 1` consecutive accepted times a whole window passes. */
  ghost predicate Spaced(times: seq<real>, limit: nat) {
    forall i, j :: 0 <= i && j < |times| && j == i + limit ==> times[i] + WINDOW <= times[j]
  }

  lemma {:induction false} SinceAppend(a: seq<real>, t: real, cutoff: real)
    ensures Since(a + [t], cutoff) == Since(a, cutoff) + if t > cutoff then 1 else 0
  {
    assert (a + [t])[..|a|] == a;
  }

  lemma {:induction false} SinceSplit(dropped: seq<real>, kept: seq<real>, cutoff: real)
    requires forall i :: 0 <= i < |dropped| ==> dropped[i] <= cutoff
    requires forall i :: 0 <= i < |kept| ==> kept[i] > cutoff
    ensures Since(dropped + kept, cutoff) == |kept|
  {
    if dropped == [] && kept == [] {
    } else if kept != [] {
      var n := |kept| - 1;
      SinceSplit(dropped, kept[..n], cutoff);
      SinceAppend(dropped + kept[..n], kept[n], cutoff);
      assert dropped + kept == (dropped + kept[..n]) + [kept[n]];
    } else {
      var n := |dropped| - 1;
      SinceSplit(dropped[..n], [], cutoff);
      SinceAppend(dropped[..n], dropped[n], cutoff);
      assert dropped + kept == dropped[..n] + [dropped[n]] && dropped[..n] + [] == dropped[..n];
    }
  }

  /** Fewer than `limit` times since the cutoff put the last-but-`limit` one before it. */
  lemma {:induction false} FewMeansOld(times: seq<real>, cutoff: real, limit: nat)
    requires Ordered(times) && Since(times, cutoff) < limit <= |times|
    ensures times[|times| - limit] <= cutoff
  {
    var n := |times| - 1;
    if times[n] > cutoff {
      assert limit > 1;
      FewMeansOld(times[..n], cutoff, limit - 1);
    } else {
      assert times[|times| - limit] <= times[n];
    }
  }

  lemma KeepsSpacing(times: seq<real>, now: real, limit: nat)
    requires 1 <= limit && Ordered(times) && Spaced(times, limit)
    requires Since(times, now - WINDOW) < limit
    ensures Spaced(times + [now], limit)
  {
    if limit <= |times| {
      FewMeansOld(times, now - WINDOW, limit);
    }
  }

  /** Every half-open window holds at most `limit` accepted times. */
  lemma {:induction false} SpacedMeansBounded(times: seq<real>, from: real, limit: nat)
    requires 1 <= limit && Ordered(times) && Spaced(times, limit)
    ensures Within(times, from, from + WINDOW) <= limit
  {
    if times == [] {
    } else {
      var n := |times| - 1;
      if from < times[n] <= from + WINDOW {
        OnlyTheLast(times, from, limit);
      } else {
        SpacedMeansBounded(times[..n], from, limit);
      }
    }
  }

  lemma {:induction false} OnlyTheLast(times: seq<real>, from: real, limit: nat)
    requires Ordered(times)
    requires limit < |times| ==> times[|times| - limit - 1] <= from
    ensures Within(times, from, from + WINDOW) <= limit
  {
    if limit == 0 {
      NoneWithin(times, from);
    } else if times == [] {
    } else {
      var n := |times| - 1;
      OnlyTheLast(times[..n], from, limit - 1);
    }
  }

  lemma {:induction false} NoneWithin(times: seq<real>, from: real)
    requires Ordered(times) && (times != [] ==> times[|times| - 1] <= from)
    ensures Within(times, from, from + WINDOW) == 0
  {
    if times == [] {
    } else {
      var n := |times| - 1;
      assert n > 0 ==> times[n - 1] <= times[n];
      NoneWithin(times[..n], from);
    }
  }

  lemma CountIsQueue(all: seq<real>, dropped: nat, now: real)
    requires dropped <= |all| && Ordered(all)
    requires forall i :: 0 <= i < dropped ==> all[i] <= now - WINDOW
    requires dropped < |all| ==> all[dropped] > now - WINDOW
    ensures Since(all, now - WINDOW) == |all| - dropped
  {
    var kept := all[dropped..];
    forall i | 0 <= i < |kept| ensures kept[i] > now - WINDOW {
      assert kept[i] == all[dropped + i] && all[dropped] <= all[dropped + i];
    }
    SinceSplit(all[..dropped], kept, now - WINDOW);
    assert all[..dropped] + kept == all;
  }

  // ---------------------------------------------------------------- one user's queue

  /** What the queue no longer holds is out of every later window. */
  ghost predicate Remembers(all: seq<real>, kept: seq<real>, clock: real, limit: nat) {
    && |kept| <= |all| && kept == all[|all| - |kept|..]
    && (forall i :: 0 <= i < |all| - |kept| ==> all[i] <= clock - WINDOW)
    && (forall i :: 0 <= i < |all| ==> all[i] <= clock)
    && Ordered(all) && Spaced(all, limit)
  }

  lemma LaterClock(all: seq<real>, kept: seq<real>, clock: real, now: real, limit: nat)
    requires clock <= now && Remembers(all, kept, clock, limit)
    ensures Remembers(all, kept, now, limit)
  {}

  /** The loop that drops the times the window has left behind. */
  method Trim(ghost all: seq<real>, pending: seq<real>, ghost clock: real, now: real, ghost limit: nat)
    returns (queue: seq<real>)
    requires Remembers(all, pending, clock, limit) && clock <= now
    ensures Remembers(all, queue, now, limit) && |queue| == Since(all, now - WINDOW)
  {
    queue := pending;
    ghost var dropped := |all| - |queue|;
    while queue != [] && queue[0] <= now - WINDOW
      invariant 0 <= dropped <= |all| && queue == all[dropped..]
      invariant forall i :: 0 <= i < dropped ==> all[i] <= now - WINDOW
      decreases |queue|
    {
      queue := queue[1..];
      dropped := dropped + 1;
    }
    CountIsQueue(all, dropped, now);
  }

  lemma AddTime(all: seq<real>, queue: seq<real>, now: real, limit: nat)
    requires 1 <= limit && Remembers(all, queue, now, limit) && Since(all, now - WINDOW) < limit
    ensures Remembers(all + [now], queue + [now], now, limit)
  {
    KeepsSpacing(all, now, limit);
  }

  method Admit(ghost all: seq<real>, pending: seq<real>, ghost clock: real, now: real, limit: nat)
    returns (ok: bool, queue: seq<real>)
    requires 1 <= limit && Remembers(all, pending, clock, limit) && clock <= now
    ensures ok <==> Since(all, now - WINDOW) < limit
    ensures Remembers(all + if ok then [now] else [], queue, now, limit)
  {
    queue := Trim(all, pending, clock, now, limit);
    ok := |queue| < limit;
    if ok {
      AddTime(all, queue, now, limit);
      queue := queue + [now];
    } else {
      assert all + [] == all;
    }
  }

  function TimesOf(times: map<Key, seq<real>>, key: Key): seq<real> {
    if key in times then times[key] else []
  }

  ghost predicate AllRemember(accepted: map<Key, seq<real>>, events: map<Key, seq<real>>, clock: real, limit: nat) {
    forall key {:trigger Remembers(TimesOf(accepted, key), TimesOf(events, key), clock, limit)} ::
      Remembers(TimesOf(accepted, key), TimesOf(events, key), clock, limit)
  }

  lemma NothingToRemember(clock: real, limit: nat)
    ensures AllRemember(map[], map[], clock, limit)
  {}

  lemma OneKeyMore(accepted: map<Key, seq<real>>, events: map<Key, seq<real>>, key: Key,
    all: seq<real>, queue: seq<real>, clock: real, now: real, limit: nat)
    requires AllRemember(accepted, events, clock, limit) && clock <= now && Remembers(all, queue, now, limit)
    ensures AllRemember(accepted[key := all], events[key := queue], now, limit)
  {
    var accepted', events' := accepted[key := all], events[key := queue];
    forall other ensures Remembers(TimesOf(accepted', other), TimesOf(events', other), now, limit) {
      if other != key {
        assert Remembers(TimesOf(accepted, other), TimesOf(events, other), clock, limit);
        LaterClock(TimesOf(accepted, other), TimesOf(events, other), clock, now, limit);
      }
    }
  }

  /** The history with one more decision of one user. */
  function WithTime(accepted: map<Key, seq<real>>, key: Key, now: real, ok: bool): map<Key, seq<real>> {
    accepted[key := TimesOf(accepted, key) + if ok then [now] else []]
  }

  method AdmitKey(ghost accepted: map<Key, seq<real>>, events: map<Key, seq<real>>, key: Key,
    ghost clock: real, now: real, limit: nat) returns (ok: bool, queue: seq<real>)
    requires 1 <= limit && AllRemember(accepted, events, clock, limit) && clock <= now
    ensures ok <==> Since(TimesOf(accepted, key), now - WINDOW) < limit
    ensures AllRemember(WithTime(accepted, key, now, ok), events[key := queue], now, limit)
  {
    assert Remembers(TimesOf(accepted, key), TimesOf(events, key), clock, limit);
    ok, queue := Admit(TimesOf(accepted, key), TimesOf(events, key), clock, now, limit);
    OneKeyMore(accepted, events, key, TimesOf(accepted, key) + if ok then [now] else [], queue, clock, now, limit);
  }

  class AuditDirectiveAbuseLimiter {
    const perUserLimit: nat
    var events: map<Key, seq<real>>

    /** Every time accepted since the last reset, and the latest clock reading. */
    ghost var accepted: map<Key, seq<real>>
    ghost var clock: real

    ghost function Accepted(key: Key): seq<real>
      reads this
    {
      TimesOf(accepted, key)
    }

    ghost predicate Valid()
      reads this
    {
      perUserLimit >= 1 && AllRemember(accepted, events, clock, perUserLimit)
    }

    constructor (limit: nat)
      requires limit >= 1
      ensures Valid() && perUserLimit == limit && accepted == map[]
    {
      perUserLimit := limit;
      events, accepted, clock := map[], map[], 0.0;
      NothingToRemember(0.0, limit);
    }

    /** Accepts exactly when fewer than the limit were accepted in the preceding window. */
    method Consume(tenant: string, user: string, now: real) returns (ok: bool)
      requires Valid() && clock <= now
      modifies this
      ensures Valid() && clock == now
      ensures ok <==> Since(old(Accepted(Key(tenant, user))), now - WINDOW) < perUserLimit
      ensures accepted == WithTime(old(accepted), Key(tenant, user), now, ok)
    {
      var key := Key(tenant, user);
      var queue;
      ok, queue := AdmitKey(accepted, events, key, clock, now, perUserLimit);
      accepted := WithTime(accepted, key, now, ok);
      events := events[key := queue];
      clock := now;
    }

    method Reset()
      requires Valid()
      modifies this
      ensures Valid() && accepted == map[] && events == map[] && clock == old(clock)
    {
      NothingToRemember(clock, perUserLimit);
      events, accepted := map[], map[];
    }
  }
}
