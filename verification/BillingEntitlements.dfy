/** What the entitlement of an actor says, over whole streams. */
module BillingEntitlements {
  import opened Common
  import opened BillingModel
  import opened BillingLedger
  import opened BillingSteps
  import opened BillingRuns

  // ---------------------------------------------------------------- the reason a row gives

  predicate GivesReason(c: Checkout, a: Actor, reason: Status) {
    c.actor == a && c.kind == Plan && c.status == reason
  }

  ghost predicate HasReason(cs: seq<Checkout>, a: Actor, reason: Status) {
    exists i :: 0 <= i < |cs| && GivesReason(cs[i], a, reason)
  }

  predicate Paying(e: Entitlement) {
    (e.active <==> e.reason == Paid) && e.reason !in {Pending, Failed}
  }

  /** An entitlement is active exactly when its reason is a payment, and its reason is the status of
      some plan of its actor as it stands now. */
  ghost predicate ReasonsHold(cs: seq<Checkout>, ents: map<Actor, Entitlement>) {
    forall a :: a in ents ==> Paying(ents[a]) && HasReason(cs, a, ents[a].reason)
  }

  lemma RewriteKeepsReasons(cs: seq<Checkout>, i: nat, c: Checkout, ents: map<Actor, Entitlement>,
      ents': map<Actor, Entitlement>)
    requires ReasonsHold(cs, ents) && i < |cs| && c.actor == cs[i].actor && c.kind == cs[i].kind
    requires forall a :: a in ents' ==>
      || (Paying(ents'[a]) && GivesReason(c, a, ents'[a].reason))
      || (a in ents && ents'[a] == ents[a] && (c.status == cs[i].status || c.kind != Plan || c.actor != a))
    ensures ReasonsHold(cs[i := c], ents')
  {
    var cs' := cs[i := c];
    forall a | a in ents' ensures Paying(ents'[a]) && HasReason(cs', a, ents'[a].reason) {
      if Paying(ents'[a]) && GivesReason(c, a, ents'[a].reason) {
        assert GivesReason(cs'[i], a, ents'[a].reason);
      } else {
        assert HasReason(cs, a, ents[a].reason);
        var k :| 0 <= k < |cs| && GivesReason(cs[k], a, ents[a].reason);
        assert GivesReason(cs'[k], a, ents'[a].reason);
      }
    }
  }

  lemma ConfirmKeepsReasons(cs: seq<Checkout>, i: nat, c: Checkout, ents: map<Actor, Entitlement>, now: int)
    requires ReasonsHold(cs, ents) && i < |cs| && c.actor == cs[i].actor && c.kind == cs[i].kind
    requires c.status == cs[i].status
    ensures ReasonsHold(cs[i := ConfirmedRow(c, now)], ActivateEntitlement(ents, ConfirmedRow(c, now), now))
  {
    var c' := ConfirmedRow(c, now);
    RewriteKeepsReasons(cs, i, c', ents, ActivateEntitlement(ents, c', now));
  }

  lemma EndKeepsReasons(cs: seq<Checkout>, i: nat, c: Checkout, ents: map<Actor, Entitlement>, next: Status)
    requires ReasonsHold(cs, ents) && i < |cs| && c.actor == cs[i].actor && c.kind == cs[i].kind
    requires c.status == next && next !in {Pending, Failed, Paid}
    ensures ReasonsHold(cs[i := c], RevokeEntitlement(ents, c, next))
  {
    RewriteKeepsReasons(cs, i, c, ents, RevokeEntitlement(ents, c, next));
  }

  lemma DecideKeepsReasons(st: Store, i: nat, c: Checkout, ref: string, family: EventFamily, now: int)
    requires ReasonsHold(st.checkouts, st.entitlements) && i < |st.checkouts|
    requires c == st.checkouts[i].(paymentId := c.paymentId) && (family.Reversal? ==> Terminal(family.status))
    ensures var st' := Decide(st, i, c, ref, family, now); ReasonsHold(st'.checkouts, st'.entitlements)
  {
    var cs, ents := st.checkouts, st.entitlements;
    var (decision, next) := Transition(c.status, family);
    match decision
    case Confirm => ConfirmKeepsReasons(cs, i, c, ents, now);
    case Reverse => EndKeepsReasons(cs, i, ReversedRow(c, next, now), ents, next);
    case Expire => EndKeepsReasons(cs, i, c.(status := next), ents, next);
    case Cancel => EndKeepsReasons(cs, i, c.(status := next), ents, next);
    case _ => RewriteKeepsReasons(cs, i, c, ents, ents);
  }

  lemma ProcessKeepsReasons(st: Store, ev: Event, now: int)
    requires ReasonsHold(st.checkouts, st.entitlements)
    ensures var st' := ProcessWebhook(st, ev, now).0; ReasonsHold(st'.checkouts, st'.entitlements)
  {
    var found := CheckoutForProvider(st.checkouts, ev);
    if EventKey(ev) !in st.events && found.Some? {
      var i := found.value;
      var c := WithPayment(st.checkouts[i], ev);
      FoundIsDecided(st, i, ev, now);
      DecideKeepsReasons(Claimed(st, i, ev), i, c, PaymentRef(c, ev), Classify(ev.kind), now);
    }
  }

  /** Over every stream the entitlements say why: active is paid, and the reason is always the
      present status of a plan of the actor. */
  lemma {:induction false} StreamKeepsReasons(st: Store, ds: seq<Delivery>)
    requires ReasonsHold(st.checkouts, st.entitlements)
    ensures ReasonsHold(Run(st, ds).checkouts, Run(st, ds).entitlements)
  {
    if ds == [] {
    } else {
      StreamKeepsReasons(st, ds[..|ds| - 1]);
      ProcessKeepsReasons(Run(st, ds[..|ds| - 1]), ds[|ds| - 1].ev, ds[|ds| - 1].now);
    }
  }

  // ---------------------------------------------------------------- when it starts, and what revoking leaves

  /** A payment writes the terms anew but keeps the start; revoking changes nothing but the state and
      its reason. */
  predicate Succeeds(e: Entitlement, e': Entitlement, now: int) {
    && e'.startsAt == e.startsAt
    && (|| e' == e
        || (e'.active && e'.lastPaymentAt == now)
        || e' == e.(active := false, reason := e'.reason))
  }

  /** What one webhook may do to an actor's entitlement; a new one starts with its payment. */
  ghost predicate Proceeds(ents: map<Actor, Entitlement>, ents': map<Actor, Entitlement>, now: int) {
    && (forall a :: a in ents ==> a in ents' && Succeeds(ents[a], ents'[a], now))
    && (forall a :: a in ents' && a !in ents ==>
          ents'[a].active && ents'[a].startsAt == now && ents'[a].lastPaymentAt == now)
  }

  lemma DecideProceeds(st: Store, i: nat, c: Checkout, ref: string, family: EventFamily, now: int)
    requires i < |st.checkouts|
    ensures Proceeds(st.entitlements, Decide(st, i, c, ref, family, now).entitlements, now)
  {}

  lemma ProcessProceeds(st: Store, ev: Event, now: int)
    ensures Proceeds(st.entitlements, ProcessWebhook(st, ev, now).0.entitlements, now)
  {
    var found := CheckoutForProvider(st.checkouts, ev);
    if EventKey(ev) !in st.events && found.Some? {
      var i := found.value;
      var c := WithPayment(st.checkouts[i], ev);
      FoundIsDecided(st, i, ev, now);
      DecideProceeds(Claimed(st, i, ev), i, c, PaymentRef(c, ev), Classify(ev.kind), now);
    }
  }

  /** Delivery `k` brought the actor's first entitlement, and with it the start. */
  predicate StartsWith(st: Store, ds: seq<Delivery>, a: Actor, k: int, start: int) {
    && 0 <= k < |ds| && a !in Run(st, ds[..k]).entitlements && a in Run(st, ds[..k + 1]).entitlements
    && start == ds[k].now
  }

  /** An entitlement, once there, is never removed and never starts anew: its start is the time of
      the delivery that first gave the actor one. */
  lemma {:induction false} StartNeverMoves(st: Store, ds: seq<Delivery>, a: Actor)
    ensures a in st.entitlements ==>
      a in Run(st, ds).entitlements && Run(st, ds).entitlements[a].startsAt == st.entitlements[a].startsAt
    ensures a !in st.entitlements && a in Run(st, ds).entitlements ==>
      exists k :: StartsWith(st, ds, a, k, Run(st, ds).entitlements[a].startsAt)
  {
    if ds == [] {
    } else {
      var n := |ds| - 1;
      StartNeverMoves(st, ds[..n], a);
      ProcessProceeds(Run(st, ds[..n]), ds[n].ev, ds[n].now);
      assert ds[..n + 1] == ds;
      if a !in st.entitlements && a in Run(st, ds).entitlements {
        if a in Run(st, ds[..n]).entitlements {
          var k :| StartsWith(st, ds[..n], a, k, Run(st, ds[..n]).entitlements[a].startsAt);
          assert ds[..n][..k] == ds[..k] && ds[..n][..k + 1] == ds[..k + 1];
          assert StartsWith(st, ds, a, k, Run(st, ds).entitlements[a].startsAt);
        } else {
          assert StartsWith(st, ds, a, n, Run(st, ds).entitlements[a].startsAt);
        }
      }
    }
  }
}
