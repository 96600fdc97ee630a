/** What holds over whole streams of provider events, duplicated and reordered at will. */
module BillingRuns {
  import opened Common
  import opened BillingModel
  import opened BillingLedger
  import opened BillingSteps

  /** One delivery of an event, at the time the server handles it. */
  datatype Delivery = Delivery(ev: Event, now: int)

  function Run(st: Store, ds: seq<Delivery>): Store {
    if ds == [] then st
    else ProcessWebhook(Run(st, ds[..|ds| - 1]), ds[|ds| - 1].ev, ds[|ds| - 1].now).0
  }

  predicate AllConsistent(ds: seq<Delivery>, anchor: string -> string) {
    forall k :: 0 <= k < |ds| ==> Consistent(ds[k].ev, anchor)
  }

  /** Before anything is paid the books are in order. */
  lemma UnpaidIsSound(cs: seq<Checkout>, anchor: string -> string)
    requires CheckoutsOk(cs, anchor) && forall i :: 0 <= i < |cs| ==> cs[i].confirmedAt.None?
    ensures Books(EMPTY_STORE.(checkouts := cs), anchor)
  {}

  lemma ThreeDeliveries(st: Store, a: Delivery, b: Delivery, c: Delivery)
    ensures Run(st, [a, b]) == ProcessWebhook(ProcessWebhook(st, a.ev, a.now).0, b.ev, b.now).0
    ensures Run(st, [a, b, c]) == ProcessWebhook(Run(st, [a, b]), c.ev, c.now).0
  {
    assert [a][..0] == [] && [a, b][..1] == [a] && [a, b, c][..2] == [a, b];
    assert Run(st, []) == st;
    assert Run(st, [a]) == ProcessWebhook(st, a.ev, a.now).0;
  }

  // ---------------------------------------------------------------- what one webhook leaves alone

  /** A rank that every applied event decreases. */
  function Rank(s: Status): nat {
    match s
    case Pending => 3
    case Failed => 3
    case Expired => 2
    case Paid => 1
    case Cancelled => 1
    case Refunded => 0
    case Chargeback => 0
  }

  /** How one row may evolve: identity is fixed, rank falls with every status change, and a
      confirmation time is written once. */
  predicate Evolves(c: Checkout, c': Checkout) {
    && SameRow(c, c')
    && (c'.status == c.status || Rank(c'.status) < Rank(c.status))
    && (c.confirmedAt.Some? && c.status == Paid ==> c'.confirmedAt == c.confirmedAt)
    && (Terminal(c.status) ==> c'.status == c.status && c'.confirmedAt == c.confirmedAt)
  }

  lemma DecideEvolves(st: Store, i: nat, c: Checkout, ref: string, family: EventFamily, now: int)
    requires i < |st.checkouts| && (family.Reversal? ==> Terminal(family.status))
    ensures var st' := Decide(st, i, c, ref, family, now);
      && |st'.checkouts| == |st.checkouts|
      && (forall k :: 0 <= k < |st.checkouts| && k != i ==> st'.checkouts[k] == st.checkouts[k])
      && Evolves(c, st'.checkouts[i])
      && (st'.checkouts[i].status != c.status <==> DecisionReply(Transition(c.status, family).0) == Applied)
      && (family.Reversal? ==> Terminal(st'.checkouts[i].status))
      && st'.events == st.events
      && st.money.ledger <= st'.money.ledger
  {}

  lemma FoundEvolves(st: Store, i: nat, ev: Event, now: int)
    requires i < |st.checkouts| && PaymentRef(WithPayment(st.checkouts[i], ev), ev) != ""
    ensures var (st', reply) := ProcessFound(st, i, ev, now);
      && |st'.checkouts| == |st.checkouts|
      && (forall k :: 0 <= k < |st.checkouts| && k != i ==> st'.checkouts[k] == st.checkouts[k])
      && Evolves(st.checkouts[i], st'.checkouts[i])
      && (reply == Applied <==> st'.checkouts[i].status != st.checkouts[i].status)
      && (Classify(ev.kind).Reversal? ==> Terminal(st'.checkouts[i].status))
      && reply != ReferenceMissing
      && st.money.ledger <= st'.money.ledger
      && st'.events.Keys == st.events.Keys + {EventKey(ev)}
  {
    var c := WithPayment(st.checkouts[i], ev);
    var family := Classify(ev.kind);
    var claimed := Claim(st, ev, Outcome(Transition(c.status, family).0, ev.kind, c.id));
    DecideEvolves(claimed, i, c, PaymentRef(c, ev), family, now);
  }

  /** The error for a missing payment reference is unreachable, in every store and for every
      event: a checkout is found by a link or a payment, and either is a reference. */
  lemma ReferenceNeverMissing(st: Store, ev: Event, now: int)
    ensures ProcessWebhook(st, ev, now).1 != ReferenceMissing
  {}

  /** One webhook: every row evolves, nothing leaves the ledger, and the key is claimed. */
  lemma ProcessEvolves(st: Store, ev: Event, now: int)
    ensures var (st', reply) := ProcessWebhook(st, ev, now);
      && |st'.checkouts| == |st.checkouts|
      && (forall k :: 0 <= k < |st.checkouts| ==> Evolves(st.checkouts[k], st'.checkouts[k]))
      && st.money.ledger <= st'.money.ledger
      && reply != ReferenceMissing
      && st'.events.Keys == st.events.Keys + {EventKey(ev)}
  {
    var found := CheckoutForProvider(st.checkouts, ev);
    if EventKey(ev) !in st.events && found.Some? && PaymentRef(WithPayment(st.checkouts[found.value], ev), ev) != "" {
      FoundEvolves(st, found.value, ev, now);
    }
  }

  /** The reply "applied" is given exactly when some checkout's status falls in rank. */
  lemma AppliedExactlyWhenRankFalls(st: Store, ev: Event, now: int)
    ensures var (st', reply) := ProcessWebhook(st, ev, now);
      && |st'.checkouts| == |st.checkouts|
      && (reply == Applied <==>
           exists k :: 0 <= k < |st.checkouts| && Rank(st'.checkouts[k].status) < Rank(st.checkouts[k].status))
  {
    var (st', reply) := ProcessWebhook(st, ev, now);
    var found := CheckoutForProvider(st.checkouts, ev);
    if EventKey(ev) !in st.events && found.Some? && PaymentRef(WithPayment(st.checkouts[found.value], ev), ev) != "" {
      var i := found.value;
      FoundEvolves(st, i, ev, now);
      assert Evolves(st.checkouts[i], st'.checkouts[i]);
      assert reply == Applied ==> Rank(st'.checkouts[i].status) < Rank(st.checkouts[i].status);
    }
  }

  // ---------------------------------------------------------------- books over a run

  /** The event keys of a stream. */
  function Keys(ds: seq<Delivery>): (keys: set<string>)
    ensures forall k :: 0 <= k < |ds| ==> EventKey(ds[k].ev) in keys
    ensures forall key :: key in keys ==> exists k :: 0 <= k < |ds| && EventKey(ds[k].ev) == key
  {
    if ds == [] then {}
    else
      var front := ds[..|ds| - 1];
      assert forall k :: 0 <= k < |front| ==> ds[k] == front[k];
      Keys(front) + {EventKey(ds[|ds| - 1].ev)}
  }

  /** Main result on streams: every stream of consistent events, in any order and however
      often redelivered, keeps the books and leaves each balance equal to the credit of what its
      actor has paid for, with nothing quarantined. */
  lemma {:induction false} StreamKeepsBooks(st: Store, ds: seq<Delivery>, anchor: string -> string)
    requires Books(st, anchor) && AllConsistent(ds, anchor)
    ensures Books(Run(st, ds), anchor)
    ensures StoreSolvent(st) ==> StoreSolvent(Run(st, ds))
  {
    if ds == [] {
    } else {
      var front, d := ds[..|ds| - 1], ds[|ds| - 1];
      StreamKeepsBooks(st, front, anchor);
      ProcessKeepsBooks(Run(st, front), d.ev, d.now, anchor);
      if StoreSolvent(st) {
        ProcessKeepsSolvent(Run(st, front), d.ev, d.now, anchor);
      }
    }
  }

  predicate IdsGiven(cs: seq<Checkout>) {
    forall i :: 0 <= i < |cs| ==> cs[i].id != ""
  }

  lemma DecideKeepsWallets(st: Store, i: nat, c: Checkout, ref: string, family: EventFamily, now: int)
    requires i < |st.checkouts| && WalletsMatch(st.money) && c.id != ""
    ensures WalletsMatch(Decide(st, i, c, ref, family, now).money)
  {
    CreditKeepsWallets(st.money, ConfirmedRow(c, now), ref, c.included);
    var status := Transition(c.status, family).1;
    ReverseKeepsWallets(st.money, ReversedRow(c, status, now), ref, status);
  }

  lemma ProcessKeepsWallets(st: Store, ev: Event, now: int)
    requires WalletsMatch(st.money) && IdsGiven(st.checkouts)
    ensures WalletsMatch(ProcessWebhook(st, ev, now).0.money) && IdsGiven(ProcessWebhook(st, ev, now).0.checkouts)
  {
    ProcessEvolves(st, ev, now);
    var found := CheckoutForProvider(st.checkouts, ev);
    if EventKey(ev) !in st.events && found.Some? {
      var i := found.value;
      var c := WithPayment(st.checkouts[i], ev);
      FoundIsDecided(st, i, ev, now);
      DecideKeepsWallets(Claimed(st, i, ev), i, c, PaymentRef(c, ev), Classify(ev.kind), now);
    }
    forall i | 0 <= i < |st.checkouts| ensures ProcessWebhook(st, ev, now).0.checkouts[i].id != "" {
      assert Evolves(st.checkouts[i], ProcessWebhook(st, ev, now).0.checkouts[i]);
    }
  }

  /** Wallets and ledger agree after every stream, whatever its events say about payments and
      links: balance, lifetime totals, ledger totals and quarantine. */
  lemma {:induction false} StreamKeepsWallets(st: Store, ds: seq<Delivery>)
    requires WalletsMatch(st.money) && IdsGiven(st.checkouts)
    ensures WalletsMatch(Run(st, ds).money) && IdsGiven(Run(st, ds).checkouts)
  {
    if ds == [] {
    } else {
      var front, d := ds[..|ds| - 1], ds[|ds| - 1];
      StreamKeepsWallets(st, front);
      ProcessKeepsWallets(Run(st, front), d.ev, d.now);
    }
  }

  /** Every stream claims exactly the keys of its events. */
  lemma {:induction false} StreamClaimsKeys(st: Store, ds: seq<Delivery>)
    ensures Run(st, ds).events.Keys == st.events.Keys + Keys(ds)
  {
    if ds == [] {
    } else {
      var front, d := ds[..|ds| - 1], ds[|ds| - 1];
      StreamClaimsKeys(st, front);
      ProcessEvolves(Run(st, front), d.ev, d.now);
    }
  }

  lemma BalanceIsWhatIsPaidFor(ds: seq<Delivery>, st: Store, anchor: string -> string, a: Actor)
    requires Books(st, anchor) && StoreSolvent(st) && AllConsistent(ds, anchor)
    ensures var st' := Run(st, ds);
      WalletOf(st'.money.wallets, a).balance == PaidCredit(st'.checkouts, a)
      && WalletOf(st'.money.wallets, a).status == WalletActive
  {
    StreamKeepsBooks(st, ds, anchor);
    assert WalletMatches(WalletOf(Run(st, ds).money.wallets, a), Run(st, ds).money.ledger, a);
  }

  /** The last event of a stream lets every row evolve. */
  lemma LastEvolves(st: Store, ds: seq<Delivery>, i: nat)
    requires ds != [] && i < |Run(st, ds[..|ds| - 1]).checkouts|
    ensures |Run(st, ds).checkouts| == |Run(st, ds[..|ds| - 1]).checkouts|
    ensures Evolves(Run(st, ds[..|ds| - 1]).checkouts[i], Run(st, ds).checkouts[i])
    ensures Run(st, ds[..|ds| - 1]).money.ledger <= Run(st, ds).money.ledger
  {
    ProcessEvolves(Run(st, ds[..|ds| - 1]), ds[|ds| - 1].ev, ds[|ds| - 1].now);
  }

  lemma {:induction false} StreamEvolves(st: Store, ds: seq<Delivery>, i: nat)
    requires i < |st.checkouts|
    ensures |Run(st, ds).checkouts| == |st.checkouts|
    ensures SameRow(st.checkouts[i], Run(st, ds).checkouts[i])
    ensures Rank(Run(st, ds).checkouts[i].status) <= Rank(st.checkouts[i].status)
    ensures Terminal(st.checkouts[i].status) ==> Run(st, ds).checkouts[i].status == st.checkouts[i].status
    ensures st.money.ledger <= Run(st, ds).money.ledger
  {
    if ds == [] {
    } else {
      StreamEvolves(st, ds[..|ds| - 1], i);
      LastEvolves(st, ds, i);
    }
  }

  // ---------------------------------------------------------------- status changes are few

  /** How often a stream changes the status of row `i`. */
  function StatusChanges(st: Store, ds: seq<Delivery>, i: nat): nat {
    if ds == [] then 0
    else
      var before, after := Run(st, ds[..|ds| - 1]), Run(st, ds);
      StatusChanges(st, ds[..|ds| - 1], i)
      + if i < |before.checkouts| && i < |after.checkouts| && before.checkouts[i].status != after.checkouts[i].status
        then 1 else 0
  }

  /** Over any stream a checkout changes status at most three times. */
  lemma {:induction false} AtMostThreeChanges(st: Store, ds: seq<Delivery>, i: nat)
    requires i < |st.checkouts|
    ensures i < |Run(st, ds).checkouts|
    ensures StatusChanges(st, ds, i) + Rank(Run(st, ds).checkouts[i].status) <= Rank(st.checkouts[i].status) <= 3
  {
    if ds == [] {
    } else {
      AtMostThreeChanges(st, ds[..|ds| - 1], i);
      LastEvolves(st, ds, i);
    }
  }

  // ---------------------------------------------------------------- redelivery

  /** The stream with every delivery dropped whose key was claimed before it. */
  function DropRepeats(ds: seq<Delivery>, seen: set<string>): seq<Delivery> {
    if ds == [] then []
    else
      var front, d := ds[..|ds| - 1], ds[|ds| - 1];
      var key := EventKey(d.ev);
      DropRepeats(front, seen)
      + if key in seen || key in Keys(front) then [] else [d]
  }

  /** At-least-once delivery is harmless, whatever the store and the stream: dropping every repeat
      leaves the same final state. */
  lemma {:induction false} RepeatsChangeNothing(st: Store, ds: seq<Delivery>)
    ensures Run(st, DropRepeats(ds, st.events.Keys)) == Run(st, ds)
  {
    if ds == [] {
    } else {
      var front, d := ds[..|ds| - 1], ds[|ds| - 1];
      RepeatsChangeNothing(st, front);
      StreamClaimsKeys(st, front);
      var kept := DropRepeats(front, st.events.Keys);
      if EventKey(d.ev) in Run(st, front).events {
        assert DropRepeats(ds, st.events.Keys) == kept;
      } else {
        assert DropRepeats(ds, st.events.Keys) == kept + [d];
        assert (kept + [d])[..|kept|] == kept;
      }
    }
  }

  // ---------------------------------------------------------------- entitlement over a run

  lemma {:induction false} StreamKeepsEntitlements(st: Store, ds: seq<Delivery>)
    requires EntitlementsBacked(st.checkouts, st.entitlements)
    ensures EntitlementsBacked(Run(st, ds).checkouts, Run(st, ds).entitlements)
  {
    if ds == [] {
    } else {
      StreamKeepsEntitlements(st, ds[..|ds| - 1]);
      ProcessKeepsEntitlements(Run(st, ds[..|ds| - 1]), ds[|ds| - 1].ev, ds[|ds| - 1].now);
    }
  }

  /** A checkout that is paid before and after a stream kept its confirmation time. */
  lemma {:induction false} ConfirmedOnce(st: Store, ds: seq<Delivery>, i: nat)
    requires i < |st.checkouts| && CheckoutShape(st.checkouts[i])
    requires st.checkouts[i].status == Paid
    ensures i < |Run(st, ds).checkouts|
    ensures Run(st, ds).checkouts[i].status == Paid || Terminal(Run(st, ds).checkouts[i].status)
    ensures Run(st, ds).checkouts[i].confirmedAt == st.checkouts[i].confirmedAt
  {
    if ds == [] {
    } else {
      ConfirmedOnce(st, ds[..|ds| - 1], i);
      LastEvolves(st, ds, i);
      KeepsConfirmation(Run(st, ds[..|ds| - 1]).checkouts[i], Run(st, ds).checkouts[i]);
    }
  }

  lemma KeepsConfirmation(c: Checkout, c': Checkout)
    requires Evolves(c, c') && c.confirmedAt.Some? && (c.status == Paid || Terminal(c.status))
    ensures c'.confirmedAt == c.confirmedAt && (c'.status == Paid || Terminal(c'.status))
  {}

  /** No stream of duplicate or late events extends an entitlement: while it is active for the
      same checkout, its payment time and its expiry are the ones of the first confirmation. */
  lemma ExpiryNeverExtended(st: Store, ds: seq<Delivery>, a: Actor, anchor: string -> string)
    requires Books(st, anchor) && EntitlementsBacked(st.checkouts, st.entitlements)
    requires a in st.entitlements && st.entitlements[a].active
    requires a in Run(st, ds).entitlements && Run(st, ds).entitlements[a].active
    requires Run(st, ds).entitlements[a].checkoutId == st.entitlements[a].checkoutId
    ensures Run(st, ds).entitlements[a].expiresAt == st.entitlements[a].expiresAt
    ensures Run(st, ds).entitlements[a].lastPaymentAt == st.entitlements[a].lastPaymentAt
  {
    var st' := Run(st, ds);
    StreamKeepsEntitlements(st, ds);
    assert IsBacked(st.checkouts, a, st.entitlements[a]);
    var i :| 0 <= i < |st.checkouts| && Backs(st.checkouts[i], a, st.entitlements[a]);
    StreamEvolves(st, ds, i);
    assert IsBacked(st'.checkouts, a, st'.entitlements[a]);
    var j :| 0 <= j < |st'.checkouts| && Backs(st'.checkouts[j], a, st'.entitlements[a]);
    StreamEvolves(st, ds, j);
    assert i == j;
    ConfirmedOnce(st, ds, i);
  }
}
