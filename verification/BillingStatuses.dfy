/** Which status a checkout ends in, told by the kinds of the events that reached it. */
module BillingStatuses {
  import opened Common
  import opened BillingModel
  import opened BillingLedger
  import opened BillingSteps
  import opened BillingRuns
  import opened BillingReversals

  const CONFIRMING := {"PAYMENT_CONFIRMED", "PAYMENT_RECEIVED"}
  const OVERDUE := {"PAYMENT_OVERDUE"}
  const DELETING := {"PAYMENT_DELETED"}
  const REFUNDING := {"PAYMENT_REFUNDED"}
  const CHARGING_BACK := {"PAYMENT_CHARGEBACK_REQUESTED", "PAYMENT_CHARGEBACK_DISPUTE"}
  const REVERSING := REFUNDING + CHARGING_BACK
  const SETTLING := CONFIRMING + DELETING

  // ---------------------------------------------------------------- one event

  /** What an event of this kind makes of a checkout it reaches. */
  predicate Leads(before: Status, kind: string, after: Status) {
    if before in {Refunded, Chargeback} then after == before
    else
      && (kind in REFUNDING ==> after == Refunded)
      && (kind in CHARGING_BACK ==> after == Chargeback)
      && (kind in CONFIRMING ==> after == if before == Cancelled then Cancelled else Paid)
      && (kind in DELETING ==> after == if before == Paid then Paid else Cancelled)
      && (kind in OVERDUE ==> after == if before in {Paid, Cancelled} then before else Expired)
      && (kind !in REVERSING + SETTLING + OVERDUE ==> after == before)
  }

  lemma TableLeads(before: Status, kind: string)
    ensures Leads(before, kind, Transition(before, Classify(kind)).1)
  {}

  lemma DecideLeads(st: Store, i: nat, c: Checkout, ref: string, kind: string, now: int)
    requires i < |st.checkouts|
    ensures Leads(c.status, kind, Decide(st, i, c, ref, Classify(kind), now).checkouts[i].status)
  {
    TableLeads(c.status, kind);
    DecideMoves(st, i, c, ref, Classify(kind), now);
  }

  lemma DecideMoves(st: Store, i: nat, c: Checkout, ref: string, family: EventFamily, now: int)
    requires i < |st.checkouts|
    ensures Decide(st, i, c, ref, family, now).checkouts[i].status == Transition(c.status, family).1
  {}

  /** The status after one event, in every store. */
  lemma StatusStep(st: Store, i: nat, ev: Event, now: int)
    requires i < |st.checkouts|
    ensures |ProcessWebhook(st, ev, now).0.checkouts| == |st.checkouts|
    ensures var before, after := st.checkouts[i].status, ProcessWebhook(st, ev, now).0.checkouts[i].status;
      if Reaches(st, i, ev) then Leads(before, ev.kind, after) else after == before
  {
    ProcessEvolves(st, ev, now);
    var found := CheckoutForProvider(st.checkouts, ev);
    if EventKey(ev) !in st.events && found.Some? {
      var k := found.value;
      FoundIsDecided(st, k, ev, now);
      FoundEvolves(st, k, ev, now);
      DecideLeads(Claimed(st, k, ev), k, WithPayment(st.checkouts[k], ev),
                  PaymentRef(WithPayment(st.checkouts[k], ev), ev), ev.kind, now);
    }
  }

  /** When the two times of a checkout are written. */
  predicate Stamped(c: Checkout, kind: string, now: int, c': Checkout) {
    && c'.confirmedAt == (if kind in CONFIRMING && c.status in {Pending, Failed, Expired} then Some(now)
                          else c.confirmedAt)
    && c'.reversedAt == (if kind in REVERSING && c.status !in {Refunded, Chargeback} then Some(now)
                         else c.reversedAt)
  }

  lemma DecideStamps(st: Store, i: nat, c: Checkout, ref: string, kind: string, now: int)
    requires i < |st.checkouts|
    ensures Stamped(c, kind, now, Decide(st, i, c, ref, Classify(kind), now).checkouts[i])
  {}

  /** A checkout gets its confirmation time from the first confirmation that reaches it while it
      waits, and its reversal time from the first reversal. */
  lemma TimesStep(st: Store, i: nat, ev: Event, now: int)
    requires i < |st.checkouts|
    ensures |ProcessWebhook(st, ev, now).0.checkouts| == |st.checkouts|
    ensures var c, c' := st.checkouts[i], ProcessWebhook(st, ev, now).0.checkouts[i];
      if Reaches(st, i, ev) then Stamped(c, ev.kind, now, c')
      else c'.confirmedAt == c.confirmedAt && c'.reversedAt == c.reversedAt
  {
    ProcessEvolves(st, ev, now);
    var found := CheckoutForProvider(st.checkouts, ev);
    if EventKey(ev) !in st.events && found.Some? {
      var k := found.value;
      FoundIsDecided(st, k, ev, now);
      FoundEvolves(st, k, ev, now);
      DecideStamps(Claimed(st, k, ev), k, WithPayment(st.checkouts[k], ev),
                   PaymentRef(WithPayment(st.checkouts[k], ev), ev), ev.kind, now);
    }
  }

  // ---------------------------------------------------------------- a stream

  /** Delivery `k` is the first of its key, of one of these kinds, and is resolved to row `i`. */
  predicate Hits(st: Store, ds: seq<Delivery>, i: nat, kinds: set<string>, k: int) {
    0 <= k < |ds| && Reaches(Run(st, ds[..k]), i, ds[k].ev) && ds[k].ev.kind in kinds
  }

  /** Some event of these kinds reaches row `i`. */
  ghost predicate Hit(st: Store, ds: seq<Delivery>, i: nat, kinds: set<string>) {
    exists k :: Hits(st, ds, i, kinds, k)
  }

  /** Delivery `k` is the earliest of these kinds to reach row `i`. */
  ghost predicate FirstHit(st: Store, ds: seq<Delivery>, i: nat, kinds: set<string>, k: int) {
    Hits(st, ds, i, kinds, k) && forall j :: 0 <= j < k ==> !Hits(st, ds, i, kinds, j)
  }

  lemma HitsInFront(st: Store, ds: seq<Delivery>, i: nat, kinds: set<string>, k: int)
    requires ds != [] && k < |ds| - 1
    ensures Hits(st, ds, i, kinds, k) <==> Hits(st, ds[..|ds| - 1], i, kinds, k)
  {
    if 0 <= k {
      assert ds[..|ds| - 1][..k] == ds[..k];
    }
  }

  /** What reached the row before the last delivery, and whether that one does. */
  lemma LastHit(st: Store, ds: seq<Delivery>, i: nat, kinds: set<string>)
    requires ds != []
    ensures var n := |ds| - 1;
      && (Hit(st, ds, i, kinds) <==> Hit(st, ds[..n], i, kinds) || Hits(st, ds, i, kinds, n))
      && (Hits(st, ds, i, kinds, n) <==> Reaches(Run(st, ds[..n]), i, ds[n].ev) && ds[n].ev.kind in kinds)
  {
    var n := |ds| - 1;
    forall k | k < n ensures Hits(st, ds, i, kinds, k) <==> Hits(st, ds[..n], i, kinds, k) {
      HitsInFront(st, ds, i, kinds, k);
    }
    if Hit(st, ds[..n], i, kinds) {
      var k :| Hits(st, ds[..n], i, kinds, k);
      assert Hits(st, ds, i, kinds, k);
    }
  }

  /** The earliest stays the earliest, and a new one is the earliest if there was none. */
  lemma FirstHitLasts(st: Store, ds: seq<Delivery>, i: nat, kinds: set<string>, k: int)
    requires ds != []
    ensures FirstHit(st, ds[..|ds| - 1], i, kinds, k) ==> FirstHit(st, ds, i, kinds, k)
    ensures !Hit(st, ds[..|ds| - 1], i, kinds) && Hits(st, ds, i, kinds, |ds| - 1) ==>
      FirstHit(st, ds, i, kinds, |ds| - 1)
  {
    forall j | j < |ds| - 1 ensures Hits(st, ds, i, kinds, j) <==> Hits(st, ds[..|ds| - 1], i, kinds, j) {
      HitsInFront(st, ds, i, kinds, j);
    }
  }

  /** The earliest event of these kinds that reached row `i` was of one of these, or not. */
  ghost predicate FirstIs(st: Store, ds: seq<Delivery>, i: nat, kinds: set<string>, some: set<string>, yes: bool) {
    exists k :: FirstHit(st, ds, i, kinds, k) && (ds[k].ev.kind in some <==> yes)
  }

  lemma FirstIsLasts(st: Store, ds: seq<Delivery>, i: nat, kinds: set<string>, some: set<string>, yes: bool)
    requires ds != []
    ensures FirstIs(st, ds[..|ds| - 1], i, kinds, some, yes) ==> FirstIs(st, ds, i, kinds, some, yes)
    ensures !Hit(st, ds[..|ds| - 1], i, kinds) && Hits(st, ds, i, kinds, |ds| - 1) ==>
      (ds[|ds| - 1].ev.kind in some <==> yes) ==> FirstIs(st, ds, i, kinds, some, yes)
  {
    var n := |ds| - 1;
    FirstHitLasts(st, ds, i, kinds, n);
    if FirstIs(st, ds[..n], i, kinds, some, yes) {
      var k :| FirstHit(st, ds[..n], i, kinds, k) && (ds[..n][k].ev.kind in some <==> yes);
      FirstHitLasts(st, ds, i, kinds, k);
    }
  }

  /** The status told by what reached the row: the first reversal decides before all else; a paid or
      cancelled checkout is otherwise left alone; of a waiting one the first confirmation or deletion
      decides; and only where neither came does an overdue notice expire it. */
  ghost predicate Told(st: Store, ds: seq<Delivery>, i: nat, start: Status, end: Status) {
    if start in {Refunded, Chargeback} then end == start
    else if Hit(st, ds, i, REVERSING) then
      FirstIs(st, ds, i, REVERSING, REFUNDING, end == Refunded) && end in {Refunded, Chargeback}
    else if start in {Paid, Cancelled} then end == start
    else if Hit(st, ds, i, SETTLING) then
      FirstIs(st, ds, i, SETTLING, DELETING, end == Cancelled) && end in {Paid, Cancelled}
    else end == if Hit(st, ds, i, OVERDUE) then Expired else start
  }

  /** For every store, stream and row the final status is told by the kinds of the first deliveries
      that reached the row, and by their order. */
  lemma {:induction false} StatusTellsHistory(st: Store, ds: seq<Delivery>, i: nat)
    requires i < |st.checkouts|
    ensures |Run(st, ds).checkouts| == |st.checkouts|
    ensures Told(st, ds, i, st.checkouts[i].status, Run(st, ds).checkouts[i].status)
  {
    if ds == [] {
    } else {
      var n := |ds| - 1;
      StatusTellsHistory(st, ds[..n], i);
      StatusStep(Run(st, ds[..n]), i, ds[n].ev, ds[n].now);
      LastHit(st, ds, i, REVERSING);
      LastHit(st, ds, i, SETTLING);
      LastHit(st, ds, i, OVERDUE);
      FirstIsLasts(st, ds, i, REVERSING, REFUNDING, Run(st, ds).checkouts[i].status == Refunded);
      FirstIsLasts(st, ds, i, SETTLING, DELETING, Run(st, ds).checkouts[i].status == Cancelled);
    }
  }

  // ---------------------------------------------------------------- replies and event rows

  const KNOWN := REVERSING + SETTLING + OVERDUE

  /** What the caller is told, and what the event's own row says afterwards. */
  predicate Answered(st: Store, ev: Event, st': Store, reply: Reply) {
    if EventKey(ev) in st.events then reply == Deduplicated && st' == st
    else
      && EventKey(ev) in st'.events && st'.events == st.events[EventKey(ev) := st'.events[EventKey(ev)]]
      && var row := st'.events[EventKey(ev)];
         match CheckoutForProvider(st.checkouts, ev)
         case None => reply == NotFound && row == EventIgnored(ev.kind, "")
         case Some(i) =>
           var c := st.checkouts[i];
           && |st'.checkouts| == |st.checkouts|
           && reply == (if st'.checkouts[i].status != c.status then Applied
                        else if c.status in {Refunded, Chargeback} || ev.kind in KNOWN then Guarded
                        else Unsupported)
           && row == if reply == Applied then EventProcessed(ev.kind, c.id) else EventIgnored(ev.kind, c.id)
  }

  lemma DecideAnswers(st: Store, i: nat, c: Checkout, ref: string, kind: string, now: int)
    requires i < |st.checkouts|
    ensures var st' := Decide(st, i, c, ref, Classify(kind), now); var d := Transition(c.status, Classify(kind)).0;
      && st'.events == st.events && |st'.checkouts| == |st.checkouts|
      && DecisionReply(d) == (if st'.checkouts[i].status != c.status then Applied
                              else if c.status in {Refunded, Chargeback} || kind in KNOWN then Guarded
                              else Unsupported)
      && forall id :: Outcome(d, kind, id) ==
           if DecisionReply(d) == Applied then EventProcessed(kind, id) else EventIgnored(kind, id)
  {}

  /** For every store and event, the reply and the event's row tell what happened: a duplicate, no
      checkout, a change of status, a change that the status forbids, or an event of no concern. */
  lemma RepliesTell(st: Store, ev: Event, now: int)
    ensures var (st', reply) := ProcessWebhook(st, ev, now); Answered(st, ev, st', reply)
  {
    var found := CheckoutForProvider(st.checkouts, ev);
    if EventKey(ev) !in st.events && found.Some? {
      var i := found.value;
      var c := WithPayment(st.checkouts[i], ev);
      FoundIsDecided(st, i, ev, now);
      DecideAnswers(Claimed(st, i, ev), i, c, PaymentRef(c, ev), ev.kind, now);
    }
  }
}
