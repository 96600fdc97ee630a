/** What one billing step keeps: the wallets agree with the append-only ledger, each
    checkout has the rows its history calls for, and the balance is what is paid for. */
module BillingLedger {
  import opened Common
  import opened BillingModel

  // ---------------------------------------------------------------- reading the ledger

  function Total(ledger: seq<LedgerRow>, a: Actor, d: Direction): int {
    if ledger == [] then 0
    else
      var last := ledger[|ledger| - 1];
      Total(ledger[..|ledger| - 1], a, d) + if last.actor == a && last.direction == d then last.amount else 0
  }

  function Unrecovered(ledger: seq<LedgerRow>, a: Actor): int {
    if ledger == [] then 0
    else
      var last := ledger[|ledger| - 1];
      Unrecovered(ledger[..|ledger| - 1], a) + if last.actor == a then last.unrecovered else 0
  }

  /** The ledger rows a checkout caused in one direction, oldest first. */
  function RowsOf(ledger: seq<LedgerRow>, id: string, d: Direction): seq<LedgerRow> {
    if ledger == [] then []
    else
      var last := ledger[|ledger| - 1];
      RowsOf(ledger[..|ledger| - 1], id, d) + if last.checkoutId == id && last.direction == d then [last] else []
  }

  lemma Append(ledger: seq<LedgerRow>, row: LedgerRow)
    ensures var l := ledger + [row]; l[|l| - 1] == row && l[..|l| - 1] == ledger
  {}

  lemma {:induction false} RowsOfMember(ledger: seq<LedgerRow>, k: nat)
    requires k < |ledger|
    ensures ledger[k] in RowsOf(ledger, ledger[k].checkoutId, ledger[k].direction)
  {
    if k == |ledger| - 1 {
    } else {
      RowsOfMember(ledger[..|ledger| - 1], k);
    }
  }

  /** The oldest credit the reversal looks up is the first credit row of the checkout. */
  lemma {:induction false} OriginalCreditIsFirst(ledger: seq<LedgerRow>, actor: Actor, id: string)
    requires forall k :: 0 <= k < |ledger| && ledger[k].checkoutId == id ==> ledger[k].actor == actor
    ensures var rows := RowsOf(ledger, id, Credit);
      OriginalCredit(ledger, actor, id) == if rows == [] then None else Some(rows[0])
  {
    if ledger == [] {
    } else {
      var front := ledger[..|ledger| - 1];
      forall k | 0 <= k < |front| && front[k].checkoutId == id ensures front[k].actor == actor {
        assert front[k] == ledger[k];
      }
      OriginalCreditIsFirst(front, actor, id);
    }
  }

  lemma {:induction false} OriginalCreditInLedger(ledger: seq<LedgerRow>, actor: Actor, id: string)
    requires OriginalCredit(ledger, actor, id).Some?
    ensures exists k :: 0 <= k < |ledger| && ledger[k] == OriginalCredit(ledger, actor, id).value
    ensures OriginalCredit(ledger, actor, id).value.direction == Credit
    ensures OriginalCredit(ledger, actor, id).value.actor == actor
  {
    var front := ledger[..|ledger| - 1];
    if OriginalCredit(front, actor, id).Some? {
      OriginalCreditInLedger(front, actor, id);
      var k :| 0 <= k < |front| && front[k] == OriginalCredit(front, actor, id).value;
      assert ledger[k] == front[k];
    } else {
      assert ledger[|ledger| - 1] == OriginalCredit(ledger, actor, id).value;
    }
  }

  // ---------------------------------------------------------------- wallets and the ledger

  predicate RowShape(r: LedgerRow) {
    && r.amount >= 0
    && r.unrecovered >= 0
    && (r.direction == Credit ==> r.amount > 0 && r.unrecovered == 0)
    && (r.direction == Credit <==> r.key.tag == CreditTag)
    && (r.checkoutId == "" <==> r.key.tag == SpendTag)
    && (r.unrecovered > 0 ==> r.balanceAfter == 0)
  }

  predicate LedgerShape(ledger: seq<LedgerRow>) {
    forall k :: 0 <= k < |ledger| ==> RowShape(ledger[k])
  }

  /** What the ledger says an actor has. */
  function BalanceIn(ledger: seq<LedgerRow>, a: Actor): int {
    Total(ledger, a, Credit) - Total(ledger, a, Debit)
  }

  /** Each row shows the balance its actor had right after it. */
  ghost predicate Running(ledger: seq<LedgerRow>) {
    forall k :: 0 <= k < |ledger| ==> ledger[k].balanceAfter == BalanceIn(ledger[..k + 1], ledger[k].actor)
  }

  /** No key is posted twice in one tenant. */
  ghost predicate KeysUnique(ledger: seq<LedgerRow>) {
    forall j, k :: 0 <= j < k < |ledger| && ledger[j].actor.tenant == ledger[k].actor.tenant ==>
      ledger[j].key != ledger[k].key
  }

  predicate WalletMatches(w: Wallet, ledger: seq<LedgerRow>, a: Actor) {
    && w.balance == w.credited - w.debited
    && w.credited == Total(ledger, a, Credit)
    && w.debited == Total(ledger, a, Debit)
    && w.quarantined == Unrecovered(ledger, a)
    && w.balance >= 0
    && w.quarantined >= 0
    && (w.status == Quarantined <==> w.quarantined > 0)
  }

  ghost predicate WalletsMatch(m: Money) {
    && LedgerShape(m.ledger) && Running(m.ledger) && KeysUnique(m.ledger)
    && forall a :: WalletMatches(WalletOf(m.wallets, a), m.ledger, a)
  }

  lemma RunsOn(ledger: seq<LedgerRow>, row: LedgerRow)
    requires Running(ledger) && row.balanceAfter == BalanceIn(ledger + [row], row.actor)
    ensures Running(ledger + [row])
  {
    var more := ledger + [row];
    forall k | 0 <= k < |more| ensures more[k].balanceAfter == BalanceIn(more[..k + 1], more[k].actor) {
      if k < |ledger| {
        assert more[..k + 1] == ledger[..k + 1];
      } else {
        assert more[..k + 1] == more;
      }
    }
  }

  /** Posting one ledger row together with the matching wallet update keeps every wallet right. */
  lemma PostRow(m: Money, row: LedgerRow, w: Wallet)
    requires WalletsMatch(m) && RowShape(row)
    requires WalletMatches(w, m.ledger + [row], row.actor)
    requires row.balanceAfter == w.balance && !LedgerHas(m.ledger, row.actor.tenant, row.key)
    ensures WalletsMatch(Money(m.wallets[row.actor := w], m.ledger + [row]))
  {
    var m' := Money(m.wallets[row.actor := w], m.ledger + [row]);
    Append(m.ledger, row);
    RunsOn(m.ledger, row);
    forall a ensures WalletMatches(WalletOf(m'.wallets, a), m'.ledger, a) {
      assert WalletMatches(WalletOf(m.wallets, a), m.ledger, a);
    }
  }

  lemma OpenWallet(m: Money, a: Actor)
    requires WalletsMatch(m)
    ensures WalletsMatch(m.(wallets := m.wallets[a := WalletOf(m.wallets, a)]))
  {
    var m' := m.(wallets := m.wallets[a := WalletOf(m.wallets, a)]);
    forall b ensures WalletMatches(WalletOf(m'.wallets, b), m'.ledger, b) {
      assert WalletMatches(WalletOf(m.wallets, b), m.ledger, b);
    }
  }

  lemma CreditKeepsWallets(m: Money, c: Checkout, ref: string, amount: int)
    requires WalletsMatch(m) && c.id != ""
    ensures WalletsMatch(CreditWallet(m, c, ref, amount))
  {
    if amount <= 0 || LedgerHas(m.ledger, c.actor.tenant, LedgerKey(ref, CreditTag)) {
      OpenWallet(m, c.actor);
    } else {
      var w := WalletOf(m.wallets, c.actor);
      var row := LedgerRow(c.actor, Credit, LedgerKey(ref, CreditTag), amount, w.balance + amount, c.id, 0);
      var w' := w.(balance := w.balance + amount, credited := w.credited + amount);
      assert CreditWallet(m, c, ref, amount) == Money(m.wallets[c.actor := w'], m.ledger + [row]);
      CreditedWallet(m, row);
      PostRow(m, row, w');
    }
  }

  lemma CreditedWallet(m: Money, row: LedgerRow)
    requires WalletsMatch(m) && RowShape(row) && row.direction == Credit
    ensures var w := WalletOf(m.wallets, row.actor);
      WalletMatches(w.(balance := w.balance + row.amount, credited := w.credited + row.amount),
                    m.ledger + [row], row.actor)
  {
    Append(m.ledger, row);
    assert WalletMatches(WalletOf(m.wallets, row.actor), m.ledger, row.actor);
  }

  lemma ReverseKeepsWallets(m: Money, c: Checkout, ref: string, status: Status)
    requires WalletsMatch(m) && c.id != ""
    ensures WalletsMatch(ReverseCheckoutCredit(m, c, ref, status))
  {
    var m' := ReverseCheckoutCredit(m, c, ref, status);
    if m' != m {
      OriginalCreditInLedger(m.ledger, c.actor, c.id);
      assert WalletMatches(WalletOf(m.wallets, c.actor), m.ledger, c.actor);
      var row := m'.ledger[|m.ledger|];
      Append(m.ledger, row);
      PostRow(m, row, m'.wallets[c.actor]);
    }
  }

  /** A spend debits the wallet and records it, and never takes more than is there. */
  predicate CanSpend(m: Money, a: Actor, ref: string, amount: int) {
    0 <= amount <= WalletOf(m.wallets, a).balance && !LedgerHas(m.ledger, a.tenant, LedgerKey(ref, SpendTag))
  }

  function Spend(m: Money, a: Actor, ref: string, amount: int): Money {
    var w := WalletOf(m.wallets, a);
    var balance := w.balance - amount;
    Money(m.wallets[a := w.(balance := balance, debited := w.debited + amount)],
          m.ledger + [LedgerRow(a, Debit, LedgerKey(ref, SpendTag), amount, balance, "", 0)])
  }

  lemma SpendKeepsWallets(m: Money, a: Actor, ref: string, amount: int)
    requires WalletsMatch(m) && CanSpend(m, a, ref, amount)
    ensures WalletsMatch(Spend(m, a, ref, amount))
  {
    var m' := Spend(m, a, ref, amount);
    assert WalletMatches(WalletOf(m.wallets, a), m.ledger, a);
    Append(m.ledger, m'.ledger[|m.ledger|]);
    PostRow(m, m'.ledger[|m.ledger|], m'.wallets[a]);
  }

  // ---------------------------------------------------------------- checkouts

  ghost predicate IdsDistinct(cs: seq<Checkout>) {
    && (forall i :: 0 <= i < |cs| ==> cs[i].id != "")
    && (forall i, j :: 0 <= i < j < |cs| ==> cs[i].id != cs[j].id)
  }

  ghost predicate LinksDistinct(cs: seq<Checkout>) {
    forall i, j :: 0 <= i < j < |cs| && cs[i].linkId != "" ==> cs[i].linkId != cs[j].linkId
  }

  /** Status, confirmation time and binding agree, and an unbound checkout has no payment. */
  predicate CheckoutShape(c: Checkout) {
    && (c.status == Paid ==> c.confirmedAt.Some?)
    && (c.confirmedAt.Some? ==> c.status == Paid || Terminal(c.status))
    && (c.linkId == "" ==> c.paymentId == "" && (c.status == Pending || c.status == Failed))
  }

  /** A payment reference belongs to one payment link: `anchor` names that link. */
  predicate Anchored(c: Checkout, anchor: string -> string) {
    && (c.linkId != "" ==> anchor(c.linkId) == c.linkId)
    && (c.paymentId != "" ==> anchor(c.paymentId) == c.linkId)
  }

  ghost predicate CheckoutsOk(cs: seq<Checkout>, anchor: string -> string) {
    && IdsDistinct(cs)
    && LinksDistinct(cs)
    && (forall i :: 0 <= i < |cs| ==> CheckoutShape(cs[i]))
    && (forall i :: 0 <= i < |cs| ==> Anchored(cs[i], anchor))
  }

  predicate Owns(c: Checkout, r: LedgerRow, anchor: string -> string) {
    c.id == r.checkoutId && c.actor == r.actor && c.linkId != "" && anchor(r.key.ref) == c.linkId
  }

  ghost predicate RowOwned(cs: seq<Checkout>, r: LedgerRow, anchor: string -> string) {
    exists i :: 0 <= i < |cs| && Owns(cs[i], r, anchor)
  }

  ghost predicate AllOwned(cs: seq<Checkout>, ledger: seq<LedgerRow>, anchor: string -> string) {
    forall k :: 0 <= k < |ledger| && ledger[k].checkoutId != "" ==> RowOwned(cs, ledger[k], anchor)
  }

  predicate HasCredit(c: Checkout) {
    c.confirmedAt.Some? && c.included > 0
  }

  /** The exact ledger rows of a checkout: one credit once it was ever confirmed, and one
      reversal of that whole credit once it is reversed. */
  predicate CheckoutBooks(c: Checkout, ledger: seq<LedgerRow>) {
    var credits := RowsOf(ledger, c.id, Credit);
    var debits := RowsOf(ledger, c.id, Debit);
    && (if HasCredit(c) then |credits| == 1 && credits[0].amount == c.included else credits == [])
    && (if HasCredit(c) && Terminal(c.status)
        then |debits| == 1 && debits[0].amount + debits[0].unrecovered == c.included
             && debits[0].key.tag == (if c.status == Refunded then RefundTag else ChargebackTag)
        else debits == [])
  }

  ghost predicate AllBooks(cs: seq<Checkout>, ledger: seq<LedgerRow>) {
    forall i :: 0 <= i < |cs| ==> CheckoutBooks(cs[i], ledger)
  }

  ghost predicate Books(st: Store, anchor: string -> string) {
    && WalletsMatch(st.money)
    && CheckoutsOk(st.checkouts, anchor)
    && AllBooks(st.checkouts, st.money.ledger)
    && AllOwned(st.checkouts, st.money.ledger, anchor)
  }

  /** The provider's promise about one event: its payment belongs to its link. */
  predicate Consistent(ev: Event, anchor: string -> string) {
    ev.link != "" ==> anchor(ev.link) == ev.link && (ev.payment != "" ==> anchor(ev.payment) == ev.link)
  }

  /** Two versions of one checkout row: only the columns a webhook writes may differ. */
  predicate SameRow(c: Checkout, c': Checkout) {
    c' == c.(status := c'.status, paymentId := c'.paymentId, confirmedAt := c'.confirmedAt, reversedAt := c'.reversedAt)
  }

  /** A ledger row under a checkout's id is that checkout's own. */
  lemma RowOfCheckout(cs: seq<Checkout>, row: LedgerRow, anchor: string -> string, i: nat)
    requires IdsDistinct(cs) && RowOwned(cs, row, anchor) && i < |cs| && row.checkoutId == cs[i].id
    ensures Owns(cs[i], row, anchor)
  {
    var j :| 0 <= j < |cs| && Owns(cs[j], row, anchor);
    assert i == j;
  }

  /** A ledger row under a reference anchored to a checkout's link is that checkout's own. */
  lemma RefOfCheckout(cs: seq<Checkout>, row: LedgerRow, anchor: string -> string, i: nat)
    requires LinksDistinct(cs) && RowOwned(cs, row, anchor)
    requires i < |cs| && cs[i].linkId != "" && anchor(row.key.ref) == cs[i].linkId
    ensures row.checkoutId == cs[i].id
  {
    var j :| 0 <= j < |cs| && Owns(cs[j], row, anchor);
    assert i == j;
  }

  /** A key anchored to a checkout's link is in the ledger only if the checkout has such a row. */
  lemma KeyOfCheckout(cs: seq<Checkout>, ledger: seq<LedgerRow>, anchor: string -> string, i: nat, key: LedgerKey)
    requires LinksDistinct(cs) && LedgerShape(ledger) && AllOwned(cs, ledger, anchor)
    requires i < |cs| && cs[i].linkId != "" && anchor(key.ref) == cs[i].linkId && key.tag != SpendTag
    requires LedgerHas(ledger, cs[i].actor.tenant, key)
    ensures RowsOf(ledger, cs[i].id, if key.tag == CreditTag then Credit else Debit) != []
  {
    var k :| 0 <= k < |ledger| && ledger[k].actor.tenant == cs[i].actor.tenant && ledger[k].key == key;
    assert RowShape(ledger[k]);
    RefOfCheckout(cs, ledger[k], anchor, i);
    RowsOfMember(ledger, k);
  }

  /** The credit a reversal of checkout `i` looks up is its one credit row. */
  lemma OriginalOfCheckout(cs: seq<Checkout>, ledger: seq<LedgerRow>, anchor: string -> string, i: nat)
    requires IdsDistinct(cs) && AllOwned(cs, ledger, anchor) && i < |cs|
    ensures var rows := RowsOf(ledger, cs[i].id, Credit);
      OriginalCredit(ledger, cs[i].actor, cs[i].id) == if rows == [] then None else Some(rows[0])
  {
    forall k | 0 <= k < |ledger| && ledger[k].checkoutId == cs[i].id ensures ledger[k].actor == cs[i].actor {
      RowOfCheckout(cs, ledger[k], anchor, i);
    }
    OriginalCreditIsFirst(ledger, cs[i].actor, cs[i].id);
  }

  // ---------------------------------------------------------------- what is paid for

  function Contribution(c: Checkout, a: Actor): nat {
    if c.actor == a && c.status == Paid && c.included > 0 then c.included else 0
  }

  /** The credit included in the checkouts an actor currently has paid. */
  function PaidCredit(cs: seq<Checkout>, a: Actor): nat {
    if cs == [] then 0 else PaidCredit(cs[..|cs| - 1], a) + Contribution(cs[|cs| - 1], a)
  }

  lemma {:induction false} PaidCreditUpdate(cs: seq<Checkout>, i: nat, c: Checkout, a: Actor)
    requires i < |cs|
    ensures PaidCredit(cs[i := c], a) == PaidCredit(cs, a) - Contribution(cs[i], a) + Contribution(c, a)
    ensures Contribution(cs[i], a) <= PaidCredit(cs, a)
  {
    var cs' := cs[i := c];
    var n := |cs| - 1;
    if i == n {
      assert cs'[..n] == cs[..n];
    } else {
      assert cs'[..n] == cs[..n][i := c];
      PaidCreditUpdate(cs[..n], i, c, a);
    }
  }

  /** Without spending: nothing is quarantined and the balance is exactly what is paid for. */
  ghost predicate Solvent(cs: seq<Checkout>, wallets: map<Actor, Wallet>) {
    forall a :: WalletOf(wallets, a).balance == PaidCredit(cs, a) && WalletOf(wallets, a).quarantined == 0
  }

  // ---------------------------------------------------------------- entitlement

  predicate Backs(c: Checkout, a: Actor, e: Entitlement) {
    && c.id == e.checkoutId
    && c.actor == a
    && c.kind == Plan
    && c.status == Paid
    && c.item == e.item
    && c.confirmedAt == Some(e.lastPaymentAt)
    && Lasts(c.days, e.expiresAt - e.lastPaymentAt)
  }

  /** How many seconds the configured days come to: 31 days for zero, and never less than one day or
      more than 366. */
  predicate Lasts(days: int, seconds: int) {
    && (days == 0 ==> seconds == 2_678_400)
    && (1 <= days <= 366 ==> seconds == days * 86_400)
    && (days < 0 ==> seconds == 86_400)
    && (days > 366 ==> seconds == 31_622_400)
  }

  ghost predicate IsBacked(cs: seq<Checkout>, a: Actor, e: Entitlement) {
    exists i :: 0 <= i < |cs| && Backs(cs[i], a, e)
  }

  /** Every active entitlement is backed by a plan checkout of its own actor that is paid. */
  ghost predicate EntitlementsBacked(cs: seq<Checkout>, ents: map<Actor, Entitlement>) {
    forall a :: a in ents && ents[a].active ==> IsBacked(cs, a, ents[a])
  }
}
