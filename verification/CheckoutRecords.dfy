/** What the rows, the ledger, the transactions and the entitlements say in every reachable state. */
module CheckoutRecords {
  import opened Common
  import opened BillingModel
  import opened BillingLedger
  import opened BillingSteps
  import opened BillingTransactions
  import opened BillingEntitlements
  import opened CheckoutProtocol
  import opened CheckoutSafety
  import opened CheckoutOwners
  import opened CheckoutTheorems
  import opened CheckoutAnswers

  // ---------------------------------------------------------------- what was bought

  predicate Buys(c: Checkout, q: Request) {
    && Mine(c, q)
    && c.kind == q.draft.kind && c.item == q.draft.item && c.included == q.draft.included && c.days == q.draft.days
  }

  ghost predicate Ordered(c: Checkout, requests: seq<Request>) {
    exists r :: 0 <= r < |requests| && Buys(c, requests[r])
  }

  predicate SamePurchase(c: Checkout, c': Checkout) {
    && c'.actor == c.actor && c'.key == c.key && c'.kind == c.kind
    && c'.item == c.item && c'.included == c.included && c'.days == c.days
  }

  lemma PurchaseFixed(s: System, a: Action, anchor: string -> string, i: nat)
    requires Inv(s, anchor) && Can(s, a, anchor) && i < |s.store.checkouts|
    ensures i < |Do(s, a, anchor).store.checkouts|
    ensures SamePurchase(s.store.checkouts[i], Do(s, a, anchor).store.checkouts[i])
  {
    if a.Webhook? {
      WebhookRows(s.store, a.ev, a.now, anchor);
    } else if !Writes(a) {
      OthersWriteNothing(s, a, anchor, i);
    }
  }

  lemma NewRowIsOrdered(s: System, a: Action, anchor: string -> string, i: nat)
    requires Inv(s, anchor) && Can(s, a, anchor) && |s.store.checkouts| <= i < |Do(s, a, anchor).store.checkouts|
    ensures a.CommitIntent? && Buys(Do(s, a, anchor).store.checkouts[i], s.requests[a.r])
  {
    if a.Webhook? {
      WebhookRows(s.store, a.ev, a.now, anchor);
    }
  }

  lemma RequestFixed(s: System, a: Action, anchor: string -> string, r: nat)
    requires Can(s, a, anchor) && r < |s.requests|
    ensures r < |Do(s, a, anchor).requests|
    ensures Do(s, a, anchor).requests[r] == s.requests[r].(pc := Do(s, a, anchor).requests[r].pc)
  {
    if IsStepOf(a, r) {
      OwnStepMoves(s, a, anchor, r);
    } else {
      OthersLeaveRequest(s, a, anchor, r);
    }
  }

  /** Every row, in every reachable state, is what some request of its own actor and key asked for:
      kind, item, credit and days. */
  lemma {:induction false} RowsAreOrdered(actions: seq<Action>, anchor: string -> string, i: nat)
    requires Exec(actions, anchor).Some? && i < |Exec(actions, anchor).value.store.checkouts|
    ensures Ordered(Exec(actions, anchor).value.store.checkouts[i], Exec(actions, anchor).value.requests)
  {
    if actions == [] {
    } else {
      var front, a := actions[..|actions| - 1], actions[|actions| - 1];
      var s := Exec(front, anchor).value;
      ReachableInv(front, anchor);
      var r: nat;
      if i < |s.store.checkouts| {
        RowsAreOrdered(front, anchor, i);
        r :| r < |s.requests| && Buys(s.store.checkouts[i], s.requests[r]);
        PurchaseFixed(s, a, anchor, i);
      } else {
        NewRowIsOrdered(s, a, anchor, i);
        r := a.r;
      }
      RequestFixed(s, a, anchor, r);
      assert Buys(Do(s, a, anchor).store.checkouts[i], Do(s, a, anchor).requests[r]);
    }
  }

  // ---------------------------------------------------------------- the provider operation of every row

  /** Nobody doubts about a row that is not there. */
  lemma {:induction false} NoDoubtBefore(actions: seq<Action>, anchor: string -> string, i: nat)
    requires Exec(actions, anchor).Some? && |Exec(actions, anchor).value.store.checkouts| <= i
    ensures !DoubtedLast(actions, anchor, i)
  {
    if actions == [] {
    } else {
      var front, a := actions[..|actions| - 1], actions[|actions| - 1];
      var s := Exec(front, anchor).value;
      ReachableInv(front, anchor);
      StepMovesOn(s, a, anchor);
      NoDoubtBefore(front, anchor, i);
    }
  }

  predicate OperationSays(c: Checkout, doubted: bool) {
    c.operation ==
      if c.status == Failed then OperationFailed
      else if doubted then OutcomeUnknown
      else if c.linkId != "" then Completed
      else CallStarted
  }

  /** A step that leaves the row unbound. */
  lemma UnboundStep(s: System, a: Action, anchor: string -> string, i: nat, doubted: bool)
    requires Inv(s, anchor) && OwnersOk(s) && Can(s, a, anchor) && i < |s.store.checkouts|
    requires i < |Do(s, a, anchor).store.checkouts| && Do(s, a, anchor).store.checkouts[i].linkId == ""
    requires s.store.checkouts[i].linkId == "" && OperationSays(s.store.checkouts[i], doubted)
    ensures OperationSays(Do(s, a, anchor).store.checkouts[i], Doubts(s, a, i) || (!Binds(s, a, i) && doubted))
  {
    if s.store.checkouts[i].status == Failed {
      FailedRowIsFrozen(s, a, anchor, i);
    } else if a.Webhook? {
      WebhookRows(s.store, a.ev, a.now, anchor);
    } else if a.WriteBinding? {
      BindingBinds(s, a.r, anchor);
    } else if !Writes(a) {
      OthersWriteNothing(s, a, anchor, i);
    }
  }

  lemma BindingBinds(s: System, r: nat, anchor: string -> string)
    requires Inv(s, anchor) && Can(s, WriteBinding(r), anchor)
    ensures s.requests[r].pc.link.id != ""
  {
    assert PcOk(s.store.checkouts, s.posts, s.requests[r]);
    assert AcceptedPost(s.posts, s.store.checkouts[s.requests[r].pc.i].id, s.requests[r].pc.link);
  }

  lemma NewRowIsStarted(s: System, a: Action, anchor: string -> string, i: nat)
    requires Inv(s, anchor) && Can(s, a, anchor) && |s.store.checkouts| <= i < |Do(s, a, anchor).store.checkouts|
    ensures OperationSays(Do(s, a, anchor).store.checkouts[i], false) && !Doubts(s, a, i)
  {
    if a.Webhook? {
      WebhookRows(s.store, a.ev, a.now, anchor);
    }
  }

  /** In every reachable state the operation of every row says what became of its POST: failed
      exactly when the checkout is; unknown where a doubt was the latest write; completed where the
      row is bound; and otherwise still started. */
  lemma {:induction false} OperationTellsOutcome(actions: seq<Action>, anchor: string -> string, i: nat)
    requires Exec(actions, anchor).Some? && i < |Exec(actions, anchor).value.store.checkouts|
    ensures OperationSays(Exec(actions, anchor).value.store.checkouts[i], DoubtedLast(actions, anchor, i))
  {
    var s' := Exec(actions, anchor).value;
    ReachableInv(actions, anchor);
    if s'.store.checkouts[i].linkId != "" {
      OperationTellsLatestWrite(actions, anchor, i);
      assert RowOk(s'.store.checkouts[i], s'.posts);
      if s'.store.checkouts[i].status == Failed {
        FailedIsUnbound(s'.store.checkouts, s'.posts, i);
      }
    } else {
      var front, a := actions[..|actions| - 1], actions[|actions| - 1];
      var s := Exec(front, anchor).value;
      ReachableInv(front, anchor);
      if i < |s.store.checkouts| {
        OperationTellsOutcome(front, anchor, i);
        ReachableOwners(front, anchor);
        StepMovesOn(s, a, anchor);
        assert Later(s.store.checkouts[i], s'.store.checkouts[i]);
        UnboundStep(s, a, anchor, i, DoubtedLast(front, anchor, i));
      } else {
        NewRowIsStarted(s, a, anchor, i);
        NoDoubtBefore(front, anchor, i);
      }
    }
  }

  // ---------------------------------------------------------------- the ledger

  /** In every reachable state, spending included, each ledger row shows the balance its actor had
      right after it, never negative, and zero where a reversal could not take back everything; and
      no key is posted twice in one tenant. */
  lemma LedgerTellsBalances(actions: seq<Action>, anchor: string -> string, k: nat)
    requires Exec(actions, anchor).Some? && k < |Exec(actions, anchor).value.store.money.ledger|
    ensures var ledger := Exec(actions, anchor).value.store.money.ledger; var row := ledger[k];
      && row.balanceAfter == BalanceIn(ledger[..k + 1], row.actor)
      && row.unrecovered >= 0 && (row.unrecovered > 0 ==> row.balanceAfter == 0)
      && forall j :: 0 <= j < k && ledger[j].actor.tenant == row.actor.tenant ==> ledger[j].key != row.key
  {
    ReachableInv(actions, anchor);
    assert RowShape(Exec(actions, anchor).value.store.money.ledger[k]);
  }

  // ---------------------------------------------------------------- the transactions and the entitlements

  /** The checkout rows, transactions and entitlements tell one story. */
  ghost predicate Consonant(st: Store, anchor: string -> string) {
    TransactionsTell(st.checkouts, st.transactions, anchor) && ReasonsHold(st.checkouts, st.entitlements)
  }

  lemma IntentKeepsConsonant(st: Store, c: Checkout, anchor: string -> string)
    requires Consonant(st, anchor) && c.status == Pending && c.confirmedAt.None?
    ensures Consonant(st.(checkouts := st.checkouts + [c]), anchor)
  {
    var cs, cs' := st.checkouts, st.checkouts + [c];
    forall key | key in st.transactions ensures RecordsSome(cs', key, st.transactions[key], anchor) {
      assert RecordsSome(cs, key, st.transactions[key], anchor);
      var j :| 0 <= j < |cs| && Records(cs[j], key, st.transactions[key], anchor);
      assert Records(cs'[j], key, st.transactions[key], anchor);
    }
    forall a | a in st.entitlements ensures HasReason(cs', a, st.entitlements[a].reason) {
      assert HasReason(cs, a, st.entitlements[a].reason);
      var j :| 0 <= j < |cs| && GivesReason(cs[j], a, st.entitlements[a].reason);
      assert GivesReason(cs'[j], a, st.entitlements[a].reason);
    }
  }

  lemma WriteKeepsConsonant(st: Store, i: nat, c: Checkout, anchor: string -> string)
    requires Consonant(st, anchor) && i < |st.checkouts| && Written(st.checkouts[i], c)
    requires c.status != st.checkouts[i].status ==> st.checkouts[i].status == Pending
    ensures Consonant(st.(checkouts := st.checkouts[i := c]), anchor)
  {
    RewriteTells(st.checkouts, i, c, st.transactions, anchor);
    var cs, cs' := st.checkouts, st.checkouts[i := c];
    forall a | a in st.entitlements ensures HasReason(cs', a, st.entitlements[a].reason) {
      assert HasReason(cs, a, st.entitlements[a].reason);
      var j :| 0 <= j < |cs| && GivesReason(cs[j], a, st.entitlements[a].reason);
      assert GivesReason(cs'[j], a, st.entitlements[a].reason);
    }
  }

  lemma FailureIsWritten(s: System, r: nat, anchor: string -> string)
    requires Inv(s, anchor) && Can(s, WriteFailure(r), anchor)
    ensures var c := s.store.checkouts[s.requests[r].pc.i];
      Written(c, FailedRow(c)) && (c.status == Pending || c.status == Failed)
  {
    var c := s.store.checkouts[s.requests[r].pc.i];
    assert PcOk(s.store.checkouts, s.posts, s.requests[r]) && RowOk(c, s.posts) && CheckoutShape(c);
    if c.linkId != "" {
      RejectedIsNotAccepted(s.posts, c.id, Link(c.linkId, c.url));
    }
  }

  lemma StepKeepsConsonant(s: System, a: Action, anchor: string -> string)
    requires Inv(s, anchor) && Can(s, a, anchor) && Consonant(s.store, anchor)
    ensures Consonant(Do(s, a, anchor).store, anchor)
  {
    if a.CommitIntent? {
      IntentKeepsConsonant(s.store, Intent(s.requests[a.r], a.id), anchor);
    } else if a.WriteBinding? {
      var i := s.requests[a.r].pc.i;
      assert PcOk(s.store.checkouts, s.posts, s.requests[a.r]);
      BindingFacts(s, i, s.requests[a.r].pc.link, anchor);
      WriteKeepsConsonant(s.store, i, BoundRow(s.store.checkouts[i], s.requests[a.r].pc.link), anchor);
    } else if a.WriteFailure? {
      var i := s.requests[a.r].pc.i;
      FailureIsWritten(s, a.r, anchor);
      WriteKeepsConsonant(s.store, i, FailedRow(s.store.checkouts[i]), anchor);
    } else if a.WriteDoubt? {
      var i := s.requests[a.r].pc.i;
      WriteKeepsConsonant(s.store, i, DoubtedRow(s.store.checkouts[i]), anchor);
    } else if a.Webhook? {
      ProcessTells(s.store, a.ev, a.now, anchor);
      ProcessKeepsReasons(s.store, a.ev, a.now);
    } else if !a.SpendFrom? {
      OthersLeaveStore(s, a, anchor);
    }
  }

  /** In every reachable state the transactions are exactly the confirmations and reversals of the
      checkouts, one for each, and every entitlement gives as its reason the present status of a plan
      of its actor, a payment exactly when it is active. */
  lemma {:induction false} ReachableConsonant(actions: seq<Action>, anchor: string -> string)
    requires Exec(actions, anchor).Some?
    ensures Consonant(Exec(actions, anchor).value.store, anchor)
  {
    if actions == [] {
    } else {
      var front := actions[..|actions| - 1];
      ReachableConsonant(front, anchor);
      ReachableInv(front, anchor);
      StepKeepsConsonant(Exec(front, anchor).value, actions[|actions| - 1], anchor);
    }
  }
}
