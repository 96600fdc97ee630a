/** Two runs of the checkout protocol that end in states one might not expect. */
module CheckoutTraces {
  import opened Common
  import opened BillingModel
  import opened BillingLedger
  import opened BillingRuns
  import opened CheckoutProtocol

  const BUYER := Actor("tenant", "user")
  const DRAFT := Draft(Topup, "item", 5, 0)
  const LINK := Link("L", "url")
  const QUESTION := Request(BUYER, "key", DRAFT, Start)
  const INTENT := Checkout("c", BUYER, "key", Topup, "item", 5, 0, Pending, "", "", "", CallStarted, None, None)
  const CONFIRMATION := Event("confirmation", "PAYMENT_CONFIRMED", "P", "L", "")

  function ToLink(ref: string): string {
    "L"
  }

  /** The state with one row, its accepted POST, and two requests of the same key. */
  function At(c: Checkout, first: Pc, second: Pc): System {
    System(EMPTY_STORE.(checkouts := [c]), [Post("c", Accepted(LINK))],
           [QUESTION.(pc := first), QUESTION.(pc := second)])
  }

  lemma Next(actions: seq<Action>, s: System, a: Action)
    requires Exec(actions, ToLink) == Some(s) && Can(s, a, ToLink)
    ensures Exec(actions + [a], ToLink) == Some(Do(s, a, ToLink))
  {
    assert (actions + [a])[..|actions|] == actions;
  }

  // ---------------------------------------------------------------- the common beginning

  const ARRIVALS := [Arrive(BUYER, "key", DRAFT), Arrive(BUYER, "key", DRAFT), LookUp(0)]

  /** Two requests arrive under one key, and the first finds no row. */
  lemma TwoArrive()
    ensures Exec(ARRIVALS, ToLink) == Some(System(EMPTY_STORE, [], [QUESTION.(pc := Inserting), QUESTION]))
  {
    var a := Arrive(BUYER, "key", DRAFT);
    Next([], INITIAL, a);
    var s1 := System(EMPTY_STORE, [], [QUESTION]);
    assert [] + [a] == [a] && Do(INITIAL, a, ToLink) == s1;
    Next([a], s1, a);
    var s2 := System(EMPTY_STORE, [], [QUESTION, QUESTION]);
    assert [a] + [a] == [a, a] && Do(s1, a, ToLink) == s2;
    Next([a, a], s2, LookUp(0));
    assert [a, a] + [LookUp(0)] == ARRIVALS;
    assert Do(s2, LookUp(0), ToLink).requests == [QUESTION.(pc := Inserting), QUESTION];
  }

  const SENT := ARRIVALS + [CommitIntent(0, "c")] + [SendPost(0)]
  const POSTED := SENT + [ProviderAccepts(0, LINK)]

  /** The first request commits its intent and posts. */
  lemma OnePosts()
    ensures Exec(SENT, ToLink) == Some(System(EMPTY_STORE.(checkouts := [INTENT]), [Post("c", InFlight)],
                                              [QUESTION.(pc := Waiting(0)), QUESTION]))
  {
    TwoArrive();
    var s1 := System(EMPTY_STORE, [], [QUESTION.(pc := Inserting), QUESTION]);
    Next(ARRIVALS, s1, CommitIntent(0, "c"));
    var s2 := System(EMPTY_STORE.(checkouts := [INTENT]), [], [QUESTION.(pc := Committed(0)), QUESTION]);
    assert Do(s1, CommitIntent(0, "c"), ToLink) == s2;
    Next(ARRIVALS + [CommitIntent(0, "c")], s2, SendPost(0));
    assert Do(s2, SendPost(0), ToLink).posts == [Post("c", InFlight)];
    assert Do(s2, SendPost(0), ToLink).requests == [QUESTION.(pc := Waiting(0)), QUESTION];
  }

  /** The provider makes the link; the reply is on its way. */
  lemma OneAccepted()
    ensures Exec(POSTED, ToLink) == Some(At(INTENT, Waiting(0), Start))
  {
    OnePosts();
    var s := System(EMPTY_STORE.(checkouts := [INTENT]), [Post("c", InFlight)],
                    [QUESTION.(pc := Waiting(0)), QUESTION]);
    Next(SENT, s, ProviderAccepts(0, LINK));
    assert Do(s, ProviderAccepts(0, LINK), ToLink) == At(INTENT, Waiting(0), Start);
  }

  // ---------------------------------------------------------------- a late doubt

  const LOOKED_UP := POSTED + [ReplyUnknown(0)] + [LookUp(1)]
  const RECONCILED := LOOKED_UP + [Reconcile(1, {0})]
  const DOUBTED := RECONCILED + [WriteBinding(1)] + [WriteDoubt(0)]

  /** The reply is lost; the second request finds the row. */
  lemma SecondFindsRow()
    ensures Exec(LOOKED_UP, ToLink) == Some(At(INTENT, Doubting(0), Reconciling(0, INTENT)))
  {
    OneAccepted();
    Next(POSTED, At(INTENT, Waiting(0), Start), ReplyUnknown(0));
    assert Do(At(INTENT, Waiting(0), Start), ReplyUnknown(0), ToLink) == At(INTENT, Doubting(0), Start);
    Next(POSTED + [ReplyUnknown(0)], At(INTENT, Doubting(0), Start), LookUp(1));
    assert Do(At(INTENT, Doubting(0), Start), LookUp(1), ToLink) == At(INTENT, Doubting(0), Reconciling(0, INTENT));
  }

  /** It looks the link up. */
  lemma SecondReconciles()
    ensures Exec(RECONCILED, ToLink) == Some(At(INTENT, Doubting(0), Binding(0, LINK)))
  {
    SecondFindsRow();
    var s := At(INTENT, Doubting(0), Reconciling(0, INTENT));
    OneAnswer(s);
    Next(LOOKED_UP, s, Reconcile(1, {0}));
    assert Do(s, Reconcile(1, {0}), ToLink) == At(INTENT, Doubting(0), Binding(0, LINK));
  }

  lemma OneAnswer(s: System)
    requires |s.store.checkouts| == 1 && s.store.checkouts[0] == INTENT && s.posts == [Post("c", Accepted(LINK))]
    ensures ValidAnswer(s, 0, {0}) && Reconciled(s, 0, INTENT, {0}) == Binding(0, LINK)
  {
    var answer: set<nat> := {0};
    assert 0 in answer && |answer| == 1;
  }

  /** The second request binds the checkout, and then the first writes that it does not know its
      outcome: the checkout is bound and its operation is not completed. */
  lemma BoundButOutcomeUnknown()
    ensures Exec(DOUBTED, ToLink).Some?
    ensures var cs := Exec(DOUBTED, ToLink).value.store.checkouts;
      |cs| == 1 && cs[0].linkId == "L" && cs[0].operation == OutcomeUnknown
  {
    SecondReconciles();
    var s1 := At(INTENT, Doubting(0), Binding(0, LINK));
    Next(RECONCILED, s1, WriteBinding(1));
    var c := BoundRow(INTENT, LINK);
    var s2 := At(c, Doubting(0), Finished(Returned(c)));
    assert Do(s1, WriteBinding(1), ToLink) == s2;
    Next(RECONCILED + [WriteBinding(1)], s2, WriteDoubt(0));
    assert Do(s2, WriteDoubt(0), ToLink).store.checkouts == [DoubtedRow(c)];
  }

  // ---------------------------------------------------------------- a confirmation that comes too early

  const EARLY := POSTED + [Webhook(CONFIRMATION, 1)]

  lemma EarlyIsIgnored()
    ensures ProcessWebhook(EMPTY_STORE.(checkouts := [INTENT]), CONFIRMATION, 1).0
      == EMPTY_STORE.(checkouts := [INTENT],
                      events := map[EventKey(CONFIRMATION) := EventIgnored("PAYMENT_CONFIRMED", "")])
  {
    assert CheckoutForProvider([INTENT], CONFIRMATION) == None;
  }

  const BOUND := EARLY + [ReplyAccepted(0, 0)] + [WriteBinding(0)]
  const REDELIVERED := BOUND + [Webhook(CONFIRMATION, 2)]
  const SPENT := map[EventKey(CONFIRMATION) := EventIgnored("PAYMENT_CONFIRMED", "")]

  lemma BoundAfterConfirmation()
    ensures Exec(BOUND, ToLink).Some?
    ensures Exec(BOUND, ToLink).value.store == EMPTY_STORE.(checkouts := [BoundRow(INTENT, LINK)], events := SPENT)
  {
    OneAccepted();
    EarlyIsIgnored();
    var s0 := At(INTENT, Waiting(0), Start);
    Next(POSTED, s0, Webhook(CONFIRMATION, 1));
    var s1 := s0.(store := EMPTY_STORE.(checkouts := [INTENT], events := SPENT));
    assert Do(s0, Webhook(CONFIRMATION, 1), ToLink) == s1;
    Next(EARLY, s1, ReplyAccepted(0, 0));
    var s2 := s1.(requests := [QUESTION.(pc := Binding(0, LINK)), QUESTION]);
    assert Do(s1, ReplyAccepted(0, 0), ToLink) == s2;
    Next(EARLY + [ReplyAccepted(0, 0)], s2, WriteBinding(0));
    assert Do(s2, WriteBinding(0), ToLink).store.checkouts == [BoundRow(INTENT, LINK)];
  }

  /** The provider accepts the POST and confirms the payment before the link is written. The
      confirmation is consumed; bound and confirmed again, the checkout stays pending, without
      credit. */
  lemma BoundButNeverCredited()
    ensures Exec(REDELIVERED, ToLink).Some?
    ensures var st := Exec(REDELIVERED, ToLink).value.store;
      && |st.checkouts| == 1 && st.checkouts[0].linkId == "L" && st.checkouts[0].status == Pending
      && st.money == Money(map[], [])
  {
    BoundAfterConfirmation();
    Next(BOUND, Exec(BOUND, ToLink).value, Webhook(CONFIRMATION, 2));
  }
}
