/** The main results about checkouts: true of every state any interleaving can reach. */
module CheckoutTheorems {
  import opened Common
  import opened BillingModel
  import opened BillingLedger
  import opened BillingSteps
  import opened CheckoutProtocol
  import opened CheckoutSafety
  import opened CheckoutOwners

  lemma {:induction false} ReachableInv(actions: seq<Action>, anchor: string -> string)
    requires Exec(actions, anchor).Some?
    ensures Inv(Exec(actions, anchor).value, anchor)
  {
    if actions == [] {
    } else {
      var front := actions[..|actions| - 1];
      ReachableInv(front, anchor);
      StepKeepsInv(Exec(front, anchor).value, actions[|actions| - 1], anchor);
    }
  }

  /** Post `p` was sent for a checkout of this actor under this idempotency key. */
  ghost predicate PostedFor(s: System, p: int, actor: Actor, key: string) {
    && 0 <= p < |s.posts|
    && exists i :: 0 <= i < |s.store.checkouts| && s.store.checkouts[i].id == s.posts[p].ref
         && s.store.checkouts[i].actor == actor && s.store.checkouts[i].key == key
  }

  /** Whatever the retries, races and lost replies, one tenant, user and key post at most once. */
  lemma AtMostOnePost(actions: seq<Action>, anchor: string -> string, p: int, q: int, actor: Actor, key: string)
    requires Exec(actions, anchor).Some?
    requires PostedFor(Exec(actions, anchor).value, p, actor, key)
    requires PostedFor(Exec(actions, anchor).value, q, actor, key)
    ensures p == q
  {
    var s := Exec(actions, anchor).value;
    ReachableInv(actions, anchor);
    var i :| 0 <= i < |s.store.checkouts| && s.store.checkouts[i].id == s.posts[p].ref
      && s.store.checkouts[i].actor == actor && s.store.checkouts[i].key == key;
    var j :| 0 <= j < |s.store.checkouts| && s.store.checkouts[j].id == s.posts[q].ref
      && s.store.checkouts[j].actor == actor && s.store.checkouts[j].key == key;
    assert KeysDistinct(s.store.checkouts);
    assert i == j;
    SamePost(s.posts, p, q, anchor);
  }

  /** A bound checkout holds the id and url of the link its own POST made, and shares it with none. */
  lemma BoundToItsOwnLink(actions: seq<Action>, anchor: string -> string, i: nat)
    requires Exec(actions, anchor).Some? && i < |Exec(actions, anchor).value.store.checkouts|
    ensures var s := Exec(actions, anchor).value; var c := s.store.checkouts[i];
      && (c.linkId != "" ==> Post(c.id, Accepted(Link(c.linkId, c.url))) in s.posts)
      && (c.linkId != "" ==>
            forall k :: 0 <= k < |s.store.checkouts| && k != i ==> s.store.checkouts[k].linkId != c.linkId)
  {
    ReachableInv(actions, anchor);
    var s := Exec(actions, anchor).value;
    assert RowOk(s.store.checkouts[i], s.posts) && LinksDistinct(s.store.checkouts);
  }

  /** No request ever ends with the ambiguous lookup or the unexplained key conflict, and a
      request that returns a checkout returns its own actor's checkout under its own key. */
  lemma NoImpossibleError(actions: seq<Action>, anchor: string -> string, r: nat)
    requires Exec(actions, anchor).Some? && r < |Exec(actions, anchor).value.requests|
    ensures var q := Exec(actions, anchor).value.requests[r];
      && q.pc != Finished(Ambiguous) && q.pc != Finished(CheckoutConflict)
      && (q.pc.Finished? && q.pc.result.Returned? ==> q.pc.result.row.actor == q.actor && q.pc.result.row.key == q.key)
  {
    ReachableInv(actions, anchor);
    var s := Exec(actions, anchor).value;
    assert PcOk(s.store.checkouts, s.posts, s.requests[r]);
  }

  lemma MovedOnTransitive(a: Store, b: Store, c: Store)
    requires MovedOn(a, b) && MovedOn(b, c)
    ensures MovedOn(a, c)
  {
    forall i | 0 <= i < |a.checkouts| ensures Later(a.checkouts[i], c.checkouts[i]) {
      assert Later(a.checkouts[i], b.checkouts[i]) && Later(b.checkouts[i], c.checkouts[i]);
    }
  }

  /** A longer run is a shorter one and one more possible step. */
  lemma LastStep(actions: seq<Action>, more: seq<Action>, anchor: string -> string)
    requires more != [] && Exec(actions + more, anchor).Some?
    ensures var front, a := more[..|more| - 1], more[|more| - 1];
      && Exec(actions + front, anchor).Some?
      && Can(Exec(actions + front, anchor).value, a, anchor)
      && Exec(actions + more, anchor).value == Do(Exec(actions + front, anchor).value, a, anchor)
  {
    var front, a := more[..|more| - 1], more[|more| - 1];
    assert actions + more == (actions + front) + [a];
    ExecLast(actions + front, a, anchor);
  }

  lemma ExecLast(front: seq<Action>, a: Action, anchor: string -> string)
    requires Exec(front + [a], anchor).Some?
    ensures Exec(front, anchor).Some? && Can(Exec(front, anchor).value, a, anchor)
    ensures Exec(front + [a], anchor).value == Do(Exec(front, anchor).value, a, anchor)
  {
    assert (front + [a])[..|front|] == front;
  }

  /** From any reachable state on: a binding never changes, a failure stays, the ledger only grows. */
  lemma {:induction false} NothingIsUndone(actions: seq<Action>, more: seq<Action>, anchor: string -> string)
    requires Exec(actions, anchor).Some? && Exec(actions + more, anchor).Some?
    ensures MovedOn(Exec(actions, anchor).value.store, Exec(actions + more, anchor).value.store)
  {
    if more == [] {
      assert actions + more == actions;
    } else {
      var front := more[..|more| - 1];
      LastStep(actions, more, anchor);
      NothingIsUndone(actions, front, anchor);
      ReachableInv(actions + front, anchor);
      var s := Exec(actions + front, anchor).value;
      StepMovesOn(s, more[|more| - 1], anchor);
      MovedOnTransitive(Exec(actions, anchor).value.store, s.store, Exec(actions + more, anchor).value.store);
    }
  }

  /** A checkout the provider refused for good is not bound, not paid and not credited, now or in
      any later state. */
  lemma RefusedStaysRefused(actions: seq<Action>, more: seq<Action>, anchor: string -> string, i: nat)
    requires Exec(actions, anchor).Some? && Exec(actions + more, anchor).Some?
    requires i < |Exec(actions, anchor).value.store.checkouts|
    requires Exec(actions, anchor).value.store.checkouts[i].status == Failed
    ensures i < |Exec(actions + more, anchor).value.store.checkouts|
    ensures var s := Exec(actions + more, anchor).value; var c := s.store.checkouts[i];
      && c.id == Exec(actions, anchor).value.store.checkouts[i].id
      && c.status == Failed && c.linkId == "" && c.confirmedAt.None?
      && RowsOf(s.store.money.ledger, c.id, Credit) == []
  {
    NothingIsUndone(actions, more, anchor);
    ReachableInv(actions + more, anchor);
    var s := Exec(actions + more, anchor).value;
    assert Later(Exec(actions, anchor).value.store.checkouts[i], s.store.checkouts[i]);
    FailedIsUnbound(s.store.checkouts, s.posts, i);
    assert CheckoutShape(s.store.checkouts[i]) && CheckoutBooks(s.store.checkouts[i], s.store.money.ledger);
  }

  lemma {:induction false} ReachableOwners(actions: seq<Action>, anchor: string -> string)
    requires Exec(actions, anchor).Some?
    ensures OwnersOk(Exec(actions, anchor).value)
  {
    if actions == [] {
    } else {
      var front := actions[..|actions| - 1];
      ReachableInv(front, anchor);
      ReachableOwners(front, anchor);
      StepKeepsOwners(Exec(front, anchor).value, actions[|actions| - 1], anchor);
    }
  }

  /** Every retry under the key of a refused checkout is handed that same refused row, whatever any
      other party does meanwhile: in every later state it has not begun, is about to return the row
      it read, has returned it, or was refused as invalid before it looked; and the row is still
      what it was, column by column. */
  lemma {:induction false} RetryReturnsTheRefusal(actions: seq<Action>, more: seq<Action>, anchor: string -> string,
      i: nat, r: nat)
    requires Exec(actions, anchor).Some? && Exec(actions + more, anchor).Some?
    requires var s := Exec(actions, anchor).value;
      && i < |s.store.checkouts| && s.store.checkouts[i].status == Failed
      && r < |s.requests| && s.requests[r].pc == Start && Mine(s.store.checkouts[i], s.requests[r])
    ensures Retrying(Exec(actions + more, anchor).value, i, r, Exec(actions, anchor).value.store.checkouts[i])
  {
    if more == [] {
      assert actions + more == actions;
    } else {
      var front := more[..|more| - 1];
      LastStep(actions, more, anchor);
      RetryReturnsTheRefusal(actions, front, anchor, i, r);
      ReachableInv(actions + front, anchor);
      ReachableOwners(actions + front, anchor);
      RetryStep(Exec(actions + front, anchor).value, more[|more| - 1], anchor, i, r);
    }
  }

  /** The latest write into the operation column of row `i`, a doubt or a binding, was a doubt. */
  ghost predicate DoubtedLast(actions: seq<Action>, anchor: string -> string, i: nat)
    requires Exec(actions, anchor).Some?
  {
    if actions == [] then false
    else
      var front, a := actions[..|actions| - 1], actions[|actions| - 1];
      var s := Exec(front, anchor).value;
      Doubts(s, a, i) || (!Binds(s, a, i) && DoubtedLast(front, anchor, i))
  }

  /** "A bound checkout's operation is completed" is false. In every reachable state the operation
      of a bound checkout is completed exactly when the latest write into it was a binding, and
      outcome-unknown exactly when a late doubt came after the latest binding. */
  lemma {:induction false} OperationTellsLatestWrite(actions: seq<Action>, anchor: string -> string, i: nat)
    requires Exec(actions, anchor).Some? && i < |Exec(actions, anchor).value.store.checkouts|
    requires Exec(actions, anchor).value.store.checkouts[i].linkId != ""
    ensures Exec(actions, anchor).value.store.checkouts[i].operation ==
      if DoubtedLast(actions, anchor, i) then OutcomeUnknown else Completed
  {
    if actions == [] {
    } else {
      var front, a := actions[..|actions| - 1], actions[|actions| - 1];
      var s := Exec(front, anchor).value;
      ReachableInv(front, anchor);
      if i < |s.store.checkouts| && s.store.checkouts[i].linkId != "" {
        OperationTellsLatestWrite(front, anchor, i);
        OperationStep(s, a, anchor, i);
      } else {
        FirstBinding(s, a, anchor, i);
      }
    }
  }

  /** From a reachable state with a bound and completed checkout, one step leaves it not completed
      exactly when it is the write of a request that gave up on its reply. */
  lemma CompletionUndoneExactlyWhen(actions: seq<Action>, a: Action, anchor: string -> string, i: nat)
    requires Exec(actions, anchor).Some? && Can(Exec(actions, anchor).value, a, anchor)
    requires i < |Exec(actions, anchor).value.store.checkouts|
    requires var c := Exec(actions, anchor).value.store.checkouts[i]; c.linkId != "" && c.operation == Completed
    ensures i < |Do(Exec(actions, anchor).value, a, anchor).store.checkouts|
    ensures var s := Exec(actions, anchor).value;
      Do(s, a, anchor).store.checkouts[i].operation != Completed <==> Doubts(s, a, i)
  {
    ReachableInv(actions, anchor);
    OperationStep(Exec(actions, anchor).value, a, anchor, i);
  }

  /** Money is conserved in every reachable state, spending included: each wallet's balance is
      what was credited less what was debited, wallet and ledger agree, nothing is negative, and
      what could not be taken back is exactly what is quarantined. */
  lemma MoneyIsConserved(actions: seq<Action>, anchor: string -> string, a: Actor)
    requires Exec(actions, anchor).Some?
    ensures var m := Exec(actions, anchor).value.store.money; var w := WalletOf(m.wallets, a);
      && w.balance == w.credited - w.debited == Total(m.ledger, a, Credit) - Total(m.ledger, a, Debit)
      && w.balance >= 0 && w.quarantined == Unrecovered(m.ledger, a)
      && (w.status == Quarantined <==> w.quarantined > 0)
  {
    ReachableInv(actions, anchor);
    var m := Exec(actions, anchor).value.store.money;
    assert WalletMatches(WalletOf(m.wallets, a), m.ledger, a);
  }

  /** One credit and one full reversal at most, for every checkout in every reachable state. */
  lemma CreditedAndReversedOnce(actions: seq<Action>, anchor: string -> string, i: nat)
    requires Exec(actions, anchor).Some? && i < |Exec(actions, anchor).value.store.checkouts|
    ensures var s := Exec(actions, anchor).value.store; var c := s.checkouts[i];
      CheckoutShape(c) && CheckoutBooks(c, s.money.ledger)
  {
    ReachableInv(actions, anchor);
    var s := Exec(actions, anchor).value;
    assert CheckoutShape(s.store.checkouts[i]) && CheckoutBooks(s.store.checkouts[i], s.store.money.ledger);
  }

  predicate NoSpending(actions: seq<Action>) {
    forall k :: 0 <= k < |actions| ==> !actions[k].SpendFrom?
  }

  lemma {:induction false} ReachableSolvent(actions: seq<Action>, anchor: string -> string)
    requires Exec(actions, anchor).Some? && NoSpending(actions)
    ensures StoreSolvent(Exec(actions, anchor).value.store)
  {
    if actions == [] {
    } else {
      var front := actions[..|actions| - 1];
      assert forall k :: 0 <= k < |front| ==> front[k] == actions[k];
      ReachableSolvent(front, anchor);
      ReachableInv(front, anchor);
      StepKeepsSolvent(Exec(front, anchor).value, actions[|actions| - 1], anchor);
    }
  }

  /** Where nothing is spent, each balance is the credit of what its actor has paid for now, and
      no wallet is quarantined. */
  lemma BalanceIsPaidCredit(actions: seq<Action>, anchor: string -> string, a: Actor)
    requires Exec(actions, anchor).Some? && NoSpending(actions)
    ensures var st := Exec(actions, anchor).value.store;
      && WalletOf(st.money.wallets, a).balance == PaidCredit(st.checkouts, a)
      && WalletOf(st.money.wallets, a).status == WalletActive
  {
    ReachableSolvent(actions, anchor);
    MoneyIsConserved(actions, anchor, a);
  }

  /** An active entitlement always names a plan checkout of its own actor that is still paid, and
      expires 1 to 366 days after that checkout's one confirmation. */
  lemma EntitlementIsPaidFor(actions: seq<Action>, anchor: string -> string, a: Actor)
    requires Exec(actions, anchor).Some? && a in Exec(actions, anchor).value.store.entitlements
    requires Exec(actions, anchor).value.store.entitlements[a].active
    ensures var st := Exec(actions, anchor).value.store; var e := st.entitlements[a];
      && (exists i :: 0 <= i < |st.checkouts| && Backs(st.checkouts[i], a, e))
      && e.lastPaymentAt + SECONDS_PER_DAY <= e.expiresAt <= e.lastPaymentAt + 366 * SECONDS_PER_DAY
  {
    ReachableInv(actions, anchor);
    var st := Exec(actions, anchor).value.store;
    assert IsBacked(st.checkouts, a, st.entitlements[a]);
  }
}
