/** Who may still write an outcome into a checkout row: the request that committed its intent, and
    nobody once the row is marked failed. */
module CheckoutOwners {
  import opened Common
  import opened BillingModel
  import opened BillingLedger
  import opened BillingSteps
  import opened CheckoutProtocol
  import opened CheckoutSafety

  /** The row whose POST a request has yet to settle. */
  function Owned(pc: Pc): Option<nat> {
    match pc
    case Committed(i) => Some(i)
    case Waiting(i) => Some(i)
    case Failing(i) => Some(i)
    case Doubting(i) => Some(i)
    case _ => None
  }

  ghost predicate OneOwner(requests: seq<Request>) {
    forall r, t :: 0 <= r < |requests| && 0 <= t < |requests| && r != t && Owned(requests[r].pc).Some? ==>
      Owned(requests[r].pc) != Owned(requests[t].pc)
  }

  /** An owned row is there, and not failed. */
  predicate OwnsLive(cs: seq<Checkout>, pc: Pc) {
    Owned(pc).Some? ==> Owned(pc).value < |cs| && cs[Owned(pc).value].status != Failed
  }

  ghost predicate OwnersLive(cs: seq<Checkout>, requests: seq<Request>) {
    forall r :: 0 <= r < |requests| ==> OwnsLive(cs, requests[r].pc)
  }

  ghost predicate OwnersOk(s: System) {
    OneOwner(s.requests) && OwnersLive(s.store.checkouts, s.requests)
  }

  // ---------------------------------------------------------------- every step keeps the owners

  /** A request that goes on with its own row, or lets it go. */
  lemma GoOn(requests: seq<Request>, cs: seq<Checkout>, r: nat, pc: Pc)
    requires OneOwner(requests) && OwnersLive(cs, requests) && r < |requests|
    requires Owned(pc).Some? ==> Owned(pc) == Owned(requests[r].pc)
    ensures var requests' := requests[r := requests[r].(pc := pc)]; OneOwner(requests') && OwnersLive(cs, requests')
  {
    var requests' := requests[r := requests[r].(pc := pc)];
    forall t | 0 <= t < |requests| ensures OwnsLive(cs, requests'[t].pc) {
      assert OwnsLive(cs, requests[t].pc) && OwnsLive(cs, requests[r].pc);
    }
  }

  /** A request that takes a row that was not there before. */
  lemma TakeOwn(requests: seq<Request>, cs: seq<Checkout>, c: Checkout, r: nat)
    requires OneOwner(requests) && OwnersLive(cs, requests) && r < |requests| && c.status != Failed
    ensures var requests' := requests[r := requests[r].(pc := Committed(|cs|))];
      OneOwner(requests') && OwnersLive(cs + [c], requests')
  {
    var requests' := requests[r := requests[r].(pc := Committed(|cs|))];
    forall t | 0 <= t < |requests| && t != r
      ensures Owned(requests'[t].pc) != Some(|cs|) && OwnsLive(cs + [c], requests'[t].pc)
    {
      assert OwnsLive(cs, requests[t].pc);
    }
  }

  lemma RowsKeepOwners(cs: seq<Checkout>, cs': seq<Checkout>, requests: seq<Request>)
    requires OwnersLive(cs, requests) && |cs| <= |cs'|
    requires forall i :: 0 <= i < |cs| && cs'[i].status == Failed ==> cs[i].status == Failed
    ensures OwnersLive(cs', requests)
  {
    forall r | 0 <= r < |requests| ensures OwnsLive(cs', requests[r].pc) {
      assert OwnsLive(cs, requests[r].pc);
    }
  }

  /** Failing a row lets go of it, and nobody else owned it. */
  lemma FailLetsGo(requests: seq<Request>, cs: seq<Checkout>, r: nat)
    requires OneOwner(requests) && OwnersLive(cs, requests) && r < |requests| && requests[r].pc.Failing?
    ensures requests[r].pc.i < |cs|
    ensures var i := requests[r].pc.i;
      var requests' := requests[r := requests[r].(pc := Finished(ProviderFailed))];
      OneOwner(requests') && OwnersLive(cs[i := FailedRow(cs[i])], requests')
  {
    assert OwnsLive(cs, requests[r].pc);
    var i := requests[r].pc.i;
    var requests' := requests[r := requests[r].(pc := Finished(ProviderFailed))];
    var cs' := cs[i := FailedRow(cs[i])];
    forall t | 0 <= t < |requests| ensures OwnsLive(cs', requests'[t].pc) {
      assert OwnsLive(cs, requests[t].pc);
      assert t != r ==> Owned(requests[r].pc) != Owned(requests[t].pc);
    }
  }

  lemma WriteKeepsOwners(s: System, a: Action, anchor: string -> string)
    requires OwnersOk(s) && Can(s, a, anchor) && (a.WriteBinding? || a.WriteDoubt?)
    ensures OwnersOk(Do(s, a, anchor))
  {
    var cs, cs' := s.store.checkouts, Do(s, a, anchor).store.checkouts;
    GoOn(s.requests, cs, a.r, Do(s, a, anchor).requests[a.r].pc);
    RowsKeepOwners(cs, cs', Do(s, a, anchor).requests);
  }

  lemma MoveKeepsOwners(s: System, a: Action, anchor: string -> string)
    requires OwnersOk(s) && Can(s, a, anchor)
    requires
      || a.LookUp? || a.Refuse? || a.ReadWinner? || a.SendPost? || a.RefusedLocally? || a.ReplyAccepted?
      || a.ReplyRejected? || a.ReplyUnknown? || a.Reconcile? || a.SearchFails?
    ensures OwnersOk(Do(s, a, anchor))
  {
    GoOn(s.requests, s.store.checkouts, a.r, Do(s, a, anchor).requests[a.r].pc);
  }

  lemma CommitKeepsOwners(s: System, r: nat, id: string, anchor: string -> string)
    requires OwnersOk(s) && Can(s, CommitIntent(r, id), anchor)
    ensures OwnersOk(Do(s, CommitIntent(r, id), anchor))
  {
    if FindByKey(s.store.checkouts, s.requests[r].actor, s.requests[r].key).Some? {
      GoOn(s.requests, s.store.checkouts, r, Conflict);
    } else {
      TakeOwn(s.requests, s.store.checkouts, Intent(s.requests[r], id), r);
    }
  }

  lemma ArriveKeepsOwners(requests: seq<Request>, cs: seq<Checkout>, q: Request)
    requires OneOwner(requests) && OwnersLive(cs, requests) && q.pc == Start
    ensures OneOwner(requests + [q]) && OwnersLive(cs, requests + [q])
  {
    forall r | 0 <= r < |requests + [q]| ensures OwnsLive(cs, (requests + [q])[r].pc) {
      assert r < |requests| ==> OwnsLive(cs, requests[r].pc);
    }
  }

  lemma StepKeepsOwners(s: System, a: Action, anchor: string -> string)
    requires Inv(s, anchor) && OwnersOk(s) && Can(s, a, anchor)
    ensures OwnersOk(Do(s, a, anchor))
  {
    match a
    case Arrive(actor, key, draft) =>
      ArriveKeepsOwners(s.requests, s.store.checkouts, Request(actor, key, draft, Start));
    case CommitIntent(r, id) => CommitKeepsOwners(s, r, id, anchor);
    case WriteFailure(r) => FailLetsGo(s.requests, s.store.checkouts, r);
    case WriteBinding(_) => WriteKeepsOwners(s, a, anchor);
    case WriteDoubt(_) => WriteKeepsOwners(s, a, anchor);
    case Webhook(ev, now) =>
      WebhookRows(s.store, ev, now, anchor);
      RowsKeepOwners(s.store.checkouts, ProcessWebhook(s.store, ev, now).0.checkouts, s.requests);
    case ProviderAccepts(_, _) =>
    case ProviderRejects(_) =>
    case SpendFrom(_, _, _) =>
    case _ => MoveKeepsOwners(s, a, anchor);
  }

  // ---------------------------------------------------------------- a failed row

  predicate Writes(a: Action) {
    a.WriteFailure? || a.WriteDoubt? || a.WriteBinding? || a.Webhook?
  }

  /** Only four kinds of steps write into rows that are there. */
  lemma OthersWriteNothing(s: System, a: Action, anchor: string -> string, i: nat)
    requires Can(s, a, anchor) && i < |s.store.checkouts| && !Writes(a)
    ensures i < |Do(s, a, anchor).store.checkouts| && Do(s, a, anchor).store.checkouts[i] == s.store.checkouts[i]
  {}

  lemma NotOwned(s: System, r: nat, i: nat)
    requires OwnersOk(s) && r < |s.requests| && i < |s.store.checkouts| && s.store.checkouts[i].status == Failed
    ensures Owned(s.requests[r].pc) != Some(i)
  {
    assert OwnsLive(s.store.checkouts, s.requests[r].pc);
  }

  /** Nobody holds a link for a failed row. */
  lemma NotBinding(s: System, r: nat, i: nat, anchor: string -> string)
    requires Inv(s, anchor) && r < |s.requests| && i < |s.store.checkouts| && s.store.checkouts[i].status == Failed
    ensures s.requests[r].pc.Binding? ==> s.requests[r].pc.i != i
  {
    assert PcOk(s.store.checkouts, s.posts, s.requests[r]) && RowOk(s.store.checkouts[i], s.posts);
    if s.requests[r].pc.Binding? {
      RejectedIsNotAccepted(s.posts, s.store.checkouts[i].id, s.requests[r].pc.link);
    }
  }

  /** No step of any party changes any column of a failed row. */
  lemma FailedRowIsFrozen(s: System, a: Action, anchor: string -> string, i: nat)
    requires Inv(s, anchor) && OwnersOk(s) && Can(s, a, anchor)
    requires i < |s.store.checkouts| && s.store.checkouts[i].status == Failed
    ensures i < |Do(s, a, anchor).store.checkouts|
    ensures Do(s, a, anchor).store.checkouts[i] == s.store.checkouts[i]
  {
    if a.WriteFailure? || a.WriteDoubt? {
      NotOwned(s, a.r, i);
    } else if a.WriteBinding? {
      NotBinding(s, a.r, i, anchor);
    } else if a.Webhook? {
      WebhookRows(s.store, a.ev, a.now, anchor);
      FailedIsUnbound(s.store.checkouts, s.posts, i);
    } else {
      OthersWriteNothing(s, a, anchor, i);
    }
  }

  // ---------------------------------------------------------------- a retry of a failed checkout

  /** How far a retry can be that started when row `i` was already failed. */
  predicate RetryAt(pc: Pc, i: nat, row: Checkout) {
    pc == Start || pc == Reconciling(i, row) || pc == Finished(Returned(row)) || pc == Finished(Invalid)
  }

  /** Row `i` is this failed row, and request `r` is a retry for it. */
  predicate Retrying(s: System, i: nat, r: nat, row: Checkout) {
    && i < |s.store.checkouts| && s.store.checkouts[i] == row
    && r < |s.requests| && Mine(row, s.requests[r]) && RetryAt(s.requests[r].pc, i, row)
  }

  lemma RetryLooksUp(s: System, r: nat, i: nat, anchor: string -> string)
    requires Inv(s, anchor) && r < |s.requests| && i < |s.store.checkouts| && Mine(s.store.checkouts[i], s.requests[r])
    ensures FindByKey(s.store.checkouts, s.requests[r].actor, s.requests[r].key) == Some(i)
  {
    assert KeysDistinct(s.store.checkouts);
  }

  lemma RetryStep(s: System, a: Action, anchor: string -> string, i: nat, r: nat)
    requires Inv(s, anchor) && OwnersOk(s) && Can(s, a, anchor)
    requires i < |s.store.checkouts| && s.store.checkouts[i].status == Failed && Retrying(s, i, r, s.store.checkouts[i])
    ensures Retrying(Do(s, a, anchor), i, r, s.store.checkouts[i])
  {
    FailedRowIsFrozen(s, a, anchor, i);
    RetryLooksUp(s, r, i, anchor);
    FailedIsUnbound(s.store.checkouts, s.posts, i);
    RetryMoves(s, a, anchor, i, r);
  }

  lemma RetryMoves(s: System, a: Action, anchor: string -> string, i: nat, r: nat)
    requires Can(s, a, anchor) && i < |s.store.checkouts| && r < |s.requests|
    requires var row := s.store.checkouts[i];
      row.status == Failed && row.linkId == "" && RetryAt(s.requests[r].pc, i, row)
    requires FindByKey(s.store.checkouts, s.requests[r].actor, s.requests[r].key) == Some(i)
    ensures var s' := Do(s, a, anchor);
      && r < |s'.requests| && s'.requests[r] == s.requests[r].(pc := s'.requests[r].pc)
      && RetryAt(s'.requests[r].pc, i, s.store.checkouts[i])
  {}

  // ---------------------------------------------------------------- the provider operation column

  /** The step records an unknown outcome in row `i`. */
  predicate Doubts(s: System, a: Action, i: nat) {
    a.WriteDoubt? && a.r < |s.requests| && s.requests[a.r].pc == Doubting(i)
  }

  /** The step binds row `i`, for the first time or again. */
  predicate Binds(s: System, a: Action, i: nat) {
    a.WriteBinding? && a.r < |s.requests| && s.requests[a.r].pc.Binding? && s.requests[a.r].pc.i == i
  }

  /** A failure is never written into a bound row. */
  lemma BoundIsNotFailing(s: System, r: nat, i: nat, anchor: string -> string)
    requires Inv(s, anchor) && r < |s.requests| && i < |s.store.checkouts| && s.store.checkouts[i].linkId != ""
    ensures s.requests[r].pc != Failing(i)
  {
    assert PcOk(s.store.checkouts, s.posts, s.requests[r]) && RowOk(s.store.checkouts[i], s.posts);
    if s.requests[r].pc == Failing(i) {
      RejectedIsNotAccepted(s.posts, s.store.checkouts[i].id,
                            Link(s.store.checkouts[i].linkId, s.store.checkouts[i].url));
    }
  }

  /** What a step does to the operation of a bound row: a doubt makes it unknown, a binding makes it
      completed, and nothing else touches it. In particular a completed operation is undone by a
      late doubt and by nothing else. */
  lemma OperationStep(s: System, a: Action, anchor: string -> string, i: nat)
    requires Inv(s, anchor) && Can(s, a, anchor) && i < |s.store.checkouts| && s.store.checkouts[i].linkId != ""
    ensures i < |Do(s, a, anchor).store.checkouts|
    ensures Do(s, a, anchor).store.checkouts[i].operation ==
      if Doubts(s, a, i) then OutcomeUnknown else if Binds(s, a, i) then Completed else s.store.checkouts[i].operation
  {
    if a.Webhook? {
      WebhookRows(s.store, a.ev, a.now, anchor);
    } else if Writes(a) {
      OperationWritten(s, a, anchor, i);
    } else {
      OthersWriteNothing(s, a, anchor, i);
    }
  }

  lemma OperationWritten(s: System, a: Action, anchor: string -> string, i: nat)
    requires Inv(s, anchor) && Can(s, a, anchor) && i < |s.store.checkouts| && s.store.checkouts[i].linkId != ""
    requires a.WriteFailure? || a.WriteDoubt? || a.WriteBinding?
    ensures i < |Do(s, a, anchor).store.checkouts|
    ensures Do(s, a, anchor).store.checkouts[i].operation ==
      if Doubts(s, a, i) then OutcomeUnknown else if Binds(s, a, i) then Completed else s.store.checkouts[i].operation
  {
    BoundIsNotFailing(s, a.r, i, anchor);
  }

  /** A row is bound by a binding, and that completes its operation. */
  lemma FirstBinding(s: System, a: Action, anchor: string -> string, i: nat)
    requires Inv(s, anchor) && Can(s, a, anchor)
    requires i < |s.store.checkouts| ==> s.store.checkouts[i].linkId == ""
    requires i < |Do(s, a, anchor).store.checkouts| && Do(s, a, anchor).store.checkouts[i].linkId != ""
    ensures Binds(s, a, i) && Do(s, a, anchor).store.checkouts[i].operation == Completed
  {
    if i >= |s.store.checkouts| {
      NewRowIsUnbound(s, a, anchor, i);
    } else if a.Webhook? {
      WebhookRows(s.store, a.ev, a.now, anchor);
    } else if !Writes(a) {
      OthersWriteNothing(s, a, anchor, i);
    }
  }

  lemma NewRowIsUnbound(s: System, a: Action, anchor: string -> string, i: nat)
    requires Inv(s, anchor) && Can(s, a, anchor) && |s.store.checkouts| <= i < |Do(s, a, anchor).store.checkouts|
    ensures Do(s, a, anchor).store.checkouts[i].linkId == ""
  {
    if a.Webhook? {
      WebhookRows(s.store, a.ev, a.now, anchor);
    }
  }
}
