/** What each request of the checkout protocol is answered, and by which of its own steps. */
module CheckoutAnswers {
  import opened Common
  import opened BillingModel
  import opened BillingLedger
  import opened CheckoutProtocol
  import opened CheckoutSafety
  import opened CheckoutOwners
  import opened CheckoutTheorems

  /** The steps of one request. */
  predicate IsStepOf(a: Action, r: nat) {
    match a
    case LookUp(t) => t == r
    case Refuse(t) => t == r
    case CommitIntent(t, _) => t == r
    case ReadWinner(t) => t == r
    case SendPost(t) => t == r
    case RefusedLocally(t) => t == r
    case ReplyAccepted(t, _) => t == r
    case ReplyRejected(t, _) => t == r
    case ReplyUnknown(t) => t == r
    case Reconcile(t, _) => t == r
    case SearchFails(t) => t == r
    case WriteBinding(t) => t == r
    case WriteFailure(t) => t == r
    case WriteDoubt(t) => t == r
    case _ => false
  }

  /** Every other step leaves the request where it is. */
  lemma OthersLeaveRequest(s: System, a: Action, anchor: string -> string, r: nat)
    requires Can(s, a, anchor) && r < |s.requests| && !IsStepOf(a, r)
    ensures r < |Do(s, a, anchor).requests| && Do(s, a, anchor).requests[r] == s.requests[r]
  {}

  /** Its own steps move it on, and nothing else about it. */
  lemma OwnStepMoves(s: System, a: Action, anchor: string -> string, r: nat)
    requires Can(s, a, anchor) && IsStepOf(a, r)
    ensures r < |s.requests| && !s.requests[r].pc.Finished?
    ensures r < |Do(s, a, anchor).requests|
    ensures Do(s, a, anchor).requests[r] == s.requests[r].(pc := Do(s, a, anchor).requests[r].pc)
  {}

  // ---------------------------------------------------------------- a retry of a bound checkout

  predicate SameBinding(c: Checkout, row: Checkout) {
    c.id == row.id && c.linkId == row.linkId && c.url == row.url
  }

  /** How far a retry can be that started when row `i` was already bound. */
  predicate RereadAt(pc: Pc, i: nat, row: Checkout) {
    || pc == Start
    || (pc.Reconciling? && pc.i == i && SameBinding(pc.seen, row))
    || (pc.Finished? && pc.result.Returned? && SameBinding(pc.result.row, row))
    || pc == Finished(Invalid)
  }

  predicate Rereading(s: System, i: nat, r: nat, row: Checkout) {
    && i < |s.store.checkouts| && SameBinding(s.store.checkouts[i], row)
    && r < |s.requests| && Mine(s.store.checkouts[i], s.requests[r]) && RereadAt(s.requests[r].pc, i, row)
  }

  lemma BoundHasUrl(s: System, anchor: string -> string, i: nat)
    requires Inv(s, anchor) && i < |s.store.checkouts| && s.store.checkouts[i].linkId != ""
    ensures s.store.checkouts[i].url != ""
  {
    var c := s.store.checkouts[i];
    assert RowOk(c, s.posts) && Post(c.id, Accepted(Link(c.linkId, c.url))) in s.posts;
  }

  lemma RereadMoves(s: System, a: Action, anchor: string -> string, i: nat, r: nat, row: Checkout)
    requires Can(s, a, anchor) && IsStepOf(a, r) && r < |s.requests| && row.linkId != "" && row.url != ""
    requires i < |s.store.checkouts| && SameBinding(s.store.checkouts[i], row) && RereadAt(s.requests[r].pc, i, row)
    requires FindByKey(s.store.checkouts, s.requests[r].actor, s.requests[r].key) == Some(i)
    ensures r < |Do(s, a, anchor).requests| && RereadAt(Do(s, a, anchor).requests[r].pc, i, row)
  {}

  lemma RereadStep(s: System, a: Action, anchor: string -> string, i: nat, r: nat, row: Checkout)
    requires Inv(s, anchor) && Can(s, a, anchor) && Rereading(s, i, r, row) && row.linkId != ""
    ensures Rereading(Do(s, a, anchor), i, r, row)
  {
    StepMovesOn(s, a, anchor);
    assert Later(s.store.checkouts[i], Do(s, a, anchor).store.checkouts[i]);
    BoundHasUrl(s, anchor, i);
    RetryLooksUp(s, r, i, anchor);
    if IsStepOf(a, r) {
      OwnStepMoves(s, a, anchor, r);
      RereadMoves(s, a, anchor, i, r, row);
    } else {
      OthersLeaveRequest(s, a, anchor, r);
    }
  }

  /** Every retry under the key of a bound checkout is handed that checkout, with its own link and
      url, whatever any other party does meanwhile: in every later state it has not begun, is about
      to return a reading of the row, has returned one, or was refused as invalid before it looked. */
  lemma {:induction false} RetryReturnsTheBinding(actions: seq<Action>, more: seq<Action>, anchor: string -> string,
      i: nat, r: nat)
    requires Exec(actions, anchor).Some? && Exec(actions + more, anchor).Some?
    requires var s := Exec(actions, anchor).value;
      && i < |s.store.checkouts| && s.store.checkouts[i].linkId != ""
      && r < |s.requests| && s.requests[r].pc == Start && Mine(s.store.checkouts[i], s.requests[r])
    ensures Rereading(Exec(actions + more, anchor).value, i, r, Exec(actions, anchor).value.store.checkouts[i])
  {
    if more == [] {
      assert actions + more == actions;
    } else {
      var front := more[..|more| - 1];
      LastStep(actions, more, anchor);
      RetryReturnsTheBinding(actions, front, anchor, i, r);
      ReachableInv(actions + front, anchor);
      RereadStep(Exec(actions + front, anchor).value, more[|more| - 1], anchor, i, r,
                 Exec(actions, anchor).value.store.checkouts[i]);
    }
  }

  // ---------------------------------------------------------------- how a request ends

  /** Bound, or refused for good. */
  predicate Settled(c: Checkout) {
    (c.linkId != "" && c.url != "") || c.status == Failed
  }

  /** The step that ends a request with this answer. */
  predicate Ends(s: System, a: Action, r: nat, result: Answer)
    requires r < |s.requests|
  {
    var pc := s.requests[r].pc;
    match result
    case Returned(row) =>
      || (a == WriteBinding(r) && pc.Binding? && pc.i < |s.store.checkouts|
          && row == s.store.checkouts[pc.i].(linkId := pc.link.id, url := pc.link.url, operation := Completed))
      || (a.Reconcile? && a.r == r && pc.Reconciling? && Settled(pc.seen) && row == pc.seen)
    case ReconciliationRequired => a == Reconcile(r, {}) && pc.Reconciling? && !Settled(pc.seen)
    case ProviderFailed => a == WriteFailure(r) || a == SearchFails(r)
    case OutcomeNotKnown => a == WriteDoubt(r)
    case Invalid => a == Refuse(r)
    case _ => false
  }

  lemma OwnStepEnds(s: System, a: Action, anchor: string -> string, r: nat, result: Answer)
    requires Can(s, a, anchor) && IsStepOf(a, r) && r < |s.requests|
    requires r < |Do(s, a, anchor).requests|
    requires a.Reconcile? ==> |a.answer| <= 1
    requires a.ReadWinner? ==> FindByKey(s.store.checkouts, s.requests[r].actor, s.requests[r].key).Some?
    ensures Do(s, a, anchor).requests[r].pc == Finished(result) <==> Ends(s, a, r, result)
  {}

  lemma StepEnds(s: System, a: Action, anchor: string -> string, r: nat, result: Answer)
    requires Inv(s, anchor) && Can(s, a, anchor) && r < |s.requests|
    ensures r < |Do(s, a, anchor).requests|
    ensures Do(s, a, anchor).requests[r].pc == Finished(result) <==>
      s.requests[r].pc == Finished(result) || Ends(s, a, r, result)
  {
    if IsStepOf(a, r) {
      OwnStepMoves(s, a, anchor, r);
      if a.Reconcile? {
        LookupNeverAmbiguous(s, s.requests[r].pc.i, a.answer, anchor);
      }
      assert PcOk(s.store.checkouts, s.posts, s.requests[r]);
      OwnStepEnds(s, a, anchor, r, result);
    } else {
      OthersLeaveRequest(s, a, anchor, r);
    }
  }

  /** Some step of the run ended the request with this answer. */
  ghost predicate Ended(actions: seq<Action>, anchor: string -> string, r: nat, result: Answer)
    requires Exec(actions, anchor).Some?
  {
    if actions == [] then false
    else
      var front := actions[..|actions| - 1];
      var s := Exec(front, anchor).value;
      Ended(front, anchor, r, result) || (r < |s.requests| && Ends(s, actions[|actions| - 1], r, result))
  }

  /** Every answer has its reason in the run, and every reason its answer: a checkout is returned by
      a binding or by reading a settled row; a reconciliation is required exactly where a lookup for
      an unsettled row listed nothing; the provider failed where it refused or could not be asked;
      the outcome is unknown where no reply came; and invalid is what was refused before any look. */
  lemma {:induction false} AnswersHaveReasons(actions: seq<Action>, anchor: string -> string, r: nat, result: Answer)
    requires Exec(actions, anchor).Some? && r < |Exec(actions, anchor).value.requests|
    ensures Exec(actions, anchor).value.requests[r].pc == Finished(result) <==> Ended(actions, anchor, r, result)
  {
    if actions == [] {
    } else {
      var n := |actions| - 1;
      var s := Exec(actions[..n], anchor).value;
      if r < |s.requests| {
        AnswersHaveReasons(actions[..n], anchor, r, result);
        ReachableInv(actions[..n], anchor);
        StepEnds(s, actions[n], anchor, r, result);
      } else {
        NewRequestStarts(s, actions[n], anchor, r);
        NoneBefore(actions[..n], anchor, r, result);
      }
    }
  }

  lemma NewRequestStarts(s: System, a: Action, anchor: string -> string, r: nat)
    requires Can(s, a, anchor) && |s.requests| <= r < |Do(s, a, anchor).requests|
    ensures Do(s, a, anchor).requests[r].pc == Start
  {}

  /** Requests are only ever added. */
  lemma RequestsStay(s: System, a: Action, anchor: string -> string)
    requires Can(s, a, anchor)
    ensures |s.requests| <= |Do(s, a, anchor).requests|
  {}

  lemma {:induction false} NoneBefore(actions: seq<Action>, anchor: string -> string, r: nat, result: Answer)
    requires Exec(actions, anchor).Some? && |Exec(actions, anchor).value.requests| <= r
    ensures !Ended(actions, anchor, r, result)
  {
    if actions == [] {
    } else {
      var n := |actions| - 1;
      RequestsStay(Exec(actions[..n], anchor).value, actions[n], anchor);
      NoneBefore(actions[..n], anchor, r, result);
    }
  }

  // ---------------------------------------------------------------- what a reply leads to

  /** What the reply to its POST commits a request to, whatever the others do. */
  predicate Bears(pc: Pc, a: Action, posts: seq<Post>) {
    match a
    case ReplyUnknown(_) => pc.Doubting? || pc == Finished(OutcomeNotKnown)
    case ReplyRejected(_, _) => pc.Failing? || pc == Finished(ProviderFailed)
    case RefusedLocally(_) => pc.Failing? || pc == Finished(ProviderFailed)
    case ReplyAccepted(_, p) =>
      p < |posts| && posts[p].state.Accepted? && Holds(pc, posts[p].state.link)
    case _ => true
  }

  /** The link is about to be written, or was written and returned. */
  predicate Holds(pc: Pc, link: Link) {
    || (pc.Binding? && pc.link == link)
    || (pc.Finished? && pc.result.Returned? && pc.result.row.linkId == link.id && pc.result.row.url == link.url)
  }

  lemma ReplyBears(s: System, a: Action, anchor: string -> string, r: nat)
    requires Can(s, a, anchor) && IsStepOf(a, r) && r < |s.requests| && r < |Do(s, a, anchor).requests|
    ensures Bears(Do(s, a, anchor).requests[r].pc, a, Do(s, a, anchor).posts)
  {}

  lemma AcceptedStays(s: System, a: Action, anchor: string -> string, p: nat)
    requires Can(s, a, anchor) && p < |s.posts| && s.posts[p].state.Accepted?
    ensures p < |Do(s, a, anchor).posts| && Do(s, a, anchor).posts[p] == s.posts[p]
  {}

  lemma BearsOn(s: System, a: Action, anchor: string -> string, r: nat, reply: Action)
    requires Can(s, a, anchor) && IsStepOf(a, r) && r < |s.requests| && r < |Do(s, a, anchor).requests|
    requires Bears(s.requests[r].pc, reply, s.posts) && Do(s, a, anchor).posts == s.posts
    requires reply.ReplyUnknown? || reply.ReplyRejected? || reply.RefusedLocally? || reply.ReplyAccepted?
    ensures Bears(Do(s, a, anchor).requests[r].pc, reply, s.posts)
  {}

  lemma StepBears(s: System, a: Action, anchor: string -> string, r: nat, reply: Action)
    requires Can(s, a, anchor) && r < |s.requests| && Bears(s.requests[r].pc, reply, s.posts)
    requires reply.ReplyUnknown? || reply.ReplyRejected? || reply.RefusedLocally? || reply.ReplyAccepted?
    ensures r < |Do(s, a, anchor).requests|
    ensures Bears(Do(s, a, anchor).requests[r].pc, reply, Do(s, a, anchor).posts)
  {
    if reply.ReplyAccepted? {
      AcceptedStays(s, a, anchor, reply.p);
    }
    if IsStepOf(a, r) {
      OwnStepMoves(s, a, anchor, r);
      BearsOn(s, a, anchor, r, reply);
    } else {
      OthersLeaveRequest(s, a, anchor, r);
    }
  }

  /** A reply decides for good: an accepted POST ends in returning its own link, a refused one (or
      one never sent) in the provider's failure, and a lost one in the unknown outcome. */
  lemma {:induction false} RepliesDecide(actions: seq<Action>, anchor: string -> string, r: nat, reply: Action)
    requires Exec(actions, anchor).Some? && reply in actions && IsStepOf(reply, r)
    requires reply.ReplyUnknown? || reply.ReplyRejected? || reply.RefusedLocally? || reply.ReplyAccepted?
    ensures r < |Exec(actions, anchor).value.requests|
    ensures Bears(Exec(actions, anchor).value.requests[r].pc, reply, Exec(actions, anchor).value.posts)
  {
    var n := |actions| - 1;
    var s := Exec(actions[..n], anchor).value;
    if reply in actions[..n] {
      RepliesDecide(actions[..n], anchor, r, reply);
      StepBears(s, actions[n], anchor, r, reply);
    } else {
      assert reply == actions[n];
      OwnStepMoves(s, reply, anchor, r);
      ReplyBears(s, reply, anchor, r);
    }
  }

  // ---------------------------------------------------------------- nobody is stuck

  /** How many steps a request has at most in front of it. */
  function Distance(pc: Pc): nat {
    match pc
    case Start => 5
    case Inserting => 4
    case Conflict => 3
    case Committed(_) => 3
    case Waiting(_) => 2
    case Reconciling(_, _) => 2
    case Binding(_, _) => 1
    case Failing(_) => 1
    case Doubting(_) => 1
    case Finished(_) => 0
  }

  /** Up to its POST a request may look, be refused, claim the key under any fresh id, and send. */
  ghost predicate CanSetOut(s: System, anchor: string -> string, r: nat)
    requires r < |s.requests|
  {
    match s.requests[r].pc
    case Start => Can(s, LookUp(r), anchor) && Can(s, Refuse(r), anchor)
    case Inserting =>
      && Can(s, Refuse(r), anchor)
      && forall id :: FreshId(s.store.checkouts, id) && NoPost(s.posts, id) ==> Can(s, CommitIntent(r, id), anchor)
    case Conflict => Can(s, ReadWinner(r), anchor)
    case Committed(_) => Can(s, SendPost(r), anchor) && Can(s, RefusedLocally(r), anchor)
    case _ => true
  }

  /** It may hear of the fate of any POST under its row's id, or nothing, and a lookup may list any
      link made under that id, or none, or fail. */
  ghost predicate CanBeAnswered(s: System, anchor: string -> string, r: nat)
    requires r < |s.requests|
  {
    match s.requests[r].pc
    case Waiting(i) =>
      && i < |s.store.checkouts| && Can(s, ReplyUnknown(r), anchor)
      && forall p :: 0 <= p < |s.posts| && s.posts[p].ref == s.store.checkouts[i].id ==>
           && (s.posts[p].state.Accepted? ==> Can(s, ReplyAccepted(r, p), anchor))
           && (s.posts[p].state.Rejected? ==> Can(s, ReplyRejected(r, p), anchor))
    case Reconciling(i, seen) =>
      && i < |s.store.checkouts| && Can(s, Reconcile(r, {}), anchor)
      && (forall p :: 0 <= p < |s.posts| && s.posts[p].state.Accepted? && s.posts[p].ref == s.store.checkouts[i].id ==>
            Can(s, Reconcile(r, {p}), anchor))
      && (seen.linkId == "" && seen.status != Failed ==> Can(s, SearchFails(r), anchor))
    case _ => true
  }

  /** It may write what it has learnt, and does nothing more once it is finished. */
  ghost predicate CanWrite(s: System, anchor: string -> string, r: nat)
    requires r < |s.requests|
  {
    match s.requests[r].pc
    case Binding(_, _) => Can(s, WriteBinding(r), anchor)
    case Failing(_) => Can(s, WriteFailure(r), anchor)
    case Doubting(_) => Can(s, WriteDoubt(r), anchor)
    case Finished(_) => forall a :: IsStepOf(a, r) ==> !Can(s, a, anchor)
    case _ => true
  }

  /** In every reachable state every request that is not finished can go on, whatever it is answered,
      and each of its steps brings it nearer to its end: no request takes more than five. */
  lemma NobodyIsStuck(actions: seq<Action>, anchor: string -> string, r: nat)
    requires Exec(actions, anchor).Some? && r < |Exec(actions, anchor).value.requests|
    ensures var s := Exec(actions, anchor).value;
      CanSetOut(s, anchor, r) && CanBeAnswered(s, anchor, r) && CanWrite(s, anchor, r)
  {
    ReachableInv(actions, anchor);
    var s := Exec(actions, anchor).value;
    RowIsKnown(s, anchor, r);
    SettingOutIsOpen(s, anchor, r);
    AnswersAreOpen(s, anchor, r);
    WritingIsOpen(s, anchor, r);
  }

  lemma RowIsKnown(s: System, anchor: string -> string, r: nat)
    requires Inv(s, anchor) && r < |s.requests|
    ensures RowKnown(s, s.requests[r].pc)
  {}

  lemma SettingOutIsOpen(s: System, anchor: string -> string, r: nat)
    requires r < |s.requests| && RowKnown(s, s.requests[r].pc)
    ensures CanSetOut(s, anchor, r)
  {}

  lemma AnswersAreOpen(s: System, anchor: string -> string, r: nat)
    requires r < |s.requests| && RowKnown(s, s.requests[r].pc)
    ensures CanBeAnswered(s, anchor, r)
  {}

  lemma WritingIsOpen(s: System, anchor: string -> string, r: nat)
    requires r < |s.requests| && RowKnown(s, s.requests[r].pc)
    ensures CanWrite(s, anchor, r)
  {}

  lemma OwnStepIsNearer(s: System, a: Action, anchor: string -> string, r: nat)
    requires Can(s, a, anchor) && IsStepOf(a, r)
    ensures r < |s.requests| && r < |Do(s, a, anchor).requests|
    ensures Distance(Do(s, a, anchor).requests[r].pc) < Distance(s.requests[r].pc)
  {
    OwnStepMoves(s, a, anchor, r);
  }
}
