/** The checkout protocol: any number of concurrent requests, a provider that is not
    transactional and whose replies may be lost or late, webhooks and spending, interleaved
    one commit at a time.

    A request commits its intent under the caller's idempotency key before it sends the one
    POST; every other request with that key may only read, or reconcile through a lookup by
    external reference. A crash is a request that takes no further step. */
module CheckoutProtocol {
  import opened Common
  import opened BillingModel
  import opened BillingLedger

  datatype Link = Link(id: string, url: string)

  datatype PostState = InFlight | Accepted(link: Link) | Rejected

  /** One POST /paymentLinks as the provider sees it, with its external reference. */
  datatype Post = Post(ref: string, state: PostState)

  datatype Draft = Draft(kind: CheckoutKind, item: string, included: int, days: int)

  datatype Answer = Returned(row: Checkout) | ReconciliationRequired | CheckoutConflict
                  | Ambiguous | ProviderFailed | OutcomeNotKnown | Invalid

  /** Where a request stands. Rows are never deleted, so a row is named by its position. */
  datatype Pc =
    | Start                                // about to look up the idempotency key
    | Inserting                            // no row seen: about to commit the intent
    | Conflict                             // the commit hit the unique key
    | Committed(i: nat)                    // intent durable, POST not sent
    | Waiting(i: nat)                      // POST sent, reply outstanding
    | Reconciling(i: nat, seen: Checkout)  // an existing row, as it was read
    | Binding(i: nat, link: Link)          // a link in hand, not yet written
    | Failing(i: nat)                      // a definitive refusal, not yet written
    | Doubting(i: nat)                     // an unknown outcome, not yet written
    | Finished(result: Answer)

  datatype Request = Request(actor: Actor, key: string, draft: Draft, pc: Pc)

  datatype System = System(store: Store, posts: seq<Post>, requests: seq<Request>)

  const INITIAL := System(EMPTY_STORE, [], [])

  datatype Action =
    | Arrive(actor: Actor, key: string, draft: Draft)
    | LookUp(r: nat)
    | Refuse(r: nat)                       // validation fails before anything is written
    | CommitIntent(r: nat, id: string)
    | ReadWinner(r: nat)
    | SendPost(r: nat)
    | RefusedLocally(r: nat)               // the adapter is not configured: nothing is sent
    | ReplyAccepted(r: nat, p: nat)
    | ReplyRejected(r: nat, p: nat)
    | ReplyUnknown(r: nat)                 // timeout, 5xx or unreadable body
    | Reconcile(r: nat, answer: set<nat>)  // the provider lists some of its matching links
    | SearchFails(r: nat)
    | WriteBinding(r: nat)
    | WriteFailure(r: nat)
    | WriteDoubt(r: nat)
    | ProviderAccepts(p: nat, link: Link)
    | ProviderRejects(p: nat)
    | Webhook(ev: Event, now: int)
    | SpendFrom(actor: Actor, ref: string, amount: int)

  // ---------------------------------------------------------------- steps on the checkout rows

  function FindByKey(cs: seq<Checkout>, actor: Actor, key: string): (r: Option<nat>)
    ensures r.Some? ==> r.value < |cs| && cs[r.value].actor == actor && cs[r.value].key == key
    ensures r.None? ==> forall k :: 0 <= k < |cs| ==> cs[k].actor != actor || cs[k].key != key
  {
    if cs == [] then None
    else if cs[0].actor == actor && cs[0].key == key then Some(0)
    else match FindByKey(cs[1..], actor, key)
         case None => assert cs == [cs[0]] + cs[1..]; None
         case Some(i) => Some(i + 1)
  }

  predicate FreshId(cs: seq<Checkout>, id: string) {
    id != "" && forall k :: 0 <= k < |cs| ==> cs[k].id != id
  }

  predicate NoPost(posts: seq<Post>, ref: string) {
    forall p :: 0 <= p < |posts| ==> posts[p].ref != ref
  }

  function Intent(q: Request, id: string): Checkout {
    Checkout(id, q.actor, q.key, q.draft.kind, q.draft.item, q.draft.included, q.draft.days,
             Pending, "", "", "", CallStarted, None, None)
  }

  function SetRow(s: System, i: nat, c: Checkout): System
    requires i < |s.store.checkouts|
  {
    s.(store := s.store.(checkouts := s.store.checkouts[i := c]))
  }

  function BoundRow(c: Checkout, link: Link): Checkout {
    c.(linkId := link.id, url := link.url, operation := Completed)
  }

  function FailedRow(c: Checkout): Checkout {
    c.(status := Failed, operation := OperationFailed)
  }

  function DoubtedRow(c: Checkout): Checkout {
    c.(operation := OutcomeUnknown)
  }

  function Goto(s: System, r: nat, pc: Pc): System
    requires r < |s.requests|
  {
    s.(requests := s.requests[r := s.requests[r].(pc := pc)])
  }

  // ---------------------------------------------------------------- reconciliation

  /** A lookup may list any of the links made under the row's reference, not always all of them. */
  predicate ValidAnswer(s: System, i: nat, answer: set<nat>)
    requires i < |s.store.checkouts|
  {
    forall p :: p in answer ==> p < |s.posts| && s.posts[p].state.Accepted? && s.posts[p].ref == s.store.checkouts[i].id
  }

  /** What `_reconcile_existing_checkout` does with the row it read and the links it was shown. */
  ghost function Reconciled(s: System, i: nat, seen: Checkout, answer: set<nat>): Pc
    requires i < |s.store.checkouts| && ValidAnswer(s, i, answer)
  {
    if seen.linkId != "" && seen.url != "" then Finished(Returned(seen))
    else if seen.status == Failed then Finished(Returned(seen))
    else if answer == {} then Finished(ReconciliationRequired)
    else if |answer| != 1 then Finished(Ambiguous)
    else var p :| p in answer; Binding(i, s.posts[p].state.link)
  }

  // ---------------------------------------------------------------- the step relation

  predicate RowKnown(s: System, pc: Pc) {
    match pc
    case Committed(i) => i < |s.store.checkouts|
    case Waiting(i) => i < |s.store.checkouts|
    case Reconciling(i, _) => i < |s.store.checkouts|
    case Binding(i, _) => i < |s.store.checkouts|
    case Failing(i) => i < |s.store.checkouts|
    case Doubting(i) => i < |s.store.checkouts|
    case _ => true
  }

  predicate PcIs(s: System, r: nat, test: Pc -> bool) {
    r < |s.requests| && test(s.requests[r].pc) && RowKnown(s, s.requests[r].pc)
  }

  /** When an action may happen. The last five clauses are what is assumed of the surroundings:
      fresh identifiers, a provider that makes one new link per accepted POST, events whose
      payments belong to their links, and spending within the balance. */
  predicate Can(s: System, a: Action, anchor: string -> string) {
    match a
    case Arrive(_, _, _) => true
    case LookUp(r) => PcIs(s, r, (pc: Pc) => pc.Start?)
    case Refuse(r) => PcIs(s, r, (pc: Pc) => pc.Start? || pc.Inserting?)
    case ReadWinner(r) => PcIs(s, r, (pc: Pc) => pc.Conflict?)
    case SendPost(r) => PcIs(s, r, (pc: Pc) => pc.Committed?)
    case RefusedLocally(r) => PcIs(s, r, (pc: Pc) => pc.Committed?)
    case ReplyAccepted(r, p) => PcIs(s, r, (pc: Pc) => pc.Waiting?) && p < |s.posts| && s.posts[p].state.Accepted?
        && s.posts[p].ref == s.store.checkouts[s.requests[r].pc.i].id
    case ReplyRejected(r, p) => PcIs(s, r, (pc: Pc) => pc.Waiting?) && p < |s.posts| && s.posts[p].state.Rejected?
        && s.posts[p].ref == s.store.checkouts[s.requests[r].pc.i].id
    case ReplyUnknown(r) => PcIs(s, r, (pc: Pc) => pc.Waiting?)
    case Reconcile(r, answer) => PcIs(s, r, (pc: Pc) => pc.Reconciling?) && ValidAnswer(s, s.requests[r].pc.i, answer)
    case SearchFails(r) => PcIs(s, r, (pc: Pc) => pc.Reconciling?)
        && s.requests[r].pc.seen.linkId == "" && s.requests[r].pc.seen.status != Failed
    case WriteBinding(r) => PcIs(s, r, (pc: Pc) => pc.Binding?)
    case WriteFailure(r) => PcIs(s, r, (pc: Pc) => pc.Failing?)
    case WriteDoubt(r) => PcIs(s, r, (pc: Pc) => pc.Doubting?)
    case ProviderRejects(p) => p < |s.posts| && s.posts[p].state.InFlight?
    case CommitIntent(r, id) => PcIs(s, r, (pc: Pc) => pc.Inserting?)
        && FreshId(s.store.checkouts, id) && NoPost(s.posts, id)
    case ProviderAccepts(p, link) => p < |s.posts| && s.posts[p].state.InFlight?
        && link.id != "" && link.url != "" && anchor(link.id) == link.id
        && (forall q :: 0 <= q < |s.posts| && s.posts[q].state.Accepted? ==> s.posts[q].state.link.id != link.id)
    case Webhook(ev, _) => Consistent(ev, anchor)
    case SpendFrom(actor, ref, amount) => CanSpend(s.store.money, actor, ref, amount)
  }

  ghost function Do(s: System, a: Action, anchor: string -> string): System
    requires Can(s, a, anchor)
  {
    match a
    case Arrive(actor, key, draft) => s.(requests := s.requests + [Request(actor, key, draft, Start)])
    case LookUp(r) =>
      var found := FindByKey(s.store.checkouts, s.requests[r].actor, s.requests[r].key);
      Goto(s, r, if found.Some? then Reconciling(found.value, s.store.checkouts[found.value]) else Inserting)
    case Refuse(r) => Goto(s, r, Finished(Invalid))
    case CommitIntent(r, id) =>
      if FindByKey(s.store.checkouts, s.requests[r].actor, s.requests[r].key).Some? then Goto(s, r, Conflict)
      else
        var n := |s.store.checkouts|;
        Goto(s.(store := s.store.(checkouts := s.store.checkouts + [Intent(s.requests[r], id)])), r, Committed(n))
    case ReadWinner(r) =>
      var found := FindByKey(s.store.checkouts, s.requests[r].actor, s.requests[r].key);
      Goto(s, r, if found.Some? then Reconciling(found.value, s.store.checkouts[found.value])
                 else Finished(CheckoutConflict))
    case SendPost(r) =>
      var i := s.requests[r].pc.i;
      Goto(s.(posts := s.posts + [Post(s.store.checkouts[i].id, InFlight)]), r, Waiting(i))
    case RefusedLocally(r) => Goto(s, r, Failing(s.requests[r].pc.i))
    case ReplyAccepted(r, p) => Goto(s, r, Binding(s.requests[r].pc.i, s.posts[p].state.link))
    case ReplyRejected(r, p) => Goto(s, r, Failing(s.requests[r].pc.i))
    case ReplyUnknown(r) => Goto(s, r, Doubting(s.requests[r].pc.i))
    case Reconcile(r, answer) => Goto(s, r, Reconciled(s, s.requests[r].pc.i, s.requests[r].pc.seen, answer))
    case SearchFails(r) => Goto(s, r, Finished(ProviderFailed))
    case WriteBinding(r) =>
      var i := s.requests[r].pc.i;
      var c := BoundRow(s.store.checkouts[i], s.requests[r].pc.link);
      Goto(SetRow(s, i, c), r, Finished(Returned(c)))
    case WriteFailure(r) =>
      var i := s.requests[r].pc.i;
      Goto(SetRow(s, i, FailedRow(s.store.checkouts[i])), r, Finished(ProviderFailed))
    case WriteDoubt(r) =>
      var i := s.requests[r].pc.i;
      Goto(SetRow(s, i, DoubtedRow(s.store.checkouts[i])), r, Finished(OutcomeNotKnown))
    case ProviderAccepts(p, link) => s.(posts := s.posts[p := s.posts[p].(state := Accepted(link))])
    case ProviderRejects(p) => s.(posts := s.posts[p := s.posts[p].(state := Rejected)])
    case Webhook(ev, now) => s.(store := ProcessWebhook(s.store, ev, now).0)
    case SpendFrom(actor, ref, amount) => s.(store := s.store.(money := Spend(s.store.money, actor, ref, amount)))
  }

  /** The state a sequence of actions reaches from the empty system, if each was possible. */
  ghost function Exec(actions: seq<Action>, anchor: string -> string): Option<System> {
    if actions == [] then Some(INITIAL)
    else
      match Exec(actions[..|actions| - 1], anchor)
      case None => None
      case Some(s) =>
        var a := actions[|actions| - 1];
        if Can(s, a, anchor) then Some(Do(s, a, anchor)) else None
  }
}
