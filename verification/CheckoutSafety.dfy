/** What every reachable state of the checkout protocol satisfies. */
module CheckoutSafety {
  import opened Common
  import opened BillingModel
  import opened BillingLedger
  import opened BillingSteps
  import BillingRuns
  import opened CheckoutProtocol

  // ---------------------------------------------------------------- the invariant

  predicate AcceptedPost(posts: seq<Post>, ref: string, link: Link) {
    Post(ref, Accepted(link)) in posts
  }

  predicate AllRejected(posts: seq<Post>, ref: string) {
    forall p :: 0 <= p < |posts| && posts[p].ref == ref ==> posts[p].state.Rejected?
  }

  predicate LinkOk(link: Link, anchor: string -> string) {
    link.id != "" && link.url != "" && anchor(link.id) == link.id
  }

  ghost predicate NewLink(posts: seq<Post>, link: Link, anchor: string -> string) {
    && LinkOk(link, anchor)
    && forall q :: 0 <= q < |posts| && posts[q].state.Accepted? ==> posts[q].state.link.id != link.id
  }

  /** No reference is posted twice, and no two accepted POSTs share a link. */
  ghost predicate PostsOk(posts: seq<Post>, anchor: string -> string) {
    && (forall p, q :: 0 <= p < q < |posts| ==> posts[p].ref != posts[q].ref)
    && (forall p :: 0 <= p < |posts| && posts[p].state.Accepted? ==> LinkOk(posts[p].state.link, anchor))
    && (forall p, q :: 0 <= p < q < |posts| && posts[p].state.Accepted? && posts[q].state.Accepted?
          ==> posts[p].state.link.id != posts[q].state.link.id)
  }

  ghost predicate KeysDistinct(cs: seq<Checkout>) {
    forall i, j :: 0 <= i < j < |cs| ==> cs[i].actor != cs[j].actor || cs[i].key != cs[j].key
  }

  /** A bound row holds the link of its own accepted POST; a failed one has no such POST. */
  predicate RowOk(c: Checkout, posts: seq<Post>) {
    && (c.linkId != "" ==> AcceptedPost(posts, c.id, Link(c.linkId, c.url)))
    && (c.linkId == "" ==> c.url == "")
    && (c.status == Failed ==> AllRejected(posts, c.id))
  }

  ghost predicate RowsOk(cs: seq<Checkout>, posts: seq<Post>) {
    forall i :: 0 <= i < |cs| ==> RowOk(cs[i], posts)
  }

  predicate Mine(c: Checkout, q: Request) {
    c.actor == q.actor && c.key == q.key
  }

  /** How a row may differ from an earlier reading of it. */
  predicate Later(seen: Checkout, c: Checkout) {
    && seen.id == c.id && seen.actor == c.actor && seen.key == c.key
    && (seen.linkId != "" ==> c.linkId == seen.linkId && c.url == seen.url)
    && (seen.status == Failed ==> c.status == Failed)
  }

  predicate HasRow(cs: seq<Checkout>, i: nat, q: Request) {
    i < |cs| && Mine(cs[i], q)
  }

  ghost predicate HasKey(cs: seq<Checkout>, q: Request) {
    exists k :: 0 <= k < |cs| && Mine(cs[k], q)
  }

  ghost predicate PcOk(cs: seq<Checkout>, posts: seq<Post>, q: Request) {
    match q.pc
    case Start => true
    case Inserting => true
    case Conflict => HasKey(cs, q)
    case Committed(i) => HasRow(cs, i, q) && cs[i].status == Pending && cs[i].linkId == "" && NoPost(posts, cs[i].id)
    case Waiting(i) => HasRow(cs, i, q)
    case Reconciling(i, seen) => HasRow(cs, i, q) && Later(seen, cs[i])
    case Binding(i, link) => HasRow(cs, i, q) && AcceptedPost(posts, cs[i].id, link)
    case Failing(i) => HasRow(cs, i, q) && AllRejected(posts, cs[i].id)
    case Doubting(i) => HasRow(cs, i, q)
    case Finished(result) =>
      result != Ambiguous && result != CheckoutConflict && (result.Returned? ==> Mine(result.row, q))
  }

  ghost predicate PcsOk(cs: seq<Checkout>, posts: seq<Post>, requests: seq<Request>) {
    forall r :: 0 <= r < |requests| ==> PcOk(cs, posts, requests[r])
  }

  /** Two requests never hold the right to post for one row. */
  predicate Exclusive(a: Pc, b: Pc) {
    a.Committed? && (b.Committed? || b.Failing?) ==> a.i != b.i
  }

  ghost predicate AllExclusive(requests: seq<Request>) {
    forall r, t :: 0 <= r < |requests| && 0 <= t < |requests| && r != t ==> Exclusive(requests[r].pc, requests[t].pc)
  }

  ghost predicate StoreOk(st: Store, anchor: string -> string) {
    Books(st, anchor) && EntitlementsBacked(st.checkouts, st.entitlements) && KeysDistinct(st.checkouts)
  }

  ghost predicate Inv(s: System, anchor: string -> string) {
    && StoreOk(s.store, anchor)
    && PostsOk(s.posts, anchor)
    && RowsOk(s.store.checkouts, s.posts)
    && PcsOk(s.store.checkouts, s.posts, s.requests)
    && AllExclusive(s.requests)
  }

  // ---------------------------------------------------------------- facts about posts

  lemma OwnLinkUnique(posts: seq<Post>, ref: string, a: Link, b: Link, anchor: string -> string)
    requires PostsOk(posts, anchor) && AcceptedPost(posts, ref, a) && AcceptedPost(posts, ref, b)
    ensures a == b
  {}

  lemma LinkHasOneOwner(posts: seq<Post>, ref: string, ref': string, a: Link, b: Link, anchor: string -> string)
    requires PostsOk(posts, anchor) && AcceptedPost(posts, ref, a) && AcceptedPost(posts, ref', b) && a.id == b.id
    ensures ref == ref'
  {}

  lemma RejectedIsNotAccepted(posts: seq<Post>, ref: string, link: Link)
    requires AllRejected(posts, ref)
    ensures !AcceptedPost(posts, ref, link)
  {}

  // ---------------------------------------------------------------- steps that move one request

  lemma GotoKeepsInv(s: System, r: nat, pc: Pc, anchor: string -> string)
    requires Inv(s, anchor) && r < |s.requests|
    requires PcOk(s.store.checkouts, s.posts, s.requests[r].(pc := pc))
    requires !pc.Committed?
    requires pc.Failing? ==>
      (s.requests[r].pc == Committed(pc.i) || forall t :: 0 <= t < |s.requests| ==> s.requests[t].pc != Committed(pc.i))
    ensures Inv(Goto(s, r, pc), anchor)
  {}

  // ---------------------------------------------------------------- steps of the provider and POSTs

  lemma SendKeepsPosts(posts: seq<Post>, ref: string, anchor: string -> string)
    requires PostsOk(posts, anchor) && NoPost(posts, ref)
    ensures var posts' := posts + [Post(ref, InFlight)];
      && PostsOk(posts', anchor)
      && (forall other, link :: AcceptedPost(posts, other, link) ==> AcceptedPost(posts', other, link))
      && (forall other :: other != ref && NoPost(posts, other) ==> NoPost(posts', other))
      && (forall other :: other != ref && AllRejected(posts, other) ==> AllRejected(posts', other))
  {}

  lemma SendKeepsInv(s: System, r: nat, anchor: string -> string)
    requires Inv(s, anchor) && r < |s.requests| && s.requests[r].pc.Committed?
    requires s.requests[r].pc.i < |s.store.checkouts|
    ensures var i := s.requests[r].pc.i;
      Inv(Goto(s.(posts := s.posts + [Post(s.store.checkouts[i].id, InFlight)]), r, Waiting(i)), anchor)
  {
    var i := s.requests[r].pc.i;
    var cs, posts, requests := s.store.checkouts, s.posts, s.requests;
    var posts' := posts + [Post(cs[i].id, InFlight)];
    var requests' := requests[r := requests[r].(pc := Waiting(i))];
    assert PcOk(cs, posts, requests[r]);
    SendKeepsPosts(posts, cs[i].id, anchor);
    forall k | 0 <= k < |cs| ensures RowOk(cs[k], posts') {
      assert RowOk(cs[k], posts) && (k != i ==> cs[k].id != cs[i].id);
    }
    forall t | 0 <= t < |requests'| ensures PcOk(cs, posts', requests'[t]) {
      SentPcOk(cs, posts, i, requests[t], requests[r], t == r, anchor);
    }
  }

  lemma SentPcOk(cs: seq<Checkout>, posts: seq<Post>, i: nat, q: Request, sender: Request, same: bool,
      anchor: string -> string)
    requires IdsDistinct(cs) && PostsOk(posts, anchor) && i < |cs| && sender.pc == Committed(i)
    requires PcOk(cs, posts, q) && NoPost(posts, cs[i].id) && HasRow(cs, i, sender)
    requires same ==> q == sender
    requires !same ==> Exclusive(sender.pc, q.pc)
    ensures PcOk(cs, posts + [Post(cs[i].id, InFlight)], if same then q.(pc := Waiting(i)) else q)
  {
    SendKeepsPosts(posts, cs[i].id, anchor);
  }

  lemma SettleKeepsPosts(posts: seq<Post>, p: nat, state: PostState, anchor: string -> string)
    requires PostsOk(posts, anchor) && p < |posts| && posts[p].state.InFlight? && !state.InFlight?
    requires state.Accepted? ==> NewLink(posts, state.link, anchor)
    ensures var posts' := posts[p := posts[p].(state := state)];
      && PostsOk(posts', anchor)
      && (forall ref, link :: AcceptedPost(posts, ref, link) ==> AcceptedPost(posts', ref, link))
      && (forall ref :: NoPost(posts, ref) ==> NoPost(posts', ref))
      && (forall ref :: AllRejected(posts, ref) ==> AllRejected(posts', ref))
  {
    var posts' := posts[p := posts[p].(state := state)];
    forall ref, link | AcceptedPost(posts, ref, link) ensures AcceptedPost(posts', ref, link) {
      var k :| 0 <= k < |posts| && posts[k] == Post(ref, Accepted(link));
      assert posts'[k] == posts[k];
    }
  }

  lemma SettleKeepsInv(s: System, p: nat, state: PostState, anchor: string -> string)
    requires Inv(s, anchor) && p < |s.posts| && s.posts[p].state.InFlight? && !state.InFlight?
    requires state.Accepted? ==> NewLink(s.posts, state.link, anchor)
    ensures Inv(s.(posts := s.posts[p := s.posts[p].(state := state)]), anchor)
  {
    var posts' := s.posts[p := s.posts[p].(state := state)];
    SettleKeepsPosts(s.posts, p, state, anchor);
    forall k | 0 <= k < |s.store.checkouts| ensures RowOk(s.store.checkouts[k], posts') {
      assert RowOk(s.store.checkouts[k], s.posts);
    }
    forall t | 0 <= t < |s.requests| ensures PcOk(s.store.checkouts, posts', s.requests[t]) {
      assert PcOk(s.store.checkouts, s.posts, s.requests[t]);
    }
  }

  // ---------------------------------------------------------------- steps that write rows

  /** Rows that only move on keep every request's facts, if the rows still to be posted for stay put. */
  lemma RowsKeepPcs(cs: seq<Checkout>, cs': seq<Checkout>, posts: seq<Post>, requests: seq<Request>)
    requires PcsOk(cs, posts, requests) && |cs| <= |cs'|
    requires forall i :: 0 <= i < |cs| ==> Later(cs[i], cs'[i])
    requires forall r :: 0 <= r < |requests| && requests[r].pc.Committed? && requests[r].pc.i < |cs| ==>
      cs'[requests[r].pc.i].status == Pending && cs'[requests[r].pc.i].linkId == ""
    ensures PcsOk(cs', posts, requests)
  {
    forall r | 0 <= r < |requests| ensures PcOk(cs', posts, requests[r]) {
      assert PcOk(cs, posts, requests[r]);
      if requests[r].pc.Conflict? {
        var k :| 0 <= k < |cs| && Mine(cs[k], requests[r]);
        assert Later(cs[k], cs'[k]) && Mine(cs'[k], requests[r]);
      }
    }
  }

  lemma {:induction false} NoRowsForFreshId(ledger: seq<LedgerRow>, id: string, d: Direction)
    requires forall k :: 0 <= k < |ledger| ==> ledger[k].checkoutId != id
    ensures RowsOf(ledger, id, d) == []
  {
    if ledger == [] {
    } else {
      NoRowsForFreshId(ledger[..|ledger| - 1], id, d);
    }
  }

  lemma IntentKeepsOwned(cs: seq<Checkout>, c: Checkout, ledger: seq<LedgerRow>, anchor: string -> string)
    requires AllOwned(cs, ledger, anchor) && FreshId(cs, c.id)
    ensures AllOwned(cs + [c], ledger, anchor)
    ensures RowsOf(ledger, c.id, Credit) == [] && RowsOf(ledger, c.id, Debit) == []
  {
    forall k | 0 <= k < |ledger| && ledger[k].checkoutId != ""
      ensures RowOwned(cs + [c], ledger[k], anchor) && ledger[k].checkoutId != c.id
    {
      var j :| 0 <= j < |cs| && Owns(cs[j], ledger[k], anchor);
      assert Owns((cs + [c])[j], ledger[k], anchor);
    }
    NoRowsForFreshId(ledger, c.id, Credit);
    NoRowsForFreshId(ledger, c.id, Debit);
  }

  lemma IntentKeepsBacking(cs: seq<Checkout>, c: Checkout, ents: map<Actor, Entitlement>)
    requires EntitlementsBacked(cs, ents)
    ensures EntitlementsBacked(cs + [c], ents)
  {
    forall a | a in ents && ents[a].active ensures IsBacked(cs + [c], a, ents[a]) {
      var j :| 0 <= j < |cs| && Backs(cs[j], a, ents[a]);
      assert Backs((cs + [c])[j], a, ents[a]);
    }
  }

  lemma IntentKeepsCheckouts(cs: seq<Checkout>, c: Checkout, anchor: string -> string)
    requires CheckoutsOk(cs, anchor) && KeysDistinct(cs) && FreshId(cs, c.id)
    requires c.status == Pending && c.linkId == "" && c.paymentId == "" && c.confirmedAt.None?
    requires forall k :: 0 <= k < |cs| ==> cs[k].actor != c.actor || cs[k].key != c.key
    ensures CheckoutsOk(cs + [c], anchor) && KeysDistinct(cs + [c])
  {}

  lemma IntentKeepsStore(st: Store, c: Checkout, anchor: string -> string)
    requires StoreOk(st, anchor) && FreshId(st.checkouts, c.id)
    requires c.status == Pending && c.linkId == "" && c.paymentId == "" && c.confirmedAt.None?
    requires forall k :: 0 <= k < |st.checkouts| ==> st.checkouts[k].actor != c.actor || st.checkouts[k].key != c.key
    ensures StoreOk(st.(checkouts := st.checkouts + [c]), anchor)
  {
    var cs, ledger := st.checkouts, st.money.ledger;
    IntentKeepsCheckouts(cs, c, anchor);
    IntentKeepsOwned(cs, c, ledger, anchor);
    IntentKeepsBacking(cs, c, st.entitlements);
    assert CheckoutBooks(c, ledger);
  }

  lemma WriteKeepsBacking(cs: seq<Checkout>, i: nat, c: Checkout, ents: map<Actor, Entitlement>)
    requires EntitlementsBacked(cs, ents) && i < |cs|
    requires c == cs[i].(linkId := c.linkId, url := c.url, status := c.status, operation := c.operation)
    requires c.status == cs[i].status || cs[i].status != Paid
    ensures EntitlementsBacked(cs[i := c], ents)
  {
    forall a | a in ents && ents[a].active ensures IsBacked(cs[i := c], a, ents[a]) {
      var k :| 0 <= k < |cs| && Backs(cs[k], a, ents[a]);
      assert Backs(cs[i := c][k], a, ents[a]);
    }
  }

  lemma WriteKeepsCheckouts(cs: seq<Checkout>, i: nat, c: Checkout, anchor: string -> string)
    requires CheckoutsOk(cs, anchor) && KeysDistinct(cs) && i < |cs|
    requires c.id == cs[i].id && c.actor == cs[i].actor && c.key == cs[i].key && CheckoutShape(c) && Anchored(c, anchor)
    requires c.linkId != "" ==> forall k :: 0 <= k < |cs| && k != i ==> cs[k].linkId != c.linkId
    ensures CheckoutsOk(cs[i := c], anchor) && KeysDistinct(cs[i := c])
  {}

  /** The columns a protocol write may touch, and how. */
  predicate Written(c0: Checkout, c: Checkout) {
    && c == c0.(linkId := c.linkId, url := c.url, status := c.status, operation := c.operation)
    && (c0.linkId != "" ==> c.linkId == c0.linkId)
    && (c.status == c0.status || (c0.linkId == "" && c.status == Failed))
  }

  /** Writing a link, a failure or a doubt into a row keeps the store. */
  lemma WriteKeepsStore(st: Store, i: nat, c: Checkout, anchor: string -> string)
    requires StoreOk(st, anchor) && i < |st.checkouts| && Written(st.checkouts[i], c)
    requires CheckoutShape(c) && Anchored(c, anchor)
    requires c.linkId != "" ==> forall k :: 0 <= k < |st.checkouts| && k != i ==> st.checkouts[k].linkId != c.linkId
    ensures StoreOk(st.(checkouts := st.checkouts[i := c]), anchor)
  {
    var cs := st.checkouts;
    assert CheckoutShape(cs[i]) && CheckoutBooks(cs[i], st.money.ledger);
    WriteKeepsCheckouts(cs, i, c, anchor);
    RewriteKeepsOwned(cs, i, c, st.money.ledger, anchor);
    RewriteKeepsBooks(cs, i, c, st.money.ledger);
    WriteKeepsBacking(cs, i, c, st.entitlements);
  }

  /** Neither a new intent nor a write into a row changes what anyone has paid for. */
  lemma ProtocolKeepsSolvent(cs: seq<Checkout>, ws: map<Actor, Wallet>, i: nat, c: Checkout)
    requires Solvent(cs, ws)
    ensures i < |cs| && Written(cs[i], c) && CheckoutShape(cs[i]) ==> Solvent(cs[i := c], ws)
    ensures c.status == Pending ==> Solvent(cs + [c], ws)
  {
    assert (cs + [c])[..|cs|] == cs;
    if i < |cs| && Written(cs[i], c) && CheckoutShape(cs[i]) {
      forall a ensures PaidCredit(cs[i := c], a) == PaidCredit(cs, a) {
        PaidCreditUpdate(cs, i, c, a);
      }
    }
  }

  // ---------------------------------------------------------------- every step keeps the invariant

  lemma IntentKeepsInv(s: System, c: Checkout, anchor: string -> string)
    requires Inv(s, anchor) && FreshId(s.store.checkouts, c.id)
    requires c.status == Pending && c.linkId == "" && c.url == "" && c.paymentId == "" && c.confirmedAt.None?
    requires FindByKey(s.store.checkouts, c.actor, c.key).None?
    ensures Inv(s.(store := s.store.(checkouts := s.store.checkouts + [c])), anchor)
  {
    IntentKeepsStore(s.store, c, anchor);
    IntentKeepsPcs(s.store.checkouts, c, s.posts, s.requests);
    IntentKeepsRows(s.store.checkouts, c, s.posts);
  }

  lemma IntentKeepsRows(cs: seq<Checkout>, c: Checkout, posts: seq<Post>)
    requires RowsOk(cs, posts) && c.status == Pending && c.linkId == "" && c.url == ""
    ensures RowsOk(cs + [c], posts)
  {}

  lemma IntentKeepsPcs(cs: seq<Checkout>, c: Checkout, posts: seq<Post>, requests: seq<Request>)
    requires PcsOk(cs, posts, requests)
    ensures PcsOk(cs + [c], posts, requests)
  {
    forall r | 0 <= r < |requests| && requests[r].pc.Committed? && requests[r].pc.i < |cs|
      ensures cs[requests[r].pc.i].status == Pending && cs[requests[r].pc.i].linkId == ""
    {
      assert PcOk(cs, posts, requests[r]);
    }
    RowsKeepPcs(cs, cs + [c], posts, requests);
  }

  /** A request takes hold of a row nobody else has. */
  lemma TakeRowKeepsInv(s: System, r: nat, i: nat, anchor: string -> string)
    requires Inv(s, anchor) && r < |s.requests|
    requires PcOk(s.store.checkouts, s.posts, s.requests[r].(pc := Committed(i)))
    requires forall t :: 0 <= t < |s.requests| ==> s.requests[t].pc != Committed(i) && s.requests[t].pc != Failing(i)
    ensures Inv(Goto(s, r, Committed(i)), anchor)
  {}

  lemma CommitKeepsInv(s: System, r: nat, id: string, anchor: string -> string)
    requires Inv(s, anchor) && r < |s.requests| && FreshId(s.store.checkouts, id) && NoPost(s.posts, id)
    requires FindByKey(s.store.checkouts, s.requests[r].actor, s.requests[r].key).None?
    ensures var c := Intent(s.requests[r], id);
      Inv(Goto(s.(store := s.store.(checkouts := s.store.checkouts + [c])), r, Committed(|s.store.checkouts|)), anchor)
  {
    var c := Intent(s.requests[r], id);
    IntentKeepsInv(s, c, anchor);
    forall t | 0 <= t < |s.requests|
      ensures s.requests[t].pc != Committed(|s.store.checkouts|) && s.requests[t].pc != Failing(|s.store.checkouts|)
    {
      assert PcOk(s.store.checkouts, s.posts, s.requests[t]);
    }
    TakeRowKeepsInv(s.(store := s.store.(checkouts := s.store.checkouts + [c])), r, |s.store.checkouts|, anchor);
  }

  /** A write into row `i` that keeps the row true to the provider keeps the invariant. */
  lemma WriteKeepsInv(s: System, i: nat, c: Checkout, anchor: string -> string)
    requires Inv(s, anchor) && i < |s.store.checkouts| && Written(s.store.checkouts[i], c)
    requires CheckoutShape(c) && Anchored(c, anchor) && RowOk(c, s.posts) && Later(s.store.checkouts[i], c)
    requires c.linkId != "" ==> forall k :: 0 <= k < |s.store.checkouts| && k != i ==>
      s.store.checkouts[k].linkId != c.linkId
    requires (c.status == Pending && c.linkId == "") || forall t :: 0 <= t < |s.requests| ==>
      s.requests[t].pc != Committed(i)
    ensures Inv(SetRow(s, i, c), anchor)
  {
    var cs := s.store.checkouts;
    var cs' := cs[i := c];
    WriteKeepsStore(s.store, i, c, anchor);
    forall r | 0 <= r < |s.requests| && s.requests[r].pc.Committed? && s.requests[r].pc.i < |cs|
      ensures cs'[s.requests[r].pc.i].status == Pending && cs'[s.requests[r].pc.i].linkId == ""
    {
      assert PcOk(cs, s.posts, s.requests[r]);
    }
    RowsKeepPcs(cs, cs', s.posts, s.requests);
    assert RowsOk(cs', s.posts);
  }

  lemma BindingFacts(s: System, i: nat, link: Link, anchor: string -> string)
    requires Inv(s, anchor) && i < |s.store.checkouts| && AcceptedPost(s.posts, s.store.checkouts[i].id, link)
    ensures var c0 := s.store.checkouts[i]; var c := BoundRow(c0, link);
      && Written(c0, c) && CheckoutShape(c) && Anchored(c, anchor) && RowOk(c, s.posts) && Later(c0, c)
      && (forall k :: 0 <= k < |s.store.checkouts| && k != i ==> s.store.checkouts[k].linkId != link.id)
      && (forall t :: 0 <= t < |s.requests| ==> s.requests[t].pc != Committed(i))
  {
    var c0 := s.store.checkouts[i];
    assert CheckoutShape(c0) && Anchored(c0, anchor) && RowOk(c0, s.posts);
    assert LinkOk(link, anchor);
    if c0.linkId != "" {
      OwnLinkUnique(s.posts, c0.id, link, Link(c0.linkId, c0.url), anchor);
    }
    forall k | 0 <= k < |s.store.checkouts| && k != i ensures s.store.checkouts[k].linkId != link.id {
      var d := s.store.checkouts[k];
      assert RowOk(d, s.posts);
      if d.linkId == link.id {
        LinkHasOneOwner(s.posts, c0.id, d.id, link, Link(d.linkId, d.url), anchor);
      }
    }
    forall t | 0 <= t < |s.requests| ensures s.requests[t].pc != Committed(i) {
      assert PcOk(s.store.checkouts, s.posts, s.requests[t]);
    }
  }

  lemma BindKeepsInv(s: System, r: nat, anchor: string -> string)
    requires Inv(s, anchor) && r < |s.requests| && s.requests[r].pc.Binding?
    requires s.requests[r].pc.i < |s.store.checkouts|
    ensures var i := s.requests[r].pc.i; var c := BoundRow(s.store.checkouts[i], s.requests[r].pc.link);
      Inv(Goto(SetRow(s, i, c), r, Finished(Returned(c))), anchor)
  {
    var i := s.requests[r].pc.i;
    var c := BoundRow(s.store.checkouts[i], s.requests[r].pc.link);
    assert PcOk(s.store.checkouts, s.posts, s.requests[r]);
    BindingFacts(s, i, s.requests[r].pc.link, anchor);
    WriteKeepsInv(s, i, c, anchor);
    GotoKeepsInv(SetRow(s, i, c), r, Finished(Returned(c)), anchor);
  }

  lemma FailKeepsInv(s: System, r: nat, anchor: string -> string)
    requires Inv(s, anchor) && r < |s.requests| && s.requests[r].pc.Failing?
    requires s.requests[r].pc.i < |s.store.checkouts|
    ensures var i := s.requests[r].pc.i; var c := FailedRow(s.store.checkouts[i]);
      Inv(Goto(SetRow(s, i, c), r, Finished(ProviderFailed)), anchor)
  {
    var i := s.requests[r].pc.i;
    var c0 := s.store.checkouts[i];
    assert PcOk(s.store.checkouts, s.posts, s.requests[r]);
    assert CheckoutShape(c0) && Anchored(c0, anchor) && RowOk(c0, s.posts);
    if c0.linkId != "" {
      RejectedIsNotAccepted(s.posts, c0.id, Link(c0.linkId, c0.url));
    }
    forall t | 0 <= t < |s.requests| ensures s.requests[t].pc != Committed(i) {
      if t != r {
        assert Exclusive(s.requests[t].pc, s.requests[r].pc);
      }
    }
    WriteKeepsInv(s, i, FailedRow(c0), anchor);
    GotoKeepsInv(SetRow(s, i, FailedRow(c0)), r, Finished(ProviderFailed), anchor);
  }

  lemma DoubtKeepsInv(s: System, r: nat, anchor: string -> string)
    requires Inv(s, anchor) && r < |s.requests| && s.requests[r].pc.Doubting?
    requires s.requests[r].pc.i < |s.store.checkouts|
    ensures var i := s.requests[r].pc.i; var c := DoubtedRow(s.store.checkouts[i]);
      Inv(Goto(SetRow(s, i, c), r, Finished(OutcomeNotKnown)), anchor)
  {
    var i := s.requests[r].pc.i;
    var c0 := s.store.checkouts[i];
    assert CheckoutShape(c0) && Anchored(c0, anchor) && RowOk(c0, s.posts);
    forall k | 0 <= k < |s.store.checkouts| && k != i && c0.linkId != ""
      ensures s.store.checkouts[k].linkId != c0.linkId
    {
      assert LinksDistinct(s.store.checkouts);
    }
    forall t | 0 <= t < |s.requests| && s.requests[t].pc == Committed(i)
      ensures c0.status == Pending && c0.linkId == ""
    {
      assert PcOk(s.store.checkouts, s.posts, s.requests[t]);
    }
    WriteKeepsInv(s, i, DoubtedRow(c0), anchor);
    GotoKeepsInv(SetRow(s, i, DoubtedRow(c0)), r, Finished(OutcomeNotKnown), anchor);
  }

  // ---------------------------------------------------------------- webhooks and spending

  /** A webhook never touches a row that is not bound, and never marks one failed. */
  lemma WebhookRows(st: Store, ev: Event, now: int, anchor: string -> string)
    requires CheckoutsOk(st.checkouts, anchor)
    ensures var cs' := ProcessWebhook(st, ev, now).0.checkouts;
      && |cs'| == |st.checkouts|
      && forall i :: 0 <= i < |cs'| ==>
           && SameRow(st.checkouts[i], cs'[i])
           && (st.checkouts[i].linkId == "" ==> cs'[i] == st.checkouts[i])
           && (cs'[i].status == Failed ==> st.checkouts[i].status == Failed)
  {
    var found := CheckoutForProvider(st.checkouts, ev);
    if EventKey(ev) !in st.events && found.Some? {
      var k := found.value;
      assert CheckoutShape(st.checkouts[k]);
      if PaymentRef(WithPayment(st.checkouts[k], ev), ev) != "" {
        BillingRuns.FoundEvolves(st, k, ev, now);
      }
    }
  }

  lemma FailedIsUnbound(cs: seq<Checkout>, posts: seq<Post>, i: nat)
    requires RowsOk(cs, posts) && i < |cs| && cs[i].status == Failed
    ensures cs[i].linkId == ""
  {
    assert RowOk(cs[i], posts);
    if cs[i].linkId != "" {
      RejectedIsNotAccepted(posts, cs[i].id, Link(cs[i].linkId, cs[i].url));
    }
  }

  /** Rows changed only as a webhook changes them keep every protocol fact. */
  lemma WebhookKeepsProtocol(cs: seq<Checkout>, cs': seq<Checkout>, posts: seq<Post>, requests: seq<Request>)
    requires RowsOk(cs, posts) && PcsOk(cs, posts, requests) && KeysDistinct(cs) && |cs'| == |cs|
    requires forall i :: 0 <= i < |cs'| ==>
      && SameRow(cs[i], cs'[i])
      && (cs[i].linkId == "" ==> cs'[i] == cs[i])
      && (cs'[i].status == Failed ==> cs[i].status == Failed)
    ensures RowsOk(cs', posts) && PcsOk(cs', posts, requests) && KeysDistinct(cs')
  {
    forall i | 0 <= i < |cs| ensures RowOk(cs'[i], posts) && Later(cs[i], cs'[i]) {
      assert RowOk(cs[i], posts);
      if cs[i].status == Failed {
        FailedIsUnbound(cs, posts, i);
      }
    }
    forall r | 0 <= r < |requests| && requests[r].pc.Committed? && requests[r].pc.i < |cs|
      ensures cs'[requests[r].pc.i].status == Pending && cs'[requests[r].pc.i].linkId == ""
    {
      assert PcOk(cs, posts, requests[r]);
    }
    RowsKeepPcs(cs, cs', posts, requests);
  }

  lemma WebhookKeepsInv(s: System, ev: Event, now: int, anchor: string -> string)
    requires Inv(s, anchor) && Consistent(ev, anchor)
    ensures Inv(s.(store := ProcessWebhook(s.store, ev, now).0), anchor)
  {
    ProcessKeepsBooks(s.store, ev, now, anchor);
    ProcessKeepsEntitlements(s.store, ev, now);
    WebhookRows(s.store, ev, now, anchor);
    WebhookKeepsProtocol(s.store.checkouts, ProcessWebhook(s.store, ev, now).0.checkouts, s.posts, s.requests);
  }

  // ---------------------------------------------------------------- all steps together

  lemma LookUpFacts(s: System, r: nat, anchor: string -> string)
    requires Inv(s, anchor) && r < |s.requests|
    ensures var q := s.requests[r]; var found := FindByKey(s.store.checkouts, q.actor, q.key);
      && (found.Some? ==>
            PcOk(s.store.checkouts, s.posts, q.(pc := Reconciling(found.value, s.store.checkouts[found.value]))))
      && (q.pc.Conflict? ==> found.Some?)
  {
    var q := s.requests[r];
    assert PcOk(s.store.checkouts, s.posts, q);
    if q.pc.Conflict? {
      var k :| 0 <= k < |s.store.checkouts| && Mine(s.store.checkouts[k], q);
    }
  }

  /** Only the owner of a row reaches a definitive refusal for it. */
  lemma RefusalFacts(s: System, r: nat, p: nat, anchor: string -> string)
    requires Inv(s, anchor) && Can(s, ReplyRejected(r, p), anchor)
    ensures var i := s.requests[r].pc.i;
      && PcOk(s.store.checkouts, s.posts, s.requests[r].(pc := Failing(i)))
      && forall t :: 0 <= t < |s.requests| ==> s.requests[t].pc != Committed(i)
  {
    var i := s.requests[r].pc.i;
    assert PcOk(s.store.checkouts, s.posts, s.requests[r]);
    forall t | 0 <= t < |s.requests| ensures s.requests[t].pc != Committed(i) {
      assert PcOk(s.store.checkouts, s.posts, s.requests[t]);
    }
  }

  lemma SamePost(posts: seq<Post>, p: nat, q: nat, anchor: string -> string)
    requires PostsOk(posts, anchor) && p < |posts| && q < |posts| && posts[p].ref == posts[q].ref
    ensures p == q
  {}

  /** A lookup by external reference can never list two links. */
  lemma LookupNeverAmbiguous(s: System, i: nat, answer: set<nat>, anchor: string -> string)
    requires PostsOk(s.posts, anchor) && i < |s.store.checkouts| && ValidAnswer(s, i, answer)
    ensures |answer| <= 1
  {
    if answer != {} {
      var p :| p in answer;
      forall q | q in answer ensures q == p {
        SamePost(s.posts, p, q, anchor);
      }
      assert answer == {p};
    }
  }

  lemma ReconcileFacts(s: System, r: nat, answer: set<nat>, anchor: string -> string)
    requires Inv(s, anchor) && Can(s, Reconcile(r, answer), anchor)
    ensures var q := s.requests[r]; var pc := Reconciled(s, q.pc.i, q.pc.seen, answer);
      PcOk(s.store.checkouts, s.posts, q.(pc := pc)) && !pc.Committed? && !pc.Failing?
  {
    var q := s.requests[r];
    assert PcOk(s.store.checkouts, s.posts, q);
    LookupNeverAmbiguous(s, q.pc.i, answer, anchor);
    forall p | p in answer ensures AcceptedPost(s.posts, s.store.checkouts[q.pc.i].id, s.posts[p].state.link) {
      assert s.posts[p] == Post(s.store.checkouts[q.pc.i].id, Accepted(s.posts[p].state.link));
    }
  }

  lemma ReadKeepsInv(s: System, a: Action, anchor: string -> string)
    requires Inv(s, anchor) && Can(s, a, anchor) && (a.LookUp? || a.ReadWinner? || a.Reconcile?)
    ensures Inv(Do(s, a, anchor), anchor)
  {
    LookUpFacts(s, a.r, anchor);
    if a.Reconcile? {
      ReconcileFacts(s, a.r, a.answer, anchor);
    }
    GotoKeepsInv(s, a.r, Do(s, a, anchor).requests[a.r].pc, anchor);
  }

  lemma ReplyKeepsInv(s: System, a: Action, anchor: string -> string)
    requires Inv(s, anchor) && Can(s, a, anchor) && (a.ReplyAccepted? || a.ReplyRejected? || a.ReplyUnknown?)
    ensures Inv(Do(s, a, anchor), anchor)
  {
    assert PcOk(s.store.checkouts, s.posts, s.requests[a.r]);
    if a.ReplyRejected? {
      RefusalFacts(s, a.r, a.p, anchor);
    } else if a.ReplyAccepted? {
      assert s.posts[a.p] == Post(s.posts[a.p].ref, Accepted(s.posts[a.p].state.link));
    }
    GotoKeepsInv(s, a.r, Do(s, a, anchor).requests[a.r].pc, anchor);
  }

  lemma RefuseKeepsInv(s: System, a: Action, anchor: string -> string)
    requires Inv(s, anchor) && Can(s, a, anchor) && (a.Refuse? || a.RefusedLocally? || a.SearchFails?)
    ensures Inv(Do(s, a, anchor), anchor)
  {
    assert PcOk(s.store.checkouts, s.posts, s.requests[a.r]);
    GotoKeepsInv(s, a.r, Do(s, a, anchor).requests[a.r].pc, anchor);
  }

  lemma CommitStepKeepsInv(s: System, r: nat, id: string, anchor: string -> string)
    requires Inv(s, anchor) && Can(s, CommitIntent(r, id), anchor)
    ensures Inv(Do(s, CommitIntent(r, id), anchor), anchor)
  {
    var q := s.requests[r];
    var found := FindByKey(s.store.checkouts, q.actor, q.key);
    if found.Some? {
      assert Mine(s.store.checkouts[found.value], q);
      GotoKeepsInv(s, r, Conflict, anchor);
    } else {
      CommitKeepsInv(s, r, id, anchor);
    }
  }

  lemma WriteStepKeepsInv(s: System, a: Action, anchor: string -> string)
    requires Inv(s, anchor) && Can(s, a, anchor) && (a.WriteBinding? || a.WriteFailure? || a.WriteDoubt? || a.SendPost?)
    ensures Inv(Do(s, a, anchor), anchor)
  {
    match a
    case WriteBinding(r) => BindKeepsInv(s, r, anchor);
    case WriteFailure(r) => FailKeepsInv(s, r, anchor);
    case WriteDoubt(r) => DoubtKeepsInv(s, r, anchor);
    case SendPost(r) => SendKeepsInv(s, r, anchor);
  }

  lemma OutsideStepKeepsInv(s: System, a: Action, anchor: string -> string)
    requires Inv(s, anchor) && Can(s, a, anchor)
    requires a.ProviderAccepts? || a.ProviderRejects? || a.Webhook? || a.SpendFrom? || a.Arrive?
    ensures Inv(Do(s, a, anchor), anchor)
  {
    match a
    case ProviderAccepts(p, link) => SettleKeepsInv(s, p, Accepted(link), anchor);
    case ProviderRejects(p) => SettleKeepsInv(s, p, Rejected, anchor);
    case Webhook(ev, now) => WebhookKeepsInv(s, ev, now, anchor);
    case SpendFrom(actor, ref, amount) => SpendKeepsBooks(s.store, actor, ref, amount, anchor);
    case Arrive(_, _, _) =>
  }

  /** Every step of every party keeps the invariant. */
  lemma StepKeepsInv(s: System, a: Action, anchor: string -> string)
    requires Inv(s, anchor) && Can(s, a, anchor)
    ensures Inv(Do(s, a, anchor), anchor)
  {
    if a.CommitIntent? {
      CommitStepKeepsInv(s, a.r, a.id, anchor);
    } else if a.LookUp? || a.ReadWinner? || a.Reconcile? {
      ReadKeepsInv(s, a, anchor);
    } else if a.ReplyAccepted? || a.ReplyRejected? || a.ReplyUnknown? {
      ReplyKeepsInv(s, a, anchor);
    } else if a.Refuse? || a.RefusedLocally? || a.SearchFails? {
      RefuseKeepsInv(s, a, anchor);
    } else if a.WriteBinding? || a.WriteFailure? || a.WriteDoubt? || a.SendPost? {
      WriteStepKeepsInv(s, a, anchor);
    } else {
      OutsideStepKeepsInv(s, a, anchor);
    }
  }

  /** Every row is the later version of what it was, and the ledger has only grown. */
  ghost predicate MovedOn(st: Store, st': Store) {
    && |st.checkouts| <= |st'.checkouts|
    && (forall i :: 0 <= i < |st.checkouts| ==> Later(st.checkouts[i], st'.checkouts[i]))
    && st.money.ledger <= st'.money.ledger
  }

  lemma WebhookMovesOn(st: Store, posts: seq<Post>, ev: Event, now: int, anchor: string -> string)
    requires CheckoutsOk(st.checkouts, anchor) && RowsOk(st.checkouts, posts)
    ensures MovedOn(st, ProcessWebhook(st, ev, now).0)
  {
    var cs := st.checkouts;
    BillingRuns.ProcessEvolves(st, ev, now);
    WebhookRows(st, ev, now, anchor);
    forall i | 0 <= i < |cs| && cs[i].status == Failed ensures cs[i].linkId == "" {
      FailedIsUnbound(cs, posts, i);
    }
  }

  lemma WriteMovesOn(st: Store, i: nat, c: Checkout)
    requires i < |st.checkouts| && Later(st.checkouts[i], c)
    ensures MovedOn(st, st.(checkouts := st.checkouts[i := c]))
  {}

  lemma BindingMovesOn(s: System, r: nat, anchor: string -> string)
    requires Inv(s, anchor) && Can(s, WriteBinding(r), anchor)
    ensures MovedOn(s.store, Do(s, WriteBinding(r), anchor).store)
  {
    var i := s.requests[r].pc.i;
    assert PcOk(s.store.checkouts, s.posts, s.requests[r]);
    BindingFacts(s, i, s.requests[r].pc.link, anchor);
    WriteMovesOn(s.store, i, BoundRow(s.store.checkouts[i], s.requests[r].pc.link));
  }

  lemma StepMovesOn(s: System, a: Action, anchor: string -> string)
    requires Inv(s, anchor) && Can(s, a, anchor)
    ensures MovedOn(s.store, Do(s, a, anchor).store)
  {
    if a.WriteBinding? {
      BindingMovesOn(s, a.r, anchor);
    } else if a.Webhook? {
      WebhookMovesOn(s.store, s.posts, a.ev, a.now, anchor);
    } else if a.WriteFailure? {
      WriteMovesOn(s.store, s.requests[a.r].pc.i, FailedRow(s.store.checkouts[s.requests[a.r].pc.i]));
    } else if a.WriteDoubt? {
      WriteMovesOn(s.store, s.requests[a.r].pc.i, DoubtedRow(s.store.checkouts[s.requests[a.r].pc.i]));
    } else {
      OtherStepMovesOn(s, a, anchor);
    }
  }

  /** A new intent appends a row, spending appends a ledger row, and all else leaves the store. */
  lemma OtherStepMovesOn(s: System, a: Action, anchor: string -> string)
    requires Can(s, a, anchor)
    requires !a.WriteBinding? && !a.Webhook? && !a.WriteFailure? && !a.WriteDoubt?
    ensures MovedOn(s.store, Do(s, a, anchor).store)
  {
    if a.CommitIntent? {
      IntentMovesOn(s, a.r, a.id, anchor);
    } else if !a.SpendFrom? {
      OthersLeaveStore(s, a, anchor);
    }
  }

  lemma IntentMovesOn(s: System, r: nat, id: string, anchor: string -> string)
    requires Can(s, CommitIntent(r, id), anchor)
    ensures MovedOn(s.store, Do(s, CommitIntent(r, id), anchor).store)
  {}

  lemma OthersLeaveStore(s: System, a: Action, anchor: string -> string)
    requires Can(s, a, anchor)
    requires !a.WriteBinding? && !a.Webhook? && !a.WriteFailure? && !a.WriteDoubt?
    requires !a.CommitIntent? && !a.SpendFrom?
    ensures Do(s, a, anchor).store == s.store
  {}

  /** A step other than spending keeps every balance equal to what is paid for. */
  lemma StepKeepsSolvent(s: System, a: Action, anchor: string -> string)
    requires Inv(s, anchor) && Can(s, a, anchor) && !a.SpendFrom? && StoreSolvent(s.store)
    ensures StoreSolvent(Do(s, a, anchor).store)
  {
    var cs, ws := s.store.checkouts, s.store.money.wallets;
    match a
    case CommitIntent(r, id) => ProtocolKeepsSolvent(cs, ws, 0, Intent(s.requests[r], id));
    case WriteBinding(r) =>
      var i := s.requests[r].pc.i;
      assert PcOk(cs, s.posts, s.requests[r]);
      BindingFacts(s, i, s.requests[r].pc.link, anchor);
      ProtocolKeepsSolvent(cs, ws, i, BoundRow(cs[i], s.requests[r].pc.link));
    case WriteFailure(r) =>
      var i := s.requests[r].pc.i;
      assert PcOk(cs, s.posts, s.requests[r]) && RowOk(cs[i], s.posts);
      if cs[i].linkId != "" {
        RejectedIsNotAccepted(s.posts, cs[i].id, Link(cs[i].linkId, cs[i].url));
      }
      ProtocolKeepsSolvent(cs, ws, i, FailedRow(cs[i]));
    case WriteDoubt(r) =>
      var i := s.requests[r].pc.i;
      ProtocolKeepsSolvent(cs, ws, i, DoubtedRow(cs[i]));
    case Webhook(ev, now) => ProcessKeepsSolvent(s.store, ev, now, anchor);
    case _ =>
  }
}
