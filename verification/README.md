# Verified model of the Orkio v2 core

A Dafny model of the parts of the Orkio v2 backend whose correctness is decided by their own code:
the billing protocol and wallet ledger, the role authority closure of the schema collector, the
canonical JSON form and append-once ledger of audit evidence, the two rate limits of governed audit
invocations, the file adapter's UTF-8 windows and marker search, the document parser with its bullet
chunking and slide plan, and the event stream of a team message.

`dafny verify dfyconfig.toml` checks everything.

## How the model is built

**Billing.** `BillingModel` gives one webhook as a function from one committed store to the next;
`BillingDb.Tables` is the same in the form of tables updated in place, proved equal to it.
`BillingLedger` states what the books must look like, `BillingSteps` that one event keeps them,
`BillingRuns` what that means for whole streams of duplicated and reordered events, `BillingReversals` in
which orders a reversal prevails, and `BillingEffects` what events do to entitlements and credits.
`BillingStatuses` tells the final status of a checkout from the kinds of the events that reached it,
`BillingTransactions` what the transaction rows record, `BillingEntitlements` what an entitlement gives as
its reason, and `BillingKeys` which events share a key and how far one webhook reaches.
`CheckoutProtocol` interleaves any number of `create_checkout` requests, commit by commit, with the
provider, with webhooks and with spending; a lost reply or a crash is a request that never moves
again. `CheckoutSafety` proves one invariant of every step, `CheckoutOwners` who may still settle a row,
`CheckoutTheorems` the results on every reachable state, `CheckoutAnswers` what each request is answered and
why, `CheckoutRecords` what the rows and the ledger say, and `CheckoutTraces` two runs with unexpected ends.
Money is an integer number of 1/10000 USD. Three things are assumed of the
surroundings: a payment reference belongs to one payment link (the function `anchor`), the provider
makes a link only for a POST it accepted, and a lookup by external reference lists only links made
under that reference (not necessarily all of them). Spending, which no code shown does, is an
environment step bounded by the balance.

**Roles.** `RoleGraph` defines walks, reachability and cycles over membership edges; `RoleSearch` is the state
of the breadth-first search, `RoleOrder` the order in which it prefers paths, `RolePaths` the search itself;
`RoleAuthority` is the evaluator, with exactly the proofs it collects and a relational definition of what
a principal may do (`HasAuthority`); `RoleMeaning` reads walks, proofs and authority edge by edge.

**Evidence.** `CanonicalJson` is the printer with a parser that inverts it (strings as in section 7 of
RFC 8259, which allows no control character unescaped); `JsonText` says what the printed text looks like and that no
text of the same value is shorter; `CanonicalForm` is the key sorting; `UtcStamp` the rewriting of timestamps;
`EvidencePayload` normalisation, validation and digest, and `EvidenceRules` the same as a list of rules;
`EvidenceLedger` the race of appenders, `EvidenceRecords` what a record shows of its envelope and what its
verification looks at. NFC, the ISO forms a parser
accepts beyond the fixed one, the secret scan and the hash are parameters with the laws named in `Lawful`
(NFC is idempotent and leaves ASCII alone, digests are 64 hexadecimal digits; `SomeOpsAreLawful` meets them). No
hash of fixed length is free of collisions, so the results do not assume that: they name the two canonical texts
that would have to collide (`Collide`).

**Rate limits.** `AbuseLimiter` is the per-user queue, `LedgerLimit` the count over the evidence ledger,
`AuditInvocation` the control flow that connects them, `AuditPermissions` who may run an operation and what
everyone else is told, and `AuditRuns` what holds over serial runs.

**Text.** `Utf8` (sections 3 and 4 of RFC 3629), `Utf8Window`, `MarkerSearch`, and `FileRules` for their refusals; `Text`
and `WordOrder` for whitespace and words; `LineSyntax`, with `LineGrammar` and `TableGrammar` for the lines it
accepts; `DocumentParser`, `DocumentText`, `DocumentWords`, `DocumentLines`; `BulletChunks`; `SlidePlan`,
`SlideContents`, `SlideTheorems`.

**Streams.** `RuntimeEvents` is the sequence validator, `TeamStream` the generator, `TeamReplies` how a run ends.

`Checks` is shared: a list of conditions asked in order, each with its error, and the error of the first that fails.

## What turned out false of the code

- "A reversal dominates in any order." False of a refund or chargeback that carries no payment link:
  `BillingReversals.OrderMattersWithoutLink` ends paid or reversed depending on the order. The exact condition
  is `BillingReversals.ReversedExactlyWhen` for one event and `BillingReversals.StreamReversesExactlyWhen` for a
  stream; every order agrees for reversals with the checkout's link (`LinkedReversalDominates`) and for those
  that name the payment it already holds (`UnlinkedReversalDominates`).
- "A bound checkout's provider operation is completed." `CheckoutTraces.BoundButOutcomeUnknown` is a run that
  ends otherwise; `CheckoutTheorems.OperationTellsLatestWrite` says exactly when, over all runs.
- "A normal return of the role search means there is no reachable cycle." `RolePaths.MissedCycle` runs the
  search on s→a, s→b, a→b, b→a. An error always means a real reachable cycle (`ErrorMeansCycle`), and a normal
  return rules out cycles through the start and self-memberships. The exact condition of an error is in the
  contract of `RolePaths.Paths`: some edge leads back onto the least shortest path to its own role.
- "Whoever has a paid plan is entitled." `BillingEffects.RefundOfOnePlanEndsTheOther` is a counterexample and
  `BillingEffects.EntitlementLostExactlyWhen` the exact condition.
- "Every confirmation eventually credits." `CheckoutTraces.BoundButNeverCredited` and
  `BillingEffects.EarlyEventIsSpent`: an event that arrives before its checkout is bound is consumed for good.
  `BillingEffects.CreditedExactlyWhen` gives the exact condition.
- "No more operations run in a minute than the limit." A permitted directive escapes the limit in two ways: its
  record cannot be appended, or the archive is hidden in a turn without internal persistence, where the denial
  is raised before anything is persisted. `AuditRuns.BothWaysEscape` has a concrete call of each kind. Without such
  calls every run keeps the limit (`LimitHoldsWithoutEscapes`); `TenantLimitHoldsExactlyWhen` and
  `UserLimitHoldsExactlyWhen` give the exact condition of each limit. Only the local guard bounds escaping calls
  (`GuardLimitsEveryUser`). More generally, a directive denied in a turn without internal persistence leaves no
  record and uses no budget (`AuditInvocation.RecordExactlyWhen`).

- "Two events that differ have different keys." False of events without an id whose payment or link holds a
  vertical bar: `BillingKeys.BarsConfuse` has two. Without bars, `BillingKeys.SameKeyExactlyWhen` is exact.

## Model

| member | source | states |
|---|---|---|
| CheckoutTheorems.AtMostOnePost | src/orkio_v2/billing/service.py:327-456 | over every interleaving of requests, retries, lost and late replies, two POSTs for one tenant, user and idempotency key are the same POST |
| CheckoutTheorems.BoundToItsOwnLink | src/orkio_v2/billing/service.py:246-310 | a bound checkout holds the id and url of the link its own accepted POST made, and no other checkout holds that link |
| CheckoutTheorems.NoImpossibleError | src/orkio_v2/billing/service.py:286-310 | the ambiguous-reconciliation error and the unexplained key conflict are unreachable, and a returned row belongs to the caller and the key |
| CheckoutTheorems.NothingIsUndone | src/orkio_v2/billing/service.py:246-283 | from any reachable state on a binding never changes, a definitive failure stays, and the ledger only grows |
| CheckoutTheorems.RefusedStaysRefused | src/orkio_v2/billing/service.py:456-491 | a checkout the provider refused is never bound, confirmed or credited, now or later |
| CheckoutTheorems.RetryReturnsTheRefusal | src/orkio_v2/billing/service.py:293-340 | whatever every other party does meanwhile, a retry that starts when its checkout is already failed only ever reads, and returns, that same row, which stays the same in every column |
| CheckoutAnswers.RetryReturnsTheBinding | src/orkio_v2/billing/service.py:286-340 | whatever every other party does meanwhile, a retry that starts when its checkout is already bound is at one of four points ever after: not begun, holding a reading of that row with that id, link and url, having returned such a reading, or refused as invalid |
| CheckoutAnswers.AnswersHaveReasons | src/orkio_v2/billing/service.py:286-498 | over every run a request ends with an answer exactly when one of its own steps gives it: a row is returned by a binding or by reading a settled row, a reconciliation is required exactly when a lookup for a row read as neither bound nor failed lists nothing, and each error has its one step |
| CheckoutAnswers.RepliesDecide | src/orkio_v2/billing/service.py:442-498 | in every later state a request whose POST was accepted is about to write, or has returned, the very link of that POST; one that was rejected can only fail, and one without a reply can only doubt |
| CheckoutAnswers.NobodyIsStuck | src/orkio_v2/billing/service.py:313-498 | in every reachable state every request that is not finished can go on, whatever of the possible answers it gets, and a finished one never does |
| CheckoutAnswers.OwnStepIsNearer | src/orkio_v2/billing/service.py:313-498 | each step of a request brings it nearer to its end, so none takes more than five |
| CheckoutRecords.RowsAreOrdered | src/orkio_v2/billing/service.py:376-420 | in every reachable state each row has the kind, item, credit and days that some request of its own actor and key asked for |
| CheckoutRecords.OperationTellsOutcome | src/orkio_v2/billing/service.py:221-283 | in every reachable state the operation of every row, bound or not, is told by its status, its link and whether the latest write into it was a doubt |
| CheckoutRecords.LedgerTellsBalances | src/orkio_v2/billing/service.py:609-811 | in every reachable state each ledger row shows the balance of its actor right after it, never negative and zero where a reversal fell short, and no key is posted twice in one tenant |
| CheckoutRecords.ReachableConsonant | src/orkio_v2/billing/service.py:649-736 | in every reachable state the transactions are exactly the confirmations and reversals of the checkouts, one each, and every entitlement names the present status of a plan of its actor as its reason, a payment exactly when it is active |
| CheckoutTheorems.ReachableOwners | src/orkio_v2/billing/service.py:417-491 | in every reachable state each row has at most one request that may still settle its POST, and a failed row has none |
| CheckoutTheorems.OperationTellsLatestWrite | src/orkio_v2/billing/service.py:221-283 | in every reachable state the operation of a bound checkout is completed exactly when the latest write into it was a binding, and outcome-unknown exactly when a late doubt came after the latest binding |
| CheckoutTheorems.CompletionUndoneExactlyWhen | src/orkio_v2/billing/service.py:456-491 | a step undoes the completed operation of a bound checkout exactly when it is the late write of a request whose outcome was unknown |
| CheckoutOwners.FailedRowIsFrozen | src/orkio_v2/billing/service.py:286-310 | no step of any party changes any column of a failed row |
| CheckoutOwners.OperationStep | src/orkio_v2/billing/service.py:221-283 | what one step does to the operation column of a bound row |
| CheckoutTraces.BoundButOutcomeUnknown | src/orkio_v2/billing/service.py:221-283 | a run of two requests that ends with a bound checkout whose operation is outcome-unknown |
| CheckoutTraces.BoundButNeverCredited | src/orkio_v2/billing/service.py:925-939 | a run in which the confirmation arrives between the provider's acceptance and the binding, and its redelivery leaves the bound checkout pending and uncredited |
| CheckoutTheorems.MoneyIsConserved | src/orkio_v2/billing/service.py:609-811 | in every reachable state, spending included, balance = lifetime credited − debited = ledger credits − debits ≥ 0, and the quarantined amount is exactly what reversals could not recover |
| CheckoutTheorems.CreditedAndReversedOnce | src/orkio_v2/billing/service.py:597-646 | each checkout has one full credit once confirmed and one reversal of it once reversed, marked as the refund or the chargeback it is, and never more |
| CheckoutTheorems.BalanceIsPaidCredit | src/orkio_v2/billing/service.py:609-646 | without spending each balance is the included credit of the actor's currently paid checkouts and nothing is quarantined |
| CheckoutTheorems.EntitlementIsPaidFor | src/orkio_v2/billing/service.py:649-692 | an active entitlement names a paid plan checkout of its own actor and expires 1 to 366 days after that checkout's confirmation |
| CheckoutTheorems.ReachableInv | src/orkio_v2/billing/service.py:313-498 | every reachable state of the composed protocol satisfies the invariant `CheckoutSafety.Inv` |
| CheckoutTheorems.ReachableSolvent | src/orkio_v2/billing/service.py:739-811 | without spending every reachable store is solvent |
| CheckoutSafety.StepKeepsInv | src/orkio_v2/billing/service.py:313-498 | every step of every request, of the provider, of a webhook and of a spender keeps the invariant |
| CheckoutSafety.LookupNeverAmbiguous | src/orkio_v2/billing/asaas_client.py:120-137 | a lookup by external reference can never list two links |
| CheckoutSafety.StepMovesOn | src/orkio_v2/billing/service.py:246-283 | one step only moves rows forward and only appends to the ledger |
| BillingRuns.StreamKeepsBooks | src/orkio_v2/billing/service.py:884-1061 | any stream of events, reordered and redelivered, keeps books, wallets and solvency |
| BillingRuns.BalanceIsWhatIsPaidFor | src/orkio_v2/billing/service.py:609-646 | after any stream each balance equals what its actor currently has paid for |
| BillingRuns.StreamKeepsWallets | src/orkio_v2/billing/service.py:609-811 | for every stream of events, consistent or not, every wallet stays equal to what its ledger rows say, each row shows the balance right after it, and no key is posted twice in one tenant |
| BillingRuns.RepeatsChangeNothing | src/orkio_v2/billing/service.py:540-570 | for every store and stream, dropping every repeated event key leaves the same final store |
| BillingRuns.StreamClaimsKeys | src/orkio_v2/billing/service.py:540-570 | every stream claims exactly the keys of its events |
| BillingRuns.ReferenceNeverMissing | src/orkio_v2/billing/service.py:946-955 | the error for a missing payment reference is unreachable for every store and event |
| BillingStatuses.StatusTellsHistory | src/orkio_v2/billing/service.py:823-852 | for every store, stream and row the final status is told by the kinds of the first deliveries that reached the row: refunded or charged back by the kind of the first reversal; else paid or cancelled by the first confirmation or deletion, unless it was already; else expired by an overdue notice; else unchanged |
| BillingStatuses.TimesStep | src/orkio_v2/billing/service.py:976-1018 | for every store and event, a checkout gets its confirmation time exactly from a confirmation that reaches it pending, failed or expired, and its reversal time exactly from the first reversal that reaches it |
| BillingStatuses.RepliesTell | src/orkio_v2/billing/service.py:884-1061 | for every store and event the reply and the event's row tell what happened: a duplicate, no checkout, a change of status, a change the status forbids, or a kind of no concern |
| BillingTransactions.StreamKeepsTransactions | src/orkio_v2/billing/service.py:695-736 | over every consistent stream the transaction rows are exactly the confirmations and reversals of the checkouts, each recorded once, at its time, under its charge and a reference of its link |
| BillingKeys.SameKeyExactlyWhen | src/orkio_v2/billing/service.py:501-524 | for kinds and payments without bars: two events with ids share a key exactly when the ids are the same; two with neither id, payment nor link exactly when the bodies are; two without ids otherwise exactly when kind, payment and link are; and one with an id shares none with one without |
| BillingKeys.BarsConfuse | src/orkio_v2/billing/service.py:501-524 | two different events, with a bar in a link and in a payment, that share a key |
| BillingKeys.TouchesOneActor | src/orkio_v2/billing/service.py:884-1061 | a webhook changes at most one checkout, and the wallet, entitlement, ledger and transactions of that checkout's actor only |
| BillingKeys.TenantsDoNotInterfere | src/orkio_v2/billing/service.py:597-646 | what a credit does depends on the ledger rows of its own tenant only |
| BillingKeys.TenantsDoNotReverse | src/orkio_v2/billing/service.py:739-811 | what a reversal does depends on the ledger rows of its own tenant only |
| BillingReversals.StreamReversesExactlyWhen | src/orkio_v2/billing/service.py:573-594 | for every store and stream, a checkout ends reversed exactly when it was, or when some first delivery of a reversal was resolved to it as it arrived |
| BillingReversals.ReversedExactlyWhen | src/orkio_v2/billing/service.py:573-594 | a first delivery of a reversal reverses a checkout exactly when it carries its link, or no checkout's link and the payment the checkout holds at that moment |
| BillingReversals.OrderMattersWithoutLink | src/orkio_v2/billing/service.py:573-594 | a stream of a bare refund and a confirmation whose order decides whether the checkout ends paid or reversed |
| BillingReversals.LinkedReversalDominates | src/orkio_v2/billing/service.py:823-852 | a reversal with the checkout's link, under a key not claimed before, leaves it reversed wherever it stands in any stream |
| BillingReversals.UnlinkedReversalDominates | src/orkio_v2/billing/service.py:823-852 | so does a reversal that names only the payment the checkout already holds, in any stream that brings it no other payment |
| BillingReversals.ReversalSurvivesReordering | src/orkio_v2/billing/service.py:739-811 | for these two kinds of reversal, however the stream is permuted or redelivered, there is at most one credit and one reversal, and recovered plus unrecovered is that credit |
| BillingRuns.AppliedExactlyWhenRankFalls | src/orkio_v2/billing/service.py:823-852 | the reply "applied" is given exactly when some checkout falls in rank |
| BillingRuns.AtMostThreeChanges | src/orkio_v2/billing/service.py:823-852 | over any stream a checkout changes status at most three times |
| BillingRuns.ConfirmedOnce | src/orkio_v2/billing/service.py:976-1018 | a checkout paid before and after a stream keeps its one confirmation time |
| BillingRuns.ExpiryNeverExtended | src/orkio_v2/billing/service.py:662-692 | while an entitlement stays with one checkout, no stream moves its expiry or payment time |
| BillingRuns.StreamKeepsEntitlements | src/orkio_v2/billing/service.py:649-692 | over any stream every active entitlement stays backed by a paid plan checkout |
| BillingEntitlements.StreamKeepsReasons | src/orkio_v2/billing/service.py:649-692 | over any stream an entitlement is active exactly when its reason is a payment, and its reason is the present status of some plan of its actor |
| BillingEntitlements.StartNeverMoves | src/orkio_v2/billing/service.py:662-692 | over any stream an entitlement is never removed and its start is the time of the delivery that first gave the actor one |
| BillingEffects.EntitlementLostExactlyWhen | src/orkio_v2/billing/service.py:649-659 | for every store, event and actor, the exact condition under which a webhook leaves a paid plan without entitlement |
| BillingEffects.RefundOfOnePlanEndsTheOther | src/orkio_v2/billing/service.py:649-659 | three events from two bound unpaid plans that end with a paid plan and no entitlement |
| BillingEffects.EarlyEventIsSpent | src/orkio_v2/billing/service.py:925-939 | an event that names no checkout changes nothing but the keys, and after any further stream its redelivery changes nothing |
| BillingEffects.CreditedExactlyWhen | src/orkio_v2/billing/service.py:908-1018 | a webhook credits a checkout exactly when its key is new, it finds that checkout bound, and it confirms one that is neither paid, cancelled nor reversed |
| BillingSteps.ProcessKeepsBooks | src/orkio_v2/billing/service.py:884-1061 | one webhook keeps the books |
| BillingSteps.ProcessKeepsSolvent | src/orkio_v2/billing/service.py:884-1061 | one webhook moves each balance by exactly the change in what is paid for |
| BillingSteps.ProcessKeepsEntitlements | src/orkio_v2/billing/service.py:884-1061 | one webhook keeps every active entitlement backed |
| BillingSteps.SpendKeepsBooks | src/orkio_v2/billing/service.py:739-811 | a bounded spend, modelled like a reversal's debit, keeps the books |
| BillingLedger.CreditKeepsWallets | src/orkio_v2/billing/service.py:609-646 | a credit keeps every wallet equal to its ledger rows |
| BillingLedger.ReverseKeepsWallets | src/orkio_v2/billing/service.py:739-811 | a reversal, with its shortfall and quarantine, keeps every wallet equal to its ledger rows |
| BillingDb.Tables.GetOrCreateWallet | src/orkio_v2/billing/service.py:116-138 | returns the actor's wallet, creating an empty one, and touches no other row |
| BillingDb.Tables.AddCredit | src/orkio_v2/billing/service.py:609-646 | the in-place credit is the credit function on wallets and ledger |
| BillingDb.Tables.TakeBackCredit | src/orkio_v2/billing/service.py:739-811 | the in-place reversal is the reversal function on wallets and ledger |
| BillingDb.Tables.Activate | src/orkio_v2/billing/service.py:662-692 | the in-place activation is the activation function and touches only entitlements |
| BillingDb.Tables.Revoke | src/orkio_v2/billing/service.py:649-659 | the in-place revocation is the revocation function and touches only entitlements |
| BillingDb.Tables.Record | src/orkio_v2/billing/service.py:695-736 | a transaction row is written once per key and no other table is touched |
| BillingDb.Tables.ProcessAsaasWebhook | src/orkio_v2/billing/service.py:884-1061 | the whole in-place webhook commits exactly the store and reply of the webhook function |
| RoleGraph.Adjacency | tools/efata_schema_collector/role_authority.py:38-45 | the adjacency lists hold exactly the membership edges of each role, sorted by target and grantor |
| RoleMeaning.SortedExactlyWhen | tools/efata_schema_collector/role_authority.py:43-44 | sorted means by granted role and then by grantor, each in the order of texts |
| RoleMeaning.WalkExactlyWhen | tools/efata_schema_collector/role_authority.py:48-72 | a walk is a chain of memberships, each of the role the one before grants, that all carry the INHERIT option or all the SET option |
| RolePaths.Paths | tools/efata_schema_collector/role_authority.py:48-72 | terminates on every graph; when it returns, its keys are exactly the reachable roles, each with the least of its shortest paths; it fails exactly when some edge leads back onto the least shortest path to its own role |
| RoleOrder.NewIsLeast | tools/efata_schema_collector/role_authority.py:60-71 | the path kept for a new role is the least of all shortest paths to it, in the order of the adjacency lists |
| RoleOrder.LeastIsUnique | tools/efata_schema_collector/role_authority.py:60-71 | there is only one least path, so the verdict is a property of the lists alone |
| RoleOrder.GoodClosesNothing | tools/efata_schema_collector/role_authority.py:60-71 | when the search has come to an end, no edge leads back onto such a path |
| RolePaths.ErrorMeansCycle | tools/efata_schema_collector/role_authority.py:60-69 | a cycle error is raised only when a real cycle is reachable |
| RolePaths.ReturnRulesOutCyclesThroughStart | tools/efata_schema_collector/role_authority.py:60-69 | a normal return means no cycle passes through the start role |
| RolePaths.ReturnRulesOutSelfLoops | tools/efata_schema_collector/role_authority.py:60-69 | a normal return means no reachable role is a member of itself |
| RolePaths.MissedCycle | tools/efata_schema_collector/role_authority.py:60-69 | a concrete graph with a reachable cycle on which the search returns normally |
| RoleAuthority.EvaluateAuthority | tools/efata_schema_collector/role_authority.py:89-185 | the proofs are, each once, exactly those of every role the principal can become, along the least path there: its attributes, what it holds and inherits along least paths, and what it administers; every proof is valid, and the summary is exactly the relational authority; it succeeds exactly when the principal is in the catalogue, no set-role edge closes onto a least path of the principal, and every role it can become is in the catalogue with no inherit edge closing onto a least path of that role |
| RoleAuthority.EvaluateAcyclic | tools/efata_schema_collector/role_authority.py:89-185 | on acyclic graphs over listed roles the evaluation never fails |
| RoleAuthority.ValidProofIsAuthority | tools/efata_schema_collector/role_authority.py:105-165 | a proof path, a SET path then an INHERIT path or one admin edge, establishes the privilege it names |
| RoleMeaning.AuthorityExactlyWhen | tools/efata_schema_collector/role_authority.py:124-167 | a principal has a privilege exactly when memberships with the SET option lead it to a role that has it as one of the five attributes, inherits it along memberships with the INHERIT option from a role it is granted to, or holds the ADMIN option of the membership it names |
| RoleMeaning.ProofsRead | tools/efata_schema_collector/role_authority.py:105-167 | every proof says what its access mode promises: the principal's own privilege with an empty path, one inherited by it, one of another role it can become, or one membership it can administer |
| RoleAuthority.SummaryIsAuthority | tools/efata_schema_collector/role_authority.py:124-185 | sound proofs that cover every SET-reachable state summarise to exactly the authority |
| RoleAuthority.AddingMembershipsKeepsAuthority | tools/efata_schema_collector/role_authority.py:89-185 | adding memberships never removes a privilege |
| CanonicalJson.StringRoundTrip | src/orkio_v2/services/audit_evidence_repository.py:209-217 | an escaped string is read back exactly, whatever follows it |
| CanonicalJson.PrintRoundTrip | src/orkio_v2/services/audit_evidence_repository.py:209-217 | parsing a printed value gives that value and the rest of the input |
| JsonText.RenderHasNoControls | src/orkio_v2/services/audit_evidence_repository.py:209-217 | no character of a canonical text is below the space |
| JsonText.RenderIsShortest | src/orkio_v2/services/audit_evidence_repository.py:209-217 | no text that the parser reads as the same canonical value is shorter |
| JsonText.CanonAscends | src/orkio_v2/services/audit_evidence_repository.py:209-217 | the keys that are printed ascend in the order of their code points, at every depth |
| CanonicalForm.CanonDecides | src/orkio_v2/services/audit_evidence_repository.py:209-217 | sorting keys gives equal forms exactly for values equal up to key order |
| CanonicalForm.RenderDecides | src/orkio_v2/services/audit_evidence_repository.py:209-229 | two normalised values have the same canonical text exactly when they are the same JSON value |
| CanonicalForm.RenderRoundTrip | src/orkio_v2/services/audit_evidence_repository.py:209-217 | the canonical text parses back to the canonical value |
| UtcStamp.FixedRoundTrip | src/orkio_v2/services/audit_evidence_repository.py:84-94 | what is printed in the fixed form is read back, whether or not it is a date and whatever follows it |
| UtcStamp.StampExactlyWhen | src/orkio_v2/services/audit_evidence_repository.py:84-94 | a timestamp in the fixed form is accepted, as it is, exactly when it is a day of the Gregorian calendar and a time of it, and nothing is accepted without a final Z |
| UtcStamp.StampIsFixed | src/orkio_v2/services/audit_evidence_repository.py:84-94 | a rewritten timestamp is ASCII, ends in Z, denotes the same moment and is rewritten to itself |
| EvidencePayload.NormalizeIdempotent | src/orkio_v2/services/audit_evidence_repository.py:97-125 | normalising a normalised value changes nothing, timestamps included |
| EvidencePayload.NormalizedIsTidy | src/orkio_v2/services/audit_evidence_repository.py:97-125 | a normalised value has text keys without duplicates and no floats or foreign values |
| EvidenceRules.NormalizeExactlyWhen | src/orkio_v2/services/audit_evidence_repository.py:97-125 | normalisation succeeds with a value exactly when that value is the same with text in normal form, timestamps in fixed form, whole numbers of 64 bits and no key twice |
| EvidenceRules.NormalizeReports | src/orkio_v2/services/audit_evidence_repository.py:97-125 | it fails exactly when something is wrong, and with the first fault in the order of the value |
| EvidenceRules.CheckTells | src/orkio_v2/services/audit_evidence_repository.py:128-206 | a normalised payload is refused with the error of the first of seven rules it breaks, told by the names and values of its fields, and accepted exactly when it breaks none |
| EvidenceRules.CanonicalizeTells | src/orkio_v2/services/audit_evidence_repository.py:220-229 | for every value: the first fault; or no dictionary; or the first broken rule, the size of 128000 and the secret scan included; and otherwise the canonical text |
| EvidencePayload.PayloadIdempotent | src/orkio_v2/services/audit_evidence_repository.py:128-206 | a payload that was accepted is accepted again, unchanged |
| EvidencePayload.DigestOfPayload | src/orkio_v2/services/audit_evidence_repository.py:220-234 | hashing through the second normalisation gives the hash of the payload's own canonical text |
| EvidencePayload.DigestDecides | src/orkio_v2/services/audit_evidence_repository.py:220-262 | two accepted payloads have one digest exactly when they are the same JSON value or their canonical texts collide |
| EvidenceLedger.OneRecordForever | src/orkio_v2/services/audit_evidence_repository.py:281-363 | in every race there is at most one record per execution id and it never changes |
| EvidenceLedger.EveryRecordVerifies | src/orkio_v2/services/audit_evidence_repository.py:429-479 | every stored record passes verification at any time: digest form, digest and all sixteen bound columns |
| EvidenceRecords.VerifyTells | src/orkio_v2/services/audit_evidence_repository.py:429-479 | verification answers the record of that id and tenant exactly when its payload can be hashed, its digest is 64 hexadecimal digits and that hash, and its sixteen columns show the payload's fields; and each error where the first of these fails |
| EvidenceRecords.RecordsAreOwned | src/orkio_v2/services/audit_evidence_repository.py:281-363 | in every race each record is that of the appender whose id it carries: its envelope's payload, the hash of its text, and columns that show it |
| EvidenceRecords.RefusedLeavesNothing | src/orkio_v2/services/audit_evidence_repository.py:281-300 | in every race an appender whose envelope is refused is told the error of its canonicalisation and has no record |
| EvidenceRecords.StepMovesOn | src/orkio_v2/services/audit_evidence_repository.py:281-363 | every step brings an appender nearer to its outcome, so none takes more than four |
| EvidenceLedger.RaceHasOneOutcome | src/orkio_v2/services/audit_evidence_repository.py:250-363 | every appender of an acceptable envelope ends with its own record, with the existing record of the same payload, or with the conflict error: exactly when the stored payload is a different JSON value, unless both are of one tenant and their canonical texts collide |
| EvidenceLedger.StepKeepsInv | src/orkio_v2/services/audit_evidence_repository.py:281-363 | every step of every appender keeps the ledger's invariant and only appends |
| EvidenceLedger.CompareIsSame | src/orkio_v2/services/audit_evidence_repository.py:250-262 | the comparison accepts an existing record exactly when it holds the same JSON value, or is of the same tenant with a canonical text that collides, and reports the conflict otherwise |
| AbuseLimiter.AuditDirectiveAbuseLimiter.Consume | src/orkio_v2/services/audit_invocation_rate_limit.py:109-120 | accepts exactly when fewer than the limit were accepted in the preceding window, adds what it accepts to that user and touches no other |
| AbuseLimiter.AuditDirectiveAbuseLimiter.Reset | src/orkio_v2/services/audit_invocation_rate_limit.py:122-124 | forgets every accepted time |
| AbuseLimiter.Trim | src/orkio_v2/services/audit_invocation_rate_limit.py:114-116 | after the loop the queue length is the number of times accepted in the window |
| AbuseLimiter.KeepsSpacing | src/orkio_v2/services/audit_invocation_rate_limit.py:109-120 | an accepted time lies a whole window after the one accepted `limit` places earlier |
| AbuseLimiter.SpacedMeansBounded | src/orkio_v2/services/audit_invocation_rate_limit.py:109-120 | no half-open window, wherever it starts, holds more than the limit of accepted times |
| LedgerLimit.WindowBound | src/orkio_v2/services/audit_invocation_rate_limit.py:47-82 | in no closed 60 s window do more operations of a user, or of a tenant, run than the limit and those whose record was lost |
| LedgerLimit.GovernedMore | src/orkio_v2/services/audit_invocation_rate_limit.py:47-82 | an attempt let through by a check of the ledger before it keeps the history governed |
| LedgerLimit.DeniedAttemptsCount | src/orkio_v2/services/audit_invocation_rate_limit.py:20-26 | a record of any status uses up the budget |
| AuditInvocation.GovernedAuditInvocationService.PersistEvidence | src/orkio_v2/services/audit_invocation_service.py:390-476 | writes exactly one record, or raises with the ledger as it was |
| AuditInvocation.GovernedAuditInvocationService.Deny | src/orkio_v2/services/audit_invocation_service.py:478-516 | always raises, with the denial the specification gives, and leaves exactly its record |
| AuditInvocation.RecordExactlyWhen | src/orkio_v2/services/audit_invocation_service.py:478-516 | a record exists exactly when the caller gets the outcome or a reference, which is exactly when the append works and denial records are allowed or the operation ran to an end; its status says what happened |
| AuditPermissions.InvocationTells | src/orkio_v2/services/audit_invocation_service.py:518-587 | the whole of one invocation in plain terms: a directive of a user within the guard runs if and only if all fifteen conditions are met, the caller's privilege and both counts of the last minute among them; if not, its code is that of the first that is not; and what everyone else is answered |
| AuditPermissions.RefusedTells | src/orkio_v2/services/capability_registry.py:170-215 | the reason for a refusal is that of the first condition, in the order of preflight and authorization, that is not met |
| AuditPermissions.CountIsSize | src/orkio_v2/services/audit_invocation_rate_limit.py:47-82 | the count is the number of records of that capability, tenant and user (or whole tenant) of the last 60 seconds |
| AuditInvocation.GovernedAuditInvocationService.Dispatch | src/orkio_v2/services/audit_invocation_service.py:731-889 | the operation runs exactly when preflight and authorization allow; the answer and the record left are those of the specification, in one history |
| AuditInvocation.GovernedAuditInvocationService.InvokeIfDirective | src/orkio_v2/services/audit_invocation_service.py:694-889 | the whole invocation is one step of the history: guard, parse errors and non-directives run nothing and leave no record; otherwise as `Dispatch` |
| AuditRuns.OperationsAreLimited | src/orkio_v2/services/audit_invocation_rate_limit.py:47-82 | over every serial run of invocations, in every window and for user and tenant, the operations that run are at most the limit and the escaping calls of that scope and window |
| AuditRuns.LimitHoldsWithoutEscapes | src/orkio_v2/services/audit_invocation_rate_limit.py:47-82 | over every serial run in which no call escapes, in every window and for user and tenant, the operations that run are at most the limit |
| AuditRuns.TenantLimitHoldsExactlyWhen | src/orkio_v2/services/audit_invocation_service.py:478-516 | for every policy, limit and call: however many users make the call at once, no window holds more operations than the tenant limit, if and only if the call does not escape (permitted on an empty ledger, and either its append fails or the archive is hidden without internal persistence) |
| AuditRuns.UserLimitHoldsExactlyWhen | src/orkio_v2/services/audit_invocation_service.py:440-460 | for every policy, limit and call: however often one user repeats the call at once, no window holds more operations than the user limit, if and only if the call does not escape or the guard is no wider than the user limit |
| AuditRuns.BothWaysEscape | src/orkio_v2/services/audit_invocation_service.py:478-516 | under an ordinary policy, a call whose record cannot be appended escapes, and so does one for a hidden archive without internal persistence although every append works |
| AuditRuns.EscapesLiftTheLimit | src/orkio_v2/services/audit_invocation_service.py:478-516 | whatever the limits, any number of users making an escaping call at one instant all run the operation and leave no record |
| AuditRuns.EscapesLiftTheUserLimit | src/orkio_v2/services/audit_invocation_service.py:478-516 | one user runs an escaping call at one instant as often as the guard lets through, whatever the user limit |
| AuditRuns.GuardLimitsEveryUser | src/orkio_v2/services/audit_invocation_rate_limit.py:109-120 | over every serial run with a monotone clock, records or not, one user gets no more directives through in a guard window than the guard's limit |
| Utf8.ValidConcat | src/orkio_v2/services/audit_file_adapter.py:25-28 | after a valid prefix, the whole is valid exactly when the rest is |
| Utf8.BoundaryNearby | src/orkio_v2/services/audit_file_adapter.py:93-101 | at most three bytes before any cut of a valid text there is a character boundary |
| Utf8.LeadByteIsBoundary | src/orkio_v2/services/audit_file_adapter.py:25-28 | in a valid text every byte that is not a continuation byte starts a character |
| Utf8.EncodeDecode | src/orkio_v2/services/audit_file_adapter.py:25-28 | strict decoding yields only Unicode scalar values, and encoding them gives back the bytes |
| Utf8.DecodeEncode | src/orkio_v2/services/audit_file_adapter.py:15-16 | every text of scalar values has a well-formed encoding that decodes to it |
| Utf8Window.BackOff | src/orkio_v2/services/audit_file_adapter.py:93-101 | the loop stops at the last character boundary, at most three bytes before the limit |
| Utf8Window.ReadText | src/orkio_v2/services/audit_file_adapter.py:70-110 | every refusal in its order, with its code; otherwise the longest whole-character prefix that fits, at most three bytes short, decoded |
| FileRules.CleanByBytes | src/orkio_v2/services/audit_file_adapter.py:25-36 | a valid text has no control character but the allowed ones exactly when no byte is below 0x20 or 0x7F, those apart, and no 0xC2 stands before 0x80 to 0x9F |
| FileRules.ReadRefusalTells | src/orkio_v2/services/audit_file_adapter.py:52-91 | a window is refused with the error of the first of six rules it breaks, told by its numbers and the bytes of the file, and read exactly when it breaks none |
| Utf8Window.EmptyExactlyWhenTooNarrow | src/orkio_v2/services/audit_file_adapter.py:93-101 | a window before the end is empty exactly when the next character does not fit, never with four bytes or more |
| Utf8Window.WindowsAssemble | src/orkio_v2/services/audit_file_adapter.py:70-110 | windows advanced by `bytes_read` assemble the text up to where they stand, which is a boundary again |
| Utf8Window.WindowsReassemble | src/orkio_v2/services/audit_file_adapter.py:70-110 | with windows of at least four bytes every reading reaches the end within as many windows as bytes and gives back the whole text |
| MarkerSearch.SearchAll | src/orkio_v2/services/audit_file_adapter.py:132-139 | the matches are ordered, disjoint occurrences and every occurrence starts inside one of them |
| MarkerSearch.FindLiteralMarker | src/orkio_v2/services/audit_file_adapter.py:112-157 | every refusal in its order; otherwise match count, visible line numbers and both truncation flags describe the matches of the scanned prefix |
| FileRules.SearchRefusalTells | src/orkio_v2/services/audit_file_adapter.py:15-22 | a search is refused with the error of the first of eight rules it breaks, and made exactly when it breaks none |
| FileRules.NewlinesAreLineFeeds | src/orkio_v2/services/audit_file_adapter.py:142-142 | the line number of a match is one more than the number of bytes 10 before it |
| MarkerSearch.ReportIsMaximal | src/orkio_v2/services/audit_file_adapter.py:132-139 | no pairwise disjoint occurrences are more than the reported ones, and the search is never behind |
| MarkerSearch.ReportIsUnique | src/orkio_v2/services/audit_file_adapter.py:132-139 | the conditions on the matches leave exactly one answer |
| MarkerSearch.MatchesAreWholeCharacters | src/orkio_v2/services/audit_file_adapter.py:15-22 | a byte match of a marker starts and ends on character boundaries, even in a prefix cut inside a character |
| Text.CleanIsJoin | src/orkio_v2/services/artifact_specs.py:51-52 | cleaning a text is joining its words with single spaces |
| Text.CleanKeepsWords | src/orkio_v2/services/artifact_specs.py:51-52 | cleaning keeps every word and is idempotent |
| BulletChunks.BulletChunks | src/orkio_v2/services/artifact_specs.py:119-130 | the chunks split the words in order, each fits the limit or is one word, and none could take its next word |
| BulletChunks.Pack | src/orkio_v2/services/artifact_specs.py:123-130 | the greedy loop over the words makes such a split |
| BulletChunks.SplitKeepsEveryWord | src/orkio_v2/services/artifact_specs.py:119-130 | the chunks on one line are the cleaned text |
| BulletChunks.GreedyIsMinimal | src/orkio_v2/services/artifact_specs.py:119-130 | no other split that respects the limit has fewer chunks |
| BulletChunks.GreedyIsUnique | src/orkio_v2/services/artifact_specs.py:119-130 | the split is determined by words and limit |
| DocumentParser.ReadRows | src/orkio_v2/services/artifact_specs.py:80-85 | reads the header and the maximal run of table rows below the separator |
| TableGrammar.CellsOfRow | src/orkio_v2/services/artifact_specs.py:54-55 | the cells of a row are the cleaned texts between its pipes, one pipe at either end dropped |
| TableGrammar.TableStartsExactlyWhen | src/orkio_v2/services/artifact_specs.py:57-58 | a table starts exactly at a line with a pipe above a line of rules, three dashes or more between colons, spaces and pipes |
| DocumentParser.Pad | src/orkio_v2/services/artifact_specs.py:86-87 | fills every row up to the widest one, which occurs |
| DocumentParser.ReadList | src/orkio_v2/services/artifact_specs.py:91-101 | reads the maximal run of items and keeps the non-empty ones in order |
| LineGrammar.HeadingExactlyWhen | src/orkio_v2/services/artifact_specs.py:75-78 | a heading of a level with a body is recognised exactly where the line is that many hashes, one to six, spaces and that body |
| LineGrammar.BulletExactlyWhen | src/orkio_v2/services/artifact_specs.py:91-101 | a bullet is recognised exactly where spaces, a mark and a space come first, and its item is what follows |
| LineGrammar.NumberExactlyWhen | src/orkio_v2/services/artifact_specs.py:91-101 | a numbered item is recognised exactly where spaces, digits, a dot or bracket and a space come first, and its item is what follows |
| LineGrammar.PageBreakExactlyWhen | src/orkio_v2/services/artifact_specs.py:73-74 | a page break is one of three spellings, in capitals or not |
| DocumentParser.ReadParagraph | src/orkio_v2/services/artifact_specs.py:102-109 | reads up to the first line that interrupts a paragraph |
| DocumentLines.ParagraphIsMaximal | src/orkio_v2/services/artifact_specs.py:102-109 | a paragraph takes every line at which one could begin and stops before the first at which none could |
| DocumentLines.LinesComeBack | src/orkio_v2/services/artifact_specs.py:61-64 | lines joined with any of the three line endings are cut into the same lines |
| DocumentParser.ReadBlock | src/orkio_v2/services/artifact_specs.py:69-113 | one turn of the parser is the step its first line calls for |
| DocumentParser.ParseLines | src/orkio_v2/services/artifact_specs.py:65-113 | the turns cover consecutive ranges of all lines, and blocks, texts and title are those of the turns in order |
| DocumentParser.ParseDocumentSpec | src/orkio_v2/services/artifact_specs.py:60-114 | line endings, stripping, the empty document, the default title and its cut, and the joined semantic text |
| DocumentText.OneReading | src/orkio_v2/services/artifact_specs.py:60-114 | the ranges are disjoint and cover all lines, and the lines admit one reading only |
| DocumentText.GapsAreEmpty | src/orkio_v2/services/artifact_specs.py:71-101 | only a blank line or a list of empty items leaves no block |
| DocumentText.TablesAreRectangular | src/orkio_v2/services/artifact_specs.py:80-88 | every table is rectangular and holds the cells of its lines, then empty ones |
| DocumentText.BlocksAreMeaningful | src/orkio_v2/services/artifact_specs.py:75-113 | headings have a level from 1 to 6 and text, paragraphs text, lists non-empty items, tables rows |
| DocumentText.TitleIsFirstText | src/orkio_v2/services/artifact_specs.py:78-112 | the title is the first heading or the first 120 characters of the first paragraph, and missing exactly when there is neither |
| DocumentWords.SemanticTextIsOfBlocks | src/orkio_v2/services/artifact_specs.py:60-114 | the texts joined into the semantic text are exactly those of the blocks, in order: a heading or paragraph its text, a list its items, a table one text for each row, its non-empty cells |
| DocumentWords.SemanticTextShowsEveryWord | src/orkio_v2/services/artifact_specs.py:60-114 | word for word, the semantic text is the heading texts, items, non-empty cells and paragraph lines of the document, in order, and nothing else |
| DocumentText.NoTextIsLost | src/orkio_v2/services/artifact_specs.py:60-114 | cutting rows into cells and joining them loses nothing either: read with pipes as spaces, the semantic text is the text of the lines themselves |
| DocumentText.LinesKeepText | src/orkio_v2/services/artifact_specs.py:61-64 | cutting the content into lines loses no word |
| WordOrder.PiecesOfJoin | src/orkio_v2/services/artifact_specs.py:89-114 | joining with separators adds no word and loses none |
| SlidePlan.Sections | src/orkio_v2/services/artifact_specs.py:133-152 | the sections hold every bullet of every block in order under its own heading, none is empty, and each is a whole stretch of blocks between two cuts, which are headings of level one and two and page breaks |
| SlidePlan.SlidesOfSection | src/orkio_v2/services/artifact_specs.py:156-160 | a section becomes full slides of six and one last slide, titled as continuations, with its bullets in order |
| SlideContents.RowItemShows | src/orkio_v2/services/artifact_specs.py:147-150 | a table row is shown as the first 210 characters of its pairs, header, colon and cell, joined by bars, over exactly the columns within both lengths where header or cell is not empty, in order |
| SlideContents.TableItemsShow | src/orkio_v2/services/artifact_specs.py:144-150 | the bullets of a table are those of its rows below the header, in order, without the rows that have no such column |
| SlideContents.TitleIsLastHeading | src/orkio_v2/services/artifact_specs.py:137-143 | a section is titled by the last heading of level one or two before it, or as the summary |
| SlidePlan.BuildSlidePlan | src/orkio_v2/services/artifact_specs.py:132-161 | the deck is that of the sections, or of the semantic text when no block gives a bullet |
| SlideTheorems.SlidesShowEveryBullet | src/orkio_v2/services/artifact_specs.py:60-161 | for every parsed document the slides show exactly the bullets of its blocks in order; the blank filter and the filler never act |
| SlideContents.SlidesShowBlocks | src/orkio_v2/services/artifact_specs.py:60-161 | for every parsed document the slides show its blocks in order: paragraphs and items in chunks of 210 characters, lower headings, and table rows with their headers |
| SlideContents.SectionsLookSo | src/orkio_v2/services/artifact_specs.py:155-161 | the slides of a section are full ones of six bullets and a last one, the first with its title and the others with the continuation of it, cut to 100 characters, and hold in order the bullets that are not blank, or the filler exactly where there is none |
| SlideTheorems.BareDocumentShowsItsText | src/orkio_v2/services/artifact_specs.py:153-160 | a document without bullets is shown as its semantic text, word for word, and as the filler only if that text is all spaces |
| SlideTheorems.ParsedDocumentNeverShowsFiller | src/orkio_v2/services/artifact_specs.py:60-161 | for a parsed document, whose text is stripped, that never happens |
| RuntimeEvents.TerminalMeansOneDoneAtTheEnd | src/orkio_v2/runtime/events.py:59-70 | the terminal checks are one condition, a single DONE that is last, and the misplaced-error check can never be what fails |
| RuntimeEvents.AcceptedExactlyWhen | src/orkio_v2/runtime/events.py:73-85 | the validator accepts exactly traces of one execution with contiguous numbers and one DONE, at the end |
| TeamReplies.SequenceTells | src/orkio_v2/runtime/events.py:59-85 | a trace is refused with the error of the first of four rules it breaks, and only then |
| TeamStream.Events | src/orkio_v2/team_routes.py:159-463 | for every pattern of model and storage failures the generator leaves the specified trace, numbered from 1, and its own validation never raises |
| TeamStream.Contribute | src/orkio_v2/team_routes.py:199-320 | one contributor sends its start, its pieces and its end, with the error code of its failure |
| TeamStream.TraceIsValid | src/orkio_v2/team_routes.py:170-173 | every such trace passes the sequence validator |
| TeamStream.TraceIsBracketed | src/orkio_v2/team_routes.py:199-320 | agents start, stream and end one at a time in plan order, and the synthesis comes after all of them |
| TeamStream.CompletedRunAccountsForAll | src/orkio_v2/team_routes.py:436-463 | in a completed run the completed and failed agents are those whose ends the trace shows, and together they are all contributors |
| TeamReplies.ModelTells | src/orkio_v2/team_routes.py:221-320 | a contributor, or the synthesis, fails with the code of the first it lacks: a model, an end without error, an answer with a character that is no space, and its storage; and succeeds exactly when it lacks none |
| TeamReplies.RunEndsExactlyWhen | src/orkio_v2/team_routes.py:321-463 | the run is heard up to the first contributor whose answer could not be stored, which fails it; otherwise it fails if nobody succeeded, else as the synthesis fails, and is completed exactly when that succeeds too |

## Left out

- Catalogue parsing, item resolution, validation of the request payload and the views: stateless members; a refused request is one action of the protocol.
- Webhook authentication, JSON decoding of the payload and extraction of provider ids: an event arrives with kind, payment, link and payload already read; ids are strings and the empty string stands for none.
- Audit event rows written beside each billing step: they influence nothing.
- SHA-256 and HMAC: the event key is the text that is hashed, so it is taken to be injective; evidence digests use the parameter `hash`.
- Statement-level interleaving inside one webhook: each webhook is one transaction, although the code takes no lock on the wallet row.
- The choice among several rows with one payment id, which the query leaves to the database: the model takes the oldest; with one link per payment there is at most one.
- Provider errors are the three outcomes accepted, rejected and unknown; HTTP status mapping is in asaas_client.py and is not part of this model.
- Spending: an environment step with a debit row and a lifetime debit; no code shown does it.
- The final sort of the proofs and the iteration order over roles in the authority evaluation: the result says which proofs there are, each once, and holds for any order; which of several errors is reported first is left open.
- Edge lists are sorted by insertion while they are built rather than by one sort at the end; the lists are the same up to the order of equal keys.
- Surrogate code points in strings and the UTF-8 encoding of the canonical text: strings are sequences of characters.
- NFC, ISO timestamps other than the fixed form, the blank test, the encoded size, the secret scan and the hash: operations with stated laws (`EvidencePayload.Ops`).
- The envelope dataclass path, and columns whose value the database would convert: a bound column holds the payload's value.
- Concurrent audit invocations, whose checks may overlap: runs are serial.
- File descriptors, path policy and short reads of the file adapter: bytes in, result out; the secret patterns are a predicate on bytes.
- Python's equality of `True` and `1` in dictionary comparison: the model keeps them apart, as the canonical text does.
- Database failures other than the unique violation: they leave the table unchanged.
- Normalisation of user and tenant ids in evidence records: the ledger count compares stored ids with the caller's, which agree for ids already in NFC.
- Clocks: readings are parameters; the guard's clock does not go back, and a record is written no earlier than its check.
- The guarded operation, its timeout, the output sanitizer and the request binding: one outcome each of done, hidden archive and failure.
- A marker is given as its UTF-8 bytes, so text with lone surrogates, which the encoder refuses, does not occur.
- Decimal digits of a numbered item are the ASCII digits; the regular expressions are written as the line tests they amount to.
- `build_slide_plan` is modelled with its default limits, six bullets and 210 characters, which its only caller uses.
- Spreadsheet rows, renderers, the semantic anchor text: easy members over the same blocks.
- Client disconnects in the team stream, the audit rows beside its events, and the payload fields of an event other than those that identify it.
- `completeness.py` and `compatibility.py`, migrations, voice, realtime, native auth and knowledge routes: wrappers or small tables.
