# Dispute router: a verified model

A payment platform receives disputes from card networks, decides some of them
itself, lets an assistant draft answers to others, and keeps double-entry books
of the money meanwhile. This project models that system in Dafny and proves
what holds of it in every run.

Paths in this file are relative to the repository root.

## What is modelled

**The dispute tables and their four writers.** Webhook intake, the deadline
worker, the drafting assistant and the human reviewer each run one database
transaction at a time on the same rows.

- `Vocabulary`, `Tables`, `Ledger` are the rows, the journals and the checks the
  database makes at commit. `RefText` renders a journal's idempotency key.
- `IngestStore`, `WorkerRules`, `WorkerStore`, `AgentStore`, `Assist`,
  `ReviewStore` say what each transaction does and when it is refused.
- `Database`, `Transactions` run the same transactions statement by statement on
  one mutable database; each method is proved to do what its specification says
  or to leave no trace.
- `Lifecycle`, `Invariant` hold the state machine and the one inductive
  invariant. `System` interleaves the writers: snapshots and claims, once taken,
  may be used at any later point and any number of times.
- `Effects` says what each step of each writer leaves in the tables, in rows,
  states, references and amounts alone, so that the specifications above are
  pinned by something other than the methods that follow them.
- `Guarantees`, `History`, `AuditTrail`, `RefundMoney` draw the consequences for whole runs;
  `OneCase` is the one run behind the results that say what can go wrong.

**The deadline scheduler.** `Deadlines` is the sorted set with its atomic claim
(times in nanoseconds, scores cut to whole seconds), `Pool` the handler and the
bounded tick, `Sweep` the account of where every open dispute is.

**Delivery.** `Delivery` is the webhook path with its Redis claim, crashes,
expiries and flushes; `Relay` the outbox relay, alone and in numbers; `Redrive`
the dead-letter replay against a queue service that may fail or stop anywhere.

**Rates, queries, text.** `TokenBucket`, `Filters`, `Listings` (what a database
may reply to an ordered query), `Pages`, `Money`.

## Assumptions

- Database constraints are commit conditions: a transaction that breaks one is
  rolled back whole. Row identities are positions, so gaps in identity columns
  are not modelled. Ledger accounts are fixed for the length of a run. Runs start
  with seeded charges and no disputes.
- Every instant is an input of the step that carries it: the moment a transaction
  began, or a date the processor sent. Only the times of rate-limited requests are
  taken not to go back. Amounts are unbounded integers and token
  counts exact rationals.
- A delivery reaches its transaction only if it passes intake's checks
  (`internal/ingest/event.go:86-130`, `internal/ingest/event.go:215-233`).
- A snapshot's ceiling is an input of the moment it is taken, since merchants may
  change it at any time. Replies of the language model are inputs.

## What the code does that its documentation does not say

- **Held money and alerts.** `services/simulator/src/verify.ts:83-111` states that
  `disputes_payable` equals the chargebacks still open. It does if and only if no
  alert was ever ruled on (`Guarantees.HeldMoney`), and no alert is ever ruled on as
  long as the single-dispute mode (`cmd/agent/main.go:200`), which holds whatever id
  it is given, is not given an alert's (`Guarantees.HeldEqualsOpen`). Named so, drafted
  and ruled on, an alert takes its amount out of an account where nothing was held
  (`OneCase.RuledAlertGoesShort`).
- **Missing accounts.** A leg whose account is missing inserts nothing
  (`internal/ledger/postings.go:123-148`). A chargeback in a currency in which its
  merchant has neither account is therefore accepted with an empty hold journal;
  one with half the accounts is refused. `IngestStore.HoldRefusedIff` and
  `Guarantees.HeldEqualsOpenIff` give the exact conditions. A loss is accepted under
  exactly the accounts of `Ledger.LossAcceptedIff`, and `OneCase.HalfALossCommits` is
  the run that commits half of one.
- **The trail as it is read.** The trail is read by `occurred_at`
  (`internal/api/store.go:366-367`), and arrivals and rulings carry the processor's
  dates (`internal/ingest/store.go:186`, `internal/ingest/store.go:366`), of which a
  ruling's is only checked not to be zero (`internal/ingest/event.go:229`). Where the
  stamps a dispute's own writers put on it are in order, it chains as read if and only
  if all its stamps respect the order of the commits
  (`AuditTrail.TheTrailAsReadChainsIff`), and a settled dispute is read as settled if
  and only if its settlement has the latest stamp
  (`AuditTrail.SettlementIsReadLastIff`). A ruling dated before the submission breaks
  both (`AuditTrail.EarlyRulingIsMisread`).
- **A broken outbox message.** The comment at `internal/outbox/relay.go:131-132` says a
  broken message does not block the ones behind it. A row behind one that is always
  refused is marked if and only if a transaction commits it that began while another
  relay had the refused row locked (`Relay.BrokenMessageIsPassedIff`): two relays can
  pass it (`Relay.TwoRelaysPass`), one never does (`Relay.OneRelayIsBlocked`).
- **A duplicate that is none.** The idempotency key is the bare event id, for all
  merchants (`internal/ingest/handler.go:149`,
  `db/migrations/000001_init.up.sql:206`). A delivery told "duplicate" by Redis is on
  record at the end of a run if and only if it is the one delivery of its id in the
  log (`Delivery.ToldDuplicateIsTrueIff`). Two merchants whose events carry one id: the
  second is answered "duplicate" and recorded nowhere
  (`Delivery.SharedIdSuppressesTheOther`). Where all deliveries of one id are the same
  delivery, the answer is false if and only if the id was not on file when it was given
  and nothing commits it later (`Delivery.RedisAnswerIsFalseIff`). Apart from another
  delivery that holds the id, a false answer means that a handler is still at work on
  it, that its key was stranded, or that the write failed after the answer and the
  sender of the failed delivery, not the one who was told "duplicate", was asked to try
  again (`Delivery.FalseDuplicateExplained`). Stranding and failing happen:
  `Delivery.CrashStrandsTheEvent`, `Delivery.LostReleaseStrandsTheEvent`,
  `Delivery.LostReplyStrandsTheEvent`, and `Delivery.FailedWriteBeliesTheDuplicate`, in
  which nothing crashes and Redis never fails. Expiry and flushes of keys are harmless.
- **Refunds in another currency.** Intake links an event to a charge without comparing
  their currencies (`internal/ingest/store.go:111-143`), and the refund total of a
  charge is a bare number. It is conserved in money if and only if every dispute
  refunded on the charge is in its currency (`RefundMoney.RefundsAreMoneyIff`); 5,000
  yen are refunded on a charge of 60.00 dollars and count as 50.00 of them
  (`RefundMoney.YenRefundedOnDollars`).
- **Search text.** The search is by prefix if and only if the text has none of the
  characters `%`, `_` and `\` (`Filters.SearchIsByPrefixIff`).
- **Decision pages.** The decision history orders by review time alone. Its pages show
  the same decisions in every reply if and only if no two of the same instant meet at
  the boundary of two pages (`Pages.DecisionPagesAreStableIff`); where two do, paging
  can show one twice and the other never (`Pages.OneDecisionTwiceTheOtherNever`).
- **Replay reasons.** `internal/dlq/redrive.go:170-171` promises one reason a failure; when
  a later receive fails the reasons are dropped and only the count is returned
  (`Redrive.Queues.Replay`).
- **Rate settings.** Configuration checks that the merchant limiter's settings are
  positive (`internal/config/config.go:304`), not the address limiter's. A rate of zero
  makes every request fail; a negative one whose expiry is not positive forgets each
  bucket at once (`TokenBucket.Limiter.Allow`).
- **Printed signs.** A negative amount of less than one major unit prints without
  its sign (`Money.RoundTripIff`).

## Model

| member | source | states |
|---|---|---|
| Guarantees.HeldMoney | services/simulator/src/verify.ts:83-111 | In every state of the invariant, for an existing payable account: the balance held is the open chargebacks less the ruled alerts; it equals the open chargebacks if and only if no alert of that merchant and currency was ruled on |
| Guarantees.NothingHeld | internal/ledger/postings.go:123-148 | A payable account that does not exist holds nothing; the open chargebacks then sum to nothing too if the balance account exists |
| Guarantees.AlertsStayShort | internal/agent/store.go:62-126 | As long as no step names an alert that is on file, alerts are only received, refunded or expired and listed ids are chargebacks, in every run |
| Guarantees.HeldEqualsOpen | services/simulator/src/verify.ts:83-111 | Held money equals open chargebacks after every interleaving that names no alert, single-dispute holds of chargebacks and arbitrarily stale snapshots and claims included, for a merchant with either of its two accounts in the currency |
| Guarantees.UnheldChargeback | internal/ledger/postings.go:123-148 | With neither account, in any currency code and for a merchant with a charge that can be referred to, a run of one valid delivery ends with an open chargeback and nothing held |
| Guarantees.HeldEqualsOpenIff | services/simulator/src/verify.ts:83-111 | Held equals open after all runs that name no alert if and only if the merchant has one of its two accounts in the currency, or no dispute in it can come in: no charge that can be referred to, or no currency code |
| Guarantees.RunKeepsVetted | internal/ingest/event.go:86-130 | After every run each dispute's charge can be referred to and its currency is three capitals |
| History.TheBookIsAFunctionOfTheDisputes | internal/ledger/postings.go:159-227 | After every run each existing account holds exactly the sum of what each dispute's state means for it, a missing one holds nothing, and each currency's book nets to zero |
| History.SettlementHappensOnce | internal/worker/store.go:181-208 | After every run a chargeback has one hold, a release if and only if it is won, a loss if and only if it is lost or expired; no idempotency key repeats; each journal of a chargeback is whole or empty |
| History.TerminalForever | internal/dispute/dispute.go:24-55 | Once a dispute is refunded, won, lost or expired, its row and everything counted about it are the same after any continuation of the run |
| History.RefundsAreConserved | internal/worker/store.go:182-246 | After every run a charge's refund total is the sum, in minor units, of the refund journals of its disputes, between zero and the charge, with its status to match; a refunded dispute has its own refund journal or sits on a fully refunded charge |
| RefundMoney.RefundsAreMoneyIff | internal/worker/store.go:233-246 | After every run a charge's refund total equals what was refunded on it in its own currency, with nothing refunded in another, if and only if every dispute refunded on it is in its currency |
| RefundMoney.YenRefundedOnDollars | internal/ingest/store.go:111-143 | A concrete run refunds a yen alert on a dollar charge and adds the yen to its total of cents |
| History.SecondRefundRefused | internal/worker/store.go:233-246 | Two alerts on one charge, both loaded while each fits: one is refunded, any run follows, and if both together exceed the charge the other is never written; with its row unmoved it is refused as over-refund, whenever it is decided and applied |
| History.TheTrailReplays | internal/events/events.go:54-77 | After every run the events of each dispute chain in commit order, the last one committed gives the row's state (received standing for a claim in progress), and the outbox is exactly the announced part of the trail in order |
| AuditTrail.TheTrailAsReadChainsIff | internal/api/store.go:365-383 | After every run, for a dispute whose worker, agent and reviewer events are stamped in commit order, the trail ordered by stamp and id chains if and only if all its stamps respect the order of the commits, whatever arrival and ruling dates come in and whatever other disputes' stamps are |
| AuditTrail.InOrderChains | internal/api/store.go:365-367 | A trail whose stamps respect the order of the commits chains as read, on any clocks |
| AuditTrail.SwappedStampsStillChain | internal/api/store.go:365-367 | Two alike attempts with swapped stamps: not in commit order, and chained as read |
| AuditTrail.SettlementIsReadLastIff | internal/events/events.go:46-50 | After every run a settled dispute's last event as read gives its state if and only if no event of it is stamped later than its settlement |
| AuditTrail.EarlyRulingIsMisread | internal/ingest/store.go:355-369 | In a concrete run a ruling dated before the submission is read before it: the reading does not chain and ends in represented |
| AuditTrail.LastReadIff | internal/api/store.go:365-367 | The event committed last is read last if and only if no other is stamped later |
| AuditTrail.StepWrites | internal/events/events.go:54-77 | Each step writes at most one event, stamped with its own instant unless it is an arrival or a ruling |
| History.AttemptsAre1ToN | internal/agent/store.go:98-126 | In a ranked run table the attempt numbers of a dispute are exactly 1 to n |
| History.AttemptsDiffer | internal/agent/store.go:204-246 | No two recorded runs of a dispute carry the same attempt number |
| History.ReviewsAndAttempts | internal/api/reviews.go:225-287 | After every run there is exactly one submitted run if and only if the dispute is represented, won or lost; attempts are 1 to n; a dispute that used up its attempts and is back in the queue has a discarded run |
| History.RecordedSpendBounded | internal/agent/assist.go:300-305 | With a ceiling set and calls priced, recorded spend on one dispute stays below ceiling plus one call after every run, over all attempts |
| OneCase.RuledAlertGoesShort | cmd/agent/main.go:195-205 | A concrete run: an alert drafted through the single-dispute mode and ruled on leaves the payable account at minus its amount with nothing open; the run names an alert |
| OneCase.WholeRun | internal/agent/store.go:98-279 | The five steps of that run, for either kind, verdict and ruling date and any accounts that accept its journals, leave exactly the stated row, trail and journals |
| OneCase.HalfALossCommits | internal/ledger/postings.go:195-210 | In a concrete run a lost alert of an unpaired merchant commits a loss with two of its four legs, under exactly the listed account sets |
| System.RunKeepsInv | internal/worker/store.go:124-225 | The invariant, and what snapshots and claims may be relied on for, hold after every finite interleaving of the four writers |
| System.StepKeepsInv | internal/agent/store.go:98-140 | One step of any writer, with any snapshot or claim ever taken, keeps them |
| System.StepDoes | internal/worker/store.go:140-157 | Every step commits at most one birth or one edge of the lifecycle graph |
| System.WhoTakesWhichEdge | internal/api/reviews.go:225-287 | Only a reviewer represents or discards, only the network rules, only the worker refunds, closes or expires, only an attempt writes a run, only a hold claims |
| Effects.DeliverDoes | internal/ingest/store.go:86-218 | For every arrival and every state of the invariant: dropped if malformed or on file; filed as failed if no charge of that merchant has the reference; filed as processed if a dispute of that merchant has its reference; refused if a hold would find one of its two accounts; otherwise exactly the new row, hold legs, event, announcement and delivery |
| Effects.RuleDoes | internal/ingest/store.go:291-416 | For every ruling: filed as failed if no dispute of that merchant and reference is represented; otherwise that dispute is won or lost as ruled, with the release or the four loss legs, the network's event at the network's date, an announcement and the delivery, or nothing if the legs do not balance |
| Effects.RulingWrites | internal/ingest/store.go:329-403 | The answer that goes with it names the one dispute that has the merchant, the reference and the state |
| Effects.JournalsAre | internal/ledger/postings.go:159-227 | The four journals leg by leg: account, direction and amount, the fee being 1500, each leg present if and only if its account exists |
| Effects.SnapshotDoes | internal/worker/store.go:44-70 | A snapshot is the row, the ceiling, and the charge less what was refunded on it |
| Effects.StaleDoesNothing | internal/worker/store.go:140-157 | A decision on a row that moved on, or on a snapshot never taken, leaves everything as it is |
| Effects.ExpireDoes | internal/worker/store.go:195-208 | On a current snapshot past its deadline and on the clock: expired with its event and announcement; a chargeback with the loss legs, or not at all if they do not balance; an alert with no journal |
| Effects.CloseDoes | internal/worker/rules.go:157-174 | On a current snapshot of an alert in its window whose charge has nothing left: refunded, with no journal and no refund total moved |
| Effects.RefundDoes | internal/worker/store.go:181-246 | On a current snapshot of an alert in its window, under its ceiling and within the rest: refunded with the two refund legs and the charge's total and status raised, if the refund still fits and the legs balance |
| Effects.OtherwiseLeftAlone | internal/worker/rules.go:127-257 | In every other case a decision writes nothing |
| Effects.HoldDoes | internal/agent/store.go:98-126 | A named hold takes exactly a received dispute, to resolving, and hands out its new version, one more than its recorded attempts, and their cost; nothing else changes |
| Effects.ListedHoldDoes | internal/agent/store.go:62-90 | A hold from the work list is a named hold of an id the list took |
| Effects.ListDoes | internal/agent/store.go:62-90 | The work list takes exactly a received chargeback with attempts left and more than five minutes to its deadline |
| Effects.EarlierAttempts | internal/agent/store.go:108-110 | The count goes up by one, and the sum by the cost, with each run of that dispute and no other |
| Effects.ReleaseDoes | internal/agent/store.go:129-140 | A release puts the dispute back to received if its claim is current, and changes nothing else |
| Effects.FinishDoes | internal/agent/store.go:204-298 | A finished attempt on a current claim adds exactly its row, the agent's event, and the move to draft_ready where there is a letter to read or no attempt left, to received otherwise; any other leaves no trace |
| Effects.DecideDoes | internal/api/reviews.go:225-287 | A review that lands marks its run, moves the dispute to represented or received, adds the reviewer's event and nothing else; any other leaves no trace |
| Invariant.AdvanceKeepsInv | internal/worker/store.go:124-225 | Every accepted advance of one dispute keeps the invariant of rows, journals, book, refunds, trail and attempts together |
| Invariant.OpenKeepsInv | internal/ingest/store.go:131-205 | So does opening a dispute |
| Invariant.RefIsFree | internal/ledger/postings.go:66-72 | On a legal advance the journal's idempotency key is always unused |
| Invariant.OnlyMoneyRefuses | db/migrations/000002_ledger.up.sql:53-75 | On a legal advance the timestamp check and the unique key cannot fire; it commits if and only if the refund fits the charge and the journal's accounts are whole or wholly missing |
| Invariant.MovesAreEdges | internal/worker/store.go:140-157 | A committed transaction changes a row only along an edge, never out of a terminal state, and raises its version by one |
| Invariant.EventsTellTheTruth | internal/events/events.go:54-77 | An event written by a transaction names the state its row really left and the one it really entered |
| Invariant.RefundsOnlyGrow | internal/worker/store.go:233-246 | A charge's refund total never falls and never passes the charge |
| Invariant.TallyAdvance | internal/worker/store.go:140-208 | Counting over the tables after the transaction equals firing the edge on that dispute's counts, and no other dispute's counts change |
| Lifecycle.GoodFire | internal/dispute/dispute.go:24-55 | Each enabled edge keeps the relation between a dispute's state and the journals, reviews and attempts counted for it |
| Lifecycle.ShareFire | internal/ledger/postings.go:159-227 | Each edge changes what a dispute means for an account by exactly what its journal means for it |
| Lifecycle.TerminalIsFinal | internal/dispute/dispute.go:24-55 | No edge is enabled in a terminal state |
| Ledger.JournalEffect | internal/ledger/postings.go:106-148 | An existing account receives the whole of what a journal means for it whichever other accounts are missing; a missing one receives nothing |
| Ledger.TwoLegsAccepted | db/migrations/000002_ledger.up.sql:114-155 | A two-leg journal passes the balance check if and only if both accounts exist or neither does |
| Ledger.LossAcceptedIff | internal/ledger/postings.go:195-210 | For every account set and amount a loss passes the balance check if and only if principal and fee are each whole or absent, or the amount is the fee's and a debit of the one meets a credit of the other; it is committed in part if and only if the merchant's own accounts are unpaired |
| Ledger.LossAccepted | internal/ledger/postings.go:195-210 | With the merchant's accounts paired, a loss passes if and only if all four accounts exist or none does |
| Ledger.WholeOrEmpty | internal/ledger/postings.go:106-148 | An accepted journal under that pairing has all its legs or none |
| Ledger.HalfALoss | internal/ledger/postings.go:123-148 | Without the pairing there are accounts under which a loss commits the principal and drops the fee |
| RefText.TextIsInjective | internal/ledger/postings.go:66-72 | Two idempotency keys render to the same text if and only if they name the same dispute and kind of journal |
| RefText.Rendered | internal/ledger/postings.go:66-72 | The text of each kind's key |
| IngestStore.HoldRefusedIff | internal/ingest/store.go:159-172 | A new chargeback is recorded if its merchant's two accounts in the currency are both there or both missing, and refused as unbalanced otherwise |
| IngestStore.SeenDeliveryIsInert | internal/ingest/store.go:230-250 | A delivery whose id is on file changes nothing and is a duplicate; every delivery that is not rolled back puts its id on file |
| IngestStore.RecordDoes | internal/ingest/store.go:86-218 | Intake of an opened dispute is one birth or no change to the dispute tables |
| IngestStore.RulingDoes | internal/ingest/store.go:291-416 | Intake of a ruling is one win or loss of a represented dispute, or no change; which dispute that is, `IngestStore.RulingAnswers` says |
| IngestStore.RulingAnswers | internal/ingest/store.go:327-353 | A ruling under a new id is unlinkable if and only if no row has the merchant, the reference and the state represented; if it is recorded, its row has all three, is won or lost as ruled, and every other row is unchanged |
| IngestStore.RecordAnswers | internal/ingest/store.go:111-157 | An arrival under a new id is unlinkable if and only if no charge has the merchant and the reference, and a duplicate if and only if one has, the amount is positive, and a dispute has the merchant and its reference |
| WorkerRules.RefundIff | internal/worker/rules.go:127-257 | The policy refunds if and only if an unresolved alert is received or resolving, inside its window, at or under a set ceiling and within what is left of the charge |
| WorkerRules.OnlyTheClockMovesAChargeback | internal/worker/rules.go:127-257 | A chargeback is only ever expired; anything on the clock is expired if and only if its deadline is reached |
| WorkerRules.ActionIff | internal/worker/rules.go:127-257 | Every action as one exact condition: an alert is closed if and only if it is unresolved, received or resolving, in its window, and nothing is left of its charge; the rest is escalated, expired or skipped under the stated conditions |
| WorkerRules.EscalatedBecause | internal/worker/rules.go:65-92 | Each reason for leaving a dispute to a person, in terms of its kind, ceiling, remainder and reason code |
| WorkerStore.DecisionIsLegal | internal/worker/store.go:124-157 | If the version still matches, the snapshot equals the row and the decision taken on it is a legal edge, however long ago it was loaded |
| WorkerStore.CommitsIff | internal/worker/store.go:124-225 | A decision from any snapshot commits if and only if the row is still the one loaded, the refund fits, and the accounts allow the journal |
| WorkerStore.RefusedIff | internal/worker/store.go:124-160 | Refused as no state change if and only if the action is a skip or an escalation, and as stale if and only if it is not and the row is gone or has another version |
| WorkerStore.LoadOk | internal/worker/store.go:44-70 | A fresh load satisfies what is relied on of snapshots |
| AgentStore.HoldIff | internal/agent/store.go:98-126 | A hold succeeds if and only if the dispute is received, and the claim it returns is good |
| AgentStore.ReleaseIff | internal/agent/store.go:129-140 | A claim is given back if and only if the dispute has not moved since |
| AgentStore.NextAttemptFree | internal/agent/store.go:98-126 | In a ranked table the count plus one is an unused attempt number |
| AgentStore.RecordIff | internal/agent/store.go:204-298 | A well-formed run is recorded if and only if its claim is current, so the unique attempt key never refuses what the version check lets through |
| AgentStore.RefusedIff | internal/agent/store.go:204-265 | Which of the three refusals a run meets first, and exactly when: its row's checks, a used attempt number, a claim that is lost |
| Assist.Attempt | internal/agent/assist.go:188-298 | The attempt, run step by step, ends as its specification says for every combination of replies; what that is, `Assist.OutcomeIff` says |
| Assist.OutcomeIff | internal/agent/assist.go:188-298 | From the replies alone: drafted or insufficient if and only if nothing was miscited, the draft left room under the ceiling and the verifier approved, as the draft recommends; rejected if and only if something was miscited or the verifier refused; over budget if and only if the estimate or the draft reaches the ceiling; what it cost, when it escalates, and which missing reply makes it a fault |
| Assist.AttemptedIsRecordable | internal/agent/assist.go:188-316 | What an attempt writes passes the table's checks, is never a bare failure, and goes to a person rather than back to the queue if it was the last one allowed |
| Assist.SpendBounded | internal/agent/assist.go:300-305 | An attempt that starts below the ceiling ends below ceiling plus one call; one that starts at or over it spends nothing |
| ReviewStore.DecideIff | internal/api/reviews.go:225-287 | A review lands if and only if the run is undecided and its dispute is still a draft inside its window; it is then a submit or discard edge |
| Database.Db.InsertLegs | internal/ledger/postings.go:123-147 | The loop inserts, in order, exactly the legs whose accounts exist |
| Database.Db.WriteJournal | internal/ledger/postings.go:106-148 | Appends the journal with those legs, or nothing if its key is taken |
| Database.Db.AddRefund | internal/worker/store.go:233-246 | Raises the refund total and sets the status, or changes nothing if the check refuses |
| Database.Db.MoveRow | internal/worker/store.go:140-157 | Sets the state, raises the version, stamps terminal states, and touches no other row |
| Database.Db.RecordEvent | internal/events/events.go:54-77 | Appends one row to the trail |
| Database.Db.InsertMessage | internal/outbox/insert.go:38-52 | Appends one row to the outbox |
| Transactions.MoveAndRecord | internal/worker/store.go:140-171 | The row moves and its event is appended, or neither |
| Transactions.MoveMoney | internal/worker/store.go:181-208 | The journal and refund total of the action, or the refusal, in the order the code makes them |
| Transactions.WriteDecision | internal/worker/store.go:140-225 | The statements in order reach the advanced tables and the journal of the edge, or stop at exactly the refusal the specification names |
| Transactions.ApplyDecision | internal/worker/store.go:124-225 | The worker's transaction equals its specification or leaves the database as it was |
| Transactions.RecordOpened | internal/ingest/store.go:86-218 | The intake transaction equals its specification, answer included |
| Transactions.WriteRuling | internal/ingest/store.go:329-403 | The statements of a ruling in order reach the advanced tables and its journal, or stop at exactly the refusal the specification names |
| Transactions.RecordRuling | internal/ingest/store.go:291-416 | The ruling transaction equals its specification, answer included, and so moves the dispute `IngestStore.RulingAnswers` names |
| Transactions.TotalRuns | internal/agent/store.go:98-126 | The loop computes the count and the sum of cost of one dispute's runs |
| Transactions.HoldDispute | internal/agent/store.go:98-126 | Equals its specification, claim included, or leaves no trace |
| Transactions.ReleaseDispute | internal/agent/store.go:129-140 | Equals its specification or leaves no trace |
| Transactions.RecordRun | internal/agent/store.go:204-280 | The run is inserted before the version is checked; a lost claim takes it back out |
| Transactions.DecideRun | internal/api/reviews.go:225-287 | The run is marked before the dispute is moved; a dispute that moved on unmarks it |
| Deadlines.SortedSet.Schedule | internal/worker/deadlines.go:52-61 | One entry is added or moved, at the whole second |
| Deadlines.SortedSet.ScheduleMany | internal/worker/deadlines.go:64-81 | The loop adds or moves every entry given and no other |
| Deadlines.SortedSet.Claim | internal/worker/deadlines.go:16-105 | Returns the earliest due entries up to the limit, distinct, and removes exactly those |
| Deadlines.RescheduleClearsTheWindow | internal/worker/worker.go:330-343 | A reschedule made at t is invisible to every claim up to t + 29 s, for every lookahead, despite both cuts to whole seconds |
| Deadlines.TwentyNineIsExact | internal/worker/worker.go:330-343 | There is a reschedule that a claim one nanosecond past 29 s returns |
| Deadlines.NobodyIsClaimedTwice | internal/worker/worker.go:151-164 | In any stretch of claims and reschedules shorter than 29 s no dispute is claimed twice |
| Deadlines.ClaimsAreDisjoint | internal/worker/deadlines.go:16-32 | Two claims in a row share no dispute |
| Deadlines.ClaimedIff | internal/worker/deadlines.go:16-32 | A claim returns only entries scored at or before the cutoff, and leaves one such entry only if it is full of entries no later |
| Pool.Locks.Acquire | internal/worker/locks.go:67-83 | Taken if and only if nobody holds it; a claim whose reply is lost may hold it all the same |
| Pool.Locks.Release | internal/worker/locks.go:85-99 | Deletes the lock if and only if its own token still holds it |
| Pool.Worker.Handle | internal/worker/worker.go:198-301 | Exactly one counter moves; the exit is the one `Pool.ExitIff` and `Pool.LockDecides` read off the replies; the locks end as claim, lapse and release leave them; the index ends as `Pool.NextVisitIff` says |
| Pool.Worker.Work | internal/worker/worker.go:238-301 | The same for what is done under the lock |
| Pool.ExitIff | internal/worker/worker.go:238-301 | Under the lock a dispute is decided if and only if a write was due and its transaction committed, stale if and only if that transaction found the row moved, failed if and only if the read failed or the transaction failed otherwise; and so for the other exits |
| Pool.NextVisitIff | internal/worker/worker.go:330-358 | With Redis up, a failed or contended handler scores its dispute at now, the lookahead and 30 seconds, an escalated one at the later of that and its deadline; no other exit moves the entry |
| Pool.LockDecides | internal/worker/worker.go:198-236 | No answer from Redis is a failure, a standing lock a contention, and anything else works under its own lock |
| Pool.LockLeftStandingIff | internal/worker/worker.go:221-236 | A handler leaves its lock standing if and only if its release is not heard and its time to live has not run out; a lock taken by another meanwhile is never removed |
| Pool.StandingLockTurnsAway | internal/worker/worker.go:214-220 | While a lock stands, every handler of the dispute is contended, changes no lock, and puts the dispute back |
| Pool.Worker.RescheduleSoon | internal/worker/worker.go:352-358 | The entry moves just past the claim window, unless Redis refuses |
| Pool.Worker.DrainOnce | internal/worker/worker.go:169-195 | One claim, every dispute it returned is handled once, and index and locks end as the handlers in turn leave them |
| Pool.Worker.Tick | internal/worker/worker.go:146-164 | At most 20 batches; it stops earlier exactly on a short batch or a refused claim; claims and handled disputes agree |
| Pool.WhenAHandlerLetsGo | internal/worker/worker.go:198-301 | With the row read, a handler does not ask for the dispute again if and only if it skipped, lost the race or decided; a skip is a resolved dispute, one off the clock or a draft with time left |
| Pool.OffTheClockForEver | internal/worker/rules.go:127-140 | No edge leads back onto the clock |
| Sweep.NothingIsForgotten | internal/worker/worker.go:198-301 | Each step keeps every open dispute indexed, in live hands, or in a named gap |
| Sweep.NothingIsEverForgotten | internal/worker/worker.go:198-301 | So does every run of claims, handler exits, crashes, flushes, queue messages and reconciles |
| Sweep.ReconcileClosesEveryGap | internal/worker/worker.go:101-122 | Whatever happens between a reconcile's read and its write, all that was open at the read is indexed at its deadline and in no gap after the write; and from then on, until it leaves the clock or an event loses it, it is indexed or in live hands |
| Sweep.GapsMove | internal/worker/worker.go:198-301 | A gap opens exactly on an arrival, an exit that keeps nothing, a crash or a flush, and closes exactly on an announcement or a reconcile |
| Delivery.Guard.Claim | internal/ingest/idempotency.go:35-41 | True exactly for the first caller of an id; the key is there afterwards |
| Delivery.Guard.Release | internal/ingest/idempotency.go:43-54 | That key goes and no other |
| Delivery.ServeOpened | internal/ingest/handler.go:87-161 | Undisturbed, the key is kept if and only if the work behind it committed; a seen id changes nothing |
| Delivery.ServedUndisturbed | internal/ingest/handler.go:146-259 | In the interleaved model an undisturbed delivery keeps its key if and only if its work committed, is answered what became of it, and leaves no handler behind |
| Delivery.AnsweredIff | internal/ingest/handler.go:215-259 | 202 exactly for recorded, 422 for unlinkable, 200 for duplicate, an error for rolled back |
| Delivery.StaysSound | internal/ingest/handler.go:215-259 | Deliveries, replays, lost commits, crashes, expiries, flushes and other writers keep: a key stands for committed work, a live handler, or a crash, lost release or lost claim reply; no answer but Redis's own and an error is given for work not committed; and an answer of Redis's own stands for what its key stood for unless a retry was asked for later |
| Delivery.TablesAreOnePassOverTheLog | internal/ingest/store.go:230-250 | From the tables every run starts with, after any such schedule, the tables equal those of a run of the log, in which each event id on file occurs exactly once, in commit order |
| Delivery.CleanRunsStrandNothing | internal/ingest/idempotency.go:43-54 | From a fresh start without a crash, a lost release or a lost reply to the claim, a key is present only if its event is committed or its handler is still at work, whatever expires or is flushed |
| Delivery.ToldDuplicateIsTrueIff | internal/ingest/handler.go:146-161 | In every run from a fresh start, a delivery Redis answers duplicate is on record at the end if and only if it is the one delivery of its id in the log; that is, if and only if it was on record at the answer or a later event files this very delivery |
| Delivery.RedisAnswerIsFalseIff | internal/ingest/handler.go:146-161 | In runs in which all deliveries of its id are the same delivery, the answer is false at the end if and only if the id was not on file at the answer and no later event commits it |
| Delivery.FalseDuplicateExplained | internal/ingest/handler.go:215-259 | In every run, a delivery falsely answered duplicate has its id held by another delivery, a handler still at work, a stranded key, or a later error that asked another sender to retry; clean runs strand nothing |
| Delivery.SharedIdSuppressesTheOther | internal/ingest/handler.go:149-158 | A clean finished run of two merchants' deliveries under one id: the second is answered duplicate and is on record nowhere, although the id is committed |
| Delivery.OnRecordIsFiled | db/migrations/000001_init.up.sql:185-207 | In a log with distinct ids there is one delivery under each id, and a delivery is on record if and only if it is that one |
| Delivery.FiledIff | internal/ingest/store.go:230-250 | An id is on file at the end if and only if it was before or some write of it commits |
| Delivery.RedisAnswersAtOnce | internal/ingest/handler.go:149-158 | Redis answers duplicate if and only if the key is there, and the id is then committed, in flight or stranded |
| Delivery.CrashStrandsTheEvent | internal/ingest/handler.go:146-161 | A run with a crash between claim and commit ends with a Redis duplicate of nothing |
| Delivery.LostReleaseStrandsTheEvent | internal/ingest/handler.go:224-233 | So does a run with a failed write whose release Redis refuses |
| Delivery.LostReplyStrandsTheEvent | internal/ingest/handler.go:149-155 | So does a run with a claim that reached Redis and whose reply was lost |
| Delivery.FailedWriteBeliesTheDuplicate | internal/ingest/handler.go:149-233 | So does a clean run in which a second delivery is answered while the first is being written and that write then fails; the key is gone again and nothing is stranded |
| Delivery.OthersKeepLog | internal/ingest/store.go:230-250 | No other writer touches the delivery log |
| Relay.BatchIsBatch | internal/outbox/relay.go:99-105 | The selection is the lowest unpublished unlocked ids, in order, up to the limit |
| Relay.AcceptedIsLongestPrefix | internal/outbox/relay.go:127-137 | Publishing stops exactly at the first refusal |
| Relay.Table.DrainOnce | internal/outbox/relay.go:92-154 | Delivers and marks exactly the longest accepted prefix of the batch; fails only if nothing of a batch was accepted |
| Relay.Table.DrainTick | internal/outbox/relay.go:54-80 | The inner loop ends, marks exactly what it delivered, leaves work only behind a refusal, and every pass but the last is a full batch |
| Relay.FullPassShrinks | internal/outbox/relay.go:54-80 | A full pass shrinks the backlog; any other emptied it or met a refusal |
| Relay.OnePassIsARun | internal/outbox/relay.go:92-154 | In the model of many relays one undisturbed transaction, which stops publishing at the first refusal and commits what was accepted, is one pass of the drain loop and leaves other relays' batches alone |
| Relay.BrokenMessageIsPassedIff | internal/outbox/relay.go:99-137 | In every run of any number of relays in which one row is always refused, a row behind it is marked if and only if a transaction commits it that began while another relay had the refused row locked; the refused row never is |
| Relay.OneRelayIsBlocked | internal/outbox/relay.go:127-137 | With a single relay nothing behind the refused row is ever marked, whatever it begins, aborts or commits |
| Relay.TwoRelaysPass | internal/outbox/relay.go:99-105 | A concrete run of two relays marks the row behind the refused one |
| Relay.BrokenMessageBlocks | internal/outbox/relay.go:127-137 | While one message is refused, no number of passes of the drain loop of a single relay marks anything behind it |
| Relay.StaysSound | internal/outbox/relay.go:92-154 | With any number of relays and a crash at any point: marked implies delivered, and open batches are disjoint sets of unmarked rows |
| Relay.StaysSoundForEver | internal/outbox/relay.go:82-91 | So at the end of every run from an empty outbox |
| Relay.UnmarkedStaysSelectable | internal/outbox/relay.go:99-105 | An unmarked unlocked row is in the next batch unless that batch is full of older rows |
| Relay.MarksStand | internal/outbox/relay.go:146-153 | No event takes back a mark or a delivery |
| Redrive.Queues.Replay | internal/dlq/redrive.go:188-264 | Wherever a run stops: every original is in the source or its copy was sent, with one more redrive within the limit; fewer than limit + 10 handled; each in exactly one counter, and all that was received is; skipped ones stay, and are visible again unless handing back fails; a run that ends well stops short of its limit only on an empty receive; a dry run moves nothing |
| Redrive.Queues.NextBatch | internal/dlq/redrive.go:204-225 | One receive and its batch: it goes on only past a batch that was not empty |
| Redrive.Queues.PutBackBatch | internal/dlq/redrive.go:225-260 | One batch keeps all of that, message by message |
| Redrive.Queues.PutBack | internal/dlq/redrive.go:232-259 | The copy is sent before the original is deleted; nothing is deleted unless sent |
| Redrive.Queues.DryRun | internal/dlq/redrive.go:211-223 | Counts the whole of one batch by redrive limit, moves nothing, and hides nothing once handed back |
| Redrive.Queues.Peek | internal/dlq/redrive.go:153-168 | Returns all it was brought, at most limit messages, fewer only after an empty receive; nothing moves or stays hidden once handed back |
| Redrive.NothingLostMeans | internal/dlq/redrive.go:179-187 | In terms of the queues alone: every original is in the source or its copy in the target, and no copy exceeds the limit |
| TokenBucket.Limiter.Allow | internal/ingest/ratelimit.go:18-48 | For all settings: refills, takes and stores one key's bucket, as `TokenBucket.TokensAre` has it, and no other; the remainder reported is the floor of what is left; a zero rate fails after storing, and an expiry that is not positive forgets the key |
| TokenBucket.TokensAre | internal/ingest/ratelimit.go:28-41 | A request finds the stored tokens and the configured number a minute for the time since, up to the burst; a missing key is full; one token goes if there is one |
| TokenBucket.TtlIs | internal/ingest/ratelimit.go:43-45 | The expiry is the milliseconds an empty bucket takes to fill at the configured rate, rounded up, and a minute |
| TokenBucket.FullWhenExpired | internal/ingest/ratelimit.go:43-45 | After its time to live any bucket is full, so forgetting it changes nothing |
| TokenBucket.ExpiryIsInvisible | internal/ingest/ratelimit.go:43-45 | For every refilling limiter, whatever its burst, under any schedule of expiries every bucket state equals that of a key that never expires |
| TokenBucket.TokensAreTheLeastRoom | internal/ingest/ratelimit.go:28-41 | The tokens a request finds are the least room left in any window ending with it |
| TokenBucket.AllowedIff | internal/ingest/ratelimit.go:28-41 | For every rate and burst, a request on a bucket that is not forgotten passes if and only if with it every window stays within burst + perMinute * milliseconds / 60000 |
| TokenBucket.WindowBound | internal/ingest/ratelimit.go:18-70 | No window admits more than burst + perMinute * milliseconds / 60000, or any request at all |
| Filters.Builder.Add | internal/api/filters.go:22-43 | The clause gains exactly that test of that value; every argument stays read and every position in range |
| Filters.Apply | internal/api/filters.go:287-338 | For all filters and rows the rendered clause under its arguments equals the direct conjunction; it reads the transactions table if and only if there is a search |
| Filters.MoreArguments | internal/api/decisions.go:163-173 | Binding further arguments leaves the clause's meaning unchanged |
| Filters.PageArguments | internal/api/store.go:151-166 | The page's limit and offset sit behind the shared arguments and the clause means the same |
| Filters.Decisions | internal/api/decisions.go:136-186 | Count and row query share one clause that means the filter; the override column means rejected and submitted; the count binds no argument its text does not read |
| Filters.SearchIsByPrefixIff | internal/api/filters.go:329-337 | LIKE on the text plus '%' is a prefix test on all references if and only if the text has no special character |
| Pages.JoinIsNotNeeded | internal/api/store.go:98-115 | Without a search, dropping the transactions join selects the same disputes |
| Pages.TwoStageIsFlat | internal/api/store.go:135-190 | The two-stage page equals the slice of the flat, sorted, joined query |
| Pages.CountIsFlatLength | internal/api/store.go:192-195 | The count is the length of the flat list of the state the count query reads |
| Pages.SelectedIff | internal/api/filters.go:287-338 | What the filters select, in terms of the disputes' own fields |
| Pages.ListedInOrder | internal/api/filters.go:340-349 | Of two listed rows the earlier comes first in the named column and direction, by identity where they agree |
| Pages.DecidedIff | internal/api/decisions.go:136-173 | What the history selects: reviewed runs of that reviewer and decision, and only sent rejections if overrides are asked for |
| Pages.NewestFirst | internal/api/decisions.go:175-186 | No decision is listed before a later one |
| Listings.OneListing | internal/api/filters.go:340-349 | An order without ties admits one listing |
| Pages.OrderIsStrict | internal/api/filters.go:340-349 | With d.id behind it every sort key and direction is without ties, whatever the collation |
| Pages.PagesPartition | internal/api/filters.go:340-349 | Successive pages, each from a two-stage query with replies of its own, show the whole flat listing in order and each selected dispute on exactly one page |
| Pages.DecisionRepliesAgreeIff | internal/api/decisions.go:175-186 | Any two replies to the decision query agree if and only if no two selected decisions have the same review time |
| Pages.DecisionPagesAreStableIff | internal/api/decisions.go:175-186 | The decisions each page shows are the same in every reply if and only if no two of the same review time meet at a page boundary |
| Pages.OneDecisionTwiceTheOtherNever | internal/api/decisions.go:175-186 | Two decisions of one instant, a page each: two replies of which the first page and the second both show the one and neither the other |
| Listings.PagesAreFixedIff | internal/api/decisions.go:175-186 | For any order, page contents do not depend on the reply if and only if no tie straddles a page boundary |
| Listings.ListingIsUniqueIff | internal/api/decisions.go:175-186 | For any order, a query has one possible reply if and only if no two selected rows tie |
| Money.Group | internal/money/format.go:58-73 | The left-to-right loop writes what counting off three digits from the right gives |
| Money.CommaPositions | internal/money/format.go:58-73 | A comma stands exactly after every third digit from the right, digits everywhere else |
| Money.FormatMinor | internal/money/format.go:38-52 | The printed text is the grouped whole part, the padded fraction if any, and the upper-case code |
| Money.PrintsDollars | internal/money/format.go:35-52 | 5799 minor units of USD print as 57.99 USD |
| Money.PrintsYen | internal/money/format.go:21-33 | 5000 yen print as 5,000 JPY; exactly JPY, KRW and ISK have no minor unit, in any case |
| Money.PrintsDebts | internal/money/format.go:38-73 | A negative amount prints its sign once, with grouped whole part and padded cents |
| Money.RoundIsNearest | internal/agent/eval/grade.go:209-218 | The parser rounds to the nearest minor unit, up from the middle |
| Money.RoundTripIff | internal/agent/eval/grade.go:209-218 | Parsing a printed amount gives it back if and only if the currency has no minor digits or the amount is not strictly between minus one major unit and zero |
| Money.PrintingIsInjective | internal/money/format.go:38-52 | Equal texts come from equal non-negative amounts in the same currency |

## Left out

- AgentStore.HoldIff: Candidates' ordering and batch limit are not modelled; its WHERE clause is, as the filter a listed hold must have passed.
- AuditTrail.TheTrailAsReadChainsIff: where a dispute's own stamps are out of order only the half `AuditTrail.InOrderChains` holds; `AuditTrail.SwappedStampsStillChain` is the input that breaks the other.
- IngestStore.ValidOpened: that a deadline may not lie before the moment of arrival is not modelled, since that moment is not an input; networks, the length of the claim text and its encoding are not modelled either.
- Assist.SpendBounded: spend of attempts that end in a fault is not counted, because the code gives the claim back without recording it.
- Pool.Worker.DrainOnce: the handlers of one batch run one after another here; their database and index effects are interleaved freely in `System` and `Sweep`.
- Pool.Worker.Handle: a time to live runs out at most once under a handler; no safety property rests on the lock, because the version check carries it in `System`.
- Relay.StaysSound: rows become visible in identity order; a late commit of an earlier identity is not modelled.
- Redrive.Queues.Replay: a delete that was acknowledged does not come back, and the cut of the limit to 32 bits is not modelled.
- TokenBucket.AllowedIff: floating-point rounding is not modelled; expiry forgets only full buckets where the rate is positive, and otherwise the contract of `Limiter.Allow` says what happens.
- Filters.Apply: fragments are kept as column, test and position; the rendering of positions into SQL text and the aliasing of argument slices are not modelled.
- Pages.PagesPartition: all pages read one state of the tables; rows that arrive between two page queries shift what follows.
- Money.RoundTripIff: exact decimals instead of floats; exponents, infinities and a leading plus sign, which the library parser also reads, are not modelled.
- 64-bit overflow of amounts, versions and identities.
- Defaults and caps of page sizes, query-string parsing and enum checks: easy members.
- Signature checks, JSON, reviewer names, evidence, prompts, drafting and verification by the language model: calls whose answers are inputs, or plumbing.
- Server-sent events, CORS, metrics, configuration, boot, the dashboard and the simulator.
