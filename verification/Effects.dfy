/** What one step of each writer leaves in the tables, in the tables' own terms:
    rows, references, states, deadlines and amounts, and none of the functions
    the steps are made of. */
module Effects {
  import opened Common
  import opened Vocabulary
  import opened Ledger
  import opened Tables
  import opened Lifecycle
  import opened Invariant
  import opened System
  import IngestStore
  import WorkerRules
  import WorkerStore
  import AgentStore
  import Assist
  import ReviewStore

  // --------------------------------------------------------------- what is moved

  /** One leg, if there is an account to post it to. */
  function LegTo(accounts: set<Account>, a: Account, direction: Direction, amountMinor: int): seq<Leg> {
    if a in accounts then [Leg(a, direction, amountMinor)] else []
  }

  /** A chargeback arrives: the merchant is owed less, and disputes_payable
      promises it back. */
  function HoldLegs(accounts: set<Account>, d: Dispute): seq<Leg> {
    LegTo(accounts, Account(Some(d.merchantId), MerchantBalance, d.currency), Debit, d.amountMinor) +
    LegTo(accounts, Account(Some(d.merchantId), DisputesPayable, d.currency), Credit, d.amountMinor)
  }

  function ReleaseLegs(accounts: set<Account>, d: Dispute): seq<Leg> {
    LegTo(accounts, Account(Some(d.merchantId), DisputesPayable, d.currency), Debit, d.amountMinor) +
    LegTo(accounts, Account(Some(d.merchantId), MerchantBalance, d.currency), Credit, d.amountMinor)
  }

  /** The held money leaves for the issuer, and the merchant pays the fee. */
  function LossLegs(accounts: set<Account>, d: Dispute): seq<Leg> {
    (LegTo(accounts, Account(Some(d.merchantId), DisputesPayable, d.currency), Debit, d.amountMinor) +
     LegTo(accounts, Account(None, SettlementClearing, d.currency), Credit, d.amountMinor)) +
    (LegTo(accounts, Account(Some(d.merchantId), MerchantBalance, d.currency), Debit, 1500) +
     LegTo(accounts, Account(None, FeeRevenue, d.currency), Credit, 1500))
  }

  function RefundLegs(accounts: set<Account>, d: Dispute): seq<Leg> {
    LegTo(accounts, Account(Some(d.merchantId), MerchantBalance, d.currency), Debit, d.amountMinor) +
    LegTo(accounts, Account(None, SettlementClearing, d.currency), Credit, d.amountMinor)
  }

  /** The four journals, leg by leg. */
  lemma JournalsAre(accounts: set<Account>, k: nat, d: Dispute)
    ensures JournalFor(accounts, EntryOf(k, d), HoldJournal) == Journal(Ref(k, HoldJournal), d.currency, HoldLegs(accounts, d))
    ensures JournalFor(accounts, EntryOf(k, d), ReleaseJournal) == Journal(Ref(k, ReleaseJournal), d.currency, ReleaseLegs(accounts, d))
    ensures JournalFor(accounts, EntryOf(k, d), LossJournal) == Journal(Ref(k, LossJournal), d.currency, LossLegs(accounts, d))
    ensures JournalFor(accounts, EntryOf(k, d), RefundJournal) == Journal(Ref(k, RefundJournal), d.currency, RefundLegs(accounts, d))
  {
    var e := EntryOf(k, d);
    var own, payable := Posting(MerchantBalance, true, Debit, d.amountMinor), Posting(DisputesPayable, true, Debit, d.amountMinor);
    var clearing := Posting(SettlementClearing, false, Credit, d.amountMinor);
    KeptTwo(accounts, e, own, payable.(direction := Credit));
    KeptTwo(accounts, e, payable, own.(direction := Credit));
    KeptTwo(accounts, e, own, clearing);
    KeptFour(accounts, e, payable, clearing, own.(amountMinor := 1500), Posting(FeeRevenue, false, Credit, 1500));
  }

  // --------------------------------------------------------------------- claims

  /** What a claim is told of earlier attempts: how many rows of its dispute
      there are, and the sum of what they cost. */
  lemma EarlierAttempts(runs: seq<AgentRun>, run: AgentRun, id: nat)
    ensures RunSum([], id, One) == 0 && RunSum([], id, Cost) == 0
    ensures var own := run.disputeId == id;
            && RunSum(runs + [run], id, One) == RunSum(runs, id, One) + (if own then 1 else 0)
            && RunSum(runs + [run], id, Cost) == RunSum(runs, id, Cost) + (if own then run.costMicros else 0)
  {
    RunSumSnoc(runs, run, id, One);
    RunSumSnoc(runs, run, id, Cost);
  }

  lemma HoldWrites(m: int, t: Tables, id: nat)
    requires RowsGood(m, t) && id < |t.disputes| && t.disputes[id].state == Received
    ensures var d := t.disputes[id];
            AgentStore.Hold(t, id) ==
              Ok((t.(disputes := t.disputes[id := d.(state := Resolving, version := d.version + 1)]),
                  AgentStore.Claim(id, d.version + 1, RunSum(t.runs, id, One) + 1, RunSum(t.runs, id, Cost))))
  {
    OnlyMoneyRefuses(m, t, id, Edge.Hold, Received, EntryOf(id, t.disputes[id]), 0);
  }

  /** Taking a claim: exactly a waiting dispute is taken, nothing but its row
      changes, and the claim carries the new version, the number of the attempt
      it is for, and what the earlier ones cost. */
  lemma HoldDoes(cfg: Assist.Config, s: Sys, id: nat)
    requires RowsGood(cfg.maxAttempts, s.t)
    ensures var z, ds := Next(cfg, s, HoldNamed(id)), s.t.disputes;
            if id < |ds| && ds[id].state == Received then
              var d := ds[id];
              && z.t == s.t.(disputes := ds[id := d.(state := Resolving, version := d.version + 1)])
              && z.claims == s.claims + {AgentStore.Claim(id, d.version + 1, RunSum(s.t.runs, id, One) + 1,
                                                          RunSum(s.t.runs, id, Cost))}
              && z.snapshots == s.snapshots && z.listed == s.listed
            else z == s
  {
    if id < |s.t.disputes| && s.t.disputes[id].state == Received {
      HoldWrites(cfg.maxAttempts, s.t, id);
    }
  }

  /** The work list is the only other way to take one. */
  lemma ListedHoldDoes(cfg: Assist.Config, s: Sys, id: nat)
    ensures Next(cfg, s, HoldListed(id)) == if id in s.listed then Next(cfg, s, HoldNamed(id)) else s
  {
  }

  /** The work list takes a waiting chargeback with attempts left and more than
      five minutes to go. */
  lemma ListDoes(cfg: Assist.Config, s: Sys, id: nat, now: int)
    ensures var ds := s.t.disputes;
            Next(cfg, s, ListCandidate(id, now)) ==
              if id < |ds| && ds[id].state == Received && ds[id].kind == Chargeback && ds[id].deadlineAt - now > 300 &&
                 RunSum(s.t.runs, id, One) < cfg.maxAttempts
              then s.(listed := s.listed + {id}) else s
  {
  }

  lemma ReleaseWrites(m: int, t: Tables, c: AgentStore.Claim)
    requires RowsGood(m, t) && AgentStore.ClaimOk(t, c) && t.disputes[c.disputeId].version == c.version
    ensures var d := t.disputes[c.disputeId];
            AgentStore.Release(t, c) ==
              Ok(t.(disputes := t.disputes[c.disputeId := d.(state := Received, version := d.version + 1)]))
  {
    var k := c.disputeId;
    OnlyMoneyRefuses(m, t, k, Edge.Release, Resolving, EntryOf(k, t.disputes[k]), 0);
  }

  /** Giving a claim back: the dispute waits again, if it has not moved. */
  lemma ReleaseDoes(cfg: Assist.Config, s: Sys, c: AgentStore.Claim)
    requires RowsGood(cfg.maxAttempts, s.t) && (c in s.claims ==> AgentStore.ClaimOk(s.t, c))
    ensures var ds, k := s.t.disputes, c.disputeId;
            c in s.claims ==>
              && k < |ds|
              && Next(cfg, s, Step.Release(c)) ==
                   if ds[k].version == c.version
                   then s.(t := s.t.(disputes := ds[k := ds[k].(state := Received, version := ds[k].version + 1)])) else s
    ensures c !in s.claims ==> Next(cfg, s, Step.Release(c)) == s
  {
    if c in s.claims && s.t.disputes[c.disputeId].version == c.version {
      ReleaseWrites(cfg.maxAttempts, s.t, c);
    }
  }

  // ------------------------------------------------------- attempts and reviews

  /** Where a recorded attempt leaves its dispute: with a reviewer if there is a
      letter to read, or if it was the last attempt. */
  function AfterAttempt(run: AgentStore.Run): State {
    if run.escalated || run.outcome == Drafted || run.outcome == Insufficient then DraftReady else Received
  }

  lemma FinishWrites(m: int, t: Tables, c: AgentStore.Claim, run: AgentStore.Run, at: int)
    requires RowsGood(m, t) && AttemptsRanked(t.runs) && AgentStore.ClaimOk(t, c)
    requires t.disputes[c.disputeId].version == c.version && run.costMicros >= 0
    requires run.recommended <==> run.outcome in {Drafted, Insufficient, Rejected}
    requires AfterAttempt(run) == Received ==> c.attempt < m
    ensures var k, d := c.disputeId, t.disputes[c.disputeId];
            AgentStore.Record(t, c, run, at) ==
              Ok(t.(runs := t.runs + [AgentRun(k, c.attempt, run.outcome, run.recommended, run.costMicros, None)],
                    disputes := t.disputes[k := d.(state := AfterAttempt(run), version := d.version + 1)],
                    events := t.events + [Event(k, Some(Resolving), AfterAttempt(run), Agent, at)]))
  {
    ClaimIsForAnAttempt(t, c);
    AgentStore.RecordIff(m, t, c, run, at);
  }

  lemma ClaimIsForAnAttempt(t: Tables, c: AgentStore.Claim)
    requires AttemptsRanked(t.runs) && AgentStore.ClaimOk(t, c) && t.disputes[c.disputeId].version == c.version
    ensures c.attempt > 0
  {
    AgentStore.NextAttemptFree(t.runs, c.disputeId);
  }

  /** A finished attempt: recorded exactly on a current claim, as that claim's
      attempt with what it cost, together with the dispute's move and one event.
      A faulted attempt, or one on a dispute that moved on, leaves no trace, and
      neither does one whose calls claim to have paid. */
  lemma FinishDoes(cfg: Assist.Config, s: Sys, c: AgentStore.Claim, replies: Assist.Replies, at: int)
    requires RowsGood(cfg.maxAttempts, s.t) && AttemptsRanked(s.t.runs) && (c in s.claims ==> AgentStore.ClaimOk(s.t, c))
    ensures var a, z := Assist.Attempted(cfg, c, replies), Next(cfg, s, Finish(c, replies, at));
            var k := c.disputeId;
            if c in s.claims && s.t.disputes[k].version == c.version && a.Some? && a.value.costMicros >= 0 then
              var run, d := a.value, s.t.disputes[k];
              z == s.(t := s.t.(runs := s.t.runs + [AgentRun(k, c.attempt, run.outcome, run.recommended, run.costMicros, None)],
                                disputes := s.t.disputes[k := d.(state := AfterAttempt(run), version := d.version + 1)],
                                events := s.t.events + [Event(k, Some(Resolving), AfterAttempt(run), Agent, at)]))
            else z == s
  {
    if c in s.claims && Assist.Attempted(cfg, c, replies).Some? {
      Assist.OutcomeIff(cfg, c, replies);
      var run := Assist.Attempted(cfg, c, replies).value;
      if s.t.disputes[c.disputeId].version == c.version && run.costMicros >= 0 {
        FinishWrites(cfg.maxAttempts, s.t, c, run, at);
      }
    }
  }

  lemma DecideWrites(m: int, t: Tables, runId: nat, review: Review, now: int)
    requires RowsGood(m, t) && ReviewStore.Reviewable(t, runId, now)
    ensures var k := t.runs[runId].disputeId;
            var d, to := t.disputes[k], if review == Submitted then Represented else Received;
            ReviewStore.Decide(t, runId, review, now) ==
              Ok(t.(runs := t.runs[runId := t.runs[runId].(review := Some(review))],
                    disputes := t.disputes[k := d.(state := to, version := d.version + 1)],
                    events := t.events + [Event(k, Some(DraftReady), to, User, now)]))
  {
    ReviewStore.DecideIff(m, t, runId, review, now);
  }

  /** A review: lands exactly on an undecided run of a draft whose window is
      open, sends the letter or the dispute back to the queue, and writes one
      event. No money moves and nothing is announced. */
  lemma DecideDoes(cfg: Assist.Config, s: Sys, runId: nat, review: Review, now: int)
    requires RowsGood(cfg.maxAttempts, s.t)
    ensures var z := Next(cfg, s, Decide(runId, review, now));
            if ReviewStore.Reviewable(s.t, runId, now) then
              var k := s.t.runs[runId].disputeId;
              var d, to := s.t.disputes[k], if review == Submitted then Represented else Received;
              z == s.(t := s.t.(runs := s.t.runs[runId := s.t.runs[runId].(review := Some(review))],
                                disputes := s.t.disputes[k := d.(state := to, version := d.version + 1)],
                                events := s.t.events + [Event(k, Some(DraftReady), to, User, now)]))
            else z == s
  {
    if ReviewStore.Reviewable(s.t, runId, now) {
      DecideWrites(cfg.maxAttempts, s.t, runId, review, now);
    } else {
      ReviewStore.DecideIff(cfg.maxAttempts, s.t, runId, review, now);
    }
  }

  // ----------------------------------------------------------------- the worker

  /** A snapshot is the row and what was left of its charge at that moment. */
  lemma SnapshotDoes(cfg: Assist.Config, s: Sys, id: nat, ceilingMinor: Option<int>)
    requires RowsLinked(s.t)
    ensures Next(cfg, s, TakeSnapshot(id, ceilingMinor)) ==
              if id < |s.t.disputes| then
                var d := s.t.disputes[id];
                var c := s.t.charges[d.charge];
                s.(snapshots := s.snapshots + {WorkerStore.Loaded(id, d, ceilingMinor, c.amountMinor - c.refundedMinor)})
              else s
  {
  }

  /** A dispute as the worker read it, still in its first two states and inside
      its window. */
  predicate Awaited(d: Dispute, decidedAt: int) {
    (d.state == Received || d.state == Resolving) && decidedAt < d.deadlineAt
  }

  function Moved(d: Dispute, to: State, at: int): Dispute {
    d.(state := to, version := d.version + 1, resolvedAt := Some(at))
  }

  /** What one worker transaction writes besides journals and charges. */
  function Settled(t: Tables, k: nat, to: State, at: int): Tables
    requires k < |t.disputes|
  {
    var d := t.disputes[k];
    t.(disputes := t.disputes[k := Moved(d, to, at)],
       events := t.events + [Event(k, Some(d.state), to, Worker, at)],
       outbox := t.outbox + [Message(k, to)])
  }

  lemma ExpireWrites(m: int, t: Tables, k: nat, at: int)
    requires RowsGood(m, t) && k < |t.disputes| && t.disputes[k].state in {Received, Resolving, DraftReady}
    ensures var d := t.disputes[k];
            var legs := LossLegs(t.accounts, d);
            TryAdvance(t, k, Expire, d.state, EntryOf(k, d), at) ==
              if d.kind == Alert then Ok(Settled(t, k, Expired, at))
              else if Accepted(legs) then
                Ok(Settled(t, k, Expired, at).(journals := t.journals + [Journal(Ref(k, LossJournal), d.currency, legs)]))
              else Err(Unbalanced)
  {
    JournalsAre(t.accounts, k, t.disputes[k]);
    OnlyMoneyRefuses(m, t, k, Expire, t.disputes[k].state, EntryOf(k, t.disputes[k]), at);
  }

  /** The charge after so much more of it was returned. */
  function Returned(c: Charge, amountMinor: int): Charge {
    var total := c.refundedMinor + amountMinor;
    c.(refundedMinor := total, status := if total == c.amountMinor then FullyRefunded else PartlyRefunded)
  }

  lemma ReturnedIs(c: Charge, amountMinor: int)
    requires c.refundedMinor + amountMinor <= c.amountMinor
    ensures RefundedCharge(c, amountMinor) == Returned(c, amountMinor)
  {
  }

  lemma AdvanceByRefund(t: Tables, k: nat, at: int, j: Journal, c: Charge)
    requires k < |t.disputes| && t.disputes[k].charge < |t.charges|
    requires j == JournalFor(t.accounts, EntryOf(k, t.disputes[k]), RefundJournal)
    requires c == RefundedCharge(t.charges[t.disputes[k].charge], t.disputes[k].amountMinor)
    ensures var d := t.disputes[k];
            Advance(t, k, Refund, d.state, EntryOf(k, d), at) ==
              Settled(t, k, Refunded, at).(journals := t.journals + [j], charges := t.charges[d.charge := c])
  {
    assert WithRefund(t, k, Refund, t.disputes[k].amountMinor) == t.charges[t.disputes[k].charge := c];
  }

  lemma RefundWrites(m: int, t: Tables, k: nat, at: int)
    requires RowsGood(m, t) && k < |t.disputes| && t.disputes[k].charge < |t.charges|
    requires t.disputes[k].state in {Received, Resolving} && t.disputes[k].kind == Alert
    ensures var d := t.disputes[k];
            var legs, c := RefundLegs(t.accounts, d), t.charges[d.charge];
            TryAdvance(t, k, Refund, d.state, EntryOf(k, d), at) ==
              if c.refundedMinor + d.amountMinor > c.amountMinor then Err(OverRefund)
              else if !Accepted(legs) then Err(Unbalanced)
              else
                Ok(Settled(t, k, Refunded, at).(journals := t.journals + [Journal(Ref(k, RefundJournal), d.currency, legs)],
                                                charges := t.charges[d.charge := Returned(c, d.amountMinor)]))
  {
    var d := t.disputes[k];
    JournalsAre(t.accounts, k, d);
    OnlyMoneyRefuses(m, t, k, Refund, d.state, EntryOf(k, d), at);
    var c := t.charges[d.charge];
    if c.refundedMinor + d.amountMinor <= c.amountMinor {
      ReturnedIs(c, d.amountMinor);
      AdvanceByRefund(t, k, at, JournalFor(t.accounts, EntryOf(k, d), RefundJournal), Returned(c, d.amountMinor));
    }
  }

  lemma CloseWrites(m: int, t: Tables, k: nat, at: int)
    requires RowsGood(m, t) && k < |t.disputes| && t.disputes[k].charge < |t.charges|
    requires t.disputes[k].state in {Received, Resolving} && t.disputes[k].kind == Alert
    requires var c := t.charges[t.disputes[k].charge]; c.refundedMinor >= c.amountMinor
    ensures var d := t.disputes[k];
            TryAdvance(t, k, Close, d.state, EntryOf(k, d), at) == Ok(Settled(t, k, Refunded, at))
  {
    OnlyMoneyRefuses(m, t, k, Close, t.disputes[k].state, EntryOf(k, t.disputes[k]), at);
  }

  /** What a snapshot may be used for: it was taken, and the row has not moved
      since. */
  ghost predicate Current(s: Sys, l: WorkerStore.Loaded) {
    l in s.snapshots && WorkerStore.SnapshotOk(s.t, l) && l.row.version == s.t.disputes[l.id].version
  }

  /** A snapshot of a row that moved on, or one that was never taken, changes
      nothing, whatever is decided on it. */
  lemma StaleDoesNothing(cfg: Assist.Config, s: Sys, l: WorkerStore.Loaded, decidedAt: int, at: int)
    requires l in s.snapshots && l.id < |s.t.disputes| ==> l.row.version != s.t.disputes[l.id].version
    ensures Next(cfg, s, Apply(l, decidedAt, at)) == s
  {
  }

  /** Past its deadline any dispute on the clock expires. A chargeback is then
      lost: the held money leaves and the fee is charged. An alert costs nothing. */
  lemma ExpireDoes(cfg: Assist.Config, s: Sys, l: WorkerStore.Loaded, decidedAt: int, at: int)
    requires RowsGood(cfg.maxAttempts, s.t) && Current(s, l)
    requires l.row.state in {Received, Resolving, DraftReady} && decidedAt >= l.row.deadlineAt
    ensures var d, z := s.t.disputes[l.id], Next(cfg, s, Apply(l, decidedAt, at));
            var legs, expired := LossLegs(s.t.accounts, d), Settled(s.t, l.id, Expired, at);
            if d.kind == Alert then z == s.(t := expired)
            else if Accepted(legs) then
              z == s.(t := expired.(journals := s.t.journals + [Journal(Ref(l.id, LossJournal), d.currency, legs)]))
            else z == s
  {
    assert Good(cfg.maxAttempts, ViewOf(s.t, l.id));
    ExpireWrites(cfg.maxAttempts, s.t, l.id, at);
  }

  /** An alert on a charge that has nothing left to return is closed as refunded,
      and no money moves. */
  lemma CloseDoes(cfg: Assist.Config, s: Sys, l: WorkerStore.Loaded, decidedAt: int, at: int)
    requires RowsGood(cfg.maxAttempts, s.t) && Current(s, l)
    requires Awaited(l.row, decidedAt) && l.row.kind == Alert && l.remainingMinor <= 0
    ensures Next(cfg, s, Apply(l, decidedAt, at)) == s.(t := Settled(s.t, l.id, Refunded, at))
    ensures var t := Next(cfg, s, Apply(l, decidedAt, at)).t;
            t.disputes[l.id].state == Refunded && t.journals == s.t.journals && t.charges == s.t.charges
  {
    assert Good(cfg.maxAttempts, ViewOf(s.t, l.id));
    CloseWrites(cfg.maxAttempts, s.t, l.id, at);
  }

  /** An alert at or under the ceiling of its merchant, and within what the
      snapshot saw left of the charge, is refunded if it still fits the charge. */
  lemma RefundDoes(cfg: Assist.Config, s: Sys, l: WorkerStore.Loaded, decidedAt: int, at: int)
    requires RowsGood(cfg.maxAttempts, s.t) && Current(s, l)
    requires Awaited(l.row, decidedAt) && l.row.kind == Alert
    requires l.ceilingMinor.Some? && l.row.amountMinor <= l.ceilingMinor.value && l.row.amountMinor <= l.remainingMinor
    ensures var d, z := s.t.disputes[l.id], Next(cfg, s, Apply(l, decidedAt, at));
            var legs, c := RefundLegs(s.t.accounts, d), s.t.charges[d.charge];
            if c.refundedMinor + d.amountMinor <= c.amountMinor && Accepted(legs) then
              z == s.(t := Settled(s.t, l.id, Refunded, at).(
                             journals := s.t.journals + [Journal(Ref(l.id, RefundJournal), d.currency, legs)],
                             charges := s.t.charges[d.charge := Returned(c, d.amountMinor)]))
            else z == s
  {
    assert Good(cfg.maxAttempts, ViewOf(s.t, l.id));
    RefundWrites(cfg.maxAttempts, s.t, l.id, at);
  }

  /** Everything else is left as it is: a chargeback in its window, an alert
      without a ceiling, above it, or for more than is left, a draft in its
      window, and whatever is off the clock. */
  lemma OtherwiseLeftAlone(cfg: Assist.Config, s: Sys, l: WorkerStore.Loaded, decidedAt: int, at: int)
    requires RowsGood(cfg.maxAttempts, s.t) && Current(s, l)
    requires var d := l.row;
             || (decidedAt < d.deadlineAt && (d.kind == Chargeback || d.state == DraftReady))
             || (decidedAt < d.deadlineAt && l.remainingMinor > 0 &&
                 (l.ceilingMinor.None? || d.amountMinor > l.ceilingMinor.value || d.amountMinor > l.remainingMinor))
             || d.state in {Represented, Refunded, Won, Lost, Expired}
    ensures Next(cfg, s, Apply(l, decidedAt, at)) == s
  {
    assert Good(cfg.maxAttempts, ViewOf(s.t, l.id));
  }

  // --------------------------------------------------------------------- intake

  /** A charge of that merchant under that reference. */
  predicate Names(t: Tables, x: nat, merchantId: nat, ref: string) {
    x < |t.charges| && t.charges[x].merchantId == merchantId && t.charges[x].externalId == ref
  }

  predicate OnRecord(t: Tables, merchantId: nat, ref: string) {
    exists i | 0 <= i < |t.disputes| :: t.disputes[i].merchantId == merchantId && t.disputes[i].externalId == ref
  }

  /** The tables with a new dispute, its hold if it is a chargeback, its first
      event, its announcement and its delivery on file. */
  function Arrived(t: Tables, merchantId: nat, x: nat, ev: IngestStore.OpenedEvent): Tables {
    var k := |t.disputes|;
    var d := Dispute(merchantId, x, ev.disputeRef, ev.kind, ev.reasonCode, ev.amountMinor, ev.currency,
                     Received, ev.openedAt, ev.respondBy, None, 0);
    var hold := Journal(Ref(k, HoldJournal), ev.currency, HoldLegs(t.accounts, d));
    t.(disputes := t.disputes + [d],
       journals := t.journals + if ev.kind == Chargeback then [hold] else [],
       events := t.events + [Event(k, None, Received, System, ev.openedAt)],
       outbox := t.outbox + [Message(k, Received)],
       webhooks := t.webhooks[ev.id := Processed])
  }

  /** What is dropped before anything is written: a delivery already on file, and
      one with a reference missing, no amount, no currency code, or a window that
      closes before it opens. */
  predicate Dropped(t: Tables, ev: IngestStore.OpenedEvent) {
    || ev.id in t.webhooks
    || ev.id == "" || ev.disputeRef == "" || ev.chargeRef == "" || ev.reasonCode == "" || ev.amountMinor <= 0
    || |ev.currency| != 3 || !('A' <= ev.currency[0] <= 'Z' && 'A' <= ev.currency[1] <= 'Z' && 'A' <= ev.currency[2] <= 'Z')
    || ev.respondBy <= ev.openedAt
  }

  /** Whether the accounts a hold moves money between are both there or both
      missing. */
  predicate HoldBalances(accounts: set<Account>, merchantId: nat, currency: string) {
    Account(Some(merchantId), MerchantBalance, currency) in accounts <==>
    Account(Some(merchantId), DisputesPayable, currency) in accounts
  }

  lemma ArrivedIs(t: Tables, merchantId: nat, x: nat, ev: IngestStore.OpenedEvent)
    ensures var d := IngestStore.NewRow(merchantId, x, ev);
            IngestStore.Logged(Opened(t, d), ev.id, Processed) == Arrived(t, merchantId, x, ev)
  {
    JournalsAre(t.accounts, |t.disputes|, IngestStore.NewRow(merchantId, x, ev));
  }

  lemma RecordWrites(m: int, t: Tables, merchantId: nat, ev: IngestStore.OpenedEvent)
    requires Inv(m, t) && !Dropped(t, ev) && (exists x :: Names(t, x, merchantId, ev.chargeRef))
    requires !OnRecord(t, merchantId, ev.disputeRef)
    ensures var u := IngestStore.Record(t, merchantId, ev).0;
            if ev.kind == Chargeback && !HoldBalances(t.accounts, merchantId, ev.currency) then u == t
            else exists x :: Names(t, x, merchantId, ev.chargeRef) && u == Arrived(t, merchantId, x, ev)
  {
    var x := IngestStore.FindCharge(t.charges, merchantId, ev.chargeRef);
    assert x.Some?;
    assert Names(t, x.value, merchantId, ev.chargeRef);
    ArrivedIs(t, merchantId, x.value, ev);
    if ev.kind == Chargeback {
      IngestStore.HoldRefusedIff(m, t, merchantId, ev);
    }
  }

  lemma RecordMarks(t: Tables, merchantId: nat, ev: IngestStore.OpenedEvent)
    requires !Dropped(t, ev)
    ensures var u := IngestStore.Record(t, merchantId, ev).0;
            && (!(exists x :: Names(t, x, merchantId, ev.chargeRef)) ==> u == t.(webhooks := t.webhooks[ev.id := DeliveryFailed]))
            && ((exists x :: Names(t, x, merchantId, ev.chargeRef)) && OnRecord(t, merchantId, ev.disputeRef) ==>
                  u == t.(webhooks := t.webhooks[ev.id := Processed]))
  {
    var x := IngestStore.FindCharge(t.charges, merchantId, ev.chargeRef);
    if x.Some? {
      assert Names(t, x.value, merchantId, ev.chargeRef);
    } else if y :| Names(t, y, merchantId, ev.chargeRef) {
      assert false;
    }
  }

  lemma DroppedDoes(cfg: Assist.Config, s: Sys, merchantId: nat, ev: IngestStore.OpenedEvent)
    ensures Next(cfg, s, Deliver(merchantId, ev)) ==
            if Dropped(s.t, ev) then s else s.(t := IngestStore.Record(s.t, merchantId, ev).0)
  {
  }

  /** An arrival, whatever the delivery says and whatever is on file: dropped,
      filed as failed where there is no such charge, filed as processed where
      the dispute is known, refused where its hold has one account only, and
      otherwise recorded. */
  lemma DeliverDoes(cfg: Assist.Config, s: Sys, merchantId: nat, ev: IngestStore.OpenedEvent)
    requires Inv(cfg.maxAttempts, s.t)
    ensures Next(cfg, s, Deliver(merchantId, ev)) == s.(t := Next(cfg, s, Deliver(merchantId, ev)).t)
    ensures var t, u := s.t, Next(cfg, s, Deliver(merchantId, ev)).t;
            if Dropped(t, ev) then u == t
            else if !(exists x :: Names(t, x, merchantId, ev.chargeRef)) then u == t.(webhooks := t.webhooks[ev.id := DeliveryFailed])
            else if OnRecord(t, merchantId, ev.disputeRef) then u == t.(webhooks := t.webhooks[ev.id := Processed])
            else if ev.kind == Chargeback && !HoldBalances(t.accounts, merchantId, ev.currency) then u == t
            else exists x :: Names(t, x, merchantId, ev.chargeRef) && u == Arrived(t, merchantId, x, ev)
  {
    DroppedDoes(cfg, s, merchantId, ev);
    if !Dropped(s.t, ev) {
      RecordMarks(s.t, merchantId, ev);
      if (exists x :: Names(s.t, x, merchantId, ev.chargeRef)) && !OnRecord(s.t, merchantId, ev.disputeRef) {
        RecordWrites(cfg.maxAttempts, s.t, merchantId, ev);
      }
    }
  }

  /** A dispute of that merchant under that reference that awaits a ruling. */
  predicate Awaits(t: Tables, k: nat, merchantId: nat, ref: string) {
    k < |t.disputes| && t.disputes[k].merchantId == merchantId && t.disputes[k].externalId == ref && t.disputes[k].state == Represented
  }

  /** The legs of a ruling: a won dispute gives the held money back, a lost one
      sends it to the issuer and charges the fee. */
  function RulingLegs(accounts: set<Account>, d: Dispute, won: bool): seq<Leg> {
    if won then ReleaseLegs(accounts, d) else LossLegs(accounts, d)
  }

  /** The tables after dispute k was won or lost. */
  function Ruled(t: Tables, k: nat, ev: IngestStore.RulingEvent): Tables
    requires k < |t.disputes|
  {
    var d, to := t.disputes[k], if ev.won then Won else Lost;
    var j := Journal(Ref(k, if ev.won then ReleaseJournal else LossJournal), d.currency, RulingLegs(t.accounts, d, ev.won));
    t.(disputes := t.disputes[k := Moved(d, to, ev.decidedAt)],
       journals := t.journals + [j],
       events := t.events + [Event(k, Some(Represented), to, Network, ev.decidedAt)],
       outbox := t.outbox + [Message(k, to)],
       webhooks := t.webhooks[ev.id := Processed])
  }

  lemma OneAwaits(t: Tables, k: nat, l: nat, merchantId: nat, ref: string)
    requires KeysUnique(t) && Awaits(t, k, merchantId, ref) && Awaits(t, l, merchantId, ref)
    ensures k == l
  {
  }

  lemma RulingAdvances(m: int, t: Tables, k: nat, ev: IngestStore.RulingEvent)
    requires RowsGood(m, t) && k < |t.disputes| && t.disputes[k].state == Represented
    ensures var d := t.disputes[k];
            var r := TryAdvance(t, k, IngestStore.RulingEdge(ev.won), Represented, EntryOf(k, d), ev.decidedAt);
            if Accepted(RulingLegs(t.accounts, d, ev.won))
            then r.Ok? && IngestStore.Logged(r.value, ev.id, Processed) == Ruled(t, k, ev)
            else r == Err(Unbalanced)
  {
    JournalsAre(t.accounts, k, t.disputes[k]);
    OnlyMoneyRefuses(m, t, k, IngestStore.RulingEdge(ev.won), Represented, EntryOf(k, t.disputes[k]), ev.decidedAt);
  }

  lemma RulingWrites(m: int, t: Tables, merchantId: nat, ev: IngestStore.RulingEvent, k: nat)
    requires RowsGood(m, t) && KeysUnique(t) && ev.id !in t.webhooks && Awaits(t, k, merchantId, ev.disputeRef)
    ensures IngestStore.RecordRuling(t, merchantId, ev) ==
              if Accepted(RulingLegs(t.accounts, t.disputes[k], ev.won)) then (Ruled(t, k, ev), IngestStore.Recorded(k))
              else (t, IngestStore.RolledBack(Unbalanced))
  {
    var found := IngestStore.FindRuled(t.disputes, merchantId, ev.disputeRef);
    assert IngestStore.AwaitsRuling(t.disputes[k], merchantId, ev.disputeRef);
    OneAwaits(t, k, found.value, merchantId, ev.disputeRef);
    RulingAdvances(m, t, k, ev);
  }

  /** A ruling, whatever the delivery says and whatever is on file: dropped if it
      is filed already or says nothing, filed as failed where no dispute of that
      merchant and reference awaits one, and otherwise won or lost, unless the
      journal's legs do not balance. */
  lemma RuleDoes(cfg: Assist.Config, s: Sys, merchantId: nat, ev: IngestStore.RulingEvent)
    requires RowsGood(cfg.maxAttempts, s.t) && KeysUnique(s.t)
    ensures Next(cfg, s, Rule(merchantId, ev)) == s.(t := Next(cfg, s, Rule(merchantId, ev)).t)
    ensures var t, u := s.t, Next(cfg, s, Rule(merchantId, ev)).t;
            if ev.id in t.webhooks || ev.id == "" || ev.disputeRef == "" then u == t
            else if !(exists k :: Awaits(t, k, merchantId, ev.disputeRef)) then
              u == t.(webhooks := t.webhooks[ev.id := DeliveryFailed])
            else
              exists k: nat :: Awaits(t, k, merchantId, ev.disputeRef) &&
                               u == if Accepted(RulingLegs(t.accounts, t.disputes[k], ev.won)) then Ruled(t, k, ev) else t
  {
    if !(ev.id in s.t.webhooks || ev.id == "" || ev.disputeRef == "") {
      if k :| Awaits(s.t, k, merchantId, ev.disputeRef) {
        RulingWrites(cfg.maxAttempts, s.t, merchantId, ev, k);
      } else {
        RulingIsLost(s.t, merchantId, ev);
      }
    }
  }

  lemma RulingIsLost(t: Tables, merchantId: nat, ev: IngestStore.RulingEvent)
    requires ev.id !in t.webhooks && !(exists k :: Awaits(t, k, merchantId, ev.disputeRef))
    ensures IngestStore.RecordRuling(t, merchantId, ev).0 == t.(webhooks := t.webhooks[ev.id := DeliveryFailed])
  {
    var found := IngestStore.FindRuled(t.disputes, merchantId, ev.disputeRef);
    if found.Some? {
      assert Awaits(t, found.value, merchantId, ev.disputeRef);
    }
  }
}
