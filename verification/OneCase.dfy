/** One dispute taken through the operator's single-dispute mode to a ruling:
    five steps, and what they leave in every table. The results that say what
    can go wrong are read off this run. */
module OneCase {
  import opened Common
  import opened Vocabulary
  import opened Ledger
  import opened Tables
  import opened Lifecycle
  import opened Invariant
  import opened System
  import opened Guarantees
  import IngestStore
  import AgentStore
  import Assist
  import ReviewStore

  datatype Case = Case(kind: Kind, chargeRef: string, amount: int, won: bool, decidedAt: int)

  function ApprovedDraft(): Assist.Replies {
    Assist.Replies(true, Some(0), Some(Assist.DraftReply(0, true)), 0, Some(Assist.VerdictReply(0, true)))
  }

  const FIRST_CLAIM: AgentStore.Claim := AgentStore.Claim(0, 1, 1, 0)

  function Arrival(c: Case): IngestStore.OpenedEvent {
    IngestStore.OpenedEvent("e1", "d", c.chargeRef, c.kind, "10.4", c.amount, "USD", 0, 1000)
  }

  function Ruling(c: Case): IngestStore.RulingEvent {
    IngestStore.RulingEvent("e2", "d", c.won, c.decidedAt)
  }

  function Steps(c: Case): seq<Step> {
    [Deliver(0, Arrival(c)), HoldNamed(0), Finish(FIRST_CLAIM, ApprovedDraft(), 0), Decide(0, Submitted, 1), Rule(0, Ruling(c))]
  }

  function Sold(c: Case): seq<Charge> { [Charge(0, c.chargeRef, "USD", c.amount, 0, Captured)] }

  function Verdict(c: Case): State { if c.won then Won else Lost }

  function Money(c: Case): Entry { Entry(0, 0, c.amount, "USD") }

  function RulingJournal(c: Case): JournalKind { if c.won then ReleaseJournal else LossJournal }

  /** The trail the run writes, in the order it writes it. */
  function Trail(c: Case): seq<Event> {
    [Event(0, None, Received, System, 0), Event(0, Some(Resolving), DraftReady, Agent, 0),
     Event(0, Some(DraftReady), Represented, User, 1), Event(0, Some(Represented), Verdict(c), Network, c.decidedAt)]
  }

  function Posted(accounts: set<Account>, c: Case): seq<Journal> {
    if c.kind == Chargeback then [JournalFor(accounts, Money(c), HoldJournal)] else []
  }

  /** The case as it stands after so many events. */
  predicate Stands(t: Tables, c: Case, state: State, version: nat, events: nat)
    requires events <= 4
  {
    && |t.disputes| == 1
    && t.disputes[0].state == state
    && t.disputes[0].version == version
    && t.disputes[0].deadlineAt == 1000
    && t.disputes[0].externalId == "d"
    && t.disputes[0].amountMinor == c.amount
    && Of(t.disputes[0], c.kind, 0, "USD")
    && t.events == Trail(c)[..events]
  }

  lemma RunFirst(cfg: Assist.Config, s: Sys, steps: seq<Step>, n: nat)
    requires n < |steps|
    ensures Run(cfg, s, steps[..n + 1]) == Next(cfg, Run(cfg, s, steps[..n]), steps[n])
  {
    assert steps[..n + 1] == steps[..n] + [steps[n]];
    RunSnoc(cfg, s, steps[..n], steps[n]);
  }

  lemma Opens(cfg: Assist.Config, s: Sys, z: Sys, c: Case)
    requires SysInv(cfg, s) && c.amount > 0 && c.chargeRef != "" && s == Start(s.t.accounts, Sold(c))
    requires c.kind == Chargeback ==> Paired(s.t.accounts, 0, "USD")
    requires z == Next(cfg, s, Deliver(0, Arrival(c)))
    ensures Stands(z.t, c, Received, 0, 1) && z.t.journals == Posted(s.t.accounts, c)
    ensures z.t.runs == [] && "e2" !in z.t.webhooks
  {
    assert IngestStore.FindCharge(s.t.charges, 0, c.chargeRef).Some?;
    if c.kind == Chargeback {
      IngestStore.HoldRefusedIff(cfg.maxAttempts, s.t, 0, Arrival(c));
    }
  }

  lemma Held(cfg: Assist.Config, s: Sys, z: Sys, c: Case)
    requires SysInv(cfg, s) && Stands(s.t, c, Received, 0, 1) && s.t.runs == [] && "e2" !in s.t.webhooks
    requires z == Next(cfg, s, HoldNamed(0))
    ensures Stands(z.t, c, Resolving, 1, 1) && z.t.journals == s.t.journals
    ensures z.t.runs == [] && "e2" !in z.t.webhooks && FIRST_CLAIM in z.claims
  {
    var t := s.t;
    OnlyMoneyRefuses(cfg.maxAttempts, t, 0, Edge.Hold, Received, EntryOf(0, t.disputes[0]), 0);
    var u := Advance(t, 0, Edge.Hold, Received, EntryOf(0, t.disputes[0]), 0);
    assert AgentStore.Hold(t, 0) == Ok((u, FIRST_CLAIM));
  }

  const FIRST_RUN: AgentStore.Run := AgentStore.Run(Drafted, true, 0, false)

  lemma ApprovedDraftPasses(cfg: Assist.Config)
    requires cfg.maxCostMicros == 0
    ensures Assist.Attempted(cfg, FIRST_CLAIM, ApprovedDraft()) == Some(FIRST_RUN)
  {
  }

  lemma FirstDraft(m: int, t: Tables, c: Case)
    requires RowsGood(m, t) && Stands(t, c, Resolving, 1, 1) && t.runs == []
    ensures var r := AgentStore.Record(t, FIRST_CLAIM, FIRST_RUN, 0);
            && r.Ok? && Stands(r.value, c, DraftReady, 2, 2)
            && r.value.journals == t.journals && r.value.webhooks == t.webhooks
            && r.value.runs == [AgentStore.RunRow(FIRST_CLAIM, FIRST_RUN)]
  {
    var e := Draft(AgentStore.RunRow(FIRST_CLAIM, FIRST_RUN));
    OnlyMoneyRefuses(m, t, 0, e, Resolving, EntryOf(0, t.disputes[0]), 0);
  }

  lemma Drafts(cfg: Assist.Config, s: Sys, z: Sys, c: Case)
    requires cfg.maxCostMicros == 0
    requires SysInv(cfg, s) && Stands(s.t, c, Resolving, 1, 1) && s.t.runs == [] && "e2" !in s.t.webhooks
    requires FIRST_CLAIM in s.claims
    requires z == Next(cfg, s, Finish(FIRST_CLAIM, ApprovedDraft(), 0))
    ensures Stands(z.t, c, DraftReady, 2, 2) && z.t.journals == s.t.journals && "e2" !in z.t.webhooks
    ensures |z.t.runs| == 1 && z.t.runs[0].review.None? && z.t.runs[0].disputeId == 0
  {
    ApprovedDraftPasses(cfg);
    FirstDraft(cfg.maxAttempts, s.t, c);
  }

  lemma SubmissionLands(m: int, t: Tables, c: Case)
    requires RowsGood(m, t) && Stands(t, c, DraftReady, 2, 2)
    requires |t.runs| == 1 && t.runs[0].review.None? && t.runs[0].disputeId == 0
    ensures var r := ReviewStore.Decide(t, 0, Submitted, 1);
            r.Ok? && Stands(r.value, c, Represented, 3, 3) && r.value.journals == t.journals && r.value.webhooks == t.webhooks
  {
    ReviewStore.DecideIff(m, t, 0, Submitted, 1);
  }

  lemma Submits(cfg: Assist.Config, s: Sys, z: Sys, c: Case)
    requires SysInv(cfg, s) && Stands(s.t, c, DraftReady, 2, 2) && "e2" !in s.t.webhooks
    requires |s.t.runs| == 1 && s.t.runs[0].review.None? && s.t.runs[0].disputeId == 0
    requires z == Next(cfg, s, Decide(0, Submitted, 1))
    ensures Stands(z.t, c, Represented, 3, 3) && z.t.journals == s.t.journals && "e2" !in z.t.webhooks
  {
    SubmissionLands(cfg.maxAttempts, s.t, c);
  }

  lemma RulingMoves(m: int, t: Tables, c: Case)
    requires RowsGood(m, t) && NothingAhead(t) && Stands(t, c, Represented, 3, 3)
    requires Ledger.Accepted(JournalFor(t.accounts, Money(c), RulingJournal(c)).legs)
    ensures var e := IngestStore.RulingEdge(c.won);
            TryAdvance(t, 0, e, Represented, Money(c), c.decidedAt) ==
              Ok(Advance(t, 0, e, Represented, Money(c), c.decidedAt))
  {
    var e := IngestStore.RulingEdge(c.won);
    assert EntryOf(0, t.disputes[0]) == Money(c);
    assert Legal(m, t, 0, e, Represented, Money(c));
    OnlyMoneyRefuses(m, t, 0, e, Represented, Money(c), c.decidedAt);
  }

  lemma RulingLands(m: int, t: Tables, c: Case)
    requires RowsGood(m, t) && NothingAhead(t) && Stands(t, c, Represented, 3, 3) && "e2" !in t.webhooks
    requires Ledger.Accepted(JournalFor(t.accounts, Money(c), RulingJournal(c)).legs)
    ensures var u := IngestStore.RecordRuling(t, 0, Ruling(c)).0;
            && Stands(u, c, Verdict(c), 4, 4)
            && u.journals == t.journals + [JournalFor(t.accounts, Money(c), RulingJournal(c))]
  {
    assert IngestStore.AwaitsRuling(t.disputes[0], 0, "d");
    assert EntryOf(0, t.disputes[0]) == Money(c);
    RulingMoves(m, t, c);
  }

  lemma Ruled(cfg: Assist.Config, s: Sys, z: Sys, c: Case)
    requires SysInv(cfg, s) && Stands(s.t, c, Represented, 3, 3) && "e2" !in s.t.webhooks
    requires Ledger.Accepted(JournalFor(s.t.accounts, Money(c), RulingJournal(c)).legs)
    requires z == Next(cfg, s, Rule(0, Ruling(c)))
    ensures Stands(z.t, c, Verdict(c), 4, 4)
    ensures z.t.journals == s.t.journals + [JournalFor(s.t.accounts, Money(c), RulingJournal(c))]
  {
    RulingLands(cfg.maxAttempts, s.t, c);
  }

  /** What it takes for the run to go through, and what it leaves. */
  ghost predicate GoesThrough(cfg: Assist.Config, accounts: set<Account>, c: Case) {
    && cfg.maxAttempts >= 1 && cfg.maxCostMicros == 0 && c.amount > 0 && c.chargeRef != ""
    && (c.kind == Chargeback ==> Paired(accounts, 0, "USD"))
    && Ledger.Accepted(JournalFor(accounts, Money(c), RulingJournal(c)).legs)
  }

  /** The state after the first n steps, and that its next one is step n. */
  lemma StepAt(cfg: Assist.Config, accounts: set<Account>, c: Case, n: nat)
    requires cfg.maxAttempts >= 1 && c.amount > 0 && n < 5
    ensures var s := Start(accounts, Sold(c));
            && SysInv(cfg, Run(cfg, s, Steps(c)[..n]))
            && Run(cfg, s, Steps(c)[..n]).t.accounts == accounts
            && Run(cfg, s, Steps(c)[..n + 1]) == Next(cfg, Run(cfg, s, Steps(c)[..n]), Steps(c)[n])
  {
    RunFirst(cfg, Start(accounts, Sold(c)), Steps(c), n);
    RunKeepsInv(cfg, accounts, Sold(c), Steps(c)[..n]);
    AccountsFixed(cfg, accounts, Sold(c), Steps(c)[..n]);
  }

  lemma FirstSteps(cfg: Assist.Config, accounts: set<Account>, c: Case)
    requires GoesThrough(cfg, accounts, c)
    ensures var s := Run(cfg, Start(accounts, Sold(c)), Steps(c)[..2]);
            && Stands(s.t, c, Resolving, 1, 1) && s.t.journals == Posted(accounts, c) && "e2" !in s.t.webhooks
            && s.t.runs == [] && FIRST_CLAIM in s.claims
  {
    var s, steps := Start(accounts, Sold(c)), Steps(c);
    StepAt(cfg, accounts, c, 0);
    StepAt(cfg, accounts, c, 1);
    assert Run(cfg, s, steps[..0]) == s;
    Opens(cfg, s, Run(cfg, s, steps[..1]), c);
    Held(cfg, Run(cfg, s, steps[..1]), Run(cfg, s, steps[..2]), c);
  }

  lemma ThirdStep(cfg: Assist.Config, accounts: set<Account>, c: Case)
    requires GoesThrough(cfg, accounts, c)
    ensures var s := Run(cfg, Start(accounts, Sold(c)), Steps(c)[..3]);
            && Stands(s.t, c, DraftReady, 2, 2) && s.t.journals == Posted(accounts, c) && "e2" !in s.t.webhooks
            && |s.t.runs| == 1 && s.t.runs[0].review.None? && s.t.runs[0].disputeId == 0
  {
    var s, steps := Start(accounts, Sold(c)), Steps(c);
    FirstSteps(cfg, accounts, c);
    StepAt(cfg, accounts, c, 2);
    Drafts(cfg, Run(cfg, s, steps[..2]), Run(cfg, s, steps[..3]), c);
  }

  lemma FourthStep(cfg: Assist.Config, accounts: set<Account>, c: Case)
    requires GoesThrough(cfg, accounts, c)
    ensures var s := Run(cfg, Start(accounts, Sold(c)), Steps(c)[..4]);
            Stands(s.t, c, Represented, 3, 3) && s.t.journals == Posted(accounts, c) && "e2" !in s.t.webhooks
  {
    var s, steps := Start(accounts, Sold(c)), Steps(c);
    ThirdStep(cfg, accounts, c);
    StepAt(cfg, accounts, c, 3);
    Submits(cfg, Run(cfg, s, steps[..3]), Run(cfg, s, steps[..4]), c);
  }

  lemma WholeRun(cfg: Assist.Config, accounts: set<Account>, c: Case)
    requires GoesThrough(cfg, accounts, c)
    ensures var t := After(cfg, accounts, Sold(c), Steps(c));
            && Stands(t, c, Verdict(c), 4, 4)
            && t.journals == Posted(accounts, c) + [JournalFor(accounts, Money(c), RulingJournal(c))]
  {
    var s, steps := Start(accounts, Sold(c)), Steps(c);
    FourthStep(cfg, accounts, c);
    StepAt(cfg, accounts, c, 4);
    assert steps[..5] == steps;
    Ruled(cfg, Run(cfg, s, steps[..4]), Run(cfg, s, steps), c);
  }

  // ------------------------------------------------------- an alert ruled on

  lemma OneRuledAlert(m: int, t: Tables, c: Case)
    requires Inv(m, t) && Stands(t, c, Verdict(c), 4, 4) && c.kind == Alert
    requires MerchantAccount(0, DisputesPayable, "USD") in t.accounts
    ensures Guarantees.Held(t, 0, "USD") == 0 - c.amount && OpenSum(t, 0, "USD") == 0
  {
    HeldMoney(m, t, 0, "USD");
    var g, h := OpenAmounts(t, 0, "USD"), RuledAlertAmounts(t, 0, "USD");
    assert SumTo(1, g) == SumTo(0, g) + g(0) && SumTo(1, h) == SumTo(0, h) + h(0);
  }

  /** An alert that the operator's single-dispute mode drafted and the network
      then ruled on takes its amount out of disputes_payable, where nothing was
      ever held for it. The run names an alert, as every run that goes short
      must. */
  lemma RuledAlertGoesShort(cfg: Assist.Config, accounts: set<Account>, c: Case)
    requires GoesThrough(cfg, accounts, c) && c.kind == Alert
    requires MerchantAccount(0, DisputesPayable, "USD") in accounts
    ensures var t := After(cfg, accounts, Sold(c), Steps(c));
            Guarantees.Held(t, 0, "USD") == 0 - c.amount && OpenSum(t, 0, "USD") == 0
    ensures !NamesNoAlert(cfg, accounts, Sold(c), Steps(c))
  {
    WholeRun(cfg, accounts, c);
    RunKeepsInv(cfg, accounts, Sold(c), Steps(c));
    AccountsFixed(cfg, accounts, Sold(c), Steps(c));
    OneRuledAlert(cfg.maxAttempts, After(cfg, accounts, Sold(c), Steps(c)), c);
    if NamesNoAlert(cfg, accounts, Sold(c), Steps(c)) {
      HeldEqualsOpen(cfg, accounts, Sold(c), Steps(c), 0, "USD");
    }
  }

  /** Half a loss is committed in a run: a lost alert of a merchant without both
      or neither of its own accounts, under any accounts that let the legs that
      are there balance: payable and clearing alone, own and fee alone, or, at
      exactly the fee's amount, payable and fee alone or own and clearing alone.
      The one journal of the run has two of its four legs. */
  lemma HalfALossCommits(cfg: Assist.Config, accounts: set<Account>, c: Case)
    requires cfg.maxAttempts >= 1 && cfg.maxCostMicros == 0 && c.amount > 0 && c.chargeRef != "" && c.kind == Alert && !c.won
    requires !Paired(accounts, 0, "USD") && LossBalances(StandingOf(accounts, Money(c)), c.amount)
    ensures var js := After(cfg, accounts, Sold(c), Steps(c)).journals;
            |js| == 1 && js[0].ref == Ref(0, LossJournal) && |js[0].legs| == 2
    ensures var h := StandingOf(accounts, Money(c));
            || h in {Standing(true, true, false, false), Standing(false, false, true, true)}
            || (c.amount == CHARGEBACK_FEE_MINOR && h in {Standing(true, false, false, true), Standing(false, true, true, false)})
  {
    LossAcceptedIff(accounts, Money(c));
    WholeRun(cfg, accounts, c);
  }
}
