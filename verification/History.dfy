/** What the records say about each other after any run: journals, refunds,
    audit trail, attempts and spend. */
module History {
  import opened Common
  import opened Vocabulary
  import opened Ledger
  import opened Tables
  import opened Lifecycle
  import opened Invariant
  import opened System
  import opened Guarantees
  import WorkerRules
  import WorkerStore
  import AgentStore
  import Assist

  // -------------------------------------------------------------- the book

  /** Debits less credits over every journal of one currency. */
  function BookNet(js: seq<Journal>, currency: string): int {
    if js == [] then 0
    else
      var j := js[|js| - 1];
      BookNet(js[..|js| - 1], currency) + if j.currency == currency then Net(j.legs) else 0
  }

  lemma {:induction false} AcceptedBookNets(js: seq<Journal>, currency: string)
    requires forall j | 0 <= j < |js| :: Ledger.Accepted(js[j].legs)
    ensures BookNet(js, currency) == 0
  {
    if js != [] {
      AcceptedBookNets(js[..|js| - 1], currency);
    }
  }

  /** After any run every account that exists holds exactly what the dispute
      table explains, every account that does not holds nothing, and the whole
      book of each currency nets to zero. */
  lemma TheBookIsAFunctionOfTheDisputes(cfg: Assist.Config, accounts: set<Account>, charges: seq<Charge>, steps: seq<Step>,
                                        a: Account, currency: string)
    requires cfg.maxAttempts >= 1 && ChargesFresh(charges)
    ensures var t := After(cfg, accounts, charges, steps);
            && Balance(t.journals, a) == (if a in accounts then SumTo(|t.disputes|, Shares(t, a)) else 0)
            && BookNet(t.journals, currency) == 0
  {
    RunKeepsInv(cfg, accounts, charges, steps);
    AccountsFixed(cfg, accounts, charges, steps);
    var t := After(cfg, accounts, charges, steps);
    forall j | 0 <= j < |t.journals|
      ensures Ledger.Accepted(t.journals[j].legs)
    {
      assert Ledger.Accepted(t.journals[j].legs);
    }
    AcceptedBookNets(t.journals, currency);
  }

  // ------------------------------------------------------ settlement, once

  /** How often a journal of this kind is posted for a dispute, read off its
      row alone, except that a refunded alert may owe its refund to another. */
  predicate SettledOnce(t: Tables, i: nat)
    requires i < |t.disputes|
  {
    var d := t.disputes[i];
    && JournalCount(t.journals, Ref(i, HoldJournal)) == Indicator(d.kind == Chargeback)
    && JournalCount(t.journals, Ref(i, ReleaseJournal)) == Indicator(d.state == Won)
    && JournalCount(t.journals, Ref(i, LossJournal)) ==
         Indicator(d.state == Lost || (d.state == Expired && d.kind == Chargeback))
    && JournalCount(t.journals, Ref(i, RefundJournal)) <= Indicator(d.state == Refunded && d.kind == Alert)
  }

  predicate RefsDistinct(js: seq<Journal>) {
    forall i, j | 0 <= i < j < |js| :: js[i].ref != js[j].ref
  }

  lemma {:induction false} CountsBoundRefs(js: seq<Journal>)
    requires forall ref :: JournalCount(js, ref) <= 1
    ensures RefsDistinct(js)
  {
    if js != [] {
      var n := |js| - 1;
      forall ref
        ensures JournalCount(js[..n], ref) <= 1
      {
        assert JournalCount(js, ref) <= 1;
      }
      CountsBoundRefs(js[..n]);
      JournalCountTaken(js[..n], js[n].ref);
      assert JournalCount(js, js[n].ref) <= 1;
      forall i, j | 0 <= i < j < |js|
        ensures js[i].ref != js[j].ref
      {
        assert js[..n][i] == js[i];
        if j < n {
          assert js[..n][j] == js[j];
        } else {
          assert !RefTaken(js[..n], js[n].ref);
        }
      }
    }
  }

  /** Each journal of a chargeback was committed whole or, where its merchant
      has no account at all, empty. */
  predicate WholeJournal(t: Tables, j: Journal) {
    j.ref.disputeId < |t.disputes| && t.disputes[j.ref.disputeId].kind == Chargeback ==>
      |j.legs| == 0 || |j.legs| == |Postings(j.ref.kind, 1)|
  }

  lemma JournalIsWhole(m: int, t: Tables, j: nat)
    requires Inv(m, t) && j < |t.journals|
    ensures WholeJournal(t, t.journals[j])
  {
    var J := t.journals[j];
    var k := J.ref.disputeId;
    assert J == JournalFor(t.accounts, EntryOf(k, t.disputes[k]), J.ref.kind);
    assert Good(m, ViewOf(t, k));
    if t.disputes[k].kind == Chargeback {
      WholeOrEmpty(t.accounts, EntryOf(k, t.disputes[k]), J.ref.kind);
    }
  }

  lemma RefPostedOnce(m: int, t: Tables, ref: Ref)
    requires RowsGood(m, t) && NothingAhead(t)
    ensures JournalCount(t.journals, ref) <= 1
  {
    var i := ref.disputeId;
    match ref.kind {
      case HoldJournal => assert JournalCount(t.journals, ref) == TallyOf(t, i).holds;
      case ReleaseJournal => assert JournalCount(t.journals, ref) == TallyOf(t, i).releases;
      case LossJournal => assert JournalCount(t.journals, ref) == TallyOf(t, i).losses;
      case RefundJournal => assert JournalCount(t.journals, ref) == TallyOf(t, i).refunds;
    }
    if i < |t.disputes| {
      assert Good(m, ViewOf(t, i));
    } else {
      assert TallyOf(t, i) == BLANK;
    }
  }

  lemma RefsAreDistinct(m: int, t: Tables)
    requires RowsGood(m, t) && NothingAhead(t)
    ensures RefsDistinct(t.journals)
  {
    forall ref: Ref
      ensures JournalCount(t.journals, ref) <= 1
    {
      RefPostedOnce(m, t, ref);
    }
    CountsBoundRefs(t.journals);
  }

  /** Each dispute is settled once, no idempotency key repeats, and no journal
      of a chargeback is ever in part. */
  lemma SettlementHappensOnce(cfg: Assist.Config, accounts: set<Account>, charges: seq<Charge>, steps: seq<Step>)
    requires cfg.maxAttempts >= 1 && ChargesFresh(charges)
    ensures var t := After(cfg, accounts, charges, steps);
            && (forall i: nat | i < |t.disputes| :: SettledOnce(t, i))
            && RefsDistinct(t.journals)
            && (forall j: nat | j < |t.journals| :: WholeJournal(t, t.journals[j]))
  {
    RunKeepsInv(cfg, accounts, charges, steps);
    var t := After(cfg, accounts, charges, steps);
    forall i: nat | i < |t.disputes|
      ensures SettledOnce(t, i)
    {
      assert Good(cfg.maxAttempts, ViewOf(t, i));
    }
    RefsAreDistinct(cfg.maxAttempts, t);
    forall j: nat | j < |t.journals|
      ensures WholeJournal(t, t.journals[j])
    {
      JournalIsWhole(cfg.maxAttempts, t, j);
    }
  }

  /** A settled dispute stays as it is, whatever happens afterwards. */
  lemma {:induction false} TerminalForever(cfg: Assist.Config, s: Sys, more: seq<Step>, i: nat)
    requires SysInv(cfg, s) && i < |s.t.disputes| && Terminal(s.t.disputes[i].state)
    ensures var z := Run(cfg, s, more);
            SysInv(cfg, z) && i < |z.t.disputes| && ViewOf(z.t, i) == ViewOf(s.t, i)
  {
    if more != [] {
      var n := |more| - 1;
      TerminalForever(cfg, s, more[..n], i);
      var y := Run(cfg, s, more[..n]);
      StepIsOneTransaction(cfg, y, more[n]);
      StepKeepsInv(cfg, y, more[n]);
      MovesAreEdges(cfg.maxAttempts, y.t, Next(cfg, y, more[n]).t, i);
    }
  }

  // --------------------------------------------------------------- refunds

  /** The refund total of every charge is the sum of the refunds its disputes
      posted, never more than the charge; a refunded dispute posted its own or
      sits on a charge refunded in full. */
  lemma RefundsAreConserved(cfg: Assist.Config, accounts: set<Account>, charges: seq<Charge>, steps: seq<Step>, x: nat, i: nat)
    requires cfg.maxAttempts >= 1 && ChargesFresh(charges)
    ensures var t := After(cfg, accounts, charges, steps);
            && (x < |t.charges| ==>
                  && 0 <= t.charges[x].refundedMinor <= t.charges[x].amountMinor
                  && t.charges[x].refundedMinor == SumTo(|t.disputes|, RefundShares(t, x))
                  && (t.charges[x].status == FullyRefunded <==> t.charges[x].refundedMinor == t.charges[x].amountMinor))
            && (i < |t.disputes| && t.disputes[i].state == Refunded ==>
                  || JournalCount(t.journals, Ref(i, RefundJournal)) == 1
                  || (t.disputes[i].charge < |t.charges| && t.charges[t.disputes[i].charge].status == FullyRefunded))
  {
    RunKeepsInv(cfg, accounts, charges, steps);
    var t := After(cfg, accounts, charges, steps);
    if x < |t.charges| {
      assert StatusOk(t.charges[x]);
    }
    if i < |t.disputes| && t.disputes[i].state == Refunded {
      assert TallyOf(t, i).refunds == 1 || t.charges[t.disputes[i].charge].status == FullyRefunded;
    }
  }

  lemma FirstRefund(m: int, t: Tables, l: WorkerStore.Loaded, now: int, at: int, id: nat)
    requires RowsGood(m, t) && NothingAhead(t) && WorkerStore.SnapshotOk(t, l) && id < |t.disputes| && id != l.id
    requires WorkerRules.Decide(WorkerStore.CandidateOf(l), now).action == WorkerRules.DoRefund
    requires WorkerStore.Apply(t, l, WorkerRules.DoRefund, at).Ok?
    ensures var u := WorkerStore.Apply(t, l, WorkerRules.DoRefund, at).value;
            var x := l.row.charge;
            && |u.disputes| == |t.disputes| && u.disputes[id] == t.disputes[id]
            && RowsGood(m, u)
            && x < |u.charges| && x < |t.charges|
            && u.charges[x].amountMinor == t.charges[x].amountMinor
            && u.charges[x].refundedMinor == t.charges[x].refundedMinor + l.row.amountMinor
            && u.runs == t.runs && TallyOf(u, id) == TallyOf(t, id)
  {
    WorkerStore.DecisionIsLegal(m, t, l, now);
    var entry := EntryOf(l.id, l.row);
    RowsAdvance(m, t, l.id, Edge.Refund, l.row.state, entry, at);
    TallyAdvance(m, t, l.id, Edge.Refund, l.row.state, entry, at, id);
  }

  lemma {:induction false} RefundsGrowAlong(cfg: Assist.Config, s: Sys, more: seq<Step>, x: nat)
    requires SysInv(cfg, s) && x < |s.t.charges|
    ensures var z := Run(cfg, s, more);
            && SysInv(cfg, z) && |z.t.charges| == |s.t.charges|
            && z.t.charges[x].amountMinor == s.t.charges[x].amountMinor
            && z.t.charges[x].refundedMinor >= s.t.charges[x].refundedMinor
  {
    if more != [] {
      var n := |more| - 1;
      RefundsGrowAlong(cfg, s, more[..n], x);
      var y := Run(cfg, s, more[..n]);
      StepIsOneTransaction(cfg, y, more[n]);
      StepKeepsInv(cfg, y, more[n]);
      RefundsOnlyGrow(cfg.maxAttempts, y.t, Next(cfg, y, more[n]).t, x);
    }
  }

  lemma {:induction false} SnapshotsKept(cfg: Assist.Config, s: Sys, more: seq<Step>, l: WorkerStore.Loaded)
    requires l in s.snapshots
    ensures l in Run(cfg, s, more).snapshots
  {
    if more != [] {
      SnapshotsKept(cfg, s, more[..|more| - 1], l);
    }
  }

  lemma RefundRefused(m: int, t: Tables, r: WorkerStore.Loaded, now: int, at: int)
    requires RowsGood(m, t) && NothingAhead(t) && WorkerStore.SnapshotOk(t, r) && t.disputes[r.id].version == r.row.version
    requires WorkerRules.Decide(WorkerStore.CandidateOf(r), now).action == WorkerRules.DoRefund
    requires var c := t.charges[r.row.charge]; c.refundedMinor + r.row.amountMinor > c.amountMinor
    ensures WorkerStore.Apply(t, r, WorkerRules.DoRefund, at) == Err(OverRefund)
  {
    WorkerStore.DecisionIsLegal(m, t, r, now);
    OnlyMoneyRefuses(m, t, r.id, Edge.Refund, r.row.state, EntryOf(r.id, r.row), at);
  }

  /** Two alerts on one charge, both loaded while both still fitted. One is
      refunded; anything may happen then; and if they do not fit together, the
      other is refused by the refund CHECK whenever it is decided and written. */
  lemma SecondRefundRefused(cfg: Assist.Config, s: Sys, l: WorkerStore.Loaded, r: WorkerStore.Loaded,
                            nowL: int, atL: int, more: seq<Step>, nowR: int, atR: int)
    requires SysInv(cfg, s) && l in s.snapshots && r in s.snapshots
    requires l.id != r.id && l.row.charge == r.row.charge
    requires WorkerRules.Decide(WorkerStore.CandidateOf(l), nowL).action == WorkerRules.DoRefund
    requires WorkerRules.Decide(WorkerStore.CandidateOf(r), nowR).action == WorkerRules.DoRefund
    requires WorkerStore.Apply(s.t, l, WorkerRules.DoRefund, atL).Ok?
    requires var c := s.t.charges[l.row.charge];
             c.refundedMinor + l.row.amountMinor + r.row.amountMinor > c.amountMinor
    ensures var y := Run(cfg, Next(cfg, s, Apply(l, nowL, atL)), more);
            && r.id < |y.t.disputes|
            && WorkerStore.Apply(y.t, r, WorkerRules.DoRefund, atR).Err?
            && (y.t.disputes[r.id].version == r.row.version ==>
                  WorkerStore.Apply(y.t, r, WorkerRules.DoRefund, atR) == Err(OverRefund))
  {
    var u := Next(cfg, s, Apply(l, nowL, atL));
    var x := l.row.charge;
    FirstRefund(cfg.maxAttempts, s.t, l, nowL, atL, r.id);
    assert u.t == WorkerStore.Apply(s.t, l, WorkerRules.DoRefund, atL).value;
    StepKeepsInv(cfg, s, Apply(l, nowL, atL));
    RefundsGrowAlong(cfg, u, more, x);
    SnapshotsKept(cfg, u, more, r);
    var y := Run(cfg, u, more);
    assert WorkerStore.SnapshotOk(y.t, r);
    if y.t.disputes[r.id].version == r.row.version {
      RefundRefused(cfg.maxAttempts, y.t, r, nowR, atR);
    }
  }

  // ----------------------------------------------------------- audit trail

  /** Replaying the trail gives the row's state, except that a claim in
      progress is not in it; events chain; and the outbox is exactly the
      trail's system, worker and network moves, in order. */
  lemma TheTrailReplays(cfg: Assist.Config, accounts: set<Account>, charges: seq<Charge>, steps: seq<Step>, i: nat)
    requires cfg.maxAttempts >= 1 && ChargesFresh(charges)
    ensures var t := After(cfg, accounts, charges, steps);
            && AuditChained(t.events)
            && t.outbox == Announced(t.events)
            && (i < |t.disputes| ==>
                  LastTo(t.events, i) == Some(if t.disputes[i].state == Resolving then Received else t.disputes[i].state))
            && (i >= |t.disputes| ==> LastTo(t.events, i) == None)
  {
    RunKeepsInv(cfg, accounts, charges, steps);
    var t := After(cfg, accounts, charges, steps);
    if i < |t.disputes| {
      assert Good(cfg.maxAttempts, ViewOf(t, i));
    } else {
      assert TallyOf(t, i) == BLANK;
    }
  }

  // ---------------------------------------------------- attempts and review

  predicate RunIs(r: AgentRun, id: nat, attempt: int) {
    r.disputeId == id && r.attempt == attempt
  }

  ghost predicate SomeRunIs(runs: seq<AgentRun>, id: nat, a: int) {
    exists r :: 0 <= r < |runs| && RunIs(runs[r], id, a)
  }

  lemma SomeRunSnoc(runs: seq<AgentRun>, n: nat, id: nat, a: int)
    requires n + 1 == |runs|
    ensures SomeRunIs(runs, id, a) <==> SomeRunIs(runs[..n], id, a) || RunIs(runs[n], id, a)
  {
    if SomeRunIs(runs, id, a) {
      var r :| 0 <= r < |runs| && RunIs(runs[r], id, a);
      if r < n {
        assert RunIs(runs[..n][r], id, a);
      }
    }
    if SomeRunIs(runs[..n], id, a) {
      var r :| 0 <= r < n && RunIs(runs[..n][r], id, a);
      assert RunIs(runs[r], id, a);
    }
  }

  /** In a ranked table the attempts of a dispute are exactly 1..n. */
  lemma {:induction false} AttemptsAre1ToN(runs: seq<AgentRun>, id: nat, a: int)
    requires AttemptsRanked(runs)
    ensures 1 <= a <= RunSum(runs, id, One) <==> SomeRunIs(runs, id, a)
  {
    if runs != [] {
      var n := |runs| - 1;
      RanksPrefix(runs, n);
      AttemptsAre1ToN(runs[..n], id, a);
      AgentStore.NextAttemptFree(runs[..n], id);
      SomeRunSnoc(runs, n, id, a);
    }
  }

  /** No attempt number of a dispute is used twice. */
  lemma AttemptsDiffer(runs: seq<AgentRun>, r: nat, q: nat)
    requires AttemptsRanked(runs) && r < q < |runs| && runs[r].disputeId == runs[q].disputeId
    ensures runs[r].attempt < runs[q].attempt
  {
    RanksPrefix(runs, q);
    AgentStore.NextAttemptFree(runs[..q], runs[q].disputeId);
    assert runs[..q][r] == runs[r];
  }

  /** One submitted run exactly when the dispute was represented; attempts
      numbered 1..n; and a dispute that has used its attempts is back in the
      queue only because a person discarded a draft. */
  lemma ReviewsAndAttempts(cfg: Assist.Config, accounts: set<Account>, charges: seq<Charge>, steps: seq<Step>, i: nat, a: int)
    requires cfg.maxAttempts >= 1 && ChargesFresh(charges)
    ensures var t := After(cfg, accounts, charges, steps);
            i < |t.disputes| ==>
              var d := t.disputes[i];
              && RunSum(t.runs, i, IsSubmitted) == Indicator(d.state in {Represented, Won, Lost})
              && (1 <= a <= RunSum(t.runs, i, One) <==> SomeRunIs(t.runs, i, a))
              && (RunSum(t.runs, i, One) >= cfg.maxAttempts && d.state in {Received, Resolving} ==>
                    RunSum(t.runs, i, IsDiscarded) >= 1)
              && (d.state == DraftReady ==> RunSum(t.runs, i, One) >= 1)
  {
    RunKeepsInv(cfg, accounts, charges, steps);
    var t := After(cfg, accounts, charges, steps);
    if i < |t.disputes| {
      assert Good(cfg.maxAttempts, ViewOf(t, i));
      AttemptsAre1ToN(t.runs, i, a);
    }
  }

  // ----------------------------------------------------------------- spend

  /** The record was priced before the call and no call costs more than cap. */
  predicate Priced(r: Assist.Replies, cap: int) {
    && Assist.CostsOk(r)
    && r.estimate.Some? && r.estimate.value >= 0
    && (r.draft.Some? ==> r.draft.value.costMicros <= cap)
    && (r.verdict.Some? ==> r.verdict.value.costMicros <= cap)
  }

  predicate AllPriced(steps: seq<Step>, cap: int) {
    forall k | 0 <= k < |steps| && steps[k].Finish? :: Priced(steps[k].replies, cap)
  }

  lemma SpendStep(cfg: Assist.Config, s: Sys, step: Step, cap: int, i: nat)
    requires SysInv(cfg, s) && cfg.maxCostMicros > 0 && cap >= 0
    requires step.Finish? ==> Priced(step.replies, cap)
    requires RunSum(s.t.runs, i, Cost) < cfg.maxCostMicros + cap
    ensures RunSum(Next(cfg, s, step).t.runs, i, Cost) < cfg.maxCostMicros + cap
  {
    var ch, u := Explain(cfg, s, step), Next(cfg, s, step).t;
    StepDoes(cfg, s, step);
    if ch.Advancing? {
      assert u.runs == WithRun(s.t.runs, ch.e);
      RunsAdvance(s.t.runs, ch.k, ch.e, i);
      if (ch.e.Draft? || ch.e.Requeue?) && ch.k == i {
        WhoTakesWhichEdge(cfg, s, step);
        AttemptSpend(cfg, s, step, cap);
      }
    }
  }

  /** The run an attempt writes adds what the attempt spent to what the claim
      had read as already spent, and the claim had read the truth. */
  lemma AttemptSpend(cfg: Assist.Config, s: Sys, step: Step, cap: int)
    requires SysInv(cfg, s) && cfg.maxCostMicros > 0 && cap >= 0
    requires step.Finish? && step.claim in s.claims && Priced(step.replies, cap)
    requires Next(cfg, s, step).t != s.t
    ensures var ch := Explain(cfg, s, step);
            && ch.Advancing? && (ch.e.Draft? || ch.e.Requeue?)
            && var total := RunSum(s.t.runs, ch.k, Cost) + ch.e.run.costMicros;
               total < cfg.maxCostMicros + cap || total == RunSum(s.t.runs, ch.k, Cost)
  {
    var c := step.claim;
    assert AgentStore.ClaimOk(s.t, c);
    Assist.SpendBounded(cfg, c, step.replies, cap);
    assert c.spentMicros == TallyOf(s.t, c.disputeId).spent;
  }

  /** Recorded spend on a dispute, over all its attempts and for ever, stays
      under the ceiling plus the price of one call. */
  lemma {:induction false} RecordedSpendBounded(cfg: Assist.Config, accounts: set<Account>, charges: seq<Charge>,
                                                steps: seq<Step>, cap: int, i: nat)
    requires cfg.maxAttempts >= 1 && ChargesFresh(charges)
    requires cfg.maxCostMicros > 0 && cap >= 0 && AllPriced(steps, cap)
    ensures RunSum(After(cfg, accounts, charges, steps).runs, i, Cost) < cfg.maxCostMicros + cap
  {
    if steps != [] {
      var n := |steps| - 1;
      assert AllPriced(steps[..n], cap) by {
        forall k | 0 <= k < n && steps[..n][k].Finish?
          ensures Priced(steps[..n][k].replies, cap)
        {
          assert steps[k].Finish?;
        }
      }
      RecordedSpendBounded(cfg, accounts, charges, steps[..n], cap, i);
      RunKeepsInv(cfg, accounts, charges, steps[..n]);
      SpendStep(cfg, Run(cfg, Start(accounts, charges), steps[..n]), steps[n], cap, i);
    }
  }
}
