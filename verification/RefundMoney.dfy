/** Refunds in money rather than in minor units. Intake links an event to a charge
    by merchant and reference and does not compare their currencies
    (internal/ingest/store.go), and the refund total of a charge is a bare number
    (internal/worker/store.go). */
module RefundMoney {
  import opened Common
  import opened Vocabulary
  import opened Ledger
  import opened Tables
  import opened Lifecycle
  import opened Invariant
  import opened System
  import IngestStore
  import WorkerRules
  import WorkerStore
  import Assist

  /** What the disputes of one currency refunded on a charge. */
  ghost function SharesIn(t: Tables, x: nat, currency: string): nat -> int {
    (i: nat) =>
      if i < |t.disputes| && t.disputes[i].currency == currency then RefundShare(ViewOf(t, i), x) else 0
  }

  /** The total of the charge is what was refunded on it in its own currency,
      and nothing was refunded on it in any other. */
  ghost predicate ConservedInMoney(t: Tables, x: nat)
    requires x < |t.charges|
  {
    forall currency ::
      SumTo(|t.disputes|, SharesIn(t, x, currency)) ==
      if currency == t.charges[x].currency then t.charges[x].refundedMinor else 0
  }

  predicate RefundedOn(t: Tables, i: nat, x: nat) {
    i < |t.disputes| && t.disputes[i].charge == x && JournalCount(t.journals, Ref(i, RefundJournal)) > 0
  }

  ghost predicate RefundsMatch(t: Tables, x: nat)
    requires x < |t.charges|
  {
    forall i: nat | RefundedOn(t, i, x) :: t.disputes[i].currency == t.charges[x].currency
  }

  lemma ShareIsPositiveIff(m: int, t: Tables, i: nat, x: nat, currency: string)
    requires RowsGood(m, t) && i < |t.disputes|
    ensures var share := SharesIn(t, x, currency)(i);
            share >= 0 && (share > 0 <==> RefundedOn(t, i, x) && t.disputes[i].currency == currency)
  {
    assert Good(m, ViewOf(t, i));
  }

  lemma MoneyIff(m: int, t: Tables, x: nat)
    requires Inv(m, t) && x < |t.charges|
    ensures ConservedInMoney(t, x) <==> RefundsMatch(t, x)
  {
    if RefundsMatch(t, x) {
      forall currency
        ensures SumTo(|t.disputes|, SharesIn(t, x, currency)) ==
                if currency == t.charges[x].currency then t.charges[x].refundedMinor else 0
      {
        MatchingSum(m, t, x, currency);
      }
    } else {
      var i: nat :| RefundedOn(t, i, x) && t.disputes[i].currency != t.charges[x].currency;
      forall k: nat | k < |t.disputes|
        ensures SharesIn(t, x, t.disputes[i].currency)(k) >= 0
      {
        ShareIsPositiveIff(m, t, k, x, t.disputes[i].currency);
      }
      ShareIsPositiveIff(m, t, i, x, t.disputes[i].currency);
      SumNonNegative(|t.disputes|, SharesIn(t, x, t.disputes[i].currency));
    }
  }

  lemma MatchingSum(m: int, t: Tables, x: nat, currency: string)
    requires Inv(m, t) && x < |t.charges| && RefundsMatch(t, x)
    ensures SumTo(|t.disputes|, SharesIn(t, x, currency)) ==
            if currency == t.charges[x].currency then t.charges[x].refundedMinor else 0
  {
    var f := SharesIn(t, x, currency);
    forall i: nat | i < |t.disputes|
      ensures f(i) == if currency == t.charges[x].currency then RefundShares(t, x)(i) else 0
    {
      ShareIsPositiveIff(m, t, i, x, currency);
      ShareIsPositiveIff(m, t, i, x, t.disputes[i].currency);
    }
    if currency == t.charges[x].currency {
      SumSame(|t.disputes|, f, RefundShares(t, x));
    } else {
      SumNonNegative(|t.disputes|, f);
    }
  }

  /** After every run, the refund total of a charge is conserved in money if and
      only if every dispute refunded on it is in its currency. */
  lemma RefundsAreMoneyIff(cfg: Assist.Config, accounts: set<Account>, charges: seq<Charge>, steps: seq<Step>, x: nat)
    requires cfg.maxAttempts >= 1 && ChargesFresh(charges)
    ensures var t := After(cfg, accounts, charges, steps);
            x < |t.charges| ==> (ConservedInMoney(t, x) <==> RefundsMatch(t, x))
  {
    RunKeepsInv(cfg, accounts, charges, steps);
    var t := After(cfg, accounts, charges, steps);
    if x < |t.charges| {
      MoneyIff(cfg.maxAttempts, t, x);
    }
  }

  // --------------------------------------------- 5,000 yen on 60 dollars

  const SOLD: seq<Charge> := [Charge(0, "c", "USD", 6000, 0, Captured)]

  const YEN: IngestStore.OpenedEvent :=
    IngestStore.OpenedEvent("e", "d", "c", Alert, "10.4", 5000, "JPY", 0, 1000)

  function Row(): Dispute { IngestStore.NewRow(0, 0, YEN) }

  function Snapshot(): WorkerStore.Loaded { WorkerStore.Loaded(0, Row(), Some(5000), 6000) }

  function Steps(): seq<Step> { [Deliver(0, YEN), TakeSnapshot(0, Some(5000)), Apply(Snapshot(), 1, 1)] }

  lemma Arrives(cfg: Assist.Config, accounts: set<Account>)
    requires cfg.maxAttempts >= 1
    ensures var s := Next(cfg, Start(accounts, SOLD), Steps()[0]);
            && s.t.disputes == [Row()] && s.t.charges == SOLD && s.t.accounts == accounts
            && s.t.journals == []
  {
    assert IngestStore.FindCharge(SOLD, 0, "c").Some?;
  }

  lemma Loads(cfg: Assist.Config, s: Sys)
    requires s.t.disputes == [Row()] && s.t.charges == SOLD
    ensures var z := Next(cfg, s, Steps()[1]); z.t == s.t && Snapshot() in z.snapshots
  {
    assert WorkerStore.Load(s.t, 0, Some(5000)) == Snapshot();
  }

  lemma RefundLands(m: int, t: Tables)
    requires RowsGood(m, t) && WorkerStore.SnapshotOk(t, Snapshot()) && t.disputes == [Row()] && t.charges == SOLD
    requires Ledger.Accepted(JournalFor(t.accounts, EntryOf(0, Row()), RefundJournal).legs)
    ensures WorkerRules.Decide(WorkerStore.CandidateOf(Snapshot()), 1).action == WorkerRules.DoRefund
    ensures WorkerStore.Apply(t, Snapshot(), WorkerRules.DoRefund, 1) ==
              Ok(Advance(t, 0, Edge.Refund, Received, EntryOf(0, Row()), 1))
  {
    WorkerStore.DecisionIsLegal(m, t, Snapshot(), 1);
    OnlyMoneyRefuses(m, t, 0, Edge.Refund, Received, EntryOf(0, Row()), 1);
  }

  lemma Refunds(cfg: Assist.Config, s: Sys)
    requires SysInv(cfg, s) && Snapshot() in s.snapshots && s.t.disputes == [Row()] && s.t.charges == SOLD
    requires Ledger.Accepted(JournalFor(s.t.accounts, EntryOf(0, Row()), RefundJournal).legs)
    ensures var t := Next(cfg, s, Steps()[2]).t;
            && |t.disputes| == 1 && t.disputes[0].state == Refunded && t.disputes[0].currency == "JPY" && t.disputes[0].charge == 0
            && t.charges == [Charge(0, "c", "USD", 6000, 5000, PartlyRefunded)]
            && t.journals == s.t.journals + [JournalFor(s.t.accounts, EntryOf(0, Row()), RefundJournal)]
  {
    RefundLands(cfg.maxAttempts, s.t);
  }

  /** An alert of 5,000 yen is refunded on a charge of 60.00 dollars: 5,000 of
      its 6,000 cents count as returned, and no dollar was. */
  lemma YenRefundedOnDollars(cfg: Assist.Config, accounts: set<Account>)
    requires cfg.maxAttempts >= 1
    requires Ledger.Accepted(JournalFor(accounts, EntryOf(0, Row()), RefundJournal).legs)
    ensures var t := After(cfg, accounts, SOLD, Steps());
            && t.charges == [Charge(0, "c", "USD", 6000, 5000, PartlyRefunded)]
            && |t.disputes| == 1 && t.disputes[0].state == Refunded && t.disputes[0].currency == "JPY"
            && !ConservedInMoney(t, 0)
  {
    var s := Start(accounts, SOLD);
    var steps := Steps();
    assert steps == [steps[0], steps[1], steps[2]];
    assert steps[..0] == [] && steps[..1] == [steps[0]] && steps[..2][..1] == steps[..1] && steps[..1][..0] == [];
    assert Run(cfg, s, steps[..1]) == Next(cfg, s, steps[0]);
    assert Run(cfg, s, steps[..2]) == Next(cfg, Run(cfg, s, steps[..1]), steps[1]);
    Arrives(cfg, accounts);
    Loads(cfg, Run(cfg, s, steps[..1]));
    RunKeepsInv(cfg, accounts, SOLD, steps[..2]);
    Refunds(cfg, Run(cfg, s, steps[..2]));
    var t := After(cfg, accounts, SOLD, steps);
    JournalCountSnoc([], JournalFor(accounts, EntryOf(0, Row()), RefundJournal), Ref(0, RefundJournal));
    assert RefundedOn(t, 0, 0);
    RefundsAreMoneyIff(cfg, accounts, SOLD, steps, 0);
  }
}
