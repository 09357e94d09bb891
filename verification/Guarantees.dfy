/** What the shared tables guarantee after any run of the four writers. */
module Guarantees {
  import opened Common
  import opened Vocabulary
  import opened Ledger
  import opened Tables
  import opened Lifecycle
  import opened Invariant
  import opened System
  import IngestStore
  import AgentStore
  import Assist

  lemma RunSnoc(cfg: Assist.Config, s: Sys, steps: seq<Step>, step: Step)
    ensures Run(cfg, s, steps + [step]) == Next(cfg, Run(cfg, s, steps), step)
  {
    assert (steps + [step])[..|steps|] == steps;
  }

  // ------------------------------------------------------------ money held

  function Held(t: Tables, merchantId: nat, currency: string): int {
    Balance(t.journals, MerchantAccount(merchantId, DisputesPayable, currency))
  }

  predicate Of(d: Dispute, kind: Kind, merchantId: nat, currency: string) {
    d.kind == kind && d.merchantId == merchantId && d.currency == currency
  }

  ghost function OpenAmounts(t: Tables, merchantId: nat, currency: string): nat -> int {
    (i: nat) =>
      if i < |t.disputes| && Of(t.disputes[i], Chargeback, merchantId, currency) && Holding(t.disputes[i].state)
      then t.disputes[i].amountMinor else 0
  }

  /** The sum of the chargebacks still awaiting an outcome. */
  ghost function OpenSum(t: Tables, merchantId: nat, currency: string): int {
    SumTo(|t.disputes|, OpenAmounts(t, merchantId, currency))
  }

  predicate Ruled(s: State) {
    s == Won || s == Lost
  }

  ghost function RuledAlertAmounts(t: Tables, merchantId: nat, currency: string): nat -> int {
    (i: nat) =>
      if i < |t.disputes| && Of(t.disputes[i], Alert, merchantId, currency) && Ruled(t.disputes[i].state)
      then t.disputes[i].amountMinor else 0
  }

  ghost predicate NoRuledAlert(t: Tables, merchantId: nat, currency: string) {
    forall i: nat | i < |t.disputes| && Of(t.disputes[i], Alert, merchantId, currency) ::
      !Ruled(t.disputes[i].state)
  }

  lemma {:induction false} SumSplits(n: nat, f: nat -> int, g: nat -> int, h: nat -> int)
    requires forall i: nat | i < n :: f(i) == g(i) - h(i)
    ensures SumTo(n, f) == SumTo(n, g) - SumTo(n, h)
  {
    if n > 0 {
      SumSplits(n - 1, f, g, h);
    }
  }

  lemma SharesSplit(t: Tables, merchantId: nat, currency: string)
    ensures SumTo(|t.disputes|, Shares(t, MerchantAccount(merchantId, DisputesPayable, currency))) ==
            OpenSum(t, merchantId, currency) - SumTo(|t.disputes|, RuledAlertAmounts(t, merchantId, currency))
  {
    var f := Shares(t, MerchantAccount(merchantId, DisputesPayable, currency));
    SumSplits(|t.disputes|, f, OpenAmounts(t, merchantId, currency), RuledAlertAmounts(t, merchantId, currency));
  }

  lemma BalanceOf(m: int, t: Tables, a: Account)
    requires Inv(m, t)
    ensures Balance(t.journals, a) == if a in t.accounts then SumTo(|t.disputes|, Shares(t, a)) else 0
  {
  }

  /** In every reachable state a disputes_payable account that exists holds the
      open chargebacks less the alerts the network has ruled on. */
  lemma HeldMoney(m: int, t: Tables, merchantId: nat, currency: string)
    requires Inv(m, t)
    requires MerchantAccount(merchantId, DisputesPayable, currency) in t.accounts
    ensures Held(t, merchantId, currency) ==
            OpenSum(t, merchantId, currency) - SumTo(|t.disputes|, RuledAlertAmounts(t, merchantId, currency))
    ensures Held(t, merchantId, currency) == OpenSum(t, merchantId, currency) <==> NoRuledAlert(t, merchantId, currency)
  {
    BalanceOf(m, t, MerchantAccount(merchantId, DisputesPayable, currency));
    SharesSplit(t, merchantId, currency);
    RuledAlertsSum(m, t, merchantId, currency);
  }

  lemma RuledAlertsSum(m: int, t: Tables, merchantId: nat, currency: string)
    requires RowsGood(m, t)
    ensures SumTo(|t.disputes|, RuledAlertAmounts(t, merchantId, currency)) == 0 <==> NoRuledAlert(t, merchantId, currency)
  {
    var h := RuledAlertAmounts(t, merchantId, currency);
    forall i: nat | i < |t.disputes|
      ensures h(i) >= 0
      ensures h(i) == 0 <==> !(Of(t.disputes[i], Alert, merchantId, currency) && Ruled(t.disputes[i].state))
    {
      assert Good(m, ViewOf(t, i));
    }
    SumNonNegative(|t.disputes|, h);
  }

  /** A disputes_payable account that does not exist holds nothing; the open
      chargebacks then also sum to nothing, unless the merchant lacks its
      balance account in that currency as well. */
  lemma NothingHeld(m: int, t: Tables, merchantId: nat, currency: string)
    requires Inv(m, t)
    requires MerchantAccount(merchantId, DisputesPayable, currency) !in t.accounts
    ensures Held(t, merchantId, currency) == 0
    ensures MerchantAccount(merchantId, MerchantBalance, currency) in t.accounts ==> OpenSum(t, merchantId, currency) == 0
  {
    if MerchantAccount(merchantId, MerchantBalance, currency) in t.accounts {
      var g := OpenAmounts(t, merchantId, currency);
      forall i: nat | i < |t.disputes|
        ensures g(i) == 0
      {
        assert t.disputes[i].kind == Chargeback ==> Paired(t.accounts, t.disputes[i].merchantId, t.disputes[i].currency);
      }
      SumNonNegative(|t.disputes|, g);
    }
  }

  /** The operator's single-dispute mode is the only step that can take a
      dispute nobody listed. It is harmless unless the id it is given is an
      alert's, which the operator can look up beforehand. */
  predicate NamesAlert(t: Tables, step: Step) {
    step.HoldNamed? && step.id < |t.disputes| && t.disputes[step.id].kind == Alert
  }

  /** No step of the run names an alert that is on file by then. */
  ghost predicate NamesNoAlert(cfg: Assist.Config, accounts: set<Account>, charges: seq<Charge>, steps: seq<Step>) {
    forall i | 0 <= i < |steps| :: !NamesAlert(After(cfg, accounts, charges, steps[..i]), steps[i])
  }

  lemma NamesNoAlertBefore(cfg: Assist.Config, accounts: set<Account>, charges: seq<Charge>, steps: seq<Step>, n: nat)
    requires NamesNoAlert(cfg, accounts, charges, steps) && n <= |steps|
    ensures NamesNoAlert(cfg, accounts, charges, steps[..n])
  {
    forall i | 0 <= i < n
      ensures !NamesAlert(After(cfg, accounts, charges, steps[..n][..i]), steps[..n][i])
    {
      assert steps[..n][..i] == steps[..i];
    }
  }

  ghost predicate AlertsShort(s: Sys) {
    && (forall i: nat | i < |s.t.disputes| && s.t.disputes[i].kind == Alert ::
          s.t.disputes[i].state in {Received, Refunded, Expired})
    && (forall id | id in s.listed :: id < |s.t.disputes| && s.t.disputes[id].kind == Chargeback)
  }

  lemma RowStaysShort(cfg: Assist.Config, s: Sys, step: Step, i: nat)
    requires SysInv(cfg, s) && AlertsShort(s) && !NamesAlert(s.t, step) && i < |s.t.disputes|
    ensures var t := Next(cfg, s, step).t;
            && i < |t.disputes|
            && t.disputes[i].kind == s.t.disputes[i].kind
            && (t.disputes[i].kind == Alert ==> t.disputes[i].state in {Received, Refunded, Expired})
  {
    var ch, u := Explain(cfg, s, step), Next(cfg, s, step).t;
    StepDoes(cfg, s, step);
    ChangeMoves(cfg.maxAttempts, s.t, ch, u, i);
    assert u.disputes[i] == ViewAfter(s.t, ch, i).row;
    if ch.Advancing? && ch.k == i && s.t.disputes[i].kind == Alert {
      WhoTakesWhichEdge(cfg, s, step);
    }
  }

  lemma StepStaysShort(cfg: Assist.Config, s: Sys, step: Step)
    requires SysInv(cfg, s) && AlertsShort(s) && !NamesAlert(s.t, step)
    ensures AlertsShort(Next(cfg, s, step))
  {
    var z := Next(cfg, s, step);
    forall i: nat | i < |z.t.disputes| && z.t.disputes[i].kind == Alert
      ensures z.t.disputes[i].state in {Received, Refunded, Expired}
    {
      if i < |s.t.disputes| {
        RowStaysShort(cfg, s, step, i);
      } else {
        StepDoes(cfg, s, step);
        NewRowsAreReceived(cfg.maxAttempts, s.t, Explain(cfg, s, step), z.t, i);
      }
    }
    forall id | id in z.listed
      ensures id < |z.t.disputes| && z.t.disputes[id].kind == Chargeback
    {
      ListedIsChargeback(cfg, s, step, id);
      RowStaysShort(cfg, s, step, id);
    }
  }

  lemma ListedIsChargeback(cfg: Assist.Config, s: Sys, step: Step, id: nat)
    requires AlertsShort(s) && id in Next(cfg, s, step).listed
    ensures id < |s.t.disputes| && s.t.disputes[id].kind == Chargeback
  {
    if id !in s.listed {
      assert AgentStore.Selectable(s.t, id, cfg.maxAttempts, step.now);
    }
  }

  lemma NewRowsAreReceived(m: int, t: Tables, ch: Change, u: Tables, i: nat)
    requires Does(m, t, ch, u) && |t.disputes| <= i < |u.disputes|
    ensures u.disputes[i].state == Received
  {
  }

  /** As long as nobody names an alert, an alert is answered or expires; it is
      never drafted, submitted or ruled on. */
  lemma {:induction false} AlertsStayShort(cfg: Assist.Config, accounts: set<Account>, charges: seq<Charge>, steps: seq<Step>)
    requires cfg.maxAttempts >= 1 && ChargesFresh(charges) && NamesNoAlert(cfg, accounts, charges, steps)
    ensures AlertsShort(Run(cfg, Start(accounts, charges), steps))
  {
    if steps != [] {
      var n := |steps| - 1;
      NamesNoAlertBefore(cfg, accounts, charges, steps, n);
      AlertsStayShort(cfg, accounts, charges, steps[..n]);
      RunKeepsInv(cfg, accounts, charges, steps[..n]);
      StepStaysShort(cfg, Run(cfg, Start(accounts, charges), steps[..n]), steps[n]);
    }
  }

  lemma {:induction false} AccountsFixed(cfg: Assist.Config, accounts: set<Account>, charges: seq<Charge>, steps: seq<Step>)
    requires cfg.maxAttempts >= 1 && ChargesFresh(charges)
    ensures After(cfg, accounts, charges, steps).accounts == accounts
  {
    if steps != [] {
      var n := |steps| - 1;
      AccountsFixed(cfg, accounts, charges, steps[..n]);
      RunKeepsInv(cfg, accounts, charges, steps[..n]);
      var s := Run(cfg, Start(accounts, charges), steps[..n]);
      StepIsOneTransaction(cfg, s, steps[n]);
      AccountsStand(cfg.maxAttempts, s.t, Next(cfg, s, steps[n]).t);
    }
  }

  predicate HasOwnAccount(accounts: set<Account>, merchantId: nat, currency: string) {
    || MerchantAccount(merchantId, DisputesPayable, currency) in accounts
    || MerchantAccount(merchantId, MerchantBalance, currency) in accounts
  }

  /** Money held equals the chargebacks still open, in every state reached
      without naming an alert, for every merchant with at least one of its two
      accounts in that currency. */
  lemma HeldEqualsOpen(cfg: Assist.Config, accounts: set<Account>, charges: seq<Charge>, steps: seq<Step>,
                       merchantId: nat, currency: string)
    requires cfg.maxAttempts >= 1 && ChargesFresh(charges) && NamesNoAlert(cfg, accounts, charges, steps)
    requires HasOwnAccount(accounts, merchantId, currency)
    ensures var t := After(cfg, accounts, charges, steps);
            Held(t, merchantId, currency) == OpenSum(t, merchantId, currency)
  {
    var t := After(cfg, accounts, charges, steps);
    RunKeepsInv(cfg, accounts, charges, steps);
    AlertsStayShort(cfg, accounts, charges, steps);
    AccountsFixed(cfg, accounts, charges, steps);
    if MerchantAccount(merchantId, DisputesPayable, currency) in accounts {
      HeldMoney(cfg.maxAttempts, t, merchantId, currency);
    } else {
      NothingHeld(cfg.maxAttempts, t, merchantId, currency);
    }
  }

  /** The merchant has a charge an event can refer to. */
  predicate Sells(charges: seq<Charge>, merchantId: nat) {
    exists x | 0 <= x < |charges| :: charges[x].merchantId == merchantId && charges[x].externalId != ""
  }

  function UnitChargeback(chargeRef: string, currency: string): IngestStore.OpenedEvent {
    IngestStore.OpenedEvent("e", "d", chargeRef, Chargeback, "10.4", 1, currency, 0, 1)
  }

  lemma FirstChargebackStands(m: int, t: Tables, merchantId: nat, chargeRef: string, currency: string)
    requires Inv(m, t) && t.disputes == [] && t.webhooks == map[]
    requires IngestStore.FindCharge(t.charges, merchantId, chargeRef).Some?
    requires !HasOwnAccount(t.accounts, merchantId, currency)
    ensures var u := IngestStore.Record(t, merchantId, UnitChargeback(chargeRef, currency)).0;
            && |u.disputes| == 1
            && Of(u.disputes[0], Chargeback, merchantId, currency)
            && u.disputes[0].state == Received && u.disputes[0].amountMinor == 1
  {
    IngestStore.HoldRefusedIff(m, t, merchantId, UnitChargeback(chargeRef, currency));
  }

  /** One chargeback in a currency the merchant has no account in: accepted,
      open, and not held anywhere. */
  lemma UnheldChargeback(cfg: Assist.Config, accounts: set<Account>, charges: seq<Charge>, merchantId: nat, currency: string)
    returns (steps: seq<Step>)
    requires cfg.maxAttempts >= 1 && ChargesFresh(charges) && Sells(charges, merchantId)
    requires IngestStore.IsCurrency(currency)
    requires !HasOwnAccount(accounts, merchantId, currency)
    ensures NamesNoAlert(cfg, accounts, charges, steps)
    ensures var t := After(cfg, accounts, charges, steps);
            Held(t, merchantId, currency) == 0 && OpenSum(t, merchantId, currency) == 1
  {
    var x :| 0 <= x < |charges| && charges[x].merchantId == merchantId && charges[x].externalId != "";
    var step := Deliver(merchantId, UnitChargeback(charges[x].externalId, currency));
    steps := [] + [step];
    var s := Start(accounts, charges);
    RunSnoc(cfg, s, [], step);
    StartOk(cfg, accounts, charges);
    assert IngestStore.FindCharge(charges, merchantId, charges[x].externalId).Some?;
    FirstChargebackStands(cfg.maxAttempts, s.t, merchantId, charges[x].externalId, currency);
    var t := After(cfg, accounts, charges, steps);
    RunKeepsInv(cfg, accounts, charges, steps);
    AccountsFixed(cfg, accounts, charges, steps);
    NothingHeld(cfg.maxAttempts, t, merchantId, currency);
    var g := OpenAmounts(t, merchantId, currency);
    assert SumTo(1, g) == SumTo(0, g) + g(0);
  }

  /** Every dispute on file came in by a valid event: its charge can be
      referred to and its currency is one. */
  ghost predicate Vetted(t: Tables, charges: seq<Charge>) {
    forall i: nat | i < |t.disputes| ::
      Sells(charges, t.disputes[i].merchantId) && IngestStore.IsCurrency(t.disputes[i].currency)
  }

  /** The merchant and reference of a charge never change. */
  ghost predicate SameCharges(t: Tables, charges: seq<Charge>) {
    && |t.charges| == |charges|
    && forall x | 0 <= x < |charges| ::
         t.charges[x].merchantId == charges[x].merchantId && t.charges[x].externalId == charges[x].externalId
  }

  lemma ChangeKeepsCharges(m: int, t: Tables, ch: Change, u: Tables, charges: seq<Charge>)
    requires Does(m, t, ch, u) && SameCharges(t, charges)
    ensures SameCharges(u, charges)
  {
    if ch.Advancing? {
      assert u.charges == WithRefund(t, ch.k, ch.e, ch.entry.amountMinor);
    }
  }

  lemma ChangeKeepsVetted(m: int, t: Tables, ch: Change, u: Tables, charges: seq<Charge>)
    requires Does(m, t, ch, u) && Vetted(t, charges)
    requires ch.Opening? ==> Sells(charges, ch.d.merchantId) && IngestStore.IsCurrency(ch.d.currency)
    ensures Vetted(u, charges)
  {
    if ch.Advancing? {
      assert u.disputes == t.disputes[ch.k := MovedRow(t.disputes[ch.k], ch.e, ch.at)];
    }
  }

  lemma NewRowIsVetted(cfg: Assist.Config, s: Sys, step: Step, charges: seq<Charge>)
    requires SameCharges(s.t, charges) && Explain(cfg, s, step).Opening?
    ensures var d := Explain(cfg, s, step).d;
            Sells(charges, d.merchantId) && IngestStore.IsCurrency(d.currency)
  {
    var x := IngestStore.FindCharge(s.t.charges, step.merchantId, step.event.chargeRef);
    assert IngestStore.ValidOpened(step.event) && x.Some?;
    assert charges[x.value].merchantId == step.merchantId && charges[x.value].externalId != "";
  }

  lemma StepKeepsVetted(cfg: Assist.Config, s: Sys, step: Step, charges: seq<Charge>)
    requires SysInv(cfg, s) && SameCharges(s.t, charges) && Vetted(s.t, charges)
    ensures SameCharges(Next(cfg, s, step).t, charges) && Vetted(Next(cfg, s, step).t, charges)
  {
    var ch, u := Explain(cfg, s, step), Next(cfg, s, step).t;
    StepDoes(cfg, s, step);
    if ch.Opening? {
      NewRowIsVetted(cfg, s, step, charges);
    }
    ChangeKeepsCharges(cfg.maxAttempts, s.t, ch, u, charges);
    ChangeKeepsVetted(cfg.maxAttempts, s.t, ch, u, charges);
  }

  lemma {:induction false} RunKeepsVetted(cfg: Assist.Config, accounts: set<Account>, charges: seq<Charge>, steps: seq<Step>)
    requires cfg.maxAttempts >= 1 && ChargesFresh(charges)
    ensures var t := After(cfg, accounts, charges, steps); SameCharges(t, charges) && Vetted(t, charges)
  {
    if steps != [] {
      var n := |steps| - 1;
      RunKeepsVetted(cfg, accounts, charges, steps[..n]);
      RunKeepsInv(cfg, accounts, charges, steps[..n]);
      StepKeepsVetted(cfg, Run(cfg, Start(accounts, charges), steps[..n]), steps[n], charges);
    }
  }

  lemma NoSalesNoDisputes(m: int, t: Tables, charges: seq<Charge>, merchantId: nat, currency: string)
    requires Inv(m, t) && Vetted(t, charges) && !(Sells(charges, merchantId) && IngestStore.IsCurrency(currency))
    ensures OpenSum(t, merchantId, currency) == 0
  {
    var g := OpenAmounts(t, merchantId, currency);
    forall i: nat | i < |t.disputes|
      ensures g(i) == 0
    {
      assert Sells(charges, t.disputes[i].merchantId) && IngestStore.IsCurrency(t.disputes[i].currency);
    }
    SumNonNegative(|t.disputes|, g);
  }

  /** Exactly when the money invariant is safe from every run that names no
      alert: the merchant has at least one of its two accounts in that currency,
      or no dispute in it can come in at all, because it has no charge that an
      event can refer to or the text is no currency code. */
  lemma HeldEqualsOpenIff(cfg: Assist.Config, accounts: set<Account>, charges: seq<Charge>, merchantId: nat, currency: string)
    requires cfg.maxAttempts >= 1 && ChargesFresh(charges)
    ensures (forall steps | NamesNoAlert(cfg, accounts, charges, steps) ::
               Held(After(cfg, accounts, charges, steps), merchantId, currency) ==
               OpenSum(After(cfg, accounts, charges, steps), merchantId, currency))
            <==> HasOwnAccount(accounts, merchantId, currency) || !(Sells(charges, merchantId) && IngestStore.IsCurrency(currency))
  {
    if HasOwnAccount(accounts, merchantId, currency) {
      forall steps | NamesNoAlert(cfg, accounts, charges, steps)
        ensures Held(After(cfg, accounts, charges, steps), merchantId, currency) ==
                OpenSum(After(cfg, accounts, charges, steps), merchantId, currency)
      {
        HeldEqualsOpen(cfg, accounts, charges, steps, merchantId, currency);
      }
    } else if Sells(charges, merchantId) && IngestStore.IsCurrency(currency) {
      var steps := UnheldChargeback(cfg, accounts, charges, merchantId, currency);
    } else {
      forall steps | NamesNoAlert(cfg, accounts, charges, steps)
        ensures Held(After(cfg, accounts, charges, steps), merchantId, currency) ==
                OpenSum(After(cfg, accounts, charges, steps), merchantId, currency)
      {
        var t := After(cfg, accounts, charges, steps);
        RunKeepsInv(cfg, accounts, charges, steps);
        AccountsFixed(cfg, accounts, charges, steps);
        RunKeepsVetted(cfg, accounts, charges, steps);
        NoSalesNoDisputes(cfg.maxAttempts, t, charges, merchantId, currency);
        NothingHeld(cfg.maxAttempts, t, merchantId, currency);
      }
    }
  }
}
