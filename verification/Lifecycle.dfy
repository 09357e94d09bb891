/** The life of one dispute, on its own: a small machine over the row and the
    tally of everything recorded about it. The SQL transactions refine it. */
module Lifecycle {
  import opened Common
  import opened Vocabulary
  import opened Ledger
  import opened Tables

  datatype View = View(row: Dispute, tally: Tally)

  function ViewOf(t: Tables, i: nat): View
    requires i < |t.disputes|
  {
    View(t.disputes[i], TallyOf(t, i))
  }

  /** The graph. Requeue is only taken while attempts remain. */
  predicate Enabled(maxAttempts: int, v: View, e: Edge) {
    var s := v.row.state;
    match e
    case Hold => s == Received
    case Release => s == Resolving
    case Draft(_) => s == Resolving
    case Requeue(_) => s == Resolving && v.tally.attempts + 1 < maxAttempts
    case Submit(_) => s == DraftReady
    case Discard(_) => s == DraftReady
    case Refund => (s == Received || s == Resolving) && v.row.kind == Alert
    case Close => (s == Received || s == Resolving) && v.row.kind == Alert
    case Expire => OnTheClock(s)
    case Win => s == Represented
    case Lose => s == Represented
  }

  function Bump(y: Tally, kind: Option<JournalKind>): Tally {
    match kind
    case None => y
    case Some(HoldJournal) => y.(holds := y.holds + 1)
    case Some(ReleaseJournal) => y.(releases := y.releases + 1)
    case Some(LossJournal) => y.(losses := y.losses + 1)
    case Some(RefundJournal) => y.(refunds := y.refunds + 1)
  }

  function Ran(y: Tally, e: Edge): Tally {
    match e
    case Draft(run) => y.(attempts := y.attempts + 1, spent := y.spent + run.costMicros)
    case Requeue(run) => y.(attempts := y.attempts + 1, spent := y.spent + run.costMicros)
    case Submit(_) => y.(submitted := y.submitted + 1)
    case Discard(_) => y.(discarded := y.discarded + 1)
    case _ => y
  }

  function Fire(v: View, e: Edge, at: int): View {
    var y := Ran(Bump(v.tally, JournalOf(e, v.row.kind)), e);
    View(MovedRow(v.row, e, at),
         if ActorOf(e).Some? then y.(lastTo := Some(Target(e))) else y)
  }

  function Born(d: Dispute): View {
    View(d, BLANK.(holds := if d.kind == Chargeback then 1 else 0, lastTo := Some(Received)))
  }

  function Indicator(b: bool): nat { if b then 1 else 0 }

  /** What holds of every dispute in every reachable state. */
  predicate Good(maxAttempts: int, v: View) {
    var d, y := v.row, v.tally;
    && d.amountMinor > 0
    && TimestampOk(d)
    && y.holds == Indicator(d.kind == Chargeback)
    && y.releases == Indicator(d.state == Won)
    && y.losses == Indicator(d.state == Lost || (d.state == Expired && d.kind == Chargeback))
    && y.refunds <= Indicator(d.state == Refunded)
    && (d.state == Refunded ==> d.kind == Alert)
    && y.submitted == Indicator(d.state == Represented || d.state == Won || d.state == Lost)
    && y.discarded >= 0
    && y.attempts >= 0
    && y.spent >= 0
    && (d.state == DraftReady ==> y.attempts >= 1)
    && (y.attempts >= maxAttempts && (d.state == Received || d.state == Resolving) ==> y.discarded >= 1)
    && y.lastTo == Some(if d.state == Resolving then Received else d.state)
  }

  /** What the dispute's own refund journal returned, if it has one. */
  function Returned(v: View): int {
    if v.tally.refunds == 0 then 0 else v.row.amountMinor
  }

  /** The share of an account's balance that one dispute explains. */
  function Share(a: Account, v: View): int {
    var d, y := v.row, v.tally;
    if a.currency != d.currency then 0
    else if a == MerchantAccount(d.merchantId, DisputesPayable, d.currency) then
      if d.kind == Chargeback then (if Holding(d.state) then d.amountMinor else 0)
      else (if d.state == Won || d.state == Lost then -d.amountMinor else 0)
    else if a == MerchantAccount(d.merchantId, MerchantBalance, d.currency) then
      if d.kind == Chargeback then
        (if Holding(d.state) then -d.amountMinor
         else if d.state == Won then 0
         else -(d.amountMinor + CHARGEBACK_FEE_MINOR))
      else
        (if d.state == Won then d.amountMinor
         else if d.state == Lost then -CHARGEBACK_FEE_MINOR
         else -Returned(v))
    else if a == PlatformAccount(SettlementClearing, d.currency) then
      if d.state == Lost || (d.state == Expired && d.kind == Chargeback) then -d.amountMinor
      else -Returned(v)
    else if a == PlatformAccount(FeeRevenue, d.currency) then
      if d.state == Lost || (d.state == Expired && d.kind == Chargeback) then CHARGEBACK_FEE_MINOR else 0
    else 0
  }

  lemma GoodFire(maxAttempts: int, v: View, e: Edge, at: int)
    requires Good(maxAttempts, v) && Enabled(maxAttempts, v, e)
    requires (e.Draft? || e.Requeue?) ==> e.run.costMicros >= 0
    ensures Good(maxAttempts, Fire(v, e, at))
  {
  }

  lemma GoodBorn(maxAttempts: int, d: Dispute)
    requires maxAttempts >= 1
    requires d.amountMinor > 0 && d.state == Received && d.resolvedAt.None?
    ensures Good(maxAttempts, Born(d))
  {
  }

  /** One edge moves every balance by exactly what its journal means. */
  lemma ShareFire(maxAttempts: int, a: Account, v: View, e: Edge, at: int, k: nat)
    requires Good(maxAttempts, v) && Enabled(maxAttempts, v, e)
    ensures var kind := JournalOf(e, v.row.kind);
            Share(a, Fire(v, e, at)) - Share(a, v) ==
            if kind.Some? then Meaning(kind.value, EntryOf(k, v.row), a) else 0
  {
  }

  lemma ShareBorn(a: Account, d: Dispute, k: nat)
    requires d.state == Received
    ensures Share(a, Born(d)) == if d.kind == Chargeback then Meaning(HoldJournal, EntryOf(k, d), a) else 0
  {
  }

  /** refunded, won, lost and expired are never left. */
  lemma TerminalIsFinal(maxAttempts: int, v: View, e: Edge)
    requires Terminal(v.row.state)
    ensures !Enabled(maxAttempts, v, e)
  {
  }
}
