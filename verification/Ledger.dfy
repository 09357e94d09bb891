/** The chart of accounts, the four journals this platform posts, and what the
    database checks before a journal may commit
    (internal/ledger/postings.go, db/migrations/000002_ledger.up.sql). */
module Ledger {
  import opened Common

  const CHARGEBACK_FEE_MINOR: int := 1500

  datatype AccountKind = MerchantBalance | DisputesPayable | SettlementClearing | FeeRevenue

  /** Platform accounts have no owner. */
  datatype Account = Account(owner: Option<nat>, kind: AccountKind, currency: string)

  datatype Direction = Debit | Credit

  /** One leg as the code states it, before its account is looked up. */
  datatype Posting = Posting(account: AccountKind, merchantScoped: bool, direction: Direction, amountMinor: int)

  /** One leg as the table stores it. */
  datatype Leg = Leg(account: Account, direction: Direction, amountMinor: int)

  datatype Entry = Entry(disputeId: nat, merchantId: nat, amountMinor: int, currency: string)

  datatype JournalKind = HoldJournal | ReleaseJournal | LossJournal | RefundJournal

  /** The idempotency key for money; the module RefText renders it. */
  datatype Ref = Ref(disputeId: nat, kind: JournalKind)

  datatype Journal = Journal(ref: Ref, currency: string, legs: seq<Leg>)

  function MerchantAccount(merchantId: nat, kind: AccountKind, currency: string): Account {
    Account(Some(merchantId), kind, currency)
  }

  function PlatformAccount(kind: AccountKind, currency: string): Account {
    Account(None, kind, currency)
  }

  function Postings(kind: JournalKind, amountMinor: int): seq<Posting> {
    match kind
    case HoldJournal => [
      Posting(MerchantBalance, true, Debit, amountMinor),
      Posting(DisputesPayable, true, Credit, amountMinor)]
    case ReleaseJournal => [
      Posting(DisputesPayable, true, Debit, amountMinor),
      Posting(MerchantBalance, true, Credit, amountMinor)]
    case LossJournal => [
      Posting(DisputesPayable, true, Debit, amountMinor),
      Posting(SettlementClearing, false, Credit, amountMinor),
      Posting(MerchantBalance, true, Debit, CHARGEBACK_FEE_MINOR),
      Posting(FeeRevenue, false, Credit, CHARGEBACK_FEE_MINOR)]
    case RefundJournal => [
      Posting(MerchantBalance, true, Debit, amountMinor),
      Posting(SettlementClearing, false, Credit, amountMinor)]
  }

  function AccountOf(e: Entry, p: Posting): Account {
    Account(if p.merchantScoped then Some(e.merchantId) else None, p.account, e.currency)
  }

  /** The legs that find an account. A leg that finds none inserts nothing. */
  function Kept(accounts: set<Account>, e: Entry, ps: seq<Posting>): seq<Leg> {
    if ps == [] then []
    else
      var p := ps[|ps| - 1];
      Kept(accounts, e, ps[..|ps| - 1]) +
      if AccountOf(e, p) in accounts then [Leg(AccountOf(e, p), p.direction, p.amountMinor)] else []
  }

  function JournalFor(accounts: set<Account>, e: Entry, kind: JournalKind): Journal {
    Journal(Ref(e.disputeId, kind), e.currency, Kept(accounts, e, Postings(kind, e.amountMinor)))
  }

  function Net(legs: seq<Leg>): int {
    if legs == [] then 0
    else
      var l := legs[|legs| - 1];
      Net(legs[..|legs| - 1]) + if l.direction == Debit then l.amountMinor else -l.amountMinor
  }

  /** What the row checks and the deferred balance trigger let through. A
      journal with no legs at all never fires the per-leg trigger. */
  predicate Accepted(legs: seq<Leg>) {
    && (forall i | 0 <= i < |legs| :: legs[i].amountMinor > 0)
    && (legs == [] || (|legs| >= 2 && Net(legs) == 0))
  }

  /** The balance view signs every account so that more means more of what the
      account is for: clearing is debit-normal, the rest credit-normal. */
  function Signed(l: Leg): int {
    if (l.account.kind == SettlementClearing) == (l.direction == Debit)
    then l.amountMinor else -l.amountMinor
  }

  function Effect(legs: seq<Leg>, a: Account): int {
    if legs == [] then 0
    else
      var l := legs[|legs| - 1];
      Effect(legs[..|legs| - 1], a) + if l.account == a then Signed(l) else 0
  }

  function Balance(js: seq<Journal>, a: Account): int {
    if js == [] then 0
    else Balance(js[..|js| - 1], a) + Effect(js[|js| - 1].legs, a)
  }

  /** Whether a merchant has both or neither of its two own accounts. */
  predicate Paired(accounts: set<Account>, merchantId: nat, currency: string) {
    MerchantAccount(merchantId, MerchantBalance, currency) in accounts <==>
    MerchantAccount(merchantId, DisputesPayable, currency) in accounts
  }

  /** What one journal of this kind means for one account, stated per account
      rather than as a list of legs. */
  function Meaning(kind: JournalKind, e: Entry, a: Account): int {
    if a.currency != e.currency then 0
    else if a == MerchantAccount(e.merchantId, MerchantBalance, e.currency) then
      match kind {
        case HoldJournal => -e.amountMinor
        case ReleaseJournal => e.amountMinor
        case LossJournal => -CHARGEBACK_FEE_MINOR
        case RefundJournal => -e.amountMinor
      }
    else if a == MerchantAccount(e.merchantId, DisputesPayable, e.currency) then
      match kind {
        case HoldJournal => e.amountMinor
        case ReleaseJournal => -e.amountMinor
        case LossJournal => -e.amountMinor
        case RefundJournal => 0
      }
    else if a == PlatformAccount(SettlementClearing, e.currency) then
      match kind {
        case HoldJournal => 0
        case ReleaseJournal => 0
        case LossJournal => -e.amountMinor
        case RefundJournal => -e.amountMinor
      }
    else if a == PlatformAccount(FeeRevenue, e.currency) then
      (if kind == LossJournal then CHARGEBACK_FEE_MINOR else 0)
    else 0
  }

  // ------------------------------------------------------------------ lemmas

  lemma KeptSnoc(accounts: set<Account>, e: Entry, ps: seq<Posting>, p: Posting)
    ensures Kept(accounts, e, ps + [p]) ==
            Kept(accounts, e, ps) +
            if AccountOf(e, p) in accounts then [Leg(AccountOf(e, p), p.direction, p.amountMinor)] else []
  {
    assert (ps + [p])[..|ps|] == ps;
  }

  lemma EffectSnoc(legs: seq<Leg>, l: Leg, a: Account)
    ensures Effect(legs + [l], a) == Effect(legs, a) + if l.account == a then Signed(l) else 0
  {
    assert (legs + [l])[..|legs|] == legs;
  }

  lemma NetSnoc(legs: seq<Leg>, l: Leg)
    ensures Net(legs + [l]) == Net(legs) + if l.direction == Debit then l.amountMinor else -l.amountMinor
  {
    assert (legs + [l])[..|legs|] == legs;
  }

  lemma BalanceSnoc(js: seq<Journal>, j: Journal, a: Account)
    ensures Balance(js + [j], a) == Balance(js, a) + Effect(j.legs, a)
  {
    assert (js + [j])[..|js|] == js;
  }

  /** The signed effect of a list of postings on an account, before lookup. */
  ghost function Stated(e: Entry, ps: seq<Posting>, a: Account): int {
    if ps == [] then 0
    else
      var p := ps[|ps| - 1];
      Stated(e, ps[..|ps| - 1], a) +
      if AccountOf(e, p) == a then Signed(Leg(a, p.direction, p.amountMinor)) else 0
  }

  lemma {:induction false} KeptEffect(accounts: set<Account>, e: Entry, ps: seq<Posting>, a: Account)
    ensures Effect(Kept(accounts, e, ps), a) == if a in accounts then Stated(e, ps, a) else 0
  {
    if ps != [] {
      var p := ps[|ps| - 1];
      KeptEffect(accounts, e, ps[..|ps| - 1], a);
      if AccountOf(e, p) in accounts {
        EffectSnoc(Kept(accounts, e, ps[..|ps| - 1]), Leg(AccountOf(e, p), p.direction, p.amountMinor), a);
      } else {
        assert Kept(accounts, e, ps) == Kept(accounts, e, ps[..|ps| - 1]);
      }
    }
  }

  lemma StatedSnoc(e: Entry, ps: seq<Posting>, p: Posting, a: Account)
    ensures Stated(e, ps + [p], a) ==
            Stated(e, ps, a) + if AccountOf(e, p) == a then Signed(Leg(a, p.direction, p.amountMinor)) else 0
  {
    assert (ps + [p])[..|ps|] == ps;
  }

  /** What one posting states about an account. */
  function Says(e: Entry, p: Posting, a: Account): int {
    if AccountOf(e, p) == a then Signed(Leg(a, p.direction, p.amountMinor)) else 0
  }

  lemma StatedTwo(e: Entry, p: Posting, q: Posting, a: Account)
    ensures Stated(e, [p, q], a) == Says(e, p, a) + Says(e, q, a)
  {
    assert [p, q] == [p] + [q] && [p] == [] + [p];
    StatedSnoc(e, [], p, a);
    StatedSnoc(e, [p], q, a);
  }

  lemma StatedFour(e: Entry, p: Posting, q: Posting, r: Posting, s: Posting, a: Account)
    ensures Stated(e, [p, q, r, s], a) == Says(e, p, a) + Says(e, q, a) + Says(e, r, a) + Says(e, s, a)
  {
    assert [p, q, r, s] == [p, q, r] + [s] && [p, q, r] == [p, q] + [r];
    StatedTwo(e, p, q, a);
    StatedSnoc(e, [p, q], r, a);
    StatedSnoc(e, [p, q, r], s, a);
  }

  lemma StatedMeaning(kind: JournalKind, e: Entry, a: Account)
    ensures Stated(e, Postings(kind, e.amountMinor), a) == Meaning(kind, e, a)
  {
    var ps := Postings(kind, e.amountMinor);
    if kind == LossJournal {
      assert ps == [ps[0], ps[1], ps[2], ps[3]];
      StatedFour(e, ps[0], ps[1], ps[2], ps[3], a);
    } else {
      assert ps == [ps[0], ps[1]];
      StatedTwo(e, ps[0], ps[1], a);
    }
  }

  /** An account that exists receives the whole of what a journal means for it,
      whichever other accounts are missing; one that does not exist receives
      nothing. */
  lemma JournalEffect(accounts: set<Account>, e: Entry, kind: JournalKind, a: Account)
    ensures Effect(JournalFor(accounts, e, kind).legs, a) ==
            if a in accounts then Meaning(kind, e, a) else 0
  {
    KeptEffect(accounts, e, Postings(kind, e.amountMinor), a);
    StatedMeaning(kind, e, a);
  }

  lemma KeptTwo(accounts: set<Account>, e: Entry, p: Posting, q: Posting)
    ensures var kp := if AccountOf(e, p) in accounts then [Leg(AccountOf(e, p), p.direction, p.amountMinor)] else [];
            var kq := if AccountOf(e, q) in accounts then [Leg(AccountOf(e, q), q.direction, q.amountMinor)] else [];
            Kept(accounts, e, [p, q]) == kp + kq
  {
    assert [p, q] == [p] + [q] && [p] == [] + [p];
    KeptSnoc(accounts, e, [p], q);
    KeptSnoc(accounts, e, [], p);
  }

  lemma NetOne(l: Leg)
    ensures Net([l]) == if l.direction == Debit then l.amountMinor else -l.amountMinor
  {
    assert [l] == [] + [l];
    NetSnoc([], l);
  }

  lemma NetTwo(l: Leg, m: Leg)
    ensures Net([l, m]) == Net([l]) + Net([m])
  {
    NetOne(l);
    NetOne(m);
    assert [l, m] == [l] + [m];
    NetSnoc([l], m);
  }

  /** A two-leg journal is accepted exactly when both of its accounts exist or
      neither does. */
  lemma TwoLegsAccepted(accounts: set<Account>, e: Entry, kind: JournalKind)
    requires kind != LossJournal && e.amountMinor > 0
    ensures var ps := Postings(kind, e.amountMinor);
            var legs := JournalFor(accounts, e, kind).legs;
            && (Accepted(legs) <==> (AccountOf(e, ps[0]) in accounts <==> AccountOf(e, ps[1]) in accounts))
            && (Accepted(legs) ==> legs == [] || |legs| == 2)
  {
    var ps := Postings(kind, e.amountMinor);
    assert ps == [ps[0], ps[1]];
    KeptTwo(accounts, e, ps[0], ps[1]);
    var l := Leg(AccountOf(e, ps[0]), ps[0].direction, ps[0].amountMinor);
    var m := Leg(AccountOf(e, ps[1]), ps[1].direction, ps[1].amountMinor);
    NetTwo(l, m);
    NetOne(l);
    NetOne(m);
  }

  lemma {:induction false} NetAppend(xs: seq<Leg>, ys: seq<Leg>)
    ensures Net(xs + ys) == Net(xs) + Net(ys)
  {
    if ys == [] {
      assert xs + ys == xs;
    } else {
      var n := |ys| - 1;
      NetAppend(xs, ys[..n]);
      assert xs + ys == (xs + ys[..n]) + [ys[n]];
      NetSnoc(xs + ys[..n], ys[n]);
    }
  }

  /** The leg of one posting, if its account exists. */
  function Found(accounts: set<Account>, e: Entry, p: Posting): seq<Leg> {
    if AccountOf(e, p) in accounts then [Leg(AccountOf(e, p), p.direction, p.amountMinor)] else []
  }

  lemma FoundNets(accounts: set<Account>, e: Entry, p: Posting)
    ensures var has, legs := AccountOf(e, p) in accounts, Found(accounts, e, p);
            && |legs| == Count(has)
            && Net(legs) == (if !has then 0 else if p.direction == Debit then p.amountMinor else -p.amountMinor)
            && (forall i | 0 <= i < |legs| :: legs[i].amountMinor == p.amountMinor)
  {
    if AccountOf(e, p) in accounts {
      NetOne(Leg(AccountOf(e, p), p.direction, p.amountMinor));
    }
  }

  /** Two postings of opposite direction and equal amount, looked up. */
  lemma PairNets(accounts: set<Account>, e: Entry, p: Posting, q: Posting)
    requires p.direction == Debit && q.direction == Credit && p.amountMinor == q.amountMinor
    ensures var legs := Found(accounts, e, p) + Found(accounts, e, q);
            var hasP, hasQ := AccountOf(e, p) in accounts, AccountOf(e, q) in accounts;
            && |legs| == Count(hasP) + Count(hasQ)
            && Net(legs) == (if hasP then p.amountMinor else 0) - (if hasQ then p.amountMinor else 0)
            && (forall i | 0 <= i < |legs| :: legs[i].amountMinor == p.amountMinor)
  {
    FoundNets(accounts, e, p);
    FoundNets(accounts, e, q);
    NetAppend(Found(accounts, e, p), Found(accounts, e, q));
  }

  lemma KeptFour(accounts: set<Account>, e: Entry, a: Posting, b: Posting, c: Posting, d: Posting)
    ensures Kept(accounts, e, [a, b, c, d]) ==
            (Found(accounts, e, a) + Found(accounts, e, b)) + (Found(accounts, e, c) + Found(accounts, e, d))
  {
    assert [a, b, c, d] == [a, b, c] + [d] && [a, b, c] == [a, b] + [c] && [a, b] == [a] + [b] && [a] == [] + [a];
    KeptSnoc(accounts, e, [a, b, c], d);
    KeptSnoc(accounts, e, [a, b], c);
    KeptSnoc(accounts, e, [a], b);
    KeptSnoc(accounts, e, [], a);
  }

  /** Which of the four accounts of a loss exist. */
  datatype Standing = Standing(payable: bool, clearing: bool, own: bool, fee: bool)

  function StandingOf(accounts: set<Account>, e: Entry): Standing {
    Standing(MerchantAccount(e.merchantId, DisputesPayable, e.currency) in accounts,
             PlatformAccount(SettlementClearing, e.currency) in accounts,
             MerchantAccount(e.merchantId, MerchantBalance, e.currency) in accounts,
             PlatformAccount(FeeRevenue, e.currency) in accounts)
  }

  function Count(b: bool): nat { if b then 1 else 0 }

  /** The accounts under which the legs of a loss that are inserted balance: the
      principal whole or absent and the fee whole or absent; or, where amount
      and fee happen to be equal, a debit of the one against a credit of the
      other. */
  predicate LossBalances(h: Standing, amountMinor: int) {
    || (h.payable == h.clearing && h.own == h.fee)
    || (amountMinor == CHARGEBACK_FEE_MINOR && h.payable == h.fee && h.own == h.clearing)
  }

  /** Principal and fee apart: the two halves of a loss. */
  lemma LossHalves(accounts: set<Account>, e: Entry) returns (principal: seq<Leg>, fee: seq<Leg>)
    ensures JournalFor(accounts, e, LossJournal).legs == principal + fee
    ensures var h := StandingOf(accounts, e);
            && |principal| == Count(h.payable) + Count(h.clearing) && |fee| == Count(h.own) + Count(h.fee)
            && Net(principal) == (if h.payable then e.amountMinor else 0) - (if h.clearing then e.amountMinor else 0)
            && Net(fee) == (if h.own then CHARGEBACK_FEE_MINOR else 0) - (if h.fee then CHARGEBACK_FEE_MINOR else 0)
    ensures forall i | 0 <= i < |principal| :: principal[i].amountMinor == e.amountMinor
    ensures forall i | 0 <= i < |fee| :: fee[i].amountMinor == CHARGEBACK_FEE_MINOR
  {
    var a := Posting(DisputesPayable, true, Debit, e.amountMinor);
    var b := Posting(SettlementClearing, false, Credit, e.amountMinor);
    var c := Posting(MerchantBalance, true, Debit, CHARGEBACK_FEE_MINOR);
    var d := Posting(FeeRevenue, false, Credit, CHARGEBACK_FEE_MINOR);
    principal, fee := Found(accounts, e, a) + Found(accounts, e, b), Found(accounts, e, c) + Found(accounts, e, d);
    KeptFour(accounts, e, a, b, c, d);
    PairNets(accounts, e, a, b);
    PairNets(accounts, e, c, d);
  }

  /** SettleLoss is accepted exactly under those accounts, for every account set
      and amount; and it then commits in part exactly when the merchant's own
      two accounts are not both there or both missing. */
  lemma LossAcceptedIff(accounts: set<Account>, e: Entry)
    requires e.amountMinor > 0
    ensures var legs, h := JournalFor(accounts, e, LossJournal).legs, StandingOf(accounts, e);
            && (Accepted(legs) <==> LossBalances(h, e.amountMinor))
            && (Accepted(legs) ==> |legs| == if Paired(accounts, e.merchantId, e.currency) then 4 * Count(h.own) else 2)
  {
    var principal, fee := LossHalves(accounts, e);
    NetAppend(principal, fee);
  }

  /** On a merchant whose own two accounts are paired: accepted exactly when all
      four accounts exist or none does. */
  lemma LossAccepted(accounts: set<Account>, e: Entry)
    requires e.amountMinor > 0
    requires Paired(accounts, e.merchantId, e.currency)
    ensures var own := MerchantAccount(e.merchantId, MerchantBalance, e.currency) in accounts;
            var clearing := PlatformAccount(SettlementClearing, e.currency) in accounts;
            var fee := PlatformAccount(FeeRevenue, e.currency) in accounts;
            var legs := JournalFor(accounts, e, LossJournal).legs;
            && (Accepted(legs) <==> (own && clearing && fee) || (!own && !clearing && !fee))
            && (Accepted(legs) ==> legs == [] || |legs| == 4)
  {
    LossAcceptedIff(accounts, e);
  }

  /** Every journal of a held chargeback is committed whole or empty. */
  lemma WholeOrEmpty(accounts: set<Account>, e: Entry, kind: JournalKind)
    requires e.amountMinor > 0
    requires Paired(accounts, e.merchantId, e.currency)
    requires Accepted(JournalFor(accounts, e, kind).legs)
    ensures var n := |JournalFor(accounts, e, kind).legs|;
            n == 0 || n == |Postings(kind, e.amountMinor)|
  {
    if kind == LossJournal {
      LossAccepted(accounts, e);
    } else {
      TwoLegsAccepted(accounts, e, kind);
    }
  }

  /** Without the pairing a loss can commit half of itself: the principal moves
      and the fee is dropped. */
  lemma HalfALoss(e: Entry)
    requires e.amountMinor > 0
    ensures var accounts := {MerchantAccount(e.merchantId, DisputesPayable, e.currency),
                             PlatformAccount(SettlementClearing, e.currency)};
            var legs := JournalFor(accounts, e, LossJournal).legs;
            !Paired(accounts, e.merchantId, e.currency) && Accepted(legs) && |legs| == 2
  {
    LossAcceptedIff({MerchantAccount(e.merchantId, DisputesPayable, e.currency),
                     PlatformAccount(SettlementClearing, e.currency)}, e);
  }
}
