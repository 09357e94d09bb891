/** The invariant that ties every table to the dispute table, and its
    preservation by the two shapes a committed transaction can have. */
module Invariant {
  import opened Common
  import opened Vocabulary
  import opened Ledger
  import opened Tables
  import opened Lifecycle

  // ----------------------------------------------------------- the parts

  ghost predicate RowsGood(m: int, t: Tables) {
    forall i: nat | i < |t.disputes| :: Good(m, ViewOf(t, i))
  }

  ghost predicate RowsLinked(t: Tables) {
    forall i: nat | i < |t.disputes| ::
      t.disputes[i].charge < |t.charges| &&
      t.charges[t.disputes[i].charge].merchantId == t.disputes[i].merchantId
  }

  /** Nothing is recorded about a dispute that has no row yet. */
  ghost predicate NothingAhead(t: Tables) {
    forall i: nat | i >= |t.disputes| :: TallyOf(t, i) == BLANK
  }

  /** A chargeback exists only where its hold could be posted. */
  ghost predicate HoldsPaired(t: Tables) {
    forall i: nat | i < |t.disputes| && t.disputes[i].kind == Chargeback ::
      Paired(t.accounts, t.disputes[i].merchantId, t.disputes[i].currency)
  }

  /** Every journal is what its dispute's own row says, and was accepted. */
  ghost predicate JournalsExact(t: Tables) {
    forall j | 0 <= j < |t.journals| ::
      var J := t.journals[j];
      && J.ref.disputeId < |t.disputes|
      && J == JournalFor(t.accounts, EntryOf(J.ref.disputeId, t.disputes[J.ref.disputeId]), J.ref.kind)
      && Accepted(J.legs)
  }

  ghost function Shares(t: Tables, a: Account): nat -> int {
    (i: nat) => if i < |t.disputes| then Share(a, ViewOf(t, i)) else 0
  }

  /** The balance of every account that exists is a function of the disputes. */
  ghost predicate BookBalances(t: Tables) {
    forall a | a in t.accounts :: Balance(t.journals, a) == SumTo(|t.disputes|, Shares(t, a))
  }

  /** An account that does not exist never receives a leg. */
  ghost predicate NoStrayLegs(t: Tables) {
    forall a | a !in t.accounts :: Balance(t.journals, a) == 0
  }

  function RefundShare(v: View, x: nat): int {
    if v.row.charge == x then Returned(v) else 0
  }

  ghost function RefundShares(t: Tables, x: nat): nat -> int {
    (i: nat) => if i < |t.disputes| then RefundShare(ViewOf(t, i), x) else 0
  }

  predicate StatusOk(c: Charge) {
    match c.status
    case Captured => c.refundedMinor == 0
    case PartlyRefunded => 0 < c.refundedMinor < c.amountMinor
    case FullyRefunded => c.refundedMinor == c.amountMinor
  }

  /** The refund total of a charge is the refunds posted against it. */
  ghost predicate RefundsConserved(t: Tables) {
    forall x: nat | x < |t.charges| ::
      var c := t.charges[x];
      && c.amountMinor > 0
      && 0 <= c.refundedMinor <= c.amountMinor
      && StatusOk(c)
      && c.refundedMinor == SumTo(|t.disputes|, RefundShares(t, x))
  }

  /** A refunded dispute posted its own refund or sits on an exhausted charge. */
  ghost predicate RefundsBacked(t: Tables) {
    forall i: nat | i < |t.disputes| && t.disputes[i].state == Refunded ::
      || TallyOf(t, i).refunds == 1
      || (t.disputes[i].charge < |t.charges| && t.charges[t.disputes[i].charge].status == FullyRefunded)
  }

  /** An event follows the last one about its dispute; received may be followed
      by a move out of resolving, because taking and dropping a claim write no
      event. */
  predicate Follows(last: Option<State>, from: Option<State>) {
    match from
    case None => last.None?
    case Some(s) => last == Some(s) || (last == Some(Received) && s == Resolving)
  }

  ghost predicate AuditChained(events: seq<Event>) {
    forall k | 0 <= k < |events| :: Follows(LastTo(events[..k], events[k].disputeId), events[k].from)
  }

  /** Each run's attempt is its rank among its dispute's runs: 1, 2, 3, ... */
  ghost predicate AttemptsRanked(runs: seq<AgentRun>) {
    forall r | 0 <= r < |runs| :: runs[r].attempt == 1 + RunSum(runs[..r], runs[r].disputeId, One)
  }

  ghost predicate RunsLinked(t: Tables) {
    forall r | 0 <= r < |t.runs| :: t.runs[r].disputeId < |t.disputes|
  }

  /** disputes_merchant_external_key. */
  ghost predicate KeysUnique(t: Tables) {
    forall i, j | 0 <= i < j < |t.disputes| ::
      !(t.disputes[i].merchantId == t.disputes[j].merchantId && t.disputes[i].externalId == t.disputes[j].externalId)
  }

  ghost predicate Inv(m: int, t: Tables) {
    && m >= 1
    && KeysUnique(t)
    && RowsGood(m, t)
    && RowsLinked(t)
    && NothingAhead(t)
    && HoldsPaired(t)
    && JournalsExact(t)
    && BookBalances(t)
    && NoStrayLegs(t)
    && RefundsConserved(t)
    && RefundsBacked(t)
    && AuditChained(t.events)
    && t.outbox == Announced(t.events)
    && AttemptsRanked(t.runs)
    && RunsLinked(t)
  }

  /** A run that is added or reviewed is this dispute's own, and undecided. */
  predicate RunFits(runs: seq<AgentRun>, k: nat, e: Edge) {
    && (e.Draft? || e.Requeue? ==>
          e.run.disputeId == k && e.run.costMicros >= 0 && e.run.review.None? &&
          e.run.attempt == RunSum(runs, k, One) + 1)
    && (e.Submit? || e.Discard? ==>
          e.runId < |runs| && runs[e.runId].disputeId == k && runs[e.runId].review.None?)
  }

  /** What a writer has to know before it advances dispute k along e. */
  ghost predicate Legal(m: int, t: Tables, k: nat, e: Edge, from: State, entry: Entry) {
    && k < |t.disputes|
    && from == t.disputes[k].state
    && entry == EntryOf(k, t.disputes[k])
    && Enabled(m, ViewOf(t, k), e)
    && RunFits(t.runs, k, e)
    && (e.Close? ==>
          t.disputes[k].charge < |t.charges| &&
          t.charges[t.disputes[k].charge].refundedMinor >= t.charges[t.disputes[k].charge].amountMinor)
  }

  // ------------------------------------------------------------- advancing

  lemma RunAdded(runs: seq<AgentRun>, run: AgentRun, i: nat)
    ensures var hit := run.disputeId == i;
            && RunSum(runs + [run], i, One) == RunSum(runs, i, One) + Indicator(hit)
            && RunSum(runs + [run], i, Cost) == RunSum(runs, i, Cost) + (if hit then run.costMicros else 0)
            && (run.review.None? ==>
                  && RunSum(runs + [run], i, IsSubmitted) == RunSum(runs, i, IsSubmitted)
                  && RunSum(runs + [run], i, IsDiscarded) == RunSum(runs, i, IsDiscarded))
  {
    RunSumSnoc(runs, run, i, One);
    RunSumSnoc(runs, run, i, IsSubmitted);
    RunSumSnoc(runs, run, i, IsDiscarded);
    RunSumSnoc(runs, run, i, Cost);
  }

  lemma RunsAdvance(runs: seq<AgentRun>, k: nat, e: Edge, i: nat)
    requires RunFits(runs, k, e)
    ensures var z := WithRun(runs, e);
            var added := i == k && (e.Draft? || e.Requeue?);
            && RunSum(z, i, One) == RunSum(runs, i, One) + Indicator(added)
            && RunSum(z, i, Cost) == RunSum(runs, i, Cost) + (if added then e.run.costMicros else 0)
            && RunSum(z, i, IsSubmitted) == RunSum(runs, i, IsSubmitted) + Indicator(i == k && e.Submit?)
            && RunSum(z, i, IsDiscarded) == RunSum(runs, i, IsDiscarded) + Indicator(i == k && e.Discard?)
  {
    match e
    case Draft(run) => RunAdded(runs, run, i);
    case Requeue(run) => RunAdded(runs, run, i);
    case Submit(r) => ReviewSums(runs, r, Submitted, i);
    case Discard(r) => ReviewSums(runs, r, Discarded, i);
    case _ =>
  }

  lemma ReviewSums(runs: seq<AgentRun>, r: nat, review: Review, i: nat)
    requires r < |runs| && runs[r].review.None?
    ensures var s := runs[r := runs[r].(review := Some(review))];
            var hit := runs[r].disputeId == i;
            && RunSum(s, i, One) == RunSum(runs, i, One)
            && RunSum(s, i, Cost) == RunSum(runs, i, Cost)
            && RunSum(s, i, IsSubmitted) == RunSum(runs, i, IsSubmitted) + Indicator(hit && review == Submitted)
            && RunSum(s, i, IsDiscarded) == RunSum(runs, i, IsDiscarded) + Indicator(hit && review == Discarded)
  {
    var x := runs[r].(review := Some(review));
    RunSumUpdate(runs, r, x, i, One);
    RunSumUpdate(runs, r, x, i, Cost);
    RunSumUpdate(runs, r, x, i, IsSubmitted);
    RunSumUpdate(runs, r, x, i, IsDiscarded);
  }

  lemma JournalsCounted(t: Tables, kind: Option<JournalKind>, entry: Entry, i: nat)
    ensures var js := WithJournal(t, kind, entry);
            var y := TallyOf(t, i);
            var z := if i == entry.disputeId then Bump(y, kind) else y;
            && JournalCount(js, Ref(i, HoldJournal)) == z.holds
            && JournalCount(js, Ref(i, ReleaseJournal)) == z.releases
            && JournalCount(js, Ref(i, LossJournal)) == z.losses
            && JournalCount(js, Ref(i, RefundJournal)) == z.refunds
  {
    if kind.Some? {
      var j := JournalFor(t.accounts, entry, kind.value);
      JournalCountSnoc(t.journals, j, Ref(i, HoldJournal));
      JournalCountSnoc(t.journals, j, Ref(i, ReleaseJournal));
      JournalCountSnoc(t.journals, j, Ref(i, LossJournal));
      JournalCountSnoc(t.journals, j, Ref(i, RefundJournal));
    }
  }

  lemma EventsAdvance(events: seq<Event>, k: nat, e: Edge, from: State, at: int, i: nat)
    ensures LastTo(WithEvent(events, k, e, from, at), i) ==
            if i == k && ActorOf(e).Some? then Some(Target(e)) else LastTo(events, i)
  {
    if ActorOf(e).Some? {
      LastToSnoc(events, Event(k, Some(from), Target(e), ActorOf(e).value, at), i);
    }
  }

  /** Firing an edge, field by field. */
  lemma FiredFields(v: View, e: Edge, at: int)
    ensures var y, z := v.tally, Fire(v, e, at).tally;
            var b := Bump(y, JournalOf(e, v.row.kind));
            && z.holds == b.holds && z.releases == b.releases && z.losses == b.losses && z.refunds == b.refunds
            && z.attempts == y.attempts + Indicator(e.Draft? || e.Requeue?)
            && z.spent == y.spent + (if e.Draft? || e.Requeue? then e.run.costMicros else 0)
            && z.submitted == y.submitted + Indicator(e.Submit?)
            && z.discarded == y.discarded + Indicator(e.Discard?)
            && z.lastTo == if ActorOf(e).Some? then Some(Target(e)) else y.lastTo
  {
  }

  /** The recounted tables, field by field. */
  lemma CountedFields(m: int, t: Tables, k: nat, e: Edge, from: State, entry: Entry, at: int, i: nat)
    requires Legal(m, t, k, e, from, entry)
    ensures var u := Advance(t, k, e, from, entry, at);
            var y := TallyOf(t, i);
            var b := if i == k then Bump(y, JournalOf(e, t.disputes[k].kind)) else y;
            var added := i == k && (e.Draft? || e.Requeue?);
            && JournalCount(u.journals, Ref(i, HoldJournal)) == b.holds
            && JournalCount(u.journals, Ref(i, ReleaseJournal)) == b.releases
            && JournalCount(u.journals, Ref(i, LossJournal)) == b.losses
            && JournalCount(u.journals, Ref(i, RefundJournal)) == b.refunds
            && RunSum(u.runs, i, One) == y.attempts + Indicator(added)
            && RunSum(u.runs, i, Cost) == y.spent + (if added then e.run.costMicros else 0)
            && RunSum(u.runs, i, IsSubmitted) == y.submitted + Indicator(i == k && e.Submit?)
            && RunSum(u.runs, i, IsDiscarded) == y.discarded + Indicator(i == k && e.Discard?)
            && LastTo(u.events, i) == if i == k && ActorOf(e).Some? then Some(Target(e)) else y.lastTo
  {
    RunsAdvance(t.runs, k, e, i);
    JournalsCounted(t, JournalOf(e, t.disputes[k].kind), entry, i);
    EventsAdvance(t.events, k, e, from, at, i);
  }

  /** The SQL transaction refines the machine: dispute k fires the edge and
      nothing recorded about any other dispute changes. */
  lemma TallyAdvance(m: int, t: Tables, k: nat, e: Edge, from: State, entry: Entry, at: int, i: nat)
    requires Legal(m, t, k, e, from, entry)
    ensures TallyOf(Advance(t, k, e, from, entry, at), i) ==
            if i == k then Fire(ViewOf(t, k), e, at).tally else TallyOf(t, i)
  {
    CountedFields(m, t, k, e, from, entry, at, i);
    FiredFields(ViewOf(t, k), e, at);
  }

  lemma ViewAdvance(m: int, t: Tables, k: nat, e: Edge, from: State, entry: Entry, at: int, i: nat)
    requires Legal(m, t, k, e, from, entry) && i < |t.disputes|
    ensures ViewOf(Advance(t, k, e, from, entry, at), i) ==
            if i == k then Fire(ViewOf(t, k), e, at) else ViewOf(t, i)
  {
    TallyAdvance(m, t, k, e, from, entry, at, i);
  }

  lemma RowsAdvance(m: int, t: Tables, k: nat, e: Edge, from: State, entry: Entry, at: int)
    requires RowsGood(m, t) && Legal(m, t, k, e, from, entry)
    ensures RowsGood(m, Advance(t, k, e, from, entry, at))
  {
    var u := Advance(t, k, e, from, entry, at);
    forall i: nat | i < |u.disputes|
      ensures Good(m, ViewOf(u, i))
    {
      ViewAdvance(m, t, k, e, from, entry, at, i);
      assert Good(m, ViewOf(t, i));
      if i == k {
        GoodFire(m, ViewOf(t, k), e, at);
      }
    }
  }

  lemma LinksAdvance(m: int, t: Tables, k: nat, e: Edge, from: State, entry: Entry, at: int)
    requires RowsLinked(t) && NothingAhead(t) && HoldsPaired(t) && KeysUnique(t)
    requires Legal(m, t, k, e, from, entry)
    ensures var u := Advance(t, k, e, from, entry, at);
            RowsLinked(u) && NothingAhead(u) && HoldsPaired(u) && KeysUnique(u)
  {
    var u := Advance(t, k, e, from, entry, at);
    forall i: nat | i < |t.disputes|
      ensures u.disputes[i].externalId == t.disputes[i].externalId && u.disputes[i].merchantId == t.disputes[i].merchantId
    {
    }
    forall i: nat | i >= |u.disputes|
      ensures TallyOf(u, i) == BLANK
    {
      TallyAdvance(m, t, k, e, from, entry, at, i);
    }
  }

  lemma JournalsAdvance(m: int, t: Tables, k: nat, e: Edge, from: State, entry: Entry, at: int)
    requires JournalsExact(t) && Legal(m, t, k, e, from, entry)
    requires TryAdvance(t, k, e, from, entry, at).Ok?
    ensures var u := Advance(t, k, e, from, entry, at);
            JournalsExact(u)
  {
    var u := Advance(t, k, e, from, entry, at);
    forall j | 0 <= j < |u.journals|
      ensures var J := u.journals[j];
              && J.ref.disputeId < |u.disputes|
              && J == JournalFor(u.accounts, EntryOf(J.ref.disputeId, u.disputes[J.ref.disputeId]), J.ref.kind)
              && Accepted(J.legs)
    {
      if j < |t.journals| {
        assert u.journals[j] == t.journals[j];
      }
    }
  }

  lemma SharesAdvance(m: int, t: Tables, k: nat, e: Edge, from: State, entry: Entry, at: int, a: Account)
    requires Legal(m, t, k, e, from, entry) && Good(m, ViewOf(t, k))
    ensures var kind := JournalOf(e, t.disputes[k].kind);
            SumTo(|t.disputes|, Shares(Advance(t, k, e, from, entry, at), a)) ==
            SumTo(|t.disputes|, Shares(t, a)) + if kind.Some? then Meaning(kind.value, entry, a) else 0
  {
    var f, g := Shares(t, a), Shares(Advance(t, k, e, from, entry, at), a);
    forall i: nat | i < |t.disputes|
      ensures i != k ==> f(i) == g(i)
      ensures i == k ==> f(i) == Share(a, ViewOf(t, k)) && g(i) == Share(a, Fire(ViewOf(t, k), e, at))
    {
      ViewAdvance(m, t, k, e, from, entry, at, i);
    }
    SumChange(|t.disputes|, f, g, k);
    ShareFire(m, a, ViewOf(t, k), e, at, k);
  }

  lemma BalanceAdvance(t: Tables, kind: Option<JournalKind>, entry: Entry, a: Account)
    ensures Balance(WithJournal(t, kind, entry), a) ==
            Balance(t.journals, a) + if kind.Some? && a in t.accounts then Meaning(kind.value, entry, a) else 0
  {
    if kind.Some? {
      BalanceSnoc(t.journals, JournalFor(t.accounts, entry, kind.value), a);
      JournalEffect(t.accounts, entry, kind.value, a);
    }
  }

  lemma BookAdvance(m: int, t: Tables, k: nat, e: Edge, from: State, entry: Entry, at: int)
    requires BookBalances(t) && NoStrayLegs(t)
    requires Legal(m, t, k, e, from, entry) && Good(m, ViewOf(t, k))
    ensures var u := Advance(t, k, e, from, entry, at);
            BookBalances(u) && NoStrayLegs(u)
  {
    var u := Advance(t, k, e, from, entry, at);
    forall a: Account
      ensures a in u.accounts ==> Balance(u.journals, a) == SumTo(|u.disputes|, Shares(u, a))
      ensures a !in u.accounts ==> Balance(u.journals, a) == 0
    {
      BalanceAdvance(t, JournalOf(e, t.disputes[k].kind), entry, a);
      SharesAdvance(m, t, k, e, from, entry, at, a);
    }
  }

  lemma RefundsAdvance(m: int, t: Tables, k: nat, e: Edge, from: State, entry: Entry, at: int)
    requires RowsGood(m, t) && RowsLinked(t) && RefundsConserved(t) && Legal(m, t, k, e, from, entry)
    requires TryAdvance(t, k, e, from, entry, at).Ok?
    ensures RefundsConserved(Advance(t, k, e, from, entry, at))
  {
    var u := Advance(t, k, e, from, entry, at);
    assert Good(m, ViewOf(t, k));
    assert t.charges[t.disputes[k].charge].merchantId == t.disputes[k].merchantId;
    ViewAdvance(m, t, k, e, from, entry, at, k);
    forall x: nat | x < |u.charges|
      ensures var c := u.charges[x];
              && c.amountMinor > 0
              && 0 <= c.refundedMinor <= c.amountMinor
              && StatusOk(c)
              && c.refundedMinor == SumTo(|u.disputes|, RefundShares(u, x))
    {
      assert StatusOk(t.charges[x]);
      RefundSumAdvance(m, t, k, e, from, entry, at, x);
    }
  }

  lemma RefundShareFires(m: int, v: View, e: Edge, at: int, x: nat)
    requires Good(m, v) && Enabled(m, v, e)
    ensures RefundShare(Fire(v, e, at), x) ==
            RefundShare(v, x) + if e.Refund? && v.row.charge == x then v.row.amountMinor else 0
  {
  }

  lemma RefundSumAdvance(m: int, t: Tables, k: nat, e: Edge, from: State, entry: Entry, at: int, x: nat)
    requires Legal(m, t, k, e, from, entry) && Good(m, ViewOf(t, k))
    ensures SumTo(|t.disputes|, RefundShares(Advance(t, k, e, from, entry, at), x)) ==
            SumTo(|t.disputes|, RefundShares(t, x)) +
            if e.Refund? && t.disputes[k].charge == x then entry.amountMinor else 0
  {
    var f, g := RefundShares(t, x), RefundShares(Advance(t, k, e, from, entry, at), x);
    forall i: nat | i < |t.disputes|
      ensures i != k ==> f(i) == g(i)
      ensures i == k ==> f(i) == RefundShare(ViewOf(t, k), x) && g(i) == RefundShare(Fire(ViewOf(t, k), e, at), x)
    {
      ViewAdvance(m, t, k, e, from, entry, at, i);
    }
    SumChange(|t.disputes|, f, g, k);
    RefundShareFires(m, ViewOf(t, k), e, at, x);
  }

  lemma BackingAdvance(m: int, t: Tables, k: nat, e: Edge, from: State, entry: Entry, at: int)
    requires RowsGood(m, t) && RowsLinked(t) && RefundsConserved(t) && RefundsBacked(t) && Legal(m, t, k, e, from, entry)
    requires TryAdvance(t, k, e, from, entry, at).Ok?
    ensures RefundsBacked(Advance(t, k, e, from, entry, at))
  {
    var u := Advance(t, k, e, from, entry, at);
    assert Good(m, ViewOf(t, k));
    forall i: nat | i < |u.disputes| && u.disputes[i].state == Refunded
      ensures || TallyOf(u, i).refunds == 1
              || (u.disputes[i].charge < |u.charges| && u.charges[u.disputes[i].charge].status == FullyRefunded)
    {
      TallyAdvance(m, t, k, e, from, entry, at, i);
      var x := t.disputes[i].charge;
      assert StatusOk(t.charges[t.disputes[k].charge]) && StatusOk(t.charges[x]);
      if i == k {
        assert e == Refund || e == Close;
      } else {
        assert t.disputes[i].state == Refunded;
      }
    }
  }

  lemma AuditAdvance(m: int, t: Tables, k: nat, e: Edge, from: State, entry: Entry, at: int)
    requires RowsGood(m, t) && AuditChained(t.events) && t.outbox == Announced(t.events) && Legal(m, t, k, e, from, entry)
    ensures var u := Advance(t, k, e, from, entry, at);
            AuditChained(u.events) && u.outbox == Announced(u.events)
  {
    assert Good(m, ViewOf(t, k));
    if ActorOf(e).Some? {
      AuditSnoc(t.events, Event(k, Some(from), Target(e), ActorOf(e).value, at));
      AnnouncedSnoc(t.events, Event(k, Some(from), Target(e), ActorOf(e).value, at));
    }
  }

  lemma AuditSnoc(events: seq<Event>, e: Event)
    requires AuditChained(events) && Follows(LastTo(events, e.disputeId), e.from)
    ensures AuditChained(events + [e])
  {
    var s := events + [e];
    forall j | 0 <= j < |s|
      ensures Follows(LastTo(s[..j], s[j].disputeId), s[j].from)
    {
      if j < |events| {
        assert s[..j] == events[..j];
      } else {
        assert s[..j] == events;
      }
    }
  }

  lemma RanksAdvance(m: int, t: Tables, k: nat, e: Edge, from: State, entry: Entry, at: int)
    requires AttemptsRanked(t.runs) && RunsLinked(t) && Legal(m, t, k, e, from, entry)
    ensures var u := Advance(t, k, e, from, entry, at);
            AttemptsRanked(u.runs) && RunsLinked(u)
  {
    match e
    case Draft(run) => RanksSnoc(t.runs, run);
    case Requeue(run) => RanksSnoc(t.runs, run);
    case Submit(r) => RanksReview(t.runs, r, Submitted);
    case Discard(r) => RanksReview(t.runs, r, Discarded);
    case _ =>
  }

  lemma RanksSnoc(runs: seq<AgentRun>, run: AgentRun)
    requires AttemptsRanked(runs) && run.attempt == 1 + RunSum(runs, run.disputeId, One)
    ensures AttemptsRanked(runs + [run])
  {
    var s := runs + [run];
    forall r | 0 <= r < |s|
      ensures s[r].attempt == 1 + RunSum(s[..r], s[r].disputeId, One)
    {
      if r < |runs| {
        assert s[..r] == runs[..r];
      } else {
        assert s[..r] == runs;
      }
    }
  }

  lemma RanksPrefix(runs: seq<AgentRun>, n: nat)
    requires AttemptsRanked(runs) && n <= |runs|
    ensures AttemptsRanked(runs[..n])
  {
    forall r | 0 <= r < n
      ensures runs[..n][r].attempt == 1 + RunSum(runs[..n][..r], runs[..n][r].disputeId, One)
    {
      assert runs[..n][..r] == runs[..r];
    }
  }

  lemma RanksReview(runs: seq<AgentRun>, k: nat, review: Review)
    requires AttemptsRanked(runs) && k < |runs|
    ensures AttemptsRanked(runs[k := runs[k].(review := Some(review))])
  {
    var x := runs[k].(review := Some(review));
    var s := runs[k := x];
    forall r | 0 <= r < |s|
      ensures s[r].attempt == 1 + RunSum(s[..r], s[r].disputeId, One)
    {
      if r <= k {
        assert s[..r] == runs[..r];
      } else {
        assert s[..r] == runs[..r][k := x];
        RunSumUpdate(runs[..r], k, x, s[r].disputeId, One);
      }
    }
  }

  /** Every accepted advance keeps the whole invariant. */
  lemma AdvanceKeepsInv(m: int, t: Tables, k: nat, e: Edge, from: State, entry: Entry, at: int)
    requires Inv(m, t) && Legal(m, t, k, e, from, entry)
    requires TryAdvance(t, k, e, from, entry, at).Ok?
    ensures Inv(m, TryAdvance(t, k, e, from, entry, at).value)
  {
    assert TryAdvance(t, k, e, from, entry, at).value == Advance(t, k, e, from, entry, at);
    RowsAdvance(m, t, k, e, from, entry, at);
    LinksAdvance(m, t, k, e, from, entry, at);
    JournalsAdvance(m, t, k, e, from, entry, at);
    assert Good(m, ViewOf(t, k));
    BookAdvance(m, t, k, e, from, entry, at);
    RefundsAdvance(m, t, k, e, from, entry, at);
    BackingAdvance(m, t, k, e, from, entry, at);
    AuditAdvance(m, t, k, e, from, entry, at);
    RanksAdvance(m, t, k, e, from, entry, at);
  }

  /** On a legal advance the unique external_ref is always free. */
  lemma RefIsFree(m: int, t: Tables, k: nat, e: Edge)
    requires k < |t.disputes| && Good(m, ViewOf(t, k)) && Enabled(m, ViewOf(t, k), e)
    requires JournalOf(e, t.disputes[k].kind).Some?
    ensures !RefTaken(t.journals, Ref(k, JournalOf(e, t.disputes[k].kind).value))
  {
    JournalCountTaken(t.journals, Ref(k, JournalOf(e, t.disputes[k].kind).value));
  }

  /** Whether the refund still fits its charge. */
  predicate Fits(t: Tables, k: nat, e: Edge)
    requires k < |t.disputes|
  {
    var d := t.disputes[k];
    e.Refund? && d.charge < |t.charges| ==>
      t.charges[d.charge].refundedMinor + d.amountMinor <= t.charges[d.charge].amountMinor
  }

  /** Whether the edge's journal passes the balance check. */
  predicate Funded(t: Tables, k: nat, e: Edge)
    requires k < |t.disputes|
  {
    var kind := JournalOf(e, t.disputes[k].kind);
    kind.Some? ==> Accepted(JournalFor(t.accounts, EntryOf(k, t.disputes[k]), kind.value).legs)
  }

  /** The database's own checks never stand in for the state machine: on a
      legal advance the timestamp CHECK and the unique external_ref cannot
      fire. What can still refuse it is the refund CHECK, and a journal whose
      accounts are only partly there. */
  lemma OnlyMoneyRefuses(m: int, t: Tables, k: nat, e: Edge, from: State, entry: Entry, at: int)
    requires RowsGood(m, t) && Legal(m, t, k, e, from, entry)
    ensures TryAdvance(t, k, e, from, entry, at) ==
            if !Fits(t, k, e) then Err(OverRefund)
            else if !Funded(t, k, e) then Err(Unbalanced)
            else Ok(Advance(t, k, e, from, entry, at))
  {
    assert Good(m, ViewOf(t, k));
    if JournalOf(e, t.disputes[k].kind).Some? {
      RefIsFree(m, t, k, e);
    }
  }

  // --------------------------------------------------------------- opening

  ghost predicate Openable(t: Tables, d: Dispute) {
    && d.amountMinor > 0
    && d.state == Received
    && d.resolvedAt.None?
    && d.charge < |t.charges|
    && t.charges[d.charge].merchantId == d.merchantId
    && (forall i | 0 <= i < |t.disputes| ::
          !(t.disputes[i].merchantId == d.merchantId && t.disputes[i].externalId == d.externalId))
    && (d.kind == Chargeback ==> Accepted(JournalFor(t.accounts, EntryOf(|t.disputes|, d), HoldJournal).legs))
  }

  lemma TallyOpened(t: Tables, d: Dispute, i: nat)
    requires NothingAhead(t)
    ensures TallyOf(Opened(t, d), i) == if i == |t.disputes| then Born(d).tally else TallyOf(t, i)
  {
    var k := |t.disputes|;
    assert TallyOf(t, k) == BLANK;
    if d.kind == Chargeback {
      var j := JournalFor(t.accounts, EntryOf(k, d), HoldJournal);
      JournalCountSnoc(t.journals, j, Ref(i, HoldJournal));
      JournalCountSnoc(t.journals, j, Ref(i, ReleaseJournal));
      JournalCountSnoc(t.journals, j, Ref(i, LossJournal));
      JournalCountSnoc(t.journals, j, Ref(i, RefundJournal));
    }
    LastToSnoc(t.events, Event(k, None, Received, System, d.openedAt), i);
  }

  lemma ViewOpened(t: Tables, d: Dispute, i: nat)
    requires NothingAhead(t) && i <= |t.disputes|
    ensures var u := Opened(t, d);
            ViewOf(u, i) == if i == |t.disputes| then Born(d) else ViewOf(t, i)
  {
    TallyOpened(t, d, i);
  }

  lemma RowsOpened(m: int, t: Tables, d: Dispute)
    requires m >= 1 && RowsGood(m, t) && NothingAhead(t) && Openable(t, d)
    ensures RowsGood(m, Opened(t, d)) && NothingAhead(Opened(t, d))
  {
    var u := Opened(t, d);
    forall i: nat | i < |u.disputes|
      ensures Good(m, ViewOf(u, i))
    {
      ViewOpened(t, d, i);
      if i == |t.disputes| {
        GoodBorn(m, d);
      } else {
        assert Good(m, ViewOf(t, i));
      }
    }
    forall i: nat | i >= |u.disputes|
      ensures TallyOf(u, i) == BLANK
    {
      TallyOpened(t, d, i);
    }
  }

  lemma LinksOpened(t: Tables, d: Dispute)
    requires RowsLinked(t) && HoldsPaired(t) && KeysUnique(t) && Openable(t, d)
    ensures var u := Opened(t, d);
            RowsLinked(u) && HoldsPaired(u) && KeysUnique(u)
  {
    if d.kind == Chargeback {
      TwoLegsAccepted(t.accounts, EntryOf(|t.disputes|, d), HoldJournal);
    }
  }

  lemma JournalsOpened(t: Tables, d: Dispute)
    requires JournalsExact(t) && Openable(t, d)
    ensures JournalsExact(Opened(t, d))
  {
    var u := Opened(t, d);
    forall j | 0 <= j < |u.journals|
      ensures var J := u.journals[j];
              && J.ref.disputeId < |u.disputes|
              && J == JournalFor(u.accounts, EntryOf(J.ref.disputeId, u.disputes[J.ref.disputeId]), J.ref.kind)
              && Accepted(J.legs)
    {
      if j < |t.journals| {
        assert u.journals[j] == t.journals[j];
      }
    }
  }

  lemma SharesOpened(t: Tables, d: Dispute, a: Account)
    requires NothingAhead(t) && d.state == Received
    ensures SumTo(|t.disputes| + 1, Shares(Opened(t, d), a)) ==
            SumTo(|t.disputes|, Shares(t, a)) +
            if d.kind == Chargeback then Meaning(HoldJournal, EntryOf(|t.disputes|, d), a) else 0
  {
    var k := |t.disputes|;
    var f, g := Shares(t, a), Shares(Opened(t, d), a);
    forall i: nat | i <= k
      ensures i < k ==> f(i) == g(i)
      ensures i == k ==> g(i) == Share(a, Born(d))
    {
      ViewOpened(t, d, i);
    }
    SumSame(k, f, g);
    ShareBorn(a, d, k);
  }

  lemma BookOpened(t: Tables, d: Dispute)
    requires NothingAhead(t) && BookBalances(t) && NoStrayLegs(t) && d.state == Received
    ensures BookBalances(Opened(t, d)) && NoStrayLegs(Opened(t, d))
  {
    var u := Opened(t, d);
    forall a: Account
      ensures a in u.accounts ==> Balance(u.journals, a) == SumTo(|u.disputes|, Shares(u, a))
      ensures a !in u.accounts ==> Balance(u.journals, a) == 0
    {
      var entry := EntryOf(|t.disputes|, d);
      BalanceAdvance(t, if d.kind == Chargeback then Some(HoldJournal) else None, entry, a);
      SharesOpened(t, d, a);
    }
  }

  lemma RefundSumOpened(t: Tables, d: Dispute, x: nat)
    requires NothingAhead(t)
    ensures SumTo(|t.disputes| + 1, RefundShares(Opened(t, d), x)) == SumTo(|t.disputes|, RefundShares(t, x))
  {
    var k := |t.disputes|;
    var f, g := RefundShares(t, x), RefundShares(Opened(t, d), x);
    forall i: nat | i <= k
      ensures i < k ==> f(i) == g(i)
      ensures i == k ==> g(i) == RefundShare(Born(d), x)
    {
      ViewOpened(t, d, i);
    }
    SumSame(k, f, g);
  }

  lemma RefundsOpened(t: Tables, d: Dispute)
    requires NothingAhead(t) && RefundsConserved(t) && RefundsBacked(t) && d.state == Received
    ensures RefundsConserved(Opened(t, d)) && RefundsBacked(Opened(t, d))
  {
    var u := Opened(t, d);
    forall x: nat | x < |u.charges|
      ensures var c := u.charges[x];
              && c.amountMinor > 0
              && 0 <= c.refundedMinor <= c.amountMinor
              && StatusOk(c)
              && c.refundedMinor == SumTo(|u.disputes|, RefundShares(u, x))
    {
      RefundSumOpened(t, d, x);
      assert StatusOk(t.charges[x]);
    }
    forall i: nat | i < |u.disputes| && u.disputes[i].state == Refunded
      ensures || TallyOf(u, i).refunds == 1
              || (u.disputes[i].charge < |u.charges| && u.charges[u.disputes[i].charge].status == FullyRefunded)
    {
      TallyOpened(t, d, i);
      assert t.disputes[i].state == Refunded;
    }
  }

  /** Opening a dispute keeps the whole invariant. */
  lemma OpenKeepsInv(m: int, t: Tables, d: Dispute)
    requires Inv(m, t) && Openable(t, d)
    ensures Inv(m, Opened(t, d))
  {
    RowsOpened(m, t, d);
    LinksOpened(t, d);
    JournalsOpened(t, d);
    BookOpened(t, d);
    RefundsOpened(t, d);
    var k := |t.disputes|;
    assert TallyOf(t, k) == BLANK;
    AuditSnoc(t.events, Event(k, None, Received, System, d.openedAt));
    AnnouncedSnoc(t.events, Event(k, None, Received, System, d.openedAt));
  }

  // ------------------------------------------------------ one transaction

  /** What a committed transaction did to the tables. */
  datatype Change =
    | Nothing
    | Opening(d: Dispute)
    | Advancing(k: nat, e: Edge, from: State, entry: Entry, at: int)

  /** The delivery log is left out of the comparison. */
  predicate SameBut(t: Tables, u: Tables) {
    t.(webhooks := u.webhooks) == u
  }

  lemma LogKeepsRows(m: int, t: Tables, u: Tables)
    requires RowsGood(m, t) && SameBut(t, u)
    ensures RowsGood(m, u)
  {
    forall i: nat | i < |u.disputes|
      ensures Good(m, ViewOf(u, i))
    {
      assert Good(m, ViewOf(t, i));
    }
  }

  lemma LogKeepsSums(t: Tables, u: Tables)
    requires SameBut(t, u)
    ensures BookBalances(t) ==> BookBalances(u)
    ensures RefundsConserved(t) ==> RefundsConserved(u)
  {
    forall a | a in u.accounts
      ensures SumTo(|u.disputes|, Shares(u, a)) == SumTo(|t.disputes|, Shares(t, a))
    {
      SumSame(|t.disputes|, Shares(t, a), Shares(u, a));
    }
    forall x: nat | x < |u.charges|
      ensures SumTo(|u.disputes|, RefundShares(u, x)) == SumTo(|t.disputes|, RefundShares(t, x))
    {
      SumSame(|t.disputes|, RefundShares(t, x), RefundShares(u, x));
    }
  }

  /** The delivery log is not part of any balance. */
  lemma LogKeepsInv(m: int, t: Tables, u: Tables)
    requires Inv(m, t) && SameBut(t, u)
    ensures Inv(m, u)
  {
    forall i: nat
      ensures TallyOf(u, i) == TallyOf(t, i)
    {
    }
    LogKeepsRows(m, t, u);
    LogKeepsSums(t, u);
  }

  ghost predicate Does(m: int, t: Tables, ch: Change, u: Tables) {
    match ch
    case Nothing => SameBut(t, u)
    case Opening(d) => Openable(t, d) && SameBut(Opened(t, d), u)
    case Advancing(k, e, from, entry, at) =>
      && Legal(m, t, k, e, from, entry)
      && TryAdvance(t, k, e, from, entry, at).Ok?
      && SameBut(Advance(t, k, e, from, entry, at), u)
  }

  /** The refinement: every commit is the birth of one dispute, or one dispute
      taking one edge of the graph, or no change at all. */
  ghost predicate OneTransaction(m: int, t: Tables, u: Tables) {
    exists ch :: Does(m, t, ch, u)
  }

  lemma OpeningKeepsInv(m: int, t: Tables, ch: Change, u: Tables)
    requires Inv(m, t) && Does(m, t, ch, u) && ch.Opening?
    ensures Inv(m, u)
  {
    OpenKeepsInv(m, t, ch.d);
    LogKeepsInv(m, Opened(t, ch.d), u);
  }

  lemma AdvancingKeepsInv(m: int, t: Tables, ch: Change, u: Tables)
    requires Inv(m, t) && Does(m, t, ch, u) && ch.Advancing?
    ensures Inv(m, u)
  {
    AdvanceKeepsInv(m, t, ch.k, ch.e, ch.from, ch.entry, ch.at);
    LogKeepsInv(m, Advance(t, ch.k, ch.e, ch.from, ch.entry, ch.at), u);
  }

  lemma ChangeKeepsInv(m: int, t: Tables, ch: Change, u: Tables)
    requires Inv(m, t) && Does(m, t, ch, u)
    ensures Inv(m, u)
  {
    match ch
    case Nothing => LogKeepsInv(m, t, u);
    case Opening(_) => OpeningKeepsInv(m, t, ch, u);
    case Advancing(_, _, _, _, _) => AdvancingKeepsInv(m, t, ch, u);
  }

  lemma TransactionKeepsInv(m: int, t: Tables, u: Tables)
    requires Inv(m, t) && OneTransaction(m, t, u)
    ensures Inv(m, u)
  {
    var ch :| Does(m, t, ch, u);
    ChangeKeepsInv(m, t, ch, u);
  }

  lemma ViewIgnoresLog(t: Tables, u: Tables, i: nat)
    requires SameBut(t, u) && i < |t.disputes|
    ensures ViewOf(u, i) == ViewOf(t, i)
  {
  }

  /** Dispute i after a change: it fired the edge, or it stands as it was. */
  ghost function ViewAfter(t: Tables, ch: Change, i: nat): View
    requires i < |t.disputes|
  {
    if ch.Advancing? && ch.k == i then Fire(ViewOf(t, i), ch.e, ch.at) else ViewOf(t, i)
  }

  lemma ChangeMoves(m: int, t: Tables, ch: Change, u: Tables, i: nat)
    requires NothingAhead(t) && Does(m, t, ch, u) && i < |t.disputes|
    ensures |t.disputes| <= |u.disputes|
    ensures ViewOf(u, i) == ViewAfter(t, ch, i)
    ensures ch.Advancing? && ch.k == i ==> Enabled(m, ViewOf(t, i), ch.e)
  {
    match ch
    case Nothing =>
      ViewIgnoresLog(t, u, i);
    case Opening(d) =>
      ViewOpened(t, d, i);
      ViewIgnoresLog(Opened(t, d), u, i);
    case Advancing(k, e, from, entry, at) =>
      ViewAdvance(m, t, k, e, from, entry, at, i);
      ViewIgnoresLog(Advance(t, k, e, from, entry, at), u, i);
  }

  /** Each dispute either stands still or fires one enabled edge. */
  ghost predicate StaysOrFires(m: int, v: View, w: View) {
    v == w || exists e, at :: Enabled(m, v, e) && Fire(v, e, at) == w
  }

  /** All committed moves are edges of one graph; terminal states are never
      left; and every move raises the version by one. */
  lemma MovesAreEdges(m: int, t: Tables, u: Tables, i: nat)
    requires Inv(m, t) && OneTransaction(m, t, u) && i < |t.disputes|
    ensures |t.disputes| <= |u.disputes|
    ensures StaysOrFires(m, ViewOf(t, i), ViewOf(u, i))
    ensures Terminal(t.disputes[i].state) ==> ViewOf(u, i) == ViewOf(t, i)
    ensures u.disputes[i] != t.disputes[i] ==> u.disputes[i].version == t.disputes[i].version + 1
  {
    var ch :| Does(m, t, ch, u);
    ChangeMoves(m, t, ch, u, i);
    FiringBumps(m, ViewOf(t, i), ViewOf(u, i));
  }

  lemma FiringBumps(m: int, v: View, w: View)
    requires StaysOrFires(m, v, w)
    ensures Terminal(v.row.state) ==> w == v
    ensures w.row != v.row ==> w.row.version == v.row.version + 1
  {
  }

  /** The trail never lies: an event written by a transaction names the state
      its dispute really left and the state it really entered. */
  lemma EventsTellTheTruth(m: int, t: Tables, u: Tables)
    requires OneTransaction(m, t, u)
    ensures u.events == t.events || (|u.events| == |t.events| + 1 && u.events[..|t.events|] == t.events)
    ensures |u.events| > |t.events| ==>
              var e := u.events[|t.events|];
              && e.disputeId < |u.disputes|
              && e.to == u.disputes[e.disputeId].state
              && e.from == if e.disputeId < |t.disputes| then Some(t.disputes[e.disputeId].state) else None
  {
    var ch :| Does(m, t, ch, u);
    match ch
    case Nothing =>
    case Opening(d) =>
      assert u.events == t.events + [Event(|t.disputes|, None, Received, System, ch.d.openedAt)];
    case Advancing(k, e, from, entry, at) =>
      assert u.events == WithEvent(t.events, k, e, from, at);
      assert u.disputes[k].state == Target(e);
  }

  lemma RefundStep(m: int, t: Tables, ch: Change, u: Tables, x: nat)
    requires RowsGood(m, t) && Does(m, t, ch, u) && x < |t.charges|
    ensures |u.charges| == |t.charges|
    ensures u.charges[x].amountMinor == t.charges[x].amountMinor
    ensures u.charges[x].merchantId == t.charges[x].merchantId
    ensures t.charges[x].refundedMinor <= u.charges[x].refundedMinor
  {
    if ch.Advancing? {
      assert Good(m, ViewOf(t, ch.k));
    }
  }

  lemma AccountsStand(m: int, t: Tables, u: Tables)
    requires OneTransaction(m, t, u)
    ensures u.accounts == t.accounts && |u.charges| == |t.charges|
  {
    var ch :| Does(m, t, ch, u);
  }

  /** The refund total of a charge only grows, and never past the charge. */
  lemma RefundsOnlyGrow(m: int, t: Tables, u: Tables, x: nat)
    requires Inv(m, t) && OneTransaction(m, t, u) && x < |t.charges|
    ensures |u.charges| == |t.charges|
    ensures u.charges[x].amountMinor == t.charges[x].amountMinor
    ensures t.charges[x].refundedMinor <= u.charges[x].refundedMinor <= u.charges[x].amountMinor
  {
    var ch :| Does(m, t, ch, u);
    RefundStep(m, t, ch, u, x);
    TransactionKeepsInv(m, t, u);
    assert StatusOk(u.charges[x]);
  }
}
