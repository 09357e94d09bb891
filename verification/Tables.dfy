/** The rows the four writers share, and the one shape every committed
    transaction has: a new dispute, or one dispute advanced along one edge.

    Row identifiers are positions in their table. */
module Tables {
  import opened Common
  import opened Vocabulary
  import opened Ledger

  datatype ChargeStatus = Captured | PartlyRefunded | FullyRefunded

  datatype Charge = Charge(merchantId: nat, externalId: string, currency: string, amountMinor: int,
                           refundedMinor: int, status: ChargeStatus)

  datatype Dispute = Dispute(merchantId: nat, charge: nat, externalId: string, kind: Kind,
                             reasonCode: string, amountMinor: int, currency: string,
                             state: State, openedAt: int, deadlineAt: int, resolvedAt: Option<int>, version: nat)

  datatype Outcome = Drafted | Rejected | Insufficient | BudgetExceeded | Failed

  datatype Review = Submitted | Discarded

  datatype AgentRun = AgentRun(disputeId: nat, attempt: int, outcome: Outcome, recommended: bool,
                               costMicros: int, review: Option<Review>)

  datatype Actor = System | Worker | Agent | Network | User

  /** `occurredAt` is when the change happened, which need not be when it was
      written: intake stamps with the processor's clock. */
  datatype Event = Event(disputeId: nat, from: Option<State>, to: State, actor: Actor, occurredAt: int)

  /** "dispute.<state>" about one dispute. */
  datatype Message = Message(disputeId: nat, state: State)

  datatype DeliveryStatus = Processed | DeliveryFailed

  datatype Tables = Rows(
    accounts: set<Account>,
    charges: seq<Charge>,
    disputes: seq<Dispute>,
    runs: seq<AgentRun>,
    journals: seq<Journal>,
    events: seq<Event>,
    outbox: seq<Message>,
    webhooks: map<string, DeliveryStatus>)

  /** Why a transaction rolled back. */
  datatype Error =
    | Stale
    | NoStateChange
    | TimestampCheck
    | AmountCheck
    | RunCheck
    | DuplicateRef
    | DuplicateAttempt
    | OverRefund
    | Unbalanced
    | NotReviewable
    | ClaimLost

  datatype Result<+T> = Ok(value: T) | Err(error: Error)

  // ------------------------------------------------------------- lifecycle

  datatype Edge =
    | Hold
    | Release
    | Draft(run: AgentRun)
    | Requeue(run: AgentRun)
    | Submit(runId: nat)
    | Discard(runId: nat)
    | Refund
    | Close
    | Expire
    | Win
    | Lose

  function Target(e: Edge): State {
    match e
    case Hold => Resolving
    case Release => Received
    case Draft(_) => DraftReady
    case Requeue(_) => Received
    case Submit(_) => Represented
    case Discard(_) => Received
    case Refund => Refunded
    case Close => Refunded
    case Expire => Expired
    case Win => Won
    case Lose => Lost
  }

  /** Who writes the audit event, or None for the two moves that write none. */
  function ActorOf(e: Edge): Option<Actor> {
    match e
    case Hold => None
    case Release => None
    case Draft(_) => Some(Agent)
    case Requeue(_) => Some(Agent)
    case Submit(_) => Some(User)
    case Discard(_) => Some(User)
    case Refund => Some(Worker)
    case Close => Some(Worker)
    case Expire => Some(Worker)
    case Win => Some(Network)
    case Lose => Some(Network)
  }

  /** The moves that are announced through the outbox. */
  predicate Announces(a: Actor) {
    a == System || a == Worker || a == Network
  }

  /** The journal an edge posts for a dispute of this kind. */
  function JournalOf(e: Edge, kind: Kind): Option<JournalKind> {
    match e
    case Refund => Some(RefundJournal)
    case Expire => if kind == Chargeback then Some(LossJournal) else None
    case Win => Some(ReleaseJournal)
    case Lose => Some(LossJournal)
    case _ => None
  }

  // ------------------------------------------------------- one transaction

  function MovedRow(d: Dispute, e: Edge, at: int): Dispute {
    d.(state := Target(e), version := d.version + 1,
       resolvedAt := if Terminal(Target(e)) then Some(at) else d.resolvedAt)
  }

  /** disputes_resolved_has_timestamp. */
  predicate TimestampOk(d: Dispute) {
    Terminal(d.state) == d.resolvedAt.Some?
  }

  predicate RefTaken(js: seq<Journal>, ref: Ref) {
    exists i | 0 <= i < |js| :: js[i].ref == ref
  }

  function WithJournal(t: Tables, kind: Option<JournalKind>, entry: Entry): seq<Journal> {
    if kind.None? then t.journals else t.journals + [JournalFor(t.accounts, entry, kind.value)]
  }

  function RefundedCharge(c: Charge, amount: int): Charge {
    c.(refundedMinor := c.refundedMinor + amount,
       status := if c.refundedMinor + amount >= c.amountMinor then FullyRefunded else PartlyRefunded)
  }

  function WithRefund(t: Tables, k: nat, e: Edge, amount: int): seq<Charge>
    requires k < |t.disputes|
  {
    var x := t.disputes[k].charge;
    if e.Refund? && x < |t.charges| then t.charges[x := RefundedCharge(t.charges[x], amount)] else t.charges
  }

  function WithRun(runs: seq<AgentRun>, e: Edge): seq<AgentRun> {
    match e
    case Draft(run) => runs + [run]
    case Requeue(run) => runs + [run]
    case Submit(r) => if r < |runs| then runs[r := runs[r].(review := Some(Submitted))] else runs
    case Discard(r) => if r < |runs| then runs[r := runs[r].(review := Some(Discarded))] else runs
    case _ => runs
  }

  function WithEvent(events: seq<Event>, k: nat, e: Edge, from: State, at: int): seq<Event> {
    if ActorOf(e).None? then events
    else events + [Event(k, Some(from), Target(e), ActorOf(e).value, at)]
  }

  function WithMessage(outbox: seq<Message>, k: nat, e: Edge): seq<Message> {
    if ActorOf(e).Some? && Announces(ActorOf(e).value) then outbox + [Message(k, Target(e))] else outbox
  }

  /** All tables after dispute k took edge e. The writer supplies the
      from-state it believes in and the money it read. */
  function Advance(t: Tables, k: nat, e: Edge, from: State, entry: Entry, at: int): Tables
    requires k < |t.disputes|
  {
    t.(charges := WithRefund(t, k, e, entry.amountMinor),
       disputes := t.disputes[k := MovedRow(t.disputes[k], e, at)],
       runs := WithRun(t.runs, e),
       journals := WithJournal(t, JournalOf(e, t.disputes[k].kind), entry),
       events := WithEvent(t.events, k, e, from, at),
       outbox := WithMessage(t.outbox, k, e))
  }

  /** What stops the statements of an advance before the commit: the timestamp
      CHECK, the unique external_ref or the refund CHECK, in the order the
      statements meet them. */
  function Refusal(t: Tables, k: nat, e: Edge, entry: Entry, at: int): Option<Error>
    requires k < |t.disputes|
  {
    var row := t.disputes[k];
    var kind := JournalOf(e, row.kind);
    if !TimestampOk(MovedRow(row, e, at)) then Some(TimestampCheck)
    else if kind.Some? && RefTaken(t.journals, Ref(entry.disputeId, kind.value)) then Some(DuplicateRef)
    else if e.Refund? && row.charge < |t.charges| &&
            t.charges[row.charge].refundedMinor + entry.amountMinor > t.charges[row.charge].amountMinor
    then Some(OverRefund)
    else None
  }

  /** Advance behind the database's own checks: those of its statements, and
      the balance trigger at the commit. */
  function TryAdvance(t: Tables, k: nat, e: Edge, from: State, entry: Entry, at: int): Result<Tables>
    requires k < |t.disputes|
  {
    var kind := JournalOf(e, t.disputes[k].kind);
    if Refusal(t, k, e, entry, at).Some? then Err(Refusal(t, k, e, entry, at).value)
    else if kind.Some? && !Accepted(JournalFor(t.accounts, entry, kind.value).legs) then Err(Unbalanced)
    else Ok(Advance(t, k, e, from, entry, at))
  }

  /** All tables after a new dispute row was inserted. */
  function Opened(t: Tables, d: Dispute): Tables {
    var k := |t.disputes|;
    t.(disputes := t.disputes + [d],
       journals := if d.kind == Chargeback
                   then t.journals + [JournalFor(t.accounts, EntryOf(k, d), HoldJournal)] else t.journals,
       events := t.events + [Event(k, None, Received, System, d.openedAt)],
       outbox := t.outbox + [Message(k, Received)])
  }

  function EntryOf(k: nat, d: Dispute): Entry {
    Entry(k, d.merchantId, d.amountMinor, d.currency)
  }

  // ----------------------------------------------------------- tallies

  function JournalCount(js: seq<Journal>, ref: Ref): nat {
    if js == [] then 0
    else JournalCount(js[..|js| - 1], ref) + if js[|js| - 1].ref == ref then 1 else 0
  }

  function RunSum(runs: seq<AgentRun>, id: nat, f: AgentRun -> int): int {
    if runs == [] then 0
    else
      var r := runs[|runs| - 1];
      RunSum(runs[..|runs| - 1], id, f) + if r.disputeId == id then f(r) else 0
  }

  function One(r: AgentRun): int { 1 }

  function IsSubmitted(r: AgentRun): int { if r.review == Some(Submitted) then 1 else 0 }

  function IsDiscarded(r: AgentRun): int { if r.review == Some(Discarded) then 1 else 0 }

  function Cost(r: AgentRun): int { r.costMicros }

  function LastTo(events: seq<Event>, id: nat): Option<State> {
    if events == [] then None
    else
      var e := events[|events| - 1];
      if e.disputeId == id then Some(e.to) else LastTo(events[..|events| - 1], id)
  }

  /** What the outbox must hold, read off the audit trail. */
  function Announced(events: seq<Event>): seq<Message> {
    if events == [] then []
    else
      var e := events[|events| - 1];
      Announced(events[..|events| - 1]) + if Announces(e.actor) then [Message(e.disputeId, e.to)] else []
  }

  /** Everything the other tables say about one dispute. */
  datatype Tally = Tally(holds: nat, releases: nat, losses: nat, refunds: nat,
                         attempts: int, submitted: int, discarded: int, spent: int,
                         lastTo: Option<State>)

  const BLANK: Tally := Tally(0, 0, 0, 0, 0, 0, 0, 0, None)

  function TallyOf(t: Tables, i: nat): Tally {
    Tally(
      JournalCount(t.journals, Ref(i, HoldJournal)),
      JournalCount(t.journals, Ref(i, ReleaseJournal)),
      JournalCount(t.journals, Ref(i, LossJournal)),
      JournalCount(t.journals, Ref(i, RefundJournal)),
      RunSum(t.runs, i, One),
      RunSum(t.runs, i, IsSubmitted),
      RunSum(t.runs, i, IsDiscarded),
      RunSum(t.runs, i, Cost),
      LastTo(t.events, i))
  }

  lemma JournalCountSnoc(js: seq<Journal>, j: Journal, ref: Ref)
    ensures JournalCount(js + [j], ref) == JournalCount(js, ref) + if j.ref == ref then 1 else 0
  {
    assert (js + [j])[..|js|] == js;
  }

  lemma {:induction false} JournalCountTaken(js: seq<Journal>, ref: Ref)
    ensures RefTaken(js, ref) <==> JournalCount(js, ref) > 0
  {
    if js != [] {
      var n := |js| - 1;
      JournalCountTaken(js[..n], ref);
      if RefTaken(js, ref) && js[n].ref != ref {
        var i :| 0 <= i < |js| && js[i].ref == ref;
        assert js[..n][i].ref == ref;
      }
      if RefTaken(js[..n], ref) {
        var i :| 0 <= i < n && js[..n][i].ref == ref;
        assert js[i].ref == ref;
      }
    }
  }

  lemma RunSumSnoc(runs: seq<AgentRun>, r: AgentRun, id: nat, f: AgentRun -> int)
    ensures RunSum(runs + [r], id, f) == RunSum(runs, id, f) + if r.disputeId == id then f(r) else 0
  {
    assert (runs + [r])[..|runs|] == runs;
  }

  lemma {:induction false} RunSumUpdate(runs: seq<AgentRun>, k: nat, r: AgentRun, id: nat, f: AgentRun -> int)
    requires k < |runs| && r.disputeId == runs[k].disputeId
    ensures RunSum(runs[k := r], id, f) ==
            RunSum(runs, id, f) + if r.disputeId == id then f(r) - f(runs[k]) else 0
  {
    var n := |runs| - 1;
    if k == n {
      assert runs[k := r][..n] == runs[..n];
    } else {
      assert runs[k := r][..n] == runs[..n][k := r];
      RunSumUpdate(runs[..n], k, r, id, f);
    }
  }

  lemma LastToSnoc(events: seq<Event>, e: Event, id: nat)
    ensures LastTo(events + [e], id) == if e.disputeId == id then Some(e.to) else LastTo(events, id)
  {
    assert (events + [e])[..|events|] == events;
  }

  lemma AnnouncedSnoc(events: seq<Event>, e: Event)
    ensures Announced(events + [e]) ==
            Announced(events) + if Announces(e.actor) then [Message(e.disputeId, e.to)] else []
  {
    assert (events + [e])[..|events|] == events;
  }
}
