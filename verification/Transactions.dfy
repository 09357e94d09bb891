/** The transactions as the services run them, statement by statement, each
    proved to do what its specification says or to leave no trace. */
module Transactions {
  import opened Common
  import opened Vocabulary
  import opened Ledger
  import opened Tables
  import opened Database
  import IngestStore
  import WorkerRules
  import WorkerStore
  import AgentStore
  import ReviewStore

  /** The two statements every recorded move begins with: the guarded UPDATE of
      the dispute and the INSERT of its event. */
  method MoveAndRecord(db: Db, k: nat, e: Edge, from: State, at: int) returns (ok: bool)
    requires k < |db.disputes| && ActorOf(e).Some?
    modifies db`disputes, db`events
    ensures ok == TimestampOk(MovedRow(old(db.disputes)[k], e, at))
    ensures db.disputes == if ok then old(db.disputes)[k := MovedRow(old(db.disputes)[k], e, at)] else old(db.disputes)
    ensures db.events == if ok then WithEvent(old(db.events), k, e, from, at) else old(db.events)
  {
    ok := db.MoveRow(k, e, at);
    if ok {
      db.RecordEvent(Event(k, Some(from), Target(e), ActorOf(e).value, at));
    }
  }

  /** The switch of applyTx: the refund and its total, the loss of an expired
      chargeback, or nothing. */
  method MoveMoney(db: Db, l: WorkerStore.Loaded, action: WorkerRules.Action, e: Edge)
    returns (posted: Option<Journal>, error: Option<Error>)
    requires l.id < |db.disputes| && WorkerStore.EdgeOf(action) == Some(e)
    modifies db`journals, db`charges
    ensures var before := old(db.Contents());
            var kind := JournalOf(e, l.row.kind);
            var entry := EntryOf(l.id, l.row);
            var taken := kind.Some? && RefTaken(before.journals, Ref(l.id, kind.value));
            var x := db.disputes[l.id].charge;
            var over := e.Refund? && x < |before.charges| &&
                        before.charges[x].refundedMinor + l.row.amountMinor > before.charges[x].amountMinor;
            && error == (if taken then Some(DuplicateRef) else if over then Some(OverRefund) else None)
            && (error.None? ==>
                  && db.journals == WithJournal(before, kind, entry)
                  && db.charges == WithRefund(before, l.id, e, l.row.amountMinor)
                  && posted == if kind.Some? then Some(JournalFor(db.accounts, entry, kind.value)) else None)
  {
    var entry := Entry(l.id, l.row.merchantId, l.row.amountMinor, l.row.currency);
    if action == WorkerRules.DoRefund {
      posted := db.WriteJournal(entry, RefundJournal);
      if posted.None? {
        return posted, Some(DuplicateRef);
      }
      var fits := db.AddRefund(l.id, l.row.amountMinor);
      if !fits {
        return posted, Some(OverRefund);
      }
    } else if action == WorkerRules.DoExpire && l.row.kind == Chargeback {
      posted := db.WriteJournal(entry, LossJournal);
      if posted.None? {
        return posted, Some(DuplicateRef);
      }
    } else {
      posted := None;
    }
    return posted, None;
  }

  /** The statements of applyTx between the version check and the commit. */
  method WriteDecision(db: Db, l: WorkerStore.Loaded, action: WorkerRules.Action, e: Edge, at: int)
    returns (posted: Option<Journal>, error: Option<Error>)
    requires l.id < |db.disputes| && WorkerStore.EdgeOf(action) == Some(e)
    requires WorkerStore.SameIdentity(l.row, db.disputes[l.id])
    modifies db
    ensures var t := old(db.Contents());
            var kind := JournalOf(e, l.row.kind);
            var entry := EntryOf(l.id, l.row);
            && error == Refusal(t, l.id, e, entry, at)
            && posted == (if error.None? && kind.Some? then Some(JournalFor(t.accounts, entry, kind.value)) else None)
            && (error.None? ==> db.Contents() == Advance(t, l.id, e, l.row.state, entry, at))
  {
    posted := None;
    var moved := MoveAndRecord(db, l.id, e, l.row.state, at);
    if !moved {
      return posted, Some(TimestampCheck);
    }
    posted, error := MoveMoney(db, l, action, e);
    if error.Some? {
      return None, error;
    }
    db.InsertMessage(Message(l.id, Target(e)));
  }

  /** applyTx (internal/worker/store.go). */
  method ApplyDecision(db: Db, l: WorkerStore.Loaded, action: WorkerRules.Action, at: int) returns (error: Option<Error>)
    requires l.id < |db.disputes| ==> WorkerStore.SameIdentity(l.row, db.disputes[l.id])
    modifies db
    ensures match WorkerStore.Apply(old(db.Contents()), l, action, at) {
              case Ok(t) => db.Contents() == t && error == None
              case Err(e) => db.Contents() == old(db.Contents()) && error == Some(e)
            }
  {
    var before := db.Contents();
    if WorkerStore.EdgeOf(action).None? {
      return Some(NoStateChange);
    }
    var e := WorkerStore.EdgeOf(action).value;
    if l.id >= |db.disputes| || db.disputes[l.id].version != l.row.version {
      return Some(Stale);
    }
    var posted, refused := WriteDecision(db, l, action, e, at);
    if refused.Some? {
      db.Rollback(before);
      return refused;
    }
    if posted.Some? && !Accepted(posted.value.legs) {
      db.Rollback(before);
      return Some(Unbalanced);
    }
    return None;
  }

  /** record (internal/ingest/store.go). */
  method RecordOpened(db: Db, merchantId: nat, ev: IngestStore.OpenedEvent) returns (answer: IngestStore.Answer)
    modifies db
    ensures (db.Contents(), answer) == IngestStore.Record(old(db.Contents()), merchantId, ev)
  {
    var before := db.Contents();
    if ev.id in db.webhooks {
      return IngestStore.Duplicate;
    }
    var x := IngestStore.FindCharge(db.charges, merchantId, ev.chargeRef);
    if x.None? {
      db.webhooks := db.webhooks[ev.id := DeliveryFailed];
      return IngestStore.Unlinkable;
    }
    if ev.amountMinor <= 0 {
      return IngestStore.RolledBack(AmountCheck);
    }
    if IngestStore.OnFile(db.disputes, merchantId, ev.disputeRef) {
      db.webhooks := db.webhooks[ev.id := Processed];
      return IngestStore.Duplicate;
    }
    var k := |db.disputes|;
    db.disputes := db.disputes + [IngestStore.NewRow(merchantId, x.value, ev)];
    var posted: Option<Journal> := None;
    if ev.kind == Chargeback {
      posted := db.WriteJournal(Entry(k, merchantId, ev.amountMinor, ev.currency), HoldJournal);
      if posted.None? {
        db.Rollback(before);
        return IngestStore.RolledBack(DuplicateRef);
      }
    }
    db.RecordEvent(Event(k, None, Received, System, ev.openedAt));
    db.InsertMessage(Message(k, Received));
    db.webhooks := db.webhooks[ev.id := Processed];
    if posted.Some? && !Ledger.Accepted(posted.value.legs) {
      db.Rollback(before);
      return IngestStore.RolledBack(Unbalanced);
    }
    return IngestStore.Recorded(k);
  }

  /** The statements of recordRuling between finding the dispute and the commit. */
  method WriteRuling(db: Db, k: nat, ev: IngestStore.RulingEvent)
    returns (posted: Option<Journal>, error: Option<Error>)
    requires k < |db.disputes|
    modifies db
    ensures var t := old(db.Contents());
            var e := IngestStore.RulingEdge(ev.won);
            var entry := EntryOf(k, t.disputes[k]);
            && db.webhooks == t.webhooks
            && error == Refusal(t, k, e, entry, ev.decidedAt)
            && (error.None? ==>
                  && posted == Some(JournalFor(t.accounts, entry, if ev.won then ReleaseJournal else LossJournal))
                  && db.Contents() == Advance(t, k, e, Represented, entry, ev.decidedAt))
  {
    posted := None;
    var e := IngestStore.RulingEdge(ev.won);
    var d := db.disputes[k];
    var moved := MoveAndRecord(db, k, e, Represented, ev.decidedAt);
    if !moved {
      return posted, Some(TimestampCheck);
    }
    var entry := Entry(k, d.merchantId, d.amountMinor, d.currency);
    if ev.won {
      posted := db.WriteJournal(entry, ReleaseJournal);
    } else {
      posted := db.WriteJournal(entry, LossJournal);
    }
    if posted.None? {
      return posted, Some(DuplicateRef);
    }
    db.InsertMessage(Message(k, Target(e)));
    return posted, None;
  }

  /** recordRuling (internal/ingest/store.go). */
  method RecordRuling(db: Db, merchantId: nat, ev: IngestStore.RulingEvent) returns (answer: IngestStore.Answer)
    modifies db
    ensures (db.Contents(), answer) == IngestStore.RecordRuling(old(db.Contents()), merchantId, ev)
  {
    var before := db.Contents();
    if ev.id in db.webhooks {
      return IngestStore.Duplicate;
    }
    var found := IngestStore.FindRuled(db.disputes, merchantId, ev.disputeRef);
    if found.None? {
      db.webhooks := db.webhooks[ev.id := DeliveryFailed];
      return IngestStore.Unlinkable;
    }
    var posted, refused := WriteRuling(db, found.value, ev);
    if refused.Some? {
      db.Rollback(before);
      return IngestStore.RolledBack(refused.value);
    }
    if !Ledger.Accepted(posted.value.legs) {
      db.Rollback(before);
      return IngestStore.RolledBack(Unbalanced);
    }
    db.webhooks := db.webhooks[ev.id := Processed];
    return IngestStore.Recorded(found.value);
  }

  /** The count and the sum the hold reads for its claim. */
  method TotalRuns(runs: seq<AgentRun>, id: nat) returns (attempts: int, spent: int)
    ensures attempts == RunSum(runs, id, One) && spent == RunSum(runs, id, Cost)
  {
    attempts, spent := 0, 0;
    var i := 0;
    while i < |runs|
      invariant 0 <= i <= |runs|
      invariant attempts == RunSum(runs[..i], id, One)
      invariant spent == RunSum(runs[..i], id, Cost)
    {
      assert runs[..i + 1] == runs[..i] + [runs[i]];
      RunSumSnoc(runs[..i], runs[i], id, One);
      RunSumSnoc(runs[..i], runs[i], id, Cost);
      if runs[i].disputeId == id {
        attempts := attempts + 1;
        spent := spent + runs[i].costMicros;
      }
      i := i + 1;
    }
    assert runs[..|runs|] == runs;
  }

  /** Hold (internal/agent/store.go): the claim reads the run table in the same
      statement that takes the dispute. */
  method HoldDispute(db: Db, id: nat) returns (claim: Result<AgentStore.Claim>)
    modifies db
    ensures match AgentStore.Hold(old(db.Contents()), id) {
              case Ok((t, c)) => db.Contents() == t && claim == Ok(c)
              case Err(e) => db.Contents() == old(db.Contents()) && claim == Err(e)
            }
  {
    if id >= |db.disputes| || db.disputes[id].state != Received {
      return Err(ClaimLost);
    }
    var moved := db.MoveRow(id, Edge.Hold, 0);
    if !moved {
      return Err(TimestampCheck);
    }
    var attempts, spent := TotalRuns(db.runs, id);
    return Ok(AgentStore.Claim(id, db.disputes[id].version, attempts + 1, spent));
  }

  /** Release (internal/agent/store.go). */
  method ReleaseDispute(db: Db, c: AgentStore.Claim) returns (error: Option<Error>)
    modifies db
    ensures match AgentStore.Release(old(db.Contents()), c) {
              case Ok(t) => db.Contents() == t && error == None
              case Err(e) => db.Contents() == old(db.Contents()) && error == Some(e)
            }
  {
    if c.disputeId >= |db.disputes| || db.disputes[c.disputeId].version != c.version {
      return Some(ClaimLost);
    }
    var moved := db.MoveRow(c.disputeId, Edge.Release, 0);
    return if moved then None else Some(TimestampCheck);
  }

  /** Record (internal/agent/store.go): the run is inserted before the version
      is checked, so a lost claim has to take the run back out. */
  method RecordRun(db: Db, c: AgentStore.Claim, run: AgentStore.Run, at: int) returns (error: Option<Error>)
    modifies db
    ensures match AgentStore.Record(old(db.Contents()), c, run, at) {
              case Ok(t) => db.Contents() == t && error == None
              case Err(e) => db.Contents() == old(db.Contents()) && error == Some(e)
            }
  {
    var before := db.Contents();
    var row := AgentStore.RunRow(c, run);
    if !AgentStore.RunRowOk(row) {
      return Some(RunCheck);
    }
    if AgentStore.AttemptTaken(db.runs, c.disputeId, c.attempt) {
      return Some(DuplicateAttempt);
    }
    db.runs := db.runs + [row];
    if c.disputeId >= |db.disputes| || db.disputes[c.disputeId].version != c.version {
      db.Rollback(before);
      return Some(ClaimLost);
    }
    var e := AgentStore.RecordEdge(c, run);
    var moved := MoveAndRecord(db, c.disputeId, e, Resolving, at);
    if !moved {
      db.Rollback(before);
      return Some(TimestampCheck);
    }
    return None;
  }

  /** Decide (internal/api/reviews.go): the run is marked first, and unmarked
      again when the dispute turns out to have moved on. */
  method DecideRun(db: Db, runId: nat, review: Review, now: int) returns (error: Option<Error>)
    modifies db
    ensures match ReviewStore.Decide(old(db.Contents()), runId, review, now) {
              case Ok(t) => db.Contents() == t && error == None
              case Err(e) => db.Contents() == old(db.Contents()) && error == Some(e)
            }
  {
    var before := db.Contents();
    if runId >= |db.runs| || db.runs[runId].review.Some? {
      return Some(NotReviewable);
    }
    db.runs := db.runs[runId := db.runs[runId].(review := Some(review))];
    var k := db.runs[runId].disputeId;
    if k >= |db.disputes| || db.disputes[k].state != DraftReady || db.disputes[k].deadlineAt <= now {
      db.Rollback(before);
      return Some(NotReviewable);
    }
    var e := ReviewStore.ReviewEdge(review, runId);
    var moved := MoveAndRecord(db, k, e, DraftReady, now);
    if !moved {
      db.Rollback(before);
      return Some(TimestampCheck);
    }
    return None;
  }
}
