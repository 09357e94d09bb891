/** The tables as one mutable database, and the statements the transactions
    are made of (internal/events/events.go, internal/outbox/insert.go,
    internal/ledger/postings.go, internal/worker/store.go). */
module Database {
  import opened Common
  import opened Vocabulary
  import opened Ledger
  import opened Tables

  class Db {
    const accounts: set<Account>
    var charges: seq<Charge>
    var disputes: seq<Dispute>
    var runs: seq<AgentRun>
    var journals: seq<Journal>
    var events: seq<Event>
    var outbox: seq<Message>
    var webhooks: map<string, DeliveryStatus>

    /** The committed contents. */
    function Contents(): Tables
      reads this
    {
      Rows(accounts, charges, disputes, runs, journals, events, outbox, webhooks)
    }

    constructor (accounts: set<Account>, charges: seq<Charge>)
      ensures Contents() == Rows(accounts, charges, [], [], [], [], [], map[])
    {
      this.accounts, this.charges := accounts, charges;
      disputes, runs, journals, events, outbox, webhooks := [], [], [], [], [], map[];
    }

    method Rollback(t: Tables)
      requires t.accounts == accounts
      modifies this
      ensures Contents() == t
    {
      charges, disputes, runs, journals := t.charges, t.disputes, t.runs, t.journals;
      events, outbox, webhooks := t.events, t.outbox, t.webhooks;
    }

    /** INSERT INTO dispute_events. */
    method RecordEvent(e: Event)
      modifies this`events
      ensures events == old(events) + [e]
    {
      events := events + [e];
    }

    /** INSERT INTO outbox. */
    method InsertMessage(m: Message)
      modifies this`outbox
      ensures outbox == old(outbox) + [m]
    {
      outbox := outbox + [m];
    }

    /** One INSERT ... SELECT a leg; a leg whose account is missing inserts
        nothing. */
    method InsertLegs(e: Entry, ps: seq<Posting>) returns (legs: seq<Leg>)
      ensures legs == Kept(accounts, e, ps)
    {
      legs := [];
      var i := 0;
      while i < |ps|
        invariant 0 <= i <= |ps|
        invariant legs == Kept(accounts, e, ps[..i])
      {
        KeptSnoc(accounts, e, ps[..i], ps[i]);
        assert ps[..i + 1] == ps[..i] + [ps[i]];
        if AccountOf(e, ps[i]) in accounts {
          legs := legs + [Leg(AccountOf(e, ps[i]), ps[i].direction, ps[i].amountMinor)];
        }
        i := i + 1;
      }
      assert ps[..|ps|] == ps;
    }

    /** The journal row and then its legs. None is the unique external_ref
        refusing. */
    method WriteJournal(e: Entry, kind: JournalKind) returns (written: Option<Journal>)
      modifies this`journals
      ensures written == if RefTaken(old(journals), Ref(e.disputeId, kind)) then None
                         else Some(JournalFor(accounts, e, kind))
      ensures journals == old(journals) + if written.Some? then [written.value] else []
    {
      var ref := Ref(e.disputeId, kind);
      if RefTaken(journals, ref) {
        return None;
      }
      var legs := InsertLegs(e, Postings(kind, e.amountMinor));
      var j := Journal(ref, e.currency, legs);
      journals := journals + [j];
      return Some(j);
    }

    /** UPDATE transactions: the refund total and the status, unless the refund
        CHECK refuses. */
    method AddRefund(k: nat, amount: int) returns (ok: bool)
      requires k < |disputes|
      modifies this`charges
      ensures var x := disputes[k].charge;
              ok <==> (x < |old(charges)| ==> old(charges)[x].refundedMinor + amount <= old(charges)[x].amountMinor)
      ensures var x := disputes[k].charge;
              charges == if ok && x < |old(charges)| then old(charges)[x := RefundedCharge(old(charges)[x], amount)]
                         else old(charges)
    {
      var x := disputes[k].charge;
      if x >= |charges| {
        return true;
      }
      var c := charges[x];
      if c.refundedMinor + amount > c.amountMinor {
        return false;
      }
      c := c.(refundedMinor := c.refundedMinor + amount);
      c := c.(status := if c.refundedMinor >= c.amountMinor then FullyRefunded else PartlyRefunded);
      charges := charges[x := c];
      return true;
    }

    /** UPDATE disputes SET state, version + 1 and, for a terminal state,
        resolved_at, unless the timestamp CHECK refuses. */
    method MoveRow(k: nat, e: Edge, at: int) returns (ok: bool)
      requires k < |disputes|
      modifies this`disputes
      ensures ok == TimestampOk(MovedRow(old(disputes)[k], e, at))
      ensures disputes == if ok then old(disputes)[k := MovedRow(old(disputes)[k], e, at)] else old(disputes)
    {
      var d := disputes[k];
      d := d.(state := Target(e));
      d := d.(version := d.version + 1);
      if Terminal(Target(e)) {
        d := d.(resolvedAt := Some(at));
      }
      if !TimestampOk(d) {
        return false;
      }
      disputes := disputes[k := d];
      return true;
    }
  }
}
