/** The webhook write path (internal/ingest/store.go). */
module IngestStore {
  import opened Common
  import opened Vocabulary
  import opened Ledger
  import opened Tables
  import opened Lifecycle
  import opened Invariant

  datatype OpenedEvent = OpenedEvent(id: string, disputeRef: string, chargeRef: string, kind: Kind,
                                     reasonCode: string, amountMinor: int, currency: string,
                                     openedAt: int, respondBy: int)

  datatype RulingEvent = RulingEvent(id: string, disputeRef: string, won: bool, decidedAt: int)

  /** Three capitals. */
  predicate IsCurrency(code: string) {
    |code| == 3 && forall i | 0 <= i < 3 :: 'A' <= code[i] <= 'Z'
  }

  /** What intake asks of an event before anything is claimed or written; one
      that falls short is answered 400. */
  predicate ValidOpened(ev: OpenedEvent) {
    && ev.id != "" && ev.disputeRef != "" && ev.chargeRef != "" && ev.reasonCode != ""
    && ev.amountMinor > 0 && IsCurrency(ev.currency) && ev.respondBy > ev.openedAt
  }

  predicate ValidRuling(ev: RulingEvent) {
    ev.id != "" && ev.disputeRef != ""
  }

  /** Unlinkable is stored and committed; RolledBack left no trace. */
  datatype Answer = Recorded(disputeId: nat) | Duplicate | Unlinkable | RolledBack(error: Error)

  function FindCharge(charges: seq<Charge>, merchantId: nat, ref: string): (r: Option<nat>)
    ensures r.Some? ==> r.value < |charges| && charges[r.value].merchantId == merchantId && charges[r.value].externalId == ref
    ensures r.None? ==> forall i | 0 <= i < |charges| :: !(charges[i].merchantId == merchantId && charges[i].externalId == ref)
  {
    if charges == [] then None
    else
      var n := |charges| - 1;
      if charges[n].merchantId == merchantId && charges[n].externalId == ref then Some(n)
      else FindCharge(charges[..n], merchantId, ref)
  }

  predicate OnFile(disputes: seq<Dispute>, merchantId: nat, ref: string) {
    exists i | 0 <= i < |disputes| :: disputes[i].merchantId == merchantId && disputes[i].externalId == ref
  }

  /** The row a ruling may move: the WHERE clause of the ruling update. */
  predicate AwaitsRuling(d: Dispute, merchantId: nat, ref: string) {
    d.merchantId == merchantId && d.externalId == ref && d.state == Represented
  }

  function FindRuled(disputes: seq<Dispute>, merchantId: nat, ref: string): (r: Option<nat>)
    ensures r.Some? ==> r.value < |disputes| && AwaitsRuling(disputes[r.value], merchantId, ref)
    ensures r.None? ==> forall i | 0 <= i < |disputes| :: !AwaitsRuling(disputes[i], merchantId, ref)
  {
    if disputes == [] then None
    else
      var n := |disputes| - 1;
      if AwaitsRuling(disputes[n], merchantId, ref) then Some(n)
      else FindRuled(disputes[..n], merchantId, ref)
  }

  function NewRow(merchantId: nat, charge: nat, ev: OpenedEvent): Dispute {
    Dispute(merchantId, charge, ev.disputeRef, ev.kind, ev.reasonCode, ev.amountMinor, ev.currency,
            Received, ev.openedAt, ev.respondBy, None, 0)
  }

  function Logged(t: Tables, id: string, status: DeliveryStatus): Tables {
    t.(webhooks := t.webhooks[id := status])
  }

  /** One delivery of dispute.opened. */
  function Record(t: Tables, merchantId: nat, ev: OpenedEvent): (Tables, Answer) {
    if ev.id in t.webhooks then (t, Duplicate)
    else
      match FindCharge(t.charges, merchantId, ev.chargeRef)
      case None => (Logged(t, ev.id, DeliveryFailed), Unlinkable)
      case Some(x) =>
        var d := NewRow(merchantId, x, ev);
        if ev.amountMinor <= 0 then (t, RolledBack(AmountCheck))
        else if OnFile(t.disputes, merchantId, ev.disputeRef) then (Logged(t, ev.id, Processed), Duplicate)
        else if RefTaken(t.journals, Ref(|t.disputes|, HoldJournal)) && ev.kind == Chargeback then (t, RolledBack(DuplicateRef))
        else if ev.kind == Chargeback &&
                !Ledger.Accepted(JournalFor(t.accounts, EntryOf(|t.disputes|, d), HoldJournal).legs)
        then (t, RolledBack(Unbalanced))
        else (Logged(Opened(t, d), ev.id, Processed), Recorded(|t.disputes|))
  }

  function RulingEdge(won: bool): Edge {
    if won then Win else Lose
  }

  /** One delivery of dispute.resolved. */
  function RecordRuling(t: Tables, merchantId: nat, ev: RulingEvent): (Tables, Answer) {
    if ev.id in t.webhooks then (t, Duplicate)
    else
      match FindRuled(t.disputes, merchantId, ev.disputeRef)
      case None => (Logged(t, ev.id, DeliveryFailed), Unlinkable)
      case Some(k) =>
        match TryAdvance(t, k, RulingEdge(ev.won), Represented, EntryOf(k, t.disputes[k]), ev.decidedAt)
        case Err(e) => (t, RolledBack(e))
        case Ok(u) => (Logged(u, ev.id, Processed), Recorded(k))
  }

  function RecordChange(t: Tables, merchantId: nat, ev: OpenedEvent): Change {
    var x := FindCharge(t.charges, merchantId, ev.chargeRef);
    if Record(t, merchantId, ev).1.Recorded? && x.Some? then Opening(NewRow(merchantId, x.value, ev)) else Nothing
  }

  lemma RecordDoes(m: int, t: Tables, merchantId: nat, ev: OpenedEvent)
    ensures Does(m, t, RecordChange(t, merchantId, ev), Record(t, merchantId, ev).0)
  {
  }

  function RulingChange(t: Tables, merchantId: nat, ev: RulingEvent): Change {
    var a := RecordRuling(t, merchantId, ev).1;
    if a.Recorded? && a.disputeId < |t.disputes|
    then Advancing(a.disputeId, RulingEdge(ev.won), Represented, EntryOf(a.disputeId, t.disputes[a.disputeId]), ev.decidedAt)
    else Nothing
  }

  lemma RulingDoes(m: int, t: Tables, merchantId: nat, ev: RulingEvent)
    ensures Does(m, t, RulingChange(t, merchantId, ev), RecordRuling(t, merchantId, ev).0)
  {
  }

  /** A chargeback is refused by the ledger exactly when its merchant has one
      of its two accounts in that currency but not the other. In particular a
      currency in which the merchant has neither account is accepted, and its
      hold journal is committed with no legs. */
  lemma HoldRefusedIff(m: int, t: Tables, merchantId: nat, ev: OpenedEvent)
    requires Inv(m, t) && ev.kind == Chargeback && ev.amountMinor > 0
    requires ev.id !in t.webhooks && FindCharge(t.charges, merchantId, ev.chargeRef).Some?
    requires !OnFile(t.disputes, merchantId, ev.disputeRef)
    ensures Record(t, merchantId, ev).1 ==
            if Paired(t.accounts, merchantId, ev.currency) then Recorded(|t.disputes|) else RolledBack(Unbalanced)
  {
    var k := |t.disputes|;
    var d := NewRow(merchantId, FindCharge(t.charges, merchantId, ev.chargeRef).value, ev);
    assert TallyOf(t, k) == BLANK;
    JournalCountTaken(t.journals, Ref(k, HoldJournal));
    TwoLegsAccepted(t.accounts, EntryOf(k, d), HoldJournal);
  }

  /** What intake of an opened dispute answers, read off the rows. */
  lemma RecordAnswers(t: Tables, merchantId: nat, ev: OpenedEvent)
    requires ev.id !in t.webhooks
    ensures var (u, a) := Record(t, merchantId, ev);
            var linked := exists x | 0 <= x < |t.charges| ::
                            t.charges[x].merchantId == merchantId && t.charges[x].externalId == ev.chargeRef;
            var known := exists i | 0 <= i < |t.disputes| ::
                           t.disputes[i].merchantId == merchantId && t.disputes[i].externalId == ev.disputeRef;
            && (a == Unlinkable <==> !linked)
            && (a == Duplicate <==> linked && ev.amountMinor > 0 && known)
            && (a == RolledBack(AmountCheck) <==> linked && ev.amountMinor <= 0)
            && (a.Recorded? ==> a.disputeId == |t.disputes|)
            && u == match a
                    case Unlinkable => t.(webhooks := t.webhooks[ev.id := DeliveryFailed])
                    case Duplicate => t.(webhooks := t.webhooks[ev.id := Processed])
                    case RolledBack(_) => t
                    case Recorded(_) => u
  {
  }

  /** A ruling moves the one dispute it names: the merchant's, by its reference,
      and represented. It is unlinkable if and only if there is none. */
  lemma RulingAnswers(t: Tables, merchantId: nat, ev: RulingEvent)
    requires ev.id !in t.webhooks
    ensures var (u, a) := RecordRuling(t, merchantId, ev);
            && a != Duplicate
            && (a == Unlinkable <==>
                  forall i | 0 <= i < |t.disputes| ::
                    !(t.disputes[i].merchantId == merchantId && t.disputes[i].externalId == ev.disputeRef &&
                      t.disputes[i].state == Represented))
            && (a == Unlinkable ==> u == t.(webhooks := t.webhooks[ev.id := DeliveryFailed]))
            && (a.RolledBack? ==> u == t)
            && (a.Recorded? ==>
                  var k := a.disputeId;
                  && k < |t.disputes|
                  && t.disputes[k].merchantId == merchantId && t.disputes[k].externalId == ev.disputeRef
                  && t.disputes[k].state == Represented
                  && u.disputes == t.disputes[k := t.disputes[k].(state := if ev.won then Won else Lost,
                                                                  version := t.disputes[k].version + 1,
                                                                  resolvedAt := Some(ev.decidedAt))]
                  && u.webhooks == t.webhooks[ev.id := Processed])
  {
  }

  /** The durable half of idempotence: a delivery whose id is on file changes
      nothing, whatever else it says. */
  lemma SeenDeliveryIsInert(t: Tables, merchantId: nat, filed: OpenedEvent, ruling: RulingEvent)
    ensures filed.id in t.webhooks ==> Record(t, merchantId, filed) == (t, Duplicate)
    ensures ruling.id in t.webhooks ==> RecordRuling(t, merchantId, ruling) == (t, Duplicate)
    ensures var (u, a) := Record(t, merchantId, filed); !a.RolledBack? ==> filed.id in u.webhooks
    ensures var (u, a) := RecordRuling(t, merchantId, ruling); !a.RolledBack? ==> ruling.id in u.webhooks
  {
  }
}
