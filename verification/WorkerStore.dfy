/** The worker's read and write of one dispute (internal/worker/store.go). */
module WorkerStore {
  import opened Common
  import opened Vocabulary
  import opened Ledger
  import opened Tables
  import opened Lifecycle
  import opened Invariant
  import opened WorkerRules

  /** A dispute as it was when it was claimed. It may be applied much later. */
  datatype Loaded = Loaded(id: nat, row: Dispute, ceilingMinor: Option<int>, remainingMinor: int)

  function Load(t: Tables, id: nat, ceilingMinor: Option<int>): Loaded
    requires id < |t.disputes| && t.disputes[id].charge < |t.charges|
  {
    var c := t.charges[t.disputes[id].charge];
    Loaded(id, t.disputes[id], ceilingMinor, c.amountMinor - c.refundedMinor)
  }

  function CandidateOf(l: Loaded): Candidate {
    Candidate(l.row.kind, l.row.state, l.row.reasonCode, l.row.amountMinor, l.row.deadlineAt,
              l.row.resolvedAt.Some?, l.ceilingMinor, l.remainingMinor)
  }

  function EdgeOf(a: Action): Option<Edge> {
    match a
    case DoRefund => Some(Refund)
    case DoClose => Some(Close)
    case DoExpire => Some(Expire)
    case _ => None
  }

  function Apply(t: Tables, l: Loaded, action: Action, at: int): Result<Tables> {
    if EdgeOf(action).None? then Err(NoStateChange)
    else if l.id >= |t.disputes| || t.disputes[l.id].version != l.row.version then Err(Stale)
    else TryAdvance(t, l.id, EdgeOf(action).value, l.row.state, EntryOf(l.id, l.row), at)
  }

  /** The columns of a dispute that no statement updates. */
  predicate SameIdentity(a: Dispute, b: Dispute) {
    a.(state := b.state, version := b.version, resolvedAt := b.resolvedAt) == b
  }

  /** What stays true of a snapshot however long it is carried around: its
      version never lies, and what was left on the charge only shrinks. */
  ghost predicate SnapshotOk(t: Tables, l: Loaded) {
    && l.id < |t.disputes|
    && t.disputes[l.id].charge < |t.charges|
    && SameIdentity(l.row, t.disputes[l.id])
    && l.row.version <= t.disputes[l.id].version
    && (l.row.version == t.disputes[l.id].version ==> l.row == t.disputes[l.id])
    && var c := t.charges[t.disputes[l.id].charge];
       c.amountMinor - c.refundedMinor <= l.remainingMinor
  }

  /** A snapshot whose version is current describes the row as it is now, so
      the decision taken on it is an edge of the graph. */
  lemma DecisionIsLegal(m: int, t: Tables, l: Loaded, decidedAt: int)
    requires RowsGood(m, t) && SnapshotOk(t, l)
    requires t.disputes[l.id].version == l.row.version
    requires EdgeOf(Decide(CandidateOf(l), decidedAt).action).Some?
    ensures Legal(m, t, l.id, EdgeOf(Decide(CandidateOf(l), decidedAt).action).value, l.row.state, EntryOf(l.id, l.row))
  {
    assert Good(m, ViewOf(t, l.id));
    OnlyTheClockMovesAChargeback(CandidateOf(l), decidedAt);
  }

  function ApplyChange(l: Loaded, action: Action, at: int): Change {
    if EdgeOf(action).None? then Nothing
    else Advancing(l.id, EdgeOf(action).value, l.row.state, EntryOf(l.id, l.row), at)
  }

  lemma ApplyDoes(m: int, t: Tables, l: Loaded, decidedAt: int, at: int)
    requires RowsGood(m, t) && SnapshotOk(t, l)
    requires Apply(t, l, Decide(CandidateOf(l), decidedAt).action, at).Ok?
    ensures var action := Decide(CandidateOf(l), decidedAt).action;
            Does(m, t, ApplyChange(l, action, at), Apply(t, l, action, at).value)
  {
    DecisionIsLegal(m, t, l, decidedAt);
  }

  /** What is refused before anything is written: an action that writes nothing,
      and then a row that is gone or no longer at the version that was read. */
  lemma RefusedIff(t: Tables, l: Loaded, action: Action, at: int)
    ensures var r := Apply(t, l, action, at);
            && (r == Err(NoStateChange) <==> action == DoSkip || action == DoEscalate)
            && (r == Err(Stale) <==>
                  action in {DoRefund, DoClose, DoExpire} &&
                  (l.id >= |t.disputes| || t.disputes[l.id].version != l.row.version))
  {
  }

  /** However stale the snapshot, a decision commits exactly when the row has
      not moved, the refund still fits the charge, and the journal's accounts
      are there. Two alerts decided from the same stale remainder cannot both
      take it. */
  lemma CommitsIff(m: int, t: Tables, l: Loaded, decidedAt: int, at: int)
    requires RowsGood(m, t) && SnapshotOk(t, l)
    requires EdgeOf(Decide(CandidateOf(l), decidedAt).action).Some?
    ensures var action := Decide(CandidateOf(l), decidedAt).action;
            var e := EdgeOf(action).value;
            Apply(t, l, action, at).Ok? <==> l.row == t.disputes[l.id] && Fits(t, l.id, e) && Funded(t, l.id, e)
  {
    if t.disputes[l.id].version == l.row.version {
      DecisionIsLegal(m, t, l, decidedAt);
      var e := EdgeOf(Decide(CandidateOf(l), decidedAt).action).value;
      OnlyMoneyRefuses(m, t, l.id, e, l.row.state, EntryOf(l.id, l.row), at);
    }
  }

  lemma LoadOk(m: int, t: Tables, id: nat, ceilingMinor: Option<int>)
    requires RowsLinked(t) && id < |t.disputes|
    ensures t.disputes[id].charge < |t.charges|
    ensures SnapshotOk(t, Load(t, id, ceilingMinor))
  {
    assert t.charges[t.disputes[id].charge].merchantId == t.disputes[id].merchantId;
  }
}
