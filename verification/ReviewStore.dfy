/** The reviewer's decision (internal/api/reviews.go). */
module ReviewStore {
  import opened Common
  import opened Vocabulary
  import opened Ledger
  import opened Tables
  import opened Lifecycle
  import opened Invariant

  function ReviewEdge(review: Review, runId: nat): Edge {
    if review == Submitted then Submit(runId) else Discard(runId)
  }

  function Decide(t: Tables, runId: nat, review: Review, now: int): Result<Tables> {
    if runId >= |t.runs| || t.runs[runId].review.Some? then Err(NotReviewable)
    else
      var k := t.runs[runId].disputeId;
      if k >= |t.disputes| || t.disputes[k].state != DraftReady || t.disputes[k].deadlineAt <= now then Err(NotReviewable)
      else TryAdvance(t, k, ReviewEdge(review, runId), DraftReady, EntryOf(k, t.disputes[k]), now)
  }

  function DecideChange(t: Tables, runId: nat, review: Review, now: int): Change {
    if runId < |t.runs| && t.runs[runId].disputeId < |t.disputes| then
      var k := t.runs[runId].disputeId;
      Advancing(k, ReviewEdge(review, runId), DraftReady, EntryOf(k, t.disputes[k]), now)
    else Nothing
  }

  predicate Reviewable(t: Tables, runId: nat, now: int) {
    && runId < |t.runs| && t.runs[runId].review.None?
    && t.runs[runId].disputeId < |t.disputes|
    && t.disputes[t.runs[runId].disputeId].state == DraftReady
    && now < t.disputes[t.runs[runId].disputeId].deadlineAt
  }

  /** A decision lands exactly when the run is undecided and its dispute still
      waits for a reviewer inside the window. */
  lemma DecideIff(m: int, t: Tables, runId: nat, review: Review, now: int)
    requires RowsGood(m, t)
    ensures Decide(t, runId, review, now) ==
              if Reviewable(t, runId, now) then
                var k := t.runs[runId].disputeId;
                Ok(Advance(t, k, ReviewEdge(review, runId), DraftReady, EntryOf(k, t.disputes[k]), now))
              else Err(NotReviewable)
    ensures Reviewable(t, runId, now) ==>
              Does(m, t, DecideChange(t, runId, review, now), Decide(t, runId, review, now).value)
  {
    if Reviewable(t, runId, now) {
      var k, e := t.runs[runId].disputeId, ReviewEdge(review, runId);
      OnlyMoneyRefuses(m, t, k, e, DraftReady, EntryOf(k, t.disputes[k]), now);
    }
  }
}
