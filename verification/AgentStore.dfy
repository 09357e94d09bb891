/** The assistant's claim on a dispute and what it writes back
    (internal/agent/store.go). */
module AgentStore {
  import opened Common
  import opened Vocabulary
  import opened Ledger
  import opened Tables
  import opened Lifecycle
  import opened Invariant

  datatype Claim = Claim(disputeId: nat, version: nat, attempt: int, spentMicros: int)

  datatype Run = Run(outcome: Outcome, recommended: bool, costMicros: int, escalated: bool)

  /** What Candidates selects: the WHERE clause of the work list. */
  predicate Selectable(t: Tables, id: nat, maxAttempts: int, now: int) {
    && id < |t.disputes|
    && t.disputes[id].state == Received
    && t.disputes[id].kind == Chargeback
    && t.disputes[id].deadlineAt > now + 300
    && RunSum(t.runs, id, One) < maxAttempts
  }

  function Hold(t: Tables, id: nat): Result<(Tables, Claim)> {
    if id >= |t.disputes| || t.disputes[id].state != Received then Err(ClaimLost)
    else
      match TryAdvance(t, id, Edge.Hold, Received, EntryOf(id, t.disputes[id]), 0)
      case Err(e) => Err(e)
      case Ok(u) =>
        Ok((u, Claim(id, u.disputes[id].version, RunSum(t.runs, id, One) + 1, RunSum(t.runs, id, Cost))))
  }

  function Release(t: Tables, c: Claim): Result<Tables> {
    if c.disputeId >= |t.disputes| || t.disputes[c.disputeId].version != c.version then Err(ClaimLost)
    else TryAdvance(t, c.disputeId, Edge.Release, Resolving, EntryOf(c.disputeId, t.disputes[c.disputeId]), 0)
  }

  function NextState(outcome: Outcome, escalated: bool): State {
    if escalated || outcome == Drafted || outcome == Insufficient then DraftReady else Received
  }

  function RunRow(c: Claim, run: Run): AgentRun {
    AgentRun(c.disputeId, c.attempt, run.outcome, run.recommended, run.costMicros, None)
  }

  function RecordEdge(c: Claim, run: Run): Edge {
    if NextState(run.outcome, run.escalated) == DraftReady then Draft(RunRow(c, run)) else Requeue(RunRow(c, run))
  }

  /** agent_runs: attempt > 0, cost >= 0, and a recommendation exactly on the
      outcomes that produced a draft. */
  predicate RunRowOk(r: AgentRun) {
    && r.attempt > 0
    && r.costMicros >= 0
    && (r.recommended <==> r.outcome in {Drafted, Rejected, Insufficient})
  }

  predicate AttemptTaken(runs: seq<AgentRun>, id: nat, attempt: int) {
    exists r | 0 <= r < |runs| :: runs[r].disputeId == id && runs[r].attempt == attempt
  }

  function Record(t: Tables, c: Claim, run: Run, at: int): Result<Tables> {
    if !RunRowOk(RunRow(c, run)) then Err(RunCheck)
    else if AttemptTaken(t.runs, c.disputeId, c.attempt) then Err(DuplicateAttempt)
    else if c.disputeId >= |t.disputes| || t.disputes[c.disputeId].version != c.version then Err(ClaimLost)
    else TryAdvance(t, c.disputeId, RecordEdge(c, run), Resolving, EntryOf(c.disputeId, t.disputes[c.disputeId]), at)
  }

  /** What stays true of a claim however long its holder takes. */
  ghost predicate ClaimOk(t: Tables, c: Claim) {
    && c.disputeId < |t.disputes|
    && c.version <= t.disputes[c.disputeId].version
    && (c.version == t.disputes[c.disputeId].version ==>
          && t.disputes[c.disputeId].state == Resolving
          && c.attempt == TallyOf(t, c.disputeId).attempts + 1
          && c.spentMicros == TallyOf(t, c.disputeId).spent)
  }

  function HoldChange(t: Tables, id: nat): Change {
    if Hold(t, id).Ok? && id < |t.disputes| then Advancing(id, Edge.Hold, Received, EntryOf(id, t.disputes[id]), 0)
    else Nothing
  }

  /** A dispute is taken exactly when it is waiting, by exactly one claim. */
  lemma HoldIff(m: int, t: Tables, id: nat)
    requires RowsGood(m, t)
    ensures Hold(t, id).Ok? <==> id < |t.disputes| && t.disputes[id].state == Received
    ensures Hold(t, id).Ok? ==>
              var (u, c) := Hold(t, id).value;
              Does(m, t, HoldChange(t, id), u) && ClaimOk(u, c)
    ensures Hold(t, id).Err? ==> Hold(t, id) == Err(ClaimLost)
  {
    if id < |t.disputes| && t.disputes[id].state == Received {
      var entry := EntryOf(id, t.disputes[id]);
      OnlyMoneyRefuses(m, t, id, Edge.Hold, Received, entry, 0);
    }
  }

  function ReleaseChange(t: Tables, c: Claim): Change {
    if c.disputeId < |t.disputes|
    then Advancing(c.disputeId, Edge.Release, Resolving, EntryOf(c.disputeId, t.disputes[c.disputeId]), 0)
    else Nothing
  }

  /** A claim is given back exactly when the dispute has not moved since. */
  lemma ReleaseIff(m: int, t: Tables, c: Claim)
    requires RowsGood(m, t) && ClaimOk(t, c)
    ensures Release(t, c).Ok? <==> t.disputes[c.disputeId].version == c.version
    ensures Release(t, c).Ok? ==> Does(m, t, ReleaseChange(t, c), Release(t, c).value)
    ensures Release(t, c).Err? ==> Release(t, c) == Err(ClaimLost)
  {
    if t.disputes[c.disputeId].version == c.version {
      var k := c.disputeId;
      OnlyMoneyRefuses(m, t, k, Edge.Release, Resolving, EntryOf(k, t.disputes[k]), 0);
    }
  }

  /** In a ranked table the next attempt number is always free. */
  lemma {:induction false} NextAttemptFree(runs: seq<AgentRun>, id: nat)
    requires AttemptsRanked(runs)
    ensures RunSum(runs, id, One) >= 0
    ensures forall r | 0 <= r < |runs| && runs[r].disputeId == id :: 1 <= runs[r].attempt <= RunSum(runs, id, One)
  {
    if runs != [] {
      var n := |runs| - 1;
      RanksPrefix(runs, n);
      NextAttemptFree(runs[..n], id);
      assert RunSum(runs, id, One) == RunSum(runs[..n], id, One) + if runs[n].disputeId == id then 1 else 0;
      forall r | 0 <= r < n && runs[r].disputeId == id
        ensures 1 <= runs[r].attempt <= RunSum(runs[..n], id, One)
      {
        assert runs[..n][r] == runs[r];
      }
    }
  }

  function RecordChange(t: Tables, c: Claim, run: Run, at: int): Change {
    if c.disputeId < |t.disputes|
    then Advancing(c.disputeId, RecordEdge(c, run), Resolving, EntryOf(c.disputeId, t.disputes[c.disputeId]), at)
    else Nothing
  }

  /** A well-formed run is recorded exactly when its claim is still current: the
      unique (dispute, attempt) key never refuses what the version check would
      have let through. */
  lemma RecordIff(m: int, t: Tables, c: Claim, run: Run, at: int)
    requires RowsGood(m, t) && AttemptsRanked(t.runs) && ClaimOk(t, c) && RunRowOk(RunRow(c, run))
    requires NextState(run.outcome, run.escalated) == Received ==> c.attempt < m
    ensures Record(t, c, run, at).Ok? <==> t.disputes[c.disputeId].version == c.version
    ensures Record(t, c, run, at).Ok? ==> Does(m, t, RecordChange(t, c, run, at), Record(t, c, run, at).value)
  {
    if t.disputes[c.disputeId].version == c.version {
      var k, e := c.disputeId, RecordEdge(c, run);
      NextAttemptFree(t.runs, k);
      OnlyMoneyRefuses(m, t, k, e, Resolving, EntryOf(k, t.disputes[k]), 0);
    }
  }

  /** What stops a run from being recorded, in the order it is met: the checks
      of its row, an attempt number already used for that dispute, and a dispute
      that is gone or has moved on. */
  lemma RefusedIff(t: Tables, c: Claim, run: Run, at: int)
    ensures var r := Record(t, c, run, at);
            var malformed := c.attempt <= 0 || run.costMicros < 0 ||
                             run.recommended != (run.outcome == Drafted || run.outcome == Rejected || run.outcome == Insufficient);
            var used := exists q | 0 <= q < |t.runs| :: t.runs[q].disputeId == c.disputeId && t.runs[q].attempt == c.attempt;
            var lost := c.disputeId >= |t.disputes| || t.disputes[c.disputeId].version != c.version;
            && (r == Err(RunCheck) <==> malformed)
            && (r == Err(DuplicateAttempt) <==> !malformed && used)
            && (r == Err(ClaimLost) <==> !malformed && !used && lost)
  {
  }
}
