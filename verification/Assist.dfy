/** One drafting attempt: two paid calls, three checks, one outcome
    (internal/agent/assist.go). The calls' answers are inputs. */
module Assist {
  import opened Common
  import opened Vocabulary
  import opened Tables
  import opened AgentStore

  datatype Config = Config(maxCostMicros: int, maxAttempts: int)

  /** A call that came back: what it said and what it cost. */
  datatype DraftReply = DraftReply(costMicros: int, represent: bool)

  datatype VerdictReply = VerdictReply(costMicros: int, approved: bool)

  /** None is a call that failed. */
  datatype Replies = Replies(facts: bool, estimate: Option<int>, draft: Option<DraftReply>,
                             citationFindings: nat, verdict: Option<VerdictReply>)

  predicate OverBudget(cfg: Config, micros: int) {
    cfg.maxCostMicros > 0 && micros >= cfg.maxCostMicros
  }

  predicate LastAttempt(cfg: Config, c: Claim) {
    c.attempt >= cfg.maxAttempts
  }

  /** None is a fault: nothing is recorded and the claim is given back. */
  function Attempted(cfg: Config, c: Claim, r: Replies): Option<Run> {
    var last := LastAttempt(cfg, c);
    if !r.facts then None
    else if r.estimate.Some? && OverBudget(cfg, c.spentMicros + r.estimate.value) then
      Some(Run(BudgetExceeded, false, 0, last))
    else if r.draft.None? then None
    else
      var cost := r.draft.value.costMicros;
      if r.citationFindings > 0 then Some(Run(Rejected, true, cost, last))
      else if OverBudget(cfg, c.spentMicros + cost) then Some(Run(BudgetExceeded, false, cost, last))
      else if r.verdict.None? then None
      else
        var total := cost + r.verdict.value.costMicros;
        if !r.verdict.value.approved then Some(Run(Rejected, true, total, last))
        else if !r.draft.value.represent then Some(Run(Insufficient, true, total, false))
        else Some(Run(Drafted, true, total, false))
  }

  /** The attempt as it runs: the run is filled in field by field, and every
      exit leaves it as it stands. */
  method Attempt(cfg: Config, c: Claim, r: Replies) returns (result: Option<Run>)
    ensures result == Attempted(cfg, c, r)
  {
    var run := Run(Failed, false, 0, false);
    if !r.facts {
      return None;
    }
    if r.estimate.Some? && OverBudget(cfg, c.spentMicros + run.costMicros + r.estimate.value) {
      run := run.(outcome := BudgetExceeded);
      run := run.(escalated := LastAttempt(cfg, c));
      return Some(run);
    }
    if r.draft.None? {
      return None;
    }
    run := run.(costMicros := run.costMicros + r.draft.value.costMicros);
    run := run.(recommended := true);
    if r.citationFindings > 0 {
      run := run.(outcome := Rejected);
      run := run.(escalated := LastAttempt(cfg, c));
      return Some(run);
    }
    if OverBudget(cfg, c.spentMicros + run.costMicros) {
      run := run.(outcome := BudgetExceeded, recommended := false);
      run := run.(escalated := LastAttempt(cfg, c));
      return Some(run);
    }
    if r.verdict.None? {
      return None;
    }
    run := run.(costMicros := run.costMicros + r.verdict.value.costMicros);
    if !r.verdict.value.approved {
      run := run.(outcome := Rejected);
      run := run.(escalated := LastAttempt(cfg, c));
      return Some(run);
    }
    run := run.(outcome := if r.draft.value.represent then Drafted else Insufficient);
    return Some(run);
  }

  /** Calls never pay the caller. */
  predicate CostsOk(r: Replies) {
    && (r.draft.Some? ==> r.draft.value.costMicros >= 0)
    && (r.verdict.Some? ==> r.verdict.value.costMicros >= 0)
  }

  /** How an attempt ends, read off the replies and the two settings. What a
      reviewer is handed as a draft, or as a case too weak to argue, cites only
      what is there and was approved by the verifier; a refusal by either check
      is recorded as one; and the ceiling stops an attempt before its first call
      or between the two. A fault is a reply that was needed and did not come. */
  lemma OutcomeIff(cfg: Config, c: Claim, r: Replies)
    ensures var a := Attempted(cfg, c, r);
            var ceiling := cfg.maxCostMicros > 0;
            var tooLarge := ceiling && r.estimate.Some? && c.spentMicros + r.estimate.value >= cfg.maxCostMicros;
            var drafted := r.facts && !tooLarge && r.draft.Some?;
            var miscited := drafted && r.citationFindings > 0;
            var spent := drafted && !miscited && ceiling && c.spentMicros + r.draft.value.costMicros >= cfg.maxCostMicros;
            var judged := drafted && !miscited && !spent && r.verdict.Some?;
            && (a.None? <==> !r.facts || (!tooLarge && r.draft.None?) || (drafted && !miscited && !spent && r.verdict.None?))
            && (a.Some? ==>
                  var run := a.value;
                  && (run.outcome == Drafted <==> judged && r.verdict.value.approved && r.draft.value.represent)
                  && (run.outcome == Insufficient <==> judged && r.verdict.value.approved && !r.draft.value.represent)
                  && (run.outcome == Rejected <==> miscited || (judged && !r.verdict.value.approved))
                  && (run.outcome == BudgetExceeded <==> tooLarge || spent)
                  && run.costMicros == (if drafted then r.draft.value.costMicros else 0) +
                                       (if judged then r.verdict.value.costMicros else 0)
                  && (run.recommended <==> run.outcome in {Drafted, Insufficient, Rejected})
                  && (run.escalated <==> c.attempt >= cfg.maxAttempts && run.outcome in {Rejected, BudgetExceeded}))
  {
  }

  /** Every recorded attempt satisfies the table's checks, is never a bare
      failure, and reaches a person if it was the last one allowed. */
  lemma AttemptedIsRecordable(cfg: Config, c: Claim, r: Replies)
    requires Attempted(cfg, c, r).Some?
    ensures var run := Attempted(cfg, c, r).value;
            && (CostsOk(r) && c.attempt > 0 ==> RunRowOk(RunRow(c, run)))
            && run.outcome != Failed
            && (NextState(run.outcome, run.escalated) == Received ==> c.attempt < cfg.maxAttempts)
            && (run.escalated ==> c.attempt >= cfg.maxAttempts && run.outcome in {Rejected, BudgetExceeded})
  {
  }

  /** Spend on one dispute: with a ceiling set and the record priced before the
      call, an attempt that starts under the ceiling ends below it plus one
      call, and an attempt that starts at or over it spends nothing. */
  lemma SpendBounded(cfg: Config, c: Claim, r: Replies, callCap: int)
    requires CostsOk(r) && cfg.maxCostMicros > 0 && callCap >= 0
    requires r.estimate.Some? && r.estimate.value >= 0
    requires r.draft.Some? ==> r.draft.value.costMicros <= callCap
    requires r.verdict.Some? ==> r.verdict.value.costMicros <= callCap
    requires Attempted(cfg, c, r).Some?
    ensures var total := c.spentMicros + Attempted(cfg, c, r).value.costMicros;
            if c.spentMicros >= cfg.maxCostMicros then total == c.spentMicros
            else total < cfg.maxCostMicros + callCap
  {
  }
}
