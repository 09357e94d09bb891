/** The automated policy (internal/worker/rules.go). */
module WorkerRules {
  import opened Common
  import opened Vocabulary

  datatype Action = DoRefund | DoClose | DoEscalate | DoExpire | DoSkip

  datatype Reason =
    | AlreadyResolved | DeadlinePassed | AwaitingReviewer
    | ChargeExhausted | NoCeiling | AboveCeiling | ExceedsRemaining | WithinCeiling
    | CreditIssued | EvidenceLed | FraudCode | UnrecognisedCode

  datatype Decision = Decision(action: Action, toState: Option<State>, reason: Reason)

  datatype Category = Fraud | Service | Processing | Unknown

  datatype Candidate = Candidate(kind: Kind, state: State, reasonCode: string, amountMinor: int,
                                 deadlineAt: int, resolved: bool,
                                 ceilingMinor: Option<int>, remainingMinor: int)

  function CategoryOf(code: string): Category {
    if code in {"10.4", "4837", "F29", "UA02", "UA01"} then Fraud
    else if code in {"13.1", "13.3", "13.6", "13.7", "4853", "4855", "4841", "C08", "C31", "C02", "RG", "RM", "AP"} then Service
    else if code in {"12.5", "12.6.1", "4834", "P08", "DP"} then Processing
    else Unknown
  }

  function Escalate(reason: Reason): Decision {
    Decision(DoEscalate, None, reason)
  }

  function Decide(c: Candidate, now: int): Decision {
    if c.resolved || !OnTheClock(c.state) then Decision(DoSkip, None, AlreadyResolved)
    else if now >= c.deadlineAt then Decision(DoExpire, Some(Expired), DeadlinePassed)
    else if c.state == DraftReady then Decision(DoSkip, None, AwaitingReviewer)
    else
      match c.kind
      case Alert =>
        if c.remainingMinor <= 0 then Decision(DoClose, Some(Refunded), ChargeExhausted)
        else if c.ceilingMinor.None? then Escalate(NoCeiling)
        else if c.amountMinor > c.ceilingMinor.value then Escalate(AboveCeiling)
        else if c.amountMinor > c.remainingMinor then Escalate(ExceedsRemaining)
        else Decision(DoRefund, Some(Refunded), WithinCeiling)
      case Chargeback =>
        if c.remainingMinor <= 0 then Escalate(CreditIssued)
        else
          match CategoryOf(c.reasonCode)
          case Service => Escalate(EvidenceLed)
          case Processing => Escalate(EvidenceLed)
          case Fraud => Escalate(FraudCode)
          case Unknown => Escalate(UnrecognisedCode)
  }

  /** Money is only ever returned on an open alert, inside its window, under a
      ceiling the merchant set, and within what is left of the charge. */
  lemma RefundIff(c: Candidate, now: int)
    ensures Decide(c, now).action == DoRefund <==>
            && c.kind == Alert && !c.resolved && (c.state == Received || c.state == Resolving)
            && now < c.deadlineAt
            && c.ceilingMinor.Some? && c.amountMinor <= c.ceilingMinor.value
            && 0 < c.remainingMinor && c.amountMinor <= c.remainingMinor
  {
  }

  /** The policy never concedes and never represents: the only thing it does to
      a chargeback is write down that its window closed, and it does that to
      any dispute on the clock the moment the deadline is reached. */
  lemma OnlyTheClockMovesAChargeback(c: Candidate, now: int)
    ensures var d := Decide(c, now);
            && (d.toState.Some? ==> d.toState.value == Refunded || d.toState.value == Expired)
            && (d.toState.Some? <==> d.action in {DoRefund, DoClose, DoExpire})
            && (c.kind == Chargeback && d.toState.Some? ==> d.action == DoExpire)
            && (d.action == DoExpire <==> !c.resolved && OnTheClock(c.state) && now >= c.deadlineAt)
  {
  }

  /** Which action the policy takes, for every dispute and every moment. An
      alert on a charge that has nothing left to return is closed, whatever the
      merchant's ceiling; only what is neither closed nor refunded is left to a
      person. */
  lemma ActionIff(c: Candidate, now: int)
    ensures var a := Decide(c, now).action;
            var awaited := !c.resolved && (c.state == Received || c.state == Resolving) && now < c.deadlineAt;
            && (a == DoClose <==> awaited && c.kind == Alert && c.remainingMinor <= 0)
            && (a == DoEscalate <==>
                  awaited && (c.kind == Chargeback ||
                              (c.remainingMinor > 0 && (c.ceilingMinor.None? || c.amountMinor > c.ceilingMinor.value ||
                                                        c.amountMinor > c.remainingMinor))))
            && (a == DoExpire <==>
                  !c.resolved && (c.state == Received || c.state == Resolving || c.state == DraftReady) && now >= c.deadlineAt)
            && (a == DoSkip <==>
                  || c.resolved || c.state in {Represented, Refunded, Won, Lost, Expired}
                  || (c.state == DraftReady && now < c.deadlineAt))
            && Decide(c, now).toState == if a == DoClose || a == DoRefund then Some(Refunded)
                                         else if a == DoExpire then Some(Expired) else None
  {
  }

  /** Why a dispute is left to a person. */
  lemma EscalatedBecause(c: Candidate, now: int)
    requires Decide(c, now).action == DoEscalate
    ensures var why := Decide(c, now).reason;
            var argued := c.kind == Chargeback && c.remainingMinor > 0;
            var fraud := c.reasonCode in {"10.4", "4837", "F29", "UA01", "UA02"};
            var service := c.reasonCode in {"13.1", "13.3", "13.6", "13.7", "4841", "4853", "4855", "C02", "C08", "C31",
                                            "RG", "RM", "AP"};
            var processing := c.reasonCode in {"12.5", "12.6.1", "4834", "P08", "DP"};
            && (why == NoCeiling <==> c.kind == Alert && c.ceilingMinor.None?)
            && (why == AboveCeiling <==> c.kind == Alert && c.ceilingMinor.Some? && c.amountMinor > c.ceilingMinor.value)
            && (why == ExceedsRemaining <==> c.kind == Alert && c.ceilingMinor.Some? && c.amountMinor <= c.ceilingMinor.value)
            && (why == CreditIssued <==> c.kind == Chargeback && c.remainingMinor <= 0)
            && (why == FraudCode <==> argued && fraud)
            && (why == EvidenceLed <==> argued && (service || processing))
            && (why == UnrecognisedCode <==> argued && !fraud && !service && !processing)
  {
  }
}
