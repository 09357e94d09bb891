/** The four writers running at once. A run is any finite interleaving of their
    transactions; worker snapshots and agent claims, once taken, may be used at
    any later point and any number of times. */
module System {
  import opened Common
  import opened Vocabulary
  import opened Ledger
  import opened Tables
  import opened Lifecycle
  import opened Invariant
  import IngestStore
  import WorkerRules
  import WorkerStore
  import AgentStore
  import Assist
  import ReviewStore

  datatype Sys = Sys(t: Tables, snapshots: set<WorkerStore.Loaded>, claims: set<AgentStore.Claim>, listed: set<nat>)

  datatype Step =
    | Deliver(merchantId: nat, event: IngestStore.OpenedEvent)
    | Rule(merchantId: nat, ruling: IngestStore.RulingEvent)
    | TakeSnapshot(id: nat, ceilingMinor: Option<int>)
    | Apply(l: WorkerStore.Loaded, decidedAt: int, at: int)
    | ListCandidate(id: nat, now: int)
    | HoldListed(id: nat)
    | HoldNamed(id: nat)
    | Release(claim: AgentStore.Claim)
    | Finish(claim: AgentStore.Claim, replies: Assist.Replies, at: int)
    | Decide(runId: nat, review: Review, now: int)

  function Taken(s: Sys, id: nat): Sys {
    match AgentStore.Hold(s.t, id)
    case Err(_) => s
    case Ok((u, c)) => s.(t := u, claims := s.claims + {c})
  }

  /** A rolled-back transaction leaves everything as it was. */
  function Next(cfg: Assist.Config, s: Sys, step: Step): Sys {
    match step
    case Deliver(merchantId, ev) =>
      if IngestStore.ValidOpened(ev) then s.(t := IngestStore.Record(s.t, merchantId, ev).0) else s
    case Rule(merchantId, ev) =>
      if IngestStore.ValidRuling(ev) then s.(t := IngestStore.RecordRuling(s.t, merchantId, ev).0) else s
    case TakeSnapshot(id, ceiling) =>
      if id < |s.t.disputes| && s.t.disputes[id].charge < |s.t.charges|
      then s.(snapshots := s.snapshots + {WorkerStore.Load(s.t, id, ceiling)}) else s
    case Apply(l, decidedAt, at) =>
      if l !in s.snapshots then s
      else
        (match WorkerStore.Apply(s.t, l, WorkerRules.Decide(WorkerStore.CandidateOf(l), decidedAt).action, at)
         case Ok(u) => s.(t := u)
         case Err(_) => s)
    case ListCandidate(id, now) =>
      if AgentStore.Selectable(s.t, id, cfg.maxAttempts, now) then s.(listed := s.listed + {id}) else s
    case HoldListed(id) => if id in s.listed then Taken(s, id) else s
    case HoldNamed(id) => Taken(s, id)
    case Release(c) =>
      if c !in s.claims then s
      else
        (match AgentStore.Release(s.t, c)
         case Ok(u) => s.(t := u)
         case Err(_) => s)
    case Finish(c, replies, at) =>
      if c !in s.claims then s
      else
        (match Assist.Attempted(cfg, c, replies)
         case None => s
         case Some(run) =>
           match AgentStore.Record(s.t, c, run, at)
           case Ok(u) => s.(t := u)
           case Err(_) => s)
    case Decide(runId, review, now) =>
      (match ReviewStore.Decide(s.t, runId, review, now)
       case Ok(u) => s.(t := u)
       case Err(_) => s)
  }

  /** Seeded charges and accounts, and nothing disputed yet. */
  predicate ChargesFresh(charges: seq<Charge>) {
    forall x | 0 <= x < |charges| ::
      charges[x].amountMinor > 0 && charges[x].refundedMinor == 0 && charges[x].status == Captured
  }

  function Start(accounts: set<Account>, charges: seq<Charge>): Sys {
    Sys(Rows(accounts, charges, [], [], [], [], [], map[]), {}, {}, {})
  }

  function Run(cfg: Assist.Config, s: Sys, steps: seq<Step>): Sys {
    if steps == [] then s
    else Next(cfg, Run(cfg, s, steps[..|steps| - 1]), steps[|steps| - 1])
  }

  /** Reached by running these steps from an empty dispute table. */
  function After(cfg: Assist.Config, accounts: set<Account>, charges: seq<Charge>, steps: seq<Step>): Tables {
    Run(cfg, Start(accounts, charges), steps).t
  }

  ghost predicate SysInv(cfg: Assist.Config, s: Sys) {
    && Inv(cfg.maxAttempts, s.t)
    && (forall l | l in s.snapshots :: WorkerStore.SnapshotOk(s.t, l))
    && (forall c | c in s.claims :: AgentStore.ClaimOk(s.t, c))
  }

  lemma SnapshotKept(m: int, t: Tables, ch: Change, u: Tables, l: WorkerStore.Loaded)
    requires RowsGood(m, t) && NothingAhead(t) && Does(m, t, ch, u) && WorkerStore.SnapshotOk(t, l)
    ensures WorkerStore.SnapshotOk(u, l)
  {
    ChangeMoves(m, t, ch, u, l.id);
    RefundStep(m, t, ch, u, t.disputes[l.id].charge);
    assert ViewOf(u, l.id).row == ViewAfter(t, ch, l.id).row;
  }

  lemma ClaimKept(m: int, t: Tables, ch: Change, u: Tables, c: AgentStore.Claim)
    requires NothingAhead(t) && Does(m, t, ch, u) && AgentStore.ClaimOk(t, c)
    ensures AgentStore.ClaimOk(u, c)
  {
    ChangeMoves(m, t, ch, u, c.disputeId);
    assert ViewOf(u, c.disputeId).row == ViewAfter(t, ch, c.disputeId).row;
    assert ViewOf(u, c.disputeId).tally == ViewAfter(t, ch, c.disputeId).tally;
  }

  /** Which change a step makes, and so which writer takes which edge. */
  function Explain(cfg: Assist.Config, s: Sys, step: Step): Change {
    if Next(cfg, s, step).t == s.t then Nothing
    else
      match step
      case Deliver(merchantId, ev) => IngestStore.RecordChange(s.t, merchantId, ev)
      case Rule(merchantId, ev) => IngestStore.RulingChange(s.t, merchantId, ev)
      case Apply(l, decidedAt, at) =>
        WorkerStore.ApplyChange(l, WorkerRules.Decide(WorkerStore.CandidateOf(l), decidedAt).action, at)
      case HoldListed(id) => AgentStore.HoldChange(s.t, id)
      case HoldNamed(id) => AgentStore.HoldChange(s.t, id)
      case Release(c) => AgentStore.ReleaseChange(s.t, c)
      case Finish(c, replies, at) =>
        var run := Assist.Attempted(cfg, c, replies);
        if run.Some? then AgentStore.RecordChange(s.t, c, run.value, at) else Nothing
      case Decide(runId, review, now) => ReviewStore.DecideChange(s.t, runId, review, now)
      case _ => Nothing
  }

  lemma FinishDoes(cfg: Assist.Config, s: Sys, c: AgentStore.Claim, replies: Assist.Replies, at: int)
    requires SysInv(cfg, s) && c in s.claims && Assist.Attempted(cfg, c, replies).Some?
    requires AgentStore.Record(s.t, c, Assist.Attempted(cfg, c, replies).value, at).Ok?
    ensures var run := Assist.Attempted(cfg, c, replies).value;
            Does(cfg.maxAttempts, s.t, AgentStore.RecordChange(s.t, c, run, at), AgentStore.Record(s.t, c, run, at).value)
  {
    Assist.AttemptedIsRecordable(cfg, c, replies);
    AgentStore.RecordIff(cfg.maxAttempts, s.t, c, Assist.Attempted(cfg, c, replies).value, at);
  }

  /** Every step commits at most one transaction, however stale what it
      carries: the birth of a dispute or one edge of the graph. */
  lemma StepDoes(cfg: Assist.Config, s: Sys, step: Step)
    requires SysInv(cfg, s)
    ensures Does(cfg.maxAttempts, s.t, Explain(cfg, s, step), Next(cfg, s, step).t)
  {
    var m := cfg.maxAttempts;
    if Next(cfg, s, step).t != s.t {
      match step
      case Deliver(merchantId, ev) => IngestStore.RecordDoes(m, s.t, merchantId, ev);
      case Rule(merchantId, ev) => IngestStore.RulingDoes(m, s.t, merchantId, ev);
      case Apply(l, decidedAt, at) => WorkerStore.ApplyDoes(m, s.t, l, decidedAt, at);
      case HoldListed(id) => AgentStore.HoldIff(m, s.t, id);
      case HoldNamed(id) => AgentStore.HoldIff(m, s.t, id);
      case Release(c) => AgentStore.ReleaseIff(m, s.t, c);
      case Finish(c, replies, at) => FinishDoes(cfg, s, c, replies, at);
      case Decide(runId, review, now) => ReviewStore.DecideIff(m, s.t, runId, review, now);
      case _ =>
    }
  }

  lemma StepIsOneTransaction(cfg: Assist.Config, s: Sys, step: Step)
    requires SysInv(cfg, s)
    ensures OneTransaction(cfg.maxAttempts, s.t, Next(cfg, s, step).t)
  {
    StepDoes(cfg, s, step);
    assert Does(cfg.maxAttempts, s.t, Explain(cfg, s, step), Next(cfg, s, step).t);
  }

  /** Who may do what: only a reviewer represents or discards, only the network
      rules, only the worker refunds, closes or expires, only an attempt writes
      a run, and only a hold claims. */
  lemma WhoTakesWhichEdge(cfg: Assist.Config, s: Sys, step: Step)
    requires Explain(cfg, s, step).Advancing?
    ensures match Explain(cfg, s, step).e {
              case Hold => (step.HoldNamed? || (step.HoldListed? && step.id in s.listed)) && step.id == Explain(cfg, s, step).k
              case Release => step.Release? && step.claim in s.claims
              case Draft(run) => step.Finish? && step.claim in s.claims
              case Requeue(run) => step.Finish? && step.claim in s.claims
              case Submit(runId) => step.Decide? && step.review == Submitted && step.runId == runId
              case Discard(runId) => step.Decide? && step.review == Discarded && step.runId == runId
              case Refund => step.Apply? && step.l in s.snapshots
              case Close => step.Apply? && step.l in s.snapshots
              case Expire => step.Apply? && step.l in s.snapshots
              case Win => step.Rule? && step.ruling.won
              case Lose => step.Rule? && !step.ruling.won
            }
  {
  }

  /** Claims are only minted by holds, snapshots only by loads. */
  lemma NewClaim(cfg: Assist.Config, s: Sys, step: Step, c: AgentStore.Claim)
    requires c in Next(cfg, s, step).claims && c !in s.claims
    ensures step.HoldListed? || step.HoldNamed?
    ensures AgentStore.Hold(s.t, step.id) == Ok((Next(cfg, s, step).t, c))
  {
  }

  lemma NewSnapshot(cfg: Assist.Config, s: Sys, step: Step, l: WorkerStore.Loaded)
    requires l in Next(cfg, s, step).snapshots && l !in s.snapshots
    ensures step.TakeSnapshot? && step.id < |s.t.disputes| && s.t.disputes[step.id].charge < |s.t.charges|
    ensures l == WorkerStore.Load(s.t, step.id, step.ceilingMinor) && Next(cfg, s, step).t == s.t
  {
  }

  lemma StepKeepsClaims(cfg: Assist.Config, s: Sys, step: Step, c: AgentStore.Claim)
    requires SysInv(cfg, s) && c in Next(cfg, s, step).claims
    requires Does(cfg.maxAttempts, s.t, Explain(cfg, s, step), Next(cfg, s, step).t)
    ensures AgentStore.ClaimOk(Next(cfg, s, step).t, c)
  {
    if c in s.claims {
      ClaimKept(cfg.maxAttempts, s.t, Explain(cfg, s, step), Next(cfg, s, step).t, c);
    } else {
      NewClaim(cfg, s, step, c);
      AgentStore.HoldIff(cfg.maxAttempts, s.t, step.id);
    }
  }

  lemma StepKeepsSnapshots(cfg: Assist.Config, s: Sys, step: Step, l: WorkerStore.Loaded)
    requires SysInv(cfg, s) && l in Next(cfg, s, step).snapshots
    requires Does(cfg.maxAttempts, s.t, Explain(cfg, s, step), Next(cfg, s, step).t)
    ensures WorkerStore.SnapshotOk(Next(cfg, s, step).t, l)
  {
    if l in s.snapshots {
      SnapshotKept(cfg.maxAttempts, s.t, Explain(cfg, s, step), Next(cfg, s, step).t, l);
    } else {
      NewSnapshot(cfg, s, step, l);
      WorkerStore.LoadOk(cfg.maxAttempts, s.t, step.id, step.ceilingMinor);
    }
  }

  lemma StepKeepsInv(cfg: Assist.Config, s: Sys, step: Step)
    requires SysInv(cfg, s)
    ensures SysInv(cfg, Next(cfg, s, step))
  {
    var m, z, ch := cfg.maxAttempts, Next(cfg, s, step), Explain(cfg, s, step);
    StepDoes(cfg, s, step);
    ChangeKeepsInv(m, s.t, ch, z.t);
    forall l | l in z.snapshots
      ensures WorkerStore.SnapshotOk(z.t, l)
    {
      StepKeepsSnapshots(cfg, s, step, l);
    }
    forall c | c in z.claims
      ensures AgentStore.ClaimOk(z.t, c)
    {
      StepKeepsClaims(cfg, s, step, c);
    }
  }

  lemma StartOk(cfg: Assist.Config, accounts: set<Account>, charges: seq<Charge>)
    requires cfg.maxAttempts >= 1 && ChargesFresh(charges)
    ensures SysInv(cfg, Start(accounts, charges))
  {
  }

  /** The invariant holds after every run. */
  lemma {:induction false} RunKeepsInv(cfg: Assist.Config, accounts: set<Account>, charges: seq<Charge>, steps: seq<Step>)
    requires cfg.maxAttempts >= 1 && ChargesFresh(charges)
    ensures SysInv(cfg, Run(cfg, Start(accounts, charges), steps))
  {
    if steps == [] {
      StartOk(cfg, accounts, charges);
    } else {
      RunKeepsInv(cfg, accounts, charges, steps[..|steps| - 1]);
      StepKeepsInv(cfg, Run(cfg, Start(accounts, charges), steps[..|steps| - 1]), steps[|steps| - 1]);
    }
  }
}
