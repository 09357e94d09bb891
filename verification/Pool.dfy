/** The worker's handler, its bounded tick, and why no open dispute is ever
    lost from sight (internal/worker/worker.go, internal/worker/events.go). */
module Pool {
  import opened Common
  import opened Vocabulary
  import opened WorkerRules
  import opened Deadlines
  import Tables
  import Lifecycle

  const MAX_BATCHES_PER_TICK: nat := 20

  // -------------------------------------------------------------- one handler

  datatype LockReply = LockFailed | LockHeldByAnother | LockTaken

  datatype LoadReply = LoadFailed | NotFound | Found(candidate: Candidate)

  datatype ApplyReply = Applied | RefusedAsStale | ApplyFailed

  /** What becomes of the lock meanwhile: whether a claim whose reply is lost
      reached Redis, whether the time to live runs out under the handler and who
      takes the lock then, and whether Redis hears of the release. */
  datatype Lapse = Holds | Lapsed | TakenBy(token: nat)

  datatype LockLife = LockLife(claimReached: bool, lapse: Lapse, releaseUp: bool)

  /** What the handler met on its way: each field is read at most once. */
  datatype Met = Met(lockReply: LockReply, loadReply: LoadReply, decidedAt: int, applyReply: ApplyReply,
                     scheduledAt: int, redisUp: bool, life: LockLife)

  /** The locks: which dispute is locked, and by whose token. */
  class Locks {
    var held: map<nat, nat>

    constructor ()
      ensures held == map[]
    {
      held := map[];
    }

    /** SETNX. The environment may lose the reply, or the claim with it. */
    method Acquire(id: nat, token: nat, up: bool, reached: bool) returns (reply: LockReply)
      modifies this
      ensures reply == if !up then LockFailed else if id in old(held) then LockHeldByAnother else LockTaken
      ensures held == if (up || reached) && id !in old(held) then old(held)[id := token] else old(held)
    {
      if (up || reached) && id !in held {
        held := held[id := token];
        return if up then LockTaken else LockFailed;
      }
      return if up then LockHeldByAnother else LockFailed;
    }

    /** The script: deletes the lock only if this token still holds it. */
    method Release(id: nat, token: nat, up: bool) returns (was: bool)
      modifies this
      ensures was == (up && id in old(held) && old(held)[id] == token)
      ensures held == if was then old(held) - {id} else old(held)
    {
      was := up && id in held && held[id] == token;
      if was {
        held := held - {id};
      }
    }

    /** The environment ends a time to live, and another worker may step in. */
    method Elapse(id: nat, lapse: Lapse)
      modifies this
      ensures held == AfterLapse(old(held), id, lapse)
    {
      match lapse {
        case Holds =>
        case Lapsed => held := held - {id};
        case TakenBy(other) => held := held[id := other];
      }
    }
  }

  function AfterLapse(held: map<nat, nat>, id: nat, lapse: Lapse): map<nat, nat> {
    match lapse
    case Holds => held
    case Lapsed => held - {id}
    case TakenBy(other) => held[id := other]
  }

  /** The lock's answer is the state's to give, unless Redis is down. */
  function Asked(held: map<nat, nat>, id: nat, met: Met): Met {
    met.(lockReply := if met.lockReply == LockFailed then LockFailed
                      else if id in held then LockHeldByAnother else LockTaken)
  }

  /** The locks when the handler is done. */
  function LocksAfter(held: map<nat, nat>, id: nat, token: nat, met: Met): map<nat, nat> {
    if id in held then held
    else if met.lockReply == LockFailed then (if met.life.claimReached then held[id := token] else held)
    else
      var later := AfterLapse(held[id := token], id, met.life.lapse);
      if met.life.releaseUp && id in later && later[id] == token then later - {id} else later
  }

  /** How a handler ends. */
  datatype Exit = Failed | Contended | Gone | Skipped | Escalated(deadlineAt: int) | Stale | Decided

  function ExitOf(met: Met): Exit {
    match met.lockReply
    case LockFailed => Failed
    case LockHeldByAnother => Contended
    case LockTaken =>
      match met.loadReply
      case LoadFailed => Failed
      case NotFound => Gone
      case Found(c) =>
        match Decide(c, met.decidedAt).action
        case DoSkip => Skipped
        case DoEscalate => Escalated(c.deadlineAt)
        case _ =>
          match met.applyReply
          case Applied => Decided
          case RefusedAsStale => Exit.Stale
          case ApplyFailed => Failed
  }

  /** The zero time, which lies before every clock reading. */
  const ZERO_TIME: int := -62_135_596_800 * SECOND

  /** The instant a handler asks to be looked at again, if it asks. Failures
      have no preference and ask for the zero time. */
  function Again(exit: Exit): Option<int> {
    match exit
    case Failed => Some(ZERO_TIME)
    case Contended => Some(ZERO_TIME)
    case Escalated(at) => Some(at)
    case _ => None
  }

  function Rescheduled(index: Index, id: nat, exit: Exit, met: Met, lookahead: int): Index {
    if Again(exit).Some? && met.redisUp
    then index[id := Unix(NextVisit(Again(exit).value, met.scheduledAt, lookahead))]
    else index
  }

  /** The pool: its index, the locks, and its counters. */
  class Worker {
    const lookahead: int
    const batchSize: nat
    const deadlines: SortedSet
    const locks: Locks
    var claimed: nat
    var decided: nat
    var skipped: nat
    var stale: nat
    var failed: nat
    var contended: nat

    constructor (deadlines: SortedSet, locks: Locks, lookahead: int, batchSize: nat)
      requires batchSize >= 1
      ensures this.deadlines == deadlines && this.locks == locks
      ensures this.lookahead == lookahead && this.batchSize == batchSize
      ensures Handled() == 0 && claimed == 0
    {
      this.deadlines, this.locks, this.lookahead, this.batchSize := deadlines, locks, lookahead, batchSize;
      claimed, decided, skipped, stale, failed, contended := 0, 0, 0, 0, 0, 0;
    }

    function Handled(): nat
      reads this
    {
      decided + skipped + stale + failed + contended
    }

    method RescheduleSoon(id: nat, met: Met)
      modifies deadlines
      ensures deadlines.scores == Rescheduled(old(deadlines.scores), id, Failed, met, lookahead)
    {
      if met.redisUp {
        deadlines.Schedule(id, NextVisit(ZERO_TIME, met.scheduledAt, lookahead));
      }
    }

    /** Decides one dispute. Whatever happens, exactly one counter moves, the
        lock is handed back unless Redis or its time to live prevent it, and the
        dispute goes back to the index exactly on the exits that ask for it,
        outside the claim window. */
    method Handle(id: nat, token: nat, met: Met) returns (exit: Exit)
      modifies this, deadlines, locks
      ensures exit == ExitOf(Asked(old(locks.held), id, met))
      ensures Handled() == old(Handled()) + 1 && claimed == old(claimed)
      ensures decided == old(decided) + (if exit == Decided then 1 else 0)
      ensures stale == old(stale) + (if exit == Exit.Stale then 1 else 0)
      ensures contended == old(contended) + (if exit == Contended then 1 else 0)
      ensures failed == old(failed) + (if exit == Failed then 1 else 0)
      ensures locks.held == LocksAfter(old(locks.held), id, token, met)
      ensures deadlines.scores == Rescheduled(old(deadlines.scores), id, exit, met, lookahead)
    {
      var reply := locks.Acquire(id, token, met.lockReply != LockFailed, met.life.claimReached);
      if reply == LockFailed {
        failed := failed + 1;
        RescheduleSoon(id, met);
        return Failed;
      }
      if reply == LockHeldByAnother {
        contended := contended + 1;
        RescheduleSoon(id, met);
        return Contended;
      }
      exit := Work(id, met);
      locks.Elapse(id, met.life.lapse);
      var was := locks.Release(id, token, met.life.releaseUp);
    }

    /** What is done under the lock. */
    method Work(id: nat, met: Met) returns (exit: Exit)
      modifies this, deadlines
      ensures exit == ExitOf(met.(lockReply := LockTaken))
      ensures Handled() == old(Handled()) + 1 && claimed == old(claimed)
      ensures decided == old(decided) + (if exit == Decided then 1 else 0)
      ensures stale == old(stale) + (if exit == Exit.Stale then 1 else 0)
      ensures contended == old(contended)
      ensures failed == old(failed) + (if exit == Failed then 1 else 0)
      ensures deadlines.scores == Rescheduled(old(deadlines.scores), id, exit, met, lookahead)
    {
      match met.loadReply {
        case LoadFailed =>
          failed := failed + 1;
          RescheduleSoon(id, met);
          return Failed;
        case NotFound =>
          skipped := skipped + 1;
          return Gone;
        case Found(c) =>
          var decision := Decide(c, met.decidedAt);
          if decision.action == DoSkip {
            skipped := skipped + 1;
            return Skipped;
          } else if decision.action == DoEscalate {
            skipped := skipped + 1;
            if met.redisUp {
              deadlines.Schedule(id, NextVisit(c.deadlineAt, met.scheduledAt, lookahead));
            }
            return Escalated(c.deadlineAt);
          } else if met.applyReply == RefusedAsStale {
            stale := stale + 1;
            return Exit.Stale;
          } else if met.applyReply == ApplyFailed {
            failed := failed + 1;
            RescheduleSoon(id, met);
            return Failed;
          } else {
            decided := decided + 1;
            return Decided;
          }
      }
    }

    /** One claim and the handling of everything it returned: the index then is
        what was left of it, with each dispute put back as its own exit asks. */
    method DrainOnce(now: int, meets: nat -> Met, tokens: nat -> nat) returns (n: nat, ghost ids: seq<nat>)
      modifies this, deadlines, locks
      ensures Claims(old(deadlines.scores), Unix(now + lookahead), batchSize, ids)
      ensures n == |ids| && n <= batchSize
      ensures Handled() == old(Handled()) + n && claimed == old(claimed)
      ensures (deadlines.scores, locks.held) ==
                AfterAll(Without(old(deadlines.scores), ids), old(locks.held), ids, meets, tokens, lookahead)
    {
      var batch := deadlines.Claim(now + lookahead, batchSize);
      ids := batch;
      ghost var index0 := deadlines.scores;
      var i := 0;
      while i < |batch|
        invariant 0 <= i <= |batch|
        invariant Handled() == old(Handled()) + i && claimed == old(claimed)
        invariant (deadlines.scores, locks.held) == AfterAll(index0, old(locks.held), batch[..i], meets, tokens, lookahead)
      {
        assert batch[..i + 1][..i] == batch[..i];
        var exit := Handle(batch[i], tokens(batch[i]), meets(batch[i]));
        i := i + 1;
      }
      assert batch[..|batch|] == batch;
      n := |batch|;
    }

    /** One tick of the poll loop: at most 20 batches, stopping at the first
        batch that is not full and at the first claim Redis refuses, so the
        loop always returns to its select. */
    method Tick(nows: nat -> int, redis: nat -> bool, meets: nat -> Met, tokens: nat -> nat) returns (batches: nat)
      requires batchSize >= 1
      modifies this, deadlines, locks
      ensures batches <= 20
      ensures claimed - old(claimed) <= batches * batchSize
      ensures claimed - old(claimed) == Handled() - old(Handled())
      ensures claimed - old(claimed) < batches * batchSize || batches == 20 || !redis(batches)
    {
      batches := 0;
      var full := true;
      ghost var room := 0;
      while batches < MAX_BATCHES_PER_TICK && full
        invariant batches <= MAX_BATCHES_PER_TICK && room == batches * batchSize
        invariant claimed - old(claimed) == Handled() - old(Handled())
        invariant if full then claimed - old(claimed) == room else claimed - old(claimed) < room
        decreases MAX_BATCHES_PER_TICK - batches, full
      {
        if !redis(batches) {
          break;
        }
        var n := DrainCounted(nows(batches), meets, tokens);
        claimed := claimed + n;
        full := n == batchSize;
        batches, room := batches + 1, room + batchSize;
        assert batches * batchSize == (batches - 1) * batchSize + batchSize;
      }
    }

    /** What the tick needs of a batch. */
    method DrainCounted(now: int, meets: nat -> Met, tokens: nat -> nat) returns (n: nat)
      modifies this, deadlines, locks
      ensures n <= batchSize && Handled() == old(Handled()) + n && claimed == old(claimed)
    {
      ghost var ids;
      n, ids := DrainOnce(now, meets, tokens);
    }
  }

  /** The index and the locks after these disputes were handled in turn. */
  function AfterAll(index: Index, held: map<nat, nat>, ids: seq<nat>, meets: nat -> Met, tokens: nat -> nat, lookahead: int)
    : (Index, map<nat, nat>)
  {
    if ids == [] then (index, held)
    else
      var id := ids[|ids| - 1];
      var (x, h) := AfterAll(index, held, ids[..|ids| - 1], meets, tokens, lookahead);
      (Rescheduled(x, id, ExitOf(Asked(h, id, meets(id))), meets(id), lookahead), LocksAfter(h, id, tokens(id), meets(id)))
  }

  /** A handler that took the lock leaves it standing exactly when its release
      was not heard before the time to live ran out; and it never takes away a
      lock that another worker took in the meantime. */
  lemma LockLeftStandingIff(held: map<nat, nat>, id: nat, token: nat, met: Met)
    requires Asked(held, id, met).lockReply == LockTaken
    requires met.life.lapse != TakenBy(token)
    ensures var z := LocksAfter(held, id, token, met);
            && (id in z && z[id] == token <==> met.life.lapse == Holds && !met.life.releaseUp)
            && (met.life.lapse.TakenBy? ==> id in z && z[id] == met.life.lapse.token)
            && z - {id} == held - {id}
  {
  }

  /** While a lock stands, every handler of that dispute is turned away and
      leaves both the lock and the dispute's row alone; the dispute goes back to
      the index, unless Redis is down. */
  lemma StandingLockTurnsAway(held: map<nat, nat>, index: Index, id: nat, token: nat, met: Met, lookahead: int)
    requires id in held && met.lockReply != LockFailed
    ensures var exit := ExitOf(Asked(held, id, met));
            && exit == Contended && LocksAfter(held, id, token, met) == held
            && (met.redisUp ==> id in Rescheduled(index, id, exit, met, lookahead))
  {
  }

  /** Whether this action, taken on the row as read, writes to the dispute. */
  predicate Writes(action: Action) {
    action == DoRefund || action == DoClose || action == DoExpire
  }

  /** How a handler that took the lock ends, read off the replies: a dispute
      counts as decided if and only if a write was due and the transaction that
      made it committed, as stale if and only if that transaction was refused
      because the row had moved, and as failed if and only if the row could not
      be read or the transaction failed in any other way. */
  lemma ExitIff(met: Met)
    requires met.lockReply == LockTaken
    ensures var exit := ExitOf(met);
            var read := met.loadReply.Found?;
            var due := read && Writes(Decide(met.loadReply.candidate, met.decidedAt).action);
            && (exit == Decided <==> due && met.applyReply == Applied)
            && (exit == Exit.Stale <==> due && met.applyReply == RefusedAsStale)
            && (exit == Failed <==> met.loadReply == LoadFailed || (due && met.applyReply == ApplyFailed))
            && (exit == Gone <==> met.loadReply == NotFound)
            && (exit.Escalated? <==> read && Decide(met.loadReply.candidate, met.decidedAt).action == DoEscalate)
            && (exit.Escalated? ==> exit.deadlineAt == met.loadReply.candidate.deadlineAt)
            && (exit == Skipped <==> read && Decide(met.loadReply.candidate, met.decidedAt).action == DoSkip)
            && exit != Contended
  {
  }

  function Later(a: int, b: int): int { if a > b then a else b }

  /** Where the dispute is looked for again: after a failure or a lost lock, as
      soon as the claim window and the backoff allow; after an escalation, at its
      deadline unless that is sooner than that; and nowhere new otherwise. */
  lemma NextVisitIff(index: Index, id: nat, held: map<nat, nat>, met: Met, lookahead: int)
    ensures var exit := ExitOf(Asked(held, id, met));
            var soon := met.scheduledAt + lookahead + 30_000_000_000;
            Rescheduled(index, id, exit, met, lookahead) ==
              if !met.redisUp then index
              else if exit == Failed || exit == Contended then
                index[id := Later(-62_135_596_800_000_000_000, soon) / 1_000_000_000]
              else if exit.Escalated? then index[id := Later(exit.deadlineAt, soon) / 1_000_000_000]
              else index
  {
  }

  /** What the lock itself does to a handler: it fails where Redis does not
      answer, gives way to a lock that stands, and otherwise works under its own. */
  lemma LockDecides(held: map<nat, nat>, id: nat, token: nat, met: Met)
    ensures var asked := Asked(held, id, met);
            && (met.lockReply == LockFailed ==> ExitOf(asked) == Failed)
            && (met.lockReply != LockFailed && id in held ==> ExitOf(asked) == Contended)
            && (met.lockReply != LockFailed && id !in held ==> asked == met.(lockReply := LockTaken))
            && (id !in held && met.lockReply == LockFailed ==>
                  LocksAfter(held, id, token, met) == if met.life.claimReached then held[id := token] else held)
  {
  }

  /** A handler lets go of a dispute for good exactly when it found it gone or
      off the clock, found a draft with time left, decided it, or lost the
      race; every other exit asks for it back. */
  lemma WhenAHandlerLetsGo(met: Met)
    requires met.lockReply == LockTaken && met.loadReply.Found?
    ensures var c := met.loadReply.candidate;
            var exit := ExitOf(met);
            && (Again(exit).None? <==> exit in {Skipped, Exit.Stale, Decided})
            && (exit == Skipped <==> c.resolved || !OnTheClock(c.state) || (c.state == DraftReady && met.decidedAt < c.deadlineAt))
  {
  }

  /** A dispute that has left the clock never comes back to it, so letting go
      of one is safe for ever. */
  lemma OffTheClockForEver(m: int, v: Lifecycle.View, e: Tables.Edge, at: int)
    requires Lifecycle.Enabled(m, v, e) && !OnTheClock(v.row.state)
    ensures !OnTheClock(Lifecycle.Fire(v, e, at).row.state)
  {
  }
}
