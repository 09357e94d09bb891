/** One webhook, delivered any number of times: the Redis claim in front, the
    unique key behind it, and every way a handler can end in between
    (internal/ingest/handler.go, internal/ingest/idempotency.go). */
module Delivery {
  import opened Common
  import opened Ledger
  import opened Tables
  import opened System
  import opened Database
  import opened Vocabulary
  import IngestStore
  import Transactions
  import WorkerRules
  import WorkerStore
  import AgentStore
  import Assist
  import ReviewStore

  /** Redis "seen" keys. The time to live is the environment's to end. */
  class Guard {
    var seen: set<string>

    constructor ()
      ensures seen == {}
    {
      seen := {};
    }

    /** SETNX: true for exactly one caller until the key goes away. */
    method Claim(id: string) returns (first: bool)
      modifies this
      ensures first == (id !in old(seen))
      ensures seen == old(seen) + {id}
    {
      first := id !in seen;
      if first {
        seen := seen + {id};
      }
    }

    method Release(id: string)
      modifies this
      ensures seen == old(seen) - {id}
    {
      seen := seen - {id};
    }
  }

  /** A duplicate is answered twice over: by Redis alone, or by the unique key.
      Error500 stands for every reply that asks the sender to try again. */
  datatype Status = Accepted202 | Unlinkable422 | Duplicate200 | SeenByRedis200 | Error500

  function StatusOf(a: IngestStore.Answer): Status {
    match a
    case Recorded(_) => Accepted202
    case Duplicate => Duplicate200
    case Unlinkable => Unlinkable422
    case RolledBack(_) => Error500
  }

  /** ServeHTTP from the claim on, undisturbed: the claim is kept exactly when
      the work behind it committed, and an error leaves the sender free to try
      again. */
  method ServeOpened(guard: Guard, db: Db, merchantId: nat, ev: IngestStore.OpenedEvent) returns (status: Status)
    modifies guard, db
    ensures ev.id in old(guard.seen) ==>
              status == SeenByRedis200 && guard.seen == old(guard.seen) && db.Contents() == old(db.Contents())
    ensures ev.id !in old(guard.seen) ==>
              var (t, answer) := IngestStore.Record(old(db.Contents()), merchantId, ev);
              && db.Contents() == t
              && (status == Accepted202 <==> answer.Recorded?)
              && (status == Unlinkable422 <==> answer == IngestStore.Unlinkable)
              && (status == Duplicate200 <==> answer == IngestStore.Duplicate)
              && (status == Error500 <==> answer.RolledBack?)
              && (ev.id in guard.seen <==> status != Error500)
              && (status != Error500 ==> ev.id in db.webhooks)
              && guard.seen - {ev.id} == old(guard.seen)
  {
    var first := guard.Claim(ev.id);
    if !first {
      assert old(guard.seen) + {ev.id} == old(guard.seen);
      return SeenByRedis200;
    }
    var answer := Transactions.RecordOpened(db, merchantId, ev);
    if answer.RolledBack? {
      guard.Release(ev.id);
    }
    return StatusOf(answer);
  }

  // ------------------------------------------------------------ interleaved

  /** A delivery that has passed the checks before the claim; one that has not
      is answered 400 and changes nothing. */
  predicate IsDelivery(step: Step) {
    || (step.Deliver? && IngestStore.ValidOpened(step.event))
    || (step.Rule? && IngestStore.ValidRuling(step.ruling))
  }

  type Delivered = step: Step | IsDelivery(step)
    witness Rule(0, IngestStore.RulingEvent("e", "d", true, 0))

  /** A delivery in a handler's hands, or one whose write failed and whose
      claim is about to be handed back. */
  datatype Hand = Writing(step: Delivered) | Releasing(step: Delivered)

  datatype World = World(
    s: Sys,
    keys: set<string>,
    hands: map<nat, Hand>,
    log: seq<Step>,
    stranded: set<string>,
    answers: seq<(string, Status)>)

  datatype Event =
    | Receive(hand: nat, step: Delivered)
    | ClaimFails(step: Delivered, reached: bool)
    | Write(hand: nat)
    | WriteFails(hand: nat)
    | WriteUnseen(hand: nat)
    | HandBack(hand: nat, redisUp: bool)
    | Crash(hand: nat)
    | Expire(key: string)
    | Flush
    | Elsewhere(other: Step)

  function KeyOf(step: Delivered): string {
    if step.Deliver? then step.event.id else step.ruling.id
  }

  function Answered(s: Sys, step: Delivered): Status {
    StatusOf(if step.Deliver? then IngestStore.Record(s.t, step.merchantId, step.event).1
             else IngestStore.RecordRuling(s.t, step.merchantId, step.ruling).1)
  }

  predicate Can(w: World, e: Event) {
    match e
    case Receive(hand, _) => hand !in w.hands
    case Write(hand) => hand in w.hands && w.hands[hand].Writing?
    case WriteFails(hand) => hand in w.hands && w.hands[hand].Writing?
    case WriteUnseen(hand) => hand in w.hands && w.hands[hand].Writing?
    case HandBack(hand, _) => hand in w.hands && w.hands[hand].Releasing?
    case Crash(hand) => hand in w.hands
    case Elsewhere(step) => !IsDelivery(step)
    case _ => true
  }

  /** Runs the transaction and remembers it if it was the first of its id. */
  function Committed(cfg: Assist.Config, w: World, step: Delivered): World {
    if Answered(w.s, step) == Error500 then w
    else
      w.(s := Next(cfg, w.s, step),
         log := if KeyOf(step) in w.s.t.webhooks then w.log else w.log + [step])
  }

  function Do(cfg: Assist.Config, w: World, e: Event): World
    requires Can(w, e)
  {
    match e
    case Receive(hand, step) =>
      if KeyOf(step) in w.keys then w.(answers := w.answers + [(KeyOf(step), SeenByRedis200)])
      else w.(keys := w.keys + {KeyOf(step)}, hands := w.hands[hand := Writing(step)])
    case ClaimFails(step, reached) =>
      var key, lost := KeyOf(step), reached && KeyOf(step) !in w.keys;
      w.(keys := if lost then w.keys + {key} else w.keys,
         stranded := if lost then w.stranded + {key} else w.stranded,
         answers := w.answers + [(key, Error500)])
    case Write(hand) =>
      var step := w.hands[hand].step;
      var status := Answered(w.s, step);
      if status == Error500 then w.(hands := w.hands[hand := Releasing(step)])
      else Committed(cfg, w, step).(hands := w.hands - {hand}, answers := w.answers + [(KeyOf(step), status)])
    case WriteFails(hand) => w.(hands := w.hands[hand := Releasing(w.hands[hand].step)])
    case WriteUnseen(hand) => Committed(cfg, w, w.hands[hand].step).(hands := w.hands[hand := Releasing(w.hands[hand].step)])
    case HandBack(hand, up) =>
      var key := KeyOf(w.hands[hand].step);
      w.(keys := if up then w.keys - {key} else w.keys,
         stranded := if up then w.stranded else w.stranded + {key},
         hands := w.hands - {hand},
         answers := w.answers + [(key, Error500)])
    case Crash(hand) => w.(hands := w.hands - {hand}, stranded := w.stranded + {KeyOf(w.hands[hand].step)})
    case Expire(key) => w.(keys := w.keys - {key})
    case Flush => w.(keys := {})
    case Elsewhere(step) => w.(s := Next(cfg, w.s, step), log := w.log + [step])
  }

  /** The ids delivered in a log, in order. */
  function Ids(log: seq<Step>): seq<string> {
    if log == [] then []
    else
      var step := log[|log| - 1];
      Ids(log[..|log| - 1]) + if IsDelivery(step) then [KeyOf(step)] else []
  }

  predicate Distinct(ids: seq<string>) {
    forall i, j | 0 <= i < j < |ids| :: ids[i] != ids[j]
  }

  ghost predicate InFlight(w: World, key: string) {
    exists h :: h in w.hands && KeyOf(w.hands[h].step) == key
  }

  /** A key stands for work committed, in flight, or stranded by a crash, a lost
      release or a claim whose reply was lost. */
  ghost predicate Stands(w: World, key: string) {
    key in w.s.t.webhooks || InFlight(w, key) || key in w.stranded
  }

  /** After answer a, somebody was told to send this event again. */
  predicate RetryAsked(answers: seq<(string, Status)>, a: nat, key: string) {
    exists b :: a < b < |answers| && answers[b] == (key, Error500)
  }

  /** The tables are what one pass over the log makes of the first ones, and the
      log holds each delivered id once; every key stands for something; no answer
      but Redis's own and the error is given for work that is not committed; and
      an answer of Redis's own stands for what its key stood for, unless that
      work failed and its sender was asked to try again. */
  ghost predicate Sound(cfg: Assist.Config, start: Sys, w: World) {
    && w.s == Run(cfg, start, w.log)
    && Distinct(Ids(w.log))
    && (forall id :: id in Ids(w.log) <==> id in w.s.t.webhooks)
    && (forall key | key in w.keys :: Stands(w, key))
    && AnswersKept(w.answers, w.s.t.webhooks.Keys)
    && (forall a | 0 <= a < |w.answers| && w.answers[a].1 == SeenByRedis200 ::
          Stands(w, w.answers[a].0) || RetryAsked(w.answers, a, w.answers[a].0))
  }

  /** An answer that claims to come from the database. */
  predicate FromTheDatabase(answer: (string, Status)) {
    answer.1 != SeenByRedis200 && answer.1 != Error500
  }

  predicate AnswersKept(answers: seq<(string, Status)>, logged: set<string>) {
    forall i | 0 <= i < |answers| && FromTheDatabase(answers[i]) :: answers[i].0 in logged
  }

  // ------------------------------------------------------------------ proofs

  lemma IdsSnoc(log: seq<Step>, step: Step)
    ensures Ids(log + [step]) == Ids(log) + if IsDelivery(step) then [KeyOf(step)] else []
  {
    assert (log + [step])[..|log|] == log;
  }

  lemma RunSnoc(cfg: Assist.Config, s: Sys, log: seq<Step>, step: Step)
    ensures Run(cfg, s, log + [step]) == Next(cfg, Run(cfg, s, log), step)
  {
    assert (log + [step])[..|log|] == log;
  }

  lemma ApplyKeepsLog(t: Tables, l: WorkerStore.Loaded, action: WorkerRules.Action, at: int)
    ensures WorkerStore.Apply(t, l, action, at).Ok? ==> WorkerStore.Apply(t, l, action, at).value.webhooks == t.webhooks
  {
  }

  lemma AgentKeepsLog(t: Tables, id: nat, c: AgentStore.Claim, run: AgentStore.Run, at: int)
    ensures AgentStore.Hold(t, id).Ok? ==> AgentStore.Hold(t, id).value.0.webhooks == t.webhooks
    ensures AgentStore.Release(t, c).Ok? ==> AgentStore.Release(t, c).value.webhooks == t.webhooks
    ensures AgentStore.Record(t, c, run, at).Ok? ==> AgentStore.Record(t, c, run, at).value.webhooks == t.webhooks
  {
  }

  lemma ReviewKeepsLog(t: Tables, runId: nat, review: Review, now: int)
    ensures ReviewStore.Decide(t, runId, review, now).Ok? ==>
              ReviewStore.Decide(t, runId, review, now).value.webhooks == t.webhooks
  {
  }

  /** Nobody but the webhook path writes the delivery log. */
  lemma OthersKeepLog(cfg: Assist.Config, s: Sys, step: Step)
    requires !IsDelivery(step)
    ensures Next(cfg, s, step).t.webhooks == s.t.webhooks
  {
    if Next(cfg, s, step).t != s.t {
      match step
      case Apply(l, decidedAt, at) =>
        ApplyKeepsLog(s.t, l, WorkerRules.Decide(WorkerStore.CandidateOf(l), decidedAt).action, at);
      case HoldListed(id) => AgentKeepsLog(s.t, id, AgentStore.Claim(0, 0, 0, 0), AgentStore.Run(Failed, false, 0, false), 0);
      case HoldNamed(id) => AgentKeepsLog(s.t, id, AgentStore.Claim(0, 0, 0, 0), AgentStore.Run(Failed, false, 0, false), 0);
      case Release(c) => AgentKeepsLog(s.t, 0, c, AgentStore.Run(Failed, false, 0, false), 0);
      case Finish(c, replies, at) => AgentKeepsLog(s.t, 0, c, Assist.Attempted(cfg, c, replies).value, at);
      case Decide(runId, review, now) => ReviewKeepsLog(s.t, runId, review, now);
      case _ =>
    }
  }

  lemma DeliveryLogs(cfg: Assist.Config, s: Sys, step: Delivered)
    ensures Next(cfg, s, step).t.webhooks.Keys ==
            if Answered(s, step) == Error500 then s.t.webhooks.Keys else s.t.webhooks.Keys + {KeyOf(step)}
    ensures KeyOf(step) in s.t.webhooks || Answered(s, step) == Error500 ==> Next(cfg, s, step) == s
  {
  }

  lemma CommittedSound(cfg: Assist.Config, start: Sys, w: World, step: Delivered)
    requires w.s == Run(cfg, start, w.log) && Distinct(Ids(w.log))
    requires forall id :: id in Ids(w.log) <==> id in w.s.t.webhooks
    ensures var z := Committed(cfg, w, step);
            && z.s == Run(cfg, start, z.log)
            && Distinct(Ids(z.log))
            && (forall id :: id in Ids(z.log) <==> id in z.s.t.webhooks)
            && w.s.t.webhooks.Keys <= z.s.t.webhooks.Keys
            && (Answered(w.s, step) != Error500 ==> KeyOf(step) in z.s.t.webhooks)
  {
    DeliveryLogs(cfg, w.s, step);
    RunSnoc(cfg, start, w.log, step);
    IdsSnoc(w.log, step);
  }

  /** A delivery nobody disturbs: claimed, written and, if the write fails, handed
      back. Its key stays exactly where the work committed, and the sender hears
      what became of it. */
  lemma ServedUndisturbed(cfg: Assist.Config, w: World, hand: nat, step: Delivered)
    requires hand !in w.hands && KeyOf(step) !in w.keys
    ensures var x, key := Do(cfg, w, Receive(hand, step)), KeyOf(step);
            && x.keys == w.keys + {key} && x.hands == w.hands[hand := Writing(step)] && x.s == w.s && x.answers == w.answers
            && var y := Do(cfg, x, Write(hand));
               var status := Answered(w.s, step);
               if status != Error500 then
                 && y.s == Next(cfg, w.s, step) && y.keys == w.keys + {key} && y.hands == w.hands
                 && y.answers == w.answers + [(key, status)]
               else
                 && y.s == w.s && y.hands == w.hands[hand := Releasing(step)] && y.answers == w.answers
                 && var z := Do(cfg, y, HandBack(hand, true));
                    z.s == w.s && z.keys == w.keys && z.hands == w.hands && z.answers == w.answers + [(key, Error500)]
  {
    var x := Do(cfg, w, Receive(hand, step));
    assert x.hands - {hand} == w.hands;
    assert w.keys + {KeyOf(step)} - {KeyOf(step)} == w.keys;
  }

  /** The reply the transaction's answer becomes. */
  lemma AnsweredIff(s: Sys, step: Delivered)
    ensures var answer := if step.Deliver? then IngestStore.Record(s.t, step.merchantId, step.event).1
                          else IngestStore.RecordRuling(s.t, step.merchantId, step.ruling).1;
            && (Answered(s, step) == Accepted202 <==> answer.Recorded?)
            && (Answered(s, step) == Unlinkable422 <==> answer == IngestStore.Unlinkable)
            && (Answered(s, step) == Duplicate200 <==> answer == IngestStore.Duplicate)
            && (Answered(s, step) == Error500 <==> answer.RolledBack?)
  {
  }

  lemma FlightKept(w: World, z: World, key: string)
    requires InFlight(w, key)
    requires forall h | h in w.hands && KeyOf(w.hands[h].step) == key :: h in z.hands && z.hands[h].step == w.hands[h].step
    ensures InFlight(z, key)
  {
    var h :| h in w.hands && KeyOf(w.hands[h].step) == key;
    assert h in z.hands;
  }

  lemma WriteStillStands(cfg: Assist.Config, start: Sys, w: World, hand: nat, key: string)
    requires Sound(cfg, start, w) && Can(w, Write(hand)) && InFlight(w, key)
    ensures Stands(Do(cfg, w, Write(hand)), key)
  {
    var z := Do(cfg, w, Write(hand));
    CommittedSound(cfg, start, w, w.hands[hand].step);
    if key !in z.s.t.webhooks {
      FlightKept(w, z, key);
    }
  }

  lemma HandBackStillStands(cfg: Assist.Config, w: World, hand: nat, up: bool, key: string)
    requires Can(w, HandBack(hand, up)) && InFlight(w, key)
    ensures var z := Do(cfg, w, HandBack(hand, up));
            Stands(z, key) || (up && z.answers == w.answers + [(key, Error500)] && key !in z.keys)
  {
    if KeyOf(w.hands[hand].step) != key {
      FlightKept(w, Do(cfg, w, HandBack(hand, up)), key);
    }
  }

  lemma CrashStillStands(cfg: Assist.Config, w: World, hand: nat, key: string)
    requires Can(w, Crash(hand)) && InFlight(w, key)
    ensures Stands(Do(cfg, w, Crash(hand)), key)
  {
    if KeyOf(w.hands[hand].step) != key {
      FlightKept(w, Do(cfg, w, Crash(hand)), key);
    }
  }

  /** What a key stood for it still stands for, unless the work failed and its
      sender is being asked to try again. */
  lemma StillStands(cfg: Assist.Config, start: Sys, w: World, e: Event, key: string)
    requires Sound(cfg, start, w) && Can(w, e) && Stands(w, key)
    ensures var z := Do(cfg, w, e);
            Stands(z, key) || (e.HandBack? && e.redisUp && z.answers == w.answers + [(key, Error500)] && key !in z.keys)
  {
    TablesFollowTheLog(cfg, start, w, e);
    if key !in w.s.t.webhooks && key !in w.stranded {
      match e
      case Write(hand) => WriteStillStands(cfg, start, w, hand, key);
      case HandBack(hand, up) => HandBackStillStands(cfg, w, hand, up, key);
      case Crash(hand) => CrashStillStands(cfg, w, hand, key);
      case _ => FlightKept(w, Do(cfg, w, e), key);
    } else {
      StrandedStays(cfg, w, e);
    }
  }

  lemma StrandedStays(cfg: Assist.Config, w: World, e: Event)
    requires Can(w, e)
    ensures w.stranded <= Do(cfg, w, e).stranded
  {
  }

  lemma KeysStandForWork(cfg: Assist.Config, start: Sys, w: World, e: Event, key: string)
    requires Sound(cfg, start, w) && Can(w, e) && key in Do(cfg, w, e).keys
    ensures Stands(Do(cfg, w, e), key)
  {
    if key in w.keys {
      StillStands(cfg, start, w, e, key);
    } else if e.Receive? {
      assert Do(cfg, w, e).hands[e.hand].step == e.step;
    }
  }

  lemma TablesFollowTheLog(cfg: Assist.Config, start: Sys, w: World, e: Event)
    requires Sound(cfg, start, w) && Can(w, e)
    ensures var z := Do(cfg, w, e);
            && z.s == Run(cfg, start, z.log)
            && Distinct(Ids(z.log))
            && (forall id :: id in Ids(z.log) <==> id in z.s.t.webhooks)
            && w.s.t.webhooks.Keys <= z.s.t.webhooks.Keys
  {
    match e
    case Write(hand) => CommittedSound(cfg, start, w, w.hands[hand].step);
    case WriteUnseen(hand) => CommittedSound(cfg, start, w, w.hands[hand].step);
    case Elsewhere(step) =>
      OthersKeepLog(cfg, w.s, step);
      RunSnoc(cfg, start, w.log, step);
      IdsSnoc(w.log, step);
    case _ =>
  }

  lemma AnswersSnoc(answers: seq<(string, Status)>, a: (string, Status), logged: set<string>, more: set<string>)
    requires AnswersKept(answers, logged) && logged <= more && (FromTheDatabase(a) ==> a.0 in more)
    ensures AnswersKept(answers, more) && AnswersKept(answers + [a], more)
  {
  }

  lemma AnswersStandForWork(cfg: Assist.Config, start: Sys, w: World, e: Event)
    requires Sound(cfg, start, w) && Can(w, e)
    ensures AnswersKept(Do(cfg, w, e).answers, Do(cfg, w, e).s.t.webhooks.Keys)
  {
    var logged, more := w.s.t.webhooks.Keys, Do(cfg, w, e).s.t.webhooks.Keys;
    TablesFollowTheLog(cfg, start, w, e);
    AnswersSnoc(w.answers, ("", Error500), logged, more);
    match e
    case Receive(hand, step) => AnswersSnoc(w.answers, (KeyOf(step), SeenByRedis200), logged, more);
    case Write(hand) =>
      var step := w.hands[hand].step;
      CommittedSound(cfg, start, w, step);
      if Answered(w.s, step) != Error500 {
        AnswersSnoc(w.answers, (KeyOf(step), Answered(w.s, step)), logged, more);
      }
    case ClaimFails(step, _) => AnswersSnoc(w.answers, (KeyOf(step), Error500), logged, more);
    case HandBack(hand, up) => AnswersSnoc(w.answers, (KeyOf(w.hands[hand].step), Error500), logged, more);
    case _ =>
  }

  lemma AnswersGrow(cfg: Assist.Config, w: World, e: Event)
    requires Can(w, e)
    ensures w.answers <= Do(cfg, w, e).answers
    ensures |Do(cfg, w, e).answers| <= |w.answers| + 1
  {
  }

  lemma RedisAnswersStand(cfg: Assist.Config, start: Sys, w: World, e: Event, a: nat)
    requires Sound(cfg, start, w) && Can(w, e)
    requires a < |Do(cfg, w, e).answers| && Do(cfg, w, e).answers[a].1 == SeenByRedis200
    ensures var z := Do(cfg, w, e);
            Stands(z, z.answers[a].0) || RetryAsked(z.answers, a, z.answers[a].0)
  {
    var z := Do(cfg, w, e);
    var key := z.answers[a].0;
    AnswersGrow(cfg, w, e);
    if a < |w.answers| {
      assert w.answers[a] == z.answers[a];
      if RetryAsked(w.answers, a, key) {
        var b :| a < b < |w.answers| && w.answers[b] == (key, Error500);
        assert z.answers[b] == w.answers[b];
      } else {
        StillStands(cfg, start, w, e, key);
        if !Stands(z, key) {
          assert z.answers[|w.answers|] == (key, Error500);
        }
      }
    } else if e.Receive? {
      StillStands(cfg, start, w, e, key);
    }
  }

  /** Every schedule of deliveries, replays, failed and unseen commits, crashes,
      expiries, flushes and other writers keeps this. */
  lemma StaysSound(cfg: Assist.Config, start: Sys, w: World, e: Event)
    requires Sound(cfg, start, w) && Can(w, e)
    ensures Sound(cfg, start, Do(cfg, w, e))
  {
    var z := Do(cfg, w, e);
    TablesFollowTheLog(cfg, start, w, e);
    AnswersStandForWork(cfg, start, w, e);
    forall key | key in z.keys
      ensures Stands(z, key)
    {
      KeysStandForWork(cfg, start, w, e, key);
    }
    forall a | 0 <= a < |z.answers| && z.answers[a].1 == SeenByRedis200
      ensures Stands(z, z.answers[a].0) || RetryAsked(z.answers, a, z.answers[a].0)
    {
      RedisAnswersStand(cfg, start, w, e, a);
    }
  }

  // ---------------------------------------------------------------- whole runs

  predicate Runs(cfg: Assist.Config, w: World, es: seq<Event>)
    decreases |es|
  {
    es == [] || (Can(w, es[0]) && Runs(cfg, Do(cfg, w, es[0]), es[1..]))
  }

  function Finally(cfg: Assist.Config, w: World, es: seq<Event>): World
    requires Runs(cfg, w, es)
    decreases |es|
  {
    if es == [] then w else Finally(cfg, Do(cfg, w, es[0]), es[1..])
  }

  /** Nothing delivered yet, on the tables every run starts from. */
  function Fresh(accounts: set<Account>, charges: seq<Charge>): World {
    World(Start(accounts, charges), {}, map[], [], {}, [])
  }

  lemma {:induction false} RunStaysSound(cfg: Assist.Config, start: Sys, w: World, es: seq<Event>)
    requires Sound(cfg, start, w) && Runs(cfg, w, es)
    ensures Sound(cfg, start, Finally(cfg, w, es))
    decreases |es|
  {
    if es != [] {
      StaysSound(cfg, start, w, es[0]);
      RunStaysSound(cfg, start, Do(cfg, w, es[0]), es[1..]);
    }
  }

  lemma FreshIsSound(cfg: Assist.Config, accounts: set<Account>, charges: seq<Charge>)
    ensures Sound(cfg, Start(accounts, charges), Fresh(accounts, charges))
  {
  }

  /** Idempotence of the whole intake: whatever the schedule, the tables are
      the ones that the log, holding the first committed delivery of each event
      once, produces by itself. */
  lemma TablesAreOnePassOverTheLog(cfg: Assist.Config, accounts: set<Account>, charges: seq<Charge>, es: seq<Event>)
    requires Runs(cfg, Fresh(accounts, charges), es)
    ensures var z := Finally(cfg, Fresh(accounts, charges), es);
            && z.s.t == After(cfg, accounts, charges, z.log)
            && Distinct(Ids(z.log))
            && (forall id :: id in Ids(z.log) <==> id in z.s.t.webhooks)
  {
    FreshIsSound(cfg, accounts, charges);
    RunStaysSound(cfg, Start(accounts, charges), Fresh(accounts, charges), es);
  }

  predicate Clean(e: Event) {
    !e.Crash? && (e.HandBack? ==> e.redisUp) && (e.ClaimFails? ==> !e.reached)
  }

  lemma {:induction false} CleanStrandsNothing(cfg: Assist.Config, w: World, es: seq<Event>)
    requires Runs(cfg, w, es) && forall i | 0 <= i < |es| :: Clean(es[i])
    ensures Finally(cfg, w, es).stranded == w.stranded
    decreases |es|
  {
    if es != [] {
      assert Clean(es[0]);
      CleanStrandsNothing(cfg, Do(cfg, w, es[0]), es[1..]);
    }
  }

  /** Without a crash, a lost release or a lost reply, a key is present only if
      its event is committed or its handler is still at work: expiries, flushes,
      failed and unseen commits do no harm. */
  lemma CleanRunsStrandNothing(cfg: Assist.Config, accounts: set<Account>, charges: seq<Charge>, es: seq<Event>, key: string)
    requires Runs(cfg, Fresh(accounts, charges), es) && forall i | 0 <= i < |es| :: Clean(es[i])
    ensures var z := Finally(cfg, Fresh(accounts, charges), es);
            key in z.keys ==> key in z.s.t.webhooks || InFlight(z, key)
  {
    FreshIsSound(cfg, accounts, charges);
    RunStaysSound(cfg, Start(accounts, charges), Fresh(accounts, charges), es);
    CleanStrandsNothing(cfg, Fresh(accounts, charges), es);
  }

  // -------------------------------------------------- what Redis's answer means

  /** This event commits a write of this id. */
  predicate Commits(w: World, e: Event, key: string) {
    && (e.Write? || e.WriteUnseen?) && e.hand in w.hands
    && KeyOf(w.hands[e.hand].step) == key && Answered(w.s, w.hands[e.hand].step) != Error500
  }

  predicate SomeCommits(cfg: Assist.Config, w: World, es: seq<Event>, key: string)
    requires Runs(cfg, w, es)
    decreases |es|
  {
    es != [] && (Commits(w, es[0], key) || SomeCommits(cfg, Do(cfg, w, es[0]), es[1..], key))
  }

  lemma CommitFilesIt(cfg: Assist.Config, w: World, e: Event, key: string)
    requires Can(w, e)
    ensures key in Do(cfg, w, e).s.t.webhooks <==> key in w.s.t.webhooks || Commits(w, e, key)
  {
    match e
    case Write(hand) => DeliveryLogs(cfg, w.s, w.hands[hand].step);
    case WriteUnseen(hand) => DeliveryLogs(cfg, w.s, w.hands[hand].step);
    case Elsewhere(step) => OthersKeepLog(cfg, w.s, step);
    case _ =>
  }

  lemma {:induction false} FiledIff(cfg: Assist.Config, w: World, es: seq<Event>, key: string)
    requires Runs(cfg, w, es)
    ensures key in Finally(cfg, w, es).s.t.webhooks <==> key in w.s.t.webhooks || SomeCommits(cfg, w, es, key)
    decreases |es|
  {
    if es != [] {
      CommitFilesIt(cfg, w, es[0], key);
      FiledIff(cfg, Do(cfg, w, es[0]), es[1..], key);
    }
  }

  /** Redis says "duplicate" about events that are committed, in flight or
      stranded at that moment, and about no others while its keys last. */
  lemma RedisAnswersAtOnce(cfg: Assist.Config, start: Sys, w: World, hand: nat, step: Delivered)
    requires Sound(cfg, start, w) && hand !in w.hands
    ensures var z := Do(cfg, w, Receive(hand, step));
            (z.answers == w.answers + [(KeyOf(step), SeenByRedis200)] <==> KeyOf(step) in w.keys) &&
            (KeyOf(step) in w.keys ==> Stands(w, KeyOf(step)))
  {
  }

  /** This very delivery, by merchant and content, is the one on record under
      its id. */
  predicate OnRecord(w: World, step: Delivered) {
    step in w.log
  }

  /** The delivery on record under an id. */
  function Filed(log: seq<Step>, key: string): Option<Step> {
    if log == [] then None
    else
      var last := log[|log| - 1];
      if IsDelivery(last) && KeyOf(last) == key then Some(last) else Filed(log[..|log| - 1], key)
  }

  lemma {:induction false} FiledIsInLog(log: seq<Step>, key: string)
    ensures Filed(log, key).Some? <==> key in Ids(log)
    ensures Filed(log, key).Some? ==> Filed(log, key).value in log && IsDelivery(Filed(log, key).value) && KeyOf(Filed(log, key).value) == key
  {
    if log != [] {
      FiledIsInLog(log[..|log| - 1], key);
    }
  }

  /** There is only one under each id. */
  lemma {:induction false} OnRecordIsFiled(log: seq<Step>, step: Delivered)
    requires Distinct(Ids(log))
    ensures step in log <==> Filed(log, KeyOf(step)) == Some(step)
  {
    if log != [] {
      var n := |log| - 1;
      var before, last := Ids(log[..n]), log[n];
      assert log == log[..n] + [last];
      if IsDelivery(last) {
        assert Ids(log) == before + [KeyOf(last)];
        assert Ids(log)[|before|] == KeyOf(last);
        assert forall i | 0 <= i < |before| :: before[i] == Ids(log)[i];
      }
      assert Distinct(before) by {
        assert forall i | 0 <= i < |before| :: before[i] == Ids(log)[i];
      }
      OnRecordIsFiled(log[..n], step);
      FiledIsInLog(log[..n], KeyOf(step));
    }
  }

  /** An event of the run puts this very delivery on record. */
  predicate FilesIt(cfg: Assist.Config, w: World, es: seq<Event>, step: Delivered)
    requires Runs(cfg, w, es)
    decreases |es|
  {
    es != [] &&
    ((Commits(w, es[0], KeyOf(step)) && w.hands[es[0].hand].step == step && KeyOf(step) !in w.s.t.webhooks) ||
     FilesIt(cfg, Do(cfg, w, es[0]), es[1..], step))
  }

  lemma {:induction false} OnRecordIff(cfg: Assist.Config, w: World, es: seq<Event>, step: Delivered)
    requires Runs(cfg, w, es)
    ensures OnRecord(Finally(cfg, w, es), step) <==> OnRecord(w, step) || FilesIt(cfg, w, es, step)
    decreases |es|
  {
    if es != [] {
      OnRecordIff(cfg, Do(cfg, w, es[0]), es[1..], step);
    }
  }

  /** Every delivery of the run that comes under this one's id is this one. */
  predicate Alike(es: seq<Event>, step: Delivered) {
    forall i | 0 <= i < |es| && es[i].Receive? && KeyOf(es[i].step) == KeyOf(step) :: es[i].step == step
  }

  ghost predicate OnlyThis(w: World, step: Delivered) {
    && (forall h | h in w.hands && KeyOf(w.hands[h].step) == KeyOf(step) :: w.hands[h].step == step)
    && (forall x | x in w.log && IsDelivery(x) && KeyOf(x) == KeyOf(step) :: x == step)
  }

  lemma StepOnlyThis(cfg: Assist.Config, w: World, e: Event, step: Delivered)
    requires Can(w, e) && OnlyThis(w, step)
    requires e.Receive? && KeyOf(e.step) == KeyOf(step) ==> e.step == step
    ensures OnlyThis(Do(cfg, w, e), step)
  {
  }

  lemma {:induction false} StaysOnlyThis(cfg: Assist.Config, w: World, es: seq<Event>, step: Delivered)
    requires Runs(cfg, w, es) && OnlyThis(w, step) && Alike(es, step)
    ensures OnlyThis(Finally(cfg, w, es), step)
    decreases |es|
  {
    if es != [] {
      assert es[0].Receive? && KeyOf(es[0].step) == KeyOf(step) ==> es[0].step == step;
      assert Alike(es[1..], step) by {
        forall i | 0 <= i < |es| - 1 && es[1..][i].Receive? && KeyOf(es[1..][i].step) == KeyOf(step)
          ensures es[1..][i].step == step
        {
          assert es[i + 1] == es[1..][i];
        }
      }
      StepOnlyThis(cfg, w, es[0], step);
      StaysOnlyThis(cfg, Do(cfg, w, es[0]), es[1..], step);
    }
  }

  lemma OnlyThisIsFiled(cfg: Assist.Config, start: Sys, w: World, step: Delivered)
    requires Sound(cfg, start, w) && OnlyThis(w, step)
    ensures OnRecord(w, step) <==> KeyOf(step) in w.s.t.webhooks
  {
    FiledIsInLog(w.log, KeyOf(step));
    OnRecordIsFiled(w.log, step);
  }

  /** A run, a delivery that Redis answers "duplicate", and the rest of the run. */
  ghost predicate ToldDuplicate(cfg: Assist.Config, accounts: set<Account>, charges: seq<Charge>,
                                pre: seq<Event>, hand: nat, step: Delivered, post: seq<Event>)
  {
    && Runs(cfg, Fresh(accounts, charges), pre)
    && var w := Finally(cfg, Fresh(accounts, charges), pre);
       && hand !in w.hands && KeyOf(step) in w.keys
       && Runs(cfg, Do(cfg, w, Receive(hand, step)), post)
  }

  ghost function Answering(cfg: Assist.Config, accounts: set<Account>, charges: seq<Charge>, pre: seq<Event>, hand: nat, step: Delivered): World
    requires Runs(cfg, Fresh(accounts, charges), pre) && hand !in Finally(cfg, Fresh(accounts, charges), pre).hands
  {
    Do(cfg, Finally(cfg, Fresh(accounts, charges), pre), Receive(hand, step))
  }

  /** The delivery told "duplicate" is on record at the end if and only if it is
      the one delivery of its id in the log; and that is so if and only if it was
      on record at the answer or an event after it puts it there. */
  lemma ToldDuplicateIsTrueIff(cfg: Assist.Config, accounts: set<Account>, charges: seq<Charge>,
                               pre: seq<Event>, hand: nat, step: Delivered, post: seq<Event>)
    requires ToldDuplicate(cfg, accounts, charges, pre, hand, step, post)
    ensures var v := Answering(cfg, accounts, charges, pre, hand, step);
            var z := Finally(cfg, v, post);
            && (OnRecord(z, step) <==> Filed(z.log, KeyOf(step)) == Some(step))
            && (OnRecord(z, step) <==> OnRecord(v, step) || FilesIt(cfg, v, post, step))
  {
    var w, v := Finally(cfg, Fresh(accounts, charges), pre), Answering(cfg, accounts, charges, pre, hand, step);
    var start := Start(accounts, charges);
    FreshIsSound(cfg, accounts, charges);
    RunStaysSound(cfg, start, Fresh(accounts, charges), pre);
    StaysSound(cfg, start, w, Receive(hand, step));
    RunStaysSound(cfg, start, v, post);
    OnRecordIsFiled(Finally(cfg, v, post).log, step);
    OnRecordIff(cfg, v, post, step);
  }

  /** Where all deliveries of one id are the same delivery, a "duplicate" given
      by Redis is false at the end if and only if the id was not on file when it
      was given and no later event of the run commits it. */
  lemma RedisAnswerIsFalseIff(cfg: Assist.Config, accounts: set<Account>, charges: seq<Charge>,
                              pre: seq<Event>, hand: nat, step: Delivered, post: seq<Event>)
    requires ToldDuplicate(cfg, accounts, charges, pre, hand, step, post)
    requires Alike(pre, step) && Alike(post, step)
    ensures var v := Answering(cfg, accounts, charges, pre, hand, step);
            !OnRecord(Finally(cfg, v, post), step) <==>
              KeyOf(step) !in v.s.t.webhooks && !SomeCommits(cfg, v, post, KeyOf(step))
  {
    var w, v := Finally(cfg, Fresh(accounts, charges), pre), Answering(cfg, accounts, charges, pre, hand, step);
    var start := Start(accounts, charges);
    FreshIsSound(cfg, accounts, charges);
    RunStaysSound(cfg, start, Fresh(accounts, charges), pre);
    StaysSound(cfg, start, w, Receive(hand, step));
    RunStaysSound(cfg, start, v, post);
    StaysOnlyThis(cfg, Fresh(accounts, charges), pre, step);
    StaysOnlyThis(cfg, v, post, step);
    OnlyThisIsFiled(cfg, start, Finally(cfg, v, post), step);
    FiledIff(cfg, v, post, KeyOf(step));
  }

  /** The explanations of a false "duplicate", without a condition: another
      delivery holds the id; a handler is still at work on it; its key was
      stranded by a crash, a lost release or a lost reply; or the write failed
      after the answer, and the sender of the delivery that failed was asked to
      try again. Clean runs strand nothing. */
  lemma FalseDuplicateExplained(cfg: Assist.Config, accounts: set<Account>, charges: seq<Charge>,
                                pre: seq<Event>, hand: nat, step: Delivered, post: seq<Event>)
    requires ToldDuplicate(cfg, accounts, charges, pre, hand, step, post)
    ensures var w := Finally(cfg, Fresh(accounts, charges), pre);
            var z := Finally(cfg, Answering(cfg, accounts, charges, pre, hand, step), post);
            var key := KeyOf(step);
            !OnRecord(z, step) ==>
              || (Filed(z.log, key).Some? && Filed(z.log, key) != Some(step))
              || InFlight(z, key) || key in z.stranded || RetryAsked(z.answers, |w.answers|, key)
    ensures (forall i | 0 <= i < |pre| :: Clean(pre[i])) && (forall i | 0 <= i < |post| :: Clean(post[i])) ==>
              Finally(cfg, Answering(cfg, accounts, charges, pre, hand, step), post).stranded == {}
  {
    var w, v := Finally(cfg, Fresh(accounts, charges), pre), Answering(cfg, accounts, charges, pre, hand, step);
    var start := Start(accounts, charges);
    FreshIsSound(cfg, accounts, charges);
    RunStaysSound(cfg, start, Fresh(accounts, charges), pre);
    StaysSound(cfg, start, w, Receive(hand, step));
    RunStaysSound(cfg, start, v, post);
    var z := Finally(cfg, v, post);
    AnswersKeepGrowing(cfg, v, post);
    assert v.answers[|w.answers|] == (KeyOf(step), SeenByRedis200);
    assert z.answers[|w.answers|] == (KeyOf(step), SeenByRedis200);
    FiledIsInLog(z.log, KeyOf(step));
    OnRecordIsFiled(z.log, step);
    if (forall i | 0 <= i < |pre| :: Clean(pre[i])) && (forall i | 0 <= i < |post| :: Clean(post[i])) {
      CleanStrandsNothing(cfg, Fresh(accounts, charges), pre);
      CleanStrandsNothing(cfg, v, post);
    }
  }

  lemma {:induction false} AnswersKeepGrowing(cfg: Assist.Config, w: World, es: seq<Event>)
    requires Runs(cfg, w, es)
    ensures w.answers <= Finally(cfg, w, es).answers
    decreases |es|
  {
    if es != [] {
      AnswersGrow(cfg, w, es[0]);
      AnswersKeepGrowing(cfg, Do(cfg, w, es[0]), es[1..]);
    }
  }

  // ------------------------------------------------- one id, two merchants

  const TWO_SOLD: seq<Charge> :=
    [Charge(0, "x", "USD", 100, 0, Captured), Charge(1, "y", "USD", 100, 0, Captured)]

  function Alerted(merchantId: nat, disputeRef: string, chargeRef: string): Step {
    Deliver(merchantId, IngestStore.OpenedEvent("e", disputeRef, chargeRef, Alert, "10.4", 100, "USD", 0, 1))
  }

  /** The key is the bare id, for all merchants. Two of them whose events carry
      one id: the second is answered "duplicate" and recorded nowhere, although
      nothing failed, nothing is pending and the id was committed. */
  lemma SharedIdSuppressesTheOther(cfg: Assist.Config, accounts: set<Account>)
    ensures var a, b := Alerted(0, "d", "x"), Alerted(1, "f", "y");
            IsDelivery(a) && IsDelivery(b) &&
            var es := [Receive(0, a), Write(0), Receive(1, b)];
            && Runs(cfg, Fresh(accounts, TWO_SOLD), es) && (forall i | 0 <= i < |es| :: Clean(es[i]))
            && var z := Finally(cfg, Fresh(accounts, TWO_SOLD), es);
               && z.answers == [("e", Accepted202), ("e", SeenByRedis200)]
               && z.hands == map[] && z.stranded == {} && SomeCommits(cfg, Fresh(accounts, TWO_SOLD), es, "e")
               && !OnRecord(z, b) && Filed(z.log, "e") == Some(a)
               && |z.s.t.disputes| == 1 && z.s.t.disputes[0].merchantId == 0
  {
    var w := Fresh(accounts, TWO_SOLD);
    var a: Delivered, b: Delivered := Alerted(0, "d", "x"), Alerted(1, "f", "y");
    AlertIsAccepted(cfg, accounts);
    var x := Do(cfg, w, Receive(0, a));
    assert x.hands == map[0 := Writing(a)];
    var y := Do(cfg, x, Write(0));
    assert y.hands == map[] && y.log == [a];
    Three(cfg, w, Receive(0, a), Write(0), Receive(1, b));
    assert [Receive(0, a), Write(0), Receive(1, b)][1..] == [Write(0), Receive(1, b)];
    assert Commits(x, Write(0), "e");
  }

  lemma AlertIsAccepted(cfg: Assist.Config, accounts: set<Account>)
    ensures var a := Alerted(0, "d", "x");
            && IsDelivery(a) && Answered(Start(accounts, TWO_SOLD), a) == Accepted202
            && var t := Next(cfg, Start(accounts, TWO_SOLD), a).t;
               |t.disputes| == 1 && t.disputes[0].merchantId == 0
  {
    assert IngestStore.FindCharge(TWO_SOLD[..1], 0, "x") == Some(0);
    assert IngestStore.FindCharge(TWO_SOLD, 0, "x") == Some(0);
  }

  // Each of the explanations does happen. In all four, nobody holds the event.

  predicate Unheard(w: World, step: Delivered, h: nat, h': nat) {
    KeyOf(step) !in w.keys && KeyOf(step) !in w.s.t.webhooks && w.hands == map[] && h != h'
  }

  /** The run ends with a "duplicate" about an event nobody has or will write. */
  predicate FalseDuplicate(z: World, step: Delivered) {
    (KeyOf(step), SeenByRedis200) in z.answers && KeyOf(step) !in z.s.t.webhooks && z.hands == map[]
  }

  /** A handler died between the claim and the commit; the key outlives it. */
  lemma CrashStrandsTheEvent(cfg: Assist.Config, w: World, step: Delivered, h: nat, h': nat)
    requires Unheard(w, step, h, h')
    ensures var es := [Receive(h, step), Crash(h), Receive(h', step)];
            Runs(cfg, w, es) && FalseDuplicate(Finally(cfg, w, es), step)
  {
    var x := Do(cfg, w, Receive(h, step));
    var y := Do(cfg, x, Crash(h));
    var z := Do(cfg, y, Receive(h', step));
    assert y.hands == map[] && z.answers[|w.answers|] == (KeyOf(step), SeenByRedis200);
    Three(cfg, w, Receive(h, step), Crash(h), Receive(h', step));
  }

  /** A write failed and Redis refused the release. */
  lemma LostReleaseStrandsTheEvent(cfg: Assist.Config, w: World, step: Delivered, h: nat, h': nat)
    requires Unheard(w, step, h, h')
    ensures var es := [Receive(h, step), WriteFails(h), HandBack(h, false), Receive(h', step)];
            Runs(cfg, w, es) && FalseDuplicate(Finally(cfg, w, es), step)
  {
    var v := Do(cfg, w, Receive(h, step));
    var x := Do(cfg, v, WriteFails(h));
    var y := Do(cfg, x, HandBack(h, false));
    var z := Do(cfg, y, Receive(h', step));
    assert y.hands == map[] && z.answers[|w.answers| + 1] == (KeyOf(step), SeenByRedis200);
    Four(cfg, w, Receive(h, step), WriteFails(h), HandBack(h, false), Receive(h', step));
  }

  /** The claim reached Redis and its reply did not come back. */
  lemma LostReplyStrandsTheEvent(cfg: Assist.Config, w: World, step: Delivered, h: nat, h': nat)
    requires Unheard(w, step, h, h')
    ensures var es := [ClaimFails(step, true), Receive(h, step)];
            Runs(cfg, w, es) && FalseDuplicate(Finally(cfg, w, es), step)
  {
    var y := Do(cfg, w, ClaimFails(step, true));
    var z := Do(cfg, y, Receive(h, step));
    assert z.answers[|w.answers| + 1] == (KeyOf(step), SeenByRedis200);
    Two(cfg, w, ClaimFails(step, true), Receive(h, step));
  }

  /** A second delivery was told "duplicate" while the first was being written,
      and then that write failed. Every event of the run is clean, the key is
      gone again, and only the first sender knows to try again. */
  lemma FailedWriteBeliesTheDuplicate(cfg: Assist.Config, w: World, step: Delivered, h: nat, h': nat)
    requires Unheard(w, step, h, h')
    ensures var es := [Receive(h, step), Receive(h', step), WriteFails(h), HandBack(h, true)];
            && Runs(cfg, w, es) && (forall i | 0 <= i < |es| :: Clean(es[i]))
            && var z := Finally(cfg, w, es);
               && FalseDuplicate(z, step) && KeyOf(step) !in z.keys && z.stranded == w.stranded
               && z.answers == w.answers + [(KeyOf(step), SeenByRedis200), (KeyOf(step), Error500)]
  {
    var v := Do(cfg, w, Receive(h, step));
    var x := Do(cfg, v, Receive(h', step));
    var y := Do(cfg, x, WriteFails(h));
    var z := Do(cfg, y, HandBack(h, true));
    assert z.hands == map[] && z.answers[|w.answers|] == (KeyOf(step), SeenByRedis200);
    Four(cfg, w, Receive(h, step), Receive(h', step), WriteFails(h), HandBack(h, true));
  }

  lemma Two(cfg: Assist.Config, w: World, a: Event, b: Event)
    requires Can(w, a) && Can(Do(cfg, w, a), b)
    ensures Runs(cfg, w, [a, b]) && Finally(cfg, w, [a, b]) == Do(cfg, Do(cfg, w, a), b)
  {
    assert [a, b][1..] == [b] && [b][1..] == [];
    assert Finally(cfg, Do(cfg, w, a), [b]) == Do(cfg, Do(cfg, w, a), b);
  }

  lemma Three(cfg: Assist.Config, w: World, a: Event, b: Event, c: Event)
    requires Can(w, a) && Can(Do(cfg, w, a), b) && Can(Do(cfg, Do(cfg, w, a), b), c)
    ensures Runs(cfg, w, [a, b, c]) && Finally(cfg, w, [a, b, c]) == Do(cfg, Do(cfg, Do(cfg, w, a), b), c)
  {
    assert [a, b, c][1..] == [b, c];
    Two(cfg, Do(cfg, w, a), b, c);
  }

  lemma Four(cfg: Assist.Config, w: World, a: Event, b: Event, c: Event, d: Event)
    requires Can(w, a) && Can(Do(cfg, w, a), b) && Can(Do(cfg, Do(cfg, w, a), b), c)
    requires Can(Do(cfg, Do(cfg, Do(cfg, w, a), b), c), d)
    ensures Runs(cfg, w, [a, b, c, d])
    ensures Finally(cfg, w, [a, b, c, d]) == Do(cfg, Do(cfg, Do(cfg, Do(cfg, w, a), b), c), d)
  {
    assert [a, b, c, d][1..] == [b, c, d];
    Three(cfg, Do(cfg, w, a), b, c, d);
  }
}
