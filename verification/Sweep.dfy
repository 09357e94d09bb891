/** Every dispute on the clock is indexed, in somebody's hands, or in a gap
    that has a name; and one reconcile pass closes every gap it could see
    (internal/worker/worker.go, internal/worker/store.go). */
module Sweep {
  import opened Common
  import opened Deadlines
  import opened Pool
  import WorkerRules

  /** The only ways an open dispute drops out of sight. */
  datatype Gap = NeverScheduled | DraftLeftAlone | LostTheRace | RescheduleLost | HandlerDied | IndexFlushed

  /** A handler between its claim and its end. Once it has read the row it
      knows whether the dispute was still on the clock. */
  datatype Hand = Claimed(id: nat) | Read(id: nat, onClock: bool)

  datatype World = World(
    seen: set<nat>,
    open: map<nat, int>,
    index: Index,
    hands: map<nat, Hand>,
    gaps: map<nat, Gap>,
    snapshot: Option<map<nat, int>>)

  datatype Event =
    | Arrive(id: nat, deadlineAt: int)
    | Announced(id: nat, deadlineAt: int)
    | Leave(id: nat)
    | ClaimBatch(upto: int, limit: nat, ids: seq<nat>, hand: nat)
    | ReadRow(hand: nat)
    | End(hand: nat, met: Met, lookahead: int)
    | Die(hand: nat)
    | Flush
    | ReadOpen
    | WriteOpen

  function TakenBy(ids: seq<nat>, first: nat, h: nat): Hand
    requires first <= h < first + |ids|
  {
    Claimed(ids[h - first])
  }

  /** The handlers a batch starts: one per id, numbered from `first`. */
  function Handed(ids: seq<nat>, first: nat): map<nat, Hand> {
    map h: nat | first <= h < first + |ids| :: TakenBy(ids, first, h)
  }

  /** What the row of a handler's dispute says about the reply it gets. */
  predicate Truthful(w: World, h: Hand, met: Met) {
    match h
    case Claimed(id) => met.lockReply != LockTaken || met.loadReply == LoadFailed
    case Read(id, onClock) =>
      && met.lockReply == LockTaken
      && (met.loadReply == NotFound ==> !onClock)
      && (met.loadReply.Found? ==> onClock == Vocabulary.OnTheClock(met.loadReply.candidate.state))
      && met.loadReply != LoadFailed
  }

  ghost predicate Can(w: World, e: Event) {
    match e
    case Arrive(id, _) => id !in w.seen
    case Announced(id, _) => id in w.seen
    case Leave(id) => true
    case ClaimBatch(upto, limit, ids, hand) =>
      Claims(w.index, Unix(upto), limit, ids) && Handed(ids, hand).Keys !! w.hands.Keys
    case ReadRow(hand) => hand in w.hands && w.hands[hand].Claimed?
    case End(hand, met, _) => hand in w.hands && Truthful(w, w.hands[hand], met)
    case Die(hand) => hand in w.hands
    case Flush => true
    case ReadOpen => true
    case WriteOpen => w.snapshot.Some?
  }

  /** The gap a handler leaves behind when it ends without the dispute being
      indexed: none if it found the dispute off the clock or decided it. */
  function GapLeft(h: Hand, met: Met): Option<Gap> {
    match ExitOf(met)
    case Gone => None
    case Decided => None
    case Skipped => if h.Read? && h.onClock then Some(DraftLeftAlone) else None
    case Stale => Some(LostTheRace)
    case _ => if met.redisUp then None else Some(RescheduleLost)
  }

  function WithGap(gaps: map<nat, Gap>, id: nat, gap: Option<Gap>): map<nat, Gap> {
    if gap.Some? then gaps[id := gap.value] else gaps
  }

  /** Whether the handler's transaction took the dispute off the clock: a write
      was due, and it committed. */
  predicate Wrote(met: Met) {
    && met.lockReply == LockTaken && met.loadReply.Found? && met.applyReply == Applied
    && Writes(WorkerRules.Decide(met.loadReply.candidate, met.decidedAt).action)
  }

  function Do(w: World, e: Event): World
    requires Can(w, e)
  {
    match e
    case Arrive(id, at) =>
      w.(seen := w.seen + {id}, open := w.open[id := at], gaps := w.gaps[id := NeverScheduled])
    case Announced(id, at) => w.(index := w.index[id := Unix(at)], gaps := w.gaps - {id})
    case Leave(id) => w.(open := w.open - {id})
    case ClaimBatch(_, _, ids, hand) =>
      w.(index := Without(w.index, ids), hands := w.hands + Handed(ids, hand))
    case ReadRow(hand) =>
      w.(hands := w.hands[hand := Read(w.hands[hand].id, w.hands[hand].id in w.open)])
    case End(hand, met, lookahead) =>
      var h := w.hands[hand];
      w.(open := if Wrote(met) then w.open - {h.id} else w.open,
         index := Rescheduled(w.index, h.id, ExitOf(met), met, lookahead),
         hands := w.hands - {hand},
         gaps := WithGap(w.gaps, h.id, GapLeft(h, met)))
    case Die(hand) =>
      w.(hands := w.hands - {hand}, gaps := w.gaps[w.hands[hand].id := HandlerDied])
    case Flush =>
      w.(index := map[], gaps := w.gaps + map id | id in w.index :: IndexFlushed)
    case ReadOpen => w.(snapshot := Some(w.open))
    case WriteOpen =>
      w.(index := w.index + (map id | id in w.snapshot.value :: Unix(w.snapshot.value[id])),
         gaps := w.gaps - w.snapshot.value.Keys,
         snapshot := None)
  }

  ghost predicate InHand(w: World, id: nat) {
    exists h :: h in w.hands && w.hands[h].id == id && !(w.hands[h].Read? && !w.hands[h].onClock)
  }

  ghost predicate Covered(w: World, id: nat) {
    id in w.index || InHand(w, id) || id in w.gaps
  }

  ghost predicate Sound(w: World) {
    && w.open.Keys <= w.seen
    && w.index.Keys <= w.seen
    && (forall h | h in w.hands :: w.hands[h].id in w.seen)
    && (w.snapshot.Some? ==> w.snapshot.value.Keys <= w.seen)
    && (forall h | h in w.hands && w.hands[h].Read? && !w.hands[h].onClock :: w.hands[h].id !in w.open)
    && (forall id | id in w.open :: Covered(w, id))
  }

  lemma HandKept(w: World, z: World, id: nat)
    requires InHand(w, id)
    requires forall h | h in w.hands && w.hands[h].id == id :: h in z.hands && z.hands[h] == w.hands[h]
    ensures InHand(z, id)
  {
    var h :| h in w.hands && w.hands[h].id == id && !(w.hands[h].Read? && !w.hands[h].onClock);
    assert h in z.hands;
  }

  lemma ClaimHands(w: World, e: Event, id: nat)
    requires Can(w, e) && e.ClaimBatch? && id in e.ids
    ensures InHand(Do(w, e), id)
  {
    var i :| 0 <= i < |e.ids| && e.ids[i] == id;
    assert e.hand + i in Handed(e.ids, e.hand);
    assert Do(w, e).hands[e.hand + i] == Claimed(id);
  }

  lemma ClaimCovers(w: World, e: Event, id: nat)
    requires Sound(w) && Can(w, e) && e.ClaimBatch? && id in w.open
    ensures Covered(Do(w, e), id)
  {
    if id in e.ids {
      ClaimHands(w, e, id);
    } else if InHand(w, id) {
      HandKept(w, Do(w, e), id);
    }
  }

  lemma ReadCovers(w: World, e: Event, id: nat)
    requires Sound(w) && Can(w, e) && e.ReadRow? && id in w.open
    ensures Covered(Do(w, e), id)
  {
    var z := Do(w, e);
    if w.hands[e.hand].id == id {
      assert z.hands[e.hand] == Read(id, true);
    } else if InHand(w, id) {
      HandKept(w, z, id);
    }
  }

  lemma EndCovers(w: World, e: Event, id: nat)
    requires Sound(w) && Can(w, e) && e.End? && id in Do(w, e).open
    ensures Covered(Do(w, e), id)
  {
    var z := Do(w, e);
    if w.hands[e.hand].id != id && InHand(w, id) {
      HandKept(w, z, id);
    }
  }

  lemma DieCovers(w: World, e: Event, id: nat)
    requires Sound(w) && Can(w, e) && e.Die? && id in w.open
    ensures Covered(Do(w, e), id)
  {
    var z := Do(w, e);
    if w.hands[e.hand].id != id && InHand(w, id) {
      HandKept(w, z, id);
    }
  }

  lemma StepCovers(w: World, e: Event, id: nat)
    requires Sound(w) && Can(w, e) && id in Do(w, e).open
    ensures Covered(Do(w, e), id)
  {
    match e
    case ClaimBatch(_, _, _, _) => ClaimCovers(w, e, id);
    case ReadRow(_) => ReadCovers(w, e, id);
    case End(_, _, _) => EndCovers(w, e, id);
    case Die(_) => DieCovers(w, e, id);
    case Arrive(_, _) =>
      if id in w.open && InHand(w, id) {
        HandKept(w, Do(w, e), id);
      }
    case _ =>
      if InHand(w, id) {
        HandKept(w, Do(w, e), id);
      }
  }

  lemma StepKnows(w: World, e: Event)
    requires Sound(w) && Can(w, e)
    ensures var z := Do(w, e);
            && z.open.Keys <= z.seen
            && z.index.Keys <= z.seen
            && (forall h | h in z.hands :: z.hands[h].id in z.seen)
            && (z.snapshot.Some? ==> z.snapshot.value.Keys <= z.seen)
            && (forall h | h in z.hands && z.hands[h].Read? && !z.hands[h].onClock :: z.hands[h].id !in z.open)
  {
    var z := Do(w, e);
    if e.ClaimBatch? {
      forall h | h in z.hands && h !in w.hands
        ensures z.hands[h].id in w.seen
      {
        assert z.hands[h] == TakenBy(e.ids, e.hand, h);
        assert e.ids[h - e.hand] in Due(w.index, Unix(e.upto));
      }
    }
  }

  /** At every step every dispute on the clock is indexed, in the hands of a
      live handler that still believes in it, or in a named gap. */
  lemma NothingIsForgotten(w: World, e: Event)
    requires Sound(w) && Can(w, e)
    ensures Sound(Do(w, e))
  {
    StepKnows(w, e);
    forall id | id in Do(w, e).open
      ensures Covered(Do(w, e), id)
    {
      StepCovers(w, e, id);
    }
  }

  // ------------------------------------------------------- a reconcile pass

  ghost predicate Runs(w: World, es: seq<Event>)
    decreases |es|
  {
    es == [] || (Can(w, es[0]) && Runs(Do(w, es[0]), es[1..]))
  }

  function Finally(w: World, es: seq<Event>): World
    requires Runs(w, es)
    decreases |es|
  {
    if es == [] then w else Finally(Do(w, es[0]), es[1..])
  }

  /** ... and so at every point of every run that starts sound. */
  lemma {:induction false} NothingIsEverForgotten(w: World, es: seq<Event>)
    requires Sound(w) && Runs(w, es)
    ensures Sound(Finally(w, es))
    decreases |es|
  {
    if es != [] {
      NothingIsForgotten(w, es[0]);
      NothingIsEverForgotten(Do(w, es[0]), es[1..]);
    }
  }

  predicate Quiet(es: seq<Event>) {
    forall i | 0 <= i < |es| :: !es[i].ReadOpen? && !es[i].WriteOpen?
  }

  lemma {:induction false} SnapshotWaits(w: World, es: seq<Event>)
    requires Runs(w, es) && Quiet(es)
    ensures Finally(w, es).snapshot == w.snapshot
    decreases |es|
  {
    if es != [] {
      assert Quiet(es[1..]) by {
        forall i | 0 <= i < |es[1..]|
          ensures !es[1..][i].ReadOpen? && !es[1..][i].WriteOpen?
        {
          assert es[1..][i] == es[i + 1];
        }
      }
      SnapshotWaits(Do(w, es[0]), es[1..]);
    }
  }

  /** The events that lose sight of a dispute. */
  predicate Loses(w: World, e: Event, id: nat)
    requires e.End? || e.Die? ==> e.hand in w.hands
  {
    match e
    case Arrive(k, _) => k == id
    case End(hand, met, _) => w.hands[hand].id == id && GapLeft(w.hands[hand], met).Some?
    case Die(hand) => w.hands[hand].id == id
    case Flush => id in w.index
    case _ => false
  }

  /** A gap opens only so, and closes only by an announcement or a reconcile. */
  lemma GapsMove(w: World, e: Event, id: nat)
    requires Can(w, e)
    ensures id in Do(w, e).gaps <==>
              Loses(w, e, id) ||
              (id in w.gaps && !(e.Announced? && e.id == id) && !(e.WriteOpen? && id in w.snapshot.value))
  {
  }

  ghost predicate NeverLost(w: World, es: seq<Event>, id: nat)
    requires Runs(w, es)
    decreases |es|
  {
    es == [] || (!Loses(w, es[0], id) && NeverLost(Do(w, es[0]), es[1..], id))
  }

  lemma {:induction false} StaysInSight(w: World, es: seq<Event>, id: nat)
    requires Sound(w) && Runs(w, es) && NeverLost(w, es, id) && id !in w.gaps
    ensures var z := Finally(w, es);
            Sound(z) && id !in z.gaps && (id in z.open ==> id in z.index || InHand(z, id))
    decreases |es|
  {
    if es == [] {
      assert id in w.open ==> Covered(w, id);
    } else {
      GapsMove(w, es[0], id);
      NothingIsForgotten(w, es[0]);
      StaysInSight(Do(w, es[0]), es[1..], id);
    }
  }

  /** A reconcile pass closes every gap, and for good: whatever happened between
      its read and its write, every dispute that was on the clock when it read
      is indexed at its deadline when it has written; and from then on, as long
      as it is on the clock and no event loses it again, it is indexed or in the
      hands of a live handler. */
  lemma ReconcileClosesEveryGap(w: World, es: seq<Event>, later: seq<Event>, id: nat)
    requires Sound(w) && Runs(Do(w, ReadOpen), es) && Quiet(es) && id in w.open
    ensures var y := Finally(Do(w, ReadOpen), es);
            && Can(y, WriteOpen)
            && var z := Do(y, WriteOpen);
               && id in z.index && z.index[id] == Unix(w.open[id]) && id !in z.gaps
               && (Runs(z, later) && NeverLost(z, later, id) ==>
                     var x := Finally(z, later);
                     id in x.open ==> id in x.index || InHand(x, id))
  {
    SnapshotWaits(Do(w, ReadOpen), es);
    NothingIsForgotten(w, ReadOpen);
    NothingIsEverForgotten(Do(w, ReadOpen), es);
    var y := Finally(Do(w, ReadOpen), es);
    NothingIsForgotten(y, WriteOpen);
    var z := Do(y, WriteOpen);
    if Runs(z, later) && NeverLost(z, later, id) {
      StaysInSight(z, later, id);
    }
  }
}
