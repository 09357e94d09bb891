/** The outbox relay: select, publish in order, mark what was accepted, commit
    (internal/outbox/relay.go). A row is its position; true means published. */
module Relay {
  import opened Common

  /** The first `limit` rows from `from` on that are neither published nor
      locked by another relay: ORDER BY id LIMIT n FOR UPDATE SKIP LOCKED. */
  function Batch(rows: seq<bool>, locked: set<nat>, from: nat, limit: nat): (ids: seq<nat>)
    decreases |rows| - from
  {
    if from >= |rows| || limit == 0 then []
    else if rows[from] || from in locked then Batch(rows, locked, from + 1, limit)
    else [from] + Batch(rows, locked, from + 1, limit - 1)
  }

  /** What Batch promises, said without running it. */
  ghost predicate IsBatch(rows: seq<bool>, locked: set<nat>, from: nat, limit: nat, ids: seq<nat>) {
    && (forall i | 0 <= i < |ids| :: from <= ids[i] < |rows| && !rows[ids[i]] && ids[i] !in locked)
    && (forall i, j | 0 <= i < j < |ids| :: ids[i] < ids[j])
    && |ids| <= limit
    && (forall id: nat | from <= id < |rows| && !rows[id] && id !in locked && id !in ids ::
          |ids| == limit && forall i | 0 <= i < |ids| :: ids[i] < id)
  }

  lemma {:induction false} BatchIsBatch(rows: seq<bool>, locked: set<nat>, from: nat, limit: nat)
    ensures IsBatch(rows, locked, from, limit, Batch(rows, locked, from, limit))
    decreases |rows| - from
  {
    if from < |rows| && limit > 0 {
      if rows[from] || from in locked {
        BatchIsBatch(rows, locked, from + 1, limit);
      } else {
        BatchIsBatch(rows, locked, from + 1, limit - 1);
        HeadAndTail(rows, locked, from, limit, Batch(rows, locked, from + 1, limit - 1));
      }
    }
  }

  lemma HeadAndTail(rows: seq<bool>, locked: set<nat>, from: nat, limit: nat, tail: seq<nat>)
    requires from < |rows| && !rows[from] && from !in locked && limit > 0
    requires IsBatch(rows, locked, from + 1, limit - 1, tail)
    ensures IsBatch(rows, locked, from, limit, [from] + tail)
  {
    var ids := [from] + tail;
    assert forall i | 0 < i < |ids| :: ids[i] == tail[i - 1];
    forall id: nat | from <= id < |rows| && !rows[id] && id !in locked && id !in ids
      ensures |ids| == limit && forall i | 0 <= i < |ids| :: ids[i] < id
    {
      assert ids[0] == from;
      assert id !in tail;
    }
  }

  /** How many messages of a batch are accepted before the first refusal. */
  function Accepted(ids: seq<nat>, takes: nat -> bool): (n: nat)
    ensures n <= |ids|
  {
    if ids == [] || !takes(ids[0]) then 0 else 1 + Accepted(ids[1..], takes)
  }

  lemma {:induction false} AcceptedIsLongestPrefix(ids: seq<nat>, takes: nat -> bool)
    ensures var n := Accepted(ids, takes);
            && (forall i | 0 <= i < n :: takes(ids[i]))
            && (n < |ids| ==> !takes(ids[n]))
  {
    if ids != [] && takes(ids[0]) {
      AcceptedIsLongestPrefix(ids[1..], takes);
    }
  }

  function Marked(rows: seq<bool>, ids: seq<nat>): seq<bool> {
    seq(|rows|, i requires 0 <= i < |rows| => rows[i] || i in ids)
  }

  function Backlog(rows: seq<bool>): set<nat> {
    set i: nat | i < |rows| && !rows[i]
  }

  class Table {
    var rows: seq<bool>
    var delivered: seq<nat>

    constructor (rows: seq<bool>)
      ensures this.rows == rows && delivered == []
    {
      this.rows, delivered := rows, [];
    }

    /** One pass. None is the error that nothing at all was accepted; the pass
        then rolls back. Otherwise exactly the longest accepted prefix of the
        batch was delivered, in order, and is marked. */
    method DrainOnce(locked: set<nat>, limit: nat, takes: nat -> bool) returns (drained: Option<nat>)
      modifies this
      ensures var batch := Batch(old(rows), locked, 0, limit);
              var sent := batch[..Accepted(batch, takes)];
              && delivered == old(delivered) + sent
              && rows == Marked(old(rows), sent)
              && drained == if batch != [] && sent == [] then None else Some(|sent|)
    {
      var batch := Batch(rows, locked, 0, limit);
      if batch == [] {
        assert rows == Marked(rows, []);
        return Some(0);
      }
      var ids: seq<nat> := [];
      var i := 0;
      while i < |batch| && takes(batch[i])
        invariant 0 <= i <= |batch|
        invariant ids == batch[..i]
        invariant i + Accepted(batch[i..], takes) == Accepted(batch, takes)
        invariant delivered == old(delivered) + ids
        invariant rows == old(rows)
      {
        assert batch[i..][1..] == batch[i + 1..];
        delivered := delivered + [batch[i]];
        ids := ids + [batch[i]];
        i := i + 1;
      }
      assert Accepted(batch[i..], takes) == 0;
      if ids == [] {
        assert rows == Marked(rows, []);
        return None;
      }
      rows := Marked(rows, ids);
      return Some(|ids|);
    }

    /** One round of the inner loop: a pass, and whether it came back full. */
    method DrainRound(limit: nat, takes: nat -> bool) returns (more: bool, ghost sent: seq<nat>)
      requires limit >= 1
      modifies this
      ensures delivered == old(delivered) + sent && rows == Marked(old(rows), sent)
      ensures |sent| <= limit && more == (|sent| == limit)
      ensures if more then Backlog(rows) < Backlog(old(rows))
              else Backlog(rows) == {} || exists i :: i in Backlog(rows) && !takes(i)
    {
      ghost var batch := Batch(rows, {}, 0, limit);
      sent := batch[..Accepted(batch, takes)];
      BatchIsBatch(rows, {}, 0, limit);
      FullPassShrinks(rows, limit, takes);
      var drained := DrainOnce({}, limit, takes);
      more := drained.Some? && drained.value == limit;
    }

    /** The inner loop of Run: keep going while batches come back full. The
        publisher may answer differently on every pass. The loop ends, because a
        full batch shrinks a finite backlog; what it marks it delivered in this
        very tick; and it stops with work left only if the publisher refused a
        message that is still waiting. Every pass but the last delivers a full
        batch, and the last one does not. */
    method DrainTick(limit: nat, publisher: nat -> nat -> bool) returns (ghost passes: nat)
      requires limit >= 1
      modifies this
      ensures |rows| == |old(rows)| && old(delivered) <= delivered
      ensures rows == Marked(old(rows), delivered[|old(delivered)|..])
      ensures Backlog(rows) == {} || exists pass, i :: i in Backlog(rows) && !publisher(pass)(i)
      ensures passes >= 1 && (passes - 1) * limit <= |delivered| - |old(delivered)| < passes * limit
    {
      var more := true;
      var pass := 0;
      passes := 0;
      ghost var room := 0;
      assert rows == Marked(rows, []);
      while more
        invariant old(delivered) <= delivered
        invariant rows == Marked(old(rows), delivered[|old(delivered)|..])
        invariant !more ==> Backlog(rows) == {} || exists p, i :: i in Backlog(rows) && !publisher(p)(i)
        invariant room == passes * limit
        invariant if more then |delivered| - |old(delivered)| == room
                  else passes >= 1 && room - limit <= |delivered| - |old(delivered)| < room
        decreases Backlog(rows), more
      {
        ghost var earlier := delivered[|old(delivered)|..];
        ghost var sent;
        more, sent := DrainRound(limit, publisher(pass));
        assert delivered[|old(delivered)|..] == earlier + sent;
        pass, passes, room := pass + 1, passes + 1, room + limit;
        assert passes * limit == (passes - 1) * limit + limit;
      }
    }
  }

  /** A full pass shrinks the backlog; any other either emptied it or met a
      refusal. */
  lemma FullPassShrinks(rows: seq<bool>, limit: nat, takes: nat -> bool)
    requires limit >= 1
    ensures var rest := Backlog(Pass(rows, limit, takes));
            var batch := Batch(rows, {}, 0, limit);
            if Accepted(batch, takes) == limit then rest < Backlog(rows)
            else rest == {} || exists i :: i in rest && !takes(i)
  {
    var batch := Batch(rows, {}, 0, limit);
    var n := Accepted(batch, takes);
    var rest := Backlog(Pass(rows, limit, takes));
    BatchIsBatch(rows, {}, 0, limit);
    AcceptedIsLongestPrefix(batch, takes);
    if n == limit {
      assert batch[0] in batch[..n];
      assert batch[0] in Backlog(rows) && batch[0] !in rest;
    } else if n < |batch| {
      assert batch[n] !in batch[..n];
      assert batch[n] in rest && !takes(batch[n]);
    } else {
      assert batch[..n] == batch;
      assert forall id: nat | id < |rows| && !rows[id] :: id in batch;
      assert rest == {};
    }
  }

  // ----------------------------------------------------- one broken message

  function Pass(rows: seq<bool>, limit: nat, takes: nat -> bool): seq<bool> {
    var batch := Batch(rows, {}, 0, limit);
    Marked(rows, batch[..Accepted(batch, takes)])
  }

  /** Passes of a single relay, each with its own publisher behaviour. */
  function Passes(rows: seq<bool>, limit: nat, behaviours: seq<nat -> bool>): seq<bool>
    decreases |behaviours|
  {
    if behaviours == [] then rows else Passes(Pass(rows, limit, behaviours[0]), limit, behaviours[1..])
  }

  /** What a pass publishes lies before the first message it cannot publish. */
  lemma BeforeTheBroken(rows: seq<bool>, limit: nat, takes: nat -> bool, broken: nat, j: nat)
    requires broken < |rows| && !rows[broken] && !takes(broken)
    requires j < Accepted(Batch(rows, {}, 0, limit), takes)
    ensures Batch(rows, {}, 0, limit)[j] < broken
  {
    var batch := Batch(rows, {}, 0, limit);
    BatchIsBatch(rows, {}, 0, limit);
    AcceptedIsLongestPrefix(batch, takes);
    if broken in batch {
      var i :| 0 <= i < |batch| && batch[i] == broken;
      assert j < i;
    }
  }

  /** A message that is never accepted holds up everything behind it: however
      many passes a single relay makes, no row after it is ever marked. */
  lemma {:induction false} BrokenMessageBlocks(rows: seq<bool>, limit: nat, behaviours: seq<nat -> bool>, broken: nat, id: nat)
    requires broken < |rows| && !rows[broken] && broken < id < |rows|
    requires forall i | 0 <= i < |behaviours| :: !behaviours[i](broken)
    ensures var z := Passes(rows, limit, behaviours);
            |z| == |rows| && !z[broken] && z[id] == rows[id]
    decreases |behaviours|
  {
    if behaviours != [] {
      var batch := Batch(rows, {}, 0, limit);
      var n := Accepted(batch, behaviours[0]);
      BatchIsBatch(rows, {}, 0, limit);
      AcceptedIsLongestPrefix(batch, behaviours[0]);
      forall j | 0 <= j < n
        ensures batch[j] < broken
      {
        BeforeTheBroken(rows, limit, behaviours[0], broken, j);
      }
      BrokenMessageBlocks(Pass(rows, limit, behaviours[0]), limit, behaviours[1..], broken, id);
    }
  }

  // --------------------------------------------------------- several relays

  /** One relay's open transaction: the rows it locked, how many of them the
      publisher accepted, and whether it has stopped publishing. */
  datatype Tx = Tx(batch: seq<nat>, sent: nat, stopped: bool)

  datatype Queue = Queue(rows: seq<bool>, open: map<nat, Tx>, delivered: multiset<nat>)

  datatype Event =
    | Insert
    | Begin(relay: nat, limit: nat)
    | Publish(relay: nat, accepted: bool)
    | Commit(relay: nat)
    | Abort(relay: nat)

  function Locked(q: Queue): set<nat> {
    set r, i | r in q.open && 0 <= i < |q.open[r].batch| :: q.open[r].batch[i]
  }

  predicate Can(q: Queue, e: Event) {
    match e
    case Insert => true
    case Begin(r, _) => r !in q.open
    case Publish(r, _) => r in q.open && !q.open[r].stopped && q.open[r].sent < |q.open[r].batch|
    case Commit(r) =>
      r in q.open && q.open[r].sent <= |q.open[r].batch| && (q.open[r].stopped || q.open[r].sent == |q.open[r].batch|)
    case Abort(r) => r in q.open
  }

  /** Abort is a crash, a failed statement or a batch with nothing accepted. */
  function Do(q: Queue, e: Event): Queue
    requires Can(q, e)
  {
    match e
    case Insert => q.(rows := q.rows + [false])
    case Begin(r, limit) => q.(open := q.open[r := Tx(Batch(q.rows, Locked(q), 0, limit), 0, false)])
    case Publish(r, accepted) =>
      var tx := q.open[r];
      if accepted then
        q.(open := q.open[r := tx.(sent := tx.sent + 1)], delivered := q.delivered + multiset{tx.batch[tx.sent]})
      else q.(open := q.open[r := tx.(stopped := true)])
    case Commit(r) =>
      var tx := q.open[r];
      q.(rows := Marked(q.rows, tx.batch[..tx.sent]), open := q.open - {r})
    case Abort(r) => q.(open := q.open - {r})
  }

  ghost predicate TxSound(q: Queue, tx: Tx) {
    && tx.sent <= |tx.batch|
    && (forall i | 0 <= i < |tx.batch| :: tx.batch[i] < |q.rows| && !q.rows[tx.batch[i]])
    && (forall i | 0 <= i < tx.sent :: tx.batch[i] in q.delivered)
  }

  predicate Apart(a: Tx, b: Tx) {
    forall i, j | 0 <= i < |a.batch| && 0 <= j < |b.batch| :: a.batch[i] != b.batch[j]
  }

  /** Marked means delivered; open batches hold unmarked rows and share none. */
  ghost predicate Sound(q: Queue) {
    && (forall id: nat | id < |q.rows| && q.rows[id] :: id in q.delivered)
    && (forall r | r in q.open :: TxSound(q, q.open[r]))
    && (forall r, s | r in q.open && s in q.open && r != s :: Apart(q.open[r], q.open[s]))
  }

  lemma BeginSound(q: Queue, r: nat, limit: nat)
    requires Sound(q) && Can(q, Begin(r, limit))
    ensures Sound(Do(q, Begin(r, limit)))
  {
    var z := Do(q, Begin(r, limit));
    BatchIsBatch(q.rows, Locked(q), 0, limit);
    forall s | s in q.open
      ensures Apart(q.open[s], z.open[r]) && Apart(z.open[r], q.open[s])
    {
      forall i, j | 0 <= i < |q.open[s].batch| && 0 <= j < |z.open[r].batch|
        ensures q.open[s].batch[i] != z.open[r].batch[j]
      {
        assert q.open[s].batch[i] in Locked(q);
      }
    }
  }

  lemma CommitSound(q: Queue, r: nat)
    requires Sound(q) && Can(q, Commit(r))
    ensures Sound(Do(q, Commit(r)))
  {
    var z := Do(q, Commit(r));
    var tx := q.open[r];
    assert TxSound(q, tx);
    forall s | s in z.open
      ensures TxSound(z, z.open[s])
    {
      assert TxSound(q, q.open[s]) && Apart(tx, q.open[s]);
      forall i | 0 <= i < |z.open[s].batch|
        ensures z.open[s].batch[i] !in tx.batch[..tx.sent]
      {
      }
    }
  }

  lemma ApartKept(q: Queue, z: Queue)
    requires forall r, s | r in q.open && s in q.open && r != s :: Apart(q.open[r], q.open[s])
    requires z.open.Keys == q.open.Keys && forall r | r in z.open :: z.open[r].batch == q.open[r].batch
    ensures forall r, s | r in z.open && s in z.open && r != s :: Apart(z.open[r], z.open[s])
  {
    forall r, s | r in z.open && s in z.open && r != s
      ensures Apart(z.open[r], z.open[s])
    {
      assert Apart(q.open[r], q.open[s]);
    }
  }

  lemma PublishKeepsTx(q: Queue, r: nat, accepted: bool, s: nat)
    requires Can(q, Publish(r, accepted)) && s in q.open && TxSound(q, q.open[s])
    ensures s in Do(q, Publish(r, accepted)).open
    ensures TxSound(Do(q, Publish(r, accepted)), Do(q, Publish(r, accepted)).open[s])
  {
  }

  lemma PublishSound(q: Queue, r: nat, accepted: bool)
    requires Sound(q) && Can(q, Publish(r, accepted))
    ensures Sound(Do(q, Publish(r, accepted)))
  {
    var z := Do(q, Publish(r, accepted));
    assert z.open.Keys == q.open.Keys;
    ApartKept(q, z);
    forall s | s in z.open
      ensures TxSound(z, z.open[s])
    {
      PublishKeepsTx(q, r, accepted, s);
    }
  }

  lemma InsertSound(q: Queue)
    requires Sound(q)
    ensures Sound(Do(q, Insert))
  {
    forall s | s in q.open
      ensures TxSound(Do(q, Insert), q.open[s])
    {
      assert TxSound(q, q.open[s]);
    }
  }

  lemma AbortSound(q: Queue, r: nat)
    requires Sound(q) && Can(q, Abort(r))
    ensures Sound(Do(q, Abort(r)))
  {
    forall s | s in q.open
      ensures TxSound(Do(q, Abort(r)), q.open[s])
    {
      assert TxSound(q, q.open[s]);
    }
  }

  /** With any number of relays and a crash at any point, a row is marked
      published only if it was delivered, and no two open batches overlap. */
  lemma StaysSound(q: Queue, e: Event)
    requires Sound(q) && Can(q, e)
    ensures Sound(Do(q, e))
  {
    match e
    case Insert => InsertSound(q);
    case Begin(r, limit) => BeginSound(q, r, limit);
    case Publish(r, accepted) => PublishSound(q, r, accepted);
    case Commit(r) => CommitSound(q, r);
    case Abort(r) => AbortSound(q, r);
  }

  predicate Runs(q: Queue, es: seq<Event>)
    decreases |es|
  {
    es == [] || (Can(q, es[0]) && Runs(Do(q, es[0]), es[1..]))
  }

  function Finally(q: Queue, es: seq<Event>): Queue
    requires Runs(q, es)
    decreases |es|
  {
    if es == [] then q else Finally(Do(q, es[0]), es[1..])
  }

  /** The rest of one relay's transaction against this publisher: message after
      message until the first refusal, and then the commit. */
  function Rest(r: nat, ids: seq<nat>, takes: nat -> bool): seq<Event> {
    if ids == [] then [Commit(r)]
    else if takes(ids[0]) then [Publish(r, true)] + Rest(r, ids[1..], takes)
    else [Publish(r, false), Commit(r)]
  }

  /** The queue when r has delivered and marked n more messages of its batch. */
  function Settled(q: Queue, r: nat, n: nat): Queue
    requires r in q.open && q.open[r].sent + n <= |q.open[r].batch|
  {
    var tx := q.open[r];
    Queue(Marked(q.rows, tx.batch[..tx.sent + n]), q.open - {r}, With(q.delivered, tx.batch, tx.sent, n))
  }

  /** These messages, delivered one after the other. */
  function With(delivered: multiset<nat>, ids: seq<nat>, from: nat, n: nat): multiset<nat>
    requires from + n <= |ids|
    decreases n
  {
    if n == 0 then delivered else With(delivered + multiset{ids[from]}, ids, from + 1, n - 1)
  }

  lemma {:induction false} WithIs(delivered: multiset<nat>, ids: seq<nat>, from: nat, n: nat)
    requires from + n <= |ids|
    ensures With(delivered, ids, from, n) == delivered + multiset(ids[from..from + n])
    decreases n
  {
    if n > 0 {
      WithIs(delivered + multiset{ids[from]}, ids, from + 1, n - 1);
      assert ids[from..from + n] == [ids[from]] + ids[from + 1..from + n];
    }
  }

  lemma OneMoreSettles(q: Queue, r: nat, n: nat)
    requires Can(q, Publish(r, true)) && q.open[r].sent + 1 + n <= |q.open[r].batch|
    ensures Settled(Do(q, Publish(r, true)), r, n) == Settled(q, r, 1 + n)
  {
    var x, y := Settled(Do(q, Publish(r, true)), r, n), Settled(q, r, 1 + n);
    assert x.delivered == y.delivered;
    assert x.open == y.open;
    assert x.rows == y.rows;
  }

  /** What is left to publish. */
  function Left(q: Queue, r: nat): seq<nat>
    requires r in q.open && q.open[r].sent <= |q.open[r].batch|
  {
    q.open[r].batch[q.open[r].sent..]
  }

  lemma CommitIsLast(q: Queue, r: nat)
    requires Can(q, Commit(r))
    ensures Runs(q, [Commit(r)]) && Finally(q, [Commit(r)]) == Settled(q, r, 0)
  {
    assert [Commit(r)][1..] == [];
    assert Runs(Do(q, Commit(r)), []);
  }

  /** After a refusal nothing more is published, and what was accepted commits. */
  lemma RefusalStops(q: Queue, r: nat)
    requires Can(q, Publish(r, false))
    ensures var es := [Publish(r, false), Commit(r)]; Runs(q, es) && Finally(q, es) == Settled(q, r, 0)
  {
    var es, z := [Publish(r, false), Commit(r)], Do(q, Publish(r, false));
    assert es[1..] == [Commit(r)];
    CommitIsLast(z, r);
    assert z.open - {r} == q.open - {r};
  }

  lemma {:induction false} RestRuns(q: Queue, r: nat, takes: nat -> bool)
    requires r in q.open && !q.open[r].stopped && q.open[r].sent <= |q.open[r].batch|
    ensures var es := Rest(r, Left(q, r), takes);
            Runs(q, es) && Finally(q, es) == Settled(q, r, Accepted(Left(q, r), takes))
    decreases |q.open[r].batch| - q.open[r].sent
  {
    var ids := Left(q, r);
    if ids == [] {
      CommitIsLast(q, r);
    } else if takes(ids[0]) {
      var es, z := Rest(r, ids, takes), Do(q, Publish(r, true));
      assert Left(z, r) == ids[1..] && es[1..] == Rest(r, ids[1..], takes);
      RestRuns(z, r, takes);
      OneMoreSettles(q, r, Accepted(ids[1..], takes));
    } else {
      RefusalStops(q, r);
    }
  }

  lemma BegunAndRun(q: Queue, r: nat, limit: nat, takes: nat -> bool)
    requires r !in q.open
    ensures var batch := Batch(q.rows, Locked(q), 0, limit);
            var es := [Begin(r, limit)] + Rest(r, batch, takes);
            Runs(q, es) && Finally(q, es) == Settled(Do(q, Begin(r, limit)), r, Accepted(batch, takes))
  {
    var batch := Batch(q.rows, Locked(q), 0, limit);
    var es, z := [Begin(r, limit)] + Rest(r, batch, takes), Do(q, Begin(r, limit));
    assert es[1..] == Rest(r, batch, takes) && Left(z, r) == batch;
    RestRuns(z, r, takes);
  }

  lemma BegunSettles(q: Queue, r: nat, limit: nat, n: nat)
    requires r !in q.open && n <= |Batch(q.rows, Locked(q), 0, limit)|
    ensures var sent := Batch(q.rows, Locked(q), 0, limit)[..n];
            Settled(Do(q, Begin(r, limit)), r, n) == Queue(Marked(q.rows, sent), q.open, q.delivered + multiset(sent))
  {
    var batch, z := Batch(q.rows, Locked(q), 0, limit), Do(q, Begin(r, limit));
    assert z.open - {r} == q.open;
    WithIs(q.delivered, batch, 0, n);
    assert batch[0..n] == batch[..n];
  }

  /** One relay's transaction in this model, undisturbed, is one pass of the
      drain loop: it delivers and marks the longest accepted prefix of its batch,
      and whatever other relays have locked stays theirs. */
  lemma OnePassIsARun(q: Queue, r: nat, limit: nat, takes: nat -> bool)
    requires r !in q.open
    ensures var batch := Batch(q.rows, Locked(q), 0, limit);
            var es := [Begin(r, limit)] + Rest(r, batch, takes);
            var sent := batch[..Accepted(batch, takes)];
            && Runs(q, es)
            && Finally(q, es) == Queue(Marked(q.rows, sent), q.open, q.delivered + multiset(sent))
  {
    BegunAndRun(q, r, limit, takes);
    BegunSettles(q, r, limit, Accepted(Batch(q.rows, Locked(q), 0, limit), takes));
  }

  lemma {:induction false} RunStaysSound(q: Queue, es: seq<Event>)
    requires Sound(q) && Runs(q, es)
    ensures Sound(Finally(q, es))
    decreases |es|
  {
    if es != [] {
      StaysSound(q, es[0]);
      RunStaysSound(Do(q, es[0]), es[1..]);
    }
  }

  const EMPTY: Queue := Queue([], map[], multiset{})

  /** ... at every point of every run that starts with an empty outbox. */
  lemma StaysSoundForEver(es: seq<Event>)
    requires Runs(EMPTY, es)
    ensures Sound(Finally(EMPTY, es))
  {
    RunStaysSound(EMPTY, es);
  }

  /** Nothing is lost: a row that is neither marked nor locked is in the next
      batch, unless that batch is full of rows older than it. */
  lemma UnmarkedStaysSelectable(q: Queue, id: nat, r: nat, limit: nat)
    requires id < |q.rows| && !q.rows[id] && id !in Locked(q) && r !in q.open
    ensures var batch := Do(q, Begin(r, limit)).open[r].batch;
            id in batch || (|batch| == limit && forall i | 0 <= i < |batch| :: batch[i] < id)
  {
    BatchIsBatch(q.rows, Locked(q), 0, limit);
  }

  /** Marks are never taken back, and deliveries never shrink. */
  lemma MarksStand(q: Queue, e: Event, id: nat)
    requires Can(q, e) && id < |q.rows|
    ensures |q.rows| <= |Do(q, e).rows|
    ensures q.rows[id] ==> Do(q, e).rows[id]
    ensures q.delivered <= Do(q, e).delivered
  {
  }

  // ------------------------------------------- passing a message that is refused

  /** Every attempt to publish this row is refused. */
  predicate Refused(q: Queue, es: seq<Event>, broken: nat)
    requires Runs(q, es)
    decreases |es|
  {
    es == [] ||
    ((es[0].Publish? && es[0].accepted ==> var tx := q.open[es[0].relay]; tx.batch[tx.sent] != broken) &&
     Refused(Do(q, es[0]), es[1..], broken))
  }

  /** The open transactions that were begun while another relay had locked this
      row. */
  function Bypassing(q: Queue, e: Event, broken: nat, past: set<nat>): set<nat> {
    match e
    case Begin(r, _) => if broken in Locked(q) then past + {r} else past - {r}
    case Commit(r) => past - {r}
    case Abort(r) => past - {r}
    case _ => past
  }

  /** The run commits row id in such a transaction. */
  predicate CommitsPast(q: Queue, es: seq<Event>, broken: nat, id: nat, past: set<nat>)
    requires Runs(q, es)
    decreases |es|
  {
    es != [] &&
    ((es[0].Commit? && es[0].relay in past && var tx := q.open[es[0].relay]; id in tx.batch[..tx.sent]) ||
     CommitsPast(Do(q, es[0]), es[1..], broken, id, Bypassing(q, es[0], broken, past)))
  }

  /** A transaction that bypasses the refused row has not got it; any other has
      published nothing behind it, and has it in front of everything behind it. */
  predicate TxHeldBack(tx: Tx, bypassing: bool, broken: nat) {
    && tx.sent <= |tx.batch|
    && if bypassing then broken !in tx.batch
       else (forall k | 0 <= k < tx.sent :: tx.batch[k] < broken) &&
            (forall k | 0 <= k < |tx.batch| && tx.batch[k] > broken :: broken in tx.batch[..k])
  }

  predicate HeldBack(q: Queue, past: set<nat>, broken: nat) {
    && broken < |q.rows| && !q.rows[broken]
    && (forall r | r in q.open :: TxHeldBack(q.open[r], r in past, broken))
    && (forall r, k | r in q.open && 0 <= k < |q.open[r].batch| :: q.open[r].batch[k] < |q.rows|)
  }

  lemma NewTxHeldBack(q: Queue, r: nat, limit: nat, broken: nat)
    requires broken < |q.rows| && !q.rows[broken]
    ensures TxHeldBack(Tx(Batch(q.rows, Locked(q), 0, limit), 0, false), broken in Locked(q), broken)
  {
    var ids := Batch(q.rows, Locked(q), 0, limit);
    BatchIsBatch(q.rows, Locked(q), 0, limit);
    if broken !in Locked(q) {
      forall k | 0 <= k < |ids| && ids[k] > broken
        ensures broken in ids[..k]
      {
        assert broken in ids;
        var j :| 0 <= j < |ids| && ids[j] == broken;
        assert ids[..k][j] == broken;
      }
    }
  }

  lemma BeginHoldsBack(q: Queue, r: nat, limit: nat, past: set<nat>, broken: nat)
    requires HeldBack(q, past, broken) && Can(q, Begin(r, limit))
    ensures HeldBack(Do(q, Begin(r, limit)), Bypassing(q, Begin(r, limit), broken, past), broken)
  {
    var z, now := Do(q, Begin(r, limit)), Bypassing(q, Begin(r, limit), broken, past);
    NewTxHeldBack(q, r, limit, broken);
    BatchIsBatch(q.rows, Locked(q), 0, limit);
    forall s | s in z.open
      ensures TxHeldBack(z.open[s], s in now, broken)
    {
      if s != r {
        assert TxHeldBack(q.open[s], s in past, broken);
      }
    }
  }

  lemma PublishHoldsBack(q: Queue, r: nat, accepted: bool, past: set<nat>, broken: nat)
    requires HeldBack(q, past, broken) && Can(q, Publish(r, accepted))
    requires accepted ==> q.open[r].batch[q.open[r].sent] != broken
    ensures HeldBack(Do(q, Publish(r, accepted)), past, broken)
  {
    var z, tx := Do(q, Publish(r, accepted)), q.open[r];
    assert TxHeldBack(tx, r in past, broken);
    forall s | s in z.open
      ensures TxHeldBack(z.open[s], s in past, broken)
    {
      if s != r {
        assert TxHeldBack(q.open[s], s in past, broken);
      }
    }
  }

  lemma CommitHoldsBack(q: Queue, r: nat, past: set<nat>, broken: nat)
    requires HeldBack(q, past, broken) && Can(q, Commit(r))
    ensures HeldBack(Do(q, Commit(r)), past - {r}, broken)
  {
    var z := Do(q, Commit(r));
    assert TxHeldBack(q.open[r], r in past, broken);
    forall s | s in z.open
      ensures TxHeldBack(z.open[s], s in past - {r}, broken)
    {
      assert TxHeldBack(q.open[s], s in past, broken);
    }
  }

  lemma HoldsBack(q: Queue, e: Event, past: set<nat>, broken: nat)
    requires HeldBack(q, past, broken) && Can(q, e)
    requires e.Publish? && e.accepted ==> q.open[e.relay].batch[q.open[e.relay].sent] != broken
    ensures HeldBack(Do(q, e), Bypassing(q, e, broken, past), broken)
  {
    match e
    case Begin(r, limit) => BeginHoldsBack(q, r, limit, past, broken);
    case Publish(r, accepted) => PublishHoldsBack(q, r, accepted, past, broken);
    case Commit(r) => CommitHoldsBack(q, r, past, broken);
    case _ =>
  }

  lemma MarksBehind(q: Queue, e: Event, past: set<nat>, broken: nat, id: nat)
    requires HeldBack(q, past, broken) && Can(q, e) && broken < id
    ensures var z := Do(q, e);
            (id < |z.rows| && z.rows[id]) <==>
              (id < |q.rows| && q.rows[id]) ||
              (id < |q.rows| && e.Commit? && e.relay in past && id in q.open[e.relay].batch[..q.open[e.relay].sent])
  {
    if e.Commit? {
      assert TxHeldBack(q.open[e.relay], e.relay in past, broken);
    }
  }

  lemma {:induction false} PassedIff(q: Queue, es: seq<Event>, broken: nat, id: nat, past: set<nat>)
    requires HeldBack(q, past, broken) && Runs(q, es) && Refused(q, es, broken) && broken < id
    ensures var z := Finally(q, es);
            && broken < |z.rows| && !z.rows[broken]
            && ((id < |z.rows| && z.rows[id]) <==> (id < |q.rows| && q.rows[id]) || CommitsPast(q, es, broken, id, past))
    decreases |es|
  {
    if es != [] {
      var e := es[0];
      HoldsBack(q, e, past, broken);
      MarksBehind(q, e, past, broken, id);
      PassedIff(Do(q, e), es[1..], broken, id, Bypassing(q, e, broken, past));
    }
  }

  /** A row behind one that is always refused gets marked if and only if a
      transaction publishes and commits it that was begun while another relay
      had the refused row locked. With a single relay that never happens. */
  lemma BrokenMessageIsPassedIff(rows: seq<bool>, delivered: multiset<nat>, es: seq<Event>, broken: nat, id: nat)
    requires var q := Queue(rows, map[], delivered); Runs(q, es) && Refused(q, es, broken)
    requires broken < |rows| && !rows[broken] && broken < id && (id < |rows| ==> !rows[id])
    ensures var q := Queue(rows, map[], delivered);
            var z := Finally(q, es);
            && broken < |z.rows| && !z.rows[broken]
            && (id < |z.rows| && z.rows[id] <==> CommitsPast(q, es, broken, id, {}))
  {
    PassedIff(Queue(rows, map[], delivered), es, broken, id, {});
  }

  predicate OneRelay(es: seq<Event>, r: nat) {
    forall k | 0 <= k < |es| && !es[k].Insert? :: es[k].relay == r
  }

  lemma {:induction false} OneRelayNeverPasses(q: Queue, es: seq<Event>, broken: nat, id: nat, r: nat)
    requires Runs(q, es) && OneRelay(es, r) && q.open.Keys <= {r}
    ensures !CommitsPast(q, es, broken, id, {})
    decreases |es|
  {
    if es != [] {
      assert es[0].Begin? ==> q.open == map[] && Locked(q) == {};
      assert Bypassing(q, es[0], broken, {}) == {};
      assert forall k | 0 <= k < |es| - 1 :: es[1..][k] == es[k + 1];
      OneRelayNeverPasses(Do(q, es[0]), es[1..], broken, id, r);
    }
  }

  /** So with one relay, nothing behind the refused row is marked. */
  lemma OneRelayIsBlocked(rows: seq<bool>, delivered: multiset<nat>, es: seq<Event>, broken: nat, id: nat, r: nat)
    requires var q := Queue(rows, map[], delivered); Runs(q, es) && Refused(q, es, broken)
    requires broken < |rows| && !rows[broken] && broken < id && (id < |rows| ==> !rows[id]) && OneRelay(es, r)
    ensures var z := Finally(Queue(rows, map[], delivered), es); id < |z.rows| ==> !z.rows[id]
  {
    BrokenMessageIsPassedIff(rows, delivered, es, broken, id);
    OneRelayNeverPasses(Queue(rows, map[], delivered), es, broken, id, r);
  }

  /** Two relays do pass: the second begins while the first has the refused row,
      and its commit marks the row behind. */
  lemma TwoRelaysPass()
    ensures var q := Queue([false, false], map[], multiset{});
            var es := [Begin(1, 1), Begin(2, 1), Publish(1, false), Publish(2, true), Commit(2)];
            Runs(q, es) && Refused(q, es, 0) && Finally(q, es).rows == [false, true]
  {
  }
}
