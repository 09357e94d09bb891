/** Dead-letter replay: send first, then delete (internal/dlq/redrive.go).

    The queue service is the environment: its calls are methods whose bodies
    choose freely within what SQS promises, and the process may die between any
    two of them. */
module Redrive {

  /** A message of the dead-letter queue, known by its identity. */
  datatype Message = Message(id: nat, body: nat, redrives: int)

  /** What arrives in the main queue. */
  datatype Copy = Copy(body: nat, redrives: int)

  /** `failed` lists what failed, one entry a failure; `joined` says whether the
      reasons were gathered into the one error that is reported. */
  datatype Stats = Stats(replayed: nat, skipped: nat, failed: seq<Message>, joined: bool)

  function Handled(s: Stats): nat { s.replayed + s.skipped + |s.failed| }

  /** The two queues at one moment. */
  datatype Holdings = Holdings(source: set<Message>, target: seq<Copy>)

  datatype Ending = Finished | ReceiveFailed | Crashed

  function Copies(ms: seq<Message>): seq<Copy> {
    seq(|ms|, i requires 0 <= i < |ms| => Copy(ms[i].body, ms[i].redrives + 1))
  }

  /** The most one receive call returns. */
  function Cap(limit: int): nat { if limit < 0 then 0 else if limit < 10 then limit else 10 }

  function Members(ms: seq<Message>): set<Message> { set m | m in ms }

  lemma MembersAdd(a: seq<Message>, b: seq<Message>)
    ensures Members(a + b) == Members(a) + Members(b)
  {
    assert forall m | m in a :: m in a + b;
    assert forall m | m in b :: m in a + b;
  }

  lemma MembersAddOne(a: seq<Message>, m: Message)
    ensures Members(a + [m]) == Members(a) + {m}
  {
    MembersAdd(a, [m]);
  }

  ghost predicate Distinct(ms: seq<Message>) { |Members(ms)| == |ms| }

  lemma {:induction false} NoMoreMembersThanPlaces(ms: seq<Message>)
    ensures |Members(ms)| <= |ms|
  {
    if ms != [] {
      var n := |ms| - 1;
      NoMoreMembersThanPlaces(ms[..n]);
      MembersAddOne(ms[..n], ms[n]);
      assert ms == ms[..n] + [ms[n]];
    }
  }

  lemma DistinctHere(ms: seq<Message>, i: nat)
    requires i < |ms| && Distinct(ms)
    ensures ms[i] !in ms[i + 1..]
  {
    if ms[i] in ms[i + 1..] {
      var rest := ms[..i] + ms[i + 1..];
      MembersAdd(ms[..i], ms[i + 1..]);
      MembersAddOne(ms[..i], ms[i]);
      MembersAdd(ms[..i] + [ms[i]], ms[i + 1..]);
      assert ms == ms[..i] + [ms[i]] + ms[i + 1..];
      assert Members(ms) == Members(rest);
      NoMoreMembersThanPlaces(rest);
      assert false;
    }
  }

  /** These messages, and no other, have been reserved since. */
  ghost predicate Reserved(was: set<Message>, now: set<Message>, ms: seq<Message>) {
    Distinct(ms) && Members(ms) !! was && now == was + Members(ms)
  }

  lemma ReservesMore(was: set<Message>, now: set<Message>, ms: seq<Message>, more: seq<Message>)
    requires Distinct(ms) && Members(ms) !! was && Distinct(more) && Members(more) !! was + Members(ms)
    requires now == was + Members(ms) + Members(more)
    ensures Reserved(was, now, ms + more)
  {
    MembersAdd(ms, more);
  }

  /** What became of each message a run handled, in order: its original is
      deleted, it was set aside, or sending or deleting was refused. `sent`
      lists the messages whose copies went out. */
  datatype Trace = Trace(moved: seq<Message>, skipped: seq<Message>, failed: seq<Message>, sent: seq<Message>)

  function Served(t: Trace): set<Message> {
    Members(t.moved) + Members(t.skipped) + Members(t.failed)
  }

  /** What any run leaves behind, wherever it stopped. Every message that was in
      the dead-letter queue is still there or its copy is in the main queue;
      every copy carries one more redrive, within the limit. */
  ghost predicate NothingLost(was: Holdings, now: Holdings, t: Trace, maxRedrives: int) {
    && Members(t.sent) <= was.source && (forall m | m in Members(t.sent) :: m.redrives < maxRedrives)
    && now.target == was.target + Copies(t.sent)
    && was.source - Members(t.sent) <= now.source <= was.source
  }

  /** In terms of the two queues alone: every original is still there or has
      arrived, what was in the main queue stays, and no copy exceeds the limit. */
  lemma NothingLostMeans(was: Holdings, now: Holdings, t: Trace, maxRedrives: int)
    requires NothingLost(was, now, t, maxRedrives)
    ensures forall m | m in was.source :: m in now.source || Copy(m.body, m.redrives + 1) in now.target
    ensures was.target <= now.target
    ensures forall k | |was.target| <= k < |now.target| :: now.target[k].redrives <= maxRedrives
  {
    forall m | m in was.source && m !in now.source
      ensures Copy(m.body, m.redrives + 1) in now.target
    {
      assert m in Members(t.sent);
      var i :| 0 <= i < |t.sent| && t.sent[i] == m;
      assert now.target[|was.target| + i] == Copies(t.sent)[i];
    }
    forall k | |was.target| <= k < |now.target|
      ensures now.target[k].redrives <= maxRedrives
    {
      var m := t.sent[k - |was.target|];
      assert m in Members(t.sent);
      assert now.target[k] == Copies(t.sent)[k - |was.target|];
    }
  }

  /** The trace is honest about each message it names. */
  ghost predicate Honest(now: Holdings, t: Trace, maxRedrives: int) {
    && Members(t.moved) <= Members(t.sent) && Members(t.moved) !! now.source
    && Members(t.skipped) <= now.source && (forall m | m in Members(t.skipped) :: m.redrives >= maxRedrives)
    && (forall m | m in Members(t.failed) :: m.redrives < maxRedrives)
    && |t.moved| <= |t.sent| <= |t.moved| + |t.failed|
  }

  ghost predicate Counts(stats: Stats, t: Trace) {
    && stats.replayed == |t.moved| && stats.skipped == |t.skipped|
    && stats.failed == t.failed
  }

  /** How putting one message back ended. */
  datatype Verdict = Moved | SendRefused | DeleteRefused | DiedBeforeSend | DiedAfterSend

  ghost predicate Good(was: Holdings, now: Holdings, stats: Stats, t: Trace, maxRedrives: int) {
    NothingLost(was, now, t, maxRedrives) && Honest(now, t, maxRedrives) && Counts(stats, t)
  }

  lemma SkipIsGood(was: Holdings, now: Holdings, stats: Stats, t: Trace, maxRedrives: int, m: Message)
    requires Good(was, now, stats, t, maxRedrives)
    requires m in now.source && m.redrives >= maxRedrives
    ensures Good(was, now, stats.(skipped := stats.skipped + 1), t.(skipped := t.skipped + [m]), maxRedrives)
  {
    MembersAddOne(t.skipped, m);
  }

  /** The copy is out; the original may or may not be gone. */
  lemma SentLosesNothing(was: Holdings, now: Holdings, t: Trace, maxRedrives: int, m: Message, next: Holdings)
    requires NothingLost(was, now, t, maxRedrives)
    requires m in now.source && m.redrives < maxRedrives
    requires next.target == now.target + Copies([m])
    requires next.source == now.source || next.source == now.source - {m}
    ensures NothingLost(was, next, t.(sent := t.sent + [m]), maxRedrives)
  {
    MembersAddOne(t.sent, m);
    assert Copies(t.sent + [m]) == Copies(t.sent) + Copies([m]);
  }

  /** How many messages the receives brought in all, and how many of them came
      back empty. */
  datatype Receipts = Receipts(brought: nat, dry: nat)

  class Queues {
    /** Whether a reservation may lapse while the run is still going. */
    const slow: bool
    /** Whether handing a message straight back may fail. */
    const flaky: bool
    var source: set<Message>
    var hidden: set<Message>
    var target: seq<Copy>
    /** What the receives so far came back with. */
    ghost var receipts: Receipts

    constructor (source: set<Message>, target: seq<Copy>, slow: bool, flaky: bool)
      ensures this.source == source && hidden == {} && this.target == target
      ensures this.slow == slow && this.flaky == flaky
    {
      this.source, this.hidden, this.target := source, {}, target;
      this.slow, this.flaky := slow, flaky;
      receipts := Receipts(0, 0);
    }

    /** How many messages the receives since then brought. */
    ghost function Brought(since: Receipts): int reads this`receipts { receipts.brought - since.brought }

    /** Whether one of them came back empty. */
    ghost predicate CameBackEmpty(since: Receipts) reads this`receipts { receipts.dry != since.dry }

    ghost function Now(): Holdings reads this`source, this`target { Holdings(source, target) }

    // ------------------------------------------------- the queue service

    /** Up to ten messages that are there and not reserved. */
    method Choose(limit: int) returns (batch: seq<Message>)
      ensures |batch| <= Cap(limit) && Distinct(batch)
      ensures Members(batch) <= source && Members(batch) !! hidden
    {
      batch := [];
      while |batch| < limit && |batch| < 10
        invariant |batch| <= Cap(limit)
        invariant Distinct(batch)
        invariant Members(batch) <= source && Members(batch) !! hidden
      {
        var m: Message := *;
        if m !in source || m in hidden || m in batch { break; }
        MembersAddOne(batch, m);
        batch := batch + [m];
      }
    }

    /** A late caller may find reservations lapsed. */
    method Lapse()
      modifies this`hidden
      ensures hidden <= old(hidden) && (slow || hidden == old(hidden))
    {
      if slow {
        var lapsed: set<Message> := *;
        hidden := hidden - lapsed;
      }
    }

    /** What the service chose becomes reserved. */
    method Receive(limit: int) returns (ok: bool, batch: seq<Message>)
      modifies this`hidden, this`receipts
      ensures !ok ==> batch == []
      ensures receipts == Receipts(old(receipts.brought) + |batch|, old(receipts.dry) + if ok && batch == [] then 1 else 0)
      ensures |batch| <= Cap(limit)
      ensures Distinct(batch)
      ensures Members(batch) <= source && (slow || Members(batch) !! old(hidden))
      ensures slow || hidden == old(hidden) + Members(batch)
      ensures hidden <= old(hidden) + Members(batch)
    {
      Lapse();
      ok, batch := *, [];
      if ok {
        batch := Choose(limit);
        hidden := hidden + Members(batch);
        receipts := Receipts(receipts.brought + |batch|, receipts.dry + if batch == [] then 1 else 0);
      }
    }

    method Send(m: Message) returns (ok: bool)
      modifies this`target
      ensures target == if ok then old(target) + Copies([m]) else old(target)
    {
      ok := *;
      if ok { target := target + Copies([m]); }
    }

    /** An acknowledged delete happened; a failed one may have happened too. */
    method Delete(m: Message) returns (ok: bool)
      modifies this`source
      ensures source == old(source) - {m} || (!ok && source == old(source))
    {
      ok := *;
      var reached: bool := *;
      if ok || reached { source := source - {m}; }
    }

    /** Hands reserved messages back, best effort. */
    method Release(ms: seq<Message>)
      modifies this`hidden
      ensures old(hidden) - Members(ms) <= hidden <= old(hidden)
      ensures !flaky ==> hidden == old(hidden) - Members(ms)
    {
      var kept: set<Message> := {};
      if flaky { kept := *; }
      hidden := hidden - (Members(ms) - kept);
    }

    // --------------------------------------------------------- the commands

    /** Receives until it has seen enough, or one receive comes back empty. */
    method Look(limit: int) returns (ok: bool, seen: seq<Message>)
      modifies this`hidden, this`receipts
      ensures |seen| <= if limit < 0 then 0 else limit
      ensures Members(seen) <= source
      ensures |seen| == Brought(old(receipts))
      ensures ok ==> |seen| >= limit || CameBackEmpty(old(receipts))
      ensures hidden <= old(hidden) + Members(seen)
      ensures !slow ==> Reserved(old(hidden), hidden, seen)
    {
      seen := [];
      while |seen| < limit
        invariant |seen| <= if limit < 0 then 0 else limit
        invariant Members(seen) <= source
        invariant |seen| == Brought(old(receipts))
        invariant hidden <= old(hidden) + Members(seen)
        invariant !slow ==> Reserved(old(hidden), hidden, seen)
        invariant !CameBackEmpty(old(receipts))
        decreases limit - |seen|
      {
        var fine, batch := Receive(limit - |seen|);
        if !fine { return false, seen; }
        if batch == [] { return true, seen; }
        MembersAdd(seen, batch);
        if !slow { ReservesMore(old(hidden), hidden, seen, batch); }
        seen := seen + batch;
      }
      ok := true;
    }

    /** Looks at up to `limit` messages. Nothing moves, and nothing it looked
        at stays hidden unless handing back failed. It returns everything it was
        brought, and less than `limit` only where there was no more to see. */
    method Peek(limit: int) returns (ok: bool, seen: seq<Message>)
      modifies this`hidden, this`receipts
      ensures |seen| <= if limit < 0 then 0 else limit
      ensures Members(seen) <= source
      ensures ok ==> |seen| == Brought(old(receipts)) && (|seen| >= limit || CameBackEmpty(old(receipts)))
      ensures !ok ==> seen == []
      ensures !flaky ==> hidden <= old(hidden)
      ensures !flaky && !slow ==> hidden == old(hidden) && Distinct(seen)
    {
      ok, seen := Look(limit);
      Release(seen);
      if !ok { seen := []; }
    }

    /** One message: the copy goes out before the original is deleted. */
    method PutBack(m: Message) returns (verdict: Verdict)
      modifies this`source, this`target
      ensures target == old(target) + if verdict in {SendRefused, DiedBeforeSend} then [] else Copies([m])
      ensures source == old(source) - {m} || (verdict != Moved && source == old(source))
      ensures verdict in {SendRefused, DiedBeforeSend, DiedAfterSend} ==> source == old(source)
    {
      if * { return DiedBeforeSend; }
      var sendOk := Send(m);
      if !sendOk { return SendRefused; }
      if * { return DiedAfterSend; }
      var deleteOk := Delete(m);
      return if deleteOk then Moved else DeleteRefused;
    }

    /** One batch of a real run. */
    method PutBackBatch(batch: seq<Message>, maxRedrives: int, stats0: Stats, skipped0: seq<Message>, ghost t0: Trace, ghost was: Holdings)
      returns (stats: Stats, skipped: seq<Message>, alive: bool, ghost t: Trace)
      requires Distinct(batch) && Members(batch) <= source
      requires Good(was, Now(), stats0, t0, maxRedrives) && skipped0 == t0.skipped
      modifies this`source, this`target
      ensures NothingLost(was, Now(), t, maxRedrives)
      ensures Handled(stats) <= Handled(stats0) + |batch| && stats.joined == stats0.joined
      ensures alive ==>
                && Good(was, Now(), stats, t, maxRedrives) && skipped == t.skipped
                && Served(t) == Served(t0) + Members(batch)
                && Handled(stats) == Handled(stats0) + |batch|
    {
      stats, skipped, alive, t := stats0, skipped0, true, t0;
      for i := 0 to |batch|
        invariant alive && Good(was, Now(), stats, t, maxRedrives) && skipped == t.skipped && stats.joined == stats0.joined
        invariant Handled(stats) == Handled(stats0) + i
        invariant Served(t) == Served(t0) + Members(batch[..i])
        invariant forall j | i <= j < |batch| :: batch[j] in source
      {
        var m := batch[i];
        assert batch[..i + 1] == batch[..i] + [m];
        MembersAddOne(batch[..i], m);
        DistinctHere(batch, i);
        if m.redrives >= maxRedrives {
          MembersAddOne(t.skipped, m);
          SkipIsGood(was, Now(), stats, t, maxRedrives, m);
          skipped, t := skipped + [m], t.(skipped := t.skipped + [m]);
          stats := stats.(skipped := stats.skipped + 1);
        } else {
          stats, alive, t := One(m, maxRedrives, stats, t, was);
          if !alive { return; }
        }
      }
      assert batch[..|batch|] == batch;
    }

    /** One message that may go back. */
    method One(m: Message, maxRedrives: int, stats0: Stats, ghost t0: Trace, ghost was: Holdings)
      returns (stats: Stats, alive: bool, ghost t: Trace)
      requires m in source && m.redrives < maxRedrives
      requires Good(was, Now(), stats0, t0, maxRedrives)
      modifies this`source, this`target
      ensures NothingLost(was, Now(), t, maxRedrives)
      ensures source == old(source) || source == old(source) - {m}
      ensures !alive ==> stats == stats0
      ensures alive ==>
                && Good(was, Now(), stats, t, maxRedrives) && t.skipped == t0.skipped && stats.joined == stats0.joined
                && Served(t) == Served(t0) + {m}
                && Handled(stats) == Handled(stats0) + 1
    {
      var verdict := PutBack(m);
      stats, alive, t := stats0, verdict !in {DiedBeforeSend, DiedAfterSend}, t0;
      if verdict !in {SendRefused, DiedBeforeSend} {
        SentLosesNothing(was, old(Now()), t, maxRedrives, m, Now());
        MembersAddOne(t.sent, m);
        t := t.(sent := t.sent + [m]);
      }
      if !alive { return; }
      MembersAddOne(t.moved, m);
      MembersAddOne(t.failed, m);
      if verdict == Moved {
        stats, t := stats.(replayed := stats.replayed + 1), t.(moved := t.moved + [m]);
      } else {
        stats, t := stats.(failed := stats.failed + [m]), t.(failed := t.failed + [m]);
      }
    }

    /** What a dry run reports of the one batch it looks at. */
    method Weigh(batch: seq<Message>, maxRedrives: int) returns (stats: Stats, ghost t: Trace)
      ensures Counts(stats, t) && Served(t) == Members(batch) && Handled(stats) == |batch| && !stats.joined
      ensures t.failed == t.sent == []
      ensures forall m | m in t.moved :: m.redrives < maxRedrives
      ensures forall m | m in t.skipped :: m.redrives >= maxRedrives
    {
      stats, t := Stats(0, 0, [], false), Trace([], [], [], []);
      for i := 0 to |batch|
        invariant Counts(stats, t) && Served(t) == Members(batch[..i]) && Handled(stats) == i && !stats.joined
        invariant t.failed == t.sent == []
        invariant forall m | m in t.moved :: m.redrives < maxRedrives
        invariant forall m | m in t.skipped :: m.redrives >= maxRedrives
      {
        var m := batch[i];
        assert batch[..i + 1] == batch[..i] + [m];
        MembersAddOne(batch[..i], m);
        MembersAddOne(t.skipped, m);
        MembersAddOne(t.moved, m);
        if m.redrives >= maxRedrives {
          stats, t := stats.(skipped := stats.skipped + 1), t.(skipped := t.skipped + [m]);
        } else {
          stats, t := stats.(replayed := stats.replayed + 1), t.(moved := t.moved + [m]);
        }
      }
      assert batch[..|batch|] == batch;
    }

    /** A dry run looks at one batch and hands it straight back. */
    method DryRun(limit: int, maxRedrives: int) returns (stats: Stats, end: Ending, ghost t: Trace)
      modifies this`hidden, this`receipts
      ensures Handled(stats) == Brought(old(receipts))
      ensures end == Finished && Handled(stats) == 0 ==> CameBackEmpty(old(receipts))
      ensures end != Crashed && !flaky && !slow ==> hidden == old(hidden)
      ensures !flaky && end != Crashed ==> Served(t) !! hidden
      ensures Handled(stats) <= Cap(limit) && Counts(stats, t) && (end == Finished <==> stats.joined)
      ensures Served(t) <= source && Handled(stats) == |Served(t)|
      ensures forall m | m in Served(t) :: m in t.skipped <==> m.redrives >= maxRedrives
    {
      var ok, batch := Receive(limit);
      stats, t := Weigh(batch, maxRedrives);
      if !ok { end := ReceiveFailed; return; }
      if * { end := Crashed; return; }
      Release(batch);
      stats, end := stats.(joined := true), Finished;
    }

    /** One receive of a real run and its batch. */
    method NextBatch(limit: int, maxRedrives: int, stats0: Stats, skipped0: seq<Message>, ghost t0: Trace, ghost was: Holdings)
      returns (stats: Stats, skipped: seq<Message>, more: bool, end: Ending, ghost t: Trace)
      requires Good(was, Now(), stats0, t0, maxRedrives) && skipped0 == t0.skipped
      requires !slow ==> Handled(stats0) == |Served(t0)| && Served(t0) <= hidden
      modifies this
      ensures NothingLost(was, Now(), t, maxRedrives)
      ensures Handled(stats) <= Handled(stats0) + Cap(limit) && stats.joined == stats0.joined
      ensures more ==> end == Finished && Handled(stats) > Handled(stats0) && !CameBackEmpty(old(receipts))
      ensures end == Finished && !more ==> CameBackEmpty(old(receipts))
      ensures end != Crashed ==>
                && Good(was, Now(), stats, t, maxRedrives) && skipped == t.skipped
                && Handled(stats) == Handled(stats0) + Brought(old(receipts))
                && (!slow ==> Handled(stats) == |Served(t)| && Served(t) <= hidden)
    {
      stats, skipped, more, end, t := stats0, skipped0, false, Finished, t0;
      var ok, batch := Receive(limit);
      if !ok {
        end := ReceiveFailed;
      } else if batch != [] {
        stats, skipped, more, t := PutBackBatch(batch, maxRedrives, stats, skipped, t, was);
        if !more { end := Crashed; }
      }
    }

    /** A real run, up to handing back what it set aside. */
    method PutBackAll(limit: int, maxRedrives: int)
      returns (stats: Stats, skipped: seq<Message>, end: Ending, ghost t: Trace)
      requires limit > 0
      modifies this
      ensures NothingLost(old(Now()), Now(), t, maxRedrives)
      ensures end != Crashed ==> Good(old(Now()), Now(), stats, t, maxRedrives) && skipped == t.skipped
      ensures Handled(stats) < limit + Cap(limit) && !stats.joined
      ensures end != Crashed ==> Handled(stats) == Brought(old(receipts))
      ensures end == Finished ==> Handled(stats) >= limit || CameBackEmpty(old(receipts))
      ensures !slow && end != Crashed ==> Handled(stats) == |Served(t)|
    {
      stats, skipped, end, t := Stats(0, 0, [], false), [], Finished, Trace([], [], [], []);
      assert Served(t) == {};
      while Handled(stats) < limit
        invariant Good(old(Now()), Now(), stats, t, maxRedrives) && skipped == t.skipped
        invariant Handled(stats) < limit + Cap(limit) && !stats.joined
        invariant Handled(stats) == Brought(old(receipts)) && !CameBackEmpty(old(receipts))
        invariant !slow ==> Handled(stats) == |Served(t)| && Served(t) <= hidden
        decreases limit - Handled(stats)
      {
        var more;
        stats, skipped, more, end, t := NextBatch(limit, maxRedrives, stats, skipped, t, old(Now()));
        if !more { return; }
      }
      end := Finished;
    }

    /** Every message handled is in exactly one counter, and messages that were
        put back too often are visible again afterwards. A run whose receive
        fails reports its counters without the reasons. A run that ends well
        handled every message it was brought, and stops short of its limit only
        where a receive came back empty, or after the one batch of a dry run. */
    method Replay(limit: int, maxRedrives: int, dryRun: bool)
      returns (stats: Stats, end: Ending, ghost t: Trace)
      modifies this
      ensures !dryRun ==> NothingLost(old(Now()), Now(), t, maxRedrives)
      ensures !dryRun && end != Crashed ==> Honest(Now(), t, maxRedrives)
      ensures dryRun ==> Now() == old(Now())
      ensures dryRun && end != Crashed && !flaky && !slow ==> hidden == old(hidden)
      ensures dryRun ==> Served(t) <= source && forall m | m in Served(t) :: m in t.skipped <==> m.redrives >= maxRedrives
      ensures Handled(stats) <= if limit <= 0 then 0 else limit - 1 + if limit < 10 then limit else 10
      ensures end != Crashed ==> Counts(stats, t) && (end == Finished <==> stats.joined)
      ensures end != Crashed ==> Handled(stats) == Brought(old(receipts))
      ensures end == Finished && Handled(stats) < limit && (!dryRun || Handled(stats) == 0) ==> CameBackEmpty(old(receipts))
      ensures !slow && end != Crashed ==> Handled(stats) == |Served(t)|
      ensures !flaky && end != Crashed ==> Members(t.skipped) !! hidden
    {
      if limit <= 0 {
        stats, end, t := Stats(0, 0, [], true), Finished, Trace([], [], [], []);
        assert Served(t) == {};
      } else if dryRun {
        stats, end, t := DryRun(limit, maxRedrives);
      } else {
        var skipped: seq<Message>;
        stats, skipped, end, t := PutBackAll(limit, maxRedrives);
        if end == Crashed { return; }
        if * { end := Crashed; return; }
        Release(skipped);
        if end == Finished { stats := stats.(joined := true); }
      }
    }
  }
}
