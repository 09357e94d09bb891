/** The audit trail as it is read: by the stamps of its events, which are not
    all one clock's (internal/events/events.go, internal/api/store.go). Intake
    stamps with the processor's dates; every other writer with the database's. */
module AuditTrail {
  import opened Common
  import opened Vocabulary
  import opened Ledger
  import opened Tables
  import opened Lifecycle
  import opened Invariant
  import opened System
  import opened Listings
  import Assist
  import OneCase

  /** The places of a dispute's events, in the order they were committed. */
  function Places(events: seq<Event>, i: nat): set<nat> {
    set p: nat | p < |events| && events[p].disputeId == i
  }

  function Stamp(events: seq<Event>, p: nat): int {
    if p < |events| then events[p].occurredAt else 0
  }

  /** ORDER BY occurred_at, id. */
  function ByStamp(events: seq<Event>): (nat, nat) -> bool {
    (p: nat, q: nat) => Stamp(events, p) < Stamp(events, q) || (Stamp(events, p) == Stamp(events, q) && p < q)
  }

  /** The reply to the reader's query about dispute i. */
  ghost predicate Reads(events: seq<Event>, i: nat, ps: seq<nat>) {
    Lists(ByStamp(events), ps, Places(events, i))
  }

  /** Where the event read before the j-th one ended. */
  function ReadBefore(events: seq<Event>, ps: seq<nat>, j: nat): Option<State>
    requires j < |ps| && forall j | 0 <= j < |ps| :: ps[j] < |events|
  {
    if j == 0 then None else Some(events[ps[j - 1]].to)
  }

  /** Read in this order, each event starts where the one before it ended. */
  predicate ChainedAsRead(events: seq<Event>, ps: seq<nat>)
    requires forall j | 0 <= j < |ps| :: ps[j] < |events|
  {
    forall j | 0 <= j < |ps| :: Follows(ReadBefore(events, ps, j), events[ps[j]].from)
  }

  /** The stamps of a dispute's events respect the order of the commits. */
  ghost predicate InOrder(events: seq<Event>, i: nat) {
    forall p, q | p in Places(events, i) && q in Places(events, i) && p < q :: Stamp(events, p) <= Stamp(events, q)
  }

  predicate Own(e: Event) { e.actor != System && e.actor != Network }

  /** The stamps the writers of this dispute put on their own events respect the
      order of the commits. Each is the instant its transaction began. */
  ghost predicate OwnInOrder(events: seq<Event>, i: nat) {
    forall p, q | p in Places(events, i) && q in Places(events, i) && p < q && Own(events[p]) && Own(events[q]) ::
      Stamp(events, p) <= Stamp(events, q)
  }

  /** What the two processor-stamped kinds of event look like. */
  predicate Shaped(e: Event) {
    && (e.actor == System <==> e.from.None?)
    && (e.from.Some? ==> !Terminal(e.from.value))
    && (e.actor == Network ==> Terminal(e.to))
  }

  ghost predicate AllShaped(events: seq<Event>) {
    forall p | 0 <= p < |events| :: Shaped(events[p])
  }

  // --------------------------------------------------------- the commit order

  /** The last event about a dispute before place m. */
  lemma {:induction false} LastBefore(events: seq<Event>, i: nat, m: nat) returns (p: nat)
    requires m <= |events| && LastTo(events[..m], i).Some?
    ensures p in Places(events, i) && p < m && LastTo(events[..m], i) == Some(events[p].to)
    ensures forall q | q in Places(events, i) && q < m :: q <= p
  {
    assert events[..m][..m - 1] == events[..m - 1];
    if events[m - 1].disputeId == i {
      p := m - 1;
    } else {
      p := LastBefore(events, i, m - 1);
    }
  }

  lemma {:induction false} SomeBefore(events: seq<Event>, i: nat, m: nat, p: nat)
    requires m <= |events| && p in Places(events, i) && p < m
    ensures LastTo(events[..m], i).Some?
  {
    assert events[..m][..m - 1] == events[..m - 1];
    if events[m - 1].disputeId != i {
      SomeBefore(events, i, m - 1, p);
    }
  }

  /** Nothing about a dispute is committed after the event that settles it. */
  lemma {:induction false} TerminalIsLast(events: seq<Event>, i: nat, p: nat, q: nat)
    requires AuditChained(events) && AllShaped(events)
    requires p in Places(events, i) && Terminal(events[p].to) && q in Places(events, i)
    ensures q <= p
    decreases q
  {
    assert Follows(LastTo(events[..q], events[q].disputeId), events[q].from) && Shaped(events[q]);
    if p < q {
      SomeBefore(events, i, q, p);
      var r := LastBefore(events, i, q);
      TerminalIsLast(events, i, p, r);
    }
  }

  /** Only the first event of a dispute starts from nothing. */
  lemma NothingBefore(events: seq<Event>, i: nat, p: nat, q: nat)
    requires AuditChained(events) && p in Places(events, i) && q in Places(events, i) && events[q].from.None?
    ensures q <= p
  {
    assert Follows(LastTo(events[..q], events[q].disputeId), events[q].from);
    if p < q {
      SomeBefore(events, i, q, p);
    }
  }

  // ------------------------------------------------------------ reading it

  lemma ByStampIsStrict(events: seq<Event>, i: nat)
    ensures StrictOrder(ByStamp(events)) && TieFree(ByStamp(events), Places(events, i))
  {
  }

  lemma PlacesOfReading(events: seq<Event>, i: nat, ps: seq<nat>)
    requires Reads(events, i, ps)
    ensures forall j | 0 <= j < |ps| :: ps[j] in Places(events, i) && ps[j] < |events|
  {
    assert forall j | 0 <= j < |ps| :: ps[j] in ps;
  }

  /** In order, a dispute is read as it was committed. */
  lemma InOrderReadsAsCommitted(events: seq<Event>, i: nat, ps: seq<nat>, j: nat)
    requires Reads(events, i, ps) && InOrder(events, i) && j < |ps|
    ensures ps[j] in Places(events, i)
    ensures forall q | q in Places(events, i) && q < ps[j] :: j > 0 && q <= ps[j - 1] < ps[j]
    ensures j > 0 ==> ps[j - 1] in Places(events, i) && ps[j - 1] < ps[j]
  {
    PlacesOfReading(events, i, ps);
    forall k, l | 0 <= k < l < |ps|
      ensures ps[k] < ps[l]
    {
      assert ps[k] != ps[l] && !ByStamp(events)(ps[l], ps[k]);
      assert ps[k] in Places(events, i) && ps[l] in Places(events, i);
    }
    forall q | q in Places(events, i) && q < ps[j]
      ensures j > 0 && q <= ps[j - 1]
    {
      assert q in ps;
      var k :| 0 <= k < |ps| && ps[k] == q;
      assert k < j;
    }
  }

  lemma InOrderChains(events: seq<Event>, i: nat, ps: seq<nat>)
    requires AuditChained(events) && Reads(events, i, ps) && InOrder(events, i)
    ensures forall j | 0 <= j < |ps| :: ps[j] < |events|
    ensures ChainedAsRead(events, ps)
  {
    PlacesOfReading(events, i, ps);
    forall j | 0 <= j < |ps|
      ensures Follows(ReadBefore(events, ps, j), events[ps[j]].from)
    {
      InOrderReadsAsCommitted(events, i, ps, j);
      var m := ps[j];
      assert Follows(LastTo(events[..m], events[m].disputeId), events[m].from);
      if LastTo(events[..m], i).Some? {
        var p := LastBefore(events, i, m);
        assert p == ps[j - 1];
      } else if j > 0 {
        SomeBefore(events, i, m, ps[j - 1]);
      }
    }
  }

  lemma OnlyTheLastSettles(events: seq<Event>, ps: seq<nat>, l: nat)
    requires AllShaped(events) && (forall j | 0 <= j < |ps| :: ps[j] < |events|) && ChainedAsRead(events, ps)
    requires l + 1 < |ps|
    ensures !Terminal(events[ps[l]].to)
  {
    assert Follows(ReadBefore(events, ps, l + 1), events[ps[l + 1]].from);
    assert Shaped(events[ps[l + 1]]);
  }

  /** A chain that is read can only begin with the arrival and only end with a
      ruling, so both are stamped where they were committed. */
  lemma ChainOrdersPair(events: seq<Event>, i: nat, ps: seq<nat>, p: nat, q: nat)
    requires AuditChained(events) && AllShaped(events) && OwnInOrder(events, i) && Reads(events, i, ps)
    requires forall j | 0 <= j < |ps| :: ps[j] < |events|
    requires ChainedAsRead(events, ps)
    requires p in Places(events, i) && q in Places(events, i) && p < q
    ensures Stamp(events, p) <= Stamp(events, q)
  {
    assert Shaped(events[p]) && Shaped(events[q]);
    assert p in ps && q in ps;
    var k :| 0 <= k < |ps| && ps[k] == p;
    var l :| 0 <= l < |ps| && ps[l] == q;
    if events[q].actor == System {
      NothingBefore(events, i, p, q);
    } else if events[p].actor == Network {
      TerminalIsLast(events, i, p, q);
    } else if events[p].actor == System {
      assert Follows(ReadBefore(events, ps, k), events[ps[k]].from);
      assert !ByStamp(events)(ps[l], ps[k]);
    } else if events[q].actor == Network {
      if l + 1 < |ps| {
        OnlyTheLastSettles(events, ps, l);
      }
      assert k < l ==> !ByStamp(events)(ps[l], ps[k]);
    }
  }

  // ---------------------------------------------------------------- whole runs

  /** The instant the transaction of a step began. */
  function OwnStamp(step: Step): Option<int> {
    match step
    case Apply(_, _, at) => Some(at)
    case Finish(_, _, at) => Some(at)
    case Decide(_, _, now) => Some(now)
    case _ => None
  }

  /** At most one event is written, of the right shape; an own one carries the
      stamp, if there is one. */
  predicate WritesOne(before: seq<Event>, after: seq<Event>, stamp: Option<int>) {
    after == before ||
    (|after| == |before| + 1 && after[..|before|] == before &&
     var e := after[|before|];
     Shaped(e) && (Own(e) ==> stamp == Some(e.occurredAt)))
  }

  lemma ChangeWrites(m: int, t: Tables, ch: Change, u: Tables)
    requires Does(m, t, ch, u)
    ensures WritesOne(t.events, u.events,
                      if ch.Advancing? && ActorOf(ch.e).Some? && ActorOf(ch.e) != Some(Network) then Some(ch.at) else None)
  {
    match ch
    case Nothing =>
    case Opening(d) => assert u.events == Opened(t, d).events;
    case Advancing(k, e, from, entry, at) =>
      assert u.events == WithEvent(t.events, k, e, from, at);
  }

  lemma OwnStampIsTheSteps(cfg: Assist.Config, s: Sys, step: Step)
    requires var ch := Explain(cfg, s, step);
             ch.Advancing? && ActorOf(ch.e).Some? && ActorOf(ch.e) != Some(Network)
    ensures OwnStamp(step) == Some(Explain(cfg, s, step).at)
  {
    WhoTakesWhichEdge(cfg, s, step);
  }

  /** A step writes at most one event and stamps it with its own instant, unless
      it is intake. */
  lemma StepWrites(cfg: Assist.Config, s: Sys, step: Step)
    requires SysInv(cfg, s)
    ensures WritesOne(s.t.events, Next(cfg, s, step).t.events, OwnStamp(step))
  {
    var ch := Explain(cfg, s, step);
    StepDoes(cfg, s, step);
    ChangeWrites(cfg.maxAttempts, s.t, ch, Next(cfg, s, step).t);
    if ch.Advancing? && ActorOf(ch.e).Some? && ActorOf(ch.e) != Some(Network) {
      OwnStampIsTheSteps(cfg, s, step);
    }
  }

  /** The same, as a run takes its last step. */
  lemma LastStepWrites(cfg: Assist.Config, accounts: set<Account>, charges: seq<Charge>, steps: seq<Step>)
    requires cfg.maxAttempts >= 1 && ChargesFresh(charges) && steps != []
    ensures var n := |steps| - 1;
            WritesOne(After(cfg, accounts, charges, steps[..n]).events, After(cfg, accounts, charges, steps).events, OwnStamp(steps[n]))
  {
    var n := |steps| - 1;
    RunKeepsInv(cfg, accounts, charges, steps[..n]);
    StepWrites(cfg, Run(cfg, Start(accounts, charges), steps[..n]), steps[n]);
  }

  lemma OneMoreEvent(before: seq<Event>, after: seq<Event>, stamp: Option<int>)
    requires WritesOne(before, after, stamp) && AllShaped(before)
    ensures AllShaped(after)
  {
    if after != before {
      assert after == before + [after[|before|]];
    }
  }

  lemma {:induction false} RunShapes(cfg: Assist.Config, accounts: set<Account>, charges: seq<Charge>, steps: seq<Step>)
    requires cfg.maxAttempts >= 1 && ChargesFresh(charges)
    ensures AllShaped(After(cfg, accounts, charges, steps).events)
  {
    if steps != [] {
      var n := |steps| - 1;
      RunShapes(cfg, accounts, charges, steps[..n]);
      LastStepWrites(cfg, accounts, charges, steps);
      OneMoreEvent(After(cfg, accounts, charges, steps[..n]).events, After(cfg, accounts, charges, steps).events, OwnStamp(steps[n]));
    }
  }

  /** After every run, a dispute whose own events are stamped in order is read as
      a chain if and only if all its stamps respect the order of the commits.
      Arrival and ruling dates come from outside, so nothing makes sure of it. */
  lemma TheTrailAsReadChainsIff(cfg: Assist.Config, accounts: set<Account>, charges: seq<Charge>, steps: seq<Step>, i: nat, ps: seq<nat>)
    requires cfg.maxAttempts >= 1 && ChargesFresh(charges)
    requires OwnInOrder(After(cfg, accounts, charges, steps).events, i)
    requires Reads(After(cfg, accounts, charges, steps).events, i, ps)
    ensures var events := After(cfg, accounts, charges, steps).events;
            && (forall j | 0 <= j < |ps| :: ps[j] < |events|)
            && (ChainedAsRead(events, ps) <==> InOrder(events, i))
  {
    var events := After(cfg, accounts, charges, steps).events;
    RunKeepsInv(cfg, accounts, charges, steps);
    RunShapes(cfg, accounts, charges, steps);
    PlacesOfReading(events, i, ps);
    if InOrder(events, i) {
      InOrderChains(events, i, ps);
    }
    if ChainedAsRead(events, ps) {
      forall p, q | p in Places(events, i) && q in Places(events, i) && p < q
        ensures Stamp(events, p) <= Stamp(events, q)
      {
        ChainOrdersPair(events, i, ps, p, q);
      }
    }
  }

  /** That order is needed for it: two attempts that end alike may carry each
      other's stamps, and the trail chains all the same. */
  lemma SwappedStampsStillChain()
    ensures var e := Event(0, Some(Resolving), Received, Agent, 2);
            var events := [Event(0, None, Received, System, 0), e, e.(occurredAt := 1)];
            && AuditChained(events) && AllShaped(events) && Reads(events, 0, [0, 2, 1])
            && ChainedAsRead(events, [0, 2, 1]) && !InOrder(events, 0)
  {
    var e := Event(0, Some(Resolving), Received, Agent, 2);
    var events := [Event(0, None, Received, System, 0), e, e.(occurredAt := 1)];
    assert events[..0] == [] && events[..1] == [events[0]] && events[..2] == [events[0], events[1]];
    assert 1 in Places(events, 0) && 2 in Places(events, 0) && Stamp(events, 1) > Stamp(events, 2);
  }

  /** The event that was committed last about a dispute is read last if and only
      if no other is stamped later. Its state is then the row's, except that a
      claim in progress is not in the trail. */
  lemma LastReadIff(events: seq<Event>, i: nat, ps: seq<nat>, p: nat)
    requires Reads(events, i, ps) && p in Places(events, i) && forall q | q in Places(events, i) :: q <= p
    ensures ps != []
    ensures ps[|ps| - 1] == p <==> forall q | q in Places(events, i) :: Stamp(events, q) <= Stamp(events, p)
  {
    PlacesOfReading(events, i, ps);
    assert p in ps;
    var k :| 0 <= k < |ps| && ps[k] == p;
    var n := |ps| - 1;
    if ps[n] == p {
      forall q | q in Places(events, i)
        ensures Stamp(events, q) <= Stamp(events, p)
      {
        assert q in ps;
        var l :| 0 <= l < |ps| && ps[l] == q;
        assert l < n ==> !ByStamp(events)(ps[n], ps[l]);
      }
    } else {
      assert !ByStamp(events)(ps[n], ps[k]);
      assert ps[n] in Places(events, i) && ps[n] <= p;
    }
  }

  /** A settled dispute is read as settled if and only if its settlement carries
      the latest stamp of its events, after every run and on any clocks. */
  lemma SettlementIsReadLastIff(cfg: Assist.Config, accounts: set<Account>, charges: seq<Charge>, steps: seq<Step>, i: nat, ps: seq<nat>)
    returns (p: nat)
    requires cfg.maxAttempts >= 1 && ChargesFresh(charges)
    requires var t := After(cfg, accounts, charges, steps);
             i < |t.disputes| && Terminal(t.disputes[i].state) && Reads(t.events, i, ps)
    ensures var t := After(cfg, accounts, charges, steps);
            && ps != [] && ps[|ps| - 1] < |t.events|
            && p in Places(t.events, i) && t.events[p].to == t.disputes[i].state
            && (t.events[ps[|ps| - 1]].to == t.disputes[i].state <==>
                  forall q | q in Places(t.events, i) :: Stamp(t.events, q) <= Stamp(t.events, p))
  {
    var t := After(cfg, accounts, charges, steps);
    RunKeepsInv(cfg, accounts, charges, steps);
    RunShapes(cfg, accounts, charges, steps);
    assert Good(cfg.maxAttempts, ViewOf(t, i));
    assert t.events[..|t.events|] == t.events;
    p := LastBefore(t.events, i, |t.events|);
    LastReadIff(t.events, i, ps, p);
    PlacesOfReading(t.events, i, ps);
    var last := ps[|ps| - 1];
    if t.events[last].to == t.disputes[i].state {
      TerminalIsLast(t.events, i, last, p);
    }
  }

  lemma ReadingOfEarlyRuling(c: OneCase.Case, ps: seq<nat>)
    requires c.decidedAt == 0 && Reads(OneCase.Trail(c), 0, ps)
    ensures ps == [0, 1, 3, 2] && !ChainedAsRead(OneCase.Trail(c), ps)
  {
    var events := OneCase.Trail(c);
    ByStampIsStrict(events, 0);
    assert Reads(events, 0, [0, 1, 3, 2]);
    OneListing(ByStamp(events), ps, [0, 1, 3, 2], Places(events, 0));
    assert !Follows(ReadBefore(events, ps, 2), events[ps[2]].from);
  }

  /** A ruling dated before the submission it rules on: the trail is read with
      the submission last, and does not chain. */
  lemma EarlyRulingIsMisread(cfg: Assist.Config, accounts: set<Account>, c: OneCase.Case, ps: seq<nat>)
    requires OneCase.GoesThrough(cfg, accounts, c) && c.decidedAt == 0
    requires Reads(After(cfg, accounts, OneCase.Sold(c), OneCase.Steps(c)).events, 0, ps)
    ensures var t := After(cfg, accounts, OneCase.Sold(c), OneCase.Steps(c));
            && ps == [0, 1, 3, 2] && |t.events| == 4 && !ChainedAsRead(t.events, ps)
            && |t.disputes| == 1 && t.disputes[0].state == OneCase.Verdict(c) && t.events[2].to == Represented
  {
    OneCase.WholeRun(cfg, accounts, c);
    assert OneCase.Trail(c)[..4] == OneCase.Trail(c);
    ReadingOfEarlyRuling(c, ps);
  }
}
