/** The sorted set of open disputes, scored in whole seconds
    (internal/worker/deadlines.go), and the time arithmetic that keeps a
    rescheduled dispute outside the claim window (internal/worker/worker.go).

    Instants are nanoseconds on one clock. */
module Deadlines {
  import opened Common

  const SECOND: int := 1_000_000_000
  const RETRY_BACKOFF: int := 30 * SECOND

  type Index = map<nat, int>

  /** time.Unix truncates towards the past. */
  function Unix(t: int): int {
    t / SECOND
  }

  /** The one place a reschedule's instant is chosen. */
  function NextVisit(preferred: int, now: int, lookahead: int): int {
    var earliest := now + lookahead + RETRY_BACKOFF;
    if preferred > earliest then preferred else earliest
  }

  function Due(index: Index, upto: int): set<nat> {
    set id | id in index && index[id] <= upto
  }

  /** One run of the claim script: the earliest `limit` due entries, ties
      broken anyhow. */
  ghost predicate Claims(index: Index, upto: int, limit: nat, ids: seq<nat>) {
    && (forall i, j | 0 <= i < j < |ids| :: ids[i] != ids[j])
    && (forall i | 0 <= i < |ids| :: ids[i] in Due(index, upto))
    && |ids| <= limit
    && (|ids| < limit ==> forall id | id in Due(index, upto) :: id in ids)
    && (forall i, id | 0 <= i < |ids| && id in Due(index, upto) && id !in ids :: index[ids[i]] <= index[id])
  }

  function Without(index: Index, ids: seq<nat>): Index {
    map id | id in index && id !in ids :: index[id]
  }

  lemma {:induction false} EarliestExists(index: Index, due: set<nat>) returns (least: nat)
    requires due != {} && due <= index.Keys
    ensures least in due && forall id | id in due :: index[least] <= index[id]
    decreases |due|
  {
    least :| least in due;
    if due != {least} {
      assert due - {least} != {};
      var other := EarliestExists(index, due - {least});
      least := if index[other] < index[least] then other else least;
    }
  }

  class SortedSet {
    var scores: Index

    constructor ()
      ensures scores == map[]
    {
      scores := map[];
    }

    /** ZADD: adds the member or moves it. */
    method Schedule(id: nat, at: int)
      modifies this
      ensures scores == old(scores)[id := Unix(at)]
    {
      scores := scores[id := Unix(at)];
    }

    method ScheduleMany(entries: map<nat, int>)
      modifies this
      ensures scores == old(scores) + map id | id in entries :: Unix(entries[id])
    {
      var members: Index := map[];
      var left := entries.Keys;
      while left != {}
        invariant left <= entries.Keys
        invariant forall id :: id in members <==> id in entries && id !in left
        invariant forall id | id in members :: members[id] == Unix(entries[id])
        decreases left
      {
        var id :| id in left;
        members := members[id := Unix(entries[id])];
        left := left - {id};
      }
      assert members == map id | id in entries :: Unix(entries[id]);
      scores := scores + members;
    }

    /** The script: read the earliest due members, remove them, return them. */
    method Claim(upto: int, limit: nat) returns (ids: seq<nat>)
      modifies this
      ensures Claims(old(scores), Unix(upto), limit, ids)
      ensures scores == Without(old(scores), ids)
    {
      ids := [];
      var cutoff := Unix(upto);
      var due := Due(scores, cutoff);
      while |ids| < limit && due != {}
        invariant scores == old(scores) && |ids| <= limit && Distinct(ids)
        invariant forall id :: id in due <==> id in Due(scores, cutoff) && id !in ids
        invariant forall id | id in ids :: id in Due(scores, cutoff)
        invariant forall id, other | id in ids && other in due :: scores[id] <= scores[other]
        decreases |due|
      {
        ghost var least := EarliestExists(scores, due);
        var id :| id in due && forall other | other in due :: scores[id] <= scores[other];
        ids := ids + [id];
        due := due - {id};
      }
      forall i | 0 <= i < |ids|
        ensures ids[i] in Due(old(scores), cutoff)
      {
        assert ids[i] in ids;
      }
      scores := Without(scores, ids);
    }
  }

  // ------------------------------------------------------------ no livelock

  /** A reschedule made at t is invisible to every claim up to 29 seconds
      later, whatever the lookahead and although both the score and the cutoff
      are cut to whole seconds. */
  lemma RescheduleClearsTheWindow(preferred: int, t: int, lookahead: int, claimedAt: int)
    requires claimedAt <= t + 29 * SECOND
    ensures Unix(claimedAt + lookahead) < Unix(NextVisit(preferred, t, lookahead))
  {
    var e := t + lookahead;
    assert Unix(e + RETRY_BACKOFF) == Unix(e + 29 * SECOND) + 1;
    assert Unix(claimedAt + lookahead) <= Unix(e + 29 * SECOND);
  }

  /** 29 seconds is exact: one nanosecond later a retry can be claimed, since a
      score at the cutoff is due. */
  lemma TwentyNineIsExact(lookahead: int, id: nat) returns (t: int)
    requires lookahead >= 0
    ensures var visit := t + lookahead + 30 * SECOND;
            && NextVisit(t, t, lookahead) == visit
            && Claims(map[id := visit / SECOND], Unix(t + 29 * SECOND + 1 + lookahead), 1, [id])
  {
    t := SECOND - 1 - lookahead;
    assert id in Due(map[id := (t + lookahead + 30 * SECOND) / SECOND], Unix(t + 29 * SECOND + 1 + lookahead));
  }

  /** A claim returns a dispute only if its score is at or before the cutoff, and
      leaves one that is only if it is full of disputes that are no later. */
  lemma ClaimedIff(index: Index, upto: int, limit: nat, ids: seq<nat>, id: nat)
    requires Claims(index, upto, limit, ids)
    ensures id in ids ==> id in index && index[id] <= upto
    ensures id in index && index[id] <= upto && id !in ids ==>
              |ids| == limit && forall other | other in ids :: other in index && index[other] <= index[id]
  {
    forall other | other in ids
      ensures other in Due(index, upto)
      ensures id in index && index[id] <= upto && id !in ids ==> index[other] <= index[id]
    {
      var i :| 0 <= i < |ids| && ids[i] == other;
      assert id in index && index[id] <= upto ==> id in Due(index, upto);
    }
    if id in index && index[id] <= upto && id !in ids {
      assert id in Due(index, upto);
    }
  }

  /** What happens to the index, in order. Reschedules are the handlers' own. */
  datatype Op =
    | ClaimOp(at: int, limit: nat, ids: seq<nat>)
    | Reschedule(id: nat, preferred: int, at: int)

  function After(index: Index, op: Op, lookahead: int): Index {
    match op
    case ClaimOp(_, _, ids) => Without(index, ids)
    case Reschedule(id, preferred, at) => index[id := Unix(NextVisit(preferred, at, lookahead))]
  }

  function Claimed(ops: seq<Op>): seq<nat> {
    if ops == [] then []
    else
      var op := ops[|ops| - 1];
      Claimed(ops[..|ops| - 1]) + if op.ClaimOp? then op.ids else []
  }

  function Final(index: Index, ops: seq<Op>, lookahead: int): Index {
    if ops == [] then index else After(Final(index, ops[..|ops| - 1], lookahead), ops[|ops| - 1], lookahead)
  }

  /** A stretch of work: every claim is a run of the script, and a handler only
      reschedules what was claimed before it. */
  ghost predicate Stretch(index: Index, ops: seq<Op>, lookahead: int, from: int, to: int) {
    forall k | 0 <= k < |ops| ::
      && from <= ops[k].at <= to
      && (match ops[k]
          case ClaimOp(at, limit, ids) => Claims(Final(index, ops[..k], lookahead), Unix(at + lookahead), limit, ids)
          case Reschedule(id, _, _) => id in Claimed(ops[..k]))
  }

  predicate Distinct(ids: seq<nat>) {
    forall i, j | 0 <= i < j < |ids| :: ids[i] != ids[j]
  }

  lemma StretchPrefix(index: Index, ops: seq<Op>, lookahead: int, from: int, to: int, n: nat)
    requires Stretch(index, ops, lookahead, from, to) && n <= |ops|
    ensures Stretch(index, ops[..n], lookahead, from, to)
  {
    forall k | 0 <= k < n
      ensures ops[..n][..k] == ops[..k]
    {
    }
  }

  /** However many workers claim and however often they fail and reschedule,
      within 29 seconds no dispute is claimed twice: the retry loop that once
      pinned a core cannot start. */
  lemma {:induction false} NobodyIsClaimedTwice(index: Index, ops: seq<Op>, lookahead: int, from: int, to: int)
    requires Stretch(index, ops, lookahead, from, to) && to <= from + 29 * SECOND
    ensures Distinct(Claimed(ops))
    ensures var z := Final(index, ops, lookahead);
            forall id | id in Claimed(ops) && id in z :: z[id] > Unix(to + lookahead)
  {
    if ops != [] {
      var n := |ops| - 1;
      StretchPrefix(index, ops, lookahead, from, to, n);
      NobodyIsClaimedTwice(index, ops[..n], lookahead, from, to);
      var y := Final(index, ops[..n], lookahead);
      match ops[n]
      case ClaimOp(at, limit, ids) =>
        assert Unix(at + lookahead) <= Unix(to + lookahead);
        assert Claims(y, Unix(at + lookahead), limit, ids);
        forall i | 0 <= i < |ids|
          ensures ids[i] !in Claimed(ops[..n])
        {
          assert ids[i] in Due(y, Unix(at + lookahead));
        }
      case Reschedule(id, preferred, at) =>
        RescheduleClearsTheWindow(preferred, at, lookahead, to);
    }
  }

  /** Two claims in a row never hand out the same dispute. */
  lemma ClaimsAreDisjoint(index: Index, upto: int, limit: nat, ids: seq<nat>, upto': int, limit': nat, ids': seq<nat>)
    requires Claims(index, upto, limit, ids)
    requires Claims(Without(index, ids), upto', limit', ids')
    ensures forall id | id in ids :: id !in ids'
  {
    forall i | 0 <= i < |ids'|
      ensures ids'[i] !in ids
    {
      assert ids'[i] in Due(Without(index, ids), upto');
    }
  }
}
