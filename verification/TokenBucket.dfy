/** The token bucket script and its key expiry (internal/ingest/ratelimit.go),
    over exact rationals and one clock that does not go back. Times are in
    milliseconds. */
module TokenBucket {
  import opened Common

  datatype Bucket = Bucket(tokens: real, updated: int)

  /** Settings as they are configured; only the merchant limiter's are checked
      to be positive. */
  datatype Limit = Limit(perMinute: int, burst: int) {
    /** Tokens gained in so many milliseconds. */
    function Gain(ms: int): real { ms as real * (perMinute as real / 60000.0) }

    function Ttl(): int
      requires perMinute != 0
    {
      Ceil(burst as real / (perMinute as real / 60.0) * 1000.0) + 60000
    }
  }

  function Ceil(x: real): int { -(-x).Floor }

  function Min(x: real, y: real): real { if x <= y then x else y }

  function AtLeastZero(n: int): int { if n >= 0 then n else 0 }

  /** An idle key is kept for as long as an empty bucket needs to fill up at the
      configured number of tokens a minute, to the next whole millisecond, and a
      minute more. */
  lemma TtlIs(l: Limit)
    requires l.perMinute != 0
    ensures var fill := l.burst as real * 60000.0 / l.perMinute as real;
            var wait := l.Ttl() - 60000;
            fill <= wait as real < fill + 1.0
  {
    assert l.burst as real / (l.perMinute as real / 60.0) * 1000.0 == l.burst as real * 60000.0 / l.perMinute as real;
  }

  /** The refilled count a request at `now` finds. A missing key is full. */
  function Tokens(l: Limit, b: Option<Bucket>, now: int): real {
    match b
    case None => l.burst as real
    case Some(b) => Min(l.burst as real, b.tokens + l.Gain(if now >= b.updated then now - b.updated else 0))
  }

  function Take(l: Limit, b: Option<Bucket>, now: int): Bucket {
    var tokens := Tokens(l, b, now);
    Bucket(if tokens >= 1.0 then tokens - 1.0 else tokens, now)
  }

  /** What a request finds and leaves, in the units of the configuration. */
  lemma TokensAre(l: Limit, b: Option<Bucket>, now: int)
    ensures var full := l.burst as real;
            var tokens := if b.None? then full
                          else var gained := l.perMinute as real * AtLeastZero(now - b.value.updated) as real / 60000.0;
                               if b.value.tokens + gained < full then b.value.tokens + gained else full;
            && Tokens(l, b, now) == tokens
            && Take(l, b, now) == Bucket(if tokens >= 1.0 then tokens - 1.0 else tokens, now)
  {
    if b.Some? {
      GainIs(l, AtLeastZero(now - b.value.updated));
    }
  }

  datatype Reply = Verdict(allowed: bool, left: int) | ScriptFails

  class Limiter {
    const limit: Limit
    var store: map<string, Bucket>
    /** When a key goes away; a key that is not here does not. */
    var expires: map<string, int>

    constructor (limit: Limit)
      ensures this.limit == limit && store == map[] && expires == map[]
    {
      this.limit, store, expires := limit, map[], map[];
    }

    function Found(key: string, now: int): Option<Bucket>
      reads this
    {
      if key in store && (key in expires ==> now <= expires[key]) then Some(store[key]) else None
    }

    /** Spends one token of one key and touches no other key. A rate of zero
        makes the expiry infinite, which Redis refuses after the bucket is
        stored; an expiry that is not positive deletes the key at once, so that
        the next request finds it full again. */
    method Allow(key: string, now: int) returns (reply: Reply)
      modifies this
      ensures var found := old(Found(key, now));
              var b := Take(limit, found, now);
              if limit.perMinute == 0 then
                && reply == ScriptFails && store == old(store)[key := b]
                && expires == if found.Some? then old(expires) else old(expires) - {key}
              else
                && reply.Verdict? && reply.allowed == (Tokens(limit, found, now) >= 1.0)
                && reply.left as real <= b.tokens < reply.left as real + 1.0
                && (limit.Ttl() > 0 ==> store == old(store)[key := b] && expires == old(expires)[key := now + limit.Ttl()])
                && (limit.Ttl() <= 0 ==> store == old(store) - {key} && expires == old(expires) - {key})
    {
      var state := Found(key, now);
      var tokens, updated := limit.burst as real, now;
      if state.Some? {
        tokens, updated := state.value.tokens, state.value.updated;
      } else {
        expires := expires - {key};
      }
      var elapsed := if now >= updated then now - updated else 0;
      tokens := Min(limit.burst as real, tokens + limit.Gain(elapsed));
      var allowed := false;
      if tokens >= 1.0 {
        tokens := tokens - 1.0;
        allowed := true;
      }
      store := store[key := Bucket(tokens, now)];
      if limit.perMinute == 0 {
        return ScriptFails;
      }
      if limit.Ttl() > 0 {
        expires := expires[key := now + limit.Ttl()];
      } else {
        store, expires := store - {key}, expires - {key};
      }
      return Verdict(allowed, tokens.Floor);
    }
  }

  // --------------------------------------------------- expiry is not visible

  /** What a bucket of a refilling limiter holds. Below a burst of one nothing
      is ever taken. */
  predicate Holds(l: Limit, b: Bucket) {
    if l.burst >= 0 then 0.0 <= b.tokens <= l.burst as real else b.tokens == l.burst as real
  }

  /** After its time to live a bucket is full, whatever it held. */
  lemma FullWhenExpired(l: Limit, b: Bucket, now: int)
    requires l.perMinute > 0 && Holds(l, b) && now >= b.updated + l.Ttl() && now >= b.updated
    ensures Take(l, None, now) == Take(l, Some(b), now)
  {
    var r := l.perMinute as real / 60000.0;
    var need := l.burst as real / (l.perMinute as real / 60.0) * 1000.0;
    assert (now - b.updated) as real >= need;
    assert need * r == l.burst as real;
    assert l.Gain(now - b.updated) >= l.burst as real && l.Gain(now - b.updated) >= 0.0 by {
      assert (now - b.updated) as real * r >= need * r;
    }
  }

  // --------------------------------------------------------------- whole runs

  ghost predicate Ordered(times: seq<int>) {
    forall i, j | 0 <= i < j < |times| :: times[i] <= times[j]
  }

  /** The bucket after the first n requests of a key that starts missing and
      never expires. */
  function Kept(l: Limit, times: seq<int>, n: nat): Option<Bucket>
    requires n <= |times|
  {
    if n == 0 then None else Some(Take(l, Kept(l, times, n - 1), times[n - 1]))
  }

  /** The same when the key may be dropped before any request that comes at or
      after its expiry; `drop` says before which ones it is. */
  function Expiring(l: Limit, times: seq<int>, n: nat, drop: nat -> bool): Option<Bucket>
    requires l.perMinute > 0 && n <= |times|
  {
    if n == 0 then None
    else
      var b := Expiring(l, times, n - 1, drop);
      Some(Take(l, if drop(n - 1) && b.Some? && times[n - 1] >= b.value.updated + l.Ttl() then None else b, times[n - 1]))
  }

  lemma {:induction false} KeptHolds(l: Limit, times: seq<int>, n: nat)
    requires l.perMinute > 0 && n <= |times| && Ordered(times)
    ensures n > 0 ==>
              var b := Kept(l, times, n);
              b.Some? && Holds(l, b.value) && b.value.updated == times[n - 1]
  {
    if n > 0 {
      KeptHolds(l, times, n - 1);
    }
  }

  /** No schedule of expiries can be told from never expiring. */
  lemma {:induction false} ExpiryIsInvisible(l: Limit, times: seq<int>, n: nat, drop: nat -> bool)
    requires l.perMinute > 0 && n <= |times| && Ordered(times)
    ensures Expiring(l, times, n, drop) == Kept(l, times, n)
  {
    if n > 0 {
      ExpiryIsInvisible(l, times, n - 1, drop);
      var b := Kept(l, times, n - 1);
      if b.Some? && times[n - 1] >= b.value.updated + l.Ttl() {
        KeptHolds(l, times, n - 1);
        FullWhenExpired(l, b.value, times[n - 1]);
      }
    }
  }

  predicate Allowed(l: Limit, times: seq<int>, k: nat)
    requires k < |times|
  {
    Tokens(l, Kept(l, times, k), times[k]) >= 1.0
  }

  /** How many of the requests from..to - 1 were let through. */
  function Admitted(l: Limit, times: seq<int>, from: nat, to: nat): nat
    requires from <= to <= |times|
  {
    if from == to then 0
    else Admitted(l, times, from, to - 1) + if Allowed(l, times, to - 1) then 1 else 0
  }

  /** The milliseconds between two requests. */
  function Between(times: seq<int>, i: nat, k: nat): int
    requires i <= k < |times|
  {
    times[k] - times[i]
  }

  /** What the window that starts at request i still has room for at request k. */
  function Room(l: Limit, times: seq<int>, i: nat, k: nat): real
    requires i <= k < |times|
  {
    l.burst as real + l.Gain(Between(times, i, k)) - Admitted(l, times, i, k) as real
  }

  /** So many tokens a minute, and a minute has 60,000 milliseconds. */
  lemma GainIs(l: Limit, ms: int)
    ensures l.Gain(ms) == l.perMinute as real * ms as real / 60000.0
  {
  }

  lemma GainAdds(l: Limit, a: int, b: int)
    ensures l.Gain(a) + l.Gain(b) == l.Gain(a + b)
    ensures l.Gain(0) == 0.0
  {
  }

  /** One request later, every open window has gained what the clock gave and
      lost what was taken, and so has the bucket. */
  lemma OneRequestLater(l: Limit, times: seq<int>, i: nat, k: nat)
    requires Ordered(times) && i < k < |times|
    ensures Room(l, times, i, k) ==
              Room(l, times, i, k - 1) + l.Gain(times[k] - times[k - 1]) - if Allowed(l, times, k - 1) then 1.0 else 0.0
  {
    GainAdds(l, times[k - 1] - times[i], times[k] - times[k - 1]);
  }

  /** The token count a request finds is the least room over all windows that
      end with it. */
  lemma {:induction false} TokensAreTheLeastRoom(l: Limit, times: seq<int>, k: nat)
    requires Ordered(times) && k < |times|
    ensures var tokens := Tokens(l, Kept(l, times, k), times[k]);
            && (forall i | 0 <= i <= k :: tokens <= Room(l, times, i, k))
            && (exists i | 0 <= i <= k :: tokens == Room(l, times, i, k))
  {
    var tokens := Tokens(l, Kept(l, times, k), times[k]);
    GainAdds(l, 0, 0);
    assert Room(l, times, k, k) == l.burst as real;
    if k > 0 {
      TokensAreTheLeastRoom(l, times, k - 1);
      var before := Tokens(l, Kept(l, times, k - 1), times[k - 1]);
      var took := if Allowed(l, times, k - 1) then 1.0 else 0.0;
      assert tokens == Min(l.burst as real, before - took + l.Gain(times[k] - times[k - 1]));
      forall i | 0 <= i <= k
        ensures tokens <= Room(l, times, i, k)
      {
        if i < k {
          OneRequestLater(l, times, i, k);
        }
      }
      var i :| 0 <= i <= k - 1 && before == Room(l, times, i, k - 1);
      OneRequestLater(l, times, i, k);
      if tokens != Room(l, times, i, k) {
        assert tokens == Room(l, times, k, k);
      }
    }
  }

  /** A request is let through exactly when no window is out of room. */
  lemma AllowedWhileRoom(l: Limit, times: seq<int>, k: nat)
    requires Ordered(times) && k < |times|
    ensures Allowed(l, times, k) <==> forall i | 0 <= i <= k :: Room(l, times, i, k) >= 1.0
  {
    TokensAreTheLeastRoom(l, times, k);
    var tokens := Tokens(l, Kept(l, times, k), times[k]);
    var least :| 0 <= least <= k && tokens == Room(l, times, least, k);
  }

  /** Whether n requests in so many milliseconds stay within the burst and the
      configured tokens a minute. */
  predicate Within(l: Limit, n: int, ms: int) {
    n as real <= l.burst as real + l.perMinute as real * ms as real / 60000.0
  }

  lemma WithinIs(l: Limit, n: int, ms: int)
    ensures Within(l, n, ms) <==> n as real <= l.burst as real + l.Gain(ms)
  {
    GainIs(l, ms);
  }

  lemma RoomIsWithin(l: Limit, times: seq<int>, i: nat, k: nat)
    requires i <= k < |times|
    ensures Room(l, times, i, k) >= 1.0 <==> Within(l, Admitted(l, times, i, k) + 1, Between(times, i, k))
  {
    WithinIs(l, Admitted(l, times, i, k) + 1, Between(times, i, k));
  }

  /** A request is let through if and only if it keeps every window within the
      burst plus the configured tokens a minute, whatever they are: a bucket that
      is not forgotten never lets more through, and never turns away a request
      that would have fitted. */
  lemma AllowedIff(l: Limit, times: seq<int>, k: nat)
    requires Ordered(times) && k < |times|
    ensures Allowed(l, times, k) <==>
            forall i | 0 <= i <= k :: Within(l, Admitted(l, times, i, k) + 1, Between(times, i, k))
  {
    AllowedWhileRoom(l, times, k);
    forall i | 0 <= i <= k
      ensures Room(l, times, i, k) >= 1.0 <==> Within(l, Admitted(l, times, i, k) + 1, Between(times, i, k))
    {
      RoomIsWithin(l, times, i, k);
    }
  }

  lemma {:induction false} WindowHasRoom(l: Limit, times: seq<int>, i: nat, k: nat)
    requires l.perMinute > 0 && Ordered(times) && i <= k < |times|
    ensures var n := Admitted(l, times, i, k + 1); n == 0 || n as real <= l.burst as real + l.Gain(Between(times, i, k))
    decreases k
  {
    if Allowed(l, times, k) {
      AllowedWhileRoom(l, times, k);
      assert Room(l, times, i, k) >= 1.0;
    } else if i < k {
      WindowHasRoom(l, times, i, k - 1);
      GainAdds(l, times[k - 1] - times[i], times[k] - times[k - 1]);
    }
  }

  /** Any window admits at most the burst and the configured tokens a minute for
      its length, or none. */
  lemma WindowBound(l: Limit, times: seq<int>, i: nat, k: nat)
    requires l.perMinute > 0 && Ordered(times) && i <= k < |times|
    ensures Admitted(l, times, i, k + 1) == 0 || Within(l, Admitted(l, times, i, k + 1), Between(times, i, k))
  {
    WindowHasRoom(l, times, i, k);
    WithinIs(l, Admitted(l, times, i, k + 1), Between(times, i, k));
  }
}
