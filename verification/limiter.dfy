/** The token-bucket limiter (internal/ratelimit/limiter.go), with tokens as exact reals. */
module RateLimit {
  import opened Basics

  datatype Bucket = Bucket(tokens: real, updatedAt: Time, lastSeen: Time)

  datatype Decision = Decision(allowed: bool, remaining: int, retryAfter: int)

  type Buckets = map<string, Bucket>

  datatype Config = Config(capacity: int, refillPerSecond: real)

  predicate Usable(c: Config) {
    c.capacity >= 1 && c.refillPerSecond > 0.0
  }

  /** Tokens earned over a span of nanoseconds. */
  function Gain(c: Config, span: int): real {
    span as real / SECOND as real * c.refillPerSecond
  }

  function Refilled(c: Config, b: Bucket, now: Time): real {
    if now - b.updatedAt > 0 then
      var more := b.tokens + Gain(c, now - b.updatedAt);
      if more > c.capacity as real then c.capacity as real else more
    else
      b.tokens
  }

  /** The tokens a key could spend at an instant; an unknown key has a full bucket. */
  function Level(c: Config, bs: Buckets, key: string, now: Time): real {
    if key in bs then Refilled(c, bs[key], now) else c.capacity as real
  }

  function Wait(c: Config, tokens: real): int
    requires c.refillPerSecond > 0.0
  {
    var span := ((1.0 - tokens) / c.refillPerSecond * SECOND as real).Floor;
    if span < SECOND then SECOND else span
  }

  function Spend(c: Config, tokens: real, now: Time): (Bucket, Decision)
    requires c.refillPerSecond > 0.0
  {
    if tokens >= 1.0 then
      (Bucket(tokens - 1.0, now, now), Decision(true, (tokens - 1.0).Floor, 0))
    else
      (Bucket(tokens, now, now), Decision(false, 0, Wait(c, tokens)))
  }

  /** One call of Allow: the new table and the answer. */
  function AllowStep(c: Config, bs: Buckets, key: string, now: Time): (Buckets, Decision)
    requires c.refillPerSecond > 0.0
  {
    var (bucket, decision) := Spend(c, Level(c, bs, key, now), now);
    (bs[key := bucket], decision)
  }

  predicate Idle(b: Bucket, maxIdle: int, now: Time) {
    now - b.lastSeen > maxIdle
  }

  function Kept(bs: Buckets, maxIdle: int, now: Time): Buckets {
    map k | k in bs && !Idle(bs[k], maxIdle, now) :: bs[k]
  }

  /** Every bucket was last touched no later than now and holds between nothing and capacity. */
  ghost predicate Sound(c: Config, bs: Buckets, now: Time) {
    forall k :: k in bs ==>
      && 0.0 <= bs[k].tokens <= c.capacity as real
      && bs[k].lastSeen == bs[k].updatedAt <= now
  }

  class Limiter {
    var buckets: Buckets
    const config: Config

    ghost predicate Valid(now: Time)
      reads this
    {
      Usable(config) && Sound(config, buckets, now)
    }

    constructor (capacity: int, refillPerSecond: real)
      ensures buckets == map[] && Usable(config)
      ensures config == Config(if capacity <= 0 then 60 else capacity,
                               if refillPerSecond <= 0.0 then 1.0 else refillPerSecond)
    {
      config := Config(if capacity <= 0 then 60 else capacity,
                       if refillPerSecond <= 0.0 then 1.0 else refillPerSecond);
      buckets := map[];
    }

    method Allow(key: string, now: Time) returns (decision: Decision)
      requires Usable(config)
      modifies this`buckets
      ensures (buckets, decision) == AllowStep(config, old(buckets), key, now)
      ensures old(Valid(now)) ==> Valid(now)
    {
      ghost var before := buckets;
      var value := Bucket(config.capacity as real, now, now);
      if key in buckets {
        value := buckets[key];
      }
      var elapsed := now - value.updatedAt;
      if elapsed > 0 {
        value := value.(tokens := value.tokens + elapsed as real / SECOND as real * config.refillPerSecond);
        if value.tokens > config.capacity as real {
          value := value.(tokens := config.capacity as real);
        }
      }
      value := value.(updatedAt := now, lastSeen := now);
      if value.tokens >= 1.0 {
        value := value.(tokens := value.tokens - 1.0);
        decision := Decision(true, value.tokens.Floor, 0);
      } else {
        var missing := 1.0 - value.tokens;
        var span := (missing / config.refillPerSecond * SECOND as real).Floor;
        if span < SECOND {
          span := SECOND;
        }
        decision := Decision(false, 0, span);
      }
      buckets := buckets[key := value];
      if Sound(config, before, now) {
        AllowKeepsSound(config, before, key, now);
      }
    }

    method Cleanup(maxIdle: int, now: Time) returns (removed: nat)
      modifies this`buckets
      ensures buckets == Kept(old(buckets), maxIdle, now)
      ensures removed == |old(buckets)| - |buckets|
    {
      removed := 0;
      var todo := buckets.Keys;
      while todo != {}
        invariant todo <= buckets.Keys <= old(buckets).Keys
        invariant forall k :: k in old(buckets) && k !in todo ==>
          (k in buckets <==> !Idle(old(buckets)[k], maxIdle, now))
        invariant forall k :: k in buckets ==> buckets[k] == old(buckets)[k]
        invariant removed == |old(buckets)| - |buckets|
        decreases todo
      {
        var key :| key in todo;
        if now - buckets[key].lastSeen > maxIdle {
          buckets := buckets - {key};
          removed := removed + 1;
        }
        todo := todo - {key};
      }
    }
  }

  // ---------------------------------------------------------------------------------------
  // Arithmetic of refilling
  // ---------------------------------------------------------------------------------------

  lemma GainAdds(c: Config, a: int, b: int)
    ensures Gain(c, a + b) == Gain(c, a) + Gain(c, b)
  {
    var s := SECOND as real;
    assert (a + b) as real / s == a as real / s + b as real / s;
  }

  lemma GainGrows(c: Config, a: int, b: int)
    requires Usable(c) && a <= b
    ensures Gain(c, a) <= Gain(c, b)
  {
    GainAdds(c, a, b - a);
    assert (b - a) as real / SECOND as real >= 0.0;
    assert Gain(c, b - a) >= 0.0;
  }

  /** Over a span, a key's level rises by no more than the span earns, and never falls. */
  lemma LevelRises(c: Config, bs: Buckets, key: string, from: Time, to: Time)
    requires Usable(c) && Sound(c, bs, from) && from <= to
    ensures 0.0 <= Level(c, bs, key, from) <= Level(c, bs, key, to) <= c.capacity as real
    ensures Level(c, bs, key, to) <= Level(c, bs, key, from) + Gain(c, to - from)
  {
    GainGrows(c, 0, to - from);
    if key in bs {
      var b := bs[key];
      GainAdds(c, from - b.updatedAt, to - from);
      GainGrows(c, 0, from - b.updatedAt);
      GainGrows(c, from - b.updatedAt, to - b.updatedAt);
    }
  }

  lemma AllowKeepsSound(c: Config, bs: Buckets, key: string, now: Time)
    requires Usable(c) && Sound(c, bs, now)
    ensures Sound(c, AllowStep(c, bs, key, now).0, now)
  {
    LevelRises(c, bs, key, now, now);
  }

  lemma GainIs(c: Config, span: int)
    ensures Gain(c, span) == span as real / 1_000_000_000.0 * c.refillPerSecond
  {
  }

  /** An unknown key has a full bucket; a known one has its tokens and what the time since then earned, but no
      more than the capacity. */
  lemma LevelExactly(c: Config, bs: Buckets, key: string, now: Time)
    requires Usable(c) && Sound(c, bs, now)
    ensures key !in bs ==> Level(c, bs, key, now) == c.capacity as real
    ensures key in bs ==>
      var more := bs[key].tokens + (now - bs[key].updatedAt) as real / 1_000_000_000.0 * c.refillPerSecond;
      Level(c, bs, key, now) == if more > c.capacity as real then c.capacity as real else more
  {
    if key in bs {
      GainIs(c, now - bs[key].updatedAt);
      hide Gain;
      if now == bs[key].updatedAt {
        GainIs(c, 0);
      }
    }
  }

  /** A call takes one token, or is refused if there is less than one, and is then told to wait as long as it
      takes to earn what is missing, at least a second. */
  lemma AllowExactly(c: Config, bs: Buckets, key: string, now: Time)
    requires Usable(c) && Sound(c, bs, now)
    ensures var level := Level(c, bs, key, now);
      var wait := ((1.0 - level) / c.refillPerSecond * 1_000_000_000.0).Floor;
      var (after, d) := AllowStep(c, bs, key, now);
      && (d.allowed <==> level >= 1.0)
      && after == bs[key := Bucket(if d.allowed then level - 1.0 else level, now, now)]
      && (d.allowed ==> d.retryAfter == 0 && d.remaining as real <= level - 1.0 < d.remaining as real + 1.0)
      && (!d.allowed ==> d.remaining == 0 && d.retryAfter == if wait < 1_000_000_000 then 1_000_000_000 else wait)
  {
    hide Level;
  }

  // ---------------------------------------------------------------------------------------
  // Runs of calls
  // ---------------------------------------------------------------------------------------

  datatype Event = Call(key: string, at: Time) | Sweep(maxIdle: int, at: Time)

  /** The clock never goes back, and starts no earlier than a given instant. */
  ghost predicate Ordered(events: seq<Event>, from: Time)
    decreases |events|
  {
    events == [] || (from <= events[0].at && Ordered(events[1..], events[0].at))
  }

  function After(c: Config, bs: Buckets, e: Event): Buckets
    requires c.refillPerSecond > 0.0
  {
    match e
    case Call(key, at) => AllowStep(c, bs, key, at).0
    case Sweep(maxIdle, at) => Kept(bs, maxIdle, at)
  }

  /** The answers of a run, in order. */
  function Decisions(c: Config, bs: Buckets, events: seq<Event>): seq<Decision>
    requires c.refillPerSecond > 0.0
    decreases |events|
  {
    if events == [] then []
    else
      var rest := Decisions(c, After(c, bs, events[0]), events[1..]);
      if events[0].Call? then [AllowStep(c, bs, events[0].key, events[0].at).1] + rest else rest
  }

  lemma AfterKeepsSound(c: Config, bs: Buckets, e: Event, from: Time)
    requires Usable(c) && Sound(c, bs, from) && from <= e.at
    ensures Sound(c, After(c, bs, e), e.at)
  {
    assert Sound(c, bs, e.at);
    if e.Call? {
      AllowKeepsSound(c, bs, e.key, e.at);
    }
  }

  // ---------------------------------------------------------------------------------------
  // The rate bound
  // ---------------------------------------------------------------------------------------

  /** How many calls of one key a run allows within [lo, hi]. */
  ghost function Admitted(c: Config, bs: Buckets, events: seq<Event>, key: string, lo: Time, hi: Time): nat
    requires c.refillPerSecond > 0.0
    decreases |events|
  {
    if events == [] then 0
    else
      var e := events[0];
      Admitted(c, After(c, bs, e), events[1..], key, lo, hi)
      + (if e.Call? && e.key == key && lo <= e.at <= hi && AllowStep(c, bs, key, e.at).1.allowed then 1 else 0)
  }

  ghost predicate NoSweeps(events: seq<Event>) {
    forall i :: 0 <= i < |events| ==> events[i].Call?
  }

  /** From an instant inside the window on, a key is admitted no more often than its level plus
      what the rest of the window earns. */
  lemma {:induction false} AdmittedFromLevel(c: Config, bs: Buckets, events: seq<Event>, key: string, lo: Time,
                                             now: Time, hi: Time)
    requires Usable(c) && Sound(c, bs, now) && Ordered(events, now) && NoSweeps(events)
    requires lo <= now <= hi
    ensures Admitted(c, bs, events, key, lo, hi) as real <= Level(c, bs, key, now) + Gain(c, hi - now)
    decreases |events|
  {
    GainGrows(c, 0, hi - now);
    LevelRises(c, bs, key, now, now);
    if events != [] {
      var e := events[0];
      AfterKeepsSound(c, bs, e, now);
      if e.at <= hi {
        var next := After(c, bs, e);
        AdmittedFromLevel(c, next, events[1..], key, lo, e.at, hi);
        LevelRises(c, bs, key, now, e.at);
        GainAdds(c, e.at - now, hi - e.at);
      } else {
        AdmittedAfterWindow(c, bs, events, key, lo, hi);
      }
    }
  }

  lemma {:induction false} AdmittedAfterWindow(c: Config, bs: Buckets, events: seq<Event>, key: string, lo: Time,
                                               hi: Time)
    requires Usable(c) && events != [] && hi < events[0].at && Ordered(events, events[0].at)
    ensures Admitted(c, bs, events, key, lo, hi) == 0
    decreases |events|
  {
    if |events| > 1 {
      AdmittedAfterWindow(c, After(c, bs, events[0]), events[1..], key, lo, hi);
    }
  }

  lemma {:induction false} AdmittedAtMost(c: Config, bs: Buckets, events: seq<Event>, key: string, from: Time, lo: Time,
                                     hi: Time)
    requires Usable(c) && Sound(c, bs, from) && Ordered(events, from) && NoSweeps(events) && lo <= hi
    ensures Admitted(c, bs, events, key, lo, hi) as real <= c.capacity as real + Gain(c, hi - lo)
    decreases |events|
  {
    GainGrows(c, 0, hi - lo);
    if events != [] {
      var e := events[0];
      if e.at < lo {
        AfterKeepsSound(c, bs, e, from);
        AdmittedAtMost(c, After(c, bs, e), events[1..], key, e.at, lo, hi);
      } else if hi < e.at {
        AdmittedAfterWindow(c, bs, events, key, lo, hi);
      } else {
        assert Sound(c, bs, e.at) && Ordered(events, e.at);
        AdmittedFromLevel(c, bs, events, key, lo, e.at, hi);
        LevelRises(c, bs, key, e.at, e.at);
        GainGrows(c, hi - e.at, hi - lo);
      }
    }
  }

  /** The rate bound: from any sound state, over any run without eviction and any window, a key is
      admitted at most capacity times plus what the window earns at the configured rate. */
  lemma RateBound(c: Config, bs: Buckets, events: seq<Event>, key: string, from: Time, lo: Time, hi: Time)
    requires Usable(c) && Sound(c, bs, from) && Ordered(events, from) && NoSweeps(events) && lo <= hi
    ensures Admitted(c, bs, events, key, lo, hi) as real
            <= c.capacity as real + (hi - lo) as real / 1_000_000_000.0 * c.refillPerSecond
  {
    hide Admitted, Gain;
    AdmittedAtMost(c, bs, events, key, from, lo, hi);
    GainIs(c, hi - lo);
  }

  // ---------------------------------------------------------------------------------------
  // Keys do not affect each other
  // ---------------------------------------------------------------------------------------

  function CallsOf(events: seq<Event>, key: string): seq<Event>
    decreases |events|
  {
    if events == [] then []
    else if events[0].Call? && events[0].key != key then CallsOf(events[1..], key)
    else [events[0]] + CallsOf(events[1..], key)
  }

  /** The answers a run gives to one key. */
  function AnswersTo(c: Config, bs: Buckets, events: seq<Event>, key: string): seq<Decision>
    requires c.refillPerSecond > 0.0
    decreases |events|
  {
    if events == [] then []
    else
      var rest := AnswersTo(c, After(c, bs, events[0]), events[1..], key);
      if events[0].Call? && events[0].key == key
      then [AllowStep(c, bs, key, events[0].at).1] + rest else rest
  }

  ghost predicate AgreeOn(a: Buckets, b: Buckets, key: string) {
    (key in a <==> key in b) && (key in a ==> a[key] == b[key])
  }

  /** Dropping every call of other keys, and starting from any state that agrees on this key,
      changes none of this key's answers. */
  lemma {:induction false} KeysAreIndependent(c: Config, a: Buckets, b: Buckets, events: seq<Event>, key: string)
    requires Usable(c) && AgreeOn(a, b, key)
    ensures AnswersTo(c, a, events, key) == AnswersTo(c, b, CallsOf(events, key), key)
    decreases |events|
  {
    if events != [] {
      var e := events[0];
      if e.Call? && e.key != key {
        KeysAreIndependent(c, After(c, a, e), b, events[1..], key);
      } else {
        KeysAreIndependent(c, After(c, a, e), After(c, b, e), events[1..], key);
        assert ([e] + CallsOf(events[1..], key))[1..] == CallsOf(events[1..], key);
      }
    }
  }

  // ---------------------------------------------------------------------------------------
  // Eviction
  // ---------------------------------------------------------------------------------------

  function CallsOnly(events: seq<Event>): seq<Event>
    decreases |events|
  {
    if events == [] then []
    else if events[0].Sweep? then CallsOnly(events[1..])
    else [events[0]] + CallsOnly(events[1..])
  }

  ghost predicate SweepsWith(events: seq<Event>, maxIdle: int) {
    forall i :: 0 <= i < |events| && events[i].Sweep? ==> events[i].maxIdle == maxIdle
  }

  /** An evicted bucket would by now be full. */
  ghost predicate Shadows(c: Config, full: Buckets, swept: Buckets, now: Time) {
    && (forall k :: k in swept ==> k in full && swept[k] == full[k])
    && (forall k :: k in full && k !in swept ==> Refilled(c, full[k], now) == c.capacity as real)
  }

  /** Sweeping with maxIdle never shows: whatever the run, the answers are those of the same calls
      on a limiter that is never swept. */
  ghost predicate EvictionUnobservable(c: Config, maxIdle: int)
    requires c.refillPerSecond > 0.0
  {
    forall events, from :: Ordered(events, from) && SweepsWith(events, maxIdle) ==>
      Decisions(c, map[], events) == Decisions(c, map[], CallsOnly(events))
  }

  lemma FullStaysFull(c: Config, full: Buckets, swept: Buckets, now: Time, later: Time)
    requires Usable(c) && Sound(c, full, now) && Shadows(c, full, swept, now) && now <= later
    ensures Shadows(c, full, swept, later)
  {
    forall k | k in full && k !in swept
      ensures Refilled(c, full[k], later) == c.capacity as real
    {
      LevelRises(c, full, k, now, later);
    }
  }

  lemma SweptWasFull(c: Config, bs: Buckets, key: string, maxIdle: int, now: Time)
    requires Usable(c) && Sound(c, bs, now) && key in bs && Idle(bs[key], maxIdle, now)
    requires Gain(c, maxIdle + 1) >= c.capacity as real
    ensures Refilled(c, bs[key], now) == c.capacity as real
  {
    GainGrows(c, maxIdle + 1, now - bs[key].updatedAt);
  }

  lemma {:induction false} SweepsChangeNothing(c: Config, full: Buckets, swept: Buckets, events: seq<Event>,
                                               maxIdle: int, now: Time)
    requires Usable(c) && Gain(c, maxIdle + 1) >= c.capacity as real
    requires Sound(c, full, now) && Shadows(c, full, swept, now)
    requires Ordered(events, now) && SweepsWith(events, maxIdle)
    ensures Decisions(c, swept, events) == Decisions(c, full, CallsOnly(events))
    decreases |events|
  {
    if events != [] {
      var e := events[0];
      FullStaysFull(c, full, swept, now, e.at);
      assert Sound(c, full, e.at);
      var rest := events[1..];
      assert SweepsWith(rest, maxIdle) by {
        forall i | 0 <= i < |rest| && rest[i].Sweep? ensures rest[i].maxIdle == maxIdle {
          assert rest[i] == events[i + 1];
        }
      }
      if e.Sweep? {
        forall k | k in full && k !in Kept(swept, maxIdle, e.at)
          ensures Refilled(c, full[k], e.at) == c.capacity as real
        {
          if k in swept {
            SweptWasFull(c, full, k, maxIdle, e.at);
          }
        }
        SweepsChangeNothing(c, full, Kept(swept, maxIdle, e.at), rest, maxIdle, e.at);
      } else {
        assert Level(c, swept, e.key, e.at) == Level(c, full, e.key, e.at);
        AllowKeepsSound(c, full, e.key, e.at);
        SweepsChangeNothing(c, After(c, full, e), After(c, swept, e), rest, maxIdle, e.at);
        assert ([e] + CallsOnly(rest))[1..] == CallsOnly(rest);
      }
    }
  }

  /** A burst of calls of one key at one instant. */
  function Burst(n: nat, key: string, at: Time): seq<Event> {
    if n == 0 then [] else [Call(key, at)] + Burst(n - 1, key, at)
  }

  function AfterAll(c: Config, bs: Buckets, events: seq<Event>): Buckets
    requires c.refillPerSecond > 0.0
    decreases |events|
  {
    if events == [] then bs else AfterAll(c, After(c, bs, events[0]), events[1..])
  }

  lemma {:induction false} DecisionsSplit(c: Config, bs: Buckets, a: seq<Event>, b: seq<Event>)
    requires Usable(c)
    ensures Decisions(c, bs, a + b) == Decisions(c, bs, a) + Decisions(c, AfterAll(c, bs, a), b)
    decreases |a|
  {
    if a == [] {
      assert a + b == b;
    } else {
      assert (a + b)[1..] == a[1..] + b;
      DecisionsSplit(c, After(c, bs, a[0]), a[1..], b);
    }
  }

  /** With a level of at least n, all n calls of a burst pass and use n tokens. */
  lemma {:induction false} BurstPasses(c: Config, bs: Buckets, n: nat, key: string, at: Time)
    requires Usable(c) && Sound(c, bs, at) && Level(c, bs, key, at) >= n as real
    ensures |Decisions(c, bs, Burst(n, key, at))| == n
    ensures forall i :: 0 <= i < n ==> Decisions(c, bs, Burst(n, key, at))[i].allowed
    ensures Sound(c, AfterAll(c, bs, Burst(n, key, at)), at)
    ensures Level(c, AfterAll(c, bs, Burst(n, key, at)), key, at) == Level(c, bs, key, at) - n as real
    ensures n > 0 ==> AfterAll(c, bs, Burst(n, key, at)).Keys == bs.Keys + {key}
    decreases n
  {
    if n > 0 {
      var next := AllowStep(c, bs, key, at).0;
      AllowKeepsSound(c, bs, key, at);
      assert Burst(n, key, at)[1..] == Burst(n - 1, key, at);
      BurstPasses(c, next, n - 1, key, at);
    }
  }

  /** With a level below n, the last of n calls is refused. */
  lemma {:induction false} BurstRefused(c: Config, bs: Buckets, n: nat, key: string, at: Time)
    requires Usable(c) && Sound(c, bs, at) && Level(c, bs, key, at) < n as real && n > 0
    ensures |Decisions(c, bs, Burst(n, key, at))| == n
    ensures !Decisions(c, bs, Burst(n, key, at))[n - 1].allowed
    decreases n
  {
    var next := AllowStep(c, bs, key, at).0;
    AllowKeepsSound(c, bs, key, at);
    LevelRises(c, bs, key, at, at);
    assert Burst(n, key, at)[1..] == Burst(n - 1, key, at);
    if n > 1 {
      BurstRefused(c, next, n - 1, key, at);
    } else {
      assert Decisions(c, next, []) == [];
    }
  }

  /** The remaining count of an answer is how many more calls pass at that instant: so many do, and the
      next one does not. */
  lemma RemainingExactly(c: Config, bs: Buckets, key: string, now: Time)
    requires Usable(c) && Sound(c, bs, now) && AllowStep(c, bs, key, now).1.allowed
    ensures var (next, d) := AllowStep(c, bs, key, now);
      && d.remaining >= 0
      && |Decisions(c, next, Burst(d.remaining, key, now))| == d.remaining
      && (forall i :: 0 <= i < d.remaining ==> Decisions(c, next, Burst(d.remaining, key, now))[i].allowed)
      && |Decisions(c, next, Burst(d.remaining + 1, key, now))| == d.remaining + 1
      && !Decisions(c, next, Burst(d.remaining + 1, key, now))[d.remaining].allowed
  {
    var (next, d) := AllowStep(c, bs, key, now);
    AllowKeepsSound(c, bs, key, now);
    BurstPasses(c, next, d.remaining, key, now);
    BurstRefused(c, next, d.remaining + 1, key, now);
  }

  lemma {:induction false} BurstIsOrdered(n: nat, key: string, at: Time, from: Time, rest: seq<Event>)
    requires from <= at && Ordered(rest, at)
    ensures Ordered(Burst(n, key, at) + rest, from)
    decreases n
  {
    if n == 0 {
      assert Burst(n, key, at) + rest == rest;
    } else {
      assert (Burst(n, key, at) + rest)[1..] == Burst(n - 1, key, at) + rest;
      BurstIsOrdered(n - 1, key, at, at, rest);
    }
  }

  lemma {:induction false} BurstHasNoSweeps(n: nat, key: string, at: Time, rest: seq<Event>)
    ensures CallsOnly(Burst(n, key, at) + rest) == Burst(n, key, at) + CallsOnly(rest)
    decreases n
  {
    if n == 0 {
      assert Burst(n, key, at) + rest == rest;
    } else {
      var events := Burst(n, key, at) + rest;
      assert events[0] == Call(key, at) && events[1..] == Burst(n - 1, key, at) + rest;
      BurstHasNoSweeps(n - 1, key, at, rest);
      assert CallsOnly(events) == [events[0]] + (Burst(n - 1, key, at) + CallsOnly(rest));
    }
  }

  lemma {:induction false} LastCallStamps(c: Config, bs: Buckets, n: nat, key: string, at: Time)
    requires Usable(c) && n > 0
    ensures key in AfterAll(c, bs, Burst(n, key, at))
    ensures AfterAll(c, bs, Burst(n, key, at))[key].lastSeen == at
    decreases n
  {
    assert Burst(n, key, at)[1..] == Burst(n - 1, key, at);
    var next := AllowStep(c, bs, key, at).0;
    if n > 1 {
      LastCallStamps(c, next, n - 1, key, at);
    } else {
      assert AfterAll(c, next, []) == next;
    }
  }

  /** A fresh limiter after a burst of exactly its capacity: one empty bucket. */
  lemma Drained(c: Config, key: string, at: Time) returns (bs: Buckets)
    requires Usable(c)
    ensures bs == AfterAll(c, map[], Burst(c.capacity, key, at))
    ensures Sound(c, bs, at) && bs.Keys == {key} && bs[key].lastSeen == at && bs[key].tokens == 0.0
  {
    bs := AfterAll(c, map[], Burst(c.capacity, key, at));
    BurstPasses(c, map[], c.capacity, key, at);
    LastCallStamps(c, map[], c.capacity, key, at);
  }

  lemma SweptRunIsOrdered(n: nat, key: string, maxIdle: int, later: Time)
    requires 0 <= later
    ensures Ordered(Burst(n, key, 0) + ([Sweep(maxIdle, later)] + Burst(n, key, later)), 0)
    ensures CallsOnly(Burst(n, key, 0) + ([Sweep(maxIdle, later)] + Burst(n, key, later)))
            == Burst(n, key, 0) + Burst(n, key, later)
  {
    var second := Burst(n, key, later);
    var rest := [Sweep(maxIdle, later)] + second;
    assert second + [] == second;
    BurstIsOrdered(n, key, later, later, []);
    assert rest[1..] == second;
    BurstIsOrdered(n, key, 0, 0, rest);
    BurstHasNoSweeps(n, key, 0, rest);
    BurstHasNoSweeps(n, key, later, []);
  }

  lemma {:induction false} BurstSweepsNothing(n: nat, key: string, at: Time, maxIdle: int)
    ensures SweepsWith(Burst(n, key, at), maxIdle)
    decreases n
  {
    if n > 0 {
      BurstSweepsNothing(n - 1, key, at, maxIdle);
    }
  }

  /** Exhaust a key, sweep as soon as it counts as idle, and exhaust it again: if the idle time does
      not earn a whole bucket, the sweep shows in the last answer. */
  lemma SweepShows(c: Config, maxIdle: int)
    requires Usable(c) && Gain(c, maxIdle + 1) < c.capacity as real
    ensures !EvictionUnobservable(c, maxIdle)
  {
    var n, key := c.capacity, "k";
    var later := if maxIdle + 1 > 0 then maxIdle + 1 else 0;
    var first, second := Burst(n, key, 0), Burst(n, key, later);
    var rest := [Sweep(maxIdle, later)] + second;
    var events := first + rest;
    SweptRunIsOrdered(n, key, maxIdle, later);
    BurstSweepsNothing(n, key, 0, maxIdle);
    BurstSweepsNothing(n, key, later, maxIdle);
    assert SweepsWith(events, maxIdle);

    var drained := Drained(c, key, 0);
    BurstPasses(c, map[], n, key, 0);
    DecisionsSplit(c, map[], first, rest);
    DecisionsSplit(c, map[], first, second);
    assert rest[0] == Sweep(maxIdle, later) && rest[1..] == second;
    assert Kept(drained, maxIdle, later) == map[];
    assert Decisions(c, drained, rest) == Decisions(c, map[], second);
    BurstPasses(c, map[], n, key, later);
    LevelRises(c, drained, key, 0, later);
    BurstRefused(c, drained, n, key, later);
    assert Decisions(c, map[], events)[2 * n - 1].allowed;
    assert !Decisions(c, map[], CallsOnly(events))[2 * n - 1].allowed;
  }

  /** Eviction is unobservable exactly when the shortest idle time that can be swept, one nanosecond
      more than maxIdle, earns a whole bucket. */
  lemma EvictionExactly(c: Config, maxIdle: int)
    requires Usable(c)
    ensures EvictionUnobservable(c, maxIdle) <==>
      (maxIdle + 1) as real / 1_000_000_000.0 * c.refillPerSecond >= c.capacity as real
  {
    GainIs(c, maxIdle + 1);
    hide Gain;
    if Gain(c, maxIdle + 1) >= c.capacity as real {
      forall events, from | Ordered(events, from) && SweepsWith(events, maxIdle)
        ensures Decisions(c, map[], events) == Decisions(c, map[], CallsOnly(events))
      {
        SweepsChangeNothing(c, map[], map[], events, maxIdle, from);
      }
    } else {
      SweepShows(c, maxIdle);
    }
  }

  /** A refused caller that alone waits one nanosecond longer than RetryAfter is admitted. */
  lemma WaitingSuffices(c: Config, bs: Buckets, key: string, now: Time, later: Time)
    requires Usable(c) && Sound(c, bs, now)
    requires !AllowStep(c, bs, key, now).1.allowed
    requires later > now + AllowStep(c, bs, key, now).1.retryAfter
    ensures AllowStep(c, AllowStep(c, bs, key, now).0, key, later).1.allowed
  {
    var tokens := Level(c, bs, key, now);
    var (next, d) := AllowStep(c, bs, key, now);
    var s, r := SECOND as real, c.refillPerSecond;
    var span := (1.0 - tokens) / r * s;
    assert (later - now) as real > span;
    assert (later - now) as real / s > span / s == (1.0 - tokens) / r;
    assert (later - now) as real / s * r >= (1.0 - tokens) / r * r == 1.0 - tokens;
    assert Gain(c, later - now) >= 1.0 - tokens;
  }

  /** And RetryAfter is no longer than it must be: where it is more than its minimum of a second, a caller that
      waits less is refused again. */
  lemma ShorterWaitIsRefused(c: Config, bs: Buckets, key: string, now: Time, later: Time)
    requires Usable(c) && Sound(c, bs, now)
    requires !AllowStep(c, bs, key, now).1.allowed && AllowStep(c, bs, key, now).1.retryAfter > SECOND
    requires now <= later < now + AllowStep(c, bs, key, now).1.retryAfter
    ensures !AllowStep(c, AllowStep(c, bs, key, now).0, key, later).1.allowed
  {
    var tokens := Level(c, bs, key, now);
    var s, r := SECOND as real, c.refillPerSecond;
    var span := (1.0 - tokens) / r * s;
    assert (later - now) as real < span;
    assert (later - now) as real / s < span / s == (1.0 - tokens) / r;
    var rate := (later - now) as real / s;
    assert rate * r < (1.0 - tokens) / r * r == 1.0 - tokens by {
      LessTimes(rate, (1.0 - tokens) / r, r);
    }
    assert Gain(c, later - now) < 1.0 - tokens;
  }

  lemma LessTimes(a: real, b: real, r: real)
    requires a < b && r > 0.0
    ensures a * r < b * r
  {
  }
}
