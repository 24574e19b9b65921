/**
  The rate-limit store of src/shared/middleware/rateLimiter.ts: hit counters kept
  in Redis, or in a map of its own when there is no Redis client. A call happens
  at one instant; times are milliseconds.
 */
module RateLimit {
  import opened Common
  import opened MemoryRedis

  datatype Response = Response(totalHits: int, resetTime: int)

  // ----------------------------------------------------------- the Redis path

  datatype Counted = Counted(strings: Strings, response: Response)

  function RedisIncrement(s: Strings, key: Key, windowMs: int, now: int): Counted {
    var hit := LazyStep(s, Incr(key), now);
    var totalHits := hit.reply.n;
    var timed :=
      if totalHits == 1 then LazyStep(hit.strings, Expire(key, CeilSeconds(windowMs)), now).strings else hit.strings;
    var left := LazyStep(timed, Pttl(key), now);
    Counted(left.strings, Response(totalHits, now + if left.reply.n > 0 then left.reply.n else windowMs))
  }

  function RedisDecrement(s: Strings, key: Key, now: int): Strings {
    LazyStep(s, Decr(key), now).strings
  }

  function RedisReset(s: Strings, key: Key, now: int): Strings {
    LazyStep(s, Del([key]), now).strings
  }

  // --------------------------------------------------------- the fallback map

  datatype Window = Window(hits: int, resetTime: int)

  type Fallback = map<Key, Window>

  datatype FallbackCounted = FallbackCounted(windows: Fallback, response: Response)

  predicate Open(f: Fallback, key: Key, now: int) {
    key in f && f[key].resetTime > now
  }

  function FallbackIncrement(f: Fallback, key: Key, windowMs: int, now: int): FallbackCounted {
    var window := if Open(f, key, now) then f[key].(hits := f[key].hits + 1) else Window(1, now + windowMs);
    FallbackCounted(f[key := window], Response(window.hits, window.resetTime))
  }

  function FallbackDecrement(f: Fallback, key: Key): Fallback {
    if key in f && f[key].hits > 0 then f[key := f[key].(hits := f[key].hits - 1)] else f
  }

  // ---------------------------------------------------------------- agreement

  /** One counter of the Redis store, if it is live, is the open window. */
  predicate AgreeOn(s: Strings, f: Fallback, prefix: Key, key: Key, now: int) {
    var k := prefix + key;
    && (k in s && !Expired(s[k], now) <==> Open(f, key, now))
    && (Open(f, key, now) ==> f[key].hits >= 1 && s[k] == Entry(Decimal(f[key].hits), Some(f[key].resetTime)))
  }

  ghost predicate Agree(s: Strings, f: Fallback, prefix: Key, now: int) {
    forall key: Key :: AgreeOn(s, f, prefix, key, now)
  }

  predicate WholeSeconds(windowMs: int) {
    windowMs > 0 && windowMs % 1000 == 0
  }

  lemma AgreementLasts(s: Strings, f: Fallback, prefix: Key, now: int, later: int)
    requires Agree(s, f, prefix, now) && now <= later
    ensures Agree(s, f, prefix, later)
  {
    forall key: Key
      ensures AgreeOn(s, f, prefix, key, later)
    {
      assert AgreeOn(s, f, prefix, key, now);
    }
  }

  /** What an increment does to the Redis store. */
  lemma RedisIncrementIs(s: Strings, key: Key, windowMs: int, now: int)
    requires windowMs > 0
    requires key in s && !Expired(s[key], now) ==>
               s[key].value.Decimal? && s[key].value.n >= 1 && s[key].expireAt.Some?
    ensures var r := RedisIncrement(s, key, windowMs, now);
      if key in s && !Expired(s[key], now) then
        && r.strings == s[key := Entry(Decimal(s[key].value.n + 1), s[key].expireAt)]
        && r.response == Response(s[key].value.n + 1, s[key].expireAt.value)
      else
        && r.strings == s[key := Entry(Decimal(1), Some(now + CeilSeconds(windowMs) * 1000))]
        && r.response == Response(1, now + CeilSeconds(windowMs) * 1000)
  {
    var hit := LazyStep(s, Incr(key), now);
    if key in s && !Expired(s[key], now) {
      assert hit.strings == s[key := Entry(Decimal(s[key].value.n + 1), s[key].expireAt)];
    } else {
      assert hit.strings == s[key := Entry(Decimal(1), None)];
      assert CeilSeconds(windowMs) >= 1;
    }
  }

  /** The same on any live counter: its number goes up by one, the hit that makes it 1 gives it
      a new expiry, and a counter without any is reported to end a window from now. */
  lemma RedisIncrementTells(s: Strings, key: Key, windowMs: int, now: int, was: int)
    requires windowMs > 0 && key in s && s[key].value == Decimal(was) && !Expired(s[key], now)
    ensures var r := RedisIncrement(s, key, windowMs, now);
      var expireAt := if was == 0 then Some(now + (windowMs + 999) / 1000 * 1000) else s[key].expireAt;
      && r.strings == s[key := Entry(Decimal(was + 1), expireAt)]
      && r.response == Response(was + 1, if expireAt.None? then now + windowMs else expireAt.value)
  {
    var hit := LazyStep(s, Incr(key), now);
    assert hit.strings == s[key := Entry(Decimal(was + 1), s[key].expireAt)];
    assert CeilSeconds(windowMs) >= 1;
  }

  /** The fallback map: a hit on an open window is one more and keeps its end, any other opens
      a window; a decrement takes one hit off, but not below zero. */
  lemma FallbackTells(f: Fallback, key: Key, windowMs: int, now: int)
    ensures var r := FallbackIncrement(f, key, windowMs, now);
      if key in f && now < f[key].resetTime then
        && r.response == Response(f[key].hits + 1, f[key].resetTime)
        && r.windows == f[key := Window(f[key].hits + 1, f[key].resetTime)]
      else
        r.response == Response(1, now + windowMs) && r.windows == f[key := Window(1, now + windowMs)]
    ensures FallbackDecrement(f, key) ==
            if key in f && f[key].hits >= 1 then f[key := Window(f[key].hits - 1, f[key].resetTime)] else f
  {
  }

  /** A decrement on Redis takes one off a live counter and keeps its expiry, and makes any
      other -1; a reset removes it. */
  lemma RedisDecrementTells(s: Strings, key: Key, now: int)
    requires Held(s, key, now) ==> s[key].value.Decimal?
    ensures RedisDecrement(s, key, now) ==
            s[key := if Held(s, key, now) then Entry(Decimal(s[key].value.n - 1), s[key].expireAt)
                     else Entry(Decimal(-1), None)]
    ensures RedisReset(s, key, now) == s - {key}
  {
    CountersTell(s, key, now);
  }

  /** An increment gives the same answer on both paths and keeps them agreeing. */
  lemma IncrementAgrees(s: Strings, f: Fallback, prefix: Key, key: Key, windowMs: int, now: int)
    requires Agree(s, f, prefix, now) && WholeSeconds(windowMs)
    ensures RedisIncrement(s, prefix + key, windowMs, now).response == FallbackIncrement(f, key, windowMs, now).response
    ensures Agree(RedisIncrement(s, prefix + key, windowMs, now).strings,
                  FallbackIncrement(f, key, windowMs, now).windows, prefix, now)
  {
    assert AgreeOn(s, f, prefix, key, now);
    RedisIncrementIs(s, prefix + key, windowMs, now);
    assert CeilSeconds(windowMs) * 1000 == windowMs;
    forall other: Key
      ensures AgreeOn(RedisIncrement(s, prefix + key, windowMs, now).strings,
                      FallbackIncrement(f, key, windowMs, now).windows, prefix, other, now)
    {
      assert AgreeOn(s, f, prefix, other, now);
      PrefixInjective(prefix, key, other);
    }
  }

  lemma ResetAgrees(s: Strings, f: Fallback, prefix: Key, key: Key, now: int)
    requires Agree(s, f, prefix, now)
    ensures Agree(RedisReset(s, prefix + key, now), f - {key}, prefix, now)
  {
    forall other: Key
      ensures AgreeOn(RedisReset(s, prefix + key, now), f - {key}, prefix, other, now)
    {
      assert AgreeOn(s, f, prefix, other, now);
      PrefixInjective(prefix, key, other);
    }
  }

  /** A decrement that leaves an open window above zero keeps the paths agreeing. */
  lemma DecrementAgrees(s: Strings, f: Fallback, prefix: Key, key: Key, now: int)
    requires Agree(s, f, prefix, now)
    requires Open(f, key, now) && f[key].hits >= 2
    ensures Agree(RedisDecrement(s, prefix + key, now), FallbackDecrement(f, key), prefix, now)
  {
    assert AgreeOn(s, f, prefix, key, now);
    forall other: Key
      ensures AgreeOn(RedisDecrement(s, prefix + key, now), FallbackDecrement(f, key), prefix, other, now)
    {
      assert AgreeOn(s, f, prefix, other, now);
      PrefixInjective(prefix, key, other);
    }
  }

  predicate NextAlike(s: Strings, f: Fallback, prefix: Key, key: Key, windowMs: int, later: int) {
    RedisIncrement(s, prefix + key, windowMs, later).response == FallbackIncrement(f, key, windowMs, later).response
  }

  /** A decrement goes unnoticed by the next increment, whenever that comes, exactly
      when it left an open window above zero. */
  lemma DecrementIsSafeIff(s: Strings, f: Fallback, prefix: Key, key: Key, windowMs: int, now: int)
    requires Agree(s, f, prefix, now) && WholeSeconds(windowMs)
    requires Open(f, key, now) ==> f[key].resetTime <= now + windowMs
    ensures (forall later :: now <= later ==>
               NextAlike(RedisDecrement(s, prefix + key, now), FallbackDecrement(f, key), prefix, key, windowMs, later))
            <==> Open(f, key, now) && f[key].hits >= 2
  {
    var t, g := RedisDecrement(s, prefix + key, now), FallbackDecrement(f, key);
    assert AgreeOn(s, f, prefix, key, now);
    if Open(f, key, now) && f[key].hits >= 2 {
      DecrementAgrees(s, f, prefix, key, now);
      forall later | now <= later
        ensures NextAlike(t, g, prefix, key, windowMs, later)
      {
        AgreementLasts(t, g, prefix, now, later);
        IncrementAgrees(t, g, prefix, key, windowMs, later);
      }
    } else if Open(f, key, now) {
      var later := if f[key].resetTime == now + windowMs then now + 1 else now;
      assert !NextAlike(t, g, prefix, key, windowMs, later);
    } else {
      assert !NextAlike(t, g, prefix, key, windowMs, now);
    }
  }

  /** Redis counts whole seconds: the first hit of a window gets the same reset
      time on both paths exactly when the window is a whole number of seconds. */
  lemma FirstHitAgreesIff(s: Strings, f: Fallback, prefix: Key, key: Key, windowMs: int, now: int)
    requires Agree(s, f, prefix, now) && windowMs > 0 && !Open(f, key, now)
    ensures NextAlike(s, f, prefix, key, windowMs, now) <==> windowMs % 1000 == 0
  {
    assert AgreeOn(s, f, prefix, key, now);
    RedisIncrementIs(s, prefix + key, windowMs, now);
  }

  // -------------------------------------------------------------------- runs

  /** Calls of one limiter, and commands of anybody else on the same Redis. */
  datatype Call = Increment(key: Key) | Decrement(key: Key) | ResetKey(key: Key) | Foreign(command: Command)

  datatype CallAt = CallAt(call: Call, at: int)

  datatype Both = Both(strings: Strings, windows: Fallback)

  function Step(b: Both, prefix: Key, windowMs: int, call: Call, now: int): Both {
    match call
    case Increment(key) =>
      Both(RedisIncrement(b.strings, prefix + key, windowMs, now).strings,
           FallbackIncrement(b.windows, key, windowMs, now).windows)
    case Decrement(key) => Both(RedisDecrement(b.strings, prefix + key, now), FallbackDecrement(b.windows, key))
    case ResetKey(key) => Both(RedisReset(b.strings, prefix + key, now), b.windows - {key})
    case Foreign(c) => Both(LazyStep(b.strings, c, now).strings, b.windows)
  }

  /** Decrements leave an open window above zero; nobody else uses the prefix. */
  predicate Proper(b: Both, prefix: Key, call: Call, now: int) {
    match call
    case Increment(_) => true
    case Decrement(key) => Open(b.windows, key, now) && b.windows[key].hits >= 2
    case ResetKey(_) => true
    case Foreign(c) => forall key <- KeysOf(c) :: !(prefix <= key)
  }

  function After(b: Both, prefix: Key, windowMs: int, run: seq<CallAt>): Both
    decreases |run|
  {
    if run == [] then b
    else
      var n := |run| - 1;
      Step(After(b, prefix, windowMs, run[..n]), prefix, windowMs, run[n].call, run[n].at)
  }

  predicate ProperRun(b: Both, prefix: Key, windowMs: int, run: seq<CallAt>)
    decreases |run|
  {
    run != [] ==>
      var n := |run| - 1;
      && ProperRun(b, prefix, windowMs, run[..n])
      && (n > 0 ==> run[n - 1].at <= run[n].at)
      && Proper(After(b, prefix, windowMs, run[..n]), prefix, run[n].call, run[n].at)
  }

  lemma ForeignAgrees(s: Strings, f: Fallback, prefix: Key, c: Command, now: int)
    requires Agree(s, f, prefix, now)
    requires forall key <- KeysOf(c) :: !(prefix <= key)
    ensures Agree(LazyStep(s, c, now).strings, f, prefix, now)
  {
    forall key: Key
      ensures AgreeOn(LazyStep(s, c, now).strings, f, prefix, key, now)
    {
      assert AgreeOn(s, f, prefix, key, now);
      assert prefix <= prefix + key;
      StepSpares(s, c, prefix + key, now);
    }
  }

  lemma StepAgrees(b: Both, prefix: Key, windowMs: int, call: Call, now: int)
    requires Agree(b.strings, b.windows, prefix, now) && WholeSeconds(windowMs)
    requires Proper(b, prefix, call, now)
    ensures var t := Step(b, prefix, windowMs, call, now); Agree(t.strings, t.windows, prefix, now)
  {
    match call
    case Increment(key) => IncrementAgrees(b.strings, b.windows, prefix, key, windowMs, now);
    case Decrement(key) => DecrementAgrees(b.strings, b.windows, prefix, key, now);
    case ResetKey(key) => ResetAgrees(b.strings, b.windows, prefix, key, now);
    case Foreign(c) => ForeignAgrees(b.strings, b.windows, prefix, c, now);
  }

  lemma {:induction false} RunsAgree(b: Both, prefix: Key, windowMs: int, run: seq<CallAt>, start: int, now: int)
    requires Agree(b.strings, b.windows, prefix, start) && WholeSeconds(windowMs)
    requires ProperRun(b, prefix, windowMs, run)
    requires run != [] ==> start <= run[0].at && run[|run| - 1].at <= now
    requires start <= now
    ensures var t := After(b, prefix, windowMs, run); Agree(t.strings, t.windows, prefix, now)
    decreases |run|
  {
    if run == [] {
      AgreementLasts(b.strings, b.windows, prefix, start, now);
    } else {
      var n := |run| - 1;
      var before := After(b, prefix, windowMs, run[..n]);
      RunsAscend(b, prefix, windowMs, run, n);
      RunsAgree(b, prefix, windowMs, run[..n], start, run[n].at);
      StepAgrees(before, prefix, windowMs, run[n].call, run[n].at);
      var t := After(b, prefix, windowMs, run);
      AgreementLasts(t.strings, t.windows, prefix, run[n].at, now);
    }
  }

  lemma {:induction false} RunsAscend(b: Both, prefix: Key, windowMs: int, run: seq<CallAt>, i: nat)
    requires ProperRun(b, prefix, windowMs, run) && i < |run|
    ensures run[0].at <= run[i].at <= run[|run| - 1].at
    decreases |run|
  {
    var n := |run| - 1;
    if n > 0 {
      RunsAscend(b, prefix, windowMs, run[..n], if i < n then i else n - 1);
    }
  }

  /** The paths agree to begin with, when Redis holds nothing under the prefix. */
  lemma FreshPathsAgree(s: Strings, prefix: Key, now: int)
    requires forall key <- s :: !(prefix <= key)
    ensures Agree(s, map[], prefix, now)
  {
    forall key: Key
      ensures AgreeOn(s, map[], prefix, key, now)
    {
      assert prefix <= prefix + key;
    }
  }

  /** From any state in which they agree, after any proper run
      the next increment of any key is answered alike by both paths. */
  lemma PathsAnswerAlike(b: Both, prefix: Key, windowMs: int, run: seq<CallAt>, start: int, key: Key, now: int)
    requires Agree(b.strings, b.windows, prefix, start) && WholeSeconds(windowMs)
    requires ProperRun(b, prefix, windowMs, run)
    requires run != [] ==> start <= run[0].at && run[|run| - 1].at <= now
    requires start <= now
    ensures var t := After(b, prefix, windowMs, run); NextAlike(t.strings, t.windows, prefix, key, windowMs, now)
  {
    RunsAgree(b, prefix, windowMs, run, start, now);
    var t := After(b, prefix, windowMs, run);
    IncrementAgrees(t.strings, t.windows, prefix, key, windowMs, now);
  }

  // ------------------------------------------------------------ counting hits

  /** How often a run hits one key. */
  function HitCount(run: seq<CallAt>, key: Key): nat {
    if run == [] then 0
    else HitCount(run[..|run| - 1], key) + if run[|run| - 1].call == Increment(key) then 1 else 0
  }

  /** The run opens a window of the key with its first call, and nothing takes hits
      off it again; other keys and other users may do as they like. */
  predicate FillsWindow(run: seq<CallAt>, key: Key) {
    && run != []
    && run[0].call == Increment(key)
    && forall i :: 0 <= i < |run| ==> run[i].call != Decrement(key) && run[i].call != ResetKey(key)
  }

  lemma FallbackStep(b: Both, prefix: Key, windowMs: int, call: Call, now: int, key: Key)
    requires Open(b.windows, key, now) && call != Decrement(key) && call != ResetKey(key)
    ensures var t := Step(b, prefix, windowMs, call, now).windows;
      key in t && t[key] == b.windows[key].(hits := b.windows[key].hits + if call == Increment(key) then 1 else 0)
  {
  }

  lemma {:induction false} HitsFill(b: Both, prefix: Key, windowMs: int, run: seq<CallAt>, key: Key)
    requires FillsWindow(run, key) && ProperRun(b, prefix, windowMs, run) && !Open(b.windows, key, run[0].at)
    requires run[|run| - 1].at < run[0].at + windowMs
    ensures var t := After(b, prefix, windowMs, run);
      key in t.windows && t.windows[key] == Window(HitCount(run, key), run[0].at + windowMs)
    decreases |run|
  {
    var n := |run| - 1;
    var before := After(b, prefix, windowMs, run[..n]);
    if n == 0 {
      assert before == b && HitCount(run[..0], key) == 0;
    } else {
      HitsFill(b, prefix, windowMs, run[..n], key);
      FallbackStep(before, prefix, windowMs, run[n].call, run[n].at, key);
    }
  }

  /** The hits of a key are numbered 1 ... */
  lemma FirstHitIsOne(s: Strings, f: Fallback, prefix: Key, key: Key, windowMs: int, now: int)
    requires Agree(s, f, prefix, now) && WholeSeconds(windowMs) && !Open(f, key, now)
    ensures RedisIncrement(s, prefix + key, windowMs, now).response == Response(1, now + windowMs)
  {
    IncrementAgrees(s, f, prefix, key, windowMs, now);
  }

  /** ... 2, 3, ... by Redis as long as the window lasts, all with the reset time the
      first one set, whatever happens to other keys in between. */
  lemma HitsAreNumbered(b: Both, prefix: Key, windowMs: int, run: seq<CallAt>, start: int, key: Key, now: int)
    requires WholeSeconds(windowMs) && Agree(b.strings, b.windows, prefix, start)
    requires FillsWindow(run, key) && ProperRun(b, prefix, windowMs, run) && !Open(b.windows, key, run[0].at)
    requires start <= run[0].at && run[|run| - 1].at <= now < run[0].at + windowMs
    ensures RedisIncrement(After(b, prefix, windowMs, run).strings, prefix + key, windowMs, now).response ==
            Response(HitCount(run, key) + 1, run[0].at + windowMs)
  {
    RunsAscend(b, prefix, windowMs, run, 0);
    HitsFill(b, prefix, windowMs, run, key);
    PathsAnswerAlike(b, prefix, windowMs, run, start, key, now);
  }

  // --------------------------------------------------------------- witnesses

  const NOTHING: Both := Both(map[], map[])

  /** A hit, and after ten seconds a decrement: Redis forgets the window, the
      fallback map does not. */
  lemma DecrementToZeroShows(key: Key)
    ensures var one := Step(NOTHING, "rl:", 60000, Increment(key), 0);
      var none := Step(one, "rl:", 60000, Decrement(key), 10000);
      && RedisIncrement(none.strings, "rl:" + key, 60000, 10000).response == Response(1, 70000)
      && FallbackIncrement(none.windows, key, 60000, 10000).response == Response(1, 60000)
  {
    var one := Step(NOTHING, "rl:", 60000, Increment(key), 0);
    RedisIncrementIs(map[], "rl:" + key, 60000, 0);
    assert one.strings == map["rl:" + key := Entry(Decimal(1), Some(60000))];
    assert one.windows == map[key := Window(1, 60000)];
    var none := Step(one, "rl:", 60000, Decrement(key), 10000);
    assert none.strings == map["rl:" + key := Entry(Decimal(0), Some(60000))];
    assert none.windows == map[key := Window(0, 60000)];
  }

  /** With windows of a second and a half, Redis lets the first one last two seconds. */
  lemma HalfSecondShows(key: Key)
    ensures RedisIncrement(map[], key, 1500, 0).response == Response(1, 2000)
    ensures FallbackIncrement(map[], key, 1500, 0).response == Response(1, 1500)
  {
    RedisIncrementIs(map[], key, 1500, 0);
  }

  // ------------------------------------------------------ several limiters

  const PREFIXES := ["rl:standard:", "rl:strict:", "rl:login:", "rl:otp:"]

  /** The four limiters of the service share no counter. */
  lemma PrefixesSeparate(i: nat, j: nat, a: Key, b: Key)
    requires i < |PREFIXES| && j < |PREFIXES| && PREFIXES[i] + a == PREFIXES[j] + b
    ensures i == j && a == b
  {
    var x, y := PREFIXES[i] + a, PREFIXES[j] + b;
    assert x[3] == y[3] && x[4] == y[4] && x[5] == y[5] && x[6] == y[6];
    assert PREFIXES[i][3] == x[3] && PREFIXES[j][3] == y[3];
    assert PREFIXES[i][5] == x[5] && PREFIXES[j][5] == y[5];
    PrefixInjective(PREFIXES[i], a, b);
  }

  // ---------------------------------------------------------------- the store

  datatype Trouble = NoTrouble | IncrThrows | ExpireThrows | PttlThrows

  /** Whether an increment runs into the trouble; expire is called on first hits only. */
  predicate Thrown(s: Strings, key: Key, trouble: Trouble, now: int) {
    match trouble
    case NoTrouble => false
    case IncrThrows => true
    case ExpireThrows => LazyStep(s, Incr(key), now).reply == Count(1)
    case PttlThrows => true
  }

  class RedisRateLimitStore {
    const windowMs: int
    const keyPrefix: Key
    /** The client there is to be found, if any. */
    const environment: InMemoryRedis?<string>
    var redis: InMemoryRedis?<string>
    var redisChecked: bool
    var fallback: Fallback

    ghost predicate Valid()
      reads this
    {
      redisChecked ==> redis == environment
    }

    constructor (windowMs: int, prefix: Key, environment: InMemoryRedis?<string>)
      ensures Valid() && fallback == map[]
      ensures this.windowMs == windowMs && keyPrefix == prefix && this.environment == environment
    {
      this.windowMs, keyPrefix, this.environment := windowMs, prefix, environment;
      redis, redisChecked, fallback := null, false, map[];
    }

    method GetRedis() returns (client: InMemoryRedis?<string>)
      requires Valid()
      modifies `redis, `redisChecked
      ensures Valid() && client == environment
    {
      if !redisChecked {
        redis := environment;
        redisChecked := true;
      }
      client := redis;
    }

    method IncrementFallback(key: Key, now: int) returns (response: Response)
      modifies `fallback
      ensures FallbackCounted(fallback, response) == FallbackIncrement(old(fallback), key, windowMs, now)
    {
      if key !in fallback || fallback[key].resetTime <= now {
        fallback := fallback[key := Window(1, now + windowMs)];
        return Response(1, now + windowMs);
      }
      var entry := fallback[key].(hits := fallback[key].hits + 1);
      fallback := fallback[key := entry];
      response := Response(entry.hits, entry.resetTime);
    }

    /** The call on Redis: `trouble` names the command that throws, if one does. A
        command that throws is taken as not applied. */
    method IncrementOnRedis(client: InMemoryRedis<string>, redisKey: Key, trouble: Trouble, now: int)
      returns (response: Option<Response>)
      modifies client
      ensures response.None? <==> Thrown(old(client.memStrings), redisKey, trouble, now)
      ensures response.Some? ==>
                Counted(client.memStrings, response.value) ==
                RedisIncrement(old(client.memStrings), redisKey, windowMs, now)
      ensures trouble.IncrThrows? ==> client.memStrings == old(client.memStrings)
      ensures response.None? && trouble.ExpireThrows? ==>
                client.memStrings == LazyStep(old(client.memStrings), Incr(redisKey), now).strings
    {
      if trouble.IncrThrows? {
        return None;
      }
      var hit := client.IncrCommand(redisKey, now);
      var totalHits := hit.n;
      if totalHits == 1 {
        if trouble.ExpireThrows? {
          return None;
        }
        var expired := client.ExpireCommand(redisKey, CeilSeconds(windowMs), now);
      }
      if trouble.PttlThrows? {
        return None;
      }
      var ttlMs := client.PttlCommand(redisKey, now);
      response := Some(Response(totalHits, now + if ttlMs.n > 0 then ttlMs.n else windowMs));
    }

    /** When Redis throws, the client is forgotten, to be looked up again next time,
        and the hit counts on the fallback map. */
    method Increment(key: Key, trouble: Trouble, now: int) returns (response: Response)
      requires Valid()
      modifies this, environment
      ensures Valid()
      ensures var thrown := environment != null && old(Thrown(environment.memStrings, keyPrefix + key, trouble, now));
        && (environment == null || thrown ==>
              FallbackCounted(fallback, response) == FallbackIncrement(old(fallback), key, windowMs, now))
        && (environment != null && !thrown ==>
              && Counted(environment.memStrings, response) ==
                 RedisIncrement(old(environment.memStrings), keyPrefix + key, windowMs, now)
              && fallback == old(fallback))
        && (thrown ==> !redisChecked)
    {
      var client := GetRedis();
      if client == null {
        response := IncrementFallback(key, now);
        return;
      }
      var answer := IncrementOnRedis(client, keyPrefix + key, trouble, now);
      if answer.None? {
        redis, redisChecked := null, false;
        response := IncrementFallback(key, now);
        return;
      }
      response := answer.value;
    }

    /** When Redis throws, the fallback map takes the call and the client is kept. */
    method Decrement(key: Key, throws: bool, now: int)
      requires Valid()
      modifies this, environment
      ensures Valid()
      ensures environment == null || throws ==> fallback == FallbackDecrement(old(fallback), key)
      ensures environment != null ==>
                environment.memStrings ==
                if throws then old(environment.memStrings)
                else RedisDecrement(old(environment.memStrings), keyPrefix + key, now)
      ensures environment != null && !throws ==> fallback == old(fallback)
    {
      var client := GetRedis();
      if client != null && !throws {
        var reply := client.DecrCommand(keyPrefix + key, now);
        return;
      }
      if key in fallback && fallback[key].hits > 0 {
        fallback := fallback[key := fallback[key].(hits := fallback[key].hits - 1)];
      }
    }

    method ResetKey(key: Key, throws: bool, now: int)
      requires Valid()
      modifies this, environment
      ensures Valid()
      ensures environment == null || throws ==> fallback == old(fallback) - {key}
      ensures environment != null ==>
                environment.memStrings ==
                if throws then old(environment.memStrings)
                else RedisReset(old(environment.memStrings), keyPrefix + key, now)
      ensures environment != null && !throws ==> fallback == old(fallback)
    {
      var client := GetRedis();
      if client != null && !throws {
        var reply := client.DelCommand([keyPrefix + key]);
        return;
      }
      fallback := fallback - {key};
    }
  }
}
