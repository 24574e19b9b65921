/**
  The in-memory Redis in src/infra/redis/connection.ts.  Expired strings stay
  stored until some command trips over them; the model shows that nobody can tell
  from a map that drops them on time.  Lists do not expire.

  A command reads the clock once; times are milliseconds.
 */
module MemoryRedis {
  import opened Common

  type Key = string

  /** A stored text: the decimal text of an integer, or any other text with the
      number a counter command takes it for, which is 0 when it is no number. */
  datatype Value = Decimal(n: int) | Other(text: string, number: int)

  function NumberOf(value: Value): int {
    if value.Decimal? then value.n else value.number
  }

  datatype Entry = Entry(value: Value, expireAt: Option<int>)

  type Strings = map<Key, Entry>

  predicate Expired(entry: Entry, now: int) {
    entry.expireAt.Some? && now >= entry.expireAt.value
  }

  datatype Arg = Word(word: string) | Number(n: int)

  datatype Command =
    | Get(key: Key)
    | Set(key: Key, value: Value, args: seq<Arg>)
    | Setex(key: Key, seconds: int, value: Value)
    | Del(keys: seq<Key>)
    | Exists(keys: seq<Key>)
    | Ttl(key: Key)
    | Pttl(key: Key)
    | Expire(key: Key, seconds: int)
    | Incr(key: Key)
    | Decr(key: Key)

  datatype Reply = Nil | Done | Text(value: Value) | Count(n: int)

  datatype Outcome = Outcome(strings: Strings, reply: Reply)

  predicate CountsSeconds(arg: Arg) {
    arg == Word("EX") || arg == Word("ex")
  }

  predicate CountsMillis(arg: Arg) {
    arg == Word("PX") || arg == Word("px")
  }

  /** The expiry that the first `n` arguments of `set` give; the last one wins. */
  function ExpiryOf(args: seq<Arg>, n: nat, now: int): Option<int>
    requires n <= |args|
  {
    if n == 0 then None
    else if n < |args| && args[n].Number? && CountsSeconds(args[n - 1]) then Some(now + args[n].n * 1000)
    else if n < |args| && args[n].Number? && CountsMillis(args[n - 1]) then Some(now + args[n].n)
    else ExpiryOf(args, n - 1, now)
  }

  function CeilSeconds(ms: int): int {
    (ms + 999) / 1000
  }

  // ----------------------------------------------------------- the lazy store

  function Swept(s: Strings, key: Key, now: int): Strings {
    if key in s && Expired(s[key], now) then s - {key} else s
  }

  function LazyLive(s: Strings, keys: seq<Key>, now: int): Outcome
    decreases |keys|
  {
    if keys == [] then Outcome(s, Count(0))
    else
      var n := |keys| - 1;
      var before := LazyLive(s, keys[..n], now);
      var strings := Swept(before.strings, keys[n], now);
      Outcome(strings, Count((if before.reply.Count? then before.reply.n else 0) + if keys[n] in strings then 1 else 0))
  }

  function TtlMs(s: Strings, key: Key, now: int): int {
    if key !in s then -2
    else if s[key].expireAt.None? then -1
    else s[key].expireAt.value - now
  }

  function Bumped(s: Strings, key: Key, delta: int): Outcome {
    var next := (if key in s then NumberOf(s[key].value) else 0) + delta;
    Outcome(s[key := Entry(Decimal(next), if key in s then s[key].expireAt else None)], Count(next))
  }

  function Without<V>(m: map<Key, V>, keys: seq<Key>): map<Key, V> {
    map key | key in m && key !in keys :: m[key]
  }

  /** The keys of the list that are in the map, each once. */
  function Hits<V>(m: map<Key, V>, keys: seq<Key>): set<Key> {
    set key | key in keys && key in m
  }

  /** One command as the code runs it, as far as strings go. */
  function LazyStep(s: Strings, c: Command, now: int): Outcome {
    match c
    case Get(key) =>
      var t := Swept(s, key, now);
      Outcome(t, if key in t then Text(t[key].value) else Nil)
    case Set(key, value, args) => Outcome(s[key := Entry(value, ExpiryOf(args, |args|, now))], Done)
    case Setex(key, seconds, value) => Outcome(s[key := Entry(value, Some(now + seconds * 1000))], Done)
    case Del(keys) => Outcome(Without(s, keys), Count(|Hits(s, keys)|))
    case Exists(keys) => LazyLive(s, keys, now)
    case Ttl(key) =>
      var t := Swept(s, key, now);
      var ms := TtlMs(t, key, now);
      Outcome(t, Count(if ms == -2 || ms == -1 then ms else CeilSeconds(ms)))
    case Pttl(key) =>
      var t := Swept(s, key, now);
      Outcome(t, Count(TtlMs(t, key, now)))
    case Expire(key, seconds) =>
      var t := Swept(s, key, now);
      if key in t then Outcome(t[key := t[key].(expireAt := Some(now + seconds * 1000))], Count(1))
      else Outcome(t, Count(0))
    case Incr(key) => Bumped(Swept(s, key, now), key, 1)
    case Decr(key) => Bumped(Swept(s, key, now), key, -1)
  }

  // --------------------------------------------------- the map that is on time

  /** What is left once everything due has been dropped. */
  function Live(s: Strings, now: int): Strings {
    map key | key in s && !Expired(s[key], now) :: s[key]
  }

  function Present(s: Strings, keys: seq<Key>): nat {
    if keys == [] then 0 else Present(s, keys[..|keys| - 1]) + if keys[|keys| - 1] in s then 1 else 0
  }

  /** The same commands on plain map entries, none of which is ever overdue. */
  function PlainStep(s: Strings, c: Command, now: int): Outcome {
    match c
    case Get(key) => Outcome(s, if key in s then Text(s[key].value) else Nil)
    case Set(key, value, args) => Outcome(s[key := Entry(value, ExpiryOf(args, |args|, now))], Done)
    case Setex(key, seconds, value) => Outcome(s[key := Entry(value, Some(now + seconds * 1000))], Done)
    case Del(keys) => Outcome(Without(s, keys), Count(|Hits(s, keys)|))
    case Exists(keys) => Outcome(s, Count(Present(s, keys)))
    case Ttl(key) =>
      var ms := TtlMs(s, key, now);
      Outcome(s, Count(if key in s && s[key].expireAt.Some? then CeilSeconds(ms) else ms))
    case Pttl(key) => Outcome(s, Count(TtlMs(s, key, now)))
    case Expire(key, seconds) =>
      if key in s then Outcome(s[key := s[key].(expireAt := Some(now + seconds * 1000))], Count(1))
      else Outcome(s, Count(0))
    case Incr(key) => Bumped(s, key, 1)
    case Decr(key) => Bumped(s, key, -1)
  }

  /** Entries vanish at their instant: before the command and, if it set an expiry
      that is already due, right after it. */
  function PromptStep(s: Strings, c: Command, now: int): Outcome {
    var r := PlainStep(Live(s, now), c, now);
    Outcome(Live(r.strings, now), r.reply)
  }

  // ------------------------------------------------------------- one command

  lemma LiveLater(s: Strings, now: int, later: int)
    requires now <= later
    ensures Live(Live(s, now), later) == Live(s, later)
  {
  }

  lemma SweptIsLive(s: Strings, key: Key, now: int)
    ensures Live(Swept(s, key, now), now) == Live(s, now)
    ensures key in Swept(s, key, now) <==> key in Live(s, now)
    ensures key in Live(s, now) ==> Swept(s, key, now)[key] == s[key] == Live(s, now)[key]
  {
  }

  lemma LiveOfWrite(s: Strings, t: Strings, key: Key, entry: Entry, now: int)
    requires Live(s, now) == Live(t, now)
    ensures Live(s[key := entry], now) == Live(t[key := entry], now)
  {
    var a, b := Live(s[key := entry], now), Live(t[key := entry], now);
    forall k
      ensures k in a <==> k in b
      ensures k in a ==> a[k] == b[k]
    {
      if k != key {
        assert k in a <==> k in Live(s, now);
        assert k in b <==> k in Live(t, now);
        if k in a {
          assert a[k] == Live(s, now)[k] == Live(t, now)[k];
        }
      }
    }
  }

  lemma LiveIdempotent(s: Strings, now: int)
    ensures Live(Live(s, now), now) == Live(s, now)
  {
  }

  lemma {:induction false} ExistsRefines(s: Strings, keys: seq<Key>, now: int)
    ensures Live(LazyLive(s, keys, now).strings, now) == Live(s, now)
    ensures LazyLive(s, keys, now).reply == Count(Present(Live(s, now), keys))
    decreases |keys|
  {
    if keys != [] {
      var n := |keys| - 1;
      ExistsRefines(s, keys[..n], now);
      SweptIsLive(LazyLive(s, keys[..n], now).strings, keys[n], now);
    }
  }

  lemma LiveOfWithout(s: Strings, keys: seq<Key>, now: int)
    ensures Live(Without(s, keys), now) == Without(Live(s, now), keys)
    ensures Live(Without(Live(s, now), keys), now) == Without(Live(s, now), keys)
  {
  }

  lemma BumpRefines(s: Strings, key: Key, delta: int, now: int)
    ensures Live(Bumped(Swept(s, key, now), key, delta).strings, now) ==
            Live(Bumped(Live(s, now), key, delta).strings, now)
    ensures Bumped(Swept(s, key, now), key, delta).reply == Bumped(Live(s, now), key, delta).reply
  {
    SweptIsLive(s, key, now);
    LiveIdempotent(s, now);
    var t := Swept(s, key, now);
    var entry := Entry(Decimal((if key in t then NumberOf(t[key].value) else 0) + delta),
                       if key in t then t[key].expireAt else None);
    LiveOfWrite(t, Live(s, now), key, entry, now);
  }

  lemma ReadRefines(s: Strings, c: Command, now: int)
    requires c.Get? || c.Ttl? || c.Pttl? || c.Expire?
    ensures Live(LazyStep(s, c, now).strings, now) == PromptStep(s, c, now).strings
    ensures LazyStep(s, c, now).reply == PromptStep(s, c, now).reply
  {
    SweptIsLive(s, c.key, now);
    LiveIdempotent(s, now);
    if c.Expire? && c.key in Live(s, now) {
      var entry := s[c.key].(expireAt := Some(now + c.seconds * 1000));
      LiveOfWrite(Swept(s, c.key, now), Live(s, now), c.key, entry, now);
    }
  }

  /** A command leaves the same live entries as on the prompt map, and every
      command but `del` answers the same. */
  lemma StepRefines(s: Strings, c: Command, now: int)
    ensures Live(LazyStep(s, c, now).strings, now) == PromptStep(s, c, now).strings
    ensures !c.Del? ==> LazyStep(s, c, now).reply == PromptStep(s, c, now).reply
  {
    LiveIdempotent(s, now);
    match c
    case Get(_) => ReadRefines(s, c, now);
    case Ttl(_) => ReadRefines(s, c, now);
    case Pttl(_) => ReadRefines(s, c, now);
    case Expire(_, _) => ReadRefines(s, c, now);
    case Set(key, value, args) => LiveOfWrite(s, Live(s, now), key, Entry(value, ExpiryOf(args, |args|, now)), now);
    case Setex(key, seconds, value) => LiveOfWrite(s, Live(s, now), key, Entry(value, Some(now + seconds * 1000)), now);
    case Del(keys) => LiveOfWithout(s, keys, now);
    case Exists(keys) => ExistsRefines(s, keys, now);
    case Incr(key) => BumpRefines(s, key, 1, now);
    case Decr(key) => BumpRefines(s, key, -1, now);
  }

  // ------------------------------------------------------- strings and lists

  type Lists<E> = map<Key, seq<E>>

  datatype Deleted<E> = Deleted(strings: Strings, lists: Lists<E>, removed: nat)

  /** `del` as the code runs it: key by key, a string and a list of one name both
      going and both counting. */
  function Delete<E>(s: Strings, lists: Lists<E>, keys: seq<Key>): Deleted<E>
    decreases |keys|
  {
    if keys == [] then Deleted(s, lists, 0)
    else
      var last := keys[|keys| - 1];
      var before := Delete(s, lists, keys[..|keys| - 1]);
      Deleted(before.strings - {last}, before.lists - {last},
              before.removed + (if last in before.strings then 1 else 0) + if last in before.lists then 1 else 0)
  }

  lemma HitsSnoc<V>(m: map<Key, V>, keys: seq<Key>, key: Key)
    ensures Without(m, keys + [key]) == Without(m, keys) - {key}
    ensures |Hits(m, keys + [key])| == |Hits(m, keys)| + if key in Without(m, keys) then 1 else 0
  {
    var hits := Hits(m, keys);
    if key in Without(m, keys) {
      assert Hits(m, keys + [key]) == hits + {key};
    } else {
      assert Hits(m, keys + [key]) == hits;
    }
  }

  /** It removes exactly the listed keys and counts every stored value once. */
  lemma {:induction false} DeleteRemoves<E>(s: Strings, lists: Lists<E>, keys: seq<Key>)
    ensures Delete(s, lists, keys) ==
            Deleted(Without(s, keys), Without(lists, keys), |Hits(s, keys)| + |Hits(lists, keys)|)
    decreases |keys|
  {
    if keys == [] {
      assert Without(s, []) == s && Without(lists, []) == lists;
      assert Hits(s, []) == {} == Hits(lists, []);
    } else {
      var rest, last := keys[..|keys| - 1], keys[|keys| - 1];
      DeleteRemoves(s, lists, rest);
      HitsSnoc(s, rest, last);
      HitsSnoc(lists, rest, last);
      assert keys == rest + [last];
    }
  }

  /** Overdue strings are counted too: the count is that of a store which drops them
      on time exactly when no listed key is stored past its expiry. */
  lemma DelCountsIff<E>(s: Strings, lists: Lists<E>, keys: seq<Key>, now: int)
    ensures Delete(s, lists, keys).removed == Delete(Live(s, now), lists, keys).removed
            <==> forall key <- keys :: key in s ==> !Expired(s[key], now)
  {
    DeleteRemoves(s, lists, keys);
    DeleteRemoves(Live(s, now), lists, keys);
    var all, live := Hits(s, keys), Hits(Live(s, now), keys);
    assert live <= all;
    if forall key <- keys :: key in s ==> !Expired(s[key], now) {
      assert live == all;
    } else {
      var key :| key in keys && key in s && Expired(s[key], now);
      assert key in all - live;
      assert |all| == |all - live| + |live|;
    }
  }

  /** A code set for a minute and deleted two minutes later still counts as one. */
  lemma DelCountsExpired(key: Key, value: Value)
    ensures var s := LazyStep(map[], Setex(key, 60, value), 0).strings;
      && Delete<string>(s, map[], [key]).removed == 1
      && Delete<string>(Live(s, 120000), map[], [key]).removed == 0
  {
    var s := LazyStep(map[], Setex(key, 60, value), 0).strings;
    DeleteRemoves<string>(s, map[], [key]);
    DeleteRemoves<string>(Live(s, 120000), map[], [key]);
    assert Hits(s, [key]) == {key} && Hits(Live(s, 120000), [key]) == {};
  }

  // --------------------------------------------------------- what commands mean

  /** A position of `set` where an expiry is given. */
  predicate GivesExpiry(args: seq<Arg>, i: nat) {
    i + 1 < |args| && args[i + 1].Number? && (CountsSeconds(args[i]) || CountsMillis(args[i]))
  }

  /** The last option with a number decides when the value of `set` expires. */
  lemma {:induction false} LastOptionDecides(args: seq<Arg>, n: nat, i: nat, now: int)
    requires i < n <= |args| && GivesExpiry(args, i)
    requires forall j :: i < j < n ==> !GivesExpiry(args, j)
    ensures ExpiryOf(args, n, now) == Some(now + args[i + 1].n * if CountsSeconds(args[i]) then 1000 else 1)
  {
    if i < n - 1 {
      assert !GivesExpiry(args, n - 1);
      LastOptionDecides(args, n - 1, i, now);
    }
  }

  /** Without such an option it never expires. */
  lemma {:induction false} NoOptionNoExpiry(args: seq<Arg>, n: nat, now: int)
    requires n <= |args| && forall j :: 0 <= j < n ==> !GivesExpiry(args, j)
    ensures ExpiryOf(args, n, now) == None
  {
    if n > 0 {
      assert !GivesExpiry(args, n - 1);
      NoOptionNoExpiry(args, n - 1, now);
    }
  }

  /** A value set for `seconds` can be read at exactly the instants before they are over. */
  lemma SetThenGetIff(s: Strings, key: Key, value: Value, seconds: int, now: int, later: int)
    requires now <= later
    ensures LazyStep(LazyStep(s, Setex(key, seconds, value), now).strings, Get(key), later).reply ==
            if later < now + seconds * 1000 then Text(value) else Nil
    ensures LazyStep(s, Set(key, value, [Word("EX"), Number(seconds)]), now) ==
            LazyStep(s, Setex(key, seconds, value), now)
  {
    assert ExpiryOf([Word("EX"), Number(seconds)], 2, now) == ExpiryOf([Word("EX"), Number(seconds)], 1, now);
  }

  /** `ttl` is the least number of whole seconds that covers what `pttl` reports. */
  lemma TtlRoundsUp(s: Strings, key: Key, now: int)
    ensures var ttl, pttl := LazyStep(s, Ttl(key), now).reply, LazyStep(s, Pttl(key), now).reply;
      && ttl.Count? && pttl.Count?
      && if pttl.n > 0 then (ttl.n - 1) * 1000 < pttl.n <= ttl.n * 1000 else ttl.n == pttl.n && pttl.n in {-1, -2}
  {
  }

  /** Stored, and not past its expiry. */
  predicate Held(s: Strings, key: Key, now: int) {
    key in s && (s[key].expireAt.None? || now < s[key].expireAt.value)
  }

  /** `get` tells the value while it is held; `pttl` tells the milliseconds left, -1 where
      there is no expiry, and -2 where nothing is held. */
  lemma ReadsTell(s: Strings, key: Key, now: int)
    ensures LazyStep(s, Get(key), now).reply == if Held(s, key, now) then Text(s[key].value) else Nil
    ensures LazyStep(s, Pttl(key), now).reply ==
            if !Held(s, key, now) then Count(-2)
            else if s[key].expireAt.None? then Count(-1)
            else Count(s[key].expireAt.value - now)
  {
  }

  /** `exists` counts every listed position whose key is held. */
  lemma ExistsCounts(s: Strings, keys: seq<Key>, key: Key, now: int)
    ensures LazyStep(s, Exists([]), now).reply == Count(0)
    ensures var before, after := LazyStep(s, Exists(keys), now).reply, LazyStep(s, Exists(keys + [key]), now).reply;
      before.Count? && after.Count? && after.n == before.n + if Held(s, key, now) then 1 else 0
  {
    ExistsRefines(s, keys, now);
    ExistsRefines(s, keys + [key], now);
    assert (keys + [key])[..|keys|] == keys;
    assert key in Live(s, now) <==> Held(s, key, now);
  }

  /** `expire` sets the expiry of what is held and leaves its value; it says whether it did. */
  lemma ExpireTells(s: Strings, key: Key, seconds: int, now: int)
    ensures var r := LazyStep(s, Expire(key, seconds), now);
      if Held(s, key, now) then
        r.reply == Count(1) && r.strings == s[key := Entry(s[key].value, Some(now + seconds * 1000))]
      else r.reply == Count(0) && key !in r.strings
  {
  }

  /** `incr` and `decr` count from the number that is held, or from 0, and keep its expiry. */
  lemma CountersTell(s: Strings, key: Key, now: int)
    ensures var was := if !Held(s, key, now) then 0
                       else match s[key].value case Decimal(n) => n case Other(_, number) => number;
      var expireAt := if Held(s, key, now) then s[key].expireAt else None;
      && LazyStep(s, Incr(key), now) == Outcome(s[key := Entry(Decimal(was + 1), expireAt)], Count(was + 1))
      && LazyStep(s, Decr(key), now) == Outcome(s[key := Entry(Decimal(was - 1), expireAt)], Count(was - 1))
  {
    var t := Swept(s, key, now);
    var expireAt := if key in t then t[key].expireAt else None;
    var was := if key in t then NumberOf(t[key].value) else 0;
    assert t[key := Entry(Decimal(was + 1), expireAt)] == s[key := Entry(Decimal(was + 1), expireAt)];
    assert t[key := Entry(Decimal(was - 1), expireAt)] == s[key := Entry(Decimal(was - 1), expireAt)];
  }

  /** The options of `set`: seconds after EX, milliseconds after PX, either also in small
      letters, and no others. */
  lemma OptionsTell(s: Strings, key: Key, value: Value, word: string, n: int, now: int)
    ensures LazyStep(s, Set(key, value, [Word(word), Number(n)]), now) ==
            Outcome(s[key := Entry(value, if word == "EX" || word == "ex" then Some(now + n * 1000)
                                          else if word == "PX" || word == "px" then Some(now + n)
                                          else None)], Done)
    ensures LazyStep(s, Set(key, value, []), now) == Outcome(s[key := Entry(value, None)], Done)
  {
    var args := [Word(word), Number(n)];
    assert ExpiryOf(args, 2, now) == ExpiryOf(args, 1, now);
    assert args[0] == Word(word) && ExpiryOf(args, 0, now) == None;
  }

  /** `decr` takes back what `incr` did to a live counter, expiry included. */
  lemma DecrUndoesIncr(s: Strings, key: Key, now: int)
    requires key in s && s[key].value.Decimal? && !Expired(s[key], now)
    ensures LazyStep(LazyStep(s, Incr(key), now).strings, Decr(key), now) == Outcome(s, Count(s[key].value.n))
    ensures LazyStep(s, Incr(key), now).reply == Count(s[key].value.n + 1)
  {
    var bumped := LazyStep(s, Incr(key), now).strings;
    assert bumped == s[key := Entry(Decimal(s[key].value.n + 1), s[key].expireAt)];
    assert s == bumped[key := s[key]];
  }

  // ------------------------------------------------------------ keys and frames

  function KeysOf(c: Command): seq<Key> {
    match c
    case Del(keys) => keys
    case Exists(keys) => keys
    case Get(key) => [key]
    case Set(key, _, _) => [key]
    case Setex(key, _, _) => [key]
    case Ttl(key) => [key]
    case Pttl(key) => [key]
    case Expire(key, _) => [key]
    case Incr(key) => [key]
    case Decr(key) => [key]
  }

  lemma {:induction false} ExistsSpares(s: Strings, keys: seq<Key>, key: Key, now: int)
    requires key !in keys
    ensures var t := LazyLive(s, keys, now).strings;
      (key in t <==> key in s) && (key in s ==> t[key] == s[key])
    decreases |keys|
  {
    if keys != [] {
      ExistsSpares(s, keys[..|keys| - 1], key, now);
    }
  }

  /** A command leaves every key alone that it does not name. */
  lemma StepSpares(s: Strings, c: Command, key: Key, now: int)
    requires key !in KeysOf(c)
    ensures var t := LazyStep(s, c, now).strings;
      (key in t <==> key in s) && (key in s ==> t[key] == s[key])
  {
    match c
    case Del(_) =>
    case Exists(keys) => ExistsSpares(s, keys, key, now);
    case _ => assert KeysOf(c)[0] != key;
  }

  lemma PrefixInjective(prefix: Key, a: Key, b: Key)
    ensures prefix + a == prefix + b <==> a == b
  {
    assert (prefix + a)[|prefix|..] == a && (prefix + b)[|prefix|..] == b;
  }

  // -------------------------------------------------------------------- runs

  datatype Timed = Timed(command: Command, at: int)

  predicate InOrder(run: seq<Timed>) {
    forall i, j :: 0 <= i < j < |run| ==> run[i].at <= run[j].at
  }

  function LazyRun(s: Strings, run: seq<Timed>): Strings
    decreases |run|
  {
    if run == [] then s
    else LazyStep(LazyRun(s, run[..|run| - 1]), run[|run| - 1].command, run[|run| - 1].at).strings
  }

  function PromptRun(s: Strings, run: seq<Timed>): Strings
    decreases |run|
  {
    if run == [] then s
    else PromptStep(PromptRun(s, run[..|run| - 1]), run[|run| - 1].command, run[|run| - 1].at).strings
  }

  lemma {:induction false} RunsKeepLive(s: Strings, run: seq<Timed>, later: int)
    requires InOrder(run) && (run != [] ==> run[|run| - 1].at <= later)
    ensures Live(LazyRun(s, run), later) == Live(PromptRun(s, run), later)
    decreases |run|
  {
    if run != [] {
      var n := |run| - 1;
      var now := run[n].at;
      RunsKeepLive(s, run[..n], now);
      var lazy, prompt := LazyRun(s, run[..n]), PromptRun(s, run[..n]);
      StepRefines(lazy, run[n].command, now);
      LiveLater(LazyStep(lazy, run[n].command, now).strings, now, later);
      LiveLater(PromptStep(prompt, run[n].command, now).strings, now, later);
      LiveIdempotent(PlainStep(Live(prompt, now), run[n].command, now).strings, now);
    }
  }

  /** Along every run with a clock that never goes back, every command except
      `del` gets the answer of the map that drops each key on time. */
  lemma RunsAnswerAlike(s: Strings, run: seq<Timed>, i: nat)
    requires InOrder(run) && i < |run| && !run[i].command.Del?
    ensures LazyStep(LazyRun(s, run[..i]), run[i].command, run[i].at).reply ==
            PromptStep(PromptRun(s, run[..i]), run[i].command, run[i].at).reply
  {
    RunsKeepLive(s, run[..i], run[i].at);
    StepRefines(LazyRun(s, run[..i]), run[i].command, run[i].at);
  }

  // --------------------------------------------------------------- the client

  /** `E` is what the elements of the lists stand for. */
  class InMemoryRedis<E> {
    var memStrings: Strings
    var memLists: Lists<E>

    constructor ()
      ensures memStrings == map[] && memLists == map[]
    {
      memStrings, memLists := map[], map[];
    }

    method MemGetEntry(key: Key, now: int) returns (entry: Option<Entry>)
      modifies `memStrings
      ensures memStrings == Swept(old(memStrings), key, now)
      ensures entry == if key in memStrings then Some(memStrings[key]) else None
    {
      if key !in memStrings {
        return None;
      }
      if Expired(memStrings[key], now) {
        memStrings := memStrings - {key};
        return None;
      }
      entry := Some(memStrings[key]);
    }

    method MemTtlMs(key: Key, now: int) returns (ms: int)
      modifies `memStrings
      ensures memStrings == Swept(old(memStrings), key, now)
      ensures ms == TtlMs(memStrings, key, now)
      ensures key in memStrings && memStrings[key].expireAt.Some? ==> ms > 0
    {
      if key !in memStrings {
        return -2;
      }
      if memStrings[key].expireAt.None? {
        return -1;
      }
      ms := memStrings[key].expireAt.value - now;
      if ms <= 0 {
        memStrings := memStrings - {key};
        ms := -2;
      }
    }

    method GetCommand(key: Key, now: int) returns (reply: Reply)
      modifies `memStrings
      ensures Outcome(memStrings, reply) == LazyStep(old(memStrings), Get(key), now)
    {
      var entry := MemGetEntry(key, now);
      reply := if entry.Some? then Text(entry.value.value) else Nil;
    }

    method SetCommand(key: Key, value: Value, args: seq<Arg>, now: int) returns (reply: Reply)
      modifies `memStrings
      ensures Outcome(memStrings, reply) == LazyStep(old(memStrings), Set(key, value, args), now)
    {
      var expireAt: Option<int> := None;
      for i := 0 to |args|
        invariant expireAt == ExpiryOf(args, i, now)
      {
        if CountsSeconds(args[i]) && i + 1 < |args| && args[i + 1].Number? {
          expireAt := Some(now + args[i + 1].n * 1000);
        }
        if CountsMillis(args[i]) && i + 1 < |args| && args[i + 1].Number? {
          expireAt := Some(now + args[i + 1].n);
        }
      }
      memStrings := memStrings[key := Entry(value, expireAt)];
      reply := Done;
    }

    method SetexCommand(key: Key, seconds: int, value: Value, now: int) returns (reply: Reply)
      modifies `memStrings
      ensures Outcome(memStrings, reply) == LazyStep(old(memStrings), Setex(key, seconds, value), now)
    {
      memStrings := memStrings[key := Entry(value, Some(now + seconds * 1000))];
      reply := Done;
    }

    method DelCommand(keys: seq<Key>) returns (reply: Reply)
      modifies this
      ensures reply.Count? && reply.n >= 0
      ensures Deleted(memStrings, memLists, reply.n) == Delete(old(memStrings), old(memLists), keys)
      ensures memStrings == Without(old(memStrings), keys)
    {
      var removed := 0;
      for i := 0 to |keys|
        invariant Deleted(memStrings, memLists, removed) == Delete(old(memStrings), old(memLists), keys[..i])
      {
        assert keys[..i + 1][..i] == keys[..i];
        if keys[i] in memStrings {
          removed := removed + 1;
        }
        memStrings := memStrings - {keys[i]};
        if keys[i] in memLists {
          removed := removed + 1;
        }
        memLists := memLists - {keys[i]};
      }
      assert keys[..|keys|] == keys;
      DeleteRemoves(old(memStrings), old(memLists), keys);
      reply := Count(removed);
    }

    method ExistsCommand(keys: seq<Key>, now: int) returns (reply: Reply)
      modifies `memStrings
      ensures Outcome(memStrings, reply) == LazyStep(old(memStrings), Exists(keys), now)
    {
      var found := 0;
      for i := 0 to |keys|
        invariant Outcome(memStrings, Count(found)) == LazyLive(old(memStrings), keys[..i], now)
      {
        assert keys[..i + 1][..i] == keys[..i];
        var entry := MemGetEntry(keys[i], now);
        if entry.Some? {
          found := found + 1;
        }
      }
      assert keys[..|keys|] == keys;
      reply := Count(found);
    }

    method TtlCommand(key: Key, now: int) returns (reply: Reply)
      modifies `memStrings
      ensures Outcome(memStrings, reply) == LazyStep(old(memStrings), Ttl(key), now)
    {
      var ms := MemTtlMs(key, now);
      if ms == -2 {
        return Count(-2);
      }
      if ms == -1 {
        return Count(-1);
      }
      reply := Count(CeilSeconds(ms));
    }

    method PttlCommand(key: Key, now: int) returns (reply: Reply)
      modifies `memStrings
      ensures Outcome(memStrings, reply) == LazyStep(old(memStrings), Pttl(key), now)
    {
      var ms := MemTtlMs(key, now);
      reply := Count(ms);
    }

    method ExpireCommand(key: Key, seconds: int, now: int) returns (reply: Reply)
      modifies `memStrings
      ensures Outcome(memStrings, reply) == LazyStep(old(memStrings), Expire(key, seconds), now)
    {
      var entry := MemGetEntry(key, now);
      if entry.None? {
        return Count(0);
      }
      memStrings := memStrings[key := entry.value.(expireAt := Some(now + seconds * 1000))];
      reply := Count(1);
    }

    method IncrCommand(key: Key, now: int) returns (reply: Reply)
      modifies `memStrings
      ensures Outcome(memStrings, reply) == LazyStep(old(memStrings), Incr(key), now)
    {
      var entry := MemGetEntry(key, now);
      var next := (if entry.Some? then NumberOf(entry.value.value) else 0) + 1;
      var again := MemGetEntry(key, now);
      memStrings := memStrings[key := Entry(Decimal(next), if again.Some? then again.value.expireAt else None)];
      reply := Count(next);
    }

    method DecrCommand(key: Key, now: int) returns (reply: Reply)
      modifies `memStrings
      ensures Outcome(memStrings, reply) == LazyStep(old(memStrings), Decr(key), now)
    {
      var entry := MemGetEntry(key, now);
      var next := (if entry.Some? then NumberOf(entry.value.value) else 0) - 1;
      var again := MemGetEntry(key, now);
      memStrings := memStrings[key := Entry(Decimal(next), if again.Some? then again.value.expireAt else None)];
      reply := Count(next);
    }

    /** A key that was never written is an empty list. */
    function At(key: Key): seq<E>
      reads this
    {
      if key in memLists then memLists[key] else []
    }

    /** The last value named ends up first. */
    method LpushCommand(key: Key, values: seq<E>) returns (length: nat)
      modifies `memLists
      ensures memLists == old(memLists)[key := Reversed(values) + old(At(key))]
      ensures length == |At(key)|
    {
      memLists := memLists[key := Reversed(values) + At(key)];
      length := |At(key)|;
    }

    method LtrimCommand(key: Key, start: int, stop: int)
      modifies `memLists
      ensures memLists == old(memLists)[key := Slice(old(At(key)), start, stop + 1)]
    {
      memLists := memLists[key := Slice(At(key), start, stop + 1)];
    }

    method LindexCommand(key: Key, index: int) returns (value: Option<E>)
      ensures var at := if index < 0 then |At(key)| + index else index;
        value == if 0 <= at < |At(key)| then Some(At(key)[at]) else None
    {
      var list := At(key);
      var at := if index < 0 then |list| + index else index;
      value := if 0 <= at < |list| then Some(list[at]) else None;
    }

    method RpopCommand(key: Key) returns (value: Option<E>)
      modifies `memLists
      ensures var was := old(At(key));
        if was == [] then value == None && memLists == old(memLists)[key := []]
        else value == Some(was[|was| - 1]) && memLists == old(memLists)[key := was[..|was| - 1]]
    {
      var list := At(key);
      if |list| == 0 {
        memLists := memLists[key := []];
        return None;
      }
      memLists := memLists[key := list[..|list| - 1]];
      value := Some(list[|list| - 1]);
    }

    method LrangeCommand(key: Key, start: int, stop: int) returns (values: seq<E>)
      ensures values == Slice(At(key), if start < 0 then |At(key)| + start else start,
                              if stop < 0 then |At(key)| + stop + 1 else stop + 1)
    {
      var list := At(key);
      var end := if stop < 0 then |list| + stop + 1 else stop + 1;
      values := Slice(list, if start < 0 then |list| + start else start, end);
    }
  }
}
