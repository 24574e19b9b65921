/**
  The recent-events window of src/infra/redis/recentEvents.ts: a list of the
  newest events, capped and aged on every push, and read by polling clients.
 */
module RecentEvents {
  import opened Common
  import opened MemoryRedis

  const MAX_EVENTS := 500
  const TTL_MS := 60000
  const RECENT_EVENTS_KEY := "recent_events"

  /** An event stands for its JSON text, which reads back as the same event. */
  datatype Event = Event(publishedAt: int, payload: string)

  // ------------------------------------------------------------- what is kept

  /** Drops entries from the tail until one is in the window. */
  function EvictTail(list: seq<Event>, cutoff: int): seq<Event>
    decreases |list|
  {
    if list != [] && list[|list| - 1].publishedAt < cutoff then EvictTail(list[..|list| - 1], cutoff) else list
  }

  /** One push on the stored list, which has the newest event first. */
  function Push(list: seq<Event>, event: Event, now: int): seq<Event> {
    EvictTail(Slice([event] + list, 0, MAX_EVENTS), now - TTL_MS)
  }

  /** One poll: the events after `since`, oldest first. */
  function Poll(list: seq<Event>, since: int): seq<Event> {
    Reversed(From(list, since + 1))
  }

  /** The events published at `start` or later, in their order. */
  function From(events: seq<Event>, start: int): (r: seq<Event>)
    ensures |r| <= |events|
  {
    if events == [] then []
    else
      var last := events[|events| - 1];
      From(events[..|events| - 1], start) + if last.publishedAt >= start then [last] else []
  }

  // -------------------------------------------------------------- the history

  datatype Publish = Publish(event: Event, at: int)

  /** Neither the publish times nor the clock of the pushes go back. */
  predicate InOrder(run: seq<Publish>) {
    forall i, j :: 0 <= i < j < |run| ==> run[i].event.publishedAt <= run[j].event.publishedAt && run[i].at <= run[j].at
  }

  predicate Ascending(events: seq<Event>) {
    forall i, j :: 0 <= i < j < |events| ==> events[i].publishedAt <= events[j].publishedAt
  }

  function History(run: seq<Publish>): (h: seq<Event>)
    ensures |h| == |run|
  {
    seq(|run|, i requires 0 <= i < |run| => run[i].event)
  }

  /** The stored list after a run of pushes. */
  function Stored(run: seq<Publish>): seq<Event> {
    if run == [] then [] else Push(Stored(run[..|run| - 1]), run[|run| - 1].event, run[|run| - 1].at)
  }

  function Min(a: nat, b: nat): nat {
    if a <= b then a else b
  }

  function Newest(events: seq<Event>, n: nat): seq<Event> {
    events[|events| - Min(n, |events|)..]
  }

  // ------------------------------------------------- windows of ascending lists

  /** How many events were published at `start` or later. */
  function Since(events: seq<Event>, start: int): (n: nat)
    ensures n <= |events|
  {
    if events == [] then 0
    else Since(events[..|events| - 1], start) + if events[|events| - 1].publishedAt >= start then 1 else 0
  }

  /** The newest `n` events are those from an instant on. */
  predicate Splits(events: seq<Event>, start: int, n: nat) {
    n <= |events| && forall i :: 0 <= i < |events| ==> (events[i].publishedAt >= start <==> i >= |events| - n)
  }

  lemma {:induction false} SinceSplits(events: seq<Event>, start: int)
    requires Ascending(events)
    ensures Splits(events, start, Since(events, start))
  {
    if events != [] {
      var before, last := events[..|events| - 1], events[|events| - 1];
      SinceSplits(before, start);
      assert forall i :: 0 <= i < |before| ==> events[i] == before[i] && events[i].publishedAt <= last.publishedAt;
    }
  }

  lemma NewestSnoc(events: seq<Event>, last: Event, n: nat)
    requires n <= |events|
    ensures Newest(events + [last], n + 1) == Newest(events, n) + [last]
    ensures Newest(events + [last], 0) == []
  {
  }

  lemma SplitsBefore(events: seq<Event>, start: int, n: nat)
    requires events != [] && Splits(events, start, n)
    ensures Splits(events[..|events| - 1], start, if n > 0 then n - 1 else 0)
    ensures events[|events| - 1].publishedAt >= start <==> n > 0
  {
  }

  lemma {:induction false} SplitIsFrom(events: seq<Event>, start: int, n: nat)
    requires Splits(events, start, n)
    ensures From(events, start) == Newest(events, n)
  {
    if events != [] {
      var before, last := events[..|events| - 1], events[|events| - 1];
      SplitsBefore(events, start, n);
      SplitIsFrom(before, start, if n > 0 then n - 1 else 0);
      NewestSnoc(before, last, if n > 0 then n - 1 else 0);
      assert events == before + [last];
      if n == 0 {
        assert Newest(before, 0) == [];
      }
    }
  }

  /** In an ascending list the events from an instant on are its newest ones. */
  lemma FromIsNewest(events: seq<Event>, start: int)
    requires Ascending(events)
    ensures From(events, start) == Newest(events, Since(events, start))
  {
    SinceSplits(events, start);
    SplitIsFrom(events, start, Since(events, start));
  }

  lemma NewestOfNewest(events: seq<Event>, n: nat, m: nat)
    requires m <= n <= |events|
    ensures Newest(Newest(events, n), m) == Newest(events, m)
    ensures Reversed(Newest(events, n))[..m] == Reversed(Newest(events, m))
  {
  }

  lemma FromOfNewest(events: seq<Event>, n: nat, start: int)
    requires Ascending(events) && n <= |events|
    ensures From(Newest(events, n), start) == Newest(events, Min(n, Since(events, start)))
  {
    var newest, m := Newest(events, n), Min(n, Since(events, start));
    SinceSplits(events, start);
    assert Splits(newest, start, m) by {
      assert forall i :: 0 <= i < n ==> newest[i] == events[|events| - n + i];
    }
    SplitIsFrom(newest, start, m);
    NewestOfNewest(events, n, m);
  }

  lemma SinceSnoc(events: seq<Event>, event: Event, start: int)
    ensures Since(events + [event], start) == Since(events, start) + if event.publishedAt >= start then 1 else 0
  {
    assert (events + [event])[..|events|] == events;
  }

  lemma {:induction false} SinceLater(events: seq<Event>, start: int, later: int)
    requires start <= later
    ensures Since(events, later) <= Since(events, start)
  {
    if events != [] {
      SinceLater(events[..|events| - 1], start, later);
    }
  }

  lemma {:induction false} EvictCuts(list: seq<Event>, cutoff: int, m: nat)
    requires m <= |list| && forall i :: 0 <= i < |list| ==> (list[i].publishedAt >= cutoff <==> i < m)
    ensures EvictTail(list, cutoff) == list[..m]
    decreases |list|
  {
    if m < |list| {
      assert list[|list| - 1].publishedAt < cutoff;
      EvictCuts(list[..|list| - 1], cutoff, m);
      assert list[..|list| - 1][..m] == list[..m];
    } else if list != [] {
      assert list[|list| - 1].publishedAt >= cutoff;
    }
  }

  /** Evicting from the tail of the reversed newest `n` leaves those in the window. */
  lemma EvictKeepsWindow(events: seq<Event>, n: nat, cutoff: int)
    requires Ascending(events) && n <= |events|
    ensures EvictTail(Reversed(Newest(events, n)), cutoff) ==
            Reversed(Newest(events, Min(n, Since(events, cutoff))))
  {
    var list, m := Reversed(Newest(events, n)), Min(n, Since(events, cutoff));
    SinceSplits(events, cutoff);
    assert forall i :: 0 <= i < n ==> list[i] == events[|events| - 1 - i];
    EvictCuts(list, cutoff, m);
    NewestOfNewest(events, n, m);
  }

  lemma TrimIsNewest(events: seq<Event>, event: Event, n: nat)
    requires n <= |events|
    ensures Slice([event] + Reversed(Newest(events, n)), 0, MAX_EVENTS) ==
            Reversed(Newest(events + [event], Min(n + 1, MAX_EVENTS)))
  {
    var pushed := [event] + Reversed(Newest(events, n));
    var all := events + [event];
    assert pushed == Reversed(Newest(all, n + 1));
    assert Newest(all, Min(n + 1, MAX_EVENTS)) == all[|all| - Min(n + 1, MAX_EVENTS)..];
  }

  // ------------------------------------------------------------------ results

  /** The list to expect when the last push on this history was at `now`. */
  function Window(events: seq<Event>, now: int): seq<Event> {
    Reversed(Newest(events, Min(MAX_EVENTS, Since(events, now - TTL_MS))))
  }

  lemma PushOnNewest(events: seq<Event>, event: Event, kept: nat, now: int)
    requires Ascending(events + [event]) && kept <= |events|
    ensures Push(Reversed(Newest(events, kept)), event, now) ==
            Reversed(Newest(events + [event],
                            Min(Min(kept + 1, MAX_EVENTS), Since(events + [event], now - TTL_MS))))
  {
    TrimIsNewest(events, event, kept);
    EvictKeepsWindow(events + [event], Min(kept + 1, MAX_EVENTS), now - TTL_MS);
  }

  /** What the previous push kept, and the new event, are all that can still be in the
      window. */
  lemma KeptIsEnough(events: seq<Event>, event: Event, earlier: int, cutoff: int)
    requires earlier <= cutoff
    ensures var all := Since(events + [event], cutoff);
      Min(Min(Min(MAX_EVENTS, Since(events, earlier)) + 1, MAX_EVENTS), all) == Min(MAX_EVENTS, all)
  {
    SinceSnoc(events, event, cutoff);
    SinceLater(events, earlier, cutoff);
  }

  /** One push moves the window on. */
  lemma PushMovesWindow(events: seq<Event>, event: Event, earlier: int, now: int)
    requires Ascending(events + [event]) && earlier <= now
    ensures Push(Window(events, earlier), event, now) == Window(events + [event], now)
  {
    KeptIsEnough(events, event, earlier - TTL_MS, now - TTL_MS);
    PushOnNewest(events, event, Min(MAX_EVENTS, Since(events, earlier - TTL_MS)), now);
  }

  lemma HistorySnoc(run: seq<Publish>)
    requires InOrder(run) && run != []
    ensures History(run) == History(run[..|run| - 1]) + [run[|run| - 1].event]
    ensures Ascending(History(run)) && InOrder(run[..|run| - 1])
  {
  }

  lemma {:induction false} StoredIsWindow(run: seq<Publish>, now: int)
    requires InOrder(run) && (run != [] ==> now == run[|run| - 1].at)
    ensures Stored(run) == Window(History(run), now)
    decreases |run|
  {
    if run == [] {
      assert Newest(History(run), 0) == [];
    } else {
      var before := run[..|run| - 1];
      var earlier := if before == [] then now else before[|before| - 1].at;
      HistorySnoc(run);
      StoredIsWindow(before, earlier);
      PushMovesWindow(History(before), run[|run| - 1].event, earlier, now);
    }
  }

  /** After any run of pushes the list holds exactly those of the newest 500
      published events that were not older than the window at the last push,
      newest first. */
  lemma WindowIsExact(run: seq<Publish>)
    requires InOrder(run) && run != []
    ensures Stored(run) == Reversed(From(Newest(History(run), 500), run[|run| - 1].at - 60000))
  {
    StoredIsWindow(run, run[|run| - 1].at);
    WindowMeans(History(run), run[|run| - 1].at);
  }

  lemma WindowMeans(events: seq<Event>, now: int)
    requires Ascending(events)
    ensures Window(events, now) == Reversed(From(Newest(events, MAX_EVENTS), now - TTL_MS))
  {
    var n := Min(MAX_EVENTS, |events|);
    FromOfNewest(events, n, now - TTL_MS);
    assert Newest(events, n) == Newest(events, MAX_EVENTS);
    assert Min(n, Since(events, now - TTL_MS)) == Min(MAX_EVENTS, Since(events, now - TTL_MS));
  }

  lemma {:induction false} FromPrepends(first: Event, rest: seq<Event>, start: int)
    ensures From([first] + rest, start) == (if first.publishedAt >= start then [first] else []) + From(rest, start)
  {
    var all := [first] + rest;
    if rest == [] {
      assert all[..0] == [];
    } else {
      assert all[..|all| - 1] == [first] + rest[..|rest| - 1];
      FromPrepends(first, rest[..|rest| - 1], start);
    }
  }

  lemma {:induction false} FilterReversed(events: seq<Event>, start: int)
    ensures From(Reversed(events), start) == Reversed(From(events, start))
  {
    if events != [] {
      var before, last := events[..|events| - 1], events[|events| - 1];
      assert Reversed(events) == [last] + Reversed(before);
      FromPrepends(last, Reversed(before), start);
      FilterReversed(before, start);
      assert Reversed(From(before, start) + [last]) == [last] + Reversed(From(before, start));
    }
  }

  /** A poll misses nothing, and returns all events after `since` oldest first,
      exactly when at most 500 events are that new and none of them had left the
      window at the last push. */
  lemma PollIsExactIff(run: seq<Publish>, since: int)
    requires InOrder(run) && run != []
    ensures Poll(Stored(run), since) == From(History(run), since + 1)
            <==> && |From(History(run), since + 1)| <= 500
                 && forall event <- From(History(run), since + 1) :: event.publishedAt >= run[|run| - 1].at - 60000
  {
    StoredIsWindow(run, run[|run| - 1].at);
    PollOfWindowIff(History(run), run[|run| - 1].at, since);
  }

  lemma PollOfWindowIff(events: seq<Event>, now: int, since: int)
    requires Ascending(events)
    ensures Poll(Window(events, now), since) == From(events, since + 1)
            <==> && |From(events, since + 1)| <= MAX_EVENTS
                 && forall event <- From(events, since + 1) :: event.publishedAt >= now - TTL_MS
  {
    var held, wanted := Min(MAX_EVENTS, Since(events, now - TTL_MS)), Since(events, since + 1);
    PollOfNewest(events, held, since);
    FromIsNewest(events, since + 1);
    NewestDiffer(events, Min(held, wanted), wanted);
    NewerInWindowIff(events, since + 1, now - TTL_MS);
  }

  lemma NewestDiffer(events: seq<Event>, n: nat, m: nat)
    requires n <= |events| && m <= |events|
    ensures |Newest(events, m)| == m
    ensures Newest(events, n) == Newest(events, m) <==> n == m
  {
    assert |Newest(events, n)| == n;
  }

  lemma PollOfNewest(events: seq<Event>, n: nat, since: int)
    requires Ascending(events) && n <= |events|
    ensures Poll(Reversed(Newest(events, n)), since) == Newest(events, Min(n, Since(events, since + 1)))
  {
    FilterReversed(Newest(events, n), since + 1);
    FromOfNewest(events, n, since + 1);
    var answer := Newest(events, Min(n, Since(events, since + 1)));
    assert Reversed(Reversed(answer)) == answer;
  }

  lemma NewestInWindowIff(events: seq<Event>, n: nat, start: int, m: nat)
    requires n <= |events| && Splits(events, start, m)
    ensures n <= m <==> forall event <- Newest(events, n) :: event.publishedAt >= start
  {
    var newest := Newest(events, n);
    assert forall i :: 0 <= i < n ==> newest[i] == events[|events| - n + i];
    if n > m {
      assert newest[0] in newest;
    }
  }

  lemma NewerInWindowIff(events: seq<Event>, start: int, cutoff: int)
    requires Ascending(events)
    ensures Since(events, start) <= Since(events, cutoff) <==>
            forall event <- From(events, start) :: event.publishedAt >= cutoff
  {
    FromIsNewest(events, start);
    SinceSplits(events, cutoff);
    NewestInWindowIff(events, Since(events, start), cutoff, Since(events, cutoff));
  }

  /** So a client that polls from no earlier than the cutoff of the last push, and
      is at most 500 events behind, sees everything. */
  lemma PollSeesAll(run: seq<Publish>, since: int)
    requires InOrder(run) && run != []
    requires since >= run[|run| - 1].at - 60000 && |From(History(run), since + 1)| <= 500
    ensures Poll(Stored(run), since) == From(History(run), since + 1)
  {
    PollIsExactIff(run, since);
    forall event | event in From(History(run), since + 1)
      ensures event.publishedAt >= run[|run| - 1].at - 60000
    {
      FromHolds(History(run), since + 1, event);
    }
  }

  /** Events are selected by their publish time alone. */
  lemma {:induction false} FromHolds(events: seq<Event>, start: int, event: Event)
    ensures event in From(events, start) <==> event in events && event.publishedAt >= start
  {
    if events != [] {
      FromHolds(events[..|events| - 1], start, event);
      assert events == events[..|events| - 1] + [events[|events| - 1]];
    }
  }

  // -------------------------------------------------------------- the service

  class RecentEventsStore {
    const client: InMemoryRedis<Event>

    constructor (client: InMemoryRedis<Event>)
      ensures this.client == client
    {
      this.client := client;
    }

    ghost function List(): seq<Event>
      reads client
    {
      client.At(RECENT_EVENTS_KEY)
    }

    /** The eviction loop: it ends, and leaves the other keys alone. */
    method EvictStale(cutoff: int)
      modifies client`memLists
      ensures List() == EvictTail(old(List()), cutoff)
      ensures forall key :: key != RECENT_EVENTS_KEY ==> client.At(key) == old(client.At(key))
    {
      var tail := client.LindexCommand(RECENT_EVENTS_KEY, -1);
      while tail != None
        invariant tail == if List() == [] then None else Some(List()[|List()| - 1])
        invariant EvictTail(List(), cutoff) == EvictTail(old(List()), cutoff)
        invariant forall key :: key != RECENT_EVENTS_KEY ==> client.At(key) == old(client.At(key))
        decreases |List()|
      {
        if tail.value.publishedAt < cutoff {
          var popped := client.RpopCommand(RECENT_EVENTS_KEY);
          tail := client.LindexCommand(RECENT_EVENTS_KEY, -1);
        } else {
          break;
        }
      }
    }

    method PushRecentEvent(event: Event, now: int)
      modifies client`memLists
      ensures List() == Push(old(List()), event, now)
      ensures forall key :: key != RECENT_EVENTS_KEY ==> client.At(key) == old(client.At(key))
    {
      assert Reversed([event]) == [event];
      var length := client.LpushCommand(RECENT_EVENTS_KEY, [event]);
      client.LtrimCommand(RECENT_EVENTS_KEY, 0, MAX_EVENTS - 1);
      EvictStale(now - TTL_MS);
    }

    method GetRecentEventsSince(since: int) returns (events: seq<Event>)
      ensures events == Poll(List(), since)
    {
      var raw := client.LrangeCommand(RECENT_EVENTS_KEY, 0, -1);
      assert raw == List();
      events := [];
      for i := 0 to |raw|
        invariant events == From(raw[..i], since + 1)
      {
        assert raw[..i + 1][..i] == raw[..i];
        if raw[i].publishedAt > since {
          events := events + [raw[i]];
        }
      }
      assert raw[..|raw|] == raw;
      events := Reversed(events);
    }
  }
}
