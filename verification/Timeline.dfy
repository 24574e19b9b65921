/**
  Reading a list page by page, where the cursor is the key of the last entry
  shown: the second half of getShipmentTimelineService in
  src/modules/shipments/shipments.service.ts.
 */
module CursorPages {
  import opened Common

  datatype Entry<T> = Entry(value: T, key: string)

  function Values<T>(entries: seq<Entry<T>>): seq<T> {
    seq(|entries|, i requires 0 <= i < |entries| => entries[i].value)
  }

  // ----------------------------------------------------------------- one page

  datatype Page<T> = Page(data: seq<T>, nextCursor: Option<string>, hasMore: bool)

  /** Where the first entry with this key is, or the length if there is none. */
  function Find<T>(entries: seq<Entry<T>>, key: string): (at: nat)
    ensures at <= |entries|
  {
    if entries == [] then 0
    else if entries[0].key == key then 0
    else 1 + Find(entries[1..], key)
  }

  lemma {:induction false} FindsFirst<T>(entries: seq<Entry<T>>, key: string)
    ensures var at := Find(entries, key);
      && (at < |entries| ==> entries[at].key == key)
      && forall i :: 0 <= i < at ==> entries[i].key != key
  {
    if entries != [] && entries[0].key != key {
      FindsFirst(entries[1..], key);
      forall i | 0 <= i < Find(entries, key)
        ensures entries[i].key != key
      {
        if i > 0 {
          assert entries[i] == entries[1..][i - 1];
        }
      }
    }
  }

  /** An unknown cursor starts over. */
  function Start<T>(entries: seq<Entry<T>>, cursor: Option<string>): (start: nat)
    ensures start <= |entries|
  {
    if cursor.None? then 0
    else
      var at := Find(entries, cursor.value);
      if at == |entries| then 0 else at + 1
  }

  /** What one request answers: at most `limit` values, and a cursor if more follow. */
  function PageFrom<T>(entries: seq<Entry<T>>, start: nat, limit: nat): Page<T>
    requires start <= |entries|
  {
    if start + limit >= |entries| then Page(Values(entries)[start..], None, false)
    else
      var nextCursor := if limit > 0 then Some(entries[start + limit - 1].key) else None;
      Page(Values(entries)[start..start + limit], nextCursor, true)
  }

  /** A page begins right behind the first entry with the cursor's key; without a cursor, or
      with one that no entry has, at the beginning. */
  lemma StartIs<T>(entries: seq<Entry<T>>, cursor: Option<string>)
    ensures var start := Start(entries, cursor);
      if cursor.Some? && exists i :: 0 <= i < |entries| && entries[i].key == cursor.value then
        && 0 < start <= |entries| && entries[start - 1].key == cursor.value
        && forall i :: 0 <= i < start - 1 ==> entries[i].key != cursor.value
      else start == 0
  {
    if cursor.Some? {
      FindsFirst(entries, cursor.value);
    }
  }

  /** It shows the next `limit` values, or what is left; there is more exactly if more is
      left than that, and then the cursor is the key of the last entry shown. */
  lemma PageShows<T>(entries: seq<Entry<T>>, start: nat, limit: nat)
    requires start <= |entries|
    ensures var page := PageFrom(entries, start, limit);
      && |page.data| == (if limit < |entries| - start then limit else |entries| - start)
      && (forall i :: 0 <= i < |page.data| ==> page.data[i] == entries[start + i].value)
      && (page.hasMore <==> |entries| - start > limit)
      && page.nextCursor == if |entries| - start > limit > 0 then Some(entries[start + limit - 1].key) else None
  {
  }

  // -------------------------------------------------------- following the pages

  /** The concatenated pages from a position on, if the cursors run out within so
      many requests. */
  function FollowFrom<T>(entries: seq<Entry<T>>, start: nat, limit: nat, requests: nat): Option<seq<T>>
    requires start <= |entries|
    decreases requests
  {
    if requests == 0 then None
    else
      var page := PageFrom(entries, start, limit);
      if page.nextCursor.None? then Some(page.data)
      else
        var rest := FollowFrom(entries, Start(entries, page.nextCursor), limit, requests - 1);
        if rest.None? then None else Some(page.data + rest.value)
  }

  function Follow<T>(entries: seq<Entry<T>>, cursor: Option<string>, limit: nat, requests: nat): Option<seq<T>> {
    FollowFrom(entries, Start(entries, cursor), limit, requests)
  }

  /** Reading to the end shows the whole list, each entry once, in order. */
  ghost predicate Complete<T>(entries: seq<Entry<T>>, limit: nat) {
    exists requests :: Follow(entries, None, limit, requests) == Some(Values(entries))
  }

  /** Every page from `start` on, except the last, ends with an entry that is the
      first of its key. */
  predicate CleanCuts<T>(entries: seq<Entry<T>>, start: nat, limit: nat)
    requires limit >= 1
    decreases |entries| - start
  {
    start + limit < |entries| ==>
      && Find(entries, entries[start + limit - 1].key) == start + limit - 1
      && CleanCuts(entries, start + limit, limit)
  }

  /** A cursor leads right behind the first entry of its key. */
  lemma CursorLeads<T>(entries: seq<Entry<T>>, i: nat)
    requires i < |entries|
    ensures Start(entries, Some(entries[i].key)) == Find(entries, entries[i].key) + 1 <= i + 1
  {
    FindsFirst(entries, entries[i].key);
  }

  lemma {:induction false} FollowReachesEnd<T>(entries: seq<Entry<T>>, start: nat, limit: nat, requests: nat)
    requires limit >= 1 && start <= |entries|
    ensures var all := FollowFrom(entries, start, limit, requests);
      all.Some? ==> |all.value| >= |entries| - start
    decreases requests
  {
    if requests > 0 && start + limit < |entries| {
      var cut := start + limit - 1;
      CursorLeads(entries, cut);
      FollowReachesEnd(entries, Start(entries, Some(entries[cut].key)), limit, requests - 1);
    }
  }

  lemma SliceSplit<T>(values: seq<T>, from: nat, to: nat)
    requires from <= to <= |values|
    ensures values[from..] == values[from..to] + values[to..]
  {
  }

  lemma {:induction false} CleanCutsComplete<T>(entries: seq<Entry<T>>, start: nat, limit: nat, requests: nat)
    requires limit >= 1 && start <= |entries| && requests > |entries| - start
    requires CleanCuts(entries, start, limit)
    ensures FollowFrom(entries, start, limit, requests) == Some(Values(entries)[start..])
    decreases requests
  {
    if start + limit < |entries| {
      CursorLeads(entries, start + limit - 1);
      CleanCutsComplete(entries, start + limit, limit, requests - 1);
      SliceSplit(Values(entries), start, start + limit);
    }
  }

  lemma {:induction false} CompleteMeansCleanCuts<T>(entries: seq<Entry<T>>, start: nat, limit: nat, requests: nat)
    requires limit >= 1 && start <= |entries|
    requires FollowFrom(entries, start, limit, requests) == Some(Values(entries)[start..])
    ensures CleanCuts(entries, start, limit)
    decreases requests
  {
    if start + limit < |entries| {
      var cut := start + limit - 1;
      var next := Start(entries, Some(entries[cut].key));
      CursorLeads(entries, cut);
      var rest := FollowFrom(entries, next, limit, requests - 1).value;
      SliceSplit(Values(entries), start, start + limit);
      Cancel(Values(entries)[start..start + limit], rest, Values(entries)[start + limit..]);
      FollowReachesEnd(entries, next, limit, requests - 1);
      CompleteMeansCleanCuts(entries, start + limit, limit, requests - 1);
    }
  }

  /** For one page size: following the cursors shows exactly the list if and only
      if each page but the last ends with the first entry of its key. */
  lemma CompleteIff<T>(entries: seq<Entry<T>>, limit: nat)
    requires limit >= 1
    ensures Complete(entries, limit) <==> CleanCuts(entries, 0, limit)
  {
    assert Values(entries)[0..] == Values(entries);
    if CleanCuts(entries, 0, limit) {
      CleanCutsComplete(entries, 0, limit, |entries| + 1);
      assert Follow(entries, None, limit, |entries| + 1) == Some(Values(entries));
    }
    if Complete(entries, limit) {
      var requests :| Follow(entries, None, limit, requests) == Some(Values(entries));
      CompleteMeansCleanCuts(entries, 0, limit, requests);
    }
  }

  predicate DistinctKeys<T>(entries: seq<Entry<T>>) {
    forall i, j :: 0 <= i < j < |entries| ==> entries[i].key != entries[j].key
  }

  predicate DistinctButLast<T>(entries: seq<Entry<T>>) {
    entries != [] ==> DistinctKeys(entries[..|entries| - 1])
  }

  lemma {:induction false} DistinctCutsCleanly<T>(entries: seq<Entry<T>>, start: nat, limit: nat)
    requires limit >= 1 && DistinctButLast(entries)
    ensures CleanCuts(entries, start, limit)
    decreases |entries| - start
  {
    if start + limit < |entries| {
      var cut := start + limit - 1;
      var at := Find(entries, entries[cut].key);
      FindsFirst(entries, entries[cut].key);
      assert entries[..|entries| - 1][at] == entries[at] && entries[..|entries| - 1][cut] == entries[cut];
      DistinctCutsCleanly(entries, start + limit, limit);
    }
  }

  lemma DistinctIsComplete<T>(entries: seq<Entry<T>>, limit: nat, requests: nat)
    requires limit >= 1 && requests > |entries| && DistinctKeys(entries)
    ensures Follow(entries, None, limit, requests) == Some(Values(entries))
  {
    DistinctCutsCleanly(entries, 0, limit);
    CleanCutsComplete(entries, 0, limit, requests);
    assert Values(entries)[0..] == Values(entries);
  }

  lemma {:induction false} SingleCutsAreFirst<T>(entries: seq<Entry<T>>, start: nat, i: nat)
    requires CleanCuts(entries, start, 1) && start <= i < |entries| - 1
    ensures Find(entries, entries[i].key) == i
    decreases i - start
  {
    if start < i {
      SingleCutsAreFirst(entries, start + 1, i);
    }
  }

  /** For all page sizes: exactly when the keys of all entries but the last differ. */
  lemma CompleteForEveryLimitIff<T>(entries: seq<Entry<T>>)
    ensures (forall limit: nat :: limit >= 1 ==> Complete(entries, limit)) <==> DistinctButLast(entries)
  {
    forall limit: nat | limit >= 1
      ensures Complete(entries, limit) <==> CleanCuts(entries, 0, limit)
    {
      CompleteIff(entries, limit);
    }
    if DistinctButLast(entries) {
      forall limit: nat | limit >= 1
        ensures CleanCuts(entries, 0, limit)
      {
        DistinctCutsCleanly(entries, 0, limit);
      }
    }
    if Complete(entries, 1) {
      CompleteIff(entries, 1);
      forall i, j | 0 <= i < j < |entries| - 1
        ensures entries[i].key != entries[j].key
      {
        SingleCutsAreFirst(entries, 0, j);
        FindsFirst(entries, entries[j].key);
      }
    }
  }
}

/**
  The merged shipment timeline of src/modules/shipments/shipments.service.ts:
  milestones, delivery proof, anchored telemetry and anomalies in one sorted
  list, read page by page with a cursor.
 */
module Timeline {
  import opened Common
  import opened CursorPages
  import Lifecycle

  /** Timestamps are ISO 8601 texts. */
  type Text = string

  datatype Kind =
    | StatusChange(status: Lifecycle.Status)
    | ProofUploaded
    | TelemetryAnchored(telemetryId: Text)
    | AnomalyDetected(anomalyId: Text)

  datatype Event = Event(timestamp: Text, kind: Kind)

  datatype Row = Row(timestamp: Text, id: Text)

  datatype Milestone = Milestone(timestamp: Text, name: Lifecycle.Status)

  function StatusName(status: Lifecycle.Status): Text {
    match status
    case CREATED => "CREATED"
    case PICKUP_CONFIRMED => "PICKUP_CONFIRMED"
    case IN_TRANSIT => "IN_TRANSIT"
    case CUSTOMS_CLEARED => "CUSTOMS_CLEARED"
    case OUT_FOR_DELIVERY => "OUT_FOR_DELIVERY"
    case DELIVERED => "DELIVERED"
    case SETTLEMENT_INITIATED => "SETTLEMENT_INITIATED"
    case SETTLEMENT_COMPLETED => "SETTLEMENT_COMPLETED"
    case CANCELLED => "CANCELLED"
  }

  function Suffix(kind: Kind): Text {
    match kind
    case StatusChange(status) => "status-" + StatusName(status)
    case ProofUploaded => "proof"
    case TelemetryAnchored(id) => "telemetry-" + id
    case AnomalyDetected(id) => "anomaly-" + id
  }

  function CursorKey(event: Event): Text {
    event.timestamp + "|" + Suffix(event.kind)
  }

  /** The events with their cursor keys. */
  function Keyed(events: seq<Event>): seq<Entry<Event>> {
    seq(|events|, i requires 0 <= i < |events| => Entry(events[i], CursorKey(events[i])))
  }

  // ------------------------------------------------------------ keys identify

  lemma NamesDiffer(a: Lifecycle.Status, b: Lifecycle.Status)
    requires StatusName(a) == StatusName(b)
    ensures a == b
  {
    var x, y := StatusName(a), StatusName(b);
    assert x[0] == y[0] && |x| == |y|;
    assert x[1] == y[1] && x[|x| - 1] == y[|y| - 1] && x[|x| - 2] == y[|y| - 2];
  }

  lemma SuffixIdentifies(a: Kind, b: Kind)
    requires Suffix(a) == Suffix(b)
    ensures a == b
  {
    assert Suffix(a)[0] == Suffix(b)[0];
    match a
    case StatusChange(x) => Cancel("status-", StatusName(x), StatusName(b.status)); NamesDiffer(x, b.status);
    case ProofUploaded =>
    case TelemetryAnchored(x) => Cancel("telemetry-", x, b.telemetryId);
    case AnomalyDetected(x) => Cancel("anomaly-", x, b.anomalyId);
  }

  lemma CutAtBar(a: Text, x: Text, b: Text, y: Text)
    requires '|' !in a && '|' !in b
    requires a + "|" + x == b + "|" + y
    ensures a == b && x == y
  {
    var left, right := a + "|" + x, b + "|" + y;
    assert left[|a|] == '|' && right[|b|] == '|';
    assert forall i :: 0 <= i < |a| ==> left[i] == a[i];
    assert forall i :: 0 <= i < |b| ==> right[i] == b[i];
    assert |a| == |b|;
    assert left[..|a|] == a && right[..|a|] == b;
    assert left[|a| + 1..] == x && right[|a| + 1..] == y;
  }

  /** A cursor key names one event: no two events share one. */
  lemma KeyIdentifies(a: Event, b: Event)
    requires '|' !in a.timestamp && '|' !in b.timestamp
    ensures CursorKey(a) == CursorKey(b) <==> a == b
  {
    if CursorKey(a) == CursorKey(b) {
      CutAtBar(a.timestamp, Suffix(a.kind), b.timestamp, Suffix(b.kind));
      SuffixIdentifies(a.kind, b.kind);
    }
  }

  const STATUS_TEXTS: seq<Text> := ["CREATED", "PICKUP_CONFIRMED", "IN_TRANSIT", "CUSTOMS_CLEARED", "OUT_FOR_DELIVERY",
                                    "DELIVERED", "SETTLEMENT_INITIATED", "SETTLEMENT_COMPLETED"]

  /** The keys as texts: the timestamp, a bar, and the kind with its status or id. */
  lemma KeyTexts(timestamp: Text, id: Text, i: nat)
    requires i < 8
    ensures CursorKey(Event(timestamp, StatusChange(Lifecycle.COURSE[i]))) ==
            timestamp + "|" + ("status-" + STATUS_TEXTS[i])
    ensures CursorKey(Event(timestamp, StatusChange(Lifecycle.CANCELLED))) ==
            timestamp + "|" + ("status-" + "CANCELLED")
    ensures CursorKey(Event(timestamp, ProofUploaded)) == timestamp + "|" + "proof"
    ensures CursorKey(Event(timestamp, TelemetryAnchored(id))) == timestamp + "|" + ("telemetry-" + id)
    ensures CursorKey(Event(timestamp, AnomalyDetected(id))) == timestamp + "|" + ("anomaly-" + id)
  {
    NameTexts(i);
  }

  lemma NameTexts(i: nat)
    requires i < 8
    ensures StatusName(Lifecycle.COURSE[i]) == STATUS_TEXTS[i]
  {
    Lifecycle.CourseAt(i);
  }

  // ------------------------------------------------------- merging and sorting

  function MilestoneEvents(milestones: seq<Milestone>): seq<Event> {
    seq(|milestones|, i requires 0 <= i < |milestones| =>
      Event(milestones[i].timestamp, StatusChange(milestones[i].name)))
  }

  function ProofEvents(uploadedAt: Option<Text>): seq<Event> {
    if uploadedAt.Some? then [Event(uploadedAt.value, ProofUploaded)] else []
  }

  function TelemetryEvents(rows: seq<Row>): seq<Event> {
    seq(|rows|, i requires 0 <= i < |rows| => Event(rows[i].timestamp, TelemetryAnchored(rows[i].id)))
  }

  function AnomalyEvents(rows: seq<Row>): seq<Event> {
    seq(|rows|, i requires 0 <= i < |rows| => Event(rows[i].timestamp, AnomalyDetected(rows[i].id)))
  }

  datatype Sources = Sources(
    milestones: seq<Milestone>, uploadedAt: Option<Text>, telemetry: seq<Row>, anomalies: seq<Row>)

  function Merged(sources: Sources): seq<Event> {
    MilestoneEvents(sources.milestones) + ProofEvents(sources.uploadedAt)
      + TelemetryEvents(sources.telemetry) + AnomalyEvents(sources.anomalies)
  }

  /** The merged list, place by place: every milestone, the proof if there is one, every
      telemetry row and every anomaly. */
  lemma MergedHolds(sources: Sources)
    ensures var merged, m := Merged(sources), |sources.milestones|;
      var p := m + if sources.uploadedAt.Some? then 1 else 0;
      var t := p + |sources.telemetry|;
      && |merged| == t + |sources.anomalies|
      && (forall i :: 0 <= i < m ==>
            merged[i].timestamp == sources.milestones[i].timestamp
            && merged[i].kind == StatusChange(sources.milestones[i].name))
      && (p > m ==> merged[m] == Event(sources.uploadedAt.value, ProofUploaded))
      && (forall i :: p <= i < t ==>
            merged[i].timestamp == sources.telemetry[i - p].timestamp
            && merged[i].kind == TelemetryAnchored(sources.telemetry[i - p].id))
      && (forall i :: t <= i < |merged| ==>
            merged[i].timestamp == sources.anomalies[i - t].timestamp
            && merged[i].kind == AnomalyDetected(sources.anomalies[i - t].id))
  {
  }

  /** The text comparison of the platform, `a` not after `b`; any order in which
      every two texts compare will do, and different texts may tie. */
  type Collation = (Text, Text) -> bool

  ghost predicate Orders(le: Collation) {
    && (forall a, b :: le(a, b) || le(b, a))
    && (forall a, b, c :: le(a, b) && le(b, c) ==> le(a, c))
  }

  predicate NotAfter(le: Collation, a: Event, b: Event) {
    if le(a.timestamp, b.timestamp) && le(b.timestamp, a.timestamp) then le(CursorKey(a), CursorKey(b))
    else le(a.timestamp, b.timestamp)
  }

  function Insert(le: Collation, event: Event, events: seq<Event>): seq<Event>
    decreases |events|
  {
    if events == [] || NotAfter(le, events[|events| - 1], event) then events + [event]
    else Insert(le, event, events[..|events| - 1]) + [events[|events| - 1]]
  }

  /** The sort, which keeps tied events in their order. */
  function Sort(le: Collation, events: seq<Event>): seq<Event>
    decreases |events|
  {
    if events == [] then [] else Insert(le, events[|events| - 1], Sort(le, events[..|events| - 1]))
  }

  ghost predicate Sorted(le: Collation, events: seq<Event>) {
    forall i, j :: 0 <= i < j < |events| ==> NotAfter(le, events[i], events[j])
  }

  lemma NotAfterOrders(le: Collation, a: Event, b: Event, c: Event)
    requires Orders(le)
    ensures NotAfter(le, a, b) || NotAfter(le, b, a)
    ensures NotAfter(le, a, b) && NotAfter(le, b, c) ==> NotAfter(le, a, c)
  {
  }

  lemma SnocAddsOne(events: seq<Event>)
    requires events != []
    ensures multiset(events) == multiset(events[..|events| - 1]) + multiset{events[|events| - 1]}
  {
    assert events == events[..|events| - 1] + [events[|events| - 1]];
  }

  lemma JoinAddsOne(events: seq<Event>, last: Event)
    ensures multiset(events + [last]) == multiset(events) + multiset{last}
  {
  }

  lemma {:induction false} InsertRearranges(le: Collation, event: Event, events: seq<Event>)
    ensures multiset(Insert(le, event, events)) == multiset(events) + multiset{event}
    decreases |events|
  {
    if events == [] || NotAfter(le, events[|events| - 1], event) {
      JoinAddsOne(events, event);
    } else {
      var n := |events| - 1;
      InsertRearranges(le, event, events[..n]);
      SnocAddsOne(events);
      JoinAddsOne(Insert(le, event, events[..n]), events[n]);
    }
  }

  lemma {:induction false} SortedSnoc(le: Collation, events: seq<Event>, last: Event)
    requires Sorted(le, events) && forall e <- events :: NotAfter(le, e, last)
    ensures Sorted(le, events + [last])
  {
  }

  lemma {:induction false} InsertKeepsSorted(le: Collation, event: Event, events: seq<Event>)
    requires Orders(le) && Sorted(le, events)
    ensures Sorted(le, Insert(le, event, events))
    decreases |events|
  {
    if events == [] {
    } else if NotAfter(le, events[|events| - 1], event) {
      forall e | e in events
        ensures NotAfter(le, e, event)
      {
        NotAfterOrders(le, e, events[|events| - 1], event);
      }
      SortedSnoc(le, events, event);
    } else {
      var n := |events| - 1;
      var shorter := Insert(le, event, events[..n]);
      InsertKeepsSorted(le, event, events[..n]);
      InsertRearranges(le, event, events[..n]);
      NotAfterOrders(le, event, events[n], event);
      forall e | e in shorter
        ensures NotAfter(le, e, events[n])
      {
        assert e in multiset(shorter);
        assert e == event || e in events[..n];
      }
      SortedSnoc(le, shorter, events[n]);
    }
  }

  lemma {:induction false} SortRearranges(le: Collation, events: seq<Event>)
    ensures multiset(Sort(le, events)) == multiset(events)
    decreases |events|
  {
    if events != [] {
      var n := |events| - 1;
      SortRearranges(le, events[..n]);
      InsertRearranges(le, events[n], Sort(le, events[..n]));
      SnocAddsOne(events);
    }
  }

  lemma {:induction false} SortAscends(le: Collation, events: seq<Event>)
    requires Orders(le)
    ensures Sorted(le, Sort(le, events))
    decreases |events|
  {
    if events != [] {
      SortAscends(le, events[..|events| - 1]);
      InsertKeepsSorted(le, events[|events| - 1], Sort(le, events[..|events| - 1]));
    }
  }

  lemma SortSorts(le: Collation, events: seq<Event>)
    requires Orders(le)
    ensures Sorted(le, Sort(le, events))
    ensures multiset(Sort(le, events)) == multiset(events)
  {
    SortAscends(le, events);
    SortRearranges(le, events);
  }

  /** In the sorted list times never go back, and events of tied times go by their keys. */
  lemma SortedByTime(le: Collation, events: seq<Event>, i: nat, j: nat)
    requires Orders(le) && i < j < |Sort(le, events)|
    ensures var a, b := Sort(le, events)[i], Sort(le, events)[j];
      le(a.timestamp, b.timestamp) && (le(b.timestamp, a.timestamp) ==> le(CursorKey(a), CursorKey(b)))
  {
    SortAscends(le, events);
    assert NotAfter(le, Sort(le, events)[i], Sort(le, events)[j]);
  }

  predicate Tied(le: Collation, a: Event, b: Event) {
    NotAfter(le, a, b) && NotAfter(le, b, a)
  }

  /** The events tied with `e`, in their order. */
  function TiedWith(le: Collation, e: Event, events: seq<Event>): seq<Event>
    decreases |events|
  {
    if events == [] then []
    else
      var last := events[|events| - 1];
      TiedWith(le, e, events[..|events| - 1]) + if Tied(le, last, e) then [last] else []
  }

  lemma TiedSnoc(le: Collation, e: Event, events: seq<Event>, last: Event)
    ensures TiedWith(le, e, events + [last]) == TiedWith(le, e, events) + if Tied(le, last, e) then [last] else []
  {
    assert (events + [last])[..|events|] == events;
  }

  lemma NotBothTied(le: Collation, e: Event, a: Event, b: Event)
    requires Orders(le) && !NotAfter(le, a, b)
    ensures !Tied(le, a, e) || !Tied(le, b, e)
  {
    NotAfterOrders(le, a, e, b);
  }

  /** Two neighbours that are not both tied with `e` may change places. */
  lemma SwapUntied(le: Collation, e: Event, events: seq<Event>, a: Event, b: Event)
    requires !Tied(le, a, e) || !Tied(le, b, e)
    ensures TiedWith(le, e, events + [a] + [b]) == TiedWith(le, e, events + [b] + [a])
  {
    TiedSnoc(le, e, events + [a], b);
    TiedSnoc(le, e, events + [b], a);
    TiedSnoc(le, e, events, a);
    TiedSnoc(le, e, events, b);
  }

  lemma {:induction false} InsertIsStable(le: Collation, e: Event, event: Event, events: seq<Event>)
    requires Orders(le)
    ensures TiedWith(le, e, Insert(le, event, events)) == TiedWith(le, e, events + [event])
    decreases |events|
  {
    if events != [] && !NotAfter(le, events[|events| - 1], event) {
      var before, last := events[..|events| - 1], events[|events| - 1];
      InsertIsStable(le, e, event, before);
      TiedSnoc(le, e, Insert(le, event, before), last);
      TiedSnoc(le, e, before + [event], last);
      NotBothTied(le, e, last, event);
      SwapUntied(le, e, before, last, event);
      assert events == before + [last];
    }
  }

  /** Sorting keeps tied events in their order. */
  lemma {:induction false} SortIsStable(le: Collation, e: Event, events: seq<Event>)
    requires Orders(le)
    ensures TiedWith(le, e, Sort(le, events)) == TiedWith(le, e, events)
    decreases |events|
  {
    if events != [] {
      var before, last := events[..|events| - 1], events[|events| - 1];
      SortIsStable(le, e, before);
      InsertIsStable(le, e, last, Sort(le, before));
      TiedSnoc(le, e, Sort(le, before), last);
    }
  }

  // --------------------------------------------- what the stored documents give

  predicate DistinctIds(rows: seq<Row>) {
    forall i, j :: 0 <= i < j < |rows| ==> rows[i].id != rows[j].id
  }

  function Names(milestones: seq<Milestone>): seq<Lifecycle.Status> {
    seq(|milestones|, i requires 0 <= i < |milestones| => milestones[i].name)
  }

  predicate PlainTimes(events: seq<Event>) {
    forall event <- events :: '|' !in event.timestamp
  }

  /** The milestones are a lifecycle, database ids are unique, and no timestamp
      contains the separator. */
  predicate Sound(sources: Sources) {
    && Lifecycle.Path(Names(sources.milestones))
    && DistinctIds(sources.telemetry)
    && DistinctIds(sources.anomalies)
    && PlainTimes(Merged(sources))
  }

  predicate NoEventTwice(events: seq<Event>) {
    forall i, j :: 0 <= i < j < |events| ==> events[i] != events[j]
  }

  lemma MilestonesOnce(milestones: seq<Milestone>)
    requires Lifecycle.Path(Names(milestones))
    ensures NoEventTwice(MilestoneEvents(milestones))
  {
    var events, names := MilestoneEvents(milestones), Names(milestones);
    Lifecycle.PathShape(names);
    forall i, j | 0 <= i < j < |events|
      ensures events[i] != events[j]
    {
      assert names[i] != names[j];
    }
  }

  lemma MergedOnce(sources: Sources)
    requires Sound(sources)
    ensures NoEventTwice(Merged(sources))
  {
    MilestonesOnce(sources.milestones);
    var a, b := MilestoneEvents(sources.milestones), ProofEvents(sources.uploadedAt);
    var c, d := TelemetryEvents(sources.telemetry), AnomalyEvents(sources.anomalies);
    assert forall e <- a :: e.kind.StatusChange?;
    assert forall e <- b :: e.kind.ProofUploaded?;
    assert forall e <- c :: e.kind.TelemetryAnchored?;
    assert forall e <- d :: e.kind.AnomalyDetected?;
    assert NoEventTwice(b) && NoEventTwice(c) && NoEventTwice(d);
    JoinOnce(a, b);
    JoinOnce(a + b, c);
    JoinOnce(a + b + c, d);
  }

  lemma JoinOnce(xs: seq<Event>, ys: seq<Event>)
    requires NoEventTwice(xs) && NoEventTwice(ys)
    requires forall x <- xs :: x !in ys
    ensures NoEventTwice(xs + ys)
  {
    var all := xs + ys;
    forall i, j | 0 <= i < j < |all|
      ensures all[i] != all[j]
    {
      if i < |xs| <= j {
        assert all[i] in xs && all[j] in ys;
      }
    }
  }

  lemma {:induction false} OnceIsMultiplicity(events: seq<Event>, e: Event)
    requires NoEventTwice(events)
    ensures multiset(events)[e] <= 1
  {
    if events != [] {
      var n := |events| - 1;
      OnceIsMultiplicity(events[..n], e);
      assert events == events[..n] + [events[n]];
      assert e == events[n] ==> e !in events[..n];
    }
  }

  lemma {:induction false} TwiceIsMultiplicity(events: seq<Event>, i: nat, j: nat)
    requires i < j < |events| && events[i] == events[j]
    ensures multiset(events)[events[i]] >= 2
  {
    assert events == events[..j] + events[j..];
    assert events[i] == events[..j][i] && events[j] == events[j..][0];
  }

  lemma RearrangedOnce(xs: seq<Event>, ys: seq<Event>)
    requires NoEventTwice(xs) && multiset(xs) == multiset(ys)
    ensures NoEventTwice(ys)
  {
    forall i, j | 0 <= i < j < |ys|
      ensures ys[i] != ys[j]
    {
      OnceIsMultiplicity(xs, ys[i]);
      if ys[i] == ys[j] {
        TwiceIsMultiplicity(ys, i, j);
      }
    }
  }

  lemma SortedKeysDiffer(le: Collation, sources: Sources)
    requires Orders(le) && Sound(sources)
    ensures DistinctKeys(Keyed(Sort(le, Merged(sources))))
  {
    var merged, events := Merged(sources), Sort(le, Merged(sources));
    SortSorts(le, merged);
    MergedOnce(sources);
    RearrangedOnce(merged, events);
    forall i, j | 0 <= i < j < |events|
      ensures CursorKey(events[i]) != CursorKey(events[j])
    {
      assert events[i] in multiset(merged) && events[j] in multiset(merged);
      KeyIdentifies(events[i], events[j]);
    }
  }

  lemma SameSize(xs: seq<Event>, ys: seq<Event>)
    requires multiset(xs) == multiset(ys)
    ensures |xs| == |ys|
  {
    assert |multiset(xs)| == |xs| && |multiset(ys)| == |ys|;
  }

  lemma ValuesOfKeyed(events: seq<Event>)
    ensures |Keyed(events)| == |events| && Values(Keyed(events)) == events
  {
  }

  lemma SortedListIsFollowed(le: Collation, sources: Sources, limit: nat, requests: nat)
    requires Orders(le) && Sound(sources) && limit >= 1 && requests > |Merged(sources)|
    ensures Follow(Keyed(Sort(le, Merged(sources))), None, limit, requests) == Some(Sort(le, Merged(sources)))
  {
    var events := Sort(le, Merged(sources));
    SortSorts(le, Merged(sources));
    SameSize(events, Merged(sources));
    SortedKeysDiffer(le, sources);
    ValuesOfKeyed(events);
    DistinctIsComplete(Keyed(events), limit, requests);
  }

  /** The timeline of a shipment with a lawful history pages without loss or
      repetition: for every page size, following the cursors ends and shows the
      sorted rearrangement of all its events. */
  lemma TimelineIsComplete(le: Collation, sources: Sources, limit: nat, requests: nat)
    requires Orders(le) && Sound(sources) && limit >= 1
    requires requests > |Merged(sources)|
    ensures Sorted(le, Sort(le, Merged(sources)))
    ensures multiset(Sort(le, Merged(sources))) == multiset(Merged(sources))
    ensures Follow(Keyed(Sort(le, Merged(sources))), None, limit, requests) == Some(Sort(le, Merged(sources)))
  {
    SortSorts(le, Merged(sources));
    SortedListIsFollowed(le, sources, limit, requests);
  }

  /** Two milestones of one name at one instant, which a bulk update that lists an
      id twice can write, make a reader with page size one go round for ever. */
  lemma RepeatedKeyNeverEnds(event: Event, last: Event, requests: nat)
    requires CursorKey(event) != CursorKey(last)
    ensures Follow(Keyed([event, event, last]), None, 1, requests) == None
  {
    RepeatedKeyNeverEndsFrom(event, last, 0, requests);
  }

  lemma {:induction false} RepeatedKeyNeverEndsFrom(event: Event, last: Event, start: nat, requests: nat)
    requires CursorKey(event) != CursorKey(last) && start <= 1
    ensures FollowFrom(Keyed([event, event, last]), start, 1, requests) == None
    decreases requests
  {
    if requests > 0 {
      var entries := Keyed([event, event, last]);
      assert entries[0].key == CursorKey(event) == entries[start].key;
      CursorLeads(entries, 0);
      RepeatedKeyNeverEndsFrom(event, last, Start(entries, Some(entries[0].key)), requests - 1);
    }
  }

  // -------------------------------------------------------------- the service

  method BuildEvents(sources: Sources) returns (events: seq<Event>)
    ensures events == Merged(sources)
  {
    events := [];
    for i := 0 to |sources.milestones|
      invariant events == MilestoneEvents(sources.milestones)[..i]
    {
      var milestone := sources.milestones[i];
      events := events + [Event(milestone.timestamp, StatusChange(milestone.name))];
    }
    if sources.uploadedAt.Some? {
      events := events + [Event(sources.uploadedAt.value, ProofUploaded)];
    }
    ghost var before := events;
    for i := 0 to |sources.telemetry|
      invariant events == before + TelemetryEvents(sources.telemetry)[..i]
    {
      var row := sources.telemetry[i];
      events := events + [Event(row.timestamp, TelemetryAnchored(row.id))];
    }
    ghost var most := events;
    for i := 0 to |sources.anomalies|
      invariant events == most + AnomalyEvents(sources.anomalies)[..i]
    {
      var row := sources.anomalies[i];
      events := events + [Event(row.timestamp, AnomalyDetected(row.id))];
    }
  }

  /** The request itself: look the cursor up, cut one more entry than asked for,
      and see whether it is there. */
  method ReadPage<T>(entries: seq<Entry<T>>, cursor: Option<Text>, limit: nat) returns (page: Page<T>)
    ensures page == PageFrom(entries, Start(entries, cursor), limit)
  {
    var startIndex := 0;
    if cursor.Some? {
      var cursorIndex := Find(entries, cursor.value);
      startIndex := if cursorIndex < |entries| then cursorIndex + 1 else 0;
    }
    var ahead: seq<Entry<T>> := Slice(entries, startIndex, startIndex + limit + 1);
    var hasMore := |ahead| > limit;
    var shown: seq<Entry<T>> := if hasMore then Slice(ahead, 0, limit) else ahead;
    var nextCursor := if hasMore && |shown| > 0 then Some(shown[|shown| - 1].key) else None;
    page := Page(Values(shown), nextCursor, hasMore);
    OneAhead(entries, startIndex, limit);
  }

  lemma OneAhead<T>(entries: seq<Entry<T>>, start: nat, limit: nat)
    requires start <= |entries|
    ensures var ahead := Slice(entries, start, start + limit + 1);
      if start + limit < |entries| then
        && |ahead| == limit + 1
        && Values(Slice(ahead, 0, limit)) == Values(entries)[start..start + limit]
        && (limit > 0 ==> Slice(ahead, 0, limit)[limit - 1] == entries[start + limit - 1])
      else |ahead| <= limit && Values(ahead) == Values(entries)[start..]
  {
  }

  method GetShipmentTimeline(le: Collation, sources: Sources, cursor: Option<Text>, limit: nat)
    returns (page: Page<Event>)
    ensures var entries := Keyed(Sort(le, Merged(sources)));
      page == PageFrom(entries, Start(entries, cursor), limit)
  {
    var events := BuildEvents(sources);
    page := ReadPage(Keyed(Sort(le, events)), cursor, limit);
  }
}
