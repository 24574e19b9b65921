/**
  src/workers/stellar-indexer.worker.ts: events are upserted by transaction hash
  and a cursor is saved after each one.  A run can be cut between the upsert and
  the save, a save can be lost without notice, and a failed cursor read restarts
  the stream from the beginning.
 */
module Indexer {
  import opened Common
  import opened Paging
  import ChainStream

  datatype Detail =
    | Anchored(shipmentId: string, dataHash: string)
    | EscrowInit(paymentId: string, shipment: string, payer: string, payee: string, token: string, amount: string)
    | EscrowRelease(payment: string, proofHash: string, receiver: string, released: string)

  datatype ChainEvent = ChainEvent(id: nat, txHash: string, contractId: string, ledger: nat, detail: Detail)

  datatype Milestone = IN_TRANSIT | SETTLEMENT_INITIATED | SETTLEMENT_COMPLETED

  datatype Fields =
    | AnchorFields(dataHash: string)
    | InitFields(paymentId: string, payer: string, payee: string, token: string, amount: string)
    | ReleaseFields(payment: string, proofHash: string, receiver: string, released: string)

  datatype Metadata = Metadata(blockNumber: nat, ledger: nat, contractId: string, eventId: nat, fields: Fields)

  datatype Block = Block(
    shipmentId: string, milestone: Milestone, actor: string, metadata: Metadata, dataHash: Option<string>)

  type Ledger = map<string, Block>

  function MilestoneOf(e: ChainEvent): Milestone {
    match e.detail
    case Anchored(_, _) => IN_TRANSIT
    case EscrowInit(_, _, _, _, _, _) => SETTLEMENT_INITIATED
    case EscrowRelease(_, _, _, _) => SETTLEMENT_COMPLETED
  }

  /** For a release the source files the block under the payment id. */
  function ShipmentOf(e: ChainEvent): string {
    match e.detail
    case Anchored(shipmentId, _) => shipmentId
    case EscrowInit(_, shipment, _, _, _, _) => shipment
    case EscrowRelease(payment, _, _, _) => payment
  }

  function FieldsOf(e: ChainEvent): Fields {
    match e.detail
    case Anchored(_, dataHash) => AnchorFields(dataHash)
    case EscrowInit(paymentId, _, payer, payee, token, amount) => InitFields(paymentId, payer, payee, token, amount)
    case EscrowRelease(payment, proofHash, receiver, released) => ReleaseFields(payment, proofHash, receiver, released)
  }

  function MetadataOf(e: ChainEvent): Metadata {
    Metadata(e.ledger, e.ledger, e.contractId, e.id, FieldsOf(e))
  }

  function DataHashOf(e: ChainEvent): Option<string> {
    if e.detail.Anchored? then Some(e.detail.dataHash) else None
  }

  function Inserted(e: ChainEvent): Block {
    Block(ShipmentOf(e), MilestoneOf(e), "stellar-indexer", MetadataOf(e), DataHashOf(e))
  }

  /** $set on an existing block: shipment and actor stay, the rest is replaced,
      and a data hash is only ever overwritten by another one. */
  function Updated(b: Block, e: ChainEvent): Block {
    b.(milestone := MilestoneOf(e), metadata := MetadataOf(e),
       dataHash := if DataHashOf(e).Some? then DataHashOf(e) else b.dataHash)
  }

  function Upsert(blocks: Ledger, e: ChainEvent): Ledger {
    blocks[e.txHash := if e.txHash in blocks then Updated(blocks[e.txHash], e) else Inserted(e)]
  }

  function Fold(blocks: Ledger, events: seq<ChainEvent>): Ledger
    decreases |events|
  {
    if events == [] then blocks else Fold(Upsert(blocks, events[0]), events[1..])
  }

  function Ids(events: seq<ChainEvent>): seq<nat> {
    seq(|events|, i requires 0 <= i < |events| => events[i].id)
  }

  function Position(events: seq<ChainEvent>, cursor: Option<nat>): nat {
    Skipped(Ids(events), cursor)
  }

  // ----------------------------------------------------------- runs of the loop

  datatype Fate = Saved | SaveLost | CrashBeforeSave

  datatype State = State(blocks: Ledger, stored: Option<nat>)

  /** The upsert of one event and what becomes of the cursor save after it. */
  function Next(s: State, e: ChainEvent, fate: Fate): State {
    State(Upsert(s.blocks, e), if fate.Saved? then Some(e.id) else s.stored)
  }

  /** One run over a stream; `fates` ends where the process dies between events. */
  function Process(s: State, stream: seq<ChainEvent>, fates: seq<Fate>): State
    decreases |stream|
  {
    if stream == [] || fates == [] then s
    else if fates[0].CrashBeforeSave? then Next(s, stream[0], fates[0])
    else Process(Next(s, stream[0], fates[0]), stream[1..], fates[1..])
  }

  predicate RunsToEnd(stream: seq<ChainEvent>, fates: seq<Fate>) {
    |stream| <= |fates| && forall i :: 0 <= i < |stream| ==> !fates[i].CrashBeforeSave?
  }

  /** Where a run reads its cursor from; ReadFailed falls back to no cursor. */
  datatype Start = FromStored | ReadFailed | Given(cursor: Option<nat>)

  function CursorOf(s: State, start: Start): Option<nat> {
    match start
    case FromStored => s.stored
    case ReadFailed => None
    case Given(cursor) => cursor
  }

  /** Events that reach the chain, then one run of the worker. */
  datatype Attempt = Attempt(arrivals: seq<ChainEvent>, start: Start, fates: seq<Fate>)

  datatype World = World(history: seq<ChainEvent>, state: State)

  const FRESH: World := World([], State(map[], None))

  function RunOnce(w: World, a: Attempt): World {
    var history := w.history + a.arrivals;
    World(history, Process(w.state, history[Position(history, CursorOf(w.state, a.start))..], a.fates))
  }

  function RunAll(w: World, attempts: seq<Attempt>): World
    decreases |attempts|
  {
    if attempts == [] then w else RunAll(RunOnce(w, attempts[0]), attempts[1..])
  }

  function Arrived(attempts: seq<Attempt>): seq<ChainEvent> {
    if attempts == [] then [] else attempts[0].arrivals + Arrived(attempts[1..])
  }

  /** The last run starts from the stored cursor and meets no crash. */
  predicate LastRunCompletes(w: World, a: Attempt) {
    var history := w.history + a.arrivals;
    RunsToEnd(history[Position(history, CursorOf(w.state, a.start))..], a.fates)
  }

  // ----------------------------------------------------- replays are harmless

  lemma {:induction false} FoldConcat(blocks: Ledger, a: seq<ChainEvent>, b: seq<ChainEvent>)
    ensures Fold(blocks, a + b) == Fold(Fold(blocks, a), b)
    decreases |a|
  {
    if a == [] {
      assert a + b == b;
    } else {
      assert (a + b)[1..] == a[1..] + b;
      FoldConcat(Upsert(blocks, a[0]), a[1..], b);
    }
  }

  /** Two ledgers that differ at one hash only in what later events of that hash
      will overwrite end up equal. */
  lemma {:induction false} OverwrittenAgree(x: Ledger, y: Ledger, hash: string, events: seq<ChainEvent>)
    requires hash in x && hash in y && x[hash := y[hash]] == y
    requires x[hash].shipmentId == y[hash].shipmentId && x[hash].actor == y[hash].actor
    requires x == y || exists i :: 0 <= i < |events| && events[i].txHash == hash
    requires x[hash].dataHash == y[hash].dataHash
             || exists i :: 0 <= i < |events| && events[i].txHash == hash && events[i].detail.Anchored?
    ensures Fold(x, events) == Fold(y, events)
    decreases |events|
  {
    if x != y {
      var e, rest := events[0], events[1..];
      var x', y' := Upsert(x, e), Upsert(y, e);
      assert forall i :: 0 < i < |events| ==> events[i] == rest[i - 1];
      assert x'[hash := y'[hash]] == y';
      if e.txHash == hash {
        if x'[hash].dataHash == y'[hash].dataHash {
          assert x'[hash] == y'[hash];
          assert x' == y';
        }
      }
      OverwrittenAgree(x', y', hash, rest);
    }
  }

  /** Applying an event ahead of a replay that contains it changes nothing,
      provided its hash is known or no earlier event of the replay shares it. */
  lemma {:induction false} ReplayAbsorbs(blocks: Ledger, events: seq<ChainEvent>, k: nat)
    requires k < |events|
    requires events[k].txHash in blocks || forall j :: 0 <= j < k ==> events[j].txHash != events[k].txHash
    ensures Fold(Upsert(blocks, events[k]), events) == Fold(blocks, events)
    decreases k
  {
    var e := events[k];
    if e.txHash in blocks {
      OverwrittenAgree(blocks, Upsert(blocks, e), e.txHash, events);
    } else if k == 0 {
      assert Upsert(Upsert(blocks, e), e) == Upsert(blocks, e);
    } else {
      var f := events[0];
      assert Upsert(Upsert(blocks, e), f) == Upsert(Upsert(blocks, f), e);
      assert events[1..][k - 1] == e;
      ReplayAbsorbs(Upsert(blocks, f), events[1..], k - 1);
    }
  }

  // ------------------------------------------------------- what the blocks say

  lemma {:induction false} UntouchedStays(blocks: Ledger, events: seq<ChainEvent>, hash: string)
    requires forall j :: 0 <= j < |events| ==> events[j].txHash != hash
    ensures hash in Fold(blocks, events) <==> hash in blocks
    ensures hash in blocks ==> Fold(blocks, events)[hash] == blocks[hash]
    decreases |events|
  {
    if events != [] {
      UntouchedStays(Upsert(blocks, events[0]), events[1..], hash);
    }
  }

  /** Later events keep a block, its shipment and its actor, and only anchors of its
      hash replace its data hash. */
  lemma {:induction false} BlockStays(blocks: Ledger, events: seq<ChainEvent>, hash: string)
    requires hash in blocks
    ensures hash in Fold(blocks, events)
    ensures Fold(blocks, events)[hash].shipmentId == blocks[hash].shipmentId
    ensures Fold(blocks, events)[hash].actor == blocks[hash].actor
    ensures (forall j :: 0 <= j < |events| && events[j].txHash == hash ==> !events[j].detail.Anchored?) ==>
            Fold(blocks, events)[hash].dataHash == blocks[hash].dataHash
    decreases |events|
  {
    if events != [] {
      assert forall j :: 0 < j < |events| ==> events[j] == events[1..][j - 1];
      BlockStays(Upsert(blocks, events[0]), events[1..], hash);
    }
  }

  lemma {:induction false} FoldAt(history: seq<ChainEvent>, k: nat)
    requires k < |history|
    ensures Fold(map[], history) ==
            Fold(Upsert(Fold(map[], history[..k]), history[k]), history[k + 1..])
  {
    assert history == history[..k] + history[k..] && history[k..][1..] == history[k + 1..];
    FoldConcat(map[], history[..k], history[k..]);
  }

  ghost predicate IsFirst(history: seq<ChainEvent>, k: nat) {
    k < |history| && forall j :: 0 <= j < k ==> history[j].txHash != history[k].txHash
  }

  ghost predicate IsLast(history: seq<ChainEvent>, k: nat) {
    k < |history| && forall j :: k < j < |history| ==> history[j].txHash != history[k].txHash
  }

  /** The last event of a transaction decides the milestone and the metadata. */
  lemma {:induction false} LastEventTells(history: seq<ChainEvent>, k: nat)
    requires IsLast(history, k)
    ensures history[k].txHash in Fold(map[], history)
    ensures var e, block := history[k], Fold(map[], history)[history[k].txHash];
      match e.detail
      case Anchored(_, dataHash) =>
        block.milestone == IN_TRANSIT &&
        block.metadata == Metadata(e.ledger, e.ledger, e.contractId, e.id, AnchorFields(dataHash))
      case EscrowInit(paymentId, _, payer, payee, token, amount) =>
        block.milestone == SETTLEMENT_INITIATED &&
        block.metadata == Metadata(e.ledger, e.ledger, e.contractId, e.id,
                                   InitFields(paymentId, payer, payee, token, amount))
      case EscrowRelease(payment, proofHash, receiver, released) =>
        block.milestone == SETTLEMENT_COMPLETED &&
        block.metadata == Metadata(e.ledger, e.ledger, e.contractId, e.id,
                                   ReleaseFields(payment, proofHash, receiver, released))
  {
    FoldAt(history, k);
    assert forall j :: k < j < |history| ==> history[j] == history[k + 1..][j - k - 1];
    UntouchedStays(Upsert(Fold(map[], history[..k]), history[k]), history[k + 1..], history[k].txHash);
  }

  /** The first one decides under which shipment the block is filed, and by whom. */
  lemma {:induction false} FirstEventTells(history: seq<ChainEvent>, k: nat)
    requires IsFirst(history, k)
    ensures history[k].txHash in Fold(map[], history)
    ensures var block := Fold(map[], history)[history[k].txHash];
      block.actor == "stellar-indexer" &&
      match history[k].detail
      case Anchored(shipmentId, _) => block.shipmentId == shipmentId
      case EscrowInit(_, shipment, _, _, _, _) => block.shipmentId == shipment
      case EscrowRelease(payment, _, _, _) => block.shipmentId == payment
  {
    FoldAt(history, k);
    UntouchedStays(map[], history[..k], history[k].txHash);
    BlockStays(Upsert(Fold(map[], history[..k]), history[k]), history[k + 1..], history[k].txHash);
  }

  /** The last anchor of a transaction decides the data hash, whatever follows it. */
  lemma {:induction false} LastAnchorTells(history: seq<ChainEvent>, k: nat)
    requires k < |history| && history[k].detail.Anchored?
    requires forall j :: k < j < |history| && history[j].txHash == history[k].txHash ==> !history[j].detail.Anchored?
    ensures history[k].txHash in Fold(map[], history)
    ensures Fold(map[], history)[history[k].txHash].dataHash == Some(history[k].detail.dataHash)
  {
    FoldAt(history, k);
    assert forall j :: k < j < |history| ==> history[j] == history[k + 1..][j - k - 1];
    BlockStays(Upsert(Fold(map[], history[..k]), history[k]), history[k + 1..], history[k].txHash);
  }

  /** A transaction without anchors has no data hash. */
  lemma {:induction false} NoAnchorNoHash(history: seq<ChainEvent>, k: nat)
    requires IsFirst(history, k)
    requires forall j :: 0 <= j < |history| && history[j].txHash == history[k].txHash ==> !history[j].detail.Anchored?
    ensures history[k].txHash in Fold(map[], history)
    ensures Fold(map[], history)[history[k].txHash].dataHash == None
  {
    FoldAt(history, k);
    UntouchedStays(map[], history[..k], history[k].txHash);
    assert forall j :: k < j < |history| ==> history[j] == history[k + 1..][j - k - 1];
    BlockStays(Upsert(Fold(map[], history[..k]), history[k]), history[k + 1..], history[k].txHash);
  }

  /** There is one block for each transaction that has events, and no other. */
  lemma {:induction false} BlocksAreTransactions(history: seq<ChainEvent>, hash: string)
    ensures hash in Fold(map[], history) <==> exists k :: 0 <= k < |history| && history[k].txHash == hash
  {
    if k: nat :| k < |history| && history[k].txHash == hash {
      FoldAt(history, k);
      BlockStays(Upsert(Fold(map[], history[..k]), history[k]), history[k + 1..], hash);
    } else {
      UntouchedStays(map[], history, hash);
    }
  }

  /** A run takes exactly the events after its cursor. */
  lemma ResumesAfter(history: seq<ChainEvent>, cursor: Option<nat>)
    requires Ascending(Ids(history))
    ensures Position(history, cursor) <= |history|
    ensures forall i :: 0 <= i < |history| ==>
              (Position(history, cursor) <= i <==> cursor.None? || history[i].id > cursor.value)
  {
    forall i | 0 <= i < |history|
      ensures Position(history, cursor) <= i <==> cursor.None? || history[i].id > cursor.value
    {
      assert Ids(history)[i] == history[i].id;
      SkippedSplits(Ids(history), cursor, i);
    }
  }

  // ------------------------------------------------- convergence, reliable reads

  /** Replaying from position `from` would give what one uninterrupted run gives. */
  ghost predicate Reaches(blocks: Ledger, history: seq<ChainEvent>, from: nat) {
    from <= |history| && Fold(blocks, history[from..]) == Fold(map[], history)
  }

  /** During a run: `first` is where the stored cursor points, `next` the event
      to process; both restarts would converge. */
  ghost predicate OnTrack(s: State, history: seq<ChainEvent>, next: nat) {
    && Position(history, s.stored) <= next <= |history|
    && Reaches(s.blocks, history, Position(history, s.stored))
    && Reaches(s.blocks, history, next)
    && forall j :: Position(history, s.stored) <= j < next ==> history[j].txHash in s.blocks
  }

  lemma NextStaysOnTrack(s: State, history: seq<ChainEvent>, next: nat, fate: Fate)
    requires Ascending(Ids(history)) && OnTrack(s, history, next) && next < |history|
    ensures OnTrack(Next(s, history[next], fate), history, next + 1)
  {
    var first := Position(history, s.stored);
    ReplayAbsorbs(s.blocks, history[first..], next - first);
    assert history[next..][1..] == history[next + 1..];
    SkippedAt(Ids(history), next);
    assert Ids(history)[next] == history[next].id;
  }

  lemma {:induction false} ProcessConverges(s: State, history: seq<ChainEvent>, next: nat, fates: seq<Fate>)
    requires Ascending(Ids(history)) && OnTrack(s, history, next)
    ensures var s' := Process(s, history[next..], fates);
      && Reaches(s'.blocks, history, Position(history, s'.stored))
      && (RunsToEnd(history[next..], fates) ==> s'.blocks == Fold(map[], history))
    decreases |history| - next
  {
    if next == |history| {
      assert history[next..] == [];
    } else if fates != [] {
      NextStaysOnTrack(s, history, next, fates[0]);
      if !fates[0].CrashBeforeSave? {
        assert history[next..][1..] == history[next + 1..];
        ProcessConverges(Next(s, history[next], fates[0]), history, next + 1, fates[1..]);
      }
    }
  }

  /** Between runs: a restart from the stored cursor would converge. */
  ghost predicate Recoverable(w: World) {
    Reaches(w.state.blocks, w.history, Position(w.history, w.state.stored))
  }

  /** The stored cursor never names an event that has not happened. */
  ghost predicate StoredIsPast(w: World) {
    w.state.stored.Some? ==> w.state.stored.value in Ids(w.history)
  }

  lemma ArrivalsKeepRecoverable(w: World, arrivals: seq<ChainEvent>)
    requires Recoverable(w) && StoredIsPast(w) && Ascending(Ids(w.history + arrivals))
    ensures Recoverable(w.(history := w.history + arrivals))
    ensures StoredIsPast(w.(history := w.history + arrivals))
  {
    PositionStays(w.history, arrivals, w.state.stored);
    ReachesGrows(w.state.blocks, w.history, arrivals, Position(w.history, w.state.stored));
  }

  lemma PositionStays(history: seq<ChainEvent>, arrivals: seq<ChainEvent>, cursor: Option<nat>)
    requires Ascending(Ids(history + arrivals)) && (cursor.Some? ==> cursor.value in Ids(history))
    ensures Position(history + arrivals, cursor) == Position(history, cursor)
    ensures cursor.Some? ==> cursor.value in Ids(history + arrivals)
  {
    var ids, all := Ids(history), Ids(history + arrivals);
    assert forall i :: 0 <= i < |history| ==> all[i] == ids[i];
    if cursor.Some? {
      var i :| 0 <= i < |history| && ids[i] == cursor.value;
      assert all[i] == cursor.value;
      SkippedAt(all, i);
      SkippedAt(ids, i);
    }
  }

  lemma ReachesGrows(blocks: Ledger, history: seq<ChainEvent>, arrivals: seq<ChainEvent>, from: nat)
    requires Reaches(blocks, history, from)
    ensures Reaches(blocks, history + arrivals, from)
  {
    assert (history + arrivals)[from..] == history[from..] + arrivals;
    FoldConcat(blocks, history[from..], arrivals);
    FoldConcat(map[], history, arrivals);
  }

  lemma {:induction false} ProcessStoresPast(s: State, history: seq<ChainEvent>, next: nat, fates: seq<Fate>)
    requires next <= |history| && (s.stored.Some? ==> s.stored.value in Ids(history))
    ensures var s' := Process(s, history[next..], fates);
      s'.stored.Some? ==> s'.stored.value in Ids(history)
    decreases |history| - next
  {
    if next < |history| && fates != [] {
      assert history[next..][1..] == history[next + 1..];
      assert Ids(history)[next] == history[next].id;
      if !fates[0].CrashBeforeSave? {
        ProcessStoresPast(Next(s, history[next], fates[0]), history, next + 1, fates[1..]);
      }
    }
  }

  lemma RunOnceConverges(w: World, a: Attempt)
    requires a.start.FromStored? && Recoverable(w) && StoredIsPast(w) && Ascending(Ids(w.history + a.arrivals))
    ensures Recoverable(RunOnce(w, a)) && StoredIsPast(RunOnce(w, a))
    ensures LastRunCompletes(w, a) ==> RunOnce(w, a).state.blocks == Fold(map[], RunOnce(w, a).history)
  {
    var history := w.history + a.arrivals;
    ArrivalsKeepRecoverable(w, a.arrivals);
    var next := Position(history, w.state.stored);
    ProcessConverges(w.state, history, next, a.fates);
    ProcessStoresPast(w.state, history, next, a.fates);
  }

  lemma AscendingHead(a: seq<ChainEvent>, b: seq<ChainEvent>)
    requires Ascending(Ids(a + b))
    ensures Ascending(Ids(a))
  {
    assert Ids(a + b) == Ids(a) + Ids(b);
    assert forall i :: 0 <= i < |a| ==> (Ids(a) + Ids(b))[i] == Ids(a)[i];
  }

  lemma {:induction false} RunAllRecoverable(w: World, attempts: seq<Attempt>)
    requires Recoverable(w) && StoredIsPast(w)
    requires forall i :: 0 <= i < |attempts| ==> attempts[i].start.FromStored?
    requires Ascending(Ids(w.history + Arrived(attempts)))
    ensures Recoverable(RunAll(w, attempts)) && StoredIsPast(RunAll(w, attempts))
    ensures RunAll(w, attempts).history == w.history + Arrived(attempts)
    decreases |attempts|
  {
    if attempts == [] {
      assert w.history + [] == w.history;
    } else {
      var grown := w.history + attempts[0].arrivals;
      var rest := Arrived(attempts[1..]);
      assert w.history + Arrived(attempts) == grown + rest;
      AscendingHead(grown, rest);
      RunOnceConverges(w, attempts[0]);
      RunAllRecoverable(RunOnce(w, attempts[0]), attempts[1..]);
    }
  }

  /** With reliable cursor reads, any number of runs cut at any point and with
      any saves lost, followed by one run to the end, leaves the ledger of a
      single uninterrupted run, even when events share a transaction hash. */
  lemma {:induction false} Convergence(attempts: seq<Attempt>, last: Attempt)
    requires forall i :: 0 <= i < |attempts| ==> attempts[i].start.FromStored?
    requires last.start.FromStored? && LastRunCompletes(RunAll(FRESH, attempts), last)
    requires Ascending(Ids(Arrived(attempts) + last.arrivals))
    ensures RunOnce(RunAll(FRESH, attempts), last).state.blocks ==
            Fold(map[], Arrived(attempts) + last.arrivals)
  {
    AscendingHead(Arrived(attempts), last.arrivals);
    assert FRESH.history + Arrived(attempts) == Arrived(attempts);
    RunAllRecoverable(FRESH, attempts);
    RunOnceConverges(RunAll(FRESH, attempts), last);
  }

  // ------------------------------------------- any restart, one event per hash

  ghost predicate UniqueHashes(history: seq<ChainEvent>) {
    forall i, j :: 0 <= i < j < |history| ==> history[i].txHash != history[j].txHash
  }

  /** Every block is what inserting its one event gives. */
  ghost predicate Faithful(blocks: Ledger, history: seq<ChainEvent>) {
    forall h :: h in blocks ==>
      exists i :: 0 <= i < |history| && history[i].txHash == h && blocks[h] == Inserted(history[i])
  }

  lemma UpsertFaithful(blocks: Ledger, history: seq<ChainEvent>, i: nat)
    requires UniqueHashes(history) && Faithful(blocks, history) && i < |history|
    ensures Faithful(Upsert(blocks, history[i]), history)
    ensures Upsert(blocks, history[i]).Keys == blocks.Keys + {history[i].txHash}
  {
    var h := history[i].txHash;
    if h in blocks {
      var j :| 0 <= j < |history| && history[j].txHash == h && blocks[h] == Inserted(history[j]);
      assert i == j;
    }
    assert Upsert(blocks, history[i])[h] == Inserted(history[i]);
  }

  lemma {:induction false} FoldFaithful(blocks: Ledger, history: seq<ChainEvent>, next: nat)
    requires UniqueHashes(history) && Faithful(blocks, history) && next <= |history|
    ensures Faithful(Fold(blocks, history[next..]), history)
    ensures forall j :: next <= j < |history| ==> history[j].txHash in Fold(blocks, history[next..])
    ensures blocks.Keys <= Fold(blocks, history[next..]).Keys
    decreases |history| - next
  {
    if next < |history| {
      assert history[next..][1..] == history[next + 1..];
      UpsertFaithful(blocks, history, next);
      FoldFaithful(Upsert(blocks, history[next]), history, next + 1);
    }
  }

  lemma FaithfulAgree(x: Ledger, y: Ledger, history: seq<ChainEvent>, hash: string)
    requires UniqueHashes(history) && Faithful(x, history) && Faithful(y, history)
    requires hash in x && hash in y
    ensures x[hash] == y[hash]
  {
    var i :| 0 <= i < |history| && history[i].txHash == hash && x[hash] == Inserted(history[i]);
    var j :| 0 <= j < |history| && history[j].txHash == hash && y[hash] == Inserted(history[j]);
    assert i == j;
  }

  /** With one event per hash a ledger is right exactly when nothing is missing. */
  lemma FaithfulIsCompleteIff(blocks: Ledger, history: seq<ChainEvent>)
    requires UniqueHashes(history) && Faithful(blocks, history)
    ensures blocks == Fold(map[], history) <==> Covered(blocks, history, |history|)
  {
    var full := Fold(map[], history);
    assert history[0..] == history;
    FoldFaithful(map[], history, 0);
    if Covered(blocks, history, |history|) {
      forall h ensures h in blocks <==> h in full {
      }
      forall h | h in blocks ensures blocks[h] == full[h] {
        FaithfulAgree(blocks, full, history, h);
      }
    }
  }

  /** All events before a position have been indexed. */
  ghost predicate Covered(blocks: Ledger, history: seq<ChainEvent>, upTo: nat) {
    forall j :: 0 <= j < upTo && j < |history| ==> history[j].txHash in blocks
  }

  /** Nothing before the stored cursor, nor before `next`, is missing. */
  ghost predicate Indexed(s: State, history: seq<ChainEvent>, next: nat) {
    && Faithful(s.blocks, history)
    && Covered(s.blocks, history, next)
    && Covered(s.blocks, history, Position(history, s.stored))
  }

  lemma {:induction false} ProcessFaithful(s: State, history: seq<ChainEvent>, next: nat, fates: seq<Fate>)
    requires UniqueHashes(history) && next <= |history| && Faithful(s.blocks, history)
    ensures Faithful(Process(s, history[next..], fates).blocks, history)
    decreases |history| - next
  {
    if next < |history| && fates != [] {
      UpsertFaithful(s.blocks, history, next);
      if !fates[0].CrashBeforeSave? {
        assert history[next..][1..] == history[next + 1..];
        ProcessFaithful(Next(s, history[next], fates[0]), history, next + 1, fates[1..]);
      }
    }
  }

  lemma NextCovers(s: State, history: seq<ChainEvent>, next: nat, fate: Fate)
    requires Ascending(Ids(history)) && next < |history|
    requires Covered(s.blocks, history, next) && Covered(s.blocks, history, Position(history, s.stored))
    ensures var s' := Next(s, history[next], fate);
      Covered(s'.blocks, history, next + 1) && Covered(s'.blocks, history, Position(history, s'.stored))
  {
    SkippedAt(Ids(history), next);
    assert Ids(history)[next] == history[next].id;
  }

  lemma {:induction false} ProcessCovers(s: State, history: seq<ChainEvent>, next: nat, fates: seq<Fate>)
    requires Ascending(Ids(history)) && next <= |history|
    requires Covered(s.blocks, history, next) && Covered(s.blocks, history, Position(history, s.stored))
    ensures var s' := Process(s, history[next..], fates);
      && Covered(s'.blocks, history, Position(history, s'.stored))
      && Covered(s'.blocks, history, next)
      && (RunsToEnd(history[next..], fates) ==> Covered(s'.blocks, history, |history|))
    decreases |history| - next
  {
    if next < |history| && fates != [] {
      NextCovers(s, history, next, fates[0]);
      if !fates[0].CrashBeforeSave? {
        assert history[next..][1..] == history[next + 1..];
        ProcessCovers(Next(s, history[next], fates[0]), history, next + 1, fates[1..]);
      }
    }
  }

  /** One run over a fixed history, restarted from any position whose earlier
      events are indexed: the stored cursor, the beginning after a failed read,
      or a cursor handed in.  Run to the end it completes the ledger. */
  lemma AnyRestartConverges(w: World, start: Start, fates: seq<Fate>)
    requires Ascending(Ids(w.history)) && UniqueHashes(w.history)
    requires Indexed(w.state, w.history, Position(w.history, CursorOf(w.state, start)))
    ensures var run := Attempt([], start, fates);
      var s' := RunOnce(w, run).state;
      && Indexed(s', w.history, Position(w.history, CursorOf(w.state, start)))
      && (LastRunCompletes(w, run) ==> s'.blocks == Fold(map[], w.history))
  {
    assert w.history + [] == w.history;
    var next := Position(w.history, CursorOf(w.state, start));
    ProcessFaithful(w.state, w.history, next, fates);
    ProcessCovers(w.state, w.history, next, fates);
    FaithfulIsCompleteIff(RunOnce(w, Attempt([], start, fates)).state.blocks, w.history);
  }

  /** Between runs: nothing up to the stored cursor is missing, nothing is wrong. */
  ghost predicate IndexedToStored(w: World) {
    && StoredIsPast(w)
    && Faithful(w.state.blocks, w.history)
    && Covered(w.state.blocks, w.history, Position(w.history, w.state.stored))
  }

  lemma UniqueHead(a: seq<ChainEvent>, b: seq<ChainEvent>)
    requires UniqueHashes(a + b)
    ensures UniqueHashes(a)
  {
    assert forall i :: 0 <= i < |a| ==> (a + b)[i] == a[i];
  }

  lemma FaithfulGrows(blocks: Ledger, history: seq<ChainEvent>, arrivals: seq<ChainEvent>)
    requires Faithful(blocks, history)
    ensures Faithful(blocks, history + arrivals)
  {
    forall h | h in blocks
      ensures exists i :: 0 <= i < |history + arrivals| && (history + arrivals)[i].txHash == h
                          && blocks[h] == Inserted((history + arrivals)[i])
    {
      var i :| 0 <= i < |history| && history[i].txHash == h && blocks[h] == Inserted(history[i]);
      assert (history + arrivals)[i] == history[i];
    }
  }

  lemma RunOnceIndexes(w: World, a: Attempt)
    requires !a.start.Given? && IndexedToStored(w)
    requires Ascending(Ids(w.history + a.arrivals)) && UniqueHashes(w.history + a.arrivals)
    ensures IndexedToStored(RunOnce(w, a))
    ensures LastRunCompletes(w, a) ==> RunOnce(w, a).state.blocks == Fold(map[], RunOnce(w, a).history)
  {
    var grown := World(w.history + a.arrivals, w.state);
    PositionStays(w.history, a.arrivals, w.state.stored);
    FaithfulGrows(w.state.blocks, w.history, a.arrivals);
    var next := Position(grown.history, CursorOf(w.state, a.start));
    ProcessFaithful(w.state, grown.history, next, a.fates);
    ProcessCovers(w.state, grown.history, next, a.fates);
    ProcessStoresPast(w.state, grown.history, next, a.fates);
    FaithfulIsCompleteIff(RunOnce(w, a).state.blocks, grown.history);
  }

  lemma {:induction false} RunAllIndexed(w: World, attempts: seq<Attempt>)
    requires IndexedToStored(w)
    requires forall i :: 0 <= i < |attempts| ==> !attempts[i].start.Given?
    requires Ascending(Ids(w.history + Arrived(attempts))) && UniqueHashes(w.history + Arrived(attempts))
    ensures IndexedToStored(RunAll(w, attempts))
    ensures RunAll(w, attempts).history == w.history + Arrived(attempts)
    decreases |attempts|
  {
    if attempts == [] {
      assert w.history + [] == w.history;
    } else {
      var grown := w.history + attempts[0].arrivals;
      var rest := Arrived(attempts[1..]);
      assert w.history + Arrived(attempts) == grown + rest;
      AscendingHead(grown, rest);
      UniqueHead(grown, rest);
      RunOnceIndexes(w, attempts[0]);
      RunAllIndexed(RunOnce(w, attempts[0]), attempts[1..]);
    }
  }

  /** With one event per hash, cursor reads may fail too. */
  lemma {:induction false} UniqueConvergence(attempts: seq<Attempt>, last: Attempt)
    requires forall i :: 0 <= i < |attempts| ==> !attempts[i].start.Given?
    requires !last.start.Given? && LastRunCompletes(RunAll(FRESH, attempts), last)
    requires Ascending(Ids(Arrived(attempts) + last.arrivals)) && UniqueHashes(Arrived(attempts) + last.arrivals)
    ensures RunOnce(RunAll(FRESH, attempts), last).state.blocks ==
            Fold(map[], Arrived(attempts) + last.arrivals)
  {
    var arrived := Arrived(attempts);
    AscendingHead(arrived, last.arrivals);
    UniqueHead(arrived, last.arrivals);
    assert FRESH.history + arrived == arrived;
    RunAllIndexed(FRESH, attempts);
    RunOnceIndexes(RunAll(FRESH, attempts), last);
  }

  /** The simulated adapter's stream, as the indexer sees it. */
  function FromAnchors(events: seq<ChainStream.AnchorEvent>, contractId: string): seq<ChainEvent> {
    seq(|events|, i requires 0 <= i < |events| =>
      ChainEvent(events[i].id, events[i].txHash, contractId, events[i].ledger,
                 Anchored(events[i].shipmentId, events[i].dataHash)))
  }

  /** That stream carries at most one event per transaction, so restarts from
      any indexed position converge on it. */
  lemma SimulatedStreamIsUnique(records: seq<ChainStream.TxRecord>, contractId: string)
    requires Ascending(ChainStream.Tokens(records))
    requires forall i, j :: 0 <= i < j < |records| ==> records[i].hash != records[j].hash
    ensures Ascending(Ids(FromAnchors(ChainStream.Stream(records, None), contractId)))
    ensures UniqueHashes(FromAnchors(ChainStream.Stream(records, None), contractId))
  {
    var events := ChainStream.Stream(records, None);
    assert ChainStream.After(records, None) == records;
    ChainStream.StreamAscends(records, None);
    forall i, j | 0 <= i < j < |events| ensures events[i].txHash != events[j].txHash {
      var m := ChainStream.EventOrigin(records, i);
      var n := ChainStream.EventOrigin(records, j);
      assert events[i].id < events[j].id;
    }
  }

  /** Indexed, it gives one block for each anchoring transaction, with what was anchored. */
  lemma SimulatedBlocks(records: seq<ChainStream.TxRecord>, contractId: string, record: ChainStream.TxRecord,
                        event: ChainStream.AnchorEvent)
    requires Ascending(ChainStream.Tokens(records))
    requires forall i, j :: 0 <= i < j < |records| ==> records[i].hash != records[j].hash
    requires record in records && ChainStream.Says(record, event)
    ensures var blocks := Fold(map[], FromAnchors(ChainStream.Stream(records, None), contractId));
      record.hash in blocks && blocks[record.hash] ==
        Block(event.shipmentId, IN_TRANSIT, "stellar-indexer",
              Metadata(record.ledger, record.ledger, contractId, record.pagingToken, AnchorFields(event.dataHash)),
              Some(event.dataHash))
  {
    var events := ChainStream.Stream(records, None);
    ChainStream.StreamSays(records, None, event);
    SimulatedStreamIsUnique(records, contractId);
    var k :| 0 <= k < |events| && events[k] == event;
    var history := FromAnchors(events, contractId);
    assert history[k].detail == Anchored(event.shipmentId, event.dataHash);
    LastEventTells(history, k);
    FirstEventTells(history, k);
    LastAnchorTells(history, k);
  }

  // ------------------------------------------------ unreliable cursor reads

  /** A schedule in which any cursor read may fail. */
  ghost predicate Schedule(history: seq<ChainEvent>, attempts: seq<Attempt>, last: Attempt) {
    && (forall i :: 0 <= i < |attempts| ==> !attempts[i].start.Given?)
    && !last.start.Given?
    && Arrived(attempts) + last.arrivals == history
    && LastRunCompletes(RunAll(FRESH, attempts), last)
  }

  ghost predicate AlwaysConverges(history: seq<ChainEvent>) {
    forall attempts, last :: Schedule(history, attempts, last) ==>
      RunOnce(RunAll(FRESH, attempts), last).state.blocks == Fold(map[], history)
  }

  /** A block carries the metadata of the last event written under its hash. */
  lemma {:induction false} LastWriterWins(blocks: Ledger, events: seq<ChainEvent>, k: nat)
    requires k < |events| && forall j :: k < j < |events| ==> events[j].txHash != events[k].txHash
    ensures events[k].txHash in Fold(blocks, events)
    ensures Fold(blocks, events)[events[k].txHash].metadata == MetadataOf(events[k])
    decreases |events|
  {
    var rest := events[1..];
    if k > 0 {
      assert forall j :: 0 < j < |events| ==> events[j] == rest[j - 1];
      LastWriterWins(Upsert(blocks, events[0]), rest, k - 1);
    } else {
      assert forall j :: 0 <= j < |rest| ==> rest[j].txHash != events[0].txHash;
      UntouchedStays(Upsert(blocks, events[0]), rest, events[0].txHash);
    }
  }

  /** Without a crash a run folds the events it has time for; if every save is
      lost the stored cursor stays, and if none is it names the last event. */
  lemma {:induction false} ProcessFolds(s: State, stream: seq<ChainEvent>, n: nat, fate: Fate)
    requires n <= |stream| && !fate.CrashBeforeSave?
    ensures var fates := seq(n, _ => fate);
      Process(s, stream, fates) ==
      State(Fold(s.blocks, stream[..n]), if fate.Saved? && n > 0 then Some(stream[n - 1].id) else s.stored)
    decreases |stream|
  {
    if n > 0 {
      var fates := seq(n, _ => fate);
      assert fates[1..] == seq(n - 1, _ => fate);
      assert stream[..n][1..] == stream[1..][..n - 1];
      ProcessFolds(Next(s, stream[0], fate), stream[1..], n - 1, fate);
    } else {
      assert stream[..0] == [];
    }
  }

  function FullRun(history: seq<ChainEvent>): Attempt {
    Attempt(history, FromStored, seq(|history|, _ => Saved))
  }

  function CutReplay(n: nat): Attempt {
    Attempt([], ReadFailed, seq(n, _ => SaveLost))
  }

  const QUIET_RUN: Attempt := Attempt([], FromStored, [])

  lemma FullRunIndexes(history: seq<ChainEvent>)
    requires history != []
    ensures RunOnce(FRESH, FullRun(history)) ==
            World(history, State(Fold(map[], history), Some(history[|history| - 1].id)))
  {
    assert [] + history == history && history[0..] == history && history[..|history|] == history;
    ProcessFolds(FRESH.state, history, |history|, Saved);
  }

  lemma CutReplayFolds(w: World, n: nat)
    requires n <= |w.history|
    ensures RunOnce(w, CutReplay(n)) ==
            World(w.history, State(Fold(w.state.blocks, w.history[..n]), w.state.stored))
  {
    assert w.history + [] == w.history && w.history[0..] == w.history;
    ProcessFolds(w.state, w.history, n, SaveLost);
  }

  lemma QuietRunStays(w: World)
    requires w.history != [] && Ascending(Ids(w.history))
    requires w.state.stored == Some(w.history[|w.history| - 1].id)
    ensures RunOnce(w, QUIET_RUN) == w && LastRunCompletes(w, QUIET_RUN)
  {
    var n := |w.history|;
    assert w.history + [] == w.history && w.history[n..] == [];
    assert Ids(w.history)[n - 1] == w.history[n - 1].id;
    SkippedAt(Ids(w.history), n - 1);
  }

  lemma TwoRuns(first: Attempt, second: Attempt)
    ensures RunAll(FRESH, [first, second]) == RunOnce(RunOnce(FRESH, first), second)
    ensures Arrived([first, second]) == first.arrivals + second.arrivals
  {
    assert [first, second][1..] == [second] && [second][1..] == [];
    assert RunAll(RunOnce(FRESH, first), [second]) == RunAll(RunOnce(RunOnce(FRESH, first), second), []);
    assert Arrived([second]) == second.arrivals + Arrived([]);
  }

  lemma {:induction false} CutAfterFullRun(history: seq<ChainEvent>, n: nat)
    requires history != [] && n <= |history|
    ensures RunAll(FRESH, [FullRun(history), CutReplay(n)]) ==
            World(history, State(Fold(Fold(map[], history), history[..n]), Some(history[|history| - 1].id)))
  {
    FullRunIndexes(history);
    CutReplayFolds(RunOnce(FRESH, FullRun(history)), n);
    TwoRuns(FullRun(history), CutReplay(n));
  }

  /** Everything is indexed; a failed read then replays the first `n` events
      alone, and the stored cursor, already past the end, leaves it at that. */
  lemma {:induction false} CutReplaySchedule(history: seq<ChainEvent>, n: nat)
    returns (attempts: seq<Attempt>, last: Attempt)
    requires Ascending(Ids(history)) && history != [] && n <= |history|
    ensures Schedule(history, attempts, last)
    ensures RunOnce(RunAll(FRESH, attempts), last).state.blocks == Fold(Fold(map[], history), history[..n])
  {
    attempts, last := [FullRun(history), CutReplay(n)], QUIET_RUN;
    CutAfterFullRun(history, n);
    QuietRunStays(RunAll(FRESH, [FullRun(history), CutReplay(n)]));
    TwoRuns(FullRun(history), CutReplay(n));
    assert history + [] + [] == history;
  }

  /** Two events of one transaction: stop the replay right after the first. */
  lemma {:induction false} SharedHashDiverges(history: seq<ChainEvent>, i: nat, j: nat)
    requires Ascending(Ids(history)) && i < j < |history| && history[i].txHash == history[j].txHash
    ensures !AlwaysConverges(history)
  {
    var attempts, last := CutReplaySchedule(history, i + 1);
    OlderMetadata(history, i, j);
  }

  lemma OlderMetadata(history: seq<ChainEvent>, i: nat, j: nat)
    requires Ascending(Ids(history)) && i < j < |history| && history[i].txHash == history[j].txHash
    ensures Fold(Fold(map[], history), history[..i + 1]) != Fold(map[], history)
  {
    var full := Fold(map[], history);
    LastWriterWins(full, history[..i + 1], i);
    var k := LastUse(history, j);
    LastWriterWins(map[], history, k);
    assert Ids(history)[i] == history[i].id && Ids(history)[k] == history[k].id;
  }

  lemma LastUse(history: seq<ChainEvent>, j: nat) returns (k: nat)
    requires j < |history|
    ensures j <= k < |history| && history[k].txHash == history[j].txHash
    ensures forall m :: k < m < |history| ==> history[m].txHash != history[k].txHash
    decreases |history| - j
  {
    k := j;
    if m :| j < m < |history| && history[m].txHash == history[j].txHash {
      k := LastUse(history, m);
    }
  }

  /** When cursor reads can fail, every schedule still converges exactly for the
      histories in which no two events share a transaction hash. */
  lemma {:induction false} FailedReadsConvergeIff(history: seq<ChainEvent>)
    requires Ascending(Ids(history))
    ensures AlwaysConverges(history) <==> UniqueHashes(history)
  {
    if UniqueHashes(history) {
      forall attempts, last | Schedule(history, attempts, last)
        ensures RunOnce(RunAll(FRESH, attempts), last).state.blocks == Fold(map[], history)
      {
        UniqueConvergence(attempts, last);
      }
    } else {
      var i, j :| 0 <= i < j < |history| && history[i].txHash == history[j].txHash;
      SharedHashDiverges(history, i, j);
    }
  }

  // ------------------------------------------------------------ the worker loop

  /** How many events of a stream a run writes. */
  function Written(stream: seq<ChainEvent>, fates: seq<Fate>): (n: nat)
    ensures n <= |stream| && n <= |fates|
    decreases |stream|
  {
    if stream == [] || fates == [] then 0
    else if fates[0].CrashBeforeSave? then 1
    else 1 + Written(stream[1..], fates[1..])
  }

  /** A run writes the first `Written` events: all of them, or as many as it has time for,
      or up to the one whose write it does not survive. */
  lemma {:induction false} RunWrites(s: State, stream: seq<ChainEvent>, fates: seq<Fate>)
    ensures Process(s, stream, fates).blocks == Fold(s.blocks, stream[..Written(stream, fates)])
    ensures forall i :: 0 <= i < Written(stream, fates) - 1 ==> fates[i] != CrashBeforeSave
    ensures var n := Written(stream, fates);
      n == |stream| || n == |fates| || (n > 0 && fates[n - 1] == CrashBeforeSave)
    decreases |stream|
  {
    var n := Written(stream, fates);
    if n == 0 {
      assert stream[..0] == [];
    } else {
      assert stream[..n][1..] == stream[1..][..n - 1];
      if !fates[0].CrashBeforeSave? {
        RunWrites(Next(s, stream[0], fates[0]), stream[1..], fates[1..]);
        forall i | 0 <= i < n - 1 ensures fates[i] != CrashBeforeSave {
          if i > 0 {
            assert fates[i] == fates[1..][i - 1];
          }
        }
      } else {
        assert stream[..1][1..] == [];
      }
    }
  }

  /** The stored cursor is the id of the last event whose save arrived. */
  lemma {:induction false} RunStores(s: State, stream: seq<ChainEvent>, fates: seq<Fate>)
    ensures var stored := Process(s, stream, fates).stored;
      var n := Written(stream, fates);
      || (stored == s.stored && forall i :: 0 <= i < n ==> fates[i] != Saved)
      || exists i :: 0 <= i < n && fates[i] == Saved && stored == Some(stream[i].id)
                     && forall j :: i < j < n ==> fates[j] != Saved
    decreases |stream|
  {
    var n := Written(stream, fates);
    if n > 0 && !fates[0].CrashBeforeSave? {
      var rest := fates[1..];
      assert forall i :: 0 <= i < |rest| ==> rest[i] == fates[i + 1];
      var s' := Next(s, stream[0], fates[0]);
      RunStores(s', stream[1..], rest);
      var stored := Process(s', stream[1..], rest).stored;
      if i :| 0 <= i < n - 1 && rest[i] == Saved && stored == Some(stream[1..][i].id)
              && forall j :: i < j < n - 1 ==> rest[j] != Saved {
        assert fates[i + 1] == Saved && stored == Some(stream[i + 1].id);
        assert forall j :: i + 1 < j < n ==> fates[j] == rest[j - 1];
      } else {
        assert forall j :: 0 < j < n ==> fates[j] == rest[j - 1];
      }
    }
  }

  class Worker {
    var blocks: Ledger
    var stored: Option<nat>

    ghost function Snapshot(): State
      reads this
    {
      State(blocks, stored)
    }

    constructor ()
      ensures Snapshot() == State(map[], None)
    {
      blocks := map[];
      stored := None;
    }

    method UpsertBlock(e: ChainEvent) returns (inserted: bool)
      modifies this`blocks
      ensures blocks == Upsert(old(blocks), e)
      ensures inserted <==> e.txHash !in old(blocks)
      ensures e.txHash in blocks && blocks[e.txHash].milestone ==
              match e.detail
              case Anchored(_, _) => IN_TRANSIT
              case EscrowInit(_, _, _, _, _, _) => SETTLEMENT_INITIATED
              case EscrowRelease(_, _, _, _) => SETTLEMENT_COMPLETED
      ensures e.detail.Anchored? ==> blocks[e.txHash].dataHash == Some(e.detail.dataHash)
      ensures |blocks| == |old(blocks)| + (if inserted then 1 else 0)
    {
      inserted := e.txHash !in blocks;
      var was := blocks.Keys;
      blocks := blocks[e.txHash := if inserted then Inserted(e) else Updated(blocks[e.txHash], e)];
      assert blocks.Keys == was + {e.txHash};
    }

    /** One event: its upsert, and the save of the cursor unless that is lost or never
        reached. */
    method TakeEvent(e: ChainEvent, fate: Fate) returns (inserted: bool)
      modifies this
      ensures Snapshot() == Next(old(Snapshot()), e, fate)
      ensures stored == if fate == Saved then Some(e.id) else old(stored)
      ensures |blocks| == |old(blocks)| + (if inserted then 1 else 0)
    {
      inserted := UpsertBlock(e);
      if fate.Saved? {
        stored := Some(e.id);
      }
    }

    /** The `for await` loop, from a cursor already resolved to a stream. */
    method Consume(stream: seq<ChainEvent>, first: Option<nat>, fates: seq<Fate>)
      returns (processed: nat, upserted: nat, cursor: Option<nat>)
      modifies this
      ensures Snapshot() == Process(old(Snapshot()), stream, fates)
      ensures processed == Written(stream, fates)
      ensures cursor == if processed == 0 then first else Some(stream[processed - 1].id)
      ensures |blocks| == |old(blocks)| + upserted
    {
      cursor, processed, upserted := first, 0, 0;
      ghost var target, written := Process(Snapshot(), stream, fates), Written(stream, fates);
      while processed < |stream| && processed < |fates|
        invariant processed <= |stream| && processed <= |fates|
        invariant Process(Snapshot(), stream[processed..], fates[processed..]) == target
        invariant written == processed + Written(stream[processed..], fates[processed..])
        invariant |blocks| == |old(blocks)| + upserted
        invariant cursor == if processed == 0 then first else Some(stream[processed - 1].id)
        decreases |stream| - processed
      {
        var event, fate := stream[processed], fates[processed];
        assert stream[processed..][1..] == stream[processed + 1..];
        assert fates[processed..][1..] == fates[processed + 1..];
        cursor := Some(event.id);
        var inserted := TakeEvent(event, fate);
        processed := processed + 1;
        upserted := upserted + if inserted then 1 else 0;
        if fate.CrashBeforeSave? {
          return;
        }
      }
    }

    /** `processed` counts the events written, `upserted` the blocks that are new,
        and `lastCursor` is the id of the last event taken from the stream. */
    method IndexStellarTransactions(history: seq<ChainEvent>, start: Start, fates: seq<Fate>)
      returns (processed: nat, upserted: nat, lastCursor: Option<nat>)
      modifies this
      ensures Snapshot() == RunOnce(World(history, old(Snapshot())), Attempt([], start, fates)).state
      ensures var stream := history[Position(history, CursorOf(old(Snapshot()), start))..];
        && processed == Written(stream, fates)
        && lastCursor == if processed == 0 then CursorOf(old(Snapshot()), start) else Some(stream[processed - 1].id)
      ensures |blocks| == |old(blocks)| + upserted
    {
      assert history + [] == history;
      var cursor := match start
        case FromStored => stored
        case ReadFailed => None
        case Given(c) => c;
      processed, upserted, lastCursor := Consume(history[Position(history, cursor)..], cursor, fates);
    }
  }
}
