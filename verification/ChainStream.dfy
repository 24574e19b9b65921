/** Positions in an append-only, ascending history. */
module Paging {
  import opened Common

  predicate Ascending(ids: seq<nat>) {
    forall i, j :: 0 <= i < j < |ids| ==> ids[i] < ids[j]
  }

  predicate Beyond(id: nat, cursor: Option<nat>) {
    cursor.None? || cursor.value < id
  }

  /** How many leading ids a cursor has already covered. */
  function Skipped(ids: seq<nat>, cursor: Option<nat>): (n: nat)
    ensures n <= |ids|
    ensures forall i :: 0 <= i < n ==> !Beyond(ids[i], cursor)
    ensures n < |ids| ==> Beyond(ids[n], cursor)
  {
    if ids == [] || Beyond(ids[0], cursor) then 0 else 1 + Skipped(ids[1..], cursor)
  }

  /** In an ascending history the uncovered ids are a suffix. */
  lemma SkippedSplits(ids: seq<nat>, cursor: Option<nat>, i: nat)
    requires Ascending(ids) && i < |ids|
    ensures i < Skipped(ids, cursor) <==> !Beyond(ids[i], cursor)
  {
  }

  lemma SkippedAt(ids: seq<nat>, i: nat)
    requires Ascending(ids) && i < |ids|
    ensures Skipped(ids, Some(ids[i])) == i + 1
  {
    SkippedSplits(ids, Some(ids[i]), i);
    if i + 1 < |ids| {
      SkippedSplits(ids, Some(ids[i]), i + 1);
    }
  }

  lemma SkippedGrows(ids: seq<nat>, more: seq<nat>, cursor: Option<nat>)
    requires Ascending(ids + more)
    ensures Skipped(ids + more, cursor) ==
            if Skipped(ids, cursor) < |ids| then Skipped(ids, cursor)
            else |ids| + Skipped(more, cursor)
  {
    var all := ids + more;
    assert forall i :: 0 <= i < |more| ==> all[|ids| + i] == more[i];
    assert forall i :: 0 <= i < |ids| ==> all[i] == ids[i];
    var n := if Skipped(ids, cursor) < |ids| then Skipped(ids, cursor)
             else |ids| + Skipped(more, cursor);
    if n < |all| {
      SkippedSplits(all, cursor, n);
    }
    if n > 0 {
      SkippedSplits(all, cursor, n - 1);
    }
  }
}

/**
  The event stream of src/services/chain/simulated.adapter.ts: Horizon's
  transactions, read a page at a time, filtered down to anchor events.
 */
module ChainStream {
  import opened Common
  import opened Paging

  const PAGE_SIZE: nat := 200
  const ANCHOR_KEY_PREFIX: string := "telemetry:"

  datatype Operation = ManageData(name: string, value: Option<string>) | OtherOperation

  /** `operations` is None when the envelope cannot be decoded. */
  datatype TxRecord = TxRecord(
    pagingToken: nat, hash: string, ledger: nat, successful: bool, operations: Option<seq<Operation>>)

  datatype AnchorEvent = AnchorEvent(
    id: nat, txHash: string, ledger: nat, shipmentId: string, dataHash: string)

  predicate IsSymbol(s: string) {
    1 <= |s| <= 32 && forall c :: c in s ==>
      'A' <= c <= 'Z' || 'a' <= c <= 'z' || '0' <= c <= '9' || c == '_'
  }

  predicate IsBytes32Hex(s: string) {
    |s| == 64 && forall c :: c in s ==> '0' <= c <= '9' || 'a' <= c <= 'f'
  }

  predicate IsAnchor(op: Operation) {
    && op.ManageData?
    && ANCHOR_KEY_PREFIX <= op.name
    && IsSymbol(op.name[|ANCHOR_KEY_PREFIX|..])
    && IsBytes32Hex(if op.value.Some? then op.value.value else "")
  }

  function EventOf(record: TxRecord, op: Operation): AnchorEvent
    requires IsAnchor(op)
  {
    AnchorEvent(record.pagingToken, record.hash, record.ledger,
                op.name[|ANCHOR_KEY_PREFIX|..], op.value.value)
  }

  function FirstAnchor(record: TxRecord, ops: seq<Operation>): Option<AnchorEvent> {
    if ops == [] then None
    else if IsAnchor(ops[0]) then Some(EventOf(record, ops[0]))
    else FirstAnchor(record, ops[1..])
  }

  /** The event a record stands for: its first anchor operation, if it has one. */
  function AnchorOf(record: TxRecord): Option<AnchorEvent> {
    if record.successful && record.operations.Some? then FirstAnchor(record, record.operations.value)
    else None
  }

  lemma {:induction false} FirstAnchorMeaning(record: TxRecord, ops: seq<Operation>)
    ensures FirstAnchor(record, ops).None? ==> forall i :: 0 <= i < |ops| ==> !IsAnchor(ops[i])
    ensures FirstAnchor(record, ops).Some? ==>
      exists i :: 0 <= i < |ops| && IsAnchor(ops[i]) && FirstAnchor(record, ops).value == EventOf(record, ops[i])
                  && forall j :: 0 <= j < i ==> !IsAnchor(ops[j])
  {
    if ops != [] {
      FirstAnchorMeaning(record, ops[1..]);
      if !IsAnchor(ops[0]) && FirstAnchor(record, ops).Some? {
        var i :| 0 <= i < |ops[1..]| && IsAnchor(ops[1..][i])
          && FirstAnchor(record, ops).value == EventOf(record, ops[1..][i])
          && forall j :: 0 <= j < i ==> !IsAnchor(ops[1..][j]);
        assert forall j :: 0 <= j < i + 1 ==> j == 0 || ops[j] == ops[1..][j - 1];
        assert ops[i + 1] == ops[1..][i];
      }
    }
  }

  /** A record yields an event exactly when it succeeded, decodes, and writes a
      well-formed anchor entry; the event then carries that first entry. */
  lemma AnchorOfMeaning(record: TxRecord)
    ensures AnchorOf(record).Some? <==>
      record.successful && record.operations.Some? && exists op :: op in record.operations.value && IsAnchor(op)
    ensures AnchorOf(record).Some? ==>
      AnchorOf(record).value.id == record.pagingToken && AnchorOf(record).value.txHash == record.hash
  {
    if record.successful && record.operations.Some? {
      FirstAnchorMeaning(record, record.operations.value);
    }
  }

  const CAPITALS: string := "ABCDEFGHIJKLMNOPQRSTUVWXYZ"
  const SMALL_LETTERS: string := "abcdefghijklmnopqrstuvwxyz"
  const SYMBOL_CHARACTERS: string := CAPITALS + SMALL_LETTERS + "0123456789" + "_"
  const HEX_CHARACTERS: string := "0123456789abcdef"

  /** A shipment id and a data hash that may stand in an anchor entry. */
  predicate WellShaped(shipmentId: string, dataHash: string) {
    && 1 <= |shipmentId| <= 32 && (forall c <- shipmentId :: c in SYMBOL_CHARACTERS)
    && |dataHash| == 64 && (forall c <- dataHash :: c in HEX_CHARACTERS)
  }

  function Entry(shipmentId: string, dataHash: string): Operation {
    ManageData("telemetry:" + shipmentId, Some(dataHash))
  }

  lemma SymbolShape(s: string)
    ensures IsSymbol(s) <==> 1 <= |s| <= 32 && forall c <- s :: c in SYMBOL_CHARACTERS
  {
    forall c: char
      ensures c in SYMBOL_CHARACTERS <==>
              'A' <= c <= 'Z' || 'a' <= c <= 'z' || '0' <= c <= '9' || c == '_'
    {
      SymbolCharacter(c);
    }
  }

  lemma SymbolCharacter(c: char)
    ensures c in SYMBOL_CHARACTERS <==>
            'A' <= c <= 'Z' || 'a' <= c <= 'z' || '0' <= c <= '9' || c == '_'
  {
    CapitalsListed(c);
    SmallLettersListed(c);
    assert c in "0123456789" <==> '0' <= c <= '9';
  }

  lemma CapitalsListed(c: char)
    ensures c in CAPITALS <==> 'A' <= c <= 'Z'
  {
    if 'A' <= c <= 'Z' {
      assert CAPITALS[c as int - 'A' as int] == c;
    }
  }

  lemma SmallLettersListed(c: char)
    ensures c in SMALL_LETTERS <==> 'a' <= c <= 'z'
  {
    if 'a' <= c <= 'z' {
      assert SMALL_LETTERS[c as int - 'a' as int] == c;
    }
  }

  lemma HexShape(s: string)
    ensures IsBytes32Hex(s) <==> |s| == 64 && forall c <- s :: c in HEX_CHARACTERS
  {
    assert forall c: char :: c in HEX_CHARACTERS <==> '0' <= c <= '9' || 'a' <= c <= 'f';
  }

  lemma EntryIsAnchorIff(shipmentId: string, dataHash: string)
    ensures IsAnchor(Entry(shipmentId, dataHash)) <==> WellShaped(shipmentId, dataHash)
  {
    var name := "telemetry:" + shipmentId;
    assert ANCHOR_KEY_PREFIX <= name && name[|ANCHOR_KEY_PREFIX|..] == shipmentId;
    SymbolShape(shipmentId);
    HexShape(dataHash);
  }

  /** An anchor is an entry for the shipment and with the data hash that its event names. */
  lemma AnchorIsEntry(record: TxRecord, op: Operation)
    requires IsAnchor(op)
    ensures op == Entry(EventOf(record, op).shipmentId, EventOf(record, op).dataHash)
    ensures WellShaped(EventOf(record, op).shipmentId, EventOf(record, op).dataHash)
  {
    assert op.name == "telemetry:" + op.name[|ANCHOR_KEY_PREFIX|..];
    EntryIsAnchorIff(EventOf(record, op).shipmentId, EventOf(record, op).dataHash);
  }

  /** The `i`-th operation is the first well-shaped entry, and it names `event`. */
  ghost predicate FirstEntryAt(ops: seq<Operation>, i: nat, event: AnchorEvent) {
    && i < |ops| && ops[i] == Entry(event.shipmentId, event.dataHash)
    && WellShaped(event.shipmentId, event.dataHash)
    && forall j, s, d :: 0 <= j < i && ops[j] == Entry(s, d) ==> !WellShaped(s, d)
  }

  /** What it takes for a record to stand for an event. */
  ghost predicate Says(record: TxRecord, event: AnchorEvent) {
    && event.id == record.pagingToken && event.txHash == record.hash && event.ledger == record.ledger
    && record.successful && record.operations.Some?
    && exists i :: FirstEntryAt(record.operations.value, i, event)
  }

  lemma NoEntryBefore(ops: seq<Operation>, i: nat)
    requires i <= |ops|
    ensures (forall j :: 0 <= j < i ==> !IsAnchor(ops[j])) <==>
            forall j, s, d :: 0 <= j < i && ops[j] == Entry(s, d) ==> !WellShaped(s, d)
  {
    forall j | 0 <= j < i && IsAnchor(ops[j])
      ensures exists s, d :: ops[j] == Entry(s, d) && WellShaped(s, d)
    {
      AnchorIsEntry(TxRecord(0, "", 0, true, None), ops[j]);
    }
    forall s, d ensures IsAnchor(Entry(s, d)) <==> WellShaped(s, d) {
      EntryIsAnchorIff(s, d);
    }
  }

  /** A record is read as an event exactly when it stands for it. */
  lemma AnchorOfSays(record: TxRecord, event: AnchorEvent)
    ensures AnchorOf(record) == Some(event) <==> Says(record, event)
  {
    if record.successful && record.operations.Some? {
      var ops := record.operations.value;
      FirstAnchorMeaning(record, ops);
      if AnchorOf(record) == Some(event) {
        var i: nat :| i < |ops| && IsAnchor(ops[i]) && event == EventOf(record, ops[i])
                      && forall j :: 0 <= j < i ==> !IsAnchor(ops[j]);
        AnchorIsEntry(record, ops[i]);
        NoEntryBefore(ops, i);
        assert FirstEntryAt(ops, i, event);
      }
      if Says(record, event) {
        var i: nat :| FirstEntryAt(ops, i, event);
        NoEntryBefore(ops, i);
        EntryIsAnchorIff(event.shipmentId, event.dataHash);
        FirstAnchorAt(record, ops, i);
        assert ops[i].name[|ANCHOR_KEY_PREFIX|..] == event.shipmentId;
      }
    }
  }

  lemma {:induction false} FirstAnchorAt(record: TxRecord, ops: seq<Operation>, i: nat)
    requires i < |ops| && IsAnchor(ops[i]) && forall j :: 0 <= j < i ==> !IsAnchor(ops[j])
    ensures FirstAnchor(record, ops) == Some(EventOf(record, ops[i]))
    decreases i
  {
    if i > 0 {
      FirstAnchorAt(record, ops[1..], i - 1);
    }
  }

  method ToAnchorEvent(record: TxRecord) returns (event: Option<AnchorEvent>)
    ensures event == AnchorOf(record)
    ensures event.Some? ==> Says(record, event.value)
    ensures event.None? ==> forall e :: !Says(record, e)
  {
    forall e ensures AnchorOf(record) == Some(e) <==> Says(record, e) {
      AnchorOfSays(record, e);
    }
    if !record.successful || record.operations.None? {
      return None;
    }
    var ops := record.operations.value;
    var k := 0;
    while k < |ops|
      invariant 0 <= k <= |ops|
      invariant FirstAnchor(record, ops) == FirstAnchor(record, ops[k..])
    {
      if IsAnchor(ops[k]) {
        return Some(EventOf(record, ops[k]));
      }
      k := k + 1;
    }
    return None;
  }

  // -------------------------------------------------------------- the history

  function Tokens(history: seq<TxRecord>): seq<nat> {
    seq(|history|, i requires 0 <= i < |history| => history[i].pagingToken)
  }

  ghost predicate Held(history: seq<TxRecord>, token: nat) {
    exists i :: 0 <= i < |history| && history[i].pagingToken == token
  }

  /** What Horizon holds strictly after a cursor, oldest first. */
  function After(history: seq<TxRecord>, cursor: Option<nat>): seq<TxRecord> {
    history[Skipped(Tokens(history), cursor)..]
  }

  /** A way of reading records as events, which carry their token and hash. */
  type Reader = TxRecord -> Option<AnchorEvent>

  ghost predicate Stamps(read: Reader) {
    forall record :: read(record).Some? ==>
      read(record).value.id == record.pagingToken && read(record).value.txHash == record.hash
  }

  function Collect(read: Reader, records: seq<TxRecord>): seq<AnchorEvent>
    decreases |records|
  {
    if records == [] then []
    else (match read(records[0]) case Some(e) => [e] case None => []) + Collect(read, records[1..])
  }

  function Events(records: seq<TxRecord>): seq<AnchorEvent> {
    Collect(AnchorOf, records)
  }

  lemma AnchorsAreStamped()
    ensures Stamps(AnchorOf)
  {
    forall record | AnchorOf(record).Some?
      ensures AnchorOf(record).value.id == record.pagingToken && AnchorOf(record).value.txHash == record.hash
    {
      AnchorOfMeaning(record);
    }
  }

  /** The whole stream from a cursor. */
  function Stream(history: seq<TxRecord>, cursor: Option<nat>): seq<AnchorEvent> {
    Events(After(history, cursor))
  }

  lemma {:induction false} CollectConcat(read: Reader, a: seq<TxRecord>, b: seq<TxRecord>)
    ensures Collect(read, a + b) == Collect(read, a) + Collect(read, b)
    decreases |a|
  {
    if a == [] {
      assert a + b == b;
    } else {
      assert (a + b)[1..] == a[1..] + b;
      CollectConcat(read, a[1..], b);
    }
  }

  lemma EventsConcat(a: seq<TxRecord>, b: seq<TxRecord>)
    ensures Events(a + b) == Events(a) + Events(b)
  {
    CollectConcat(AnchorOf, a, b);
  }

  lemma AfterIsExactlyNewer(history: seq<TxRecord>, cursor: Option<nat>, record: TxRecord)
    requires Ascending(Tokens(history))
    ensures record in After(history, cursor) <==>
            record in history && (cursor.None? || record.pagingToken > cursor.value)
  {
    var n := Skipped(Tokens(history), cursor);
    if i :| 0 <= i < |history| && history[i] == record {
      forall j | 0 <= j < |history| && history[j] == record
        ensures n <= j <==> Beyond(record.pagingToken, cursor)
      {
        SkippedSplits(Tokens(history), cursor, j);
      }
      if n <= i {
        assert After(history, cursor)[i - n] == record;
      }
    }
  }

  /** Moving the cursor to the k-th newer record drops the first k + 1. */
  lemma AfterAdvances(history: seq<TxRecord>, cursor: Option<nat>, k: nat)
    requires Ascending(Tokens(history)) && k < |After(history, cursor)|
    ensures After(history, Some(After(history, cursor)[k].pagingToken)) == After(history, cursor)[k + 1..]
  {
    var n := Skipped(Tokens(history), cursor);
    SkippedAt(Tokens(history), n + k);
  }

  /** Transactions that arrive later are newer than any cursor at or before a
      transaction already held. */
  lemma NewcomersAreNewer(history: seq<TxRecord>, more: seq<TxRecord>, cursor: Option<nat>, i: nat)
    requires Ascending(Tokens(history + more)) && i < |history|
    requires cursor.None? || cursor.value <= history[i].pagingToken
    ensures After(more, cursor) == more
  {
    if more != [] {
      var all := Tokens(history + more);
      assert all[i] == history[i].pagingToken && all[|history|] == more[0].pagingToken;
      assert Beyond(Tokens(more)[0], cursor);
    }
  }

  lemma AfterGrows(history: seq<TxRecord>, more: seq<TxRecord>, cursor: Option<nat>)
    requires Ascending(Tokens(history + more))
    ensures After(history + more, cursor) == After(history, cursor) + After(more, cursor)
  {
    assert Tokens(history + more) == Tokens(history) + Tokens(more);
    SkippedGrows(Tokens(history), Tokens(more), cursor);
    var n := Skipped(Tokens(history), cursor);
    if n < |history| {
      assert Beyond(Tokens(history)[n], cursor);
      NewcomersAreNewer(history, more, cursor, n);
    } else {
      assert After(history, cursor) == [];
    }
  }

  // ------------------------------------------------------------- exact resume

  /** Every event comes from a record, and the events after it from the records after. */
  lemma {:induction false} CollectSplits(read: Reader, records: seq<TxRecord>, k: nat) returns (i: nat)
    requires Stamps(read) && k < |Collect(read, records)|
    ensures i < |records|
    ensures Collect(read, records)[k].id == records[i].pagingToken
    ensures Collect(read, records)[k].txHash == records[i].hash
    ensures Collect(read, records[i + 1..]) == Collect(read, records)[k + 1..]
    decreases |records|
  {
    var rest := records[1..];
    if read(records[0]).Some? && k == 0 {
      i := 0;
    } else {
      var skipped := if read(records[0]).Some? then 1 else 0;
      var m := CollectSplits(read, rest, k - skipped);
      i := m + 1;
      assert rest[m + 1..] == records[i + 1..];
    }
  }

  /** Every event comes from a transaction, whose token and hash it carries. */
  lemma EventOrigin(records: seq<TxRecord>, k: nat) returns (i: nat)
    requires k < |Events(records)|
    ensures i < |records| && records[i].pagingToken == Events(records)[k].id
    ensures records[i].hash == Events(records)[k].txHash
  {
    AnchorsAreStamped();
    i := CollectSplits(AnchorOf, records, k);
  }

  lemma {:induction false} CollectReads(read: Reader, records: seq<TxRecord>, event: AnchorEvent)
    requires event in Collect(read, records)
    ensures exists record <- records :: read(record) == Some(event)
    decreases |records|
  {
    if read(records[0]) != Some(event) {
      CollectReads(read, records[1..], event);
    }
  }

  lemma {:induction false} CollectKeeps(read: Reader, records: seq<TxRecord>, record: TxRecord)
    requires record in records && read(record).Some?
    ensures read(record).value in Collect(read, records)
    decreases |records|
  {
    if records[0] != record {
      CollectKeeps(read, records[1..], record);
    }
  }

  /** The stream holds exactly the events that newer records stand for. */
  lemma StreamSays(history: seq<TxRecord>, cursor: Option<nat>, event: AnchorEvent)
    requires Ascending(Tokens(history))
    ensures event in Stream(history, cursor) <==>
            exists record <- history :: (cursor.None? || record.pagingToken > cursor.value) && Says(record, event)
  {
    var newer := After(history, cursor);
    if event in Stream(history, cursor) {
      CollectReads(AnchorOf, newer, event);
      var record :| record in newer && AnchorOf(record) == Some(event);
      AfterIsExactlyNewer(history, cursor, record);
      AnchorOfSays(record, event);
    }
    if record :| record in history && (cursor.None? || record.pagingToken > cursor.value) && Says(record, event) {
      AfterIsExactlyNewer(history, cursor, record);
      AnchorOfSays(record, event);
      CollectKeeps(AnchorOf, newer, record);
    }
  }

  /** Restarting from the id of any event yields exactly the events after it,
      though the eventless transactions in between are read again. */
  lemma ResumeIsExact(history: seq<TxRecord>, cursor: Option<nat>, k: nat)
    requires Ascending(Tokens(history)) && k < |Stream(history, cursor)|
    ensures Stream(history, Some(Stream(history, cursor)[k].id)) == Stream(history, cursor)[k + 1..]
  {
    AnchorsAreStamped();
    var i := CollectSplits(AnchorOf, After(history, cursor), k);
    AfterAdvances(history, cursor, i);
  }

  lemma {:induction false} CollectAscends(read: Reader, records: seq<TxRecord>, j: nat, k: nat)
    requires Stamps(read) && Ascending(Tokens(records)) && j < k < |Collect(read, records)|
    ensures Collect(read, records)[j].id < Collect(read, records)[k].id
  {
    var i := CollectSplits(read, records, j);
    var rest := records[i + 1..];
    assert Collect(read, records)[j + 1..][k - j - 1] == Collect(read, records)[k];
    var m := CollectSplits(read, rest, k - j - 1);
    assert rest[m] == records[i + 1 + m];
    assert Tokens(records)[i] < Tokens(records)[i + 1 + m];
  }

  lemma AfterStaysAscending(history: seq<TxRecord>, cursor: Option<nat>)
    requires Ascending(Tokens(history))
    ensures Ascending(Tokens(After(history, cursor)))
  {
    var n := Skipped(Tokens(history), cursor);
    assert forall i :: 0 <= i < |history| - n ==> Tokens(After(history, cursor))[i] == Tokens(history)[n + i];
  }

  /** Event ids ascend, so no event is yielded twice. */
  lemma StreamAscends(history: seq<TxRecord>, cursor: Option<nat>)
    requires Ascending(Tokens(history))
    ensures forall j, k :: 0 <= j < k < |Stream(history, cursor)| ==>
      Stream(history, cursor)[j].id < Stream(history, cursor)[k].id
  {
    AfterStaysAscending(history, cursor);
    AnchorsAreStamped();
    forall j, k | 0 <= j < k < |Stream(history, cursor)|
      ensures Stream(history, cursor)[j].id < Stream(history, cursor)[k].id
    {
      CollectAscends(AnchorOf, After(history, cursor), j, k);
    }
  }

  // ----------------------------------------------------------- the paging loop

  class Horizon {
    var history: seq<TxRecord>

    constructor (records: seq<TxRecord>)
      ensures history == records
    {
      history := records;
    }

    method ListTransactions(cursor: Option<nat>, limit: nat) returns (records: seq<TxRecord>)
      ensures |records| <= limit && records <= After(history, cursor)
      ensures |records| < limit ==> records == After(history, cursor)
    {
      var newer := After(history, cursor);
      records := if |newer| < limit then newer else newer[..limit];
    }
  }

  function Flatten(batches: seq<seq<TxRecord>>): seq<TxRecord> {
    if batches == [] then [] else batches[0] + Flatten(batches[1..])
  }

  lemma AscendingPrefix(history: seq<TxRecord>, more: seq<TxRecord>)
    requires Ascending(Tokens(history + more))
    ensures Ascending(Tokens(history))
  {
    assert forall i :: 0 <= i < |history| ==> Tokens(history + more)[i] == Tokens(history)[i];
  }

  lemma SameNewcomers(history: seq<TxRecord>, more: seq<TxRecord>, start: Option<nat>, position: Option<nat>)
    requires Ascending(Tokens(history + more))
    requires position == start || (position.Some? && Held(history, position.value) && Beyond(position.value, start))
    ensures After(more, position) == After(more, start)
  {
    if position != start {
      AscendingPrefix(history, more);
      var i :| 0 <= i < |history| && history[i].pagingToken == position.value;
      NewcomersAreNewer(history, more, start, i);
      NewcomersAreNewer(history, more, position, i);
    }
  }

  /** New transactions leave what was streamed so far a prefix of the stream. */
  lemma StreamGrows(history: seq<TxRecord>, more: seq<TxRecord>, start: Option<nat>, position: Option<nat>,
                    yielded: seq<AnchorEvent>)
    requires Ascending(Tokens(history + more))
    requires position == start || (position.Some? && Held(history, position.value) && Beyond(position.value, start))
    requires yielded + Stream(history, position) == Stream(history, start)
    ensures yielded + Stream(history + more, position) == Stream(history + more, start)
  {
    SameNewcomers(history, more, start, position);
    StreamSplits(history, more, start);
    StreamSplits(history, more, position);
    Regroup(yielded, Stream(history, position), Events(After(more, start)));
  }

  lemma StreamSplits(history: seq<TxRecord>, more: seq<TxRecord>, cursor: Option<nat>)
    requires Ascending(Tokens(history + more))
    ensures Stream(history + more, cursor) == Stream(history, cursor) + Events(After(more, cursor))
  {
    AfterGrows(history, more, cursor);
    EventsConcat(After(history, cursor), After(more, cursor));
  }

  /** The stream from `start` is what was yielded and the stream from `position`. */
  ghost predicate Streaming(
    history: seq<TxRecord>, start: Option<nat>, position: Option<nat>, yielded: seq<AnchorEvent>)
  {
    && (position == start ||
        (position.Some? && Held(history, position.value) && Beyond(position.value, start)))
    && yielded + Stream(history, position) == Stream(history, start)
  }

  lemma ArrivalKeepsStreaming(history: seq<TxRecord>, batches: seq<seq<TxRecord>>, start: Option<nat>,
                              position: Option<nat>, yielded: seq<AnchorEvent>)
    requires batches != [] && Ascending(Tokens(history + Flatten(batches)))
    requires Streaming(history, start, position, yielded)
    ensures history + Flatten(batches) == history + batches[0] + Flatten(batches[1..])
    ensures Streaming(history + batches[0], start, position, yielded)
  {
    AscendingBatch(history, batches);
    StreamGrows(history, batches[0], start, position, yielded);
    if position != start {
      HeldGrows(history, batches[0], position.value);
    }
  }

  lemma PageKeepsStreaming(history: seq<TxRecord>, start: Option<nat>, from: Option<nat>,
                           before: seq<AnchorEvent>, records: seq<TxRecord>)
    requires Ascending(Tokens(history)) && records <= After(history, from)
    requires Streaming(history, start, from, before)
    ensures var position := if records == [] then from else Some(records[|records| - 1].pagingToken);
      && Streaming(history, start, position, before + Events(records))
      && |After(history, position)| == |After(history, from)| - |records|
  {
    PageRead(history, from, records);
    var position := if records == [] then from else Some(records[|records| - 1].pagingToken);
    Regroup(before, Events(records), Stream(history, position));
  }

  method ReadPage(records: seq<TxRecord>, from: Option<nat>, before: seq<AnchorEvent>)
    returns (position: Option<nat>, yielded: seq<AnchorEvent>)
    ensures position == if records == [] then from else Some(records[|records| - 1].pagingToken)
    ensures yielded == before + Events(records)
  {
    position, yielded := from, before;
    for k := 0 to |records|
      invariant position == if k == 0 then from else Some(records[k - 1].pagingToken)
      invariant yielded + Events(records[k..]) == before + Events(records)
    {
      position := Some(records[k].pagingToken);
      var event := ToAnchorEvent(records[k]);
      assert records[k..][1..] == records[k + 1..];
      if event.Some? {
        yielded := yielded + [event.value];
      }
    }
  }

  /** `arrivals[i]` reaches the account before the i-th page is read.  Whatever
      arrives, the stream ends at a short page and has then yielded, once each
      and in order, every anchor event after the cursor up to that moment. */
  method StreamEvents(horizon: Horizon, cursor: Option<nat>, arrivals: seq<seq<TxRecord>>)
    returns (yielded: seq<AnchorEvent>, ghost read: nat)
    requires Ascending(Tokens(horizon.history + Flatten(arrivals)))
    modifies horizon
    ensures read <= |arrivals|
    ensures horizon.history + Flatten(arrivals[read..]) == old(horizon.history) + Flatten(arrivals)
    ensures yielded == Stream(horizon.history, cursor)
  {
    yielded := [];
    read := 0;
    var position := cursor;
    ghost var all := horizon.history + Flatten(arrivals);
    var round := 0;
    while true
      invariant 0 <= read <= |arrivals| && (round < |arrivals| ==> read == round)
      invariant round >= |arrivals| ==> read == |arrivals|
      invariant horizon.history + Flatten(arrivals[read..]) == all && Ascending(Tokens(all))
      invariant Streaming(horizon.history, cursor, position, yielded)
      decreases |arrivals| - read, |After(horizon.history, position)|
    {
      if round < |arrivals| {
        ArrivalKeepsStreaming(horizon.history, arrivals[read..], cursor, position, yielded);
        assert arrivals[read..][1..] == arrivals[read + 1..];
        horizon.history := horizon.history + arrivals[round];
        read := read + 1;
      }
      round := round + 1;
      AscendingPrefix(horizon.history, Flatten(arrivals[read..]));
      var records := horizon.ListTransactions(position, PAGE_SIZE);
      PageKeepsStreaming(horizon.history, cursor, position, yielded, records);
      position, yielded := ReadPage(records, position, yielded);
      if |records| < PAGE_SIZE {
        assert After(horizon.history, position) == [];
        return;
      }
    }
  }

  lemma LastRead(history: seq<TxRecord>, from: Option<nat>, k: nat)
    requires Ascending(Tokens(history)) && k < |After(history, from)|
    ensures Held(history, After(history, from)[k].pagingToken) && Beyond(After(history, from)[k].pagingToken, from)
  {
    var n := Skipped(Tokens(history), from);
    assert history[n + k] == After(history, from)[k];
    SkippedSplits(Tokens(history), from, n + k);
  }

  /** What remains after the last record of a page. */
  lemma PageRead(history: seq<TxRecord>, from: Option<nat>, records: seq<TxRecord>)
    requires Ascending(Tokens(history)) && records <= After(history, from)
    ensures var position := if records == [] then from else Some(records[|records| - 1].pagingToken);
      && After(history, from) == records + After(history, position)
      && Stream(history, from) == Events(records) + Stream(history, position)
      && (records != [] ==> Held(history, position.value) && Beyond(position.value, from))
  {
    if records != [] {
      var k := |records| - 1;
      AfterAdvances(history, from, k);
      LastRead(history, from, k);
      var rest := After(history, from)[k + 1..];
      assert After(history, from) == records + rest;
      EventsConcat(records, rest);
    }
  }

  lemma HeldGrows(history: seq<TxRecord>, more: seq<TxRecord>, token: nat)
    requires Held(history, token)
    ensures Held(history + more, token)
  {
    var i :| 0 <= i < |history| && history[i].pagingToken == token;
    assert (history + more)[i] == history[i];
  }

  lemma AscendingBatch(history: seq<TxRecord>, batches: seq<seq<TxRecord>>)
    requires batches != [] && Ascending(Tokens(history + Flatten(batches)))
    ensures history + Flatten(batches) == history + batches[0] + Flatten(batches[1..])
    ensures Ascending(Tokens(history + batches[0]))
  {
    assert history + Flatten(batches) == history + batches[0] + Flatten(batches[1..]);
    AscendingPrefix(history + batches[0], Flatten(batches[1..]));
  }
}
