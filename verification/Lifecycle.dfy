/**
  Shipment status changes: the transition table of
  src/shared/constants/shipmentStateMachine.ts and the single and bulk updates
  of src/modules/shipments/shipments.service.ts.
 */
module Lifecycle {
  import opened Common

  datatype Status =
    | CREATED
    | PICKUP_CONFIRMED
    | IN_TRANSIT
    | CUSTOMS_CLEARED
    | OUT_FOR_DELIVERY
    | DELIVERED
    | SETTLEMENT_INITIATED
    | SETTLEMENT_COMPLETED
    | CANCELLED

  function AllowedTransitions(from: Status): seq<Status> {
    match from
    case CREATED => [PICKUP_CONFIRMED, IN_TRANSIT, CANCELLED]
    case PICKUP_CONFIRMED => [IN_TRANSIT, CANCELLED]
    case IN_TRANSIT => [CUSTOMS_CLEARED, OUT_FOR_DELIVERY, DELIVERED, CANCELLED]
    case CUSTOMS_CLEARED => [OUT_FOR_DELIVERY, DELIVERED, CANCELLED]
    case OUT_FOR_DELIVERY => [DELIVERED, CANCELLED]
    case DELIVERED => [SETTLEMENT_INITIATED]
    case SETTLEMENT_INITIATED => [SETTLEMENT_COMPLETED]
    case SETTLEMENT_COMPLETED => []
    case CANCELLED => []
  }

  predicate Allowed(from: Status, to: Status) {
    to in AllowedTransitions(from)
  }

  /** The statuses of a shipment that runs its course. */
  const COURSE: seq<Status> := [CREATED, PICKUP_CONFIRMED, IN_TRANSIT, CUSTOMS_CLEARED, OUT_FOR_DELIVERY, DELIVERED,
                                SETTLEMENT_INITIATED, SETTLEMENT_COMPLETED]

  /** Statuses that may not be jumped over. */
  const CHECKPOINTS: set<Status> := {IN_TRANSIT, DELIVERED, SETTLEMENT_INITIATED}

  predicate Jumps(i: nat, j: nat)
    requires i < 8 && j < 8
  {
    exists k: nat :: k < 8 && i < k < j && COURSE[k] in CHECKPOINTS
  }

  /** The law of the table: forward along the course without jumping over a checkpoint, to
      cancellation from anywhere before delivery, and nowhere from there. */
  lemma TransitionLaw(i: nat, j: nat)
    requires i < 8 && j < 8
    ensures Allowed(COURSE[i], COURSE[j]) <==> i < j && !Jumps(i, j)
    ensures Allowed(COURSE[i], CANCELLED) <==> i < 5
    ensures !Allowed(CANCELLED, COURSE[j]) && !Allowed(CANCELLED, CANCELLED)
  {
    JumpsIff(i, j);
    CourseAt(i);
    CourseAt(j);
  }

  lemma CourseAt(i: nat)
    requires i < 8
    ensures COURSE[i] == match i
                         case 0 => CREATED
                         case 1 => PICKUP_CONFIRMED
                         case 2 => IN_TRANSIT
                         case 3 => CUSTOMS_CLEARED
                         case 4 => OUT_FOR_DELIVERY
                         case 5 => DELIVERED
                         case 6 => SETTLEMENT_INITIATED
                         case _ => SETTLEMENT_COMPLETED
  {
  }

  lemma JumpsIff(i: nat, j: nat)
    requires i < 8 && j < 8
    ensures Jumps(i, j) <==> i < 2 < j || i < 5 < j || i < 6 < j
  {
    assert COURSE[2] in CHECKPOINTS && COURSE[5] in CHECKPOINTS && COURSE[6] in CHECKPOINTS;
    if k: nat :| k < 8 && i < k < j && COURSE[k] in CHECKPOINTS {
      CourseAt(k);
    }
  }

  /** Every status is on the course, once, or is the cancellation. */
  lemma CourseCovers(status: Status)
    ensures status == CANCELLED <==> status !in COURSE
    ensures forall i, j :: 0 <= i < j < 8 ==> COURSE[i] != COURSE[j]
  {
    assert COURSE[0] == CREATED && COURSE[1] == PICKUP_CONFIRMED && COURSE[2] == IN_TRANSIT;
    assert COURSE[3] == CUSTOMS_CLEARED && COURSE[4] == OUT_FOR_DELIVERY && COURSE[5] == DELIVERED;
    assert COURSE[6] == SETTLEMENT_INITIATED && COURSE[7] == SETTLEMENT_COMPLETED;
  }

  type Id = string

  /** `milestones` holds the milestone names in order. */
  datatype Shipment = Shipment(enterpriseId: string, logisticsId: string, status: Status, milestones: seq<Status>)

  /** `paid` names the shipments that have a payment; `releases` logs the escrow
      releases asked of the chain. */
  datatype Store = Store(shipments: map<Id, Shipment>, paid: set<Id>, releases: seq<Id>)

  const EMPTY: Store := Store(map[], {}, [])

  function Advance(shipment: Shipment, status: Status): Shipment {
    shipment.(status := status, milestones := shipment.milestones + [status])
  }

  /** The document write: new status and its milestone. */
  function Push(s: Store, id: Id, status: Status): Store
    requires id in s.shipments
  {
    s.(shipments := s.shipments[id := Advance(s.shipments[id], status)])
  }

  /** The escrow release asked for on delivery of a shipment with a payment. */
  function Release(s: Store, id: Id, status: Status): Store {
    s.(releases := s.releases + if status == DELIVERED && id in s.paid then [id] else [])
  }

  function Write(s: Store, id: Id, status: Status): Store
    requires id in s.shipments
  {
    Release(Push(s, id, status), id, status)
  }

  /** How the outside world treats one update that passed the checks: all is
      fine; the payment lookup throws, which is swallowed and skips the release;
      the document is gone; its write throws; the cache call after the write
      throws, before the release; or a notification after the release throws. */
  datatype Fate = Fine | LookupThrows | Vanished | WriteThrows | CacheThrows | NotifyThrows

  predicate Writes(fate: Fate) {
    !fate.Vanished? && !fate.WriteThrows?
  }

  /** The release is asked for, if the update is one that asks for it. */
  predicate Asks(fate: Fate) {
    fate.Fine? || fate.NotifyThrows?
  }

  predicate Succeeds(fate: Fate) {
    fate.Fine? || fate.LookupThrows?
  }

  function Written(s: Store, id: Id, status: Status, fate: Fate): Store
    requires id in s.shipments
  {
    if Asks(fate) then Write(s, id, status)
    else if Writes(fate) then Push(s, id, status)
    else s
  }

  // ------------------------------------------------------------ single update

  datatype Reply = Missing | Unchanged | InvalidTransition | Changed | Threw

  function UpdateOne(s: Store, id: Id, status: Status, fate: Fate): Store {
    if id in s.shipments && Allowed(s.shipments[id].status, status) then Written(s, id, status, fate) else s
  }

  // -------------------------------------------------------------- bulk update

  datatype Reason = NOT_FOUND | WRONG_ORG | INVALID_TRANSITION | UPDATE_FAILED

  datatype Failure = Failure(id: Id, reason: Reason)

  datatype BulkResult = BulkResult(store: Store, updated: nat, failed: seq<Failure>)

  function Check(found: map<Id, Shipment>, id: Id, status: Status, organization: string): Option<Reason> {
    if id !in found then Some(NOT_FOUND)
    else if found[id].enterpriseId != organization && found[id].logisticsId != organization then Some(WRONG_ORG)
    else if !Allowed(found[id].status, status) then Some(INVALID_TRANSITION)
    else None
  }

  /** Every id is judged by the documents fetched before the loop. */
  function BulkStep(
    r: BulkResult, found: map<Id, Shipment>, id: Id, status: Status, organization: string, fate: Fate): BulkResult
  {
    match Check(found, id, status, organization)
    case Some(reason) => r.(failed := r.failed + [Failure(id, reason)])
    case None =>
      if id !in r.store.shipments || fate.Vanished? then r.(failed := r.failed + [Failure(id, NOT_FOUND)])
      else
        var store := Written(r.store, id, status, fate);
        if Succeeds(fate) then BulkResult(store, r.updated + 1, r.failed)
        else BulkResult(store, r.updated, r.failed + [Failure(id, UPDATE_FAILED)])
  }

  function Bulk(s: Store, ids: seq<Id>, status: Status, organization: string, fates: seq<Fate>): BulkResult
    requires |fates| == |ids|
  {
    if ids == [] then BulkResult(s, 0, [])
    else
      var n := |ids| - 1;
      BulkStep(Bulk(s, ids[..n], status, organization, fates[..n]), s.shipments, ids[n], status, organization, fates[n])
  }

  // ------------------------------------------------------- accounting of ids

  function FailedIds(failed: seq<Failure>): seq<Id> {
    seq(|failed|, i requires 0 <= i < |failed| => failed[i].id)
  }

  /** `part` is `whole` with some entries left out. */
  predicate Subsequence(part: seq<Id>, whole: seq<Id>) {
    if part == [] then true
    else if whole == [] then false
    else if part[|part| - 1] == whole[|whole| - 1] && Subsequence(part[..|part| - 1], whole[..|whole| - 1]) then true
    else Subsequence(part, whole[..|whole| - 1])
  }

  lemma SubsequenceSnoc(part: seq<Id>, whole: seq<Id>, id: Id)
    requires Subsequence(part, whole)
    ensures Subsequence(part, whole + [id]) && Subsequence(part + [id], whole + [id])
  {
    assert (whole + [id])[..|whole|] == whole && (part + [id])[..|part|] == part;
  }

  lemma BulkStepAccounts(
    r: BulkResult, found: map<Id, Shipment>, id: Id, status: Status, organization: string, fate: Fate)
    ensures var t := BulkStep(r, found, id, status, organization, fate);
      || (t.updated == r.updated + 1 && t.failed == r.failed)
      || (t.updated == r.updated && |t.failed| == |r.failed| + 1 && FailedIds(t.failed) == FailedIds(r.failed) + [id])
  {
  }

  /** A turn adds to the report what it would report on its own. */
  lemma BulkStepAdds(
    r: BulkResult, found: map<Id, Shipment>, id: Id, status: Status, organization: string, fate: Fate)
    ensures var alone := BulkStep(BulkResult(r.store, 0, []), found, id, status, organization, fate);
      BulkStep(r, found, id, status, organization, fate) ==
      BulkResult(alone.store, r.updated + alone.updated, r.failed + alone.failed)
    ensures BulkStep(BulkResult(r.store, 0, []), found, id, status, organization, fate).updated <= 1
  {
    assert r.failed + [] == r.failed;
  }

  predicate Accounted(r: BulkResult, ids: seq<Id>) {
    r.updated + |r.failed| == |ids| && Subsequence(FailedIds(r.failed), ids)
  }

  lemma AccountedSnoc(r: BulkResult, t: BulkResult, ids: seq<Id>, id: Id)
    requires Accounted(r, ids)
    requires
      || (t.updated == r.updated + 1 && t.failed == r.failed)
      || (t.updated == r.updated && |t.failed| == |r.failed| + 1 && FailedIds(t.failed) == FailedIds(r.failed) + [id])
    ensures Accounted(t, ids + [id])
  {
    SubsequenceSnoc(FailedIds(r.failed), ids, id);
  }

  /** Every id is accounted for once, and failures keep the order of the input. */
  lemma {:induction false} BulkAccountsForAll(
    s: Store, ids: seq<Id>, status: Status, organization: string, fates: seq<Fate>)
    requires |fates| == |ids|
    ensures Accounted(Bulk(s, ids, status, organization, fates), ids)
  {
    if ids != [] {
      var n := |ids| - 1;
      var before := Bulk(s, ids[..n], status, organization, fates[..n]);
      BulkAccountsForAll(s, ids[..n], status, organization, fates[..n]);
      BulkStepAccounts(before, s.shipments, ids[n], status, organization, fates[n]);
      AccountedSnoc(before, Bulk(s, ids, status, organization, fates), ids[..n], ids[n]);
      assert ids == ids[..n] + [ids[n]];
    }
  }

  /** Why one occurrence of an id is reported, if it is. */
  function ReasonFor(
    found: map<Id, Shipment>, id: Id, status: Status, organization: string, fate: Fate): Option<Reason>
  {
    if Check(found, id, status, organization).Some? then Check(found, id, status, organization)
    else if fate.Vanished? then Some(NOT_FOUND)
    else if Succeeds(fate) then None
    else Some(UPDATE_FAILED)
  }

  /** The reasons, case by case. */
  lemma ReasonsAre(found: map<Id, Shipment>, id: Id, status: Status, organization: string, fate: Fate)
    ensures var reason := ReasonFor(found, id, status, organization, fate);
      var ours := id in found && (found[id].enterpriseId == organization || found[id].logisticsId == organization);
      var listed := ours && status in AllowedTransitions(found[id].status);
      && (reason == Some(WRONG_ORG) <==> id in found && !ours)
      && (reason == Some(INVALID_TRANSITION) <==> ours && !listed)
      && (reason == Some(UPDATE_FAILED) <==> listed && fate in {WriteThrows, CacheThrows, NotifyThrows})
      && (reason == Some(NOT_FOUND) <==> id !in found || (listed && fate == Vanished))
      && (reason == None <==> listed && fate in {Fine, LookupThrows})
  {
  }

  predicate ReportedAt(
    found: map<Id, Shipment>, ids: seq<Id>, status: Status, organization: string, fates: seq<Fate>,
    j: nat, failure: Failure)
    requires |fates| == |ids|
  {
    && j < |ids|
    && ids[j] == failure.id
    && ReasonFor(found, ids[j], status, organization, fates[j]) == Some(failure.reason)
  }

  lemma BulkStepReports(
    r: BulkResult, found: map<Id, Shipment>, id: Id, status: Status, organization: string, fate: Fate)
    requires id in found ==> id in r.store.shipments
    ensures BulkStep(r, found, id, status, organization, fate).failed ==
            match ReasonFor(found, id, status, organization, fate)
            case None => r.failed
            case Some(reason) => r.failed + [Failure(id, reason)]
  {
  }

  /** The report holds exactly the failures of the single occurrences. */
  lemma {:induction false} BulkReports(
    s: Store, ids: seq<Id>, status: Status, organization: string, fates: seq<Fate>, failure: Failure)
    requires |fates| == |ids|
    ensures failure in Bulk(s, ids, status, organization, fates).failed
            <==> exists j :: ReportedAt(s.shipments, ids, status, organization, fates, j, failure)
  {
    if ids != [] {
      var n := |ids| - 1;
      BulkReports(s, ids[..n], status, organization, fates[..n], failure);
      SameKeys(s, ids[..n], status, organization, fates[..n]);
      BulkStepReports(Bulk(s, ids[..n], status, organization, fates[..n]), s.shipments, ids[n], status, organization,
                      fates[n]);
      ReportedSnoc(s.shipments, ids, status, organization, fates, failure);
    }
  }

  lemma ReportedSnoc(
    found: map<Id, Shipment>, ids: seq<Id>, status: Status, organization: string, fates: seq<Fate>, failure: Failure)
    requires |fates| == |ids| > 0
    ensures var n := |ids| - 1;
      (exists j :: ReportedAt(found, ids, status, organization, fates, j, failure)) <==>
      (exists j :: ReportedAt(found, ids[..n], status, organization, fates[..n], j, failure))
      || ReportedAt(found, ids, status, organization, fates, n, failure)
  {
    var n := |ids| - 1;
    if j: nat :| ReportedAt(found, ids[..n], status, organization, fates[..n], j, failure) {
      assert ReportedAt(found, ids, status, organization, fates, j, failure);
    }
    if j: nat :| ReportedAt(found, ids, status, organization, fates, j, failure) && j != n {
      assert ReportedAt(found, ids[..n], status, organization, fates[..n], j, failure);
    }
  }

  // ---------------------------------------------- what a bulk update does to one

  predicate Accepted(found: map<Id, Shipment>, id: Id, status: Status, organization: string) {
    Check(found, id, status, organization).None?
  }

  /** Accepted are the shipments of the organization for which the table lists the step. */
  lemma AcceptedIff(found: map<Id, Shipment>, id: Id, status: Status, organization: string)
    ensures Accepted(found, id, status, organization) <==>
      && id in found && status in AllowedTransitions(found[id].status)
      && (found[id].enterpriseId == organization || found[id].logisticsId == organization)
  {
  }

  /** How often an id occurs in the list. */
  function Count(ids: seq<Id>, id: Id): nat {
    if ids == [] then 0
    else Count(ids[..|ids| - 1], id) + if ids[|ids| - 1] == id then 1 else 0
  }

  /** How many occurrences of an id are written, and how many get to ask for a release. */
  function CountWrites(ids: seq<Id>, fates: seq<Fate>, id: Id): nat
    requires |fates| == |ids|
  {
    if ids == [] then 0
    else
      var n := |ids| - 1;
      CountWrites(ids[..n], fates[..n], id) + if ids[n] == id && Writes(fates[n]) then 1 else 0
  }

  function CountAsks(ids: seq<Id>, fates: seq<Fate>, id: Id): nat
    requires |fates| == |ids|
  {
    if ids == [] then 0
    else
      var n := |ids| - 1;
      CountAsks(ids[..n], fates[..n], id) + if ids[n] == id && Asks(fates[n]) then 1 else 0
  }

  lemma {:induction false} CountsDescend(ids: seq<Id>, fates: seq<Fate>, id: Id)
    requires |fates| == |ids|
    ensures CountAsks(ids, fates, id) <= CountWrites(ids, fates, id) <= Count(ids, id)
  {
    if ids != [] {
      CountsDescend(ids[..|ids| - 1], fates[..|ids| - 1], id);
    }
  }

  function AllFine(n: nat): seq<Fate> {
    seq(n, _ => Fine)
  }

  lemma {:induction false} FineCounts(ids: seq<Id>, id: Id)
    ensures CountAsks(ids, AllFine(|ids|), id) == CountWrites(ids, AllFine(|ids|), id) == Count(ids, id)
  {
    if ids != [] {
      FineCounts(ids[..|ids| - 1], id);
      assert AllFine(|ids|)[..|ids| - 1] == AllFine(|ids| - 1);
    }
  }

  function Repeat(status: Status, n: nat): seq<Status> {
    seq(n, _ => status)
  }

  function AdvanceBy(shipment: Shipment, status: Status, n: nat): Shipment {
    if n == 0 then shipment
    else shipment.(status := status, milestones := shipment.milestones + Repeat(status, n))
  }

  lemma AdvanceAgain(shipment: Shipment, status: Status, n: nat)
    ensures Advance(AdvanceBy(shipment, status, n), status) == AdvanceBy(shipment, status, n + 1)
  {
    assert shipment.milestones + Repeat(status, n) + [status] == shipment.milestones + Repeat(status, n + 1);
    assert Repeat(status, 1) == [status];
  }

  /** One turn of the bulk loop, seen by one shipment. */
  lemma BulkStepPushes(
    r: BulkResult, found: map<Id, Shipment>, other: Id, status: Status, organization: string, fate: Fate, id: Id)
    requires id in r.store.shipments
    ensures var t := BulkStep(r, found, other, status, organization, fate).store;
      && id in t.shipments
      && t.shipments[id] == if Accepted(found, id, status, organization) && other == id && Writes(fate)
                            then Advance(r.store.shipments[id], status) else r.store.shipments[id]
  {
  }

  lemma BulkStepKeys(
    r: BulkResult, found: map<Id, Shipment>, id: Id, status: Status, organization: string, fate: Fate)
    ensures var t := BulkStep(r, found, id, status, organization, fate).store;
      t.shipments.Keys == r.store.shipments.Keys && t.paid == r.store.paid
  {
  }

  /** An update adds and removes no shipment and makes no payment. */
  lemma {:induction false} SameKeys(s: Store, ids: seq<Id>, status: Status, organization: string, fates: seq<Fate>)
    requires |fates| == |ids|
    ensures Bulk(s, ids, status, organization, fates).store.shipments.Keys == s.shipments.Keys
    ensures Bulk(s, ids, status, organization, fates).store.paid == s.paid
  {
    if ids != [] {
      var n := |ids| - 1;
      SameKeys(s, ids[..n], status, organization, fates[..n]);
      BulkStepKeys(Bulk(s, ids[..n], status, organization, fates[..n]), s.shipments, ids[n], status, organization,
                   fates[n]);
    }
  }

  /** The bulk loop pushes one milestone per written occurrence of an accepted id,
      and none on any other shipment. */
  lemma {:induction false} BulkPushesEachTime(
    s: Store, ids: seq<Id>, status: Status, organization: string, fates: seq<Fate>, id: Id)
    requires |fates| == |ids| && id in s.shipments
    ensures id in Bulk(s, ids, status, organization, fates).store.shipments
    ensures Bulk(s, ids, status, organization, fates).store.shipments[id] ==
            if Accepted(s.shipments, id, status, organization)
            then AdvanceBy(s.shipments[id], status, CountWrites(ids, fates, id))
            else s.shipments[id]
  {
    if ids != [] {
      var n := |ids| - 1;
      BulkPushesEachTime(s, ids[..n], status, organization, fates[..n], id);
      BulkStepPushes(Bulk(s, ids[..n], status, organization, fates[..n]), s.shipments, ids[n], status, organization,
                     fates[n], id);
      AdvanceAgain(s.shipments[id], status, CountWrites(ids[..n], fates[..n], id));
    }
  }

  lemma {:induction false} CountSnoc(ids: seq<Id>, other: Id, id: Id)
    ensures Count(ids + [other], id) == Count(ids, id) + if other == id then 1 else 0
  {
    assert (ids + [other])[..|ids|] == ids;
  }

  lemma {:induction false} ReleaseCounts(s: Store, other: Id, status: Status, id: Id)
    ensures Count(Release(s, other, status).releases, id) ==
            Count(s.releases, id) + if status == DELIVERED && other in s.paid && other == id then 1 else 0
  {
    if status == DELIVERED && other in s.paid {
      CountSnoc(s.releases, other, id);
    } else {
      assert s.releases + [] == s.releases;
    }
  }

  lemma {:induction false} WrittenCounts(s: Store, other: Id, status: Status, fate: Fate, id: Id)
    requires other in s.shipments
    ensures Count(Written(s, other, status, fate).releases, id) == Count(s.releases, id)
            + if status == DELIVERED && other in s.paid && other == id && Asks(fate) then 1 else 0
  {
    if Asks(fate) {
      ReleaseCounts(Push(s, other, status), other, status, id);
    }
  }

  /** One turn of the bulk loop and the releases asked for one shipment. */
  lemma {:induction false} BulkStepAsks(
    r: BulkResult, found: map<Id, Shipment>, other: Id, status: Status, organization: string, fate: Fate, id: Id)
    requires other in found ==> other in r.store.shipments
    ensures Count(BulkStep(r, found, other, status, organization, fate).store.releases, id) ==
            Count(r.store.releases, id)
            + if status == DELIVERED && id in r.store.paid && Accepted(found, id, status, organization)
                 && other == id && Asks(fate) then 1 else 0
  {
    if Accepted(found, other, status, organization) {
      WrittenCounts(r.store, other, status, fate, id);
    }
  }

  /** ... and on delivery asks for one release per occurrence that gets that far. */
  lemma {:induction false} BulkAsksEachTime(
    s: Store, ids: seq<Id>, status: Status, organization: string, fates: seq<Fate>, id: Id)
    requires |fates| == |ids|
    ensures Count(Bulk(s, ids, status, organization, fates).store.releases, id) ==
            Count(s.releases, id)
            + if status == DELIVERED && id in s.paid && Accepted(s.shipments, id, status, organization)
              then CountAsks(ids, fates, id) else 0
  {
    if ids != [] {
      var n := |ids| - 1;
      BulkAsksEachTime(s, ids[..n], status, organization, fates[..n], id);
      SameKeys(s, ids[..n], status, organization, fates[..n]);
      BulkStepAsks(Bulk(s, ids[..n], status, organization, fates[..n]), s.shipments, ids[n], status, organization,
                   fates[n], id);
    }
  }

  lemma {:induction false} NotListed(ids: seq<Id>, id: Id)
    requires id !in ids
    ensures Count(ids, id) == 0
  {
    if ids != [] {
      NotListed(ids[..|ids| - 1], id);
    }
  }

  /** Shipments that are not listed, or not acceptable, are left alone. */
  lemma BulkSparesOthers(
    s: Store, ids: seq<Id>, status: Status, organization: string, fates: seq<Fate>, id: Id)
    requires |fates| == |ids| && (id !in ids || !Accepted(s.shipments, id, status, organization))
    ensures var t := Bulk(s, ids, status, organization, fates).store;
      && (id in t.shipments <==> id in s.shipments)
      && (id in s.shipments ==> t.shipments[id] == s.shipments[id])
      && Count(t.releases, id) == Count(s.releases, id)
  {
    SameKeys(s, ids, status, organization, fates);
    BulkAsksEachTime(s, ids, status, organization, fates, id);
    if id !in ids {
      NotListed(ids, id);
      CountsDescend(ids, fates, id);
    }
    if id in s.shipments {
      BulkPushesEachTime(s, ids, status, organization, fates, id);
    }
  }

  /** A single update asks for one release exactly when it delivers a shipment that
      has a payment and nothing breaks before the release. */
  lemma ReleasedOnceIff(s: Store, id: Id, status: Status, fate: Fate)
    requires id in s.shipments && Allowed(s.shipments[id].status, status)
    ensures Count(UpdateOne(s, id, status, fate).releases, id) ==
            Count(s.releases, id) + if status == DELIVERED && id in s.paid && Asks(fate) then 1 else 0
  {
    WrittenCounts(s, id, status, fate, id);
  }

  /** A bulk update releases the escrow of a shipment twice or more exactly when it
      delivers it, there is a payment, and two occurrences get that far. */
  lemma BulkReleasesOnceIff(s: Store, ids: seq<Id>, status: Status, organization: string, fates: seq<Fate>, id: Id)
    requires |fates| == |ids| && Count(s.releases, id) == 0
    ensures Count(Bulk(s, ids, status, organization, fates).store.releases, id) <= 1
            <==> (status == DELIVERED && id in s.paid && Accepted(s.shipments, id, status, organization) ==>
                    CountAsks(ids, fates, id) <= 1)
  {
    BulkAsksEachTime(s, ids, status, organization, fates, id);
  }

  /** Whatever happens outside, there is at most one release if and only if the id
      is not acceptable, not paid for, not being delivered, or listed at most once. */
  lemma BulkReleasesOnceForAnyFatesIff(s: Store, ids: seq<Id>, status: Status, organization: string, id: Id)
    requires Count(s.releases, id) == 0
    ensures (forall fates :: |fates| == |ids| ==>
               Count(Bulk(s, ids, status, organization, fates).store.releases, id) <= 1)
            <==> (status == DELIVERED && id in s.paid && Accepted(s.shipments, id, status, organization) ==>
                    Count(ids, id) <= 1)
  {
    forall fates: seq<Fate> | |fates| == |ids|
      ensures CountAsks(ids, fates, id) <= Count(ids, id)
      ensures Count(Bulk(s, ids, status, organization, fates).store.releases, id) <= 1
              <==> (status == DELIVERED && id in s.paid && Accepted(s.shipments, id, status, organization) ==>
                      CountAsks(ids, fates, id) <= 1)
    {
      CountsDescend(ids, fates, id);
      BulkReleasesOnceIff(s, ids, status, organization, fates, id);
    }
    FineCounts(ids, id);
    assert |AllFine(|ids|)| == |ids|;
  }

  // ------------------------------------------- bulk against one-by-one updates

  predicate InOrganization(found: map<Id, Shipment>, id: Id, organization: string) {
    id in found && (found[id].enterpriseId == organization || found[id].logisticsId == organization)
  }

  /** The single update applied to each found id of the organization in turn, under
      the same fates. */
  function OneByOne(s: Store, found: map<Id, Shipment>, ids: seq<Id>, status: Status, organization: string,
                    fates: seq<Fate>): Store
    requires |fates| == |ids|
  {
    if ids == [] then s
    else
      var n := |ids| - 1;
      var before := OneByOne(s, found, ids[..n], status, organization, fates[..n]);
      if InOrganization(found, ids[n], organization) then UpdateOne(before, ids[n], status, fates[n]) else before
  }

  lemma NoSelfTransition(status: Status)
    ensures !Allowed(status, status)
  {
  }

  lemma UpdateOnePushes(s: Store, other: Id, status: Status, fate: Fate, id: Id)
    requires id in s.shipments
    ensures var t := UpdateOne(s, other, status, fate);
      && id in t.shipments
      && t.shipments[id] == if other == id && Allowed(s.shipments[id].status, status) && Writes(fate)
                            then Advance(s.shipments[id], status) else s.shipments[id]
  {
  }

  /** One by one, a second written occurrence finds nothing to do. */
  lemma {:induction false} OneByOnePushesOnce(
    s: Store, ids: seq<Id>, status: Status, organization: string, fates: seq<Fate>, id: Id)
    requires |fates| == |ids| && id in s.shipments
    ensures id in OneByOne(s, s.shipments, ids, status, organization, fates).shipments
    ensures OneByOne(s, s.shipments, ids, status, organization, fates).shipments[id] ==
            if Accepted(s.shipments, id, status, organization) && CountWrites(ids, fates, id) > 0
            then Advance(s.shipments[id], status) else s.shipments[id]
  {
    if ids != [] {
      var n := |ids| - 1;
      OneByOnePushesOnce(s, ids[..n], status, organization, fates[..n], id);
      UpdateOnePushes(OneByOne(s, s.shipments, ids[..n], status, organization, fates[..n]), ids[n], status, fates[n],
                      id);
      NoSelfTransition(status);
    }
  }

  predicate WrittenOnce(
    found: map<Id, Shipment>, ids: seq<Id>, status: Status, organization: string, fates: seq<Fate>, id: Id)
    requires |fates| == |ids|
  {
    Accepted(found, id, status, organization) ==> CountWrites(ids, fates, id) <= 1
  }

  lemma BulkStepIsUpdate(s: Store, t: BulkResult, id: Id, status: Status, organization: string, fate: Fate, n: nat)
    requires id in s.shipments ==>
               id in t.store.shipments &&
               t.store.shipments[id] ==
               (if Accepted(s.shipments, id, status, organization) && n > 0 then Advance(s.shipments[id], status)
                else s.shipments[id])
    requires Accepted(s.shipments, id, status, organization) && Writes(fate) ==> n == 0
    ensures BulkStep(t, s.shipments, id, status, organization, fate).store ==
            if InOrganization(s.shipments, id, organization) then UpdateOne(t.store, id, status, fate) else t.store
  {
    NoSelfTransition(status);
  }

  lemma {:induction false} BulkIsOneByOne(
    s: Store, ids: seq<Id>, status: Status, organization: string, fates: seq<Fate>)
    requires |fates| == |ids|
    requires forall id :: WrittenOnce(s.shipments, ids, status, organization, fates, id)
    ensures Bulk(s, ids, status, organization, fates).store ==
            OneByOne(s, s.shipments, ids, status, organization, fates)
  {
    if ids != [] {
      var n := |ids| - 1;
      var id := ids[n];
      forall other
        ensures WrittenOnce(s.shipments, ids[..n], status, organization, fates[..n], other)
      {
        assert WrittenOnce(s.shipments, ids, status, organization, fates, other);
      }
      BulkIsOneByOne(s, ids[..n], status, organization, fates[..n]);
      assert WrittenOnce(s.shipments, ids, status, organization, fates, id);
      if id in s.shipments {
        OneByOnePushesOnce(s, ids[..n], status, organization, fates[..n], id);
      }
      BulkStepIsUpdate(s, Bulk(s, ids[..n], status, organization, fates[..n]), id, status, organization, fates[n],
                       CountWrites(ids[..n], fates[..n], id));
    }
  }

  lemma AdvanceOnceIff(shipment: Shipment, status: Status, n: nat)
    ensures AdvanceBy(shipment, status, n) == (if n > 0 then Advance(shipment, status) else shipment) <==> n <= 1
  {
    AdvanceAgain(shipment, status, 0);
    assert |AdvanceBy(shipment, status, n).milestones| == |shipment.milestones| + n;
  }

  /** Under any fates the two ways leave the same store, releases included, exactly
      when no accepted id is written twice. */
  lemma BulkIsOneByOneIff(s: Store, ids: seq<Id>, status: Status, organization: string, fates: seq<Fate>)
    requires |fates| == |ids|
    ensures Bulk(s, ids, status, organization, fates).store ==
            OneByOne(s, s.shipments, ids, status, organization, fates)
            <==> forall id :: WrittenOnce(s.shipments, ids, status, organization, fates, id)
  {
    var bulk := Bulk(s, ids, status, organization, fates).store;
    if bulk == OneByOne(s, s.shipments, ids, status, organization, fates) {
      forall id
        ensures WrittenOnce(s.shipments, ids, status, organization, fates, id)
      {
        if Accepted(s.shipments, id, status, organization) {
          BulkPushesEachTime(s, ids, status, organization, fates, id);
          OneByOnePushesOnce(s, ids, status, organization, fates, id);
          AdvanceOnceIff(s.shipments[id], status, CountWrites(ids, fates, id));
        }
      }
    }
    if forall id :: WrittenOnce(s.shipments, ids, status, organization, fates, id) {
      BulkIsOneByOne(s, ids, status, organization, fates);
    }
  }

  /** A shipment written at most once moves by at most one allowed step, and asks for a
      release only on entering DELIVERED with a payment. */
  lemma BulkMoves(s: Store, ids: seq<Id>, status: Status, organization: string, fates: seq<Fate>, id: Id)
    requires |fates| == |ids| && id in s.shipments && WrittenOnce(s.shipments, ids, status, organization, fates, id)
    ensures var t := Bulk(s, ids, status, organization, fates).store;
      && id in t.shipments
      && (t.shipments[id] == s.shipments[id] ||
          (Allowed(s.shipments[id].status, status) && t.shipments[id] == Advance(s.shipments[id], status)))
      && (Count(t.releases, id) == Count(s.releases, id) ||
          (Count(t.releases, id) == Count(s.releases, id) + 1 && status == DELIVERED && id in s.paid
           && t.shipments[id] == Advance(s.shipments[id], status)))
  {
    BulkPushesEachTime(s, ids, status, organization, fates, id);
    BulkAsksEachTime(s, ids, status, organization, fates, id);
    CountsDescend(ids, fates, id);
    AdvanceOnceIff(s.shipments[id], status, CountWrites(ids, fates, id));
  }

  predicate ListedOnce(found: map<Id, Shipment>, ids: seq<Id>, status: Status, organization: string, id: Id) {
    Accepted(found, id, status, organization) ==> Count(ids, id) <= 1
  }

  /** What a caller can tell from the documents before the call: the two ways agree
      whatever happens outside, exactly when no accepted id is listed twice. */
  lemma BulkIsOneByOneForAnyFatesIff(s: Store, ids: seq<Id>, status: Status, organization: string)
    ensures (forall fates :: |fates| == |ids| ==>
               Bulk(s, ids, status, organization, fates).store ==
               OneByOne(s, s.shipments, ids, status, organization, fates))
            <==> forall id :: ListedOnce(s.shipments, ids, status, organization, id)
  {
    if forall id :: ListedOnce(s.shipments, ids, status, organization, id) {
      forall fates: seq<Fate> | |fates| == |ids|
        ensures Bulk(s, ids, status, organization, fates).store ==
                OneByOne(s, s.shipments, ids, status, organization, fates)
      {
        forall id
          ensures WrittenOnce(s.shipments, ids, status, organization, fates, id)
        {
          assert ListedOnce(s.shipments, ids, status, organization, id);
          CountsDescend(ids, fates, id);
        }
        BulkIsOneByOne(s, ids, status, organization, fates);
      }
    }
    var fine := AllFine(|ids|);
    if Bulk(s, ids, status, organization, fine).store == OneByOne(s, s.shipments, ids, status, organization, fine) {
      BulkIsOneByOneIff(s, ids, status, organization, fine);
      forall id
        ensures ListedOnce(s.shipments, ids, status, organization, id)
      {
        assert WrittenOnce(s.shipments, ids, status, organization, fine, id);
        FineCounts(ids, id);
      }
    }
  }

  // ------------------------------------------------------- paths of statuses

  function Last(milestones: seq<Status>): Status {
    if milestones == [] then CREATED else milestones[|milestones| - 1]
  }

  /** The milestones are a walk through the transition table from CREATED. */
  predicate Path(milestones: seq<Status>) {
    milestones != [] ==>
      var before := milestones[..|milestones| - 1];
      Path(before) && Allowed(Last(before), Last(milestones))
  }

  /** How far along a status is; DELIVERED and CANCELLED are alternatives. */
  function Rank(status: Status): nat {
    match status
    case CREATED => 0
    case PICKUP_CONFIRMED => 1
    case IN_TRANSIT => 2
    case CUSTOMS_CLEARED => 3
    case OUT_FOR_DELIVERY => 4
    case DELIVERED => 5
    case CANCELLED => 5
    case SETTLEMENT_INITIATED => 6
    case SETTLEMENT_COMPLETED => 7
  }

  lemma TransitionsClimb(from: Status, to: Status)
    requires Allowed(from, to)
    ensures Rank(from) < Rank(to)
  {
  }

  lemma {:induction false} PathClimbs(milestones: seq<Status>)
    requires Path(milestones)
    ensures |milestones| <= Rank(Last(milestones))
    ensures forall i :: 0 <= i < |milestones| ==> Rank(milestones[i]) <= Rank(Last(milestones))
    ensures forall i, j :: 0 <= i < j < |milestones| ==> Rank(milestones[i]) < Rank(milestones[j])
  {
    if milestones != [] {
      var before := milestones[..|milestones| - 1];
      PathClimbs(before);
      TransitionsClimb(Last(before), Last(milestones));
      assert forall i :: 0 <= i < |before| ==> milestones[i] == before[i];
    }
  }

  /** Everything past transit, short of cancellation, comes after transit. */
  lemma {:induction false} PastTransit(milestones: seq<Status>, i: nat)
    requires Path(milestones) && i < |milestones|
    requires Rank(milestones[i]) > 2 && milestones[i] != CANCELLED
    ensures IN_TRANSIT in milestones[..i]
  {
    var before := milestones[..|milestones| - 1];
    if i < |before| {
      PastTransit(before, i);
      assert before[..i] == milestones[..i];
    } else {
      assert Last(before) == IN_TRANSIT || Last(before) == CUSTOMS_CLEARED || Last(before) == OUT_FOR_DELIVERY
             || Last(before) == DELIVERED || Last(before) == SETTLEMENT_INITIATED;
      if Last(before) != IN_TRANSIT {
        PastTransit(before, |before| - 1);
      }
    }
  }

  /** What a path looks like: at most seven entries, none twice, delivery only
      after transit, and never both delivered and cancelled. */
  lemma PathShape(milestones: seq<Status>)
    requires Path(milestones)
    ensures |milestones| <= 7
    ensures forall i, j :: 0 <= i < j < |milestones| ==> milestones[i] != milestones[j]
    ensures CREATED !in milestones
    ensures forall i :: 0 <= i < |milestones| && milestones[i] == DELIVERED ==> IN_TRANSIT in milestones[..i]
    ensures !(DELIVERED in milestones && CANCELLED in milestones)
  {
    PathClimbs(milestones);
    forall i | 0 <= i < |milestones| && milestones[i] == DELIVERED
      ensures IN_TRANSIT in milestones[..i]
    {
      PastTransit(milestones, i);
    }
    if milestones != [] {
      NeverCreatedAgain(milestones);
    }
  }

  lemma {:induction false} NeverCreatedAgain(milestones: seq<Status>)
    requires Path(milestones)
    ensures CREATED !in milestones
  {
    if milestones != [] {
      NeverCreatedAgain(milestones[..|milestones| - 1]);
    }
  }

  lemma {:induction false} PathSnoc(milestones: seq<Status>, status: Status)
    ensures Path(milestones + [status]) <==> Path(milestones) && Allowed(Last(milestones), status)
  {
    assert (milestones + [status])[..|milestones|] == milestones;
  }

  /** Repeating a status leaves the lawful paths. */
  lemma {:induction false} RepeatIsNoPath(was: seq<Status>, status: Status, n: nat)
    requires Allowed(Last(was), status)
    ensures Path(was + Repeat(status, n)) <==> Path(was) && n <= 1
  {
    if n == 0 {
      assert was + Repeat(status, n) == was;
    } else {
      var before := was + Repeat(status, n - 1);
      assert was + Repeat(status, n) == before + [status];
      RepeatIsNoPath(was, status, n - 1);
      PathSnoc(before, status);
      if n == 1 {
        assert before == was;
      } else {
        assert Last(before) == status;
        NoSelfTransition(status);
      }
    }
  }

  lemma AdvanceKeepsPathIff(shipment: Shipment, status: Status, n: nat)
    requires shipment.status == Last(shipment.milestones) && Allowed(shipment.status, status)
    ensures var after := AdvanceBy(shipment, status, n);
      after.status == Last(after.milestones) && (Path(after.milestones) <==> Path(shipment.milestones) && n <= 1)
  {
    RepeatIsNoPath(shipment.milestones, status, n);
  }

  /** A bulk update leaves a lawful history lawful exactly when the id is not
      acceptable or written at most once. */
  lemma BulkKeepsPathIff(s: Store, ids: seq<Id>, status: Status, organization: string, fates: seq<Fate>, id: Id)
    requires |fates| == |ids| && id in s.shipments
    requires s.shipments[id].status == Last(s.shipments[id].milestones)
    ensures id in Bulk(s, ids, status, organization, fates).store.shipments
    ensures var after := Bulk(s, ids, status, organization, fates).store.shipments[id];
      && after.status == Last(after.milestones)
      && (Path(after.milestones) <==>
            Path(s.shipments[id].milestones) && WrittenOnce(s.shipments, ids, status, organization, fates, id))
  {
    BulkPushesEachTime(s, ids, status, organization, fates, id);
    if Accepted(s.shipments, id, status, organization) {
      AdvanceKeepsPathIff(s.shipments[id], status, CountWrites(ids, fates, id));
    }
  }

  // --------------------------------------------------------------------- runs

  datatype Action =
    | Create(id: Id, enterpriseId: string, logisticsId: string)
    | Pay(id: Id)
    | Single(id: Id, status: Status, fate: Fate)
    | Many(ids: seq<Id>, status: Status, organization: string, fates: seq<Fate>)

  /** New shipments get new ids; any list of ids goes. */
  predicate Proper(s: Store, a: Action) {
    match a
    case Create(id, _, _) => id !in s.shipments
    case Pay(_) => true
    case Single(_, _, _) => true
    case Many(ids, _, _, fates) => |fates| == |ids|
  }

  function Step(s: Store, a: Action): Store
    requires Proper(s, a)
  {
    match a
    case Create(id, enterpriseId, logisticsId) =>
      s.(shipments := s.shipments[id := Shipment(enterpriseId, logisticsId, CREATED, [])])
    case Pay(id) => s.(paid := s.paid + {id})
    case Single(id, status, fate) => UpdateOne(s, id, status, fate)
    case Many(ids, status, organization, fates) => Bulk(s, ids, status, organization, fates).store
  }

  /** A new shipment starts as CREATED, with nothing behind it; a payment is noted. */
  lemma BeginningsAre(s: Store, id: Id, enterpriseId: string, logisticsId: string)
    ensures id !in s.shipments ==>
      Step(s, Create(id, enterpriseId, logisticsId)) ==
      Store(s.shipments[id := Shipment(enterpriseId, logisticsId, CREATED, [])], s.paid, s.releases)
    ensures Step(s, Pay(id)) == Store(s.shipments, s.paid + {id}, s.releases)
  {
  }

  predicate Follows(s: Store, a: Action, t: Store) {
    Proper(s, a) && t == Step(s, a)
  }

  /** A run from the empty store: the actions and the stores between them. */
  predicate Run(actions: seq<Action>, stores: seq<Store>) {
    && |stores| == |actions| + 1
    && stores[0] == EMPTY
    && forall i :: 0 <= i < |actions| ==> Follows(stores[i], actions[i], stores[i + 1])
  }

  /** The action writes this shipment at most once ... */
  predicate OnceAtMost(s: Store, a: Action, id: Id) {
    a.Many? && |a.fates| == |a.ids| ==> WrittenOnce(s.shipments, a.ids, a.status, a.organization, a.fates, id)
  }

  /** ... or, if it delivers it and there is a payment, at least gets to ask for at
      most one release. */
  predicate AsksOnceAtMost(s: Store, a: Action, id: Id) {
    a.Many? && |a.fates| == |a.ids| ==>
      (a.status == DELIVERED && id in s.paid && Accepted(s.shipments, id, a.status, a.organization) ==>
         CountAsks(a.ids, a.fates, id) <= 1)
  }

  lemma StepKeepsShipment(s: Store, a: Action, id: Id)
    requires Proper(s, a) && id in s.shipments
    ensures id in Step(s, a).shipments
  {
    if a.Many? {
      SameKeys(s, a.ids, a.status, a.organization, a.fates);
    }
  }

  lemma StepPathIff(s: Store, a: Action, id: Id)
    requires Proper(s, a) && id in s.shipments && s.shipments[id].status == Last(s.shipments[id].milestones)
    ensures id in Step(s, a).shipments
    ensures var after := Step(s, a).shipments[id];
      && after.status == Last(after.milestones)
      && (Path(after.milestones) <==> Path(s.shipments[id].milestones) && OnceAtMost(s, a, id))
  {
    match a
    case Create(_, _, _) =>
    case Pay(_) =>
    case Single(other, status, fate) =>
      if other == id && Allowed(s.shipments[id].status, status) {
        PathSnoc(s.shipments[id].milestones, status);
      }
    case Many(ids, status, organization, fates) => BulkKeepsPathIff(s, ids, status, organization, fates, id);
  }

  /** Along every run, with anything failing outside and any lists of ids, the
      milestones of a shipment are a lawful path exactly when no bulk update has
      written it twice; and its status is the last of them. */
  lemma {:induction false} LawfulIffWrittenOnce(actions: seq<Action>, stores: seq<Store>, k: nat, id: Id)
    requires Run(actions, stores) && k < |stores| && id in stores[k].shipments
    ensures stores[k].shipments[id].status == Last(stores[k].shipments[id].milestones)
    ensures Path(stores[k].shipments[id].milestones) <==>
            forall i :: 0 <= i < k ==> OnceAtMost(stores[i], actions[i], id)
  {
    if k > 0 {
      var before, a := stores[k - 1], actions[k - 1];
      assert Follows(stores[k - 1], actions[k - 1], stores[k - 1 + 1]);
      if id in before.shipments {
        LawfulIffWrittenOnce(actions, stores, k - 1, id);
        StepPathIff(before, a, id);
      } else {
        CreatedNow(actions, stores, k - 1, id);
      }
    }
  }

  /** Until a shipment exists nothing concerns it. */
  lemma {:induction false} CreatedNow(actions: seq<Action>, stores: seq<Store>, k: nat, id: Id)
    requires Run(actions, stores) && k < |actions| && id !in stores[k].shipments
    ensures forall i :: 0 <= i <= k ==> OnceAtMost(stores[i], actions[i], id)
    ensures id in stores[k + 1].shipments ==> stores[k + 1].shipments[id].milestones == []
                                              && stores[k + 1].shipments[id].status == CREATED
  {
    assert Follows(stores[k], actions[k], stores[k + 1]);
    if actions[k].Many? {
      SameKeys(stores[k], actions[k].ids, actions[k].status, actions[k].organization, actions[k].fates);
    }
    if k > 0 {
      assert Follows(stores[k - 1], actions[k - 1], stores[k - 1 + 1]);
      if id in stores[k - 1].shipments {
        StepKeepsShipment(stores[k - 1], actions[k - 1], id);
      } else {
        CreatedNow(actions, stores, k - 1, id);
      }
    }
  }

  /** Releases of one shipment: none before delivery, and none without payment. */
  predicate ReleasesInOrder(s: Store, id: Id) {
    Count(s.releases, id) > 0 ==>
      && id in s.paid
      && id in s.shipments
      && Rank(s.shipments[id].status) >= Rank(DELIVERED)
      && DELIVERED in s.shipments[id].milestones
  }

  lemma DeliveryIsFinal(from: Status)
    ensures Allowed(from, DELIVERED) ==> Rank(from) < Rank(DELIVERED)
  {
  }

  lemma SingleReleases(s: Store, other: Id, status: Status, fate: Fate, id: Id)
    requires ReleasesInOrder(s, id)
    ensures var t := UpdateOne(s, other, status, fate);
      ReleasesInOrder(t, id) && (Count(t.releases, id) <= 1 <==> Count(s.releases, id) <= 1)
  {
    if other in s.shipments && Allowed(s.shipments[other].status, status) {
      WrittenCounts(s, other, status, fate, id);
      TransitionsClimb(s.shipments[other].status, status);
      if other == id {
        DeliveryIsFinal(s.shipments[id].status);
      }
    }
  }

  lemma BulkReleases(s: Store, ids: seq<Id>, status: Status, organization: string, fates: seq<Fate>, id: Id)
    requires |fates| == |ids| && ReleasesInOrder(s, id)
    ensures var t := Bulk(s, ids, status, organization, fates).store;
      && ReleasesInOrder(t, id)
      && (Count(t.releases, id) <= 1 <==>
            Count(s.releases, id) <= 1 && AsksOnceAtMost(s, Many(ids, status, organization, fates), id))
  {
    BulkAsksEachTime(s, ids, status, organization, fates, id);
    SameKeys(s, ids, status, organization, fates);
    CountsDescend(ids, fates, id);
    if id in s.shipments {
      BulkPushesEachTime(s, ids, status, organization, fates, id);
      if Accepted(s.shipments, id, status, organization) {
        TransitionsClimb(s.shipments[id].status, status);
        DeliveryIsFinal(s.shipments[id].status);
        AdvanceShows(s.shipments[id], status, CountWrites(ids, fates, id));
      }
    }
  }

  lemma AdvanceShows(shipment: Shipment, status: Status, n: nat)
    ensures n > 0 ==> status in AdvanceBy(shipment, status, n).milestones
    ensures forall m <- shipment.milestones :: m in AdvanceBy(shipment, status, n).milestones
  {
    if n > 0 {
      assert AdvanceBy(shipment, status, n).milestones[|shipment.milestones|] == status;
    }
  }

  /** Along every run the escrow release of a shipment is asked for only when there
      is a payment and it has been delivered, and at most once exactly when no bulk
      delivery of it got that far twice. */
  lemma {:induction false} ReleasedOnceInRunIff(actions: seq<Action>, stores: seq<Store>, k: nat, id: Id)
    requires Run(actions, stores) && k < |stores|
    ensures ReleasesInOrder(stores[k], id)
    ensures Count(stores[k].releases, id) <= 1 <==>
            forall i :: 0 <= i < k ==> AsksOnceAtMost(stores[i], actions[i], id)
  {
    if k > 0 {
      var before, a := stores[k - 1], actions[k - 1];
      ReleasedOnceInRunIff(actions, stores, k - 1, id);
      assert Follows(stores[k - 1], actions[k - 1], stores[k - 1 + 1]);
      match a
      case Create(_, _, _) =>
      case Pay(_) =>
      case Single(other, status, fate) => SingleReleases(before, other, status, fate, id);
      case Many(ids, status, organization, fates) => BulkReleases(before, ids, status, organization, fates, id);
    }
  }

  lemma OnceAsksOnce(s: Store, a: Action, id: Id)
    requires Proper(s, a) && OnceAtMost(s, a, id)
    ensures AsksOnceAtMost(s, a, id)
  {
    if a.Many? {
      CountsDescend(a.ids, a.fates, id);
    }
  }

  /** So a shipment that no bulk update has written twice, whatever happened to the
      others, has a lawful history with the shape of a path, and its escrow release
      has been asked for at most once, only when paid for and delivered. */
  lemma LifecycleIsSafe(actions: seq<Action>, stores: seq<Store>, k: nat, id: Id)
    requires Run(actions, stores) && k < |stores| && id in stores[k].shipments
    requires forall i :: 0 <= i < k ==> OnceAtMost(stores[i], actions[i], id)
    ensures var shipment := stores[k].shipments[id];
      && Path(shipment.milestones) && shipment.status == Last(shipment.milestones)
      && |shipment.milestones| <= 7
      && (forall i, j :: 0 <= i < j < |shipment.milestones| ==> shipment.milestones[i] != shipment.milestones[j])
      && !(DELIVERED in shipment.milestones && CANCELLED in shipment.milestones)
      && (forall i :: 0 <= i < |shipment.milestones| && shipment.milestones[i] == DELIVERED ==>
            IN_TRANSIT in shipment.milestones[..i])
      && Count(stores[k].releases, id) <= 1
      && (Count(stores[k].releases, id) > 0 ==> id in stores[k].paid && DELIVERED in shipment.milestones)
  {
    LawfulIffWrittenOnce(actions, stores, k, id);
    PathShape(stores[k].shipments[id].milestones);
    forall i | 0 <= i < k
      ensures AsksOnceAtMost(stores[i], actions[i], id)
    {
      assert Follows(stores[i], actions[i], stores[i + 1]);
      OnceAsksOnce(stores[i], actions[i], id);
    }
    ReleasedOnceInRunIff(actions, stores, k, id);
  }

  lemma TwiceFine(id: Id)
    ensures CountWrites([id, id], [Fine, Fine], id) == 2 && CountAsks([id, id], [Fine, Fine], id) == 2
  {
    assert [id, id] == [] + [id] + [id] && [Fine, Fine] == AllFine(2);
    CountSnoc([], id, id);
    CountSnoc([] + [id], id, id);
    FineCounts([id, id], id);
  }

  /** A paid shipment in transit, delivered by one bulk update that names it twice,
      gets two milestones and two releases. */
  lemma TwiceListedReleasesTwice(id: Id, organization: string)
    ensures var s := Store(map[id := Shipment(organization, "", IN_TRANSIT, [IN_TRANSIT])], {id}, []);
      var t := Bulk(s, [id, id], DELIVERED, organization, [Fine, Fine]).store;
      && id in t.shipments
      && t.shipments[id].milestones == [IN_TRANSIT, DELIVERED, DELIVERED]
      && Count(t.releases, id) == 2
      && t != OneByOne(s, s.shipments, [id, id], DELIVERED, organization, [Fine, Fine])
  {
    var s := Store(map[id := Shipment(organization, "", IN_TRANSIT, [IN_TRANSIT])], {id}, []);
    var ids, fates := [id, id], [Fine, Fine];
    TwiceFine(id);
    BulkPushesEachTime(s, ids, DELIVERED, organization, fates, id);
    BulkAsksEachTime(s, ids, DELIVERED, organization, fates, id);
    assert [IN_TRANSIT] + Repeat(DELIVERED, 2) == [IN_TRANSIT, DELIVERED, DELIVERED];
    BulkIsOneByOneIff(s, ids, DELIVERED, organization, fates);
    assert !WrittenOnce(s.shipments, ids, DELIVERED, organization, fates, id);
  }

  /** Conversely every path is the history of a shipment at the end of some run. */
  lemma {:induction false} EveryPathHappens(milestones: seq<Status>, id: Id)
    returns (actions: seq<Action>, stores: seq<Store>)
    requires Path(milestones)
    ensures Run(actions, stores)
    ensures id in stores[|actions|].shipments
    ensures stores[|actions|].shipments[id].milestones == milestones
    ensures stores[|actions|].shipments[id].status == Last(milestones)
  {
    if milestones == [] {
      actions := [Create(id, "", "")];
      stores := [EMPTY, Step(EMPTY, actions[0])];
    } else {
      var n := |milestones| - 1;
      var earlier, before := EveryPathHappens(milestones[..n], id);
      var last := Single(id, milestones[n], Fine);
      assert milestones[..n] + [milestones[n]] == milestones;
      assert Follows(before[|earlier|], last, Step(before[|earlier|], last));
      actions := earlier + [last];
      stores := before + [Step(before[|earlier|], last)];
    }
  }

  // ------------------------------------------------------------- the services

  class ShipmentStore {
    var shipments: map<Id, Shipment>
    var paid: set<Id>
    var releases: seq<Id>

    ghost function State(): Store
      reads this
    {
      Store(shipments, paid, releases)
    }

    constructor ()
      ensures State() == EMPTY
    {
      shipments, paid, releases := map[], {}, [];
    }

    /** A failing payment lookup is caught: then nothing is released. */
    method ReleaseEscrowOnDelivery(id: Id, status: Status, lookupThrows: bool)
      modifies `releases
      ensures State() == if lookupThrows then old(State()) else Release(old(State()), id, status)
    {
      if status == DELIVERED && !lookupThrows {
        if id in paid {
          releases := releases + [id];
        }
      }
    }

    method UpdateShipmentStatus(id: Id, status: Status, fate: Fate) returns (reply: Reply)
      modifies this
      ensures State() == UpdateOne(old(State()), id, status, fate)
      ensures reply.Missing? <==> id !in old(shipments)
      ensures reply.Unchanged? <==> id in old(shipments) && old(shipments)[id].status == status
      ensures reply.InvalidTransition? <==>
              id in old(shipments) && old(shipments)[id].status != status && !Allowed(old(shipments)[id].status, status)
      ensures reply.Changed? <==>
              id in old(shipments) && Allowed(old(shipments)[id].status, status) && fate in {Fine, LookupThrows}
      ensures paid == old(paid)
      ensures shipments ==
              if id !in old(shipments) || !Allowed(old(shipments)[id].status, status) || fate in {Vanished, WriteThrows}
              then old(shipments)
              else ghost var was := old(shipments)[id];
                old(shipments)[id := Shipment(was.enterpriseId, was.logisticsId, status, was.milestones + [status])]
      ensures releases ==
              if id in old(shipments) && Allowed(old(shipments)[id].status, status) && fate in {Fine, NotifyThrows}
                 && status == DELIVERED && id in old(paid)
              then old(releases) + [id] else old(releases)
    {
      if id !in shipments {
        return Missing;
      }
      var shipment := shipments[id];
      NoSelfTransition(status);
      if shipment.status == status {
        return Unchanged;
      }
      if !Allowed(shipment.status, status) {
        return InvalidTransition;
      }
      shipment := shipment.(status := status);
      shipment := shipment.(milestones := shipment.milestones + [status]);
      if !Writes(fate) {
        return Threw;
      }
      shipments := shipments[id := shipment];
      if fate.CacheThrows? {
        return Threw;
      }
      ReleaseEscrowOnDelivery(id, status, fate.LookupThrows?);
      reply := if fate.NotifyThrows? then Threw else Changed;
    }

    /** The document write of the bulk loop and what follows it for one id. */
    method WriteOne(id: Id, status: Status, fate: Fate) returns (failure: Option<Reason>)
      modifies this
      ensures State() == if id in old(shipments) then Written(old(State()), id, status, fate) else old(State())
      ensures failure == if id !in old(shipments) || fate.Vanished? then Some(NOT_FOUND)
                         else if Succeeds(fate) then None else Some(UPDATE_FAILED)
    {
      if id !in shipments || fate.Vanished? {
        return Some(NOT_FOUND);
      }
      if fate.WriteThrows? {
        return Some(UPDATE_FAILED);
      }
      shipments := shipments[id := Advance(shipments[id], status)];
      if fate.CacheThrows? {
        return Some(UPDATE_FAILED);
      }
      ReleaseEscrowOnDelivery(id, status, fate.LookupThrows?);
      failure := if fate.NotifyThrows? then Some(UPDATE_FAILED) else None;
    }

    /** One turn of the bulk loop: the checks on the fetched document, then the write. */
    method BulkTurn(found: map<Id, Shipment>, id: Id, status: Status, organization: string, fate: Fate)
      returns (failure: Option<Reason>)
      modifies this
      ensures ghost var r := BulkStep(BulkResult(old(State()), 0, []), found, id, status, organization, fate);
        && State() == r.store
        && (failure.None? <==> r.updated == 1)
        && r.failed == if failure.Some? then [Failure(id, failure.value)] else []
    {
      if id !in found {
        return Some(NOT_FOUND);
      }
      if found[id].enterpriseId != organization && found[id].logisticsId != organization {
        return Some(WRONG_ORG);
      }
      if !Allowed(found[id].status, status) {
        return Some(INVALID_TRANSITION);
      }
      failure := WriteOne(id, status, fate);
    }

    method BulkUpdateShipmentStatus(ids: seq<Id>, status: Status, organization: string, fates: seq<Fate>)
      returns (updated: nat, failed: seq<Failure>)
      requires |fates| == |ids|
      modifies this
      ensures BulkResult(State(), updated, failed) == Bulk(old(State()), ids, status, organization, fates)
      ensures updated + |failed| == |ids| && Subsequence(FailedIds(failed), ids)
    {
      updated, failed := 0, [];
      var found := shipments;
      for n := 0 to |ids|
        invariant BulkResult(State(), updated, failed) == Bulk(old(State()), ids[..n], status, organization, fates[..n])
      {
        assert ids[..n + 1][..n] == ids[..n] && fates[..n + 1][..n] == fates[..n];
        BulkStepAdds(BulkResult(State(), updated, failed), found, ids[n], status, organization, fates[n]);
        var failure := BulkTurn(found, ids[n], status, organization, fates[n]);
        if failure.Some? {
          failed := failed + [Failure(ids[n], failure.value)];
        } else {
          updated := updated + 1;
        }
      }
      assert ids[..|ids|] == ids && fates[..|ids|] == fates;
      BulkAccountsForAll(old(State()), ids, status, organization, fates);
    }
  }
}
