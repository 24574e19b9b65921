/**
  The per-key task queue of src/services/chain/serializer.ts, seen as a
  transition system.  A call of `run` creates three promises (the predecessor's
  tail, the task's result and the task's own tail) and one cleanup callback; a
  Task records how far that chain has got.
 */
module Serializer {
  import opened Common

  type Key = string
  type TaskId = nat

  /** Queued: waits for its predecessor's tail.  Settled: its result promise is
      settled.  Released: its tail is resolved.  Finished: its cleanup ran. */
  datatype Phase =
    | Queued
    | Running
    | Settled(ok: bool)
    | Released(ok: bool)
    | Finished(ok: bool)

  /** `previous` is None when `run` found no tail and used a resolved promise. */
  datatype Task = Task(key: Key, previous: Option<TaskId>, phase: Phase)

  datatype Queue = Queue(tasks: seq<Task>, tails: map<Key, TaskId>)

  datatype Step =
    | CallRun(key: Key)
    | Start(id: TaskId)
    | Settle(id: TaskId, ok: bool)
    | ReleaseTail(id: TaskId)
    | FireCleanup(id: TaskId)

  const EMPTY: Queue := Queue([], map[])

  predicate TailResolved(t: Task) {
    t.phase.Released? || t.phase.Finished?
  }

  predicate PreviousResolved(q: Queue, id: TaskId)
    requires id < |q.tasks|
  {
    match q.tasks[id].previous
    case None => true
    case Some(p) => p < |q.tasks| && TailResolved(q.tasks[p])
  }

  predicate Enabled(q: Queue, step: Step) {
    match step
    case CallRun(_) => true
    case Start(i) => i < |q.tasks| && q.tasks[i].phase.Queued? && PreviousResolved(q, i)
    case Settle(i, _) => i < |q.tasks| && q.tasks[i].phase.Running?
    case ReleaseTail(i) => i < |q.tasks| && q.tasks[i].phase.Settled?
    case FireCleanup(i) => i < |q.tasks| && q.tasks[i].phase.Released?
  }

  function WithPhase(q: Queue, id: TaskId, phase: Phase): Queue
    requires id < |q.tasks|
  {
    q.(tasks := q.tasks[id := q.tasks[id].(phase := phase)])
  }

  function Enqueue(q: Queue, key: Key): Queue {
    var previous := if key in q.tails then Some(q.tails[key]) else None;
    Queue(q.tasks + [Task(key, previous, Queued)], q.tails[key := |q.tasks|])
  }

  function Cleanup(q: Queue, id: TaskId): Queue
    requires id < |q.tasks| && q.tasks[id].phase.Released?
  {
    var key := q.tasks[id].key;
    var tails := if key in q.tails && q.tails[key] == id then q.tails - {key} else q.tails;
    WithPhase(q, id, Finished(q.tasks[id].phase.ok)).(tails := tails)
  }

  function Apply(q: Queue, step: Step): Queue
    requires Enabled(q, step)
  {
    match step
    case CallRun(key) => Enqueue(q, key)
    case Start(i) => WithPhase(q, i, Running)
    case Settle(i, ok) => WithPhase(q, i, Settled(ok))
    case ReleaseTail(i) => WithPhase(q, i, Released(q.tasks[i].phase.ok))
    case FireCleanup(i) => Cleanup(q, i)
  }

  // ---------------------------------------------------------------- invariant

  /** Every same-key task called before `id` has resolved its tail. */
  ghost predicate AllEarlierResolved(q: Queue, id: TaskId)
    requires id < |q.tasks|
  {
    forall j :: 0 <= j < id && q.tasks[j].key == q.tasks[id].key ==> TailResolved(q.tasks[j])
  }

  /** `id` is the most recent task of its key. */
  ghost predicate IsLast(q: Queue, id: TaskId) {
    && id < |q.tasks|
    && forall j :: id < j < |q.tasks| ==> q.tasks[j].key != q.tasks[id].key
  }

  /** `previous` names the call just before this one on the same key; when the
      map held nothing there is no unresolved call before it. */
  ghost predicate PreviousExact(q: Queue, id: TaskId)
    requires id < |q.tasks|
  {
    match q.tasks[id].previous
    case None => AllEarlierResolved(q, id)
    case Some(p) =>
      && p < id
      && q.tasks[p].key == q.tasks[id].key
      && forall j :: p < j < id ==> q.tasks[j].key != q.tasks[id].key
  }

  ghost predicate ChainsValid(q: Queue) {
    && (forall i :: 0 <= i < |q.tasks| ==> PreviousExact(q, i))
    && (forall i :: 0 <= i < |q.tasks| && !q.tasks[i].phase.Queued? ==> AllEarlierResolved(q, i))
  }

  ghost predicate TailsValid(q: Queue) {
    && (forall k :: k in q.tails ==> IsLast(q, q.tails[k]) && q.tasks[q.tails[k]].key == k
                                     && !q.tasks[q.tails[k]].phase.Finished?)
    && (forall i :: 0 <= i < |q.tasks| && q.tasks[i].key !in q.tails ==> TailResolved(q.tasks[i]))
    && (forall i: nat :: IsLast(q, i) && !q.tasks[i].phase.Finished? ==>
          q.tasks[i].key in q.tails && q.tails[q.tasks[i].key] == i)
  }

  ghost predicate Valid(q: Queue) {
    ChainsValid(q) && TailsValid(q)
  }

  lemma EnqueueKeepsValid(q: Queue, key: Key)
    requires Valid(q)
    ensures Valid(Enqueue(q, key))
  {
    var q' := Enqueue(q, key);
    var n := |q.tasks|;
    assert forall i :: 0 <= i < n ==> q'.tasks[i] == q.tasks[i];
    forall i | 0 <= i <= n ensures PreviousExact(q', i) {
      if i < n {
        assert PreviousExact(q, i);
      }
    }
    forall i | 0 <= i < n && !q.tasks[i].phase.Queued? ensures AllEarlierResolved(q', i) {
      assert AllEarlierResolved(q, i);
    }
    forall k | k in q.tails && k != key ensures IsLast(q', q.tails[k]) {
      assert IsLast(q, q.tails[k]);
    }
    forall i: nat | IsLast(q', i) && i < n && !q.tasks[i].phase.Finished?
      ensures q.tasks[i].key in q'.tails && q'.tails[q.tasks[i].key] == i
    {
      assert q'.tasks[n].key == key != q.tasks[i].key;
      assert IsLast(q, i);
    }
  }

  /** `q'` is `q` with the promise chain of one task moved on. */
  ghost predicate PhaseMoved(q: Queue, q': Queue, id: TaskId) {
    && id < |q.tasks| == |q'.tasks|
    && q'.tasks[id] == q.tasks[id].(phase := q'.tasks[id].phase)
    && (forall i :: 0 <= i < |q.tasks| && i != id ==> q'.tasks[i] == q.tasks[i])
    && (TailResolved(q.tasks[id]) ==> TailResolved(q'.tasks[id]))
  }

  lemma PhaseMovedKeepsChains(q: Queue, q': Queue, id: TaskId)
    requires ChainsValid(q) && PhaseMoved(q, q', id) && AllEarlierResolved(q, id)
    ensures ChainsValid(q')
  {
    forall i | 0 <= i < |q'.tasks|
      ensures PreviousExact(q', i) && (!q'.tasks[i].phase.Queued? ==> AllEarlierResolved(q', i))
    {
      assert PreviousExact(q, i);
      if !q.tasks[i].phase.Queued? {
        assert AllEarlierResolved(q, i);
      }
    }
  }

  lemma PhaseMovedKeepsLast(q: Queue, q': Queue, id: TaskId)
    requires PhaseMoved(q, q', id)
    ensures forall i: nat :: IsLast(q', i) <==> IsLast(q, i)
  {
    assert forall i :: 0 <= i < |q.tasks| ==> q'.tasks[i].key == q.tasks[i].key;
    forall i: nat ensures IsLast(q', i) <==> IsLast(q, i) {
      if IsLast(q', i) {
        assert forall j :: i < j < |q.tasks| ==> q'.tasks[j].key != q'.tasks[i].key;
      }
    }
  }

  lemma AdvanceKeepsValid(q: Queue, step: Step)
    requires Valid(q) && Enabled(q, step) && !step.CallRun? && !step.FireCleanup?
    ensures Valid(Apply(q, step))
  {
    var q' := Apply(q, step);
    if step.Start? {
      EarlierResolvedFromPrevious(q, step.id);
    }
    PhaseMovedKeepsChains(q, q', step.id);
    PhaseMovedKeepsLast(q, q', step.id);
  }

  /** A resolved direct predecessor stands for every earlier call of the key. */
  lemma EarlierResolvedFromPrevious(q: Queue, id: TaskId)
    requires ChainsValid(q) && id < |q.tasks| && PreviousResolved(q, id)
    ensures AllEarlierResolved(q, id)
  {
    assert PreviousExact(q, id);
    if q.tasks[id].previous.Some? {
      var p := q.tasks[id].previous.value;
      assert AllEarlierResolved(q, p);
    }
  }

  lemma CleanupKeepsValid(q: Queue, id: TaskId)
    requires Valid(q) && Enabled(q, FireCleanup(id))
    ensures Valid(Cleanup(q, id))
  {
    var q' := Cleanup(q, id);
    PhaseMovedKeepsChains(q, q', id);
    PhaseMovedKeepsLast(q, q', id);
    assert AllEarlierResolved(q, id);
    forall i | 0 <= i < |q'.tasks| && q'.tasks[i].key !in q'.tails ensures TailResolved(q'.tasks[i]) {
      if q.tasks[i].key in q.tails {
        assert IsLast(q, id);
      }
    }
  }

  lemma StepKeepsValid(q: Queue, step: Step)
    requires Valid(q) && Enabled(q, step)
    ensures Valid(Apply(q, step))
  {
    match step
    case CallRun(key) => EnqueueKeepsValid(q, key);
    case FireCleanup(i) => CleanupKeepsValid(q, i);
    case _ => AdvanceKeepsValid(q, step);
  }

  // --------------------------------------------------------- every interleaving

  /** The steps can be taken one after the other from an empty serializer. */
  ghost predicate Legal(steps: seq<Step>)
    decreases |steps|, 0
  {
    steps == [] ||
    var before := steps[..|steps| - 1];
    Legal(before) && Enabled(Play(before), steps[|steps| - 1])
  }

  ghost function Play(steps: seq<Step>): Queue
    requires Legal(steps)
    decreases |steps|, 1
  {
    if steps == [] then EMPTY
    else Apply(Play(steps[..|steps| - 1]), steps[|steps| - 1])
  }

  lemma {:induction false} ReachableValid(steps: seq<Step>)
    requires Legal(steps)
    ensures Valid(Play(steps))
  {
    if steps != [] {
      ReachableValid(steps[..|steps| - 1]);
      StepKeepsValid(Play(steps[..|steps| - 1]), steps[|steps| - 1]);
    }
  }

  /** Two running tasks of one key are the same task. */
  lemma MutualExclusion(steps: seq<Step>, i: TaskId, j: TaskId)
    requires Legal(steps)
    requires i < |Play(steps).tasks| && j < |Play(steps).tasks|
    requires Play(steps).tasks[i].phase.Running? && Play(steps).tasks[j].phase.Running?
    requires Play(steps).tasks[i].key == Play(steps).tasks[j].key
    ensures i == j
  {
    ReachableValid(steps);
    var q := Play(steps);
    assert AllEarlierResolved(q, i) && AllEarlierResolved(q, j);
  }

  /** A queued task may start exactly when every earlier call on its key has
      resolved its tail, however those calls ended. */
  lemma StartEnabledIff(q: Queue, id: TaskId)
    requires Valid(q) && id < |q.tasks|
    ensures Enabled(q, Start(id)) <==> q.tasks[id].phase.Queued? && AllEarlierResolved(q, id)
  {
    assert PreviousExact(q, id);
    if PreviousResolved(q, id) {
      EarlierResolvedFromPrevious(q, id);
    }
  }

  // ------------------------------------------------------------- start order

  /** The calls made on a key among the first `n`, oldest first. */
  function CallOrder(tasks: seq<Task>, key: Key, n: nat): (ids: seq<TaskId>)
    requires n <= |tasks|
    ensures forall i :: i in ids <==> 0 <= i < n && tasks[i].key == key
  {
    if n == 0 then []
    else CallOrder(tasks, key, n - 1) + (if tasks[n - 1].key == key then [n - 1] else [])
  }

  /** The tasks of a key in the order in which a run started them. */
  ghost function StartOrder(steps: seq<Step>, key: Key): seq<TaskId>
    requires Legal(steps)
  {
    if steps == [] then []
    else
      var before := steps[..|steps| - 1];
      var last := steps[|steps| - 1];
      StartOrder(before, key) +
      (if last.Start? && Play(before).tasks[last.id].key == key then [last.id] else [])
  }

  function Started(tasks: seq<Task>, key: Key, n: nat): seq<TaskId>
    requires n <= |tasks|
  {
    if n == 0 then []
    else Started(tasks, key, n - 1) +
         (if tasks[n - 1].key == key && !tasks[n - 1].phase.Queued? then [n - 1] else [])
  }

  lemma {:induction false} StartedSame(a: seq<Task>, b: seq<Task>, key: Key, n: nat)
    requires n <= |a| && n <= |b|
    requires forall i :: 0 <= i < n ==>
      a[i].key == b[i].key && (a[i].key == key ==> a[i].phase.Queued? == b[i].phase.Queued?)
    ensures Started(a, key, n) == Started(b, key, n)
  {
    if n > 0 {
      StartedSame(a, b, key, n - 1);
    }
  }

  lemma {:induction false} StartedGains(a: seq<Task>, b: seq<Task>, key: Key, id: TaskId, n: nat)
    requires id < n <= |a| && n <= |b|
    requires forall i :: 0 <= i < n && i != id ==> a[i] == b[i]
    requires a[id].key == b[id].key == key && a[id].phase.Queued? && !b[id].phase.Queued?
    requires forall i :: id < i < n && a[i].key == key ==> a[i].phase.Queued?
    ensures Started(b, key, n) == Started(a, key, n) + [id]
  {
    if n - 1 == id {
      StartedSame(a, b, key, id);
    } else {
      StartedGains(a, b, key, id, n - 1);
    }
  }

  /** The started tasks of a key are an initial stretch of its calls. */
  lemma {:induction false} StartedIsPrefix(q: Queue, key: Key, n: nat)
    requires ChainsValid(q) && n <= |q.tasks|
    ensures Started(q.tasks, key, n) <= CallOrder(q.tasks, key, n)
    ensures (forall i :: 0 <= i < n && q.tasks[i].key == key ==> !q.tasks[i].phase.Queued?) ==>
              Started(q.tasks, key, n) == CallOrder(q.tasks, key, n)
  {
    if n > 0 {
      StartedIsPrefix(q, key, n - 1);
      if q.tasks[n - 1].key == key && !q.tasks[n - 1].phase.Queued? {
        assert AllEarlierResolved(q, n - 1);
      }
    }
  }

  lemma StepStarts(q: Queue, step: Step, key: Key)
    requires Valid(q) && Enabled(q, step)
    ensures var q' := Apply(q, step);
      Started(q'.tasks, key, |q'.tasks|) ==
      Started(q.tasks, key, |q.tasks|) +
      (if step.Start? && q.tasks[step.id].key == key then [step.id] else [])
  {
    var q' := Apply(q, step);
    var n := |q.tasks|;
    if step.Start? && q.tasks[step.id].key == key {
      forall i | step.id < i < n && q.tasks[i].key == key ensures q.tasks[i].phase.Queued? {
        assert q.tasks[i].phase.Queued? || AllEarlierResolved(q, i);
      }
      StartedGains(q.tasks, q'.tasks, key, step.id, n);
    } else {
      StartedSame(q.tasks, q'.tasks, key, n);
    }
  }

  lemma {:induction false} StartOrderIsStarted(steps: seq<Step>, key: Key)
    requires Legal(steps)
    ensures StartOrder(steps, key) == Started(Play(steps).tasks, key, |Play(steps).tasks|)
  {
    if steps != [] {
      var before := steps[..|steps| - 1];
      StartOrderIsStarted(before, key);
      ReachableValid(before);
      StepStarts(Play(before), steps[|steps| - 1], key);
    }
  }

  /** Tasks of a key start exactly in call order, skipping none. */
  lemma StartsFollowCalls(steps: seq<Step>, key: Key)
    requires Legal(steps)
    ensures StartOrder(steps, key) <= CallOrder(Play(steps).tasks, key, |Play(steps).tasks|)
  {
    ReachableValid(steps);
    StartOrderIsStarted(steps, key);
    StartedIsPrefix(Play(steps), key, |Play(steps).tasks|);
  }

  // ------------------------------------------------------- the map is exact

  /** A key is mapped exactly while its latest task awaits its cleanup, and then
      to that task; every task of an unmapped key is resolved. */
  lemma TailsExact(steps: seq<Step>, key: Key)
    requires Legal(steps)
    ensures var q := Play(steps);
      && (key in q.tails <==>
            exists i: nat :: IsLast(q, i) && q.tasks[i].key == key && !q.tasks[i].phase.Finished?)
      && (forall i: nat :: IsLast(q, i) && q.tasks[i].key == key && key in q.tails ==> q.tails[key] == i)
      && (key !in q.tails ==>
            forall i :: 0 <= i < |q.tasks| && q.tasks[i].key == key ==> TailResolved(q.tasks[i]))
  {
    ReachableValid(steps);
    var q := Play(steps);
    if key in q.tails {
      var t := q.tails[key];
      assert IsLast(q, t);
      forall i: nat | IsLast(q, i) && q.tasks[i].key == key ensures i == t {
        assert !(i < t) && !(t < i);
      }
    }
  }

  /** The cleanup of a superseded task leaves the map as it was. */
  lemma LateCleanupKeepsNewer(q: Queue, older: TaskId, newer: TaskId)
    requires Valid(q) && Enabled(q, FireCleanup(older))
    requires older < newer < |q.tasks| && q.tasks[newer].key == q.tasks[older].key
    ensures Cleanup(q, older).tails == q.tails
  {
    assert !IsLast(q, older);
  }

  lemma QuietMeansEmpty(steps: seq<Step>)
    requires Legal(steps)
    requires forall i :: 0 <= i < |Play(steps).tasks| ==> Play(steps).tasks[i].phase.Finished?
    ensures Play(steps).tails == map[]
  {
    ReachableValid(steps);
    var q := Play(steps);
    assert forall k :: k !in q.tails;
  }

  /** The keys whose latest task has not been cleaned up yet. */
  ghost function BusyKeys(q: Queue): set<Key> {
    set i: nat | i < |q.tasks| && IsLast(q, i) && !q.tasks[i].phase.Finished? :: q.tasks[i].key
  }

  /** The keys with queued or running work, or work whose tail is still to resolve. */
  ghost function WorkingKeys(q: Queue): set<Key> {
    set i: nat | i < |q.tasks| && !TailResolved(q.tasks[i]) :: q.tasks[i].key
  }

  lemma BusyKeysAreMapped(q: Queue)
    requires Valid(q)
    ensures q.tails.Keys == BusyKeys(q) && WorkingKeys(q) <= BusyKeys(q)
  {
    forall key | key in q.tails
      ensures key in BusyKeys(q)
    {
      assert IsLast(q, q.tails[key]);
    }
  }

  // -------------------------------------------------------------- no deadlock

  function PhaseRank(p: Phase): nat {
    match p
    case Queued => 4
    case Running => 3
    case Settled(_) => 2
    case Released(_) => 1
    case Finished(_) => 0
  }

  /** Callbacks and task steps still owed by the queued work. */
  function Outstanding(tasks: seq<Task>): nat {
    if tasks == [] then 0
    else Outstanding(tasks[..|tasks| - 1]) + PhaseRank(tasks[|tasks| - 1].phase)
  }

  lemma {:induction false} OutstandingUpdate(tasks: seq<Task>, i: nat, t: Task)
    requires i < |tasks|
    ensures Outstanding(tasks[i := t]) ==
            Outstanding(tasks) - PhaseRank(tasks[i].phase) + PhaseRank(t.phase)
  {
    var n := |tasks| - 1;
    if i == n {
      assert tasks[i := t][..n] == tasks[..n];
    } else {
      assert tasks[i := t][..n] == tasks[..n][i := t];
      OutstandingUpdate(tasks[..n], i, t);
    }
  }

  /** Every step other than a new call brings the queue closer to quiet. */
  lemma StepsTerminate(q: Queue, step: Step)
    requires Enabled(q, step) && !step.CallRun?
    ensures Outstanding(Apply(q, step).tasks) == Outstanding(q.tasks) - 1
  {
    OutstandingUpdate(q.tasks, step.id, Apply(q, step).tasks[step.id]);
  }

  /** While any task is unfinished, some pending task or callback can move. */
  lemma NeverStuck(q: Queue, id: TaskId) returns (step: Step)
    requires Valid(q) && id < |q.tasks| && !q.tasks[id].phase.Finished?
    ensures Enabled(q, step) && !step.CallRun? && step.id <= id
    decreases id
  {
    if older: nat :| older < id && !q.tasks[older].phase.Finished? {
      step := NeverStuck(q, older);
    } else {
      StartEnabledIff(q, id);
      step := match q.tasks[id].phase
        case Queued => Start(id)
        case Running => Settle(id, true)
        case Settled(_) => ReleaseTail(id)
        case _ => FireCleanup(id);
    }
  }

  // ------------------------------------------------------------ the class

  /** `tails` is the source's only field; `promises` is the runtime's record of
      the promise chains that `Run` builds. */
  class KeyedSerializer {
    var tails: map<Key, TaskId>
    var promises: seq<Task>

    ghost function Snapshot(): Queue
      reads this
    {
      Queue(promises, tails)
    }

    constructor ()
      ensures Snapshot() == EMPTY && Valid(Snapshot())
    {
      tails := map[];
      promises := [];
    }

    method Run(key: Key) returns (id: TaskId)
      requires Valid(Snapshot())
      modifies this
      ensures id == |old(promises)|
      ensures Snapshot() == old(Enqueue(Snapshot(), key)) && Valid(Snapshot())
    {
      EnqueueKeepsValid(Snapshot(), key);
      var previous := None;
      if key in tails {
        previous := Some(tails[key]);
      }
      id := |promises|;
      promises := promises + [Task(key, previous, Queued)];
      tails := tails[key := id];
    }

    /** The callback registered on a tail: it forgets the key only while the key
        still names that tail. */
    method OnTailResolved(id: TaskId)
      requires Valid(Snapshot()) && Enabled(Snapshot(), FireCleanup(id))
      modifies this
      ensures Snapshot() == old(Cleanup(Snapshot(), id)) && Valid(Snapshot())
      ensures !IsLast(old(Snapshot()), id) ==> tails == old(tails)
    {
      CleanupKeepsValid(Snapshot(), id);
      var task := promises[id];
      if task.key in tails && tails[task.key] == id {
        tails := tails - {task.key};
      }
      promises := promises[id := task.(phase := Finished(task.phase.ok))];
    }

    /** A task body starting, settling, or its tail resolving: the promise
        runtime moves on and the map is not consulted. */
    method RuntimeStep(step: Step)
      requires Valid(Snapshot()) && Enabled(Snapshot(), step)
      requires step.Start? || step.Settle? || step.ReleaseTail?
      modifies this`promises
      ensures Snapshot() == old(Apply(Snapshot(), step)) && Valid(Snapshot())
    {
      AdvanceKeepsValid(Snapshot(), step);
      var task := promises[step.id];
      var phase := match step
        case Start(_) => Running
        case Settle(_, ok) => Settled(ok)
        case ReleaseTail(_) => Released(task.phase.ok);
      promises := promises[step.id := task.(phase := phase)];
    }

    /** How many keys await the cleanup of their latest task, none of those with
        queued or running work left out. */
    method ActiveKeys() returns (n: nat)
      requires Valid(Snapshot())
      ensures n == |BusyKeys(Snapshot())|
      ensures WorkingKeys(Snapshot()) <= BusyKeys(Snapshot())
    {
      n := |tails|;
      BusyKeysAreMapped(Snapshot());
      assert |tails.Keys| == |tails|;
    }
  }
}
