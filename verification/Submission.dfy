/**
  Transaction submission of src/services/chain/simulated.adapter.ts running
  inside the per-account queue, against a ledger that other writers share.

  An account's history is a log; its sequence number is the length of the log,
  so a transaction built after loading at length n is accepted exactly while the
  log still has length n.  `Outside` entries come from writers that bypass the
  queue: other processes, and tokenizeShipment in src/services/stellar.service.ts.
 */
module Submission {
  import opened Common
  import Q = Serializer

  const MAX_BAD_SEQ_RETRIES: nat := 2

  datatype Entry = Ours(task: nat) | Outside

  /** One rejected attempt: the sequence it loaded and the one it met. */
  datatype Span = Span(loadedAt: nat, rejectedAt: nat)

  datatype Outcome = Pending | Applied(position: nat) | BadSequence | OtherFailure

  datatype Job = Job(attempt: nat, loaded: Option<nat>, rejected: seq<Span>, outcome: Outcome)

  const FRESH: Job := Job(0, None, [], Pending)

  datatype System = System(queue: Q.Queue, jobs: seq<Job>, logs: map<Q.Key, seq<Entry>>)

  const INITIAL: System := System(Q.EMPTY, [], map[])

  /** Fail: a load, build or submit error other than tx_bad_seq. */
  datatype Action =
    | Call(key: Q.Key)
    | Begin(id: nat)
    | Load(id: nat)
    | Submit(id: nat)
    | Fail(id: nat)
    | ReleaseTail(id: nat)
    | FireCleanup(id: nat)
    | OutsideWrite(key: Q.Key)

  function LogOf(s: System, key: Q.Key): seq<Entry> {
    if key in s.logs then s.logs[key] else []
  }

  predicate InFlight(s: System, id: nat) {
    id < |s.jobs| == |s.queue.tasks| && s.queue.tasks[id].phase.Running?
  }

  predicate CanTake(s: System, a: Action) {
    && |s.jobs| == |s.queue.tasks|
    && match a
       case Call(_) => true
       case OutsideWrite(_) => true
       case Begin(i) => Q.Enabled(s.queue, Q.Start(i))
       case Load(i) => InFlight(s, i) && s.jobs[i].loaded.None?
       case Submit(i) => InFlight(s, i) && s.jobs[i].loaded.Some?
       case Fail(i) => InFlight(s, i)
       case ReleaseTail(i) => Q.Enabled(s.queue, Q.ReleaseTail(i))
       case FireCleanup(i) => Q.Enabled(s.queue, Q.FireCleanup(i))
  }

  function Finish(s: System, id: nat, job: Job, ok: bool): System
    requires InFlight(s, id)
  {
    s.(queue := Q.Apply(s.queue, Q.Settle(id, ok)), jobs := s.jobs[id := job])
  }

  function AfterSubmit(s: System, id: nat): System
    requires CanTake(s, Submit(id))
  {
    var job := s.jobs[id];
    var key := s.queue.tasks[id].key;
    var log := LogOf(s, key);
    if job.loaded.value == |log| then
      Finish(s, id, job.(loaded := None, outcome := Applied(|log|)), true)
        .(logs := s.logs[key := log + [Ours(id)]])
    else
      var rejected := job.rejected + [Span(job.loaded.value, |log|)];
      if job.attempt < MAX_BAD_SEQ_RETRIES then
        s.(jobs := s.jobs[id := job.(attempt := job.attempt + 1, loaded := None, rejected := rejected)])
      else
        Finish(s, id, job.(loaded := None, rejected := rejected, outcome := BadSequence), false)
  }

  function Take(s: System, a: Action): System
    requires CanTake(s, a)
  {
    match a
    case Call(key) => s.(queue := Q.Enqueue(s.queue, key), jobs := s.jobs + [FRESH])
    case OutsideWrite(key) => s.(logs := s.logs[key := LogOf(s, key) + [Outside]])
    case Begin(i) => s.(queue := Q.Apply(s.queue, Q.Start(i)))
    case Load(i) =>
      var seen := |LogOf(s, s.queue.tasks[i].key)|;
      s.(jobs := s.jobs[i := s.jobs[i].(loaded := Some(seen))])
    case Submit(i) => AfterSubmit(s, i)
    case Fail(i) => Finish(s, i, s.jobs[i].(loaded := None, outcome := OtherFailure), false)
    case ReleaseTail(i) => s.(queue := Q.Apply(s.queue, Q.ReleaseTail(i)))
    case FireCleanup(i) => s.(queue := Q.Apply(s.queue, Q.FireCleanup(i)))
  }

  // ---------------------------------------------------------------- invariant

  ghost predicate OnlyOutside(log: seq<Entry>, from: nat, to: nat) {
    from <= to <= |log| && forall p :: from <= p < to ==> log[p].Outside?
  }

  /** The rejected attempts follow one another, and during each one some outside
      writer, and nobody else, moved the account. */
  ghost predicate SpansValid(job: Job, log: seq<Entry>) {
    && (forall a :: 0 <= a < |job.rejected| ==>
          job.rejected[a].loadedAt < job.rejected[a].rejectedAt
          && OnlyOutside(log, job.rejected[a].loadedAt, job.rejected[a].rejectedAt))
    && (forall a, b :: 0 <= a < b < |job.rejected| ==>
          job.rejected[a].rejectedAt <= job.rejected[b].loadedAt)
    && (job.loaded.Some? ==>
          OnlyOutside(log, job.loaded.value, |log|)
          && forall a :: 0 <= a < |job.rejected| ==> job.rejected[a].rejectedAt <= job.loaded.value)
  }

  ghost predicate PhaseMatches(task: Q.Task, job: Job) {
    match task.phase
    case Queued => job == FRESH
    case Running => job.outcome.Pending?
    case Settled(ok) => !job.outcome.Pending? && ok == job.outcome.Applied? && job.loaded.None?
    case Released(ok) => !job.outcome.Pending? && ok == job.outcome.Applied? && job.loaded.None?
    case Finished(ok) => !job.outcome.Pending? && ok == job.outcome.Applied? && job.loaded.None?
  }

  ghost predicate JobValid(task: Q.Task, job: Job, log: seq<Entry>, id: nat) {
    && PhaseMatches(task, job)
    && job.attempt <= MAX_BAD_SEQ_RETRIES
    && |job.rejected| == job.attempt + (if job.outcome.BadSequence? then 1 else 0)
    && (job.outcome.BadSequence? ==> job.attempt == MAX_BAD_SEQ_RETRIES)
    && SpansValid(job, log)
    && (job.outcome.Applied? ==>
          job.outcome.position < |log| && log[job.outcome.position] == Ours(id))
  }

  /** Every entry of ours names the task of this account that was applied there. */
  ghost predicate LogValid(tasks: seq<Q.Task>, jobs: seq<Job>, log: seq<Entry>, key: Q.Key)
    requires |jobs| == |tasks|
  {
    forall p :: 0 <= p < |log| && log[p].Ours? ==>
      && log[p].task < |jobs|
      && tasks[log[p].task].key == key
      && jobs[log[p].task].outcome == Applied(p)
  }

  ghost predicate JobAt(s: System, id: nat) {
    id < |s.jobs| == |s.queue.tasks| &&
    JobValid(s.queue.tasks[id], s.jobs[id], LogOf(s, s.queue.tasks[id].key), id)
  }

  ghost predicate LogAt(s: System, key: Q.Key) {
    |s.jobs| == |s.queue.tasks| && LogValid(s.queue.tasks, s.jobs, LogOf(s, key), key)
  }

  ghost predicate Valid(s: System) {
    && |s.jobs| == |s.queue.tasks|
    && Q.Valid(s.queue)
    && (forall i :: 0 <= i < |s.jobs| ==> JobAt(s, i))
    && (forall key :: LogAt(s, key))
  }

  lemma GrownLogKeepsSpans(job: Job, log: seq<Entry>, entry: Entry)
    requires SpansValid(job, log) && (job.loaded.None? || entry.Outside?)
    ensures SpansValid(job, log + [entry])
  {
    var grown := log + [entry];
    assert forall p :: 0 <= p < |log| ==> grown[p] == log[p];
  }

  lemma OutsideWriteKeepsValid(s: System, key: Q.Key)
    requires Valid(s)
    ensures Valid(Take(s, OutsideWrite(key)))
  {
    var s' := Take(s, OutsideWrite(key));
    forall i | 0 <= i < |s.jobs|
      ensures JobAt(s', i)
    {
      assert JobAt(s, i);
      GrownLogKeepsSpans(s.jobs[i], LogOf(s, s.queue.tasks[i].key), Outside);
    }
    forall k ensures LogAt(s', k) {
      assert LogAt(s, k);
    }
  }

  lemma CallKeepsValid(s: System, key: Q.Key)
    requires Valid(s)
    ensures Valid(Take(s, Call(key)))
  {
    var s' := Take(s, Call(key));
    assert Q.Valid(s'.queue) by {
      Q.StepKeepsValid(s.queue, Q.CallRun(key));
    }
    forall i | 0 <= i < |s'.jobs| ensures JobAt(s', i) {
      assert i < |s.jobs| ==> JobAt(s, i);
    }
    forall k ensures LogAt(s', k) {
      assert LogAt(s, k);
    }
  }

  /** A step of one task that leaves the histories alone. */
  lemma OneTaskKeepsValid(s: System, s': System, id: nat)
    requires Valid(s) && Q.Valid(s'.queue) && s'.logs == s.logs
    requires id < |s.jobs| && |s'.jobs| == |s'.queue.tasks| == |s.jobs|
    requires forall j :: 0 <= j < |s.jobs| && j != id ==>
      s'.jobs[j] == s.jobs[j] && s'.queue.tasks[j] == s.queue.tasks[j]
    requires s'.queue.tasks[id].key == s.queue.tasks[id].key
    requires s.jobs[id].outcome.Applied? ==> s'.jobs[id] == s.jobs[id]
    requires JobAt(s', id)
    ensures Valid(s')
  {
    forall j | 0 <= j < |s.jobs| ensures JobAt(s', j) {
      assert JobAt(s, j);
    }
    forall k ensures LogAt(s', k) {
      assert LogAt(s, k);
    }
  }

  lemma QueueStepKeepsJob(s: System, a: Action)
    requires CanTake(s, a) && (a.Begin? || a.ReleaseTail? || a.FireCleanup?) && JobAt(s, a.id)
    ensures JobAt(Take(s, a), a.id)
  {
  }

  lemma QueueStepKeepsValid(s: System, a: Action)
    requires Valid(s) && CanTake(s, a) && (a.Begin? || a.ReleaseTail? || a.FireCleanup?)
    ensures Valid(Take(s, a))
  {
    var step := match a
      case Begin(i) => Q.Start(i)
      case ReleaseTail(i) => Q.ReleaseTail(i)
      case FireCleanup(i) => Q.FireCleanup(i);
    assert Q.Valid(Take(s, a).queue) by {
      Q.StepKeepsValid(s.queue, step);
    }
    assert JobAt(s, a.id);
    QueueStepKeepsJob(s, a);
    OneTaskKeepsValid(s, Take(s, a), a.id);
  }

  /** Only one task of an account is between load and submit. */
  lemma LoadedAlone(s: System, i: nat, j: nat)
    requires Valid(s) && InFlight(s, i) && j < |s.jobs| && j != i
    requires s.queue.tasks[j].key == s.queue.tasks[i].key
    ensures s.jobs[j].loaded.None?
    ensures j < i ==> Q.TailResolved(s.queue.tasks[j])
    ensures i < j ==> s.queue.tasks[j].phase.Queued?
  {
    assert JobAt(s, j);
    assert Q.AllEarlierResolved(s.queue, i);
    assert s.queue.tasks[j].phase.Queued? || Q.AllEarlierResolved(s.queue, j);
  }

  lemma AcceptedKeepsJobs(s: System, id: nat, j: nat)
    requires Valid(s) && CanTake(s, Submit(id)) && j < |s.jobs|
    requires s.jobs[id].loaded == Some(|LogOf(s, s.queue.tasks[id].key)|)
    ensures var s' := Take(s, Submit(id));
      JobAt(s', j)
  {
    var s' := Take(s, Submit(id));
    var key := s.queue.tasks[id].key;
    assert JobAt(s, j);
    if s.queue.tasks[j].key == key {
      if j != id {
        LoadedAlone(s, id, j);
      }
      GrownLogKeepsSpans(s'.jobs[j], LogOf(s, key), Ours(id));
    }
  }

  lemma AcceptedKeepsLog(s: System, id: nat, key: Q.Key)
    requires CanTake(s, Submit(id)) && LogAt(s, key) && s.jobs[id].outcome.Pending?
    requires s.jobs[id].loaded == Some(|LogOf(s, s.queue.tasks[id].key)|)
    ensures LogAt(Take(s, Submit(id)), key)
  {
  }

  lemma AcceptedKeepsValid(s: System, id: nat)
    requires Valid(s) && CanTake(s, Submit(id))
    requires s.jobs[id].loaded == Some(|LogOf(s, s.queue.tasks[id].key)|)
    ensures Valid(Take(s, Submit(id)))
  {
    var s' := Take(s, Submit(id));
    assert JobAt(s, id);
    forall j | 0 <= j < |s.jobs| ensures JobAt(s', j) {
      AcceptedKeepsJobs(s, id, j);
    }
    forall k ensures LogAt(s', k) {
      assert LogAt(s, k);
      AcceptedKeepsLog(s, id, k);
    }
    assert Q.Valid(s'.queue) by {
      Q.StepKeepsValid(s.queue, Q.Settle(id, true));
    }
  }

  lemma OtherJobStepKeepsJob(s: System, a: Action)
    requires CanTake(s, a) && (a.Load? || a.Submit? || a.Fail?) && JobAt(s, a.id)
    requires a.Submit? ==> s.jobs[a.id].loaded != Some(|LogOf(s, s.queue.tasks[a.id].key)|)
    ensures JobAt(Take(s, a), a.id) && Take(s, a).logs == s.logs
  {
  }

  lemma OtherJobStepKeepsValid(s: System, a: Action)
    requires Valid(s) && CanTake(s, a) && (a.Load? || a.Submit? || a.Fail?)
    requires a.Submit? ==> s.jobs[a.id].loaded != Some(|LogOf(s, s.queue.tasks[a.id].key)|)
    ensures Valid(Take(s, a))
  {
    assert JobAt(s, a.id);
    assert Q.Valid(Take(s, a).queue) by {
      Q.StepKeepsValid(s.queue, Q.Settle(a.id, false));
    }
    OtherJobStepKeepsJob(s, a);
    OneTaskKeepsValid(s, Take(s, a), a.id);
  }

  lemma StepKeepsValid(s: System, a: Action)
    requires Valid(s) && CanTake(s, a)
    ensures Valid(Take(s, a))
  {
    match a
    case OutsideWrite(key) => OutsideWriteKeepsValid(s, key);
    case Call(key) => CallKeepsValid(s, key);
    case Submit(i) =>
      if s.jobs[i].loaded.value == |LogOf(s, s.queue.tasks[i].key)| {
        AcceptedKeepsValid(s, i);
      } else {
        OtherJobStepKeepsValid(s, a);
      }
    case Load(_) => OtherJobStepKeepsValid(s, a);
    case Fail(_) => OtherJobStepKeepsValid(s, a);
    case _ => QueueStepKeepsValid(s, a);
  }

  // ------------------------------------------------------- every interleaving

  ghost predicate Legal(actions: seq<Action>)
    decreases |actions|, 0
  {
    actions == [] ||
    var before := actions[..|actions| - 1];
    Legal(before) && CanTake(Play(before), actions[|actions| - 1])
  }

  ghost function Play(actions: seq<Action>): System
    requires Legal(actions)
    decreases |actions|, 1
  {
    if actions == [] then INITIAL
    else Take(Play(actions[..|actions| - 1]), actions[|actions| - 1])
  }

  lemma {:induction false} ReachableValid(actions: seq<Action>)
    requires Legal(actions)
    ensures Valid(Play(actions))
  {
    if actions != [] {
      ReachableValid(actions[..|actions| - 1]);
      StepKeepsValid(Play(actions[..|actions| - 1]), actions[|actions| - 1]);
    }
  }

  ghost predicate LandedAt(s: System, key: Q.Key, position: nat, id: nat) {
    position < |LogOf(s, key)| && LogOf(s, key)[position] == Ours(id)
  }

  /** Whatever others write, a call submits at most three times, lands in its
      account's history at most once, and gives up for a bad sequence only after
      three attempts each of which an outside writer overtook. */
  lemma BoundedAndAtMostOnce(actions: seq<Action>, s: System, id: nat)
    requires Legal(actions) && s == Play(actions) && id < |s.jobs|
    ensures |s.jobs| == |s.queue.tasks|
    ensures |s.jobs[id].rejected| + (if s.jobs[id].outcome.BadSequence? then 0 else 1) <= 3
    ensures s.jobs[id].outcome.BadSequence? <==> |s.jobs[id].rejected| == 3
    ensures SpansValid(s.jobs[id], LogOf(s, s.queue.tasks[id].key))
    ensures forall key, p: nat :: LandedAt(s, key, p, id) ==>
      key == s.queue.tasks[id].key && s.jobs[id].outcome == Applied(p)
    ensures s.jobs[id].outcome.Applied? ==>
      LandedAt(s, s.queue.tasks[id].key, s.jobs[id].outcome.position, id)
    ensures s.jobs[id].outcome.BadSequence? ==>
      var log := LogOf(s, s.queue.tasks[id].key);
      exists p, q, r :: 0 <= p < q < r < |log| && log[p] == log[q] == log[r] == Outside
  {
    ReachableValid(actions);
    assert JobAt(s, id);
    forall key, p: nat | LandedAt(s, key, p, id)
      ensures key == s.queue.tasks[id].key && s.jobs[id].outcome == Applied(p)
    {
      assert LogAt(s, key);
    }
    if s.jobs[id].outcome.BadSequence? {
      ThreeOvertakes(s.jobs[id], LogOf(s, s.queue.tasks[id].key));
    }
  }

  lemma ThreeOvertakes(job: Job, log: seq<Entry>)
    requires SpansValid(job, log) && |job.rejected| == 3
    ensures exists p, q, r :: 0 <= p < q < r < |log| && log[p] == log[q] == log[r] == Outside
  {
    var p, q, r := job.rejected[0].loadedAt, job.rejected[1].loadedAt, job.rejected[2].loadedAt;
    assert OnlyOutside(log, p, job.rejected[0].rejectedAt);
    assert OnlyOutside(log, q, job.rejected[1].rejectedAt);
    assert OnlyOutside(log, r, job.rejected[2].rejectedAt);
    assert 0 <= p < q < r < |log| && log[p] == log[q] == log[r] == Outside;
  }

  lemma StaleMeansOutside(job: Job, log: seq<Entry>)
    requires SpansValid(job, log)
    requires job.rejected != [] || (job.loaded.Some? && job.loaded.value != |log|)
    ensures Outside in log
  {
    var p := if job.rejected != [] then job.rejected[0].loadedAt else job.loaded.value;
    assert log[p] == Outside;
  }

  /** On an account nobody else writes, every loaded sequence number is current
      until it is used, so no submission is ever rejected. */
  lemma AloneNeverRejected(actions: seq<Action>, s: System, id: nat)
    requires Legal(actions) && s == Play(actions) && id < |s.jobs| == |s.queue.tasks|
    requires Outside !in LogOf(s, s.queue.tasks[id].key)
    ensures s.jobs[id].rejected == [] && s.jobs[id].attempt == 0 && !s.jobs[id].outcome.BadSequence?
    ensures s.jobs[id].loaded.Some? ==>
      s.jobs[id].loaded.value == |LogOf(s, s.queue.tasks[id].key)|
  {
    ReachableValid(actions);
    var job, log := s.jobs[id], LogOf(s, s.queue.tasks[id].key);
    assert JobAt(s, id);
    if job.rejected != [] || (job.loaded.Some? && job.loaded.value != |log|) {
      StaleMeansOutside(job, log);
    }
  }

  // ------------------------------------------------------------ landing order

  /** The tasks of this process that appear in a history, oldest first. */
  function OursIn(log: seq<Entry>): seq<nat> {
    if log == [] then []
    else OursIn(log[..|log| - 1]) +
         (if log[|log| - 1].Ours? then [log[|log| - 1].task] else [])
  }

  /** Among the first `n` calls, those on `key` that were applied, in call order. */
  function AppliedCalls(tasks: seq<Q.Task>, jobs: seq<Job>, key: Q.Key, n: nat): seq<nat>
    requires n <= |tasks| && n <= |jobs|
  {
    if n == 0 then []
    else AppliedCalls(tasks, jobs, key, n - 1) +
         (if tasks[n - 1].key == key && jobs[n - 1].outcome.Applied? then [n - 1] else [])
  }

  lemma {:induction false} AppliedCallsSame(s: System, s': System, key: Q.Key, n: nat)
    requires n <= |s.jobs| == |s.queue.tasks| && n <= |s'.jobs| == |s'.queue.tasks|
    requires forall i :: 0 <= i < n ==> s.queue.tasks[i].key == s'.queue.tasks[i].key
    requires forall i :: 0 <= i < n && s.queue.tasks[i].key == key ==>
      s.jobs[i].outcome.Applied? == s'.jobs[i].outcome.Applied?
    ensures AppliedCalls(s.queue.tasks, s.jobs, key, n) == AppliedCalls(s'.queue.tasks, s'.jobs, key, n)
  {
    if n > 0 {
      AppliedCallsSame(s, s', key, n - 1);
    }
  }

  lemma {:induction false} AppliedCallsGains(s: System, s': System, id: nat, n: nat)
    requires id < n <= |s.jobs| == |s.queue.tasks| && |s'.jobs| == |s'.queue.tasks| == |s.jobs|
    requires forall i :: 0 <= i < n ==> s.queue.tasks[i].key == s'.queue.tasks[i].key
    requires forall i :: 0 <= i < n && i != id ==> s.jobs[i] == s'.jobs[i]
    requires !s.jobs[id].outcome.Applied? && s'.jobs[id].outcome.Applied?
    requires forall i :: id < i < n && s.queue.tasks[i].key == s.queue.tasks[id].key ==> !s.jobs[i].outcome.Applied?
    ensures AppliedCalls(s'.queue.tasks, s'.jobs, s.queue.tasks[id].key, n) ==
            AppliedCalls(s.queue.tasks, s.jobs, s.queue.tasks[id].key, n) + [id]
  {
    if n - 1 == id {
      AppliedCallsSame(s, s', s.queue.tasks[id].key, id);
    } else {
      AppliedCallsGains(s, s', id, n - 1);
    }
  }

  lemma AcceptedLands(s: System, id: nat)
    requires Valid(s) && CanTake(s, Submit(id))
    requires s.jobs[id].loaded == Some(|LogOf(s, s.queue.tasks[id].key)|)
    ensures var s' := Take(s, Submit(id));
      var key := s.queue.tasks[id].key;
      && |s'.jobs| == |s'.queue.tasks| == |s.jobs|
      && LogOf(s', key) == LogOf(s, key) + [Ours(id)]
      && AppliedCalls(s'.queue.tasks, s'.jobs, key, |s.jobs|) ==
         AppliedCalls(s.queue.tasks, s.jobs, key, |s.jobs|) + [id]
  {
    assert JobAt(s, id);
    forall j | id < j < |s.jobs| && s.queue.tasks[j].key == s.queue.tasks[id].key
      ensures !s.jobs[j].outcome.Applied?
    {
      assert JobAt(s, j);
      LoadedAlone(s, id, j);
    }
    AppliedCallsGains(s, Take(s, Submit(id)), id, |s.jobs|);
  }

  predicate Accepts(s: System, a: Action, key: Q.Key) {
    && CanTake(s, a) && a.Submit? && s.queue.tasks[a.id].key == key
    && s.jobs[a.id].loaded.value == |LogOf(s, key)|
  }

  /** A step of one task other than landing on `key`. */
  lemma TaskStepLandsNothing(s: System, a: Action, key: Q.Key)
    requires CanTake(s, a) && !a.Call? && !a.OutsideWrite? && !Accepts(s, a, key) && JobAt(s, a.id)
    ensures var s' := Take(s, a);
      && |s'.jobs| == |s'.queue.tasks| == |s.jobs|
      && LogOf(s', key) == LogOf(s, key)
      && (forall i :: 0 <= i < |s.jobs| ==> s.queue.tasks[i].key == s'.queue.tasks[i].key)
      && (forall i :: 0 <= i < |s.jobs| && i != a.id ==> s'.jobs[i] == s.jobs[i])
      && (s.queue.tasks[a.id].key == key ==>
            s.jobs[a.id].outcome.Applied? == s'.jobs[a.id].outcome.Applied?)
  {
  }

  ghost predicate Landed(s: System, key: Q.Key) {
    && |s.jobs| == |s.queue.tasks|
    && OursIn(LogOf(s, key)) == AppliedCalls(s.queue.tasks, s.jobs, key, |s.jobs|)
  }

  lemma AcceptedKeepsLanded(s: System, id: nat)
    requires Valid(s) && CanTake(s, Submit(id)) && Landed(s, s.queue.tasks[id].key)
    requires s.jobs[id].loaded == Some(|LogOf(s, s.queue.tasks[id].key)|)
    ensures Landed(Take(s, Submit(id)), s.queue.tasks[id].key)
  {
    var log := LogOf(s, s.queue.tasks[id].key);
    AcceptedLands(s, id);
    assert (log + [Ours(id)])[..|log|] == log;
  }

  lemma WriteKeepsLanded(s: System, written: Q.Key, key: Q.Key)
    requires Landed(s, key)
    ensures Landed(Take(s, OutsideWrite(written)), key)
  {
    var log := LogOf(s, key);
    assert (log + [Outside])[..|log|] == log;
  }

  lemma {:induction false} AppliedCallsExtend(
    tasks: seq<Q.Task>, jobs: seq<Job>, task: Q.Task, job: Job, key: Q.Key, n: nat)
    requires n <= |tasks| == |jobs|
    ensures AppliedCalls(tasks + [task], jobs + [job], key, n) == AppliedCalls(tasks, jobs, key, n)
  {
    if n > 0 {
      AppliedCallsExtend(tasks, jobs, task, job, key, n - 1);
    }
  }

  /** A call that has just been made has not landed. */
  lemma {:induction false} NewCallNotApplied(tasks: seq<Q.Task>, jobs: seq<Job>, task: Q.Task, key: Q.Key)
    requires |tasks| == |jobs|
    ensures AppliedCalls(tasks + [task], jobs + [FRESH], key, |tasks| + 1) == AppliedCalls(tasks, jobs, key, |tasks|)
  {
    AppliedCallsExtend(tasks, jobs, task, FRESH, key, |tasks|);
    assert (jobs + [FRESH])[|tasks|].outcome == Pending;
  }

  lemma {:induction false} CallKeepsLanded(s: System, called: Q.Key, key: Q.Key)
    requires Landed(s, key)
    ensures Landed(Take(s, Call(called)), key)
  {
    var s' := Take(s, Call(called));
    var n := |s.jobs|;
    assert AppliedCalls(s'.queue.tasks, s'.jobs, key, n + 1) == AppliedCalls(s.queue.tasks, s.jobs, key, n) by {
      var task := s'.queue.tasks[n];
      assert s'.queue.tasks == s.queue.tasks + [task] && s'.jobs == s.jobs + [FRESH];
      NewCallNotApplied(s.queue.tasks, s.jobs, task, key);
    }
  }

  lemma TaskStepKeepsLanded(s: System, a: Action, key: Q.Key)
    requires CanTake(s, a) && !a.Call? && !a.OutsideWrite? && !Accepts(s, a, key) && JobAt(s, a.id)
    requires Landed(s, key)
    ensures Landed(Take(s, a), key)
  {
    var s' := Take(s, a);
    assert |s'.jobs| == |s'.queue.tasks| == |s.jobs| && LogOf(s', key) == LogOf(s, key)
      && AppliedCalls(s'.queue.tasks, s'.jobs, key, |s.jobs|) == AppliedCalls(s.queue.tasks, s.jobs, key, |s.jobs|)
    by {
      TaskStepLandsNothing(s, a, key);
      AppliedCallsSame(s, s', key, |s.jobs|);
    }
  }

  lemma StepLands(s: System, a: Action, key: Q.Key)
    requires Valid(s) && CanTake(s, a) && Landed(s, key)
    ensures Landed(Take(s, a), key)
  {
    if a.OutsideWrite? {
      WriteKeepsLanded(s, a.key, key);
    } else if a.Call? {
      CallKeepsLanded(s, a.key, key);
    } else if Accepts(s, a, key) {
      AcceptedKeepsLanded(s, a.id);
    } else {
      assert JobAt(s, a.id);
      TaskStepKeepsLanded(s, a, key);
    }
  }

  /** Our entries in an account's history are exactly the applied calls, in the
      order in which they were called. */
  lemma {:induction false} LandInCallOrder(actions: seq<Action>, key: Q.Key)
    requires Legal(actions)
    ensures Landed(Play(actions), key)
  {
    if actions != [] {
      var before := actions[..|actions| - 1];
      ReachableValid(before);
      LandInCallOrder(before, key);
      StepLands(Play(before), actions[|actions| - 1], key);
    }
  }

  lemma {:induction false} AllAppliedIsCallOrder(s: System, key: Q.Key, n: nat)
    requires n <= |s.jobs| == |s.queue.tasks|
    requires forall i :: 0 <= i < n && s.queue.tasks[i].key == key ==> s.jobs[i].outcome.Applied?
    ensures AppliedCalls(s.queue.tasks, s.jobs, key, n) == Q.CallOrder(s.queue.tasks, key, n)
  {
    if n > 0 {
      AllAppliedIsCallOrder(s, key, n - 1);
    }
  }

  lemma {:induction false} OnlyOursReads(log: seq<Entry>)
    requires Outside !in log
    ensures |OursIn(log)| == |log|
    ensures forall p :: 0 <= p < |log| ==> log[p] == Ours(OursIn(log)[p])
  {
    if log != [] {
      var n := |log| - 1;
      assert log[n] != Outside;
      assert forall p :: 0 <= p < n ==> log[..n][p] == log[p];
      OnlyOursReads(log[..n]);
    }
  }

  /** The load gate: once every call on an account has settled, with no outside
      writer and no other failure, its history is the calls in call order. */
  lemma LoadGate(actions: seq<Action>, s: System, key: Q.Key)
    requires Legal(actions) && s == Play(actions) && |s.jobs| == |s.queue.tasks|
    requires Outside !in LogOf(s, key)
    requires forall i :: 0 <= i < |s.jobs| && s.queue.tasks[i].key == key ==>
      !s.jobs[i].outcome.Pending? && !s.jobs[i].outcome.OtherFailure?
    ensures var calls := Q.CallOrder(s.queue.tasks, key, |s.queue.tasks|);
      && |LogOf(s, key)| == |calls|
      && forall p :: 0 <= p < |calls| ==> LogOf(s, key)[p] == Ours(calls[p])
  {
    LandInCallOrder(actions, key);
    forall i | 0 <= i < |s.jobs| && s.queue.tasks[i].key == key ensures s.jobs[i].outcome.Applied? {
      AloneNeverRejected(actions, s, i);
    }
    AllAppliedIsCallOrder(s, key, |s.jobs|);
    OnlyOursReads(LogOf(s, key));
  }

  // --------------------------------------------------------------- completion

  /** Steps a task still owes at most, retries included. */
  function Owed(task: Q.Task, job: Job): int {
    match task.phase
    case Queued => 9
    case Running => 4 + 2 * (MAX_BAD_SEQ_RETRIES - job.attempt) - (if job.loaded.Some? then 1 else 0)
    case Settled(_) => 2
    case Released(_) => 1
    case Finished(_) => 0
  }

  lemma TaskStepUsesUp(s: System, a: Action)
    requires CanTake(s, a) && !a.Call? && !a.OutsideWrite? && JobAt(s, a.id)
    ensures var s' := Take(s, a);
      && |s'.jobs| == |s'.queue.tasks| == |s.jobs|
      && 0 <= Owed(s'.queue.tasks[a.id], s'.jobs[a.id]) < Owed(s.queue.tasks[a.id], s.jobs[a.id])
      && forall j :: 0 <= j < |s.jobs| && j != a.id ==>
           s'.queue.tasks[j] == s.queue.tasks[j] && s'.jobs[j] == s.jobs[j]
  {
  }

  /** Each step of a call, rejected submissions included, uses up part of what
      it owes, and while it is unfinished some step of it or of an older call on
      the queue is possible: no amount of outside writing keeps a call going. */
  lemma CallsComplete(s: System, id: nat) returns (a: Action)
    requires Valid(s) && id < |s.jobs| && !s.queue.tasks[id].phase.Finished?
    ensures CanTake(s, a) && !a.Call? && !a.OutsideWrite? && a.id <= id
    ensures var s' := Take(s, a);
      && |s'.jobs| == |s'.queue.tasks| == |s.jobs|
      && 0 <= Owed(s'.queue.tasks[a.id], s'.jobs[a.id]) < Owed(s.queue.tasks[a.id], s.jobs[a.id])
      && forall j :: 0 <= j < |s.jobs| && j != a.id ==>
           s'.queue.tasks[j] == s.queue.tasks[j] && s'.jobs[j] == s.jobs[j]
  {
    var step := Q.NeverStuck(s.queue, id);
    a := match step
      case Start(i) => Begin(i)
      case Settle(i, _) => if s.jobs[i].loaded.None? then Load(i) else Submit(i)
      case ReleaseTail(i) => ReleaseTail(i)
      case FireCleanup(i) => FireCleanup(i);
    assert JobAt(s, a.id);
    TaskStepUsesUp(s, a);
  }

  // ---------------------------------------------------------- the retry loop

  class Account {
    var log: seq<Entry>

    constructor (history: seq<Entry>)
      ensures log == history
    {
      log := history;
    }
  }

  function Outsiders(n: nat): seq<Entry> {
    seq(n, _ => Outside)
  }

  /** The number of outside writes during the first `k` attempts. */
  function Total(outside: seq<nat>, k: nat): nat
    requires k <= |outside|
  {
    if k == 0 then 0 else Total(outside, k - 1) + outside[k - 1]
  }

  /** What may break in an attempt, other than a bad sequence: loading the account,
      or the submission, which is then taken as not applied. */
  datatype Fault = NoFault | LoadFails | SubmitFails

  /** The outside writes up to the end of the k-th attempt; one whose load fails is over
      before anybody gets in. */
  function Intruders(outside: seq<nat>, faults: seq<Fault>, k: nat): nat
    requires 1 <= k <= |outside| == |faults|
  {
    Total(outside, k - 1) + if faults[k - 1].LoadFails? then 0 else outside[k - 1]
  }

  /** The task body: `outside[a]` writers get in between the load and the submit of
      attempt a.  It succeeds on the first undisturbed attempt, gives up at the
      first fault, and otherwise reports a bad sequence after the third attempt. */
  method SubmitManageData(account: Account, id: nat, outside: seq<nat>, faults: seq<Fault>)
    returns (outcome: Outcome, attempts: nat)
    requires |outside| == |faults| == 3
    modifies account
    ensures 1 <= attempts <= 3
    ensures forall a :: 0 <= a < attempts - 1 ==> outside[a] > 0 && faults[a].NoFault?
    ensures outcome.OtherFailure? <==> !faults[attempts - 1].NoFault?
    ensures outcome.Applied? <==> faults[attempts - 1].NoFault? && outside[attempts - 1] == 0
    ensures outcome.BadSequence? <==> faults[attempts - 1].NoFault? && outside[attempts - 1] > 0
    ensures outcome.BadSequence? ==> attempts == 3
    ensures outcome.Applied? ==> outcome.position == |old(account.log)| + Total(outside, attempts)
    ensures account.log == old(account.log) + Outsiders(Intruders(outside, faults, attempts))
                           + if outcome.Applied? then [Ours(id)] else []
  {
    attempts := 0;
    while true
      invariant 0 <= attempts <= MAX_BAD_SEQ_RETRIES
      invariant account.log == old(account.log) + Outsiders(Total(outside, attempts))
      invariant forall a :: 0 <= a < attempts ==> outside[a] > 0 && faults[a].NoFault?
      decreases MAX_BAD_SEQ_RETRIES - attempts
    {
      var attempt := attempts;
      attempts := attempts + 1;
      if faults[attempt].LoadFails? {
        return OtherFailure, attempts;
      }
      var loaded := |account.log|;
      account.log := account.log + Outsiders(outside[attempt]);
      assert account.log == old(account.log) + Outsiders(Total(outside, attempts));
      if faults[attempt].SubmitFails? {
        return OtherFailure, attempts;
      }
      if loaded == |account.log| {
        outcome := Applied(|account.log|);
        account.log := account.log + [Ours(id)];
        return;
      }
      if attempt < MAX_BAD_SEQ_RETRIES {
        continue;
      }
      return BadSequence, attempts;
    }
  }
}
