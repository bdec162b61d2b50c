/** A queue that serializes tasks: every task is chained behind the one added before, and the first
    exception in a chain starts a new one. */
module PromiseQueue {
  import opened Wrappers

  /** A task with the promise of `then` and the one of `catch`. `Thrown` is a rejection, of the task
      or passed on by the promise before it, that the catch handler has not seen; `Failed` is what
      the handler throws on. */
  datatype Status = Waiting | Running | Done | Thrown | Failed

  /** `behind` is the promise the task is chained to, none for a resolved one; `epoch` the exception
      count when it was added. */
  datatype Task = Task(behind: Option<nat>, epoch: nat, status: Status)

  /** `started` lists the tasks in the order in which they were called. */
  datatype State = State(exceptionCount: nat, queue: Option<nat>, tasks: seq<Task>, started: seq<nat>)

  datatype Step = Add | Start(i: nat) | Complete(i: nat) | Throw(i: nat) | Propagate(i: nat) | Handle(i: nat)

  // ---- The queue --------------------------------------------------------------------------

  /** The two fields, and what `add` and its catch handler do to them. */
  class PromiseQueue {
    var exceptionCount: nat
    var queue: Option<nat>

    constructor ()
      ensures exceptionCount == 0 && queue == None
    {
      exceptionCount, queue := 0, None;
    }

    /** `add`: the new task and its place; `id` names the promise it returns. */
    method Add(id: nat) returns (task: Task)
      modifies this`queue
      ensures task == Task(old(queue), exceptionCount, Waiting) && queue == Some(id)
    {
      task := Task(queue, exceptionCount, Waiting);
      queue := Some(id);
    }

    /** The catch handler: only the first exception of an epoch starts a new chain. */
    method Catch(exceptionCountAtEnqueue: nat)
      modifies this
      ensures (exceptionCount, queue) == Caught(old(exceptionCount), old(queue), exceptionCountAtEnqueue)
    {
      if exceptionCountAtEnqueue == exceptionCount {
        exceptionCount := exceptionCount + 1;
        queue := None;
      }
    }
  }

  function Caught(count: nat, queue: Option<nat>, epoch: nat): (nat, Option<nat>) {
    if epoch == count then (count + 1, None) else (count, queue)
  }

  // ---- Schedules --------------------------------------------------------------------------

  predicate Settled(tasks: seq<Task>, i: nat, status: Status) {
    i < |tasks| && tasks[i].status == status
  }

  /** A task may be added at any time, also by a running one; the others settle when what they
      wait for has settled. */
  predicate Enabled(s: State, step: Step) {
    match step
    case Add => true
    case Start(i) =>
      Settled(s.tasks, i, Waiting) && (s.tasks[i].behind.None? || Settled(s.tasks, s.tasks[i].behind.value, Done))
    case Complete(i) => Settled(s.tasks, i, Running)
    case Throw(i) => Settled(s.tasks, i, Running)
    case Propagate(i) =>
      Settled(s.tasks, i, Waiting) && s.tasks[i].behind.Some? && Settled(s.tasks, s.tasks[i].behind.value, Failed)
    case Handle(i) => Settled(s.tasks, i, Thrown)
  }

  function Put(tasks: seq<Task>, i: nat, status: Status): seq<Task>
    requires i < |tasks|
  {
    tasks[i := tasks[i].(status := status)]
  }

  function Do(s: State, step: Step): State
    requires Enabled(s, step)
  {
    match step
    case Add =>
      s.(tasks := s.tasks + [Task(s.queue, s.exceptionCount, Waiting)], queue := Some(|s.tasks|))
    case Start(i) => s.(tasks := Put(s.tasks, i, Running), started := s.started + [i])
    case Complete(i) => s.(tasks := Put(s.tasks, i, Done))
    case Throw(i) => s.(tasks := Put(s.tasks, i, Thrown))
    case Propagate(i) => s.(tasks := Put(s.tasks, i, Thrown))
    case Handle(i) =>
      var (count, queue) := Caught(s.exceptionCount, s.queue, s.tasks[i].epoch);
      State(count, queue, Put(s.tasks, i, Failed), s.started)
  }

  // ---- The invariant ----------------------------------------------------------------------

  function Before(tasks: seq<Task>, i: nat): Option<nat>
    requires i < |tasks|
  {
    if i > 0 && tasks[i - 1].epoch == tasks[i].epoch then Some(i - 1) else None
  }

  /** The tasks of an epoch form one chain, in the order in which they were added. */
  ghost predicate Chained(tasks: seq<Task>) {
    (forall i, j | 0 <= i < j < |tasks| :: tasks[i].epoch <= tasks[j].epoch) &&
    (forall i | 0 <= i < |tasks| :: tasks[i].behind == Before(tasks, i))
  }

  /** The queue is the end of the chain of the current epoch. */
  ghost predicate QueueOk(count: nat, queue: Option<nat>, tasks: seq<Task>) {
    (forall i | 0 <= i < |tasks| :: tasks[i].epoch <= count) &&
    queue == if tasks != [] && tasks[|tasks| - 1].epoch == count then Some(|tasks| - 1) else None
  }

  /** In the current epoch nothing has failed, and everything before a task that is no longer
      waiting is done. */
  ghost predicate CurrentOk(count: nat, tasks: seq<Task>) {
    forall j | 0 <= j < |tasks| && tasks[j].epoch == count ::
      !tasks[j].status.Failed? && (!tasks[j].status.Waiting? ==> DoneBefore(count, tasks, j))
  }

  ghost predicate DoneBefore(count: nat, tasks: seq<Task>, j: nat)
    requires j < |tasks|
  {
    forall i | 0 <= i < j && tasks[i].epoch == count :: tasks[i].status.Done?
  }

  /** In an earlier epoch nothing runs, and what still waits is behind something that will not be done. */
  ghost predicate PastOk(count: nat, tasks: seq<Task>) {
    forall i | 0 <= i < |tasks| && tasks[i].epoch < count ::
      !tasks[i].status.Running? && (tasks[i].status.Waiting? ==> Stuck(tasks, i))
  }

  predicate Stuck(tasks: seq<Task>, i: nat)
    requires i < |tasks|
  {
    i > 0 && tasks[i - 1].epoch == tasks[i].epoch && !tasks[i - 1].status.Done?
  }

  /** Behind a task that threw or was rejected, nothing of its epoch has been called. */
  ghost predicate NothingBehind(tasks: seq<Task>, started: seq<nat>) {
    forall i, j | 0 <= i < j < |tasks| && tasks[i].epoch == tasks[j].epoch && tasks[i].status in {Thrown, Failed} ::
      Uncalled(tasks, started, j)
  }

  ghost predicate Uncalled(tasks: seq<Task>, started: seq<nat>, j: nat)
    requires j < |tasks|
  {
    tasks[j].status in {Waiting, Thrown, Failed} && j !in started
  }

  /** The calls so far: in the order of the tasks, of no task that still waits, and of all that run
      or are done. */
  ghost predicate StartedOk(tasks: seq<Task>, started: seq<nat>) {
    (forall a, b | 0 <= a < b < |started| :: started[a] < started[b]) &&
    (forall i | i in started :: i < |tasks| && !tasks[i].status.Waiting?) &&
    (forall i | 0 <= i < |tasks| && tasks[i].status in {Running, Done} :: i in started)
  }

  ghost predicate Inv(s: State) {
    Chained(s.tasks) && QueueOk(s.exceptionCount, s.queue, s.tasks) && CurrentOk(s.exceptionCount, s.tasks) &&
    PastOk(s.exceptionCount, s.tasks) && NothingBehind(s.tasks, s.started) && StartedOk(s.tasks, s.started)
  }

  // ---- A task changes its status ----------------------------------------------------------

  lemma PutChained(tasks: seq<Task>, i: nat, status: Status)
    requires Chained(tasks) && i < |tasks|
    ensures Chained(Put(tasks, i, status))
  {
    var after := Put(tasks, i, status);
    assert forall k | 0 <= k < |tasks| :: after[k].epoch == tasks[k].epoch && after[k].behind == tasks[k].behind;
    assert forall k | 0 <= k < |tasks| :: Before(after, k) == Before(tasks, k);
  }

  lemma PutCurrent(count: nat, tasks: seq<Task>, i: nat, status: Status)
    requires CurrentOk(count, tasks) && i < |tasks| && !tasks[i].status.Done?
    requires tasks[i].epoch == count ==> !status.Failed? && DoneBefore(count, tasks, i)
    ensures CurrentOk(count, Put(tasks, i, status))
  {
    var after := Put(tasks, i, status);
    forall j | 0 <= j < |after| && after[j].epoch == count && !after[j].status.Waiting?
      ensures DoneBefore(count, after, j)
    {
      assert DoneBefore(count, tasks, j);
    }
  }

  lemma PutPast(count: nat, tasks: seq<Task>, i: nat, status: Status)
    requires PastOk(count, tasks) && i < |tasks| && (tasks[i].epoch < count ==> status in {Thrown, Failed})
    ensures PastOk(count, Put(tasks, i, status))
  {
    var after := Put(tasks, i, status);
    forall m | 0 <= m < |after| && after[m].epoch < count
      ensures !after[m].status.Running? && (after[m].status.Waiting? ==> Stuck(after, m))
    {
      assert tasks[m].epoch < count;
    }
  }

  lemma PutBehind(tasks: seq<Task>, started: seq<nat>, i: nat, status: Status)
    requires NothingBehind(tasks, started) && i < |tasks|
    requires status in {Thrown, Failed} ==>
      forall j | i < j < |tasks| && tasks[j].epoch == tasks[i].epoch :: Uncalled(tasks, started, j)
    requires status !in {Waiting, Thrown, Failed} ==>
      forall k | 0 <= k < i && tasks[k].epoch == tasks[i].epoch :: tasks[k].status !in {Thrown, Failed}
    ensures NothingBehind(Put(tasks, i, status), started)
  {
    var after := Put(tasks, i, status);
    forall k, j | 0 <= k < j < |after| && after[k].epoch == after[j].epoch && after[k].status in {Thrown, Failed}
      ensures Uncalled(after, started, j)
    {
      if k == i { assert Uncalled(tasks, started, j); } else { assert Uncalled(tasks, started, j); }
    }
  }

  lemma PutStarted(tasks: seq<Task>, started: seq<nat>, i: nat, status: Status)
    requires StartedOk(tasks, started) && i < |tasks|
    requires !status.Waiting? && (status in {Running, Done} ==> i in started)
    ensures StartedOk(Put(tasks, i, status), started)
  {
  }

  /** Behind a task of the current epoch that is not done, everything waits. */
  lemma WaitingBehind(s: State, i: nat)
    requires Inv(s) && i < |s.tasks| && s.tasks[i].epoch == s.exceptionCount && !s.tasks[i].status.Done?
    ensures forall j | i < j < |s.tasks| :: s.tasks[j].status.Waiting? && Uncalled(s.tasks, s.started, j)
  {
    hide PastOk, NothingBehind;
    assert forall j | i < j < |s.tasks| :: s.tasks[j].epoch == s.exceptionCount;
    assert forall j | i < j < |s.tasks| :: !DoneBefore(s.exceptionCount, s.tasks, j);
  }

  // ---- Every step keeps the invariant -----------------------------------------------------

  lemma AddChained(tasks: seq<Task>, task: Task)
    requires Chained(tasks) && (forall k | 0 <= k < |tasks| :: tasks[k].epoch <= task.epoch)
    requires task.behind == Before(tasks + [task], |tasks|)
    ensures Chained(tasks + [task])
  {
    hide Before;
    var after := tasks + [task];
    forall i, j | 0 <= i < j < |after| ensures after[i].epoch <= after[j].epoch {
      assert after[i] == tasks[i] && (j < |tasks| ==> after[j] == tasks[j]);
    }
    forall k | 0 <= k < |after| ensures after[k].behind == Before(after, k) {
      if k < |tasks| { BeforeSame(tasks, task, k); }
    }
  }

  lemma BeforeSame(tasks: seq<Task>, task: Task, k: nat)
    requires k < |tasks|
    ensures (tasks + [task])[k] == tasks[k] && Before(tasks + [task], k) == Before(tasks, k)
  {
  }

  lemma AddStatuses(count: nat, tasks: seq<Task>, started: seq<nat>, task: Task)
    requires CurrentOk(count, tasks) && PastOk(count, tasks) && StartedOk(tasks, started)
    requires task.status.Waiting? && task.epoch == count
    ensures CurrentOk(count, tasks + [task]) && PastOk(count, tasks + [task]) && StartedOk(tasks + [task], started)
  {
    var after := tasks + [task];
    assert forall k | 0 <= k < |tasks| :: after[k] == tasks[k];
    forall j | 0 <= j < |after| && after[j].epoch == count && !after[j].status.Waiting?
      ensures DoneBefore(count, after, j)
    {
      assert DoneBefore(count, tasks, j);
    }
    forall m | 0 <= m < |after| && after[m].epoch < count
      ensures !after[m].status.Running? && (after[m].status.Waiting? ==> Stuck(after, m))
    {
      assert after[m] == tasks[m];
    }
  }

  lemma AddBehind(tasks: seq<Task>, started: seq<nat>, task: Task)
    requires NothingBehind(tasks, started) && StartedOk(tasks, started) && task.status.Waiting?
    ensures NothingBehind(tasks + [task], started)
  {
    var after := tasks + [task];
    forall k, j | 0 <= k < j < |after| && after[k].epoch == after[j].epoch && after[k].status in {Thrown, Failed}
      ensures Uncalled(after, started, j)
    {
      if j < |tasks| { assert Uncalled(tasks, started, j); }
    }
  }

  lemma AddKeeps(s: State)
    requires Inv(s)
    ensures Inv(Do(s, Add))
  {
    hide Chained, CurrentOk, PastOk, NothingBehind, StartedOk;
    var task := Task(s.queue, s.exceptionCount, Waiting);
    AddChained(s.tasks, task);
    AddStatuses(s.exceptionCount, s.tasks, s.started, task);
    AddBehind(s.tasks, s.started, task);
  }

  /** What may be called is in the current epoch, and everything before it there is done. */
  lemma MayStart(s: State, i: nat)
    requires Inv(s) && Enabled(s, Start(i))
    ensures s.tasks[i].epoch == s.exceptionCount && DoneBefore(s.exceptionCount, s.tasks, i)
  {
    hide NothingBehind, StartedOk;
    assert s.tasks[i].behind == Before(s.tasks, i) && !Stuck(s.tasks, i) && s.tasks[i].epoch <= s.exceptionCount;
    forall k | 0 <= k < i && s.tasks[k].epoch == s.exceptionCount ensures s.tasks[k].status.Done? {
      assert s.tasks[k].epoch <= s.tasks[i - 1].epoch <= s.tasks[i].epoch;
      assert DoneBefore(s.exceptionCount, s.tasks, i - 1);
    }
  }

  lemma StartStarted(s: State, i: nat)
    requires Inv(s) && Enabled(s, Start(i))
    ensures StartedOk(Put(s.tasks, i, Running), s.started + [i])
  {
    hide CurrentOk, PastOk, NothingBehind, Chained, QueueOk;
    MayStart(s, i);
    WaitingBehind(s, i);
    AddStarted(s.tasks, s.started, i);
  }

  lemma AddStarted(tasks: seq<Task>, started: seq<nat>, i: nat)
    requires StartedOk(tasks, started) && i < |tasks| && forall k | k in started :: k < i
    ensures StartedOk(Put(tasks, i, Running), started + [i])
  {
    var more := started + [i];
    assert more[|started|] == i && forall k | k in started :: k in more;
    assert forall a | 0 <= a < |started| :: started[a] in started;
  }

  lemma StartBehind(s: State, i: nat)
    requires Inv(s) && Enabled(s, Start(i))
    ensures NothingBehind(Put(s.tasks, i, Running), s.started + [i])
  {
    hide PastOk, StartedOk, QueueOk, Chained, CurrentOk;
    MayStart(s, i);
    PutBehind(s.tasks, s.started, i, Running);
    var after := Put(s.tasks, i, Running);
    forall k, j | 0 <= k < j < |after| && after[k].epoch == after[j].epoch && after[k].status in {Thrown, Failed}
      ensures Uncalled(after, s.started + [i], j)
    {
      assert Uncalled(after, s.started, j);
    }
  }

  lemma StartKeeps(s: State, i: nat)
    requires Inv(s) && Enabled(s, Start(i))
    ensures Inv(Do(s, Start(i)))
  {
    hide Chained, CurrentOk, PastOk, NothingBehind, StartedOk;
    MayStart(s, i);
    PutChained(s.tasks, i, Running);
    PutCurrent(s.exceptionCount, s.tasks, i, Running);
    PutPast(s.exceptionCount, s.tasks, i, Running);
    StartBehind(s, i);
    StartStarted(s, i);
  }

  /** A running task is in the current epoch, and everything before it there is done. */
  lemma RunsInCurrent(s: State, i: nat)
    requires Inv(s) && Settled(s.tasks, i, Running)
    ensures s.tasks[i].epoch == s.exceptionCount && DoneBefore(s.exceptionCount, s.tasks, i) && i in s.started
  {
    assert s.tasks[i].epoch <= s.exceptionCount;
  }

  lemma CompleteKeeps(s: State, i: nat)
    requires Inv(s) && Enabled(s, Complete(i))
    ensures Inv(Do(s, Complete(i)))
  {
    hide Chained, CurrentOk, PastOk, NothingBehind, StartedOk;
    RunsInCurrent(s, i);
    PutChained(s.tasks, i, Done);
    PutCurrent(s.exceptionCount, s.tasks, i, Done);
    PutPast(s.exceptionCount, s.tasks, i, Done);
    PutBehind(s.tasks, s.started, i, Done);
    PutStarted(s.tasks, s.started, i, Done);
  }

  lemma ThrowKeeps(s: State, i: nat)
    requires Inv(s) && Enabled(s, Throw(i))
    ensures Inv(Do(s, Throw(i)))
  {
    hide Chained, CurrentOk, PastOk, NothingBehind, StartedOk, Uncalled;
    RunsInCurrent(s, i);
    WaitingBehind(s, i);
    PutChained(s.tasks, i, Thrown);
    PutCurrent(s.exceptionCount, s.tasks, i, Thrown);
    PutPast(s.exceptionCount, s.tasks, i, Thrown);
    PutBehind(s.tasks, s.started, i, Thrown);
    PutStarted(s.tasks, s.started, i, Thrown);
  }

  /** What is rejected or failed has nothing called behind it. */
  lemma UncalledBehind(s: State, i: nat)
    requires Inv(s) && i < |s.tasks| && s.tasks[i].status in {Thrown, Failed}
    ensures forall j | i < j < |s.tasks| && s.tasks[j].epoch == s.tasks[i].epoch :: Uncalled(s.tasks, s.started, j)
  {
  }

  lemma PropagateKeeps(s: State, i: nat)
    requires Inv(s) && Enabled(s, Propagate(i))
    ensures Inv(Do(s, Propagate(i)))
  {
    hide Chained, CurrentOk, PastOk, NothingBehind, StartedOk, Uncalled;
    FailedIsPast(s, i);
    UncalledBehind(s, i - 1);
    PutChained(s.tasks, i, Thrown);
    PutCurrent(s.exceptionCount, s.tasks, i, Thrown);
    PutPast(s.exceptionCount, s.tasks, i, Thrown);
    PutBehind(s.tasks, s.started, i, Thrown);
    PutStarted(s.tasks, s.started, i, Thrown);
  }

  /** A rejection is passed on only in an earlier epoch. */
  lemma FailedIsPast(s: State, i: nat)
    requires Inv(s) && Enabled(s, Propagate(i))
    ensures i > 0 && s.tasks[i - 1].epoch == s.tasks[i].epoch < s.exceptionCount && s.tasks[i - 1].status.Failed?
  {
    assert s.tasks[i].behind == Before(s.tasks, i);
    assert s.tasks[i - 1].epoch <= s.exceptionCount;
  }

  lemma HandleKeeps(s: State, i: nat)
    requires Inv(s) && Enabled(s, Handle(i))
    ensures Inv(Do(s, Handle(i)))
  {
    hide Chained, CurrentOk, PastOk, NothingBehind, StartedOk, Uncalled;
    UncalledBehind(s, i);
    PutChained(s.tasks, i, Failed);
    PutBehind(s.tasks, s.started, i, Failed);
    PutStarted(s.tasks, s.started, i, Failed);
    if s.tasks[i].epoch == s.exceptionCount {
      EpochEnds(s, i);
    } else {
      PutCurrent(s.exceptionCount, s.tasks, i, Failed);
      PutPast(s.exceptionCount, s.tasks, i, Failed);
    }
  }

  /** The first exception of an epoch: from then on the epoch is past. */
  lemma EpochEnds(s: State, i: nat)
    requires Inv(s) && Settled(s.tasks, i, Thrown) && s.tasks[i].epoch == s.exceptionCount
    ensures CurrentOk(s.exceptionCount + 1, Put(s.tasks, i, Failed))
    ensures PastOk(s.exceptionCount + 1, Put(s.tasks, i, Failed))
  {
    hide NothingBehind, StartedOk;
    WaitingBehind(s, i);
    var after := Put(s.tasks, i, Failed);
    assert forall m | 0 <= m < |after| :: after[m].epoch == s.tasks[m].epoch <= s.exceptionCount;
    forall m | 0 <= m < |after| && after[m].epoch < s.exceptionCount + 1
      ensures !after[m].status.Running? && (after[m].status.Waiting? ==> Stuck(after, m))
    {
      if s.tasks[m].epoch == s.exceptionCount {
        if m < i { assert DoneBefore(s.exceptionCount, s.tasks, i); }
        if m > i { assert s.tasks[i].epoch <= s.tasks[m - 1].epoch <= s.tasks[m].epoch; }
      } else if s.tasks[m].status.Waiting? {
        assert Stuck(s.tasks, m);
      }
    }
  }

  lemma StepKeeps(s: State, step: Step)
    requires Inv(s) && Enabled(s, step)
    ensures Inv(Do(s, step))
  {
    hide Inv, Enabled, Do;
    match step
    case Add => AddKeeps(s);
    case Start(i) => StartKeeps(s, i);
    case Complete(i) => CompleteKeeps(s, i);
    case Throw(i) => ThrowKeeps(s, i);
    case Propagate(i) => PropagateKeeps(s, i);
    case Handle(i) => HandleKeeps(s, i);
  }

  // ---- Runs -------------------------------------------------------------------------------

  const START := State(0, None, [], [])

  predicate LegalRun(steps: seq<Step>)
    decreases |steps|, 0
  {
    steps == [] ||
    (var n := |steps| - 1; LegalRun(steps[..n]) && Enabled(Run(steps[..n]), steps[n]))
  }

  function Run(steps: seq<Step>): State
    requires LegalRun(steps)
    decreases |steps|, 1
  {
    if steps == [] then START else Do(Run(steps[..|steps| - 1]), steps[|steps| - 1])
  }

  lemma {:induction false} RunKeeps(steps: seq<Step>)
    requires LegalRun(steps)
    ensures Inv(Run(steps))
  {
    if steps != [] {
      hide Inv, Do, Enabled;
      RunKeeps(steps[..|steps| - 1]);
      StepKeeps(Run(steps[..|steps| - 1]), steps[|steps| - 1]);
    }
  }

  /** On every schedule at most one task runs at a time. */
  lemma MutualExclusion(steps: seq<Step>, i: nat, j: nat)
    requires LegalRun(steps) && Settled(Run(steps).tasks, i, Running) && Settled(Run(steps).tasks, j, Running)
    ensures i == j
  {
    RunKeeps(steps);
    RunsInCurrent(Run(steps), i);
    RunsInCurrent(Run(steps), j);
  }

  /** Tasks are called in the order in which they were added, each once. */
  lemma CalledInOrder(steps: seq<Step>)
    requires LegalRun(steps)
    ensures var started := Run(steps).started; forall a, b | 0 <= a < b < |started| :: started[a] < started[b]
  {
    RunKeeps(steps);
  }

  /** Once a task threw, nothing that was queued behind it in its epoch is ever called. */
  lemma NoneBehindAThrow(steps: seq<Step>, i: nat, j: nat)
    requires LegalRun(steps) && i < j < |Run(steps).tasks|
    requires var t := Run(steps).tasks; t[i].epoch == t[j].epoch && t[i].status in {Thrown, Failed}
    ensures j !in Run(steps).started
  {
    RunKeeps(steps);
    UncalledBehind(Run(steps), i);
  }

  /** No step of the queue itself is left: nothing runs, may be called, is passed on or handled. */
  predicate Quiet(s: State) {
    forall i | 0 <= i < |s.tasks| ::
      !Enabled(s, Start(i)) && !Enabled(s, Complete(i)) && !Enabled(s, Propagate(i)) && !Enabled(s, Handle(i))
  }

  lemma {:induction false} QuietSettled(s: State, i: nat)
    requires Inv(s) && Quiet(s) && i < |s.tasks|
    ensures s.tasks[i].status in {Done, Failed}
    decreases i
  {
    assert s.tasks[i].behind == Before(s.tasks, i);
    assert !Enabled(s, Start(i)) && !Enabled(s, Complete(i)) && !Enabled(s, Propagate(i)) && !Enabled(s, Handle(i));
    if i > 0 { QuietSettled(s, i - 1); }
  }

  /** Nobody is left waiting: when nothing can go on any more, every task is done or failed, and in
      the current epoch, to which everything added since the last exception belongs, every task was
      called and is done. */
  lemma NothingStuck(steps: seq<Step>, i: nat)
    requires LegalRun(steps) && Quiet(Run(steps)) && i < |Run(steps).tasks|
    ensures var s := Run(steps);
      s.tasks[i].status in {Done, Failed} &&
      (s.tasks[i].epoch == s.exceptionCount ==> s.tasks[i].status.Done? && i in s.started)
  {
    RunKeeps(steps);
    QuietSettled(Run(steps), i);
  }
}
