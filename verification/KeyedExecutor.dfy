/** The sharded executor: a key always maps to the same worker, each worker has a bounded
    queue, and every lock-protected section is one step.  Any interleaving of posts, worker
    steps and stops is a run. */
module KeyedExecutor {
  import opened Messages
  import opened Runs

  datatype Task = Task(id: nat, key: nat)

  /** One shard.  `accepted`, `done` and `dropped` record its history in order. */
  datatype Shard = Shard(queue: seq<Task>, running: Option<Task>, stopping: bool, exited: bool,
                         accepted: seq<Task>, done: seq<Task>, dropped: seq<Task>)

  datatype Executor = Executor(capacity: nat, shards: seq<Shard>,
                               queued: int, completed: int, rejected: int, failures: int, cancelled: int)

  const EMPTY := Shard([], None, false, false, [], [], [])

  function Current(shard: Shard): seq<Task> {
    if shard.running.Some? then [shard.running.value] else []
  }

  datatype Event =
    | Post(task: Task)
    | StopShard(index: nat, drain: bool)
    | Take(index: nat)
    | Finish(index: nat, failed: bool)
    | Tick(index: nat, failed: bool)
    | Exit(index: nat)

  function ShardOf(e: Executor, key: nat): nat
    requires e.shards != []
  {
    key % |e.shards|
  }

  predicate Accepts(e: Executor, key: nat)
    requires e.shards != []
  {
    var shard := e.shards[ShardOf(e, key)];
    !shard.stopping && |shard.queue| < e.capacity
  }

  function Posted(e: Executor, task: Task): Executor
    requires e.shards != []
  {
    var i := ShardOf(e, task.key);
    var shard := e.shards[i];
    if !Accepts(e, task.key) then e.(rejected := e.rejected + 1)
    else e.(shards := e.shards[i := shard.(queue := shard.queue + [task], accepted := shard.accepted + [task])],
            queued := e.queued + 1)
  }

  function Stopped(e: Executor, i: nat, drain: bool): (r: Executor)
    requires i < |e.shards|
    ensures |r.shards| == |e.shards|
  {
    var shard := e.shards[i];
    if drain then e.(shards := e.shards[i := shard.(stopping := true)])
    else e.(shards := e.shards[i := shard.(stopping := true, dropped := shard.dropped + shard.queue, queue := [])],
            cancelled := e.cancelled + |shard.queue|, queued := e.queued - |shard.queue|)
  }

  function Taken(e: Executor, i: nat): Executor
    requires i < |e.shards| && e.shards[i].queue != []
  {
    var shard := e.shards[i];
    e.(shards := e.shards[i := shard.(running := Some(shard.queue[0]), queue := shard.queue[1..])], queued := e.queued - 1)
  }

  function Finished(e: Executor, i: nat, failed: bool): Executor
    requires i < |e.shards| && e.shards[i].running.Some?
  {
    var shard := e.shards[i];
    e.(shards := e.shards[i := shard.(done := shard.done + [shard.running.value], running := None)],
       completed := e.completed + 1, failures := e.failures + (if failed then 1 else 0))
  }

  predicate Next(e: Executor, event: Event, e': Executor) {
    match event
    case Post(task) => e.shards != [] && e' == Posted(e, task)
    case StopShard(i, drain) => i < |e.shards| && e' == Stopped(e, i, drain)
    case Take(i) =>
      && i < |e.shards| && e.shards[i].running.None? && !e.shards[i].exited && e.shards[i].queue != []
      && e' == Taken(e, i)
    case Finish(i, failed) =>
      i < |e.shards| && e.shards[i].running.Some? && e' == Finished(e, i, failed)
    case Tick(i, failed) =>
      && i < |e.shards| && e.shards[i].running.None? && !e.shards[i].exited && !e.shards[i].stopping
      && e' == e.(failures := e.failures + (if failed then 1 else 0))
    case Exit(i) =>
      && i < |e.shards| && e.shards[i].running.None? && e.shards[i].stopping && e.shards[i].queue == [] && !e.shards[i].exited
      && e' == e.(shards := e.shards[i := e.shards[i].(exited := true)])
  }

  /** What a shard has accepted is, in that order, what it has run, is running, has dropped
      and still has queued; tasks are dropped only by a stop that empties the queue for good. */
  ghost predicate ShardInv(shard: Shard, i: nat, n: nat, capacity: nat) {
    && shard.accepted == shard.done + Current(shard) + shard.dropped + shard.queue
    && |shard.queue| <= capacity
    && (shard.dropped != [] ==> shard.stopping && shard.queue == [])
    && (shard.exited ==> shard.stopping && shard.queue == [] && shard.running.None?)
    && n > 0 && forall t :: t in shard.accepted ==> t.key % n == i
  }

  function Total(measure: Shard -> int, shards: seq<Shard>): int {
    if shards == [] then 0 else Total(measure, shards[..|shards| - 1]) + measure(shards[|shards| - 1])
  }

  lemma {:induction false} TotalUpdate(measure: Shard -> int, shards: seq<Shard>, i: nat, shard: Shard)
    requires i < |shards|
    ensures Total(measure, shards[i := shard]) == Total(measure, shards) - measure(shards[i]) + measure(shard)
  {
    var n := |shards| - 1;
    if i < n {
      assert shards[i := shard][..n] == shards[..n][i := shard];
      TotalUpdate(measure, shards[..n], i, shard);
    } else {
      assert shards[i := shard][..n] == shards[..n];
    }
  }

  const QueueLength := (shard: Shard) => |shard.queue|
  const DoneCount := (shard: Shard) => |shard.done|
  const DroppedCount := (shard: Shard) => |shard.dropped|
  const RunningCount := (shard: Shard) => if shard.running.Some? then 1 else 0
  const AcceptedCount := (shard: Shard) => |shard.accepted|

  ghost predicate CountersInv(e: Executor) {
    && e.queued == Total(QueueLength, e.shards)
    && e.completed == Total(DoneCount, e.shards)
    && e.cancelled == Total(DroppedCount, e.shards)
  }

  ghost predicate Inv(e: Executor) {
    && (forall i :: 0 <= i < |e.shards| ==> ShardInv(e.shards[i], i, |e.shards|, e.capacity))
    && CountersInv(e)
  }

  lemma {:induction false} EmptyTotal(measure: Shard -> int, n: nat)
    requires measure(EMPTY) == 0
    ensures Total(measure, seq(n, _ => EMPTY)) == 0
  {
    if n > 0 {
      assert seq(n, _ => EMPTY)[..n - 1] == seq(n - 1, _ => EMPTY);
      EmptyTotal(measure, n - 1);
    }
  }

  function Initial(count: nat, capacity: nat): Executor {
    Executor(capacity, seq(count, _ => EMPTY), 0, 0, 0, 0, 0)
  }

  lemma InitialInv(count: nat, capacity: nat)
    ensures Inv(Initial(count, capacity))
  {
    EmptyTotal(QueueLength, count);
    EmptyTotal(DoneCount, count);
    EmptyTotal(DroppedCount, count);
  }

  /** Replacing one shard by a good one keeps the invariant when the counters follow. */
  lemma UpdateKeepsInv(e: Executor, i: nat, shard: Shard, e': Executor)
    requires Inv(e) && i < |e.shards| && ShardInv(shard, i, |e.shards|, e.capacity)
    requires e'.capacity == e.capacity && e'.shards == e.shards[i := shard]
    requires e'.queued == e.queued - |e.shards[i].queue| + |shard.queue|
    requires e'.completed == e.completed - |e.shards[i].done| + |shard.done|
    requires e'.cancelled == e.cancelled - |e.shards[i].dropped| + |shard.dropped|
    ensures Inv(e')
  {
    hide ShardInv;
    TotalUpdate(QueueLength, e.shards, i, shard);
    TotalUpdate(DoneCount, e.shards, i, shard);
    TotalUpdate(DroppedCount, e.shards, i, shard);
  }

  lemma StepKeepsInv(e: Executor, event: Event, e': Executor)
    requires Inv(e) && Next(e, event, e')
    ensures Inv(e')
  {
    hide ShardInv, CountersInv;
    match event
    case Post(task) =>
      var i := ShardOf(e, task.key);
      if Accepts(e, task.key) {
        PushInv(e.shards[i], task, i, |e.shards|, e.capacity);
        UpdateKeepsInv(e, i, e'.shards[i], e');
      } else {
        SameCounters(e, e');
      }
    case StopShard(i, drain) =>
      StopInv(e.shards[i], i, |e.shards|, e.capacity);
      UpdateKeepsInv(e, i, e'.shards[i], e');
    case Take(i) =>
      WorkInv(e.shards[i], i, |e.shards|, e.capacity);
      UpdateKeepsInv(e, i, e'.shards[i], e');
    case Finish(i, failed) =>
      WorkInv(e.shards[i], i, |e.shards|, e.capacity);
      UpdateKeepsInv(e, i, e'.shards[i], e');
    case Tick(i, failed) =>
      SameCounters(e, e');
    case Exit(i) =>
      WorkInv(e.shards[i], i, |e.shards|, e.capacity);
      UpdateKeepsInv(e, i, e'.shards[i], e');
  }

  lemma SameCounters(e: Executor, e': Executor)
    requires CountersInv(e) && e' == e.(rejected := e'.rejected, failures := e'.failures)
    ensures CountersInv(e')
  {
  }

  lemma PushInv(shard: Shard, task: Task, i: nat, n: nat, capacity: nat)
    requires ShardInv(shard, i, n, capacity) && !shard.stopping && |shard.queue| < capacity && task.key % n == i
    ensures ShardInv(shard.(queue := shard.queue + [task], accepted := shard.accepted + [task]), i, n, capacity)
  {
  }

  lemma StopInv(shard: Shard, i: nat, n: nat, capacity: nat)
    requires ShardInv(shard, i, n, capacity)
    ensures ShardInv(shard.(stopping := true), i, n, capacity)
    ensures ShardInv(shard.(stopping := true, dropped := shard.dropped + shard.queue, queue := []), i, n, capacity)
  {
  }

  lemma WorkInv(shard: Shard, i: nat, n: nat, capacity: nat)
    requires ShardInv(shard, i, n, capacity)
    ensures shard.running.None? && shard.queue != [] && !shard.exited ==>
              ShardInv(shard.(running := Some(shard.queue[0]), queue := shard.queue[1..]), i, n, capacity)
    ensures shard.running.Some? ==>
              ShardInv(shard.(done := shard.done + [shard.running.value], running := None), i, n, capacity)
    ensures shard.running.None? && shard.stopping && shard.queue == [] ==>
              ShardInv(shard.(exited := true), i, n, capacity)
  {
    if shard.queue != [] {
      assert shard.queue == [shard.queue[0]] + shard.queue[1..];
    }
  }

  type Run = seq<Transition<Event, Executor>>

  lemma RunKeepsInv(e: Executor, run: Run)
    requires Inv(e) && IsRun(Next, e, run)
    ensures Inv(Final(e, run))
  {
    hide Inv, Next;
    forall a, event, b | Inv(a) && Next(a, event, b) ensures Inv(b) { StepKeepsInv(a, event, b); }
    InvariantHolds(Next, Inv, e, run);
  }

  lemma {:induction false} TotalAccepted(shards: seq<Shard>, n: nat, capacity: nat)
    requires |shards| <= n && forall i :: 0 <= i < |shards| ==> ShardInv(shards[i], i, n, capacity)
    ensures Total(AcceptedCount, shards) ==
            Total(QueueLength, shards) + Total(RunningCount, shards) + Total(DoneCount, shards) + Total(DroppedCount, shards)
  {
    if shards != [] {
      TotalAccepted(shards[..|shards| - 1], n, capacity);
    }
  }

  /** Conservation, in every state of every run: accepted = queued + running + completed +
      cancelled, and no queue is longer than the capacity. */
  lemma TasksConserved(count: nat, capacity: nat, run: Run)
    requires IsRun(Next, Initial(count, capacity), run)
    ensures var e := Final(Initial(count, capacity), run);
            && Total(AcceptedCount, e.shards) == e.queued + Total(RunningCount, e.shards) + e.completed + e.cancelled
            && forall i :: 0 <= i < |e.shards| ==> |e.shards[i].queue| <= e.capacity
  {
    InitialInv(count, capacity);
    RunKeepsInv(Initial(count, capacity), run);
    var e := Final(Initial(count, capacity), run);
    TotalAccepted(e.shards, |e.shards|, e.capacity);
  }

  /** Tasks with one key share a shard and are started in acceptance order, one at a time: when
      a task is running or done, every task accepted before it on that shard is done. */
  lemma SameKeyInOrder(e: Executor, i: nat, a: nat, b: nat)
    requires Inv(e) && i < |e.shards| && a < b < |e.shards[i].accepted|
    requires b < |e.shards[i].done| + |Current(e.shards[i])|
    ensures a < |e.shards[i].done| && e.shards[i].done[a] == e.shards[i].accepted[a]
    ensures (e.shards[i].done + Current(e.shards[i]))[b] == e.shards[i].accepted[b]
  {
    assert ShardInv(e.shards[i], i, |e.shards|, e.capacity);
  }

  lemma OneShardPerKey(e: Executor, i: nat, j: nat, s: Task, t: Task)
    requires Inv(e) && i < |e.shards| && j < |e.shards| && s in e.shards[i].accepted && t in e.shards[j].accepted && s.key == t.key
    ensures i == j
  {
    assert ShardInv(e.shards[i], i, |e.shards|, e.capacity) && ShardInv(e.shards[j], j, |e.shards|, e.capacity);
  }

  /** The work a stopping shard still has to do. */
  function Work(shard: Shard): nat {
    2 * |shard.queue| + (if shard.running.Some? then 1 else 0) + (if shard.exited then 0 else 1)
  }

  predicate WorkerStep(event: Event, i: nat) {
    event == Take(i) || (event.Finish? && event.index == i) || event == Exit(i)
  }

  /** A stop terminates: a shard that is stopping and not done can always take a worker step,
      every worker step lowers its remaining work and no other step raises it. */
  lemma StopTerminates(e: Executor, event: Event, e': Executor, i: nat)
    requires Inv(e) && Next(e, event, e') && i < |e.shards| && e.shards[i].stopping
    ensures i < |e'.shards| && e'.shards[i].stopping && Work(e'.shards[i]) <= Work(e.shards[i])
    ensures WorkerStep(event, i) ==> Work(e'.shards[i]) < Work(e.shards[i])
    ensures Work(e.shards[i]) == 0 <==> e.shards[i].exited
  {
    assert ShardInv(e.shards[i], i, |e.shards|, e.capacity);
  }

  lemma WorkerCanStep(e: Executor, i: nat) returns (event: Event, e': Executor)
    requires Inv(e) && i < |e.shards| && e.shards[i].stopping && !e.shards[i].exited
    ensures WorkerStep(event, i) && Next(e, event, e')
  {
    var shard := e.shards[i];
    if shard.running.Some? {
      event, e' := Finish(i, false), Finished(e, i, false);
    } else if shard.queue != [] {
      event, e' := Take(i), Taken(e, i);
    } else {
      event, e' := Exit(i), e.(shards := e.shards[i := shard.(exited := true)]);
    }
  }

  ghost predicate Drains(e: Executor, i: nat) {
    i < |e.shards| && e.shards[i].dropped == []
  }

  /** After a draining stop has ended, every accepted task has run exactly once, in order. */
  lemma {:induction false} DrainRunsEverything(e: Executor, run: Run, i: nat)
    requires Inv(e) && IsRun(Next, e, run) && Drains(e, i)
    requires forall j :: 0 <= j < |run| ==> (run[j].event.StopShard? ==> run[j].event.drain)
    ensures Drains(Final(e, run), i) && i < |Final(e, run).shards|
    ensures Final(e, run).shards[i].exited ==> Final(e, run).shards[i].done == Final(e, run).shards[i].accepted
    decreases run
  {
    hide ShardInv, Inv, Next, Drains;
    if run == [] {
      ExitedIsDone(e, i);
    } else {
      StepDrains(e, run[0].event, run[0].after, i);
      StepKeepsInv(e, run[0].event, run[0].after);
      DrainRunsEverything(run[0].after, run[1..], i);
      assert Final(e, run) == Final(run[0].after, run[1..]);
    }
  }

  lemma StepDrains(e: Executor, event: Event, e': Executor, i: nat)
    requires Next(e, event, e') && Drains(e, i) && (event.StopShard? ==> event.drain)
    ensures Drains(e', i)
  {
  }

  lemma ExitedIsDone(e: Executor, i: nat)
    requires Inv(e) && Drains(e, i)
    ensures i < |e.shards| && (e.shards[i].exited ==> e.shards[i].done == e.shards[i].accepted)
  {
    assert ShardInv(e.shards[i], i, |e.shards|, e.capacity);
  }

  /** A draining stop ends: at most 2n + 2 worker steps finish the n queued tasks, with every
      accepted task run once and in order. */
  lemma {:induction false} DrainingStopEnds(e: Executor, i: nat) returns (run: Run)
    requires Inv(e) && Drains(e, i) && e.shards[i].stopping
    ensures IsRun(Next, e, run) && |run| <= Work(e.shards[i])
    ensures i < |Final(e, run).shards| && Final(e, run).shards[i].exited
    ensures Final(e, run).shards[i].done == Final(e, run).shards[i].accepted
    decreases Work(e.shards[i])
  {
    hide Inv, Next, ShardInv, Work;
    ExitedIsDone(e, i);
    if e.shards[i].exited {
      run := [];
    } else {
      var event, e' := WorkerCanStep(e, i);
      StopTerminates(e, event, e', i);
      StepDrains(e, event, e', i);
      StepKeepsInv(e, event, e');
      var rest := DrainingStopEnds(e', i);
      run := [Transition(event, e')] + rest;
      assert run[1..] == rest && Final(e, run) == Final(e', rest);
    }
  }

  class Workers {
    const capacity: nat
    var shards: seq<Shard>
    var queued: int
    var completed: int
    var rejected: int
    var failures: int
    var cancelled: int

    function State(): Executor
      reads this
    {
      Executor(capacity, shards, queued, completed, rejected, failures, cancelled)
    }

    ghost predicate Valid()
      reads this
    {
      Inv(State()) && shards != []
    }

    constructor (count: nat, capacity: nat)
      requires count > 0 && capacity > 0
      ensures Valid() && State() == Initial(count, capacity)
    {
      this.capacity := capacity;
      shards := seq(count, _ => EMPTY);
      queued, completed, rejected, failures, cancelled := 0, 0, 0, 0, 0;
      new;
      InitialInv(count, capacity);
    }

    method PostTask(task: Task) returns (ok: bool)
      requires Valid()
      modifies this
      ensures Valid() && State() == Posted(old(State()), task) && ok == Accepts(old(State()), task.key)
    {
      StepKeepsInv(State(), Post(task), Posted(State(), task));
      var i := task.key % |shards|;
      var shard := shards[i];
      if shard.stopping || |shard.queue| >= capacity {
        rejected := rejected + 1;
        return false;
      }
      shards := shards[i := shard.(queue := shard.queue + [task], accepted := shard.accepted + [task])];
      queued := queued + 1;
      return true;
    }

    /** A worker takes the oldest task of its shard, if there is one. */
    method TakeTask(i: nat) returns (task: Option<Task>)
      requires Valid() && i < |shards| && shards[i].running.None? && !shards[i].exited
      modifies this
      ensures Valid()
      ensures if old(shards)[i].queue == [] then State() == old(State()) && task == None
              else State() == Taken(old(State()), i) && task == shards[i].running
    {
      var shard := shards[i];
      if shard.queue == [] {
        return None;
      }
      StepKeepsInv(State(), Take(i), Taken(State(), i));
      task := Some(shard.queue[0]);
      shards := shards[i := shard.(queue := shard.queue[1..], running := task)];
      queued := queued - 1;
    }

    /** A task that throws counts as a failure and still completes. */
    method FinishTask(i: nat, failed: bool)
      requires Valid() && i < |shards| && shards[i].running.Some?
      modifies this
      ensures Valid() && State() == Finished(old(State()), i, failed)
    {
      StepKeepsInv(State(), Finish(i, failed), Finished(State(), i, failed));
      if failed {
        failures := failures + 1;
      }
      var shard := shards[i];
      shards := shards[i := shard.(done := shard.done + [shard.running.value], running := None)];
      completed := completed + 1;
    }

    /** One shard of a stop. */
    method StopOne(i: nat, drain: bool)
      requires Valid() && i < |shards|
      modifies this
      ensures Valid() && State() == Stopped(old(State()), i, drain)
    {
      hide Inv;
      StopKeeps(State(), i, drain);
      var shard := shards[i];
      if !drain {
        cancelled, queued := cancelled + |shard.queue|, queued - |shard.queue|;
        shard := shard.(dropped := shard.dropped + shard.queue, queue := []);
      }
      shards := shards[i := shard.(stopping := true)];
    }

    /** The first half of a stop; afterwards no shard accepts a task and, unless draining, no
        queue holds one. */
    method Stop(drain: bool)
      requires Valid()
      modifies this
      ensures Valid() && State() == StoppedUpTo(old(State()), |old(shards)|, drain)
      ensures forall i :: 0 <= i < |shards| ==> shards[i] == Stopped(old(State()), i, drain).shards[i]
      ensures completed == old(completed) && rejected == old(rejected)
    {
      hide Inv, Stopped;
      for i := 0 to |shards|
        invariant Valid() && |shards| == |old(shards)| && State() == StoppedUpTo(old(State()), i, drain)
      {
        StopOne(i, drain);
      }
      AllStopped(old(State()), drain);
    }
  }

  lemma StopKeeps(e: Executor, i: nat, drain: bool)
    requires Inv(e) && i < |e.shards|
    ensures Inv(Stopped(e, i, drain))
  {
    StepKeepsInv(e, StopShard(i, drain), Stopped(e, i, drain));
  }

  /** The first `n` shards stopped, one after the other. */
  function StoppedUpTo(e: Executor, n: nat, drain: bool): (r: Executor)
    requires n <= |e.shards|
    ensures |r.shards| == |e.shards|
  {
    if n == 0 then e else Stopped(StoppedUpTo(e, n - 1, drain), n - 1, drain)
  }

  lemma AllStopped(e: Executor, drain: bool)
    ensures var r := StoppedUpTo(e, |e.shards|, drain);
            && r.completed == e.completed && r.rejected == e.rejected
            && forall i :: 0 <= i < |e.shards| ==> r.shards[i] == Stopped(e, i, drain).shards[i]
  {
    hide Stopped, StoppedUpTo;
    forall i | 0 <= i < |e.shards|
      ensures StoppedUpTo(e, |e.shards|, drain).shards[i] == Stopped(e, i, drain).shards[i]
    {
      EveryShardStopped(e, |e.shards|, drain, i);
    }
    StopCounters(e, |e.shards|, drain);
  }

  lemma {:induction false} StopCounters(e: Executor, n: nat, drain: bool)
    requires n <= |e.shards|
    ensures StoppedUpTo(e, n, drain).completed == e.completed && StoppedUpTo(e, n, drain).rejected == e.rejected
  {
    if n > 0 {
      StopCounters(e, n - 1, drain);
    }
  }

  /** Each of them is stopped as if alone: accepting nothing more and, unless draining, empty. */
  lemma {:induction false} EveryShardStopped(e: Executor, n: nat, drain: bool, i: nat)
    requires n <= |e.shards| && i < |e.shards|
    ensures StoppedUpTo(e, n, drain).shards[i] == if i < n then Stopped(e, i, drain).shards[i] else e.shards[i]
  {
    if n > 0 {
      EveryShardStopped(e, n - 1, drain, i);
      EveryShardStopped(e, n - 1, drain, n - 1);
    }
  }
}
