/** The timed executor of src/core/async_executor: callers schedule and cancel tasks while one worker
    thread runs them when their time has come.

    Each method is one atomic step, taken by the worker or by some caller. What the worker does
    under the mutex, between waking up and choosing what to do, is several steps, because tasks
    are cancelled under a mutex of their own; no other step that needs the executor's mutex
    comes in between.
 */
module Executors {
  import opened Common

  const MAX_TIMESTAMP := 0xFFFF_FFFF_FFFF_FFFF

  datatype Task = Task(id: nat, timestamp: nat)

  /** Where the worker is: waiting, until a time at the latest if there is a deadline, where `seen` is
      the time read before the wait began; holding the mutex; about to execute a task; or gone.
   */
  datatype Worker = Awaiting(until: Option<nat>, seen: nat) | Choosing | Executing(task: Task) | Stopped

  /** `k` is where a priority queue may have its top. */
  predicate Top(queue: seq<Task>, k: nat) {
    k < |queue| && forall i :: 0 <= i < |queue| ==> queue[k].timestamp <= queue[i].timestamp
  }

  predicate NotBefore(queue: seq<Task>, t: nat) {
    forall i :: 0 <= i < |queue| ==> t <= queue[i].timestamp
  }

  predicate Representable(queue: seq<Task>) {
    forall i :: 0 <= i < |queue| ==> queue[i].timestamp <= MAX_TIMESTAMP
  }

  function Without(queue: seq<Task>, k: nat): (rest: seq<Task>)
    requires k < |queue|
    ensures |rest| == |queue| - 1
    ensures forall t :: NotBefore(queue, t) ==> NotBefore(rest, t)
    ensures Representable(queue) ==> Representable(rest)
  {
    queue[..k] + queue[k + 1..]
  }

  ghost function Ids(tasks: seq<Task>): (ids: set<nat>) {
    set i | 0 <= i < |tasks| :: tasks[i].id
  }

  ghost predicate Distinct(tasks: seq<Task>) {
    forall i, j :: 0 <= i < j < |tasks| ==> tasks[i].id != tasks[j].id
  }

  /** The tasks numbered below n are each exactly once in exactly one of the lists. */
  ghost predicate Partition(n: nat, queue: seq<Task>, flying: seq<Task>, ran: seq<Task>, skipped: seq<Task>) {
    && Distinct(queue) && Distinct(ran) && Distinct(skipped)
    && Ids(queue) !! Ids(flying) !! Ids(ran) !! Ids(skipped)
    && Ids(queue) + Ids(flying) + Ids(ran) + Ids(skipped) == Below(n)
  }

  lemma IdsMore(tasks: seq<Task>, t: Task)
    ensures Ids(tasks + [t]) == Ids(tasks) + {t.id}
    ensures Distinct(tasks) && t.id !in Ids(tasks) ==> Distinct(tasks + [t])
  {
    assert (tasks + [t])[|tasks|] == t;
    assert forall i :: 0 <= i < |tasks| ==> (tasks + [t])[i] == tasks[i];
  }

  lemma IdsLess(tasks: seq<Task>, k: nat)
    requires k < |tasks|
    ensures Ids(tasks) == Ids(Without(tasks, k)) + {tasks[k].id}
    ensures Distinct(tasks) ==> Distinct(Without(tasks, k)) && tasks[k].id !in Ids(Without(tasks, k))
  {
    var rest := Without(tasks, k);
    forall id
      ensures id in Ids(tasks) <==> id in Ids(rest) || id == tasks[k].id
    {
      if i :| 0 <= i < |tasks| && tasks[i].id == id && i != k {
        assert rest[if i < k then i else i - 1] == tasks[i];
      }
    }
    DistinctLess(tasks, k);
  }

  lemma DistinctLess(tasks: seq<Task>, k: nat)
    requires k < |tasks|
    ensures Distinct(tasks) ==> Distinct(Without(tasks, k)) && tasks[k].id !in Ids(Without(tasks, k))
  {
    var rest := Without(tasks, k);
    assert forall i :: 0 <= i < |rest| ==> rest[i] == tasks[if i < k then i else i + 1];
  }

  lemma PartitionMore(n: nat, queue: seq<Task>, flying: seq<Task>, ran: seq<Task>, skipped: seq<Task>, t: Task)
    requires Partition(n, queue, flying, ran, skipped) && t.id == n
    ensures Partition(n + 1, queue + [t], flying, ran, skipped)
  {
    IdsMore(queue, t);
  }

  lemma PartitionTake(n: nat, queue: seq<Task>, ran: seq<Task>, skipped: seq<Task>, k: nat)
    requires Partition(n, queue, [], ran, skipped) && k < |queue|
    ensures Partition(n, Without(queue, k), [queue[k]], ran, skipped)
    ensures Partition(n, Without(queue, k), [], ran, skipped + [queue[k]])
  {
    IdsLess(queue, k);
    IdsMore(skipped, queue[k]);
    IdsMore([], queue[k]);
    assert [] + [queue[k]] == [queue[k]];
  }

  lemma PartitionDone(n: nat, queue: seq<Task>, ran: seq<Task>, skipped: seq<Task>, t: Task)
    requires Partition(n, queue, [t], ran, skipped)
    ensures Partition(n, queue, [], ran + [t], skipped)
    ensures Partition(n, queue, [], ran, skipped + [t])
  {
    IdsMore(ran, t);
    IdsMore(skipped, t);
    IdsMore([], t);
    assert [] + [t] == [t];
  }

  // ---------------------------------------------------------------- the steps

  datatype Step =
    | Later(ticks: nat) | Schedule(timestamp: nat) | WakeUp | Work(top: nat) | CancelTask(id: nat) | Shutdown

  datatype State = State(cap: nat, clock: nat, queue: seq<Task>, running: bool, update: bool, next: nat, worker: Worker,
                         cancelled: set<nat>, issued: nat, ran: seq<Task>, skipped: seq<Task>)

  predicate Wakes(s: State) {
    && s.worker.Awaiting?
    && (!s.running || s.update || s.worker.seen > s.next || (s.worker.until.Some? && s.worker.until.value <= s.clock))
  }

  function Scheduled(s: State, timestamp: nat): (t: State) {
    var u := s.(queue := s.queue + [Task(s.issued, timestamp)], issued := s.issued + 1);
    if timestamp < s.next then u.(next := timestamp, update := true) else u
  }

  function Discarded(s: State, k: nat): (t: State)
    requires k < |s.queue|
  {
    s.(queue := Without(s.queue, k), skipped := s.skipped + [s.queue[k]])
  }

  function Chosen(s: State, k: nat): (t: State)
    requires s.queue == [] || k < |s.queue|
  {
    if s.queue == [] then
      if s.running then s.(next := MAX_TIMESTAMP, worker := Awaiting(None, s.clock)) else s.(worker := Stopped)
    else
      var top := s.queue[k];
      if s.clock < top.timestamp then s.(next := top.timestamp, worker := Awaiting(Some(top.timestamp), s.clock))
      else s.(next := top.timestamp, worker := Executing(top), queue := Without(s.queue, k))
  }

  function Executed(s: State): (t: State)
    requires s.worker.Executing?
  {
    var task := s.worker.task;
    var u := s.(worker := Awaiting(Some(task.timestamp), s.clock));
    if task.id in s.cancelled then u.(skipped := s.skipped + [task]) else u.(ran := s.ran + [task])
  }

  /** What a step of anybody does, if it can be taken. Nobody but the worker gets the mutex while the
      worker chooses.
   */
  function After(s: State, step: Step): (t: State) {
    match step
    case Later(ticks) => if s.clock + ticks <= MAX_TIMESTAMP then s.(clock := s.clock + ticks) else s
    case Schedule(timestamp) =>
      if timestamp <= MAX_TIMESTAMP && !s.worker.Choosing? && |s.queue| < s.cap then Scheduled(s, timestamp) else s
    case WakeUp => if Wakes(s) then s.(update := false, worker := Choosing) else s
    case Work(k) =>
      if s.worker.Executing? then Executed(s)
      else if s.worker.Choosing? && (s.queue == [] || Top(s.queue, k)) then
        if s.queue != [] && s.queue[k].id in s.cancelled then Discarded(s, k) else Chosen(s, k)
      else s
    case CancelTask(id) => if id < s.issued then s.(cancelled := s.cancelled + {id}) else s
    case Shutdown => if s.worker.Choosing? then s else s.(running := false)
  }

  /** The step is a successful cancellation. */
  predicate Confirms(s: State, step: Step) {
    step.CancelTask? && step.id < s.issued && step.id !in s.cancelled
  }

  function AfterAll(s: State, steps: seq<Step>): (t: State) {
    if steps == [] then s else After(AfterAll(s, steps[..|steps| - 1]), steps[|steps| - 1])
  }

  lemma OneStep(s: State, step: Step)
    ensures AfterAll(s, [step]) == After(s, step)
  {
    assert [step][..0] == [];
  }

  lemma MoreSteps(s: State, steps: seq<Step>, step: Step)
    ensures AfterAll(s, steps + [step]) == After(AfterAll(s, steps), step)
  {
    assert (steps + [step])[..|steps|] == steps;
  }

  lemma {:induction false} AfterBoth(s: State, steps: seq<Step>, more: seq<Step>)
    ensures AfterAll(s, steps + more) == AfterAll(AfterAll(s, steps), more)
  {
    if more == [] {
      assert steps + more == steps;
    } else {
      var n := |more| - 1;
      AfterBoth(s, steps, more[..n]);
      assert steps + more == steps + more[..n] + [more[n]];
      MoreSteps(s, steps + more[..n], more[n]);
    }
  }

  /** Time passes, and the worker works. */
  ghost predicate OwnSteps(steps: seq<Step>) {
    forall n :: 0 <= n < |steps| ==> steps[n].Later? || steps[n].WakeUp? || steps[n].Work?
  }

  /** The tasks whose cancellation succeeded, in order. */
  function Confirmed(s: State, steps: seq<Step>): (ids: seq<nat>) {
    if steps == [] then []
    else
      var front, last := steps[..|steps| - 1], steps[|steps| - 1];
      Confirmed(s, front) + if Confirms(AfterAll(s, front), last) then [last.id] else []
  }

  /** Cancelled in time. */
  ghost predicate Doomed(s: State, id: nat) {
    id in s.cancelled && id !in Ids(s.ran)
  }

  /** The worker waits without a deadline, nobody has told it about what is queued, and so no time
      that passes wakes it.
   */
  predicate Stuck(s: State) {
    s.running && s.worker.Awaiting? && s.worker.until.None? && !s.update && s.queue != []
  }

  /** Nobody schedules a task or shuts the executor down. */
  ghost predicate Unaided(steps: seq<Step>) {
    forall n :: 0 <= n < |steps| ==> !steps[n].Schedule? && !steps[n].Shutdown?
  }

  /** What all steps keep: a task cancelled before it was executed is never executed, and once the
      worker has left, no task is executed any more.
   */
  ghost predicate Kept(s: State, t: State) {
    && s.cancelled <= t.cancelled && s.ran <= t.ran && s.issued <= t.issued && (!s.running ==> !t.running)
    && (forall id :: Doomed(s, id) ==> Doomed(t, id))
    && (s.worker.Stopped? ==> t.worker.Stopped? && t.ran == s.ran)
  }

  /** Nor is any executed by a stuck worker, until somebody schedules a task or shuts the executor down. */
  ghost predicate StillStuck(s: State, t: State) {
    Stuck(s) && s.worker.seen <= s.next ==> Stuck(t) && t.worker.seen <= t.next && t.ran == s.ran
  }

  lemma StepKeeps(s: State, step: Step)
    ensures Kept(s, After(s, step))
    ensures !step.Schedule? && !step.Shutdown? ==> StillStuck(s, After(s, step))
  {
    if s.worker.Executing? {
      IdsMore(s.ran, s.worker.task);
    }
  }

  lemma {:induction false} RunKeeps(s: State, steps: seq<Step>)
    ensures Kept(s, AfterAll(s, steps))
    ensures Unaided(steps) ==> StillStuck(s, AfterAll(s, steps))
  {
    if steps != [] {
      RunKeeps(s, steps[..|steps| - 1]);
      StepKeeps(AfterAll(s, steps[..|steps| - 1]), steps[|steps| - 1]);
    }
  }

  lemma {:induction false} ConfirmedOnce(s: State, steps: seq<Step>)
    ensures forall i :: 0 <= i < |Confirmed(s, steps)| ==> Confirmed(s, steps)[i] in AfterAll(s, steps).cancelled
    ensures forall i, j :: 0 <= i < j < |Confirmed(s, steps)| ==> Confirmed(s, steps)[i] != Confirmed(s, steps)[j]
  {
    if steps != [] {
      var n := |steps| - 1;
      ConfirmedOnce(s, steps[..n]);
      StepKeeps(AfterAll(s, steps[..n]), steps[n]);
    }
  }

  class Executor {
    const cap: nat
    var clock: nat
    var queue: seq<Task>
    var running: bool
    var update: bool
    var next: nat
    var worker: Worker
    var cancelled: set<nat>
    var issued: nat  // numbers the tasks, which the program tells apart by their addresses
    // The tasks executed so far, and those dropped as cancelled.
    ghost var ran: seq<Task>
    ghost var skipped: seq<Task>

    ghost function InFlight(): (ts: seq<Task>)
      reads this
    {
      if worker.Executing? then [worker.task] else []
    }

    ghost function Now(): (s: State)
      reads this
    {
      State(cap, clock, queue, running, update, next, worker, cancelled, issued, ran, skipped)
    }

    /** The time against which the worker's wait is, or will be, computed. */
    ghost function Target(): (t: nat)
      reads this
    {
      match worker
      case Awaiting(until, _) => if until.None? then MAX_TIMESTAMP else until.value
      case Executing(task) => task.timestamp
      case _ => 0
    }

    /** Every accepted task is in exactly one place, and only cancelled ones are dropped. */
    ghost predicate Accounted()
      reads this
    {
      Partition(issued, queue, InFlight(), ran, skipped) && Ids(skipped) <= cancelled
    }

    /** No wake-up is lost, and nothing is executed early. */
    ghost predicate Timed()
      reads this
    {
      && |queue| <= cap && NotBefore(queue, next) && Representable(queue) && next <= MAX_TIMESTAMP
      && (update || Target() <= next) && Target() <= MAX_TIMESTAMP
      && clock <= MAX_TIMESTAMP && (worker.Awaiting? ==> worker.seen <= clock)
      && (worker.Executing? ==> worker.task.timestamp <= clock)
      && (forall i :: 0 <= i < |ran| ==> ran[i].timestamp <= clock)
    }

    ghost predicate Valid()
      reads this
    {
      Accounted() && Timed()
    }

    constructor (cap: nat)
      ensures Valid() && this.cap == cap && queue == [] && running && !update && next == MAX_TIMESTAMP
      ensures worker == Awaiting(None, 0) && cancelled == {} && issued == 0 && ran == skipped == []
    {
      this.cap := cap;
      clock, queue, running, update, next := 0, [], true, false, MAX_TIMESTAMP;
      worker, cancelled, issued := Awaiting(None, 0), {}, 0;
      ran, skipped := [], [];
    }

    /** The worker's wait is over. */
    predicate Awake()
      reads this
    {
      worker.Awaiting? && (!running || update || worker.seen > next || Due(worker.until))
    }

    predicate Due(until: Option<nat>)
      reads this`clock
    {
      until.Some? && until.value <= clock
    }

    /** Whenever a queued task is due, a waiting worker goes on, unless it is stuck; it is stuck only
        over tasks for the very last moment of the clock. A worker told to stop always goes on.
     */
    lemma NoLostWakeUp(k: nat)
      requires Valid() && worker.Awaiting? && k < |queue|
      ensures !running ==> Awake()
      ensures queue[k].timestamp <= clock ==> (Awake() <==> !Stuck(Now()))
      ensures Stuck(Now()) ==> queue[k].timestamp == MAX_TIMESTAMP && !Awake()
    {
    }

    method Tick(now: nat)
      requires Valid() && clock <= now <= MAX_TIMESTAMP
      modifies this`clock
      ensures Valid() && clock == now
    {
      clock := now;
    }

    method ScheduleFor(timestamp: nat) returns (task: Option<nat>)
      requires Valid() && timestamp <= MAX_TIMESTAMP && !worker.Choosing?
      modifies this`queue, this`next, this`update, this`issued
      ensures Valid()
      ensures task.None? <==> old(|queue|) >= cap
      ensures task.None? ==> queue == old(queue) && issued == old(issued)
      ensures task.Some? ==> task.value == old(issued) && issued == old(issued) + 1
      ensures task.Some? ==> queue == old(queue) + [Task(task.value, timestamp)]
      ensures update == (old(update) || (task.Some? && timestamp < old(next)))
      ensures next == if task.Some? && timestamp < old(next) then timestamp else old(next)
    {
      if |queue| >= cap {
        return None;
      }
      var t := Task(issued, timestamp);
      PartitionMore(issued, queue, InFlight(), ran, skipped, t);
      queue, issued := queue + [t], issued + 1;
      if timestamp < next {
        next, update := timestamp, true;
      }
      return Some(t.id);
    }

    /** The worker wakes up and takes the mutex. */
    method Wake()
      requires Valid() && Awake()
      modifies this`update, this`worker
      ensures Valid() && worker.Choosing? && !update
    {
      update, worker := false, Choosing;
    }

    /** The worker drops a cancelled task from the top of the queue. */
    method Discard(k: nat)
      requires Valid() && worker.Choosing? && Top(queue, k) && queue[k].id in cancelled
      modifies this`queue, this`skipped
      ensures Valid() && queue == Without(old(queue), k) && skipped == old(skipped) + [old(queue)[k]]
    {
      PartitionTake(issued, queue, ran, skipped, k);
      IdsMore(skipped, queue[k]);
      skipped := skipped + [queue[k]];
      queue := Without(queue, k);
    }

    /** With no cancelled task on top of the queue, the worker takes a due task, or waits for the
        next one, or leaves. It leaves only when told to stop and with nothing queued; it takes a
        task only when it is due and none is due earlier.
     */
    method Choose(k: nat)
      requires Valid() && worker.Choosing? && (queue != [] ==> Top(queue, k))
      modifies this`queue, this`next, this`worker
      ensures Valid() && !worker.Choosing?
      ensures worker.Stopped? <==> old(queue) == [] && !running
      ensures worker.Executing? <==> old(queue) != [] && old(queue)[k].timestamp <= clock
      ensures if worker.Executing?
              then
                && worker.task == old(queue)[k] && NotBefore(old(queue), worker.task.timestamp)
                && queue == Without(old(queue), k)
              else queue == old(queue)
      ensures Now() == Chosen(old(Now()), k)
      ensures worker.Awaiting? ==>
                && worker == Awaiting(if queue == [] then None else Some(queue[k].timestamp), clock)
                && next == if queue == [] then MAX_TIMESTAMP else queue[k].timestamp
    {
      if queue == [] {
        if !running {
          worker := Stopped;
        } else {
          next, worker := MAX_TIMESTAMP, Awaiting(None, clock);
        }
        return;
      }
      var top := queue[k];
      next := top.timestamp;
      if clock < next {
        worker := Awaiting(Some(next), clock);
      } else {
        PartitionTake(issued, queue, ran, skipped, k);
        queue := Without(queue, k);
        worker := Executing(top);
      }
    }

    /** The worker executes the task unless it has been cancelled by now, and goes back to wait,
        with a timeout that is already over.
     */
    method Execute()
      requires Valid() && worker.Executing?
      modifies this`worker, this`ran, this`skipped
      ensures Valid() && Awake() && Now() == Executed(old(Now()))
      ensures var t := old(worker).task;
        if t.id in cancelled then ran == old(ran) && skipped == old(skipped) + [t]
        else ran == old(ran) + [t] && skipped == old(skipped)
    {
      var t := worker.task;
      PartitionDone(issued, queue, ran, skipped, t);
      IdsMore(skipped, t);
      if t.id in cancelled {
        skipped := skipped + [t];
      } else {
        ran := ran + [t];
      }
      worker := Awaiting(Some(t.timestamp), clock);
    }

    /** Cancels a task, whatever has become of it. Only the first attempt reports success. */
    method Cancel(id: nat) returns (ok: bool)
      requires Valid() && id < issued
      modifies this`cancelled
      ensures Valid() && ok == (id !in old(cancelled)) && cancelled == old(cancelled) + {id}
    {
      if id in cancelled {
        return false;
      }
      cancelled := cancelled + {id};
      return true;
    }

    method Stop()
      requires Valid() && !worker.Choosing?
      modifies this`running
      ensures Valid() && !running
    {
      running := false;
    }

    /** One step of anybody, if it can be taken; `ok` if it is a successful cancellation. */
    method Take(step: Step) returns (ok: bool)
      requires Valid()
      modifies this
      ensures Valid() && Now() == After(old(Now()), step) && ok == Confirms(old(Now()), step)
      ensures Kept(old(Now()), Now())
      ensures !step.Schedule? && !step.Shutdown? ==> StillStuck(old(Now()), Now())
    {
      StepKeeps(Now(), step);
      ok := false;
      match step {
        case Later(ticks) =>
          if clock + ticks <= MAX_TIMESTAMP {
            Tick(clock + ticks);
          }
        case Schedule(timestamp) =>
          if timestamp <= MAX_TIMESTAMP && !worker.Choosing? {
            var _ := ScheduleFor(timestamp);
          }
        case WakeUp =>
          if Awake() {
            Wake();
          }
        case Work(k) => Proceed(k);
        case CancelTask(id) =>
          if id < issued {
            ok := Cancel(id);
          }
        case Shutdown =>
          if !worker.Choosing? {
            Stop();
          }
      }
    }

    /** The worker's next step, if it is not waiting. */
    method Proceed(k: nat)
      requires Valid()
      modifies this`queue, this`next, this`worker, this`ran, this`skipped
      ensures Valid() && Now() == After(old(Now()), Work(k))
    {
      if worker.Executing? {
        Execute();
      } else if worker.Choosing? && (queue == [] || Top(queue, k)) {
        if queue != [] && queue[k].id in cancelled {
          Discard(k);
        } else {
          Choose(k);
        }
      }
    }

    /** Any run from any state: every step that can be taken has its effect, and a cancellation succeeds
        at most once for each task.
     */
    method Run(steps: seq<Step>) returns (confirmed: seq<nat>)
      requires Valid()
      modifies this
      ensures Valid() && Now() == AfterAll(old(Now()), steps) && confirmed == Confirmed(old(Now()), steps)
      ensures Kept(old(Now()), Now()) && (Unaided(steps) ==> StillStuck(old(Now()), Now()))
      ensures forall i, j :: 0 <= i < j < |confirmed| ==> confirmed[i] != confirmed[j]
    {
      RunKeeps(Now(), steps);
      ConfirmedOnce(Now(), steps);
      confirmed := [];
      for n := 0 to |steps|
        invariant Valid() && Now() == AfterAll(old(Now()), steps[..n]) && confirmed == Confirmed(old(Now()), steps[..n])
      {
        assert steps[..n + 1][..n] == steps[..n];
        var ok := Take(steps[n]);
        if ok {
          confirmed := confirmed + [steps[n].id];
        }
      }
      assert steps[..|steps|] == steps;
    }

    method FindTop() returns (k: nat)
      requires queue != []
      ensures Top(queue, k)
    {
      k := 0;
      for i := 1 to |queue|
        invariant k < i && forall j :: 0 <= j < i ==> queue[k].timestamp <= queue[j].timestamp
      {
        if queue[i].timestamp < queue[k].timestamp {
          k := i;
        }
      }
    }

    /** The worker's own next step, if necessary after some time: to wake up, to drop a cancelled task,
        or to take or execute a task.
     */
    method Advance() returns (ghost steps: seq<Step>)
      requires Valid() && !worker.Stopped? && !Stuck(Now()) && (queue != [] || worker.Executing?)
      modifies this`clock, this`queue, this`next, this`update, this`worker, this`ran, this`skipped
      ensures Valid() && !worker.Stopped? && !Stuck(Now())
      ensures OwnSteps(steps) && Now() == AfterAll(old(Now()), steps)
      ensures Left() < old(Left()) || (Left() == old(Left()) && old(worker).Awaiting? && worker.Choosing?)
    {
      if worker.Executing? {
        Execute();
        steps := [Work(0)];
        OneStep(old(Now()), Work(0));
      } else if worker.Awaiting? {
        steps := Rouse();
      } else {
        steps := Serve();
      }
    }

    method Rouse() returns (ghost steps: seq<Step>)
      requires Valid() && worker.Awaiting? && !Stuck(Now()) && queue != []
      modifies this`clock, this`update, this`worker
      ensures Valid() && worker.Choosing? && OwnSteps(steps) && Now() == AfterAll(old(Now()), steps)
    {
      ghost var wait := Await(if worker.until.Some? then worker.until.value else 0);
      MoreSteps(old(Now()), wait, WakeUp);
      steps := wait + [WakeUp];
      Wake();
    }

    method Serve() returns (ghost steps: seq<Step>)
      requires Valid() && worker.Choosing? && queue != []
      modifies this`clock, this`queue, this`next, this`worker, this`ran, this`skipped
      ensures Valid() && (worker.Choosing? || worker.Executing?) && |queue| == |old(queue)| - 1
      ensures OwnSteps(steps) && Now() == AfterAll(old(Now()), steps)
    {
      var k := FindTop();
      ghost var wait := Await(if queue[k].id in cancelled then 0 else queue[k].timestamp);
      MoreSteps(old(Now()), wait, Work(k));
      steps := wait + [Work(k)];
      Proceed(k);
    }

    /** Time passes until `moment`, if that is not over. */
    method Await(moment: nat) returns (ghost steps: seq<Step>)
      requires Valid() && moment <= MAX_TIMESTAMP
      modifies this`clock
      ensures Valid() && moment <= clock && OwnSteps(steps) && Now() == AfterAll(old(Now()), steps)
    {
      steps := [];
      if clock < moment {
        steps := [Later(moment - clock)];
        OneStep(Now(), Later(moment - clock));
        Tick(moment);
      }
    }

    ghost function Left(): (n: nat)
      reads this
    {
      2 * |queue| + if worker.Executing? then 1 else 0
    }

    /** Left to itself, a worker that is there and not stuck gets all accepted tasks done: by its own
        steps, each has then been executed or cancelled.
     */
    method Settle() returns (ghost steps: seq<Step>)
      requires Valid() && !worker.Stopped? && !Stuck(Now())
      modifies this`clock, this`queue, this`next, this`update, this`worker, this`ran, this`skipped
      ensures Valid() && OwnSteps(steps) && Now() == AfterAll(old(Now()), steps)
      ensures queue == [] && !worker.Executing?
      ensures forall id: nat :: id < issued ==> id in Ids(ran) || id in cancelled
    {
      steps := [];
      while queue != [] || worker.Executing?
        invariant Valid() && !worker.Stopped? && !Stuck(Now())
        invariant OwnSteps(steps) && Now() == AfterAll(old(Now()), steps)
        decreases Left(), if worker.Awaiting? then 1 else 0
      {
        ghost var more := Advance();
        AfterBoth(old(Now()), steps, more);
        steps := steps + more;
      }
      assert Ids([]) == {};
    }
  }

  /** A task may be accepted and never executed: here the worker has left before. */
  method Stranded(timestamp: nat, steps: seq<Step>) returns (e: Executor, id: nat)
    requires timestamp <= MAX_TIMESTAMP
    ensures e.Valid() && id < e.issued && id !in Ids(e.ran) && e.worker.Stopped?
  {
    e := new Executor(1);
    e.Stop();
    e.Wake();
    e.Choose(0);
    var task := e.ScheduleFor(timestamp);
    id := task.value;
    var _ := e.Run(steps);
  }

  /** Or it is for the last moment of the clock, and nothing ever wakes the worker. */
  method Overlooked(steps: seq<Step>) returns (e: Executor, id: nat)
    requires Unaided(steps)
    ensures e.Valid() && id < e.issued && id !in Ids(e.ran) && !e.worker.Stopped?
  {
    e := new Executor(1);
    var task := e.ScheduleFor(MAX_TIMESTAMP);
    id := task.value;
    var _ := e.Run(steps);
  }
}
