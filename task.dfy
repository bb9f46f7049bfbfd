/**
 * The Task wrapper's own bookkeeping: the start-once flag, the task handle,
 * the stored name, stack size and task data, and the delayUntil wake-time
 * capture.
 *
 * The kernel calls are not modelled. Their observable effects on the
 * wrapper are:
 * - xTaskCreate's return code and the handle it writes on success are
 *   parameters.
 * - The handles handed to vTaskDelete are recorded, in order.
 * - The (previous wake time, period) pairs handed to vTaskDelayUntil are
 *   recorded, in order.
 * vTaskDelayUntil advances the previous wake time by the period, wrapping
 * as TickType_t does. That is the kernel's documented contract for its
 * in/out argument, and it is what makes the calls periodic.
 */
module Tasks {
  import opened FreeRtos

  type Uint16 = x: int | 0 <= x < 0x1_0000
  type Uint8 = x: int | 0 <= x < 0x100

  /** A C pointer (task handle or task data): NULL or some address. */
  datatype Ptr = Null | Addr(address: nat)

  /** One call of vTaskDelayUntil: the previous wake time passed in, and the period. */
  datatype DelayRequest = DelayRequest(previousWakeTime: Tick, period: Tick)

  /** The fields of a Task object, plus the kernel calls it has made. */
  datatype TaskState = TaskState(
    name: string,
    stackSize: Uint16,
    priority: Uint8,
    taskData: Ptr,
    handle: Ptr,
    taskStarted: bool,
    delayUntilInitialized: bool,
    previousWakeTime: Tick,
    deleted: seq<Ptr>,
    delays: seq<DelayRequest>)

  /**
   * Task::start. `rc` is what xTaskCreate returns and `created` the handle
   * it writes on success. The second component is start's result.
   */
  function Started(s: TaskState, taskData: Ptr, rc: int, created: Ptr): (r: (TaskState, bool))
    ensures r.1 <==> !s.taskStarted && rc == PdPass
    ensures s.taskStarted ==> r.0 == s
    ensures r.0.taskStarted
    ensures !s.taskStarted ==> r.0.taskData == taskData
    ensures r.0.handle == if !s.taskStarted && rc == PdPass then created else s.handle
  {
    if s.taskStarted then
      (s, false)
    else
      var t := s.(taskStarted := true, taskData := taskData);
      var t' := if rc == PdPass then t.(handle := created) else t;
      (t', rc == PdPass)
  }

  /** Task::stop: clears the handle before deleting the task; nothing to do without a handle. */
  function Stopped(s: TaskState): (r: TaskState)
    ensures r.handle == Null
    ensures s.handle == Null ==> r == s
    ensures s.handle != Null ==> r.deleted == s.deleted + [s.handle]
  {
    if s.handle == Null then s
    else s.(handle := Null, deleted := s.deleted + [s.handle])
  }

  /**
   * Task::delayUntil at tick count `now`: the previous wake time is read
   * from the tick count only on the first call after construction or
   * reset; then the kernel waits until it plus the period.
   */
  function Delayed(s: TaskState, period: Tick, now: Tick): (r: TaskState)
    ensures r.delayUntilInitialized
    ensures |r.delays| == |s.delays| + 1 && r.delays[..|s.delays|] == s.delays
    ensures r.delays[|s.delays|].previousWakeTime == if s.delayUntilInitialized then s.previousWakeTime else now
    ensures r.previousWakeTime == TickAdd(r.delays[|s.delays|].previousWakeTime, period)
  {
    var from := if s.delayUntilInitialized then s.previousWakeTime else now;
    s.(delayUntilInitialized := true,
       previousWakeTime := TickAdd(from, period),
       delays := s.delays + [DelayRequest(from, period)])
  }

  /** The calls a Task object accepts after construction. */
  datatype TaskCall =
    | Start(taskData: Ptr, rc: int, created: Ptr)
    | Stop
    | SetStackSize(stackSize: Uint16)
    | SetName(name: string)
    | DelayUntil(period: Tick, now: Tick)
    | ResetDelayUntil

  function Apply(s: TaskState, c: TaskCall): TaskState
  {
    match c
    case Start(d, rc, h) => Started(s, d, rc, h).0
    case Stop => Stopped(s)
    case SetStackSize(n) => s.(stackSize := n)
    case SetName(n) => s.(name := n)
    case DelayUntil(p, now) => Delayed(s, p, now)
    case ResetDelayUntil => s.(delayUntilInitialized := false)
  }

  function Run(s: TaskState, calls: seq<TaskCall>): TaskState
    decreases |calls|
  {
    if calls == [] then s else Run(Apply(s, calls[0]), calls[1..])
  }

  /**
   * Once started, a task stays started and keeps its task data whatever is
   * called on it afterwards, so every later start returns false.
   */
  lemma {:induction false} StartedForever(s: TaskState, calls: seq<TaskCall>, taskData: Ptr, rc: int, created: Ptr)
    requires s.taskStarted
    ensures Run(s, calls).taskStarted && Run(s, calls).taskData == s.taskData
    ensures !Started(Run(s, calls), taskData, rc, created).1
    decreases |calls|
  {
    if calls != [] {
      StartedForever(Apply(s, calls[0]), calls[1..], taskData, rc, created);
    }
  }

  /** The first start marks the task started even when creation fails, so a retry is refused. */
  lemma FailedStartCannotRetry(s: TaskState, d1: Ptr, rc1: int, h1: Ptr, d2: Ptr, rc2: int, h2: Ptr)
    requires !s.taskStarted && rc1 != PdPass
    ensures !Started(s, d1, rc1, h1).1
    ensures Started(Started(s, d1, rc1, h1).0, d2, rc2, h2) == (Started(s, d1, rc1, h1).0, false)
  {
  }

  /** Stopping twice is the same as stopping once: the task is deleted at most once. */
  lemma StopIdempotent(s: TaskState)
    ensures Stopped(Stopped(s)) == Stopped(s)
    ensures |Stopped(Stopped(s)).deleted| <= |s.deleted| + 1
  {
  }

  /** The getters return the last value set, and each setter changes only its own field. */
  lemma GettersReturnLastSet(s: TaskState, n: Uint16, name: string)
    ensures Run(s, [SetStackSize(n), SetName(name)]) == s.(stackSize := n, name := name)
    ensures Run(s, [SetName(name), SetStackSize(n)]) == s.(stackSize := n, name := name)
  {
    var a := [SetStackSize(n), SetName(name)];
    assert Run(s, a) == Run(Apply(s, a[0]), [SetName(name)]);
    assert Run(Apply(s, a[0]), [SetName(name)]) == Run(Apply(Apply(s, a[0]), a[1]), []);
    var b := [SetName(name), SetStackSize(n)];
    assert Run(s, b) == Run(Apply(s, b[0]), [SetStackSize(n)]);
    assert Run(Apply(s, b[0]), [SetStackSize(n)]) == Run(Apply(Apply(s, b[0]), b[1]), []);
  }

  /** Running a concatenation of calls is running the first part, then the second. */
  lemma {:induction false} RunAppend(s: TaskState, a: seq<TaskCall>, b: seq<TaskCall>)
    ensures Run(s, a + b) == Run(Run(s, a), b)
    decreases |a|
  {
    if a != [] {
      assert (a + b)[0] == a[0];
      assert (a + b)[1..] == a[1..] + b;
      RunAppend(Apply(s, a[0]), a[1..], b);
    } else {
      assert a + b == b;
    }
  }

  /** Calls other than setStackSize leave the stack size alone. */
  lemma {:induction false} RunKeepsStackSize(s: TaskState, calls: seq<TaskCall>)
    requires forall i :: 0 <= i < |calls| ==> !calls[i].SetStackSize?
    ensures Run(s, calls).stackSize == s.stackSize
    decreases |calls|
  {
    if calls != [] {
      RunKeepsStackSize(Apply(s, calls[0]), calls[1..]);
    }
  }

  /** Calls other than setName leave the name alone. */
  lemma {:induction false} RunKeepsName(s: TaskState, calls: seq<TaskCall>)
    requires forall i :: 0 <= i < |calls| ==> !calls[i].SetName?
    ensures Run(s, calls).name == s.name
    decreases |calls|
  {
    if calls != [] {
      RunKeepsName(Apply(s, calls[0]), calls[1..]);
    }
  }

  /** getStackSize returns the value of the last setStackSize, whatever came before or after it. */
  lemma StackSizeIsLastSet(s: TaskState, before: seq<TaskCall>, n: Uint16, after: seq<TaskCall>)
    requires forall i :: 0 <= i < |after| ==> !after[i].SetStackSize?
    ensures Run(s, before + [SetStackSize(n)] + after).stackSize == n
  {
    var mid := Run(s, before + [SetStackSize(n)]);
    RunAppend(s, before + [SetStackSize(n)], after);
    RunAppend(s, before, [SetStackSize(n)]);
    assert Run(Run(s, before), [SetStackSize(n)]) == Run(Apply(Run(s, before), SetStackSize(n)), []);
    RunKeepsStackSize(mid, after);
  }

  /** getName returns the name of the last setName, whatever came before or after it. */
  lemma NameIsLastSet(s: TaskState, before: seq<TaskCall>, name: string, after: seq<TaskCall>)
    requires forall i :: 0 <= i < |after| ==> !after[i].SetName?
    ensures Run(s, before + [SetName(name)] + after).name == name
  {
    var mid := Run(s, before + [SetName(name)]);
    RunAppend(s, before + [SetName(name)], after);
    RunAppend(s, before, [SetName(name)]);
    assert Run(Run(s, before), [SetName(name)]) == Run(Apply(Run(s, before), SetName(name)), []);
    RunKeepsName(mid, after);
  }

  /** After resetDelayUntil the next delayUntil takes its previous wake time from the current tick count. */
  lemma ResetRecaptures(s: TaskState, period: Tick, now: Tick)
    ensures Delayed(Apply(s, ResetDelayUntil), period, now).delays[|s.delays|] == DelayRequest(now, period)
  {
  }

  /** `n` delayUntil calls with the same period at arbitrary tick counts. */
  function Periodic(s: TaskState, period: Tick, nows: seq<Tick>): TaskState
    decreases |nows|
  {
    if nows == [] then s else Periodic(Delayed(s, period, nows[0]), period, nows[1..])
  }

  /**
   * Once the wake time is captured, repeated delayUntil calls ignore the
   * tick count at the call: after n calls the wake time has advanced by
   * exactly n periods, modulo 2^32.
   */
  lemma {:induction false} PeriodicWakeTimes(s: TaskState, period: Tick, nows: seq<Tick>)
    requires s.delayUntilInitialized
    ensures Periodic(s, period, nows).previousWakeTime == (s.previousWakeTime + |nows| * period) % TickModulus
    decreases |nows|
  {
    if nows != [] {
      var t := Delayed(s, period, nows[0]);
      PeriodicWakeTimes(t, period, nows[1..]);
      WakeTimeStep(s.previousWakeTime, period, |nows| - 1);
    }
  }

  /** One period and then k more is k + 1 periods, modulo 2^32. */
  lemma WakeTimeStep(w: Tick, period: Tick, k: nat)
    ensures ((w + period) % TickModulus + k * period) % TickModulus == (w + (k + 1) * period) % TickModulus
  {
    AddMod(w + period, k * period, TickModulus);
    MulSucc(k, period);
  }

  lemma MulSucc(k: nat, p: nat)
    ensures (k + 1) * p == k * p + p
  {
  }

  /** Reducing the first summand modulo m first does not change the sum modulo m. */
  lemma AddMod(a: nat, b: nat, m: int)
    requires m > 0
    ensures (a % m + b) % m == (a + b) % m
  {
    var c := a % m + b;
    assert a == (a / m) * m + a % m;
    assert c == (c / m) * m + c % m;
    assert a + b == (a / m + c / m) * m + c % m;
    ModUnique(a + b, a / m + c / m, c % m, m);
  }

  class Task {
    var name: string
    var stackSize: Uint16
    var priority: Uint8
    var taskData: Ptr
    var handle: Ptr
    var taskStarted: bool
    var delayUntilInitialized: bool
    var delayUntilPreviousWakeTime: Tick
    ghost var deleted: seq<Ptr>
    ghost var delays: seq<DelayRequest>

    ghost function State(): TaskState
      reads this
    {
      TaskState(name, stackSize, priority, taskData, handle, taskStarted,
                delayUntilInitialized, delayUntilPreviousWakeTime, deleted, delays)
    }

    /** A new task is not started, has no handle and no task data, and keeps the given name, stack size and priority. */
    constructor (taskName: string, stackSize: Uint16, priority: Uint8)
      ensures State() == TaskState(taskName, stackSize, priority, Null, Null, false, false, 0, [], [])
    {
      name := taskName;
      this.stackSize := stackSize;
      this.priority := priority;
      taskData := Null;
      handle := Null;
      taskStarted := false;
      delayUntilInitialized := false;
      delayUntilPreviousWakeTime := 0;
      deleted := [];
      delays := [];
    }

    method Start(data: Ptr, rc: int, created: Ptr) returns (ok: bool)
      modifies this
      ensures (State(), ok) == Started(old(State()), data, rc, created)
    {
      if taskStarted {
        return false;
      } else {
        taskStarted := true;
      }
      taskData := data;
      if rc == PdPass {
        handle := created;
      }
      ok := if rc != PdPass then false else true;
    }

    method Stop()
      modifies this
      ensures State() == Stopped(old(State()))
    {
      if handle == Null {
        return;
      }
      var temp := handle;
      handle := Null;
      deleted := deleted + [temp];
    }

    method SetStackSize(n: Uint16)
      modifies this
      ensures State() == Apply(old(State()), TaskCall.SetStackSize(n))
    {
      stackSize := n;
    }

    method GetStackSize() returns (n: Uint16)
      ensures n == stackSize
    {
      n := stackSize;
    }

    method SetName(n: string)
      modifies this
      ensures State() == Apply(old(State()), TaskCall.SetName(n))
    {
      name := n;
    }

    method GetName() returns (n: string)
      ensures n == name
    {
      n := name;
    }

    method DelayUntil(period: Tick, now: Tick)
      modifies this
      ensures State() == Delayed(old(State()), period, now)
    {
      if !delayUntilInitialized {
        delayUntilInitialized := true;
        delayUntilPreviousWakeTime := now;
      }
      delays := delays + [DelayRequest(delayUntilPreviousWakeTime, period)];
      delayUntilPreviousWakeTime := TickAdd(delayUntilPreviousWakeTime, period);
    }

    method ResetDelayUntil()
      modifies this
      ensures State() == Apply(old(State()), TaskCall.ResetDelayUntil)
    {
      delayUntilInitialized := false;
    }
  }
}
