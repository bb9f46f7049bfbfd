# FreeRTOS C++ wrappers: a Dafny model

This project models the C++ wrapper layer that an STM32 firmware template
puts over the FreeRTOS kernel, and proves what the wrappers promise.

- `ReadWriteLocks`: the reader-preferring and writer-preferring reader/writer
  locks, built from two or four kernel primitives.
  - Each primitive is an availability bit.
  - A take that would wait forever (`portMAX_DELAY`) is a step that is not enabled.
  - Each class's methods are proved against a step function over a state
    datatype (`PrStep`, `PwStep`).
  - The lemmas are about those step functions and about runs of calls from a
    new lock: mutual exclusion, when each call is enabled, matched call
    sequences, and writer preference.
- `Semaphores`: the binary and counting semaphore wrappers, their
  constructors' assertion checks, and `take`/`give` over a bounded kernel
  count.
- `Mutexes`: the mutex (both the kernel-backed one and the `UNIT_TEST` mock)
  and the RAII `LockGuard`.
- `Tasks`: the `Task` object's own state.
  - Covered: the start-once flag, the handle, the stored name, stack size and
    task data, and the `delayUntil` wake-time capture.
  - The kernel's creation result, deletions and delay requests are parameters
    or a recorded trace.
- `TickHooks`: the shared list of tick hooks, the per-hook enabled flag, and
  the dispatcher `vApplicationTickHook`.
- `Tick`: the tick/millisecond/second conversions in 32-bit `TickType_t`
  arithmetic, with `portTICK_PERIOD_MS` as a parameter.
- `App`: the application's pure helpers.
  - `within_range` and `test_val`, over an outcome-style result.
  - The recursive C-string `length`.
  - `Rectangle`.
- `FreeRtos`: the kernel types and constants the wrappers exchange.
  - `TickType_t` and `UBaseType_t` are 32-bit unsigned.
  - The constants are `pdTRUE`, `pdFALSE`, `pdPASS` and `portMAX_DELAY`.

The model is sequential. An operation runs from start to end without another
thread running in between. A blocking kernel call either returns at once (its
timeout has expired) or is excluded by a precondition or a `None` step.

## Model

| member | source | states |
|---|---|---|
| FreeRtos.TickMul | CoreLib/freertos_cpp/Tick.hpp:46-48 | unsigned 32-bit product: the true product when it fits, and in every case a 32-bit value differing from the product by a multiple of 2^32, i.e. the product modulo 2^32 |
| FreeRtos.TickAdd | core_lib/freertos_cpp/Task.cpp:144 | unsigned 32-bit sum: the true sum when it fits, otherwise the sum minus 2^32 |
| Tick.TicksToMs | CoreLib/freertos_cpp/Tick.hpp:46-48 | ticks times the period when that fits in 32 bits; otherwise strictly less than it, and always congruent to it modulo 2^32 (the wrapped product) |
| Tick.MsToTicks | CoreLib/freertos_cpp/Tick.hpp:56-58 | the quotient rounded down: ticks*period <= ms < (ticks+1)*period, for a non-zero period |
| Tick.SecondsToTicks | CoreLib/freertos_cpp/Tick.hpp:66-68 | equals MsToTicks of the wrapped product seconds*1000 |
| Tick.MsToTicksOfTicksToMs | CoreLib/freertos_cpp/Tick.hpp:46-58 | converting ticks to ms and back gives the ticks back whenever ticks*period does not overflow |
| Tick.TicksToMsWrapLosesTicks | CoreLib/freertos_cpp/Tick.hpp:46-58 | when ticks*period overflows, the round trip lands strictly below the input |
| Tick.MsToTicksMonotone | CoreLib/freertos_cpp/Tick.hpp:56-58 | more milliseconds never give fewer ticks |
| Tick.SecondsToTicksExact | CoreLib/freertos_cpp/Tick.hpp:66-68 | with a period dividing 1000 and no overflow, seconds convert to exactly seconds*(1000/period) ticks |
| Semaphores.Semaphore.Kernel | core_lib/freertos_cpp/Semaphore.cpp:77-81 | a created kernel semaphore holds the given maximum and initial count |
| Semaphores.Semaphore.KernelTake | core_lib/freertos_cpp/Semaphore.cpp:15 | pdTRUE and one unit less when a unit is available, pdFALSE and no change when the finite timeout expires |
| Semaphores.Semaphore.KernelGive | core_lib/freertos_cpp/Semaphore.cpp:31 | pdTRUE and one unit more below the maximum, pdFALSE and no change when full |
| Semaphores.Semaphore.Take | core_lib/freertos_cpp/Semaphore.cpp:12-18 | true exactly when a unit was available, i.e. when the kernel said pdTRUE; the count drops by one exactly then |
| Semaphores.Semaphore.Give | core_lib/freertos_cpp/Semaphore.cpp:28-34 | true exactly when the semaphore was not full, i.e. when the kernel said pdTRUE; the count rises by one exactly then |
| Semaphores.NewBinarySemaphore | core_lib/freertos_cpp/Semaphore.cpp:51-65 | a NULL handle is a fatal assertion; otherwise a binary semaphore that is available iff `set`, given exactly once iff `set` |
| Semaphores.NewCountingSemaphore | core_lib/freertos_cpp/Semaphore.cpp:67-86 | maxCount 0 fails its assertion first, then initialCount > maxCount, then a NULL handle; otherwise the semaphore holds exactly those counts |
| Semaphores.BinarySetTakesOnce | core_lib/freertos_cpp/Semaphore.cpp:51-65 | a binary semaphore created set can be taken once without waiting and then not again |
| ReadWriteLocks.ReaderEnter | core_lib/freertos_cpp/ReadWriteLock.cpp:37-44 | readCount rises by exactly one, the resource gate changes exactly on the 0 -> 1 transition, readLock is free again |
| ReadWriteLocks.ReaderLeave | core_lib/freertos_cpp/ReadWriteLock.cpp:48-55 | readCount drops by exactly one, the gate is given exactly on the 1 -> 0 transition, readLock is free again |
| ReadWriteLocks.UnmatchedReaderUnlockUnderflows | core_lib/freertos_cpp/ReadWriteLock.cpp:50-53 | readerUnlock without a matching readerLock drives readCount to -1 and leaves the gate taken |
| ReadWriteLocks.PrInitial | core_lib/freertos_cpp/ReadWriteLock.cpp:5-29 | a new lock has readCount 0, no writer and the resource gate available, and satisfies the invariant |
| ReadWriteLocks.PrStep | core_lib/freertos_cpp/ReadWriteLock.cpp:36-64 | every reader-preferring call preserves the invariant (gate taken iff readers or one writer are inside, never both) and leaves readLock free |
| ReadWriteLocks.PrRun | core_lib/freertos_cpp/ReadWriteLock.cpp:36-64 | any sequence of calls that can be made preserves the invariant |
| ReadWriteLocks.PrRunAppend | core_lib/freertos_cpp/ReadWriteLock.cpp:36-64 | running a + b is running a, then b from where a left off |
| ReadWriteLocks.PrMutualExclusion | core_lib/freertos_cpp/ReadWriteLock.cpp:36-64 | in every state reachable from a new lock there is at most one writer, and never readers and a writer together |
| ReadWriteLocks.PrWriterLockEnabled | core_lib/freertos_cpp/ReadWriteLock.cpp:58-60 | writerLock can proceed exactly when no reader and no writer is inside |
| ReadWriteLocks.PrReadersOvertakeWriters | core_lib/freertos_cpp/ReadWriteLock.cpp:36-45 | while a reader is inside another reader gets in and a writer does not, before and after that reader's entry |
| ReadWriteLocks.PrReaderLocks | core_lib/freertos_cpp/ReadWriteLock.cpp:36-45 | n readerLocks raise readCount by n and take the gate iff n > 0 |
| ReadWriteLocks.PrReaderUnlocks | core_lib/freertos_cpp/ReadWriteLock.cpp:47-56 | n readerUnlocks lower readCount by n and give the gate iff the count reaches 0 |
| ReadWriteLocks.PrReadersRoundTrip | core_lib/freertos_cpp/ReadWriteLock.cpp:36-56 | n readerLocks then n readerUnlocks restore the exact state |
| ReadWriteLocks.PrWriterRoundTrip | core_lib/freertos_cpp/ReadWriteLock.cpp:58-64 | writerLock; writerUnlock restores the exact state whenever the writer can get in |
| ReadWriteLocks.PrCycles | core_lib/freertos_cpp/ReadWriteLock.cpp:36-64 | any number of reader-then-writer cycles leave a new lock as it was |
| ReadWriteLocks.PreferReader.constructor | core_lib/freertos_cpp/ReadWriteLock.cpp:5-29 | the fields start in the initial state: readCount 0, readLock free, resource gate created empty then given |
| ReadWriteLocks.PreferReader.ReaderLock | core_lib/freertos_cpp/ReadWriteLock.cpp:36-45 | the field updates equal PrStep's readerLock, and the invariant is kept |
| ReadWriteLocks.PreferReader.ReaderUnlock | core_lib/freertos_cpp/ReadWriteLock.cpp:47-56 | the field updates equal PrStep's readerUnlock, and the invariant is kept |
| ReadWriteLocks.PreferReader.WriterLock | core_lib/freertos_cpp/ReadWriteLock.cpp:58-60 | the field updates equal PrStep's writerLock, and the invariant is kept |
| ReadWriteLocks.PreferReader.WriterUnlock | core_lib/freertos_cpp/ReadWriteLock.cpp:62-64 | the field updates equal PrStep's writerUnlock, and the invariant is kept |
| ReadWriteLocks.PwInitial | core_lib/freertos_cpp/ReadWriteLock.cpp:66-92 | a new writer-preferring lock has readCount and writeCount 0 and both gates available, and satisfies the invariant |
| ReadWriteLocks.PwRegister | core_lib/freertos_cpp/ReadWriteLock.cpp:124-131 | always enabled between operations; writeCount rises by one and blockReadersLock changes exactly on 0 -> 1 |
| ReadWriteLocks.PwAcquire | core_lib/freertos_cpp/ReadWriteLock.cpp:133 | enabled exactly when a registered writer waits and the resource is available; takes it, writeCount unchanged |
| ReadWriteLocks.PwRelease | core_lib/freertos_cpp/ReadWriteLock.cpp:137 | gives the resource back while writeCount and blockReadersLock stay as they were |
| ReadWriteLocks.PwDeregister | core_lib/freertos_cpp/ReadWriteLock.cpp:139-146 | writeCount drops by one and blockReadersLock is given exactly on 1 -> 0 |
| ReadWriteLocks.PwStep | core_lib/freertos_cpp/ReadWriteLock.cpp:99-147 | every writer-preferring call preserves the invariant, including blockReadersLock taken iff writeCount > 0 |
| ReadWriteLocks.PwRun | core_lib/freertos_cpp/ReadWriteLock.cpp:99-147 | any sequence of calls that can be made preserves the invariant |
| ReadWriteLocks.PwRunAppend | core_lib/freertos_cpp/ReadWriteLock.cpp:99-147 | running a + b is running a, then b from where a left off |
| ReadWriteLocks.PwMutualExclusion | core_lib/freertos_cpp/ReadWriteLock.cpp:99-147 | reachable states have at most one writer, never readers with a writer, and blockReadersLock taken iff writeCount > 0 |
| ReadWriteLocks.PwReaderLockEnabled | core_lib/freertos_cpp/ReadWriteLock.cpp:100-109 | readerLock is enabled exactly while blockReadersLock is available, and returns it available |
| ReadWriteLocks.PwRegisterBlocksReaders | core_lib/freertos_cpp/ReadWriteLock.cpp:126-129 | a writer can always register, and from then on readerLock is refused |
| ReadWriteLocks.PwReleaseKeepsReadersOut | core_lib/freertos_cpp/ReadWriteLock.cpp:137-144 | right after writerUnlock gives the resource, writeCount >= 1, readers stay blocked and another registered writer can take the resource |
| ReadWriteLocks.PwReadersCannotStarveWriter | core_lib/freertos_cpp/ReadWriteLock.cpp:99-110 | while a writer is registered, any reader calls only lower readCount and leave the writers' counts alone |
| ReadWriteLocks.PwReaderLocks | core_lib/freertos_cpp/ReadWriteLock.cpp:99-110 | n readerLocks with no writer registered raise readCount by n and take the gate iff n > 0 |
| ReadWriteLocks.PwReaderUnlocks | core_lib/freertos_cpp/ReadWriteLock.cpp:112-121 | n readerUnlocks lower readCount by n, give the gate iff it reaches 0, and touch no writer field |
| ReadWriteLocks.PwReadersRoundTrip | core_lib/freertos_cpp/ReadWriteLock.cpp:99-121 | n readerLocks then n readerUnlocks restore the exact state |
| ReadWriteLocks.PwWriterRoundTrip | core_lib/freertos_cpp/ReadWriteLock.cpp:123-147 | writerLock; writerUnlock restores the exact state whenever the resource is available |
| ReadWriteLocks.PwWriterWaitsForReaders | core_lib/freertos_cpp/ReadWriteLock.cpp:123-133 | a writer registering while readers are inside cannot take the resource, and new readers are refused at once |
| ReadWriteLocks.PwLastReaderLetsWriterIn | core_lib/freertos_cpp/ReadWriteLock.cpp:115-118 | when the last reader leaves, a registered writer can take the resource and readers stay out |
| ReadWriteLocks.PwWriterWaitsForActiveReader | core_lib/freertos_cpp/ReadWriteLock.cpp:99-147 | reader in, writer registers, second reader refused, reader out, writer in, writer out: back to the idle lock |
| ReadWriteLocks.PwLoneWriterUnlock | core_lib/freertos_cpp/ReadWriteLock.cpp:136-147 | the only writer unlocking with no reader inside brings the lock back to idle |
| ReadWriteLocks.PwCycleOnce | core_lib/freertos_cpp/ReadWriteLock.cpp:99-147 | one reader-then-writer cycle from an idle lock changes nothing |
| ReadWriteLocks.PwRepeatCycle | core_lib/freertos_cpp/ReadWriteLock.cpp:99-147 | a call sequence that returns to its start state can be repeated any number of times |
| ReadWriteLocks.PwCycles | core_lib/freertos_cpp/ReadWriteLock.cpp:99-147 | any number of reader-then-writer cycles leave an idle lock as it was |
| ReadWriteLocks.PreferWriter.constructor | core_lib/freertos_cpp/ReadWriteLock.cpp:66-92 | the fields start in the initial state, both gates created empty then given |
| ReadWriteLocks.PreferWriter.ReaderLock | core_lib/freertos_cpp/ReadWriteLock.cpp:99-110 | the field updates equal PwStep's readerLock, and the invariant is kept |
| ReadWriteLocks.PreferWriter.ReaderUnlock | core_lib/freertos_cpp/ReadWriteLock.cpp:112-121 | the field updates equal PwStep's readerUnlock, and the invariant is kept |
| ReadWriteLocks.PreferWriter.WriterRegister | core_lib/freertos_cpp/ReadWriteLock.cpp:124-131 | always possible between operations; the field updates equal PwRegister |
| ReadWriteLocks.PreferWriter.WriterAcquire | core_lib/freertos_cpp/ReadWriteLock.cpp:133 | the field updates equal PwAcquire |
| ReadWriteLocks.PreferWriter.WriterLock | core_lib/freertos_cpp/ReadWriteLock.cpp:123-134 | register then acquire, equal to PwStep's writerLock |
| ReadWriteLocks.PreferWriter.WriterRelease | core_lib/freertos_cpp/ReadWriteLock.cpp:137 | the field updates equal PwRelease |
| ReadWriteLocks.PreferWriter.WriterDeregister | core_lib/freertos_cpp/ReadWriteLock.cpp:139-146 | the field updates equal PwDeregister |
| ReadWriteLocks.PreferWriter.WriterUnlock | core_lib/freertos_cpp/ReadWriteLock.cpp:136-147 | release then deregister, equal to PwStep's writerUnlock |
| Mutexes.Mutex.constructor | core_lib/freertos_cpp/Mutex.hpp:45-48 | a new mutex is available |
| Mutexes.Mutex.Lock | core_lib/freertos_cpp/Mutex.hpp:52-58 | target: true iff the mutex was free, and it is held afterwards; UNIT_TEST mock: always true, nothing changes |
| Mutexes.Mutex.Unlock | core_lib/freertos_cpp/Mutex.hpp:60-66 | target: true iff the mutex was held, and it is free afterwards; UNIT_TEST mock: always true |
| Mutexes.LockGuard.constructor | core_lib/freertos_cpp/Mutex.hpp:189-193 | calls lock exactly once, with the given timeout, and records its result |
| Mutexes.LockGuard.Destroy | core_lib/freertos_cpp/Mutex.hpp:200-205 | calls unlock exactly once if the lock was acquired, never otherwise; over the UNIT_TEST mock the mutex state is unchanged |
| Mutexes.LockGuard.LockAcquired | core_lib/freertos_cpp/Mutex.hpp:210-213 | returns the recorded result and changes nothing |
| Mutexes.GuardedScope | core_lib/freertos_cpp/Mutex.hpp:196-205 | a free target mutex guarded with an indefinite timeout is held inside the scope and free after it |
| Mutexes.MockGuardAcquires | core_lib/freertos_cpp/Mutex.hpp:93-105 | a guard over the UNIT_TEST mock always reports the lock acquired |
| Tasks.Started | core_lib/freertos_cpp/Task.cpp:44-62 | true iff the task was not started and creation returned pdPASS; marks the task started in every case; a started task is left unchanged |
| Tasks.Stopped | core_lib/freertos_cpp/Task.cpp:93-101 | the handle is NULL afterwards; without a handle nothing changes; otherwise exactly that handle is deleted |
| Tasks.Delayed | core_lib/freertos_cpp/Task.cpp:137-145 | the wake time handed to the kernel is the stored one, or the current tick count if none is captured; one delay request is appended |
| Tasks.StartedForever | core_lib/freertos_cpp/Task.cpp:46-51 | once started, a task stays started and keeps its task data through any calls, and start then returns false |
| Tasks.FailedStartCannotRetry | core_lib/freertos_cpp/Task.cpp:49-61 | a start whose creation fails returns false and still refuses every later start |
| Tasks.StopIdempotent | core_lib/freertos_cpp/Task.cpp:93-101 | stop twice equals stop once; at most one deletion |
| Tasks.GettersReturnLastSet | core_lib/freertos_cpp/Task.cpp:109-133 | after setStackSize and setName, in either order, each field holds the value last set for it and nothing else changes |
| Tasks.RunAppend | core_lib/freertos_cpp/Task.cpp:44-150 | a sequence of calls on a Task has the effect of its first part followed by its second |
| Tasks.RunKeepsStackSize | core_lib/freertos_cpp/Task.cpp:44-150 | no call other than setStackSize changes the stack size |
| Tasks.RunKeepsName | core_lib/freertos_cpp/Task.cpp:44-150 | no call other than setName changes the name |
| Tasks.StackSizeIsLastSet | core_lib/freertos_cpp/Task.cpp:109-117 | after any calls, getStackSize returns the value of the last setStackSize |
| Tasks.NameIsLastSet | core_lib/freertos_cpp/Task.cpp:125-133 | after any calls, getName returns the name of the last setName |
| Tasks.ResetRecaptures | core_lib/freertos_cpp/Task.cpp:137-150 | after resetDelayUntil the next delayUntil hands the kernel the current tick count |
| Tasks.PeriodicWakeTimes | core_lib/freertos_cpp/Task.cpp:137-145 | once captured, n delayUntil calls advance the wake time by exactly n periods mod 2^32, whatever the tick count at each call |
| Tasks.Task.constructor | core_lib/freertos_cpp/Task.cpp:22-29 | not started, NULL handle and task data, the given name, stack size and priority, delayUntil not initialised |
| Tasks.Task.Start | core_lib/freertos_cpp/Task.cpp:44-62 | the new fields and result equal Started |
| Tasks.Task.Stop | core_lib/freertos_cpp/Task.cpp:93-101 | the new fields equal Stopped |
| Tasks.Task.SetStackSize | core_lib/freertos_cpp/Task.cpp:109-112 | only the stack size changes, to the given value |
| Tasks.Task.GetStackSize | core_lib/freertos_cpp/Task.cpp:114-117 | returns the stored stack size and changes nothing |
| Tasks.Task.SetName | core_lib/freertos_cpp/Task.cpp:125-128 | only the name changes, to the given value |
| Tasks.Task.GetName | core_lib/freertos_cpp/Task.cpp:130-133 | returns the stored name and changes nothing |
| Tasks.Task.DelayUntil | core_lib/freertos_cpp/Task.cpp:137-145 | the new fields equal Delayed |
| Tasks.Task.ResetDelayUntil | core_lib/freertos_cpp/Task.cpp:147-150 | only the initialised flag changes, to false |
| TickHooks.Removed | core_lib/freertos_cpp/TickHook.cpp:16-20 | no occurrence of the hook is left, every other hook keeps its number of occurrences |
| TickHooks.EnabledInOrder | core_lib/freertos_cpp/TickHook.cpp:47-58 | a hook is run iff it is listed and enabled, and never more runs than list entries |
| TickHooks.RemovedAppend | core_lib/freertos_cpp/TickHook.cpp:16-20 | removal works part by part, so the remaining hooks keep their order |
| TickHooks.RemovedAbsent | core_lib/freertos_cpp/TickHook.cpp:16-20 | removing a hook that was never registered leaves the list unchanged |
| TickHooks.EnabledAppend | core_lib/freertos_cpp/TickHook.cpp:47-58 | the run order over a concatenation is the run order of each part, front part first |
| TickHooks.RunsPerTick | core_lib/freertos_cpp/TickHook.cpp:47-58 | per tick an enabled hook runs once per list entry, a disabled one not at all |
| TickHooks.RegisteredTwiceRunsTwice | core_lib/freertos_cpp/TickHook.cpp:23-27 | a hook pushed to the front twice runs twice, ahead of every other hook |
| TickHooks.DisabledSkippedUntilEnabled | CoreLib/freertos_cpp/TickHook.hpp:61-71 | a disabled hook is skipped, and enabling it again restores the run order it had |
| TickHooks.NewHookRegisteredTwiceRuns | core_lib/freertos_cpp/TickHook.cpp:11-27 | a new hook, enabled on construction and registered twice, runs twice ahead of the hooks listed before |
| TickHooks.DestroyUndoesRegistrations | core_lib/freertos_cpp/TickHook.cpp:16-27 | destroying a hook registered twice on a list without it gives that list back |
| TickHooks.EnabledFrame | core_lib/freertos_cpp/TickHook.cpp:30-41 | changing the flag of a hook that is not listed leaves the run order unchanged |
| TickHooks.Registry.constructor | core_lib/freertos_cpp/TickHook.cpp:8 | the static list starts empty |
| TickHooks.Registry.NewHook | core_lib/freertos_cpp/TickHook.cpp:11-13 | a new hook is enabled and not listed; the list is unchanged |
| TickHooks.Registry.Destroy | core_lib/freertos_cpp/TickHook.cpp:16-20 | the list becomes Removed of the old list and the hook's flag goes with it |
| TickHooks.Registry.Register | core_lib/freertos_cpp/TickHook.cpp:23-27 | the hook is pushed at the front with no deduplication: one more occurrence each time |
| TickHooks.Registry.Disable | core_lib/freertos_cpp/TickHook.cpp:30-34 | only the hook's flag changes, to false; the list is unchanged |
| TickHooks.Registry.Enable | core_lib/freertos_cpp/TickHook.cpp:37-41 | only the hook's flag changes, to true; the list is unchanged |
| TickHooks.Registry.Dispatch | core_lib/freertos_cpp/TickHook.cpp:47-58 | runs exactly the enabled hooks, front to back, and changes neither the list nor a flag |
| TickHooks.RegisterTwiceThenDestroy | core_lib/freertos_cpp/TickHook.cpp:11-27 | a hook registered twice runs twice per tick, and destroying it restores the list and flags from before |
| App.WithinRange | core/src/main.cpp:90-99 | too_low exactly when i < 2, too_high exactly when i > 10, success with i unchanged exactly on 2..10, never not_a_number |
| App.TestVal | core/src/main.cpp:101-110 | success(i) when i is in range, otherwise exactly within_range(i - 1), its error propagated |
| App.TestValCases | core/src/main.cpp:105-108 | test_val succeeds exactly on 2..11, gives 10 for 11, too_low below 2 and too_high from 12 |
| App.Length | core/src/main.cpp:126-129 | the index of the first NUL: a NUL at that index and none before it |
| App.LengthOfTerminated | core/src/main.cpp:126-129 | characters after the terminator do not count |
| App.NewRectangle | core/src/main.cpp:35-40 | the getters return the unwrapped width and height passed in |
| App.RectangleRoundTrip | core/src/main.cpp:30-45 | rebuilding from the getters gives the same rectangle; swapping width and height does so only when they are equal |

## Left out

- Concurrency. Thread interleavings, starvation, fairness, priority inversion and critical sections are not modelled. The model is sequential: a blocked call is a step that is not enabled.
- Interrupt-context variants are not modelled: `takeFromISR` and `giveFromISR` (core_lib/freertos_cpp/Semaphore.cpp:20-26, 36-42).
- Lock construction failures are not modelled: the `ReadWriteLock` constructors' NULL-handle `configASSERT` paths and their `vSemaphoreDelete` clean-up. Both constructors assume allocation succeeds; the semaphore constructors do model their NULL-handle assertion.
- Destructors are not modelled: `~ReadWriteLock`, `~ReadWriteLockPreferWriter` and `~Semaphore` hand their handles back to the kernel.
- `~Task` is not modelled either (core_lib/freertos_cpp/Task.cpp:32-42). With `INCLUDE_vTaskDelete` it calls `vTaskDelete(m_handle)` unconditionally, even when the handle is NULL (after `stop`, after a failed `start`, or before any `start`); in FreeRTOS `vTaskDelete(NULL)` deletes the calling task. Without `INCLUDE_vTaskDelete` it fails a `configASSERT`.
- Default arguments are not modelled as separate entry points; every call passes its arguments explicitly. The source's defaults are `Task(name, stackSize = 128, priority = 5)` (core_lib/freertos_cpp/Task.hpp:20), `BinarySemaphore(set = false)` (core_lib/freertos_cpp/Semaphore.hpp:117), and `Timeout = portMAX_DELAY` for `Semaphore::take` (core_lib/freertos_cpp/Semaphore.hpp:48), `Mutex::lock` (core_lib/freertos_cpp/Mutex.hpp:58, 93) and `LockGuard` (core_lib/freertos_cpp/Mutex.hpp:189).
- The kernel is not modelled. xTaskCreate's result and the handle it writes are parameters. xTaskGetTickCount is the parameter `now`. vTaskDelete and vTaskDelayUntil are recorded as call traces. vTaskDelayUntil's update of the previous wake time follows its documented contract: previous plus period, wrapping.
- Builds where `configASSERT` is compiled out are not modelled. Every failed assertion is treated as fatal.
- ReadWriteLocks.PrStep: `writerUnlock` by a thread that holds nothing, and `readerUnlock` with readCount 0, are treated as calls that cannot be made. The source does not check either case. `UnmatchedReaderUnlockUnderflows` states what such a `readerUnlock` does to the fields.
- ReadWriteLocks.PwStep: the same restriction applies to unmatched `readerUnlock` and `writerUnlock`.
- The lock's kernel objects are modelled as availability bits, not as `Semaphore` objects. Ownership of the `readLock` and `writeLock` mutexes is not tracked.
- Mutexes.Mutex: which task owns the target mutex is not tracked, so an unlock by a non-owner is not refused. Recursive mutexes (core_lib/freertos_cpp/Mutex.hpp:110-161) are not part of this model.
- Tasks.Task: the task name is stored as a string value. The source stores the `const char*` it was given (core_lib/freertos_cpp/Task.hpp:187), so `getName` returns that pointer and a caller that later changes the buffer sees the change; the model does not capture that aliasing.
- Tasks.Task: `taskFunctionAdapter`, `cleanup` and the virtual `run` are user code running in the created task, so they are not modelled. Neither are the inline kernel calls declared in core_lib/freertos_cpp/Task.hpp, such as suspend, resume and priority.
- TickHooks.Registry.Dispatch: what each hook's `run` does is user code. The model records which hooks are run, in order.
- TickHooks.Registry.Dispatch: the class and `vApplicationTickHook` are compiled only under `#if (configUSE_TICK_HOOK == 0)` (core_lib/freertos_cpp/TickHook.cpp:3, CoreLib/freertos_cpp/TickHook.hpp:8), while the FreeRTOS kernel calls `vApplicationTickHook` from the tick only when `configUSE_TICK_HOOK` is 1. As written, no tick ever reaches this dispatcher. The model describes what `vApplicationTickHook` does when called, as its comment at CoreLib/freertos_cpp/TickHook.hpp:10-12 intends, and assumes the kernel calls it once per tick.
- App.TestVal: requires i > INT_MIN. For INT_MIN the source computes `i - 1`, a signed overflow that C leaves undefined.
- App.Length: the result is an unbounded natural. The source returns a C `int`, which would overflow for strings longer than INT_MAX.
- Other components are not part of this model:
  - the Queue, Timer, EventGroup and StreamBuffer wrappers
  - `Critical`
  - the Mutex kernel calls in Mutex.cpp (its behaviour enters only through Mutex.hpp's documented contract)
  - `Ticks::GetTicks`
  - board bring-up and the UART task loops in core/src/main.cpp
  - the outcome library's spin policy
  - the ETL profile
