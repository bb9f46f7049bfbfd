/**
 * The Semaphore wrappers: a binary semaphore and a counting semaphore over
 * a kernel semaphore, with `take`/`give` translating the kernel's return
 * code into a bool.
 *
 * The kernel semaphore is a count bounded by `maxCount`. The model is
 * sequential: while one caller waits on an empty semaphore nobody else can
 * give it, so a finite wait ends in a timeout and an infinite wait
 * (portMAX_DELAY) never returns, which a precondition excludes.
 */
module Semaphores {
  import opened FreeRtos

  /** The configASSERT failures of the constructors; each halts the system. */
  datatype Fault = NullHandle | BadMaxCount | BadInitialCount

  /** Outcome of a constructor: a usable semaphore, or the assertion that fired. */
  datatype Created = Made(sem: Semaphore) | AssertFailed(fault: Fault)

  class Semaphore {
    const maxCount: nat
    var count: nat
    /** How many times the wrapper has called xSemaphoreGive. */
    ghost var gives: nat

    ghost predicate Valid()
      reads this
    {
      0 < maxCount && count <= maxCount
    }

    /** The state of a freshly created kernel semaphore (the handle is non-NULL). */
    constructor Kernel(maxCount: nat, initialCount: nat)
      requires 0 < maxCount && initialCount <= maxCount
      ensures Valid()
      ensures this.maxCount == maxCount && count == initialCount && gives == 0
    {
      this.maxCount := maxCount;
      count := initialCount;
      gives := 0;
    }

    /** xSemaphoreTake: pdTRUE after taking a unit, pdFALSE after the timeout expires. */
    method KernelTake(timeout: Tick) returns (rc: int)
      requires Valid()
      requires count == 0 ==> timeout != PortMaxDelay
      modifies this
      ensures Valid() && gives == old(gives)
      ensures rc == (if old(count) > 0 then PdTrue else PdFalse)
      ensures count == if old(count) > 0 then old(count) - 1 else old(count)
    {
      if count > 0 {
        count := count - 1;
        rc := PdTrue;
      } else {
        rc := PdFalse;
      }
    }

    /** xSemaphoreGive: pdTRUE after adding a unit, errQUEUE_FULL (pdFALSE) when already full. */
    method KernelGive() returns (rc: int)
      requires Valid()
      modifies this
      ensures Valid()
      ensures rc == (if old(count) < maxCount then PdTrue else PdFalse)
      ensures count == if old(count) < maxCount then old(count) + 1 else old(count)
      ensures gives == old(gives) + 1
    {
      gives := gives + 1;
      if count < maxCount {
        count := count + 1;
        rc := PdTrue;
      } else {
        rc := PdFalse;
      }
    }

    /** Semaphore::take: true iff the kernel returned pdTRUE, i.e. a unit was available. */
    method Take(timeout: Tick) returns (ok: bool)
      requires Valid()
      requires count == 0 ==> timeout != PortMaxDelay
      modifies this
      ensures Valid() && gives == old(gives)
      ensures ok <==> old(count) > 0
      ensures count == if ok then old(count) - 1 else old(count)
    {
      var rc := KernelTake(timeout);
      ok := rc == PdTrue;
    }

    /** Semaphore::give: true iff the kernel returned pdTRUE, i.e. the semaphore was not full. */
    method Give() returns (ok: bool)
      requires Valid()
      modifies this
      ensures Valid() && gives == old(gives) + 1
      ensures ok <==> old(count) < maxCount
      ensures count == if ok then old(count) + 1 else old(count)
    {
      var rc := KernelGive();
      ok := rc == PdTrue;
    }
  }

  /**
   * BinarySemaphore(full): created empty, then given exactly once when `full` (the source parameter `set`).
   * `handleOk` is whether xSemaphoreCreateBinary returned a non-NULL handle.
   */
  method NewBinarySemaphore(full: bool, handleOk: bool) returns (r: Created)
    ensures r.AssertFailed? <==> !handleOk
    ensures r.AssertFailed? ==> r.fault == NullHandle
    ensures r.Made? ==> fresh(r.sem) && r.sem.Valid() && r.sem.maxCount == 1
    ensures r.Made? ==> (r.sem.count == 1 <==> full) && r.sem.count <= 1
    ensures r.Made? ==> r.sem.gives == if full then 1 else 0
  {
    if !handleOk {
      return AssertFailed(NullHandle);
    }
    var s := new Semaphore.Kernel(1, 0);
    if full {
      var _ := s.Give();
    }
    r := Made(s);
  }

  /**
   * CountingSemaphore(maxCount, initialCount): both arguments are checked
   * before the kernel is asked for a handle, maxCount first.
   */
  method NewCountingSemaphore(maxCount: UBase, initialCount: UBase, handleOk: bool) returns (r: Created)
    ensures r.AssertFailed? <==> maxCount == 0 || initialCount > maxCount || !handleOk
    ensures r == AssertFailed(BadMaxCount) <==> maxCount == 0
    ensures r == AssertFailed(BadInitialCount) <==> maxCount != 0 && initialCount > maxCount
    ensures r.Made? ==> fresh(r.sem) && r.sem.Valid() && r.sem.gives == 0
    ensures r.Made? ==> r.sem.maxCount == maxCount && r.sem.count == initialCount
  {
    if maxCount == 0 {
      return AssertFailed(BadMaxCount);
    }
    if initialCount > maxCount {
      return AssertFailed(BadInitialCount);
    }
    if !handleOk {
      return AssertFailed(NullHandle);
    }
    var s := new Semaphore.Kernel(maxCount, initialCount);
    r := Made(s);
  }

  /** A binary semaphore created "full" can be taken once without waiting, and then not again. */
  method BinarySetTakesOnce(timeout: Tick) returns (first: bool, second: bool)
    requires timeout != PortMaxDelay
    ensures first && !second
  {
    var r := NewBinarySemaphore(true, true);
    var s := r.sem;
    first := s.Take(timeout);
    second := s.Take(timeout);
  }
}
