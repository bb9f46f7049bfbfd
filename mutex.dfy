/**
 * Mutex and the RAII LockGuard over it.
 *
 * Two Mutex classes exist in the source, chosen by the UNIT_TEST build
 * flag: the kernel-backed mutex and a mock whose lock and unlock always
 * succeed. LockGuard is a template over either; here one Mutex class
 * carries the build it was compiled for. The kernel mutex is sequential: a
 * lock on a held mutex times out after a finite wait, and one with
 * portMAX_DELAY never returns, which a precondition excludes. Ownership
 * (which task holds the mutex) is not tracked.
 */
module Mutexes {
  import opened FreeRtos

  datatype Build = Target | UnitTest

  class Mutex {
    const build: Build
    /** Kernel state of the target mutex: available or held. */
    var free: bool
    /** The timeouts passed to lock, in call order. */
    ghost var lockCalls: seq<Tick>
    /** How many times unlock was called. */
    ghost var unlockCalls: nat

    /** A new mutex is available. */
    constructor (build: Build)
      ensures this.build == build && free
      ensures lockCalls == [] && unlockCalls == 0
    {
      this.build := build;
      free := true;
      lockCalls := [];
      unlockCalls := 0;
    }

    /** Mutex::lock: true if the lock was acquired, false if it timed out; the mock always says true. */
    method Lock(timeout: Tick) returns (ok: bool)
      requires build == Target && !free ==> timeout != PortMaxDelay
      modifies this
      ensures lockCalls == old(lockCalls) + [timeout] && unlockCalls == old(unlockCalls)
      ensures build == UnitTest ==> ok && free == old(free)
      ensures build == Target ==> ok == old(free) && !free
    {
      lockCalls := lockCalls + [timeout];
      if build == UnitTest {
        ok := true;
      } else {
        ok := free;
        free := false;
      }
    }

    /** Mutex::unlock: true if the lock was released, false if it was not held; the mock always says true. */
    method Unlock() returns (ok: bool)
      modifies this
      ensures lockCalls == old(lockCalls) && unlockCalls == old(unlockCalls) + 1
      ensures build == UnitTest ==> ok && free == old(free)
      ensures build == Target ==> ok == !old(free) && free
    {
      unlockCalls := unlockCalls + 1;
      if build == UnitTest {
        ok := true;
      } else {
        ok := !free;
        free := true;
      }
    }
  }

  class LockGuard {
    const mutex: Mutex
    var lockAcquired: bool

    /** Locks the mutex exactly once with the given timeout and records whether that succeeded. */
    constructor (m: Mutex, timeout: Tick)
      requires m.build == Target && !m.free ==> timeout != PortMaxDelay
      modifies m
      ensures mutex == m
      ensures m.lockCalls == old(m.lockCalls) + [timeout] && m.unlockCalls == old(m.unlockCalls)
      ensures m.build == UnitTest ==> lockAcquired && m.free == old(m.free)
      ensures m.build == Target ==> lockAcquired == old(m.free) && !m.free
    {
      mutex := m;
      lockAcquired := false;
      new;
      lockAcquired := m.Lock(timeout);
    }

    /** The destructor: unlocks exactly once if the lock was acquired, and never otherwise. */
    method Destroy()
      modifies mutex
      ensures mutex.lockCalls == old(mutex.lockCalls)
      ensures mutex.unlockCalls == old(mutex.unlockCalls) + (if lockAcquired then 1 else 0)
      ensures !lockAcquired ==> mutex.free == old(mutex.free)
      ensures lockAcquired && mutex.build == Target ==> mutex.free
      ensures mutex.build == UnitTest ==> mutex.free == old(mutex.free)
    {
      if lockAcquired {
        var _ := mutex.Unlock();
      }
    }

    /** The recorded result of the lock; changes nothing. */
    method LockAcquired() returns (acquired: bool)
      ensures acquired == lockAcquired
    {
      acquired := lockAcquired;
    }
  }

  /**
   * A scope guarded by a LockGuard over a free target mutex, waiting
   * forever: the mutex is held inside the scope and free after it, having
   * been locked and unlocked once each.
   */
  method GuardedScope(m: Mutex) returns (heldInside: bool)
    requires m.build == Target && m.free
    modifies m
    ensures heldInside && m.free
    ensures m.lockCalls == old(m.lockCalls) + [PortMaxDelay]
    ensures m.unlockCalls == old(m.unlockCalls) + 1
  {
    var guard := new LockGuard(m, PortMaxDelay);
    var acquired := guard.LockAcquired();
    heldInside := acquired && !m.free;
    guard.Destroy();
  }

  /** Over the UNIT_TEST mock a guard always reports the lock acquired, whatever the timeout. */
  method MockGuardAcquires(m: Mutex, timeout: Tick) returns (acquired: bool)
    requires m.build == UnitTest
    modifies m
    ensures acquired
    ensures m.unlockCalls == old(m.unlockCalls) + 1
  {
    var guard := new LockGuard(m, timeout);
    acquired := guard.LockAcquired();
    guard.Destroy();
  }
}
