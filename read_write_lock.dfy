/**
 * Reader/writer locks built from kernel primitives: ReadWriteLockPreferReader
 * and ReadWriteLockPreferWriter.
 *
 * Each kernel object the lock owns is a single availability bit: the
 * count-guard mutexes readLock and writeLock, and the binary semaphores
 * resourceLock and blockReadersLock ("gates"). Taking one with portMAX_DELAY
 * is possible only while it is available; a take that would wait forever is
 * a step that is not enabled. Giving one sets its bit.
 *
 * The model is sequential: every public operation is one step between two
 * states in which no count guard is held. The writer-preferring writerLock and
 * writerUnlock are split in two steps each, so that a writer that has
 * registered and still waits for the resource is a state of its own.
 *
 * Besides the source's fields the states carry bookkeeping the source keeps
 * only implicitly: how many writers are inside their critical section
 * (`writing`), and for the writer-preferring lock how many registered
 * writers still wait for the resource (`registered`) or have released it
 * but not yet deregistered (`releasing`).
 */
module ReadWriteLocks {

  datatype Option<T> = None | Some(value: T)

  /** The fields of the ReadWriteLock base class. */
  datatype Base = Base(readCount: int, readLockFree: bool, resourceFree: bool)

  /** The calls a thread makes on a lock; the last four are the halves of writerLock and writerUnlock. */
  datatype Action =
    | ReaderLock | ReaderUnlock | WriterLock | WriterUnlock
    | WriterRegister | WriterAcquire | WriterRelease | WriterDeregister

  /** `n` copies of one call. */
  function Repeat(a: Action, n: nat): (r: seq<Action>)
    ensures |r| == n && forall i :: 0 <= i < n ==> r[i] == a
  {
    if n == 0 then [] else [a] + Repeat(a, n - 1)
  }

  /** `k` copies of a sequence of calls. */
  function RepeatAll(cycle: seq<Action>, k: nat): seq<Action>
  {
    if k == 0 then [] else cycle + RepeatAll(cycle, k - 1)
  }

  // ---------------------------------------------------------------------
  // The reader side, shared by both policies
  // ---------------------------------------------------------------------

  /**
   * Admission of a reader while holding readLock: readCount++ and, on the
   * 0 -> 1 transition, a take of the resource gate; readLock is free again
   * afterwards. The take is enabled only while the gate is available.
   */
  function ReaderEnter(b: Base): (r: Base)
    requires b.readLockFree
    requires b.readCount == 0 ==> b.resourceFree
    ensures r.readCount == b.readCount + 1 && r.readLockFree
    ensures r.resourceFree != b.resourceFree <==> b.readCount == 0
  {
    var count := b.readCount + 1;
    Base(count, true, if count == 1 then false else b.resourceFree)
  }

  /**
   * Departure of a reader while holding readLock: readCount-- and, when it
   * reaches 0, a give of the resource gate. The source does not guard
   * against a call without a matching readerLock.
   */
  function ReaderLeave(b: Base): (r: Base)
    requires b.readLockFree
    ensures r.readCount == b.readCount - 1 && r.readLockFree
    ensures b.readCount == 1 ==> r.resourceFree
    ensures b.readCount != 1 ==> r.resourceFree == b.resourceFree
  {
    var count := b.readCount - 1;
    Base(count, true, if count == 0 then true else b.resourceFree)
  }

  /** Without a matching readerLock the count goes negative and the gate stays taken. */
  lemma UnmatchedReaderUnlockUnderflows()
    ensures ReaderLeave(Base(0, true, false)) == Base(-1, true, false)
  {
  }

  // ---------------------------------------------------------------------
  // ReadWriteLockPreferReader
  // ---------------------------------------------------------------------

  datatype PrState = PrState(base: Base, writing: nat)

  /**
   * The lock's invariant between operations: no guard is held, and the
   * resource gate is taken exactly when readers or one writer are inside,
   * never both.
   */
  predicate PrInv(s: PrState)
  {
    && s.base.readCount >= 0
    && s.base.readLockFree
    && s.writing <= 1
    && !(s.base.readCount > 0 && s.writing > 0)
    && (s.base.resourceFree <==> s.base.readCount == 0 && s.writing == 0)
  }

  /** The state the constructor leaves: no readers, resource gate available. */
  function PrInitial(): (s: PrState)
    ensures PrInv(s) && s.base.readCount == 0 && s.base.resourceFree && s.writing == 0
  {
    PrState(Base(0, true, true), 0)
  }

  /**
   * One call on a reader-preferring lock; None when the call would block
   * forever, when the caller does not hold what it releases, or when the
   * call is not an operation of this class.
   */
  function PrStep(s: PrState, a: Action): (r: Option<PrState>)
    ensures PrInv(s) && r.Some? ==> PrInv(r.value)
    ensures r.Some? ==> r.value.base.readLockFree
  {
    var b := s.base;
    match a
    case ReaderLock =>
      if b.readLockFree && (b.readCount == 0 ==> b.resourceFree)
      then Some(PrState(ReaderEnter(b), s.writing)) else None
    case ReaderUnlock =>
      if b.readLockFree && b.readCount > 0
      then Some(PrState(ReaderLeave(b), s.writing)) else None
    case WriterLock =>
      if b.readLockFree && b.resourceFree
      then Some(PrState(b.(resourceFree := false), s.writing + 1)) else None
    case WriterUnlock =>
      if b.readLockFree && s.writing > 0
      then Some(PrState(b.(resourceFree := true), s.writing - 1)) else None
    case _ => None
  }

  /** A sequence of calls, None as soon as one of them cannot be made. */
  function PrRun(s: PrState, calls: seq<Action>): (r: Option<PrState>)
    ensures PrInv(s) && r.Some? ==> PrInv(r.value)
    decreases |calls|
  {
    if calls == [] then Some(s)
    else match PrStep(s, calls[0])
      case None => None
      case Some(t) => PrRun(t, calls[1..])
  }

  lemma {:induction false} PrRunAppend(s: PrState, a: seq<Action>, b: seq<Action>)
    ensures PrRun(s, a + b) == (match PrRun(s, a) case None => None case Some(t) => PrRun(t, b))
    decreases |a|
  {
    if a != [] {
      assert (a + b)[0] == a[0] && (a + b)[1..] == a[1..] + b;
      match PrStep(s, a[0])
      case None =>
      case Some(t) => PrRunAppend(t, a[1..], b);
    } else {
      assert a + b == b;
    }
  }

  /** Mutual exclusion in every state reachable from a new lock. */
  lemma PrMutualExclusion(calls: seq<Action>)
    requires PrRun(PrInitial(), calls).Some?
    ensures var t := PrRun(PrInitial(), calls).value;
      && t.writing <= 1
      && !(t.base.readCount > 0 && t.writing > 0)
  {
  }

  /** A writer's take of the resource gate is enabled exactly when no reader and no writer is inside. */
  lemma PrWriterLockEnabled(s: PrState)
    requires PrInv(s)
    ensures PrStep(s, WriterLock).Some? <==> s.base.readCount == 0 && s.writing == 0
  {
  }

  /** Readers always win admission: while a reader is inside, another can enter and a writer cannot. */
  lemma PrReadersOvertakeWriters(s: PrState)
    requires PrInv(s) && s.base.readCount > 0
    ensures PrStep(s, ReaderLock).Some?
    ensures PrStep(s, WriterLock) == None
    ensures PrStep(PrStep(s, ReaderLock).value, WriterLock) == None
  {
  }

  /** n readerLock calls from a state with no writer inside. */
  lemma {:induction false} PrReaderLocks(s: PrState, n: nat)
    requires PrInv(s) && s.writing == 0
    ensures PrRun(s, Repeat(ReaderLock, n))
         == Some(PrState(Base(s.base.readCount + n, true, s.base.resourceFree && n == 0), 0))
    decreases n
  {
    if n > 0 {
      var t := PrStep(s, ReaderLock).value;
      assert Repeat(ReaderLock, n)[1..] == Repeat(ReaderLock, n - 1);
      PrReaderLocks(t, n - 1);
    }
  }

  /** n readerUnlock calls by n of the readers inside. */
  lemma {:induction false} PrReaderUnlocks(s: PrState, n: nat)
    requires PrInv(s) && s.base.readCount >= n
    ensures PrRun(s, Repeat(ReaderUnlock, n))
         == Some(PrState(Base(s.base.readCount - n, true,
                              if n == 0 then s.base.resourceFree else s.base.readCount == n), s.writing))
    decreases n
  {
    if n > 0 {
      var t := PrStep(s, ReaderUnlock).value;
      assert Repeat(ReaderUnlock, n)[1..] == Repeat(ReaderUnlock, n - 1);
      PrReaderUnlocks(t, n - 1);
    }
  }

  /** n readerLocks followed by n readerUnlocks restore the counts and gate bits. */
  lemma PrReadersRoundTrip(s: PrState, n: nat)
    requires PrInv(s) && s.writing == 0
    ensures PrRun(s, Repeat(ReaderLock, n) + Repeat(ReaderUnlock, n)) == Some(s)
  {
    PrRunAppend(s, Repeat(ReaderLock, n), Repeat(ReaderUnlock, n));
    PrReaderLocks(s, n);
    PrReaderUnlocks(PrRun(s, Repeat(ReaderLock, n)).value, n);
  }

  /** writerLock; writerUnlock restores the state whenever the writer can get in. */
  lemma PrWriterRoundTrip(s: PrState)
    requires PrInv(s) && s.base.resourceFree
    ensures PrRun(s, [WriterLock, WriterUnlock]) == Some(s)
  {
    assert [WriterLock, WriterUnlock][1..] == [WriterUnlock];
  }

  /** Any number of reader-then-writer cycles by one thread leaves a new lock as it was. */
  lemma {:induction false} PrCycles(k: nat)
    ensures PrRun(PrInitial(), RepeatAll([ReaderLock, ReaderUnlock, WriterLock, WriterUnlock], k))
         == Some(PrInitial())
  {
    var cycle := [ReaderLock, ReaderUnlock, WriterLock, WriterUnlock];
    if k > 0 {
      PrRunAppend(PrInitial(), cycle, RepeatAll(cycle, k - 1));
      assert PrRun(PrInitial(), cycle) == Some(PrInitial()) by {
        assert cycle[1..] == [ReaderUnlock, WriterLock, WriterUnlock];
        assert cycle[1..][1..] == [WriterLock, WriterUnlock];
        assert cycle[1..][1..][1..] == [WriterUnlock];
      }
      PrCycles(k - 1);
    }
  }

  class PreferReader {
    var readCount: int
    var readLockFree: bool
    var resourceFree: bool
    /** Writers between writerLock and writerUnlock. */
    ghost var writing: nat

    ghost function State(): PrState
      reads this
    {
      PrState(Base(readCount, readLockFree, resourceFree), writing)
    }

    ghost predicate Valid()
      reads this
    {
      PrInv(State())
    }

    /** The base constructor: readLock is a new (available) mutex, resourceLock a new binary semaphore, given once. */
    constructor ()
      ensures Valid() && State() == PrInitial()
    {
      readCount := 0;
      readLockFree := true;
      resourceFree := false;
      writing := 0;
      resourceFree := true;
      new;
      assert State() == PrState(Base(0, true, true), 0);
    }

    method ReaderLock()
      requires Valid() && PrStep(State(), Action.ReaderLock).Some?
      modifies this
      ensures Valid() && State() == PrStep(old(State()), Action.ReaderLock).value
    {
      readLockFree := false;
      readCount := readCount + 1;
      if readCount == 1 {
        assert resourceFree;
        resourceFree := false;
      }
      readLockFree := true;
    }

    method ReaderUnlock()
      requires Valid() && PrStep(State(), Action.ReaderUnlock).Some?
      modifies this
      ensures Valid() && State() == PrStep(old(State()), Action.ReaderUnlock).value
    {
      readLockFree := false;
      readCount := readCount - 1;
      if readCount == 0 {
        resourceFree := true;
      }
      readLockFree := true;
    }

    method WriterLock()
      requires Valid() && PrStep(State(), Action.WriterLock).Some?
      modifies this
      ensures Valid() && State() == PrStep(old(State()), Action.WriterLock).value
    {
      assert resourceFree;
      resourceFree := false;
      writing := writing + 1;
    }

    method WriterUnlock()
      requires Valid() && PrStep(State(), Action.WriterUnlock).Some?
      modifies this
      ensures Valid() && State() == PrStep(old(State()), Action.WriterUnlock).value
    {
      resourceFree := true;
      writing := writing - 1;
    }
  }

  // ---------------------------------------------------------------------
  // ReadWriteLockPreferWriter
  // ---------------------------------------------------------------------

  datatype PwState = PwState(
    base: Base,
    writeCount: int,
    writeLockFree: bool,
    blockReadersFree: bool,
    registered: nat,
    writing: nat,
    releasing: nat)

  /**
   * The invariant between operations: the reader-preferring one, plus
   * writeCount counts every writer from registration to deregistration and
   * blockReadersLock is taken exactly while writeCount > 0.
   */
  predicate PwInv(s: PwState)
  {
    && s.base.readCount >= 0
    && s.base.readLockFree
    && s.writeLockFree
    && s.writing <= 1
    && !(s.base.readCount > 0 && s.writing > 0)
    && (s.base.resourceFree <==> s.base.readCount == 0 && s.writing == 0)
    && s.writeCount == s.registered + s.writing + s.releasing
    && (s.blockReadersFree <==> s.writeCount == 0)
  }

  /** The state the constructor leaves: no readers or writers, both gates available. */
  function PwInitial(): (s: PwState)
    ensures PwInv(s) && s.base.readCount == 0 && s.writeCount == 0
    ensures s.base.resourceFree && s.blockReadersFree
  {
    PwState(Base(0, true, true), 0, true, true, 0, 0, 0)
  }

  /** writerLock up to line 131: count the writer in and, on 0 -> 1, shut out new readers. */
  function PwRegister(s: PwState): (r: Option<PwState>)
    ensures r.Some? <==> s.writeLockFree && (s.writeCount == 0 ==> s.blockReadersFree)
    ensures r.Some? ==> r.value.writeCount == s.writeCount + 1
    ensures r.Some? ==> (r.value.blockReadersFree != s.blockReadersFree <==> s.writeCount == 0)
    ensures r.Some? ==> r.value.base == s.base && r.value.writeLockFree
  {
    if s.writeLockFree && (s.writeCount == 0 ==> s.blockReadersFree) then
      var count := s.writeCount + 1;
      Some(s.(writeCount := count,
              blockReadersFree := if count == 1 then false else s.blockReadersFree,
              registered := s.registered + 1))
    else None
  }

  /** writerLock line 133: a registered writer takes the resource gate. */
  function PwAcquire(s: PwState): (r: Option<PwState>)
    ensures r.Some? <==> s.registered > 0 && s.base.resourceFree
    ensures r.Some? ==> !r.value.base.resourceFree && r.value.writeCount == s.writeCount
  {
    if s.registered > 0 && s.base.resourceFree then
      Some(s.(base := s.base.(resourceFree := false),
              registered := s.registered - 1, writing := s.writing + 1))
    else None
  }

  /** writerUnlock line 137: the writer gives the resource gate back first. */
  function PwRelease(s: PwState): (r: Option<PwState>)
    ensures r.Some? <==> s.writing > 0
    ensures r.Some? ==> r.value.base.resourceFree
    ensures r.Some? ==> r.value.writeCount == s.writeCount && r.value.blockReadersFree == s.blockReadersFree
  {
    if s.writing > 0 then
      Some(s.(base := s.base.(resourceFree := true),
              writing := s.writing - 1, releasing := s.releasing + 1))
    else None
  }

  /** writerUnlock lines 139-146: count the writer out and, on 1 -> 0, readmit readers. */
  function PwDeregister(s: PwState): (r: Option<PwState>)
    ensures r.Some? <==> s.releasing > 0 && s.writeLockFree
    ensures r.Some? ==> r.value.writeCount == s.writeCount - 1 && r.value.writeLockFree
    ensures r.Some? && s.writeCount == 1 ==> r.value.blockReadersFree
    ensures r.Some? && s.writeCount != 1 ==> r.value.blockReadersFree == s.blockReadersFree
  {
    if s.releasing > 0 && s.writeLockFree then
      var count := s.writeCount - 1;
      Some(s.(writeCount := count,
              blockReadersFree := if count == 0 then true else s.blockReadersFree,
              releasing := s.releasing - 1))
    else None
  }

  /**
   * One call on a writer-preferring lock. readerLock first takes and at the
   * end gives blockReadersLock, so it is enabled only while that gate is
   * available and leaves it as it was.
   */
  function PwStep(s: PwState, a: Action): (r: Option<PwState>)
    ensures PwInv(s) && r.Some? ==> PwInv(r.value)
  {
    var b := s.base;
    match a
    case ReaderLock =>
      if s.blockReadersFree && b.readLockFree && (b.readCount == 0 ==> b.resourceFree)
      then Some(s.(base := ReaderEnter(b))) else None
    case ReaderUnlock =>
      if b.readLockFree && b.readCount > 0
      then Some(s.(base := ReaderLeave(b))) else None
    case WriterRegister => PwRegister(s)
    case WriterAcquire => PwAcquire(s)
    case WriterRelease => PwRelease(s)
    case WriterDeregister => PwDeregister(s)
    case WriterLock =>
      (match PwRegister(s) case None => None case Some(t) => PwAcquire(t))
    case WriterUnlock =>
      (match PwRelease(s) case None => None case Some(t) => PwDeregister(t))
  }

  function PwRun(s: PwState, calls: seq<Action>): (r: Option<PwState>)
    ensures PwInv(s) && r.Some? ==> PwInv(r.value)
    decreases |calls|
  {
    if calls == [] then Some(s)
    else match PwStep(s, calls[0])
      case None => None
      case Some(t) => PwRun(t, calls[1..])
  }

  lemma {:induction false} PwRunAppend(s: PwState, a: seq<Action>, b: seq<Action>)
    ensures PwRun(s, a + b) == (match PwRun(s, a) case None => None case Some(t) => PwRun(t, b))
    decreases |a|
  {
    if a != [] {
      assert (a + b)[0] == a[0] && (a + b)[1..] == a[1..] + b;
      match PwStep(s, a[0])
      case None =>
      case Some(t) => PwRunAppend(t, a[1..], b);
    } else {
      assert a + b == b;
    }
  }

  /** Mutual exclusion, and the writer gate invariant, in every state reachable from a new lock. */
  lemma PwMutualExclusion(calls: seq<Action>)
    requires PwRun(PwInitial(), calls).Some?
    ensures var t := PwRun(PwInitial(), calls).value;
      && t.writing <= 1
      && !(t.base.readCount > 0 && t.writing > 0)
      && (t.blockReadersFree <==> t.writeCount == 0)
  {
    var t := PwRun(PwInitial(), calls).value;
    assert PwInv(t);
  }

  /** readerLock is enabled exactly while no writer is registered. */
  lemma PwReaderLockEnabled(s: PwState)
    requires PwInv(s)
    ensures PwStep(s, ReaderLock).Some? <==> s.blockReadersFree
    ensures PwStep(s, ReaderLock).Some? ==> PwStep(s, ReaderLock).value.blockReadersFree
  {
  }

  /** A writer can always register; it then shuts out readers until it deregisters. */
  lemma PwRegisterBlocksReaders(s: PwState)
    requires PwInv(s)
    ensures PwStep(s, WriterRegister).Some?
    ensures PwStep(PwStep(s, WriterRegister).value, ReaderLock) == None
  {
  }

  /**
   * Between giving the resource gate and deregistering, the writer is still
   * counted: another registered writer can take the resource while new
   * readers remain blocked.
   */
  lemma PwReleaseKeepsReadersOut(s: PwState)
    requires PwInv(s) && s.writing > 0
    ensures var t := PwStep(s, WriterRelease).value;
      && t.writeCount >= 1
      && !t.blockReadersFree
      && PwStep(t, ReaderLock) == None
      && (s.registered > 0 ==> PwStep(t, WriterAcquire).Some?)
  {
  }

  predicate ReaderCalls(calls: seq<Action>)
  {
    forall i :: 0 <= i < |calls| ==> calls[i] == ReaderLock || calls[i] == ReaderUnlock
  }

  /**
   * Once a writer is registered no reader gets in: whatever readers do,
   * the reader count can only fall, and the writers' bookkeeping stays.
   */
  lemma {:induction false} PwReadersCannotStarveWriter(s: PwState, calls: seq<Action>)
    requires PwInv(s) && s.writeCount > 0
    requires ReaderCalls(calls)
    requires PwRun(s, calls).Some?
    ensures var t := PwRun(s, calls).value;
      && t.base.readCount <= s.base.readCount
      && t.writeCount == s.writeCount && t.registered == s.registered
    decreases |calls|
  {
    if calls != [] {
      var t := PwStep(s, calls[0]).value;
      assert t.base.readCount < s.base.readCount;
      assert ReaderCalls(calls[1..]) by {
        forall i | 0 <= i < |calls[1..]|
          ensures calls[1..][i] == ReaderLock || calls[1..][i] == ReaderUnlock
        {
          assert calls[1..][i] == calls[i + 1];
        }
      }
      PwReadersCannotStarveWriter(t, calls[1..]);
    }
  }

  /** n readerLock calls while no writer is registered. */
  lemma {:induction false} PwReaderLocks(s: PwState, n: nat)
    requires PwInv(s) && s.blockReadersFree
    ensures PwRun(s, Repeat(ReaderLock, n))
         == Some(s.(base := Base(s.base.readCount + n, true, s.base.resourceFree && n == 0)))
    decreases n
  {
    if n > 0 {
      var t := PwStep(s, ReaderLock).value;
      assert Repeat(ReaderLock, n)[1..] == Repeat(ReaderLock, n - 1);
      PwReaderLocks(t, n - 1);
    }
  }

  /** n readerUnlock calls by n of the readers inside. */
  lemma {:induction false} PwReaderUnlocks(s: PwState, n: nat)
    requires PwInv(s) && s.base.readCount >= n
    ensures PwRun(s, Repeat(ReaderUnlock, n))
         == Some(s.(base := Base(s.base.readCount - n, true,
                                 if n == 0 then s.base.resourceFree else s.base.readCount == n)))
    decreases n
  {
    if n > 0 {
      var t := PwStep(s, ReaderUnlock).value;
      assert Repeat(ReaderUnlock, n)[1..] == Repeat(ReaderUnlock, n - 1);
      PwReaderUnlocks(t, n - 1);
    }
  }

  /** n readerLocks followed by n readerUnlocks restore the counts and gate bits. */
  lemma PwReadersRoundTrip(s: PwState, n: nat)
    requires PwInv(s) && s.blockReadersFree
    ensures PwRun(s, Repeat(ReaderLock, n) + Repeat(ReaderUnlock, n)) == Some(s)
  {
    PwRunAppend(s, Repeat(ReaderLock, n), Repeat(ReaderUnlock, n));
    PwReaderLocks(s, n);
    PwReaderUnlocks(PwRun(s, Repeat(ReaderLock, n)).value, n);
  }

  /** writerLock; writerUnlock restores the state whenever the resource is available. */
  lemma PwWriterRoundTrip(s: PwState)
    requires PwInv(s) && s.base.resourceFree
    ensures PwRun(s, [WriterLock, WriterUnlock]) == Some(s)
  {
    var holding := PwWriterInside(s);
    PwWriterLockFromIdle(s);
    PwWriterUnlockToIdle(s);
    assert [WriterLock, WriterUnlock][1..] == [WriterUnlock];
    assert PwRun(s, [WriterLock, WriterUnlock]) == PwRun(holding, [WriterUnlock]);
  }

  /** The state after writerLock from a state where nobody holds the resource. */
  function PwWriterInside(s: PwState): PwState
  {
    s.(base := s.base.(resourceFree := false), writeCount := s.writeCount + 1,
       blockReadersFree := false, writing := s.writing + 1)
  }

  /** With the resource available, writerLock goes through: the writer is counted in and holds the resource. */
  lemma PwWriterLockFromIdle(s: PwState)
    requires PwInv(s) && s.base.resourceFree
    ensures PwStep(s, WriterLock) == Some(PwWriterInside(s))
  {
    var registered := PwRegister(s).value;
    assert PwAcquire(registered) == Some(PwWriterInside(s));
  }

  /** That writer's writerUnlock gives back the state before its writerLock. */
  lemma PwWriterUnlockToIdle(s: PwState)
    requires PwInv(s) && s.base.resourceFree
    ensures PwStep(PwWriterInside(s), WriterUnlock) == Some(s)
  {
    var released := PwRelease(PwWriterInside(s)).value;
    assert PwDeregister(released) == Some(s);
  }

  /** A writer registering while readers are inside must wait for them, and new readers are refused at once. */
  lemma PwWriterWaitsForReaders(s: PwState)
    requires PwInv(s) && s.base.readCount > 0
    ensures PwStep(s, WriterRegister).Some?
    ensures var t := PwStep(s, WriterRegister).value;
      && t.base == s.base
      && PwStep(t, WriterAcquire) == None
      && PwStep(t, ReaderLock) == None
  {
  }

  /** When the last reader leaves, a registered writer can take the resource while new readers stay out. */
  lemma PwLastReaderLetsWriterIn(s: PwState)
    requires PwInv(s) && s.base.readCount == 1 && s.registered > 0
    ensures PwStep(s, ReaderUnlock).Some?
    ensures var t := PwStep(s, ReaderUnlock).value;
      && PwStep(t, ReaderLock) == None
      && PwStep(t, WriterAcquire).Some?
      && PwStep(PwStep(t, WriterAcquire).value, ReaderLock) == None
  {
  }

  /**
   * Reader A is inside an idle lock; writer B registers and waits; reader C
   * is refused from then on; A leaves, B writes, and B's unlock restores the
   * idle lock, which admits C.
   */
  lemma PwWriterWaitsForActiveReader(idle: PwState)
    requires PwInv(idle) && idle.base.readCount == 0 && idle.writeCount == 0
    ensures PwStep(idle, ReaderLock).Some?
    ensures var readingA := PwStep(idle, ReaderLock).value;
      var waitingB := PwStep(readingA, WriterRegister).value;
      var leftA := PwStep(waitingB, ReaderUnlock).value;
      var writingB := PwStep(leftA, WriterAcquire).value;
      && PwStep(waitingB, ReaderLock) == None
      && PwStep(leftA, ReaderLock) == None
      && PwStep(writingB, ReaderLock) == None
      && PwStep(writingB, WriterUnlock) == Some(idle)
  {
    var readingA := PwStep(idle, ReaderLock).value;
    PwWriterWaitsForReaders(readingA);
    var waitingB := PwStep(readingA, WriterRegister).value;
    PwLastReaderLetsWriterIn(waitingB);
    var leftA := PwStep(waitingB, ReaderUnlock).value;
    var writingB := PwStep(leftA, WriterAcquire).value;
    PwLoneWriterUnlock(idle, writingB);
  }

  /** The only writer unlocking, with no reader inside, brings the lock back to idle. */
  lemma PwLoneWriterUnlock(idle: PwState, writingB: PwState)
    requires PwInv(idle) && idle.base.readCount == 0 && idle.writeCount == 0
    requires writingB == idle.(base := idle.base.(resourceFree := false), writeCount := 1,
                               blockReadersFree := false, writing := 1)
    ensures PwStep(writingB, WriterUnlock) == Some(idle)
  {
  }

  /** One reader-then-writer cycle by one thread, from a state where nobody is inside, changes nothing. */
  lemma PwCycleOnce(s: PwState)
    requires PwInv(s) && s.base.resourceFree && s.blockReadersFree
    ensures PwRun(s, [ReaderLock, ReaderUnlock] + [WriterLock, WriterUnlock]) == Some(s)
  {
    PwRunAppend(s, [ReaderLock, ReaderUnlock], [WriterLock, WriterUnlock]);
    PwReadersRoundTrip(s, 1);
    assert Repeat(ReaderLock, 1) + Repeat(ReaderUnlock, 1) == [ReaderLock, ReaderUnlock];
    PwWriterRoundTrip(s);
  }

  /** A sequence of calls that returns a lock to where it started can be repeated any number of times. */
  lemma {:induction false} PwRepeatCycle(s: PwState, cycle: seq<Action>, k: nat)
    requires PwRun(s, cycle) == Some(s)
    ensures PwRun(s, RepeatAll(cycle, k)) == Some(s)
  {
    if k > 0 {
      PwRunAppend(s, cycle, RepeatAll(cycle, k - 1));
      PwRepeatCycle(s, cycle, k - 1);
    }
  }

  /** Any number of reader-then-writer cycles by one thread, from a state where nobody is inside, change nothing. */
  lemma PwCycles(s: PwState, k: nat)
    requires PwInv(s) && s.base.resourceFree && s.blockReadersFree
    ensures PwRun(s, RepeatAll([ReaderLock, ReaderUnlock] + [WriterLock, WriterUnlock], k)) == Some(s)
  {
    PwCycleOnce(s);
    PwRepeatCycle(s, [ReaderLock, ReaderUnlock] + [WriterLock, WriterUnlock], k);
  }

  class PreferWriter {
    var readCount: int
    var readLockFree: bool
    var resourceFree: bool
    var writeCount: int
    var writeLockFree: bool
    var blockReadersFree: bool
    ghost var registered: nat
    ghost var writing: nat
    ghost var releasing: nat

    ghost function State(): PwState
      reads this
    {
      PwState(Base(readCount, readLockFree, resourceFree), writeCount, writeLockFree,
              blockReadersFree, registered, writing, releasing)
    }

    ghost predicate Valid()
      reads this
    {
      PwInv(State())
    }

    /** Base constructor, then writeCount 0, a new writeLock mutex and blockReadersLock given once. */
    constructor ()
      ensures Valid() && State() == PwInitial()
    {
      readCount := 0;
      readLockFree := true;
      resourceFree := false;
      resourceFree := true;
      writeCount := 0;
      writeLockFree := true;
      blockReadersFree := false;
      blockReadersFree := true;
      registered, writing, releasing := 0, 0, 0;
      new;
      assert State() == PwState(Base(0, true, true), 0, true, true, 0, 0, 0);
    }

    method ReaderLock()
      requires Valid() && PwStep(State(), Action.ReaderLock).Some?
      modifies this
      ensures Valid() && State() == PwStep(old(State()), Action.ReaderLock).value
    {
      blockReadersFree := false;
      readLockFree := false;
      readCount := readCount + 1;
      if readCount == 1 {
        assert resourceFree;
        resourceFree := false;
      }
      readLockFree := true;
      blockReadersFree := true;
    }

    method ReaderUnlock()
      requires Valid() && PwStep(State(), Action.ReaderUnlock).Some?
      modifies this
      ensures Valid() && State() == PwStep(old(State()), Action.ReaderUnlock).value
    {
      readLockFree := false;
      readCount := readCount - 1;
      if readCount == 0 {
        resourceFree := true;
      }
      readLockFree := true;
    }

    method WriterRegister()
      requires Valid()
      modifies this
      ensures Valid() && PwStep(old(State()), Action.WriterRegister) == Some(State())
    {
      ghost var before := State();
      writeLockFree := false;
      writeCount := writeCount + 1;
      if writeCount == 1 {
        assert blockReadersFree;
        blockReadersFree := false;
      }
      writeLockFree := true;
      registered := registered + 1;
      assert State() == PwRegister(before).value;
    }

    method WriterAcquire()
      requires Valid() && PwStep(State(), Action.WriterAcquire).Some?
      modifies this
      ensures Valid() && State() == PwStep(old(State()), Action.WriterAcquire).value
    {
      assert resourceFree;
      resourceFree := false;
      registered, writing := registered - 1, writing + 1;
    }

    method WriterLock()
      requires Valid() && PwStep(State(), Action.WriterLock).Some?
      modifies this
      ensures Valid() && State() == PwStep(old(State()), Action.WriterLock).value
    {
      WriterRegister();
      WriterAcquire();
    }

    method WriterRelease()
      requires Valid() && PwStep(State(), Action.WriterRelease).Some?
      modifies this
      ensures Valid() && State() == PwStep(old(State()), Action.WriterRelease).value
    {
      resourceFree := true;
      writing, releasing := writing - 1, releasing + 1;
    }

    method WriterDeregister()
      requires Valid() && PwStep(State(), Action.WriterDeregister).Some?
      modifies this
      ensures Valid() && State() == PwStep(old(State()), Action.WriterDeregister).value
    {
      writeLockFree := false;
      writeCount := writeCount - 1;
      if writeCount == 0 {
        blockReadersFree := true;
      }
      writeLockFree := true;
      releasing := releasing - 1;
    }

    method WriterUnlock()
      requires Valid() && PwStep(State(), Action.WriterUnlock).Some?
      modifies this
      ensures Valid() && State() == PwStep(old(State()), Action.WriterUnlock).value
    {
      WriterRelease();
      WriterDeregister();
    }
  }
}
