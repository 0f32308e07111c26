/**
  The part of the real-time kernel that the object-lifecycle layer talks to,
  reduced to the state it reads and writes: an object table mapping each
  handle to the kind of object, its control-block pointer and its optional
  data pointer, and the run state of each task. The kernel's own algorithms
  (scheduling, task lists, the idle task's clean-up) are not modelled.
 */
module Kernel {
  import opened Heap

  /** An unsigned 8-bit C integer (uint8_t). */
  newtype u8 = x: int | 0 <= x < 0x100

  /** A kernel handle; 0 is the C NULL handle. */
  type Handle = nat

  const NULL_HANDLE: Handle := 0

  /** BaseType_t truth and status values of the kernel. */
  const PD_FALSE: int := 0
  const PD_TRUE: int := 1
  const PD_FAIL: int := 0
  const PD_PASS: int := 1

  /** ucQueueType values distinguishing the members of the semaphore family. */
  const QUEUE_TYPE_MUTEX: u8 := 1
  const QUEUE_TYPE_COUNTING_SEMAPHORE: u8 := 2
  const QUEUE_TYPE_BINARY_SEMAPHORE: u8 := 3
  const QUEUE_TYPE_RECURSIVE_MUTEX: u8 := 4

  /** What eTaskGetState reports. */
  datatype RunState = Running | Ready | Blocked | Suspended

  /** The code a task runs: ordinary application code, or the clean-up task that deletes `target`. */
  datatype TaskCode = Application | DeleteWithCapsRescuer(target: Handle)

  datatype Kind =
    | Task(priority: u32, core: int, code: TaskCode)
    | Queue(length: u32, itemSize: u32)
    | Mutex
    | RecursiveMutex
    | CountingSemaphore(maxCount: u32, initialCount: u32)
    | BinarySemaphore
    | StreamBuffer(sizeBytes: u32, triggerLevelBytes: u32)
    | MessageBuffer(sizeBytes: u32)
    | EventGroup

  /**
    Objects that share one kernel structure and one set of introspection and
    delete routines: semaphores and mutexes are queues, message buffers are
    stream buffers.
   */
  datatype Family = TaskFamily | QueueFamily | StreamBufferFamily | EventGroupFamily

  function FamilyOf(k: Kind): (f: Family)
  {
    match k
    case Task(_, _, _) => TaskFamily
    case Queue(_, _) | Mutex | RecursiveMutex | CountingSemaphore(_, _) | BinarySemaphore => QueueFamily
    case StreamBuffer(_, _) | MessageBuffer(_) => StreamBufferFamily
    case EventGroup => EventGroupFamily
  }

  /**
    An entry of the object table. `staticBuffers` records that the object was
    built by a static constructor from the buffers `cb` and `data`; `data` is
    NULL when the kind has no second buffer. The introspection calls report
    `cb` and `ReportedData` below, which is `data` except for the objects
    whose queue head points at their own structure.
   */
  datatype KObj = KObj(kind: Kind, cb: Ptr, data: Ptr, staticBuffers: bool)

  /** `o` was built from block `p`. */
  predicate Holds(o: KObj, p: Ptr)
  {
    o.staticBuffers && p != NULL && (p == o.cb || p == o.data)
  }

  /** The release function for block `p` of `o`: a task's control block came from the port heap. */
  function ReleaseFor(o: KObj, p: Ptr): (fn: FreeFn)
  {
    if o.kind.Task? && p == o.cb then VPortFree else HeapCapsFree
  }

  /** xTaskGetStaticBuffers would report both buffers, and both are non-NULL. */
  predicate HasStaticTaskBuffers(o: KObj)
  {
    o.staticBuffers && o.cb != NULL && o.data != NULL
  }

  /**
    A member of the queue family whose items are empty, so that it has no
    storage area: a queue built with item size 0, a binary semaphore or a
    counting semaphore. The kernel points the pcHead of such a queue at the
    queue structure itself. A mutex or recursive mutex is not one: the
    kernel sets its pcHead to NULL to mark it as a mutex.
   */
  predicate HeadIsStructure(o: KObj)
  {
    || (o.kind.Queue? && o.kind.itemSize == 0)
    || o.kind.BinarySemaphore?
    || o.kind.CountingSemaphore?
  }

  /**
    The data pointer the introspection calls report for `o`. The queue
    introspection reports the queue's pcHead, so for a queue whose head is
    its own structure the control block is reported a second time.
   */
  function ReportedData(o: KObj): (p: Ptr)
  {
    if HeadIsStructure(o) then o.cb else o.data
  }

  /**
    The kinds whose static constructor takes a second, data buffer: a task's
    stack, a queue's storage area when items are not empty, a stream or
    message buffer's storage area.
   */
  predicate NeedsData(k: Kind)
  {
    match k
    case Task(_, _, _) => true
    case Queue(_, itemSize) => itemSize > 0
    case StreamBuffer(_, _) | MessageBuffer(_) => true
    case Mutex | RecursiveMutex | CountingSemaphore(_, _) | BinarySemaphore | EventGroup => false
  }

  /** Block `p` of `o` is live in `a` and came from the heap its release function serves. */
  predicate BackedBy(a: Allocator, o: KObj, p: Ptr)
  {
    p in a.live && FreedBy(a.live[p].pool, ReleaseFor(o, p))
  }

  /**
    A statically built object's buffers are live in the heaps their release
    functions serve, and its two buffers are distinct.
   */
  predicate SoundBuffers(a: Allocator, o: KObj)
  {
    o.staticBuffers ==>
      && o.cb != NULL && BackedBy(a, o, o.cb) && o.cb != o.data
      && (NeedsData(o.kind) <==> o.data != NULL)
      && (o.data != NULL ==> BackedBy(a, o, o.data))
  }

  /** No buffer `o1` was built from is also a buffer of `o2`. */
  predicate Disjoint(o1: KObj, o2: KObj)
  {
    o1.staticBuffers ==> !Holds(o2, o1.cb) && !Holds(o2, o1.data)
  }
}
