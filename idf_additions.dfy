/**
  The capability-aware object-lifecycle layer: create wrappers that take an
  object's memory from the capability heap and hand it to the kernel's static
  constructors, with a shared roll-back on failure; delete wrappers that
  recover those buffers from the kernel, destroy the object and release the
  buffers; and the task-deletion procedure, which picks one of three paths.
 */
module IdfAdditions {
  import opened Heap
  import opened Kernel

  /** The outcome of a call that does not return a value. */
  datatype Outcome =
    | Returned          // the call came back to its caller
    | SuspendedForever  // the calling task parked itself for the clean-up task; the call never returns
    | Aborted           // a configASSERT failed or abort() was called
    | KindMismatch      // a kernel delete routine was applied to an object of another family
    | Finished          // a task finished its work and deleted itself
    | InvalidFree       // a release function was handed a block that is no longer live

  /** A C out-pointer: None is a NULL pointer, Some(v) a pointer to a variable that holds v. */
  datatype Option<T> = None | Some(value: T)

  /** The three ways vTaskDeleteWithCaps can reclaim a task. */
  datatype DeletePath = SelfDelete | CrossCoreDelete | StoppedDelete

  /**
    The branch vTaskDeleteWithCaps takes: a NULL target or the calling task
    itself is a self-delete; otherwise, on a multi-core build, a target that
    is running (necessarily on another core) is suspended first; every other
    target is deleted directly. Exactly one path applies to every input.
   */
  function SelectDeletePath(target: Handle, current: Handle, targetRunning: bool, numCores: nat): (p: DeletePath)
    ensures p == SelfDelete <==> target == NULL_HANDLE || target == current
    ensures p == CrossCoreDelete <==> target != NULL_HANDLE && target != current && numCores > 1 && targetRunning
    ensures p == StoppedDelete <==> target != NULL_HANDLE && target != current && (numCores <= 1 || !targetRunning)
  {
    if target == NULL_HANDLE || target == current then SelfDelete
    else if numCores > 1 && targetRunning then CrossCoreDelete
    else StoppedDelete
  }

  /** Successive answers of eTaskGetState eventually stop saying Running. */
  predicate SpinExits(polls: seq<RunState>)
  {
    exists i :: 0 <= i < |polls| && polls[i] != Running
  }

  /**
    The wait loop of the cross-core path: poll the target's state, yielding,
    while it is Running. `polls` are the states the scheduler reports; the
    loop stops at the first one that is not Running.
   */
  method WaitUntilNotRunning(polls: seq<RunState>) returns (k: nat)
    requires SpinExits(polls)
    ensures k < |polls| && polls[k] != Running
    ensures forall j :: 0 <= j < k ==> polls[j] == Running
  {
    k := 0;
    while polls[k] == Running
      invariant k < |polls|
      invariant forall j :: 0 <= j < k ==> polls[j] == Running
      invariant exists i :: k <= i < |polls| && polls[i] != Running
      decreases |polls| - k
    {
      k := k + 1;
    }
  }

  /** Truncation of a non-negative integer to an unsigned 32-bit value. */
  function Wrap32(x: nat): (n: u32)
    ensures n as int == x % 0x1_0000_0000
    ensures x < 0x1_0000_0000 ==> n as int == x
  {
    (x % 0x1_0000_0000) as u32
  }

  /**
    The size of a queue's storage area, `uxQueueLength * uxItemSize` computed
    in 32-bit unsigned arithmetic: exact when the product fits, wrapped
    modulo 2^32 otherwise, and 0 when either factor is 0.
   */
  function QueueStorageBytes(uxQueueLength: u32, uxItemSize: u32): (n: u32)
    ensures var product: nat := (uxQueueLength as int) * (uxItemSize as int);
            n as int == product % 0x1_0000_0000 && (product < 0x1_0000_0000 ==> n as int == product)
    ensures uxItemSize == 0 || uxQueueLength == 0 ==> n == 0
  {
    var product: nat := (uxQueueLength as int) * (uxItemSize as int);
    Wrap32(product)
  }

  /**
    The semaphore-family member xSemaphoreCreateGenericWithCaps builds for
    `ucQueueType`: mutex, counting and binary semaphore for their own type
    codes, and a recursive mutex for every other value.
   */
  function SemaphoreKindFor(ucQueueType: u8, uxMaxCount: u32, uxInitialCount: u32): (k: Kind)
    ensures FamilyOf(k) == QueueFamily
    ensures k == Mutex <==> ucQueueType == QUEUE_TYPE_MUTEX
    ensures k == CountingSemaphore(uxMaxCount, uxInitialCount) <==> ucQueueType == QUEUE_TYPE_COUNTING_SEMAPHORE
    ensures k == BinarySemaphore <==> ucQueueType == QUEUE_TYPE_BINARY_SEMAPHORE
    ensures k == RecursiveMutex <==>
              ucQueueType != QUEUE_TYPE_MUTEX && ucQueueType != QUEUE_TYPE_COUNTING_SEMAPHORE && ucQueueType != QUEUE_TYPE_BINARY_SEMAPHORE
  {
    if ucQueueType == QUEUE_TYPE_MUTEX then Mutex
    else if ucQueueType == QUEUE_TYPE_COUNTING_SEMAPHORE then CountingSemaphore(uxMaxCount, uxInitialCount)
    else if ucQueueType == QUEUE_TYPE_BINARY_SEMAPHORE then BinarySemaphore
    else RecursiveMutex
  }

  /**
    The object xStreamBufferGenericCreateWithCaps builds: a message buffer
    exactly when `xIsMessageBuffer` is pdTRUE, and then the trigger level is
    not used; a stream buffer otherwise.
   */
  function StreamKindFor(xBufferSizeBytes: u32, xTriggerLevelBytes: u32, xIsMessageBuffer: int): (k: Kind)
    ensures FamilyOf(k) == StreamBufferFamily
    ensures k.MessageBuffer? <==> xIsMessageBuffer == PD_TRUE
    ensures k.sizeBytes == xBufferSizeBytes
    ensures k.StreamBuffer? ==> k.triggerLevelBytes == xTriggerLevelBytes
  {
    if xIsMessageBuffer == PD_TRUE then MessageBuffer(xBufferSizeBytes)
    else StreamBuffer(xBufferSizeBytes, xTriggerLevelBytes)
  }

  /**
    The family of the kernel delete routine vStreamBufferGenericDeleteWithCaps
    calls, as the code is written: vMessageBufferDelete for a message buffer,
    vSemaphoreDelete (the queue delete) otherwise.
   */
  function StreamDeleteFamilyAsWritten(xIsMessageBuffer: int): (f: Family)
  {
    if xIsMessageBuffer == PD_TRUE then StreamBufferFamily else QueueFamily
  }

  /** The as-written routine sends every stream buffer (not a message buffer) to the queue delete. */
  lemma StreamDeleteAsWrittenMisroutes(xIsMessageBuffer: int, k: Kind)
    requires FamilyOf(k) == StreamBufferFamily && xIsMessageBuffer != PD_TRUE
    ensures StreamDeleteFamilyAsWritten(xIsMessageBuffer) != FamilyOf(k)
  {
  }

  /**
    The corrected routine: vMessageBufferDelete and vStreamBufferDelete are
    the same stream-buffer delete, so both branches destroy through the
    stream-buffer family, which matches every object a stream or message
    buffer create returns.
   */
  function StreamDeleteFamily(xIsMessageBuffer: int): (f: Family)
    ensures forall size: u32, trigger: u32, m: int :: f == FamilyOf(StreamKindFor(size, trigger, m))
  {
    StreamBufferFamily
  }

  /**
    The machine the wrappers run on: the allocator, the kernel's object table,
    the run state of every task, the task that is making the call (NULL when
    none is) and the core it runs on. The methods up to the first wrapper
    stand for the foreign calls: allocator, static constructors,
    introspection, delete routines and the scheduler.
   */
  class System {
    var heap: Allocator
    var objects: map<Handle, KObj>
    var runState: map<Handle, RunState>
    var nextHandle: Handle
    var current: Handle
    const numCores: nat
    const currentCore: nat

    /**
      The layer's invariant: every buffer a statically built object was made
      from is live in the heap its release function serves, no two objects
      share a buffer, and an object's two buffers are distinct.
     */
    ghost predicate Valid()
      reads this
    {
      && Heap.Valid(heap)
      && numCores >= 1 && currentCore < numCores
      && nextHandle > NULL_HANDLE
      && (forall h :: h in objects ==> NULL_HANDLE < h < nextHandle)
      && (forall h :: h in runState <==> h in objects && objects[h].kind.Task?)
      && (current != NULL_HANDLE ==> current in runState)
      && (forall h :: h in objects ==> SoundBuffers(heap, objects[h]))
      && (forall h1, h2 {:trigger Disjoint(objects[h1], objects[h2])} ::
            h1 in objects && h2 in objects && h1 != h2 ==> Disjoint(objects[h1], objects[h2]))
    }

    /** No live object was built from block `p`. */
    ghost predicate Unowned(p: Ptr)
      reads this`objects
    {
      forall h :: h in objects ==> !Holds(objects[h], p)
    }

    /** eTaskGetState( h ) == eRunning. */
    predicate IsRunning(h: Handle)
      reads this`runState
    {
      h in runState && runState[h] == Running
    }

    /** A system whose only task is the running application task 1 and whose heap is empty. */
    constructor (cores: nat, core: nat, appPriority: u32)
      requires cores >= 1 && core < cores
      ensures Valid() && numCores == cores && currentCore == core
      ensures heap == Empty() && current == 1
      ensures objects == map[1 := KObj(Task(appPriority, core as int, Application), NULL, NULL, false)]
      ensures runState == map[1 := Running]
    {
      heap := Empty();
      objects := map[1 := KObj(Task(appPriority, core as int, Application), NULL, NULL, false)];
      runState := map[1 := Running];
      nextHandle := 2;
      current := 1;
      numCores := cores;
      currentCore := core;
    }

    /** pvPortMalloc (pool PortHeap) or heap_caps_malloc (pool CapsHeap); a new block belongs to no object. */
    method Allocate(pool: Pool, size: Size, succeeds: bool) returns (p: Ptr)
      requires Valid()
      modifies this`heap
      ensures Valid()
      ensures Allocation(heap, p) == Malloc(old(heap), pool, size, succeeds)
      ensures p != NULL ==> Unowned(p)
    {
      var m := Malloc(heap, pool, size, succeeds);
      heap, p := m.heap, m.ptr;
    }

    /** vPortFree or heap_caps_free: only a block that no live object was built from may be released. */
    method Release(fn: FreeFn, p: Ptr)
      requires Valid() && CanFree(heap, fn, p) && Unowned(p)
      modifies this`heap
      ensures Valid()
      ensures heap == Free(old(heap), fn, p)
    {
      heap := Free(heap, fn, p);
    }

    /**
      A static constructor (xTaskCreateStaticPinnedToCore, xQueueCreateStatic,
      xSemaphoreCreate*Static, xStreamBufferCreateStatic,
      xMessageBufferCreateStatic, xEventGroupCreateStatic): it may fail; on
      success a new handle is built from `cb` and `data`, and a new task is Ready.
     */
    method ConstructStatic(kind: Kind, cb: Ptr, data: Ptr, succeeds: bool) returns (h: Handle)
      requires Valid()
      requires cb != NULL && cb != data && Unowned(cb) && Unowned(data)
      requires BackedBy(heap, KObj(kind, cb, data, true), cb)
      requires data != NULL ==> BackedBy(heap, KObj(kind, cb, data, true), data)
      requires NeedsData(kind) <==> data != NULL
      modifies this`objects, this`runState, this`nextHandle
      ensures Valid()
      ensures succeeds ==> h != NULL_HANDLE && h !in old(objects)
                           && objects == old(objects)[h := KObj(kind, cb, data, true)]
                           && runState == (if kind.Task? then old(runState)[h := Ready] else old(runState))
      ensures !succeeds ==> h == NULL_HANDLE && objects == old(objects) && runState == old(runState)
    {
      if succeeds {
        h := nextHandle;
        nextHandle := nextHandle + 1;
        objects := objects[h := KObj(kind, cb, data, true)];
        if kind.Task? {
          runState := runState[h := Ready];
        }
      } else {
        h := NULL_HANDLE;
      }
    }

    /**
      xTaskCreatePinnedToCore: the kernel allocates the task itself (its
      memory is not this layer's); returns pdPASS with a new Ready task, or pdFAIL.
     */
    method CreateTask(priority: u32, core: int, code: TaskCode, succeeds: bool) returns (result: int, h: Handle)
      requires Valid()
      modifies this`objects, this`runState, this`nextHandle
      ensures Valid()
      ensures result == PD_PASS <==> succeeds
      ensures result == PD_PASS || result == PD_FAIL
      ensures succeeds ==> h != NULL_HANDLE && h !in old(objects)
                           && objects == old(objects)[h := KObj(Task(priority, core, code), NULL, NULL, false)]
                           && runState == old(runState)[h := Ready]
      ensures !succeeds ==> h == NULL_HANDLE && objects == old(objects) && runState == old(runState)
    {
      if succeeds {
        h := nextHandle;
        nextHandle := nextHandle + 1;
        objects := objects[h := KObj(Task(priority, core, code), NULL, NULL, false)];
        runState := runState[h := Ready];
        result := PD_PASS;
      } else {
        h, result := NULL_HANDLE, PD_FAIL;
      }
    }

    /**
      The introspection calls (xTaskGetStaticBuffers, xQueueGetStaticBuffers,
      xSemaphoreGetStaticBuffer, xStreamBufferGetStaticBuffers,
      xMessageBufferGetStaticBuffers, xEventGroupGetStaticBuffer): for a
      statically built object of their family they report its control block
      and `ReportedData` of it, which is the data buffer except for a queue,
      binary semaphore or counting semaphore without storage, whose queue
      head is the control block itself.
     */
    method GetStaticBuffers(h: Handle, family: Family) returns (ok: bool, cb: Ptr, data: Ptr)
      requires h in objects
      ensures ok <==> objects[h].staticBuffers && FamilyOf(objects[h].kind) == family
      ensures ok ==> cb == objects[h].cb && data == ReportedData(objects[h])
      ensures !ok ==> cb == NULL && data == NULL
    {
      var o := objects[h];
      ok := o.staticBuffers && FamilyOf(o.kind) == family;
      if ok {
        cb, data := o.cb, ReportedData(o);
      } else {
        cb, data := NULL, NULL;
      }
    }

    /**
      vQueueDelete (also behind vSemaphoreDelete), vStreamBufferDelete (also
      behind vMessageBufferDelete), vEventGroupDelete: the object leaves the
      table when it belongs to the routine's family; applied to an object of
      another family the C call is undefined, and the model reports it
      instead of changing anything.
     */
    method DestroyObject(h: Handle, family: Family) returns (matched: bool)
      requires Valid() && h in objects && family != TaskFamily
      modifies this`objects
      ensures Valid()
      ensures matched <==> FamilyOf(old(objects)[h].kind) == family
      ensures matched ==> objects == old(objects) - {h}
      ensures !matched ==> objects == old(objects)
    {
      matched := FamilyOf(objects[h].kind) == family;
      if matched {
        objects := objects - {h};
      }
    }

    /**
      vTaskSuspend: the calling task, or a task that is not running, is
      suspended at once; a task running on another core stops only at its
      next scheduling point, which the caller has to wait for.
     */
    method TaskSuspend(h: Handle)
      requires Valid() && h in runState
      modifies this`runState
      ensures Valid()
      ensures runState == if old(runState)[h] == Running && h != current then old(runState) else old(runState)[h := Suspended]
    {
      if !(runState[h] == Running && h != current) {
        runState := runState[h := Suspended];
      }
    }

    /** The scheduler moves task `h` to state `s` (the foreign scheduler acting between two polls). */
    method SchedulerSets(h: Handle, s: RunState)
      requires Valid() && h in runState
      modifies this`runState
      ensures Valid()
      ensures runState == old(runState)[h := s]
    {
      runState := runState[h := s];
    }

    /** The scheduler dispatches the Ready task `h` on this core; a running caller becomes Ready. */
    method SwitchTo(h: Handle)
      requires Valid() && h in runState && runState[h] == Ready
      modifies this`runState, this`current
      ensures Valid() && current == h
      ensures runState == (if old(current) != NULL_HANDLE && old(runState)[old(current)] == Running
                           then old(runState)[old(current) := Ready] else old(runState))[h := Running]
    {
      if current != NULL_HANDLE && runState[current] == Running {
        runState := runState[current := Ready];
      }
      runState := runState[h := Running];
      current := h;
    }

    /**
      vTaskDelete of another task. The model admits only a target that is not
      running: that is the order the layer promises (stopped before destroyed).
     */
    method TaskDeleteOther(h: Handle)
      requires Valid() && h in runState && h != current && runState[h] != Running
      modifies this`objects, this`runState
      ensures Valid()
      ensures objects == old(objects) - {h} && runState == old(runState) - {h}
    {
      objects := objects - {h};
      runState := runState - {h};
    }

    /**
      vTaskDelete( NULL ): the calling task removes itself; the kernel's idle
      task reclaims what the kernel allocated for it, but not a static task's
      buffers, which stay live.
     */
    method TaskDeleteSelf()
      requires Valid() && current != NULL_HANDLE
      modifies this`objects, this`runState, this`current
      ensures Valid() && current == NULL_HANDLE
      ensures objects == old(objects) - {old(current)} && runState == old(runState) - {old(current)}
    {
      objects := objects - {current};
      runState := runState - {current};
      current := NULL_HANDLE;
    }

    /* ------------------------------- Tasks ------------------------------- */

    /**
      xTaskCreatePinnedToCoreWithCaps: the TCB is requested from the port heap
      and the stack from the capability heap before either is checked; if
      either is NULL or the static constructor fails, both are released and
      pdFAIL is returned with the heap as it was. On pdPASS exactly the two new
      blocks are live, owned by the new Ready task, and `*pvCreatedTask` is
      written only when the pointer is not NULL.
     */
    method XTaskCreatePinnedToCoreWithCaps(usStackDepth: u32, uxPriority: u32, pvCreatedTask: Option<Handle>,
                                           xCoreID: int, uxMemoryCaps: u32,
                                           tcbAvailable: bool, stackAvailable: bool, constructorSucceeds: bool)
      returns (result: int, createdTask: Option<Handle>, ghost xHandle: Handle, ghost tcb: Ptr, ghost stack: Ptr)
      requires Valid()
      modifies this`heap, this`objects, this`runState, this`nextHandle
      ensures Valid()
      ensures heap.requests == old(heap.requests)
                + [Block(PortHeap, SizeOf(StaticTaskT)), Block(CapsHeap(uxMemoryCaps), Bytes(usStackDepth as nat))]
      ensures result == PD_PASS || result == PD_FAIL
      ensures result == PD_PASS <==> tcbAvailable && stackAvailable && constructorSucceeds
      ensures result == PD_FAIL ==>
                heap.live == old(heap.live) && objects == old(objects) && runState == old(runState)
                && createdTask == pvCreatedTask
      ensures result == PD_PASS ==>
                && tcb != NULL && stack != NULL && tcb != stack
                && tcb !in old(heap.live) && stack !in old(heap.live)
                && heap.live == old(heap.live)[tcb := Block(PortHeap, SizeOf(StaticTaskT))]
                                              [stack := Block(CapsHeap(uxMemoryCaps), Bytes(usStackDepth as nat))]
                && xHandle != NULL_HANDLE && xHandle !in old(objects)
                && objects == old(objects)[xHandle := KObj(Task(uxPriority, xCoreID, Application), tcb, stack, true)]
                && runState == old(runState)[xHandle := Ready]
                && createdTask == (if pvCreatedTask.Some? then Some(xHandle) else None)
    {
      var pxTaskBuffer := Allocate(PortHeap, SizeOf(StaticTaskT), tcbAvailable);
      var pxStack := Allocate(CapsHeap(uxMemoryCaps), Bytes(usStackDepth as nat), stackAvailable);
      tcb, stack, xHandle, createdTask := pxTaskBuffer, pxStack, NULL_HANDLE, pvCreatedTask;
      if pxTaskBuffer != NULL && pxStack != NULL {
        var h := ConstructStatic(Task(uxPriority, xCoreID, Application), pxTaskBuffer, pxStack, constructorSucceeds);
        xHandle := h;
        if h != NULL_HANDLE {
          if pvCreatedTask.Some? {
            createdTask := Some(h);
          }
          result := PD_PASS;
          return;
        }
      }
      // err:
      RollbackRestores(old(heap), PortHeap, SizeOf(StaticTaskT), tcbAvailable,
                       CapsHeap(uxMemoryCaps), Bytes(usStackDepth as nat), stackAvailable);
      Release(HeapCapsFree, pxStack);
      Release(VPortFree, pxTaskBuffer);
      result := PD_FAIL;
    }

    /* ------------------------------- Queue ------------------------------- */

    /**
      xQueueCreateWithCaps: the control block is always requested; a storage
      area of `uxQueueLength * uxItemSize` bytes (32-bit product) only when
      items are not empty, and a NULL storage pointer is a failure only then.
      On any failure both pointers are released (NULL does nothing) and NULL
      is returned with the heap as it was.
     */
    method XQueueCreateWithCaps(uxQueueLength: u32, uxItemSize: u32, uxMemoryCaps: u32,
                                bufferAvailable: bool, storageAvailable: bool, constructorSucceeds: bool)
      returns (xQueue: Handle, ghost pxQueueBuffer: Ptr, ghost pucQueueStorageBuffer: Ptr)
      requires Valid()
      modifies this`heap, this`objects, this`runState, this`nextHandle
      ensures Valid() && runState == old(runState)
      ensures heap.requests == old(heap.requests) + [Block(CapsHeap(uxMemoryCaps), SizeOf(StaticQueueT))]
                + (if uxItemSize == 0 then []
                   else [Block(CapsHeap(uxMemoryCaps), Bytes(QueueStorageBytes(uxQueueLength, uxItemSize) as nat))])
      ensures xQueue != NULL_HANDLE <==> bufferAvailable && (uxItemSize > 0 ==> storageAvailable) && constructorSucceeds
      ensures xQueue == NULL_HANDLE ==> heap.live == old(heap.live) && objects == old(objects)
      ensures xQueue != NULL_HANDLE ==>
                && pxQueueBuffer != NULL && pxQueueBuffer !in old(heap.live)
                && (pucQueueStorageBuffer == NULL <==> uxItemSize == 0)
                && (uxItemSize == 0 ==>
                      heap.live == old(heap.live)[pxQueueBuffer := Block(CapsHeap(uxMemoryCaps), SizeOf(StaticQueueT))])
                && (uxItemSize > 0 ==>
                      && pucQueueStorageBuffer !in old(heap.live) && pucQueueStorageBuffer != pxQueueBuffer
                      && heap.live == old(heap.live)[pxQueueBuffer := Block(CapsHeap(uxMemoryCaps), SizeOf(StaticQueueT))]
                           [pucQueueStorageBuffer := Block(CapsHeap(uxMemoryCaps), Bytes(QueueStorageBytes(uxQueueLength, uxItemSize) as nat))])
                && xQueue !in old(objects)
                && objects == old(objects)[xQueue := KObj(Queue(uxQueueLength, uxItemSize), pxQueueBuffer, pucQueueStorageBuffer, true)]
    {
      var buffer := Allocate(CapsHeap(uxMemoryCaps), SizeOf(StaticQueueT), bufferAvailable);
      var storage: Ptr;
      if uxItemSize == 0 {
        storage := NULL;
      } else {
        storage := Allocate(CapsHeap(uxMemoryCaps), Bytes(QueueStorageBytes(uxQueueLength, uxItemSize) as nat), storageAvailable);
      }
      pxQueueBuffer, pucQueueStorageBuffer := buffer, storage;
      if !(buffer == NULL || (uxItemSize > 0 && storage == NULL)) {
        xQueue := ConstructStatic(Queue(uxQueueLength, uxItemSize), buffer, storage, constructorSucceeds);
        if xQueue != NULL_HANDLE {
          return;
        }
      }
      // err:
      if uxItemSize == 0 {
        MallocFreeRoundTrip(old(heap), CapsHeap(uxMemoryCaps), SizeOf(StaticQueueT), bufferAvailable);
      } else {
        RollbackRestores(old(heap), CapsHeap(uxMemoryCaps), SizeOf(StaticQueueT), bufferAvailable,
                         CapsHeap(uxMemoryCaps), Bytes(QueueStorageBytes(uxQueueLength, uxItemSize) as nat), storageAvailable);
      }
      Release(HeapCapsFree, storage);
      Release(HeapCapsFree, buffer);
      xQueue := NULL_HANDLE;
    }

    /* ----------------------------- Semaphore ----------------------------- */

    /**
      xSemaphoreCreateGenericWithCaps: one block is requested; if it is NULL,
      NULL is returned and nothing is allocated. Otherwise the member of the
      semaphore family `ucQueueType` selects is built, and if its constructor
      fails the block is released.
     */
    method XSemaphoreCreateGenericWithCaps(uxMaxCount: u32, uxInitialCount: u32, ucQueueType: u8, uxMemoryCaps: u32,
                                           bufferAvailable: bool, constructorSucceeds: bool)
      returns (xSemaphore: Handle, ghost pxSemaphoreBuffer: Ptr)
      requires Valid()
      modifies this`heap, this`objects, this`runState, this`nextHandle
      ensures Valid() && runState == old(runState)
      ensures heap.requests == old(heap.requests) + [Block(CapsHeap(uxMemoryCaps), SizeOf(StaticSemaphoreT))]
      ensures xSemaphore != NULL_HANDLE <==> bufferAvailable && constructorSucceeds
      ensures xSemaphore == NULL_HANDLE ==> heap.live == old(heap.live) && objects == old(objects)
      ensures xSemaphore != NULL_HANDLE ==>
                && pxSemaphoreBuffer != NULL && pxSemaphoreBuffer !in old(heap.live)
                && heap.live == old(heap.live)[pxSemaphoreBuffer := Block(CapsHeap(uxMemoryCaps), SizeOf(StaticSemaphoreT))]
                && xSemaphore !in old(objects)
                && objects == old(objects)[xSemaphore :=
                     KObj(SemaphoreKindFor(ucQueueType, uxMaxCount, uxInitialCount), pxSemaphoreBuffer, NULL, true)]
    {
      var buffer := Allocate(CapsHeap(uxMemoryCaps), SizeOf(StaticSemaphoreT), bufferAvailable);
      pxSemaphoreBuffer := buffer;
      if buffer == NULL {
        return NULL_HANDLE, buffer;
      }
      xSemaphore := ConstructStatic(SemaphoreKindFor(ucQueueType, uxMaxCount, uxInitialCount), buffer, NULL, constructorSucceeds);
      if xSemaphore == NULL_HANDLE {
        Release(HeapCapsFree, buffer);
      }
    }

    /* --------------------- Stream and message buffers -------------------- */

    /**
      xStreamBufferGenericCreateWithCaps: the control block and the storage
      area are both requested before either is checked; either being NULL, or
      the constructor failing, releases both and returns NULL with the heap as
      it was. A message buffer is built exactly when `xIsMessageBuffer` is
      pdTRUE, and then the trigger level is not passed on.
     */
    method XStreamBufferGenericCreateWithCaps(xBufferSizeBytes: u32, xTriggerLevelBytes: u32, xIsMessageBuffer: int,
                                              uxMemoryCaps: u32,
                                              bufferAvailable: bool, storageAvailable: bool, constructorSucceeds: bool)
      returns (xStreamBuffer: Handle, ghost pxStaticStreamBuffer: Ptr, ghost pucStreamBufferStorageArea: Ptr)
      requires Valid()
      modifies this`heap, this`objects, this`runState, this`nextHandle
      ensures Valid() && runState == old(runState)
      ensures heap.requests == old(heap.requests)
                + [Block(CapsHeap(uxMemoryCaps), SizeOf(StaticStreamBufferT)), Block(CapsHeap(uxMemoryCaps), Bytes(xBufferSizeBytes as nat))]
      ensures xStreamBuffer != NULL_HANDLE <==> bufferAvailable && storageAvailable && constructorSucceeds
      ensures xStreamBuffer == NULL_HANDLE ==> heap.live == old(heap.live) && objects == old(objects)
      ensures xStreamBuffer != NULL_HANDLE ==>
                && pxStaticStreamBuffer != NULL && pucStreamBufferStorageArea != NULL
                && pxStaticStreamBuffer != pucStreamBufferStorageArea
                && pxStaticStreamBuffer !in old(heap.live) && pucStreamBufferStorageArea !in old(heap.live)
                && heap.live == old(heap.live)[pxStaticStreamBuffer := Block(CapsHeap(uxMemoryCaps), SizeOf(StaticStreamBufferT))]
                                              [pucStreamBufferStorageArea := Block(CapsHeap(uxMemoryCaps), Bytes(xBufferSizeBytes as nat))]
                && xStreamBuffer !in old(objects)
                && objects == old(objects)[xStreamBuffer :=
                     KObj(StreamKindFor(xBufferSizeBytes, xTriggerLevelBytes, xIsMessageBuffer), pxStaticStreamBuffer, pucStreamBufferStorageArea, true)]
    {
      var buffer := Allocate(CapsHeap(uxMemoryCaps), SizeOf(StaticStreamBufferT), bufferAvailable);
      var storage := Allocate(CapsHeap(uxMemoryCaps), Bytes(xBufferSizeBytes as nat), storageAvailable);
      pxStaticStreamBuffer, pucStreamBufferStorageArea := buffer, storage;
      if buffer != NULL && storage != NULL {
        // StreamKindFor: xMessageBufferCreateStatic when pdTRUE, xStreamBufferCreateStatic otherwise
        xStreamBuffer := ConstructStatic(StreamKindFor(xBufferSizeBytes, xTriggerLevelBytes, xIsMessageBuffer), buffer, storage, constructorSucceeds);
        if xStreamBuffer != NULL_HANDLE {
          return;
        }
      }
      // err:
      RollbackRestores(old(heap), CapsHeap(uxMemoryCaps), SizeOf(StaticStreamBufferT), bufferAvailable,
                       CapsHeap(uxMemoryCaps), Bytes(xBufferSizeBytes as nat), storageAvailable);
      Release(HeapCapsFree, storage);
      Release(HeapCapsFree, buffer);
      xStreamBuffer := NULL_HANDLE;
    }

    /* ---------------------------- Event groups --------------------------- */

    /**
      xEventGroupCreateWithCaps: one block is requested; if it is NULL, NULL
      is returned and nothing is allocated; if the constructor fails the block
      is released.
     */
    method XEventGroupCreateWithCaps(uxMemoryCaps: u32, bufferAvailable: bool, constructorSucceeds: bool)
      returns (xEventGroup: Handle, ghost pxEventGroupBuffer: Ptr)
      requires Valid()
      modifies this`heap, this`objects, this`runState, this`nextHandle
      ensures Valid() && runState == old(runState)
      ensures heap.requests == old(heap.requests) + [Block(CapsHeap(uxMemoryCaps), SizeOf(StaticEventGroupT))]
      ensures xEventGroup != NULL_HANDLE <==> bufferAvailable && constructorSucceeds
      ensures xEventGroup == NULL_HANDLE ==> heap.live == old(heap.live) && objects == old(objects)
      ensures xEventGroup != NULL_HANDLE ==>
                && pxEventGroupBuffer != NULL && pxEventGroupBuffer !in old(heap.live)
                && heap.live == old(heap.live)[pxEventGroupBuffer := Block(CapsHeap(uxMemoryCaps), SizeOf(StaticEventGroupT))]
                && xEventGroup !in old(objects)
                && objects == old(objects)[xEventGroup := KObj(EventGroup, pxEventGroupBuffer, NULL, true)]
    {
      var buffer := Allocate(CapsHeap(uxMemoryCaps), SizeOf(StaticEventGroupT), bufferAvailable);
      pxEventGroupBuffer := buffer;
      if buffer == NULL {
        return NULL_HANDLE, buffer;
      }
      xEventGroup := ConstructStatic(EventGroup, buffer, NULL, constructorSucceeds);
      if xEventGroup == NULL_HANDLE {
        Release(HeapCapsFree, buffer);
      }
    }

    /**
      What the invariant says of the buffers of a statically built object
      `h`: each can go back through its release function, they are distinct,
      and no other object was built from them.
     */
    lemma BuffersOf(h: Handle)
      requires Valid() && h in objects && objects[h].staticBuffers
      ensures var o := objects[h];
              && CanFree(heap, ReleaseFor(o, o.cb), o.cb)
              && CanFree(heap, ReleaseFor(o, o.data), o.data)
              && (o.cb != NULL ==> o.cb != o.data)
              && forall h2 :: h2 in objects && h2 != h ==> !Holds(objects[h2], o.cb) && !Holds(objects[h2], o.data)
    {
      var o := objects[h];
      forall h2 | h2 in objects && h2 != h
        ensures !Holds(objects[h2], o.cb) && !Holds(objects[h2], o.data)
      {
        assert Disjoint(objects[h], objects[h2]);
      }
    }

    /* ------------------------------ Deletion ----------------------------- */

    /**
      vQueueDeleteWithCaps, corrected: the buffers are fetched before the
      queue is destroyed (the introspection call needs the live object); a
      handle without static buffers fails the configASSERT. The control block
      is released, and the reported storage area too unless it is the control
      block itself, as it is for a queue whose items are empty.
     */
    method VQueueDeleteWithCaps(xQueue: Handle) returns (outcome: Outcome)
      requires Valid() && xQueue in objects && FamilyOf(objects[xQueue].kind) == QueueFamily
      modifies this`heap, this`objects
      ensures Valid()
      ensures outcome == Returned || outcome == Aborted
      ensures outcome == Returned <==> old(objects[xQueue]).staticBuffers
      ensures outcome == Aborted ==> heap == old(heap) && objects == old(objects)
      ensures outcome == Returned ==>
                && objects == old(objects) - {xQueue}
                && heap.live == old(heap.live) - {old(objects[xQueue]).cb, old(objects[xQueue]).data}
                && heap.requests == old(heap.requests)
    {
      var xResult, pxQueueBuffer, pucQueueStorageBuffer := GetStaticBuffers(xQueue, QueueFamily);
      if !xResult {
        return Aborted; // configASSERT( xResult == pdTRUE )
      }
      BuffersOf(xQueue);
      var matched := DestroyObject(xQueue, QueueFamily);
      assert matched;
      if pucQueueStorageBuffer == pxQueueBuffer {
        Release(HeapCapsFree, pxQueueBuffer);
      } else {
        FreeTwice(heap, HeapCapsFree, pxQueueBuffer, HeapCapsFree, pucQueueStorageBuffer);
        Release(HeapCapsFree, pxQueueBuffer);
        Release(HeapCapsFree, pucQueueStorageBuffer);
      }
      outcome := Returned;
    }

    /**
      vQueueDeleteWithCaps as written: both reported pointers are released.
      For a queue whose items are empty the reported storage area is the
      control block, so the second release is handed a block the first one
      already returned. The C behaviour is undefined from there on; the
      model stops at that release and reports it.
     */
    method VQueueDeleteWithCapsAsWritten(xQueue: Handle) returns (outcome: Outcome)
      requires Valid() && xQueue in objects && FamilyOf(objects[xQueue].kind) == QueueFamily
      modifies this`heap, this`objects
      ensures Valid()
      ensures outcome == Aborted <==> !old(objects[xQueue]).staticBuffers
      ensures outcome == InvalidFree <==> old(objects[xQueue]).staticBuffers && HeadIsStructure(old(objects[xQueue]))
      ensures outcome == Returned <==> old(objects[xQueue]).staticBuffers && !HeadIsStructure(old(objects[xQueue]))
      ensures outcome == Aborted ==> heap == old(heap) && objects == old(objects)
      ensures outcome == InvalidFree ==>
                && objects == old(objects) - {xQueue}
                && heap.live == old(heap.live) - {old(objects[xQueue]).cb}
      ensures outcome == Returned ==>
                && objects == old(objects) - {xQueue}
                && heap.live == old(heap.live) - {old(objects[xQueue]).cb, old(objects[xQueue]).data}
    {
      var xResult, pxQueueBuffer, pucQueueStorageBuffer := GetStaticBuffers(xQueue, QueueFamily);
      if !xResult {
        return Aborted; // configASSERT( xResult == pdTRUE )
      }
      BuffersOf(xQueue);
      var matched := DestroyObject(xQueue, QueueFamily);
      Release(HeapCapsFree, pxQueueBuffer);
      if !CanFree(heap, HeapCapsFree, pucQueueStorageBuffer) {
        return InvalidFree; // heap_caps_free( pucQueueStorageBuffer ) of a released block
      }
      Release(HeapCapsFree, pucQueueStorageBuffer);
      outcome := Returned;
    }

    /**
      vSemaphoreDeleteWithCaps: the one buffer of a semaphore is fetched
      before the semaphore is destroyed, and then released.
     */
    method VSemaphoreDeleteWithCaps(xSemaphore: Handle) returns (outcome: Outcome)
      requires Valid() && xSemaphore in objects && FamilyOf(objects[xSemaphore].kind) == QueueFamily
      modifies this`heap, this`objects
      ensures Valid()
      ensures outcome == Returned || outcome == Aborted
      ensures outcome == Returned <==> old(objects[xSemaphore]).staticBuffers
      ensures outcome == Aborted ==> heap == old(heap) && objects == old(objects)
      ensures outcome == Returned ==>
                && objects == old(objects) - {xSemaphore}
                && heap.live == old(heap.live) - {old(objects[xSemaphore]).cb}
                && heap.requests == old(heap.requests)
    {
      var xResult, pxSemaphoreBuffer, _ := GetStaticBuffers(xSemaphore, QueueFamily);
      if !xResult {
        return Aborted; // configASSERT( xResult == pdTRUE )
      }
      BuffersOf(xSemaphore);
      var matched := DestroyObject(xSemaphore, QueueFamily);
      Release(HeapCapsFree, pxSemaphoreBuffer);
      outcome := Returned;
    }

    /**
      vStreamBufferGenericDeleteWithCaps, corrected: both buffers are fetched
      (xMessageBufferGetStaticBuffers and xStreamBufferGetStaticBuffers are
      the same stream-buffer call), the object is destroyed by the
      stream-buffer delete in both branches, and both buffers are released.
     */
    method VStreamBufferGenericDeleteWithCaps(xStreamBuffer: Handle, xIsMessageBuffer: int) returns (outcome: Outcome)
      requires Valid() && xStreamBuffer in objects && FamilyOf(objects[xStreamBuffer].kind) == StreamBufferFamily
      modifies this`heap, this`objects
      ensures Valid()
      ensures outcome == Returned || outcome == Aborted
      ensures outcome == Returned <==> old(objects[xStreamBuffer]).staticBuffers
      ensures outcome == Aborted ==> heap == old(heap) && objects == old(objects)
      ensures outcome == Returned ==>
                && objects == old(objects) - {xStreamBuffer}
                && heap.live == old(heap.live) - {old(objects[xStreamBuffer]).cb, old(objects[xStreamBuffer]).data}
                && heap.requests == old(heap.requests)
    {
      var xResult, pxStaticStreamBuffer, pucStreamBufferStorageArea := GetStaticBuffers(xStreamBuffer, StreamBufferFamily);
      if !xResult {
        return Aborted; // configASSERT( xResult == pdTRUE )
      }
      BuffersOf(xStreamBuffer);
      var matched := DestroyObject(xStreamBuffer, StreamDeleteFamily(xIsMessageBuffer));
      assert matched; // the corrected routine's family is the object's own
      FreeTwice(heap, HeapCapsFree, pxStaticStreamBuffer, HeapCapsFree, pucStreamBufferStorageArea);
      Release(HeapCapsFree, pxStaticStreamBuffer);
      Release(HeapCapsFree, pucStreamBufferStorageArea);
      outcome := Returned;
    }

    /**
      vStreamBufferGenericDeleteWithCaps as written: when `xIsMessageBuffer`
      is not pdTRUE the object is handed to vSemaphoreDelete, the queue
      delete, so no stream buffer built with a static buffer can be deleted
      correctly through that branch. From the mismatched call on the C
      behaviour is undefined; the model stops there and reports it.
     */
    method VStreamBufferGenericDeleteWithCapsAsWritten(xStreamBuffer: Handle, xIsMessageBuffer: int) returns (outcome: Outcome)
      requires Valid() && xStreamBuffer in objects && FamilyOf(objects[xStreamBuffer].kind) == StreamBufferFamily
      modifies this`heap, this`objects
      ensures Valid()
      ensures outcome == Aborted <==> !old(objects[xStreamBuffer]).staticBuffers
      ensures outcome == KindMismatch <==> old(objects[xStreamBuffer]).staticBuffers && xIsMessageBuffer != PD_TRUE
      ensures outcome == Returned <==> old(objects[xStreamBuffer]).staticBuffers && xIsMessageBuffer == PD_TRUE
      ensures outcome != Returned ==> heap == old(heap) && objects == old(objects)
      ensures outcome == Returned ==>
                && objects == old(objects) - {xStreamBuffer}
                && heap.live == old(heap.live) - {old(objects[xStreamBuffer]).cb, old(objects[xStreamBuffer]).data}
    {
      var xResult, pxStaticStreamBuffer, pucStreamBufferStorageArea := GetStaticBuffers(xStreamBuffer, StreamBufferFamily);
      if !xResult {
        return Aborted; // configASSERT( xResult == pdTRUE )
      }
      BuffersOf(xStreamBuffer);
      var matched := DestroyObject(xStreamBuffer, StreamDeleteFamilyAsWritten(xIsMessageBuffer));
      if !matched {
        return KindMismatch;
      }
      FreeTwice(heap, HeapCapsFree, pxStaticStreamBuffer, HeapCapsFree, pucStreamBufferStorageArea);
      Release(HeapCapsFree, pxStaticStreamBuffer);
      Release(HeapCapsFree, pucStreamBufferStorageArea);
      outcome := Returned;
    }

    /**
      vEventGroupDeleteWithCaps: the one buffer is fetched before the event
      group is destroyed, and then released.
     */
    method VEventGroupDeleteWithCaps(xEventGroup: Handle) returns (outcome: Outcome)
      requires Valid() && xEventGroup in objects && FamilyOf(objects[xEventGroup].kind) == EventGroupFamily
      modifies this`heap, this`objects
      ensures Valid()
      ensures outcome == Returned || outcome == Aborted
      ensures outcome == Returned <==> old(objects[xEventGroup]).staticBuffers
      ensures outcome == Aborted ==> heap == old(heap) && objects == old(objects)
      ensures outcome == Returned ==>
                && objects == old(objects) - {xEventGroup}
                && heap.live == old(heap.live) - {old(objects[xEventGroup]).cb}
                && heap.requests == old(heap.requests)
    {
      var xResult, pxEventGroupBuffer, _ := GetStaticBuffers(xEventGroup, EventGroupFamily);
      if !xResult {
        return Aborted; // configASSERT( xResult == pdTRUE )
      }
      BuffersOf(xEventGroup);
      var matched := DestroyObject(xEventGroup, EventGroupFamily);
      Release(HeapCapsFree, pxEventGroupBuffer);
      outcome := Returned;
    }

    /**
      The reclaim step shared by the two non-self paths of vTaskDeleteWithCaps:
      the stopped task's buffers are fetched and must be reported, both
      non-NULL; only then is the task deleted and its stack and TCB released.
     */
    method ReclaimStoppedTask(xTaskToDelete: Handle) returns (outcome: Outcome)
      requires Valid() && xTaskToDelete in runState && xTaskToDelete != current && runState[xTaskToDelete] != Running
      modifies this`heap, this`objects, this`runState
      ensures Valid()
      ensures outcome == Returned || outcome == Aborted
      ensures outcome == Returned <==> HasStaticTaskBuffers(old(objects[xTaskToDelete]))
      ensures outcome == Aborted ==> heap == old(heap) && objects == old(objects) && runState == old(runState)
      ensures outcome == Returned ==>
                && objects == old(objects) - {xTaskToDelete}
                && runState == old(runState) - {xTaskToDelete}
                && heap.live == old(heap.live) - {old(objects[xTaskToDelete]).cb, old(objects[xTaskToDelete]).data}
                && heap.requests == old(heap.requests)
    {
      var xResult, pxTaskBuffer, puxStackBuffer := GetStaticBuffers(xTaskToDelete, TaskFamily);
      if !xResult || puxStackBuffer == NULL || pxTaskBuffer == NULL {
        return Aborted; // configASSERT on xResult, puxStackBuffer and pxTaskBuffer
      }
      BuffersOf(xTaskToDelete);
      TaskDeleteOther(xTaskToDelete);
      FreeTwice(heap, HeapCapsFree, puxStackBuffer, VPortFree, pxTaskBuffer);
      Release(HeapCapsFree, puxStackBuffer);
      Release(VPortFree, pxTaskBuffer);
      outcome := Returned;
    }

    /**
      The self-delete path of vTaskDeleteWithCaps. The task cannot release
      the memory it is running on. So it creates a clean-up task on this
      core, with the target's priority, and gives it its own handle. Then it
      suspends itself. The call never returns normally: it parks, or it
      aborts when the clean-up task cannot be created or when the suspension
      returns. Nothing is allocated or released here.
     */
    method DeleteSelfViaRescuer(xTaskToDelete: Handle, rescuerCreated: bool, suspendReturns: bool)
      returns (outcome: Outcome, rescuer: Handle)
      requires Valid() && current != NULL_HANDLE
      requires xTaskToDelete == NULL_HANDLE || xTaskToDelete == current
      modifies this`objects, this`runState, this`nextHandle
      ensures Valid()
      ensures outcome == SuspendedForever || outcome == Aborted
      ensures outcome == SuspendedForever <==> rescuerCreated && !suspendReturns
      ensures !rescuerCreated ==> objects == old(objects) && runState == old(runState)
      ensures rescuerCreated ==>
                && rescuer != NULL_HANDLE && rescuer !in old(objects)
                && objects == old(objects)[rescuer := KObj(Task(old(objects[current]).kind.priority, currentCore as int,
                                                                DeleteWithCapsRescuer(current)), NULL, NULL, false)]
                && runState == old(runState)[rescuer := Ready][current := if suspendReturns then Running else Suspended]
    {
      var xCurrentTaskHandle := current;
      // uxTaskPriorityGet( xTaskToDelete ): NULL stands for the calling task
      var self := if xTaskToDelete == NULL_HANDLE then xCurrentTaskHandle else xTaskToDelete;
      var priority := objects[self].kind.priority;
      var created, r := CreateTask(priority, currentCore as int, DeleteWithCapsRescuer(xCurrentTaskHandle), rescuerCreated);
      rescuer := r;
      if created != PD_FAIL {
        TaskSuspend(self);
        if suspendReturns {
          // the task was resumed before the clean-up task deleted it: abort()
          SchedulerSets(self, Running);
          outcome := Aborted;
        } else {
          outcome := SuspendedForever;
        }
      } else {
        outcome := Aborted; // abort()
      }
    }

    /**
      The cross-core path of vTaskDeleteWithCaps: the target, running on
      another core, is suspended. The caller polls until the target is no
      longer Running, and only then reclaims it.
     */
    method SuspendThenReclaim(xTaskToDelete: Handle, polls: seq<RunState>) returns (outcome: Outcome)
      requires Valid() && xTaskToDelete in runState && xTaskToDelete != current && SpinExits(polls)
      modifies this`heap, this`objects, this`runState
      ensures Valid()
      ensures outcome == Returned || outcome == Aborted
      ensures outcome == Returned <==> HasStaticTaskBuffers(old(objects[xTaskToDelete]))
      ensures outcome == Aborted ==> heap == old(heap) && objects == old(objects)
      ensures outcome == Aborted ==>
                && xTaskToDelete in runState && runState[xTaskToDelete] != Running
                && runState - {xTaskToDelete} == old(runState) - {xTaskToDelete}
      ensures outcome == Returned ==>
                && objects == old(objects) - {xTaskToDelete}
                && runState == old(runState) - {xTaskToDelete}
                && heap.live == old(heap.live) - {old(objects[xTaskToDelete]).cb, old(objects[xTaskToDelete]).data}
    {
      TaskSuspend(xTaskToDelete);
      var k := WaitUntilNotRunning(polls);
      SchedulerSets(xTaskToDelete, polls[k]);
      assert runState - {xTaskToDelete} == old(runState) - {xTaskToDelete};
      assert objects == old(objects) && heap == old(heap);
      outcome := ReclaimStoppedTask(xTaskToDelete);
    }

    /**
      vTaskDeleteWithCaps. The caller must be a task. The path is chosen by
      SelectDeletePath. A self-delete never returns normally and frees
      nothing. The other two paths free memory only after the target has
      stopped running, and only the two buffers the kernel reports for it.
      On the stopped path a target that is still running fails the assertion.
     */
    method VTaskDeleteWithCaps(xTaskToDelete: Handle, rescuerCreated: bool, suspendReturns: bool, polls: seq<RunState>)
      returns (outcome: Outcome, ghost path: DeletePath, rescuer: Handle)
      requires Valid()
      requires xTaskToDelete == NULL_HANDLE || xTaskToDelete in runState
      requires current != NULL_HANDLE
               && SelectDeletePath(xTaskToDelete, current, IsRunning(xTaskToDelete), numCores) == CrossCoreDelete
               ==> SpinExits(polls)
      modifies this`heap, this`objects, this`runState, this`nextHandle
      ensures Valid()
      ensures old(current) == NULL_HANDLE ==>
                outcome == Aborted && heap == old(heap) && objects == old(objects) && runState == old(runState)
      ensures old(current) != NULL_HANDLE ==>
                path == SelectDeletePath(xTaskToDelete, old(current), old(IsRunning(xTaskToDelete)), numCores)
      // the self-delete path
      ensures old(current) != NULL_HANDLE && path == SelfDelete ==>
                && heap == old(heap)
                && (outcome == SuspendedForever || outcome == Aborted)
                && (outcome == SuspendedForever <==> rescuerCreated && !suspendReturns)
                && (!rescuerCreated ==> objects == old(objects) && runState == old(runState))
                && (rescuerCreated ==>
                      && rescuer != NULL_HANDLE && rescuer !in old(objects)
                      && objects == old(objects)[rescuer := KObj(Task(old(objects[current]).kind.priority, currentCore as int,
                                                                      DeleteWithCapsRescuer(current)), NULL, NULL, false)]
                      && runState == old(runState)[rescuer := Ready][current := if suspendReturns then Running else Suspended])
      // the two reclaiming paths
      ensures old(current) != NULL_HANDLE && path != SelfDelete ==>
                && (outcome == Returned || outcome == Aborted)
                && (outcome == Returned <==>
                      HasStaticTaskBuffers(old(objects[xTaskToDelete]))
                      && (path == StoppedDelete ==> old(runState[xTaskToDelete]) != Running))
                && (outcome == Aborted ==> heap == old(heap) && objects == old(objects))
                && (outcome == Aborted && path == StoppedDelete ==> runState == old(runState))
                && (outcome == Aborted && path == CrossCoreDelete ==>
                      && xTaskToDelete in runState && runState[xTaskToDelete] != Running
                      && runState - {xTaskToDelete} == old(runState) - {xTaskToDelete})
                && (outcome == Returned ==>
                      && objects == old(objects) - {xTaskToDelete}
                      && runState == old(runState) - {xTaskToDelete}
                      && heap.live == old(heap.live) - {old(objects[xTaskToDelete]).cb, old(objects[xTaskToDelete]).data})
    {
      rescuer := NULL_HANDLE;
      path := SelfDelete;
      var xCurrentTaskHandle := current;
      if xCurrentTaskHandle == NULL_HANDLE {
        return Aborted, path, rescuer; // configASSERT( xCurrentTaskHandle != NULL )
      }
      var branch := SelectDeletePath(xTaskToDelete, xCurrentTaskHandle, IsRunning(xTaskToDelete), numCores);
      path := branch;
      if branch == SelfDelete {
        outcome, rescuer := DeleteSelfViaRescuer(xTaskToDelete, rescuerCreated, suspendReturns);
      } else if branch == CrossCoreDelete {
        outcome := SuspendThenReclaim(xTaskToDelete, polls);
      } else if runState[xTaskToDelete] == Running {
        outcome := Aborted; // configASSERT( eRunning != eTaskGetState( xTaskToDelete ) )
      } else {
        outcome := ReclaimStoppedTask(xTaskToDelete);
      }
    }

    /**
      prvTaskDeleteWithCapsTask, run by the scheduler as the clean-up task:
      it asserts that the task it was given is not running, deletes it through
      vTaskDeleteWithCaps (which, called from another task on a stopped
      target, takes the stopped path), then deletes itself.
     */
    method PrvTaskDeleteWithCapsTask() returns (outcome: Outcome, ghost xTaskToDelete: Handle)
      requires Valid()
      requires current in objects && objects[current].kind.Task? && objects[current].kind.code.DeleteWithCapsRescuer?
      requires objects[current].kind.code.target in runState && objects[current].kind.code.target != current
      modifies this`heap, this`objects, this`runState, this`nextHandle, this`current
      ensures Valid()
      ensures xTaskToDelete == old(objects[current]).kind.code.target
      ensures outcome == Finished || outcome == Aborted
      ensures outcome == Finished <==>
                old(runState[xTaskToDelete]) != Running && HasStaticTaskBuffers(old(objects[xTaskToDelete]))
      ensures outcome == Aborted ==> heap == old(heap) && objects == old(objects) && runState == old(runState)
      ensures outcome == Finished ==>
                && current == NULL_HANDLE
                && objects == old(objects) - {xTaskToDelete, old(current)}
                && runState == old(runState) - {xTaskToDelete, old(current)}
                && heap.live == old(heap.live) - {old(objects[xTaskToDelete]).cb, old(objects[xTaskToDelete]).data}
    {
      var self := current;
      var target := objects[self].kind.code.target;
      xTaskToDelete := target;
      if runState[target] == Running {
        return Aborted, xTaskToDelete; // configASSERT( eRunning != eTaskGetState( xTaskToDelete ) )
      }
      var deleted;
      ghost var path, helper;
      deleted, path, helper := VTaskDeleteWithCaps(target, false, false, []);
      assert path == StoppedDelete;
      if deleted != Returned {
        return Aborted, xTaskToDelete;
      }
      TaskDeleteSelf(); // vTaskDelete( NULL )
      outcome := Finished;
    }
  }
}
