/**
  Clients of the object-lifecycle layer that compose a create wrapper with
  its delete wrapper. What they prove follows from the wrappers' contracts
  alone: a successful create followed by the matching delete leaves the
  allocator's live set and the kernel's object table as they were.
 */
module Scenarios {
  import opened Heap
  import opened Kernel
  import opened IdfAdditions

  /** Adding two absent keys and then removing them gives the map back. */
  lemma AddedThenRemoved<K, V>(m: map<K, V>, k1: K, v1: V, k2: K, v2: V)
    requires k1 !in m && k2 !in m
    ensures m[k1 := v1][k2 := v2] - {k1, k2} == m
  {
  }

  /** Adding an absent key and then removing it together with another absent key gives the map back. */
  lemma AddedOneThenRemoved<K, V>(m: map<K, V>, k1: K, v1: V, k2: K)
    requires k1 !in m && k2 !in m
    ensures m[k1 := v1] - {k1, k2} == m
  {
  }

  /** A task created with caps and deleted by the calling task (the stopped path) leaves nothing behind. */
  method TaskCreateThenDelete(sys: System, usStackDepth: u32, uxPriority: u32, xCoreID: int, uxMemoryCaps: u32)
    requires sys.Valid() && sys.current != NULL_HANDLE
    modifies sys
    ensures sys.Valid()
    ensures sys.heap.live == old(sys.heap.live) && sys.objects == old(sys.objects) && sys.runState == old(sys.runState)
  {
    var result, slot;
    ghost var xHandle, tcb, stack;
    result, slot, xHandle, tcb, stack :=
      sys.XTaskCreatePinnedToCoreWithCaps(usStackDepth, uxPriority, Some(NULL_HANDLE), xCoreID, uxMemoryCaps, true, true, true);
    var task := slot.value;
    var outcome, rescuer;
    ghost var path;
    outcome, path, rescuer := sys.VTaskDeleteWithCaps(task, false, false, []);
    assert path == StoppedDelete && outcome == Returned;
  }

  /**
    The running task, built from two capability buffers, deletes itself: it
    is parked and its clean-up task is created; once the scheduler runs the
    clean-up task, the parked task's blocks are released and both tasks are
    gone.
   */
  method SelfDeleteThenRescue(sys: System) returns (task: Handle)
    requires sys.Valid() && sys.current != NULL_HANDLE
    requires sys.runState[sys.current] == Running && HasStaticTaskBuffers(sys.objects[sys.current])
    modifies sys
    ensures sys.Valid() && task == old(sys.current)
    ensures sys.objects == old(sys.objects) - {task}
    ensures sys.heap.live == old(sys.heap.live) - {old(sys.objects[sys.current]).cb, old(sys.objects[sys.current]).data}
  {
    task := sys.current;
    var parked, rescuer;
    ghost var path;
    parked, path, rescuer := sys.VTaskDeleteWithCaps(NULL_HANDLE, true, false, []);
    assert path == SelfDelete && parked == SuspendedForever;
    assert sys.runState[rescuer] == Ready && sys.runState[task] == Suspended;
    ghost var parkedObjects := sys.objects;
    sys.SwitchTo(rescuer);
    var finished;
    ghost var target;
    finished, target := sys.PrvTaskDeleteWithCapsTask();
    assert target == task && finished == Finished;
    assert sys.objects == parkedObjects - {task, rescuer};
  }

  /**
    A task created with caps that deletes itself once scheduled leaves the
    heap and the object table as they began.
   */
  method TaskSelfDeleteThroughRescuer(sys: System, usStackDepth: u32, uxPriority: u32, xCoreID: int, uxMemoryCaps: u32)
    requires sys.Valid()
    modifies sys
    ensures sys.Valid()
    ensures sys.heap.live == old(sys.heap.live) && sys.objects == old(sys.objects)
  {
    ghost var live, objects := sys.heap.live, sys.objects;
    var result, slot;
    ghost var xHandle, tcb, stack;
    result, slot, xHandle, tcb, stack :=
      sys.XTaskCreatePinnedToCoreWithCaps(usStackDepth, uxPriority, Some(NULL_HANDLE), xCoreID, uxMemoryCaps, true, true, true);
    AddedThenRemoved(live, tcb, Block(PortHeap, SizeOf(StaticTaskT)),
                     stack, Block(CapsHeap(uxMemoryCaps), Bytes(usStackDepth as nat)));
    AddedOneThenRemoved(objects, xHandle, sys.objects[xHandle], xHandle);
    sys.SwitchTo(slot.value);
    var task := SelfDeleteThenRescue(sys);
  }

  /** A queue created with caps and deleted with caps leaves nothing behind, with or without a storage area. */
  method QueueCreateThenDelete(sys: System, uxQueueLength: u32, uxItemSize: u32, uxMemoryCaps: u32)
    requires sys.Valid()
    modifies sys
    ensures sys.Valid()
    ensures sys.heap.live == old(sys.heap.live) && sys.objects == old(sys.objects)
  {
    ghost var live, objects := sys.heap.live, sys.objects;
    var queue;
    ghost var buffer, storage;
    queue, buffer, storage := sys.XQueueCreateWithCaps(uxQueueLength, uxItemSize, uxMemoryCaps, true, true, true);
    ghost var block := Block(CapsHeap(uxMemoryCaps), SizeOf(StaticQueueT));
    if uxItemSize == 0 {
      AddedOneThenRemoved(live, buffer, block, storage);
    } else {
      AddedThenRemoved(live, buffer, block,
                       storage, Block(CapsHeap(uxMemoryCaps), Bytes(QueueStorageBytes(uxQueueLength, uxItemSize) as nat)));
    }
    AddedOneThenRemoved(objects, queue, sys.objects[queue], queue);
    var outcome := sys.VQueueDeleteWithCaps(queue);
    assert outcome == Returned;
  }

  /** The same for every member of the semaphore family. */
  method SemaphoreCreateThenDelete(sys: System, uxMaxCount: u32, uxInitialCount: u32, ucQueueType: u8, uxMemoryCaps: u32)
    requires sys.Valid()
    modifies sys
    ensures sys.Valid()
    ensures sys.heap.live == old(sys.heap.live) && sys.objects == old(sys.objects)
  {
    var semaphore;
    ghost var buffer;
    semaphore, buffer := sys.XSemaphoreCreateGenericWithCaps(uxMaxCount, uxInitialCount, ucQueueType, uxMemoryCaps, true, true);
    var outcome := sys.VSemaphoreDeleteWithCaps(semaphore);
    assert outcome == Returned;
  }

  /** The same for stream and message buffers, with the corrected delete. */
  method StreamBufferCreateThenDelete(sys: System, xBufferSizeBytes: u32, xTriggerLevelBytes: u32, xIsMessageBuffer: int,
                                      uxMemoryCaps: u32)
    requires sys.Valid()
    modifies sys
    ensures sys.Valid()
    ensures sys.heap.live == old(sys.heap.live) && sys.objects == old(sys.objects)
  {
    ghost var live, objects := sys.heap.live, sys.objects;
    var buffer;
    ghost var control, storage;
    buffer, control, storage :=
      sys.XStreamBufferGenericCreateWithCaps(xBufferSizeBytes, xTriggerLevelBytes, xIsMessageBuffer, uxMemoryCaps, true, true, true);
    AddedThenRemoved(live, control, Block(CapsHeap(uxMemoryCaps), SizeOf(StaticStreamBufferT)),
                     storage, Block(CapsHeap(uxMemoryCaps), Bytes(xBufferSizeBytes as nat)));
    AddedOneThenRemoved(objects, buffer, sys.objects[buffer], buffer);
    var outcome := sys.VStreamBufferGenericDeleteWithCaps(buffer, xIsMessageBuffer);
    assert outcome == Returned;
  }

  /** The same for event groups. */
  method EventGroupCreateThenDelete(sys: System, uxMemoryCaps: u32)
    requires sys.Valid()
    modifies sys
    ensures sys.Valid()
    ensures sys.heap.live == old(sys.heap.live) && sys.objects == old(sys.objects)
  {
    var group;
    ghost var buffer;
    group, buffer := sys.XEventGroupCreateWithCaps(uxMemoryCaps, true, true);
    var outcome := sys.VEventGroupDeleteWithCaps(group);
    assert outcome == Returned;
  }

  /**
    With the delete as written, a stream buffer (not a message buffer) that
    was just created is handed to the queue delete. The model stops at that
    misdirected call, so the buffer is still in its object table and both of
    its blocks are still live there; what the C code does after the call is
    not modelled.
   */
  method StreamBufferDeleteAsWrittenMisroutes(sys: System, xBufferSizeBytes: u32, xTriggerLevelBytes: u32, uxMemoryCaps: u32)
    returns (outcome: Outcome)
    requires sys.Valid()
    modifies sys
    ensures outcome == KindMismatch
    ensures sys.objects != old(sys.objects) && sys.heap.live != old(sys.heap.live)
  {
    var buffer;
    ghost var control, storage;
    buffer, control, storage :=
      sys.XStreamBufferGenericCreateWithCaps(xBufferSizeBytes, xTriggerLevelBytes, PD_FALSE, uxMemoryCaps, true, true, true);
    outcome := sys.VStreamBufferGenericDeleteWithCapsAsWritten(buffer, PD_FALSE);
    assert buffer in sys.objects && buffer !in old(sys.objects);
    assert control in sys.heap.live && control !in old(sys.heap.live);
  }

  /**
    With the queue delete as written, a queue of empty items that was just
    created is destroyed and its control block released, and then the same
    block is handed to heap_caps_free a second time.
   */
  method ZeroItemQueueDeleteAsWrittenFreesTwice(sys: System, uxQueueLength: u32, uxMemoryCaps: u32) returns (outcome: Outcome)
    requires sys.Valid()
    modifies sys
    ensures outcome == InvalidFree
    ensures sys.objects == old(sys.objects) && sys.heap.live == old(sys.heap.live)
  {
    ghost var live, objects := sys.heap.live, sys.objects;
    var queue;
    ghost var buffer, storage;
    queue, buffer, storage := sys.XQueueCreateWithCaps(uxQueueLength, 0, uxMemoryCaps, true, true, true);
    AddedOneThenRemoved(live, buffer, Block(CapsHeap(uxMemoryCaps), SizeOf(StaticQueueT)), buffer);
    AddedOneThenRemoved(objects, queue, sys.objects[queue], queue);
    outcome := sys.VQueueDeleteWithCapsAsWritten(queue);
  }

  /**
    The same happens to a binary semaphore handed to the queue delete as
    written: the semaphore is a queue of empty items, so its reported
    storage is its own control block.
   */
  method BinarySemaphoreQueueDeleteAsWrittenFreesTwice(sys: System, uxMemoryCaps: u32) returns (outcome: Outcome)
    requires sys.Valid()
    modifies sys
    ensures outcome == InvalidFree
    ensures sys.objects == old(sys.objects) && sys.heap.live == old(sys.heap.live)
  {
    ghost var live, objects := sys.heap.live, sys.objects;
    var semaphore;
    ghost var buffer;
    semaphore, buffer := sys.XSemaphoreCreateGenericWithCaps(1, 0, QUEUE_TYPE_BINARY_SEMAPHORE, uxMemoryCaps, true, true);
    AddedOneThenRemoved(live, buffer, Block(CapsHeap(uxMemoryCaps), SizeOf(StaticSemaphoreT)), buffer);
    AddedOneThenRemoved(objects, semaphore, sys.objects[semaphore], semaphore);
    outcome := sys.VQueueDeleteWithCapsAsWritten(semaphore);
  }
}
