# Capability-aware object lifecycle for ESP-IDF FreeRTOS

This project models the object-lifecycle layer of the ESP-IDF FreeRTOS
additions (`components/freertos/esp_additions/idf_additions.c`) in Dafny and
proves properties of that model. The layer creates tasks, queues,
semaphores, stream and message buffers and event groups. Their memory comes
from a capability-directed heap, and the objects themselves are built by the
kernel's static constructors. When one of these objects is deleted, the
layer gets its buffers back from the kernel, destroys the object and then
releases the buffers.

The allocators and the kernel are foreign code. They are replaced by an
abstract state:

- `Heap` (heap.dfy): one allocator value. It holds the live blocks, each
  tagged with the heap it came from: the port heap (`pvPortMalloc` /
  `vPortFree`) or the capability heap with its caps mask (`heap_caps_malloc`
  / `heap_caps_free`). It also keeps a log of every request. Freeing NULL
  does nothing.
- `Kernel` (kernel.dfy): handles, object kinds and their families, task run
  states, and the object-table entry of a kernel object. An entry holds the
  object's kind, its control-block pointer, its optional data pointer, and
  whether it was built from static buffers.
- `IdfAdditions` (idf_additions.dfy): the class `System`. Its fields are the
  allocator, the object table, the run-state map and the calling task. Its
  first methods stand for the foreign calls: allocate, release, static
  construct, introspect, destroy, suspend, schedule, and delete a task.
  After them come the five create wrappers, the four delete wrappers (the
  queue and stream-buffer deletes both as written and corrected), `vTaskDeleteWithCaps`
  with its three paths, and `prvTaskDeleteWithCapsTask`.
- `Scenarios` (scenarios.dfy): clients that compose a create with the
  matching delete, including a full self-delete through the clean-up task.

The class invariant `System.Valid` says three things:

- every buffer a statically built object was made from is live, in the heap
  its release function serves;
- no two objects share a buffer;
- an object's two buffers are distinct.

Every state-changing method keeps this invariant. The release primitive
accepts only a block that no live object was built from. Together these
make two orderings proof obligations: a delete reads an object's buffers
while the object is still in the table, and releases them only after it has
left. They also force exactly the object's buffers to be released.

Whether each allocation or construction succeeds is an input, so every
failure branch is reachable. So are whether the clean-up task can be
created, whether the self-suspension returns, and the sequence of run
states the cross-core wait observes. A failed `configASSERT` or a call to
`abort()` is the outcome `Aborted`. A kernel delete routine applied to an
object of another family is the outcome `KindMismatch`. A release of a block
that is no longer live is the outcome `InvalidFree`.

## Model

| member | source | states |
|---|---|---|
| Heap.Malloc | components/freertos/esp_additions/idf_additions.c:50-54 | Every request is logged. A granted request makes exactly one block live: a new, non-NULL one of the requested heap and size. A refused request returns NULL and leaves the live set unchanged. |
| Heap.Free | components/freertos/esp_additions/idf_additions.c:78-79 | Freeing NULL changes nothing. Freeing a live block removes exactly that block; every other block, the log and the next address are unchanged. |
| Heap.MallocFreeRoundTrip | components/freertos/esp_additions/idf_additions.c:249-251 | Releasing what one allocation returned, through the matching function, restores the live set, whether or not the allocation succeeded. |
| Heap.RollbackRestores | components/freertos/esp_additions/idf_additions.c:77-80 | The shared `err:` path: after two allocations with any outcomes, freeing the second pointer and then the first is allowed and restores the live set. |
| Heap.ReleasedBlockNotFreeable | components/freertos/esp_additions/idf_additions.c:269-270 | Once a non-NULL block has been released, neither release function accepts it again. |
| Heap.FreeTwice | components/freertos/esp_additions/idf_additions.c:207-208 | Two releases in a row remove exactly those two blocks and leave the request log as it was. |
| IdfAdditions.SelectDeletePath | components/freertos/esp_additions/idf_additions.c:111-188 | Exactly one path applies. Self-delete iff the target is NULL or the caller. Cross-core iff another target is running on a build with more than one core. Stopped-delete in every other case. |
| IdfAdditions.WaitUntilNotRunning | components/freertos/esp_additions/idf_additions.c:166-169 | The wait loop stops at the first observed state that is not Running; every earlier observation was Running. |
| IdfAdditions.QueueStorageBytes | components/freertos/esp_additions/idf_additions.c:231 | Definition of the 32-bit storage size: it is `uxQueueLength * uxItemSize` in 32-bit unsigned arithmetic: exact when the product fits, wrapped modulo 2^32 otherwise, and 0 when either factor is 0. |
| IdfAdditions.SemaphoreKindFor | components/freertos/esp_additions/idf_additions.c:292-307 | Mutex, counting semaphore (with the given counts) and binary semaphore each iff their type code is given; a recursive mutex iff the code is none of the three; always a queue-family object. |
| IdfAdditions.StreamKindFor | components/freertos/esp_additions/idf_additions.c:356-363 | A message buffer iff `xIsMessageBuffer == pdTRUE`; the size is always kept; the trigger level is kept only for a stream buffer. |
| IdfAdditions.StreamDeleteAsWrittenMisroutes | components/freertos/esp_additions/idf_additions.c:399-406 | As written, a stream buffer that is not a message buffer is destroyed through a routine of the wrong family. |
| IdfAdditions.StreamDeleteFamily | components/freertos/esp_additions/idf_additions.c:399-406 | The corrected destroy routine matches the family of every object the stream/message buffer create can return. |
| IdfAdditions.System.GetStaticBuffers | components/freertos/esp_additions/idf_additions.c:262-263 | Introspection succeeds iff the object was statically built and belongs to the routine's family, and reports NULL otherwise. On success it reports the construction buffers, except that the storage area of a queue whose head is its own structure is the control block itself. Those are a queue with empty items, a binary semaphore and a counting semaphore (the queue's pcHead). |
| IdfAdditions.System.XTaskCreatePinnedToCoreWithCaps | components/freertos/esp_additions/idf_additions.c:35-81 | Both blocks are requested, the TCB from the port heap and the stack from the caps heap. pdPASS iff both allocations and the constructor succeed. On pdFAIL the heap, the object table and the run states are as before, and `*pvCreatedTask` is untouched. On pdPASS exactly the two new blocks are live, owned by a new Ready task, and the handle is written only through a non-NULL `pvCreatedTask`. |
| IdfAdditions.System.XQueueCreateWithCaps | components/freertos/esp_additions/idf_additions.c:214-253 | The control block is always requested; storage is requested, with `QueueStorageBytes` bytes, only when items are not empty. A NULL storage pointer is a failure only then. On failure NULL is returned with the heap and the table as before. On success exactly the new blocks are live and owned by the new queue. |
| IdfAdditions.System.VQueueDeleteWithCapsAsWritten | components/freertos/esp_additions/idf_additions.c:255-271 | As written: it aborts, with nothing changed, iff the queue is not statically built. It reaches an invalid second release iff the object is statically built and its head is its own structure (a queue with empty items, a binary or a counting semaphore): the object is then destroyed and its control block released once. Otherwise it returns, and the queue and exactly its two buffers are gone. |
| IdfAdditions.System.VQueueDeleteWithCaps | components/freertos/esp_additions/idf_additions.c:255-271 | Corrected: it returns iff the queue was statically built; otherwise the assertion fails and nothing changes. On return the queue leaves the table and exactly its buffers leave the heap, each released once, with or without a storage area, for every member of the queue family. |
| IdfAdditions.System.XSemaphoreCreateGenericWithCaps | components/freertos/esp_additions/idf_additions.c:275-315 | One block is requested. A non-NULL handle iff the allocation and the constructor succeed. A failed allocation changes nothing; a failed constructor releases the block. On success the new object has the kind `SemaphoreKindFor` dispatches to. |
| IdfAdditions.System.VSemaphoreDeleteWithCaps | components/freertos/esp_additions/idf_additions.c:317-332 | It returns iff the semaphore was statically built. On return the semaphore leaves the table and exactly its one buffer leaves the heap; otherwise nothing changes. |
| IdfAdditions.System.XStreamBufferGenericCreateWithCaps | components/freertos/esp_additions/idf_additions.c:336-376 | Both blocks are always requested, and either failure rolls both back with the heap as before. On success exactly the two new blocks are live and owned by an object of kind `StreamKindFor`. |
| IdfAdditions.System.VStreamBufferGenericDeleteWithCapsAsWritten | components/freertos/esp_additions/idf_additions.c:378-411 | As written: it aborts iff the object is not statically built. It reaches the misrouted destroy iff the object is statically built and not flagged as a message buffer; the model stops at that call, with its table and heap as they were before it. It returns, with object and buffers gone, only when flagged as a message buffer. |
| IdfAdditions.System.VStreamBufferGenericDeleteWithCaps | components/freertos/esp_additions/idf_additions.c:378-411 | Corrected: for both values of the flag it returns iff the object was statically built. On return the object leaves the table and exactly its two buffers leave the heap. |
| IdfAdditions.System.XEventGroupCreateWithCaps | components/freertos/esp_additions/idf_additions.c:415-437 | One block is requested. A non-NULL handle iff the allocation and the constructor succeed. On failure the heap and the table are as before. |
| IdfAdditions.System.VEventGroupDeleteWithCaps | components/freertos/esp_additions/idf_additions.c:439-454 | It returns iff the group was statically built. On return the group leaves the table and exactly its buffer leaves the heap; otherwise nothing changes. |
| IdfAdditions.System.DeleteSelfViaRescuer | components/freertos/esp_additions/idf_additions.c:111-155 | It never returns normally: it is parked iff the clean-up task is created and the suspension does not return, and it aborts otherwise. The clean-up task gets the caller's handle, the caller's priority and the current core. Nothing is allocated or released. |
| IdfAdditions.System.SuspendThenReclaim | components/freertos/esp_additions/idf_additions.c:158-186 | The target is suspended and polled until it is not Running. It returns iff the kernel reports both of its buffers; it then deletes the task and releases exactly those two buffers. Otherwise it aborts: the heap and table are unchanged, and in the run states only the target's entry has changed, to a state other than Running. |
| IdfAdditions.System.ReclaimStoppedTask | components/freertos/esp_additions/idf_additions.c:188-209 | For a task that is not running: it returns iff introspection succeeds with both pointers non-NULL. Then the task leaves the table and the run states, and exactly its TCB and stack leave the heap. Otherwise nothing changes. |
| IdfAdditions.System.VTaskDeleteWithCaps | components/freertos/esp_additions/idf_additions.c:102-210 | There is no calling task: it aborts and nothing changes. Otherwise the path taken is `SelectDeletePath` of the state at the call. The self path never returns normally and frees nothing. The two reclaiming paths return iff the target has both static buffers (and, on the stopped path, is not running); they then free exactly those two buffers. When they abort, the heap and the table are unchanged; the run states are unchanged on the stopped path, and on the cross-core path only the target's entry changes, to a state other than Running. |
| IdfAdditions.System.PrvTaskDeleteWithCapsTask | components/freertos/esp_additions/idf_additions.c:87-99 | The clean-up task aborts if its target is running. Otherwise it deletes the target through the non-self path and then itself. It finishes iff the target is stopped and statically built; the target and the clean-up task then both leave the table and the target's two buffers leave the heap. |
| Scenarios.TaskCreateThenDelete | components/freertos/esp_additions/idf_additions.c:35-210 | A task created with caps and then deleted by another task leaves the heap, the object table and the run states as they were. |
| Scenarios.TaskSelfDeleteThroughRescuer | components/freertos/esp_additions/idf_additions.c:35-155 | A task created with caps that deletes itself is reclaimed by its clean-up task once the clean-up task is scheduled; the heap and the object table end as they began. |
| Scenarios.SelfDeleteThenRescue | components/freertos/esp_additions/idf_additions.c:87-155 | A running, statically built task that deletes itself ends up gone, together with its clean-up task, and exactly its two buffers leave the heap. |
| Scenarios.QueueCreateThenDelete | components/freertos/esp_additions/idf_additions.c:214-271 | A queue created and deleted with caps (the corrected delete) restores the heap and the table, with or without a storage area. |
| Scenarios.SemaphoreCreateThenDelete | components/freertos/esp_additions/idf_additions.c:275-332 | The same for every semaphore type code. |
| Scenarios.StreamBufferCreateThenDelete | components/freertos/esp_additions/idf_additions.c:336-411 | The same for stream and message buffers, with the corrected delete. |
| Scenarios.EventGroupCreateThenDelete | components/freertos/esp_additions/idf_additions.c:415-454 | The same for event groups. |
| Scenarios.StreamBufferDeleteAsWrittenMisroutes | components/freertos/esp_additions/idf_additions.c:399-406 | With the delete as written, a freshly created stream buffer reaches the misrouted destroy. The model stops there, with the buffer still in its table and its blocks still live in its heap; the frees after the call are not modelled. |
| Scenarios.ZeroItemQueueDeleteAsWrittenFreesTwice | components/freertos/esp_additions/idf_additions.c:214-271 | With the queue delete as written, a freshly created queue of empty items has its control block released and then handed to the release function again. |
| Scenarios.BinarySemaphoreQueueDeleteAsWrittenFreesTwice | components/freertos/esp_additions/idf_additions.c:255-315 | The same for a freshly created binary semaphore handed to the queue delete as written. |

## Left out

- The scheduler, preemption, and the liveness of the `portYIELD_WITHIN_API()` wait loop are not modelled. The run states the loop observes are an input; the cross-core path requires that one of them is not Running. Termination of the real loop is not proved.
- IdfAdditions.System.VTaskDeleteWithCaps: `vPortAssertIfInISR` is not modelled; the model has no interrupt context.
- `ESP_LOGE` logging is left out: it has no effect on the state. `abort()` and a failed `configASSERT` are the outcome `Aborted` rather than the end of the process.
- The task entry point, the task name and `pvParameters` of the task create are not modelled. They are passed through to the constructor and do not affect memory accounting. The clean-up task's parameter is its `target`.
- The memory the kernel allocates itself for the dynamically created clean-up task is not this layer's and is not part of the heap model.
- The introspection calls, for a statically built object of their family, return the buffers it was constructed from, with the pcHead exception described under `GetStaticBuffers` below. The kernel sources that implement them are not part of this model. Neither are the kernel's static constructors, delete routines or task lists, nor the idle task's clean-up.
- The FreeRTOS headers are not part of this model. The values of `pdTRUE`/`pdFALSE`/`pdPASS`/`pdFAIL` and of the `queueQUEUE_TYPE_*` codes are those of upstream FreeRTOS.
- The build configuration is left out. `configSUPPORT_STATIC_ALLOCATION` is taken as enabled. `configNUM_CORES` is the model parameter `numCores`; the cross-core branch is chosen only when it exceeds 1.
- Concurrent deletion of the same task from two contexts is not modelled: it is an unsupported use.
- IdfAdditions.System.Release: the model accepts only NULL or a live block that belongs to the matching heap and to no live object. ESP-IDF's release functions do not check this. The restriction is what makes "exactly the object's buffers are released" a proof obligation.
- IdfAdditions.System.VStreamBufferGenericDeleteWithCapsAsWritten: the model stops at the misrouted `vSemaphoreDelete` (line 405), because what the queue delete does to a stream buffer is undefined. It does not model the two `heap_caps_free` calls at lines 409-410 that the C code still makes after that call. Its table and heap after a mismatch are the model's stand-in, not the program's state.
- IdfAdditions.System.VQueueDeleteWithCapsAsWritten: the model stops at the second `heap_caps_free` (line 270) when that call is handed a block that is no longer live. It does not model what the allocator does with a double free.
- IdfAdditions.System.GetStaticBuffers: the introspection kernel sources are not part of this model. Their behaviour is assumed from upstream FreeRTOS. The storage area reported for a queue-family object is its pcHead. For a queue with empty items, a binary semaphore or a counting semaphore, that is the queue structure itself. For a mutex or recursive mutex it is NULL, which equals the data buffer the model records for it. Every other report is the buffer given at construction. If the kernel reported NULL for a queue without a storage area instead, the as-written queue delete would release each buffer once, and the second finding below would not arise.
- IdfAdditions.System.DestroyObject: applying a kernel delete routine to an object of another family is undefined in C. The model reports it as a mismatch and changes nothing.
- `heap_caps_malloc`'s region selection is left out: the caps mask is recorded with the block but not interpreted.

## Findings

| source | as written | input that shows it | evidently intended | confidence | as-written member | corrected member |
|---|---|---|---|---|---|---|
| components/freertos/esp_additions/idf_additions.c:405 | For a stream buffer (`xIsMessageBuffer != pdTRUE`), the buffer is destroyed with `vSemaphoreDelete`, which is the queue delete. | `xStreamBufferGenericCreateWithCaps(n, t, pdFALSE, caps)`, then `vStreamBufferGenericDeleteWithCaps(h, pdFALSE)`. | Destroy with `vStreamBufferDelete`. The introspection of the same branch (line 393) already treats the object as a stream buffer. | not executed | IdfAdditions.System.VStreamBufferGenericDeleteWithCapsAsWritten | IdfAdditions.System.VStreamBufferGenericDeleteWithCaps |
| components/freertos/esp_additions/idf_additions.c:269-270 | Both pointers reported by `xQueueGetStaticBuffers` are released. For a queue with `uxItemSize == 0`, a binary semaphore or a counting semaphore, the reported storage area is the queue structure (its pcHead), so that block is released twice. | `xQueueCreateWithCaps(n, 0, caps)`, then `vQueueDeleteWithCaps(q)`. | Release the storage area only when it is a block of its own (here: when it differs from the queue structure). | plausible, not executed; rests on the kernel's pcHead convention, which is not part of this model | IdfAdditions.System.VQueueDeleteWithCapsAsWritten | IdfAdditions.System.VQueueDeleteWithCaps |

The as-written misrouting is shown in general by
`IdfAdditions.StreamDeleteAsWrittenMisroutes`, and on the concrete sequence
above by `Scenarios.StreamBufferDeleteAsWrittenMisroutes`. The corrected
stream delete is the one `Scenarios.StreamBufferCreateThenDelete` uses; that
scenario proves create-then-delete restores the heap.

The double release of a queue with empty items is shown on the concrete
sequence above by `Scenarios.ZeroItemQueueDeleteAsWrittenFreesTwice`, for a
binary semaphore by `Scenarios.BinarySemaphoreQueueDeleteAsWrittenFreesTwice`, and
in general by `Heap.ReleasedBlockNotFreeable`. The corrected queue delete is
the one `Scenarios.QueueCreateThenDelete` uses.
