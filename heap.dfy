/**
  The two allocators the object-lifecycle layer draws from: the port heap
  (pvPortMalloc / vPortFree) and the capability heap (heap_caps_malloc /
  heap_caps_free). Both are foreign; they are modelled as one abstract
  allocator that knows which blocks are live and which heap each came from.
  Whether an allocation succeeds is an input, so every failure branch of the
  callers is reachable.
 */
module Heap {

  /** An unsigned 32-bit C integer (UBaseType_t, size_t, uint32_t on this port). */
  newtype u32 = x: int | 0 <= x < 0x1_0000_0000

  /** An address; 0 is the C NULL pointer. */
  type Ptr = nat

  const NULL: Ptr := 0

  /** The heap a block was taken from; a capability block remembers its mask. */
  datatype Pool = PortHeap | CapsHeap(caps: u32)

  /** The two release functions of the C code. */
  datatype FreeFn = VPortFree | HeapCapsFree

  /** The kernel structures whose size a control block is requested with. */
  datatype CStruct =
    | StaticTaskT
    | StaticQueueT
    | StaticSemaphoreT
    | StaticStreamBufferT
    | StaticEventGroupT

  /** A requested size: `sizeof` a kernel structure, or a byte count. */
  datatype Size = SizeOf(struct: CStruct) | Bytes(n: nat)

  datatype Block = Block(pool: Pool, size: Size)

  /**
    The allocator state: the live blocks, the next address it hands out,
    and the log of every request made of it (granted or not).
   */
  datatype Allocator = Allocator(live: map<Ptr, Block>, next: Ptr, requests: seq<Block>)

  /** NULL is never live and every live block lies below `next`. */
  predicate Valid(a: Allocator)
  {
    a.next > NULL && forall p :: p in a.live ==> NULL < p < a.next
  }

  /** The allocator with no live block and no request made yet. */
  function Empty(): (a: Allocator)
    ensures Valid(a) && a.live == map[] && a.requests == []
  {
    Allocator(map[], 1, [])
  }

  /** `fn` is the release function that matches a block of `pool`. */
  predicate FreedBy(pool: Pool, fn: FreeFn)
  {
    match pool
    case PortHeap => fn == VPortFree
    case CapsHeap(_) => fn == HeapCapsFree
  }

  datatype Allocation = Allocation(heap: Allocator, ptr: Ptr)

  /**
    pvPortMalloc (pool PortHeap) or heap_caps_malloc (pool CapsHeap): the
    request is logged; on success a block that was not live becomes live,
    on failure NULL is returned and the live set is untouched.
   */
  function Malloc(a: Allocator, pool: Pool, size: Size, succeeds: bool): (r: Allocation)
    requires Valid(a)
    ensures Valid(r.heap)
    ensures r.heap.requests == a.requests + [Block(pool, size)]
    ensures r.heap.next >= a.next
    ensures succeeds ==> r.ptr != NULL && r.ptr !in a.live && r.heap.live == a.live[r.ptr := Block(pool, size)]
    ensures !succeeds ==> r.ptr == NULL && r.heap.live == a.live
  {
    if succeeds then
      Allocation(Allocator(a.live[a.next := Block(pool, size)], a.next + 1, a.requests + [Block(pool, size)]), a.next)
    else
      Allocation(a.(requests := a.requests + [Block(pool, size)]), NULL)
  }

  /** `p` may be handed to `fn`: it is NULL, or a live block of the matching heap. */
  predicate CanFree(a: Allocator, fn: FreeFn, p: Ptr)
  {
    p == NULL || (p in a.live && FreedBy(a.live[p].pool, fn))
  }

  /**
    vPortFree / heap_caps_free: releasing NULL does nothing; releasing a live
    block removes exactly that block. Nothing else about the allocator changes.
   */
  function Free(a: Allocator, fn: FreeFn, p: Ptr): (r: Allocator)
    requires Valid(a) && CanFree(a, fn, p)
    ensures Valid(r)
    ensures r.next == a.next && r.requests == a.requests
    ensures p == NULL ==> r == a
    ensures p !in r.live && r.live.Keys == a.live.Keys - {p}
    ensures forall q :: q in r.live ==> r.live[q] == a.live[q]
  {
    if p == NULL then a else a.(live := a.live - {p})
  }

  /** The release function a block of `pool` must go back through. */
  function FreeFnFor(pool: Pool): (fn: FreeFn)
    ensures FreedBy(pool, fn)
  {
    if pool.PortHeap? then VPortFree else HeapCapsFree
  }

  /** Releasing, through the matching function, what an allocation returned undoes it. */
  lemma MallocFreeRoundTrip(a: Allocator, pool: Pool, size: Size, succeeds: bool)
    requires Valid(a)
    ensures var m := Malloc(a, pool, size, succeeds);
            CanFree(m.heap, FreeFnFor(pool), m.ptr) &&
            Free(m.heap, FreeFnFor(pool), m.ptr).live == a.live
  {
    var m := Malloc(a, pool, size, succeeds);
    if succeeds {
      assert m.heap.live == a.live[m.ptr := Block(pool, size)];
      assert m.heap.live - {m.ptr} == a.live;
    }
  }

  /**
    The shared `err:` path of the create wrappers: two allocations are
    attempted one after the other and both pointers are then released,
    the second first. Whatever the two outcomes, the live set ends where it
    started.
   */
  lemma RollbackRestores(a: Allocator, pool1: Pool, size1: Size, ok1: bool, pool2: Pool, size2: Size, ok2: bool)
    requires Valid(a)
    ensures var m1 := Malloc(a, pool1, size1, ok1);
            var m2 := Malloc(m1.heap, pool2, size2, ok2);
            CanFree(m2.heap, FreeFnFor(pool2), m2.ptr) &&
            CanFree(Free(m2.heap, FreeFnFor(pool2), m2.ptr), FreeFnFor(pool1), m1.ptr) &&
            Free(Free(m2.heap, FreeFnFor(pool2), m2.ptr), FreeFnFor(pool1), m1.ptr).live == a.live
  {
    var m1 := Malloc(a, pool1, size1, ok1);
    MallocFreeRoundTrip(m1.heap, pool2, size2, ok2);
    var m2 := Malloc(m1.heap, pool2, size2, ok2);
    var back := Free(m2.heap, FreeFnFor(pool2), m2.ptr);
    assert back.live == m1.heap.live;
    assert ok1 ==> m1.ptr in back.live && back.live[m1.ptr] == Block(pool1, size1);
    MallocFreeRoundTrip(a, pool1, size1, ok1);
  }

  /** A block that was just released cannot be released again: a second release of it is a double free. */
  lemma ReleasedBlockNotFreeable(a: Allocator, fn1: FreeFn, fn2: FreeFn, p: Ptr)
    requires Valid(a) && p != NULL && CanFree(a, fn1, p)
    ensures !CanFree(Free(a, fn1, p), fn2, p)
  {
  }

  /** Releasing two blocks one after the other removes exactly those two. */
  lemma FreeTwice(a: Allocator, fn1: FreeFn, p1: Ptr, fn2: FreeFn, p2: Ptr)
    requires Valid(a) && CanFree(a, fn1, p1) && CanFree(Free(a, fn1, p1), fn2, p2)
    ensures Free(Free(a, fn1, p1), fn2, p2).live == a.live - {p1, p2}
    ensures Free(Free(a, fn1, p1), fn2, p2).requests == a.requests
  {
    var r := Free(Free(a, fn1, p1), fn2, p2);
    assert r.live.Keys == a.live.Keys - {p1, p2};
  }
}
