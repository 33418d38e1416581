/** The stack-style frame allocator and RAII frame ownership (src/mm/frame_allocator.rs).

    A `FrameTracker` is the right to give one frame back.  It always sits in some slot: a
    page-table node, or one page of one area.  The ghost map `owner` records that slot for
    every frame that is out; its domain is exactly the set of allocated frames. */
module FrameAllocator {
  import opened Address
  import opened Frames

  datatype Option<+T> = None | Some(value: T)

  // How an operation ends.  Everything but the first and the last three is a kernel panic: the machine
  // stops.  `WildStore` is a store that leaves the page it was meant for, `TrapStore` one that changes
  // what the next trap of the task relies on, and `Stuck` a loop without end; the model stops there.
  datatype Outcome =
    | Fine
    | OutOfFrames      // frame_alloc().unwrap() on None
    | MappedBefore     // "VPN is mapped before mapping"
    | NotMapped        // "VPN is invalid before unmapping"
    | ReversedRange    // SimpleRange::new with start > end
    | NotTranslated    // translate(..).unwrap() on None
    | NullPointer      // as_mut().unwrap() on address 0
    | StoreFault       // a store where the kernel's own mapping has no writable page: trap_from_kernel
    | DoubleBorrow     // UPSafeCell::exclusive_access on a cell that is already borrowed
    | WildStore
    | TrapStore
    | Stuck

  // Where the tracker of an allocated frame sits, in the space numbered `id`.
  datatype Slot =
    | Node(id: nat, path: Path)
    | Data(id: nat, vpn: nat)

  type Owners = map<nat, Slot>

  // The state the memory operations work on: the bytes, and who holds which frame.
  datatype Store = Store(mem: Memory, owner: Owners)

  // The two globals every memory operation works on: physical memory and FRAME_ALLOCATOR.
  class Machine {
    var mem: Memory
    var current: nat
    const end: nat
    var recycled: seq<nat>
    const base: nat                    // the first managed frame, behind the kernel image
    ghost const image: Memory          // what the frames below it held at the start
    ghost var owner: Owners

    // Allocated = handed out by the bump pointer and not on the recycled stack.  Nothing below `base`
    // is ever written.
    ghost predicate Valid()
      reads `mem, `current, `recycled, `owner
    {
      && 0 < base <= current <= end <= PPNS
      && (forall f: nat :: f < base ==> At(mem, f) == At(image, f))
      && (forall i :: 0 <= i < |recycled| ==> base <= recycled[i] < current)
      && (forall i, j :: 0 <= i < j < |recycled| ==> recycled[i] != recycled[j])
      && (forall f :: f in owner <==> base <= f < current && f !in recycled)
      && |owner| + Free() == end - base
    }

    ghost function S(): Store
      reads `mem, `owner
    {
      Store(mem, owner)
    }

    ghost function Free(): nat
      reads `current, `recycled
    {
      (if current <= end then end - current else 0) + |recycled|
    }

    // StackFrameAllocator::new followed by init(l, r).
    constructor (l: nat, r: nat, mem: Memory)
      requires 0 < l <= r <= PPNS
      ensures Valid() && base == l && end == r && owner == map[] && this.mem == mem && image == mem
    {
      current, end, recycled := l, r, [];
      base, owner := l, map[];
      this.mem, image := mem, mem;
    }

    lemma {:induction false} Managed(f: nat)
      requires Valid() && f in owner
      ensures base <= f < end
    {
    }

    // A store into a managed frame.
    method Put(f: nat, page: Page)
      requires Valid() && base <= f
      modifies this`mem
      ensures Valid() && mem == old(mem)[f := page]
    {
      mem := mem[f := page];
    }

    // Stores into managed frames.
    method Replace(mem': Memory)
      requires Valid() && forall f: nat :: f < base ==> At(mem', f) == At(mem, f)
      modifies this`mem
      ensures Valid() && mem == mem'
    {
      mem := mem';
    }

    method Alloc(ghost slot: Slot) returns (r: Option<nat>)
      requires Valid()
      modifies this
      ensures Valid() && mem == old(mem)
      ensures r.None? <==> old(Free()) == 0
      ensures r.None? ==> owner == old(owner) && Free() == 0
      ensures r.Some? ==> r.value !in old(owner) && base <= r.value < end && Free() == old(Free()) - 1
      ensures r.Some? ==> owner == old(owner)[r.value := slot]
    {
      hide PhysPageNum, At;
      if |recycled| > 0 {
        var ppn := recycled[|recycled| - 1];
        recycled := recycled[..|recycled| - 1];
        assert old(recycled) == recycled + [ppn];
        owner := owner[ppn := slot];
        return Some(PhysPageNum(ppn));
      }
      if current == end {
        return None;
      }
      current := current + 1;
      owner := owner[current - 1 := slot];
      return Some(PhysPageNum(current - 1));
    }

    // Returns false where the source panics.  For a frame of the managed range the check is
    // exact: it passes just for the frames that are out.  Below `base` it catches nothing.
    method Dealloc(ppn: nat) returns (ok: bool)
      requires Valid()
      modifies this
      ensures mem == old(mem) && current == old(current)
      ensures ok <==> ppn < current && ppn !in old(recycled)
      ensures recycled == if ok then old(recycled) + [ppn] else old(recycled)
      ensures owner == if ok then old(owner) - {ppn} else old(owner)
      ensures base <= ppn ==> Valid() && (ok <==> ppn in old(owner))
    {
      if ppn >= current || ppn in recycled {
        return false;
      }
      assert (owner - {ppn}).Keys == owner.Keys - {ppn};
      recycled := recycled + [ppn];
      owner := owner - {ppn};
      return true;
    }

    // FrameTracker::new: clears the frame byte by byte.
    method ClearFrame(f: nat)
      modifies this`mem
      ensures mem == old(mem)[f := ZeroPage()]
    {
      var page := At(mem, f);
      var i := 0;
      while i < PAGE_SIZE
        invariant 0 <= i <= PAGE_SIZE && |page| == PAGE_SIZE
        invariant forall k :: 0 <= k < i ==> page[k] == 0
      {
        page := page[i := 0];
        i := i + 1;
      }
      assert page == ZeroPage();
      mem := mem[f := page];
    }

    // frame_alloc: a frame nobody holds, zeroed, its tracker placed in `slot`.
    method FrameAlloc(ghost slot: Slot) returns (r: Option<nat>)
      requires Valid()
      modifies this
      ensures Valid()
      ensures r.None? <==> old(Free()) == 0
      ensures r.None? ==> owner == old(owner) && mem == old(mem) && Free() == 0
      ensures r.Some? ==> r.value !in old(owner) && base <= r.value < end && r.value < PPNS && Free() == old(Free()) - 1
      ensures r.Some? ==> owner == old(owner)[r.value := slot] && mem == old(mem)[r.value := ZeroPage()]
    {
      r := Alloc(slot);
      if r.Some? {
        ClearFrame(r.value);
      }
    }

    // Drop for FrameTracker: a tracker that is held never trips the double-free check.
    method FrameDrop(f: nat)
      requires Valid() && f in owner
      modifies this
      ensures Valid() && mem == old(mem)
      ensures owner == old(owner) - {f} && Free() == old(Free()) + 1
    {
      var ok := Dealloc(f);
      assert ok;
    }
  }
}
