/** The allocator over whole histories of calls, and under the concurrent index. */
module HeapRuns {
  import opened Blocks
  import opened HeapModel
  import Capacity
  import Protocol

  datatype Call = AllocCall(n: nat) | FreeCall(g: nat)

  /** A call its callers may make: a size the store can ask for, a slot that is outstanding. */
  ghost predicate Allowed(h: Heap, call: Call)
    requires Good(h)
  {
    match call
    case AllocCall(n) => 0 < n <= CBLK_SIZE
    case FreeCall(g) => g in Outstanding(h)
  }

  ghost function Apply(h: Heap, call: Call): (r: Heap)
    requires Good(h) && Allowed(h, call)
    ensures Good(r) && r.words == h.words && |r.ext| == |h.ext|
  {
    match call
    case AllocCall(n) => AllocOutcome(h, n); Alloc(h, n).heap
    case FreeCall(g) => FreeRemovesOneSlot(h, g); Free(h, g)
  }

  /** The heap after a history of calls; `None` once a call was not allowed. */
  ghost function After(h: Heap, calls: seq<Call>): (r: Option<Heap>)
    requires Good(h)
    ensures r.Some? ==> Good(r.value) && r.value.words == h.words && |r.value.ext| == |h.ext|
  {
    if calls == [] then Some(h)
    else
      var before := After(h, calls[..|calls| - 1]);
      var last := calls[|calls| - 1];
      if before.Some? && Allowed(before.value, last) then Some(Apply(before.value, last)) else None
  }

  /** THE ALLOCATOR GUARANTEE. After any history of allocations and frees the tables are well formed and
      the counters exact, the outstanding slots are disjoint and inside the heap, no committed extent
      is empty, and once every slot is back every extent is free. */
  lemma AnyHistory(h: Heap, calls: seq<Call>)
    requires Good(h) && After(h, calls).Some?
    ensures var r := After(h, calls).value;
            && Good(r) && SlotsOk(Outstanding(r), HeapBytes(h))
            && (forall i :: 0 <= i < |r.ext| && r.ext[i].used ==> r.ext[i].nfree < r.ext[i].nslots)
            && (Outstanding(r) == map[] ==>
                  r.used == 0 && r.bytes == 0 && forall i :: 0 <= i < |r.ext| ==> !r.ext[i].used)
  {
    var r := After(h, calls).value;
    OutstandingDisjoint(r);
    if Outstanding(r) == map[] { Capacity.EmptyHeapIsUncommitted(r); }
  }

  // ------------------------------------------------ under the concurrent index

  /** What the concurrent index assumes of a new slot is what the allocator delivers. */
  lemma AllocIsFreshSlot(h: Heap, n: nat, s: Protocol.State)
    requires Good(h) && 0 < n <= CBLK_SIZE && Alloc(h, n).grain != SLOT_NONE
    requires s.slots == Outstanding(h) && |s.mem| == HeapBytes(h)
    ensures var r := Alloc(h, n);
            && Protocol.FreshSlot(s, r.grain, r.size) && n <= r.size
            && Good(r.heap) && Outstanding(r.heap) == s.slots[r.grain := r.size]
  {
    AllocOutcome(h, n);
    var r := Alloc(h, n);
    OutstandingDisjoint(r.heap);
    hide Good, HasRoom, Alloc, Outstanding;
    NewSlotIsFresh(s, r.grain, r.size);
  }

  lemma NewSlotIsFresh(s: Protocol.State, g: nat, size: nat)
    requires g !in s.slots && g < GRAIN_LIMIT && SlotsOk(s.slots[g := size], |s.mem|)
    ensures Protocol.FreshSlot(s, g, size)
  {
    var slots := s.slots[g := size];
    assert g in slots;
    forall h | h in s.slots
      ensures Apart(ALLOC_GRAIN * g, size, ALLOC_GRAIN * h, s.slots[h])
    {
      assert h in slots && slots[h] == s.slots[h];
    }
  }
}
