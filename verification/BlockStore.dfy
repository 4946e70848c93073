/** The block store as one worker drives it: index and device memory updated in place, slots from the
    extent allocator. Device copies may fail at any time. Every method's effect is one of the
    functions of StoreModel. */
module BlockStore {
  import opened Blocks
  import opened StoreModel
  import opened BlockOps
  import HeapModel
  import Allocator
  import Capacity
  import Grains
  import HeapRuns
  import opened Headroom

  /** The device's pages, the slots no entry points at, how often a copy failed or the heap was full, and
      every call made to the allocator. */
  datatype Ledger = Ledger(pages: seq<Page>, spare: set<nat>, faults: nat, refused: nat, calls: seq<HeapRuns.Call>)

  /** Nothing is compressed, the heap has a page for every block, and live blocks and slots no entry
      points at leave k of the device's blocks: the store has no excuse to refuse k more pages. */
  ghost predicate MustServe(c: Codec, s: Store, capacity: nat, k: nat) {
    Incompressible(c) && |s.index| <= capacity && |LiveBlocks(s)| + |Spare(s)| + k <= |s.index|
  }

  /** What a request for n bytes did: nothing, or one new slot that no entry points at. */
  ghost predicate Dealt(s: Store, s': Store, grain: nat, n: nat) {
    if grain == SLOT_NONE then s' == s
    else
      && grain < GRAIN_LIMIT && grain !in s.slots && grain in s'.slots && n <= s'.slots[grain]
      && s' == Grabbed(s, grain, s'.slots[grain])
      && grain !in Spare(s) && Spare(s') == Spare(s) + {grain}
  }

  /** How many of the first n copies the device failed. */
  ghost function Failures(device: nat -> bool, n: nat): nat {
    if n == 0 then 0 else Failures(device, n - 1) + if device(n - 1) then 0 else 1
  }

  /** Without compression only whole-page extents are ever committed. */
  ghost predicate RawOk(c: Codec, h: HeapModel.Heap) { Incompressible(c) ==> Capacity.AllRaw(h) }

  /** The counts are true: `refused` is how often the heap had no room when it was asked - the heap being
      what the calls so far made of it - and `faults` how many copies the device failed. */
  ghost predicate Accounted(c: Codec, start: HeapModel.Heap, calls: seq<HeapRuns.Call>, h: HeapModel.Heap, refused: nat,
      device: nat -> bool, copies: nat, faults: nat) {
    RawOk(c, h) && Recorded(c, start, calls, h, refused) && faults == Failures(device, copies)
  }

  class VramStore {
    const heap: Allocator.ExtentAllocator
    const vram: array<byte>
    const index: array<nat>       // g_index
    const codec: Codec
    const device: nat -> bool     // whether the k-th copy goes through
    var copies: nat               // copies issued
    var refused: nat              // g_enospc
    ghost var owner: map<nat, nat>
    ghost var pages: seq<Page>    // what the device holds
    ghost var faults: nat         // device copies that failed
    ghost const start: HeapModel.Heap
    ghost var calls: seq<HeapRuns.Call>

    ghost function Repr(): set<object> { {this, heap, heap.ext, heap.bm, heap.heads, vram, index} }

    ghost function View(): Store
      requires heap.Valid()
      reads this, heap, heap.ext, heap.bm, heap.heads, vram, index
    {
      Store(index[..], vram[..], heap.Slots(), owner, pages)
    }

    ghost predicate Valid()
      reads this, heap, heap.ext, heap.bm, heap.heads, vram, index
    {
      && heap.Valid() && vram.Length == heap.Bytes() && index != heap.heads
      && RoundTrips(codec) && StoreOk(codec, View())
      && Accounted(codec, start, calls, heap.View(), refused, device, copies, faults)
    }

    /** Pages the heap can hold. */
    ghost function Capacity(): nat { Grains.Mul(heap.n, heap.words) }

    /** Room for k more pages is certain: the store must serve them, or has as many extents to commit. */
    ghost predicate RoomFor(k: nat)
      requires Valid()
      reads this, heap, heap.ext, heap.bm, heap.heads, vram, index
    {
      MustServe(codec, View(), Capacity(), k) || k <= heap.n - heap.extentsUsed
    }

    /** What callers can tell about the store. */
    ghost function Books(): Ledger
      requires Valid()
      reads this, heap, heap.ext, heap.bm, heap.heads, vram, index
    {
      Ledger(pages, Spare(View()), faults, refused, calls)
    }

    /** `store_init`: a device of zeros. */
    constructor (c: Codec, device: nat -> bool, shift: nat, nExtents: nat, nBlocks: nat)
      requires RoundTrips(c)
      requires 14 <= shift <= 20 && 0 < nExtents
      requires Grains.Mul(nExtents, Grains.ExtGrains(Grains.BitmapWords(shift))) < GRAIN_LIMIT
      ensures Valid() && fresh(Repr()) && codec == c && this.device == device
      ensures pages == seq(nBlocks, _ => ZeroPage()) && Spare(View()) == {} && index.Length == nBlocks
      ensures heap.words == Grains.BitmapWords(shift) && heap.n == nExtents && heap.extentsUsed == 0
      ensures faults == 0 && refused == 0 && calls == [] && copies == 0
    {
      var h := new Allocator.ExtentAllocator(shift, nExtents);
      heap := h;
      codec := c;
      vram := new byte[ALLOC_GRAIN * Grains.Mul(nExtents, Grains.ExtGrains(Grains.BitmapWords(shift)))];
      index := new nat[nBlocks](_ => 0);
      owner := map[];
      pages := seq(nBlocks, _ => ZeroPage());
      faults, refused, copies := 0, 0, 0;
      this.device := device;
      start, calls := h.View(), [];
      new;
      RecordStarts(codec, start);
      assert forall b :: 0 <= b < |index[..]| ==> EntryOk(codec, View(), b);
    }

    /** Ask the allocator, and keep count. */
    method AskSlot(n: nat) returns (grain: nat, size: nat)
      requires heap.Valid() && 0 < n <= CBLK_SIZE
      modifies heap, heap.ext, heap.bm, heap.heads, this`calls, this`refused
      ensures heap.Valid() && HeapModel.AllocResult(heap.View(), grain, size) == HeapModel.Alloc(old(heap.View()), n)
      ensures calls == old(calls) + [HeapRuns.AllocCall(n)]
      ensures refused == old(refused) + if grain == SLOT_NONE then 1 else 0
    {
      hide HeapModel.Alloc, HeapModel.Good, HeapModel.AllocPromise;
      grain, size := heap.SlotAlloc(n);
      calls := calls + [HeapRuns.AllocCall(n)];
      if grain == SLOT_NONE {
        refused := refused + 1;
      }
    }

    /** Take a slot of at least n bytes; SLOT_NONE exactly when the heap has no room for one. */
    method Reserve(n: nat) returns (grain: nat)
      requires Valid() && 0 < n <= CBLK_SIZE && (Incompressible(codec) ==> n == CBLK_SIZE)
      modifies Repr()
      ensures Valid() && pages == old(pages) && faults == old(faults)
      ensures calls == old(calls) + [HeapRuns.AllocCall(n)]
      ensures grain == SLOT_NONE <==> Denied(start, old(calls), n)
      ensures old(RoomFor(1)) ==> grain != SLOT_NONE
      ensures refused == old(refused) + if grain == SLOT_NONE then 1 else 0
      ensures Dealt(old(View()), View(), grain, n)
    {
      hide RawOk, RoundTrips, MustServe, Incompressible, StoreOk, Spare, SlotsOk, Accounted, Denied, Dealt,
        HeapModel.Alloc, HeapModel.HasRoom, HeapModel.Good, HeapModel.Outstanding, Grains.Mul;
      ghost var s, h := View(), heap.View();
      ReserveAccounted(codec, start, calls, h, refused, device, copies, faults, s, n);
      ReserveServes(codec, s, h, n);
      var size;
      grain, size := AskSlot(n);
      ReserveOutcome(codec, s, h, n, View(), HeapModel.AllocResult(heap.View(), grain, size));
    }

    /** Give back a slot no entry points at. */
    method Release(grain: nat)
      requires Valid() && grain in Spare(View())
      modifies Repr()
      ensures Valid() && pages == old(pages) && faults == old(faults) && refused == old(refused)
      ensures View() == Dropped(old(View()), grain) && calls == old(calls) + [HeapRuns.FreeCall(grain)]
      ensures Spare(View()) == Spare(old(View())) - {grain}
    {
      hide RoundTrips, StoreOk, Accounted, HeapModel.Free, HeapModel.Good, HeapModel.Outstanding;
      DropKeeps(codec, View(), grain);
      ReleaseAccounted(codec, start, calls, heap.View(), refused, device, copies, faults, grain);
      var _ := heap.SlotFree(grain);
      calls := calls + [HeapRuns.FreeCall(grain)];
    }

    /** Issue a copy: it fails exactly when the device fails it. */
    method Attempt() returns (ok: bool)
      requires Valid()
      modifies this`faults, this`copies
      ensures Valid() && ok == device(old(copies)) && faults == old(faults) + if ok then 0 else 1
    {
      hide StoreOk, RoundTrips, RawOk, Recorded;
      ok := device(copies);
      copies := copies + 1;
      if !ok {
        faults := faults + 1;
      }
    }

    /** Copy bytes to the device. */
    method HtoD(grain: nat, bytes: seq<byte>) returns (ok: bool)
      requires Valid() && grain in Spare(View()) && |bytes| <= View().slots[grain]
      modifies vram, this`faults, this`copies
      ensures Valid() && pages == old(pages)
      ensures ALLOC_GRAIN * grain + |bytes| <= vram.Length
      ensures !ok ==> View() == old(View()) && faults == old(faults) + 1
      ensures ok ==> View() == Uploaded(old(View()), grain, bytes) && faults == old(faults)
      ensures ok ==> Stored(vram[..], grain, |bytes|) == bytes
    {
      hide StoreOk, RoundTrips, Accounted, Spare, HeapModel.Good, HeapModel.Outstanding, Grains.Mul;
      UploadKeeps(codec, View(), grain, bytes);
      ok := Attempt();
      if !ok {
        return;
      }
      CopyIn(ALLOC_GRAIN * grain, bytes);
    }

    method CopyIn(at: nat, bytes: seq<byte>)
      requires at + |bytes| <= vram.Length
      modifies vram
      ensures vram[..] == Splice(old(vram[..]), at, bytes)
    {
      var k := 0;
      while k < |bytes|
        invariant k <= |bytes|
        invariant forall i :: 0 <= i < vram.Length ==> vram[i] == if at <= i < at + k then bytes[i - at]
                  else old(vram[i])
      {
        vram[at + k] := bytes[k];
        k := k + 1;
      }
    }

    /** Copy the bytes an entry points at from the device. */
    method DtoH(ent: nat) returns (ok: bool, bytes: seq<byte>)
      requires Valid() && EntClen(ent) != 0 && InHeap(vram[..], ent)
      modifies this`faults, this`copies
      ensures Valid() && View() == old(View())
      ensures faults == old(faults) + if ok then 0 else 1
      ensures |bytes| == if ok then EntClen(ent) else 0
      ensures ok ==> bytes == Stored(vram[..], EntGrain(ent), EntClen(ent))
    {
      hide StoreOk, RoundTrips, Accounted;
      bytes := [];
      ok := Attempt();
      if !ok {
        return;
      }
      var at := ALLOC_GRAIN * EntGrain(ent);
      bytes := vram[at..at + EntClen(ent)];
    }

    /** Store a block's new entry; the slot it displaced is the caller's to free. */
    method SwapEntry(blk: nat, grain: nat, clen: nat, ghost page: Page) returns (was: nat)
      requires Valid() && blk < index.Length && StoreOk(codec, Published(View(), blk, grain, clen, page))
      modifies index, this`owner, this`pages
      ensures Valid() && was == old(index[blk])
      ensures View() == Published(old(View()), blk, grain, clen, page)
    {
      hide StoreOk, RoundTrips, EntClen, EntGrain, EntMake, EntGen, Accounted, HeapModel.Good;
      ghost var s := View();
      ShapeOk(codec, s);
      was := index[blk];
      index[blk] := EntMake(grain, clen, EntGen(was) + 1);
      owner := Published(s, blk, grain, clen, page).owner;
      pages := pages[blk := page];
      assert index[..] == s.index[blk := EntMake(grain, clen, EntGen(was) + 1)];
    }

    /** Swap in a new entry for a block whose stored form is in place, and free what it displaced. */
    method Publish(blk: nat, grain: nat, clen: nat, ghost page: Page)
      requires Valid() && blk < index.Length && Placed(codec, View(), page, grain) && clen == |CompBlock(codec, page)|
      modifies Repr()
      ensures Valid() && pages == old(pages)[blk := page] && vram[..] == old(vram[..])
      ensures faults == old(faults) && refused == old(refused)
      ensures View() == Replaced(old(View()), blk, grain, clen, page)
      ensures Spare(View()) == Spare(old(View())) - {grain} && Drew(old(calls), calls, 0)
    {
      hide StoreOk, RoundTrips, EntClen, EntGrain, EntMake, EntGen, CompBlock, Spare, Published, Placed, Accounted;
      ghost var s := View();
      ReplaceKeeps(codec, s, blk, grain, page);
      var was := SwapEntry(blk, grain, clen, page);
      if EntClen(was) != 0 {
        DrewOne(calls, HeapRuns.FreeCall(EntGrain(was)));
        Release(EntGrain(was));
      }
    }

    /** One block, whole. Stored bytes always decompress, so only a failed copy can refuse a read. */
    method ReadBlock(blk: nat) returns (err: Errno, page: Page)
      requires Valid() && blk < index.Length
      modifies this`faults, this`copies
      ensures Valid() && View() == old(View())
      ensures err == if faults == old(faults) then Fine else EIO
      ensures old(faults) <= faults <= old(faults) + 1
      ensures err == Fine ==> page == pages[blk]
    {
      EntryFact(codec, View(), blk);
      hide StoreOk, RoundTrips, EntClen, EntGrain, DecompBlock, Accounted;
      err, page := Fine, ZeroPage();
      var ent := index[blk];
      if EntClen(ent) != 0 {
        var ok, bytes := DtoH(ent);
        if !ok {
          err := EIO;
          return;
        }
        var r := DecompBlock(codec, bytes);
        err := if r.Some? then Fine else EIO;
        if r.Some? {
          page := r.value;
        }
      }
    }

    /** Fill a reserved slot with a page's stored form, or give it back. */
    method FillSlot(page: Page, bytes: seq<byte>, grain: nat) returns (ok: bool)
      requires Valid() && bytes == CompBlock(codec, page) && grain < GRAIN_LIMIT
      requires grain in Spare(View()) && |bytes| <= View().slots[grain]
      modifies Repr()
      ensures Valid() && pages == old(pages) && index[..] == old(index[..]) && refused == old(refused)
      ensures old(faults) <= faults && (ok <==> faults == old(faults))
      ensures Drew(old(calls), calls, 0)
      ensures !ok ==> Spare(View()) == Spare(old(View())) - {grain}
      ensures ok ==> Placed(codec, View(), page, grain) && Spare(View()) == Spare(old(View()))
    {
      hide StoreOk, RoundTrips, CompBlock, Spare, Placed, Uploaded, Stored, Accounted, AskCount;
      UploadPlaces(codec, View(), grain, page);
      ok := HtoD(grain, bytes);
      if !ok {
        DrewOne(calls, HeapRuns.FreeCall(grain));
        Release(grain);
      }
    }

    /** Put a page's stored form into a fresh slot, or say why not and leave everything as it was. */
    method StorePage(page: Page) returns (err: Errno, grain: nat, clen: nat)
      requires Valid()
      modifies Repr()
      ensures Valid() && pages == old(pages) && index[..] == old(index[..])
      ensures err == if faults > old(faults) then EIO else if refused > old(refused) then ENOSPC else Fine
      ensures old(faults) <= faults && old(refused) <= refused
      ensures err != Fine ==> Spare(View()) == Spare(old(View()))
      ensures err == ENOSPC <==> Denied(start, old(calls), StoredLen(codec, page))
      ensures DrewAll(old(calls), calls, 1)
      ensures old(RoomFor(1)) ==> err != ENOSPC
      ensures err == Fine ==> Placed(codec, View(), page, grain) && clen == |CompBlock(codec, page)|
      ensures err == Fine ==> grain !in Spare(old(View())) && Spare(View()) == Spare(old(View())) + {grain}
    {
      var bytes := CompBlock(codec, page);
      StoredForm(codec, page);
      hide StoreOk, RoundTrips, CompBlock, StoredLen, Spare, Placed, Accounted, MustServe, Denied, AskCount,
        HeapModel.Good, HeapModel.Outstanding, Grains.Mul;
      clen := |bytes|;
      ghost var calls0 := calls;
      DrewOne(calls, HeapRuns.AllocCall(clen));
      grain := Reserve(clen);
      ghost var calls1 := calls;
      if grain == SLOT_NONE {
        err := ENOSPC;
        return;
      }
      var ok := FillSlot(page, bytes, grain);
      DrewAllTrans(calls0, calls1, calls, 1);
      err := if ok then Fine else EIO;
    }

    /** Partial-block write: all of it or none of it, and nothing outside [boff, boff + |src|). */
    method RmwBlock(blk: nat, boff: nat, src: seq<byte>) returns (err: Errno)
      requires Valid() && blk < index.Length && boff + |src| <= CBLK_SIZE
      modifies Repr()
      ensures Valid() && Spare(View()) == Spare(old(View()))
      ensures err == if faults > old(faults) then EIO else if refused > old(refused) then ENOSPC else Fine
      ensures old(faults) <= faults && old(refused) <= refused
      ensures err == ENOSPC <==>
              faults == old(faults) && Denied(start, old(calls), StoredLen(codec, Splice(old(pages)[blk], boff, src)))
      ensures Drew(old(calls), calls, 1) && (faults == old(faults) ==> DrewAll(old(calls), calls, 1))
      ensures old(RoomFor(1)) ==> err != ENOSPC
      ensures err == Fine ==> pages == old(pages)[blk := Splice(old(pages)[blk], boff, src)]
      ensures err != Fine ==> pages == old(pages)
    {
      hide StoreOk, RoundTrips, Placed, Spare, Splice, EntClen, EntGrain, EntMake, EntGen, CompBlock, StoredLen,
        Accounted, MustServe, Denied, AskCount, HeapModel.Good, HeapModel.Outstanding, Grains.Mul;
      ShapeOk(codec, View());
      var page;
      err, page := ReadBlock(blk);
      if err != Fine {
        return;
      }
      page := Splice(page, boff, src);
      var grain, clen;
      ghost var calls0 := calls;
      err, grain, clen := StorePage(page);
      if err != Fine {
        return;
      }
      ghost var calls1 := calls;
      Publish(blk, grain, clen, page);
      DrewAllTrans(calls0, calls1, calls, 1);
    }

    /** Why something failed since then: the heap refused exactly when an ask found it without room - never
        with room for every slot that was asked for - and a copy failed exactly when the device failed it. */
    twostate lemma WhyFailed(k: nat)
      requires old(Valid()) && Valid() && Drew(old(calls), calls, k)
      ensures refused > old(refused) <==> RanOut(start, old(calls), calls)
      ensures old(RoomFor(k)) ==> refused <= old(refused)
      ensures faults > old(faults) <==> DeviceFailed(device, old(copies), copies)
    {
      hide RoundTrips, StoreOk, Accounted, HeapModel.Good, HeapModel.Outstanding, Drew, RanOut, DeviceFailed, MustServe,
        Grains.Mul;
      Causes(codec, start, device, old(calls), old(heap.View()), old(refused), old(copies), old(faults), old(View()),
        calls, heap.View(), refused, copies, faults, k);
    }

    /** Discard one block. */
    method TrimBlock(blk: nat)
      requires Valid() && blk < index.Length
      modifies Repr()
      ensures Valid() && Spare(View()) == Spare(old(View()))
      ensures faults == old(faults) && refused == old(refused) && Drew(old(calls), calls, 0)
      ensures pages == old(pages)[blk := ZeroPage()]
    {
      hide StoreOk, RoundTrips, EntClen, EntGrain, EntMake, EntGen, Spare, Published, Accounted, AskCount;
      ghost var s := View();
      TrimFacts(codec, s, blk);
      if EntClen(index[blk]) != 0 {
        var was := SwapEntry(blk, 0, 0, ZeroPage());
        DrewOne(calls, HeapRuns.FreeCall(EntGrain(was)));
        Release(EntGrain(was));
      }
    }
  }

  /** What an allocation means to the store. */
  lemma ReserveOutcome(c: Codec, s: Store, h: HeapModel.Heap, n: nat, s': Store, r: HeapModel.AllocResult)
    requires StoreOk(c, s) && HeapModel.Good(h) && HeapModel.Good(r.heap) && 0 < n <= CBLK_SIZE
    requires s.slots == HeapModel.Outstanding(h) && |s.mem| == HeapModel.HeapBytes(h)
    requires r == HeapModel.Alloc(h, n) && s' == s.(slots := HeapModel.Outstanding(r.heap))
    ensures StoreOk(c, s') && Dealt(s, s', r.grain, n)
  {
    HeapModel.AllocOutcome(h, n);
    HeapModel.OutstandingDisjoint(r.heap);
    hide HeapModel.Good, HeapModel.Alloc, HeapModel.HasRoom, StoreOk, RawOk, SlotsOk, HeapModel.Outstanding;
    if r.grain != SLOT_NONE { GrabKeeps(c, s, r.grain, r.size); }
  }

  /** When it must succeed. */
  lemma ReserveServes(c: Codec, s: Store, h: HeapModel.Heap, n: nat)
    requires StoreOk(c, s) && HeapModel.Good(h) && RawOk(c, h) && s.slots == HeapModel.Outstanding(h)
    requires 0 < n <= CBLK_SIZE && (Incompressible(c) ==> n == CBLK_SIZE)
    ensures MustServe(c, s, Grains.Mul(|h.ext|, h.words), 1) || |h.ext| > h.used ==>
              HeapModel.Alloc(h, n).grain != SLOT_NONE
  {
    RawReserve(c, s, h, n);
    hide HeapModel.Good, HeapModel.Alloc;
    if |h.ext| > h.used { UncommittedServes(h, n); }
  }

  /** What it means to the counts. */
  lemma ReserveAccounted(c: Codec, start: HeapModel.Heap, calls: seq<HeapRuns.Call>, h: HeapModel.Heap, refused: nat,
      device: nat -> bool, copies: nat, faults: nat, s: Store, n: nat)
    requires Accounted(c, start, calls, h, refused, device, copies, faults) && StoreOk(c, s)
    requires HeapModel.Good(h) && s.slots == HeapModel.Outstanding(h)
    requires 0 < n <= CBLK_SIZE && (Incompressible(c) ==> n == CBLK_SIZE)
    ensures RawOk(c, h)
    ensures var r := HeapModel.Alloc(h, n);
            && Accounted(c, start, calls + [HeapRuns.AllocCall(n)], r.heap,
              if r.grain == SLOT_NONE then refused + 1 else refused, device, copies, faults)
            && (r.grain == SLOT_NONE <==> Denied(start, calls, n))
  {
    hide HeapModel.Good, HeapModel.Alloc, HeapModel.HasRoom, StoreOk, HeapModel.Outstanding, Failures, RawOk, Recorded;
    RawReserve(c, s, h, n);
    RecordAsk(c, start, calls, h, refused, n);
    DenialIsRefusal(c, start, calls, h, refused, n);
  }

  lemma DenialIsRefusal(c: Codec, start: HeapModel.Heap, calls: seq<HeapRuns.Call>, h: HeapModel.Heap, refused: nat,
      n: nat)
    requires Recorded(c, start, calls, h, refused) && HeapModel.Good(h) && 0 < n <= CBLK_SIZE
    ensures HeapModel.Alloc(h, n).grain == SLOT_NONE <==> Denied(start, calls, n)
  {
    HeapModel.AllocFailsIffNoRoom(h, n);
    hide HeapModel.Good, HeapModel.Alloc, HeapModel.HasRoom;
  }

  lemma ReleaseAccounted(c: Codec, start: HeapModel.Heap, calls: seq<HeapRuns.Call>, h: HeapModel.Heap, refused: nat,
      device: nat -> bool, copies: nat, faults: nat, g: nat)
    requires Accounted(c, start, calls, h, refused, device, copies, faults)
    requires HeapModel.Good(h) && g in HeapModel.Outstanding(h)
    ensures Accounted(c, start, calls + [HeapRuns.FreeCall(g)], HeapModel.Free(h, g), refused, device, copies, faults)
  {
    hide HeapModel.Good, HeapModel.Free, HeapModel.Outstanding, Failures, RawOk, Recorded;
    RawRelease(c, h, g);
    RecordFree(c, start, calls, h, refused, g);
  }

  /** Uncompressed, the heap grants a page exactly while it is not full - so always while it must. */
  lemma RawReserve(c: Codec, s: Store, h: HeapModel.Heap, n: nat)
    requires StoreOk(c, s) && HeapModel.Good(h) && RawOk(c, h) && s.slots == HeapModel.Outstanding(h)
    requires 0 < n <= CBLK_SIZE && (Incompressible(c) ==> n == CBLK_SIZE)
    ensures RawOk(c, HeapModel.Alloc(h, n).heap)
    ensures MustServe(c, s, Grains.Mul(|h.ext|, h.words), 1) ==> HeapModel.Alloc(h, n).grain != SLOT_NONE
  {
    if Incompressible(c) {
      HeapModel.AllocOutcome(h, CBLK_SIZE);
      Capacity.RawAllocSucceedsIff(h);
      Capacity.RawStaysRaw(h, SLOT_NONE);
      SlotCount(c, s);
    }
  }

  lemma RawRelease(c: Codec, h: HeapModel.Heap, g: nat)
    requires HeapModel.Good(h) && RawOk(c, h) && g in HeapModel.Outstanding(h)
    ensures RawOk(c, HeapModel.Free(h, g))
  {
    if Incompressible(c) { Capacity.RawStaysRaw(h, g); }
  }

  // ------------------------------------------------------- errors have causes

  /** The device failed a copy numbered from lo up to hi. */
  ghost predicate DeviceFailed(device: nat -> bool, lo: nat, hi: nat) { exists k :: lo <= k < hi && !device(k) }

  lemma {:induction false} FailuresGrow(device: nat -> bool, lo: nat, hi: nat)
    requires lo <= hi
    ensures Failures(device, lo) <= Failures(device, hi)
    ensures Failures(device, lo) < Failures(device, hi) <==> DeviceFailed(device, lo, hi)
    decreases hi
  {
    if lo < hi {
      FailuresGrow(device, lo, hi - 1);
      assert !device(hi - 1) ==> DeviceFailed(device, lo, hi);
      if DeviceFailed(device, lo, hi - 1) {
        var k :| lo <= k < hi - 1 && !device(k);
        assert DeviceFailed(device, lo, hi);
      }
    }
  }

  /** A store's heap, as `Roomy` sees it. */
  lemma MustServeIsRoomy(c: Codec, s: Store, h: HeapModel.Heap, k: nat)
    requires StoreOk(c, s) && HeapModel.Good(h) && RawOk(c, h) && s.slots == HeapModel.Outstanding(h)
    requires MustServe(c, s, Grains.Mul(|h.ext|, h.words), k) || k <= |h.ext| - h.used
    ensures Roomy(c, h, k)
  {
    hide HeapModel.Good, StoreOk, HeapModel.Outstanding, Capacity.AllRaw;
    SlotCount(c, s);
  }

  /** What the counts of two moments say about the time between them: the heap refused exactly when an ask
      found no room, never if it must serve all that was asked; and a copy failed exactly when the
      device failed one. */
  lemma Causes(c: Codec, start: HeapModel.Heap, device: nat -> bool, was: seq<HeapRuns.Call>, h: HeapModel.Heap,
      refused: nat, copies: nat, faults: nat, s: Store, now: seq<HeapRuns.Call>, h': HeapModel.Heap, refused': nat,
      copies': nat, faults': nat, k: nat)
    requires Accounted(c, start, was, h, refused, device, copies, faults)
    requires Accounted(c, start, now, h', refused', device, copies', faults') && Drew(was, now, k)
    requires StoreOk(c, s) && HeapModel.Good(h) && s.slots == HeapModel.Outstanding(h)
    ensures refused' > refused <==> RanOut(start, was, now)
    ensures MustServe(c, s, Grains.Mul(|h.ext|, h.words), k) || k <= |h.ext| - h.used ==> refused' == refused
    ensures faults' > faults <==> DeviceFailed(device, copies, copies')
  {
    hide HeapModel.Good, StoreOk, HeapModel.Outstanding, RawOk, Recorded, Roomy, Drew, MustServe, Failures, RanOut;
    RefusalsBetween(c, start, was, h, refused, now, h', refused', k);
    if MustServe(c, s, Grains.Mul(|h.ext|, h.words), k) || k <= |h.ext| - h.used { MustServeIsRoomy(c, s, h, k); }
    if copies <= copies' {
      FailuresGrow(device, copies, copies');
    } else {
      FailuresGrow(device, copies', copies);
    }
  }

  /** `main` without a codec: the store it sets up has a page of heap for every block. */
  method StartUncompressed(device: nat -> bool, mb: nat, diskMb: Option<nat>, shift: nat) returns (s: VramStore)
    requires 14 <= shift <= 20 && Capacity.Configure(mb, diskMb, false, shift).Some?
    ensures s.Valid() && fresh(s.Repr()) && Incompressible(s.codec)
            && s.index.Length <= Grains.Mul(s.heap.n, s.heap.words)
    ensures var g := Capacity.Configure(mb, diskMb, false, shift).value;
            s.pages == seq(g.blocks, _ => ZeroPage()) && s.index.Length == g.blocks && Spare(s.View()) == {}
  {
    Capacity.ConfigureFits(mb, diskMb, false, shift);
    NoCodecIsIncompressible();
    var g := Capacity.Configure(mb, diskMb, false, shift).value;
    s := new VramStore(NoCodec(), device, shift, g.extents, g.blocks);
  }
}
