/** Counting slots: when the heap can and cannot run out. */
module Capacity {
  import opened Blocks
  import opened Bitmap
  import opened ExtentLists
  import opened Grains
  import opened HeapModel
  import opened Sums
  import opened SlotTotals

  // ------------------------------------------- outstanding slots, counted

  /** Taken slots of one row below `m`. */
  ghost function TakenBits(row: seq<bool>, m: nat): set<nat>
    requires m <= |row|
  {
    set k: nat | k < m && row[k]
  }

  lemma {:induction false} TakenBitsCount(row: seq<bool>, m: nat)
    requires m <= |row|
    ensures |TakenBits(row, m)| == m - Clear(row[..m])
  {
    if m > 0 {
      TakenBitsCount(row, m - 1);
      assert row[..m][..m - 1] == row[..m - 1];
      if row[m - 1] {
        assert TakenBits(row, m) == TakenBits(row, m - 1) + {m - 1};
      } else {
        assert TakenBits(row, m) == TakenBits(row, m - 1);
      }
    } else {
      assert TakenBits(row, 0) == {};
    }
  }

  lemma {:induction false} ClearOfPrefix(row: seq<bool>, m: nat)
    requires m <= |row| && forall i :: m <= i < |row| ==> row[i]
    ensures Clear(row[..m]) == Clear(row)
  {
    if m < |row| {
      ClearOfPrefix(row[..|row| - 1], m);
      assert row[..|row| - 1][..m] == row[..m];
    } else {
      assert row[..m] == row;
    }
  }

  /** Grains outstanding in extents below `m`, and those of extent `m` alone. */
  ghost function Below(table: map<nat, Spot>, m: nat): set<nat> { set g | g in table && table[g].ei < m }

  ghost function Within(table: map<nat, Spot>, m: nat): set<nat> { set g | g in table && table[g].ei == m }

  lemma {:induction false} SameSize(grains: set<nat>, bits: set<nat>, table: map<nat, Spot>)
    requires grains <= table.Keys
    requires forall g :: g in grains ==> table[g].k in bits
    requires forall g, f :: g in grains && f in grains && table[g].k == table[f].k ==> g == f
    requires forall k :: k in bits ==> exists g :: g in grains && table[g].k == k
    ensures |grains| == |bits|
    decreases grains
  {
    if grains == {} {
      assert bits == {};
    } else {
      var g :| g in grains;
      var k := table[g].k;
      forall j | j in bits - {k}
        ensures exists f :: f in grains - {g} && table[f].k == j
      {
        var f :| f in grains && table[f].k == j;
        assert f in grains - {g};
      }
      SameSize(grains - {g}, bits - {k}, table);
    }
  }

  lemma WithinCount(h: Heap, m: nat)
    requires Core(h) && m < |h.ext|
    ensures |Within(h.table, m)| == TakenCount(h.ext[m])
  {
    var e, row := h.ext[m], h.bm[m];
    assert ExtentOk(h.words, e, row);
    if e.used {
      FreeCountMeansClear(h.words, e, row);
      TakenBitsCount(row, e.nslots);
      ClearOfPrefix(row, e.nslots);
      var grains, bits := Within(h.table, m), TakenBits(row, e.nslots);
      assert forall g :: g in grains ==> Taken(h.ext, h.bm, h.table[g]);
      forall k | k in bits
        ensures exists g :: g in grains && h.table[g].k == k
      {
        assert Taken(h.ext, h.bm, Spot(m, k));
        assert SpotGrain(h.words, h.ext, Spot(m, k)) in grains;
      }
      SameSize(grains, bits, h.table);
    } else {
      assert forall g :: g in h.table ==> Taken(h.ext, h.bm, h.table[g]);
      assert Within(h.table, m) == {};
    }
  }

  lemma {:induction false} BelowCount(h: Heap, m: nat)
    requires Core(h) && m <= |h.ext|
    ensures |Below(h.table, m)| == SumBy(h.ext[..m], TakenCount)
  {
    if m == 0 {
      assert Below(h.table, 0) == {};
    } else {
      BelowCount(h, m - 1);
      WithinCount(h, m - 1);
      assert h.ext[..m][..m - 1] == h.ext[..m - 1];
      assert Below(h.table, m) == Below(h.table, m - 1) + Within(h.table, m - 1);
    }
  }

  /** The number of outstanding slots is the total the extents report. */
  lemma OutstandingCount(h: Heap)
    requires Sound(h)
    ensures |Outstanding(h)| == SumBy(h.ext, TakenCount)
  {
    BelowCount(h, |h.ext|);
    assert h.ext[..|h.ext|] == h.ext;
    assert forall g :: g in h.table ==> Taken(h.ext, h.bm, h.table[g]);
    assert Below(h.table, |h.ext|) == h.table.Keys;
    assert Outstanding(h).Keys == h.table.Keys;
  }

  lemma SplitAt(h: Heap, m: nat)
    requires Sound(h) && m < |h.ext|
    ensures var rest, some := Outstanding(h) - Below(h.table, m), Within(h.table, m);
            && some <= rest.Keys && rest - some == Outstanding(h) - Below(h.table, m + 1)
            && forall g :: g in some ==> rest[g] == ALLOC_GRAIN * (h.ext[m].cls + 1)
  {
    hide Linked, Tracks, ExtentsOk, Homed, NoneEmpty;
    assert Outstanding(h).Keys == h.table.Keys;
  }

  lemma WithinBytes(h: Heap, m: nat)
    requires Sound(h) && m < |h.ext|
    ensures Bytes(Outstanding(h) - Below(h.table, m)) ==
            TakenBytes(h.ext[m]) + Bytes(Outstanding(h) - Below(h.table, m + 1))
  {
    WithinCount(h, m);
    SplitAt(h, m);
    hide Sound, Outstanding, Below, Within, Bytes, Mul, TakenCount;
    BytesUniform(Outstanding(h) - Below(h.table, m), Within(h.table, m), ALLOC_GRAIN * (h.ext[m].cls + 1));
  }

  lemma {:induction false} BelowBytes(h: Heap, m: nat)
    requires Sound(h) && m <= |h.ext|
    ensures Bytes(Outstanding(h)) == SumBy(h.ext[..m], TakenBytes) + Bytes(Outstanding(h) - Below(h.table, m))
  {
    if m == 0 {
      assert Below(h.table, 0) == {};
      assert Outstanding(h) - Below(h.table, 0) == Outstanding(h);
    } else {
      hide Sound, Outstanding, Below, Bytes, TakenBytes;
      BelowBytes(h, m - 1);
      WithinBytes(h, m - 1);
      assert h.ext[..m][..m - 1] == h.ext[..m - 1];
    }
  }

  /** The bytes behind the outstanding slots are the total the extents report: g_slot_bytes. */
  lemma OutstandingBytes(h: Heap)
    requires Good(h)
    ensures Bytes(Outstanding(h)) == h.bytes
  {
    BelowBytes(h, |h.ext|);
    assert h.ext[..|h.ext|] == h.ext;
    assert forall g :: g in h.table ==> Taken(h.ext, h.bm, h.table[g]);
    assert Outstanding(h) - Below(h.table, |h.ext|) == map[];
  }

  /** Nothing outstanding means every extent is back on the free list and both counters read zero. */
  lemma EmptyHeapIsUncommitted(h: Heap)
    requires Good(h) && Outstanding(h) == map[]
    ensures forall i :: 0 <= i < |h.ext| ==> !h.ext[i].used && h.chain.home[i] == FREE
    ensures h.used == 0 && h.bytes == 0
  {
    assert h.table.Keys == Outstanding(h).Keys;
    forall i | 0 <= i < |h.ext|
      ensures !h.ext[i].used
    {
      WithinCount(h, i);
      assert Within(h.table, i) == {};
    }
    SumConst(h.ext, UsedBit, 0);
    SumConst(h.ext, TakenBytes, 0);
  }

  // --------------------------------------------------------- what full means

  /** The outstanding slots that lie in extent i. */
  ghost function SlotsIn(h: Heap, i: nat): Slots
    requires Sound(h)
  {
    map g | g in Outstanding(h) && g / ExtGrains(h.words) == i :: Outstanding(h)[g]
  }

  /** Grains say which extent they lie in. */
  lemma SlotsInAreWithin(h: Heap, i: nat)
    requires Sound(h) && i < |h.ext|
    ensures SlotsIn(h, i).Keys == Within(h.table, i)
    ensures forall g :: g in SlotsIn(h, i) ==> SlotsIn(h, i)[g] == ALLOC_GRAIN * (h.ext[i].cls + 1)
  {
    forall g | g in h.table
      ensures g / ExtGrains(h.words) == h.table[g].ei
    {
      LocateSlot(h, g);
    }
    hide Linked, Tracks, ExtentsOk, Homed, NoneEmpty, Mul;
    assert Outstanding(h).Keys == h.table.Keys;
  }

  lemma SlotsInBytes(h: Heap, i: nat)
    requires Sound(h) && i < |h.ext|
    ensures Bytes(SlotsIn(h, i)) == TakenCount(h.ext[i]) * (ALLOC_GRAIN * (h.ext[i].cls + 1))
  {
    SlotsInAreWithin(h, i);
    WithinCount(h, i);
    var slots, some, size := SlotsIn(h, i), Within(h.table, i), ALLOC_GRAIN * (h.ext[i].cls + 1);
    hide Sound, SlotsIn, Within, Mul, TakenCount;
    BytesUniform(slots, some, size);
    MulIsProduct(|some|, size);
    assert slots - some == map[];
  }

  /** A committed extent has no room left for a slot of its class exactly when the outstanding slots cover
      it up to less than one such slot. */
  lemma FullExtent(h: Heap, i: nat)
    requires Sound(h) && i < |h.ext| && h.ext[i].used
    ensures h.ext[i].nfree == 0 <==>
            Bytes(SlotsIn(h, i)) + ALLOC_GRAIN * (h.ext[i].cls + 1) > CBLK_SIZE * h.words
  {
    SlotsInBytes(h, i);
    var e := h.ext[i];
    assert ExtentOk(h.words, e, h.bm[i]);
    FreeCountMeansClear(h.words, e, h.bm[i]);
    var n := e.nslots;
    CarvedWhole(h.words, e.cls);
    InBytes(n, e.cls + 1, h.words);
    FullProduct(n, e.nfree, ALLOC_GRAIN * (e.cls + 1), CBLK_SIZE * h.words);
    hide *;
  }

  lemma InBytes(n: nat, d: nat, words: nat)
    requires n * d <= 64 * words < (n + 1) * d
    ensures n * (64 * d) <= 4096 * words < (n + 1) * (64 * d)
  {
    assert n * (64 * d) == 64 * (n * d);
    assert (n + 1) * (64 * d) == 64 * ((n + 1) * d);
  }

  lemma FullProduct(n: nat, free: nat, size: nat, whole: nat)
    requires free <= n && size > 0 && n * size <= whole < (n + 1) * size
    ensures free == 0 <==> (n - free) * size + size > whole
  {
    assert (n - free) * size + size == (n + 1 - free) * size;
    if free > 0 { assert (n + 1 - free) * size + (free - 1) * size == n * size; }
  }

  /** REFUSED MEANS FULL. A request is refused exactly when no extent is uncommitted and every extent whose
      slots are big enough is covered by outstanding slots, up to less than one slot of its class. */
  lemma RefusedMeansFull(h: Heap, nbytes: nat)
    requires Sound(h) && 0 < nbytes <= CBLK_SIZE
    ensures Alloc(h, nbytes).grain == SLOT_NONE <==>
            forall i :: 0 <= i < |h.ext| ==>
              && h.ext[i].used
              && (nbytes <= ALLOC_GRAIN * (h.ext[i].cls + 1) ==>
                    Bytes(SlotsIn(h, i)) + ALLOC_GRAIN * (h.ext[i].cls + 1) > CBLK_SIZE * h.words)
  {
    AllocFailsIffNoRoom(h, nbytes);
    forall i | 0 <= i < |h.ext|
      ensures RoomIn(h.ext[i], h.bm[i], (nbytes - 1) / ALLOC_GRAIN) <==>
              !(h.ext[i].used
                && (nbytes <= ALLOC_GRAIN * (h.ext[i].cls + 1) ==>
                      Bytes(SlotsIn(h, i)) + ALLOC_GRAIN * (h.ext[i].cls + 1) > CBLK_SIZE * h.words))
    {
      if h.ext[i].used {
        FullExtent(h, i);
        assert ExtentOk(h.words, h.ext[i], h.bm[i]);
        FreeCountMeansClear(h.words, h.ext[i], h.bm[i]);
      }
    }
    hide Alloc, RoomIn, Bytes, SlotsIn, Sound;
  }

  // ----------------------------------------------------- running uncompressed

  const RAW_CLASS: nat := NCLASS - 1

  /** Every committed extent holds whole pages: the state a heap is in when no codec is loaded. */
  ghost predicate AllRaw(h: Heap) {
    forall i :: 0 <= i < |h.ext| && h.ext[i].used ==> h.ext[i].cls == RAW_CLASS
  }

  lemma {:induction false} RawSlots(a: nat, w: nat)
    requires a == 64 * w
    ensures Quot(a, 64) == w
  {
    if w > 0 { RawSlots(a - 64, w - 1); }
  }

  function RawCapacity(h: Heap): nat { Mul(|h.ext|, h.words) }

  lemma {:induction false} RawCount(ext: seq<Extent>, words: nat)
    requires forall i :: 0 <= i < |ext| ==> TakenCount(ext[i]) <= words
    ensures SumBy(ext, TakenCount) <= Mul(|ext|, words)
    ensures SumBy(ext, TakenCount) == Mul(|ext|, words) <==> forall i :: 0 <= i < |ext| ==> TakenCount(ext[i]) == words
  {
    if ext != [] {
      var m := |ext| - 1;
      RawCount(ext[..m], words);
      assert forall i :: 0 <= i < m ==> ext[..m][i] == ext[i];
    }
  }

  /** Uncompressed, a whole-page allocation succeeds exactly while fewer slots are outstanding than
      the heap has pages. */
  lemma RawAllocSucceedsIff(h: Heap)
    requires Good(h) && AllRaw(h)
    ensures |Outstanding(h)| <= RawCapacity(h)
    ensures Alloc(h, CBLK_SIZE).grain != SLOT_NONE <==> |Outstanding(h)| < RawCapacity(h)
  {
    hide Linked, Tracks, SumBy, Homed, NoneEmpty, Alloc;
    OutstandingCount(h);
    AllocFailsIffNoRoom(h, CBLK_SIZE);
    RawSlots(ExtGrains(h.words), h.words);
    forall i | 0 <= i < |h.ext|
      ensures TakenCount(h.ext[i]) <= h.words
      ensures RoomIn(h.ext[i], h.bm[i], RAW_CLASS) <==> TakenCount(h.ext[i]) < h.words
    {
      assert ExtentOk(h.words, h.ext[i], h.bm[i]);
      if h.ext[i].used { FreeCountMeansClear(h.words, h.ext[i], h.bm[i]); }
    }
    RawCount(h.ext, h.words);
  }

  /** Whole-page traffic keeps the heap uncompressed. */
  lemma RawStaysRaw(h: Heap, g: nat)
    requires Good(h) && AllRaw(h)
    ensures Alloc(h, CBLK_SIZE).grain != SLOT_NONE ==> AllRaw(Alloc(h, CBLK_SIZE).heap)
    ensures g in Outstanding(h) ==> AllRaw(Free(h, g))
  {
    if Alloc(h, CBLK_SIZE).grain != SLOT_NONE {
      RawAfterAlloc(h);
    }
    if g in Outstanding(h) {
      FreeKeepsClasses(h, g);
      FreeKeepsUse(h, g);
    }
  }

  lemma RawAfterAlloc(h: Heap)
    requires Good(h) && AllRaw(h) && Alloc(h, CBLK_SIZE).grain != SLOT_NONE
    ensures AllRaw(Alloc(h, CBLK_SIZE).heap)
  {
    AllocFailsIffNoRoom(h, CBLK_SIZE);
    ChosenOk(h, RAW_CLASS);
    var h1, ei := ChosenHeap(h, RAW_CLASS), Chosen(h, RAW_CLASS);
    assert AllRaw(h1) by {
      if h.heads[RAW_CLASS] == EXT_NONE && h.heads[FREE] != EXT_NONE {
        CommittedOk(h, RAW_CLASS);
        assert forall i :: 0 <= i < |h.ext| ==>
          SameBody(h.ext[ei := Fresh(h.words, h.ext[ei], RAW_CLASS)][i], h1.ext[i]);
      }
    }
    HasLowest(h1, ei);
    TookOk(h1, ei, Lowest(h1.bm[ei]));
    var r := Took(h1, ei, Lowest(h1.bm[ei]));
    assert forall i :: 0 <= i < |r.ext| ==> SameBody(Marked(h1, ei, Lowest(h1.bm[ei])).ext[i], r.ext[i]);
  }

  lemma FreeKeepsUse(h: Heap, g: nat)
    requires Sound(h) && g in h.table
    ensures forall i :: 0 <= i < |h.ext| && Free(h, g).ext[i].used ==> h.ext[i].used
  {
    FreeKeepsClasses(h, g);
    hide Linked, Tracks, SumBy, Homed, NoneEmpty, Mul, Pushed, Removed;
    RelistedOk(h, g);
    var ei, h1 := h.table[g].ei, Relisted(h, g);
    forall i | 0 <= i < |h.ext|
      ensures Free(h, g).ext[i].used ==> h.ext[i].used
    {
      assert SameBody(Released(h, g).ext[i], h1.ext[i]);
      if h1.ext[ei].nfree == h1.ext[ei].nslots {
        RecycledOk(h1, ei);
        assert SameBody(h1.ext[ei := h1.ext[ei].(used := false)][i], Free(h, g).ext[i]);
      }
    }
  }

  // -------------------------------------------------------- startup geometry

  const MIB: nat := 0x10_0000
  const SIZE_ALIGN: nat := 0x1_0000

  datatype Geometry = Geometry(words: nat, extents: nat, blocks: nat)

  /** The sizes `main` and `store_init` settle on for `mb` MiB of VRAM: the alignment, the index
      limit, the logical size and its cap when no codec is loaded. `None` is a refusal to start; fewer
      than 1024 MiB are never asked of the device. */
  function Configure(mb: nat, diskMb: Option<nat>, codec: bool, shift: nat): Option<Geometry>
    requires 14 <= shift <= 20
  {
    var vram := (mb * MIB / SIZE_ALIGN) * SIZE_ALIGN;
    if mb < 1024 || vram / ALLOC_GRAIN >= GRAIN_LIMIT then None
    else
      var want := match diskMb case Some(d) => d * MIB case None => vram * 2;
      var disk := ((if !codec && want > vram then vram else want) / CBLK_SIZE) * CBLK_SIZE;
      var extents := vram / (BitmapWords(shift) * CBLK_SIZE);
      if disk < CBLK_SIZE || extents == 0 then None
      else Some(Geometry(BitmapWords(shift), extents, disk / CBLK_SIZE))
  }

  lemma {:induction false} MulScale(n: nat, w: nat)
    ensures Mul(n, 64 * w) == 64 * Mul(n, w)
  {
    if n > 0 { MulScale(n - 1, w); }
  }

  /** The sizes in plain numbers: the daemon starts with 1 GiB up to less than 64 GiB of VRAM and a device
      of at least 1 MiB. The extents make up all of the VRAM; the device is as large as asked, or twice
      the VRAM if nothing was - and without a codec no larger than the VRAM. */
  lemma ConfigureSizes(mb: nat, diskMb: Option<nat>, codec: bool, shift: nat)
    requires 14 <= shift <= 20
    ensures Configure(mb, diskMb, codec, shift).Some? <==> 1024 <= mb < 65536 && (diskMb.Some? ==> diskMb.value >= 1)
    ensures Configure(mb, diskMb, codec, shift).Some? ==>
              var g, asked := Configure(mb, diskMb, codec, shift).value, if diskMb.Some? then diskMb.value else 2 * mb;
              && g.words == BitmapWords(shift) && g.extents * g.words == 256 * mb
              && g.blocks == 256 * if !codec && asked > mb then mb else asked
  {
    AlignedSize(mb);
    WholeExtents(mb, shift);
    BlockSizes(mb);
    if diskMb.Some? { BlockSizes(diskMb.value); }
    var n := (256 * mb * CBLK_SIZE) / (BitmapWords(shift) * CBLK_SIZE);
    assert mb > 0 ==> n > 0;
  }

  lemma AlignedSize(mb: nat)
    ensures (mb * MIB / SIZE_ALIGN) * SIZE_ALIGN == 256 * mb * CBLK_SIZE == mb * MIB
    ensures mb * MIB / ALLOC_GRAIN >= GRAIN_LIMIT <==> mb >= 65536
  {
    assert mb * MIB == (16 * mb) * SIZE_ALIGN;
    WholeUnits(16 * mb, SIZE_ALIGN);
    assert mb * MIB == (16384 * mb) * ALLOC_GRAIN;
    WholeUnits(16384 * mb, ALLOC_GRAIN);
  }

  lemma WholeUnits(n: nat, unit: nat)
    requires unit > 0
    ensures (n * unit) / unit == n
  {
    QuotRem(unit, n, 0);
  }

  lemma BlockSizes(d: nat)
    ensures d * MIB / CBLK_SIZE == 256 * d && (2 * (d * MIB)) / CBLK_SIZE == 512 * d
    ensures d * MIB == 256 * d * CBLK_SIZE && 2 * (d * MIB) == 512 * d * CBLK_SIZE
    ensures (512 * d * CBLK_SIZE) / CBLK_SIZE == 512 * d
  {
    assert d * MIB == (256 * d) * CBLK_SIZE;
    WholeUnits(256 * d, CBLK_SIZE);
    WholeUnits(512 * d, CBLK_SIZE);
  }

  /** Every configuration the daemon starts with gives addressable grains; without a codec the heap
      holds at least as many pages as the device has blocks. */
  lemma ConfigureFits(mb: nat, diskMb: Option<nat>, codec: bool, shift: nat)
    requires 14 <= shift <= 20 && Configure(mb, diskMb, codec, shift).Some?
    ensures var g := Configure(mb, diskMb, codec, shift).value;
            && 0 < g.extents && 0 < g.blocks && Mul(g.extents, ExtGrains(g.words)) < GRAIN_LIMIT
            && (!codec ==> g.blocks <= Mul(g.extents, g.words))
  {
    var g := Configure(mb, diskMb, codec, shift).value;
    ConfigureSizes(mb, diskMb, codec, shift);
    hide Configure;
    MulIsProduct(g.extents, g.words);
    MulScale(g.extents, g.words);
  }

  lemma WholeExtents(mb: nat, shift: nat)
    requires 14 <= shift <= 20
    ensures (256 * mb * CBLK_SIZE) / (BitmapWords(shift) * CBLK_SIZE) * BitmapWords(shift) == 256 * mb
  {
    var x := 256 * mb * CBLK_SIZE;
    if shift == 14 { assert x / (4 * CBLK_SIZE) == 64 * mb; }
    else if shift == 15 { assert x / (8 * CBLK_SIZE) == 32 * mb; }
    else if shift == 16 { assert x / (16 * CBLK_SIZE) == 16 * mb; }
    else if shift == 17 { assert x / (32 * CBLK_SIZE) == 8 * mb; }
    else if shift == 18 { assert x / (64 * CBLK_SIZE) == 4 * mb; }
    else if shift == 19 { assert x / (128 * CBLK_SIZE) == 2 * mb; }
    else { assert x / (256 * CBLK_SIZE) == mb; }
  }
}
