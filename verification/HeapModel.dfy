/** The slab allocator on values: fixed extents handed to one of 64 size classes, a bitmap per
    extent, and intrusive lists of free and partial extents. The imperative allocator is proved
    equal to these functions; what it guarantees is proved here. */
module HeapModel {
  import opened Blocks
  import opened Bitmap
  import opened ExtentLists
  import opened Grains
  import opened Sums

  /** The tables and the two counters of the allocator. `chain` and `table` are proof bookkeeping: the list each extent
      is on, and the outstanding grains. */
  datatype Heap = Heap(words: nat, ext: seq<Extent>, bm: seq<seq<bool>>, heads: seq<nat>, chain: Chain, table: map<nat,
      Spot>,
                       used: int, bytes: int)

  ghost predicate Sized(h: Heap) {
    && 4 <= h.words <= 256
    && 0 < |h.ext| && Mul(|h.ext|, ExtGrains(h.words)) < GRAIN_LIMIT
    && |h.bm| == |h.chain.home| == |h.chain.rank| == |h.ext| && |h.heads| == NCLASS + 1
  }

  /** The list an extent belongs on between calls: free, its class when partial, none when full. */
  function Home(e: Extent): nat {
    if !e.used then FREE else if e.nfree > 0 then e.cls else NOWHERE
  }

  function UsedBit(e: Extent): int { if e.used then 1 else 0 }

  /** Slots handed out from an extent. */
  function TakenCount(e: Extent): (c: int)
    ensures c >= 0
  {
    if e.used && e.nfree <= e.nslots then e.nslots - e.nfree else 0
  }

  function TakenBytes(e: Extent): int { Mul(TakenCount(e), ALLOC_GRAIN * (e.cls + 1)) }

  /** Room for class `cls` exists: an uncommitted extent, or a clear bit in a class big enough. */
  ghost predicate HasRoom(ext: seq<Extent>, bm: seq<seq<bool>>, cls: nat) {
    |ext| == |bm| && exists i :: 0 <= i < |ext| && RoomIn(ext[i], bm[i], cls)
  }

  ghost predicate RoomIn(e: Extent, row: seq<bool>, cls: nat) {
    !e.used || (e.cls >= cls && exists k :: 0 <= k < e.nslots && k < |row| && !row[k])
  }

  /** For a committed extent, "some usable slot is clear" is what `nfree > 0` says. */
  lemma FreeCountMeansClear(words: nat, e: Extent, row: seq<bool>)
    requires ExtentOk(words, e, row) && e.used
    ensures e.nfree > 0 <==> exists k :: 0 <= k < e.nslots && k < |row| && !row[k]
    ensures e.nfree <= e.nslots
    ensures e.nfree == e.nslots <==> forall k :: 0 <= k < e.nslots ==> !row[k]
  {
    ClearBound(row, e.nslots);
    if e.nfree > 0 {
      ClearWitness(row);
    } else if exists k :: 0 <= k < e.nslots && !row[k] {
      var k :| 0 <= k < e.nslots && !row[k];
      ClearAfterSet(row, k);
    }
  }

  /** Every extent but `except` is on the list its body calls for. */
  ghost predicate Homed(ext: seq<Extent>, c: Chain, except: nat) {
    |c.home| == |ext| && forall i :: 0 <= i < |ext| && i != except ==> c.home[i] == Home(ext[i])
  }

  /** No committed extent but `spare` is wholly empty. */
  ghost predicate NoneEmpty(ext: seq<Extent>, spare: nat) {
    forall i :: 0 <= i < |ext| && i != spare && ext[i].used ==> ext[i].nfree < ext[i].nslots
  }

  lemma Rehome(ext: seq<Extent>, ext': seq<Extent>, c: Chain, c': Chain, ei: nat, spare: nat)
    requires SameBodies(ext, ext') && ei < |ext| && Homed(ext, c, ei) && c'.home == c.home[ei := Home(ext[ei])]
    ensures Homed(ext', c', EXT_NONE)
    ensures NoneEmpty(ext, spare) ==> NoneEmpty(ext', spare)
  {
    assert forall i :: 0 <= i < |ext| ==> SameBody(ext[i], ext'[i]);
  }

  ghost predicate SameBodies(ext: seq<Extent>, ext': seq<Extent>) {
    |ext| == |ext'| && forall i :: 0 <= i < |ext| ==> SameBody(ext[i], ext'[i])
  }

  /** Relinking extents moves neither slots nor totals. */
  lemma BodyFrame(words: nat, ext: seq<Extent>, ext': seq<Extent>, bm: seq<seq<bool>>, table: map<nat, Spot>)
    requires SameBodies(ext, ext') && ExtentsOk(words, ext, bm) && Tracks(words, ext, bm, table)
    ensures ExtentsOk(words, ext', bm) && Tracks(words, ext', bm, table)
    ensures SumBy(ext', UsedBit) == SumBy(ext, UsedBit) && SumBy(ext', TakenBytes) == SumBy(ext, TakenBytes)
  {
    SumSame(ext, ext', UsedBit);
    SumSame(ext, ext', TakenBytes);
    forall i | 0 <= i < |ext'|
      ensures ExtentOk(words, ext'[i], bm[i])
    {
      assert ExtentOk(words, ext[i], bm[i]);
    }
    assert forall s: Spot :: Taken(ext, bm, s) <==> Taken(ext', bm, s);
    assert forall s: Spot :: s.ei < |ext| ==> SpotGrain(words, ext, s) == SpotGrain(words, ext', s);
  }

  /** Well-formed lists, bitmaps and slot table; which list an extent is on is left open. */
  ghost predicate Core(h: Heap) {
    && Sized(h)
    && Linked(h.ext, h.heads, h.chain)
    && ExtentsOk(h.words, h.ext, h.bm)
    && Tracks(h.words, h.ext, h.bm, h.table)
  }

  /** Everything the allocator keeps. `spare` is the one extent allowed to be committed yet empty. */
  ghost predicate Inv(h: Heap, spare: nat) {
    && Core(h)
    && Homed(h.ext, h.chain, EXT_NONE)
    && NoneEmpty(h.ext, spare)
  }

  ghost predicate Sound(h: Heap) { Inv(h, EXT_NONE) }

  /** g_extents_used and g_slot_bytes equal their recomputation from the tables. */
  ghost predicate Counted(h: Heap) { h.used == UsedTotal(h) && h.bytes == BytesTotal(h) }

  ghost predicate Good(h: Heap) { Sound(h) && Counted(h) }

  /** The allocator as its callers see it: outstanding grains and their sizes. */
  ghost function Outstanding(h: Heap): Slots
    requires Sound(h)
  {
    SlotsOf(h.ext, h.table)
  }

  ghost function UsedTotal(h: Heap): int { SumBy(h.ext, UsedBit) }
  ghost function BytesTotal(h: Heap): int { SumBy(h.ext, TakenBytes) }

  function HeapBytes(h: Heap): nat { ALLOC_GRAIN * Mul(|h.ext|, ExtGrains(h.words)) }

  // ------------------------------------------------------------ operations

  ghost function Pushed(h: Heap, l: nat, e: nat): (r: Heap)
    requires Sized(h) && l <= NCLASS && e < |h.ext|
    ensures Sized(r)
  {
    h.(ext := PushNode(h.ext, h.heads[l], e), heads := h.heads[l := e], chain := PushChain(h.chain, l, e))
  }

  ghost function Removed(h: Heap, l: nat, e: nat): (r: Heap)
    requires Sized(h) && l <= NCLASS && e < |h.ext|
    ensures Sized(r)
  {
    h.(ext := RemoveNode(h.ext, e), heads := h.heads[l := RemoveHead(h.ext, h.heads[l], e)],
      chain := RemoveChain(h.chain, e))
  }

  function Fresh(words: nat, e: Extent, cls: nat): Extent {
    var k := NSlots(words, cls);
    e.(cls := cls, used := true, nslots := k, nfree := k, hint := 0)
  }

  /** The extent given to class `cls` as `ext_init` leaves it. */
  ghost function Inited(h: Heap, ei: nat, cls: nat): (r: Heap)
    requires Sized(h) && ei < |h.ext|
    ensures Sized(r)
  {
    h.(ext := h.ext[ei := Fresh(h.words, h.ext[ei], cls)], bm := h.bm[ei := FreshRow(h.words, NSlots(h.words, cls))])
  }

  /** The first free extent moved to class `cls`, committed but still empty. */
  ghost function Committed(h: Heap, cls: nat): (r: Heap)
    requires Sized(h) && cls < NCLASS && h.heads[FREE] < |h.ext|
    ensures Sized(r)
  {
    var ei := h.heads[FREE];
    Pushed(Inited(Removed(h, FREE, ei), ei, cls), cls, ei)
  }

  /** Bit k of extent ei claimed; a full extent leaves its list. */
  ghost function Took(h: Heap, ei: nat, k: nat): (r: Heap)
    requires Sized(h) && ei < |h.ext| && k < |h.bm[ei]| && h.ext[ei].nfree > 0 && h.ext[ei].cls < NCLASS
    ensures Sized(r)
  {
    var h1 := Marked(h, ei, k);
    if h1.ext[ei].nfree == 0 then Removed(h1, h.ext[ei].cls, ei) else h1
  }

  ghost function Marked(h: Heap, ei: nat, k: nat): (r: Heap)
    requires Sized(h) && ei < |h.ext| && k < |h.bm[ei]| && h.ext[ei].nfree > 0
    ensures Sized(r)
  {
    h.(ext := h.ext[ei := h.ext[ei].(hint := k / 64, nfree := h.ext[ei].nfree - 1)],
       bm := h.bm[ei := h.bm[ei][k := true]],
       table := h.table[SpotGrain(h.words, h.ext, Spot(ei, k)) := Spot(ei, k)])
  }

  // ------------------------------------------------------ what each one keeps

  lemma RemovedCore(h: Heap, l: nat, e: nat)
    requires Core(h) && l <= NCLASS && e < |h.ext| && h.chain.home[e] == l
    ensures var r := Removed(h, l, e);
            Core(r) && SameBodies(h.ext, r.ext) && UsedTotal(r) == UsedTotal(h) && BytesTotal(r) == BytesTotal(h)
  {
    RemoveLinked(h.ext, h.heads, h.chain, l, e);
    BodyFrame(h.words, h.ext, RemoveNode(h.ext, e), h.bm, h.table);
  }

  lemma PushedCore(h: Heap, l: nat, e: nat)
    requires Core(h) && l <= NCLASS && e < |h.ext| && h.chain.home[e] == NOWHERE
    ensures var r := Pushed(h, l, e);
            Core(r) && SameBodies(h.ext, r.ext) && UsedTotal(r) == UsedTotal(h) && BytesTotal(r) == BytesTotal(h)
  {
    PushLinked(h.ext, h.heads, h.chain, l, e);
    BodyFrame(h.words, h.ext, PushNode(h.ext, h.heads[l], e), h.bm, h.table);
  }

  lemma InitedCore(h: Heap, ei: nat, cls: nat)
    requires Core(h) && cls < NCLASS && ei < |h.ext| && !h.ext[ei].used
    ensures NSlots(h.words, cls) > 0
    ensures var r := Inited(h, ei, cls);
            Core(r) && UsedTotal(r) == UsedTotal(h) + 1 && BytesTotal(r) == BytesTotal(h)
  {
    CommitFacts(h.words, h.ext, h.bm, h.table, ei, cls);
    LinkedFrame(h.ext, h.heads, h.chain, ei, Fresh(h.words, h.ext[ei], cls));
  }

  lemma MarkedCore(h: Heap, ei: nat, k: nat)
    requires Core(h) && ei < |h.ext| && h.ext[ei].used && h.ext[ei].nfree > 0 && IsLowestClear(h.bm[ei], k)
    ensures k < h.ext[ei].nslots && h.ext[ei].nfree <= h.ext[ei].nslots && h.ext[ei].cls < NCLASS
    ensures var r, g := Marked(h, ei, k), SpotGrain(h.words, h.ext, Spot(ei, k));
            && Core(r) && g < GRAIN_LIMIT && g !in h.table
            && UsedTotal(r) == UsedTotal(h) && BytesTotal(r) == BytesTotal(h) + ALLOC_GRAIN * (h.ext[ei].cls + 1)
  {
    assert ExtentOk(h.words, h.ext[ei], h.bm[ei]);
    hide Linked, Tracks, ExtentsOk, SumBy, Mul, Clear, WordFull;
    FreeCountMeansClear(h.words, h.ext[ei], h.bm[ei]);
    LowestWords(h.bm[ei], h.words, k);
    TakeFacts(h.words, h.ext, h.bm, h.table, ei, k / 64, k % 64);
    GrainBound(h.words, ei, k, h.ext[ei].cls, |h.ext|);
    LinkedFrame(h.ext, h.heads, h.chain, ei, h.ext[ei].(hint := k / 64, nfree := h.ext[ei].nfree - 1));
  }

  /** Off the free list and initialised, not yet on its class list. */
  lemma DetachedCore(h: Heap, cls: nat)
    requires Sound(h) && cls < NCLASS && h.heads[FREE] != EXT_NONE
    ensures h.heads[FREE] < |h.ext| && !h.ext[h.heads[FREE]].used && NSlots(h.words, cls) > 0
    ensures h.chain.home[h.heads[FREE]] == FREE
    ensures var ei := h.heads[FREE];
            var r := Inited(Removed(h, FREE, ei), ei, cls);
            && Core(r) && r.chain.home == h.chain.home[ei := NOWHERE]
            && SameBodies(h.ext[ei := Fresh(h.words, h.ext[ei], cls)], r.ext)
            && UsedTotal(r) == UsedTotal(h) + 1 && BytesTotal(r) == BytesTotal(h)
  {
    var ei := h.heads[FREE];
    assert HeadOk(h.ext, h.heads, h.chain, FREE);
    RemovedCore(h, FREE, ei);
    InitedCore(Removed(h, FREE, ei), ei, cls);
  }

  lemma CommittedOk(h: Heap, cls: nat)
    requires Sound(h) && cls < NCLASS && h.heads[FREE] != EXT_NONE
    ensures h.heads[FREE] < |h.ext| && !h.ext[h.heads[FREE]].used && h.chain.home[h.heads[FREE]] == FREE
    ensures var ei, r := h.heads[FREE], Committed(h, cls);
            && Inv(r, ei) && UsedTotal(r) == UsedTotal(h) + 1 && BytesTotal(r) == BytesTotal(h)
            && NSlots(h.words, cls) > 0 && SameBodies(h.ext[ei := Fresh(h.words, h.ext[ei], cls)], r.ext)
  {
    var ei := h.heads[FREE];
    DetachedCore(h, cls);
    var h2 := Inited(Removed(h, FREE, ei), ei, cls);
    var h3 := Pushed(h2, cls, ei);
    PushedCore(h2, cls, ei);
    assert h3.chain.home == h.chain.home[ei := cls];
    Rehome(h2.ext, h3.ext, h.chain, h3.chain, ei, ei);
  }

  lemma TookOk(h: Heap, ei: nat, k: nat)
    requires Inv(h, ei) && ei < |h.ext| && h.ext[ei].used && h.ext[ei].nfree > 0 && IsLowestClear(h.bm[ei], k)
    ensures k < h.ext[ei].nslots && h.ext[ei].cls < NCLASS
    ensures var r, g := Took(h, ei, k), SpotGrain(h.words, h.ext, Spot(ei, k));
            && Sound(r) && g < GRAIN_LIMIT && g !in h.table
            && UsedTotal(r) == UsedTotal(h) && BytesTotal(r) == BytesTotal(h) + ALLOC_GRAIN * (h.ext[ei].cls + 1)
            && SameBodies(Marked(h, ei, k).ext, r.ext)
  {
    MarkedCore(h, ei, k);
    var h1 := Marked(h, ei, k);
    assert NoneEmpty(h1.ext, EXT_NONE);
    var r := Took(h, ei, k);
    if h1.ext[ei].nfree == 0 {
      RemovedCore(h1, h.ext[ei].cls, ei);
    }
    Rehome(h1.ext, r.ext, h.chain, r.chain, ei, EXT_NONE);
  }

  lemma LowestWords(row: seq<bool>, words: nat, k: nat)
    requires |row| == 64 * words && IsLowestClear(row, k)
    ensures k / 64 < words && forall v :: 0 <= v < k / 64 ==> WordFull(row, v)
  {
  }

  /** No partial extent has its class in [lo, hi). */
  ghost predicate NoPartial(ext: seq<Extent>, lo: nat, hi: nat) {
    forall i :: 0 <= i < |ext| && ext[i].used && ext[i].nfree > 0 ==> !(lo <= ext[i].cls < hi)
  }

  /** Class `got` is the right one to serve a request of class `want` from: nothing tighter has a
      free slot, and borrowing happens only when no extent is left uncommitted. */
  ghost predicate Tightest(ext: seq<Extent>, want: nat, got: nat) {
    && want <= got && NoPartial(ext, want, got)
    && (got != want ==> forall i :: 0 <= i < |ext| ==> ext[i].used)
  }

  /** What a list head says about the extents. */
  lemma HeadMeaning(ext: seq<Extent>, heads: seq<nat>, c: Chain, l: nat)
    requires Linked(ext, heads, c) && Homed(ext, c, EXT_NONE) && l <= NCLASS
    ensures heads[l] == EXT_NONE <==> forall i :: 0 <= i < |ext| ==> Home(ext[i]) != l
    ensures heads[l] != EXT_NONE ==> heads[l] < |ext| && Home(ext[heads[l]]) == l
  {
    EmptyList(ext, heads, c, l);
    assert HeadOk(ext, heads, c, l);
  }

  /** The list heads decide whether class `cls` can be served. */
  lemma ListsTellRoom(words: nat, ext: seq<Extent>, heads: seq<nat>, bm: seq<seq<bool>>, c: Chain, cls: nat)
    requires ExtentsOk(words, ext, bm) && Linked(ext, heads, c) && Homed(ext, c, EXT_NONE) && cls < NCLASS
    ensures HasRoom(ext, bm, cls) <==> heads[FREE] != EXT_NONE || exists d :: cls <= d < NCLASS && heads[d] != EXT_NONE
    ensures heads[FREE] == EXT_NONE <==> forall i :: 0 <= i < |ext| ==> ext[i].used
    ensures forall d :: 0 <= d < NCLASS && heads[d] == EXT_NONE ==> NoPartial(ext, d, d + 1)
    ensures forall d :: 0 <= d < NCLASS && heads[d] != EXT_NONE ==>
              heads[d] < |ext| && ext[heads[d]].used && ext[heads[d]].nfree > 0 && ext[heads[d]].cls == d
  {
    forall l | 0 <= l <= NCLASS
      ensures heads[l] == EXT_NONE <==> forall i :: 0 <= i < |ext| ==> Home(ext[i]) != l
      ensures heads[l] != EXT_NONE ==> heads[l] < |ext| && Home(ext[heads[l]]) == l
    {
      HeadMeaning(ext, heads, c, l);
    }
    forall i | 0 <= i < |ext|
      ensures RoomIn(ext[i], bm[i], cls) <==> Home(ext[i]) == FREE || (cls <= Home(ext[i]) < NCLASS)
    {
      assert ExtentOk(words, ext[i], bm[i]);
      if ext[i].used { FreeCountMeansClear(words, ext[i], bm[i]); }
    }
    if HasRoom(ext, bm, cls) {
      var i :| 0 <= i < |ext| && RoomIn(ext[i], bm[i], cls);
      assert heads[Home(ext[i])] != EXT_NONE;
    }
    if heads[FREE] != EXT_NONE {
      assert RoomIn(ext[heads[FREE]], bm[heads[FREE]], cls);
    } else if d :| cls <= d < NCLASS && heads[d] != EXT_NONE {
      assert RoomIn(ext[heads[d]], bm[heads[d]], cls);
    }
  }

  /** Adding one tracked slot adds one outstanding grain and resizes none. */
  lemma SlotsGrow(ext: seq<Extent>, ext': seq<Extent>, bm: seq<seq<bool>>, table: map<nat, Spot>, words: nat, g: nat,
      s: Spot)
    requires |ext| == |ext'| && Tracks(words, ext, bm, table) && g !in table && s.ei < |ext|
    requires forall i :: 0 <= i < |ext| && ext[i].used ==> ext'[i].cls == ext[i].cls
    ensures SlotsOf(ext', table[g := s]) == SlotsOf(ext, table)[g := ALLOC_GRAIN * (ext'[s.ei].cls + 1)]
  {
  }

  /** An uncommitted extent turned over to class `cls`. */
  lemma CommitFacts(words: nat, ext: seq<Extent>, bm: seq<seq<bool>>, table: map<nat, Spot>, ei: nat, cls: nat)
    requires ExtentsOk(words, ext, bm) && Tracks(words, ext, bm, table)
    requires 4 <= words <= 256 && cls < NCLASS && ei < |ext| && !ext[ei].used
    ensures NSlots(words, cls) > 0
    ensures var e' := ext[ei].(cls := cls, used := true, nslots := NSlots(words, cls), nfree := NSlots(words, cls),
            hint := 0);
            var ext', bm' := ext[ei := e'], bm[ei := FreshRow(words, NSlots(words, cls))];
            && ExtentsOk(words, ext', bm')
            && Tracks(words, ext', bm', table)
            && SumBy(ext', UsedBit) == SumBy(ext, UsedBit) + 1
            && SumBy(ext', TakenBytes) == SumBy(ext, TakenBytes)
  {
    var k := NSlots(words, cls);
    var e' := ext[ei].(cls := cls, used := true, nslots := k, nfree := k, hint := 0);
    SlotCountBounds(words, cls);
    FreshRowOk(words, k);
    ExtentsUpdate(words, ext, bm, ei, e', FreshRow(words, k));
    RecastTracks(words, ext, bm, table, ei, e', FreshRow(words, k));
    SumUpdate(ext, UsedBit, ei, e');
    SumUpdate(ext, TakenBytes, ei, e');
  }

  lemma SlotCountBounds(words: nat, cls: nat)
    requires 4 <= words <= 256 && cls < NCLASS
    ensures 0 < NSlots(words, cls) <= ExtGrains(words) <= 16384
  {
    QuotFits(ExtGrains(words), cls + 1);
    QuotShrinks(ExtGrains(words), cls + 1);
  }

  lemma ExtentsUpdate(words: nat, ext: seq<Extent>, bm: seq<seq<bool>>, ei: nat, e: Extent, row: seq<bool>)
    requires ExtentsOk(words, ext, bm) && ei < |ext| && ExtentOk(words, e, row)
    ensures ExtentsOk(words, ext[ei := e], bm[ei := row])
  {
    var ext', bm' := ext[ei := e], bm[ei := row];
    forall i | 0 <= i < |ext'|
      ensures ExtentOk(words, ext'[i], bm'[i])
    {
      assert ExtentOk(words, ext[i], bm[i]);
    }
  }

  /** Claiming bit 64w+b of extent ei, over the whole table. */
  lemma TakeFacts(words: nat, ext: seq<Extent>, bm: seq<seq<bool>>, table: map<nat, Spot>, ei: nat, w: nat, b: nat)
    requires ExtentsOk(words, ext, bm) && Tracks(words, ext, bm, table)
    requires ei < |ext| && ext[ei].used && w < words && b < 64 && |bm[ei]| == 64 * words
    requires forall v :: 0 <= v < w ==> WordFull(bm[ei], v)
    requires !bm[ei][64 * w + b]
    ensures 64 * w + b < ext[ei].nslots && ext[ei].nfree > 0
    ensures var e' := ext[ei].(hint := w, nfree := ext[ei].nfree - 1);
            var g := SpotGrain(words, ext, Spot(ei, 64 * w + b));
            var ext', bm' := ext[ei := e'], bm[ei := bm[ei][64 * w + b := true]];
            && g !in table
            && ExtentsOk(words, ext', bm')
            && Tracks(words, ext', bm', table[g := Spot(ei, 64 * w + b)])
            && SumBy(ext', UsedBit) == SumBy(ext, UsedBit)
            && SumBy(ext', TakenBytes) == SumBy(ext, TakenBytes) + ALLOC_GRAIN * (ext[ei].cls + 1)
  {
    assert ExtentOk(words, ext[ei], bm[ei]);
    TakeKeepsRow(bm[ei], words, ext[ei].nslots, ext[ei].nfree, w, b);
    FreeCountMeansClear(words, ext[ei], bm[ei]);
    var e' := ext[ei].(hint := w, nfree := ext[ei].nfree - 1);
    ExtentsUpdate(words, ext, bm, ei, e', bm[ei][64 * w + b := true]);
    TakeTracks(words, ext, bm, table, e', Spot(ei, 64 * w + b));
    TakeTotals(ext, ei, e');
  }

  lemma TakeTotals(ext: seq<Extent>, ei: nat, e: Extent)
    requires ei < |ext| && ext[ei].used && 0 < ext[ei].nfree <= ext[ei].nslots
    requires e.used && e.cls == ext[ei].cls && e.nslots == ext[ei].nslots && e.nfree == ext[ei].nfree - 1
    ensures SumBy(ext[ei := e], UsedBit) == SumBy(ext, UsedBit)
    ensures SumBy(ext[ei := e], TakenBytes) == SumBy(ext, TakenBytes) + ALLOC_GRAIN * (e.cls + 1)
  {
    SumUpdate(ext, UsedBit, ei, e);
    SumUpdate(ext, TakenBytes, ei, e);
  }

  // -------------------------------------------------------------- allocation

  /** The first non-empty class list from `c` up. */
  ghost function FirstHead(heads: seq<nat>, c: nat): (ei: nat)
    requires |heads| == NCLASS + 1 && c <= NCLASS
    ensures ei == EXT_NONE ==> forall d :: c <= d < NCLASS ==> heads[d] == EXT_NONE
    ensures ei != EXT_NONE ==>
              exists d :: c <= d < NCLASS && ei == heads[d] && forall f :: c <= f < d ==> heads[f] == EXT_NONE
    decreases NCLASS - c
  {
    if c == NCLASS then EXT_NONE else if heads[c] != EXT_NONE then heads[c] else FirstHead(heads, c + 1)
  }

  datatype AllocResult = AllocResult(heap: Heap, grain: nat, size: nat)

  ghost function TakeLowest(h: Heap, ei: nat): AllocResult
    requires Inv(h, ei) && ei < |h.ext| && h.ext[ei].used && h.ext[ei].nfree > 0
  {
    HasLowest(h, ei);
    var k := Lowest(h.bm[ei]);
    AllocResult(Took(h, ei, k), SpotGrain(h.words, h.ext, Spot(ei, k)), ALLOC_GRAIN * (h.ext[ei].cls + 1))
  }

  lemma HasLowest(h: Heap, ei: nat)
    requires Core(h) && ei < |h.ext| && h.ext[ei].used && h.ext[ei].nfree > 0
    ensures IsLowestClear(h.bm[ei], Lowest(h.bm[ei])) && h.ext[ei].cls < NCLASS
  {
    assert ExtentOk(h.words, h.ext[ei], h.bm[ei]);
    ClearWitness(h.bm[ei]);
  }

  /** The extent that serves class `cls`: its own partial list, else a fresh extent, else the
      smallest larger class with a partial extent. */
  ghost function Chosen(h: Heap, cls: nat): nat
    requires Sized(h) && cls < NCLASS
  {
    if h.heads[cls] == EXT_NONE && h.heads[FREE] != EXT_NONE then h.heads[FREE] else FirstHead(h.heads, cls)
  }

  ghost function ChosenHeap(h: Heap, cls: nat): Heap
    requires Sound(h) && cls < NCLASS
  {
    if h.heads[cls] == EXT_NONE
      && h.heads[FREE] != EXT_NONE then CommittedOk(h, cls); Committed(h, cls).(used := h.used + 1)
    else h
  }

  lemma ChosenOk(h: Heap, cls: nat)
    requires Sound(h) && cls < NCLASS && Chosen(h, cls) != EXT_NONE
    ensures var ei, r := Chosen(h, cls), ChosenHeap(h, cls);
            && Inv(r, ei) && ei < |r.ext| == |h.ext| && r.words == h.words
            && r.ext[ei].used && r.ext[ei].nfree > 0 && cls <= r.ext[ei].cls < NCLASS
            && r.used - UsedTotal(r) == h.used - UsedTotal(h) && BytesTotal(r) == BytesTotal(h)
            && SlotsOf(r.ext, r.table) == SlotsOf(h.ext, h.table)
  {
    ListsTellRoom(h.words, h.ext, h.heads, h.bm, h.chain, cls);
    if h.heads[cls] == EXT_NONE && h.heads[FREE] != EXT_NONE {
      CommittedOk(h, cls);
      var ei, r := h.heads[FREE], Committed(h, cls);
      assert SameBody(h.ext[ei := Fresh(h.words, h.ext[ei], cls)][ei], r.ext[ei]);
      CommitKeepsSlots(h.words, h.ext, r.ext, h.bm, h.table, ei, Fresh(h.words, h.ext[ei], cls));
    }
  }

  /** `slot_alloc`: choose an extent, take its lowest free slot. */
  ghost function Alloc(h: Heap, nbytes: nat): AllocResult
    requires Sound(h) && 0 < nbytes <= CBLK_SIZE
  {
    var cls := (nbytes - 1) / ALLOC_GRAIN;
    var ei := Chosen(h, cls);
    if ei == EXT_NONE then AllocResult(h, SLOT_NONE, 0)
    else
      ChosenOk(h, cls);
      var r := TakeLowest(ChosenHeap(h, cls), ei);
      r.(heap := r.heap.(bytes := h.bytes + r.size))
  }

  /** The outcome of taking a slot from extent `ei` of `h`, as callers see it. */
  lemma TakeLowestOk(h: Heap, ei: nat)
    requires Inv(h, ei) && ei < |h.ext| && h.ext[ei].used && h.ext[ei].nfree > 0
    ensures var r := TakeLowest(h, ei);
            && Sound(r.heap) && r.heap.words == h.words && |r.heap.ext| == |h.ext|
            && r.grain < GRAIN_LIMIT && r.grain !in h.table
            && SlotsOf(r.heap.ext, r.heap.table) == SlotsOf(h.ext, h.table)[r.grain := r.size]
            && UsedTotal(r.heap) == UsedTotal(h) && BytesTotal(r.heap) == BytesTotal(h) + r.size
  {
    hide Linked, ExtentsOk, Homed, NoneEmpty, SumBy, Mul;
    HasLowest(h, ei);
    var k := Lowest(h.bm[ei]);
    TookOk(h, ei, k);
    MarkKeepsClasses(h, ei, k, Took(h, ei, k).ext);
    SlotsGrow(h.ext, Took(h, ei, k).ext, h.bm, h.table, h.words, TakeLowest(h, ei).grain, Spot(ei, k));
  }

  lemma MarkKeepsClasses(h: Heap, ei: nat, k: nat, ext': seq<Extent>)
    requires Sized(h) && ei < |h.ext| && k < |h.bm[ei]| && h.ext[ei].nfree > 0
    requires SameBodies(Marked(h, ei, k).ext, ext')
    ensures |ext'| == |h.ext| && forall i :: 0 <= i < |h.ext| ==> ext'[i].cls == h.ext[i].cls
  {
    forall i | 0 <= i < |h.ext|
      ensures ext'[i].cls == h.ext[i].cls
    {
      assert SameBody(Marked(h, ei, k).ext[i], ext'[i]);
    }
  }

  /** Allocation fails exactly when every extent is committed and every extent of the requested
      class or larger is full; a failure changes nothing. */
  lemma AllocFailsIffNoRoom(h: Heap, nbytes: nat)
    requires Sound(h) && 0 < nbytes <= CBLK_SIZE
    ensures var r := Alloc(h, nbytes);
            && (r.grain == SLOT_NONE <==> !HasRoom(h.ext, h.bm, (nbytes - 1) / ALLOC_GRAIN))
            && (r.grain == SLOT_NONE ==> r.heap == h && r.size == 0)
  {
    var cls := (nbytes - 1) / ALLOC_GRAIN;
    ListsTellRoom(h.words, h.ext, h.heads, h.bm, h.chain, cls);
    var ei := Chosen(h, cls);
    if ei != EXT_NONE {
      ChosenOk(h, cls);
      TakeLowestOk(ChosenHeap(h, cls), ei);
    }
  }

  /** A successful allocation adds exactly one slot, big enough, disjoint from all others, and
      leaves the allocator well formed with its totals moved by that slot. */
  lemma AllocAddsOneSlot(h: Heap, nbytes: nat)
    requires Good(h) && 0 < nbytes <= CBLK_SIZE && Alloc(h, nbytes).grain != SLOT_NONE
    ensures var r := Alloc(h, nbytes);
            && Good(r.heap) && r.heap.words == h.words && |r.heap.ext| == |h.ext|
            && r.grain < GRAIN_LIMIT && r.grain !in Outstanding(h)
            && nbytes <= r.size <= CBLK_SIZE
            && Outstanding(r.heap) == Outstanding(h)[r.grain := r.size]
            && r.heap.bytes == h.bytes + r.size
  {
    var cls := (nbytes - 1) / ALLOC_GRAIN;
    ChosenOk(h, cls);
    TakeLowestOk(ChosenHeap(h, cls), Chosen(h, cls));
  }

  /** What `slot_alloc` promises its callers: failure exactly when there is no room, and then
      nothing changes; otherwise one new slot, big enough, and every other slot as it was. */
  ghost predicate AllocPromise(h: Heap, nbytes: nat, r: AllocResult)
    requires Good(h) && 0 < nbytes <= CBLK_SIZE
  {
    && Good(r.heap) && r.heap.words == h.words && |r.heap.ext| == |h.ext|
    && (r.grain == SLOT_NONE <==> !HasRoom(h.ext, h.bm, (nbytes - 1) / ALLOC_GRAIN))
    && (r.grain == SLOT_NONE ==> r.heap == h && r.size == 0)
    && (r.grain != SLOT_NONE ==>
          && r.grain < GRAIN_LIMIT && r.grain !in Outstanding(h) && nbytes <= r.size <= CBLK_SIZE
          && Outstanding(r.heap) == Outstanding(h)[r.grain := r.size])
    && r.heap.bytes == h.bytes + r.size
  }

  lemma AllocOutcome(h: Heap, nbytes: nat)
    requires Good(h) && 0 < nbytes <= CBLK_SIZE
    ensures AllocPromise(h, nbytes, Alloc(h, nbytes))
  {
    AllocFailsIffNoRoom(h, nbytes);
    if Alloc(h, nbytes).grain != SLOT_NONE {
      AllocAddsOneSlot(h, nbytes);
    }
  }

  /** Committing an empty extent leaves every outstanding slot where it was. */
  lemma CommitKeepsSlots(words: nat, ext: seq<Extent>, ext': seq<Extent>, bm: seq<seq<bool>>, table: map<nat, Spot>,
      ei: nat, e: Extent)
    requires Tracks(words, ext, bm, table) && ei < |ext| && !ext[ei].used && SameBodies(ext[ei := e], ext')
    ensures SlotsOf(ext', table) == SlotsOf(ext, table)
  {
    forall g | g in table
      ensures ext'[table[g].ei].cls == ext[table[g].ei].cls
    {
      assert Taken(ext, bm, table[g]);
      assert SameBody(ext[ei := e][table[g].ei], ext'[table[g].ei]);
    }
  }

  /** All outstanding slots lie in the heap and are pairwise disjoint, whatever their classes. */
  lemma OutstandingDisjoint(h: Heap)
    requires Sound(h)
    ensures SlotsOk(Outstanding(h), HeapBytes(h))
  {
    SlotsDisjoint(h.words, h.ext, h.bm, h.table);
  }

  /** Placement: the tightest class with a free slot, a fresh extent only when the class has no
      partial one, borrowing only when nothing is left to commit, and the lowest slot of the extent. */
  lemma AllocPlacement(h: Heap, nbytes: nat)
    requires Sound(h) && 0 < nbytes <= CBLK_SIZE && Alloc(h, nbytes).grain != SLOT_NONE
    ensures var r, cls := Alloc(h, nbytes), (nbytes - 1) / ALLOC_GRAIN;
            && r.grain in r.heap.table
            && var s := r.heap.table[r.grain];
               && s.ei < |h.ext| == |r.heap.ext|
               && r.size == ALLOC_GRAIN * (r.heap.ext[s.ei].cls + 1)
               && Tightest(h.ext, cls, r.heap.ext[s.ei].cls)
               && (h.ext[s.ei].used ==> IsLowestClear(h.bm[s.ei], s.k) && r.heap.ext[s.ei].cls == h.ext[s.ei].cls)
               && (!h.ext[s.ei].used ==> s.k == 0 && NoPartial(h.ext, cls, cls + 1))
  {
    var cls := (nbytes - 1) / ALLOC_GRAIN;
    AllocFailsIffNoRoom(h, nbytes);
    ChosenOk(h, cls);
    ChosenPlacement(h, cls);
    TakenSpot(ChosenHeap(h, cls), Chosen(h, cls));
  }

  lemma ChosenPlacement(h: Heap, cls: nat)
    requires Sound(h) && cls < NCLASS && Chosen(h, cls) != EXT_NONE
    ensures var ei, r := Chosen(h, cls), ChosenHeap(h, cls);
            && ei < |h.ext| == |r.ext| == |r.bm| && Tightest(h.ext, cls, r.ext[ei].cls)
            && (h.ext[ei].used ==> r == h)
            && (!h.ext[ei].used ==> |r.bm[ei]| > 0 && !r.bm[ei][0] && NoPartial(h.ext, cls, cls + 1))
  {
    ListsTellRoom(h.words, h.ext, h.heads, h.bm, h.chain, cls);
    var ei := Chosen(h, cls);
    if h.heads[cls] == EXT_NONE && h.heads[FREE] != EXT_NONE {
      CommittedOk(h, cls);
      assert SameBody(h.ext[ei := Fresh(h.words, h.ext[ei], cls)][ei], Committed(h, cls).ext[ei]);
    } else {
      TightestByHeads(h, cls, h.ext[ei].cls);
    }
  }

  lemma TakenSpot(h: Heap, ei: nat)
    requires Inv(h, ei) && ei < |h.ext| && h.ext[ei].used && h.ext[ei].nfree > 0
    ensures var r := TakeLowest(h, ei);
            && r.grain in r.heap.table && r.heap.table[r.grain] == Spot(ei, Lowest(h.bm[ei]))
            && |r.heap.ext| == |h.ext| && r.heap.ext[ei].cls == h.ext[ei].cls
            && IsLowestClear(h.bm[ei], Lowest(h.bm[ei]))
  {
    HasLowest(h, ei);
    TookOk(h, ei, Lowest(h.bm[ei]));
    MarkKeepsClasses(h, ei, Lowest(h.bm[ei]), TakeLowest(h, ei).heap.ext);
  }

  lemma TightestByHeads(h: Heap, want: nat, got: nat)
    requires Sound(h) && want <= got < NCLASS && (got == want || h.heads[FREE] == EXT_NONE)
    requires forall d :: want <= d < got ==> h.heads[d] == EXT_NONE
    ensures Tightest(h.ext, want, got)
  {
    HeadMeaning(h.ext, h.heads, h.chain, FREE);
    forall i | 0 <= i < |h.ext| && h.ext[i].used && h.ext[i].nfree > 0
      ensures !(want <= h.ext[i].cls < got)
    {
      assert ExtentOk(h.words, h.ext[i], h.bm[i]);
      HeadMeaning(h.ext, h.heads, h.chain, h.ext[i].cls);
      assert Home(h.ext[i]) == h.ext[i].cls;
    }
    if got != want {
      forall i | 0 <= i < |h.ext|
        ensures h.ext[i].used
      {
        assert Home(h.ext[i]) != FREE;
      }
    }
  }

  // ------------------------------------------------------------------- free

  function PulledHint(hint: nat, k: nat): nat { if k / 64 < hint then k / 64 else hint }

  /** The slot behind `g` given back; the extent stays on whatever list it was. */
  ghost function Released(h: Heap, g: nat): (r: Heap)
    requires Core(h) && g in h.table
    ensures Sized(r)
  {
    var s := h.table[g];
    var e := h.ext[s.ei];
    h.(ext := h.ext[s.ei := e.(nfree := e.nfree + 1, hint := PulledHint(e.hint, s.k))],
       bm := h.bm[s.ei := h.bm[s.ei][s.k := false]],
       table := h.table - {g})
  }

  /** A wholly empty extent goes back to the free list for any class to use. */
  ghost function Recycled(h: Heap, ei: nat): (r: Heap)
    requires Sized(h) && ei < |h.ext| && h.ext[ei].cls < NCLASS
    ensures Sized(r)
  {
    var h1 := Removed(h, h.ext[ei].cls, ei);
    Pushed(h1.(ext := h1.ext[ei := h1.ext[ei].(used := false)]), FREE, ei).(used := h.used - 1)
  }

  /** Back on the class list if it was full. */
  ghost function Relisted(h: Heap, g: nat): (r: Heap)
    requires Core(h) && g in h.table
    ensures Sized(r)
  {
    var ei := h.table[g].ei;
    assert ExtentOk(h.words, h.ext[ei], h.bm[ei]);
    if h.ext[ei].nfree == 0 then Pushed(Released(h, g), h.ext[ei].cls, ei) else Released(h, g)
  }

  /** `slot_free`. */
  ghost function Free(h: Heap, g: nat): (r: Heap)
    requires Core(h) && g in h.table
    ensures Sized(r)
  {
    var ei := h.table[g].ei;
    var h1 := Relisted(h, g);
    assert ExtentOk(h.words, h.ext[ei], h.bm[ei]);
    var h2 := if h1.ext[ei].nfree == h1.ext[ei].nslots then Recycled(h1, ei) else h1;
    h2.(bytes := h.bytes - ALLOC_GRAIN * (h.ext[ei].cls + 1))
  }

  lemma ReleasedCore(h: Heap, g: nat)
    requires Core(h) && g in h.table
    ensures var r := Released(h, g);
            Core(r) && UsedTotal(r) == UsedTotal(h) && BytesTotal(r) == BytesTotal(h) - SlotsOf(h.ext, h.table)[g]
  {
    var s := h.table[g];
    var e := h.ext[s.ei];
    assert Taken(h.ext, h.bm, s) && ExtentOk(h.words, e, h.bm[s.ei]);
    assert h.ext[s.ei := e] == h.ext;
    hide Linked, Tracks, ExtentsOk, SumBy, Mul, Clear, WordFull;
    var e' := e.(nfree := e.nfree + 1, hint := PulledHint(e.hint, s.k));
    FreeCountMeansClear(h.words, e, h.bm[s.ei]);
    ReleaseKeepsRow(h.bm[s.ei], h.words, e.nslots, e.nfree, e.hint, s.k);
    ExtentsUpdate(h.words, h.ext, h.bm, s.ei, e', h.bm[s.ei][s.k := false]);
    ReleaseTracks(h.words, h.ext, h.bm, h.table, e', g);
    LinkedFrame(h.ext, h.heads, h.chain, s.ei, e');
    TakeTotals(h.ext[s.ei := e'], s.ei, e);
    assert h.ext[s.ei := e'][s.ei := e] == h.ext;
  }

  lemma RelistedOk(h: Heap, g: nat)
    requires Sound(h) && g in h.table
    ensures h.table[g].ei < |h.ext|
    ensures g in Outstanding(h) && Outstanding(h)[g] == ALLOC_GRAIN * (h.ext[h.table[g].ei].cls + 1)
    ensures var ei, r := h.table[g].ei, Relisted(h, g);
            && Inv(r, ei) && SameBodies(Released(h, g).ext, r.ext)
            && r.ext[ei].used && r.ext[ei].nslots > 0 && r.ext[ei].cls == h.ext[ei].cls < NCLASS
            && UsedTotal(r) == UsedTotal(h) && BytesTotal(r) == BytesTotal(h) - ALLOC_GRAIN * (h.ext[ei].cls + 1)
  {
    var ei := h.table[g].ei;
    assert Taken(h.ext, h.bm, h.table[g]) && ExtentOk(h.words, h.ext[ei], h.bm[ei]);
    ReleasedCore(h, g);
    var h1, r := Released(h, g), Relisted(h, g);
    if h.ext[ei].nfree == 0 {
      PushedCore(h1, h.ext[ei].cls, ei);
    }
    assert SameBody(h1.ext[ei], r.ext[ei]);
    Rehome(h1.ext, r.ext, h.chain, r.chain, ei, ei);
  }

  lemma RecycledOk(h: Heap, ei: nat)
    requires Inv(h, ei) && ei < |h.ext| && h.ext[ei].used && h.ext[ei].nfree == h.ext[ei].nslots > 0
    ensures h.ext[ei].cls < NCLASS
    ensures var r := Recycled(h, ei);
            && Sound(r) && r.table == h.table
            && SameBodies(h.ext[ei := h.ext[ei].(used := false)], r.ext)
            && UsedTotal(r) == UsedTotal(h) - 1 && BytesTotal(r) == BytesTotal(h)
  {
    assert ExtentOk(h.words, h.ext[ei], h.bm[ei]);
    var h1 := Removed(h, h.ext[ei].cls, ei);
    RemovedCore(h, h.ext[ei].cls, ei);
    var h2 := h1.(ext := h1.ext[ei := h1.ext[ei].(used := false)]);
    GiveUpCore(h1, ei);
    PushedCore(h2, FREE, ei);
    var r := Recycled(h, ei);
    assert r.chain.home == h.chain.home[ei := FREE];
    Rehome(h2.ext, r.ext, h.chain, r.chain, ei, EXT_NONE);
  }

  lemma GiveUpCore(h: Heap, ei: nat)
    requires Core(h) && ei < |h.ext| && h.ext[ei].used && h.ext[ei].nfree == h.ext[ei].nslots
    ensures var r := h.(ext := h.ext[ei := h.ext[ei].(used := false)]);
            Core(r) && UsedTotal(r) == UsedTotal(h) - 1 && BytesTotal(r) == BytesTotal(h)
  {
    var e' := h.ext[ei].(used := false);
    assert ExtentOk(h.words, h.ext[ei], h.bm[ei]);
    FreeCountMeansClear(h.words, h.ext[ei], h.bm[ei]);
    ExtentsUpdate(h.words, h.ext, h.bm, ei, e', h.bm[ei]);
    RecastTracks(h.words, h.ext, h.bm, h.table, ei, e', h.bm[ei]);
    assert h.bm[ei := h.bm[ei]] == h.bm;
    LinkedFrame(h.ext, h.heads, h.chain, ei, e');
    SumUpdate(h.ext, UsedBit, ei, e');
    SumUpdate(h.ext, TakenBytes, ei, e');
  }

  lemma FreeSound(h: Heap, g: nat)
    requires Sound(h) && g in h.table
    ensures h.table[g].ei < |h.ext|
    ensures var r := Free(h, g);
            && Sound(r) && r.table == h.table - {g}
            && UsedTotal(r) - r.used == UsedTotal(h) - h.used
            && BytesTotal(r) == BytesTotal(h) - ALLOC_GRAIN * (h.ext[h.table[g].ei].cls + 1)
  {
    RelistedOk(h, g);
    var ei, h1 := h.table[g].ei, Relisted(h, g);
    if h1.ext[ei].nfree == h1.ext[ei].nslots {
      RecycledOk(h1, ei);
      var r := Recycled(h1, ei);
      hide Linked, Tracks, ExtentsOk, SumBy, Mul, Pushed, Removed, Homed, NoneEmpty;
      assert Free(h, g) == r.(bytes := Free(h, g).bytes);
    } else {
      hide Linked, Tracks, ExtentsOk, SumBy, Mul, Pushed, Removed, Homed;
      assert Free(h, g) == h1.(bytes := Free(h, g).bytes);
      assert NoneEmpty(h1.ext, EXT_NONE);
    }
  }

  /** Freeing removes exactly that slot, resizes none, and keeps the allocator well formed. */
  lemma FreeRemovesOneSlot(h: Heap, g: nat)
    requires Good(h) && g in Outstanding(h)
    ensures var r := Free(h, g);
            && Good(r) && r.words == h.words && |r.ext| == |h.ext|
            && Outstanding(r) == Outstanding(h) - {g}
            && r.bytes == h.bytes - Outstanding(h)[g] && r.used <= h.used
  {
    FreeSound(h, g);
    FreeKeepsClasses(h, g);
    SlotsShrink(h.ext, Free(h, g).ext, h.table, g);
  }

  lemma SlotsShrink(ext: seq<Extent>, ext': seq<Extent>, table: map<nat, Spot>, g: nat)
    requires |ext'| == |ext| && g in table && forall f :: f in table ==> table[f].ei < |ext|
    requires forall i :: 0 <= i < |ext| ==> ext'[i].cls == ext[i].cls
    ensures SlotsOf(ext', table - {g}) == SlotsOf(ext, table) - {g}
  {
  }

  lemma FreeKeepsClasses(h: Heap, g: nat)
    requires Sound(h) && g in h.table
    ensures var r := Free(h, g);
            |r.ext| == |h.ext| && forall i :: 0 <= i < |h.ext| ==> r.ext[i].cls == h.ext[i].cls
  {
    var ei, h1, r := h.table[g].ei, Relisted(h, g), Free(h, g);
    hide Linked, Tracks, ExtentsOk, SumBy, Mul, Pushed, Removed;
    RelistedOk(h, g);
    forall i | 0 <= i < |h.ext|
      ensures r.ext[i].cls == h.ext[i].cls
    {
      assert SameBody(Released(h, g).ext[i], h1.ext[i]);
      if h1.ext[ei].nfree == h1.ext[ei].nslots {
        RecycledOk(h1, ei);
        assert SameBody(h1.ext[ei := h1.ext[ei].(used := false)][i], r.ext[i]);
      }
    }
  }

  /** Listing an extent and bumping its counts touch different fields, so their order is free. */
  lemma PushCommutes(ext: seq<Extent>, head: nat, e: nat, nfree: nat, hint: nat)
    requires e < |ext|
    ensures var p := PushNode(ext, head, e);
            p[e := p[e].(nfree := nfree, hint := hint)] ==
              PushNode(ext[e := ext[e].(nfree := nfree, hint := hint)], head, e)
  {
  }

  /** The extent and slot `slot_free` computes are the ones the grain was issued for. */
  lemma LocateSlot(h: Heap, g: nat)
    requires Core(h) && g in h.table
    ensures var s := h.table[g];
            && s.ei < |h.ext| && h.ext[s.ei].cls < NCLASS
            && g / ExtGrains(h.words) == s.ei
            && (g % ExtGrains(h.words)) / (h.ext[s.ei].cls + 1) == s.k
  {
    var s := h.table[g];
    assert Taken(h.ext, h.bm, s) && ExtentOk(h.words, h.ext[s.ei], h.bm[s.ei]);
    DecodeGrain(h.words, s.ei, s.k, h.ext[s.ei].cls);
  }

  lemma {:induction false} SmallIndex(n: nat, k: nat)
    requires k > 0
    ensures n <= Mul(n, k)
  {
    if n > 0 { SmallIndex(n - 1, k); }
  }

  lemma FreshHeapGood(h: Heap)
    requires Sized(h) && Linked(h.ext, h.heads, h.chain) && h.table == map[] && h.used == h.bytes == 0
    requires forall i :: 0 <= i < |h.ext| ==> !h.ext[i].used && h.chain.home[i] == FREE && |h.bm[i]| == 64 * h.words
    ensures Good(h) && Outstanding(h) == map[]
  {
    SumConst(h.ext, UsedBit, 0);
    SumConst(h.ext, TakenBytes, 0);
  }

  /** `slot_free` lists a full extent again before it bumps the counts; the outcome is `Relisted`. */
  lemma RelistInSteps(h: Heap, g: nat)
    requires Core(h) && g in h.table
    ensures h.table[g].ei < |h.ext|
    ensures var s := h.table[g];
            && h.ext[s.ei].cls < NCLASS && s.k < |h.bm[s.ei]|
            && var h1 := h.(bm := h.bm[s.ei := h.bm[s.ei][s.k := false]]);
               var h2 := if h.ext[s.ei].nfree == 0 then Pushed(h1, h.ext[s.ei].cls, s.ei) else h1;
               var e := h2.ext[s.ei];
               Relisted(h, g) == h2.(ext := h2.ext[s.ei := e.(nfree := e.nfree + 1, hint := PulledHint(e.hint, s.k))],
                                     table := h.table - {g})
  {
    var s := h.table[g];
    assert Taken(h.ext, h.bm, s) && ExtentOk(h.words, h.ext[s.ei], h.bm[s.ei]);
    hide Linked, Tracks, ExtentsOk, Mul;
    PushCommutes(h.ext, h.heads[h.ext[s.ei].cls], s.ei, h.ext[s.ei].nfree + 1, PulledHint(h.ext[s.ei].hint, s.k));
  }
}
