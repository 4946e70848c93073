/** The slab allocator as the daemon runs it: tables updated in place. Every method is proved equal
    to its counterpart in HeapModel. In the original each runs under g_alloc_mu, so each is one
    atomic step to everything outside. */
module Allocator {
  import opened Blocks
  import opened Bitmap
  import opened ExtentLists
  import opened Grains
  import opened Sums
  import opened HeapModel

  class ExtentAllocator {
    const words: nat              // EXT_BMWORDS
    const n: nat                  // g_n_extents
    const ext: array<Extent>      // g_ext
    const bm: array<seq<bool>>    // g_extbm, one row per extent
    const heads: array<nat>       // g_class_head[0..63], then g_free_head
    var extentsUsed: int          // g_extents_used
    var extentsPeak: int          // g_extents_peak
    var slotBytes: int            // g_slot_bytes
    ghost var chain: Chain
    ghost var table: map<nat, Spot>

    ghost function View(): Heap
      reads this`chain, this`table, this`extentsUsed, this`slotBytes, ext, bm, heads
    {
      Heap(words, ext[..], bm[..], heads[..], chain, table, extentsUsed, slotBytes)
    }

    ghost predicate Sizes() {
      ext.Length == bm.Length == n && heads.Length == NCLASS + 1
    }

    ghost predicate Valid()
      reads this, ext, bm, heads
    {
      && Sizes()
      && Good(View())
      && extentsUsed <= extentsPeak
    }

    /** Outstanding grains and their sizes. */
    ghost function Slots(): Slots
      requires Valid()
      reads this, ext, bm, heads
    {
      Outstanding(View())
    }

    ghost function Bytes(): nat { ALLOC_GRAIN * Mul(n, ExtGrains(words)) }

    method LstPush(l: nat, e: nat)
      requires Sizes() && Sized(View()) && Linked(ext[..], heads[..], chain)
      requires l <= NCLASS && e < n && chain.home[e] == NOWHERE
      modifies this`chain, ext, heads
      ensures View() == Pushed(old(View()), l, e)
      ensures Linked(ext[..], heads[..], chain)
    {
      ghost var ext0, heads0 := ext[..], heads[..];
      PushLinked(ext0, heads0, chain, l, e);
      ext[e] := ext[e].(prev := EXT_NONE);
      ext[e] := ext[e].(next := heads[l]);
      if heads[l] != EXT_NONE {
        ext[heads[l]] := ext[heads[l]].(prev := e);
      }
      heads[l] := e;
      chain := PushChain(chain, l, e);
      assert ext[..] == PushNode(ext0, heads0[l], e);
      assert heads[..] == heads0[l := e];
    }

    method LstRemove(l: nat, e: nat)
      requires Sizes() && Sized(View()) && Linked(ext[..], heads[..], chain)
      requires l <= NCLASS && e < n && chain.home[e] == l
      modifies this`chain, ext, heads
      ensures View() == Removed(old(View()), l, e)
      ensures Linked(ext[..], heads[..], chain)
    {
      ghost var ext0, heads0 := ext[..], heads[..];
      RemoveLinked(ext0, heads0, chain, l, e);
      if ext[e].prev != EXT_NONE {
        ext[ext[e].prev] := ext[ext[e].prev].(next := ext[e].next);
      } else {
        heads[l] := ext[e].next;
      }
      if ext[e].next != EXT_NONE {
        ext[ext[e].next] := ext[ext[e].next].(prev := ext[e].prev);
      }
      ext[e] := ext[e].(next := EXT_NONE, prev := EXT_NONE);
      chain := RemoveChain(chain, e);
      assert ext[..] == RemoveNode(ext0, e);
      assert heads[..] == heads0[l := RemoveHead(ext0, heads0[l], e)];
    }

    /** Hand a fresh extent to a size class; the unusable tail of the bitmap is marked taken. */
    method ExtInit(ei: nat, cls: nat)
      requires Sizes() && Sized(View()) && ei < n && cls < NCLASS
      modifies ext, bm
      ensures View() == Inited(old(View()), ei, cls)
    {
      ghost var ext0, bm0 := ext[..], bm[..];
      var nslots := NSlots(words, cls);
      ext[ei] := ext[ei].(cls := cls, used := true, nslots := nslots, nfree := nslots, hint := 0);
      SlotCountBounds(words, cls);
      var row := FillBitmap(words, nslots);
      bm[ei] := row;
      assert ext[..] == ext0[ei := Fresh(words, ext0[ei], cls)];
      assert bm[..] == bm0[ei := row];
    }

    /** Claim the lowest free slot of an extent known to have one. */
    method ExtTake(ei: nat) returns (grain: nat)
      requires Sizes() && Inv(View(), ei) && ei < n && ext[ei].used && ext[ei].nfree > 0
      modifies this`chain, this`table, ext, bm, heads
      ensures grain == TakeLowest(old(View()), ei).grain
      ensures View() == TakeLowest(old(View()), ei).heap
      ensures ext[ei].cls == old(ext[ei].cls)
    {
      ghost var h := View();
      assert ExtentOk(words, ext[ei], bm[ei]);
      TakenSpot(h, ei);
      var w, b := ScanFromHint(bm[ei], words, ext[ei].nslots, ext[ei].nfree, ext[ei].hint);
      MarkedCore(h, ei, 64 * w + b);
      assert chain.home[ei] == ext[ei].cls;
      hide Tracks, ExtentsOk, SumBy, Lowest, Homed, NoneEmpty, Linked, RemoveNode, Mul;
      grain := MarkBit(ei, w, b);
      if ext[ei].nfree == 0 {
        LstRemove(ext[ei].cls, ei);
      }
      assert View() == Took(h, ei, 64 * w + b);
    }

    /** The stores of `ext_take` once the bit is chosen, and the grain that names it. */
    method MarkBit(ei: nat, w: nat, b: nat) returns (grain: nat)
      requires Sizes() && Sized(View()) && ei < n && b < 64 && 64 * w + b < |bm[ei]| && ext[ei].nfree > 0
      modifies this`table, ext, bm
      ensures View() == Marked(old(View()), ei, 64 * w + b)
      ensures grain == SpotGrain(words, old(ext[..]), Spot(ei, 64 * w + b))
    {
      ghost var h := View();
      bm[ei] := bm[ei][64 * w + b := true];
      ext[ei] := ext[ei].(hint := w);
      ext[ei] := ext[ei].(nfree := ext[ei].nfree - 1);
      var slot := 64 * w + b;
      grain := GrainOf(words, ei, slot, ext[ei].cls);
      table := table[grain := Spot(ei, slot)];
      assert slot / 64 == w;
      assert bm[..] == h.bm[ei := h.bm[ei][slot := true]];
      assert ext[..] == h.ext[ei := h.ext[ei].(hint := w, nfree := h.ext[ei].nfree - 1)];
    }

    /** Reserve room for nbytes: the grain, or SLOT_NONE exactly when no extent is uncommitted and
        no extent of the class or larger has a free slot. */
    method SlotAlloc(nbytes: nat) returns (grain: nat, size: nat)
      requires Valid() && 0 < nbytes <= CBLK_SIZE
      modifies this`chain, this`table, this`extentsUsed, this`extentsPeak, this`slotBytes, ext, bm, heads
      ensures Valid()
      ensures AllocResult(View(), grain, size) == Alloc(old(View()), nbytes)
      ensures AllocPromise(old(View()), nbytes, AllocResult(View(), grain, size))
      ensures extentsPeak == if extentsUsed > old(extentsPeak) then extentsUsed else old(extentsPeak)
    {
      hide Committed, Took, SumBy, FirstHead, Linked, Tracks, ExtentsOk, Homed, NoneEmpty, HasRoom, Mul, SlotsOf,
        Counted;
      ghost var h := View();
      AllocOutcome(h, nbytes);
      var cls := (nbytes - 1) / ALLOC_GRAIN;
      grain, size := SLOT_NONE, 0;
      var ei := Choose(cls);
      if ei != EXT_NONE {
        ChosenOk(h, cls);
        grain := ExtTake(ei);
        size := (ext[ei].cls + 1) * ALLOC_GRAIN;
        slotBytes := slotBytes + size;
      }
      assert AllocResult(View(), grain, size) == Alloc(h, nbytes);
    }

    /** The extent that serves class `cls`: the head of its partial list, else a freshly committed
        extent, else the head of the first larger class with one. */
    method Choose(cls: nat) returns (ei: nat)
      requires Valid() && cls < NCLASS
      modifies this`chain, this`extentsUsed, this`extentsPeak, ext, bm, heads
      ensures ei == Chosen(old(View()), cls) && View() == ChosenHeap(old(View()), cls)
      ensures extentsPeak == if extentsUsed > old(extentsPeak) then extentsUsed else old(extentsPeak)
    {
      hide Tracks, ExtentsOk, Linked, RemoveNode, PushNode, SumBy, Homed, NSlots, Mul;
      ghost var h := View();
      ei := heads[cls];
      if ei == EXT_NONE && heads[FREE] != EXT_NONE {
        CommittedOk(h, cls);
        ei := heads[FREE];
        LstRemove(FREE, ei);
        ExtInit(ei, cls);
        DetachedCore(h, cls);
        LstPush(cls, ei);
        extentsUsed := extentsUsed + 1;
        if extentsUsed > extentsPeak {
          extentsPeak := extentsUsed;
        }
      }
      if ei == EXT_NONE {
        var c := cls + 1;
        while c < NCLASS && ei == EXT_NONE
          invariant cls < c <= NCLASS
          invariant ei == EXT_NONE ==> FirstHead(heads[..], cls) == FirstHead(heads[..], c)
          invariant ei != EXT_NONE ==> FirstHead(heads[..], cls) == ei
        {
          if heads[c] != EXT_NONE {
            ei := heads[c];
          }
          c := c + 1;
        }
      }
    }

    /** Release a slot. Extent, slot and size are recovered from the grain alone, so a slot
        borrowed from a larger class returns to the right place. */
    method SlotFree(grain: nat) returns (size: nat)
      requires Valid() && grain in Slots()
      modifies this`chain, this`table, this`extentsUsed, this`slotBytes, ext, bm, heads
      ensures Valid()
      ensures View() == Free(old(View()), grain)
      ensures size == old(Slots())[grain] && Slots() == old(Slots()) - {grain}
      ensures slotBytes == old(slotBytes) - size
    {
      hide Tracks, ExtentsOk, Linked, Homed, NoneEmpty, SumBy, Mul, Released, Relisted, Recycled, SameBodies;
      ghost var h := View();
      FreeRemovesOneSlot(h, grain);
      RelistedOk(h, grain);
      var ei, slot := Locate(grain);
      size := (ext[ei].cls + 1) * ALLOC_GRAIN;
      Unmark(ei, slot, grain);
      if ext[ei].nfree == ext[ei].nslots {
        Recycle(ei);
      }
      slotBytes := slotBytes - size;
      assert View() == Free(h, grain);
    }

    /** The extent and slot a grain names, from the grain alone. */
    method Locate(grain: nat) returns (ei: nat, slot: nat)
      requires Sizes() && Core(View()) && grain in table
      ensures table[grain] == Spot(ei, slot)
    {
      LocateSlot(View(), grain);
      ei := grain / ExtGrains(words);
      slot := (grain % ExtGrains(words)) / (ext[ei].cls + 1);
    }

    /** Clear the bit, list the extent again if it was full, and pull the hint back. */
    method Unmark(ei: nat, slot: nat, ghost grain: nat)
      requires Sizes() && Sound(View()) && grain in table && table[grain] == Spot(ei, slot)
      modifies this`chain, this`table, ext, bm, heads
      ensures View() == Relisted(old(View()), grain)
    {
      ghost var h := View();
      RelistInSteps(h, grain);
      assert ext[ei].nfree == 0 ==> chain.home[ei] == NOWHERE by {
        assert Taken(h.ext, h.bm, table[grain]);
      }
      hide Tracks, ExtentsOk, SumBy, Homed, NoneEmpty, Linked, PushNode, Mul, Relisted;
      bm[ei] := bm[ei][slot := false];
      assert bm[..] == h.bm[ei := h.bm[ei][slot := false]];
      if ext[ei].nfree == 0 {
        LstPush(ext[ei].cls, ei);
      }
      ghost var ext1 := ext[..];
      ext[ei] := ext[ei].(nfree := ext[ei].nfree + 1);
      if slot / 64 < ext[ei].hint {
        ext[ei] := ext[ei].(hint := slot / 64);
      }
      table := table - {grain};
      assert ext[..] == ext1[ei := ext1[ei].(nfree := ext1[ei].nfree + 1, hint := PulledHint(ext1[ei].hint, slot))];
    }

    /** A wholly empty extent becomes available to any class. */
    method Recycle(ei: nat)
      requires Sizes() && Inv(View(), ei) && ei < n && ext[ei].used && ext[ei].cls < NCLASS
      requires ext[ei].nfree == ext[ei].nslots > 0
      modifies this`chain, this`extentsUsed, ext, heads
      ensures View() == Recycled(old(View()), ei)
    {
      ghost var h := View();
      assert chain.home[ei] == ext[ei].cls;
      RemovedCore(h, ext[ei].cls, ei);
      GiveUpCore(Removed(h, ext[ei].cls, ei), ei);
      hide Tracks, ExtentsOk, SumBy, Homed, NoneEmpty, Linked, PushNode, Mul;
      LstRemove(ext[ei].cls, ei);
      ghost var h1 := View();
      ext[ei] := ext[ei].(used := false);
      assert ext[..] == h1.ext[ei := h1.ext[ei].(used := false)];
      LstPush(FREE, ei);
      extentsUsed := extentsUsed - 1;
    }

    /** Put an extent at the head of the free list. */
    method ListFree(i: nat)
      requires Sizes() && Sized(View()) && Linked(ext[..], heads[..], chain) && i < n && chain.home[i] == NOWHERE
      modifies this`chain, ext, heads
      ensures Sizes() && Sized(View()) && Linked(ext[..], heads[..], chain)
      ensures chain.home == old(chain.home)[i := FREE] && heads[FREE] == i && ext[i].next == old(heads[FREE])
      ensures forall j :: 0 <= j < n ==> SameBody(ext[j], old(ext[j])) && (j != i ==> ext[j].next == old(ext[j].next))
    {
      hide Linked, Mul;
      ghost var ext0 := ext[..];
      ext[i] := ext[i].(next := EXT_NONE, prev := EXT_NONE);
      assert ext[..] == ext0[i := ext[i]];
      UnlistedFrame(ext0, heads[..], chain, i, ext[i]);
      ghost var ext1, head := ext[..], heads[FREE];
      LstPush(FREE, i);
      assert ext[..] == PushNode(ext1, head, i);
      assert forall j :: 0 <= j < n ==> ext[j] == PushNode(ext1, head, i)[j];
    }

    /** `store_init`: every extent free, listed in ascending order, nothing outstanding. */
    constructor (shift: nat, nExtents: nat)
      requires 14 <= shift <= 20 && 0 < nExtents && Mul(nExtents, ExtGrains(BitmapWords(shift))) < GRAIN_LIMIT
      ensures Valid() && fresh(ext) && fresh(bm) && fresh(heads)
      ensures words == BitmapWords(shift) && n == nExtents
      ensures Slots() == map[] && slotBytes == 0 && extentsUsed == 0 && extentsPeak == 0
      ensures heads[FREE] == 0
      ensures forall i :: 0 <= i < n ==> !ext[i].used && ext[i].next == if i + 1 < n then i + 1 else EXT_NONE
    {
      words := BitmapWords(shift);
      n := nExtents;
      var blank := Extent(0, 0, 0, 0, 0, false, 0);
      var w := BitmapWords(shift);
      ext := new Extent[nExtents](_ => blank);
      bm := new seq<bool>[nExtents](_ => seq(64 * w, _ => false));
      heads := new nat[NCLASS + 1](_ => EXT_NONE);
      extentsUsed, extentsPeak, slotBytes := 0, 0, 0;
      chain := Chain(seq(nExtents, _ => NOWHERE), seq(nExtents, _ => 0), 1);
      table := map[];
      new;
      var i := n;
      SmallIndex(n, ExtGrains(words));
      hide Linked, Mul, PushNode, PushChain;
      while i > 0
        invariant 0 <= i <= n && Sizes() && Sized(View()) && Linked(ext[..], heads[..], chain)
        invariant forall j :: 0 <= j < n ==> SameBody(ext[j], blank) && chain.home[j] == if j < i then NOWHERE else FREE
        invariant heads[FREE] == if i < n then i else EXT_NONE
        invariant forall j :: i <= j < n ==> ext[j].next == if j + 1 < n then j + 1 else EXT_NONE
        invariant bm[..] == seq(n, _ => seq(64 * words, _ => false))
        invariant table == map[] && extentsUsed == extentsPeak == slotBytes == 0
      {
        i := i - 1;
        ListFree(i);
      }
      FreshHeapGood(View());
    }
  }
}
