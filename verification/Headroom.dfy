/** How many more slots the heap is sure to grant, and when exactly it refuses one, over any history of
    calls. */
module Headroom {
  import opened Blocks
  import opened HeapModel
  import opened HeapRuns
  import Capacity
  import ExtentLists
  import Sums

  /** A call the store makes: it asks for whole pages if nothing compresses. */
  ghost predicate Fits(c: Codec, call: Call) {
    call.AllocCall? ==> 0 < call.n <= CBLK_SIZE && (Incompressible(c) ==> call.n == CBLK_SIZE)
  }

  function AskCount(calls: seq<Call>): nat {
    if calls == [] then 0
    else AskCount(calls[..|calls| - 1]) + if calls[|calls| - 1].AllocCall? then 1 else 0
  }

  /** The heap these calls lead to has no slot of n bytes to give. */
  ghost predicate Denied(h: Heap, calls: seq<Call>, n: nat) {
    && Good(h) && After(h, calls).Some? && 0 < n <= CBLK_SIZE
    && !HasRoom(After(h, calls).value.ext, After(h, calls).value.bm, (n - 1) / ALLOC_GRAIN)
  }

  /** Call j asked for a slot, and the heap as it stood then had none to give. */
  ghost predicate DeniedAt(h: Heap, calls: seq<Call>, j: nat)
    requires j < |calls|
  {
    calls[j].AllocCall? && Denied(h, calls[..j], calls[j].n)
  }

  /** How often the heap refused. */
  ghost function Denials(h: Heap, calls: seq<Call>): nat {
    if calls == [] then 0
    else Denials(h, calls[..|calls| - 1]) + if DeniedAt(h, calls, |calls| - 1) then 1 else 0
  }

  // ------------------------------------------------------------------- headroom

  /** Extents no class has claimed: g_n_extents less g_extents_used. */
  ghost function Uncommitted(h: Heap): int { |h.ext| - h.used }

  /** The heap is sure to grant the next k slots: it has k extents to commit, or nothing compresses and it
      has k pages left. */
  ghost predicate Roomy(c: Codec, h: Heap, k: int)
    requires Good(h)
  {
    || k <= Uncommitted(h)
    || (Incompressible(c) && Capacity.AllRaw(h) && |Outstanding(h)| + k <= Capacity.RawCapacity(h))
  }

  lemma {:induction false} UsedBound(ext: seq<ExtentLists.Extent>)
    ensures 0 <= Sums.SumBy(ext, UsedBit) <= |ext|
    ensures Sums.SumBy(ext, UsedBit) < |ext| ==> exists i :: 0 <= i < |ext| && !ext[i].used
  {
    if ext != [] {
      var m := |ext| - 1;
      UsedBound(ext[..m]);
      if Sums.SumBy(ext, UsedBit) < |ext| && ext[m].used {
        var i :| 0 <= i < m && !ext[..m][i].used;
        assert !ext[i].used;
      }
    }
  }

  /** An uncommitted extent serves any request. */
  lemma UncommittedServes(h: Heap, n: nat)
    requires Good(h) && 0 < n <= CBLK_SIZE && Uncommitted(h) > 0
    ensures Alloc(h, n).grain != SLOT_NONE
  {
    AllocFailsIffNoRoom(h, n);
    UsedBound(h.ext);
    var i :| 0 <= i < |h.ext| && !h.ext[i].used;
    hide Alloc;
    assert RoomIn(h.ext[i], h.bm[i], (n - 1) / ALLOC_GRAIN);
  }

  /** An allocation commits one extent at most. */
  lemma AllocCommitsOne(h: Heap, n: nat)
    requires Good(h) && 0 < n <= CBLK_SIZE
    ensures Alloc(h, n).heap.used <= h.used + 1 && |Alloc(h, n).heap.ext| == |h.ext|
  {
    AllocOutcome(h, n);
    if Alloc(h, n).grain != SLOT_NONE { TakingCommitsNothing(h, (n - 1) / ALLOC_GRAIN); }
  }

  lemma TakingCommitsNothing(h: Heap, cls: nat)
    requires Sound(h) && cls < ExtentLists.NCLASS && Chosen(h, cls) != ExtentLists.EXT_NONE
    ensures var ei, r := Chosen(h, cls), ChosenHeap(h, cls);
            && r.used <= h.used + 1 && Inv(r, ei) && ei < |r.ext| && r.ext[ei].used && r.ext[ei].nfree > 0
            && TakeLowest(r, ei).heap.used == r.used
  {
    ChosenOk(h, cls);
    HasLowest(ChosenHeap(h, cls), Chosen(h, cls));
    hide Inv, Sound, Pushed, Committed;
  }

  lemma RawAskKeepsRoom(h: Heap, k: int)
    requires Good(h) && Capacity.AllRaw(h) && k > 0 && |Outstanding(h)| + k <= Capacity.RawCapacity(h)
    ensures var r := Alloc(h, CBLK_SIZE);
            && r.grain != SLOT_NONE && Good(r.heap) && Capacity.AllRaw(r.heap)
            && |Outstanding(r.heap)| + k - 1 <= Capacity.RawCapacity(r.heap)
  {
    hide Sound, Counted, Alloc, Capacity.AllRaw, HasRoom, Outstanding;
    AllocOutcome(h, CBLK_SIZE);
    Capacity.RawAllocSucceedsIff(h);
    Capacity.RawStaysRaw(h, SLOT_NONE);
    var r := Alloc(h, CBLK_SIZE);
    assert Outstanding(r.heap).Keys == Outstanding(h).Keys + {r.grain};
  }

  /** Granting a slot costs one of headroom at most. */
  lemma AskKeepsRoom(c: Codec, h: Heap, n: nat, k: int)
    requires Good(h) && Fits(c, AllocCall(n)) && k > 0 && Roomy(c, h, k)
    ensures HasRoom(h.ext, h.bm, (n - 1) / ALLOC_GRAIN)
    ensures Good(Alloc(h, n).heap) && Roomy(c, Alloc(h, n).heap, k - 1)
  {
    hide Good, Alloc, Capacity.AllRaw, HasRoom, Outstanding, Incompressible;
    AllocOutcome(h, n);
    if k <= Uncommitted(h) {
      UncommittedServes(h, n);
      AllocCommitsOne(h, n);
    } else {
      RawAskKeepsRoom(h, k);
    }
  }

  /** Giving a slot back costs none. */
  lemma FreeKeepsRoom(c: Codec, h: Heap, g: nat, k: int)
    requires Good(h) && g in Outstanding(h) && Roomy(c, h, k)
    ensures Good(Free(h, g)) && Roomy(c, Free(h, g), k)
  {
    FreeRemovesOneSlot(h, g);
    if k > Uncommitted(h) {
      Capacity.RawStaysRaw(h, g);
      hide Good, Free, Capacity.AllRaw, Outstanding, Incompressible;
      assert Outstanding(Free(h, g)).Keys == Outstanding(h).Keys - {g};
    }
  }

  lemma CallKeepsRoom(c: Codec, h: Heap, call: Call, k: int)
    requires Good(h) && Allowed(h, call) && Fits(c, call) && Roomy(c, h, k) && (call.AllocCall? ==> k > 0)
    ensures Roomy(c, Apply(h, call), if call.AllocCall? then k - 1 else k)
    ensures call.AllocCall? ==> HasRoom(h.ext, h.bm, (call.n - 1) / ALLOC_GRAIN)
  {
    hide Roomy, Good, Outstanding, Alloc, Free, HasRoom;
    match call
    case AllocCall(n) => AskKeepsRoom(c, h, n, k);
    case FreeCall(g) => FreeKeepsRoom(c, h, g, k);
  }

  lemma LastAfter(h: Heap, calls: seq<Call>)
    requires Good(h) && calls != [] && After(h, calls).Some?
    ensures var m := |calls| - 1;
            && After(h, calls[..m]).Some? && Allowed(After(h, calls[..m]).value, calls[m])
            && After(h, calls).value == Apply(After(h, calls[..m]).value, calls[m])
  {
    hide Good, Apply, Allowed;
  }

  /** The last call of a history. */
  lemma LastCall(c: Codec, h: Heap, calls: seq<Call>, k: int)
    requires Good(h) && calls != [] && After(h, calls).Some? && Fits(c, calls[|calls| - 1])
    ensures After(h, calls[..|calls| - 1]).Some?
    ensures Roomy(c, After(h, calls[..|calls| - 1]).value, k) && (calls[|calls| - 1].AllocCall? ==> k > 0) ==>
              && Roomy(c, After(h, calls).value, if calls[|calls| - 1].AllocCall? then k - 1 else k)
              && Denials(h, calls) == Denials(h, calls[..|calls| - 1])
  {
    hide Roomy, Good, HasRoom, Apply, After, Allowed, Fits;
    var m := |calls| - 1;
    LastAfter(h, calls);
    var h' := After(h, calls[..m]).value;
    if Roomy(c, h', k) && (calls[m].AllocCall? ==> k > 0) { CallKeepsRoom(c, h', calls[m], k); }
  }

  /** NO REFUSAL WITH HEADROOM. From a heap with headroom k, any calls with at most k asks among them are
      granted, and what is not used of the headroom is left. */
  lemma {:induction false} HeadroomHolds(c: Codec, h: Heap, calls: seq<Call>, lo: nat, k: nat)
    requires Good(h) && After(h, calls).Some? && lo <= |calls| && forall j :: 0 <= j < |calls| ==> Fits(c, calls[j])
    requires AskCount(calls) <= AskCount(calls[..lo]) + k
    ensures After(h, calls[..lo]).Some?
    ensures Roomy(c, After(h, calls[..lo]).value, k) ==>
              && Denials(h, calls) == Denials(h, calls[..lo])
              && Roomy(c, After(h, calls).value, k - (AskCount(calls) - AskCount(calls[..lo])))
    decreases |calls|
  {
    hide Roomy, Good, After, Denials, Fits;
    if lo == |calls| {
      assert calls[..lo] == calls;
    } else {
      var m := |calls| - 1;
      assert calls[..m][..lo] == calls[..lo];
      LastCall(c, h, calls, k - (AskCount(calls[..m]) - AskCount(calls[..lo])));
      HeadroomHolds(c, h, calls[..m], lo, k);
    }
  }

  // ------------------------------------------------------------------- the record

  /** The heap is what the calls made of the one it started as, and `refused` counts the refusals. */
  ghost predicate Recorded(c: Codec, start: Heap, calls: seq<Call>, h: Heap, refused: nat) {
    && Good(start) && After(start, calls) == Some(h) && refused == Denials(start, calls)
    && forall j :: 0 <= j < |calls| ==> Fits(c, calls[j])
  }

  lemma Snoc(calls: seq<Call>, call: Call)
    ensures (calls + [call])[..|calls|] == calls
    ensures AskCount(calls + [call]) == AskCount(calls) + if call.AllocCall? then 1 else 0
  {
    assert (calls + [call])[..|calls|] == calls;
  }

  /** The calls went on from `was` to `now` with at most k asks among them. */
  ghost predicate Drew(was: seq<Call>, now: seq<Call>, k: nat) {
    was <= now && AskCount(now) <= AskCount(was) + k
  }

  lemma DrewOne(calls: seq<Call>, call: Call)
    ensures Drew(calls, calls + [call], if call.AllocCall? then 1 else 0)
    ensures DrewAll(calls, calls + [call], if call.AllocCall? then 1 else 0)
  {
    Snoc(calls, call);
  }

  lemma {:induction false} AsksOnlyGrow(calls: seq<Call>, m: nat)
    requires m <= |calls|
    ensures AskCount(calls[..m]) <= AskCount(calls)
  {
    if m < |calls| {
      assert calls[..|calls| - 1][..m] == calls[..m];
      AsksOnlyGrow(calls[..|calls| - 1], m);
    } else {
      assert calls[..m] == calls;
    }
  }

  /** The calls went on from `was` to `now` with exactly k asks among them. */
  ghost predicate DrewAll(was: seq<Call>, now: seq<Call>, k: nat) {
    was <= now && AskCount(now) == AskCount(was) + k
  }

  lemma DrewAllTrans(a: seq<Call>, b: seq<Call>, d: seq<Call>, k: nat)
    requires DrewAll(a, b, k) && Drew(b, d, 0)
    ensures DrewAll(a, d, k)
  {
    assert d[..|b|] == b;
    AsksOnlyGrow(d, |b|);
    assert forall i :: 0 <= i < |a| ==> a[i] == b[i] && b[i] == d[i];
  }

  lemma DrewNone(calls: seq<Call>)
    ensures Drew(calls, calls, 0)
  {
  }

  lemma DrewTrans(a: seq<Call>, b: seq<Call>, d: seq<Call>, j: nat, k: nat)
    requires Drew(a, b, j) && Drew(b, d, k)
    ensures Drew(a, d, j + k)
  {
    assert forall i :: 0 <= i < |a| ==> a[i] == b[i] && b[i] == d[i];
  }

  /** Some ask after the calls `was` found the heap without room. */
  ghost predicate RanOut(start: Heap, was: seq<Call>, now: seq<Call>) {
    exists j :: |was| <= j < |now| && DeniedAt(start, now, j)
  }

  lemma DeniedPrefix(start: Heap, calls: seq<Call>, m: nat, j: nat)
    requires j < m <= |calls|
    ensures DeniedAt(start, calls[..m], j) <==> DeniedAt(start, calls, j)
  {
    assert calls[..m][..j] == calls[..j];
  }

  /** The count of refusals goes up exactly when an ask finds the heap without room. */
  lemma {:induction false} DenialsGrow(start: Heap, calls: seq<Call>, lo: nat)
    requires lo <= |calls|
    ensures Denials(start, calls) >= Denials(start, calls[..lo])
    ensures Denials(start, calls) > Denials(start, calls[..lo]) <==> RanOut(start, calls[..lo], calls)
    decreases |calls|
  {
    hide DeniedAt;
    if lo == |calls| {
      assert calls[..lo] == calls;
    } else {
      var m := |calls| - 1;
      assert calls[..m][..lo] == calls[..lo];
      DenialsGrow(start, calls[..m], lo);
      forall j | lo <= j < m
        ensures DeniedAt(start, calls[..m], j) <==> DeniedAt(start, calls, j)
      {
        DeniedPrefix(start, calls, m, j);
      }
      assert DeniedAt(start, calls, m) ==> RanOut(start, calls[..lo], calls);
    }
  }

  lemma RecordStarts(c: Codec, h: Heap)
    requires Good(h)
    ensures Recorded(c, h, [], h, 0)
  {
  }

  lemma RecordAsk(c: Codec, start: Heap, calls: seq<Call>, h: Heap, refused: nat, n: nat)
    requires Recorded(c, start, calls, h, refused) && Fits(c, AllocCall(n))
    ensures Good(h)
    ensures var r := Alloc(h, n);
            Recorded(c, start, calls + [AllocCall(n)], r.heap, if r.grain == SLOT_NONE then refused + 1 else refused)
  {
    hide Good, Alloc, HasRoom;
    Snoc(calls, AllocCall(n));
    AllocOutcome(h, n);
  }

  lemma RecordFree(c: Codec, start: Heap, calls: seq<Call>, h: Heap, refused: nat, g: nat)
    requires Recorded(c, start, calls, h, refused) && Good(h) && g in Outstanding(h)
    ensures Recorded(c, start, calls + [FreeCall(g)], Free(h, g), refused)
  {
    Snoc(calls, FreeCall(g));
    hide Good, Free, HasRoom, Outstanding;
  }

  /** Between two records: when the heap refused, and when it could not have. */
  lemma RefusalsBetween(c: Codec, start: Heap, was: seq<Call>, h: Heap, refused: nat, now: seq<Call>, h': Heap,
      refused': nat, k: nat)
    requires Recorded(c, start, was, h, refused) && Recorded(c, start, now, h', refused') && Drew(was, now, k)
    requires Good(h)
    ensures refused <= refused' && (refused' > refused <==> RanOut(start, was, now))
    ensures Roomy(c, h, k) ==> refused' == refused
  {
    hide Good, After, Denials, Roomy, RanOut, Fits;
    assert now[..|was|] == was;
    DenialsGrow(start, now, |was|);
    HeadroomHolds(c, start, now, |was|, k);
  }
}
