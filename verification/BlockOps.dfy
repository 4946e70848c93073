/** Block operations as they move through prepare, copy and finish, on values. */
module BlockOps {
  import opened Blocks
  import opened StoreModel
  import opened Headroom
  import opened HeapRuns
  import HeapModel

  /** `Fine` is 0. */
  datatype Errno = Fine | EIO | EINVAL | ENOSPC

  /** struct blkop. `cslot` holds the bytes staged for the device or copied from it; `dma` is 0 for
      nothing to copy, 1 for a copy to issue, 2 for a finished read. */
  datatype BlkOp = BlkOp(blk: nat, write: bool, page: Page, req: nat, err: Errno, dma: nat,
                         ent: nat, clen: nat, grain: nat, cslot: seq<byte>)

  /** What no phase may change: which block, which way, for which request, and a write's payload. */
  predicate SameOp(a: BlkOp, b: BlkOp) {
    a.blk == b.blk && a.write == b.write && a.req == b.req && (a.write ==> a.page == b.page)
  }

  /** An operation as `blkop_set` leaves it. */
  predicate Blank(op: BlkOp) { op.err == Fine && op.dma == 0 && op.grain == SLOT_NONE && op.clen == 0 && op.ent == 0 }

  function NewOp(blk: nat, write: bool, page: Page, req: nat): (op: BlkOp)
    ensures Blank(op)
  {
    BlkOp(blk, write, page, req, Fine, 0, 0, 0, SLOT_NONE, [])
  }

  /** A write holding a reservation it will publish. */
  predicate Holds(op: BlkOp) { op.write && op.err == Fine && op.grain != SLOT_NONE }

  /** A read not yet answered. */
  predicate Pending(op: BlkOp) { !op.write && op.err == Fine && op.dma != 2 }

  /** The slots a set of operations holds. */
  ghost function Reservations(ops: seq<BlkOp>): set<nat> {
    set i | 0 <= i < |ops| && Holds(ops[i]) :: ops[i].grain
  }

  ghost predicate Distinct(ops: seq<BlkOp>) {
    forall i, j :: 0 <= i < j < |ops| && Holds(ops[i]) && Holds(ops[j]) ==> ops[i].grain != ops[j].grain
  }

  /** A reservation ready to be filled. */
  ghost predicate Reserved(c: Codec, s: Store, op: BlkOp) {
    && op.grain in Spare(s) && op.grain < GRAIN_LIMIT
    && op.cslot == CompBlock(c, op.page) && op.clen == |op.cslot| <= s.slots[op.grain]
  }

  /** A snapshot of the index, possibly out of date - but never of a block written since it was seen
      to be unwritten, which is the one case the re-check does not cover. */
  ghost predicate Snapshot(s: Store, op: BlkOp) {
    && op.blk < |s.index| && op.clen == EntClen(op.ent) && op.grain == EntGrain(op.ent) && InHeap(s.mem, op.ent)
    && (op.dma == 0 <==> op.clen == 0)
    && (op.clen == 0 ==> EntClen(s.index[op.blk]) == 0)
  }

  /** An operation ready for its copy. */
  ghost predicate Prepared(c: Codec, s: Store, op: BlkOp) {
    && op.blk < |s.index| && op.dma != 2
    && (op.write && op.err == Fine ==> (op.dma != 0 <==> op.grain != SLOT_NONE))
    && (Holds(op) ==> Reserved(c, s, op))
    && (Pending(op) ==> Snapshot(s, op))
  }

  /** An operation whose copy is over. */
  ghost predicate Copied(c: Codec, s: Store, op: BlkOp) {
    && op.blk < |s.index| == |s.pages|
    && (Holds(op) ==> Placed(c, s, op.page, op.grain) && op.clen == |CompBlock(c, op.page)|)
    && (Pending(op) ==>
          && Snapshot(s, op)
          && (op.clen != 0 ==> |op.cslot| == op.clen)
          && (op.clen != 0 && s.index[op.blk] == op.ent ==> op.cslot == Stored(s.mem, op.grain, op.clen)))
    && (!op.write && op.err == Fine && op.dma == 2 ==> op.page == s.pages[op.blk])
  }

  /** A copy into one reserved slot disturbs no other operation. */
  lemma CopiedStable(c: Codec, s: Store, g: nat, bytes: seq<byte>, op: BlkOp)
    requires StoreOk(c, s) && g in Spare(s) && |bytes| <= s.slots[g] && ALLOC_GRAIN * g + |bytes| <= |s.mem|
    requires Copied(c, s, op) && (Holds(op) ==> op.grain != g)
    ensures Copied(c, Uploaded(s, g, bytes), op)
  {
    var s' := Uploaded(s, g, bytes);
    assert Spare(s') == Spare(s);
    if Holds(op) {
      UploadElsewhere(s, g, bytes, op.grain, |CompBlock(c, op.page)|);
    }
    if Pending(op) && op.clen != 0 && s.index[op.blk] == op.ent {
      EntryFact(c, s, op.blk);
      hide StoreOk, EntClen, EntGrain;
      assert op.grain in s.owner;
      assert SlotsOk(s.slots, |s.mem|) by { SlotsAreOk(c, s); }
      UploadElsewhere(s, g, bytes, op.grain, op.clen);
    }
  }

  lemma SlotsAreOk(c: Codec, s: Store)
    requires StoreOk(c, s)
    ensures SlotsOk(s.slots, |s.mem|)
  {
  }

  lemma PreparedStable(c: Codec, s: Store, g: nat, bytes: seq<byte>, op: BlkOp)
    requires g in Spare(s) && ALLOC_GRAIN * g + |bytes| <= |s.mem| && Prepared(c, s, op)
    ensures Prepared(c, Uploaded(s, g, bytes), op)
  {
    var s' := Uploaded(s, g, bytes);
    assert Spare(s') == Spare(s);
  }

  /** What a phase may do to an operation: fail its copy, or move it on. */
  predicate Outcome(was: BlkOp, now: BlkOp) {
    && SameOp(was, now) && (now.write ==> now.grain == was.grain)
    && (now.err == was.err || (was.err == Fine && now.err == EIO && (was.write ==> was.grain != SLOT_NONE)))
  }

  ghost predicate Outcomes(was: seq<BlkOp>, now: seq<BlkOp>) {
    |was| == |now| && forall i :: 0 <= i < |was| ==> Outcome(was[i], now[i])
  }

  ghost predicate SameErrors(was: seq<BlkOp>, now: seq<BlkOp>) {
    |was| == |now| && forall i :: 0 <= i < |was| ==> now[i].err == was[i].err
  }

  /** The first i operations have had their copy, the rest are ready for theirs. */
  ghost predicate Staged(c: Codec, s: Store, ops: seq<BlkOp>, i: nat) {
    && i <= |ops| && Distinct(ops)
    && (forall j :: 0 <= j < i ==> Copied(c, s, ops[j]))
    && (forall j :: i <= j < |ops| ==> Prepared(c, s, ops[j]))
  }

  lemma StagedMove(c: Codec, s: Store, ops: seq<BlkOp>, i: nat, op: BlkOp)
    requires Staged(c, s, ops, i) && i < |ops| && Copied(c, s, op)
             && (Holds(op) ==> Holds(ops[i]) && op.grain == ops[i].grain)
    ensures Staged(c, s, ops[i := op], i + 1)
  {
    hide Copied, Prepared;
  }

  /** An operation with nothing to copy. */
  lemma StagedSkip(c: Codec, s: Store, ops: seq<BlkOp>, i: nat)
    requires |s.index| == |s.pages| && Staged(c, s, ops, i) && i < |ops| && (ops[i].dma == 0 || ops[i].err != Fine)
    ensures Staged(c, s, ops, i + 1)
  {
    assert Copied(c, s, ops[i]);
    StagedMove(c, s, ops, i, ops[i]);
    assert ops[i := ops[i]] == ops;
  }

  lemma StagedFail(c: Codec, s: Store, ops: seq<BlkOp>, i: nat)
    requires |s.index| == |s.pages| && Staged(c, s, ops, i) && i < |ops|
    ensures Staged(c, s, ops[i := ops[i].(err := EIO, dma := 0)], i + 1)
  {
    assert Prepared(c, s, ops[i]);
    assert Copied(c, s, ops[i].(err := EIO, dma := 0));
    StagedMove(c, s, ops, i, ops[i].(err := EIO, dma := 0));
  }

  lemma ReadyToCopy(c: Codec, s: Store, ops: seq<BlkOp>, i: nat)
    requires Staged(c, s, ops, i) && i < |ops| && ops[i].dma != 0 && ops[i].err == Fine
    ensures Prepared(c, s, ops[i])
    ensures if ops[i].write then Holds(ops[i]) && Reserved(c, s, ops[i]) else Pending(ops[i])
  {
    assert Prepared(c, s, ops[i]);
  }

  /** A finished set stays finished when one operation moves on. */
  lemma StagedSwap(c: Codec, s: Store, ops: seq<BlkOp>, i: nat, op: BlkOp)
    requires Staged(c, s, ops, |ops|) && i < |ops| && Copied(c, s, op) && Outcome(ops[i], op)
    ensures Staged(c, s, ops[i := op], |ops|)
  {
    hide Copied, Prepared;
  }

  lemma CopiedOf(c: Codec, s: Store, ops: seq<BlkOp>, i: nat)
    requires Staged(c, s, ops, |ops|) && i < |ops|
    ensures Copied(c, s, ops[i])
  {
  }

  lemma OutcomesTrans(a: seq<BlkOp>, b: seq<BlkOp>, d: seq<BlkOp>)
    requires Outcomes(a, b) && Outcomes(b, d)
    ensures Outcomes(a, d) && (SameErrors(a, d) <==> SameErrors(a, b) && SameErrors(b, d))
  {
    forall i | 0 <= i < |a|
      ensures Outcome(a[i], d[i]) && (d[i].err == a[i].err <==> b[i].err == a[i].err && d[i].err == b[i].err)
    {
      assert Outcome(a[i], b[i]) && Outcome(b[i], d[i]);
    }
  }

  lemma StagedUpload(c: Codec, s: Store, ops: seq<BlkOp>, i: nat)
    requires StoreOk(c, s) && Staged(c, s, ops, i) && i < |ops| && Holds(ops[i])
    requires ALLOC_GRAIN * ops[i].grain + |ops[i].cslot| <= |s.mem|
    ensures Staged(c, Uploaded(s, ops[i].grain, ops[i].cslot), ops, i + 1)
  {
    var op := ops[i];
    assert Prepared(c, s, op);
    assert Reserved(c, s, op);
    UploadPlaces(c, s, op.grain, op.page);
    var s' := Uploaded(s, op.grain, op.cslot);
    hide StoreOk, CompBlock, Spare, Uploaded, Placed;
    forall j | 0 <= j < i
      ensures Copied(c, s', ops[j])
    {
      CopiedStable(c, s, op.grain, op.cslot, ops[j]);
    }
    forall j | i <= j < |ops|
      ensures Prepared(c, s', ops[j])
    {
      PreparedStable(c, s, op.grain, op.cslot, ops[j]);
    }
    assert Copied(c, s', op) by { SameShape(c, s, op.grain, op.cslot); }
  }

  lemma SameShape(c: Codec, s: Store, g: nat, bytes: seq<byte>)
    requires StoreOk(c, s) && ALLOC_GRAIN * g + |bytes| <= |s.mem|
    ensures |Uploaded(s, g, bytes).index| == |Uploaded(s, g, bytes).pages| == |s.index|
  {
  }

  /** The slots of writes whose copy failed: reserved, never published, never returned. */
  ghost function Strays(ops: seq<BlkOp>): set<nat> {
    set q | 0 <= q < |ops| && ops[q].write && ops[q].err == EIO :: ops[q].grain
  }

  /** What a set held and did not publish is exactly the slots of its failed writes, one each. */
  lemma StraysAreLost(ops: seq<BlkOp>, done: seq<BlkOp>)
    requires Outcomes(ops, done) && Distinct(ops) && forall q :: 0 <= q < |ops| ==> ops[q].err != EIO
    ensures Reservations(ops) == Reservations(done) + Strays(done) && Reservations(done) !! Strays(done)
  {
    forall q | 0 <= q < |ops|
      ensures done[q].write && done[q].grain == ops[q].grain && Holds(ops[q]) ==> done[q].err == EIO || Holds(done[q])
      ensures Holds(done[q]) || (done[q].write && done[q].err == EIO) ==> Holds(ops[q]) && done[q].grain == ops[q].grain
    {
      assert Outcome(ops[q], done[q]);
    }
    forall g | g in Reservations(ops)
      ensures g in Reservations(done) + Strays(done)
    {
      var q :| 0 <= q < |ops| && Holds(ops[q]) && ops[q].grain == g;
      assert Outcome(ops[q], done[q]);
      if Holds(done[q]) { HeldAreReservations(done, q); } else { StrayIn(done, q); }
    }
    forall g | g in Reservations(done)
      ensures g in Reservations(ops)
    {
      var q :| 0 <= q < |done| && Holds(done[q]) && done[q].grain == g;
      HeldAreReservations(ops, q);
    }
    forall g | g in Strays(done)
      ensures g in Reservations(ops) && g !in Reservations(done)
    {
      var q :| 0 <= q < |done| && done[q].write && done[q].err == EIO && done[q].grain == g;
      HeldAreReservations(ops, q);
    }
  }

  /** The slots a set leaves behind. */
  lemma SpareLeft(spare: set<nat>, ops: seq<BlkOp>, done: seq<BlkOp>)
    requires Outcomes(ops, done) && Distinct(ops) && forall q :: 0 <= q < |ops| ==> ops[q].err != EIO
    requires Reservations(ops) !! spare
    ensures spare + Reservations(ops) - Reservations(done) == spare + Strays(done) && Strays(done) !! spare
  {
    StraysAreLost(ops, done);
    hide Outcomes, Distinct, Reservations, Strays;
  }

  /** ... one slot for each failed write. */
  lemma StraysDistinct(ops: seq<BlkOp>, done: seq<BlkOp>, p: nat, q: nat)
    requires Outcomes(ops, done) && Distinct(ops) && p < q < |done| && ops[p].err != EIO && ops[q].err != EIO
    requires done[p].write && done[q].write && done[p].err == done[q].err == EIO
    ensures done[p].grain != done[q].grain
  {
    assert Outcome(ops[p], done[p]) && Outcome(ops[q], done[q]);
  }

  lemma StrayIn(ops: seq<BlkOp>, q: nat)
    requires q < |ops| && ops[q].write && ops[q].err == EIO
    ensures ops[q].grain in Strays(ops)
  {
  }

  // -------------------------------------------------------------- preparing

  /** What preparing does to an operation: a write gets a slot or ENOSPC, a read gets its snapshot. */
  predicate Readied(was: BlkOp, now: BlkOp) {
    && SameOp(was, now)
    && (now.write ==> now.err == if now.grain != SLOT_NONE then Fine else ENOSPC)
    && (!now.write ==> now.err == Fine)
  }

  /** Store s is store s0 after the first i of the blank operations were prepared. */
  ghost predicate Preparing(c: Codec, s0: Store, s: Store, blank: seq<BlkOp>, ops: seq<BlkOp>, i: nat) {
    && i <= |ops| == |blank| && s.pages == s0.pages && |s.index| == |s0.index| && Distinct(ops)
    && (forall j :: 0 <= j < i ==> Prepared(c, s, ops[j]) && Readied(blank[j], ops[j]))
    && (forall j :: i <= j < |ops| ==> ops[j] == blank[j] && Blank(ops[j]) && ops[j].blk < |s0.index|)
    && Spare(s) == Spare(s0) + Reservations(ops) && Reservations(ops) !! Spare(s0)
  }

  lemma ReservationsUpdate(ops: seq<BlkOp>, i: nat, op: BlkOp)
    requires i < |ops| && !Holds(ops[i])
    ensures Reservations(ops[i := op]) == Reservations(ops) + if Holds(op) then {op.grain} else {}
  {
    var l, r := Reservations(ops[i := op]), Reservations(ops) + if Holds(op) then {op.grain} else {};
    forall g | g in r
      ensures g in l
    {
      if g in Reservations(ops) {
        var j :| 0 <= j < |ops| && Holds(ops[j]) && ops[j].grain == g;
        assert ops[i := op][j] == ops[j];
      } else {
        assert ops[i := op][i] == op;
      }
    }
  }

  lemma HeldAreReservations(ops: seq<BlkOp>, j: nat)
    requires j < |ops| && Holds(ops[j])
    ensures ops[j].grain in Reservations(ops)
  {
  }

  lemma PreparedAfterGrab(c: Codec, s: Store, g: nat, size: nat, op: BlkOp)
    requires Prepared(c, s, op) && g !in s.slots
    ensures Prepared(c, Grabbed(s, g, size), op)
  {
    hide EntClen, EntGrain, CompBlock;
  }

  /** Operation i became op, and either took the fresh slot g or left the store alone. */
  lemma PreparingNext(c: Codec, s0: Store, s: Store, s': Store, blank: seq<BlkOp>, ops: seq<BlkOp>, i: nat, op: BlkOp)
    requires Preparing(c, s0, s, blank, ops, i) && i < |ops| && Prepared(c, s', op) && Readied(blank[i], op)
    requires if Holds(op)
             then op.grain !in s.slots && s'.slots.Keys == s.slots.Keys + {op.grain}
               && s' == Grabbed(s, op.grain, s'.slots[op.grain])
                  && Spare(s') == Spare(s) + {op.grain}
             else s' == s
    ensures Preparing(c, s0, s', blank, ops[i := op], i + 1)
  {
    var ops' := ops[i := op];
    ReservationsUpdate(ops, i, op);
    hide Reservations;
    forall j | 0 <= j < i
      ensures Prepared(c, s', ops'[j])
    {
      if Holds(op) { PreparedAfterGrab(c, s, op.grain, s'.slots[op.grain], ops[j]); }
    }
    forall j | 0 <= j < |ops| && Holds(ops[j])
      ensures Holds(op) ==> ops[j].grain != op.grain
    {
      HeldAreReservations(ops, j);
    }
    hide Prepared;
  }

  lemma PreparingStarts(c: Codec, s: Store, ops: seq<BlkOp>)
    requires forall j :: 0 <= j < |ops| ==> Blank(ops[j]) && ops[j].blk < |s.index|
    ensures Preparing(c, s, s, ops, ops, 0)
  {
    hide Prepared;
    assert Reservations(ops) == {};
  }

  lemma PreparingEnds(c: Codec, s0: Store, s: Store, blank: seq<BlkOp>, ops: seq<BlkOp>)
    requires Preparing(c, s0, s, blank, ops, |ops|)
    ensures Staged(c, s, ops, 0) && s.pages == s0.pages && |blank| == |ops|
    ensures forall j :: 0 <= j < |ops| ==> Readied(blank[j], ops[j])
    ensures Spare(s) == Spare(s0) + Reservations(ops) && Reservations(ops) !! Spare(s0)
  {
    hide Prepared;
  }

  // ------------------------------------------------------- asking for slots

  function WriteCount(ops: seq<BlkOp>, n: nat): nat
    requires n <= |ops|
  {
    if n == 0 then 0 else WriteCount(ops, n - 1) + if ops[n - 1].write then 1 else 0
  }

  /** The slots the first n operations ask for: one for each write, as long as its page is stored. */
  ghost function Asks(c: Codec, ops: seq<BlkOp>, n: nat): seq<Call>
    requires n <= |ops|
  {
    if n == 0 then []
    else Asks(c, ops, n - 1) + if ops[n - 1].write then [AllocCall(StoredLen(c, ops[n - 1].page))] else []
  }

  /** Operation j finds no room: it is a write, and the heap - as the asks before it left it - has no slot for
      its stored page. */
  ghost predicate NoRoomFor(c: Codec, start: HeapModel.Heap, calls: seq<Call>, ops: seq<BlkOp>, j: nat)
    requires j < |ops|
  {
    ops[j].write && Denied(start, calls + Asks(c, ops, j), StoredLen(c, ops[j].page))
  }

  /** Of the first i operations exactly those are refused that find no room. */
  ghost predicate Rationed(c: Codec, start: HeapModel.Heap, calls: seq<Call>, blank: seq<BlkOp>, ops: seq<BlkOp>,
      i: nat) {
    i <= |ops| == |blank| && forall j :: 0 <= j < i ==> (ops[j].err == ENOSPC <==> NoRoomFor(c, start, calls, blank, j))
  }

  lemma RationedNext(c: Codec, start: HeapModel.Heap, calls: seq<Call>, now: seq<Call>, blank: seq<BlkOp>,
      ops: seq<BlkOp>, i: nat, op: BlkOp)
    requires Rationed(c, start, calls, blank, ops, i) && i < |ops| && now == calls + Asks(c, blank, i)
    requires op.err == ENOSPC <==> blank[i].write && Denied(start, now, StoredLen(c, blank[i].page))
    ensures Rationed(c, start, calls, blank, ops[i := op], i + 1)
    ensures calls + Asks(c, blank, i + 1) ==
            now + if blank[i].write then [AllocCall(StoredLen(c, blank[i].page))] else []
  {
    hide Denied, StoredLen;
  }

  lemma {:induction false} AsksCounted(c: Codec, calls: seq<Call>, ops: seq<BlkOp>, n: nat)
    requires n <= |ops|
    ensures DrewAll(calls, calls + Asks(c, ops, n), WriteCount(ops, n))
    ensures Drew(calls, calls + Asks(c, ops, n), WriteCount(ops, n))
  {
    if n == 0 {
      assert calls + [] == calls;
    } else {
      hide StoredLen, AskCount;
      AsksCounted(c, calls, ops, n - 1);
      var now := calls + Asks(c, ops, n - 1);
      if ops[n - 1].write {
        var call := AllocCall(StoredLen(c, ops[n - 1].page));
        DrewOne(now, call);
        assert calls + Asks(c, ops, n) == now + [call];
      } else {
        assert calls + Asks(c, ops, n) == now;
      }
    }
  }

  /** Copying and publishing refuse nobody and pardon nobody. */
  lemma RationedOutcomes(c: Codec, start: HeapModel.Heap, calls: seq<Call>, blank: seq<BlkOp>, ready: seq<BlkOp>,
      done: seq<BlkOp>)
    requires Rationed(c, start, calls, blank, ready, |ready|) && Outcomes(ready, done)
    ensures Rationed(c, start, calls, blank, done, |done|)
  {
    hide NoRoomFor;
    forall j | 0 <= j < |done|
      ensures done[j].err == ENOSPC <==> ready[j].err == ENOSPC
    {
      assert Outcome(ready[j], done[j]);
    }
  }

  // ------------------------------------------------------------- publishing

  /** The pages after the first n operations publish, in order. */
  function Applied(ops: seq<BlkOp>, n: nat, pages: seq<Page>): (r: seq<Page>)
    requires n <= |ops| && forall i :: 0 <= i < |ops| ==> ops[i].blk < |pages|
    ensures |r| == |pages|
  {
    if n == 0 then pages
    else
      var p := Applied(ops, n - 1, pages);
      if Holds(ops[n - 1]) then p[ops[n - 1].blk := ops[n - 1].page] else p
  }

  /** Publishing one operation leaves the others' reservations in place. */
  lemma CopiedAfterPublish(c: Codec, s: Store, b: nat, g: nat, page: Page, op: BlkOp)
    requires RoundTrips(c) && StoreOk(c, s) && b < |s.index| && Placed(c, s, page, g)
    requires Copied(c, s, op) && Holds(op) && op.grain != g
    ensures Copied(c, Replaced(s, b, g, |CompBlock(c, page)|, page), op)
  {
    hide StoreOk, RoundTrips, EntClen, EntGrain, CompBlock, Spare;
    ReplaceKeeps(c, s, b, g, page);
    SlotsAreOk(c, Replaced(s, b, g, |CompBlock(c, page)|, page));
  }

  lemma {:induction false} AppliedElsewhere(ops: seq<BlkOp>, n: nat, pages: seq<Page>, b: nat)
    requires n <= |ops| && b < |pages| && forall i :: 0 <= i < |ops| ==> ops[i].blk < |pages|
    requires forall i :: 0 <= i < n && ops[i].blk == b ==> !Holds(ops[i])
    ensures Applied(ops, n, pages)[b] == pages[b]
  {
    if n > 0 { AppliedElsewhere(ops, n - 1, pages, b); }
  }

  /** When the operations cover consecutive blocks, each block gets exactly its own page. */
  lemma {:induction false} AppliedRun(ops: seq<BlkOp>, n: nat, pages: seq<Page>, blk: nat, b: nat)
    requires n <= |ops| && blk + |ops| <= |pages| && b < |pages|
    requires forall i :: 0 <= i < |ops| ==> ops[i].blk == blk + i
    ensures Applied(ops, n, pages)[b] == if blk <= b < blk + n
            && Holds(ops[b - blk]) then ops[b - blk].page else pages[b]
  {
    if n > 0 { AppliedRun(ops, n - 1, pages, blk, b); }
  }

  /** Operations i onwards still hold what they will publish. */
  ghost predicate Publishing(c: Codec, s: Store, ops: seq<BlkOp>, i: nat) {
    i <= |ops| && Distinct(ops) && forall j :: i <= j < |ops| && Holds(ops[j]) ==> Copied(c, s, ops[j])
  }

  lemma PublishNext(c: Codec, s: Store, ops: seq<BlkOp>, i: nat)
    requires RoundTrips(c) && StoreOk(c, s) && i < |ops| && Publishing(c, s, ops, i) && Holds(ops[i])
    ensures Copied(c, s, ops[i]) && ops[i].blk < |s.index| == |s.pages|
    ensures Publishing(c, Replaced(s, ops[i].blk, ops[i].grain, ops[i].clen, ops[i].page), ops, i + 1)
  {
    assert Copied(c, s, ops[i]);
    assert Placed(c, s, ops[i].page, ops[i].grain) && ops[i].clen == |CompBlock(c, ops[i].page)|;
    hide StoreOk, RoundTrips, Copied, CompBlock, Placed, Replaced;
    forall j | i + 1 <= j < |ops| && Holds(ops[j])
      ensures Copied(c, Replaced(s, ops[i].blk, ops[i].grain, ops[i].clen, ops[i].page), ops[j])
    {
      CopiedAfterPublish(c, s, ops[i].blk, ops[i].grain, ops[i].page, ops[j]);
    }
  }

  lemma ReservationsSnoc(ops: seq<BlkOp>, i: nat)
    requires i < |ops|
    ensures Reservations(ops[..i + 1]) == Reservations(ops[..i]) + if Holds(ops[i]) then {ops[i].grain} else {}
  {
    var l, r := Reservations(ops[..i + 1]), Reservations(ops[..i]) + if Holds(ops[i]) then {ops[i].grain} else {};
    forall g | g in r
      ensures g in l
    {
      if g in Reservations(ops[..i]) {
        var j :| 0 <= j < i && Holds(ops[..i][j]) && ops[..i][j].grain == g;
        assert ops[..i + 1][j] == ops[j];
      } else {
        assert ops[..i + 1][i] == ops[i];
      }
    }
  }
}
