/** Byte ranges of any offset and length on top of block operations: partial blocks at the edges,
    whole blocks in between. */
module Ranges {
  import opened Blocks
  import opened StoreModel
  import HeapModel
  import opened BlockOps
  import opened BlockStore
  import opened Worker
  import opened Disk
  import opened Headroom

  /** The error a sequence of operations reports: a failed copy outranks a full heap. */
  function Verdict(faulted: bool, refused: bool): Errno {
    if faulted then EIO else if refused then ENOSPC else Fine
  }

  ghost predicate AnyErr(ops: seq<BlkOp>, e: Errno) { exists j :: 0 <= j < |ops| && ops[j].err == e }

  /** How a second error joins a first. */
  function Worse(e1: Errno, e2: Errno): Errno { if e2 != Fine && (e1 == Fine || e2 == EIO) then e2 else e1 }

  /** How many blocks a range touches. */
  function Touched(off: nat, len: nat): (n: nat)
    ensures n * CBLK_SIZE < len + 2 * CBLK_SIZE
  {
    (off + len + CBLK_SIZE - 1) / CBLK_SIZE - off / CBLK_SIZE
  }

  lemma TouchedJoin(off: nat, m: nat, n: nat)
    requires (off + m) % CBLK_SIZE == 0
    ensures Touched(off, m + n) == Touched(off, m) + Touched(off + m, n)
  {
  }

  lemma TouchedWhole(blk: nat, n: nat)
    ensures Touched(CBLK_SIZE * blk, CBLK_SIZE * n) == n
  {
  }

  lemma TouchedNone(off: nat)
    ensures off % CBLK_SIZE == 0 ==> Touched(off, 0) == 0
  {
  }

  lemma TouchedOne(off: nat, len: nat)
    requires 0 < off % CBLK_SIZE + len <= CBLK_SIZE
    ensures Touched(off, len) == 1
  {
  }

  /** What a write of `src` at `off` did: the bytes changed as `Written` says, the error tells apart
      failed copies and a full heap, only failed copies leave slots behind, and the heap was asked for
      one slot per block at most. */
  ghost predicate Wrote(a: Ledger, b: Ledger, off: nat, src: seq<byte>, err: Errno) {
    && Written(a.pages, b.pages, off, src, err == Fine)
    && a.faults <= b.faults && a.refused <= b.refused && err == Verdict(b.faults > a.faults, b.refused > a.refused)
    && SpareKept(a.spare, b.spare, b.faults > a.faults) && Drew(a.calls, b.calls, Touched(off, |src|))
  }

  lemma WroteNothing(a: Ledger, off: nat)
    ensures Wrote(a, a, off, [], Fine)
  {
    WrittenNothing(a.pages, off, true);
    hide AskCount;
  }

  lemma WroteJoin(a: Ledger, b: Ledger, d: Ledger, off: nat, s1: seq<byte>, s2: seq<byte>, e1: Errno, e2: Errno)
    requires Wrote(a, b, off, s1, e1) && Wrote(b, d, off + |s1|, s2, e2)
    requires (off + |s1|) % CBLK_SIZE == 0 || (s1 == [] && b == a) || (s2 == [] && d == b)
    ensures Wrote(a, d, off, s1 + s2, Worse(e1, e2))
  {
    WrittenJoin(a.pages, b.pages, d.pages, off, s1, s2, e1 == Fine, e2 == Fine);
    if (off + |s1|) % CBLK_SIZE == 0 {
      TouchedJoin(off, |s1|, |s2|);
      DrewTrans(a.calls, b.calls, d.calls, Touched(off, |s1|), Touched(off + |s1|, |s2|));
    }
    hide Written, Touched, Drew;
  }

  /** Every block of a write was tried: unless a copy failed, the heap was asked once for each of k blocks. */
  ghost predicate Tried(a: Ledger, b: Ledger, k: nat) { b.faults <= a.faults ==> DrewAll(a.calls, b.calls, k) }

  lemma TriedNothing(a: Ledger)
    ensures Tried(a, a, 0)
  {
  }

  lemma TriedJoin(a: Ledger, b: Ledger, d: Ledger, j: nat, k: nat)
    requires Tried(a, b, j) && Tried(b, d, k) && a.faults <= b.faults <= d.faults
    ensures Tried(a, d, j + k)
  {
    hide AskCount;
    assert a.calls <= b.calls <= d.calls ==> forall i :: 0 <= i < |a.calls| ==> a.calls[i] == d.calls[i];
  }

  lemma WroteFacts(a: Ledger, b: Ledger, off: nat, src: seq<byte>, err: Errno)
    requires Wrote(a, b, off, src, err)
    ensures err == Verdict(b.faults > a.faults, b.refused > a.refused) && Drew(a.calls, b.calls, Touched(off, |src|))
    ensures a.faults <= b.faults
  {
  }

  lemma FetchedFacts(a: Ledger, b: Ledger, off: nat, n: nat, err: Errno, data: seq<byte>)
    requires Fetched(a, b, off, n, err, data)
    ensures err == Verdict(b.faults > a.faults, false) && Drew(a.calls, b.calls, 0)
  {
  }

  /** What a read did: it changed nothing, and unless a copy failed it returned exactly the bytes. */
  ghost predicate Fetched(a: Ledger, b: Ledger, off: nat, n: nat, err: Errno, data: seq<byte>) {
    && off + n <= CBLK_SIZE * |a.pages|
    && b.pages == a.pages && b.spare == a.spare && b.refused == a.refused && a.faults <= b.faults
    && err == Verdict(b.faults > a.faults, false) && Drew(a.calls, b.calls, 0)
    && (err == Fine ==> data == Range(a.pages, off, n))
  }

  /** What one set of blank operations amounted to: the writes that did not fail are published in
      order, the reads that did not fail saw the store as it was, and the slots left behind are
      exactly those of the writes whose copy failed. */
  ghost predicate Ran(blank: seq<BlkOp>, done: seq<BlkOp>, a: Ledger, b: Ledger) {
    && Finished(blank, done)
    && InReach(done, a.pages) && Answered(done, a.pages) && b.pages == Applied(done, |done|, a.pages)
    && a.faults <= b.faults && (b.faults > a.faults <==> AnyErr(done, EIO))
    && a.refused <= b.refused && (b.refused > a.refused <==> AnyErr(done, ENOSPC))
    && b.spare == a.spare + Strays(done) && Strays(done) !! a.spare
    && DrewAll(a.calls, b.calls, WriteCount(blank, |blank|))
  }

  /** The same operations, each write published exactly when it did not fail. */
  ghost predicate Finished(blank: seq<BlkOp>, done: seq<BlkOp>) {
    && |done| == |blank|
    && (forall j :: 0 <= j < |done| ==>
          SameOp(blank[j], done[j]) && (Holds(done[j]) <==> done[j].write && done[j].err == Fine))
    && (forall j :: 0 <= j < |done| ==> done[j].err != EINVAL && (done[j].err == ENOSPC ==> done[j].write))
  }

  /** Slots are only ever left behind by a failed copy. */
  ghost predicate SpareKept(was: set<nat>, now: set<nat>, faulted: bool) { was <= now && (!faulted ==> now == was) }

  lemma RunErrors(blank: seq<BlkOp>, ready: seq<BlkOp>, done: seq<BlkOp>)
    requires |ready| == |blank| && (forall j :: 0 <= j < |blank| ==> Readied(blank[j], ready[j]))
             && Outcomes(ready, done)
    ensures Finished(blank, done)
    ensures !SameErrors(ready, done) <==> AnyErr(done, EIO)
    ensures AnyErr(done, ENOSPC) <==> !AllFine(ready, |ready|)
  {
    forall j | 0 <= j < |done|
      ensures SameOp(blank[j], done[j]) && (Holds(done[j]) <==> done[j].write && done[j].err == Fine)
      ensures done[j].err == EIO <==> done[j].err != ready[j].err
      ensures done[j].err == ENOSPC <==> ready[j].err != Fine
      ensures done[j].err != EINVAL && (done[j].err == ENOSPC ==> done[j].write)
    {
      assert Readied(blank[j], ready[j]) && Outcome(ready[j], done[j]);
    }
  }

  lemma ReadySpare(blank: seq<BlkOp>, ready: seq<BlkOp>, done: seq<BlkOp>, spare: set<nat>)
    requires |ready| == |blank| && (forall j :: 0 <= j < |blank| ==> Readied(blank[j], ready[j]))
    requires Outcomes(ready, done) && Distinct(ready) && Reservations(ready) !! spare
    ensures spare + Reservations(ready) - Reservations(done) == spare + Strays(done) && Strays(done) !! spare
  {
    hide Outcomes, Distinct, Reservations, Strays;
    SpareLeft(spare, ready, done);
  }

  lemma RunSummary(blank: seq<BlkOp>, ready: seq<BlkOp>, done: seq<BlkOp>, a: Ledger, m: Ledger, b: Ledger)
    requires |ready| == |blank| && (forall j :: 0 <= j < |blank| ==> Readied(blank[j], ready[j]))
             && Outcomes(ready, done)
    requires m.pages == a.pages && m.faults == a.faults && b.refused == m.refused
    requires m.spare == a.spare + Reservations(ready) && Reservations(ready) !! a.spare
    requires a.refused <= m.refused && (AllFine(ready, |ready|) <==> m.refused == a.refused)
    requires InReach(done, m.pages) && Answered(done, m.pages) && b.pages == Applied(done, |done|, m.pages)
    requires m.faults <= b.faults && (b.faults == m.faults <==> SameErrors(ready, done))
    requires b.spare == m.spare - Reservations(done) && Distinct(ready)
    requires DrewAll(a.calls, m.calls, WriteCount(blank, |blank|)) && Drew(m.calls, b.calls, 0)
    ensures Ran(blank, done, a, b)
  {
    assert |done| == |ready|;
    DrewAllTrans(a.calls, m.calls, b.calls, WriteCount(blank, |blank|));
    ReadySpare(blank, ready, done, a.spare);
    hide Outcomes, SameErrors, AllFine, Reservations, Strays, Applied, Answered, InReach, AnyErr, Distinct, Finished,
      Readied, Drew, DrewAll, WriteCount;
    RunErrors(blank, ready, done);
  }

  lemma StagedDistinct(c: Codec, s: Store, ops: seq<BlkOp>)
    requires Staged(c, s, ops, 0)
    ensures Distinct(ops)
  {
  }

  lemma NoStrays(ops: seq<BlkOp>)
    requires forall j :: 0 <= j < |ops| ==> !ops[j].write || ops[j].err != EIO
    ensures Strays(ops) == {}
  {
  }

  ghost predicate AllBlank(ops: seq<BlkOp>, nblocks: nat) {
    forall j :: 0 <= j < |ops| ==> Blank(ops[j]) && ops[j].blk < nblocks
  }

  /** Prepare, copy, finish: one set of operations from start to end. A write is refused exactly when the
      heap, as the writes before it left it, has no room for its stored page. */
  method RunOps(w: BlockWorker, n: nat)
    requires w.store.Valid() && n <= w.ops.Length && AllBlank(w.Set(n), w.store.index.Length)
    modifies w.ops, w.store.Repr()
    ensures w.store.Valid() && Ran(old(w.Set(n)), w.Set(n), old(w.store.Books()), w.store.Books())
    ensures Rationed(w.store.codec, w.store.start, old(w.store.calls), old(w.Set(n)), w.Set(n), n)
  {
    hide StoreOk, RoundTrips, Accounted, HeapModel.Good, Preparing, Staged, Outcomes, SameErrors, AllFine, Reservations,
      Spare, Applied, Answered, InReach, Readied, Ran, AllBlank, Distinct, Drew, DrewAll, WriteCount, Asks, Rationed;
    ghost var c, s0, blank, a := w.store.codec, w.store.View(), w.Set(n), w.store.Books();
    BlankStarts(c, s0, blank);
    w.PrepareOps(n);
    ghost var ready, s1, m := w.Set(n), w.store.View(), w.store.Books();
    PreparingEnds(c, s0, s1, blank, ready);
    StagedDistinct(c, s1, ready);
    AsksCounted(c, a.calls, blank, n);
    w.DoBlocks(n);
    RunSummary(blank, ready, w.Set(n), a, m, w.store.Books());
    RationedOutcomes(c, w.store.start, a.calls, blank, ready, w.Set(n));
  }

  lemma BlankStarts(c: Codec, s: Store, ops: seq<BlkOp>)
    requires StoreOk(c, s) && AllBlank(ops, |s.index|)
    ensures Preparing(c, s, s, ops, ops, 0) && |s.index| == |s.pages|
  {
    PreparingStarts(c, s, ops);
  }

  // ------------------------------------------------------------ whole blocks

  /** One read per block of a run. */
  function ReadOps(blk: nat,
      n: nat): seq<BlkOp> { seq(n, j requires 0 <= j < n => NewOp(blk + j, false, ZeroPage(), 0)) }

  /** One write per block of a run. */
  function WriteOps(blk: nat, src: seq<byte>, n: nat): seq<BlkOp>
    requires |src| == CBLK_SIZE * n
  {
    seq(n, j requires 0 <= j < n => NewOp(blk + j, true, Slice(src, j), 0))
  }

  /** A run of reads asks for nothing, a run of writes once per block. */
  lemma {:induction false} RunCount(ops: seq<BlkOp>, n: nat, write: bool)
    requires n <= |ops| && forall j :: 0 <= j < |ops| ==> ops[j].write == write
    ensures WriteCount(ops, n) == if write then n else 0
  {
    if n > 0 { RunCount(ops, n - 1, write); }
  }

  lemma ReadOpsAt(blk: nat, n: nat)
    ensures |ReadOps(blk, n)| == n
    ensures forall j :: 0 <= j < n ==>
              ReadOps(blk, n)[j].blk == blk + j && !ReadOps(blk, n)[j].write && Blank(ReadOps(blk, n)[j])
  {
    forall j | 0 <= j < n
      ensures ReadOps(blk, n)[j] == NewOp(blk + j, false, ZeroPage(), 0)
    {
    }
  }

  lemma WriteOpsAt(blk: nat, src: seq<byte>, n: nat)
    requires |src| == CBLK_SIZE * n
    ensures |WriteOps(blk, src, n)| == n
    ensures forall j :: 0 <= j < n ==>
              WriteOps(blk, src, n)[j] == BlkOp(blk + j, true, Slice(src, j), 0, Fine, 0, 0, 0, SLOT_NONE, [])
  {
  }

  lemma WindowBlock(done: seq<BlkOp>, a: Ledger, b: Ledger, blk: nat, src: seq<byte>, n: nat, k: nat)
    requires |src| == CBLK_SIZE * n && Ran(WriteOps(blk, src, n), done, a, b) && blk + n <= |a.pages| && k < |a.pages|
    ensures |b.pages| == |a.pages|
    ensures var target := Overwrite(a.pages, CBLK_SIZE * blk, src)[k];
            (b.pages[k] == a.pages[k] || b.pages[k] == target)
              && (b.faults == a.faults && b.refused == a.refused ==> b.pages[k] == target)
  {
    WriteOpsAt(blk, src, n);
    hide WriteOps, Answered, SpareKept, Overwrite, DrewAll, WriteCount;
    assert forall j :: 0 <= j < n ==> SameOp(WriteOps(blk, src, n)[j], done[j]);
    AppliedRun(done, n, a.pages, blk, k);
    OverwriteWhole(a.pages, blk, n, src, k);
  }

  lemma WindowWritten(done: seq<BlkOp>, a: Ledger, b: Ledger, blk: nat, src: seq<byte>, n: nat)
    requires |src| == CBLK_SIZE * n && Ran(WriteOps(blk, src, n), done, a, b) && blk + n <= |a.pages|
    ensures Wrote(a, b, CBLK_SIZE * blk, src, Verdict(b.faults > a.faults, b.refused > a.refused)) && Tried(a, b, n)
  {
    WriteOpsAt(blk, src, n);
    RunCount(WriteOps(blk, src, n), n, true);
    TouchedWhole(blk, n);
    hide WriteOps, Applied, Answered, Overwrite, Touched, WriteCount, AskCount;
    forall k | 0 <= k < |a.pages|
      ensures |b.pages| == |a.pages|
      ensures var target := Overwrite(a.pages, CBLK_SIZE * blk, src)[k];
              (b.pages[k] == a.pages[k] || b.pages[k] == target)
                && (b.faults == a.faults && b.refused == a.refused ==> b.pages[k] == target)
    {
      WindowBlock(done, a, b, blk, src, n, k);
    }
  }

  lemma WindowRead(done: seq<BlkOp>, a: Ledger, b: Ledger, blk: nat, n: nat)
    requires Ran(ReadOps(blk, n), done, a, b) && blk + n <= |a.pages|
    ensures b.pages == a.pages && b.refused == a.refused && b.spare == a.spare && a.faults <= b.faults
    ensures Drew(a.calls, b.calls, 0)
    ensures b.faults == a.faults ==> forall j :: 0 <= j < n ==> done[j].page == a.pages[blk + j]
  {
    ReadOpsAt(blk, n);
    RunCount(ReadOps(blk, n), n, false);
    hide ReadOps, WriteCount, AskCount;
    assert forall j :: 0 <= j < n ==> SameOp(ReadOps(blk, n)[j], done[j]);
    forall k | 0 <= k < |a.pages|
      ensures b.pages[k] == a.pages[k]
    {
      AppliedElsewhere(done, n, a.pages, k);
    }
  }

  method FillWrites(w: BlockWorker, blk: nat, src: seq<byte>, n: nat)
    requires n <= w.ops.Length && |src| == CBLK_SIZE * n
    modifies w.ops
    ensures w.Set(n) == WriteOps(blk, src, n)
  {
    for i := 0 to n
      invariant forall j :: 0 <= j < i ==> w.ops[j] == NewOp(blk + j, true, Slice(src, j), 0)
    {
      w.ops[i] := NewOp(blk + i, true, Slice(src, i), 0);
    }
  }

  method FillReads(w: BlockWorker, blk: nat, n: nat)
    requires n <= w.ops.Length
    modifies w.ops
    ensures w.Set(n) == ReadOps(blk, n)
  {
    for i := 0 to n
      invariant forall j :: 0 <= j < i ==> w.ops[j] == NewOp(blk + j, false, ZeroPage(), 0)
    {
      w.ops[i] := NewOp(blk + i, false, ZeroPage(), 0);
    }
  }

  lemma OpsAreBlank(blk: nat, src: seq<byte>, n: nat, nblocks: nat)
    requires blk + n <= nblocks && |src| == CBLK_SIZE * n
    ensures AllBlank(ReadOps(blk, n), nblocks) && AllBlank(WriteOps(blk, src, n), nblocks)
  {
    ReadOpsAt(blk, n);
    WriteOpsAt(blk, src, n);
  }

  /** The error of a set: EIO if any copy failed, else ENOSPC if any write was refused. */
  method Collect(w: BlockWorker, n: nat) returns (err: Errno)
    requires n <= w.ops.Length && forall j :: 0 <= j < n ==> w.ops[j].err != EINVAL
    ensures err == Verdict(AnyErr(w.Set(n), EIO), AnyErr(w.Set(n), ENOSPC))
  {
    err := Fine;
    for i := 0 to n
      invariant err == Verdict(AnyErr(w.ops[..i], EIO), AnyErr(w.ops[..i], ENOSPC))
    {
      AnyErrNext(w.ops[..], i, EIO);
      AnyErrNext(w.ops[..], i, ENOSPC);
      err := Worse(err, w.ops[i].err);
    }
  }

  lemma AnyErrNext(ops: seq<BlkOp>, i: nat, e: Errno)
    requires i < |ops|
    ensures AnyErr(ops[..i + 1], e) <==> AnyErr(ops[..i], e) || ops[i].err == e
  {
    var a, b := ops[..i], ops[..i + 1];
    assert b[i] == ops[i] && forall j :: 0 <= j < i ==> a[j] == b[j];
    if AnyErr(a, e) {
      var j :| 0 <= j < |a| && a[j].err == e;
      assert b[j].err == e;
    }
  }

  method RunWrites(w: BlockWorker, blk: nat, src: seq<byte>, n: nat)
    requires w.store.Valid() && n <= w.ops.Length && |src| == CBLK_SIZE * n && blk + n <= w.store.index.Length
    modifies w.ops, w.store.Repr()
    ensures w.store.Valid() && Ran(WriteOps(blk, src, n), w.Set(n), old(w.store.Books()), w.store.Books())
  {
    hide StoreOk, RoundTrips, Accounted, HeapModel.Good, Ran, Spare, WriteOps, AllBlank;
    FillWrites(w, blk, src, n);
    OpsAreBlank(blk, src, n, w.store.index.Length);
    RunOps(w, n);
  }

  /** One window of whole-block writes. */
  method StoreWindow(w: BlockWorker, blk: nat, src: seq<byte>, n: nat) returns (err: Errno)
    requires w.store.Valid() && n <= w.ops.Length && |src| == CBLK_SIZE * n && blk + n <= w.store.index.Length
    modifies w.ops, w.store.Repr()
    ensures w.store.Valid() && Wrote(old(w.store.Books()), w.store.Books(), CBLK_SIZE * blk, src, err)
    ensures Tried(old(w.store.Books()), w.store.Books(), n)
  {
    hide StoreOk, RoundTrips, Accounted, HeapModel.Good, Ran, Wrote, Spare, AnyErr, WriteOps, Tried;
    ShapeOk(w.store.codec, w.store.View());
    ghost var a := w.store.Books();
    RunWrites(w, blk, src, n);
    WindowWritten(w.Set(n), a, w.store.Books(), blk, src, n);
    RanErrors(WriteOps(blk, src, n), w.Set(n), a, w.store.Books());
    err := Collect(w, n);
  }

  lemma RanErrors(blank: seq<BlkOp>, done: seq<BlkOp>, a: Ledger, b: Ledger)
    requires Ran(blank, done, a, b)
    ensures forall j :: 0 <= j < |done| ==> done[j].err != EINVAL
    ensures (b.faults > a.faults <==> AnyErr(done, EIO)) && (b.refused > a.refused <==> AnyErr(done, ENOSPC))
  {
  }

  /** Whole-block writes, in windows of at most maxops. */
  method StoreBlocks(w: BlockWorker, blk: nat, src: seq<byte>, nblocks: nat) returns (err: Errno)
    requires w.store.Valid() && w.ops.Length > 0
    requires |src| == CBLK_SIZE * nblocks && blk + nblocks <= w.store.index.Length
    modifies w.ops, w.store.Repr()
    ensures w.store.Valid() && Wrote(old(w.store.Books()), w.store.Books(), CBLK_SIZE * blk, src, err)
    ensures err == EIO <==> DeviceFailed(w.store.device, old(w.store.copies), w.store.copies)
    ensures err == ENOSPC <==> err != EIO && RanOut(w.store.start, old(w.store.calls), w.store.calls)
    ensures old(w.store.RoomFor(nblocks)) ==> err != ENOSPC
    ensures Tried(old(w.store.Books()), w.store.Books(), nblocks)
  {
    hide StoreOk, RoundTrips, Accounted, HeapModel.Good, Wrote, Spare, Drew, RanOut, DeviceFailed, Touched, Tried;
    ghost var a := w.store.Books();
    TriedNothing(a);
    err := Fine;
    var k := 0;
    WroteNothing(a, CBLK_SIZE * blk);
    assert src[..CBLK_SIZE * nblocks] == src;
    while k < nblocks
      invariant k <= nblocks && w.store.Valid()
      invariant Wrote(a, w.store.Books(), CBLK_SIZE * blk, src[..CBLK_SIZE * k], err)
      invariant Tried(a, w.store.Books(), k)
    {
      var n := if nblocks - k > w.ops.Length then w.ops.Length else nblocks - k;
      ghost var b, done, next := w.store.Books(), src[..CBLK_SIZE * k], src[CBLK_SIZE * k..CBLK_SIZE * (k + n)];
      var e := StoreWindow(w, blk + k, src[CBLK_SIZE * k..CBLK_SIZE * (k + n)], n);
      WroteFacts(a, b, CBLK_SIZE * blk, done, err);
      WroteFacts(b, w.store.Books(), CBLK_SIZE * (blk + k), next, e);
      TriedJoin(a, b, w.store.Books(), k, n);
      WroteJoin(a, b, w.store.Books(), CBLK_SIZE * blk, done, next, err, e);
      assert done + next == src[..CBLK_SIZE * (k + n)];
      err := Worse(err, e);
      k := k + n;
    }
    WroteFacts(a, w.store.Books(), CBLK_SIZE * blk, src, err);
    TouchedWhole(blk, nblocks);
    w.store.WhyFailed(nblocks);
  }

  /** The pages of n operations from operation lo on, end to end. */
  method Gather(w: BlockWorker, lo: nat, n: nat) returns (data: seq<byte>)
    requires lo + n <= w.ops.Length
    ensures |data| == CBLK_SIZE * n && forall j :: 0 <= j < n ==> Slice(data, j) == w.ops[lo + j].page
  {
    data := [];
    for i := 0 to n
      invariant |data| == CBLK_SIZE * i && forall j :: 0 <= j < i ==> Slice(data, j) == w.ops[lo + j].page
    {
      ghost var was := data;
      data := data + w.ops[lo + i].page;
      assert Slice(data, i) == w.ops[lo + i].page;
      forall j | 0 <= j < i + 1
        ensures Slice(data, j) == w.ops[lo + j].page
      {
        if j < i { assert Slice(data, j) == Slice(was, j); }
      }
    }
  }

  lemma SlicesAreRange(pages: seq<Page>, blk: nat, n: nat, data: seq<byte>)
    requires |data| == CBLK_SIZE * n && blk + n <= |pages|
    requires forall j :: 0 <= j < n ==> Slice(data, j) == pages[blk + j]
    ensures data == Range(pages, CBLK_SIZE * blk, CBLK_SIZE * n)
  {
    var r := Range(pages, CBLK_SIZE * blk, CBLK_SIZE * n);
    forall k | 0 <= k < |data|
      ensures data[k] == r[k]
    {
      SliceByte(pages, blk, n, data, k);
    }
  }

  lemma SliceByte(pages: seq<Page>, blk: nat, n: nat, data: seq<byte>, k: nat)
    requires |data| == CBLK_SIZE * n && blk + n <= |pages| && k < |data|
    requires forall j :: 0 <= j < n ==> Slice(data, j) == pages[blk + j]
    ensures data[k] == Range(pages, CBLK_SIZE * blk, CBLK_SIZE * n)[k]
  {
    var j, i := k / CBLK_SIZE, k % CBLK_SIZE;
    BlockAndByte(blk, k);
    assert j < n && k == CBLK_SIZE * j + i;
    SliceAt(data, j, i);
    assert Slice(data, j) == pages[blk + j];
  }

  lemma BlockAndByte(blk: nat, k: nat)
    ensures (CBLK_SIZE * blk + k) / CBLK_SIZE == blk + k / CBLK_SIZE
    ensures (CBLK_SIZE * blk + k) % CBLK_SIZE == k % CBLK_SIZE
  {
  }

  lemma SliceAt(data: seq<byte>, j: nat, i: nat)
    requires CBLK_SIZE * (j + 1) <= |data| && i < CBLK_SIZE
    ensures Slice(data, j)[i] == data[CBLK_SIZE * j + i]
  {
  }

  method RunReads(w: BlockWorker, blk: nat, n: nat)
    requires w.store.Valid() && n <= w.ops.Length && blk + n <= w.store.index.Length
    modifies w.ops, w.store.Repr()
    ensures w.store.Valid() && Ran(ReadOps(blk, n), w.Set(n), old(w.store.Books()), w.store.Books())
  {
    hide StoreOk, RoundTrips, Accounted, HeapModel.Good, Ran, Spare, ReadOps, AllBlank;
    FillReads(w, blk, n);
    OpsAreBlank(blk, seq(CBLK_SIZE * n, _ => 0), n, w.store.index.Length);
    RunOps(w, n);
  }

  /** One window of whole-block reads. */
  method LoadWindow(w: BlockWorker, blk: nat, n: nat) returns (err: Errno, data: seq<byte>)
    requires w.store.Valid() && n <= w.ops.Length && blk + n <= w.store.index.Length
    modifies w.ops, w.store.Repr()
    ensures w.store.Valid() && Fetched(old(w.store.Books()), w.store.Books(), CBLK_SIZE * blk, CBLK_SIZE * n, err, data)
  {
    hide StoreOk, RoundTrips, Accounted, HeapModel.Good, Ran, Spare, AnyErr, Range, ReadOps, Fetched;
    ShapeOk(w.store.codec, w.store.View());
    ghost var a := w.store.Books();
    RunReads(w, blk, n);
    RanErrors(ReadOps(blk, n), w.Set(n), a, w.store.Books());
    err := Collect(w, n);
    data := Gather(w, 0, n);
    WindowFetched(w.Set(n), a, w.store.Books(), blk, n, data);
  }

  lemma WindowFetched(done: seq<BlkOp>, a: Ledger, b: Ledger, blk: nat, n: nat, data: seq<byte>)
    requires Ran(ReadOps(blk, n), done, a, b) && blk + n <= |a.pages|
    requires |data| == CBLK_SIZE * n == CBLK_SIZE * |done| && forall j :: 0 <= j < n ==> Slice(data, j) == done[j].page
    ensures b.refused == a.refused
    ensures Fetched(a, b, CBLK_SIZE * blk, CBLK_SIZE * n, Verdict(b.faults > a.faults, false), data)
  {
    WindowRead(done, a, b, blk, n);
    hide Ran, ReadOps, Range;
    if b.faults == a.faults { SlicesAreRange(a.pages, blk, n, data); }
  }

  lemma FetchedNothing(a: Ledger, off: nat)
    requires off <= CBLK_SIZE * |a.pages|
    ensures Fetched(a, a, off, 0, Fine, [])
  {
  }

  lemma FetchedJoin(a: Ledger, b: Ledger, d: Ledger, off: nat, n: nat, m: nat, d1: seq<byte>, d2: seq<byte>, err: Errno)
    requires Fetched(a, b, off, n, Fine, d1) && Fetched(b, d, off + n, m, err, d2)
    ensures Fetched(a, d, off, n + m, err, d1 + d2)
  {
    RangeJoin(a.pages, off, n, m);
    DrewTrans(a.calls, b.calls, d.calls, 0, 0);
    hide Drew;
  }

  /** A read that failed part-way: whatever was fetched before, the whole read fails. */
  lemma FetchedFails(a: Ledger, b: Ledger, off: nat, n: nat, off': nat, n': nat, err: Errno, data: seq<byte>)
    requires Fetched(a, b, off, n, err, data) && err != Fine && off' + n' <= CBLK_SIZE * |a.pages|
    ensures Fetched(a, b, off', n', err, data)
  {
  }

  /** The next window of a run of which k blocks are in `data`. */
  method LoadNext(w: BlockWorker, blk: nat, nblocks: nat, k: nat, data: seq<byte>, ghost a: Ledger) returns (err: Errno,
      all: seq<byte>, k': nat)
    requires w.store.Valid() && w.ops.Length > 0 && blk + nblocks <= w.store.index.Length && k < nblocks
    requires Fetched(a, w.store.Books(), CBLK_SIZE * blk, CBLK_SIZE * k, Fine, data)
    modifies w.ops, w.store.Repr()
    ensures w.store.Valid() && k < k' <= nblocks
    ensures Fetched(a, w.store.Books(), CBLK_SIZE * blk, CBLK_SIZE * k', err, all)
  {
    hide StoreOk, RoundTrips, Accounted, HeapModel.Good, Fetched, Spare;
    var n := if nblocks - k > w.ops.Length then w.ops.Length else nblocks - k;
    ghost var b := w.store.Books();
    var part;
    err, part := LoadWindow(w, blk + k, n);
    FetchedJoin(a, b, w.store.Books(), CBLK_SIZE * blk, CBLK_SIZE * k, CBLK_SIZE * n, data, part, err);
    all, k' := data + part, k + n;
  }

  /** Whole-block reads, in windows of at most maxops; stops at the first failed window. */
  method LoadBlocks(w: BlockWorker, blk: nat, nblocks: nat) returns (err: Errno, data: seq<byte>)
    requires w.store.Valid() && w.ops.Length > 0 && blk + nblocks <= w.store.index.Length
    modifies w.ops, w.store.Repr()
    ensures w.store.Valid()
            && Fetched(old(w.store.Books()), w.store.Books(), CBLK_SIZE * blk, CBLK_SIZE * nblocks, err, data)
    ensures err == EIO <==> DeviceFailed(w.store.device, old(w.store.copies), w.store.copies)
  {
    hide StoreOk, RoundTrips, Accounted, HeapModel.Good, Fetched, Spare;
    ShapeOk(w.store.codec, w.store.View());
    ghost var a := w.store.Books();
    FetchedNothing(a, CBLK_SIZE * blk);
    err, data := Fine, [];
    var k := 0;
    while k < nblocks && err == Fine
      invariant k <= nblocks && w.store.Valid()
      invariant Fetched(a, w.store.Books(), CBLK_SIZE * blk, CBLK_SIZE * k, err, data)
    {
      err, data, k := LoadNext(w, blk, nblocks, k, data, a);
    }
    if err != Fine {
      FetchedFails(a, w.store.Books(), CBLK_SIZE * blk, CBLK_SIZE * k, CBLK_SIZE * blk, CBLK_SIZE * nblocks, err, data);
    }
    FetchedFacts(a, w.store.Books(), CBLK_SIZE * blk, CBLK_SIZE * nblocks, err, data);
    w.store.WhyFailed(0);
  }

  // ------------------------------------------------------------- byte ranges

  /** A write inside one block. */
  method StoreEdge(w: BlockWorker, off: nat, src: seq<byte>) returns (err: Errno)
    requires w.store.Valid() && off / CBLK_SIZE < w.store.index.Length && 0 < off % CBLK_SIZE + |src| <= CBLK_SIZE
    modifies w.store.Repr()
    ensures w.store.Valid() && Wrote(old(w.store.Books()), w.store.Books(), off, src, err)
    ensures Tried(old(w.store.Books()), w.store.Books(), Touched(off, |src|))
  {
    hide StoreOk, RoundTrips, Accounted, HeapModel.Good, Spare, Overwrite, Splice, Drew, DrewAll, Touched, Denied,
      MustServe, StoredLen;
    var blk, boff := off / CBLK_SIZE, off % CBLK_SIZE;
    ShapeOk(w.store.codec, w.store.View());
    OverwriteOne(w.store.pages, off, src, blk, boff);
    TouchedOne(off, |src|);
    err := w.store.RmwBlock(blk, boff, src);
  }

  /** A read inside one block: the block is fetched whole and sliced. */
  method LoadEdge(w: BlockWorker, off: nat, n: nat) returns (err: Errno, data: seq<byte>)
    requires w.store.Valid() && w.ops.Length > 0 && off / CBLK_SIZE < w.store.index.Length
             && off % CBLK_SIZE + n <= CBLK_SIZE
    modifies w.ops, w.store.Repr()
    ensures w.store.Valid() && Fetched(old(w.store.Books()), w.store.Books(), off, n, err, data)
  {
    hide StoreOk, RoundTrips, Accounted, HeapModel.Good, Spare, Fetched;
    var blk, boff := off / CBLK_SIZE, off % CBLK_SIZE;
    ShapeOk(w.store.codec, w.store.View());
    ghost var a := w.store.Books();
    err, data := LoadBlocks(w, blk, 1);
    if err == Fine {
      EdgeFetched(a, w.store.Books(), blk, boff, n, data);
      data := data[boff..boff + n];
    } else {
      FetchedFails(a, w.store.Books(), CBLK_SIZE * blk, CBLK_SIZE, off, n, err, data);
    }
  }

  lemma EdgeFetched(a: Ledger, b: Ledger, blk: nat, boff: nat, n: nat, data: seq<byte>)
    requires Fetched(a, b, CBLK_SIZE * blk, CBLK_SIZE, Fine, data) && boff + n <= CBLK_SIZE && blk < |a.pages|
    ensures |data| == CBLK_SIZE && Fetched(a, b, CBLK_SIZE * blk + boff, n, Fine, data[boff..boff + n])
  {
    RangeOne(a.pages, blk, 0, CBLK_SIZE);
    RangeOne(a.pages, blk, boff, n);
  }

  /** Write an arbitrary byte range: partial head, whole middle, partial tail. On success exactly the
      bytes of the range change; on ENOSPC or EIO each block holds its old or its new content. EIO means the
      device failed a copy, ENOSPC that none failed and the heap, as it stood when it was asked, had no
      room for a block - never with room for as many blocks as the range touches. */
  method StoreRange(w: BlockWorker, off: nat, src: seq<byte>) returns (err: Errno)
    requires w.store.Valid() && w.ops.Length > 0 && off + |src| <= CBLK_SIZE * w.store.index.Length
    modifies w.ops, w.store.Repr()
    ensures w.store.Valid() && Wrote(old(w.store.Books()), w.store.Books(), off, src, err)
    ensures err == EIO <==> DeviceFailed(w.store.device, old(w.store.copies), w.store.copies)
    ensures err == ENOSPC <==> err != EIO && RanOut(w.store.start, old(w.store.calls), w.store.calls)
    ensures old(w.store.RoomFor(Touched(off, |src|))) ==> err != ENOSPC
    ensures Tried(old(w.store.Books()), w.store.Books(), Touched(off, |src|))
  {
    hide StoreOk, RoundTrips, Accounted, HeapModel.Good, Written, Spare, Drew, DrewAll, RanOut, DeviceFailed, Touched;
    err := StoreParts(w, off, src);
    w.store.WhyFailed(Touched(off, |src|));
  }

  /** The parts of a range, one after the other. */
  method StoreParts(w: BlockWorker, off: nat, src: seq<byte>) returns (err: Errno)
    requires w.store.Valid() && w.ops.Length > 0 && off + |src| <= CBLK_SIZE * w.store.index.Length
    modifies w.ops, w.store.Repr()
    ensures w.store.Valid() && Wrote(old(w.store.Books()), w.store.Books(), off, src, err)
    ensures Tried(old(w.store.Books()), w.store.Books(), Touched(off, |src|))
  {
    hide StoreOk, RoundTrips, Accounted, HeapModel.Good, Wrote, Spare, Tried, Touched;
    ghost var a := w.store.Books();
    WroteNothing(a, off);
    TriedNothing(a);
    TouchedNone(off);
    err := Fine;
    var k := 0;
    if off % CBLK_SIZE != 0 {
      k := if CBLK_SIZE - off % CBLK_SIZE > |src| then |src| else CBLK_SIZE - off % CBLK_SIZE;
      err := StoreEdge(w, off, src[..k]);
    }
    assert src[..0] == [];
    assert k < |src| ==> (off + k) % CBLK_SIZE == 0;
    err, k := StoreMiddle(w, off, src, k, a, err);
    err := StoreTail(w, off, src, k, a, err);
  }

  /** The last, partial block of a range whose first k bytes are done. */
  method StoreTail(w: BlockWorker, off: nat, src: seq<byte>, k: nat, ghost a: Ledger, err0: Errno) returns (err: Errno)
    requires w.store.Valid() && off + |src| <= CBLK_SIZE * w.store.index.Length
    requires k <= |src| < k + CBLK_SIZE && (k < |src| ==> (off + k) % CBLK_SIZE == 0)
    requires Wrote(a, w.store.Books(), off, src[..k], err0) && Tried(a, w.store.Books(), Touched(off, k))
    modifies w.store.Repr()
    ensures w.store.Valid() && Wrote(a, w.store.Books(), off, src, err)
    ensures Tried(a, w.store.Books(), Touched(off, |src|))
  {
    hide StoreOk, RoundTrips, Accounted, HeapModel.Good, Wrote, Spare, Tried, Touched;
    err := err0;
    assert src[..|src|] == src;
    if k < |src| {
      ghost var b := w.store.Books();
      var e := StoreEdge(w, off + k, src[k..]);
      WroteFacts(a, b, off, src[..k], err0);
      WroteFacts(b, w.store.Books(), off + k, src[k..], e);
      TouchedJoin(off, k, |src| - k);
      TriedJoin(a, b, w.store.Books(), Touched(off, k), Touched(off + k, |src| - k));
      WroteJoin(a, b, w.store.Books(), off, src[..k], src[k..], err0, e);
      assert src[..k] + src[k..] == src;
      err := Worse(err0, e);
    }
  }

  /** The whole blocks of a range whose first k bytes are done. */
  method StoreMiddle(w: BlockWorker, off: nat, src: seq<byte>, k: nat, ghost a: Ledger,
      err0: Errno) returns (err: Errno, k': nat)
    requires w.store.Valid() && w.ops.Length > 0 && off + |src| <= CBLK_SIZE * w.store.index.Length
    requires k <= |src| && (k < |src| ==> (off + k) % CBLK_SIZE == 0)
    requires Wrote(a, w.store.Books(), off, src[..k], err0) && Tried(a, w.store.Books(), Touched(off, k))
    modifies w.ops, w.store.Repr()
    ensures w.store.Valid() && k <= k' <= |src| && |src| - k' < CBLK_SIZE
            && (k' < |src| ==> (off + k') % CBLK_SIZE == 0)
    ensures Wrote(a, w.store.Books(), off, src[..k'], err) && Tried(a, w.store.Books(), Touched(off, k'))
  {
    hide StoreOk, RoundTrips, Accounted, HeapModel.Good, Wrote, Spare, Tried, Touched;
    err, k' := err0, k;
    if |src| - k >= CBLK_SIZE {
      var nb := (|src| - k) / CBLK_SIZE;
      k' := k + nb * CBLK_SIZE;
      ghost var b := w.store.Books();
      var e := StoreBlocks(w, (off + k) / CBLK_SIZE, src[k..k'], nb);
      WroteFacts(a, b, off, src[..k], err0);
      WroteFacts(b, w.store.Books(), off + k, src[k..k'], e);
      TouchedJoin(off, k, k' - k);
      TouchedWhole((off + k) / CBLK_SIZE, nb);
      TriedJoin(a, b, w.store.Books(), Touched(off, k), nb);
      WroteJoin(a, b, w.store.Books(), off, src[..k], src[k..k'], err0, e);
      assert src[..k] + src[k..k'] == src[..k'];
      err := Worse(err0, e);
    }
  }

  /** The last, partial block of a read whose first k bytes are in `data`. */
  method LoadTail(w: BlockWorker, off: nat, n: nat, k: nat, data: seq<byte>, ghost a: Ledger) returns (err: Errno,
      all: seq<byte>)
    requires w.store.Valid() && w.ops.Length > 0 && off + n <= CBLK_SIZE * w.store.index.Length
    requires k <= n < k + CBLK_SIZE && (k < n ==> (off + k) % CBLK_SIZE == 0)
             && Fetched(a, w.store.Books(), off, k, Fine, data)
    modifies w.ops, w.store.Repr()
    ensures w.store.Valid() && Fetched(a, w.store.Books(), off, n, err, all)
  {
    hide StoreOk, RoundTrips, Accounted, HeapModel.Good, Fetched, Spare;
    err, all := Fine, data;
    if k < n {
      ghost var b := w.store.Books();
      var part;
      err, part := LoadEdge(w, off + k, n - k);
      FetchedJoin(a, b, w.store.Books(), off, k, n - k, data, part, err);
      all := data + part;
    }
  }

  /** The whole blocks of a read whose first k bytes are in `data`. */
  method LoadMiddle(w: BlockWorker, off: nat, n: nat, k: nat, data: seq<byte>, ghost a: Ledger) returns (err: Errno,
      all: seq<byte>, k': nat)
    requires w.store.Valid() && w.ops.Length > 0 && off + n <= CBLK_SIZE * w.store.index.Length
    requires k <= n && (k < n ==> (off + k) % CBLK_SIZE == 0) && Fetched(a, w.store.Books(), off, k, Fine, data)
    modifies w.ops, w.store.Repr()
    ensures w.store.Valid() && k <= k' <= n < k' + CBLK_SIZE && (k' < n ==> (off + k') % CBLK_SIZE == 0)
    ensures Fetched(a, w.store.Books(), off, k', err, all)
  {
    hide StoreOk, RoundTrips, Accounted, HeapModel.Good, Fetched, Spare;
    err, all, k' := Fine, data, k;
    if n - k >= CBLK_SIZE {
      var nb := (n - k) / CBLK_SIZE;
      k' := k + nb * CBLK_SIZE;
      ghost var b := w.store.Books();
      var part;
      err, part := LoadBlocks(w, (off + k) / CBLK_SIZE, nb);
      FetchedJoin(a, b, w.store.Books(), off, k, CBLK_SIZE * nb, data, part, err);
      all := data + part;
    }
  }

  /** Read an arbitrary byte range: exactly the bytes of the range, unless the device fails a copy. */
  method LoadRange(w: BlockWorker, off: nat, n: nat) returns (err: Errno, data: seq<byte>)
    requires w.store.Valid() && w.ops.Length > 0 && off + n <= CBLK_SIZE * w.store.index.Length
    modifies w.ops, w.store.Repr()
    ensures w.store.Valid() && Fetched(old(w.store.Books()), w.store.Books(), off, n, err, data)
    ensures err == EIO <==> DeviceFailed(w.store.device, old(w.store.copies), w.store.copies)
  {
    hide StoreOk, RoundTrips, Accounted, HeapModel.Good, Fetched, Spare;
    ghost var a := w.store.Books();
    ShapeOk(w.store.codec, w.store.View());
    FetchedNothing(a, off);
    err, data := Fine, [];
    var k := 0;
    if off % CBLK_SIZE != 0 {
      k := if CBLK_SIZE - off % CBLK_SIZE > n then n else CBLK_SIZE - off % CBLK_SIZE;
      err, data := LoadEdge(w, off, k);
    }
    if err == Fine {
      err, data, k := LoadMiddle(w, off, n, k, data, a);
    }
    if err == Fine {
      err, data := LoadTail(w, off, n, k, data, a);
    } else {
      FetchedFails(a, w.store.Books(), off, k, off, n, err, data);
    }
    FetchedFacts(a, w.store.Books(), off, n, err, data);
    w.store.WhyFailed(0);
  }

  /** Discard: blocks wholly inside the range read as zeros and give their slots back; partial ends
      and everything else are kept. */
  method TrimRange(s: VramStore, off: nat, len: nat)
    requires s.Valid()
    modifies s.Repr()
    ensures s.Valid() && s.Books() == old(s.Books()).(pages := Trimmed(old(s.pages), off, len), calls := s.calls)
    ensures Drew(old(s.calls), s.calls, 0)
  {
    hide StoreOk, RoundTrips, Accounted, HeapModel.Good, Spare, Drew;
    var b0, b1 := (off + CBLK_SIZE - 1) / CBLK_SIZE, (off + len) / CBLK_SIZE;
    if b1 > s.index.Length {
      b1 := s.index.Length;
    }
    ShapeOk(s.codec, s.View());
    ghost var a := s.Books();
    DrewNone(a.calls);
    var b := b0;
    while b < b1
      invariant b0 <= b && s.Valid() && |s.pages| == |a.pages| == s.index.Length
      invariant s.Books() == a.(pages := s.pages, calls := s.calls) && Drew(a.calls, s.calls, 0)
      invariant forall j :: 0 <= j < |a.pages| ==> s.pages[j] == if b0 <= j < b
                && j < b1 then ZeroPage() else a.pages[j]
    {
      ghost var calls1 := s.calls;
      s.TrimBlock(b);
      DrewTrans(a.calls, calls1, s.calls, 0, 0);
      b := b + 1;
    }
    forall j | 0 <= j < |a.pages|
      ensures s.pages[j] == Trimmed(a.pages, off, len)[j]
    {
      TrimmedPrefix(a.pages, off, len, j);
    }
  }
}
