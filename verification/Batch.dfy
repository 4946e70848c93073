/** A batch of requests sharing one round of copies, on values: how requests map to block
    operations, and what the finished operations amount to request by request. */
module Batch {
  import opened Blocks
  import opened StoreModel
  import opened BlockOps
  import opened Worker
  import opened Disk
  import opened Windows

  const BATCH_SLOT: nat := 64 * 1024
  const BATCH_BLOCKS: nat := 16
  const MAX_BATCH_COPIES: nat := 64
  const LEGACY_WINDOW_BLOCKS: nat := 64

  /** struct bop. `slot` is the request's staging area: a write's payload. */
  datatype Bop = Bop(handle: nat, off: nat, len: nat, write: bool, error: Errno, op0: nat, nops: nat, slot: seq<byte>)

  /** Where the operations of request k start. */
  function StartOf(reqs: seq<Bop>, k: nat): nat
    requires k <= |reqs|
  {
    if k == 0 then 0 else StartOf(reqs, k - 1) + reqs[k - 1].nops
  }

  /** A batchable request: aligned, and small enough for its staging slot. */
  predicate Batchable(r: Bop) {
    && 0 < r.len <= BATCH_SLOT && r.off % CBLK_SIZE == 0 && r.len % CBLK_SIZE == 0
    && (r.write ==> |r.slot| == r.len)
  }

  /** Operation q is block q - op0 of request i. */
  predicate OpOf(r: Bop, i: nat, op: BlkOp, q: nat) {
    && Batchable(r) && r.op0 <= q < r.op0 + r.nops <= r.op0 + r.len / CBLK_SIZE
    && op.req == i && op.blk == r.off / CBLK_SIZE + (q - r.op0) && op.write == r.write
    && (op.write ==> op.page == Slice(r.slot, q - r.op0))
  }

  /** Request i owns a contiguous run of operations, one per block - none if it is out of bounds. */
  ghost predicate ReqOk(reqs: seq<Bop>, ops: seq<BlkOp>, i: nat, nblocks: nat)
    requires i < |reqs|
  {
    var r := reqs[i];
    && Batchable(r) && r.op0 == StartOf(reqs, i) && r.op0 + r.nops <= |ops|
    && r.nops == (if OutOfBounds(CBLK_SIZE * nblocks, r.off, r.len) then 0 else r.len / CBLK_SIZE)
    && forall q :: r.op0 <= q < r.op0 + r.nops ==> OpOf(r, i, ops[q], q)
  }

  ghost predicate OpOk(reqs: seq<Bop>, op: BlkOp, q: nat) { op.req < |reqs| && OpOf(reqs[op.req], op.req, op, q) }

  ghost predicate Mapped(reqs: seq<Bop>, ops: seq<BlkOp>, nblocks: nat) {
    && |ops| == StartOf(reqs, |reqs|)
    && (forall i :: 0 <= i < |reqs| ==> ReqOk(reqs, ops, i, nblocks))
    && (forall q :: 0 <= q < |ops| ==> OpOk(reqs, ops[q], q) && ops[q].blk < nblocks)
  }

  /** Only the error of a request changes while the batch runs. */
  predicate SameReq(a: Bop, b: Bop) { b == a.(error := b.error) }

  ghost predicate SameReqs(a: seq<Bop>, b: seq<Bop>) { |a| == |b| && forall i :: 0 <= i < |a| ==> SameReq(a[i], b[i]) }

  ghost predicate SameOps(a: seq<BlkOp>, b: seq<BlkOp>) {
    |a| == |b| && forall q :: 0 <= q < |a| ==> SameOp(a[q], b[q])
  }

  lemma {:induction false} WriteCountSame(a: seq<BlkOp>, b: seq<BlkOp>, n: nat)
    requires SameOps(a, b) && n <= |a|
    ensures WriteCount(a, n) == WriteCount(b, n)
  {
    if n > 0 {
      WriteCountSame(a, b, n - 1);
      assert SameOp(a[n - 1], b[n - 1]);
    }
  }

  lemma {:induction false} StartSame(a: seq<Bop>, b: seq<Bop>, k: nat)
    requires SameReqs(a, b) && k <= |a|
    ensures StartOf(a, k) == StartOf(b, k)
  {
    if k > 0 {
      StartSame(a, b, k - 1);
      assert SameReq(a[k - 1], b[k - 1]);
    }
  }

  lemma MappedSame(a: seq<Bop>, b: seq<Bop>, ops: seq<BlkOp>, done: seq<BlkOp>, nblocks: nat)
    requires Mapped(a, ops, nblocks) && SameReqs(a, b) && SameOps(ops, done)
    ensures Mapped(b, done, nblocks)
  {
    StartSame(a, b, |a|);
    forall q | 0 <= q < |done|
      ensures OpOk(b, done[q], q) && done[q].blk < nblocks
    {
      assert OpOk(a, ops[q], q) && SameOp(ops[q], done[q]) && SameReq(a[ops[q].req], b[ops[q].req]);
    }
    forall i | 0 <= i < |b|
      ensures ReqOk(b, done, i, nblocks)
    {
      StartSame(a, b, i);
      assert ReqOk(a, ops, i, nblocks) && SameReq(a[i], b[i]);
      forall q | b[i].op0 <= q < b[i].op0 + b[i].nops
        ensures OpOf(b[i], i, done[q], q)
      {
        assert OpOf(a[i], i, ops[q], q) && SameOp(ops[q], done[q]);
      }
    }
  }

  // ---------------------------------------------------------------- meaning

  /** The meaning of a batch: its writes, in request order, each whole or not at all. */
  ghost function BatchWrites(reqs: seq<Bop>, k: nat, pages: seq<Page>): (r: seq<Page>)
    requires k <= |reqs|
    ensures |r| == |pages|
  {
    if k == 0 then pages
    else
      var p, r := BatchWrites(reqs, k - 1, pages), reqs[k - 1];
      if r.write && r.error == Fine then Overwrite(p, r.off, r.slot) else p
  }

  /** A write publishes exactly when its request has no error. */
  ghost predicate AllOrNothing(reqs: seq<Bop>, ops: seq<BlkOp>) {
    forall q :: 0 <= q < |ops| ==>
      ops[q].req < |reqs| && (Holds(ops[q]) <==> ops[q].write && reqs[ops[q].req].error == Fine)
  }

  /** Operations lo..lo+n are for consecutive blocks, from block blk on. */
  ghost predicate Stretch(ops: seq<BlkOp>, lo: nat, n: nat, blk: nat) {
    lo + n <= |ops| && forall q :: lo <= q < lo + n ==> ops[q].blk == blk + (q - lo)
  }

  lemma {:induction false} AppliedStretch(ops: seq<BlkOp>, lo: nat, n: nat, blk: nat, m: nat, pages: seq<Page>, b: nat)
    requires Stretch(ops, lo, n, blk) && m <= n && InReach(ops, pages) && b < |pages|
    ensures Applied(ops, lo + m, pages)[b] ==
            if blk <= b < blk + m && Holds(ops[lo + (b - blk)]) then ops[lo + (b - blk)].page
              else Applied(ops, lo, pages)[b]
  {
    if m > 0 {
      AppliedStretch(ops, lo, n, blk, m - 1, pages, b);
    }
  }

  lemma ReqFacts(reqs: seq<Bop>, ops: seq<BlkOp>, i: nat, nblocks: nat)
    requires Mapped(reqs, ops, nblocks) && i < |reqs|
    ensures var r := reqs[i];
            && r.op0 == StartOf(reqs, i) && r.op0 + r.nops == StartOf(reqs, i + 1) <= |ops|
            && (r.nops == 0 <==> OutOfBounds(CBLK_SIZE * nblocks, r.off, r.len))
            && r.off == CBLK_SIZE * (r.off / CBLK_SIZE)
            && (r.nops > 0 ==> r.len == CBLK_SIZE * r.nops && r.off / CBLK_SIZE + r.nops <= nblocks)
            && (r.write ==> |r.slot| == r.len)
  {
    assert ReqOk(reqs, ops, i, nblocks);
  }

  // ------------------------------------------------- what a request publishes

  function FirstBlock(r: Bop): nat { r.off / CBLK_SIZE }

  /** Block b of the device is one the request asks for. */
  predicate InReq(r: Bop, b: nat) { FirstBlock(r) <= b < FirstBlock(r) + r.len / CBLK_SIZE }

  /** The operation that serves block b of a request. */
  function OpAt(r: Bop, b: nat): int { r.op0 + (b - FirstBlock(r)) }

  ghost predicate HasOp(r: Bop, done: seq<BlkOp>, b: nat) {
    InReq(r, b) && 0 <= b - FirstBlock(r) < r.nops && OpAt(r, b) < |done|
  }

  /** Block b was published by this request. */
  ghost predicate Landed(r: Bop, done: seq<BlkOp>, b: nat) { HasOp(r, done, b) && Holds(done[OpAt(r, b)]) }

  /** The request's own copy for block b failed. */
  ghost predicate Failed(r: Bop, done: seq<BlkOp>, b: nat) { HasOp(r, done, b) && done[OpAt(r, b)].err == EIO }

  /** The payload a write has for block b. */
  function PayloadAt(r: Bop, b: nat): Option<Page> {
    var j := b - FirstBlock(r);
    if j >= 0 && CBLK_SIZE * (j + 1) <= |r.slot| then Some(Slice(r.slot, j)) else None
  }

  ghost function LandedPage(r: Bop, done: seq<BlkOp>, b: nat, was: Page): Page {
    if r.write && Landed(r, done, b) && PayloadAt(r, b).Some? then PayloadAt(r, b).value else was
  }

  /** The pages after a request's published blocks are stored, and no others. */
  ghost function Landing(pages: seq<Page>, r: Bop, done: seq<BlkOp>): (p: seq<Page>)
    ensures |p| == |pages|
    ensures forall b :: 0 <= b < |p| ==> p[b] == LandedPage(r, done, b, pages[b])
  {
    seq(|pages|, b requires 0 <= b < |pages| => LandedPage(r, done, b, pages[b]))
  }

  /** The pages after the published blocks of the first k requests, in request order. */
  ghost function BatchEffect(reqs: seq<Bop>, done: seq<BlkOp>, k: nat, pages: seq<Page>): (r: seq<Page>)
    requires k <= |reqs|
    ensures |r| == |pages|
  {
    if k == 0 then pages else Landing(BatchEffect(reqs, done, k - 1, pages), reqs[k - 1], done)
  }

  lemma RequestOp(reqs: seq<Bop>, ops: seq<BlkOp>, i: nat, nblocks: nat, q: nat)
    requires Mapped(reqs, ops, nblocks) && i < |reqs| && reqs[i].op0 <= q < reqs[i].op0 + reqs[i].nops
    ensures q < |ops|
    ensures var r, op := reqs[i], ops[q];
            && op.req == i && op.blk == FirstBlock(r) + (q - r.op0) && op.write == r.write && InReq(r, op.blk)
            && (r.write ==> PayloadAt(r, op.blk) == Some(op.page))
  {
    assert ReqOk(reqs, ops, i, nblocks);
    assert OpOf(reqs[i], i, ops[q], q);
  }

  /** One request's operations store exactly its published blocks. */
  lemma RequestLands(reqs: seq<Bop>, ops: seq<BlkOp>, i: nat, pages: seq<Page>)
    requires Mapped(reqs, ops, |pages|) && i < |reqs| && InReach(ops, pages)
    ensures reqs[i].op0 + reqs[i].nops <= |ops|
    ensures Applied(ops, reqs[i].op0 + reqs[i].nops, pages) == Landing(Applied(ops, reqs[i].op0, pages), reqs[i], ops)
  {
    var r := reqs[i];
    ReqRange(reqs, ops, i, |pages|);
    hide Mapped, Applied, LandedPage, InReach;
    var p, p' := Applied(ops, r.op0, pages), Applied(ops, r.op0 + r.nops, pages);
    forall b | 0 <= b < |pages|
      ensures p'[b] == LandedPage(r, ops, b, p[b])
    {
      BlockLands(reqs, ops, i, pages, b);
    }
  }

  lemma ReqRange(reqs: seq<Bop>, ops: seq<BlkOp>, i: nat, nblocks: nat)
    requires Mapped(reqs, ops, nblocks) && i < |reqs|
    ensures reqs[i].op0 + reqs[i].nops <= |ops|
  {
    ReqFacts(reqs, ops, i, nblocks);
  }

  lemma RequestStretch(reqs: seq<Bop>, ops: seq<BlkOp>, i: nat, nblocks: nat)
    requires Mapped(reqs, ops, nblocks) && i < |reqs|
    ensures Stretch(ops, reqs[i].op0, reqs[i].nops, FirstBlock(reqs[i]))
  {
    var r := reqs[i];
    ReqRange(reqs, ops, i, nblocks);
    hide Mapped, FirstBlock;
    forall q | r.op0 <= q < r.op0 + r.nops
      ensures ops[q].blk == FirstBlock(r) + (q - r.op0)
    {
      RequestOp(reqs, ops, i, nblocks, q);
    }
  }

  lemma BlockLands(reqs: seq<Bop>, ops: seq<BlkOp>, i: nat, pages: seq<Page>, b: nat)
    requires Mapped(reqs, ops, |pages|) && i < |reqs| && InReach(ops, pages) && b < |pages|
    ensures reqs[i].op0 + reqs[i].nops <= |ops|
    ensures Applied(ops, reqs[i].op0 + reqs[i].nops, pages)[b] ==
            LandedPage(reqs[i], ops, b, Applied(ops, reqs[i].op0, pages)[b])
  {
    hide Mapped, Applied, PayloadAt, FirstBlock, InReq, InReach, Stretch;
    var r := reqs[i];
    ReqRange(reqs, ops, i, |pages|);
    RequestStretch(reqs, ops, i, |pages|);
    AppliedStretch(ops, r.op0, r.nops, FirstBlock(r), r.nops, pages, b);
    if FirstBlock(r) <= b < FirstBlock(r) + r.nops { RequestOp(reqs, ops, i, |pages|, OpAt(r, b)); }
  }

  /** Publishing operation by operation is storing request by request, whichever copies failed. */
  lemma {:induction false} BatchMeaning(reqs: seq<Bop>, ops: seq<BlkOp>, k: nat, pages: seq<Page>)
    requires Mapped(reqs, ops, |pages|) && k <= |reqs| && InReach(ops, pages)
    ensures StartOf(reqs, k) <= |ops| && Applied(ops, StartOf(reqs, k), pages) == BatchEffect(reqs, ops, k, pages)
  {
    hide Mapped, Applied, InReach, Landing;
    if k > 0 {
      BatchMeaning(reqs, ops, k - 1, pages);
      ReqFacts(reqs, ops, k - 1, |pages|);
      RequestLands(reqs, ops, k - 1, pages);
    } else {
      AppliedNone(ops, pages);
    }
  }

  lemma WholeWrite(pages: seq<Page>, r: Bop, b: nat)
    requires Batchable(r) && r.write && r.off + r.len <= CBLK_SIZE * |pages| && b < |pages|
    ensures InReq(r, b) ==> PayloadAt(r, b) == Some(Overwrite(pages, r.off, r.slot)[b])
    ensures !InReq(r, b) ==> Overwrite(pages, r.off, r.slot)[b] == pages[b]
  {
    var n := r.len / CBLK_SIZE;
    assert r.off == CBLK_SIZE * FirstBlock(r) && r.len == CBLK_SIZE * n;
    OverwriteWhole(pages, FirstBlock(r), n, r.slot, b);
  }

  /** A write, however many of its blocks landed, leaves every block entirely old or entirely new; with
      all of them landed it is the whole write. */
  lemma LandingIsWritten(pages: seq<Page>, r: Bop, done: seq<BlkOp>, all: bool)
    requires Batchable(r) && r.write && r.off + r.len <= CBLK_SIZE * |pages|
    requires all ==> forall b: nat :: InReq(r, b) ==> Landed(r, done, b)
    ensures Written(pages, Landing(pages, r, done), r.off, r.slot, all)
  {
    hide Overwrite, PayloadAt, InReq, Batchable;
    var p := Landing(pages, r, done);
    forall b | 0 <= b < |pages|
      ensures p[b] == pages[b] || p[b] == Overwrite(pages, r.off, r.slot)[b]
      ensures all ==> p[b] == Overwrite(pages, r.off, r.slot)[b]
    {
      WholeWrite(pages, r, b);
    }
  }

  /** Request by request: a write answered with no error is stored whole; reads, out-of-bounds requests
      and requests refused for want of space store nothing; a write with a failed copy stores exactly
      the blocks whose own copy went through - never all of them. */
  ghost predicate Lands(r: Bop, done: seq<BlkOp>) {
    && (r.write && r.error == Fine ==> forall b: nat :: InReq(r, b) ==> Landed(r, done, b))
    && (!r.write || r.error == EINVAL || r.error == ENOSPC ==> forall b: nat :: !Landed(r, done, b))
    && (r.write && r.error == EIO ==>
          && (forall b: nat :: InReq(r, b) ==> (Landed(r, done, b) <==> !Failed(r, done, b)))
          && exists b: nat :: Failed(r, done, b))
  }

  /** With no failed copy a batch is its error-free writes, whole, in request order. */
  lemma {:induction false} CleanEffect(reqs: seq<Bop>, done: seq<BlkOp>, k: nat, pages: seq<Page>)
    requires k <= |reqs|
    requires forall i :: 0 <= i < |reqs| ==> Batchable(reqs[i]) && Lands(reqs[i], done) && reqs[i].error != EIO
    requires forall i :: 0 <= i < |reqs| && reqs[i].error == Fine ==> reqs[i].off + reqs[i].len <= CBLK_SIZE * |pages|
    ensures BatchEffect(reqs, done, k, pages) == BatchWrites(reqs, k, pages)
  {
    if k > 0 {
      CleanEffect(reqs, done, k - 1, pages);
      var r, p := reqs[k - 1], BatchWrites(reqs, k - 1, pages);
      hide Overwrite, Landed;
      assert Batchable(r) && Lands(r, done);
      if r.write && r.error == Fine {
        LandingIsWritten(p, r, done, true);
      } else {
        assert Landing(p, r, done) == p;
      }
    }
  }

  /** A block no request published is as it was - in particular every block outside all writes. */
  lemma {:induction false} BatchSpares(reqs: seq<Bop>, done: seq<BlkOp>, k: nat, pages: seq<Page>, b: nat)
    requires k <= |reqs| && b < |pages| && forall i :: 0 <= i < k && reqs[i].write ==> !Landed(reqs[i], done, b)
    ensures BatchEffect(reqs, done, k, pages)[b] == pages[b]
  {
    hide Landed;
    if k > 0 { BatchSpares(reqs, done, k - 1, pages, b); }
  }

  lemma AppliedNone(ops: seq<BlkOp>, pages: seq<Page>)
    requires InReach(ops, pages)
    ensures Applied(ops, 0, pages) == pages
  {
  }

  // ------------------------------------------------------ errors and aborts

  /** One of the first n operations belongs to request i and failed with e. */
  ghost predicate Hit(ops: seq<BlkOp>, n: nat, i: nat, e: Errno) {
    exists q :: 0 <= q < n <= |ops| && ops[q].req == i && ops[q].err == e
  }

  lemma HitNext(ops: seq<BlkOp>, n: nat, i: nat, e: Errno)
    requires n < |ops|
    ensures Hit(ops, n + 1, i, e) <==> Hit(ops, n, i, e) || (ops[n].req == i && ops[n].err == e)
  {
    if Hit(ops, n, i, e) {
      var q :| 0 <= q < n && ops[q].req == i && ops[q].err == e;
    }
  }

  /** Requests charged with the failures e of the first n operations. */
  ghost predicate Charged(was: seq<Bop>, now: seq<Bop>, ops: seq<BlkOp>, n: nat, e: Errno) {
    SameReqs(was, now) && forall i :: 0 <= i < |was| ==> now[i].error == if Hit(ops, n, i, e) then e else was[i].error
  }

  lemma ChargedNone(reqs: seq<Bop>, ops: seq<BlkOp>, e: Errno)
    ensures Charged(reqs, reqs, ops, 0, e)
  {
  }

  lemma ChargedNext(was: seq<Bop>, now: seq<Bop>, ops: seq<BlkOp>, n: nat, e: Errno)
    requires Charged(was, now, ops, n, e) && n < |ops| && ops[n].req < |was|
    ensures var j := ops[n].req;
            Charged(was, if ops[n].err == e then now[j := now[j].(error := e)] else now, ops, n + 1, e)
  {
    forall i | 0 <= i < |was|
      ensures Hit(ops, n + 1, i, e) <==> Hit(ops, n, i, e) || (ops[n].req == i && ops[n].err == e)
    {
      HitNext(ops, n, i, e);
    }
    hide Hit;
  }

  function AbortedOp(op: BlkOp): BlkOp { op.(grain := SLOT_NONE, dma := 0) }

  /** Giving one reservation back leaves the rest of the set ready for its copies. */
  lemma StagedAbort(c: Codec, s: Store, ops: seq<BlkOp>, q: nat)
    requires Staged(c, s, ops, 0) && q < |ops| && Holds(ops[q])
    ensures ops[q].grain in Spare(s)
    ensures Staged(c, Dropped(s, ops[q].grain), ops[q := AbortedOp(ops[q])], 0)
    ensures Reservations(ops[q := AbortedOp(ops[q])]) == Reservations(ops) - {ops[q].grain}
  {
    var g, ops' := ops[q].grain, ops[q := AbortedOp(ops[q])];
    assert Prepared(c, s, ops[q]);
    forall j | 0 <= j < |ops|
      ensures Prepared(c, Dropped(s, g), ops'[j])
    {
      assert Prepared(c, s, ops[j]);
      PreparedAfterDrop(c, s, ops, q, j);
    }
    hide Prepared;
    forall h | h in Reservations(ops) && h != g
      ensures h in Reservations(ops')
    {
      var j :| 0 <= j < |ops| && Holds(ops[j]) && ops[j].grain == h;
      HeldAreReservations(ops', j);
    }
  }

  lemma PreparedAfterDrop(c: Codec, s: Store, ops: seq<BlkOp>, q: nat, j: nat)
    requires q < |ops| && j < |ops| && Holds(ops[q]) && Distinct(ops) && Prepared(c, s, ops[j])
    ensures Prepared(c, Dropped(s, ops[q].grain), ops[q := AbortedOp(ops[q])][j])
  {
    hide CompBlock, EntClen, EntGrain;
    if j != q && Holds(ops[j]) { assert ops[j].grain != ops[q].grain; }
  }

  /** Part-way through returning the reservations of failed requests. */
  ghost predicate Aborting(c: Codec, spare: set<nat>, s: Store, reqs: seq<Bop>, was: seq<BlkOp>, ops: seq<BlkOp>,
      n: nat) {
    && n <= |ops| && Staged(c, s, ops, 0) && SameOps(was, ops) && SameErrors(was, ops)
    && Spare(s) == spare + Reservations(ops) && Reservations(ops) !! spare
    && (forall q :: 0 <= q < n ==>
          ops[q].req < |reqs| && (Holds(ops[q]) <==> ops[q].write && reqs[ops[q].req].error == Fine))
    && (forall q :: n <= q < |ops| ==> ops[q] == was[q])
  }

  /** Operations as prepared, with their requests charged. */
  ghost predicate Settled(reqs: seq<Bop>, ops: seq<BlkOp>) {
    forall q :: 0 <= q < |ops| ==> SettledOp(reqs, ops[q])
  }

  ghost predicate SettledOp(reqs: seq<Bop>, op: BlkOp) {
    && op.req < |reqs| && (op.write ==> op.err == if op.grain != SLOT_NONE then Fine else ENOSPC)
    && (op.err != Fine ==> reqs[op.req].error != Fine)
  }

  lemma AbortStarts(c: Codec, spare: set<nat>, s: Store, reqs: seq<Bop>, ops: seq<BlkOp>)
    requires Staged(c, s, ops, 0) && Spare(s) == spare + Reservations(ops) && Reservations(ops) !! spare
    ensures Aborting(c, spare, s, reqs, ops, ops, 0)
  {
    hide Prepared, Copied, Reservations, Spare;
  }

  lemma AbortNext(c: Codec, spare: set<nat>, s: Store, reqs: seq<Bop>, was: seq<BlkOp>, ops: seq<BlkOp>, q: nat)
    requires Aborting(c, spare, s, reqs, was, ops, q) && q < |ops| && SettledOp(reqs, was[q])
    ensures ops[q] == was[q]
    ensures if Holds(ops[q]) && reqs[ops[q].req].error != Fine
            then ops[q].grain in Spare(s)
                 && (Spare(Dropped(s, ops[q].grain)) == Spare(s) - {ops[q].grain} ==>
                       Aborting(c, spare, Dropped(s, ops[q].grain), reqs, was, ops[q := AbortedOp(ops[q])], q + 1))
            else Aborting(c, spare, s, reqs, was, ops, q + 1)
  {
    hide Prepared, Copied, Spare, Reservations;
    assert ops[q] == was[q];
    if Holds(ops[q]) && reqs[ops[q].req].error != Fine {
      StagedAbort(c, s, ops, q);
      HeldAreReservations(ops, q);
      hide Staged, Dropped, Distinct;
    }
  }

  lemma AbortEnds(c: Codec, spare: set<nat>, s: Store, reqs: seq<Bop>, was: seq<BlkOp>, ops: seq<BlkOp>)
    requires Aborting(c, spare, s, reqs, was, ops, |ops|)
    ensures Staged(c, s, ops, 0) && SameOps(was, ops) && SameErrors(was, ops) && AllOrNothing(reqs, ops)
    ensures Spare(s) == spare + Reservations(ops) && Reservations(ops) !! spare
  {
    hide Staged, Spare, Reservations;
  }

  // ---------------------------------------------------------- the whole batch

  /** Requests as admitted: only out-of-bounds ones carry an error. */
  ghost predicate Admitted(reqs: seq<Bop>, nblocks: nat) {
    forall i :: 0 <= i < |reqs| ==>
      reqs[i].error == if OutOfBounds(CBLK_SIZE * nblocks, reqs[i].off, reqs[i].len) then EINVAL else Fine
  }

  /** Requests and operations after preparing: who failed, and why. */
  ghost predicate Billed(reqs: seq<Bop>, ops: seq<BlkOp>, nblocks: nat, full: bool) {
    && (forall i :: 0 <= i < |reqs| ==>
          && (reqs[i].error == EINVAL <==> OutOfBounds(CBLK_SIZE * nblocks, reqs[i].off, reqs[i].len))
          && reqs[i].error != EIO && (reqs[i].error == ENOSPC ==> reqs[i].write && full)
          && (reqs[i].error == ENOSPC <==> Hit(ops, |ops|, i, ENOSPC)))
    && (forall q :: 0 <= q < |ops| ==>
          && ops[q].req < |reqs| && (ops[q].err == Fine || ops[q].err == ENOSPC)
          && (ops[q].err == ENOSPC ==> reqs[ops[q].req].error != Fine))
  }

  lemma ChargedIsBilled(asked: seq<Bop>, reqs: seq<Bop>, blank: seq<BlkOp>, ops: seq<BlkOp>, nblocks: nat, full: bool)
    requires Mapped(asked, blank, nblocks) && Admitted(asked, nblocks) && |ops| == |blank|
    requires forall q :: 0 <= q < |ops| ==> Readied(blank[q], ops[q])
    requires Charged(asked, reqs, ops, |ops|, ENOSPC) && (full <==> !AllFine(ops, |ops|))
    ensures Billed(reqs, ops, nblocks, full) && Settled(reqs, ops)
  {
    forall q | 0 <= q < |ops|
      ensures ops[q].req < |reqs| && (ops[q].err == Fine || ops[q].err == ENOSPC) && SettledOp(reqs, ops[q])
      ensures ops[q].err == ENOSPC ==> reqs[ops[q].req].error != Fine && reqs[ops[q].req].write && full
    {
      assert OpOk(asked, blank[q], q) && Readied(blank[q], ops[q]);
      var i := ops[q].req;
      assert SameReq(asked[i], reqs[i]);
      if ops[q].err == ENOSPC { assert Hit(ops, |ops|, i, ENOSPC); }
    }
    forall i | 0 <= i < |reqs|
      ensures reqs[i].error == EINVAL <==> OutOfBounds(CBLK_SIZE * nblocks, reqs[i].off, reqs[i].len)
      ensures reqs[i].error != EIO && (reqs[i].error == ENOSPC ==> reqs[i].write && full)
      ensures reqs[i].error == ENOSPC <==> Hit(ops, |ops|, i, ENOSPC)
    {
      assert SameReq(asked[i], reqs[i]);
      if Hit(ops, |ops|, i, ENOSPC) {
        var q :| 0 <= q < |ops| && ops[q].req == i && ops[q].err == ENOSPC;
        assert OpOk(asked, blank[q], q) && ReqOk(asked, blank, i, nblocks);
      }
    }
  }

  lemma HitSame(a: seq<BlkOp>, b: seq<BlkOp>, i: nat, e: Errno)
    requires |a| == |b| && forall q :: 0 <= q < |a| ==> b[q].req == a[q].req && (a[q].err == e <==> b[q].err == e)
    ensures Hit(a, |a|, i, e) <==> Hit(b, |b|, i, e)
  {
    if Hit(a, |a|, i, e) {
      var q :| 0 <= q < |a| && a[q].req == i && a[q].err == e;
      assert b[q].req == i && b[q].err == e;
    }
    if Hit(b, |b|, i, e) {
      var q :| 0 <= q < |b| && b[q].req == i && b[q].err == e;
      assert a[q].req == i && a[q].err == e;
    }
  }

  lemma BilledSame(reqs: seq<Bop>, a: seq<BlkOp>, b: seq<BlkOp>, nblocks: nat, full: bool)
    requires Billed(reqs, a, nblocks, full) && SameOps(a, b) && SameErrors(a, b)
    ensures Billed(reqs, b, nblocks, full)
  {
    forall q | 0 <= q < |b|
      ensures b[q].req == a[q].req && b[q].err == a[q].err
    {
      assert SameOp(a[q], b[q]);
    }
    forall i | 0 <= i < |reqs|
      ensures Hit(a, |a|, i, ENOSPC) <==> Hit(b, |b|, i, ENOSPC)
    {
      HitSame(a, b, i, ENOSPC);
    }
    hide Hit;
  }

  lemma OutcomesAreSameOps(a: seq<BlkOp>, b: seq<BlkOp>)
    requires Outcomes(a, b)
    ensures SameOps(a, b)
  {
    forall q | 0 <= q < |a|
      ensures SameOp(a[q], b[q])
    {
      assert Outcome(a[q], b[q]);
    }
  }

  /** After the copies: what the last charging needs, and what it leaves. */
  lemma CopiesBilled(reqs: seq<Bop>, ops: seq<BlkOp>, done: seq<BlkOp>, nblocks: nat, full: bool)
    requires Billed(reqs, ops, nblocks, full) && Outcomes(ops, done)
    ensures forall q :: 0 <= q < |done| ==>
              && done[q].req < |reqs| && done[q].err != EINVAL
                 && (done[q].err == ENOSPC ==> reqs[done[q].req].error != Fine)
              && (done[q].err == EIO <==> done[q].err != ops[q].err)
  {
    forall q | 0 <= q < |done|
      ensures done[q].req < |reqs| && done[q].err != EINVAL
              && (done[q].err == ENOSPC ==> reqs[done[q].req].error != Fine)
      ensures done[q].err == EIO <==> done[q].err != ops[q].err
    {
      assert Outcome(ops[q], done[q]);
    }
  }

  /** A request already charged has no copy left that could fail. */
  lemma ChargedNeverCopies(reqs: seq<Bop>, ops: seq<BlkOp>, done: seq<BlkOp>, nblocks: nat, full: bool, q: nat)
    requires Billed(reqs, ops, nblocks, full) && AllOrNothing(reqs, ops) && Outcomes(ops, done) && q < |done|
    ensures done[q].req < |reqs| && done[q].req == ops[q].req && (done[q].err == ENOSPC <==> ops[q].err == ENOSPC)
    ensures done[q].write && done[q].err == EIO ==> reqs[done[q].req].error == Fine
    ensures Holds(done[q]) <==> done[q].write && reqs[done[q].req].error == Fine && done[q].err == Fine
  {
    assert Outcome(ops[q], done[q]);
  }

  /** The errors the replies carry: EINVAL exactly when the request is out of bounds, EIO exactly when
      one of its own copies failed, ENOSPC exactly when one of its own blocks found no slot. */
  lemma FinalErrors(reqs: seq<Bop>, last: seq<Bop>, ops: seq<BlkOp>, done: seq<BlkOp>, nblocks: nat, full: bool, i: nat)
    requires Mapped(reqs, ops, nblocks) && AllOrNothing(reqs, ops) && Billed(reqs, ops, nblocks, full)
             && Outcomes(ops, done)
    requires Charged(reqs, last, done, |done|, EIO) && i < |last|
    ensures last[i].error == EINVAL <==> OutOfBounds(CBLK_SIZE * nblocks, last[i].off, last[i].len)
    ensures last[i].error == EIO <==> Hit(done, |done|, i, EIO)
    ensures last[i].error == ENOSPC <==> Hit(done, |done|, i, ENOSPC)
    ensures last[i].error == ENOSPC ==> last[i].write && full
    ensures last[i].error == EIO ==> !SameErrors(ops, done) && (last[i].write ==> reqs[i].error == Fine)
    ensures last[i].error != EIO ==> last[i].error == reqs[i].error
  {
    assert SameReq(reqs[i], last[i]);
    forall q | 0 <= q < |done|
      ensures done[q].req == ops[q].req && (done[q].err == ENOSPC <==> ops[q].err == ENOSPC)
    {
      ChargedNeverCopies(reqs, ops, done, nblocks, full, q);
    }
    HitSame(ops, done, i, ENOSPC);
    if Hit(done, |done|, i, EIO) {
      var q :| 0 <= q < |done| && done[q].req == i && done[q].err == EIO;
      ChargedNeverCopies(reqs, ops, done, nblocks, full, q);
      assert Outcome(ops[q], done[q]) && OpOk(reqs, ops[q], q) && ReqOk(reqs, ops, i, nblocks);
    }
  }

  /** What became of operation q of request i. */
  lemma OwnOutcome(reqs: seq<Bop>, last: seq<Bop>, ops: seq<BlkOp>, done: seq<BlkOp>, nblocks: nat, full: bool, i: nat,
      q: nat)
    requires Mapped(reqs, ops, nblocks) && AllOrNothing(reqs, ops) && Billed(reqs, ops, nblocks, full)
             && Outcomes(ops, done)
    requires Mapped(last, done, nblocks) && i < |last| == |reqs| && last[i].op0 <= q < last[i].op0 + last[i].nops
    ensures q < |done| && done[q].req == i && done[q].write == last[i].write
    ensures Holds(done[q]) <==> last[i].write && reqs[i].error == Fine && done[q].err == Fine
    ensures last[i].write && reqs[i].error == Fine ==> done[q].err == Fine || done[q].err == EIO
  {
    RequestOp(last, done, i, nblocks, q);
    ChargedNeverCopies(reqs, ops, done, nblocks, full, q);
    assert Outcome(ops[q], done[q]);
  }

  /** What each request stored, once the copies are over and the requests are charged. */
  lemma RequestLanded(reqs: seq<Bop>, last: seq<Bop>, ops: seq<BlkOp>, done: seq<BlkOp>, nblocks: nat, full: bool,
      i: nat)
    requires Mapped(reqs, ops, nblocks) && AllOrNothing(reqs, ops) && Billed(reqs, ops, nblocks, full)
             && Outcomes(ops, done)
    requires Mapped(last, done, nblocks) && Charged(reqs, last, done, |done|, EIO) && i < |last|
    ensures Lands(last[i], done)
  {
    var r := last[i];
    FinalErrors(reqs, last, ops, done, nblocks, full, i);
    ReqFacts(last, done, i, nblocks);
    if r.write && r.error == EIO { FailedOwn(last, done, nblocks, i); }
    hide Mapped, AllOrNothing, Billed, Outcomes, Charged, OutOfBounds, StartOf;
    forall b: nat | HasOp(r, done, b)
      ensures Landed(r, done, b) <==> r.write && reqs[i].error == Fine && done[OpAt(r, b)].err == Fine
      ensures r.write && reqs[i].error == Fine ==> done[OpAt(r, b)].err == Fine || done[OpAt(r, b)].err == EIO
      ensures done[OpAt(r, b)].err == EIO ==> r.error == EIO
    {
      OwnOutcome(reqs, last, ops, done, nblocks, full, i, OpAt(r, b));
      if done[OpAt(r, b)].err == EIO { assert Hit(done, |done|, i, EIO); }
    }
    hide Hit;
  }

  /** A request told EIO has a failed copy among its own operations. */
  lemma FailedOwn(reqs: seq<Bop>, done: seq<BlkOp>, nblocks: nat, i: nat)
    requires Mapped(reqs, done, nblocks) && i < |reqs| && Hit(done, |done|, i, EIO)
    ensures exists b: nat :: Failed(reqs[i], done, b)
  {
    var q :| 0 <= q < |done| && done[q].req == i && done[q].err == EIO;
    assert OpOk(reqs, done[q], q);
    RequestOp(reqs, done, i, nblocks, q);
    assert Failed(reqs[i], done, done[q].blk);
  }

  /** Some request is told of EIO exactly when some copy failed. */
  lemma EioReported(reqs: seq<Bop>, last: seq<Bop>, ops: seq<BlkOp>, done: seq<BlkOp>, nblocks: nat, full: bool)
    requires Billed(reqs, ops, nblocks, full) && Outcomes(ops, done) && Charged(reqs, last, done, |done|, EIO)
    ensures !SameErrors(ops, done) <==> exists i :: 0 <= i < |last| && last[i].error == EIO
  {
    CopiesBilled(reqs, ops, done, nblocks, full);
    if !SameErrors(ops, done) {
      var q :| 0 <= q < |ops| && done[q].err != ops[q].err;
      assert Hit(done, |done|, done[q].req, EIO);
      assert last[done[q].req].error == EIO;
    }
    if i :| 0 <= i < |last| && last[i].error == EIO {
      assert Hit(done, |done|, i, EIO);
      var q :| 0 <= q < |done| && done[q].req == i && done[q].err == EIO;
    }
  }

  // ----------------------------------------------------------------- admission

  /** The operations of request i, as admission sets them up. */
  function OpsFor(r: Bop, i: nat): seq<BlkOp>
    requires CBLK_SIZE * r.nops <= r.len && (r.write ==> |r.slot| == r.len)
  {
    seq(r.nops, j requires 0 <= j < r.nops =>
      NewOp(r.off / CBLK_SIZE + j, r.write, if r.write then Slice(r.slot, j) else ZeroPage(), i))
  }

  /** A batch under assembly: its requests, and their operations not yet touched. */
  ghost predicate Batched(reqs: seq<Bop>, ops: seq<BlkOp>, nblocks: nat) {
    Mapped(reqs, ops, nblocks) && Admitted(reqs, nblocks) && forall q :: 0 <= q < |ops| ==> Blank(ops[q])
  }

  /** A request ready to join a batch that has n operations. */
  ghost predicate Joins(r: Bop, n: nat, nblocks: nat) {
    && Batchable(r) && r.op0 == n
    && var out := OutOfBounds(CBLK_SIZE * nblocks, r.off, r.len);
       r.error == (if out then EINVAL else Fine) && r.nops == if out then 0 else r.len / CBLK_SIZE
  }

  lemma BatchedNone(nblocks: nat)
    ensures Batched([], [], nblocks)
  {
  }

  lemma {:induction false} StartPrefix(reqs: seq<Bop>, r: Bop, k: nat)
    requires k <= |reqs|
    ensures StartOf(reqs + [r], k) == StartOf(reqs, k)
  {
    if k > 0 { StartPrefix(reqs, r, k - 1); }
  }

  lemma OpsForAt(r: Bop, i: nat, nblocks: nat, j: nat)
    requires Joins(r, r.op0, nblocks) && j < r.nops
    ensures |OpsFor(r, i)| == r.nops
    ensures var op := OpsFor(r, i)[j]; OpOf(r, i, op, r.op0 + j) && Blank(op) && op.blk < nblocks
  {
    var op := NewOp(r.off / CBLK_SIZE + j, r.write, if r.write then Slice(r.slot, j) else ZeroPage(), i);
    assert OpsFor(r, i)[j] == op;
  }

  /** Admitting a request extends the batch by one contiguous run of operations, at most 16 of them. */
  lemma BatchedJoin(reqs: seq<Bop>, ops: seq<BlkOp>, r: Bop, nblocks: nat)
    requires Batched(reqs, ops, nblocks) && Joins(r, |ops|, nblocks)
    ensures r.nops <= BATCH_BLOCKS && Batched(reqs + [r], ops + OpsFor(r, |reqs|), nblocks)
  {
    var n, more := |reqs|, OpsFor(r, |reqs|);
    var reqs', ops' := reqs + [r], ops + more;
    StartPrefix(reqs, r, n);
    forall j | 0 <= j < r.nops
      ensures OpOf(r, n, more[j], |ops| + j) && Blank(more[j]) && more[j].blk < nblocks
    {
      OpsForAt(r, n, nblocks, j);
    }
    hide OpsFor, Joins, Batchable;
    forall q | 0 <= q < |ops'|
      ensures OpOk(reqs', ops'[q], q) && ops'[q].blk < nblocks && Blank(ops'[q])
    {
      if q < |ops| { assert OpOk(reqs, ops[q], q); } else { assert ops'[q] == more[q - |ops|]; }
    }
    forall i | 0 <= i < |reqs'|
      ensures ReqOk(reqs', ops', i, nblocks)
    {
      if i < n { JoinKeepsReq(reqs, ops, r, more, i, nblocks); } else { JoinAddsReq(reqs, ops, r, more, nblocks); }
    }
    AdmittedJoin(reqs, r, |ops|, nblocks);
  }

  lemma AdmittedJoin(reqs: seq<Bop>, r: Bop, n: nat, nblocks: nat)
    requires Admitted(reqs, nblocks) && Joins(r, n, nblocks)
    ensures Admitted(reqs + [r], nblocks)
  {
  }

  lemma JoinKeepsReq(reqs: seq<Bop>, ops: seq<BlkOp>, r: Bop, more: seq<BlkOp>, i: nat, nblocks: nat)
    requires i < |reqs| && ReqOk(reqs, ops, i, nblocks)
    ensures ReqOk(reqs + [r], ops + more, i, nblocks)
  {
    StartPrefix(reqs, r, i);
    hide OpOf, Batchable;
  }

  lemma {:induction false} JoinAddsReq(reqs: seq<Bop>, ops: seq<BlkOp>, r: Bop, more: seq<BlkOp>, nblocks: nat)
    requires |ops| == StartOf(reqs, |reqs|) && Joins(r, |ops|, nblocks) && |more| == r.nops
    requires forall j :: 0 <= j < r.nops ==> OpOf(r, |reqs|, more[j], |ops| + j)
    ensures ReqOk(reqs + [r], ops + more, |reqs|, nblocks)
  {
    var n, ops' := |reqs|, ops + more;
    StartPrefix(reqs, r, n);
    forall q | r.op0 <= q < r.op0 + r.nops
      ensures OpOf(r, n, ops'[q], q)
    {
      assert ops'[q] == more[q - |ops|];
    }
  }
}
