/** A batched write can be half applied by a failed copy: one two-block request, worked through. */
module HalfApplied {
  import opened Blocks
  import opened StoreModel
  import opened BlockOps
  import opened BlockStore
  import opened Worker
  import Disk
  import HeapRuns
  import opened Batch
  import opened BatchServing

  function Ones(): Page { seq(CBLK_SIZE, _ => 1) }

  /** A write of two pages of ones at the start of the device. */
  function Req(e: Errno): Bop { Bop(7, 0, 2 * CBLK_SIZE, true, e, 0, 2, seq(2 * CBLK_SIZE, _ => 1)) }

  /** Its operation for block i, holding the i-th page of the heap. */
  function Op(i: nat, e: Errno): BlkOp {
    BlkOp(i, true, Ones(), 0, e, if e == Fine then 1 else 0, 0, CBLK_SIZE, 64 * i, Ones())
  }

  /** A two-block device on a two-page heap, both pages reserved. */
  function Device(): Store {
    Store([0, 0], seq(2 * CBLK_SIZE, _ => 0), map[0 := CBLK_SIZE, 64 := CBLK_SIZE], map[], Blank2())
  }

  function Blank2(): seq<Page> { [ZeroPage(), ZeroPage()] }

  /** The heap was asked for two whole pages. */
  function Two(): seq<HeapRuns.Call> { [HeapRuns.AllocCall(CBLK_SIZE), HeapRuns.AllocCall(CBLK_SIZE)] }

  function Before(): Ledger { Ledger(Blank2(), {}, 0, 0, []) }
  function Middle(): Ledger { Ledger(Blank2(), {0, 64}, 0, 0, Two()) }
  function Afterwards(): Ledger { Ledger([Ones(), ZeroPage()], {64}, 1, 0, Two()) }

  lemma Held()
    ensures Reservations([Op(0, Fine), Op(1, Fine)]) == {0, 64} && Reservations([Op(0, Fine), Op(1, EIO)]) == {0}
  {
    var ops, done := [Op(0, Fine), Op(1, Fine)], [Op(0, Fine), Op(1, EIO)];
    HeldAreReservations(ops, 0);
    HeldAreReservations(ops, 1);
    HeldAreReservations(done, 0);
  }

  lemma RequestMaps()
    ensures Mapped([Req(Fine)], [Op(0, Fine), Op(1, Fine)], 2)
  {
    var reqs, ops := [Req(Fine)], [Op(0, Fine), Op(1, Fine)];
    assert Disk.Slice(Req(Fine).slot, 0) == Ones() && Disk.Slice(Req(Fine).slot, 1) == Ones();
    assert StartOf(reqs, 1) == StartOf(reqs, 0) + 2;
    assert OpOf(reqs[0], 0, ops[0], 0) && OpOf(reqs[0], 0, ops[1], 1);
    assert ReqOk(reqs, ops, 0, 2);
  }

  lemma OpsStaged()
    ensures Staged(NoCodec(), Device(), [Op(0, Fine), Op(1, Fine)], 0)
  {
    var s := Device();
    assert Spare(s) == {0, 64};
    assert Prepared(NoCodec(), s, Op(0, Fine)) && Prepared(NoCodec(), s, Op(1, Fine));
  }

  lemma BatchReady()
    ensures Ready(NoCodec(), Device(), Before(), Middle(), [Req(Fine)], [Req(Fine)], [Op(0, Fine), Op(1, Fine)])
  {
    OpsStaged();
    RequestMaps();
    Held();
    hide Staged, Mapped, Reservations;
    assert SameReq(Req(Fine), Req(Fine));
  }

  lemma SecondCopyFails()
    ensures Copies(NoCodec(), Device(), Before(), Middle(), Afterwards(), [Req(Fine)], [Req(Fine)],
                   [Op(0, Fine), Op(1, Fine)], [Op(0, Fine), Op(1, EIO)])
  {
    BatchReady();
    Held();
    hide Ready, Reservations;
    var ops, done := [Op(0, Fine), Op(1, Fine)], [Op(0, Fine), Op(1, EIO)];
    assert Outcome(ops[0], done[0]) && Outcome(ops[1], done[1]);
    assert done[1].err != ops[1].err;
    var p := Blank2();
    assert InReach(done, p);
    assert Applied(done, 0, p) == p && Applied(done, 1, p) == p[0 := Ones()];
    assert Applied(done, 2, p) == [Ones(), ZeroPage()];
  }

  /** THE HALF-APPLIED WRITE. From a prepared batch of one two-block write, the second copy failing: the
      request is told EIO, its first block holds the new page, its second the old one, and the slot of
      the failed copy is left behind. */
  lemma FailedCopyHalvesWrite()
    ensures Ready(NoCodec(), Device(), Before(), Middle(), [Req(Fine)], [Req(Fine)], [Op(0, Fine), Op(1, Fine)])
    ensures Concluded(Before(), Afterwards(), [Req(Fine)], [Req(EIO)], [Op(0, Fine), Op(1, EIO)])
    ensures Afterwards().pages[0] == Ones() != ZeroPage() == Afterwards().pages[1] && Afterwards().spare == {64}
  {
    BatchReady();
    SecondCopyFails();
    var reqs, last, done := [Req(Fine)], [Req(EIO)], [Op(0, Fine), Op(1, EIO)];
    assert Hit(done, 2, 0, EIO) by { assert done[1].req == 0 && done[1].err == EIO; }
    assert SameReq(reqs[0], last[0]);
    assert Charged(reqs, last, done, |done|, EIO);
    hide Ready, Copies, Concluded, Charged;
    ConcludedSummary(NoCodec(), Device(), Before(), Middle(), Afterwards(), reqs, reqs, [Op(0, Fine), Op(1, Fine)],
      done, last);
    assert Ones()[0] == 1 && ZeroPage()[0] == 0;
  }
}
