/** The specification the device is held to: a plain array of bytes that starts as zeros. */
module ByteArray {
  import opened Blocks
  import opened BlockOps
  import opened BlockStore
  import opened Disk
  import opened Requests
  import opened Batch
  import opened BatchServing

  // --------------------------------------------------------- the specification

  /** Block b of one array is block b of another. */
  ghost predicate SameBlock(d: seq<byte>, d': seq<byte>, b: nat) {
    && CBLK_SIZE * (b + 1) <= |d| == |d'|
    && d[CBLK_SIZE * b..CBLK_SIZE * (b + 1)] == d'[CBLK_SIZE * b..CBLK_SIZE * (b + 1)]
  }

  /** Every block is entirely old or entirely new. */
  ghost predicate OldOrNew(d: seq<byte>, d': seq<byte>, target: seq<byte>) {
    |d'| == |d| == |target| && forall b: nat :: b < |d| / CBLK_SIZE ==> SameBlock(d', d, b) || SameBlock(d', target, b)
  }

  /** What a write may do: all of it, or - only when it reports an error - old or new block by block. */
  ghost predicate WriteOutcome(d: seq<byte>, d': seq<byte>, off: nat, src: seq<byte>, e: Errno) {
    && off + |src| <= |d| && OldOrNew(d, d', Splice(d, off, src))
    && (e == Fine ==> d' == Splice(d, off, src))
  }

  /** The array with the blocks wholly inside a range zeroed. */
  ghost function Zeroed(d: seq<byte>, off: nat, len: nat): (z: seq<byte>)
    ensures |z| == |d|
  {
    seq(|d|, k requires 0 <= k < |d| => if Covered(k / CBLK_SIZE, off, len) then 0 else d[k])
  }

  /** One request served on its own, and its reply. */
  ghost predicate OneTurn(d: seq<byte>, d': seq<byte>, r: Request, payload: seq<byte>, keep: bool,
      reply: Option<Reply>) {
    var out := r.off + r.len > |d|;
    && |d'| == |d| && (reply.Some? ==> reply.value.handle == r.handle)
    && (reply.None? ==> !keep && r.cmd.WriteCmd? && |payload| < r.len)
    && match r.cmd
       case WriteCmd =>
         if out then d' == d && (reply.Some? ==> reply.value.error == EINVAL)
         else if reply.None? then exists k: nat, e :: k <= |payload| && WriteOutcome(d, d', r.off, payload[..k], e)
         else
           && r.len <= |payload| && reply.value.error != EINVAL
           && WriteOutcome(d, d', r.off, payload[..r.len], reply.value.error)
       case ReadCmd =>
         && d' == d && reply.Some? && (reply.value.error == EINVAL <==> out)
         && (!out ==> |reply.value.data| <= r.len && reply.value.data == d[r.off..r.off + |reply.value.data|])
         && (!out && keep ==> |reply.value.data| == r.len)
       case TrimCmd => reply.Some? && (reply.value.error == EINVAL <==> out)
         && d' == if out then d else Zeroed(d, r.off, r.len)
       case _ => d' == d && reply.Some? && reply.value.error == Fine
  }

  /** One request of a batch: a write with no error is applied whole, one told EIO block by block, and no
      other request changes anything. */
  ghost predicate BatchedTurn(d: seq<byte>, d': seq<byte>, r: Bop) {
    if r.write && (r.error == Fine || r.error == EIO) then WriteOutcome(d, d', r.off, r.slot, r.error) else d' == d
  }

  ghost predicate StageAt(ds: seq<seq<byte>>, reqs: seq<Bop>, i: nat)
    requires i < |reqs| && |ds| == |reqs| + 1
  {
    BatchedTurn(ds[i], ds[i + 1], reqs[i])
  }

  /** The requests of a batch, one after the other, take d to d'. */
  ghost predicate Stages(ds: seq<seq<byte>>, d: seq<byte>, d': seq<byte>, reqs: seq<Bop>) {
    && |ds| == |reqs| + 1 && ds[0] == d && ds[|reqs|] == d'
    && forall i :: 0 <= i < |reqs| ==> StageAt(ds, reqs, i)
  }

  /** A batch: every read against the array as it was, then the writes in request order; one reply each. */
  ghost predicate ManyTurn(d: seq<byte>, d': seq<byte>, reqs: seq<Bop>, replies: seq<Reply>) {
    && (exists ds :: Stages(ds, d, d', reqs)) && |replies| == |reqs|
    && forall i :: 0 <= i < |reqs| ==> ReplyTurn(d, reqs[i], replies[i])
  }

  /** A request's reply: its handle, EINVAL exactly out of bounds, and for a read the bytes asked for. */
  ghost predicate ReplyTurn(d: seq<byte>, r: Bop, reply: Reply) {
    && reply.handle == r.handle && reply.error == r.error && (r.error == EINVAL <==> r.off + r.len > |d|)
    && (!r.write && r.error == Fine ==> reply.data == d[r.off..r.off + r.len])
  }

  /** What a client and the device exchange: a request of its own, or a batch. */
  datatype Exchange =
    | One(r: Request, payload: seq<byte>, keep: bool, reply: Option<Reply>)
    | Many(asked: seq<Bop>, reqs: seq<Bop>, done: seq<BlkOp>, replies: seq<Reply>, keep: bool)

  ghost predicate Turn(d: seq<byte>, d': seq<byte>, x: Exchange) {
    match x
    case One(r, payload, keep, reply) => OneTurn(d, d', r, payload, keep, reply)
    case Many(_, reqs, _, replies, _) => ManyTurn(d, d', reqs, replies)
  }

  // ------------------------------------------------------------ the store meets it

  lemma BetweenIsOldOrNew(was: seq<Page>, got: seq<Page>, target: seq<Page>)
    requires Between(was, got, target)
    ensures OldOrNew(Flat(was), Flat(got), Flat(target))
  {
    forall b: nat | b < |was|
      ensures SameBlock(Flat(got), Flat(was), b) || SameBlock(Flat(got), Flat(target), b)
    {
      FlatBlock(was, b);
      FlatBlock(got, b);
      FlatBlock(target, b);
    }
  }

  lemma FlatBlock(pages: seq<Page>, b: nat)
    requires b < |pages|
    ensures Flat(pages)[CBLK_SIZE * b..CBLK_SIZE * (b + 1)] == pages[b]
  {
    RangeOne(pages, b, 0, CBLK_SIZE);
    assert pages[b][0..CBLK_SIZE] == pages[b];
  }

  lemma WrittenIsOutcome(was: seq<Page>, got: seq<Page>, off: nat, src: seq<byte>, e: Errno)
    requires Written(was, got, off, src, e == Fine) && off + |src| <= CBLK_SIZE * |was|
    ensures WriteOutcome(Flat(was), Flat(got), off, src, e)
  {
    OverwriteIsSplice(was, off, src);
    BetweenIsOldOrNew(was, got, Overwrite(was, off, src));
  }

  lemma TrimmedIsZeroed(pages: seq<Page>, off: nat, len: nat)
    ensures Flat(Trimmed(pages, off, len)) == Zeroed(Flat(pages), off, len)
  {
    var d, t := Flat(pages), Trimmed(pages, off, len);
    forall k | 0 <= k < |d|
      ensures Flat(t)[k] == if Covered(k / CBLK_SIZE, off, len) then 0 else d[k]
    {
      TrimmedPrefix(pages, off, len, k / CBLK_SIZE);
      assert t[k / CBLK_SIZE] == if Covered(k / CBLK_SIZE, off, len) then ZeroPage() else pages[k / CBLK_SIZE];
    }
  }

  lemma CutShort(a: Ledger, b: Ledger, r: Request, payload: seq<byte>, k: nat, e: Errno)
    requires Halfway(a, b, r, true, payload, k, e) && r.off + r.len <= CBLK_SIZE * |a.pages|
    ensures k <= |payload| && WriteOutcome(Flat(a.pages), Flat(b.pages), r.off, payload[..k], e)
  {
    WrittenIsOutcome(a.pages, b.pages, r.off, payload[..k], e);
  }

  /** A write request, answered or cut short. */
  lemma WriteRefines(a: Ledger, b: Ledger, r: Request, payload: seq<byte>, keep: bool, reply: Option<Reply>)
    requires Served(a, b, r, payload, keep, reply) && r.cmd.WriteCmd?
    ensures OneTurn(Flat(a.pages), Flat(b.pages), r, payload, keep, reply)
  {
    var out := r.off + r.len > CBLK_SIZE * |a.pages|;
    if r.len > |payload| {
      var k: nat, e :| Halfway(a, b, r, !out, payload, k, e);
      if !out { CutShort(a, b, r, payload, k, e); }
    } else if !out {
      WrittenIsOutcome(a.pages, b.pages, r.off, payload[..r.len], reply.value.error);
    }
    hide WriteOutcome;
  }

  /** Every request served on its own is a turn of the byte array, whatever the reply. */
  lemma ServedRefines(a: Ledger, b: Ledger, r: Request, payload: seq<byte>, keep: bool, reply: Option<Reply>)
    requires Served(a, b, r, payload, keep, reply)
    ensures OneTurn(Flat(a.pages), Flat(b.pages), r, payload, keep, reply)
  {
    match r.cmd
    case WriteCmd => WriteRefines(a, b, r, payload, keep, reply);
    case TrimCmd => TrimmedIsZeroed(a.pages, r.off, r.len);
    case _ =>
  }

  /** A refused request: out of bounds changes nothing; out of space leaves every block entirely old or
      entirely new, and every byte outside the request as it was. */
  lemma RefusedIsHarmless(a: Ledger, b: Ledger, r: Request, payload: seq<byte>, keep: bool, reply: Option<Reply>,
      k: nat)
    requires Served(a, b, r, payload, keep, reply) && reply.Some? && reply.value.error != Fine && k < |Flat(a.pages)|
    ensures |Flat(b.pages)| == |Flat(a.pages)|
    ensures reply.value.error == EINVAL ==> b == a
    ensures !(r.off <= k < r.off + r.len) ==> Flat(b.pages)[k] == Flat(a.pages)[k]
    ensures r.cmd.WriteCmd? && r.len <= |payload| && r.off + r.len <= |Flat(a.pages)| ==>
              Between(a.pages, b.pages, Overwrite(a.pages, r.off, payload[..r.len]))
  {
    if reply.value.error != EINVAL {
      var p, i := k / CBLK_SIZE, k % CBLK_SIZE;
      assert b.pages[p] == a.pages[p] || b.pages[p] == Overwrite(a.pages, r.off, payload[..r.len])[p];
      assert CBLK_SIZE * p + i == k;
    }
  }

  lemma RequestRefines(pages: seq<Page>, r: Bop, done: seq<BlkOp>)
    requires Batchable(r) && Lands(r, done) && (r.write && r.error != EINVAL ==> r.off + r.len <= CBLK_SIZE * |pages|)
    ensures BatchedTurn(Flat(pages), Flat(Landing(pages, r, done)), r)
  {
    hide Landed, Failed, Flat, WriteOutcome;
    if r.write && (r.error == Fine || r.error == EIO) {
      LandingIsWritten(pages, r, done, r.error == Fine);
      WrittenIsOutcome(pages, Landing(pages, r, done), r.off, r.slot, r.error);
    } else {
      assert Landing(pages, r, done) == pages;
    }
  }

  ghost function Trail(reqs: seq<Bop>, done: seq<BlkOp>, pages: seq<Page>): (ds: seq<seq<byte>>)
    ensures |ds| == |reqs| + 1 && forall i :: 0 <= i < |ds| ==> ds[i] == Flat(BatchEffect(reqs, done, i, pages))
  {
    seq(|reqs| + 1, i requires 0 <= i < |reqs| + 1 => Flat(BatchEffect(reqs, done, i, pages)))
  }

  lemma BatchStages(a: Ledger, b: Ledger, asked: seq<Bop>, reqs: seq<Bop>, done: seq<BlkOp>)
    requires Concluded(a, b, asked, reqs, done)
    ensures Stages(Trail(reqs, done, a.pages), Flat(a.pages), Flat(b.pages), reqs)
  {
    var ds := Trail(reqs, done, a.pages);
    forall i | 0 <= i < |reqs|
      ensures StageAt(ds, reqs, i)
    {
      assert Judged(a, b, reqs, done, i) && Lands(reqs[i], done) && ReqOk(reqs, done, i, |a.pages|);
      RequestRefines(BatchEffect(reqs, done, i, a.pages), reqs[i], done);
      assert BatchEffect(reqs, done, i + 1, a.pages) == Landing(BatchEffect(reqs, done, i, a.pages), reqs[i], done);
    }
    hide Flat;
  }

  /** Every batch is a turn of the byte array, whichever copies failed. */
  lemma BatchRefines(a: Ledger, b: Ledger, asked: seq<Bop>, reqs: seq<Bop>, done: seq<BlkOp>, replies: seq<Reply>,
      keep: bool)
    requires BatchDone(a, b, asked, reqs, done, replies, keep)
    ensures ManyTurn(Flat(a.pages), Flat(b.pages), reqs, replies)
  {
    BatchStages(a, b, asked, reqs, done);
    hide Stages, Flat, Trail;
    forall i | 0 <= i < |reqs|
      ensures ReplyTurn(Flat(a.pages), reqs[i], replies[i])
    {
      assert Judged(a, b, reqs, done, i) && Answers(a, reqs[i], replies[i]);
      hide Concluded;
      ReplyRefines(a, reqs[i], replies[i]);
    }
  }

  lemma ReplyRefines(a: Ledger, r: Bop, reply: Reply)
    requires Answers(a, r, reply) && (r.error == EINVAL <==> r.off + r.len > CBLK_SIZE * |a.pages|)
    ensures ReplyTurn(Flat(a.pages), r, reply)
  {
  }

  // ------------------------------------------------------------- whole sessions

  /** What the store did in one exchange. */
  ghost predicate Exchanged(a: Ledger, b: Ledger, x: Exchange) {
    match x
    case One(r, payload, keep, reply) => Served(a, b, r, payload, keep, reply)
    case Many(asked, reqs, done, replies, keep) => BatchDone(a, b, asked, reqs, done, replies, keep)
  }

  ghost predicate ExchangeAt(ls: seq<Ledger>, xs: seq<Exchange>, i: nat)
    requires i < |xs| && |ls| == |xs| + 1
  {
    Exchanged(ls[i], ls[i + 1], xs[i])
  }

  /** Ledgers before and after each exchange, in order. */
  ghost predicate Session(ls: seq<Ledger>, xs: seq<Exchange>) {
    |ls| == |xs| + 1 && forall i :: 0 <= i < |xs| ==> ExchangeAt(ls, xs, i)
  }

  lemma ExchangeRefines(a: Ledger, b: Ledger, x: Exchange)
    requires Exchanged(a, b, x)
    ensures Turn(Flat(a.pages), Flat(b.pages), x)
  {
    hide Flat, Served, BatchDone, OneTurn, ManyTurn;
    match x
    case One(r, payload, keep, reply) => ServedRefines(a, b, r, payload, keep, reply);
    case Many(asked, reqs, done, replies, keep) => BatchRefines(a, b, asked, reqs, done, replies, keep);
  }

  /** THE STORE IS A BYTE ARRAY. In any session - single requests and batches, any offsets and lengths, any
      mix of replies, with a full heap and with failing copies - every exchange is a turn of the plain
      array of bytes the device stands for. */
  lemma SessionRefines(ls: seq<Ledger>, xs: seq<Exchange>, i: nat)
    requires Session(ls, xs) && i < |xs|
    ensures Turn(Flat(ls[i].pages), Flat(ls[i + 1].pages), xs[i])
  {
    assert ExchangeAt(ls, xs, i);
    hide Flat, Exchanged, Turn;
    ExchangeRefines(ls[i], ls[i + 1], xs[i]);
  }

  // --------------------------------------------- sessions with nothing left to chance

  /** A step that leaves the array no choice: everything but a lone write out of space or a failed copy. */
  predicate Definite(x: Exchange) {
    match x
    case One(r, _, _, reply) => reply.Some?
      && (r.cmd.WriteCmd? ==> reply.value.error == Fine || reply.value.error == EINVAL)
    case Many(_, reqs, _, _, _) => forall i :: 0 <= i < |reqs| ==> reqs[i].error != EIO
  }

  ghost function BatchStep(d: seq<byte>, reqs: seq<Bop>, k: nat): (r: seq<byte>)
    requires k <= |reqs|
    ensures |r| == |d|
  {
    if k == 0 then d
    else
      var m, q := BatchStep(d, reqs, k - 1), reqs[k - 1];
      if q.write && q.error == Fine && q.off + |q.slot| <= |m| then Splice(m, q.off, q.slot) else m
  }

  ghost function Step(d: seq<byte>, x: Exchange): (r: seq<byte>)
    ensures |r| == |d|
  {
    match x
    case One(r, payload, _, _) =>
      if r.off + r.len > |d| then d
      else if r.cmd.WriteCmd? && r.len <= |payload| then Splice(d, r.off, payload[..r.len])
      else if r.cmd.TrimCmd? then Zeroed(d, r.off, r.len)
      else d
    case Many(_, reqs, _, _, _) => BatchStep(d, reqs, |reqs|)
  }

  lemma {:induction false} StagesDecide(ds: seq<seq<byte>>, d: seq<byte>, d': seq<byte>, reqs: seq<Bop>, k: nat)
    requires Stages(ds, d, d', reqs) && k <= |reqs| && forall i :: 0 <= i < |reqs| ==> reqs[i].error != EIO
    ensures ds[k] == BatchStep(d, reqs, k)
  {
    if k > 0 {
      StagesDecide(ds, d, d', reqs, k - 1);
      assert StageAt(ds, reqs, k - 1);
      hide OldOrNew;
    }
  }

  lemma TurnDecides(d: seq<byte>, d': seq<byte>, x: Exchange)
    requires Turn(d, d', x) && Definite(x)
    ensures d' == Step(d, x)
  {
    match x
    case One(r, payload, keep, reply) => hide OldOrNew;
    case Many(_, reqs, _, replies, _) =>
      var ds :| Stages(ds, d, d', reqs);
      StagesDecide(ds, d, d', reqs, |reqs|);
  }

  /** The array after the first n exchanges. */
  ghost function After(d: seq<byte>, xs: seq<Exchange>, n: nat): (r: seq<byte>)
    requires n <= |xs|
    ensures |r| == |d|
  {
    if n == 0 then d else Step(After(d, xs, n - 1), xs[n - 1])
  }

  /** A session without failed copies and lone writes out of space - refused requests and requests out of
      space in a batch are welcome - has exactly one outcome: the array's. */
  lemma {:induction false} DefiniteSession(ls: seq<Ledger>, xs: seq<Exchange>, n: nat)
    requires Session(ls, xs) && n <= |xs| && forall i :: 0 <= i < n ==> Definite(xs[i])
    ensures Flat(ls[n].pages) == After(Flat(ls[0].pages), xs, n)
  {
    hide Exchanged, Step, Flat, Turn, Definite;
    if n > 0 {
      DefiniteSession(ls, xs, n - 1);
      SessionRefines(ls, xs, n - 1);
      TurnDecides(Flat(ls[n - 1].pages), Flat(ls[n].pages), xs[n - 1]);
    }
  }

  /** A fresh device is all zeros. */
  lemma FreshIsZeros(nBlocks: nat, k: nat)
    requires k < CBLK_SIZE * nBlocks
    ensures Flat(seq(nBlocks, _ => ZeroPage()))[k] == 0
  {
    assert seq(nBlocks, _ => ZeroPage())[k / CBLK_SIZE] == ZeroPage();
  }
}
