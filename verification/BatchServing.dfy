/** A worker serving a batch: admit queued requests, run all their block operations as one set,
    reply to every request. */
module BatchServing {
  import opened Blocks
  import opened StoreModel
  import HeapModel
  import opened BlockOps
  import opened BlockStore
  import opened Worker
  import opened Disk
  import opened Ranges
  import opened Windows
  import opened Requests
  import opened Batch
  import opened Headroom
  import opened HeapRuns

  /** What a finished batch amounts to, whichever copies failed. `done` are its block operations. Reads see
      the store as it was before the batch; the store holds exactly the blocks each write published, in
      request order; the slots left behind are exactly those of failed writes; every request gets one
      reply, in order, with its own handle. With no failed copy each write is whole or not at all and no
      slot is left behind. */
  ghost predicate BatchDone(a: Ledger, b: Ledger, asked: seq<Bop>, reqs: seq<Bop>, done: seq<BlkOp>,
      replies: seq<Reply>, keep: bool) {
    && Concluded(a, b, asked, reqs, done)
    && (keep <==> b.faults == a.faults)
    && |replies| == |reqs| && forall i :: 0 <= i < |reqs| ==> Answers(a, reqs[i], replies[i])
  }

  /** A request's error: EINVAL exactly when it is out of bounds, EIO exactly when one of its own copies
      failed, ENOSPC exactly when one of its own blocks found the heap full. */
  ghost predicate Judged(a: Ledger, b: Ledger, reqs: seq<Bop>, done: seq<BlkOp>, i: nat)
    requires i < |reqs|
  {
    var r := reqs[i];
    && (r.error == EINVAL <==> r.off + r.len > CBLK_SIZE * |a.pages|)
    && (r.error == EIO <==> Hit(done, |done|, i, EIO))
    && (r.error == ENOSPC <==> Hit(done, |done|, i, ENOSPC))
    && (r.error == ENOSPC ==> r.write && b.refused > a.refused)
  }

  /** A write is published exactly when its request was not refused and its own copy went through. */
  ghost predicate PublishedOwn(reqs: seq<Bop>, op: BlkOp) {
    && op.req < |reqs| && (op.err != Fine ==> reqs[op.req].error != Fine)
    && (Holds(op) <==> op.write && op.err == Fine && (reqs[op.req].error == Fine || reqs[op.req].error == EIO))
  }

  ghost predicate Answers(a: Ledger, r: Bop, reply: Reply) {
    && reply.handle == r.handle && reply.error == r.error
    && if !r.write && r.error == Fine then r.off + r.len <= CBLK_SIZE * |a.pages|
       && reply.data == Range(a.pages, r.off, r.len)
       else reply.data == []
  }

  /** A request and the payload its sender puts on the wire after it. */
  datatype Message = Message(r: Request, payload: seq<byte>)

  /** Requests the batch path takes: aligned reads and writes of one block up to a staging slot. */
  predicate Batches(r: Request) {
    && (r.cmd == ReadCmd || r.cmd == WriteCmd) && 0 < r.len <= BATCH_SLOT
    && r.off % CBLK_SIZE == 0 && r.len % CBLK_SIZE == 0
  }

  /** Request b of the batch is message m: same handle, same range, and for a write its payload. */
  predicate Reflects(b: Bop, m: Message) {
    && Batches(m.r) && b.handle == m.r.handle && b.off == m.r.off && b.len == m.r.len
       && b.write == (m.r.cmd == WriteCmd)
    && (b.write ==> m.r.len <= |m.payload| && b.slot == m.payload[..m.r.len])
  }

  /** The request a message asks for, as it joins a batch that has nops operations. */
  function AsRequest(m: Message, nops: nat, nblocks: nat): Bop
    requires Batches(m.r) && (m.r.cmd == WriteCmd ==> m.r.len <= |m.payload|)
  {
    var out, write := OutOfBounds(CBLK_SIZE * nblocks, m.r.off, m.r.len), m.r.cmd == WriteCmd;
    Bop(m.r.handle, m.r.off, m.r.len, write, if out then EINVAL else Fine, nops, if out then 0 else m.r.len / CBLK_SIZE,
        if write then m.payload[..m.r.len] else [])
  }

  lemma AdmittedRequest(m: Message, nops: nat, nblocks: nat)
    requires Batches(m.r) && (m.r.cmd == WriteCmd ==> m.r.len <= |m.payload|)
    ensures var req := AsRequest(m, nops, nblocks);
            && Joins(req, nops, nblocks) && Reflects(req, m)
            && CBLK_SIZE * req.nops <= req.len && (req.write ==> |req.slot| == req.len)
  {
  }

  /** Why a batch closed: full or nothing queued, a request for the per-request path, a disconnect, or a
      client that hung up in mid-payload. */
  datatype Trailer = Closed | Single | Disconnect | Lost

  datatype Admission = Joined | NotForBatch | HungUp

  class BatchWorker {
    const w: BlockWorker
    const reqs: array<Bop>        // w->reqs, depth of them

    /** `worker_init`: room for maxops operations and depth requests. */
    constructor (store: VramStore, depth: nat)
      requires 1 <= depth <= 256
      ensures w.store == store && reqs.Length == depth && fresh(w) && fresh(w.ops) && fresh(reqs)
      ensures w.ops.Length ==
              if depth * 16 < 64 then 64 else depth * 16
    {
      var maxops := depth * BATCH_BLOCKS;
      if maxops < LEGACY_WINDOW_BLOCKS {
        maxops := LEGACY_WINDOW_BLOCKS;
      }
      w := new BlockWorker(store, maxops);
      reqs := new Bop[depth](_ => Bop(0, 0, 0, false, Fine, 0, 0, []));
    }

    ghost function Asked(n: nat): seq<Bop>
      requires n <= reqs.Length
      reads reqs
    {
      reqs[..n]
    }

    // -------------------------------------------------------------- assembly

    /** The batch so far, and room for one more request. */
    ghost predicate Assembling(nreq: nat, nops: nat, queue: seq<Message>)
      requires w.store.Valid()
      reads this, reqs, w, w.ops, w.store, w.store.heap, w.store.heap.ext, w.store.heap.bm, w.store.heap.heads,
      w.store.vram, w.store.index
    {
      && nreq <= reqs.Length && nops <= w.ops.Length && nreq <= |queue|
      && Batched(reqs[..nreq], w.ops[..nops], w.store.index.Length)
      && forall i :: 0 <= i < nreq ==> Reflects(reqs[i], queue[i])
    }

    /** Set up a request's block operations. */
    method FillOps(r: Bop, ri: nat, nops: nat)
      requires CBLK_SIZE * r.nops <= r.len && (r.write ==> |r.slot| == r.len) && nops + r.nops <= w.ops.Length
      modifies w.ops
      ensures w.ops[..nops + r.nops] == old(w.ops[..nops]) + OpsFor(r, ri)
    {
      for j := 0 to r.nops
        invariant forall q :: 0 <= q < nops ==> w.ops[q] == old(w.ops[q])
        invariant forall i :: 0 <= i < j ==> w.ops[nops + i] == OpsFor(r, ri)[i]
      {
        w.ops[nops + j] := NewOp(r.off / CBLK_SIZE + j, r.write, if r.write then Slice(r.slot, j) else ZeroPage(), ri);
      }
    }

    /** Add the next message to the batch. */
    method Join(queue: seq<Message>, nreq: nat, nops: nat) returns (nops': nat)
      requires w.store.Valid() && nreq < reqs.Length && nops + BATCH_BLOCKS <= w.ops.Length
      requires nreq < |queue| && Assembling(nreq, nops, queue) && Batches(queue[nreq].r)
      requires queue[nreq].r.cmd == WriteCmd ==> queue[nreq].r.len <= |queue[nreq].payload|
      modifies reqs, w.ops
      ensures nops <= nops' <= nops + BATCH_BLOCKS && Assembling(nreq + 1, nops', queue)
    {
      hide Batched, OpsFor, Joins, AsRequest, Reflects, StoreOk, RoundTrips, Accounted;
      var req := AsRequest(queue[nreq], nops, w.store.index.Length);
      ghost var rs, ops0 := reqs[..nreq], w.ops[..nops];
      AdmittedRequest(queue[nreq], nops, w.store.index.Length);
      BatchedJoin(rs, ops0, req, w.store.index.Length);
      FillOps(req, nreq, nops);
      reqs[nreq] := req;
      assert reqs[..nreq + 1] == rs + [req];
      nops' := nops + req.nops;
    }

    /** Admit the next message if the batch path takes it. A write's payload is taken off the wire even
        when the request is out of bounds; such a request joins the batch with no operations. */
    method BatchAdmit(queue: seq<Message>, nreq: nat, nops: nat) returns (verdict: Admission, nops': nat)
      requires w.store.Valid() && nreq < reqs.Length && nops + BATCH_BLOCKS <= w.ops.Length
      requires nreq < |queue| && Assembling(nreq, nops, queue)
      modifies reqs, w.ops
      ensures var r := queue[nreq].r;
              verdict == NotForBatch <==>
              !((r.cmd == ReadCmd || r.cmd == WriteCmd) && 0 < r.len <= 0x1_0000
                && r.off % 4096 == 0 && r.len % 4096 == 0)
      ensures verdict == HungUp <==>
              Batches(queue[nreq].r) && queue[nreq].r.cmd == WriteCmd && |queue[nreq].payload| < queue[nreq].r.len
      ensures nops <= nops' <= nops + BATCH_BLOCKS
      ensures verdict == NotForBatch ==> nops' == nops && Assembling(nreq, nops, queue)
      ensures verdict == Joined ==> Assembling(nreq + 1, nops', queue)
    {
      hide Batched, Reflects, StoreOk, RoundTrips, Accounted;
      var Message(r, payload) := queue[nreq];
      verdict, nops' := NotForBatch, nops;
      if !Batches(r) {
        return;
      }
      if r.cmd == WriteCmd && |payload| < r.len {
        verdict := HungUp;
        return;
      }
      verdict := Joined;
      nops' := Join(queue, nreq, nops);
    }

    /** Drain what is queued, up to depth requests and about 64 copies. Neither table ever overflows. */
    method Assemble(queue: seq<Message>) returns (nreq: nat, nops: nat, trailer: Trailer)
      requires w.store.Valid() && |queue| > 0 && Batches(queue[0].r)
      requires 1 <= reqs.Length && LEGACY_WINDOW_BLOCKS <= w.ops.Length && BATCH_BLOCKS * reqs.Length <= w.ops.Length
      modifies reqs, w.ops
      ensures nreq <= reqs.Length && nops <= w.ops.Length
      ensures trailer != Lost ==> 1 <= nreq && Assembling(nreq, nops, queue)
      ensures trailer == Single ==> nreq < |queue| && !Batches(queue[nreq].r)
      ensures trailer == Disconnect ==> nreq < |queue| && queue[nreq].r.cmd == DiscCmd
      ensures trailer == Closed ==>
                || nreq == |queue| || nreq == reqs.Length
                || nops >= 64 || nops + 16 >= w.ops.Length
    {
      hide Batched, StoreOk, RoundTrips;
      BatchedNone(w.store.index.Length);
      assert reqs[..0] == [] && w.ops[..0] == [];
      nreq, nops, trailer := 0, 0, Closed;
      var cap := w.ops.Length - BATCH_BLOCKS;
      if cap > MAX_BATCH_COPIES {
        cap := MAX_BATCH_COPIES;
      }
      while nreq < reqs.Length && nops < cap && nreq < |queue|
        invariant nreq <= reqs.Length && nops < cap + BATCH_BLOCKS && Assembling(nreq, nops, queue)
        invariant nreq == 0 ==> nops == 0
        decreases reqs.Length - nreq
      {
        if queue[nreq].r.cmd == DiscCmd {
          trailer := Disconnect;
          return;
        }
        var verdict;
        verdict, nops := BatchAdmit(queue, nreq, nops);
        if verdict != Joined {
          trailer := if verdict == HungUp then Lost else Single;
          return;
        }
        nreq := nreq + 1;
      }
    }

    // -------------------------------------------------------------- flushing

    /** Charge each request with its operations that could not be prepared. */
    method ChargeRefused(nreq: nat, nops: nat)
      requires nreq <= reqs.Length && nops <= w.ops.Length
      requires forall q :: 0 <= q < nops ==> w.ops[q].req < nreq && (w.ops[q].err == Fine || w.ops[q].err == ENOSPC)
      modifies reqs
      ensures Charged(old(Asked(nreq)), Asked(nreq), w.Set(nops), nops, ENOSPC)
    {
      ghost var was, set0 := Asked(nreq), w.Set(nops);
      ChargedNone(was, set0, ENOSPC);
      hide Charged;
      for q := 0 to nops
        invariant Charged(was, Asked(nreq), set0, q, ENOSPC)
      {
        var bo := w.ops[q];
        ghost var now := Asked(nreq);
        ChargedNext(was, now, set0, q, ENOSPC);
        if bo.err != Fine {
          reqs[bo.req] := reqs[bo.req].(error := bo.err);
          assert Asked(nreq) == now[bo.req := now[bo.req].(error := ENOSPC)];
        }
      }
    }

    /** Charge each request with its failed copies; these outrank what it was charged with before. */
    method ChargeFailed(nreq: nat, nops: nat)
      requires nreq <= reqs.Length && nops <= w.ops.Length
      requires forall q :: 0 <= q < nops ==>
                 && w.ops[q].req < nreq && w.ops[q].err != EINVAL
                 && (w.ops[q].err == ENOSPC ==> reqs[w.ops[q].req].error != Fine)
      modifies reqs
      ensures Charged(old(Asked(nreq)), Asked(nreq), w.Set(nops), nops, EIO)
    {
      ghost var was, set0 := Asked(nreq), w.Set(nops);
      ChargedNone(was, set0, EIO);
      hide Charged;
      for q := 0 to nops
        invariant Charged(was, Asked(nreq), set0, q, EIO)
        invariant forall i :: 0 <= i < nreq && was[i].error != Fine ==> reqs[i].error != Fine
      {
        var bo := w.ops[q];
        ghost var now := Asked(nreq);
        ChargedNext(was, now, set0, q, EIO);
        if bo.err != Fine && (reqs[bo.req].error == Fine || bo.err == EIO) {
          reqs[bo.req] := reqs[bo.req].(error := bo.err);
          assert Asked(nreq) == now[bo.req := now[bo.req].(error := EIO)];
        }
      }
    }

    /** Give back a reservation that will never be published. */
    method WrAbort(bo: BlkOp) returns (r: BlkOp)
      requires w.store.Valid() && bo.grain in Spare(w.store.View())
      modifies w.store.Repr()
      ensures w.store.Valid() && w.store.View() == Dropped(old(w.store.View()), bo.grain) && r == AbortedOp(bo)
      ensures Spare(w.store.View()) == Spare(old(w.store.View())) - {bo.grain}
      ensures w.store.faults == old(w.store.faults) && w.store.refused == old(w.store.refused)
      ensures Drew(old(w.store.calls), w.store.calls, 0)
    {
      hide StoreOk, RoundTrips, Accounted, HeapModel.Good, Spare, AskCount;
      DrewOne(w.store.calls, FreeCall(bo.grain));
      w.store.Release(bo.grain);
      r := AbortedOp(bo);
    }

    /** Abort one operation if its request failed, as a step of the whole set. */
    method AbortOp(bo: BlkOp, failed: bool, ghost spare: set<nat>, ghost rs: seq<Bop>, ghost was: seq<BlkOp>,
        ghost ops0: seq<BlkOp>, ghost q: nat)
        returns (r: BlkOp)
      requires w.store.Valid() && q < |ops0| && bo == ops0[q] && Settled(rs, was)
      requires Aborting(w.store.codec, spare, w.store.View(), rs, was, ops0, q)
      requires bo.req < |rs| && (failed <==> rs[bo.req].error != Fine)
      modifies w.store.Repr()
      ensures w.store.Valid() && w.store.pages == old(w.store.pages)
      ensures w.store.faults == old(w.store.faults) && w.store.refused == old(w.store.refused)
      ensures Aborting(w.store.codec, spare, w.store.View(), rs, was, ops0[q := r], q + 1)
      ensures Drew(old(w.store.calls), w.store.calls, 0)
    {
      hide StoreOk, RoundTrips, Accounted, HeapModel.Good, Aborting, Spare, Settled, Drew;
      DrewNone(w.store.calls);
      ghost var s := w.store.View();
      SettledAt(w.store.codec, spare, s, rs, was, ops0, q);
      AbortNext(w.store.codec, spare, s, rs, was, ops0, q);
      r := bo;
      if bo.write && bo.err == Fine && failed {
        r := WrAbort(bo);
      }
      assert ops0[q := bo] == ops0;
    }

    method AbortAt(nreq: nat, nops: nat, q: nat, ghost spare: set<nat>, ghost was: seq<BlkOp>)
      requires w.store.Valid() && nreq <= reqs.Length && q < nops <= w.ops.Length
      requires Aborting(w.store.codec, spare, w.store.View(), Asked(nreq), was, w.Set(nops), q)
               && Settled(Asked(nreq), was)
      modifies w.ops, w.store.Repr()
      ensures w.store.Valid() && w.store.pages == old(w.store.pages)
      ensures w.store.faults == old(w.store.faults) && w.store.refused == old(w.store.refused)
      ensures Aborting(w.store.codec, spare, w.store.View(), Asked(nreq), was, w.Set(nops), q + 1)
      ensures Drew(old(w.store.calls), w.store.calls, 0)
    {
      hide StoreOk, RoundTrips, Accounted, HeapModel.Good, Aborting, Spare, Settled, Drew;
      ghost var ops0 := w.Set(nops);
      SettledAt(w.store.codec, spare, w.store.View(), Asked(nreq), was, ops0, q);
      var bo := w.ops[q];
      var r := AbortOp(bo, reqs[bo.req].error != Fine, spare, Asked(nreq), was, ops0, q);
      w.ops[q] := r;
      assert w.Set(nops) == ops0[q := r];
    }

    /** Give back every reservation of every failed request. */
    method AbortFailed(nreq: nat, nops: nat, ghost spare: set<nat>)
      requires w.store.Valid() && nreq <= reqs.Length && nops <= w.ops.Length
      requires Aborting(w.store.codec, spare, w.store.View(), Asked(nreq), w.Set(nops), w.Set(nops), 0)
      requires Settled(Asked(nreq), w.Set(nops))
      modifies w.ops, w.store.Repr()
      ensures w.store.Valid() && w.store.pages == old(w.store.pages)
      ensures w.store.faults == old(w.store.faults) && w.store.refused == old(w.store.refused)
      ensures Aborting(w.store.codec, spare, w.store.View(), Asked(nreq), old(w.Set(nops)), w.Set(nops), nops)
      ensures Drew(old(w.store.calls), w.store.calls, 0)
    {
      hide StoreOk, RoundTrips, Accounted, HeapModel.Good, Aborting, Spare, Settled, Drew;
      ghost var was, calls0 := w.Set(nops), w.store.calls;
      DrewNone(calls0);
      var q := 0;
      while q < nops
        invariant q <= nops && w.store.Valid() && w.store.pages == old(w.store.pages)
        invariant w.store.faults == old(w.store.faults) && w.store.refused == old(w.store.refused)
        invariant Aborting(w.store.codec, spare, w.store.View(), Asked(nreq), was, w.Set(nops), q)
                  && Settled(Asked(nreq), was)
        invariant Drew(calls0, w.store.calls, 0)
      {
        ghost var calls1 := w.store.calls;
        AbortAt(nreq, nops, q, spare, was);
        DrewTrans(calls0, calls1, w.store.calls, 0, 0);
        q := q + 1;
      }
    }

    /** Prepare every operation and charge the requests that could not get all their slots. */
    method ReserveBatch(nreq: nat, nops: nat, ghost s0: Store, ghost a: Ledger, ghost asked: seq<Bop>,
        ghost blank: seq<BlkOp>)
      requires w.store.Valid() && nreq <= reqs.Length && nops <= w.ops.Length
      requires s0 == w.store.View() && a == w.store.Books() && asked == Asked(nreq) && blank == w.Set(nops)
      requires Mapped(asked, blank, |s0.index|) && Admitted(asked, |s0.index|) && |s0.index| == |a.pages|
      requires Preparing(w.store.codec, s0, s0, blank, blank, 0)
      modifies reqs, w.ops, w.store.Repr()
      ensures w.store.Valid()
      ensures Booked(w.store.codec, w.store.View(), a, w.store.Books(), asked, Asked(nreq), blank, w.Set(nops))
      ensures Rationed(w.store.codec, w.store.start, a.calls, blank, w.Set(nops), nops)
    {
      hide StoreOk, RoundTrips, Accounted, HeapModel.Good, Preparing, Spare, Charged, AllFine, Mapped, Booked, Admitted,
        Drew, WriteCount, Rationed, Asks;
      w.PrepareOps(nops);
      AsksCounted(w.store.codec, a.calls, blank, nops);
      ReadyErrors(w.store.codec, s0, w.store.View(), asked, blank, w.Set(nops));
      ChargeRefused(nreq, nops);
      BookedSummary(w.store.codec, s0, w.store.View(), a, w.store.Books(), asked, Asked(nreq), blank, w.Set(nops));
    }

    /** Return the reservations of every request that was charged. */
    method ReturnFailed(nreq: nat, nops: nat, ghost s1: Store, ghost a: Ledger, ghost m: Ledger, ghost asked: seq<Bop>,
        ghost rs: seq<Bop>,
                        ghost blank: seq<BlkOp>, ghost ready: seq<BlkOp>)
      requires w.store.Valid() && nreq <= reqs.Length && nops <= w.ops.Length
      requires s1 == w.store.View() && m == w.store.Books() && rs == Asked(nreq) && ready == w.Set(nops)
      requires Booked(w.store.codec, s1, a, m, asked, rs, blank, ready)
      requires Rationed(w.store.codec, w.store.start, a.calls, blank, ready, nops)
      modifies w.ops, w.store.Repr()
      ensures w.store.Valid() && Ready(w.store.codec, w.store.View(), a, w.store.Books(), asked, rs, w.Set(nops))
      ensures Asked(nreq) == rs && Rationed(w.store.codec, w.store.start, a.calls, blank, w.Set(nops), nops)
    {
      hide StoreOk, RoundTrips, Accounted, HeapModel.Good, Spare, Aborting, Settled, Ready, Booked, Drew, Rationed;
      BookedFacts(w.store.codec, s1, a, m, asked, rs, blank, ready);
      AbortFailed(nreq, nops, a.spare);
      ReadySummary(w.store.codec, s1, w.store.View(), a, m, w.store.Books(), asked, rs, blank, ready, w.Set(nops));
      RationedAborts(w.store.codec, w.store.start, a, w.store.View(), rs, blank, ready, w.Set(nops));
    }

    /** Phase A of a batch, with every failed request's reservations returned. */
    method PrepareBatch(nreq: nat, nops: nat, ghost a: Ledger, ghost asked: seq<Bop>)
      requires w.store.Valid() && nreq <= reqs.Length && nops <= w.ops.Length && a == w.store.Books()
               && asked == Asked(nreq)
      requires Mapped(asked, w.Set(nops), w.store.index.Length) && Admitted(asked, w.store.index.Length)
      requires AllBlank(w.Set(nops), w.store.index.Length)
      modifies reqs, w.ops, w.store.Repr()
      ensures w.store.Valid()
      ensures Ready(w.store.codec, w.store.View(), a, w.store.Books(), asked, Asked(nreq), w.Set(nops))
      ensures Rationed(w.store.codec, w.store.start, a.calls, old(w.Set(nops)), w.Set(nops), nops)
    {
      hide StoreOk, RoundTrips, Accounted, HeapModel.Good, Spare, Preparing, Mapped, Ready, Booked, AllBlank, Admitted,
        Rationed;
      ghost var s0, blank := w.store.View(), w.Set(nops);
      BlankStarts(w.store.codec, s0, blank);
      ReserveBatch(nreq, nops, s0, a, asked, blank);
      ReturnFailed(nreq, nops, w.store.View(), a, w.store.Books(), asked, Asked(nreq), blank, w.Set(nops));
    }

    /** All copies made, all reads finished, all writes published; requests not charged yet. */
    method CopyBatch(nreq: nat, nops: nat, ghost s: Store, ghost a: Ledger, ghost m: Ledger, ghost asked: seq<Bop>,
                     ghost rs: seq<Bop>, ghost ops0: seq<BlkOp>)
      requires w.store.Valid() && nreq <= reqs.Length && nops <= w.ops.Length && s == w.store.View()
               && m == w.store.Books()
      requires rs == Asked(nreq) && ops0 == w.Set(nops) && Ready(w.store.codec, s, a, m, asked, rs, ops0)
      modifies w.ops, w.store.Repr()
      ensures w.store.Valid() && Copies(w.store.codec, s, a, m, w.store.Books(), asked, rs, ops0, w.Set(nops))
      ensures Asked(nreq) == rs
    {
      hide StoreOk, RoundTrips, Accounted, HeapModel.Good, Spare, Ready, Outcomes, SameErrors, Reservations, Answered,
        InReach, Applied, Staged, Drew;
      ReadyToRun(w.store.codec, s, a, m, asked, rs, ops0);
      w.DoBlocks(nops);
    }

    /** Charge the failed copies. */
    method JudgeBatch(nreq: nat, nops: nat, ghost s: Store, ghost a: Ledger, ghost m: Ledger, ghost b: Ledger,
                      ghost asked: seq<Bop>, ghost rs: seq<Bop>, ghost ops0: seq<BlkOp>)
      requires nreq <= reqs.Length && nops <= w.ops.Length && rs == Asked(nreq)
      requires Copies(w.store.codec, s, a, m, b, asked, rs, ops0, w.Set(nops))
      modifies reqs
      ensures Concluded(a, b, asked, Asked(nreq), w.Set(nops))
    {
      hide Copies, Concluded, Charged;
      ReadyToCharge(w.store.codec, s, a, m, b, asked, rs, ops0, w.Set(nops));
      ChargeFailed(nreq, nops);
      ConcludedSummary(w.store.codec, s, a, m, b, asked, rs, ops0, w.Set(nops), Asked(nreq));
    }

    /** Everything but the replies. */
    method RunBatch(nreq: nat, nops: nat, ghost a: Ledger, ghost asked: seq<Bop>)
      requires w.store.Valid() && nreq <= reqs.Length && nops <= w.ops.Length && a == w.store.Books()
               && asked == Asked(nreq)
      requires Mapped(asked, w.Set(nops), w.store.index.Length) && Admitted(asked, w.store.index.Length)
      requires AllBlank(w.Set(nops), w.store.index.Length)
      modifies reqs, w.ops, w.store.Repr()
      ensures w.store.Valid() && Concluded(a, w.store.Books(), asked, Asked(nreq), w.Set(nops))
      ensures Rationed(w.store.codec, w.store.start, a.calls, old(w.Set(nops)), w.Set(nops), nops)
    {
      hide StoreOk, RoundTrips, Accounted, HeapModel.Good, Spare, Ready, Copies, Mapped, Admitted, AllBlank, Concluded,
        Rationed;
      ghost var blank := w.Set(nops);
      PrepareBatch(nreq, nops, a, asked);
      ghost var s, m, rs, ops0 := w.store.View(), w.store.Books(), Asked(nreq), w.Set(nops);
      CopyBatch(nreq, nops, s, a, m, asked, rs, ops0);
      RationedCopies(w.store.codec, w.store.start, s, a, m, w.store.Books(), asked, rs, blank, ops0, w.Set(nops));
      JudgeBatch(nreq, nops, s, a, m, w.store.Books(), asked, rs, ops0);
    }

    /** The reply to one request. */
    method MakeReply(nreq: nat, nops: nat, i: nat, ghost a: Ledger, ghost b: Ledger,
        ghost asked: seq<Bop>) returns (reply: Reply)
      requires i < nreq <= reqs.Length && nops <= w.ops.Length && Concluded(a, b, asked, Asked(nreq), w.Set(nops))
      ensures Answers(a, reqs[i], reply)
    {
      hide Concluded;
      var r := reqs[i];
      ConcludedRange(a, b, asked, Asked(nreq), w.Set(nops), i);
      var data := [];
      if !r.write && r.error == Fine {
        data := Gather(w, r.op0, r.nops);
        ReadReply(a, b, asked, Asked(nreq), w.Set(nops), i, data);
      }
      reply := Reply(r.handle, r.error, data);
    }

    /** Reply to every request, in order. A failed copy drops the connection, after every reply. */
    method SendReplies(nreq: nat, nops: nat, ghost a: Ledger, ghost b: Ledger,
        ghost asked: seq<Bop>) returns (replies: seq<Reply>, keep: bool)
      requires nreq <= reqs.Length && nops <= w.ops.Length && Concluded(a, b, asked, Asked(nreq), w.Set(nops))
      ensures BatchDone(a, b, asked, Asked(nreq), w.Set(nops), replies, keep)
    {
      replies, keep := [], true;
      hide Concluded, Answers;
      for i := 0 to nreq
        invariant |replies| == i && forall j :: 0 <= j < i ==> Answers(a, reqs[j], replies[j])
        invariant keep <==> forall j :: 0 <= j < i ==> reqs[j].error != EIO
      {
        if reqs[i].error == EIO {
          keep := false;
        }
        var reply := MakeReply(nreq, nops, i, a, b, asked);
        replies := replies + [reply];
      }
      BatchSummary(a, b, asked, Asked(nreq), w.Set(nops), replies, keep);
    }

    /** Assemble a batch from what is queued and serve it: the replies answer the first nreq messages,
        one each, in order. */
    method ServeBatch(queue: seq<Message>) 
        returns (nreq: nat, nops: nat, replies: seq<Reply>, keep: bool, trailer: Trailer, ghost asked: seq<Bop>)
      requires w.store.Valid() && |queue| > 0 && Batches(queue[0].r)
      requires 1 <= reqs.Length && LEGACY_WINDOW_BLOCKS <= w.ops.Length && BATCH_BLOCKS * reqs.Length <= w.ops.Length
      modifies reqs, w.ops, w.store.Repr()
      ensures w.store.Valid() && nreq <= reqs.Length && nops <= w.ops.Length
      ensures trailer == Lost ==> w.store.Books() == old(w.store.Books()) && replies == [] && !keep
      ensures trailer != Lost ==>
                && 1 <= nreq <= |queue| && |asked| == nreq
                   && (forall i :: 0 <= i < nreq ==> Reflects(asked[i], queue[i]))
                && BatchDone(old(w.store.Books()), w.store.Books(), asked, Asked(nreq), w.Set(nops), replies, keep)
                && (keep <==> !DeviceFailed(w.store.device, old(w.store.copies), w.store.copies))
                && (old(w.store.RoomFor(nops)) ==> forall i :: 0 <= i < nreq ==> reqs[i].error != ENOSPC)
    {
      hide StoreOk, RoundTrips, Accounted, HeapModel.Good, Spare, Batched, BatchDone, Reflects, DeviceFailed, Rationed,
        WriteCount;
      nreq, nops, trailer := Assemble(queue);
      asked, replies, keep := Asked(nreq), [], false;
      if trailer == Lost {
        return;
      }
      BatchedFacts(Asked(nreq), w.Set(nops), w.store.index.Length);
      WriteCountBound(w.Set(nops), nops);
      replies, keep := FlushBatch(nreq, nops);
    }

    /** Run the prepared batch and reply to every request in it. A write is refused exactly when the heap, as
        the writes before it left it, has no room for its stored page - never with room for all of them; the
        connection is dropped exactly when the device failed a copy. */
    method FlushBatch(nreq: nat, nops: nat) returns (replies: seq<Reply>, keep: bool)
      requires w.store.Valid() && nreq <= reqs.Length && nops <= w.ops.Length
      requires Mapped(Asked(nreq), w.Set(nops), w.store.index.Length) && Admitted(Asked(nreq), w.store.index.Length)
      requires AllBlank(w.Set(nops), w.store.index.Length)
      modifies reqs, w.ops, w.store.Repr()
      ensures w.store.Valid()
              && BatchDone(old(w.store.Books()), w.store.Books(), old(Asked(nreq)), Asked(nreq), w.Set(nops), replies,
              keep)
      ensures Rationed(w.store.codec, w.store.start, old(w.store.calls), old(w.Set(nops)), w.Set(nops), nops)
      ensures keep <==> !DeviceFailed(w.store.device, old(w.store.copies), w.store.copies)
      ensures old(w.store.RoomFor(WriteCount(w.Set(nops), nops))) ==>
                forall i :: 0 <= i < nreq ==> reqs[i].error != ENOSPC
    {
      hide StoreOk, RoundTrips, Accounted, HeapModel.Good, Spare, Mapped, Admitted, AllBlank, Concluded, BatchDone,
        Rationed, Drew, DeviceFailed, WriteCount;
      ghost var a, asked, blank := w.store.Books(), Asked(nreq), w.Set(nops);
      ShapeOk(w.store.codec, w.store.View());
      RunBatch(nreq, nops, a, asked);
      replies, keep := SendReplies(nreq, nops, a, w.store.Books(), asked);
      DoneFacts(a, w.store.Books(), asked, Asked(nreq), w.Set(nops), replies, keep);
      SameWrites(asked, Asked(nreq), blank, w.Set(nops), w.store.index.Length);
      w.store.WhyFailed(WriteCount(blank, nops));
    }
  }

  lemma {:induction false} WriteCountBound(ops: seq<BlkOp>, n: nat)
    requires n <= |ops|
    ensures WriteCount(ops, n) <= n
  {
    if n > 0 { WriteCountBound(ops, n - 1); }
  }

  lemma DoneFacts(a: Ledger, b: Ledger, asked: seq<Bop>, reqs: seq<Bop>, done: seq<BlkOp>, replies: seq<Reply>,
      keep: bool)
    requires BatchDone(a, b, asked, reqs, done, replies, keep)
    ensures Drew(a.calls, b.calls, WriteCount(done, |done|)) && (keep <==> b.faults <= a.faults)
    ensures SameReqs(asked, reqs) && Mapped(reqs, done, |a.pages|)
    ensures forall i :: 0 <= i < |reqs| && reqs[i].error == ENOSPC ==> b.refused > a.refused
  {
    hide Mapped, BatchEffect, BatchWrites, Strays, Lands, PublishedOwn, Hit, Answers, InReach, Answered, Drew,
      WriteCount;
  }

  /** Whether an operation is a write is decided by its request. */
  lemma SameWrites(asked: seq<Bop>, reqs: seq<Bop>, blank: seq<BlkOp>, done: seq<BlkOp>, nblocks: nat)
    requires Mapped(asked, blank, nblocks) && Mapped(reqs, done, nblocks) && SameReqs(asked, reqs)
    ensures |blank| == |done| && WriteCount(blank, |blank|) == WriteCount(done, |done|)
  {
    StartSame(asked, reqs, |asked|);
    forall q | 0 <= q < |blank|
      ensures blank[q].write == done[q].write
    {
      var i := blank[q].req;
      assert OpOk(asked, blank[q], q) && OpOk(reqs, done[q], q);
      assert ReqOk(asked, blank, i, nblocks) && ReqOk(reqs, done, i, nblocks) && SameReq(asked[i], reqs[i]);
      assert OpOf(reqs[i], i, done[q], q);
    }
    WriteFlags(blank, done, |blank|);
  }

  lemma {:induction false} WriteFlags(a: seq<BlkOp>, b: seq<BlkOp>, n: nat)
    requires |a| == |b| && n <= |a| && forall q :: 0 <= q < |a| ==> a[q].write == b[q].write
    ensures WriteCount(a, n) == WriteCount(b, n)
  {
    if n > 0 { WriteFlags(a, b, n - 1); }
  }

  lemma RationedAborts(c: Codec, start: HeapModel.Heap, a: Ledger, s: Store, reqs: seq<Bop>, blank: seq<BlkOp>,
      ready: seq<BlkOp>, ops: seq<BlkOp>)
    requires Rationed(c, start, a.calls, blank, ready, |ready|) && Aborting(c, a.spare, s, reqs, ready, ops, |ops|)
    ensures Rationed(c, start, a.calls, blank, ops, |ops|)
  {
    hide NoRoomFor, Staged, Spare, Reservations;
    assert SameErrors(ready, ops);
  }

  lemma RationedCopies(c: Codec, start: HeapModel.Heap, s: Store, a: Ledger, m: Ledger, b: Ledger, asked: seq<Bop>,
      reqs: seq<Bop>, blank: seq<BlkOp>, ops: seq<BlkOp>, done: seq<BlkOp>)
    requires Rationed(c, start, a.calls, blank, ops, |ops|) && Copies(c, s, a, m, b, asked, reqs, ops, done)
    ensures Rationed(c, start, a.calls, blank, done, |done|)
  {
    hide Rationed, Ready, InReach, Answered, Applied, SameErrors, Reservations, Drew;
    assert |ops| == |done|;
    RationedOutcomes(c, start, a.calls, blank, ops, done);
  }

  lemma BatchedFacts(reqs: seq<Bop>, ops: seq<BlkOp>, nblocks: nat)
    requires Batched(reqs, ops, nblocks)
    ensures Mapped(reqs, ops, nblocks) && Admitted(reqs, nblocks) && AllBlank(ops, nblocks)
  {
  }

  lemma ConcludedRange(a: Ledger, b: Ledger, asked: seq<Bop>, reqs: seq<Bop>, done: seq<BlkOp>, i: nat)
    requires Concluded(a, b, asked, reqs, done) && i < |reqs|
    ensures reqs[i].op0 + reqs[i].nops <= |done|
  {
    ReqFacts(reqs, done, i, |a.pages|);
  }

  /** What a read gets back is what the store held before the batch. */
  lemma ReadReply(a: Ledger, b: Ledger, asked: seq<Bop>, reqs: seq<Bop>, done: seq<BlkOp>, i: nat, data: seq<byte>)
    requires Concluded(a, b, asked, reqs, done) && i < |reqs| && !reqs[i].write && reqs[i].error == Fine
    requires |data| == CBLK_SIZE * reqs[i].nops && reqs[i].op0 + reqs[i].nops <= |done|
    requires forall j :: 0 <= j < reqs[i].nops ==> Slice(data, j) == done[reqs[i].op0 + j].page
    ensures reqs[i].off + reqs[i].len <= CBLK_SIZE * |a.pages| && data == Range(a.pages, reqs[i].off, reqs[i].len)
  {
    var r := reqs[i];
    ReqFacts(reqs, done, i, |a.pages|);
    assert Judged(a, b, reqs, done, i);
    var blk := r.off / CBLK_SIZE;
    assert ReqOk(reqs, done, i, |a.pages|);
    forall j | 0 <= j < r.nops
      ensures Slice(data, j) == a.pages[blk + j]
    {
      assert OpOf(r, i, done[r.op0 + j], r.op0 + j);
    }
    hide Concluded, ReqOk, Range;
    SlicesAreRange(a.pages, blk, r.nops, data);
  }

  lemma BatchSummary(a: Ledger, b: Ledger, asked: seq<Bop>, reqs: seq<Bop>, done: seq<BlkOp>, replies: seq<Reply>,
      keep: bool)
    requires Concluded(a, b, asked, reqs, done)
    requires |replies| == |reqs| && forall i :: 0 <= i < |reqs| ==> Answers(a, reqs[i], replies[i])
    requires keep <==> forall i :: 0 <= i < |reqs| ==> reqs[i].error != EIO
    ensures BatchDone(a, b, asked, reqs, done, replies, keep)
  {
    hide Answers, Judged, Mapped, BatchWrites, BatchEffect, Lands, PublishedOwn, Strays;
  }

  /** What the copies and publishes of a ready batch did. */
  ghost predicate Copies(c: Codec, s: Store, a: Ledger, m: Ledger, b: Ledger, asked: seq<Bop>, reqs: seq<Bop>,
      ops: seq<BlkOp>, done: seq<BlkOp>) {
    && Ready(c, s, a, m, asked, reqs, ops) && Outcomes(ops, done)
    && InReach(done, m.pages) && Answered(done, m.pages) && b.pages == Applied(done, |done|, m.pages)
    && m.faults <= b.faults && (b.faults == m.faults <==> SameErrors(ops, done)) && b.refused == m.refused
    && b.spare == m.spare - Reservations(done) && Drew(m.calls, b.calls, 0)
  }

  /** A batch whose operations are over and whose requests are judged. */
  ghost predicate Concluded(a: Ledger, b: Ledger, asked: seq<Bop>, reqs: seq<Bop>, done: seq<BlkOp>) {
    && SameReqs(asked, reqs) && a.faults <= b.faults && a.refused <= b.refused
    && Mapped(reqs, done, |a.pages|) && InReach(done, a.pages) && Answered(done, a.pages)
    && b.pages == BatchEffect(reqs, done, |reqs|, a.pages)
    && b.spare == a.spare + Strays(done) && Strays(done) !! a.spare
    && Drew(a.calls, b.calls, WriteCount(done, |done|))
    && (forall q :: 0 <= q < |done| ==> PublishedOwn(reqs, done[q]))
    && (forall i :: 0 <= i < |reqs| ==> Judged(a, b, reqs, done, i) && Lands(reqs[i], done))
    && (b.faults > a.faults <==> exists i :: 0 <= i < |reqs| && reqs[i].error == EIO)
    && (b.faults == a.faults ==> b.pages == BatchWrites(reqs, |reqs|, a.pages) && b.spare == a.spare)
  }

  lemma ReadyToRun(c: Codec, s: Store, a: Ledger, m: Ledger, asked: seq<Bop>, reqs: seq<Bop>, ops: seq<BlkOp>)
    requires Ready(c, s, a, m, asked, reqs, ops)
    ensures Staged(c, s, ops, 0)
  {
  }

  lemma ReadyToCharge(c: Codec, s: Store, a: Ledger, m: Ledger, b: Ledger, asked: seq<Bop>, reqs: seq<Bop>,
      ops: seq<BlkOp>, done: seq<BlkOp>)
    requires Copies(c, s, a, m, b, asked, reqs, ops, done)
    ensures forall q :: 0 <= q < |done| ==>
              done[q].req < |reqs| && done[q].err != EINVAL
                && (done[q].err == ENOSPC ==> reqs[done[q].req].error != Fine)
  {
    hide Staged, Mapped, AllOrNothing, Reservations, InReach, Answered, Applied;
    CopiesBilled(reqs, ops, done, |a.pages|, m.refused > a.refused);
  }

  lemma SameReqsTrans(a: seq<Bop>, b: seq<Bop>, d: seq<Bop>)
    requires SameReqs(a, b) && SameReqs(b, d)
    ensures SameReqs(a, d)
  {
    forall i | 0 <= i < |a|
      ensures SameReq(a[i], d[i])
    {
      assert SameReq(a[i], b[i]) && SameReq(b[i], d[i]);
    }
  }

  /** With no failed copy the store is the pre-batch store with the error-free writes applied whole, in
      request order, and no slot is left behind. */
  lemma CleanBatch(reqs: seq<Bop>, done: seq<BlkOp>, pages: seq<Page>)
    requires Mapped(reqs, done, |pages|) && forall i :: 0 <= i < |reqs| ==> Lands(reqs[i], done)
    requires forall i :: 0 <= i < |reqs| ==>
               reqs[i].error != EIO && (reqs[i].error == EINVAL <==>
                 OutOfBounds(CBLK_SIZE * |pages|, reqs[i].off, reqs[i].len))
    requires forall q :: 0 <= q < |done| ==> done[q].err != EIO
    ensures BatchEffect(reqs, done, |reqs|, pages) == BatchWrites(reqs, |reqs|, pages) && Strays(done) == {}
  {
    NoStrays(done);
    forall i | 0 <= i < |reqs|
      ensures Batchable(reqs[i]) && (reqs[i].error == Fine ==> reqs[i].off + reqs[i].len <= CBLK_SIZE * |pages|)
    {
      assert ReqOk(reqs, done, i, |pages|);
    }
    hide Mapped, Lands;
    CleanEffect(reqs, done, |reqs|, pages);
  }

  lemma PublishedEach(reqs: seq<Bop>, last: seq<Bop>, ops: seq<BlkOp>, done: seq<BlkOp>, nblocks: nat, full: bool,
      q: nat)
    requires Mapped(reqs, ops, nblocks) && AllOrNothing(reqs, ops) && Billed(reqs, ops, nblocks, full)
             && Outcomes(ops, done)
    requires Charged(reqs, last, done, |done|, EIO) && q < |done|
    ensures PublishedOwn(last, done[q])
  {
    ChargedNeverCopies(reqs, ops, done, nblocks, full, q);
    assert Outcome(ops[q], done[q]) && OpOk(reqs, ops[q], q);
    var i := done[q].req;
    FinalErrors(reqs, last, ops, done, nblocks, full, i);
    if done[q].err == EIO { assert Hit(done, |done|, i, EIO); }
  }

  /** Where the pages and the slots ended up. */
  lemma ConcludedStore(c: Codec, s: Store, a: Ledger, m: Ledger, b: Ledger,
                       asked: seq<Bop>, reqs: seq<Bop>, ops: seq<BlkOp>, done: seq<BlkOp>, last: seq<Bop>)
    requires Copies(c, s, a, m, b, asked, reqs, ops, done) && SameReqs(reqs, last)
    ensures SameReqs(asked, last) && Mapped(last, done, |a.pages|) && InReach(done, a.pages) && Answered(done, a.pages)
    ensures b.pages == BatchEffect(last, done, |last|, a.pages)
    ensures b.spare == a.spare + Strays(done) && Strays(done) !! a.spare
    ensures Drew(a.calls, b.calls, WriteCount(done, |done|))
  {
    StagedDistinct(c, s, ops);
    assert forall q :: 0 <= q < |ops| ==> ops[q].err != EIO;
    SpareLeft(a.spare, ops, done);
    hide Staged, Reservations, Applied, Mapped, Answered, InReach, AllOrNothing, BatchEffect, Strays, Distinct, Hit;
    OutcomesAreSameOps(ops, done);
    WriteCountSame(ops, done, |ops|);
    DrewTrans(a.calls, m.calls, b.calls, WriteCount(ops, |ops|), 0);
    MappedSame(reqs, last, ops, done, |a.pages|);
    SameReqsTrans(asked, reqs, last);
    BatchMeaning(last, done, |last|, a.pages);
    MappedLength(last, done, |a.pages|);
  }

  /** What each request is told, and what it stored. */
  lemma ConcludedVerdicts(a: Ledger, b: Ledger, reqs: seq<Bop>, ops: seq<BlkOp>, done: seq<BlkOp>, last: seq<Bop>)
    requires Mapped(reqs, ops, |a.pages|) && AllOrNothing(reqs, ops)
             && Billed(reqs, ops, |a.pages|, b.refused > a.refused)
    requires Outcomes(ops, done) && Mapped(last, done, |a.pages|) && Charged(reqs, last, done, |done|, EIO)
    ensures forall i :: 0 <= i < |last| ==> Judged(a, b, last, done, i) && Lands(last[i], done)
    ensures forall q :: 0 <= q < |done| ==> PublishedOwn(last, done[q])
  {
    var full := b.refused > a.refused;
    hide Mapped, AllOrNothing, Billed, Outcomes, Charged, Hit, Lands, PublishedOwn;
    forall i | 0 <= i < |last|
      ensures Judged(a, b, last, done, i) && Lands(last[i], done)
    {
      FinalErrors(reqs, last, ops, done, |a.pages|, full, i);
      RequestLanded(reqs, last, ops, done, |a.pages|, full, i);
    }
    forall q | 0 <= q < |done|
      ensures PublishedOwn(last, done[q])
    {
      PublishedEach(reqs, last, ops, done, |a.pages|, full, q);
    }
  }

  lemma ConcludedSummary(c: Codec, s: Store, a: Ledger, m: Ledger, b: Ledger,
                         asked: seq<Bop>, reqs: seq<Bop>, ops: seq<BlkOp>, done: seq<BlkOp>, last: seq<Bop>)
    requires Copies(c, s, a, m, b, asked, reqs, ops, done) && Charged(reqs, last, done, |done|, EIO)
    ensures Concluded(a, b, asked, last, done)
  {
    var full := m.refused > a.refused;
    ConcludedStore(c, s, a, m, b, asked, reqs, ops, done, last);
    ConcludedVerdicts(a, b, reqs, ops, done, last);
    EioReported(reqs, last, ops, done, |a.pages|, full);
    CopiesBilled(reqs, ops, done, |a.pages|, full);
    hide Staged, Reservations, Applied, Mapped, Answered, InReach, AllOrNothing, BatchWrites, BatchEffect, Strays, Hit,
      Lands, PublishedOwn, Billed, Outcomes, Charged;
    if b.faults == a.faults { CleanBatch(last, done, a.pages); }
  }

  lemma MappedLength(reqs: seq<Bop>, ops: seq<BlkOp>, nblocks: nat)
    requires Mapped(reqs, ops, nblocks)
    ensures |ops| == StartOf(reqs, |reqs|)
  {
  }

  /** A batch with its reservations made and its refusals charged, nothing returned yet. */
  ghost predicate Booked(c: Codec, s: Store, a: Ledger, m: Ledger, asked: seq<Bop>, reqs: seq<Bop>, blank: seq<BlkOp>,
      ready: seq<BlkOp>) {
    && SameReqs(asked, reqs) && SameOps(blank, ready) && Mapped(asked, blank, |a.pages|)
    && Billed(reqs, ready, |a.pages|, m.refused > a.refused) && Settled(reqs, ready)
    && Aborting(c, a.spare, s, reqs, ready, ready, 0)
    && m.pages == a.pages && m.faults == a.faults && a.refused <= m.refused
    && Drew(a.calls, m.calls, WriteCount(blank, |blank|))
  }

  lemma BookedSummary(c: Codec, s0: Store, s: Store, a: Ledger, m: Ledger, asked: seq<Bop>, reqs: seq<Bop>,
      blank: seq<BlkOp>, ready: seq<BlkOp>)
    requires Preparing(c, s0, s, blank, ready, |ready|) && s0.pages == a.pages && s.pages == m.pages
             && Spare(s0) == a.spare
    requires Mapped(asked, blank, |a.pages|) && Admitted(asked, |a.pages|)
             && Charged(asked, reqs, ready, |ready|, ENOSPC)
    requires m.faults == a.faults && a.refused <= m.refused && (AllFine(ready, |ready|) <==> m.refused == a.refused)
    requires Drew(a.calls, m.calls, WriteCount(blank, |blank|))
    ensures Booked(c, s, a, m, asked, reqs, blank, ready)
  {
    PreparingEnds(c, s0, s, blank, ready);
    hide Staged, Reservations, Spare, Mapped, Settled, Billed, AllFine, Admitted, Preparing, Aborting;
    ChargedIsBilled(asked, reqs, blank, ready, |a.pages|, m.refused > a.refused);
    AbortStarts(c, a.spare, s, reqs, ready);
    forall q | 0 <= q < |ready|
      ensures SameOp(blank[q], ready[q])
    {
      assert Readied(blank[q], ready[q]);
    }
  }

  lemma BookedFacts(c: Codec, s: Store, a: Ledger, m: Ledger, asked: seq<Bop>, reqs: seq<Bop>, blank: seq<BlkOp>,
      ready: seq<BlkOp>)
    requires Booked(c, s, a, m, asked, reqs, blank, ready)
    ensures Settled(reqs, ready) && Aborting(c, a.spare, s, reqs, ready, ready, 0)
  {
  }

  /** A batch prepared: every operation ready for its copy or failed, whole requests only. */
  ghost predicate Ready(c: Codec, s: Store, a: Ledger, m: Ledger, asked: seq<Bop>, reqs: seq<Bop>, ops: seq<BlkOp>) {
    && Staged(c, s, ops, 0) && SameReqs(asked, reqs) && Mapped(reqs, ops, |a.pages|) && AllOrNothing(reqs, ops)
    && Billed(reqs, ops, |a.pages|, m.refused > a.refused)
    && m.pages == a.pages && m.faults == a.faults && a.refused <= m.refused
    && m.spare == a.spare + Reservations(ops) && Reservations(ops) !! a.spare
    && Drew(a.calls, m.calls, WriteCount(ops, |ops|))
  }

  lemma ReadyErrors(c: Codec, s0: Store, s: Store, asked: seq<Bop>, blank: seq<BlkOp>, ready: seq<BlkOp>)
    requires Preparing(c, s0, s, blank, ready, |ready|) && Mapped(asked, blank, |s0.index|)
    ensures |blank| == |ready|
    ensures forall q :: 0 <= q < |ready| ==> ready[q].req < |asked| && (ready[q].err == Fine || ready[q].err == ENOSPC)
  {
    PreparingEnds(c, s0, s, blank, ready);
    hide Staged, Reservations, Spare;
    forall q | 0 <= q < |ready|
      ensures ready[q].req < |asked| && (ready[q].err == Fine || ready[q].err == ENOSPC)
    {
      assert OpOk(asked, blank[q], q) && Readied(blank[q], ready[q]);
    }
  }

  lemma ReadySummary(c: Codec, s1: Store, s: Store, a: Ledger, m: Ledger, b: Ledger,
                     asked: seq<Bop>, reqs: seq<Bop>, blank: seq<BlkOp>, ready: seq<BlkOp>, ops: seq<BlkOp>)
    requires Booked(c, s1, a, m, asked, reqs, blank, ready)
    requires Aborting(c, a.spare, s, reqs, ready, ops, |ops|)
    requires b.pages == m.pages && b.faults == m.faults && b.refused == m.refused && b.spare == Spare(s)
    requires Drew(m.calls, b.calls, 0)
    ensures Ready(c, s, a, b, asked, reqs, ops)
  {
    AbortEnds(c, a.spare, s, reqs, ready, ops);
    hide Staged, Reservations, AllOrNothing, Spare, Aborting, Settled;
    forall q | 0 <= q < |ops|
      ensures SameOp(blank[q], ops[q])
    {
      assert SameOp(blank[q], ready[q]) && SameOp(ready[q], ops[q]);
    }
    WriteCountSame(blank, ops, |ops|);
    DrewTrans(a.calls, m.calls, b.calls, WriteCount(blank, |blank|), 0);
    MappedSame(asked, reqs, blank, ops, |a.pages|);
    BilledSame(reqs, ready, ops, |a.pages|, m.refused > a.refused);
  }

  lemma SettledAt(c: Codec, spare: set<nat>, s: Store, reqs: seq<Bop>, was: seq<BlkOp>, ops: seq<BlkOp>, q: nat)
    requires Aborting(c, spare, s, reqs, was, ops, q) && Settled(reqs, was) && q < |ops|
    ensures |was| == |ops| && ops[q] == was[q] && SettledOp(reqs, was[q])
  {
    hide Staged, Spare, Reservations;
  }
}
