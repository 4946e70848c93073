/** A worker running block operations in phases: prepare them all, issue every copy, finish the reads,
    publish the writes. */
module Worker {
  import opened Blocks
  import opened StoreModel
  import opened BlockOps
  import opened BlockStore
  import HeapModel
  import opened HeapRuns
  import opened Headroom

  class BlockWorker {
    const store: VramStore
    const ops: array<BlkOp>       // w->ops, maxops of them

    constructor (store: VramStore, maxops: nat)
      ensures this.store == store && ops.Length == maxops && fresh(ops)
    {
      this.store := store;
      ops := new BlkOp[maxops](_ => NewOp(0, false, ZeroPage(), 0));
    }

    /** The operations of the current set. */
    ghost function Set(n: nat): seq<BlkOp>
      requires n <= ops.Length
      reads ops
    {
      ops[..n]
    }

    // -------------------------------------------------------------- phase A

    /** Compress and reserve. The block's current entry is not looked at: what a write displaces is
        decided when it publishes. */
    method WrPrepare(bo: BlkOp) returns (r: BlkOp)
      requires store.Valid() && Blank(bo) && bo.write && bo.blk < store.index.Length
      modifies store.Repr()
      ensures store.Valid() && store.pages == old(store.pages) && store.faults == old(store.faults)
      ensures Prepared(store.codec, store.View(), r) && Readied(bo, r)
      ensures r.err == Fine <==> store.refused == old(store.refused)
      ensures old(store.refused) <= store.refused
      ensures store.calls == old(store.calls) + [AllocCall(StoredLen(store.codec, bo.page))]
      ensures r.err == ENOSPC <==> Denied(store.start, old(store.calls), StoredLen(store.codec, bo.page))
      ensures old(store.RoomFor(1)) ==> r.err != ENOSPC
      ensures Took(old(store.View()), store.View(), r)
    {
      hide StoreOk, RoundTrips, Accounted, HeapModel.Good, StoredLen, CompBlock, Spare, MustServe, Denied;
      var bytes := CompBlock(store.codec, bo.page);
      StoredForm(store.codec, bo.page);
      var grain := store.Reserve(|bytes|);
      r := bo.(cslot := bytes, clen := |bytes|, grain := grain,
               err := if grain == SLOT_NONE then ENOSPC else bo.err, dma := if grain == SLOT_NONE then 0 else 1);
    }

    /** Prepare one operation, as a step of the whole set. */
    method PrepareOp(bo: BlkOp, ghost s0: Store, ghost calls0: seq<Call>, ghost blank: seq<BlkOp>,
        ghost set0: seq<BlkOp>, ghost i: nat) returns (r: BlkOp)
      requires store.Valid() && i < |set0| && bo == set0[i] && Preparing(store.codec, s0, store.View(), blank, set0, i)
      requires Rationed(store.codec, store.start, calls0, blank, set0, i)
               && store.calls == calls0 + Asks(store.codec, blank, i)
      modifies store.Repr()
      ensures store.Valid() && store.faults == old(store.faults) && old(store.refused) <= store.refused
      ensures Preparing(store.codec, s0, store.View(), blank, set0[i := r], i + 1)
      ensures Rationed(store.codec, store.start, calls0, blank, set0[i := r], i + 1)
              && store.calls == calls0 + Asks(store.codec, blank, i + 1)
      ensures AllFine(set0[i := r], i + 1) <==> AllFine(set0, i) && store.refused == old(store.refused)
    {
      hide StoreOk, RoundTrips, Accounted, HeapModel.Good, CompBlock, StoredLen, Spare, Preparing, Prepared, AllFine,
        Denied, Rationed, Asks, MustServe;
      ghost var s, now := store.View(), store.calls;
      StillBlank(store.codec, s0, s, blank, set0, i);
      if bo.write {
        r := WrPrepare(bo);
      } else {
        r := RdPrepare(bo);
      }
      AllFineNext(set0, i, r);
      PreparingNext(store.codec, s0, s, store.View(), blank, set0, i, r);
      RationedNext(store.codec, store.start, calls0, now, blank, set0, i, r);
    }

    method PrepareAt(n: nat, i: nat, ghost s0: Store, ghost calls0: seq<Call>, ghost blank: seq<BlkOp>)
      requires store.Valid() && i < n <= ops.Length && Preparing(store.codec, s0, store.View(), blank, Set(n), i)
      requires Rationed(store.codec, store.start, calls0, blank, Set(n), i)
               && store.calls == calls0 + Asks(store.codec, blank, i)
      modifies ops, store.Repr()
      ensures store.Valid() && store.faults == old(store.faults) && old(store.refused) <= store.refused
      ensures Preparing(store.codec, s0, store.View(), blank, Set(n), i + 1)
      ensures Rationed(store.codec, store.start, calls0, blank, Set(n), i + 1)
              && store.calls == calls0 + Asks(store.codec, blank, i + 1)
      ensures AllFine(Set(n), i + 1) <==> old(AllFine(Set(n), i)) && store.refused == old(store.refused)
    {
      hide StoreOk, RoundTrips, Accounted, Preparing, AllFine, HeapModel.Good, Rationed, Asks;
      ghost var set0 := Set(n);
      var r := PrepareOp(ops[i], s0, calls0, blank, set0, i);
      ops[i] := r;
      assert Set(n) == set0[i := r];
    }

    /** Prepare the whole set: reservations are new slots, one per write that got one, and a write is refused
        exactly when the heap, as the writes before it left it, has no room for its stored page. */
    method PrepareOps(n: nat)
      requires store.Valid() && n <= ops.Length
      requires Preparing(store.codec, store.View(), store.View(), Set(n), Set(n), 0)
      modifies ops, store.Repr()
      ensures store.Valid() && store.faults == old(store.faults) && old(store.refused) <= store.refused
      ensures Preparing(store.codec, old(store.View()), store.View(), old(Set(n)), Set(n), n)
      ensures Rationed(store.codec, store.start, old(store.calls), old(Set(n)), Set(n), n)
              && store.calls == old(store.calls) + Asks(store.codec, old(Set(n)), n)
      ensures AllFine(Set(n), n) <==> store.refused == old(store.refused)
    {
      hide StoreOk, RoundTrips, Accounted, Preparing, AllFine, HeapModel.Good, NoRoomFor;
      ghost var blank, s0, calls0 := Set(n), store.View(), store.calls;
      AllFineStarts(blank);
      var i := 0;
      while i < n
        invariant i <= n && store.Valid() && Preparing(store.codec, s0, store.View(), blank, Set(n), i)
        invariant Rationed(store.codec, store.start, calls0, blank, Set(n), i)
                  && store.calls == calls0 + Asks(store.codec, blank, i)
        invariant store.faults == old(store.faults) && old(store.refused) <= store.refused
        invariant AllFine(Set(n), i) <==> store.refused == old(store.refused)
      {
        PrepareAt(n, i, s0, calls0, blank);
        i := i + 1;
      }
    }

    // -------------------------------------------------------------- phase B

    /** The copy of one read. */
    method CopyOut(bo: BlkOp) returns (r: BlkOp)
      requires store.Valid() && Prepared(store.codec, store.View(), bo) && Pending(bo) && bo.dma != 0
      modifies store`faults, store`copies
      ensures store.Valid() && store.View() == old(store.View())
      ensures Copied(store.codec, store.View(), r) && Outcome(bo, r) && r.dma != 2
      ensures old(store.faults) <= store.faults && (store.faults == old(store.faults) <==> r.err == Fine)
    {
      hide StoreOk, RoundTrips, Accounted, HeapModel.Good, EntClen, EntGrain, CompBlock, Stored;
      ShapeOk(store.codec, store.View());
      var ok, bytes := store.DtoH(bo.ent);
      r := if ok then bo.(cslot := bytes) else bo.(err := EIO, dma := 0);
    }

    /** The copy of one write: on failure its slot stays reserved, and it will not be published. */
    method CopyIn(bo: BlkOp) returns (r: BlkOp)
      requires store.Valid() && Holds(bo) && Reserved(store.codec, store.View(), bo)
      modifies store.vram, store`faults, store`copies
      ensures store.Valid() && ALLOC_GRAIN * bo.grain + |bo.cslot| <= store.vram.Length
      ensures r == bo || r == bo.(err := EIO, dma := 0)
      ensures store.View() == if r == bo then Uploaded(old(store.View()), bo.grain, bo.cslot) else old(store.View())
      ensures old(store.faults) <= store.faults && (store.faults == old(store.faults) <==> r == bo)
    {
      hide StoreOk, RoundTrips, Accounted, HeapModel.Good, CompBlock, Spare, Stored, Uploaded;
      var ok := store.HtoD(bo.grain, bo.cslot);
      r := if ok then bo else bo.(err := EIO, dma := 0);
    }

    /** The copy of one operation, seen as a step of the whole set. */
    method CopyOp(bo: BlkOp, ghost set0: seq<BlkOp>, ghost i: nat) returns (r: BlkOp)
      requires store.Valid() && i < |set0| && bo == set0[i] && Staged(store.codec, store.View(), set0, i)
      modifies store.vram, store`faults, store`copies
      ensures store.Valid() && store.View() == old(store.View()).(mem := store.vram[..])
      ensures Staged(store.codec, store.View(), set0[i := r], i + 1)
      ensures Outcome(bo, r)
      ensures old(store.faults) <= store.faults && (store.faults == old(store.faults) <==> r.err == bo.err)
    {
      hide StoreOk, RoundTrips, Accounted, HeapModel.Good, CompBlock, Spare, Stored, Staged, Reserved, Snapshot,
        Prepared, Copied;
      ghost var s := store.View();
      ShapeOk(store.codec, s);
      r := bo;
      if bo.dma == 0 || bo.err != Fine {
        StagedSkip(store.codec, s, set0, i);
      } else {
        ReadyToCopy(store.codec, s, set0, i);
        if bo.write {
          r := CopyIn(bo);
          if r == bo {
            StagedUpload(store.codec, s, set0, i);
          } else {
            StagedFail(store.codec, s, set0, i);
          }
        } else {
          r := CopyOut(bo);
          StagedMove(store.codec, s, set0, i, r);
        }
      }
      assert set0[i := bo] == set0;
    }

    /** Issue every copy of the set. A copy that fails fails only its own operation. */
    method IssueCopies(n: nat)
      requires store.Valid() && n <= ops.Length && Staged(store.codec, store.View(), Set(n), 0)
      modifies ops, store.vram, store`faults, store`copies
      ensures store.Valid() && store.View() == old(store.View()).(mem := store.vram[..])
      ensures Staged(store.codec, store.View(), Set(n), n)
      ensures Outcomes(old(Set(n)), Set(n))
      ensures old(store.faults) <= store.faults
      ensures store.faults == old(store.faults) <==> SameErrors(old(Set(n)), Set(n))
    {
      hide StoreOk, RoundTrips, Accounted, HeapModel.Good, Staged, Outcome;
      var i := 0;
      while i < n
        invariant i <= n && store.Valid() && store.View() == old(store.View()).(mem := store.vram[..])
        invariant Staged(store.codec, store.View(), Set(n), i)
        invariant forall j :: 0 <= j < i ==> Outcome(old(ops[j]), ops[j])
        invariant forall j :: i <= j < ops.Length ==> ops[j] == old(ops[j])
        invariant old(store.faults) <= store.faults
        invariant store.faults == old(store.faults) <==> forall j :: 0 <= j < i ==> ops[j].err == old(ops[j].err)
      {
        ghost var set0 := Set(n);
        var r := CopyOp(ops[i], set0, i);
        ops[i] := r;
        assert Set(n) == set0[i := r];
        i := i + 1;
      }
    }

    // ------------------------------------------------------ phase C: reads

    /** Snapshot the block's entry. */
    method RdPrepare(bo: BlkOp) returns (r: BlkOp)
      requires store.Valid() && bo.blk < store.index.Length && !bo.write && bo.err == Fine
      ensures r.ent == store.index[bo.blk] && Prepared(store.codec, store.View(), r) && Pending(r) && Outcome(bo, r)
    {
      hide StoreOk, RoundTrips, Accounted, HeapModel.Good, EntClen, EntGrain, DecompBlock;
      EntryFact(store.codec, store.View(), bo.blk);
      var ent := store.index[bo.blk];
      r := bo.(ent := ent, clen := EntClen(ent), grain := EntGrain(ent), dma := if EntClen(ent) != 0 then 1 else 0);
    }

    /** Re-check the entry, then decompress. `again` is set exactly when the entry moved; stored bytes
        always decompress. */
    method RdFinish(bo: BlkOp) returns (r: BlkOp, again: bool)
      requires store.Valid() && Pending(bo) && Copied(store.codec, store.View(), bo)
      ensures Copied(store.codec, store.View(), r) && Outcome(bo, r) && r.err == Fine
      ensures again <==> bo.clen != 0 && store.index[bo.blk] != bo.ent
      ensures again <==> Pending(r)
    {
      hide StoreOk, RoundTrips, Accounted, HeapModel.Good, EntClen, EntGrain, DecompBlock;
      EntryFact(store.codec, store.View(), bo.blk);
      r, again := bo, false;
      if bo.clen == 0 {
        r := bo.(page := ZeroPage(), dma := 2);
      } else if store.index[bo.blk] != bo.ent {
        again := true;
      } else {
        var d := DecompBlock(store.codec, bo.cslot);
        r := bo.(err := if d.Some? then Fine else EIO);
        if d.Some? {
          r := r.(page := d.value, dma := 2);
        }
      }
    }

    /** One round of re-checks; returns how many reads must try again. */
    method Validate(n: nat) returns (again: nat)
      requires store.Valid() && n <= ops.Length && Staged(store.codec, store.View(), Set(n), n)
      modifies ops
      ensures Staged(store.codec, store.View(), Set(n), n)
      ensures Outcomes(old(Set(n)), Set(n)) && SameErrors(old(Set(n)), Set(n))
      ensures again == 0 ==> forall j :: 0 <= j < n ==> !Pending(ops[j])
    {
      hide StoreOk, RoundTrips, Accounted, HeapModel.Good, Staged, Copied;
      again := 0;
      var i := 0;
      while i < n
        invariant i <= n && Staged(store.codec, store.View(), Set(n), n)
        invariant forall j :: 0 <= j < n ==> Outcome(old(ops[j]), ops[j]) && ops[j].err == old(ops[j].err)
        invariant again == 0 ==> forall j :: 0 <= j < i ==> !Pending(ops[j])
      {
        if Pending(ops[i]) {
          ghost var set0 := Set(n);
          CopiedOf(store.codec, store.View(), set0, i);
          var r, moved := RdFinish(ops[i]);
          StagedSwap(store.codec, store.View(), set0, i, r);
          ops[i] := r;
          assert Set(n) == set0[i := r];
          again := again + if moved then 1 else 0;
        }
        i := i + 1;
      }
    }

    /** Snapshot and copy again. */
    method Reread(bo: BlkOp) returns (r: BlkOp)
      requires store.Valid() && bo.blk < store.index.Length && !bo.write && bo.err == Fine
      modifies store`faults, store`copies
      ensures store.Valid() && store.View() == old(store.View())
      ensures Copied(store.codec, store.View(), r) && Outcome(bo, r)
      ensures old(store.faults) <= store.faults && (store.faults == old(store.faults) <==> r.err == Fine)
    {
      hide StoreOk, RoundTrips, Accounted, HeapModel.Good, EntClen, EntGrain, Stored;
      ShapeOk(store.codec, store.View());
      r := RdPrepare(bo);
      if r.dma != 0 {
        r := CopyOut(r);
      }
    }

    /** Give the reads that lost their race a new snapshot and a new copy. */
    method Resnapshot(n: nat)
      requires store.Valid() && n <= ops.Length && Staged(store.codec, store.View(), Set(n), n)
      modifies ops, store`faults, store`copies
      ensures store.Valid() && store.View() == old(store.View()) && Staged(store.codec, store.View(), Set(n), n)
      ensures Outcomes(old(Set(n)), Set(n))
      ensures old(store.faults) <= store.faults
      ensures store.faults == old(store.faults) <==> SameErrors(old(Set(n)), Set(n))
    {
      hide StoreOk, RoundTrips, Accounted, HeapModel.Good, Staged, Copied;
      var i := 0;
      while i < n
        invariant i <= n && store.Valid() && store.View() == old(store.View())
                  && Staged(store.codec, store.View(), Set(n), n)
        invariant forall j :: 0 <= j < i ==> Outcome(old(ops[j]), ops[j])
        invariant forall j :: i <= j < ops.Length ==> ops[j] == old(ops[j])
        invariant old(store.faults) <= store.faults
        invariant store.faults == old(store.faults) <==> forall j :: 0 <= j < i ==> ops[j].err == old(ops[j].err)
      {
        if Pending(ops[i]) {
          ghost var set0 := Set(n);
          InBounds(store.codec, store.View(), set0, i);
          var r := Reread(ops[i]);
          StagedSwap(store.codec, store.View(), set0, i, r);
          ops[i] := r;
          assert Set(n) == set0[i := r];
        }
        i := i + 1;
      }
    }

    /** Last-resort read of one block, under its stripe lock. */
    method LockedRead(bo: BlkOp) returns (r: BlkOp)
      requires store.Valid() && bo.blk < store.index.Length && !bo.write && bo.err == Fine
      modifies store`faults, store`copies
      ensures store.Valid() && store.View() == old(store.View())
      ensures Copied(store.codec, store.View(), r) && Outcome(bo, r) && !Pending(r)
      ensures old(store.faults) <= store.faults && (store.faults == old(store.faults) <==> r.err == Fine)
    {
      hide StoreOk, RoundTrips, Accounted, HeapModel.Good, Copied;
      ShapeOk(store.codec, store.View());
      var err, page := store.ReadBlock(bo.blk);
      r := bo.(err := err, page := page, dma := 2);
      AnsweredIsCopied(store.codec, store.View(), r);
    }

    /** Reads still contested are served one by one under the stripe lock. */
    method LockedReads(n: nat)
      requires store.Valid() && n <= ops.Length && Staged(store.codec, store.View(), Set(n), n)
      modifies ops, store`faults, store`copies
      ensures store.Valid() && store.View() == old(store.View()) && Staged(store.codec, store.View(), Set(n), n)
      ensures Outcomes(old(Set(n)), Set(n))
      ensures old(store.faults) <= store.faults
      ensures store.faults == old(store.faults) <==> SameErrors(old(Set(n)), Set(n))
      ensures forall j :: 0 <= j < n ==> !Pending(ops[j])
    {
      hide StoreOk, RoundTrips, Accounted, HeapModel.Good, Staged, Copied;
      var i := 0;
      while i < n
        invariant i <= n && store.Valid() && store.View() == old(store.View())
                  && Staged(store.codec, store.View(), Set(n), n)
        invariant forall j :: 0 <= j < i ==> Outcome(old(ops[j]), ops[j]) && !Pending(ops[j])
        invariant forall j :: i <= j < ops.Length ==> ops[j] == old(ops[j])
        invariant old(store.faults) <= store.faults
        invariant store.faults == old(store.faults) <==> forall j :: 0 <= j < i ==> ops[j].err == old(ops[j].err)
      {
        if Pending(ops[i]) {
          ghost var set0 := Set(n);
          InBounds(store.codec, store.View(), set0, i);
          var r := LockedRead(ops[i]);
          StagedSwap(store.codec, store.View(), set0, i, r);
          ops[i] := r;
          assert Set(n) == set0[i := r];
        }
        i := i + 1;
      }
    }

    /** Up to four rounds of re-checks, then the locked path: every read ends answered or failed. */
    method FinishReads(n: nat)
      requires store.Valid() && n <= ops.Length && Staged(store.codec, store.View(), Set(n), n)
      modifies ops, store`faults, store`copies
      ensures store.Valid() && store.View() == old(store.View()) && Staged(store.codec, store.View(), Set(n), n)
      ensures Outcomes(old(Set(n)), Set(n))
      ensures old(store.faults) <= store.faults
      ensures store.faults == old(store.faults) <==> SameErrors(old(Set(n)), Set(n))
      ensures forall j :: 0 <= j < n ==> !Pending(ops[j])
    {
      hide StoreOk, RoundTrips, Accounted, HeapModel.Good, Staged, Outcomes, SameErrors, Pending;
      ghost var set0 := Set(n);
      OutcomesRefl(set0);
      var round := 0;
      while round < 4
        invariant store.Valid() && store.View() == old(store.View()) && Staged(store.codec, store.View(), Set(n), n)
        invariant Outcomes(set0, Set(n))
        invariant old(store.faults) <= store.faults
        invariant store.faults == old(store.faults) <==> SameErrors(set0, Set(n))
      {
        ghost var set1 := Set(n);
        var again := Validate(n);
        ghost var set2 := Set(n);
        OutcomesTrans(set0, set1, set2);
        if again == 0 {
          break;
        }
        Resnapshot(n);
        OutcomesTrans(set0, set2, Set(n));
        round := round + 1;
      }
      ghost var set3 := Set(n);
      LockedReads(n);
      OutcomesTrans(set0, set3, Set(n));
    }

    // ----------------------------------------------------- phase C: writes

    /** Publish one operation if it holds a reservation. */
    method WrPublish(bo: BlkOp, ghost s0: Store, ghost set0: seq<BlkOp>, ghost i: nat)
      requires store.Valid() && i < |set0| && bo == set0[i] && SoFar(store.codec, s0, store.View(), set0, i)
      modifies store.Repr()
      ensures store.Valid() && SoFar(store.codec, s0, store.View(), set0, i + 1)
      ensures store.faults == old(store.faults) && store.refused == old(store.refused)
      ensures Drew(old(store.calls), store.calls, 0)
    {
      hide StoreOk, RoundTrips, Accounted, CompBlock, SoFar, Placed, Replaced, HeapModel.Good, AskCount;
      SoFarNext(store.codec, s0, store.View(), set0, i);
      if Holds(bo) {
        store.Publish(bo.blk, bo.grain, bo.clen, bo.page);
      }
    }

    /** The publish loop: the operations themselves are out of its reach. */
    method PublishLoop(n: nat, ghost s0: Store, ghost set0: seq<BlkOp>)
      requires store.Valid() && n <= ops.Length && set0 == Set(n) && SoFar(store.codec, s0, store.View(), set0, 0)
      modifies store.Repr()
      ensures store.Valid() && Set(n) == set0 && SoFar(store.codec, s0, store.View(), set0, n)
      ensures store.faults == old(store.faults) && store.refused == old(store.refused)
      ensures Drew(old(store.calls), store.calls, 0)
    {
      hide StoreOk, RoundTrips, Accounted, CompBlock, SoFar, HeapModel.Good, Drew;
      ghost var calls0 := store.calls;
      DrewNone(calls0);
      assert ops !in store.Repr();
      var i := 0;
      while i < n
        invariant i <= n && store.Valid() && SoFar(store.codec, s0, store.View(), set0, i)
        invariant store.faults == old(store.faults) && store.refused == old(store.refused)
        invariant Drew(calls0, store.calls, 0)
      {
        ghost var calls1 := store.calls;
        WrPublish(ops[i], s0, set0, i);
        DrewTrans(calls0, calls1, store.calls, 0, 0);
        i := i + 1;
      }
    }

    /** Publish the writes that hold a reservation, in order. */
    method PublishWrites(n: nat)
      requires store.Valid() && n <= ops.Length && Staged(store.codec, store.View(), Set(n), n)
      modifies store.Repr()
      ensures store.Valid()
      ensures store.faults == old(store.faults) && store.refused == old(store.refused)
      ensures InReach(Set(n), old(store.pages)) && store.pages == Applied(Set(n), n, old(store.pages))
      ensures Spare(store.View()) == Spare(old(store.View())) - Reservations(Set(n))
      ensures Drew(old(store.calls), store.calls, 0)
    {
      hide StoreOk, RoundTrips, Accounted, Staged, SoFar, Spare, Reservations, InReach, Applied, HeapModel.Good, Drew;
      ghost var set0, s0 := Set(n), store.View();
      Unpublished(store.codec, s0, set0);
      PublishLoop(n, s0, set0);
      AllPublished(store.codec, s0, store.View(), set0);
    }

    /** Every copy issued and every read finished; no write published yet. */
    method CopyAndRead(n: nat)
      requires store.Valid() && n <= ops.Length && Staged(store.codec, store.View(), Set(n), 0)
      modifies ops, store.vram, store`faults, store`copies
      ensures store.Valid() && store.pages == old(store.pages) && Spare(store.View()) == Spare(old(store.View()))
      ensures Staged(store.codec, store.View(), Set(n), n)
      ensures Outcomes(old(Set(n)), Set(n)) && InReach(Set(n), store.pages) && Answered(Set(n), store.pages)
      ensures old(store.faults) <= store.faults
      ensures store.faults == old(store.faults) <==> SameErrors(old(Set(n)), Set(n))
    {
      hide StoreOk, RoundTrips, Accounted, HeapModel.Good, Staged, Outcomes, SameErrors, Spare, Pending, Answered,
        InReach;
      ghost var set0, s0 := Set(n), store.View();
      IssueCopies(n);
      ghost var set1 := Set(n);
      SpareFrame(s0, store.View());
      FinishReads(n);
      OutcomesTrans(set0, set1, Set(n));
      ReadsAnswered(store.codec, store.View(), Set(n));
    }

    /** Copies, reads, writes - in that order, so every read of the set sees the store as it was
        before any write of the set. A write publishes exactly when it holds a reservation and its
        copy went through. */
    method DoBlocks(n: nat)
      requires store.Valid() && n <= ops.Length && Staged(store.codec, store.View(), Set(n), 0)
      modifies ops, store.Repr()
      ensures store.Valid() && store.refused == old(store.refused)
      ensures Outcomes(old(Set(n)), Set(n)) && InReach(Set(n), old(store.pages)) && Answered(Set(n), old(store.pages))
      ensures old(store.faults) <= store.faults
      ensures store.faults == old(store.faults) <==> SameErrors(old(Set(n)), Set(n))
      ensures store.pages == Applied(Set(n), n, old(store.pages))
      ensures Spare(store.View()) == Spare(old(store.View())) - Reservations(Set(n))
      ensures Drew(old(store.calls), store.calls, 0)
    {
      hide StoreOk, RoundTrips, Accounted, Staged, Outcomes, SameErrors, Reservations, Spare, Applied, Answered,
        InReach, HeapModel.Good, Drew;
      CopyAndRead(n);
      PublishWrites(n);
    }
  }

  /** None of the first i operations has failed. */
  ghost predicate AllFine(ops: seq<BlkOp>, i: nat)
    requires i <= |ops|
  {
    forall j :: 0 <= j < i ==> ops[j].err == Fine
  }

  lemma AllFineStarts(ops: seq<BlkOp>)
    ensures AllFine(ops, 0)
  {
  }

  lemma AllFineNext(ops: seq<BlkOp>, i: nat, op: BlkOp)
    requires i < |ops|
    ensures AllFine(ops[i := op], i + 1) <==> AllFine(ops, i) && op.err == Fine
  {
    assert ops[i := op][i] == op;
    assert forall j :: 0 <= j < i ==> ops[i := op][j] == ops[j];
  }

  lemma StillBlank(c: Codec, s0: Store, s: Store, blank: seq<BlkOp>, ops: seq<BlkOp>, i: nat)
    requires Preparing(c, s0, s, blank, ops, i) && i < |ops|
    ensures ops[i] == blank[i] && Blank(ops[i]) && ops[i].blk < |s.index|
  {
    hide Prepared;
  }

  /** A prepared operation took the slot it holds, and nothing else. */
  ghost predicate Took(s: Store, s': Store, op: BlkOp) {
    if Holds(op)
    then op.grain !in s.slots && s'.slots.Keys == s.slots.Keys + {op.grain}
      && s' == Grabbed(s, op.grain, s'.slots[op.grain])
         && Spare(s') == Spare(s) + {op.grain}
    else s' == s
  }

  lemma SpareFrame(s: Store, s': Store)
    requires s'.slots == s.slots && s'.owner == s.owner
    ensures Spare(s') == Spare(s)
  {
  }

  ghost predicate InReach(ops: seq<BlkOp>, pages: seq<Page>) { forall i :: 0 <= i < |ops| ==> ops[i].blk < |pages| }

  /** Store s is store s0 with the first i operations published. */
  ghost predicate SoFar(c: Codec, s0: Store, s: Store, ops: seq<BlkOp>, i: nat) {
    && InReach(ops, s0.pages) && Publishing(c, s, ops, i)
    && s.pages == Applied(ops, i, s0.pages) && Spare(s) == Spare(s0) - Reservations(ops[..i])
  }

  lemma Unpublished(c: Codec, s: Store, ops: seq<BlkOp>)
    requires Staged(c, s, ops, |ops|)
    ensures SoFar(c, s, s, ops, 0)
  {
    hide CompBlock, EntClen, EntGrain, Stored, Placed;
    forall i | 0 <= i < |ops|
      ensures ops[i].blk < |s.pages|
    {
      assert Copied(c, s, ops[i]);
    }
    hide Copied;
    assert ops[..0] == [];
  }

  lemma SoFarNext(c: Codec, s0: Store, s: Store, ops: seq<BlkOp>, i: nat)
    requires RoundTrips(c) && StoreOk(c, s) && SoFar(c, s0, s, ops, i) && i < |ops|
    ensures Holds(ops[i]) ==>
              && ops[i].blk < |s.index| == |s.pages|
              && Placed(c, s, ops[i].page, ops[i].grain) && ops[i].clen == |CompBlock(c, ops[i].page)|
              && SoFar(c, s0, Replaced(s, ops[i].blk, ops[i].grain, ops[i].clen, ops[i].page), ops, i + 1)
    ensures !Holds(ops[i]) ==> SoFar(c, s0, s, ops, i + 1)
  {
    hide StoreOk, RoundTrips, Accounted, HeapModel.Good, CompBlock, Spare, Placed, Replaced, EntClen, EntGrain,
      Reservations;
    ReservationsSnoc(ops, i);
    if Holds(ops[i]) {
      PublishNext(c, s, ops, i);
      ReplaceKeeps(c, s, ops[i].blk, ops[i].grain, ops[i].page);
    }
  }

  lemma AllPublished(c: Codec, s0: Store, s: Store, ops: seq<BlkOp>)
    requires SoFar(c, s0, s, ops, |ops|)
    ensures InReach(ops, s0.pages) && s.pages == Applied(ops, |ops|, s0.pages)
    ensures Spare(s) == Spare(s0) - Reservations(ops)
  {
    assert ops[..|ops|] == ops;
  }

  /** Every read that did not fail got the page its block had in `pages`. */
  ghost predicate Answered(ops: seq<BlkOp>, pages: seq<Page>)
    requires InReach(ops, pages)
  {
    forall j :: 0 <= j < |ops| && !ops[j].write && ops[j].err == Fine ==> ops[j].page == pages[ops[j].blk]
  }

  lemma ReadsAnswered(c: Codec, s: Store, ops: seq<BlkOp>)
    requires Staged(c, s, ops, |ops|) && forall j :: 0 <= j < |ops| ==> !Pending(ops[j])
    ensures InReach(ops, s.pages) && Answered(ops, s.pages)
  {
    hide CompBlock, EntClen, EntGrain, Stored, Placed;
    forall j | 0 <= j < |ops|
      ensures ops[j].blk < |s.pages| && (!ops[j].write && ops[j].err == Fine ==> ops[j].page == s.pages[ops[j].blk])
    {
      assert Copied(c, s, ops[j]);
    }
  }

  lemma InBounds(c: Codec, s: Store, ops: seq<BlkOp>, i: nat)
    requires Staged(c, s, ops, |ops|) && i < |ops|
    ensures ops[i].blk < |s.index| == |s.pages|
  {
    assert Copied(c, s, ops[i]);
  }

  lemma AnsweredIsCopied(c: Codec, s: Store, op: BlkOp)
    requires !op.write && op.blk < |s.index| == |s.pages| && op.dma == 2
             && (op.err == Fine ==> op.page == s.pages[op.blk])
    ensures Copied(c, s, op)
  {
  }

  lemma OutcomesRefl(ops: seq<BlkOp>)
    ensures Outcomes(ops, ops) && SameErrors(ops, ops)
  {
  }
}
