/** The concurrent index on top of the real allocator: every slot an agent takes or returns is a call of
    `slot_alloc` or `slot_free` on one heap, each one atomic step. */
module Coupled {
  import opened Blocks
  import opened SlotTotals
  import opened Protocol
  import opened ProtocolInv
  import opened ProtocolSafety
  import opened ProtocolTheorems
  import opened ProtocolCensus
  import HeapModel
  import HeapRuns
  import Capacity
  import ProtocolCounts

  datatype Pair = Pair(s: State, h: HeapModel.Heap)

  /** What an agent's next step asks of the allocator. */
  datatype Ask = Nothing | Slot(n: nat) | Return(g: nat)

  ghost function AskOf(c: Codec, a: Agent): Ask {
    match a
    case Reserve(_, page) => Slot(|CompBlock(c, page)|)
    case Patching(_, _, _, page, _) => Slot(|CompBlock(c, page)|)
    case Settle(_, locked, late, release, _) => if (late || !locked)
      && release.Some? then Return(release.value) else Nothing
    case _ => Nothing
  }

  /** The allocator's answer to a request for a slot. */
  ghost function Answer(h: HeapModel.Heap, n: nat): Action
    requires HeapModel.Good(h) && 0 < n <= CBLK_SIZE
  {
    var r := HeapModel.Alloc(h, n);
    if r.grain == SLOT_NONE then Refused else Got(r.grain, r.size)
  }

  ghost predicate PairStep(c: Codec, p: Pair, i: nat, x: Action, p': Pair) {
    && HeapModel.Good(p.h) && Step(c, p.s, i, x, p'.s)
    && match AskOf(c, p.s.agents[i])
       case Nothing => p'.h == p.h
       case Slot(n) => 0 < n <= CBLK_SIZE && x == Answer(p.h, n) && p'.h == HeapModel.Alloc(p.h, n).heap
       case Return(g) => g in HeapModel.Outstanding(p.h) && p'.h == HeapModel.Free(p.h, g)
  }

  /** A fresh store on a fresh heap. */
  ghost predicate PairInit(p: Pair) {
    Init(p.s) && HeapModel.Good(p.h) && HeapModel.Outstanding(p.h) == map[] && |p.s.mem| == HeapModel.HeapBytes(p.h)
  }

  ghost predicate PairNext(c: Codec, p: Pair, p': Pair) { exists i: nat, x :: PairStep(c, p, i, x, p') }

  ghost predicate PairAt(c: Codec, run: seq<Pair>, t: nat)
    requires t + 1 < |run|
  {
    PairNext(c, run[t], run[t + 1])
  }

  ghost predicate PairRun(c: Codec, run: seq<Pair>) {
    |run| > 0 && PairInit(run[0]) && forall t :: 0 <= t < |run| - 1 ==> PairAt(c, run, t)
  }

  /** The index's side of a run. */
  ghost function States(run: seq<Pair>): (r: seq<State>)
    ensures |r| == |run| && forall t :: 0 <= t < |r| ==> r[t] == run[t].s
  {
    seq(|run|, t requires 0 <= t < |run| => run[t].s)
  }

  lemma PairNextIsNext(c: Codec, p: Pair, p': Pair)
    requires PairNext(c, p, p')
    ensures Next(c, p.s, p'.s)
  {
    hide Step;
    var i: nat, x :| PairStep(c, p, i, x, p');
  }

  lemma PairRunIsRun(c: Codec, run: seq<Pair>)
    requires PairRun(c, run)
    ensures Run(c, States(run))
  {
    hide PairNext, Next, Init;
    forall t | 0 <= t < |run| - 1
      ensures StepAt(c, States(run), t)
    {
      assert PairAt(c, run, t);
      PairNextIsNext(c, run[t], run[t + 1]);
    }
  }

  // ------------------------------------------------------------- slots move with the heap

  /** What a step does to the outstanding slots. */
  ghost predicate SlotsMove(c: Codec, s: State, i: nat, x: Action, s': State)
    requires i < |s.agents|
  {
    && |s'.mem| == |s.mem|
    && match AskOf(c, s.agents[i])
       case Nothing => s'.slots == s.slots
       case Slot(_) => if x.Got? then s'.slots == s.slots[x.g := x.sz] else s'.slots == s.slots
       case Return(g) => s'.slots == s.slots - {g}
  }

  lemma AskingMoves(c: Codec, s: State, i: nat, x: Action, s': State)
    requires Step(c, s, i, x, s') && (s.agents[i].Reserve? || s.agents[i].Patching? || s.agents[i].Settle?)
    ensures SlotsMove(c, s, i, x, s')
  {
    hide CompBlock, FreshSlot, Stripe, Bump;
  }

  lemma CopyingMoves(c: Codec, s: State, i: nat, x: Action, s': State)
    requires Step(c, s, i, x, s')
             && (s.agents[i].Upload? || s.agents[i].Writing? || s.agents[i].Fetching? || s.agents[i].Download?)
    ensures SlotsMove(c, s, i, x, s')
  {
    hide CompBlock, DecompBlock, EntClen, EntGrain, NextEnt, Apply, Splice, Debit, Credit;
  }

  lemma QuietMoves(c: Codec, s: State, i: nat, x: Action, s': State)
    requires Step(c, s, i, x, s')
    requires s.agents[i].Idle? || s.agents[i].Snapshot? || s.agents[i].Peek? || s.agents[i].Want? ||
    s.agents[i].Locked? || s.agents[i].Loaded?
    ensures SlotsMove(c, s, i, x, s')
  {
    hide CompBlock, EntClen, EntGrain, NextEnt, Apply, Splice, Debit, Credit, TrimDebit, Stripe;
  }

  lemma StepMoves(c: Codec, s: State, i: nat, x: Action, s': State)
    requires Step(c, s, i, x, s')
    ensures SlotsMove(c, s, i, x, s')
  {
    StepInRange(c, s, i, x, s');
    hide Step, SlotsMove;
    match s.agents[i]
    case Reserve(_, _) => AskingMoves(c, s, i, x, s');
    case Patching(_, _, _, _, _) => AskingMoves(c, s, i, x, s');
    case Settle(_, _, _, _, _) => AskingMoves(c, s, i, x, s');
    case Upload(_, _, _, _) => CopyingMoves(c, s, i, x, s');
    case Writing(_, _, _, _, _, _, _) => CopyingMoves(c, s, i, x, s');
    case Fetching(_, _, _, _) => CopyingMoves(c, s, i, x, s');
    case Download(_, _, _, _, _) => CopyingMoves(c, s, i, x, s');
    case _ => QuietMoves(c, s, i, x, s');
  }

  /** Heap and index agree on what is outstanding; uncompressed, the heap holds whole pages only. */
  ghost predicate Matched(c: Codec, p: Pair) {
    && HeapModel.Good(p.h) && HeapModel.Outstanding(p.h) == p.s.slots && |p.s.mem| == HeapModel.HeapBytes(p.h)
    && (Incompressible(c) ==> Capacity.AllRaw(p.h))
  }

  /** One call of the allocator, as the index sees it. */
  lemma SlotMatched(c: Codec, h: HeapModel.Heap, n: nat)
    requires HeapModel.Good(h) && 0 < n <= CBLK_SIZE && (Incompressible(c) ==> Capacity.AllRaw(h) && n == CBLK_SIZE)
    ensures var h' := HeapModel.Alloc(h, n).heap;
            && HeapModel.Good(h') && HeapModel.HeapBytes(h') == HeapModel.HeapBytes(h)
               && (Incompressible(c) ==> Capacity.AllRaw(h'))
            && HeapModel.Outstanding(h') ==
               if Answer(h, n).Got? then HeapModel.Outstanding(h)[Answer(h, n).g := Answer(h, n).sz]
                 else HeapModel.Outstanding(h)
  {
    hide HeapModel.Sound, HeapModel.Counted, HeapModel.Alloc, HeapModel.Outstanding, HeapModel.HasRoom, Capacity.AllRaw,
      Incompressible;
    HeapModel.AllocOutcome(h, n);
    if Incompressible(c) { Capacity.RawStaysRaw(h, SLOT_NONE); }
  }

  lemma ReturnMatched(c: Codec, h: HeapModel.Heap, g: nat)
    requires HeapModel.Good(h) && g in HeapModel.Outstanding(h) && (Incompressible(c) ==> Capacity.AllRaw(h))
    ensures var h' := HeapModel.Free(h, g);
            && HeapModel.Good(h') && HeapModel.HeapBytes(h') == HeapModel.HeapBytes(h)
               && (Incompressible(c) ==> Capacity.AllRaw(h'))
            && HeapModel.Outstanding(h') == HeapModel.Outstanding(h) - {g}
  {
    HeapModel.FreeRemovesOneSlot(h, g);
    if Incompressible(c) { Capacity.RawStaysRaw(h, g); }
  }

  lemma AskSize(c: Codec, a: Agent)
    ensures AskOf(c, a).Slot? ==> 0 < AskOf(c, a).n <= CBLK_SIZE && (Incompressible(c) ==> AskOf(c, a).n == CBLK_SIZE)
  {
    if a.Reserve? || a.Patching? { StoredForm(c, a.page); }
  }

  lemma MatchedNext(c: Codec, p: Pair, p': Pair)
    requires Matched(c, p) && PairNext(c, p, p')
    ensures Matched(c, p')
  {
    hide Step, HeapModel.Good, HeapModel.Alloc, HeapModel.Free, HeapModel.Outstanding, HeapModel.HeapBytes,
    Incompressible,
      Capacity.AllRaw, CompBlock, AskOf, Answer;
    var i: nat, x :| PairStep(c, p, i, x, p');
    StepInRange(c, p.s, i, x, p'.s);
    StepMoves(c, p.s, i, x, p'.s);
    AskSize(c, p.s.agents[i]);
    match AskOf(c, p.s.agents[i])
    case Nothing =>
    case Slot(n) => SlotMatched(c, p.h, n);
    case Return(g) => ReturnMatched(c, p.h, g);
  }

  /** In every state of every run, the heap's outstanding slots are exactly the index's. */
  lemma {:induction false} MatchedAlways(c: Codec, run: seq<Pair>, t: nat)
    requires PairRun(c, run) && t < |run|
    ensures Matched(c, run[t])
  {
    hide Matched, PairNext;
    if t == 0 {
      MatchedInit(c, run[0]);
    } else {
      MatchedAlways(c, run, t - 1);
      assert PairAt(c, run, t - 1);
      MatchedNext(c, run[t - 1], run[t - 1 + 1]);
    }
  }

  lemma MatchedInit(c: Codec, p: Pair)
    requires PairInit(p)
    ensures Matched(c, p)
  {
    Capacity.EmptyHeapIsUncommitted(p.h);
  }

  // --------------------------------------------------------------- theorems

  /** Once every operation has finished, g_slot_bytes is at least g_codec_bytes. */
  lemma SlotBytesCoverCodecBytes(c: Codec, run: seq<Pair>, t: nat)
    requires RoundTrips(c) && PairRun(c, run) && t < |run| && Quiescent(run[t].s)
    ensures run[t].s.counts.codec <= run[t].h.bytes
  {
    PairRunIsRun(c, run);
    MatchedAlways(c, run, t);
    hide PairRun, RoundTrips, Run, Bytes, HeapModel.Good, HeapModel.Outstanding;
    ProtocolCounts.StoredBytesFit(c, States(run), t);
    Capacity.OutstandingBytes(run[t].h);
  }

  /** Trimming everything gives the VRAM back, unless an upload failed: once every operation is over and no
      block is live, no extent is committed and both heap counters read zero - if and only if nothing is
      stranded. */
  lemma TrimmedStoreIsUncommitted(c: Codec, run: seq<Pair>, t: nat)
    requires RoundTrips(c) && PairRun(c, run) && t < |run| && Quiescent(run[t].s)
    requires forall b :: 0 <= b < |run[t].s.index| ==> EntClen(run[t].s.index[b]) == 0
    ensures NothingStranded(run[t].s) ==>
              run[t].h.used == 0 && run[t].h.bytes == 0 && forall i :: 0 <= i < |run[t].h.ext| ==> !run[t].h.ext[i].used
    ensures !NothingStranded(run[t].s) ==> run[t].h.bytes > 0
  {
    hide PairRun, RoundTrips, Run, HeapModel.Sound, HeapModel.Counted, HeapModel.Outstanding, EntClen, Bytes, Inv;
    PairRunIsRun(c, run);
    MatchedAlways(c, run, t);
    InvAlways(c, States(run), t);
    var s := run[t].s;
    SlotCensus(c, s);
    assert LiveIndex(s) == {} && Reserving(s) == {} && Displacing(s) == {};
    if NothingStranded(s) {
      assert StrandedSlots(s) == {};
      assert s.slots == map[];
      Capacity.EmptyHeapIsUncommitted(run[t].h);
    } else {
      StrandedTakesBytes(c, s);
      Capacity.OutstandingBytes(run[t].h);
    }
  }

  lemma StrandedTakesBytes(c: Codec, s: State)
    requires Inv(c, s) && !NothingStranded(s)
    ensures Bytes(s.slots) > 0
  {
    assert s.owner.Keys == s.slots.Keys && SlotsOk(s.slots, |s.mem|);
    hide Inv;
    var g :| g in s.owner && s.owner[g] == Stranded;
    BytesWithout(s.slots, g);
  }

  /** NO REFUSALS WITHOUT A CODEC. Uncompressed, a page is refused exactly when live blocks, reservations,
      displaced slots and stranded slots together fill the heap - so never while they number fewer than
      the device's blocks, which the startup sizes keep within the heap. */
  lemma NeverRefusedUncompressed(c: Codec, run: seq<Pair>, t: nat)
    requires RoundTrips(c) && PairRun(c, run) && t < |run| && Incompressible(c)
    ensures var s := run[t].s;
            && HeapModel.Good(run[t].h)
            && (Answer(run[t].h, CBLK_SIZE) == Refused <==>
                  |LiveIndex(s)| + |Reserving(s)| + |Displacing(s)| + |StrandedSlots(s)|
                  >= Capacity.RawCapacity(run[t].h))
  {
    PairRunIsRun(c, run);
    MatchedAlways(c, run, t);
    InvAlways(c, States(run), t);
    hide PairRun, RoundTrips, Run, Inv, HeapModel.Good, HeapModel.Outstanding, HeapModel.Alloc, LiveIndex, Reserving,
      Displacing, StrandedSlots;
    SlotCensus(c, run[t].s);
    Capacity.RawAllocSucceedsIff(run[t].h);
  }

  /** WITH ANY CODEC a writer - of a whole block or of part of one - is refused exactly when no extent is
      uncommitted and every extent whose slots could hold what the library makes of its page is covered by
      outstanding slots, up to less than one slot. */
  lemma RefusedOnlyWhenFull(c: Codec, run: seq<Pair>, t: nat, i: nat, x: Action)
    requires RoundTrips(c) && PairRun(c, run) && t + 1 < |run| && PairStep(c, run[t], i, x, run[t + 1])
    requires i < |run[t].s.agents| && (run[t].s.agents[i].Reserve? || run[t].s.agents[i].Patching?)
    ensures HeapModel.Good(run[t].h)
    ensures x == Refused <==>
            var h, n := run[t].h, StoredLen(c, run[t].s.agents[i].page);
            forall e :: 0 <= e < |h.ext| ==>
              && h.ext[e].used
              && (n <= ALLOC_GRAIN * (h.ext[e].cls + 1) ==>
                    Bytes(Capacity.SlotsIn(h, e)) + ALLOC_GRAIN * (h.ext[e].cls + 1) > CBLK_SIZE * h.words)
  {
    hide PairRun, RoundTrips, Step, HeapModel.Sound, HeapModel.Counted, HeapModel.Alloc, Bytes, Capacity.SlotsIn;
    StoredForm(c, run[t].s.agents[i].page);
    hide CompBlock, StoredLen;
    Capacity.RefusedMeansFull(run[t].h, StoredLen(c, run[t].s.agents[i].page));
  }

  /** ... on a heap sized at startup, in terms of the device's blocks. */
  lemma RoomForEveryBlock(mb: nat, diskMb: Option<nat>, shift: nat, h: HeapModel.Heap)
    requires 14 <= shift <= 20 && Capacity.Configure(mb, diskMb, false, shift).Some?
    requires var g := Capacity.Configure(mb, diskMb, false, shift).value; h.words == g.words && |h.ext| == g.extents
    ensures Capacity.Configure(mb, diskMb, false, shift).value.blocks <= Capacity.RawCapacity(h)
  {
    Capacity.ConfigureFits(mb, diskMb, false, shift);
  }

  /** What the index assumes of a new slot is what the allocator delivers. */
  lemma SlotIsFresh(c: Codec, p: Pair, n: nat)
    requires Matched(c, p) && 0 < n <= CBLK_SIZE && Answer(p.h, n).Got?
    ensures FreshSlot(p.s, Answer(p.h, n).g, Answer(p.h, n).sz) && n <= Answer(p.h, n).sz
  {
    HeapRuns.AllocIsFreshSlot(p.h, n, p.s);
  }

  /** A slot given back is always one the allocator has outstanding: nothing is freed twice. */
  lemma ReturnIsOutstanding(c: Codec, p: Pair, i: nat)
    requires Matched(c, p) && Inv(c, p.s) && i < |p.s.agents| && AskOf(c, p.s.agents[i]).Return?
    ensures AskOf(c, p.s.agents[i]).g in HeapModel.Outstanding(p.h)
  {
    assert AgentOk(c, p.s, i);
  }
}
