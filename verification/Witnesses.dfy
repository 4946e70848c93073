/** Two things the store does that its users might not expect, each shown by a run of the index on the
    real allocator: a failed upload leaves its slot behind, and an uncompressed device can refuse a
    write while live blocks and reservations leave room. */
module Witnesses {
  import opened Blocks
  import opened Protocol
  import opened ProtocolInv
  import opened ProtocolSafety
  import opened ProtocolTheorems
  import opened ProtocolStranding
  import opened ProtocolCensus
  import opened Coupled
  import HeapModel
  import Capacity

  // ----------------------------------------------------------------- reaching

  ghost predicate Reachable(c: Codec, p: Pair) { exists run :: |run| > 0 && PairRun(c, run) && run[|run| - 1] == p }

  lemma ReachStart(c: Codec, p: Pair)
    requires PairInit(p)
    ensures Reachable(c, p)
  {
    hide PairInit;
    assert PairRun(c, [p]) && [p][|[p]| - 1] == p;
  }

  lemma Extend(c: Codec, run: seq<Pair>, p': Pair)
    requires |run| > 0 && PairRun(c, run) && PairNext(c, run[|run| - 1], p')
    ensures PairRun(c, run + [p'])
  {
    hide PairNext, PairInit;
    var r := run + [p'];
    forall t | 0 <= t < |r| - 1
      ensures PairAt(c, r, t)
    {
      if t < |run| - 1 { assert PairAt(c, run, t); }
    }
  }

  lemma Reach(c: Codec, p: Pair, i: nat, x: Action, p': Pair)
    requires Reachable(c, p) && PairStep(c, p, i, x, p')
    ensures Reachable(c, p')
  {
    hide PairStep, PairRun;
    var run :| |run| > 0 && PairRun(c, run) && run[|run| - 1] == p;
    Extend(c, run, p');
    assert (run + [p'])[|run + [p']| - 1] == p';
  }

  lemma ReachableIsSound(c: Codec, p: Pair)
    requires RoundTrips(c) && Reachable(c, p)
    ensures Inv(c, p.s) && Matched(c, p)
  {
    hide PairRun, RoundTrips, Inv, Matched, Run;
    var run :| |run| > 0 && PairRun(c, run) && run[|run| - 1] == p;
    MatchedAlways(c, run, |run| - 1);
    PairRunIsRun(c, run);
    InvAlways(c, States(run), |run| - 1);
  }

  /** The heap's size never changes. */
  predicate SameSize(h: HeapModel.Heap, k: HeapModel.Heap) { k.words == h.words && |k.ext| == |h.ext| }

  // -------------------------------------------------------------- single steps

  /** A step that asks nothing of the allocator. */
  lemma ReachQuiet(c: Codec, p: Pair, i: nat, x: Action, s': State)
    requires RoundTrips(c) && Reachable(c, p) && Step(c, p.s, i, x, s') && AskOf(c, p.s.agents[i]) == Nothing
    ensures Reachable(c, Pair(s', p.h))
  {
    ReachableIsSound(c, p);
    hide Reachable, Step, RoundTrips, Inv;
    Reach(c, p, i, x, Pair(s', p.h));
  }

  /** Agent 0 alone is at work on block b of a store that is otherwise as `was`. */
  ghost predicate Alone(was: State, s: State, a: Agent, locks: map<nat, nat>) {
    && |was.agents| > 0 && s.agents == was.agents[0 := a]
    && s.index == was.index && s.locks == locks && |s.log| == |s.index|
  }

  lemma Begin(c: Codec, p: Pair, b: nat, page: Page) returns (q: Pair)
    requires RoundTrips(c) && Reachable(c, p) && |p.s.agents| > 0 && p.s.agents[0] == Idle && p.s.locks == map[]
             && b < |p.s.index|
    ensures Reachable(c, q) && Alone(p.s, q.s, Reserve(b, page), map[]) && q.s.slots == p.s.slots && q.h == p.h
  {
    ReachableIsSound(c, p);
    var s' := At(p.s, 0, Reserve(b, page));
    assert Step(c, p.s, 0, Start(Reserve(b, page)), s');
    assert |p.s.log| == |p.s.index|;
    hide Reachable, Step, RoundTrips, Inv, Matched;
    ReachQuiet(c, p, 0, Start(Reserve(b, page)), s');
    q := Pair(s', p.h);
  }

  lemma TakeSlot(c: Codec, was: State, p: Pair, b: nat, page: Page) returns (q: Pair, g: nat)
    requires RoundTrips(c) && Reachable(c, p) && Alone(was, p.s, Reserve(b, page), map[]) && HeapModel.Good(p.h)
    requires Answer(p.h, |CompBlock(c, page)|).Got?
    ensures Reachable(c, q) && Alone(was, q.s, Upload(b, page, g, 0), map[]) && SameSize(p.h, q.h)
    ensures g !in p.s.slots && q.s.slots.Keys == p.s.slots.Keys + {g}
  {
    hide Reachable, Step, RoundTrips, Inv, Matched, HeapModel.Sound, HeapModel.Counted, HeapModel.Alloc, CompBlock,
      FreshSlot, Answer;
    ReachableIsSound(c, p);
    var n := |CompBlock(c, page)|;
    var x := Answer(p.h, n);
    SlotIsFresh(c, p, n);
    g := x.g;
    GrabSteps(c, p.s, b, page, x.g, x.sz);
    q := Pair(Grab(p.s, 0, x.g, x.sz, Upload(b, page, x.g, 0)), HeapModel.Alloc(p.h, n).heap);
    GrabPairs(c, p, b, page, x, q);
    AllocKeepsSize(p.h, n);
    Reach(c, p, 0, x, q);
  }

  lemma AllocKeepsSize(h: HeapModel.Heap, n: nat)
    requires HeapModel.Good(h) && 0 < n <= CBLK_SIZE
    ensures SameSize(h, HeapModel.Alloc(h, n).heap)
  {
    HeapModel.AllocOutcome(h, n);
  }

  lemma GrabSteps(c: Codec, s: State, b: nat, page: Page, g: nat, sz: nat)
    requires |s.agents| > 0 && s.agents[0] == Reserve(b, page) && FreshSlot(s, g, sz) && |CompBlock(c, page)| <= sz
    ensures g !in s.slots && Step(c, s, 0, Got(g, sz), Grab(s, 0, g, sz, Upload(b, page, g, 0)))
  {
    hide CompBlock;
  }

  lemma GrabPairs(c: Codec, p: Pair, b: nat, page: Page, x: Action, q: Pair)
    requires HeapModel.Good(p.h) && |p.s.agents| > 0 && p.s.agents[0] == Reserve(b, page)
    requires x == Answer(p.h, |CompBlock(c, page)|) && q.h == HeapModel.Alloc(p.h, |CompBlock(c, page)|).heap
             && Step(c, p.s, 0, x, q.s)
    ensures PairStep(c, p, 0, x, q)
  {
    hide Step, HeapModel.Good, HeapModel.Alloc, Answer;
  }

  lemma UploadByte(c: Codec, was: State, p: Pair, b: nat, page: Page, g: nat, k: nat) returns (q: Pair)
    requires RoundTrips(c) && Reachable(c, p) && Alone(was, p.s, Upload(b, page, g, k), map[])
             && k < |CompBlock(c, page)|
    ensures Reachable(c, q) && Alone(was, q.s, Upload(b, page, g, k + 1), map[]) && q.s.slots == p.s.slots && q.h == p.h
  {
    hide Reachable, Step, RoundTrips, Inv, Matched, CompBlock;
    ReachableIsSound(c, p);
    UploadFits(c, p.s, b, page, g, k);
    var s' := Poke(p.s, 0, ALLOC_GRAIN * g + k, CompBlock(c, page)[k], Upload(b, page, g, k + 1));
    PokeSteps(c, p.s, b, page, g, k);
    ReachQuiet(c, p, 0, Go, s');
    q := Pair(s', p.h);
  }

  lemma UploadFits(c: Codec, s: State, b: nat, page: Page, g: nat, k: nat)
    requires Inv(c, s) && |s.agents| > 0 && s.agents[0] == Upload(b, page, g, k) && k < |CompBlock(c, page)|
    ensures ALLOC_GRAIN * g + k < |s.mem|
  {
    assert AgentOk(c, s, 0);
  }

  lemma PokeSteps(c: Codec, s: State, b: nat, page: Page, g: nat, k: nat)
    requires |s.agents| > 0 && s.agents[0] == Upload(b, page, g, k) && k < |CompBlock(c, page)|
             && ALLOC_GRAIN * g + k < |s.mem|
    ensures Step(c, s, 0, Go, Poke(s, 0, ALLOC_GRAIN * g + k, CompBlock(c, page)[k], Upload(b, page, g, k + 1)))
  {
    hide CompBlock;
  }

  lemma {:induction false} UploadRest(c: Codec, was: State, p: Pair, b: nat, page: Page, g: nat,
      k: nat) returns (q: Pair)
    requires RoundTrips(c) && Reachable(c, p) && Alone(was, p.s, Upload(b, page, g, k), map[])
             && k <= |CompBlock(c, page)|
    ensures Reachable(c, q) && Alone(was, q.s, Upload(b, page, g, |CompBlock(c, page)|), map[])
            && q.s.slots == p.s.slots && q.h == p.h
    decreases |CompBlock(c, page)| - k
  {
    hide Reachable, RoundTrips, Alone, CompBlock;
    q := p;
    if k < |CompBlock(c, page)| {
      var r := UploadByte(c, was, p, b, page, g, k);
      q := UploadRest(c, was, r, b, page, g, k + 1);
    }
  }

  lemma WantSteps(c: Codec, s: State, b: nat, page: Page, g: nat)
    requires |s.agents| > 0 && s.agents[0] == Upload(b, page, g, |CompBlock(c, page)|)
    ensures Step(c, s, 0, Go, At(s, 0, Want(b, Put(page, g))))
  {
    hide CompBlock;
  }

  lemma LockSteps(c: Codec, s: State, b: nat, task: Task)
    requires |s.agents| > 0 && s.agents[0] == Want(b, task) && Stripe(b) !in s.locks
    ensures Step(c, s, 0, Go, Lock(s, 0, Stripe(b), Locked(b, task)))
  {
    hide Stripe;
  }

  lemma LoadSteps(c: Codec, s: State, b: nat, task: Task)
    requires |s.agents| > 0 && s.agents[0] == Locked(b, task) && b < |s.index|
    ensures Step(c, s, 0, Go, At(s, 0, Loaded(b, task, s.index[b])))
  {
  }

  /** Upload done: take the stripe and load the entry. */
  lemma LockAndLoad(c: Codec, was: State, p: Pair, b: nat, page: Page, g: nat) returns (q: Pair)
    requires RoundTrips(c) && Reachable(c, p) && Alone(was, p.s, Upload(b, page, g, |CompBlock(c, page)|), map[])
             && b < |was.index|
    ensures Reachable(c, q) && q.s.slots == p.s.slots && q.h == p.h
    ensures Alone(was, q.s, Loaded(b, Put(page, g), was.index[b]), map[Stripe(b) := 0])
  {
    hide Reachable, Step, RoundTrips, CompBlock, Stripe;
    var s1 := At(p.s, 0, Want(b, Put(page, g)));
    WantSteps(c, p.s, b, page, g);
    ReachQuiet(c, p, 0, Go, s1);
    var s2 := Lock(s1, 0, Stripe(b), Locked(b, Put(page, g)));
    LockSteps(c, s1, b, Put(page, g));
    ReachQuiet(c, Pair(s1, p.h), 0, Go, s2);
    var s3 := At(s2, 0, Loaded(b, Put(page, g), was.index[b]));
    LoadSteps(c, s2, b, Put(page, g));
    ReachQuiet(c, Pair(s2, p.h), 0, Go, s3);
    q := Pair(s3, p.h);
  }

  /** Just published, with everything but the stripe lock still to settle. */
  ghost predicate JustPublished(c: Codec, was: State, s: State, b: nat) {
    && |was.agents| > 0 && b < |was.index| == |s.index| && |s.agents| == |was.agents|
    && s.agents == was.agents[0 := s.agents[0]] && s.locks == map[Stripe(b) := 0]
    && s.agents[0].Settle? && s.agents[0].blk == b && s.agents[0].locked && !s.agents[0].late && s.agents[0].tally != []
    && s.agents[0].release == Displaced(was.index[b])
    && EntClen(s.index[b]) != 0 && forall a :: 0 <= a < |s.index| && a != b ==> s.index[a] == was.index[a]
  }

  lemma StoreEntry(c: Codec, was: State, p: Pair, b: nat, page: Page, g: nat) returns (q: Pair)
    requires RoundTrips(c) && Reachable(c, p) && b < |was.index|
    requires Alone(was, p.s, Loaded(b, Put(page, g), was.index[b]), map[Stripe(b) := 0])
    ensures Reachable(c, q) && q.s.slots == p.s.slots && q.h == p.h && JustPublished(c, was, q.s, b)
  {
    hide Reachable, Step, RoundTrips, Inv, Matched, CompBlock, EntClen, NextEnt, Stored1, JustPublished, Stripe;
    ReachableIsSound(c, p);
    LoadedFits(c, p.s, b, page, g);
    PutSteps(c, p.s, b, page, g);
    PutShape(c, was, p.s, b, page, g);
    ReachQuiet(c, p, 0, Go, Stored1(c, p.s, b, page, g));
    q := Pair(Stored1(c, p.s, b, page, g), p.h);
  }

  lemma LoadedFits(c: Codec, s: State, b: nat, page: Page, g: nat)
    requires Inv(c, s) && |s.agents| > 0 && b < |s.index| && s.agents[0] == Loaded(b, Put(page, g), s.index[b])
    ensures b < |s.index| == |s.hist| == |s.log| && |s.hist[b]| > 0
    ensures EntClen(NextEnt(g, |CompBlock(c, page)|, s.index[b])) != 0
  {
    assert AgentOk(c, s, 0);
    BlockFact(c, s, b);
    hide Inv, EntMake, DecompBlock;
    NextEntryOf(c, s, b, g, |CompBlock(c, page)|);
  }

  /** The state after agent 0 publishes. */
  ghost function Stored1(c: Codec, s: State, b: nat, page: Page, g: nat): State
    requires |s.agents| > 0 && b < |s.index| == |s.hist| == |s.log| && |s.hist[b]| > 0
  {
    var clen, e := |CompBlock(c, page)|, s.index[b];
    Publish(s, 0, b, NextEnt(g, clen, e), SetPage(page), Settle(b, true, false, Displaced(e), Debit(e) + Credit(clen)))
  }

  lemma PutSteps(c: Codec, s: State, b: nat, page: Page, g: nat)
    requires |s.agents| > 0 && b < |s.index| == |s.hist| == |s.log| && |s.hist[b]| > 0
    requires s.agents[0] == Loaded(b, Put(page, g), s.index[b])
    ensures Step(c, s, 0, Go, Stored1(c, s, b, page, g)) && Stored1(c, s, b, page, g).slots == s.slots
  {
    hide CompBlock, EntClen, EntGrain, NextEnt, Credit, Debit, Apply;
  }

  lemma PutShape(c: Codec, was: State, s: State, b: nat, page: Page, g: nat)
    requires |s.agents| > 0 && b < |was.index| && b < |s.index| == |s.hist| == |s.log| && |s.hist[b]| > 0
    requires Alone(was, s, Loaded(b, Put(page, g), was.index[b]), map[Stripe(b) := 0])
    requires EntClen(NextEnt(g, |CompBlock(c, page)|, s.index[b])) != 0
    ensures JustPublished(c, was, Stored1(c, s, b, page, g), b)
  {
    assert |Credit(|CompBlock(c, page)|)| > 0;
    hide CompBlock, EntClen, EntGrain, NextEnt, Credit, Debit, Apply, Stripe;
  }

  /** A write of block b by agent 0 alone, up to its publish. */
  lemma PublishAlone(c: Codec, p: Pair, b: nat, page: Page) returns (q: Pair)
    requires RoundTrips(c) && Reachable(c, p) && |p.s.agents| > 0 && p.s.agents[0] == Idle && p.s.locks == map[]
             && b < |p.s.index|
    requires HeapModel.Good(p.h) && Answer(p.h, |CompBlock(c, page)|).Got?
    ensures Reachable(c, q) && JustPublished(c, p.s, q.s, b) && |q.s.slots| == |p.s.slots| + 1 && SameSize(p.h, q.h)
  {
    hide Reachable, RoundTrips, CompBlock, HeapModel.Sound, HeapModel.Counted, Answer, Alone, JustPublished;
    var p1 := Begin(c, p, b, page);
    var p2, g := TakeSlot(c, p.s, p1, b, page);
    var p3 := UploadRest(c, p.s, p2, b, page, g, 0);
    var p4 := LockAndLoad(c, p.s, p3, b, page, g);
    q := StoreEntry(c, p.s, p4, b, page, g);
    assert |q.s.slots.Keys| == |p.s.slots.Keys| + 1;
  }

  // ------------------------------------------------------------------ settling

  /** Agent 0 has published a block's first version and holds at most its stripe lock. */
  ghost predicate Settling(s: State) {
    && |s.agents| > 0 && s.agents[0].Settle? && s.agents[0].release.None? && !s.agents[0].late
    && s.locks == if s.agents[0].locked then map[Stripe(s.agents[0].blk) := 0] else map[]
  }

  ghost function SettleNext(s: State): State
    requires |s.agents| > 0 && s.agents[0].Settle?
  {
    var a := s.agents[0];
    if a.locked then Unlock(s, 0, Stripe(a.blk), a.(locked := false))
    else if a.tally != [] then At(s, 0, a.(tally := a.tally[1..])).(counts := Bump(s.counts, a.tally[0]))
    else At(s, 0, Idle)
  }

  lemma SettleSteps(c: Codec, s: State)
    requires Settling(s)
    ensures Step(c, s, 0, Go, SettleNext(s)) && AskOf(c, s.agents[0]) == Nothing
    ensures var s' := SettleNext(s);
            && s'.agents == s.agents[0 := s'.agents[0]] && s'.index == s.index && s'.slots == s.slots
            && (s'.agents[0] == Idle ==> s'.locks == map[])
            && (s'.agents[0] != Idle ==> Settling(s') && SettleLeft(s') < SettleLeft(s))
  {
    hide Stripe, Bump;
  }

  ghost function SettleLeft(s: State): nat
    requires |s.agents| > 0 && s.agents[0].Settle?
  {
    |s.agents[0].tally| + if s.agents[0].locked then 1 else 0
  }

  lemma {:induction false} SettleRest(c: Codec, p: Pair) returns (q: Pair)
    requires RoundTrips(c) && Reachable(c, p) && Settling(p.s)
    ensures Reachable(c, q) && q.h == p.h && |p.s.agents| > 0 && q.s.agents == p.s.agents[0 := Idle]
    ensures q.s.index == p.s.index && q.s.slots == p.s.slots && q.s.locks == map[]
    decreases SettleLeft(p.s)
  {
    hide Reachable, RoundTrips, Step, SettleNext, AskOf;
    SettleSteps(c, p.s);
    q := Pair(SettleNext(p.s), p.h);
    ReachQuiet(c, p, 0, Go, q.s);
    if q.s.agents[0] != Idle {
      q := SettleRest(c, q);
    }
  }

  /** The first write of block b, from start to end. */
  lemma FirstWrite(c: Codec, p: Pair, b: nat, page: Page) returns (q: Pair)
    requires RoundTrips(c) && Reachable(c, p) && |p.s.agents| > 0 && p.s.agents[0] == Idle && p.s.locks == map[]
             && b < |p.s.index|
    requires HeapModel.Good(p.h) && Answer(p.h, |CompBlock(c, page)|).Got? && EntClen(p.s.index[b]) == 0
    ensures Reachable(c, q) && SameSize(p.h, q.h) && q.s.agents == p.s.agents && q.s.locks == map[]
            && |q.s.slots| == |p.s.slots| + 1
    ensures |q.s.index| == |p.s.index| && EntClen(q.s.index[b]) != 0
    ensures forall a :: 0 <= a < |q.s.index| && a != b ==> q.s.index[a] == p.s.index[a]
  {
    hide Reachable, RoundTrips, CompBlock, HeapModel.Sound, HeapModel.Counted, Answer, EntClen, Stripe;
    var r := PublishAlone(c, p, b, page);
    q := SettleRest(c, r);
  }

  // -------------------------------------------------------------- a full device

  /** The first k blocks written, every agent idle. */
  ghost predicate Written(p: Pair, k: nat) {
    && |p.s.agents| > 0 && Quiescent(p.s) && p.s.locks == map[] && |p.s.slots| == k <= |p.s.index|
    && forall b :: 0 <= b < |p.s.index| ==> (EntClen(p.s.index[b]) != 0 <==> b < k)
  }

  /** Uncompressed, a page is granted exactly while fewer slots are outstanding than the heap has pages. */
  lemma RawAnswer(c: Codec, p: Pair)
    requires Matched(c, p) && Incompressible(c)
    ensures Answer(p.h, CBLK_SIZE) == Refused <==> |p.s.slots| >= Capacity.RawCapacity(p.h)
  {
    Capacity.RawAllocSucceedsIff(p.h);
    hide HeapModel.Alloc;
  }

  lemma FreshIsLoaded(p: Pair)
    requires PairInit(p) && |p.s.agents| > 0
    ensures Written(p, 0)
  {
  }

  lemma {:induction false} WriteBlocks(c: Codec, p: Pair, k: nat) returns (q: Pair)
    requires RoundTrips(c) && Incompressible(c) && PairInit(p) && |p.s.agents| > 0
    requires k <= |p.s.index| && k <= Capacity.RawCapacity(p.h)
    ensures Reachable(c, q) && Written(q, k) && SameSize(p.h, q.h) && |q.s.index| == |p.s.index|
            && |q.s.agents| == |p.s.agents|
  {
    hide Reachable, RoundTrips, EntClen, PairInit, Incompressible, Matched, Inv;
    if k == 0 {
      ReachStart(c, p);
      FreshIsLoaded(p);
      q := p;
    } else {
      var r := WriteBlocks(c, p, k - 1);
      ReachableIsSound(c, r);
      RawAnswer(c, r);
      WholePage(c, ZeroPage());
      MatchedIsGood(c, r);
      q := FirstWrite(c, r, k - 1, ZeroPage());
    }
  }

  lemma WholePage(c: Codec, page: Page)
    requires Incompressible(c)
    ensures |CompBlock(c, page)| == CBLK_SIZE
  {
    StoredForm(c, page);
  }

  lemma MatchedIsGood(c: Codec, p: Pair)
    requires Matched(c, p)
    ensures HeapModel.Good(p.h)
  {
  }

  lemma {:induction false} CountTo(k: nat, all: set<nat>)
    requires forall b: nat :: b in all <==> b < k
    ensures |all| == k
  {
    if k == 0 {
      assert all == {};
    } else {
      CountTo(k - 1, all - {k - 1});
    }
  }

  /** What the overwriting publish leaves: n live blocks, no reservation, one displaced slot. */
  lemma Headcount(c: Codec, was: Pair, s: State, n: nat)
    requires Written(was, n) && 0 < n && JustPublished(c, was.s, s, 0)
    ensures |LiveIndex(s)| == n && Reserving(s) == {} && Displacing(s) == {0}
  {
    hide EntClen, EntGrain, Stripe;
    forall b: nat
      ensures b in LiveIndex(s) <==> b < n
    {
      if b < |s.index| && b != 0 { assert s.index[b] == was.s.index[b]; }
    }
    CountTo(n, LiveIndex(s));
    assert HoldsDisplaced(s.agents[0]);
    assert forall i :: 0 < i < |s.agents| ==> s.agents[i] == Idle;
  }

  /** REFUSED WITH ROOM TO SPARE. On every uncompressed device with as many blocks as its heap has pages, a
      state is reachable in which live blocks and reservations together number fewer than the device's
      blocks, and yet the allocator refuses the next page: a writer has published over a live block and
      not yet freed the slot it displaced. */
  lemma RefusedWithRoom(c: Codec, p: Pair) returns (q: Pair)
    requires RoundTrips(c) && Incompressible(c) && PairInit(p) && |p.s.agents| >= 2
    requires |p.s.index| == Capacity.RawCapacity(p.h) >= 2
    ensures Reachable(c, q) && HeapModel.Good(q.h) && Answer(q.h, CBLK_SIZE) == Refused && |q.s.index| == |p.s.index|
    ensures |LiveIndex(q.s)| + |Reserving(q.s)| < |q.s.index| && |Displacing(q.s)| == 1
  {
    hide Reachable, RoundTrips, EntClen, PairInit, Incompressible, Matched, Inv, JustPublished, LiveIndex, Reserving,
      Displacing;
    var n := |p.s.index| - 1;
    var r := WriteBlocks(c, p, n);
    ReachableIsSound(c, r);
    RawAnswer(c, r);
    WholePage(c, ZeroPage());
    MatchedIsGood(c, r);
    q := PublishAlone(c, r, 0, ZeroPage());
    ReachableIsSound(c, q);
    RawAnswer(c, q);
    MatchedIsGood(c, q);
    Headcount(c, r, q.s, n);
    PublishedLength(c, r.s, q.s, 0);
  }

  lemma PublishedLength(c: Codec, was: State, s: State, b: nat)
    requires JustPublished(c, was, s, b)
    ensures |s.index| == |was.index|
  {
  }

  // ----------------------------------------------------------- a stranded slot

  lemma FreshHasRoom(h: HeapModel.Heap, n: nat)
    requires HeapModel.Good(h) && HeapModel.Outstanding(h) == map[] && 0 < n <= CBLK_SIZE
    ensures Answer(h, n).Got?
  {
    Capacity.EmptyHeapIsUncommitted(h);
    HeapModel.AllocFailsIffNoRoom(h, n);
    assert HeapModel.RoomIn(h.ext[0], h.bm[0], (n - 1) / ALLOC_GRAIN);
  }

  lemma FailSteps(c: Codec, s: State, b: nat, page: Page, g: nat)
    requires |s.agents| > 0 && s.agents[0] == Upload(b, page, g, 0)
    ensures Step(c, s, 0, CopyFails, At(s, 0, Idle).(owner := s.owner[g := Stranded]))
  {
    hide CompBlock;
  }

  /** A SLOT LOST FOR GOOD. On every fresh store a single failed upload reaches a state in which every
      operation is over and no block is live, and yet a slot is outstanding that nothing owns. */
  lemma FailedUploadLeaks(c: Codec, p: Pair, b: nat, page: Page) returns (q: Pair, g: nat)
    requires RoundTrips(c) && PairInit(p) && |p.s.agents| > 0 && b < |p.s.index|
    ensures Reachable(c, q) && Quiescent(q.s) && q.s.index == p.s.index && IsStranded(q.s, g)
    ensures forall a :: 0 <= a < |q.s.index| ==> EntClen(q.s.index[a]) == 0
  {
    hide Reachable, RoundTrips, CompBlock, HeapModel.Sound, HeapModel.Counted, HeapModel.Outstanding, Answer, EntClen,
      Step, PairInit;
    ReachStart(c, p);
    FreshFacts(p);
    FreshHasRoom(p.h, |CompBlock(c, page)|);
    var p1 := Begin(c, p, b, page);
    var p2, h := TakeSlot(c, p.s, p1, b, page);
    g := h;
    FailSteps(c, p2.s, b, page, g);
    q := Pair(At(p2.s, 0, Idle).(owner := p2.s.owner[g := Stranded]), p2.h);
    ReachQuiet(c, p2, 0, CopyFails, q.s);
  }

  lemma FreshFacts(p: Pair)
    requires PairInit(p)
    ensures Quiescent(p.s) && p.s.locks == map[] && HeapModel.Good(p.h) && HeapModel.Outstanding(p.h) == map[]
    ensures forall a :: 0 <= a < |p.s.index| ==> EntClen(p.s.index[a]) == 0
  {
  }
}
