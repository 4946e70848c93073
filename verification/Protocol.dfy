/** The concurrent block index as a transition system. Any number of agents run block operations
    (whole-block write, partial write, read, trim); each access to shared memory is one step, and a
    device copy moves one byte per step, so a slot can be freed and reused in the middle of a copy.
    Memory is sequentially consistent. The allocator appears only through what it promises: a fresh
    slot overlaps no outstanding one, and it may refuse. */
module Protocol {
  import opened Blocks

  const IDX_LOCKS: nat := 4096
  const MAX_ROUNDS: nat := 4

  function Stripe(blk: nat): nat { blk % IDX_LOCKS }

  /** What a publish does to its block. */
  datatype Edit = SetPage(page: Page) | PatchPage(boff: nat, src: seq<byte>) | ClearPage

  predicate EditOk(e: Edit) { e.PatchPage? ==> e.boff + |e.src| <= CBLK_SIZE }

  function Apply(e: Edit, p: Page): Page
    requires EditOk(e)
  {
    match e
    case SetPage(q) => q
    case PatchPage(boff, src) => Splice(p, boff, src)
    case ClearPage => ZeroPage()
  }

  /** Work done under a block's stripe lock. */
  datatype Task = Put(page: Page, grain: nat) | Patch(boff: nat, src: seq<byte>) | Discard | Fetch

  datatype Meter = LiveBlocks | CodecBytes | RawBlocks | TrimBlocks

  datatype Delta = Delta(meter: Meter, amount: int)

  datatype Agent =
    | Idle
    | Reserve(blk: nat, page: Page)                                   // wr_prepare
    | Upload(blk: nat, page: Page, grain: nat, k: nat)                // HtoD, k bytes done
    | Snapshot(blk: nat, fails: nat)                                  // rd_prepare
    | Download(blk: nat, ent: nat, ver: nat, fails: nat, buf: seq<byte>)   // lock-free DtoH
    | Peek(blk: nat)                                                  // trim's unlocked pre-check
    | Want(blk: nat, task: Task)                                      // about to lock the stripe
    | Locked(blk: nat, task: Task)
    | Loaded(blk: nat, task: Task, was: nat)                          // entry read under the lock
    | Fetching(blk: nat, task: Task, was: nat, buf: seq<byte>)        // DtoH under the lock
    | Patching(blk: nat, boff: nat, src: seq<byte>, page: Page, was: nat)
    | Writing(blk: nat, boff: nat, src: seq<byte>, page: Page, was: nat, grain: nat, k: nat)
    | Settle(blk: nat, locked: bool, late: bool, release: Option<nat>, tally: seq<Delta>)

  datatype Owner = InIndex(blk: nat) | ByAgent(id: nat) | Stranded

  datatype Counts = Counts(live: int, codec: int, raw: int, trimmed: int)

  function Reading(n: Counts, m: Meter): int {
    match m case LiveBlocks => n.live case CodecBytes => n.codec case RawBlocks => n.raw case TrimBlocks => n.trimmed
  }

  function Bump(n: Counts, d: Delta): Counts {
    match d.meter
    case LiveBlocks => n.(live := n.live + d.amount)
    case CodecBytes => n.(codec := n.codec + d.amount)
    case RawBlocks => n.(raw := n.raw + d.amount)
    case TrimBlocks => n.(trimmed := n.trimmed + d.amount)
  }

  /** A finished read: what it returned (`None` is a decompression failure), and the block's version
      when it took its snapshot and when it finished. */
  datatype ReadRec = ReadRec(blk: nat, page: Option<Page>, lo: nat, hi: nat)

  /** `owner`, `hist`, `log`, `served` and `trims` are history variables: they never steer a step. */
  datatype State = State(
    index: seq<nat>,
    mem: seq<byte>,
    slots: Slots,
    locks: map<nat, nat>,
    agents: seq<Agent>,
    counts: Counts,
    owner: map<nat, Owner>,
    hist: seq<seq<Page>>,
    log: seq<seq<Edit>>,
    served: seq<ReadRec>,
    trims: nat)

  function Version(s: State, b: nat): int
    requires b < |s.hist|
  {
    |s.hist[b]| - 1
  }

  // ------------------------------------------------- effects on shared state

  function At(s: State, i: nat, a: Agent): State
    requires i < |s.agents|
  {
    s.(agents := s.agents[i := a])
  }

  /** A slot the allocator may hand out: inside the heap, overlapping nothing outstanding. */
  ghost predicate FreshSlot(s: State, g: nat, sz: nat) {
    && 0 < sz && ALLOC_GRAIN * g + sz <= |s.mem| && g < GRAIN_LIMIT && g !in s.slots
    && forall h :: h in s.slots ==> Apart(ALLOC_GRAIN * g, sz, ALLOC_GRAIN * h, s.slots[h])
  }

  function Grab(s: State, i: nat, g: nat, sz: nat, a: Agent): State
    requires i < |s.agents|
  {
    At(s, i, a).(slots := s.slots[g := sz], owner := s.owner[g := ByAgent(i)])
  }

  function GiveBack(s: State, i: nat, g: nat, a: Agent): State
    requires i < |s.agents|
  {
    At(s, i, a).(slots := s.slots - {g}, owner := s.owner - {g})
  }

  function Poke(s: State, i: nat, at: nat, x: byte, a: Agent): State
    requires i < |s.agents| && at < |s.mem|
  {
    At(s, i, a).(mem := s.mem[at := x])
  }

  function Lock(s: State, i: nat, st: nat, a: Agent): State
    requires i < |s.agents|
  {
    At(s, i, a).(locks := s.locks[st := i])
  }

  function Unlock(s: State, i: nat, st: nat, a: Agent): State
    requires i < |s.agents|
  {
    At(s, i, a).(locks := s.locks - {st})
  }

  function Record(s: State, i: nat, r: ReadRec, a: Agent): State
    requires i < |s.agents|
  {
    At(s, i, a).(served := s.served + [r])
  }

  function LastPage(s: State, b: nat): Page
    requires b < |s.hist| && |s.hist[b]| > 0
  {
    s.hist[b][|s.hist[b]| - 1]
  }

  /** Store a new entry for block b: the agent's slot (if any) goes to the index, the displaced one
      (if any) comes to the agent. */
  function Publish(s: State, i: nat, b: nat, ent: nat, e: Edit, a: Agent): State
    requires i < |s.agents| && b < |s.index| == |s.hist| == |s.log| && |s.hist[b]| > 0 && EditOk(e)
  {
    var was := s.index[b];
    var gained := if EntClen(ent) != 0 then s.owner[EntGrain(ent) := InIndex(b)] else s.owner;
    At(s, i, a).(
      index := s.index[b := ent],
      owner := if EntClen(was) != 0 then gained[EntGrain(was) := ByAgent(i)] else gained,
      hist := s.hist[b := s.hist[b] + [Apply(e, LastPage(s, b))]],
      log := s.log[b := s.log[b] + [e]],
      trims := if e.ClearPage? then s.trims + 1 else s.trims)
  }

  // ------------------------------------------------------- agents' chores

  /** Counter changes for the entry a publish displaced. */
  function Debit(was: nat): seq<Delta> {
    if EntClen(was) == 0 then [Delta(LiveBlocks, 1)]
    else [Delta(CodecBytes, 0 - EntClen(was))] + if EntClen(was) == CBLK_SIZE then [Delta(RawBlocks, -1)] else []
  }

  function Credit(clen: nat): seq<Delta> {
    [Delta(CodecBytes, clen)] + if clen == CBLK_SIZE then [Delta(RawBlocks, 1)] else []
  }

  function TrimDebit(was: nat): seq<Delta> { Debit(was) + [Delta(LiveBlocks, -1), Delta(TrimBlocks, 1)] }

  function Displaced(was: nat): Option<nat> { if EntClen(was) != 0 then Some(EntGrain(was)) else None }

  function NextEnt(grain: nat, clen: nat, was: nat): nat { EntMake(grain, clen, EntGen(was) + 1) }

  function Done(blk: nat): Agent { Settle(blk, true, false, None, []) }

  // ------------------------------------------------------------------ steps

  /** The choices a step can make: which operation to start, which slot the allocator returns (or
      that it refuses), whether a copy fails, whether a reservation is given up. */
  datatype Action = Start(a: Agent) | Got(g: nat, sz: nat) | Refused | CopyFails | GivesUp | Go

  predicate Starting(s: State, a: Agent) {
    match a
    case Reserve(b, _) => b < |s.index|
    case Snapshot(b, fails) => b < |s.index| && fails == 0
    case Peek(b) => b < |s.index|
    case Want(b, Patch(boff, src)) => b < |s.index| && boff + |src| <= CBLK_SIZE
    case _ => false
  }

  ghost predicate StepReserve(c: Codec, s: State, i: nat, x: Action, s': State)
    requires i < |s.agents| && s.agents[i].Reserve?
  {
    var Reserve(b, page) := s.agents[i];
    match x
    case Got(g, sz) => FreshSlot(s, g, sz) && |CompBlock(c, page)| <= sz
      && s' == Grab(s, i, g, sz, Upload(b, page, g, 0))
    case Refused => s' == At(s, i, Idle)
    case _ => false
  }

  ghost predicate StepUpload(c: Codec, s: State, i: nat, x: Action, s': State)
    requires i < |s.agents| && s.agents[i].Upload?
  {
    var Upload(b, page, g, k) := s.agents[i];
    var bytes := CompBlock(c, page);
    match x
    case CopyFails => s' == At(s, i, Idle).(owner := s.owner[g := Stranded])
    case GivesUp => s' == At(s, i, Settle(b, false, false, Some(g), []))
    case Go =>
      if k < |bytes| then
        && ALLOC_GRAIN * g + k < |s.mem|
        && s' == Poke(s, i, ALLOC_GRAIN * g + k, bytes[k], Upload(b, page, g, k + 1))
      else s' == At(s, i, Want(b, Put(page, g)))
    case _ => false
  }

  ghost predicate StepSnapshot(s: State, i: nat, x: Action, s': State)
    requires i < |s.agents| && s.agents[i].Snapshot?
  {
    var Snapshot(b, fails) := s.agents[i];
    && x == Go && b < |s.index| == |s.hist|
    && var e := s.index[b];
       if EntClen(e) != 0 then Version(s, b) >= 0 && s' == At(s, i, Download(b, e, Version(s, b), fails, []))
       else if fails < MAX_ROUNDS then
         && Version(s, b) >= 0
         && s' == Record(s, i, ReadRec(b, Some(ZeroPage()), Version(s, b), Version(s, b)), Idle)
       else s' == At(s, i, Want(b, Fetch))
  }

  /** Copy a byte; once complete, re-check the entry, and retry or fall back when it moved. */
  ghost predicate StepDownload(c: Codec, s: State, i: nat, x: Action, s': State)
    requires i < |s.agents| && s.agents[i].Download?
  {
    var Download(b, ent, ver, fails, buf) := s.agents[i];
    match x
    case CopyFails => s' == At(s, i, Idle)
    case Go =>
      if |buf| < EntClen(ent) then
        && ALLOC_GRAIN * EntGrain(ent) + |buf| < |s.mem|
        && s' == At(s, i, Download(b, ent, ver, fails, buf + [s.mem[ALLOC_GRAIN * EntGrain(ent) + |buf|]]))
      else if fails == MAX_ROUNDS then s' == At(s, i, Want(b, Fetch))
      else
        && b < |s.index| == |s.hist| && Version(s, b) >= 0
        && if s.index[b] == ent then s' == Record(s, i, ReadRec(b, DecompBlock(c, buf), ver, Version(s, b)), Idle)
           else s' == At(s, i, Snapshot(b, fails + 1))
    case _ => false
  }

  ghost predicate StepPeek(s: State, i: nat, x: Action, s': State)
    requires i < |s.agents| && s.agents[i].Peek?
  {
    var b := s.agents[i].blk;
    && x == Go && b < |s.index|
    && s' == At(s, i, if EntClen(s.index[b]) == 0 then Idle else Want(b, Discard))
  }

  ghost predicate StepWant(s: State, i: nat, x: Action, s': State)
    requires i < |s.agents| && s.agents[i].Want?
  {
    var Want(b, task) := s.agents[i];
    x == Go && Stripe(b) !in s.locks && s' == Lock(s, i, Stripe(b), Locked(b, task))
  }

  ghost predicate StepLocked(s: State, i: nat, x: Action, s': State)
    requires i < |s.agents| && s.agents[i].Locked?
  {
    var Locked(b, task) := s.agents[i];
    x == Go && b < |s.index| && s' == At(s, i, Loaded(b, task, s.index[b]))
  }

  ghost predicate StepLoaded(c: Codec, s: State, i: nat, x: Action, s': State)
    requires i < |s.agents| && s.agents[i].Loaded?
  {
    var Loaded(b, task, was) := s.agents[i];
    && x == Go && b < |s.index| == |s.hist| == |s.log| && |s.hist[b]| > 0
    && match task
       case Put(page, g) =>
         var clen := |CompBlock(c, page)|;
         s' == Publish(s, i, b, NextEnt(g, clen, was), SetPage(page),
           Settle(b, true, false, Displaced(was), Debit(was) + Credit(clen)))
       case Discard =>
         if EntClen(was) == 0 then s' == At(s, i, Done(b))
         else s' == Publish(s, i, b, NextEnt(0, 0, was), ClearPage,
           Settle(b, true, false, Displaced(was), TrimDebit(was)))
       case Patch(boff, src) =>
         if EntClen(was) == 0 then
           && boff + |src| <= CBLK_SIZE
           && s' == At(s, i, Patching(b, boff, src, Splice(ZeroPage(), boff, src), was))
         else s' == At(s, i, Fetching(b, task, was, []))
       case Fetch =>
         if EntClen(was) == 0 then
           s' == Record(s, i, ReadRec(b, Some(ZeroPage()), Version(s, b), Version(s, b)), Done(b))
         else s' == At(s, i, Fetching(b, task, was, []))
  }

  ghost predicate StepFetching(c: Codec, s: State, i: nat, x: Action, s': State)
    requires i < |s.agents| && s.agents[i].Fetching?
  {
    var Fetching(b, task, was, buf) := s.agents[i];
    match x
    case CopyFails => s' == At(s, i, Done(b))
    case Go =>
      if |buf| < EntClen(was) then
        && ALLOC_GRAIN * EntGrain(was) + |buf| < |s.mem|
        && s' == At(s, i, Fetching(b, task, was, buf + [s.mem[ALLOC_GRAIN * EntGrain(was) + |buf|]]))
      else
        && b < |s.hist| && |s.hist[b]| > 0
        && var r := DecompBlock(c, buf);
           if task.Patch? && r.Some? && task.boff + |task.src| <= CBLK_SIZE then
             s' == At(s, i, Patching(b, task.boff, task.src, Splice(r.value, task.boff, task.src), was))
           else if task.Patch? then s' == At(s, i, Done(b))
           else s' == Record(s, i, ReadRec(b, r, Version(s, b), Version(s, b)), Done(b))
    case _ => false
  }

  ghost predicate StepPatching(c: Codec, s: State, i: nat, x: Action, s': State)
    requires i < |s.agents| && s.agents[i].Patching?
  {
    var Patching(b, boff, src, page, was) := s.agents[i];
    match x
    case Got(g, sz) =>
      && FreshSlot(s, g, sz) && |CompBlock(c, page)| <= sz
      && s' == Grab(s, i, g, sz, Writing(b, boff, src, page, was, g, 0))
    case Refused => s' == At(s, i, Done(b))
    case _ => false
  }

  ghost predicate StepWriting(c: Codec, s: State, i: nat, x: Action, s': State)
    requires i < |s.agents| && s.agents[i].Writing?
  {
    var Writing(b, boff, src, page, was, g, k) := s.agents[i];
    var bytes := CompBlock(c, page);
    match x
    case CopyFails => s' == At(s, i, Settle(b, true, true, Some(g), []))
    case Go =>
      if k < |bytes| then
        && ALLOC_GRAIN * g + k < |s.mem|
        && s' == Poke(s, i, ALLOC_GRAIN * g + k, bytes[k], Writing(b, boff, src, page, was, g, k + 1))
      else
        && b < |s.index| == |s.hist| == |s.log| && |s.hist[b]| > 0 && boff + |src| <= CBLK_SIZE
        && s' == Publish(s, i, b, NextEnt(g, |bytes|, was), PatchPage(boff, src),
                         Settle(b, true, true, Displaced(was), Debit(was) + Credit(|bytes|)))
    case _ => false
  }

  /** Unlock, free the displaced slot, settle the counters - unlock last for a partial write. */
  ghost predicate StepSettle(s: State, i: nat, x: Action, s': State)
    requires i < |s.agents| && s.agents[i].Settle?
  {
    var a := s.agents[i];
    && x == Go
    && if a.locked && !a.late then s' == Unlock(s, i, Stripe(a.blk), a.(locked := false))
       else if a.release.Some? then s' == GiveBack(s, i, a.release.value, a.(release := None))
       else if a.tally != [] then s' == At(s, i, a.(tally := a.tally[1..])).(counts := Bump(s.counts, a.tally[0]))
       else if a.locked then s' == Unlock(s, i, Stripe(a.blk), Idle)
       else s' == At(s, i, Idle)
  }

  ghost predicate Step(c: Codec, s: State, i: nat, x: Action, s': State) {
    && i < |s.agents|
    && match s.agents[i]
       case Idle => x.Start? && Starting(s, x.a) && s' == At(s, i, x.a)
       case Reserve(_, _) => StepReserve(c, s, i, x, s')
       case Upload(_, _, _, _) => StepUpload(c, s, i, x, s')
       case Snapshot(_, _) => StepSnapshot(s, i, x, s')
       case Download(_, _, _, _, _) => StepDownload(c, s, i, x, s')
       case Peek(_) => StepPeek(s, i, x, s')
       case Want(_, _) => StepWant(s, i, x, s')
       case Locked(_, _) => StepLocked(s, i, x, s')
       case Loaded(_, _, _) => StepLoaded(c, s, i, x, s')
       case Fetching(_, _, _, _) => StepFetching(c, s, i, x, s')
       case Patching(_, _, _, _, _) => StepPatching(c, s, i, x, s')
       case Writing(_, _, _, _, _, _, _) => StepWriting(c, s, i, x, s')
       case Settle(_, _, _, _, _) => StepSettle(s, i, x, s')
  }

  /** A fresh store: every block unwritten, nothing allocated, every agent idle. */
  ghost predicate Init(s: State) {
    && (forall b :: 0 <= b < |s.index| ==> s.index[b] == 0)
    && |s.mem| <= ALLOC_GRAIN * GRAIN_LIMIT
    && s.slots == map[] && s.owner == map[] && s.locks == map[]
    && (forall i :: 0 <= i < |s.agents| ==> s.agents[i] == Idle)
    && s.counts == Counts(0, 0, 0, 0)
    && |s.hist| == |s.log| == |s.index|
    && (forall b :: 0 <= b < |s.index| ==> s.hist[b] == [ZeroPage()] && s.log[b] == [])
    && s.served == [] && s.trims == 0
  }

  /** One step by anyone. */
  ghost predicate Next(c: Codec, s: State, s': State) { exists i, x :: Step(c, s, i, x, s') }

  /** Step t of a sequence of states. */
  ghost predicate StepAt(c: Codec, run: seq<State>, t: nat)
    requires t + 1 < |run|
  {
    Next(c, run[t], run[t + 1])
  }

  /** A run: any interleaving, of any length. */
  ghost predicate Run(c: Codec, run: seq<State>) {
    && |run| > 0 && Init(run[0])
    && forall t :: 0 <= t < |run| - 1 ==> StepAt(c, run, t)
  }
}
