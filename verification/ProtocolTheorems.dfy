/** What the protocol guarantees, over every interleaving of any number of agents. */
module ProtocolTheorems {
  import opened Blocks
  import opened Protocol
  import opened ProtocolInv
  import opened ProtocolSafety
  import opened ProtocolBooks

  // ------------------------------------------------------------ lock-free reads

  /** The bookkeeping of any step from a state that has the invariant. */
  lemma StepBooks(c: Codec, s: State, i: nat, x: Action, s': State)
    requires Inv(c, s) && Step(c, s, i, x, s')
    ensures Books(c, s, i, x, s')
  {
    assert AgentOk(c, s, i);
    hide Books, Inv;
    match s.agents[i]
    case Idle => LockingBooks(c, s, i, x, s');
    case Reserve(_, _) => PrepareBooks(c, s, i, x, s');
    case Upload(_, _, _, _) => UploadBooks(c, s, i, x, s');
    case Snapshot(_, _) => SnapshotBooks(c, s, i, x, s');
    case Download(_, _, _, _, _) => DownloadBooks(c, s, i, x, s');
    case Peek(_) => LockingBooks(c, s, i, x, s');
    case Want(_, _) => LockingBooks(c, s, i, x, s');
    case Locked(_, _) => LockingBooks(c, s, i, x, s');
    case Loaded(_, _, _) => LoadedBooks(c, s, i, x, s');
    case Fetching(_, _, _, _) => FetchingBooks(c, s, i, x, s');
    case Patching(_, _, _, _, _) => PrepareBooks(c, s, i, x, s');
    case Writing(_, _, _, _, _, _, _) => WritingBooks(c, s, i, x, s');
    case Settle(_, _, _, _, _) => SettleBooks(c, s, i, x, s');
  }

  /** What a block reads as in a given state. */
  ghost function Content(c: Codec, s: State, b: nat): Option<Page>
    requires b < |s.index| && InHeap(s.mem, s.index[b])
  {
    PageAt(c, s.mem, s.index[b])
  }

  /** Every stored block decodes, to its latest version. */
  lemma ContentIsLatest(c: Codec, s: State, b: nat)
    requires Inv(c, s) && b < |s.index|
    ensures |s.hist| == |s.index| && |s.hist[b]| > 0 && InHeap(s.mem, s.index[b])
            && Content(c, s, b) == Some(LastPage(s, b))
  {
    BlockFact(c, s, b);
    hide EntClen, EntGrain, EntMake, DecompBlock;
  }

  /** One step of anybody: a copy in progress keeps its block and version, a new one takes the
      block's current version. */
  lemma RememberNext(c: Codec, s: State, s': State, i: nat)
    requires Inv(c, s) && Next(c, s, s') && i < |s.agents| && i < |s'.agents| && s'.agents[i].Download?
    ensures s.agents[i].Download? ==> s'.agents[i].blk == s.agents[i].blk && s'.agents[i].ver == s.agents[i].ver
    ensures s.agents[i].Snapshot? ==>
              s'.agents[i].blk == s.agents[i].blk < |s.hist| && s'.agents[i].ver == Version(s, s.agents[i].blk)
  {
    hide Inv, Step, LeavesBooks, Settles, Publishes, Serves, Strands;
    var k: nat, x :| Step(c, s, k, x, s');
    StepBooks(c, s, k, x, s');
    StepInRange(c, s, k, x, s');
    assert k == i || s'.agents[i] == s.agents[i];
  }

  lemma StepInRange(c: Codec, s: State, i: nat, x: Action, s': State)
    requires Step(c, s, i, x, s')
    ensures i < |s.agents|
  {
  }

  /** While an agent's lock-free copy runs it remembers the version it took its snapshot at. */
  lemma {:induction false} DownloadRemembers(c: Codec, run: seq<State>, i: nat, u: nat, w: nat)
    requires RoundTrips(c) && Run(c, run) && u < w < |run| && i < |run[u].agents| && run[u].agents[i].Snapshot?
    requires forall t :: u <= t <= w ==> i < |run[t].agents|
    requires forall t :: u < t <= w ==> run[t].agents[i].Download?
    ensures var b := run[u].agents[i].blk;
            b < |run[u].hist| && run[w].agents[i].blk == b && run[w].agents[i].ver == Version(run[u], b)
  {
    hide Run, RoundTrips, Inv, Next;
    if w - 1 > u { DownloadRemembers(c, run, i, u, w - 1); }
    InvAlways(c, run, w - 1);
    RunStep(c, run, w - 1);
    RememberNext(c, run[w - 1], run[w - 1 + 1], i);
  }

  lemma RunStep(c: Codec, run: seq<State>, t: nat)
    requires Run(c, run) && t + 1 < |run|
    ensures Next(c, run[t], run[t + 1])
  {
    assert StepAt(c, run, t);
  }

  /** THE READ GUARANTEE. A read snapshots its block at `u`, copies the slot byte by byte while
      writers free and reuse slots at will, passes the re-check at `t` and returns `r`. If fewer than
      2^21 publishes hit the block in between, `r` is exactly the page the block held at `t`. */
  lemma LockFreeReadIsAtomic(c: Codec, run: seq<State>, i: nat, u: nat, t: nat, r: ReadRec)
    requires RoundTrips(c) && Run(c, run) && u < t && t + 1 < |run| && i < |run[u].agents| && run[u].agents[i].Snapshot?
    requires forall w :: u <= w <= t + 1 ==> i < |run[w].agents|
    requires forall w :: u < w <= t ==> run[w].agents[i].Download?
    requires run[t + 1].agents[i] == Idle && run[t + 1].served == run[t].served + [r]
    ensures r.blk == run[u].agents[i].blk && r.blk < |run[u].hist| == |run[t].hist| == |run[t].index|
    ensures InHeap(run[t].mem, run[t].index[r.blk])
    ensures Version(run[t], r.blk) - Version(run[u], r.blk) < 0x20_0000 ==>
              r.page.Some? && r.page == Content(c, run[t], r.blk)
  {
    hide Run, RoundTrips, Inv, Next;
    DownloadRemembers(c, run, i, u, t);
    InvAlways(c, run, t);
    InvAlways(c, run, t + 1);
    RunStep(c, run, t);
    ServeNext(c, run[t], run[t + 1], i, r);
    ContentIsLatest(c, run[t], r.blk);
    SameBlocks(c, run, u, t);
  }

  lemma ServedNext(c: Codec, s: State, s': State, r: ReadRec)
    requires Inv(c, s) && Inv(c, s') && Next(c, s, s') && s'.served == s.served + [r]
    ensures r.blk < |s.hist| == |s.index| && |s.hist[r.blk]| > 0 && r.lo <= r.hi == Version(s, r.blk)
    ensures r.hi - r.lo < GEN_LIMIT ==> r.page == Some(LastPage(s, r.blk))
  {
    hide Inv, Step, LeavesBooks, Settles, Publishes, Strands, Copies;
    LastServed(c, s, s', r);
    var k: nat, x :| Step(c, s, k, x, s');
    StepInRange(c, s, k, x, s');
    StepBooks(c, s, k, x, s');
  }

  lemma LastServed(c: Codec, s: State, s': State, r: ReadRec)
    requires Inv(c, s') && s'.served == s.served + [r]
    ensures ReadOk(s', r) && s'.served[|s.served|] == r
  {
    hide Shared, AgentsOk;
    assert s'.served[|s.served|] == r;
  }

  /** EVERY READ IS ATOMIC. However a read was served - an unwritten block without a copy, a lock-free copy
      that passed its re-check, or a copy under the lock - it returns the page its block holds at the
      instant it finishes, if fewer than 2^21 publishes hit the block since its snapshot. */
  lemma EveryReadIsAtomic(c: Codec, run: seq<State>, t: nat, r: ReadRec)
    requires RoundTrips(c) && Run(c, run) && t + 1 < |run| && run[t + 1].served == run[t].served + [r]
    ensures r.blk < |run[t].hist| == |run[t].index| && InHeap(run[t].mem, run[t].index[r.blk])
    ensures r.lo <= r.hi == Version(run[t], r.blk)
    ensures r.hi - r.lo < 0x20_0000 ==> r.page.Some? && r.page == Content(c, run[t], r.blk)
  {
    hide Run, RoundTrips, Inv, Next;
    InvAlways(c, run, t);
    InvAlways(c, run, t + 1);
    RunStep(c, run, t);
    ServedNext(c, run[t], run[t + 1], r);
    ContentIsLatest(c, run[t], r.blk);
  }

  /** The step that ends a lock-free read. */
  lemma ServeNext(c: Codec, s: State, s': State, i: nat, r: ReadRec)
    requires Inv(c, s) && Inv(c, s') && Next(c, s, s') && i < |s.agents| && i < |s'.agents|
    requires s.agents[i].Download? && s'.agents[i] == Idle && s'.served == s.served + [r]
    ensures r.blk == s.agents[i].blk < |s.hist| == |s.index| && r.lo == s.agents[i].ver && |s.hist[r.blk]| > 0
    ensures Version(s, r.blk) - r.lo < GEN_LIMIT ==> r.page == Some(LastPage(s, r.blk))
  {
    hide Inv, Step, LeavesBooks, Settles, Publishes, Strands;
    LastServed(c, s, s', r);
    var k: nat, x :| Step(c, s, k, x, s');
    StepInRange(c, s, k, x, s');
    StepBooks(c, s, k, x, s');
    assert k == i;
  }

  /** Exactly what the re-check can see: it passes when the block is back at the same slot and length
      with a publish count that differs by a multiple of 2^21 - and only then. */
  lemma RecheckIsModular(c: Codec, s: State, i: nat)
    requires Inv(c, s) && i < |s.agents| && s.agents[i].Download?
    ensures var a := s.agents[i];
            && a.blk < |s.index| == |s.hist| && a.ver <= Version(s, a.blk)
            && (s.index[a.blk] == a.ent <==>
                  && EntGrain(s.index[a.blk]) == EntGrain(a.ent) && EntClen(s.index[a.blk]) == EntClen(a.ent)
                  && (Version(s, a.blk) - a.ver) % 0x20_0000 == 0)
  {
    var a := s.agents[i];
    assert AgentOk(c, s, i);
    assert a.blk < |s.index| == |s.hist|;
    BlockFact(c, s, a.blk);
    var e := s.index[a.blk];
    FieldLimits(e);
    FieldLimits(a.ent);
    EntryEquality(EntGrain(e), EntClen(e), Version(s, a.blk), EntGrain(a.ent), EntClen(a.ent), a.ver);
    hide Inv, EntMake, EntGrain, EntClen, DecompBlock, Stored;
    Congruent(Version(s, a.blk), a.ver);
  }

  lemma FieldLimits(e: nat)
    ensures EntGrain(e) < GRAIN_LIMIT && EntClen(e) < CLEN_LIMIT
  {
  }

  lemma Congruent(m: nat, n: nat)
    ensures m % GEN_LIMIT == n % GEN_LIMIT <==> (m - n) % GEN_LIMIT == 0
  {
  }

  lemma SameBlocksNext(c: Codec, s: State, s': State)
    requires RoundTrips(c) && Inv(c, s) && Next(c, s, s')
    ensures |s'.hist| == |s.hist|
  {
    hide Step, Shared, RoundTrips;
    var i: nat, x :| Step(c, s, i, x, s');
    StepInRange(c, s, i, x, s');
    StepKeeps(c, s, i, x, s');
  }

  lemma {:induction false} SameBlocks(c: Codec, run: seq<State>, u: nat, t: nat)
    requires RoundTrips(c) && Run(c, run) && u <= t < |run|
    ensures |run[u].hist| == |run[t].hist|
  {
    if u < t {
      hide Run, Inv, Next, RoundTrips;
      SameBlocks(c, run, u, t - 1);
      InvAlways(c, run, t - 1);
      RunStep(c, run, t - 1);
      SameBlocksNext(c, run[t - 1], run[t - 1 + 1]);
    }
  }

  // ---------------------------------------------------------- slot ownership

  /** Who has a claim on slot g: a published entry, an agent (reservation, or displaced slot not yet
      freed), or nobody after a failed upload. */
  ghost predicate Claims(s: State, o: Owner, g: nat) {
    match o
    case InIndex(b) => b < |s.index| && EntClen(s.index[b]) != 0 && EntGrain(s.index[b]) == g
    case ByAgent(i) => i < |s.agents| && AgentSlot(s.agents[i]) == Some(g)
    case Stranded => g in s.owner && s.owner[g] == Stranded
  }

  lemma ClaimIsOwner(c: Codec, s: State, o: Owner, g: nat)
    requires Inv(c, s) && Claims(s, o, g)
    ensures g in s.slots && g in s.owner && s.owner[g] == o
  {
    match o
    case InIndex(b) => assert BlockOk(c, s, b);
    case ByAgent(i) => assert AgentOk(c, s, i);
    case Stranded =>
  }

  /** THE OWNERSHIP GUARANTEE. In every state of every run the outstanding slots are partitioned
      among their claimants: every slot has one, no slot has two, and claims are on live slots only -
      so nothing is freed twice, shared by two blocks, or lost. */
  lemma OwnershipPartition(c: Codec, run: seq<State>, t: nat)
    requires RoundTrips(c) && Run(c, run) && t < |run|
    ensures var s := run[t];
            && SlotsOk(s.slots, |s.mem|)
            && (forall g :: g in s.slots ==> exists o :: Claims(s, o, g))
            && (forall g, o :: Claims(s, o, g) ==> g in s.slots)
            && (forall g, o, p :: Claims(s, o, g) && Claims(s, p, g) ==> o == p)
  {
    InvAlways(c, run, t);
    hide Run, RoundTrips;
    var s := run[t];
    forall g, o | Claims(s, o, g)
      ensures g in s.slots && g in s.owner && s.owner[g] == o
    {
      ClaimIsOwner(c, s, o, g);
    }
    forall g | g in s.slots
      ensures exists o :: Claims(s, o, g)
    {
      assert OwnerOk(s, g);
      assert Claims(s, s.owner[g], g);
    }
  }

  /** A step in which no whole-block upload fails (a failed one keeps its slot forever). */
  ghost predicate CleanNext(c: Codec, s: State, s': State) {
    exists i: nat, x :: Step(c, s, i, x, s') && !(s.agents[i].Upload? && x.CopyFails?)
  }

  ghost predicate CleanAt(c: Codec, run: seq<State>, t: nat)
    requires t + 1 < |run|
  {
    CleanNext(c, run[t], run[t + 1])
  }

  ghost predicate CleanRun(c: Codec, run: seq<State>) {
    Run(c, run) && forall t :: 0 <= t < |run| - 1 ==> CleanAt(c, run, t)
  }

  ghost predicate NothingStranded(s: State) { forall g :: g in s.owner ==> s.owner[g] != Stranded }

  lemma StrandNext(c: Codec, s: State, s': State)
    requires Inv(c, s) && CleanNext(c, s, s') && NothingStranded(s)
    ensures NothingStranded(s')
  {
    var i: nat, x :| Step(c, s, i, x, s') && !(s.agents[i].Upload? && x.CopyFails?);
    hide Inv, Step, LeavesBooks, Settles, Publishes, Serves, Copies;
    StepBooks(c, s, i, x, s');
  }

  lemma {:induction false} CleanRunStrandsNothing(c: Codec, run: seq<State>, t: nat)
    requires RoundTrips(c) && CleanRun(c, run) && t < |run|
    ensures NothingStranded(run[t])
  {
    if t > 0 {
      hide Run, RoundTrips, Inv, CleanNext, NothingStranded;
      CleanRunStrandsNothing(c, run, t - 1);
      InvAlways(c, run, t - 1);
      assert CleanAt(c, run, t - 1);
      StrandNext(c, run[t - 1], run[t]);
    }
  }

  ghost predicate Quiescent(s: State) { forall i :: 0 <= i < |s.agents| ==> s.agents[i] == Idle }

  /** No leak: once every operation has finished, the outstanding slots are exactly those the index
      points at; with every block trimmed there are none. */
  lemma QuiescentHeapIsIndexed(c: Codec, run: seq<State>, t: nat)
    requires RoundTrips(c) && CleanRun(c, run) && t < |run| && Quiescent(run[t])
    ensures forall g :: g in run[t].slots <==> exists b :: Claims(run[t], InIndex(b), g)
    ensures (forall b :: 0 <= b < |run[t].index| ==> EntClen(run[t].index[b]) == 0) ==> run[t].slots == map[]
  {
    OwnershipPartition(c, run, t);
    CleanRunStrandsNothing(c, run, t);
    var s := run[t];
    hide CleanRun, RoundTrips, EntClen, EntGrain, SlotsOk;
    forall g | g in s.slots
      ensures exists b :: Claims(s, InIndex(b), g)
    {
      var o :| Claims(s, o, g);
      assert o.InIndex?;
      assert Claims(s, InIndex(o.blk), g);
    }
    if forall b :: 0 <= b < |s.index| ==> EntClen(s.index[b]) == 0 {
      assert forall g, b :: !Claims(s, InIndex(b), g);
      assert s.slots.Keys == {};
    }
  }

  // ------------------------------------------------------- no lost updates

  /** Edits applied one at a time, oldest first, to an unwritten block. */
  ghost function Replay(log: seq<Edit>): Page
    requires forall v :: 0 <= v < |log| ==> EditOk(log[v])
  {
    if log == [] then ZeroPage() else Apply(log[|log| - 1], Replay(log[..|log| - 1]))
  }

  lemma {:induction false} ReplayIsHistory(s: State, b: nat, n: nat)
    requires b < |s.hist| == |s.log| && HistOk(s, b) && n <= |s.log[b]|
    ensures s.hist[b][n] == Replay(s.log[b][..n])
  {
    if n > 0 {
      ReplayIsHistory(s, b, n - 1);
      assert s.log[b][..n][..n - 1] == s.log[b][..n - 1];
      assert s.hist[b][n - 1 + 1] == Apply(s.log[b][n - 1], s.hist[b][n - 1]);
    }
  }

  /** THE WRITE GUARANTEE. Whatever whole-block writes, partial writes and trims race on a block, it
      always reads as their edits applied one at a time in publish order: no partial write is lost. */
  lemma NoLostUpdate(c: Codec, run: seq<State>, t: nat, b: nat)
    requires RoundTrips(c) && Run(c, run) && t < |run| && b < |run[t].index|
    ensures |run[t].log| == |run[t].index| && InHeap(run[t].mem, run[t].index[b])
    ensures forall v :: 0 <= v < |run[t].log[b]| ==> EditOk(run[t].log[b][v])
    ensures Content(c, run[t], b) == Some(Replay(run[t].log[b]))
  {
    InvAlways(c, run, t);
    hide Run, RoundTrips;
    var s := run[t];
    ContentIsLatest(c, s, b);
    assert HistOk(s, b);
    hide Inv, EntClen, EntGrain;
    ReplayIsHistory(s, b, |s.log[b]|);
    assert s.log[b][..|s.log[b]|] == s.log[b];
  }

  /** A step publishes at most one edit - the acting agent's own, to its own block - and touches no
      other block's log. */
  lemma PublishesOwnEdit(c: Codec, s: State, i: nat, x: Action, s': State)
    requires Inv(c, s) && Step(c, s, i, x, s')
    ensures s'.log == s.log ||
            (&& EditOf(s.agents[i]).Some? && s.agents[i].blk < |s.log|
             && var b := s.agents[i].blk;
                s'.log == s.log[b := s.log[b] + [EditOf(s.agents[i]).value]])
  {
    hide Step, Inv;
    StepBooks(c, s, i, x, s');
  }

  // -------------------------------------------------------- byte by byte

  /** The edit determines byte n of the page. */
  predicate Covers(e: Edit, n: nat) { e.PatchPage? ==> e.boff <= n < e.boff + |e.src| }

  function Supplied(e: Edit, n: nat): byte
    requires EditOk(e) && Covers(e, n) && n < CBLK_SIZE
  {
    match e case SetPage(page) => page[n] case PatchPage(boff, src) => src[n - boff] case ClearPage => 0
  }

  lemma {:induction false} LastEditDecides(log: seq<Edit>, n: nat, v: nat)
    requires (forall u :: 0 <= u < |log| ==> EditOk(log[u])) && n < CBLK_SIZE && v < |log| && Covers(log[v], n)
    requires forall u :: v < u < |log| ==> !Covers(log[u], n)
    ensures Replay(log)[n] == Supplied(log[v], n)
  {
    var m := |log| - 1;
    if v < m {
      assert !Covers(log[m], n);
      LastEditDecides(log[..m], n, v);
    }
  }

  /** Writes to disjoint parts of one block both survive: every byte of a block is what the last
      published edit that covers it supplied, whatever other edits raced with it. */
  lemma LastWriterWins(c: Codec, run: seq<State>, t: nat, b: nat, n: nat, v: nat)
    requires RoundTrips(c) && Run(c, run) && t < |run| && b < |run[t].index| == |run[t].log| && n < CBLK_SIZE
    requires v < |run[t].log[b]| && Covers(run[t].log[b][v], n)
    requires forall u :: v < u < |run[t].log[b]| ==> !Covers(run[t].log[b][u], n)
    ensures EditOk(run[t].log[b][v]) && InHeap(run[t].mem, run[t].index[b]) && Content(c, run[t], b).Some?
    ensures Content(c, run[t], b).value[n] == Supplied(run[t].log[b][v], n)
  {
    hide Run, RoundTrips, Replay, Covers;
    NoLostUpdate(c, run, t, b);
    LastEditDecides(run[t].log[b], n, v);
  }
}
