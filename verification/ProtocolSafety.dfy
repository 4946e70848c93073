/** Every step keeps the invariant; hence every state of every run has it. */
module ProtocolSafety {
  import opened Blocks
  import opened Protocol
  import opened ProtocolInv
  import opened ProtocolEffects

  /** What one step by agent i has to establish. */
  ghost predicate Keeps(c: Codec, s: State, i: nat, s': State) {
    && Guarantee(c, s, s', i) && AgentOk(c, s', i)
    && (s'.served == s.served || exists r :: s'.served == s.served + [r] && ReadOk(s', r))
  }

  lemma BlockFact(c: Codec, s: State, b: nat)
    requires Shared(c, s) && b < |s.index|
    ensures |s.index| == |s.hist| == |s.log| && BlockOk(c, s, b)
  {
  }

  lemma ReserveKeeps(c: Codec, s: State, i: nat, x: Action, s': State)
    requires Shared(c, s) && i < |s.agents| && AgentOk(c, s, i) && s.agents[i].Reserve? && StepReserve(c, s, i, x, s')
    ensures Keeps(c, s, i, s')
  {
    hide Shared, Guarantee, SlotsOk, CompBlock;
    var Reserve(b, page) := s.agents[i];
    if x.Got? {
      GrabEffect(c, s, i, x.g, x.sz, Upload(b, page, x.g, 0));
    } else {
      LocalEffect(c, s, s', i, Idle);
    }
  }

  lemma PokeFills(c: Codec, s: State, s': State, page: Page, g: nat, k: nat)
    requires Filled(c, s, page, g, k) && k < |CompBlock(c, page)| && s'.slots == s.slots
    requires s'.mem == s.mem[ALLOC_GRAIN * g + k := CompBlock(c, page)[k]]
    ensures Filled(c, s', page, g, k + 1)
  {
    var bytes := CompBlock(c, page);
    var a, b := Stored(s'.mem, g, k + 1), bytes[..k + 1];
    forall n | 0 <= n < k + 1
      ensures a[n] == b[n]
    {
      if n < k { assert Stored(s.mem, g, k)[n] == bytes[..k][n]; }
    }
  }

  lemma UploadKeeps(c: Codec, s: State, i: nat, x: Action, s': State)
    requires Shared(c, s) && i < |s.agents| && AgentOk(c, s, i) && s.agents[i].Upload? && StepUpload(c, s, i, x, s')
    ensures Keeps(c, s, i, s')
  {
    hide Shared, Guarantee, SlotsOk, CompBlock;
    var Upload(b, page, g, k) := s.agents[i];
    if x.CopyFails? {
      StrandEffect(c, s, i, g);
    } else if x.GivesUp? {
      LocalEffect(c, s, s', i, Settle(b, false, false, Some(g), []));
    } else if k < |CompBlock(c, page)| {
      PokeEffect(c, s, i, g, k, CompBlock(c, page)[k], Upload(b, page, g, k + 1));
      PokeFills(c, s, s', page, g, k);
    } else {
      LocalEffect(c, s, s', i, Want(b, Put(page, g)));
    }
  }

  lemma SnapshotKeeps(c: Codec, s: State, i: nat, x: Action, s': State)
    requires Shared(c, s) && i < |s.agents| && AgentOk(c, s, i) && s.agents[i].Snapshot? && StepSnapshot(s, i, x, s')
    ensures Keeps(c, s, i, s')
  {
    hide Shared, Guarantee;
    var Snapshot(b, fails) := s.agents[i];
    BlockFact(c, s, b);
    assert EntClen(s.index[b]) == 0 ==> LastPage(s, b) == ZeroPage();
    assert EntClen(s.index[b]) != 0 ==> DownloadOk(s, b, s.index[b], Version(s, b), []);
    hide SlotsOk, EntGrain, EntClen, EntMake, BlockOk, DownloadOk, ReadOk;
    LocalEffect(c, s, s', i, s'.agents[i]);
    if EntClen(s.index[b]) == 0 && fails < MAX_ROUNDS {
      CurrentRead(s, s', b, ZeroPage());
    }
  }

  /** The re-check the whole design rests on: an unchanged word means an unchanged version, unless
      the 21-bit generation has gone all the way round. */
  lemma SameWordSameVersion(c: Codec, s: State, b: nat, ent: nat, ver: nat, buf: seq<byte>)
    requires |s.index| == |s.hist| && b < |s.index| && BlockOk(c, s, b) && DownloadOk(s, b, ent, ver, buf)
    requires s.index[b] == ent && Version(s, b) - ver < GEN_LIMIT
    ensures ver == Version(s, b)
  {
    EntryEquality(EntGrain(ent), EntClen(ent), ver, EntGrain(ent), EntClen(ent), Version(s, b));
    hide EntMake, EntGrain, EntClen;
    assert ver % GEN_LIMIT == Version(s, b) % GEN_LIMIT;
  }

  lemma ValidatedRead(c: Codec, s: State, s': State, b: nat, ent: nat, ver: nat, buf: seq<byte>)
    requires |s.index| == |s.hist| && b < |s.index| && BlockOk(c, s, b) && DownloadOk(s, b, ent, ver, buf)
    requires s.index[b] == ent && |buf| == EntClen(ent) && s'.hist == s.hist
    ensures ReadOk(s', ReadRec(b, DecompBlock(c, buf), ver, Version(s, b)))
  {
    if Version(s, b) - ver < GEN_LIMIT {
      SameWordSameVersion(c, s, b, ent, ver, buf);
    }
  }

  lemma DownloadGrows(s: State, b: nat, ent: nat, ver: nat, buf: seq<byte>)
    requires |s.index| == |s.hist| && b < |s.index| && DownloadOk(s, b, ent, ver, buf) && |buf| < EntClen(ent)
    ensures ALLOC_GRAIN * EntGrain(ent) + |buf| < |s.mem|
    ensures DownloadOk(s, b, ent, ver, buf + [s.mem[ALLOC_GRAIN * EntGrain(ent) + |buf|]])
  {
    if ver == Version(s, b) { CopyGrows(s, ent, buf); }
  }

  lemma DownloadKeeps(c: Codec, s: State, i: nat, x: Action, s': State)
    requires Shared(c, s) && i < |s.agents| && AgentOk(c, s, i) && s.agents[i].Download? && StepDownload(c, s, i, x, s')
    ensures Keeps(c, s, i, s')
  {
    hide Shared, Guarantee;
    var Download(b, ent, ver, fails, buf) := s.agents[i];
    BlockFact(c, s, b);
    hide SlotsOk, EntGrain, EntClen, EntMake, DecompBlock, Stored, BlockOk, ReadOk;
    LocalEffect(c, s, s', i, s'.agents[i]);
    if x == Go && |buf| < EntClen(ent) {
      DownloadGrows(s, b, ent, ver, buf);
    } else if x == Go && fails < MAX_ROUNDS && s.index[b] == ent {
      ValidatedRead(c, s, s', b, ent, ver, buf);
    }
  }

  lemma PeekKeeps(c: Codec, s: State, i: nat, x: Action, s': State)
    requires Shared(c, s) && i < |s.agents| && AgentOk(c, s, i) && s.agents[i].Peek? && StepPeek(s, i, x, s')
    ensures Keeps(c, s, i, s')
  {
    hide Shared, Guarantee, EntClen;
    LocalEffect(c, s, s', i, s'.agents[i]);
  }

  lemma WantKeeps(c: Codec, s: State, i: nat, x: Action, s': State)
    requires Shared(c, s) && i < |s.agents| && AgentOk(c, s, i) && s.agents[i].Want? && StepWant(s, i, x, s')
    ensures Keeps(c, s, i, s')
  {
    hide Shared, Guarantee, CompBlock, Stripe;
    var Want(b, task) := s.agents[i];
    LockEffect(c, s, i, Stripe(b), Locked(b, task));
  }

  lemma LockedKeeps(c: Codec, s: State, i: nat, x: Action, s': State)
    requires Shared(c, s) && i < |s.agents| && AgentOk(c, s, i) && s.agents[i].Locked? && StepLocked(s, i, x, s')
    ensures Keeps(c, s, i, s')
  {
    hide Shared, Guarantee, CompBlock, Stripe;
    LocalEffect(c, s, s', i, s'.agents[i]);
  }

  /** The entry an update builds carries the next generation. */
  lemma NextEntry(g: nat, clen: nat, g0: nat, c0: nat, v: nat)
    requires g < GRAIN_LIMIT && clen < CLEN_LIMIT && g0 < GRAIN_LIMIT && c0 < CLEN_LIMIT
    ensures var e := NextEnt(g, clen, EntMake(g0, c0, v));
            EntGrain(e) == g && EntClen(e) == clen && e == EntMake(g, clen, v + 1)
  {
    EntryRoundTrip(g0, c0, v);
    EntryRoundTrip(g, clen, v % GEN_LIMIT + 1);
    assert (v % GEN_LIMIT + 1) % GEN_LIMIT == (v + 1) % GEN_LIMIT;
  }

  lemma NextEntryOf(c: Codec, s: State, b: nat, g: nat, clen: nat)
    requires |s.index| == |s.hist| && b < |s.index| && BlockOk(c, s, b) && g < GRAIN_LIMIT && clen <= CBLK_SIZE
    ensures var e := NextEnt(g, clen, s.index[b]);
            EntGrain(e) == g && EntClen(e) == clen && e == EntMake(g, clen, |s.hist[b]|)
  {
    NextEntry(g, clen, EntGrain(s.index[b]), EntClen(s.index[b]), |s.hist[b]| - 1);
  }

  lemma FilledDecodes(c: Codec, s: State, page: Page, g: nat)
    requires RoundTrips(c) && Filled(c, s, page, g, |CompBlock(c, page)|)
    ensures DecompBlock(c, Stored(s.mem, g, |CompBlock(c, page)|)) == Some(page)
  {
    CodecRoundTrip(c, page);
    var bytes := CompBlock(c, page);
    assert bytes[..|bytes|] == bytes;
  }

  /** Storing a new entry, for any of the three kinds of update. */
  lemma PublishKeeps(c: Codec, s: State, i: nat, b: nat, ent: nat, e: Edit, a: Agent, s': State)
    requires Shared(c, s) && i < |s.agents| && b < |s.index| && ReadyToPublish(c, s, i, b, ent, e)
    requires a.Settle? && a.blk == b && a.locked && a.release == Displaced(s.index[b])
    requires s' == Publish(s, i, b, ent, e, a)
    ensures Keeps(c, s, i, s')
  {
    hide Shared, Guarantee;
    BlockFact(c, s, b);
    PublishEffect(c, s, i, b, ent, e, a);
    hide EntGrain, EntClen, EntMake, Apply, Stripe;
  }

  lemma LoadedKeeps(c: Codec, s: State, i: nat, x: Action, s': State)
    requires RoundTrips(c)
    requires Shared(c, s) && i < |s.agents| && AgentOk(c, s, i) && s.agents[i].Loaded? && StepLoaded(c, s, i, x, s')
    ensures Keeps(c, s, i, s')
  {
    hide Keeps, Shared, AgentOk, StepLoaded;
    match s.agents[i].task
    case Put(page, g) => PutKeeps(c, s, i, x, s');
    case Discard => DiscardKeeps(c, s, i, x, s');
    case _ => LoadedReadKeeps(c, s, i, x, s');
  }

  lemma DiscardKeeps(c: Codec, s: State, i: nat, x: Action, s': State)
    requires Shared(c, s) && i < |s.agents| && AgentOk(c, s, i)
    requires s.agents[i].Loaded? && s.agents[i].task.Discard? && StepLoaded(c, s, i, x, s')
    ensures Keeps(c, s, i, s')
  {
    hide Shared, Guarantee;
    var Loaded(b, task, was) := s.agents[i];
    BlockFact(c, s, b);
    NextEntryOf(c, s, b, 0, 0);
    hide EntGrain, EntClen, EntMake, Stripe, NextEnt, BlockOk;
    if EntClen(was) == 0 {
      LocalEffect(c, s, s', i, Done(b));
    } else {
      PublishKeeps(c, s, i, b, NextEnt(0, 0, was), ClearPage, Settle(b, true, false, Displaced(was), TrimDebit(was)),
        s');
    }
  }

  /** Partial writes and locked reads start from the current page. */
  lemma LoadedReadKeeps(c: Codec, s: State, i: nat, x: Action, s': State)
    requires Shared(c, s) && i < |s.agents| && AgentOk(c, s, i)
    requires s.agents[i].Loaded? && (s.agents[i].task.Patch? || s.agents[i].task.Fetch?) && StepLoaded(c, s, i, x, s')
    ensures Keeps(c, s, i, s')
  {
    hide Shared, Guarantee;
    var Loaded(b, task, was) := s.agents[i];
    BlockFact(c, s, b);
    assert EntClen(was) == 0 ==> LastPage(s, b) == ZeroPage();
    assert EntClen(was) != 0 ==> CopyOk(s, was, []);
    hide EntGrain, EntClen, EntMake, Stripe, SlotsOk, DecompBlock, BlockOk, CopyOk, ReadOk;
    LocalEffect(c, s, s', i, s'.agents[i]);
    if EntClen(was) == 0 && task.Fetch? {
      CurrentRead(s, s', b, ZeroPage());
    }
  }

  lemma PutKeeps(c: Codec, s: State, i: nat, x: Action, s': State)
    requires RoundTrips(c) && Shared(c, s) && i < |s.agents| && AgentOk(c, s, i)
    requires s.agents[i].Loaded? && s.agents[i].task.Put? && StepLoaded(c, s, i, x, s')
    ensures Keeps(c, s, i, s')
  {
    hide Shared, Guarantee;
    var Loaded(b, Put(page, g), was) := s.agents[i];
    BlockFact(c, s, b);
    var clen := |CompBlock(c, page)|;
    NextEntryOf(c, s, b, g, clen);
    FilledDecodes(c, s, page, g);
    hide EntGrain, EntClen, EntMake, Stripe, NextEnt, CompBlock, DecompBlock, RoundTrips;
    PublishKeeps(c, s, i, b, NextEnt(g, clen, was), SetPage(page),
                 Settle(b, true, false, Displaced(was), Debit(was) + Credit(clen)), s');
  }

  /** One more byte of a copy in progress. */
  lemma CopyGrows(s: State, ent: nat, buf: seq<byte>)
    requires InHeap(s.mem, ent) && |buf| < EntClen(ent) && buf == Stored(s.mem, EntGrain(ent), |buf|)
    ensures ALLOC_GRAIN * EntGrain(ent) + |buf| < |s.mem|
    ensures var buf' := buf + [s.mem[ALLOC_GRAIN * EntGrain(ent) + |buf|]];
            buf' == Stored(s.mem, EntGrain(ent), |buf'|)
  {
    var a := ALLOC_GRAIN * EntGrain(ent);
    assert s.mem[a..a + |buf|] + [s.mem[a + |buf|]] == s.mem[a..a + |buf| + 1];
  }

  /** A completed copy under the lock decodes to the block's current page. */
  lemma CopyDecodes(c: Codec, s: State, b: nat, buf: seq<byte>)
    requires |s.index| == |s.hist| && b < |s.index| && BlockOk(c, s, b) && CopyOk(s, s.index[b], buf)
             && |buf| == EntClen(s.index[b])
    ensures DecompBlock(c, buf) == Some(LastPage(s, b))
  {
  }

  lemma CurrentRead(s: State, s': State, b: nat, page: Page)
    requires b < |s.hist| && |s.hist[b]| > 0 && page == LastPage(s, b) && s'.hist == s.hist
    ensures ReadOk(s', ReadRec(b, Some(page), Version(s, b), Version(s, b)))
  {
  }

  lemma FetchingKeeps(c: Codec, s: State, i: nat, x: Action, s': State)
    requires Shared(c, s) && i < |s.agents| && AgentOk(c, s, i) && s.agents[i].Fetching? && StepFetching(c, s, i, x, s')
    ensures Keeps(c, s, i, s')
  {
    hide Shared, Guarantee;
    var Fetching(b, task, was, buf) := s.agents[i];
    if x == Go && |buf| >= EntClen(was) {
      FetchedKeeps(c, s, i, s');
    } else {
      if x == Go { CopyGrows(s, was, buf); }
      hide SlotsOk, EntGrain, EntClen, EntMake, DecompBlock, Stripe, Stored;
      LocalEffect(c, s, s', i, s'.agents[i]);
    }
  }

  lemma FetchedKeeps(c: Codec, s: State, i: nat, s': State)
    requires Shared(c, s) && i < |s.agents| && AgentOk(c, s, i) && s.agents[i].Fetching?
             && StepFetching(c, s, i, Go, s')
    requires |s.agents[i].buf| >= EntClen(s.agents[i].was)
    ensures Keeps(c, s, i, s')
  {
    hide Shared, Guarantee;
    var Fetching(b, task, was, buf) := s.agents[i];
    BlockFact(c, s, b);
    CopyDecodes(c, s, b, buf);
    hide EntGrain, EntClen, DecompBlock, Stripe, BlockOk, CopyOk, ReadOk, Splice;
    LocalEffect(c, s, s', i, s'.agents[i]);
    if task.Fetch? {
      CurrentRead(s, s', b, LastPage(s, b));
    }
  }

  lemma PatchingKeeps(c: Codec, s: State, i: nat, x: Action, s': State)
    requires Shared(c, s) && i < |s.agents| && AgentOk(c, s, i) && s.agents[i].Patching? && StepPatching(c, s, i, x, s')
    ensures Keeps(c, s, i, s')
  {
    hide Shared, Guarantee, SlotsOk, CompBlock, Stripe, Splice;
    var Patching(b, boff, src, page, was) := s.agents[i];
    if x.Got? {
      GrabEffect(c, s, i, x.g, x.sz, Writing(b, boff, src, page, was, x.g, 0));
    } else {
      LocalEffect(c, s, s', i, Done(b));
    }
  }

  lemma WritingKeeps(c: Codec, s: State, i: nat, x: Action, s': State)
    requires RoundTrips(c)
    requires Shared(c, s) && i < |s.agents| && AgentOk(c, s, i) && s.agents[i].Writing? && StepWriting(c, s, i, x, s')
    ensures Keeps(c, s, i, s')
  {
    hide Shared, Guarantee, CompBlock, RoundTrips, Keeps, AgentOk;
    if x.CopyFails? {
      WritingFailsKeeps(c, s, i, s');
    } else if s.agents[i].k < |CompBlock(c, s.agents[i].page)| {
      WritingByteKeeps(c, s, i, s');
    } else {
      PatchPublishKeeps(c, s, i, x, s');
    }
  }

  lemma WritingFailsKeeps(c: Codec, s: State, i: nat, s': State)
    requires Shared(c, s) && i < |s.agents| && AgentOk(c, s, i) && s.agents[i].Writing?
             && StepWriting(c, s, i, CopyFails, s')
    ensures Keeps(c, s, i, s')
  {
    hide Shared, Guarantee, CompBlock, Stripe, Splice;
    LocalEffect(c, s, s', i, s'.agents[i]);
  }

  lemma WritingByteKeeps(c: Codec, s: State, i: nat, s': State)
    requires Shared(c, s) && i < |s.agents| && AgentOk(c, s, i) && s.agents[i].Writing? && StepWriting(c, s, i, Go, s')
    requires s.agents[i].k < |CompBlock(c, s.agents[i].page)|
    ensures Keeps(c, s, i, s')
  {
    hide Shared, Guarantee, CompBlock, Stripe, Splice;
    var Writing(b, boff, src, page, was, g, k) := s.agents[i];
    PokeEffect(c, s, i, g, k, CompBlock(c, page)[k], Writing(b, boff, src, page, was, g, k + 1));
    PokeFills(c, s, s', page, g, k);
  }

  lemma PatchPublishKeeps(c: Codec, s: State, i: nat, x: Action, s': State)
    requires RoundTrips(c) && Shared(c, s) && i < |s.agents| && AgentOk(c, s, i)
    requires s.agents[i].Writing? && x == Go && s.agents[i].k >= |CompBlock(c, s.agents[i].page)|
             && StepWriting(c, s, i, x, s')
    ensures Keeps(c, s, i, s')
  {
    hide Shared, Guarantee;
    var Writing(b, boff, src, page, was, g, k) := s.agents[i];
    BlockFact(c, s, b);
    var clen := |CompBlock(c, page)|;
    NextEntryOf(c, s, b, g, clen);
    FilledDecodes(c, s, page, g);
    hide EntGrain, EntClen, EntMake, Stripe, NextEnt, CompBlock, DecompBlock, RoundTrips, Splice, BlockOk;
    PublishKeeps(c, s, i, b, NextEnt(g, clen, was), PatchPage(boff, src),
                 Settle(b, true, true, Displaced(was), Debit(was) + Credit(clen)), s');
  }

  lemma SettleKeeps(c: Codec, s: State, i: nat, x: Action, s': State)
    requires Shared(c, s) && i < |s.agents| && AgentOk(c, s, i) && s.agents[i].Settle? && StepSettle(s, i, x, s')
    ensures Keeps(c, s, i, s')
  {
    hide Shared, Guarantee, Stripe;
    var a := s.agents[i];
    if a.locked && !a.late {
      UnlockEffect(c, s, i, Stripe(a.blk), a.(locked := false));
    } else if a.release.Some? {
      GiveBackEffect(c, s, i, a.release.value, a.(release := None));
    } else if a.tally != [] {
      LocalEffect(c, s, s', i, a.(tally := a.tally[1..]));
    } else if a.locked {
      UnlockEffect(c, s, i, Stripe(a.blk), Idle);
    } else {
      LocalEffect(c, s, s', i, Idle);
    }
  }

  lemma StepKeeps(c: Codec, s: State, i: nat, x: Action, s': State)
    requires RoundTrips(c) && Shared(c, s) && i < |s.agents| && AgentOk(c, s, i) && Step(c, s, i, x, s')
    ensures Keeps(c, s, i, s')
  {
    hide Keeps, Shared, LocalOk;
    match s.agents[i]
    case Idle =>
      StartKeeps(c, s, i, x, s');
    case Reserve(_, _) => ReserveKeeps(c, s, i, x, s');
    case Upload(_, _, _, _) => UploadKeeps(c, s, i, x, s');
    case Snapshot(_, _) => SnapshotKeeps(c, s, i, x, s');
    case Download(_, _, _, _, _) => DownloadKeeps(c, s, i, x, s');
    case Peek(_) => PeekKeeps(c, s, i, x, s');
    case Want(_, _) => WantKeeps(c, s, i, x, s');
    case Locked(_, _) => LockedKeeps(c, s, i, x, s');
    case Loaded(_, _, _) => LoadedKeeps(c, s, i, x, s');
    case Fetching(_, _, _, _) => FetchingKeeps(c, s, i, x, s');
    case Patching(_, _, _, _, _) => PatchingKeeps(c, s, i, x, s');
    case Writing(_, _, _, _, _, _, _) => WritingKeeps(c, s, i, x, s');
    case Settle(_, _, _, _, _) => SettleKeeps(c, s, i, x, s');
  }

  lemma StartKeeps(c: Codec, s: State, i: nat, x: Action, s': State)
    requires Shared(c, s) && i < |s.agents| && s.agents[i] == Idle && x.Start? && Starting(s, x.a)
             && s' == At(s, i, x.a)
    ensures Keeps(c, s, i, s')
  {
    assert |s.index| == |s.hist|;
    hide Shared, Guarantee;
    LocalEffect(c, s, s', i, x.a);
  }

  /** A read that was right stays right: history is only ever extended. */
  lemma ReadStable(s: State, s': State, r: ReadRec)
    requires ReadOk(s, r) && Grows(s, s')
    ensures ReadOk(s', r)
  {
    assert s.hist[r.blk] <= s'.hist[r.blk];
  }

  /** The invariant is inductive. */
  lemma InvNext(c: Codec, s: State, s': State)
    requires RoundTrips(c) && Inv(c, s) && Next(c, s, s')
    ensures Inv(c, s')
  {
    var i, x :| Step(c, s, i, x, s');
    StepKeeps(c, s, i, x, s');
    hide Step, AgentOk, Rely, ReadOk;
    forall j | 0 <= j < |s'.agents|
      ensures AgentOk(c, s', j)
    {
      if j != i {
        assert AgentOk(c, s, j);
        AgentStable(c, s, s', j);
      }
    }
    forall n | 0 <= n < |s'.served|
      ensures ReadOk(s', s'.served[n])
    {
      if n < |s.served| {
        assert ReadOk(s, s.served[n]);
        ReadStable(s, s', s.served[n]);
      }
    }
  }

  lemma InvInit(c: Codec, s: State)
    requires Init(s)
    ensures Inv(c, s)
  {
    EntryRoundTrip(0, 0, 0);
    assert EntMake(0, 0, 0) == 0;
  }

  /** Every state of every run. */
  lemma {:induction false} InvAlways(c: Codec, run: seq<State>, t: nat)
    requires RoundTrips(c) && Run(c, run) && t < |run|
    ensures Inv(c, run[t])
  {
    hide Inv, Next, Init, RoundTrips;
    if t == 0 {
      InvInit(c, run[0]);
    } else {
      InvAlways(c, run, t - 1);
      assert StepAt(c, run, t - 1);
      InvNext(c, run[t - 1], run[t]);
    }
  }
}
