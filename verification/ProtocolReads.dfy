/** What a read is worth: one that ends without a failed copy has returned exactly one page, of its own
    block, no older than the read itself - and it takes the lock only once the block has moved under it
    four times. */
module ProtocolReads {
  import opened Blocks
  import opened Protocol
  import opened ProtocolInv
  import opened ProtocolSafety
  import opened ProtocolBooks
  import opened ProtocolTheorems
  import opened ProtocolDelivery

  /** The block a read still has to return a page of. */
  ghost function Seeks(a: Agent): Option<nat> {
    match a
    case Snapshot(b, _) => Some(b)
    case Download(b, _, _, _, _) => Some(b)
    case Want(b, task) => if task.Fetch? then Some(b) else None
    case Locked(b, task) => if task.Fetch? then Some(b) else None
    case Loaded(b, task, _) => if task.Fetch? then Some(b) else None
    case Fetching(b, task, _, _) => if task.Fetch? then Some(b) else None
    case _ => None
  }

  /** The read started when its block was at version v or later; each attempt it lost, the block moved on by
      one at least, and it goes for the lock after losing four. */
  ghost predicate Since(s: State, a: Agent, v: int)
    requires Seeks(a).Some?
  {
    && a.blk < |s.hist|
    && if a.Snapshot? then v + a.fails <= Version(s, a.blk)
       else if a.Download? then v + a.fails <= a.ver
       else v + 4 <= Version(s, a.blk)
  }

  ghost predicate Returns(s: State, s': State, b: nat, v: int) {
    && |s'.served| == |s.served| + 1 && s'.served == s.served + [s'.served[|s.served|]]
    && s'.served[|s.served|].blk == b && v <= s'.served[|s.served|].lo
  }

  /** A smooth own step of a read: it goes on, or returns a page. */
  ghost predicate ReadMoves(s: State, i: nat, s': State, v: int)
    requires i < |s.agents| && i < |s'.agents| && Seeks(s.agents[i]).Some?
  {
    var a, a' := s.agents[i], s'.agents[i];
    || (Seeks(a') == Seeks(a) && Since(s', a', v) && s'.served == s.served)
    || (Seeks(a').None? && Returns(s, s', a.blk, v))
  }

  // ------------------------------------------------------------- step by step

  lemma SnapshotSeeks(c: Codec, s: State, i: nat, x: Action, s': State, v: int)
    requires Inv(c, s) && Step(c, s, i, x, s') && s.agents[i].Snapshot? && Since(s, s.agents[i], v)
    ensures i < |s'.agents| && ReadMoves(s, i, s', v)
  {
    assert AgentOk(c, s, i);
    hide Inv, EntClen;
  }

  /** A copy whose block is still at the version it started from still has the block's entry. */
  lemma DownloadFacts(c: Codec, s: State, i: nat)
    requires Inv(c, s) && i < |s.agents| && s.agents[i].Download?
    ensures var a := s.agents[i];
            && a.blk < |s.index| == |s.hist| && a.ver <= Version(s, a.blk)
            && (a.ver == Version(s, a.blk) ==> s.index[a.blk] == a.ent)
  {
    hide EntClen, EntGrain, EntMake, InHeap, Stored, BlockOk, HistOk, OwnerOk, LocksOk, SlotsOk, ServedOk;
    assert AgentOk(c, s, i);
  }

  lemma DownloadSeeks(c: Codec, s: State, i: nat, x: Action, s': State, v: int)
    requires Inv(c, s) && Step(c, s, i, x, s') && Smooth(x) && s.agents[i].Download? && Since(s, s.agents[i], v)
    ensures i < |s'.agents| && ReadMoves(s, i, s', v)
  {
    hide Inv, EntClen, EntGrain, DecompBlock;
    DownloadFacts(c, s, i);
  }

  lemma LockingSeeks(c: Codec, s: State, i: nat, x: Action, s': State, v: int)
    requires Step(c, s, i, x, s') && (s.agents[i].Want? || s.agents[i].Locked?)
    requires Seeks(s.agents[i]).Some? && Since(s, s.agents[i], v)
    ensures i < |s'.agents| && ReadMoves(s, i, s', v)
  {
    hide Stripe;
  }

  lemma LoadedSeeks(c: Codec, s: State, i: nat, x: Action, s': State, v: int)
    requires Step(c, s, i, x, s') && s.agents[i].Loaded? && Seeks(s.agents[i]).Some? && Since(s, s.agents[i], v)
    ensures i < |s'.agents| && ReadMoves(s, i, s', v)
  {
    hide EntClen;
  }

  lemma FetchingSeeks(c: Codec, s: State, i: nat, x: Action, s': State, v: int)
    requires Step(c, s, i, x, s') && Smooth(x) && s.agents[i].Fetching?
    requires Seeks(s.agents[i]).Some? && Since(s, s.agents[i], v)
    ensures i < |s'.agents| && ReadMoves(s, i, s', v)
  {
    hide EntClen, EntGrain, DecompBlock, Splice;
  }

  lemma StepSeeks(c: Codec, s: State, i: nat, x: Action, s': State, v: int)
    requires Inv(c, s) && Step(c, s, i, x, s') && Smooth(x) && i < |s.agents|
    requires Seeks(s.agents[i]).Some? && Since(s, s.agents[i], v)
    ensures i < |s'.agents| && ReadMoves(s, i, s', v)
  {
    hide Inv, Step, ReadMoves, Since;
    match s.agents[i]
    case Snapshot(_, _) => SnapshotSeeks(c, s, i, x, s', v);
    case Download(_, _, _, _, _) => DownloadSeeks(c, s, i, x, s', v);
    case Want(_, _) => LockingSeeks(c, s, i, x, s', v);
    case Locked(_, _) => LockingSeeks(c, s, i, x, s', v);
    case Loaded(_, _, _) => LoadedSeeks(c, s, i, x, s', v);
    case Fetching(_, _, _, _) => FetchingSeeks(c, s, i, x, s', v);
  }

  /** Only a read returns pages, and only a start begins one. */
  ghost predicate NoRead(s: State, i: nat, s': State)
    requires i < |s.agents| && i < |s'.agents|
  {
    s'.served == s.served && (s.agents[i].Idle? || Seeks(s'.agents[i]).None?)
  }

  lemma UnlockedNoRead(c: Codec, s: State, i: nat, x: Action, s': State)
    requires Step(c, s, i, x, s') && Seeks(s.agents[i]).None?
    requires s.agents[i].Idle? || s.agents[i].Reserve? || s.agents[i].Upload? || s.agents[i].Peek? || s.agents[i].Want?
             || s.agents[i].Locked? || s.agents[i].Patching?
    ensures i < |s'.agents| && NoRead(s, i, s')
  {
    hide CompBlock, FreshSlot, EntClen, Stripe;
  }

  lemma LoadedNoRead(c: Codec, s: State, i: nat, x: Action, s': State)
    requires Step(c, s, i, x, s') && Seeks(s.agents[i]).None? && s.agents[i].Loaded?
    ensures i < |s'.agents| && NoRead(s, i, s')
  {
    StepInRange(c, s, i, x, s');
    hide Step, NoRead;
    if s.agents[i].task.Patch? { PatchNoRead(c, s, i, x, s'); } else { StoreNoRead(c, s, i, x, s'); }
  }

  lemma PatchNoRead(c: Codec, s: State, i: nat, x: Action, s': State)
    requires Step(c, s, i, x, s') && s.agents[i].Loaded? && s.agents[i].task.Patch?
    ensures i < |s'.agents| && NoRead(s, i, s')
  {
    hide EntClen, Splice;
  }

  lemma StoreNoRead(c: Codec, s: State, i: nat, x: Action, s': State)
    requires Step(c, s, i, x, s') && s.agents[i].Loaded? && (s.agents[i].task.Put? || s.agents[i].task.Discard?)
    ensures i < |s'.agents| && NoRead(s, i, s')
  {
    hide CompBlock, EntClen, EntGrain, NextEnt, Apply, Debit, Credit, TrimDebit, Displaced;
  }

  lemma FetchingNoRead(c: Codec, s: State, i: nat, x: Action, s': State)
    requires Step(c, s, i, x, s') && s.agents[i].Fetching? && s.agents[i].task.Patch?
    ensures i < |s'.agents| && NoRead(s, i, s')
  {
    hide EntClen, EntGrain, Splice, DecompBlock;
  }

  lemma WritingNoRead(c: Codec, s: State, i: nat, x: Action, s': State)
    requires Step(c, s, i, x, s') && s.agents[i].Writing?
    ensures i < |s'.agents| && NoRead(s, i, s')
  {
    hide CompBlock, EntClen, EntGrain, NextEnt, Apply, Splice, Debit, Credit;
  }

  lemma SettleNoRead(c: Codec, s: State, i: nat, x: Action, s': State)
    requires Step(c, s, i, x, s') && s.agents[i].Settle?
    ensures i < |s'.agents| && NoRead(s, i, s')
  {
    SettleServes(s, i, x, s');
    SettleStays(s, i, x, s');
    hide Step;
  }

  lemma SettleServes(s: State, i: nat, x: Action, s': State)
    requires i < |s.agents| && s.agents[i].Settle? && StepSettle(s, i, x, s')
    ensures s'.served == s.served
  {
    hide Stripe, Bump;
  }

  lemma StepNoRead(c: Codec, s: State, i: nat, x: Action, s': State)
    requires Inv(c, s) && Step(c, s, i, x, s') && i < |s.agents| && Seeks(s.agents[i]).None?
    ensures i < |s'.agents| && NoRead(s, i, s')
  {
    assert AgentOk(c, s, i);
    assert s.agents[i].Fetching? ==> s.agents[i].task.Patch?;
    hide Inv, Step, NoRead;
    match s.agents[i]
    case Loaded(_, _, _) => LoadedNoRead(c, s, i, x, s');
    case Fetching(_, _, _, _) => FetchingNoRead(c, s, i, x, s');
    case Writing(_, _, _, _, _, _, _) => WritingNoRead(c, s, i, x, s');
    case Settle(_, _, _, _, _) => SettleNoRead(c, s, i, x, s');
    case _ => UnlockedNoRead(c, s, i, x, s');
  }

  /** Versions only grow, so a read never gets older while others move. */
  lemma SinceStable(c: Codec, s: State, s': State, a: Agent, v: int)
    requires Inv(c, s) && Inv(c, s') && Next(c, s, s') && Seeks(a).Some? && Since(s, a, v)
    ensures Since(s', a, v)
  {
    LogNext(c, s, s', a.blk);
    VersionIsLog(c, s, a.blk);
    VersionIsLog(c, s', a.blk);
    hide Inv, Next;
  }

  lemma VersionIsLog(c: Codec, s: State, b: nat)
    requires Inv(c, s) && b < |s.log|
    ensures b < |s.hist| == |s.log| && Version(s, b) == |s.log[b]|
  {
    assert HistOk(s, b);
  }

  // ------------------------------------------------------------ whole operations

  /** Agent i started an operation at t0 and is still at it at t, with no failure of its own so far. */
  ghost predicate Running(run: seq<State>, who: seq<nat>, acts: seq<Action>, i: nat, t0: nat, t: nat) {
    && |who| == |acts| && |run| == |who| + 1 && t0 < t < |run|
    && (forall u :: t0 <= u <= t ==> i < |run[u].agents|)
    && who[t0] == i && acts[t0].Start? && run[t0].agents[i] == Idle
    && (forall u :: t0 < u < t ==> run[u].agents[i] != Idle && (who[u] == i ==> Smooth(acts[u])))
  }

  /** Step u returned nothing to anyone. */
  ghost predicate ServesNone(run: seq<State>, u: nat)
    requires u + 1 < |run|
  {
    run[u + 1].served == run[u].served
  }

  /** Between lo and hi agent i returned nothing, except perhaps at p. */
  ghost predicate QuietReads(run: seq<State>, who: seq<nat>, i: nat, lo: nat, hi: nat, p: nat)
    requires hi <= |who| && |run| == |who| + 1
  {
    forall u :: lo < u < hi && u != p && who[u] == i ==> ServesNone(run, u)
  }

  /** How far the read has come by time t: nothing returned yet; or one page, at p. */
  ghost predicate ReadStage(run: seq<State>, who: seq<nat>, i: nat, t0: nat, t: nat, p: nat, b: nat, v: int)
    requires t < |run| && |run| == |who| + 1 && i < |run[t].agents|
  {
    var a := run[t].agents[i];
    || (Seeks(a) == Some(b) && Since(run[t], a, v) && QuietReads(run, who, i, t0, t, t))
    || (Seeks(a).None? && t0 < p < t && who[p] == i && Returns(run[p], run[p + 1], b, v)
       && QuietReads(run, who, i, t0, t, p))
  }

  lemma ReadStarts(c: Codec, run: seq<State>, who: seq<nat>, acts: seq<Action>, i: nat, t0: nat)
    requires Trace(c, run, who, acts) && Running(run, who, acts, i, t0, t0 + 1) && acts[t0].a.Snapshot?
    requires acts[t0].a.blk < |run[t0].hist|
    ensures ReadStage(run, who, i, t0, t0 + 1, t0, acts[t0].a.blk, Version(run[t0], acts[t0].a.blk))
  {
    assert ActAt(c, run, who, acts, t0);
    hide Trace;
  }

  lemma ReadKept(run: seq<State>, who: seq<nat>, i: nat, t0: nat, t: nat, p: nat, b: nat, v: int)
    requires t + 1 < |run| && |run| == |who| + 1 && i < |run[t].agents| && i < |run[t + 1].agents|
    requires ReadStage(run, who, i, t0, t, p, b, v) && who[t] != i && run[t + 1].agents[i] == run[t].agents[i]
    requires Seeks(run[t].agents[i]).Some? ==> Since(run[t + 1], run[t].agents[i], v)
    ensures ReadStage(run, who, i, t0, t + 1, p, b, v)
  {
    hide Seeks, Returns, ServesNone, Since;
  }

  lemma ReadGoesOn(run: seq<State>, who: seq<nat>, i: nat, t0: nat, t: nat, p: nat, b: nat, v: int) returns (p': nat)
    requires t0 < t && t + 1 < |run| && |run| == |who| + 1 && i < |run[t].agents| && i < |run[t + 1].agents|
    requires ReadStage(run, who, i, t0, t, p, b, v) && who[t] == i && Seeks(run[t].agents[i]).Some?
    requires ReadMoves(run[t], i, run[t + 1], v)
    ensures ReadStage(run, who, i, t0, t + 1, p', b, v)
  {
    SeeksOwnBlock(run[t].agents[i]);
    hide Seeks, Since;
    p' := t;
    assert run[t + 1].served == run[t].served ==> ServesNone(run, t);
  }

  lemma SeeksOwnBlock(a: Agent)
    requires Seeks(a).Some?
    ensures a != Idle && a.blk == Seeks(a).value
  {
  }

  lemma ReadRests(run: seq<State>, who: seq<nat>, i: nat, t0: nat, t: nat, p: nat, b: nat, v: int)
    requires t0 < t && t + 1 < |run| && |run| == |who| + 1 && i < |run[t].agents| && i < |run[t + 1].agents|
    requires ReadStage(run, who, i, t0, t, p, b, v) && Seeks(run[t].agents[i]).None? && run[t].agents[i] != Idle
    requires NoRead(run[t], i, run[t + 1])
    ensures ReadStage(run, who, i, t0, t + 1, p, b, v)
  {
    hide Seeks, Since, Returns;
    assert ServesNone(run, t);
  }

  lemma ReadNext(c: Codec, run: seq<State>, who: seq<nat>, acts: seq<Action>, i: nat, t0: nat, t: nat, p: nat, b: nat,
      v: int) returns (p': nat)
    requires RoundTrips(c) && Trace(c, run, who, acts) && t0 < t && Running(run, who, acts, i, t0, t + 1)
    requires ReadStage(run, who, i, t0, t, p, b, v)
    ensures ReadStage(run, who, i, t0, t + 1, p', b, v)
  {
    TraceIsRun(c, run, who, acts);
    hide Run, RoundTrips, Inv, Step, ReadStage, ReadMoves, Seeks, Since, LeavesBooks, Settles, Publishes, Serves,
      Strands, Copies;
    InvAlways(c, run, t);
    InvAlways(c, run, t + 1);
    assert ActAt(c, run, who, acts, t);
    hide Trace;
    p' := p;
    if who[t] != i {
      StepBooks(c, run[t], who[t], acts[t], run[t + 1]);
      StageSince(run, who, i, t0, t, p, b, v);
      if Seeks(run[t].agents[i]).Some? { SinceStable(c, run[t], run[t + 1], run[t].agents[i], v); }
      ReadKept(run, who, i, t0, t, p, b, v);
    } else if Seeks(run[t].agents[i]).Some? {
      StageSince(run, who, i, t0, t, p, b, v);
      StepSeeks(c, run[t], i, acts[t], run[t + 1], v);
      p' := ReadGoesOn(run, who, i, t0, t, p, b, v);
    } else {
      StepNoRead(c, run[t], i, acts[t], run[t + 1]);
      ReadRests(run, who, i, t0, t, p, b, v);
    }
  }

  lemma StageSince(run: seq<State>, who: seq<nat>, i: nat, t0: nat, t: nat, p: nat, b: nat, v: int)
    requires t < |run| && |run| == |who| + 1 && i < |run[t].agents| && ReadStage(run, who, i, t0, t, p, b, v)
    ensures Seeks(run[t].agents[i]).Some? ==> Since(run[t], run[t].agents[i], v)
  {
  }

  lemma RunningBefore(run: seq<State>, who: seq<nat>, acts: seq<Action>, i: nat, t0: nat, t: nat)
    requires Running(run, who, acts, i, t0, t) && t0 + 1 < t
    ensures Running(run, who, acts, i, t0, t - 1)
  {
  }

  lemma {:induction false} ReadStageAt(c: Codec, run: seq<State>, who: seq<nat>, acts: seq<Action>, i: nat, t0: nat,
      t: nat) returns (p: nat)
    requires RoundTrips(c) && Trace(c, run, who, acts) && Running(run, who, acts, i, t0, t) && acts[t0].a.Snapshot?
    requires acts[t0].a.blk < |run[t0].hist|
    ensures ReadStage(run, who, i, t0, t, p, acts[t0].a.blk, Version(run[t0], acts[t0].a.blk))
    decreases t
  {
    hide Trace, RoundTrips, ReadStage, Running;
    assert t0 < t by { RunningTimes(run, who, acts, i, t0, t); }
    if t == t0 + 1 {
      ReadStarts(c, run, who, acts, i, t0);
      p := t0;
    } else {
      RunningBefore(run, who, acts, i, t0, t);
      var q := ReadStageAt(c, run, who, acts, i, t0, t - 1);
      p := ReadNext(c, run, who, acts, i, t0, t - 1, q, acts[t0].a.blk, Version(run[t0], acts[t0].a.blk));
    }
  }

  lemma RunningTimes(run: seq<State>, who: seq<nat>, acts: seq<Action>, i: nat, t0: nat, t: nat)
    requires Running(run, who, acts, i, t0, t)
    ensures |who| == |acts| && |run| == |who| + 1 && t0 < t < |run| && i < |run[t0].agents| && i < |run[t].agents|
    ensures acts[t0].Start?
  {
  }

  lemma StartInRange(c: Codec, run: seq<State>, who: seq<nat>, acts: seq<Action>, i: nat, t0: nat, t: nat)
    requires RoundTrips(c) && Trace(c, run, who, acts) && Running(run, who, acts, i, t0, t) && acts[t0].a.Snapshot?
    ensures acts[t0].a.blk < |run[t0].hist|
  {
    TraceIsRun(c, run, who, acts);
    assert ActAt(c, run, who, acts, t0);
    hide Trace, Run, RoundTrips;
    InvAlways(c, run, t0);
  }

  /** THE READ DELIVERY. A read that ends with no failure of its own has returned exactly one page: at p, of its
      own block, of a version no older than the one the block had when the read began - and, if fewer than
      2^21 publishes hit the block meanwhile, exactly the page the block held at p. */
  lemma EveryReadReturns(c: Codec, run: seq<State>, who: seq<nat>, acts: seq<Action>, i: nat, t0: nat,
      t1: nat) returns (p: nat, r: ReadRec)
    requires RoundTrips(c) && Trace(c, run, who, acts) && Operation(run, who, acts, i, t0, t1) && acts[t0].a.Snapshot?
    ensures t0 < p < t1 && who[p] == i && run[p + 1].served == run[p].served + [r] && r.blk == acts[t0].a.blk
    ensures r.blk < |run[t0].hist| && r.blk < |run[p].hist| == |run[p].index|
    ensures Version(run[t0], r.blk) <= r.lo <= r.hi == Version(run[p], r.blk)
    ensures InHeap(run[p].mem, run[p].index[r.blk])
    ensures r.hi - r.lo < 0x20_0000 ==> r.page.Some? && r.page == Content(c, run[p], r.blk)
    ensures QuietReads(run, who, i, t0, t1, p)
  {
    hide Trace, RoundTrips, ServesNone;
    StartInRange(c, run, who, acts, i, t0, t1);
    p := ReadStageAt(c, run, who, acts, i, t0, t1);
    r := run[p + 1].served[|run[p].served|];
    TraceIsRun(c, run, who, acts);
    hide Run;
    EveryReadIsAtomic(c, run, p, r);
  }

  /** A READ TAKES THE LOCK LAST. It asks for its stripe only after its block was published to four times at
      least since it began - so a read nobody races with takes no lock at all. */
  lemma LockOnlyWhenContended(c: Codec, run: seq<State>, who: seq<nat>, acts: seq<Action>, i: nat, t0: nat, t: nat)
    requires RoundTrips(c) && Trace(c, run, who, acts) && Running(run, who, acts, i, t0, t) && acts[t0].a.Snapshot?
    requires run[t].agents[i].Want? && run[t].agents[i].task.Fetch?
    ensures acts[t0].a.blk == run[t].agents[i].blk < |run[t].hist| && acts[t0].a.blk < |run[t0].hist|
    ensures Version(run[t0], acts[t0].a.blk) + 4 <= Version(run[t], acts[t0].a.blk)
  {
    hide Trace, RoundTrips;
    StartInRange(c, run, who, acts, i, t0, t);
    var p := ReadStageAt(c, run, who, acts, i, t0, t);
  }
}
