/** What an acknowledgement is worth: an operation that ends without a failure of its own has published
    its edit exactly once, and every read that finishes later sees it. */
module ProtocolDelivery {
  import opened Blocks
  import opened Protocol
  import opened ProtocolInv
  import opened ProtocolSafety
  import opened ProtocolBooks
  import opened ProtocolTheorems

  // ------------------------------------------------------------ labelled runs

  ghost predicate ActAt(c: Codec, run: seq<State>, who: seq<nat>, acts: seq<Action>, t: nat)
    requires t < |who| && |who| == |acts| && |run| == |who| + 1
  {
    Step(c, run[t], who[t], acts[t], run[t + 1])
  }

  /** A run with a record of who moved at each step, and how. */
  ghost predicate Trace(c: Codec, run: seq<State>, who: seq<nat>, acts: seq<Action>) {
    && |who| == |acts| && |run| == |who| + 1 && Init(run[0])
    && forall t :: 0 <= t < |who| ==> ActAt(c, run, who, acts, t)
  }

  lemma TraceIsRun(c: Codec, run: seq<State>, who: seq<nat>, acts: seq<Action>)
    requires Trace(c, run, who, acts)
    ensures Run(c, run)
  {
    hide Step, Init;
    forall t | 0 <= t < |run| - 1
      ensures StepAt(c, run, t)
    {
      assert ActAt(c, run, who, acts, t);
    }
  }

  lemma TraceExtends(c: Codec, run: seq<State>, n: nat, who: seq<nat>, acts: seq<Action>, i: nat, x: Action)
    requires 0 < n < |run| && Trace(c, run[..n], who, acts) && Step(c, run[n - 1], i, x, run[n])
    ensures Trace(c, run[..n + 1], who + [i], acts + [x])
  {
    hide Step, Init;
    var r, w, a := run[..n + 1], who + [i], acts + [x];
    forall t | 0 <= t < |w|
      ensures ActAt(c, r, w, a, t)
    {
      if t < |who| { assert ActAt(c, run[..n], who, acts, t); }
    }
  }

  /** Every run has such a record. */
  lemma {:induction false} RunHasTrace(c: Codec, run: seq<State>, n: nat) returns (who: seq<nat>, acts: seq<Action>)
    requires Run(c, run) && n < |run|
    ensures Trace(c, run[..n + 1], who, acts)
  {
    hide Step, Init;
    who, acts := [], [];
    if n > 0 {
      var w, a := RunHasTrace(c, run, n - 1);
      assert StepAt(c, run, n - 1);
      var i: nat, x :| Step(c, run[n - 1], i, x, run[n]);
      who, acts := w + [i], a + [x];
      TraceExtends(c, run, n, w, a, i, x);
    }
  }

  // ----------------------------------------------------------------- intents

  /** The edit an operation still has to publish. */
  ghost function Intent(a: Agent): Option<Edit> {
    match a
    case Reserve(_, page) => Some(SetPage(page))
    case Upload(_, page, _, _) => Some(SetPage(page))
    case Peek(_) => Some(ClearPage)
    case Want(_, task) => TaskIntent(task)
    case Locked(_, task) => TaskIntent(task)
    case Loaded(_, task, _) => TaskIntent(task)
    case Fetching(_, task, _, _) => TaskIntent(task)
    case Patching(_, boff, src, _, _) => Some(PatchPage(boff, src))
    case Writing(_, boff, src, _, _, _, _) => Some(PatchPage(boff, src))
    case _ => None
  }

  ghost function TaskIntent(t: Task): Option<Edit> {
    match t
    case Put(page, _) => Some(SetPage(page))
    case Patch(boff, src) => Some(PatchPage(boff, src))
    case Discard => Some(ClearPage)
    case Fetch => None
  }

  function Target(a: Agent): nat { if a.Idle? then 0 else a.blk }

  /** A step that is no failure: the copy, if any, goes through, and nothing is refused or given up. */
  predicate Smooth(x: Action) { !x.CopyFails? && !x.Refused? && !x.GivesUp? }

  /** Where an operation stands after a smooth step of its own. */
  ghost predicate Advances(s: State, i: nat, s': State)
    requires i < |s.agents| && i < |s'.agents|
  {
    var a, a' := s.agents[i], s'.agents[i];
    || (Intent(a) == Intent(a') && (Intent(a).Some? ==> Target(a') == Target(a)))
    || (Intent(a).Some? && Intent(a').None? && a.blk < |s.log| && EditOf(a) == Intent(a) && TallyOf(a') != [])
    || (Intent(a) == Some(ClearPage) && Intent(a').None? && EditOf(a).None? && a.blk < |s.hist| && |s.hist[a.blk]| > 0
        && LastPage(s, a.blk) == ZeroPage())
  }

  lemma PreparingAdvances(c: Codec, s: State, i: nat, x: Action, s': State)
    requires Step(c, s, i, x, s') && Smooth(x) && (s.agents[i].Reserve? || s.agents[i].Upload? || s.agents[i].Patching?)
    ensures i < |s'.agents| && Advances(s, i, s')
  {
    hide CompBlock, FreshSlot;
  }

  lemma SnapshotAdvances(c: Codec, s: State, i: nat, x: Action, s': State)
    requires Step(c, s, i, x, s') && s.agents[i].Snapshot?
    ensures i < |s'.agents| && Advances(s, i, s')
  {
    hide EntClen;
  }

  lemma DownloadAdvances(c: Codec, s: State, i: nat, x: Action, s': State)
    requires Step(c, s, i, x, s') && s.agents[i].Download?
    ensures i < |s'.agents| && Advances(s, i, s')
  {
    hide EntClen, EntGrain, DecompBlock;
  }

  lemma LockingAdvances(c: Codec, s: State, i: nat, x: Action, s': State)
    requires Step(c, s, i, x, s') && (s.agents[i].Want? || s.agents[i].Locked?)
    ensures i < |s'.agents| && Advances(s, i, s')
  {
    hide Stripe;
  }

  lemma SettleAdvances(c: Codec, s: State, i: nat, x: Action, s': State)
    requires Step(c, s, i, x, s') && s.agents[i].Settle?
    ensures i < |s'.agents| && Advances(s, i, s')
  {
    SettleStays(s, i, x, s');
    hide Step;
  }

  /** A settling agent goes on settling, or is done. */
  lemma SettleStays(s: State, i: nat, x: Action, s': State)
    requires i < |s.agents| && s.agents[i].Settle? && StepSettle(s, i, x, s')
    ensures i < |s'.agents| && (s'.agents[i].Settle? || s'.agents[i].Idle?)
  {
    hide Stripe, Bump;
    var a := s.agents[i];
    if a.locked && !a.late { assert s'.agents == s.agents[i := a.(locked := false)]; }
    else if a.release.Some? { assert s'.agents == s.agents[i := a.(release := None)]; }
    else if a.tally != [] { assert s'.agents == s.agents[i := a.(tally := a.tally[1..])]; }
    else { assert s'.agents == s.agents[i := Idle]; }
  }

  lemma PeekAdvances(c: Codec, s: State, i: nat, x: Action, s': State)
    requires Inv(c, s) && Step(c, s, i, x, s') && s.agents[i].Peek?
    ensures i < |s'.agents| && Advances(s, i, s')
  {
    BlockFact(c, s, s.agents[i].blk);
    hide Inv, EntClen, EntGrain, EntMake, DecompBlock;
  }

  lemma PutAdvances(c: Codec, s: State, i: nat, x: Action, s': State)
    requires Step(c, s, i, x, s') && s.agents[i].Loaded? && (s.agents[i].task.Put? || s.agents[i].task.Discard?)
    requires s.agents[i].blk < |s.index| == |s.hist| && s.index[s.agents[i].blk] == s.agents[i].was &&
    |s.hist[s.agents[i].blk]| > 0
    requires EntClen(s.agents[i].was) == 0 ==> LastPage(s, s.agents[i].blk) == ZeroPage()
    ensures i < |s'.agents| && Advances(s, i, s')
  {
    hide EntClen, EntGrain, EntMake, CompBlock, NextEnt, Apply, Splice;
  }

  lemma LoadedReadAdvances(c: Codec, s: State, i: nat, x: Action, s': State)
    requires Step(c, s, i, x, s') && s.agents[i].Loaded? && (s.agents[i].task.Patch? || s.agents[i].task.Fetch?)
    ensures i < |s'.agents| && Advances(s, i, s')
  {
    hide EntClen, EntGrain, EntMake, CompBlock, NextEnt, Apply, Splice;
  }

  lemma LoadedAdvances(c: Codec, s: State, i: nat, x: Action, s': State)
    requires Inv(c, s) && Step(c, s, i, x, s') && s.agents[i].Loaded?
    ensures i < |s'.agents| && Advances(s, i, s')
  {
    assert AgentOk(c, s, i);
    BlockFact(c, s, s.agents[i].blk);
    hide Inv, Step, Advances, EntClen, EntGrain, EntMake, DecompBlock;
    if s.agents[i].task.Put? || s.agents[i].task.Discard? { PutAdvances(c, s, i, x, s'); }
    else { LoadedReadAdvances(c, s, i, x, s'); }
  }

  /** The stored page a partial write fetches always decompresses, so the write is never dropped. */
  lemma FetchingAdvances(c: Codec, s: State, i: nat, x: Action, s': State)
    requires Inv(c, s) && Step(c, s, i, x, s') && Smooth(x) && s.agents[i].Fetching?
    ensures i < |s'.agents| && Advances(s, i, s')
  {
    var a := s.agents[i];
    assert AgentOk(c, s, i);
    BlockFact(c, s, a.blk);
    assert a.task.Patch? || a.task.Fetch?;
    assert a.task.Patch? ==> a.task.boff + |a.task.src| <= CBLK_SIZE;
    if |a.buf| >= EntClen(a.was) { CopyDecodes(c, s, a.blk, a.buf); }
    hide Inv, AgentOk, BlockOk;
    FetchStays(c, s, i, x, s');
  }

  lemma FetchStays(c: Codec, s: State, i: nat, x: Action, s': State)
    requires Step(c, s, i, x, s') && Smooth(x) && s.agents[i].Fetching?
             && (s.agents[i].task.Patch? || s.agents[i].task.Fetch?)
    requires s.agents[i].task.Patch? ==> s.agents[i].task.boff + |s.agents[i].task.src| <= CBLK_SIZE
    requires |s.agents[i].buf| >= EntClen(s.agents[i].was) ==> DecompBlock(c, s.agents[i].buf).Some?
    ensures i < |s'.agents| && Advances(s, i, s')
  {
    hide EntClen, EntGrain, DecompBlock, Splice;
  }

  lemma WritingAdvances(c: Codec, s: State, i: nat, x: Action, s': State)
    requires Inv(c, s) && Step(c, s, i, x, s') && Smooth(x) && s.agents[i].Writing?
    ensures i < |s'.agents| && Advances(s, i, s')
  {
    hide Inv, EntClen, EntGrain, EntMake, CompBlock, NextEnt, Apply, Splice, Debit;
    WritingInRange(c, s, i);
  }

  lemma WritingInRange(c: Codec, s: State, i: nat)
    requires Inv(c, s) && i < |s.agents| && s.agents[i].Writing?
    ensures s.agents[i].blk < |s.log|
  {
    assert AgentOk(c, s, i);
  }

  lemma StepAdvances(c: Codec, s: State, i: nat, x: Action, s': State)
    requires Inv(c, s) && Step(c, s, i, x, s') && Smooth(x) && s.agents[i] != Idle
    ensures i < |s'.agents| && Advances(s, i, s')
  {
    hide Inv, Step, Advances;
    StepInRange(c, s, i, x, s');
    match s.agents[i]
    case Peek(_) => PeekAdvances(c, s, i, x, s');
    case Loaded(_, _, _) => LoadedAdvances(c, s, i, x, s');
    case Fetching(_, _, _, _) => FetchingAdvances(c, s, i, x, s');
    case Writing(_, _, _, _, _, _, _) => WritingAdvances(c, s, i, x, s');
    case Settle(_, _, _, _, _) => SettleAdvances(c, s, i, x, s');
    case Snapshot(_, _) => SnapshotAdvances(c, s, i, x, s');
    case Download(_, _, _, _, _) => DownloadAdvances(c, s, i, x, s');
    case Want(_, _) => LockingAdvances(c, s, i, x, s');
    case Locked(_, _) => LockingAdvances(c, s, i, x, s');
    case _ => PreparingAdvances(c, s, i, x, s');
  }

  // ---------------------------------------------------------- what it does to the log

  ghost predicate Appends(s: State, s': State, b: nat, e: Edit) { b < |s.log| && s'.log == s.log[b := s.log[b] + [e]] }

  /** A block that reads as zeros: there is nothing to discard. */
  ghost predicate BlankBlock(s: State, b: nat) { b < |s.hist| && |s.hist[b]| > 0 && LastPage(s, b) == ZeroPage() }

  /** A smooth own step keeps the intent and the log, or publishes the intent, or finds nothing to discard. */
  ghost predicate Progress(s: State, i: nat, s': State)
    requires i < |s.agents| && i < |s'.agents|
  {
    var a, a' := s.agents[i], s'.agents[i];
    || (Intent(a) == Intent(a') && (Intent(a).Some? ==> Target(a') == Target(a)) && s'.log == s.log)
    || (Intent(a).Some? && Intent(a').None? && Appends(s, s', Target(a), Intent(a).value))
    || (Intent(a) == Some(ClearPage) && Intent(a').None? && s'.log == s.log && BlankBlock(s, Target(a)))
  }

  lemma OwedIsSomething(e: Edit, was: nat, clen: nat)
    ensures Owed(e, was, clen) != []
  {
  }

  lemma OwnProgress(c: Codec, s: State, i: nat, x: Action, s': State)
    requires Inv(c, s) && Step(c, s, i, x, s') && Smooth(x) && s.agents[i] != Idle
    ensures i < |s'.agents| && Progress(s, i, s')
  {
    hide Inv, Step, Serves, Strands, Copies, Owed, NextEnt;
    StepInRange(c, s, i, x, s');
    StepAdvances(c, s, i, x, s');
    StepBooks(c, s, i, x, s');
    var a := s.agents[i];
    if EditOf(a).Some? { OwedIsSomething(EditOf(a).value, a.was, NewClen(c, a)); }
  }

  // ------------------------------------------------------------ whole operations

  /** Step u changed no block's log. */
  ghost predicate LogKept(run: seq<State>, u: nat)
    requires u + 1 < |run|
  {
    run[u + 1].log == run[u].log
  }

  /** Between lo and hi agent i published nothing, except perhaps at p. */
  ghost predicate QuietOwn(run: seq<State>, who: seq<nat>, i: nat, lo: nat, hi: nat, p: nat)
    requires hi <= |who| && |run| == |who| + 1
  {
    forall u :: lo < u < hi && u != p && who[u] == i ==> LogKept(run, u)
  }

  /** Agent i starts an operation at t0 and ends it at t1, with no failure of its own. */
  ghost predicate Operation(run: seq<State>, who: seq<nat>, acts: seq<Action>, i: nat, t0: nat, t1: nat) {
    && |who| == |acts| && |run| == |who| + 1 && t0 < t1 < |run|
    && (forall t :: t0 <= t <= t1 ==> i < |run[t].agents|)
    && who[t0] == i && acts[t0].Start? && run[t0].agents[i] == Idle && run[t1].agents[i] == Idle
    && (forall t :: t0 < t < t1 ==> run[t].agents[i] != Idle && (who[t] == i ==> Smooth(acts[t])))
  }

  /** How far the operation has come by time t: its edit still to be published; or published at p and
      never again; or, for a discard, found unnecessary at p. */
  ghost predicate Stage(run: seq<State>, who: seq<nat>, i: nat, t0: nat, t: nat, p: nat, b: nat, e: Edit)
    requires t < |run| && |run| == |who| + 1 && i < |run[t].agents|
  {
    var a := run[t].agents[i];
    || (Intent(a) == Some(e) && Target(a) == b && QuietOwn(run, who, i, t0, t, t))
    || (Intent(a).None? && t0 < p < t && who[p] == i && Appends(run[p], run[p + 1], b, e)
       && QuietOwn(run, who, i, t0, t, p))
    || (Intent(a).None? && t0 < p < t && who[p] == i && e.ClearPage? && BlankBlock(run[p], b)
       && QuietOwn(run, who, i, t0, t, t))
  }

  lemma StageStarts(c: Codec, run: seq<State>, who: seq<nat>, acts: seq<Action>, i: nat, t0: nat, t1: nat)
    requires Trace(c, run, who, acts) && Operation(run, who, acts, i, t0, t1) && Intent(acts[t0].a).Some?
    ensures i < |run[t0 + 1].agents| && Stage(run, who, i, t0, t0 + 1, t0, Target(acts[t0].a), Intent(acts[t0].a).value)
  {
    assert ActAt(c, run, who, acts, t0);
    hide Trace;
  }

  /** A step of somebody else. */
  lemma StageKept(run: seq<State>, who: seq<nat>, i: nat, t0: nat, t: nat, p: nat, b: nat, e: Edit)
    requires t + 1 < |run| && |run| == |who| + 1 && i < |run[t].agents| && i < |run[t + 1].agents|
    requires Stage(run, who, i, t0, t, p, b, e) && who[t] != i && run[t + 1].agents[i] == run[t].agents[i]
    ensures Stage(run, who, i, t0, t + 1, p, b, e)
  {
    hide Intent, Appends, BlankBlock, LogKept;
  }

  lemma StageMoves(run: seq<State>, who: seq<nat>, i: nat, t0: nat, t: nat, p: nat, b: nat, e: Edit) returns (p': nat)
    requires t0 < t && t + 1 < |run| && |run| == |who| + 1 && i < |run[t].agents| && i < |run[t + 1].agents|
    requires Stage(run, who, i, t0, t, p, b, e) && who[t] == i && Progress(run[t], i, run[t + 1])
    ensures Stage(run, who, i, t0, t + 1, p', b, e)
  {
    hide Intent, Appends, BlankBlock;
    p' := if Intent(run[t].agents[i]).Some? then t else p;
    assert run[t + 1].log == run[t].log ==> LogKept(run, t);
  }

  lemma StageNext(c: Codec, run: seq<State>, who: seq<nat>, acts: seq<Action>, i: nat, t0: nat, t1: nat, t: nat, p: nat,
      b: nat, e: Edit)
      returns (p': nat)
    requires RoundTrips(c) && Trace(c, run, who, acts) && Operation(run, who, acts, i, t0, t1) && t0 < t < t1
    requires Stage(run, who, i, t0, t, p, b, e)
    ensures Stage(run, who, i, t0, t + 1, p', b, e)
  {
    TraceIsRun(c, run, who, acts);
    hide Run, RoundTrips, Inv, Step, Stage, Progress, LeavesBooks, Settles, Publishes, Serves, Strands, Copies;
    InvAlways(c, run, t);
    assert ActAt(c, run, who, acts, t);
    hide Trace;
    if who[t] == i {
      OwnProgress(c, run[t], i, acts[t], run[t + 1]);
      p' := StageMoves(run, who, i, t0, t, p, b, e);
    } else {
      StepBooks(c, run[t], who[t], acts[t], run[t + 1]);
      StageKept(run, who, i, t0, t, p, b, e);
      p' := p;
    }
  }

  lemma {:induction false} StageAt(c: Codec, run: seq<State>, who: seq<nat>, acts: seq<Action>, i: nat, t0: nat,
      t1: nat, t: nat) returns (p: nat)
    requires RoundTrips(c) && Trace(c, run, who, acts) && Operation(run, who, acts, i, t0, t1) && t0 < t <= t1
    requires Intent(acts[t0].a).Some?
    ensures Stage(run, who, i, t0, t, p, Target(acts[t0].a), Intent(acts[t0].a).value)
    decreases t
  {
    hide Trace, RoundTrips, Stage, Intent;
    if t == t0 + 1 {
      StageStarts(c, run, who, acts, i, t0, t1);
      p := t0;
    } else {
      var q := StageAt(c, run, who, acts, i, t0, t1, t - 1);
      p := StageNext(c, run, who, acts, i, t0, t1, t - 1, q, Target(acts[t0].a), Intent(acts[t0].a).value);
    }
  }

  /** THE DELIVERY GUARANTEE. A write, partial write or trim that ends with no failure of its own has
      published exactly its own edit, to its own block, exactly once - at p - or, for a trim, found the
      block blank at p and published nothing. */
  lemma AckedEditLandsOnce(c: Codec, run: seq<State>, who: seq<nat>, acts: seq<Action>, i: nat, t0: nat,
      t1: nat) returns (p: nat)
    requires RoundTrips(c) && Trace(c, run, who, acts) && Operation(run, who, acts, i, t0, t1)
    requires Intent(acts[t0].a).Some?
    ensures t0 < p < t1 && who[p] == i
    ensures var b, e := Target(acts[t0].a), Intent(acts[t0].a).value;
            || (Appends(run[p], run[p + 1], b, e) && QuietOwn(run, who, i, t0, t1, p))
            || (e.ClearPage? && BlankBlock(run[p], b) && QuietOwn(run, who, i, t0, t1, t1))
  {
    hide Trace, RoundTrips;
    p := StageAt(c, run, who, acts, i, t0, t1, t1);
  }

  // ------------------------------------------------------------- visibility

  lemma LogNext(c: Codec, s: State, s': State, b: nat)
    requires Inv(c, s) && Next(c, s, s') && b < |s.log|
    ensures b < |s'.log| && s.log[b] <= s'.log[b]
  {
    hide Inv, Step, Serves, Strands, Copies, Owed, NextEnt;
    var i: nat, x :| Step(c, s, i, x, s');
    StepInRange(c, s, i, x, s');
    StepBooks(c, s, i, x, s');
  }

  /** Logs only grow. */
  lemma {:induction false} LogGrows(c: Codec, run: seq<State>, u: nat, t: nat, b: nat)
    requires RoundTrips(c) && Run(c, run) && u <= t < |run| && b < |run[u].log|
    ensures b < |run[t].log| && run[u].log[b] <= run[t].log[b]
  {
    hide Run, RoundTrips, Inv, Next;
    if u < t {
      LogGrows(c, run, u, t - 1, b);
      InvAlways(c, run, t - 1);
      RunStep(c, run, t - 1);
      LogNext(c, run[t - 1], run[t - 1 + 1], b);
    }
  }

  /** Published at p, the edit is in its block's log from then on, at the place it took. */
  lemma StaysInLog(c: Codec, run: seq<State>, p: nat, t: nat, b: nat, e: Edit)
    requires RoundTrips(c) && Run(c, run) && p < t < |run| && Appends(run[p], run[p + 1], b, e)
    ensures b < |run[t].log| && |run[p].log[b]| < |run[t].log[b]| && run[t].log[b][|run[p].log[b]|] == e
  {
    hide Run, RoundTrips;
    LogGrows(c, run, p + 1, t, b);
    assert run[p + 1].log[b][|run[p].log[b]|] == e;
  }

  /** AN ACKNOWLEDGED WRITE IS SEEN. Once a write or partial write has ended without a failure of its own,
      every read of its block that finishes later, by whomever, returns the block's edits replayed in
      publish order - and that edit is among them. */
  lemma AckedWriteIsSeen(c: Codec, run: seq<State>, who: seq<nat>, acts: seq<Action>, i: nat, t0: nat, t1: nat, t: nat,
      r: ReadRec)
    requires RoundTrips(c) && Trace(c, run, who, acts) && Operation(run, who, acts, i, t0, t1)
    requires Intent(acts[t0].a).Some? && !Intent(acts[t0].a).value.ClearPage?
    requires t1 <= t && t + 1 < |run| && run[t + 1].served == run[t].served + [r] && r.blk == Target(acts[t0].a)
    ensures r.blk < |run[t].log| && Intent(acts[t0].a).value in run[t].log[r.blk]
    ensures forall v :: 0 <= v < |run[t].log[r.blk]| ==> EditOk(run[t].log[r.blk][v])
    ensures r.hi - r.lo < 0x20_0000 ==> r.page == Some(Replay(run[t].log[r.blk]))
  {
    TraceIsRun(c, run, who, acts);
    hide Trace, Run, RoundTrips, Intent, Replay;
    var p := AckedEditLandsOnce(c, run, who, acts, i, t0, t1);
    StaysInLog(c, run, p, t, r.blk, Intent(acts[t0].a).value);
    EveryReadIsAtomic(c, run, t, r);
    NoLostUpdate(c, run, t, r.blk);
  }
}
