/** Operations finish: no agent can be starved into running forever, and no state is stuck. */
module ProtocolLiveness {
  import opened Blocks
  import opened Sums
  import opened Protocol
  import opened ProtocolInv
  import opened ProtocolSafety
  import opened ProtocolBooks
  import opened ProtocolTheorems

  /** Own steps to do under the stripe lock, at most: fetch, patch, upload, settle. */
  const LOCKED_WORK: int := CLEN_LIMIT + CBLK_SIZE + 16

  /** Own steps of one lock-free attempt, at most: snapshot, copy, re-check. */
  const ATTEMPT: int := CLEN_LIMIT + 2

  /** An upper bound on the own steps an operation has left, whatever other agents do. A read has
      five attempts and one locked read in it. */
  function Fuel(a: Agent): int {
    match a
    case Idle => 0
    case Settle(_, locked, _, release, tally) => 1 + (if locked then 1 else 0) + (if release.Some? then 1
      else 0) + |tally|
    case Writing(_, _, _, _, _, _, k) => CBLK_SIZE - k + 9
    case Patching(_, _, _, _, _) => CBLK_SIZE + 10
    case Fetching(_, _, _, buf) => CBLK_SIZE + 11 + CLEN_LIMIT - |buf|
    case Loaded(_, _, _) => LOCKED_WORK
    case Locked(_, _) => LOCKED_WORK + 1
    case Want(_, _) => LOCKED_WORK + 2
    case Peek(_) => LOCKED_WORK + 3
    case Upload(_, _, _, k) => LOCKED_WORK + 3 + CBLK_SIZE - k
    case Reserve(_, _) => LOCKED_WORK + 4 + CBLK_SIZE
    case Snapshot(_, fails) => LOCKED_WORK + 3 + (MAX_ROUNDS + 1 - fails) * ATTEMPT
    case Download(_, _, _, fails, buf) => LOCKED_WORK + 2 + (MAX_ROUNDS + 1 - fails) * ATTEMPT - |buf|
  }

  lemma ClenLimit(e: nat)
    ensures EntClen(e) < CLEN_LIMIT
  {
  }

  /** Some work is left exactly while the operation is running. */
  lemma FuelLeft(c: Codec, s: State, i: nat)
    requires Inv(c, s) && i < |s.agents|
    ensures Fuel(s.agents[i]) >= 0 && (Fuel(s.agents[i]) == 0 <==> s.agents[i] == Idle)
  {
    assert AgentOk(c, s, i);
    hide Inv, Shared, AgentsOk, ServedOk, EntClen, EntGrain, EntMake, CompBlock;
    match s.agents[i]
    case Download(_, ent, _, _, _) => ClenLimit(ent);
    case Fetching(_, _, was, _) => ClenLimit(was);
    case _ =>
  }

  lemma WriterBurns(c: Codec, s: State, i: nat, x: Action, s': State)
    requires Step(c, s, i, x, s') && |s.index| == |s.hist| && AgentOk(c, s, i)
    requires s.agents[i].Reserve? || s.agents[i].Upload? || s.agents[i].Want?
    ensures i < |s'.agents| && Fuel(s'.agents[i]) < Fuel(s.agents[i])
  {
    hide EntClen, EntGrain, EntMake, CompBlock, FreshSlot;
  }

  lemma LookerBurns(c: Codec, s: State, i: nat, x: Action, s': State)
    requires Step(c, s, i, x, s') && |s.index| == |s.hist| && AgentOk(c, s, i)
    requires s.agents[i].Snapshot? || s.agents[i].Peek?
    ensures i < |s'.agents| && Fuel(s'.agents[i]) < Fuel(s.agents[i])
  {
    hide EntClen, EntGrain, EntMake;
  }

  lemma DownloadBurns(c: Codec, s: State, i: nat, x: Action, s': State)
    requires Step(c, s, i, x, s') && |s.index| == |s.hist| && AgentOk(c, s, i) && s.agents[i].Download?
    ensures i < |s'.agents| && Fuel(s'.agents[i]) < Fuel(s.agents[i])
  {
    ClenLimit(s.agents[i].ent);
    hide EntClen, EntGrain, EntMake, CompBlock, DecompBlock;
  }

  lemma DebtIsSmall(was: nat, clen: nat)
    ensures |Debit(was) + Credit(clen)| <= 4 && |TrimDebit(was)| <= 4
  {
  }

  lemma LockedBurns(c: Codec, s: State, i: nat, x: Action, s': State)
    requires Step(c, s, i, x, s') && (s.agents[i].Locked? || s.agents[i].Patching?)
    ensures i < |s'.agents| && Fuel(s'.agents[i]) < Fuel(s.agents[i])
  {
    hide CompBlock, FreshSlot;
  }

  lemma LoadedBurns(c: Codec, s: State, i: nat, x: Action, s': State)
    requires Step(c, s, i, x, s') && s.agents[i].Loaded?
    ensures i < |s'.agents| && Fuel(s'.agents[i]) < Fuel(s.agents[i])
  {
    StepInRange(c, s, i, x, s');
    hide Step;
    if s.agents[i].task.Put? || s.agents[i].task.Discard? { StoringBurns(c, s, i, x, s'); }
      else { LookingBurns(c, s, i, x, s'); }
  }

  lemma StoringBurns(c: Codec, s: State, i: nat, x: Action, s': State)
    requires Step(c, s, i, x, s') && s.agents[i].Loaded? && (s.agents[i].task.Put? || s.agents[i].task.Discard?)
    ensures i < |s'.agents| && Fuel(s'.agents[i]) < Fuel(s.agents[i])
  {
    var a := s.agents[i];
    DebtIsSmall(a.was, if a.task.Put? then |CompBlock(c, a.task.page)| else 0);
    hide EntClen, EntGrain, EntMake, CompBlock, Debit, Credit, TrimDebit, Splice, NextEnt, Apply;
  }

  lemma LookingBurns(c: Codec, s: State, i: nat, x: Action, s': State)
    requires Step(c, s, i, x, s') && s.agents[i].Loaded? && !s.agents[i].task.Put? && !s.agents[i].task.Discard?
    ensures i < |s'.agents| && Fuel(s'.agents[i]) < Fuel(s.agents[i])
  {
    StepInRange(c, s, i, x, s');
    hide Step, Fuel;
    if s.agents[i].task.Patch? { PatchBurns(c, s, i, x, s'); } else { FetchBurns(c, s, i, x, s'); }
  }

  lemma PatchBurns(c: Codec, s: State, i: nat, x: Action, s': State)
    requires Step(c, s, i, x, s') && s.agents[i].Loaded? && s.agents[i].task.Patch?
    ensures i < |s'.agents| && Fuel(s'.agents[i]) < Fuel(s.agents[i])
  {
    hide EntClen, Splice;
  }

  lemma FetchBurns(c: Codec, s: State, i: nat, x: Action, s': State)
    requires Step(c, s, i, x, s') && s.agents[i].Loaded? && s.agents[i].task.Fetch?
    ensures i < |s'.agents| && Fuel(s'.agents[i]) < Fuel(s.agents[i])
  {
    hide EntClen;
  }

  lemma FetchingBurns(c: Codec, s: State, i: nat, x: Action, s': State)
    requires Step(c, s, i, x, s') && |s.index| == |s.hist| && AgentOk(c, s, i) && s.agents[i].Fetching?
    ensures i < |s'.agents| && Fuel(s'.agents[i]) < Fuel(s.agents[i])
  {
    ClenLimit(s.agents[i].was);
    hide EntClen, EntGrain, EntMake, CompBlock, DecompBlock, Splice;
  }

  lemma WritingBurns(c: Codec, s: State, i: nat, x: Action, s': State)
    requires Step(c, s, i, x, s') && |s.index| == |s.hist| && AgentOk(c, s, i) && s.agents[i].Writing?
    ensures i < |s'.agents| && Fuel(s'.agents[i]) < Fuel(s.agents[i])
  {
    DebtIsSmall(s.agents[i].was, |CompBlock(c, s.agents[i].page)|);
    hide EntClen, EntGrain, EntMake, CompBlock, Debit, Credit, Splice;
  }

  lemma SettleBurns(c: Codec, s: State, i: nat, x: Action, s': State)
    requires Step(c, s, i, x, s') && i < |s.agents| && s.agents[i].Settle?
    ensures i < |s'.agents| && Fuel(s'.agents[i]) < Fuel(s.agents[i])
  {
    hide Stripe, Bump;
    var a := s.agents[i];
    assert a.tally != [] ==> |a.tally[1..]| == |a.tally| - 1;
  }

  /** Every own step of a running operation uses up fuel, and nobody else's step touches it. */
  lemma StepBurns(c: Codec, s: State, i: nat, x: Action, s': State)
    requires Inv(c, s) && Step(c, s, i, x, s') && s.agents[i] != Idle
    ensures |s'.agents| == |s.agents| && Fuel(s'.agents[i]) < Fuel(s.agents[i])
    ensures forall j :: 0 <= j < |s.agents| && j != i ==> s'.agents[j] == s.agents[j]
  {
    StepBooks(c, s, i, x, s');
    assert AgentOk(c, s, i);
    hide Inv, Step, AgentOk, Fuel, LeavesBooks, Settles, Publishes, Serves, Strands, Copies;
    match s.agents[i]
    case Download(_, _, _, _, _) => DownloadBurns(c, s, i, x, s');
    case Fetching(_, _, _, _) => FetchingBurns(c, s, i, x, s');
    case Writing(_, _, _, _, _, _, _) => WritingBurns(c, s, i, x, s');
    case Settle(_, _, _, _, _) => SettleBurns(c, s, i, x, s');
    case Locked(_, _) => LockedBurns(c, s, i, x, s');
    case Loaded(_, _, _) => LoadedBurns(c, s, i, x, s');
    case Patching(_, _, _, _, _) => LockedBurns(c, s, i, x, s');
    case Snapshot(_, _) => LookerBurns(c, s, i, x, s');
    case Peek(_) => LookerBurns(c, s, i, x, s');
    case _ => WriterBurns(c, s, i, x, s');
  }

  /** Step v of the run does not start an operation. */
  ghost predicate StartsNothing(run: seq<State>, v: nat)
    requires v + 1 < |run|
  {
    forall i :: 0 <= i < |run[v].agents| && run[v].agents[i] == Idle ==>
      i < |run[v + 1].agents| && run[v + 1].agents[i] == Idle
  }

  ghost function Backlog(s: State): int { SumBy(s.agents, Fuel) }

  lemma {:induction false} SumNonNegative(s: seq<Agent>)
    requires forall i :: 0 <= i < |s| ==> Fuel(s[i]) >= 0
    ensures SumBy(s, Fuel) >= 0
    ensures SumBy(s, Fuel) == 0 ==> forall i :: 0 <= i < |s| ==> Fuel(s[i]) == 0
  {
    hide Fuel;
    if s != [] { SumNonNegative(s[..|s| - 1]); }
  }

  lemma StartIsNotIdle(c: Codec, s: State, i: nat, x: Action, s': State)
    requires Step(c, s, i, x, s') && s.agents[i] == Idle
    ensures i < |s'.agents| && s'.agents[i] != Idle
  {
  }

  lemma BacklogShrinks(c: Codec, s: State, i: nat, x: Action, s': State)
    requires Inv(c, s) && Step(c, s, i, x, s') && s.agents[i] != Idle
    ensures Backlog(s') < Backlog(s)
  {
    StepInRange(c, s, i, x, s');
    hide Inv, Step, Fuel, SumBy;
    StepBurns(c, s, i, x, s');
    assert s'.agents == s.agents[i := s'.agents[i]];
    SumUpdate(s.agents, Fuel, i, s'.agents[i]);
  }

  lemma BacklogNext(c: Codec, run: seq<State>, v: nat)
    requires v + 1 < |run| && Inv(c, run[v]) && Next(c, run[v], run[v + 1]) && StartsNothing(run, v)
    ensures Backlog(run[v + 1]) < Backlog(run[v])
  {
    hide Inv, Step, Backlog;
    var i: nat, x :| Step(c, run[v], i, x, run[v + 1]);
    assert i < |run[v].agents| by { StepInRange(c, run[v], i, x, run[v + 1]); }
    if run[v].agents[i] == Idle { StartIsNotIdle(c, run[v], i, x, run[v + 1]); }
    BacklogShrinks(c, run[v], i, x, run[v + 1]);
  }

  /** Termination without fairness: once no new work arrives, every interleaving is over after a
      number of steps fixed in advance. */
  lemma {:induction false} WorkRunsOut(c: Codec, run: seq<State>, t: nat, u: nat)
    requires RoundTrips(c) && Run(c, run) && t <= u < |run|
    requires forall v :: t <= v < u ==> StartsNothing(run, v)
    ensures Backlog(run[u]) + (u - t) <= Backlog(run[t])
  {
    hide Backlog, StartsNothing;
    if t < u {
      hide Run, RoundTrips, Inv, Next;
      WorkRunsOut(c, run, t, u - 1);
      InvAlways(c, run, u - 1);
      RunStep(c, run, u - 1);
      BacklogNext(c, run, u - 1);
    }
  }

  /** EVERY OPERATION FINISHES. Once no new work arrives, every interleaving has at most `Backlog` steps
      left, and when they are used up every agent is idle. */
  lemma EveryRunEnds(c: Codec, run: seq<State>, t: nat, u: nat)
    requires RoundTrips(c) && Run(c, run) && t <= u < |run|
    requires forall v :: t <= v < u ==> StartsNothing(run, v)
    ensures u - t <= Backlog(run[t])
    ensures u - t == Backlog(run[t]) ==> Quiescent(run[u])
  {
    hide StartsNothing, Run, RoundTrips, Inv;
    WorkRunsOut(c, run, t, u);
    InvAlways(c, run, u);
    forall i | 0 <= i < |run[u].agents|
      ensures Fuel(run[u].agents[i]) >= 0 && (Fuel(run[u].agents[i]) == 0 <==> run[u].agents[i] == Idle)
    {
      FuelLeft(c, run[u], i);
    }
    hide Fuel;
    SumNonNegative(run[u].agents);
  }

  // ------------------------------------------------ one operation on its own

  /** How many of the steps from t to u moved agent i. */
  ghost function OwnSteps(run: seq<State>, i: nat, t: nat, u: nat): nat
    requires t <= u < |run| && forall v :: t <= v <= u ==> i < |run[v].agents|
    decreases u - t
  {
    if t == u then 0
    else OwnSteps(run, i, t, u - 1) + if run[u].agents[i] == run[u - 1].agents[i] then 0 else 1
  }

  lemma FuelNext(c: Codec, s: State, s': State, i: nat)
    requires Inv(c, s) && Next(c, s, s') && i < |s.agents| && s.agents[i] != Idle
    ensures i < |s'.agents| && (s'.agents[i] == s.agents[i] || Fuel(s'.agents[i]) < Fuel(s.agents[i]))
  {
    hide Inv, Step, Fuel, LeavesBooks, Settles, Publishes, Serves, Strands, Copies;
    var k, x :| Step(c, s, k, x, s');
    StepInRange(c, s, k, x, s');
    StepBooks(c, s, k, x, s');
    if k == i { StepBurns(c, s, k, x, s'); }
  }

  /** Reads always finish: whatever writers do, and however they are scheduled, an operation is done
      after a bounded number of its own steps. For a read that is five lock-free attempts at most -
      the first and four retries - and one read under the lock. */
  lemma {:induction false} OwnStepsBounded(c: Codec, run: seq<State>, i: nat, t: nat, u: nat)
    requires RoundTrips(c) && Run(c, run) && t <= u < |run|
    requires forall v :: t <= v <= u ==> i < |run[v].agents|
    requires forall v :: t <= v < u ==> run[v].agents[i] != Idle
    ensures OwnSteps(run, i, t, u) + Fuel(run[u].agents[i]) <= Fuel(run[t].agents[i])
  {
    hide Fuel;
    if t < u {
      hide Run, RoundTrips, Inv, Next;
      OwnStepsBounded(c, run, i, t, u - 1);
      InvAlways(c, run, u - 1);
      RunStep(c, run, u - 1);
      FuelNext(c, run[u - 1], run[u - 1 + 1], i);
    }
  }

  lemma StartFuel(c: Codec, s: State, s': State, i: nat)
    requires Inv(c, s) && Next(c, s, s') && i < |s.agents| && i < |s'.agents| && s.agents[i] == Idle
    requires s'.agents[i] != Idle
    ensures Fuel(s'.agents[i]) <= 53277
  {
    hide Inv, LeavesBooks, Settles, Publishes, Serves, Strands, Copies, Step;
    var k: nat, x :| Step(c, s, k, x, s');
    StepInRange(c, s, k, x, s');
    StepBooks(c, s, k, x, s');
    assert k == i;
    StartedFuel(c, s, i, x, s');
  }

  lemma StartedFuel(c: Codec, s: State, i: nat, x: Action, s': State)
    requires Step(c, s, i, x, s') && s.agents[i] == Idle
    ensures i < |s'.agents| && Fuel(s'.agents[i]) <= 53277
  {
  }

  /** In plain numbers: no operation takes more than 53277 steps of its own. */
  lemma OperationIsShort(c: Codec, run: seq<State>, i: nat, t: nat, u: nat)
    requires RoundTrips(c) && Run(c, run) && t < u < |run|
    requires forall v :: t <= v <= u ==> i < |run[v].agents|
    requires run[t].agents[i] == Idle && forall v :: t < v < u ==> run[v].agents[i] != Idle
    ensures OwnSteps(run, i, t + 1, u) <= 53277
  {
    hide Run, RoundTrips, Inv, Next, Fuel;
    if t + 1 < u {
      InvAlways(c, run, t);
      InvAlways(c, run, u);
      RunStep(c, run, t);
      StartFuel(c, run[t], run[t + 1], i);
      OwnStepsBounded(c, run, i, t + 1, u);
      FuelLeft(c, run[u], i);
    }
  }

  // ------------------------------------------------------------- no deadlock

  /** An agent whose next move is to take a stripe somebody else holds. */
  predicate Waits(s: State, i: nat)
    requires i < |s.agents|
  {
    s.agents[i].Want? && Stripe(s.agents[i].blk) in s.locks
  }

  /** An agent that can move on with no copy failing and no operation abandoned. */
  ghost predicate CanStep(c: Codec, s: State, i: nat) {
    exists x: Action, s' :: (x.Go? || x.Refused?) && Step(c, s, i, x, s')
  }

  lemma UnlockedMoves(c: Codec, s: State, i: nat)
    requires |s.index| == |s.hist| && i < |s.agents| && AgentOk(c, s, i) && Holding(s.agents[i]).None? && !Waits(s, i)
    requires s.agents[i].Snapshot? || s.agents[i].Download? ==> |s.hist[s.agents[i].blk]| > 0
    requires s.agents[i] != Idle
    ensures CanStep(c, s, i)
  {
    hide EntGrain, EntMake, CompBlock, DecompBlock, FreshSlot;
    var a := s.agents[i];
    match a
    case Reserve(_, _) => assert Step(c, s, i, Refused, At(s, i, Idle));
    case Upload(_, _, _, _) => UploadMoves(c, s, i);
    case Snapshot(b, fails) =>
      var e := s.index[b];
      if EntClen(e) != 0 {
        assert Step(c, s, i, Go, At(s, i, Download(b, e, Version(s, b), fails, [])));
      } else if fails < MAX_ROUNDS {
        assert Step(c, s, i, Go, Record(s, i, ReadRec(b, Some(ZeroPage()), Version(s, b), Version(s, b)), Idle));
      } else {
        assert Step(c, s, i, Go, At(s, i, Want(b, Fetch)));
      }
    case Download(_, _, _, _, _) => DownloadMoves(c, s, i);
    case Peek(b) => assert Step(c, s, i, Go, At(s, i, if EntClen(s.index[b]) == 0 then Idle else Want(b, Discard)));
    case Want(b, task) => assert Step(c, s, i, Go, Lock(s, i, Stripe(b), Locked(b, task)));
    case Settle(b, _, _, _, _) => SettleMoves(c, s, i);
  }

  lemma UploadMoves(c: Codec, s: State, i: nat)
    requires |s.index| == |s.hist| && i < |s.agents| && AgentOk(c, s, i) && s.agents[i].Upload?
    ensures CanStep(c, s, i)
  {
    var Upload(b, page, g, k) := s.agents[i];
    var bytes := CompBlock(c, page);
    hide CompBlock;
    if k < |bytes| {
      assert Step(c, s, i, Go, Poke(s, i, ALLOC_GRAIN * g + k, bytes[k], Upload(b, page, g, k + 1)));
    } else {
      assert Step(c, s, i, Go, At(s, i, Want(b, Put(page, g))));
    }
  }

  lemma DownloadMoves(c: Codec, s: State, i: nat)
    requires |s.index| == |s.hist| && i < |s.agents| && AgentOk(c, s, i) && s.agents[i].Download?
    requires |s.hist[s.agents[i].blk]| > 0
    ensures CanStep(c, s, i)
  {
    hide EntGrain, EntMake, EntClen, DecompBlock;
    var Download(b, ent, ver, fails, buf) := s.agents[i];
    if |buf| < EntClen(ent) {
      assert Step(c, s, i, Go,
        At(s, i, Download(b, ent, ver, fails, buf + [s.mem[ALLOC_GRAIN * EntGrain(ent) + |buf|]])));
    } else if fails == MAX_ROUNDS {
      assert Step(c, s, i, Go, At(s, i, Want(b, Fetch)));
    } else if s.index[b] == ent {
      assert Step(c, s, i, Go, Record(s, i, ReadRec(b, DecompBlock(c, buf), ver, Version(s, b)), Idle));
    } else {
      assert Step(c, s, i, Go, At(s, i, Snapshot(b, fails + 1)));
    }
  }

  lemma SettleMoves(c: Codec, s: State, i: nat)
    requires i < |s.agents| && s.agents[i].Settle?
    ensures CanStep(c, s, i)
  {
    var a := s.agents[i];
    if a.locked && !a.late { assert Step(c, s, i, Go, Unlock(s, i, Stripe(a.blk), a.(locked := false))); }
    else if a.release.Some? { assert Step(c, s, i, Go, GiveBack(s, i, a.release.value, a.(release := None))); }
    else if a.tally != [] {
      assert Step(c, s, i, Go, At(s, i, a.(tally := a.tally[1..])).(counts := Bump(s.counts, a.tally[0])));
    }
    else if a.locked { assert Step(c, s, i, Go, Unlock(s, i, Stripe(a.blk), Idle)); }
    else { assert Step(c, s, i, Go, At(s, i, Idle)); }
  }

  lemma FetchingMoves(c: Codec, s: State, i: nat)
    requires |s.index| == |s.hist| && i < |s.agents| && AgentOk(c, s, i) && s.agents[i].Fetching?
    requires |s.hist[s.agents[i].blk]| > 0
    ensures CanStep(c, s, i)
  {
    hide EntGrain, EntMake, EntClen, DecompBlock, Splice;
    var Fetching(b, task, was, buf) := s.agents[i];
    var r := DecompBlock(c, buf);
    if |buf| < EntClen(was) {
      assert Step(c, s, i, Go, At(s, i, Fetching(b, task, was, buf + [s.mem[ALLOC_GRAIN * EntGrain(was) + |buf|]])));
    } else if task.Fetch? {
      assert Step(c, s, i, Go, Record(s, i, ReadRec(b, r, Version(s, b), Version(s, b)), Done(b)));
    } else if r.Some? {
      assert Step(c, s, i, Go, At(s, i, Patching(b, task.boff, task.src, Splice(r.value, task.boff, task.src), was)));
    } else {
      assert Step(c, s, i, Go, At(s, i, Done(b)));
    }
  }

  lemma WritingMoves(c: Codec, s: State, i: nat)
    requires |s.index| == |s.hist| == |s.log| && i < |s.agents| && AgentOk(c, s, i) && s.agents[i].Writing?
    ensures CanStep(c, s, i)
  {
    hide EntGrain, EntMake, EntClen, Splice;
    var Writing(b, boff, src, page, was, g, k) := s.agents[i];
    var bytes := CompBlock(c, page);
    hide CompBlock;
    if k < |bytes| {
      assert Step(c, s, i, Go, Poke(s, i, ALLOC_GRAIN * g + k, bytes[k], Writing(b, boff, src, page, was, g, k + 1)));
    } else {
      assert Step(c, s, i, Go, Publish(s, i, b, NextEnt(g, |bytes|, was), PatchPage(boff, src),
                                       Settle(b, true, true, Displaced(was), Debit(was) + Credit(|bytes|))));
    }
  }

  lemma LoadedMoves(c: Codec, s: State, i: nat)
    requires i < |s.agents| && s.agents[i].Loaded? && |s.index| == |s.hist| == |s.log| && AgentOk(c, s, i)
    requires |s.hist[s.agents[i].blk]| > 0
    ensures CanStep(c, s, i)
  {
    hide EntGrain, EntMake, CompBlock, DecompBlock;
    var Loaded(b, task, was) := s.agents[i];
    match task
    case Put(page, g) =>
      var clen := |CompBlock(c, page)|;
      assert Step(c, s, i, Go, Publish(s, i, b, NextEnt(g, clen, was), SetPage(page),
                                       Settle(b, true, false, Displaced(was), Debit(was) + Credit(clen))));
    case Discard =>
      if EntClen(was) == 0 {
        assert Step(c, s, i, Go, At(s, i, Done(b)));
      } else {
        assert Step(c, s, i, Go, Publish(s, i, b, NextEnt(0, 0, was), ClearPage,
                                         Settle(b, true, false, Displaced(was), TrimDebit(was))));
      }
    case Patch(boff, src) =>
      if EntClen(was) == 0 {
        assert Step(c, s, i, Go, At(s, i, Patching(b, boff, src, Splice(ZeroPage(), boff, src), was)));
      } else {
        assert Step(c, s, i, Go, At(s, i, Fetching(b, task, was, [])));
      }
    case Fetch =>
      if EntClen(was) == 0 {
        assert Step(c, s, i, Go, Record(s, i, ReadRec(b, Some(ZeroPage()), Version(s, b), Version(s, b)), Done(b)));
      } else {
        assert Step(c, s, i, Go, At(s, i, Fetching(b, task, was, [])));
      }
  }

  lemma LockedMoves(c: Codec, s: State, i: nat)
    requires |s.index| == |s.hist| == |s.log| && i < |s.agents| && AgentOk(c, s, i) && Holding(s.agents[i]).Some?
    requires s.agents[i].Loaded? || s.agents[i].Fetching? ==> |s.hist[s.agents[i].blk]| > 0
    ensures CanStep(c, s, i)
  {
    hide EntGrain, EntMake, CompBlock, DecompBlock, FreshSlot, CanStep;
    match s.agents[i]
    case Locked(b, task) => StepsTo(c, s, i, Go, At(s, i, Loaded(b, task, s.index[b])));
    case Loaded(_, _, _) => LoadedMoves(c, s, i);
    case Fetching(_, _, _, _) => FetchingMoves(c, s, i);
    case Patching(b, _, _, _, _) => StepsTo(c, s, i, Refused, At(s, i, Done(b)));
    case Writing(_, _, _, _, _, _, _) => WritingMoves(c, s, i);
    case Settle(_, _, _, _, _) => SettleMoves(c, s, i);
  }

  lemma StepsTo(c: Codec, s: State, i: nat, x: Action, s': State)
    requires Step(c, s, i, x, s') && (x.Go? || x.Refused?)
    ensures CanStep(c, s, i)
  {
  }

  /** A running agent can move unless it is waiting for a stripe - and then the one agent that holds the
      stripe, on a block that differs from its own by a multiple of 4096, can move. */
  lemma MovesOrWaitsForAMover(c: Codec, s: State, i: nat)
    requires Inv(c, s) && i < |s.agents| && s.agents[i] != Idle
    ensures Waits(s, i) ==>
              var j := s.locks[Stripe(s.agents[i].blk)];
              j < |s.agents| && s.agents[j] != Idle && Holding(s.agents[j]) == Some(Stripe(s.agents[i].blk))
                && s.agents[j].blk % 4096 == s.agents[i].blk % 4096 && CanStep(c, s, j)
    ensures !Waits(s, i) ==> CanStep(c, s, i)
  {
    assert LocksOk(s);
    var j := if Waits(s, i) then s.locks[Stripe(s.agents[i].blk)] else i;
    assert j < |s.agents| && AgentOk(c, s, j) && |s.index| == |s.hist| == |s.log|;
    if s.agents[j] != Idle { BlockFact(c, s, s.agents[j].blk); }
    hide Inv, EntGrain, EntMake, EntClen, CompBlock, DecompBlock, FreshSlot, CanStep, LocalOk, BlockOk;
    if Holding(s.agents[j]).Some? { LockedMoves(c, s, j); } else { UnlockedMoves(c, s, j); }
  }

  /** NO DEADLOCK. In every state of every run, if any operation is unfinished then some unfinished
      operation can take a step. */
  lemma NoDeadlock(c: Codec, run: seq<State>, t: nat)
    requires RoundTrips(c) && Run(c, run) && t < |run| && !Quiescent(run[t])
    ensures exists i :: 0 <= i < |run[t].agents| && run[t].agents[i] != Idle && CanStep(c, run[t], i)
  {
    InvAlways(c, run, t);
    hide Run, RoundTrips, Inv, CanStep;
    var i :| 0 <= i < |run[t].agents| && run[t].agents[i] != Idle;
    MovesOrWaitsForAMover(c, run[t], i);
  }
}
