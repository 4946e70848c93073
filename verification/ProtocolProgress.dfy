/** The guarantees are about something: from any state of any run, any operation can be started and brought
    to its end without a failure - a write as long as a page of heap is free. */
module ProtocolProgress {
  import opened Blocks
  import opened Protocol
  import opened ProtocolInv
  import opened ProtocolSafety
  import opened ProtocolTheorems
  import opened ProtocolDelivery
  import opened ProtocolReads
  import opened ProtocolLiveness
  import Coupled

  /** The operations the store offers: write a block, write part of one, read it, discard it. */
  predicate Offered(a: Agent, nblocks: nat) {
    match a
    case Reserve(b, _) => b < nblocks
    case Want(b, Patch(boff, src)) => b < nblocks && boff + |src| <= 4096
    case Snapshot(b, fails) => b < nblocks && fails == 0
    case Peek(b) => b < nblocks
    case _ => false
  }

  /** The operation still has to get a slot. */
  predicate NeedsSlot(a: Agent) {
    match a
    case Reserve(_, _) => true
    case Want(_, task) => task.Patch?
    case Locked(_, task) => task.Patch?
    case Loaded(_, task, _) => task.Patch?
    case Fetching(_, task, _, _) => task.Patch?
    case Patching(_, _, _, _, _) => true
    case _ => false
  }

  lemma TraceGrows(c: Codec, run: seq<State>, who: seq<nat>, acts: seq<Action>, i: nat, x: Action, s': State)
    requires Trace(c, run, who, acts) && Step(c, run[|run| - 1], i, x, s')
    ensures Trace(c, run + [s'], who + [i], acts + [x])
  {
    hide Step, Init;
    var r, w, a := run + [s'], who + [i], acts + [x];
    forall t | 0 <= t < |w|
      ensures ActAt(c, r, w, a, t)
    {
      if t < |who| { assert ActAt(c, run, who, acts, t); }
    }
  }

  /** Unless somebody takes a slot, a free one stays free. */
  lemma FreshKept(c: Codec, s: State, i: nat, x: Action, s': State, g: nat)
    requires Step(c, s, i, x, s') && !x.Got? && FreshSlot(s, g, CBLK_SIZE)
    ensures FreshSlot(s', g, CBLK_SIZE)
  {
    StepInRange(c, s, i, x, s');
    Coupled.StepMoves(c, s, i, x, s');
    hide Step, Coupled.AskOf;
    assert forall h :: h in s'.slots ==> h in s.slots && s'.slots[h] == s.slots[h];
  }

  /** An operation gets its slot once. */
  lemma NeedsNext(c: Codec, s: State, i: nat, x: Action, s': State)
    requires Step(c, s, i, x, s') && s.agents[i] != Idle && i < |s'.agents| && NeedsSlot(s'.agents[i])
    ensures NeedsSlot(s.agents[i]) && !x.Got?
  {
    hide Step;
    StepInRange(c, s, i, x, s');
    match s.agents[i]
    case Loaded(_, _, _) => LoadedNeeds(c, s, i, x, s');
    case Settle(_, _, _, _, _) => SettleNoNeed(c, s, i, x, s');
    case Fetching(_, _, _, _) => FetchingNeeds(c, s, i, x, s');
    case Writing(_, _, _, _, _, _, _) => WritingNoNeed(c, s, i, x, s');
    case _ => OtherNeeds(c, s, i, x, s');
  }

  lemma LoadedNeeds(c: Codec, s: State, i: nat, x: Action, s': State)
    requires Step(c, s, i, x, s') && s.agents[i].Loaded? && i < |s'.agents| && NeedsSlot(s'.agents[i])
    ensures NeedsSlot(s.agents[i]) && !x.Got?
  {
    hide CompBlock, EntClen, EntGrain, NextEnt, Apply, Splice, Debit, Credit, TrimDebit;
  }

  lemma FetchingNeeds(c: Codec, s: State, i: nat, x: Action, s': State)
    requires Step(c, s, i, x, s') && s.agents[i].Fetching? && i < |s'.agents| && NeedsSlot(s'.agents[i])
    ensures NeedsSlot(s.agents[i]) && !x.Got?
  {
    hide EntClen, EntGrain, DecompBlock, Splice;
  }

  lemma WritingNoNeed(c: Codec, s: State, i: nat, x: Action, s': State)
    requires Step(c, s, i, x, s') && s.agents[i].Writing? && i < |s'.agents|
    ensures !NeedsSlot(s'.agents[i])
  {
    hide CompBlock, EntClen, EntGrain, NextEnt, Apply, Splice, Debit, Credit;
  }

  lemma SettleNoNeed(c: Codec, s: State, i: nat, x: Action, s': State)
    requires Step(c, s, i, x, s') && s.agents[i].Settle? && i < |s'.agents|
    ensures !NeedsSlot(s'.agents[i])
  {
    SettleStays(s, i, x, s');
  }

  lemma OtherNeeds(c: Codec, s: State, i: nat, x: Action, s': State)
    requires Step(c, s, i, x, s') && i < |s'.agents| && NeedsSlot(s'.agents[i])
    requires s.agents[i].Reserve? || s.agents[i].Upload? || s.agents[i].Snapshot? || s.agents[i].Download?
             || s.agents[i].Peek? || s.agents[i].Want? || s.agents[i].Locked? || s.agents[i].Patching?
    ensures NeedsSlot(s.agents[i]) && !x.Got?
  {
    hide CompBlock, FreshSlot, EntClen, EntGrain, DecompBlock, Stripe;
  }

  /** Taking a free page. */
  lemma TakesSlot(c: Codec, s: State, i: nat, g: nat) returns (s': State)
    requires i < |s.agents| && (s.agents[i].Reserve? || s.agents[i].Patching?) && FreshSlot(s, g, CBLK_SIZE)
    ensures Step(c, s, i, Got(g, CBLK_SIZE), s')
  {
    hide FreshSlot;
    match s.agents[i]
    case Reserve(b, page) => s' := Grab(s, i, g, CBLK_SIZE, Upload(b, page, g, 0));
    case Patching(b, boff, src, page, was) => s' := Grab(s, i, g, CBLK_SIZE, Writing(b, boff, src, page, was, g, 0));
  }

  lemma OnlyAskersAreRefused(c: Codec, s: State, i: nat, s': State)
    requires Step(c, s, i, Refused, s') && s.agents[i] != Idle
    ensures s.agents[i].Reserve? || s.agents[i].Patching?
  {
    hide CompBlock, FreshSlot, EntClen, EntGrain, DecompBlock, Stripe, NextEnt, Apply, Splice, Bump, Debit, Credit;
  }

  /** A next step on the way: by agent i without a failure, or by the agent it waits for. */
  lemma StepOnTheWay(c: Codec, s: State, i: nat, g: nat) returns (j: nat, x: Action, s': State)
    requires Inv(c, s) && i < |s.agents| && s.agents[i] != Idle
    requires NeedsSlot(s.agents[i]) ==> FreshSlot(s, g, CBLK_SIZE)
    ensures Step(c, s, j, x, s') && j < |s.agents| && s.agents[j] != Idle
    ensures j == i ==> Smooth(x)
    ensures j != i ==> !x.Got?
  {
    hide Inv, Step, FreshSlot;
    MovesOrWaitsForAMover(c, s, i);
    if Waits(s, i) {
      j := s.locks[Stripe(s.agents[i].blk)];
      x, s' :| (x.Go? || x.Refused?) && Step(c, s, j, x, s');
      if j == i { OnlyAskers(c, s, i, x, s'); }
    } else {
      j := i;
      if s.agents[i].Reserve? || s.agents[i].Patching? {
        x := Got(g, CBLK_SIZE);
        s' := TakesSlot(c, s, i, g);
      } else {
        x, s' :| (x.Go? || x.Refused?) && Step(c, s, i, x, s');
        OnlyAskers(c, s, i, x, s');
      }
    }
  }

  lemma OnlyAskers(c: Codec, s: State, i: nat, x: Action, s': State)
    requires Step(c, s, i, x, s') && (x.Go? || x.Refused?) && i < |s.agents| && s.agents[i] != Idle
    requires !s.agents[i].Reserve? && !s.agents[i].Patching?
    ensures x.Go?
  {
    if x.Refused? { OnlyAskersAreRefused(c, s, i, s'); }
  }

  lemma BacklogIsNat(c: Codec, s: State)
    requires Inv(c, s)
    ensures Backlog(s) >= 0
  {
    hide Inv;
    forall i | 0 <= i < |s.agents|
      ensures Fuel(s.agents[i]) >= 0
    {
      FuelLeft(c, s, i);
    }
    hide Fuel;
    SumNonNegative(s.agents);
  }

  /** A run in which agent i is in the middle of an operation started at t0. */
  ghost predicate Midway(c: Codec, run: seq<State>, who: seq<nat>, acts: seq<Action>, i: nat, t0: nat, g: nat) {
    && Trace(c, run, who, acts) && t0 + 1 < |run| && Running(run, who, acts, i, t0, |run| - 1)
    && run[|run| - 1].agents[i] != Idle
    && (NeedsSlot(run[|run| - 1].agents[i]) ==> FreshSlot(run[|run| - 1], g, CBLK_SIZE))
  }

  /** One step further. */
  lemma GoOn(c: Codec, run: seq<State>, who: seq<nat>, acts: seq<Action>, i: nat, t0: nat, g: nat)
      returns (j: nat, x: Action, s': State)
    requires RoundTrips(c) && Midway(c, run, who, acts, i, t0, g)
    ensures Inv(c, run[|run| - 1]) && Backlog(run[|run| - 1]) >= 0 && Backlog(s') < Backlog(run[|run| - 1])
    ensures Trace(c, run + [s'], who + [j], acts + [x]) && i < |s'.agents|
    ensures Running(run + [s'], who + [j], acts + [x], i, t0, |run|)
    ensures s'.agents[i] != Idle ==> Midway(c, run + [s'], who + [j], acts + [x], i, t0, g)
  {
    hide Trace, RoundTrips, Inv, Step, FreshSlot, Backlog, Run, Smooth;
    TraceIsRun(c, run, who, acts);
    var s := run[|run| - 1];
    InvAlways(c, run, |run| - 1);
    BacklogIsNat(c, s);
    j, x, s' := StepOnTheWay(c, s, i, g);
    BacklogShrinks(c, s, j, x, s');
    TraceGrows(c, run, who, acts, j, x, s');
    StepBurns(c, s, j, x, s');
    RunningGrows(run, who, acts, i, t0, j, x, s');
    if s'.agents[i] != Idle && NeedsSlot(s'.agents[i]) {
      if j == i { NeedsNext(c, s, i, x, s'); }
      FreshKept(c, s, j, x, s', g);
    }
  }

  lemma RunningGrows(run: seq<State>, who: seq<nat>, acts: seq<Action>, i: nat, t0: nat, j: nat, x: Action, s': State)
    requires |run| > 0 && t0 < |run| - 1 && Running(run, who, acts, i, t0, |run| - 1) && i < |s'.agents|
    requires run[|run| - 1].agents[i] != Idle && (j == i ==> Smooth(x))
    ensures Running(run + [s'], who + [j], acts + [x], i, t0, |run|)
  {
    hide Smooth;
  }

  lemma {:induction false} Drive(c: Codec, run: seq<State>, who: seq<nat>, acts: seq<Action>, i: nat, t0: nat, g: nat)
      returns (run': seq<State>, who': seq<nat>, acts': seq<Action>)
    requires RoundTrips(c) && Midway(c, run, who, acts, i, t0, g)
    ensures Trace(c, run', who', acts') && run <= run' && who <= who' && acts <= acts' && |run| < |run'|
    ensures Operation(run', who', acts', i, t0, |run'| - 1)
    decreases Backlog(run[|run| - 1])
  {
    hide Trace, RoundTrips, Midway, Running, Backlog, Inv;
    assert |run| > 0 by { MidwayTimes(c, run, who, acts, i, t0, g); }
    var j, x, s' := GoOn(c, run, who, acts, i, t0, g);
    run', who', acts' := run + [s'], who + [j], acts + [x];
    if s'.agents[i] != Idle {
      run', who', acts' := Drive(c, run', who', acts', i, t0, g);
    } else {
      RunningEnds(run', who', acts', i, t0);
    }
  }

  lemma MidwayTimes(c: Codec, run: seq<State>, who: seq<nat>, acts: seq<Action>, i: nat, t0: nat, g: nat)
    requires Midway(c, run, who, acts, i, t0, g)
    ensures t0 + 1 < |run| && |who| == |acts| == |run| - 1
  {
    hide Trace, FreshSlot;
  }

  lemma RunningEnds(run: seq<State>, who: seq<nat>, acts: seq<Action>, i: nat, t0: nat)
    requires |run| > 1 && Running(run, who, acts, i, t0, |run| - 1) && run[|run| - 1].agents[i] == Idle
    ensures Operation(run, who, acts, i, t0, |run| - 1)
  {
  }

  lemma StartSteps(c: Codec, s: State, i: nat, a: Agent)
    requires i < |s.agents| && s.agents[i] == Idle && Offered(a, |s.index|)
    ensures Step(c, s, i, Start(a), At(s, i, a))
  {
  }

  /** EVERY OPERATION CAN BE DONE. From the end of any run, with agent i idle, any operation can be started and
      brought to its end by steps of the agents, with no failure of its own - for a write, as long as a page
      of heap is free. So a read can always return its page, a trim can always take effect, and a write
      can always be published while there is room. */
  lemma EveryOperationCanBeDone(c: Codec, run: seq<State>, who: seq<nat>, acts: seq<Action>, i: nat, a: Agent, g: nat)
      returns (run': seq<State>, who': seq<nat>, acts': seq<Action>)
    requires RoundTrips(c) && Trace(c, run, who, acts)
    requires i < |run[|run| - 1].agents| && run[|run| - 1].agents[i] == Idle
    requires Offered(a, |run[|run| - 1].index|)
    requires NeedsSlot(a) ==> FreshSlot(run[|run| - 1], g, CBLK_SIZE)
    ensures Trace(c, run', who', acts') && run <= run' && who <= who' && acts <= acts'
    ensures Operation(run', who', acts', i, |run| - 1, |run'| - 1) && acts'[|run| - 1] == Start(a)
  {
    hide Trace, RoundTrips;
    TraceTimes(c, run, who, acts);
    var t0 := |run| - 1;
    var s' := At(run[t0], i, a);
    StartSteps(c, run[t0], i, a);
    TraceGrows(c, run, who, acts, i, Start(a), s');
    run', who', acts' := Drive(c, run + [s'], who + [i], acts + [Start(a)], i, t0, g);
  }

  lemma TraceTimes(c: Codec, run: seq<State>, who: seq<nat>, acts: seq<Action>)
    requires Trace(c, run, who, acts)
    ensures |who| == |acts| == |run| - 1
  {
    hide Init;
  }
}
