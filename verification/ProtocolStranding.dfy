/** Leaks, exactly: a slot is lost for good precisely when a whole-block upload fails. */
module ProtocolStranding {
  import opened Blocks
  import opened Protocol
  import opened ProtocolInv
  import opened ProtocolSafety
  import opened ProtocolBooks
  import opened ProtocolTheorems

  ghost predicate IsStranded(s: State, g: nat) { g in s.slots && g in s.owner && s.owner[g] == Stranded }

  /** No stranded slot changes hands. */
  ghost predicate KeepsStranded(s: State, s': State) {
    forall g :: g in s.owner && s.owner[g] == Stranded ==> g in s'.owner && s'.owner[g] == Stranded
  }

  lemma GrabStrands(c: Codec, s: State, i: nat, x: Action, s': State)
    requires Step(c, s, i, x, s') && (s.agents[i].Reserve? || s.agents[i].Patching?) && s.owner.Keys == s.slots.Keys
    ensures KeepsStranded(s, s')
  {
    hide CompBlock;
  }

  lemma SettleStrands(c: Codec, s: State, i: nat, x: Action, s': State)
    requires Step(c, s, i, x, s') && s.agents[i].Settle?
    requires s.agents[i].release.Some? ==> OwnedBy(s, s.agents[i].release.value, i)
    ensures KeepsStranded(s, s')
  {
    hide Bump, Stripe;
  }

  /** Storing an entry moves only the agent's own slot and the one it displaces. */
  lemma PublishStrands(s: State, i: nat, b: nat, ent: nat, e: Edit, a: Agent)
    requires i < |s.agents| && b < |s.index| == |s.hist| == |s.log| && |s.hist[b]| > 0 && EditOk(e)
    requires EntClen(ent) != 0 ==> OwnedBy(s, EntGrain(ent), i)
    requires EntClen(s.index[b]) != 0 ==> EntGrain(s.index[b]) in s.owner && s.owner[EntGrain(s.index[b])] == InIndex(b)
    ensures KeepsStranded(s, Publish(s, i, b, ent, e, a))
  {
    hide EntClen, EntGrain, Apply;
  }

  /** A step that stores an entry is a publish of the agent's own edit; other steps move no owner. */
  lemma StoreShape(c: Codec, s: State, i: nat, x: Action, s': State)
    requires Step(c, s, i, x, s') && (s.agents[i].Loaded? || s.agents[i].Writing?)
    ensures var a := s.agents[i];
            || s'.owner == s.owner
            || (&& EditOf(a).Some? && EditOk(EditOf(a).value) && i < |s'.agents|
                && a.blk < |s.index| == |s.hist| == |s.log| && |s.hist[a.blk]| > 0
                && s' == Publish(s, i, a.blk, NextEnt(NewGrain(a), NewClen(c, a), a.was), EditOf(a).value,
                   s'.agents[i]))
  {
    hide EntClen, EntGrain, NextEnt, CompBlock, DecompBlock, Apply, Splice;
  }

  lemma StoreStrands(c: Codec, s: State, i: nat, x: Action, s': State)
    requires Inv(c, s) && Step(c, s, i, x, s') && (s.agents[i].Loaded? || s.agents[i].Writing?)
    ensures KeepsStranded(s, s')
  {
    var a := s.agents[i];
    assert AgentOk(c, s, i);
    StoreShape(c, s, i, x, s');
    BlockFact(c, s, a.blk);
    hide Inv, Step, EntClen, EntGrain, EntMake, NextEnt, CompBlock, DecompBlock, Stored, KeepsStranded, Publish;
    if s'.owner == s.owner {
      SameOwner(s, s');
    } else {
      NextEntryOf(c, s, a.blk, NewGrain(a), NewClen(c, a));
      PublishStrands(s, i, a.blk, NextEnt(NewGrain(a), NewClen(c, a), a.was), EditOf(a).value, s'.agents[i]);
    }
  }

  lemma SameOwner(s: State, s': State)
    requires s'.owner == s.owner
    ensures KeepsStranded(s, s')
  {
  }

  lemma OtherStrands(c: Codec, s: State, i: nat, x: Action, s': State)
    requires Step(c, s, i, x, s')
    requires || s.agents[i].Idle? || s.agents[i].Upload? || s.agents[i].Snapshot? || s.agents[i].Download?
             || s.agents[i].Peek? || s.agents[i].Want? || s.agents[i].Locked? || s.agents[i].Fetching?
    ensures KeepsStranded(s, s')
  {
    hide EntClen, EntGrain, CompBlock, DecompBlock, Splice, Stripe;
  }

  lemma StepStrands(c: Codec, s: State, i: nat, x: Action, s': State)
    requires Inv(c, s) && Step(c, s, i, x, s')
    ensures KeepsStranded(s, s')
  {
    assert AgentOk(c, s, i);
    assert s.owner.Keys == s.slots.Keys;
    hide Inv, Step, KeepsStranded;
    match s.agents[i]
    case Reserve(_, _) => GrabStrands(c, s, i, x, s');
    case Patching(_, _, _, _, _) => GrabStrands(c, s, i, x, s');
    case Settle(_, _, _, _, _) => SettleStrands(c, s, i, x, s');
    case Loaded(_, _, _) => StoreStrands(c, s, i, x, s');
    case Writing(_, _, _, _, _, _, _) => StoreStrands(c, s, i, x, s');
    case _ => OtherStrands(c, s, i, x, s');
  }

  lemma StrandedNext(c: Codec, s: State, s': State, g: nat)
    requires Inv(c, s) && Inv(c, s') && Next(c, s, s') && IsStranded(s, g)
    ensures IsStranded(s', g)
  {
    assert s'.owner.Keys == s'.slots.Keys;
    hide Inv, Step;
    var i: nat, x :| Step(c, s, i, x, s');
    StepStrands(c, s, i, x, s');
  }

  /** A stranded slot stays outstanding, and stranded, for the rest of the run. */
  lemma {:induction false} StrandedForever(c: Codec, run: seq<State>, t: nat, u: nat, g: nat)
    requires RoundTrips(c) && Run(c, run) && t <= u < |run| && IsStranded(run[t], g)
    ensures IsStranded(run[u], g)
  {
    hide Run, RoundTrips, Inv, Next, IsStranded;
    if t < u {
      StrandedForever(c, run, t, u - 1, g);
      InvAlways(c, run, u - 1);
      InvAlways(c, run, u);
      RunStep(c, run, u - 1);
      StrandedNext(c, run[u - 1], run[u - 1 + 1], g);
    }
  }

  lemma FailedUploadStrands(c: Codec, s: State, s': State)
    requires Inv(c, s) && Inv(c, s') && Next(c, s, s') && !CleanNext(c, s, s')
    ensures exists g :: IsStranded(s', g)
  {
    assert s'.owner.Keys == s'.slots.Keys;
    hide Inv;
    var i: nat, x :| Step(c, s, i, x, s');
    assert s.agents[i].Upload? && x.CopyFails?;
    assert IsStranded(s', s.agents[i].grain);
  }

  /** THE LEAK, EXACTLY. Nothing is stranded at time u if and only if no whole-block upload failed before
      it: any other failure, refusal or abandoned write gives its slot back. */
  lemma LeakFreeIff(c: Codec, run: seq<State>, u: nat)
    requires RoundTrips(c) && Run(c, run) && u < |run|
    ensures NothingStranded(run[u]) <==> forall t :: 0 <= t < u ==> CleanAt(c, run, t)
  {
    hide RoundTrips, Inv, Next, CleanNext;
    if forall t :: 0 <= t < u ==> CleanAt(c, run, t) {
      CleanPrefix(c, run, u);
      CleanRunStrandsNothing(c, run[..u + 1], u);
    }
    forall t | 0 <= t < u && !CleanAt(c, run, t)
      ensures !NothingStranded(run[u])
    {
      InvAlways(c, run, t);
      InvAlways(c, run, t + 1);
      RunStep(c, run, t);
      hide Run;
      FailedUploadStrands(c, run[t], run[t + 1]);
      var g :| IsStranded(run[t + 1], g);
      StrandedForever(c, run, t + 1, u, g);
    }
  }

  lemma CleanPrefix(c: Codec, run: seq<State>, u: nat)
    requires Run(c, run) && u < |run| && forall t :: 0 <= t < u ==> CleanAt(c, run, t)
    ensures CleanRun(c, run[..u + 1])
  {
    hide Init, Next, CleanNext;
    var r := run[..u + 1];
    forall t | 0 <= t < |r| - 1
      ensures StepAt(c, r, t) && CleanAt(c, r, t)
    {
      assert StepAt(c, run, t) && CleanAt(c, run, t);
    }
  }
}
