/** Who takes up the heap: live blocks, reservations, displaced slots and stranded ones, by head count. */
module ProtocolCensus {
  import opened Blocks
  import opened Sums
  import opened Protocol
  import opened ProtocolInv
  import opened ProtocolSafety
  import opened ProtocolTheorems
  import opened ProtocolStranding

  /** Blocks that hold data. */
  ghost function LiveIndex(s: State): set<nat> { set b | 0 <= b < |s.index| && EntClen(s.index[b]) != 0 }

  /** A slot its publish displaced, not yet freed: the counters it owes are still unsettled. */
  predicate HoldsDisplaced(a: Agent) { a.Settle? && a.release.Some? && a.tally != [] }

  /** A slot reserved for a page not published yet, or to be given back unpublished. */
  predicate HoldsReservation(a: Agent) { AgentSlot(a).Some? && !HoldsDisplaced(a) }

  ghost function Reserving(s: State): set<nat> { set i | 0 <= i < |s.agents| && HoldsReservation(s.agents[i]) }

  ghost function Displacing(s: State): set<nat> { set i | 0 <= i < |s.agents| && HoldsDisplaced(s.agents[i]) }

  ghost function StrandedSlots(s: State): set<nat> { set g | g in s.owner && s.owner[g] == Stranded }

  ghost function ByIndex(s: State): map<nat, nat> { map g | g in s.owner && s.owner[g].InIndex? :: s.owner[g].blk }

  ghost function ByAgents(s: State): map<nat, nat> { map g | g in s.owner && s.owner[g].ByAgent? :: s.owner[g].id }

  lemma LiveBlocksOwn(c: Codec, s: State)
    requires Inv(c, s)
    ensures |ByIndex(s).Keys| == |LiveIndex(s)|
  {
    hide EntClen, EntGrain, EntMake, SlotsOk, DecompBlock, HistOk, LocksOk, AgentsOk, ServedOk;
    var f := ByIndex(s);
    forall g | g in f
      ensures f[g] in LiveIndex(s) && EntGrain(s.index[f[g]]) == g
    {
      assert OwnerOk(s, g);
    }
    forall b | b in LiveIndex(s)
      ensures b in f.Values
    {
      assert BlockOk(c, s, b);
      assert f[EntGrain(s.index[b])] == b;
    }
    hide Inv;
    assert f.Values == LiveIndex(s);
    PairedOff(f);
  }

  lemma AgentsOwn(c: Codec, s: State)
    requires Inv(c, s)
    ensures |ByAgents(s).Keys| == |Reserving(s)| + |Displacing(s)|
  {
    hide EntClen, EntGrain, EntMake, SlotsOk, DecompBlock, HistOk, LocksOk, BlockOk, ServedOk, LocalOk;
    var f := ByAgents(s);
    forall g | g in f
      ensures f[g] in Reserving(s) + Displacing(s) && AgentSlot(s.agents[f[g]]) == Some(g)
    {
      assert OwnerOk(s, g);
    }
    forall i | i in Reserving(s) + Displacing(s)
      ensures i in f.Values
    {
      assert AgentOk(c, s, i);
      assert f[AgentSlot(s.agents[i]).value] == i;
    }
    hide Inv;
    assert f.Values == Reserving(s) + Displacing(s);
    assert Reserving(s) !! Displacing(s);
    PairedOff(f);
  }

  /** Every outstanding slot is exactly one of: a live block's, an agent's reservation, an agent's displaced
      slot, or stranded. */
  lemma SlotCensus(c: Codec, s: State)
    requires Inv(c, s)
    ensures |s.slots| == |LiveIndex(s)| + |Reserving(s)| + |Displacing(s)| + |StrandedSlots(s)|
  {
    LiveBlocksOwn(c, s);
    AgentsOwn(c, s);
    assert s.owner.Keys == s.slots.Keys;
    hide *;
    OwnersByKind(s);
    assert |s.slots| == |s.slots.Keys|;
  }

  lemma OwnersByKind(s: State)
    ensures |s.owner.Keys| == |ByIndex(s).Keys| + |ByAgents(s).Keys| + |StrandedSlots(s)|
  {
    var a, b, d := ByIndex(s).Keys, ByAgents(s).Keys, StrandedSlots(s);
    assert s.owner.Keys == a + b + d;
    assert a !! b && (a + b) !! d;
    ThreeParts(a, b, d);
  }

  lemma ThreeParts(a: set<nat>, b: set<nat>, d: set<nat>)
    requires a !! b && (a + b) !! d
    ensures |a + b + d| == |a| + |b| + |d|
  {
  }

  /** Once every operation has finished, the outstanding slots are exactly the indexed and the stranded. */
  lemma QuiescentSlots(c: Codec, run: seq<State>, t: nat, g: nat)
    requires RoundTrips(c) && Run(c, run) && t < |run| && Quiescent(run[t])
    ensures g in run[t].slots <==> IsStranded(run[t], g) || exists b :: Claims(run[t], InIndex(b), g)
  {
    OwnershipPartition(c, run, t);
    var s := run[t];
    hide Run, RoundTrips, EntClen, EntGrain, SlotsOk;
    if g in s.slots {
      var o :| Claims(s, o, g);
      InvAlways(c, run, t);
      ClaimIsOwner(c, s, o, g);
      hide Inv;
      if o.InIndex? { assert Claims(s, InIndex(o.blk), g); }
    }
  }
}
