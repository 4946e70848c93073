/** The store's counters. They are bumped outside the stripe lock, so they lag the index; what holds
    at every instant is counter + changes still owed == recomputation from the index. */
module ProtocolCounts {
  import opened Blocks
  import opened Sums
  import opened SlotTotals
  import opened Protocol
  import opened ProtocolInv
  import opened ProtocolSafety
  import opened ProtocolBooks
  import opened ProtocolTheorems

  /** What one entry of stored length clen contributes to a counter. */
  function Weight(m: Meter, clen: nat): int {
    match m
    case LiveBlocks => if clen != 0 then 1 else 0
    case CodecBytes => clen
    case RawBlocks => if clen == CBLK_SIZE then 1 else 0
    case TrimBlocks => 0
  }

  function WeightBy(m: Meter): nat -> int { (e: nat) => Weight(m, EntClen(e)) }

  function Owing(m: Meter, tally: seq<Delta>): int {
    if tally == [] then 0 else (if tally[0].meter == m then tally[0].amount else 0) + Owing(m, tally[1..])
  }

  function OwingBy(m: Meter): Agent -> int { (a: Agent) => Owing(m, TallyOf(a)) }

  /** A counter recomputed: from the index, or from the trims published. */
  ghost function Recount(s: State, m: Meter): int {
    if m == TrimBlocks then s.trims else SumBy(s.index, WeightBy(m))
  }

  ghost predicate Counted(s: State, m: Meter) {
    Reading(s.counts, m) + SumBy(s.agents, OwingBy(m)) == Recount(s, m)
  }

  lemma {:induction false} OwingAppend(m: Meter, a: seq<Delta>, b: seq<Delta>)
    ensures Owing(m, a + b) == Owing(m, a) + Owing(m, b)
  {
    if a == [] {
      assert a + b == b;
    } else {
      assert (a + b)[1..] == a[1..] + b;
      OwingAppend(m, a[1..], b);
    }
  }

  lemma OwingOne(m: Meter, d: Delta)
    ensures Owing(m, [d]) == if d.meter == m then d.amount else 0
  {
    assert [d][1..] == [];
  }

  lemma DebitOwes(m: Meter, was: nat)
    ensures Owing(m, Debit(was)) ==
            if EntClen(was) == 0 then (if m == LiveBlocks then 1 else 0)
            else if m == CodecBytes || m == RawBlocks then 0 - Weight(m, EntClen(was)) else 0
  {
    hide EntClen;
    if EntClen(was) == 0 {
      OwingOne(m, Delta(LiveBlocks, 1));
    } else {
      var x, y := [Delta(CodecBytes, 0 - EntClen(was))], [Delta(RawBlocks, -1)];
      OwingOne(m, x[0]);
      OwingOne(m, y[0]);
      OwingAppend(m, x, y);
      OwingAppend(m, x, []);
    }
  }

  lemma CreditOwes(m: Meter, clen: nat)
    ensures Owing(m, Credit(clen)) == if m == CodecBytes || m == RawBlocks then Weight(m, clen) else 0
  {
    var x, y := [Delta(CodecBytes, clen)], [Delta(RawBlocks, 1)];
    OwingOne(m, x[0]);
    OwingOne(m, y[0]);
    OwingAppend(m, x, y);
    OwingAppend(m, x, []);
  }

  /** What a publish owes is exactly how far it moved the recomputed counter. */
  lemma OwedIsTheDifference(m: Meter, e: Edit, was: nat, clen: nat)
    requires e.ClearPage? ==> clen == 0 && EntClen(was) != 0
    requires !e.ClearPage? ==> clen != 0
    ensures Owing(m, Owed(e, was, clen)) ==
            if m == TrimBlocks then (if e.ClearPage? then 1 else 0) else Weight(m, clen) - Weight(m, EntClen(was))
  {
    DebitOwes(m, was);
    hide EntClen, Debit, Credit;
    if e.ClearPage? {
      var x, y := Delta(LiveBlocks, -1), Delta(TrimBlocks, 1);
      assert [x, y] == [x] + [y];
      OwingOne(m, x);
      OwingOne(m, y);
      OwingAppend(m, [x], [y]);
      OwingAppend(m, Debit(was), [x, y]);
    } else {
      CreditOwes(m, clen);
      OwingAppend(m, Debit(was), Credit(clen));
    }
  }

  lemma AgentSwap(m: Meter, s: State, i: nat, s': State)
    requires i < |s.agents| == |s'.agents| && forall j :: 0 <= j < |s.agents| && j != i ==> s'.agents[j] == s.agents[j]
    ensures SumBy(s'.agents, OwingBy(m)) ==
            SumBy(s.agents, OwingBy(m)) - Owing(m, TallyOf(s.agents[i])) + Owing(m, TallyOf(s'.agents[i]))
  {
    assert s'.agents == s.agents[i := s'.agents[i]];
    SumUpdate(s.agents, OwingBy(m), i, s'.agents[i]);
  }

  /** An agent about to store an entry holds a well-formed one. */
  lemma AboutToPublish(c: Codec, s: State, i: nat)
    requires Inv(c, s) && i < |s.agents| && EditOf(s.agents[i]).Some?
    ensures var a := s.agents[i];
            && a.blk < |s.index| && a.was == s.index[a.blk] && TallyOf(a) == []
            && EntClen(NextEnt(NewGrain(a), NewClen(c, a), a.was)) == NewClen(c, a)
            && (EditOf(a).value.ClearPage? ==> NewClen(c, a) == 0 && EntClen(a.was) != 0)
            && (!EditOf(a).value.ClearPage? ==> NewClen(c, a) != 0)
  {
    var a := s.agents[i];
    assert AgentOk(c, s, i);
    assert |s.index| == |s.hist|;
    BlockFact(c, s, a.blk);
    hide Inv, CompBlock;
    NextEntryOf(c, s, a.blk, NewGrain(a), NewClen(c, a));
  }

  lemma CountedPublish(c: Codec, s: State, i: nat, s': State, m: Meter)
    requires Inv(c, s) && i < |s.agents| && Publishes(c, s, i, s') && Counted(s, m)
    requires SumBy(s'.agents, OwingBy(m)) ==
             SumBy(s.agents, OwingBy(m)) - Owing(m, TallyOf(s.agents[i])) + Owing(m, TallyOf(s'.agents[i]))
    ensures Counted(s', m)
  {
    hide NextEnt, EntClen, Owed, SumBy;
    AboutToPublish(c, s, i);
    hide Inv;
    var a := s.agents[i];
    OwedIsTheDifference(m, EditOf(a).value, a.was, NewClen(c, a));
    SumUpdate(s.index, WeightBy(m), a.blk, s'.index[a.blk]);
  }

  lemma CountedNext(c: Codec, s: State, s': State, m: Meter)
    requires Inv(c, s) && Next(c, s, s') && Counted(s, m)
    ensures Counted(s', m)
  {
    hide Inv, Step, Counted;
    var i: nat, x :| Step(c, s, i, x, s');
    CountedStep(c, s, i, x, s', m);
  }

  lemma CountedStep(c: Codec, s: State, i: nat, x: Action, s': State, m: Meter)
    requires Inv(c, s) && Step(c, s, i, x, s') && Counted(s, m)
    ensures Counted(s', m)
  {
    StepBooks(c, s, i, x, s');
    hide Step, Serves, Strands, Copies, SumBy, Inv;
    AgentSwap(m, s, i, s');
    if Publishes(c, s, i, s') {
      hide Publishes, Counted, Owing;
      CountedPublish(c, s, i, s', m);
    } else {
      hide Publishes;
    }
  }

  lemma {:induction false} CountedAlways(c: Codec, run: seq<State>, t: nat, m: Meter)
    requires RoundTrips(c) && Run(c, run) && t < |run|
    ensures Counted(run[t], m)
  {
    if t == 0 {
      SumConst(run[0].index, WeightBy(m), 0);
      SumConst(run[0].agents, OwingBy(m), 0);
    } else {
      hide Run, RoundTrips, Inv, Counted, Next;
      CountedAlways(c, run, t - 1, m);
      InvAlways(c, run, t - 1);
      RunStep(c, run, t - 1);
      CountedNext(c, run[t - 1], run[t - 1 + 1], m);
    }
  }

  /** THE COUNTER GUARANTEE. Once every operation has finished, every counter equals its
      recomputation: live blocks, stored bytes and verbatim blocks from the index, trims from the
      trims published. */
  lemma QuiescentCountersAreExact(c: Codec, run: seq<State>, t: nat, m: Meter)
    requires RoundTrips(c) && Run(c, run) && t < |run| && Quiescent(run[t])
    ensures Reading(run[t].counts, m) == Recount(run[t], m)
  {
    CountedAlways(c, run, t, m);
    hide Run, RoundTrips;
    SumConst(run[t].agents, OwingBy(m), 0);
  }

  // ------------------------------------------------ live plus trimmed blocks

  /** First writes so far: blocks live now, plus blocks trimmed away. */
  ghost function Births(s: State): int { SumBy(s.index, WeightBy(LiveBlocks)) + s.trims }

  lemma BirthsNext(c: Codec, s: State, s': State)
    requires Inv(c, s) && Next(c, s, s')
    ensures Births(s) <= Births(s')
  {
    hide Inv, Step, Births;
    var i: nat, x :| Step(c, s, i, x, s');
    BirthsStep(c, s, i, x, s');
  }

  lemma BirthsStep(c: Codec, s: State, i: nat, x: Action, s': State)
    requires Inv(c, s) && Step(c, s, i, x, s')
    ensures Births(s) <= Births(s')
  {
    StepBooks(c, s, i, x, s');
    hide Step, Serves, Strands, Copies, NextEnt, EntClen, Owed, SumBy;
    if Publishes(c, s, i, s') {
      AboutToPublish(c, s, i);
      hide Inv;
      var a := s.agents[i];
      SumUpdate(s.index, WeightBy(LiveBlocks), a.blk, s'.index[a.blk]);
    }
  }

  lemma {:induction false} BirthsGrow(c: Codec, run: seq<State>, t: nat, u: nat)
    requires RoundTrips(c) && Run(c, run) && t <= u < |run|
    ensures Births(run[t]) <= Births(run[u])
  {
    hide Births, Run, RoundTrips, Inv, Next;
    if t < u {
      BirthsGrow(c, run, t, u - 1);
      InvAlways(c, run, u - 1);
      RunStep(c, run, u - 1);
      BirthsNext(c, run[u - 1], run[u - 1 + 1]);
    }
  }

  /** Between any two quiescent states, live plus trimmed blocks never goes down. */
  lemma LivePlusTrimmedNeverDecreases(c: Codec, run: seq<State>, t: nat, u: nat)
    requires RoundTrips(c) && Run(c, run) && t <= u < |run| && Quiescent(run[t]) && Quiescent(run[u])
    ensures run[t].counts.live + run[t].counts.trimmed <= run[u].counts.live + run[u].counts.trimmed
  {
    QuiescentCountersAreExact(c, run, t, LiveBlocks);
    QuiescentCountersAreExact(c, run, t, TrimBlocks);
    QuiescentCountersAreExact(c, run, u, LiveBlocks);
    QuiescentCountersAreExact(c, run, u, TrimBlocks);
    BirthsGrow(c, run, t, u);
  }

  // ------------------------------------------------ slot bytes cover codec bytes

  /** Entries with distinct slots store no more bytes than those slots hold. */
  lemma {:induction false} StoredFits(index: seq<nat>, slots: Slots)
    requires forall b :: 0 <= b < |index| && EntClen(index[b]) != 0 ==>
               EntGrain(index[b]) in slots && EntClen(index[b]) <= slots[EntGrain(index[b])]
    requires forall a, b :: 0 <= a < b < |index| && EntClen(index[a]) != 0 && EntClen(index[b]) != 0 ==>
               EntGrain(index[a]) != EntGrain(index[b])
    ensures SumBy(index, WeightBy(CodecBytes)) <= Bytes(slots)
  {
    hide EntClen, EntGrain;
    if index != [] {
      var m := |index| - 1;
      var e := index[m];
      if EntClen(e) != 0 {
        BytesWithout(slots, EntGrain(e));
        StoredFits(index[..m], slots - {EntGrain(e)});
      } else {
        StoredFits(index[..m], slots);
      }
    }
  }

  /** Every live block has a slot of its own, big enough for it. */
  lemma SlotsServeIndex(c: Codec, s: State, b: nat)
    requires Inv(c, s) && b < |s.index| && EntClen(s.index[b]) != 0
    ensures var g := EntGrain(s.index[b]);
            g in s.slots && EntClen(s.index[b]) <= s.slots[g] && g in s.owner && s.owner[g] == InIndex(b)
  {
    BlockFact(c, s, b);
  }

  /** Once every operation has finished, the bytes behind the outstanding slots cover the bytes stored. */
  lemma StoredBytesFit(c: Codec, run: seq<State>, t: nat)
    requires RoundTrips(c) && Run(c, run) && t < |run| && Quiescent(run[t])
    ensures run[t].counts.codec <= Bytes(run[t].slots)
  {
    QuiescentCountersAreExact(c, run, t, CodecBytes);
    InvAlways(c, run, t);
    hide Run, RoundTrips, SumBy, Bytes, Inv, EntClen, EntGrain;
    var s := run[t];
    forall b | 0 <= b < |s.index| && EntClen(s.index[b]) != 0
      ensures var g := EntGrain(s.index[b]);
              g in s.slots && EntClen(s.index[b]) <= s.slots[g] && g in s.owner && s.owner[g] == InIndex(b)
    {
      SlotsServeIndex(c, s, b);
    }
    StoredFits(s.index, s.slots);
  }
}
