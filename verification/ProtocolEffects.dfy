/** Each kind of change to shared state, shown to keep the shared invariant and to respect what
    every other agent relies on. */
module ProtocolEffects {
  import opened Blocks
  import opened Protocol
  import opened ProtocolInv

  /** No block ever loses a version. */
  ghost predicate Grows(s: State, s': State) {
    |s'.hist| == |s.hist| && forall b :: 0 <= b < |s.hist| ==> s.hist[b] <= s'.hist[b]
  }

  /** What a step by agent i leaves behind for everyone else. */
  ghost predicate Guarantee(c: Codec, s: State, s': State, i: nat) {
    && Shared(c, s')
    && |s'.agents| == |s.agents| && i < |s.agents| && Grows(s, s')
    && forall j :: 0 <= j < |s.agents| && j != i ==> s'.agents[j] == s.agents[j] && Rely(s, s', j)
  }

  lemma BlockStable(c: Codec, s: State, s': State, b: nat)
    requires |s.index| == |s.hist| == |s'.index| == |s'.hist| && b < |s.index| && BlockOk(c, s, b)
    requires s'.index[b] == s.index[b] && s'.hist[b] == s.hist[b]
    requires var g := EntGrain(s.index[b]);
             EntClen(s.index[b]) != 0 ==> Quiet(s, s', g) && g in s'.owner && s'.owner[g] == s.owner[g]
    ensures BlockOk(c, s', b)
  {
    hide EntGrain, EntClen, EntMake, DecompBlock;
    if EntClen(s.index[b]) != 0 {
      QuietPrefix(s, s', EntGrain(s.index[b]), EntClen(s.index[b]));
    }
  }

  lemma SlotQuiet(s: State, s': State, g: nat)
    requires SlotsOk(s.slots, |s.mem|) && g in s.slots && g in s'.slots && s'.slots[g] == s.slots[g] && s'.mem == s.mem
    ensures Quiet(s, s', g)
  {
  }

  /** Everyone else's slots and locks are as they were, and no entry changed. */
  ghost predicate Discreet(s: State, s': State, i: nat) {
    && s'.index == s.index && s'.hist == s.hist && s'.log == s.log && |s'.mem| == |s.mem|
    && i < |s.agents| == |s'.agents|
    && (forall j :: 0 <= j < |s.agents| && j != i ==> s'.agents[j] == s.agents[j])
    && (forall g :: g in s.slots && g in s.owner && s.owner[g] != ByAgent(i) ==>
          Quiet(s, s', g) && g in s'.owner && s'.owner[g] == s.owner[g])
    && (forall st :: st in s.locks && s.locks[st] != i ==> st in s'.locks && s'.locks[st] == s.locks[st])
  }

  lemma DiscreetEffect(c: Codec, s: State, s': State, i: nat)
    requires Shared(c, s) && Discreet(s, s', i)
    requires SlotsOk(s'.slots, |s'.mem|) && s'.owner.Keys == s'.slots.Keys && LocksOk(s')
    requires forall g :: g in s'.owner ==> OwnerOk(s', g)
    ensures Guarantee(c, s, s', i)
  {
    hide EntGrain, EntClen, EntMake, DecompBlock, AgentSlot, Holding, OwnerOk, SlotsOk, LocksOk, Quiet;
    forall b | 0 <= b < |s.index|
      ensures BlockOk(c, s', b) && HistOk(s', b) && BlockRely(s, s', b)
    {
      assert BlockOk(c, s, b) && HistOk(s, b);
      BlockStable(c, s, s', b);
    }
  }

  /** Nothing shared moves but the agent's own state (and counters and served reads). */
  lemma LocalEffect(c: Codec, s: State, s': State, i: nat, a: Agent)
    requires Shared(c, s) && i < |s.agents| && s'.agents == s.agents[i := a]
    requires s'.index == s.index && s'.mem == s.mem && s'.slots == s.slots && s'.locks == s.locks
    requires s'.owner == s.owner && s'.hist == s.hist && s'.log == s.log
    requires AgentSlot(a) == AgentSlot(s.agents[i]) && Holding(a) == Holding(s.agents[i])
    ensures Guarantee(c, s, s', i)
  {
    hide EntGrain, EntClen, BlockOk, HistOk, AgentSlot, Holding, Stored;
    forall g | g in s.slots ensures Quiet(s, s', g) { SlotQuiet(s, s', g); }
    forall g | g in s'.owner ensures OwnerOk(s', g) { assert OwnerOk(s, g); }
    DiscreetEffect(c, s, s', i);
  }

  lemma SlotsGrow(s: State, g: nat, sz: nat)
    requires SlotsOk(s.slots, |s.mem|) && FreshSlot(s, g, sz)
    ensures SlotsOk(s.slots[g := sz], |s.mem|)
  {
  }

  lemma SlotsShrink(s: State, g: nat)
    requires SlotsOk(s.slots, |s.mem|)
    ensures SlotsOk(s.slots - {g}, |s.mem|)
  {
  }

  /** A fresh slot joins the heap under agent i. */
  lemma GrabEffect(c: Codec, s: State, i: nat, g: nat, sz: nat, a: Agent)
    requires Shared(c, s) && i < |s.agents| && FreshSlot(s, g, sz)
    requires AgentSlot(s.agents[i]).None? && AgentSlot(a) == Some(g) && Holding(a) == Holding(s.agents[i])
    ensures Guarantee(c, s, Grab(s, i, g, sz, a), i)
  {
    hide EntGrain, EntClen, BlockOk, HistOk, AgentSlot, Holding, Stored;
    var s' := Grab(s, i, g, sz, a);
    forall h | h in s.slots ensures Quiet(s, s', h) { SlotQuiet(s, s', h); }
    SlotsGrow(s, g, sz);
    assert g !in s.slots && g !in s.owner;
    hide SlotsOk, FreshSlot, Quiet;
    forall h | h in s'.owner
      ensures OwnerOk(s', h)
    {
      if h != g { assert OwnerOk(s, h); }
    }
    DiscreetEffect(c, s, s', i);
  }

  /** Agent i's slot leaves the heap. */
  lemma GiveBackEffect(c: Codec, s: State, i: nat, g: nat, a: Agent)
    requires Shared(c, s) && i < |s.agents| && OwnedBy(s, g, i)
    requires AgentSlot(s.agents[i]) == Some(g) && AgentSlot(a).None? && Holding(a) == Holding(s.agents[i])
    ensures Guarantee(c, s, GiveBack(s, i, g, a), i)
  {
    hide EntGrain, EntClen, BlockOk, HistOk, AgentSlot, Holding, Stored, SlotsOk, Quiet, Guarantee;
    var s' := GiveBack(s, i, g, a);
    forall h | h in s.slots && h != g ensures Quiet(s, s', h) { SlotQuiet(s, s', h); }
    SlotsShrink(s, g);
    forall h | h in s'.owner ensures OwnerOk(s', h) { assert OwnerOk(s, h); }
    DiscreetEffect(c, s, s', i);
  }

  /** A failed upload leaves its slot to nobody. */
  lemma StrandEffect(c: Codec, s: State, i: nat, g: nat)
    requires Shared(c, s) && i < |s.agents| && OwnedBy(s, g, i)
    requires AgentSlot(s.agents[i]) == Some(g) && Holding(s.agents[i]).None?
    ensures Guarantee(c, s, At(s, i, Idle).(owner := s.owner[g := Stranded]), i)
  {
    hide EntGrain, EntClen, BlockOk, HistOk, Stored;
    var s' := At(s, i, Idle).(owner := s.owner[g := Stranded]);
    forall h | h in s.slots ensures Quiet(s, s', h) { SlotQuiet(s, s', h); }
    forall h | h in s'.owner
      ensures OwnerOk(s', h)
    {
      if h != g { assert OwnerOk(s, h); }
    }
    DiscreetEffect(c, s, s', i);
  }

  lemma PokeQuiet(s: State, s': State, g: nat, k: nat, x: byte, h: nat)
    requires SlotsOk(s.slots, |s.mem|) && g in s.slots && k < s.slots[g] && h in s.slots && h != g
    requires ALLOC_GRAIN * g + k < |s.mem| && s'.mem == s.mem[ALLOC_GRAIN * g + k := x] && s'.slots == s.slots
    ensures Quiet(s, s', h)
  {
    assert Apart(ALLOC_GRAIN * g, s.slots[g], ALLOC_GRAIN * h, s.slots[h]);
    assert Stored(s'.mem, h, s.slots[h]) == Stored(s.mem, h, s.slots[h]);
  }

  /** A byte lands inside agent i's own slot. */
  lemma PokeEffect(c: Codec, s: State, i: nat, g: nat, k: nat, x: byte, a: Agent)
    requires Shared(c, s) && i < |s.agents| && OwnedBy(s, g, i) && k < s.slots[g] && ALLOC_GRAIN * g + k < |s.mem|
    requires AgentSlot(a) == AgentSlot(s.agents[i]) && Holding(a) == Holding(s.agents[i])
    ensures Guarantee(c, s, Poke(s, i, ALLOC_GRAIN * g + k, x, a), i)
  {
    hide EntGrain, EntClen, BlockOk, HistOk, AgentSlot, Holding, Stored;
    var s' := Poke(s, i, ALLOC_GRAIN * g + k, x, a);
    forall h | h in s.slots && h != g ensures Quiet(s, s', h) { PokeQuiet(s, s', g, k, x, h); }
    forall h | h in s'.owner ensures OwnerOk(s', h) { assert OwnerOk(s, h); }
    DiscreetEffect(c, s, s', i);
  }

  /** Taking a free stripe. */
  lemma LockEffect(c: Codec, s: State, i: nat, st: nat, a: Agent)
    requires Shared(c, s) && i < |s.agents| && AgentSlot(a) == AgentSlot(s.agents[i])
    requires st !in s.locks && Holding(s.agents[i]).None? && Holding(a) == Some(st)
    ensures Guarantee(c, s, Lock(s, i, st, a), i)
  {
    hide EntGrain, EntClen, BlockOk, HistOk, AgentSlot, Holding, Stored;
    var s' := Lock(s, i, st, a);
    forall g | g in s.slots ensures Quiet(s, s', g) { SlotQuiet(s, s', g); }
    forall g | g in s'.owner ensures OwnerOk(s', g) { assert OwnerOk(s, g); }
    hide SlotsOk, Quiet;
    DiscreetEffect(c, s, s', i);
  }

  /** Dropping one's own stripe. */
  lemma UnlockEffect(c: Codec, s: State, i: nat, st: nat, a: Agent)
    requires Shared(c, s) && i < |s.agents| && AgentSlot(a) == AgentSlot(s.agents[i])
    requires st in s.locks && s.locks[st] == i && Holding(s.agents[i]) == Some(st) && Holding(a).None?
    ensures Guarantee(c, s, Unlock(s, i, st, a), i)
  {
    hide EntGrain, EntClen, BlockOk, HistOk, AgentSlot, Holding, Stored;
    var s' := Unlock(s, i, st, a);
    forall g | g in s.slots ensures Quiet(s, s', g) { SlotQuiet(s, s', g); }
    forall g | g in s'.owner ensures OwnerOk(s', g) { assert OwnerOk(s, g); }
    hide SlotsOk, Quiet;
    DiscreetEffect(c, s, s', i);
  }

  /** What an agent has established when it stores entry `ent` for block b. */
  ghost predicate ReadyToPublish(c: Codec, s: State, i: nat, b: nat, ent: nat, e: Edit)
    requires i < |s.agents| && b < |s.index| == |s.hist| == |s.log|
  {
    var g, clen := EntGrain(ent), EntClen(ent);
    && Stripe(b) in s.locks && s.locks[Stripe(b)] == i && Holding(s.agents[i]) == Some(Stripe(b))
    && EditOk(e) && |s.hist[b]| > 0 && clen <= CBLK_SIZE && ent == EntMake(g, clen, |s.hist[b]|)
    && (clen == 0 ==> AgentSlot(s.agents[i]).None? && Apply(e, LastPage(s, b)) == ZeroPage())
    && (clen != 0 ==>
          && AgentSlot(s.agents[i]) == Some(g) && OwnedBy(s, g, i)
          && clen <= s.slots[g] && ALLOC_GRAIN * g + s.slots[g] <= |s.mem|
          && DecompBlock(c, Stored(s.mem, g, clen)) == Some(Apply(e, LastPage(s, b))))
  }

  /** Publishing hands the agent's slot to the index and the displaced one to the agent. */
  lemma PublishOwners(c: Codec, s: State, i: nat, b: nat, ent: nat, e: Edit, a: Agent)
    requires Shared(c, s) && i < |s.agents| && b < |s.index| && ReadyToPublish(c, s, i, b, ent, e)
    requires AgentSlot(a) == Displaced(s.index[b])
    ensures var s' := Publish(s, i, b, ent, e, a);
            && s'.owner.Keys == s'.slots.Keys
            && (forall g :: g in s'.owner ==> OwnerOk(s', g))
            && (forall g :: g in s.owner && s.owner[g] != ByAgent(i) && s.owner[g] != InIndex(b) ==>
                  s'.owner[g] == s.owner[g])
            && (EntClen(ent) != 0 ==> s'.owner[EntGrain(ent)] == InIndex(b))
  {
    hide EntGrain, EntClen, EntMake, HistOk, AgentSlot, Holding, Stored, DecompBlock, Apply, LocksOk, SlotsOk;
    assert BlockOk(c, s, b);
    hide BlockOk;
    var s' := Publish(s, i, b, ent, e, a);
    forall g | g in s'.owner
      ensures OwnerOk(s', g)
    {
      if g in s.owner { assert OwnerOk(s, g); }
    }
  }

  lemma PublishBlock(c: Codec, s: State, i: nat, b: nat, ent: nat, e: Edit, a: Agent)
    requires Shared(c, s) && i < |s.agents| && b < |s.index| && ReadyToPublish(c, s, i, b, ent, e)
    requires AgentSlot(a) == Displaced(s.index[b])
    ensures var s' := Publish(s, i, b, ent, e, a);
            BlockOk(c, s', b) && HistOk(s', b) && s.hist[b] <= s'.hist[b] && |s'.hist[b]| == |s.hist[b]| + 1
  {
    hide EntGrain, EntClen, EntMake, AgentSlot, Holding, Stored, DecompBlock, Apply, LocksOk, SlotsOk;
    PublishOwners(c, s, i, b, ent, e, a);
    assert HistOk(s, b);
    var s' := Publish(s, i, b, ent, e, a);
    var h, h' := s.hist[b], s'.hist[b];
    assert h' == h + [Apply(e, LastPage(s, b))] && s'.log[b] == s.log[b] + [e];
    assert LastPage(s', b) == Apply(e, LastPage(s, b));
    forall v | 0 <= v < |s'.log[b]|
      ensures EditOk(s'.log[b][v]) && h'[v + 1] == Apply(s'.log[b][v], h'[v])
    {
      if v < |s.log[b]| { assert EditOk(s.log[b][v]) && h[v + 1] == Apply(s.log[b][v], h[v]); }
    }
  }

  lemma PublishElsewhere(c: Codec, s: State, i: nat, b: nat, ent: nat, e: Edit, a: Agent, d: nat)
    requires Shared(c, s) && i < |s.agents| && b < |s.index| && ReadyToPublish(c, s, i, b, ent, e)
    requires AgentSlot(a) == Displaced(s.index[b]) && d < |s.index| && d != b
    ensures var s' := Publish(s, i, b, ent, e, a);
            BlockOk(c, s', d) && HistOk(s', d) && BlockRely(s, s', d) && s'.hist[d] == s.hist[d]
  {
    var s' := Publish(s, i, b, ent, e, a);
    hide EntGrain, EntClen, EntMake, AgentSlot, Holding, Stored, DecompBlock, Apply, LocksOk, OwnerOk, ReadyToPublish;
    PublishOwners(c, s, i, b, ent, e, a);
    assert BlockOk(c, s, d) && HistOk(s, d);
    if EntClen(s.index[d]) != 0 { SlotQuiet(s, s', EntGrain(s.index[d])); }
    BlockStable(c, s, s', d);
  }

  lemma PublishRely(c: Codec, s: State, i: nat, b: nat, ent: nat, e: Edit, a: Agent, j: nat)
    requires Shared(c, s) && i < |s.agents| && b < |s.index| && ReadyToPublish(c, s, i, b, ent, e)
    requires AgentSlot(a) == Displaced(s.index[b]) && j < |s.agents| && j != i
    ensures Rely(s, Publish(s, i, b, ent, e, a), j)
  {
    var s' := Publish(s, i, b, ent, e, a);
    hide EntGrain, EntClen, EntMake, AgentSlot, Holding, Stored, DecompBlock, Apply, OwnerOk, HistOk, BlockOk, LocksOk;
    PublishOwners(c, s, i, b, ent, e, a);
    forall g | g in s.slots ensures Quiet(s, s', g) { SlotQuiet(s, s', g); }
    PublishBlock(c, s, i, b, ent, e, a);
    forall d | 0 <= d < |s.index|
      ensures BlockRely(s, s', d) && (d != b ==> s'.hist[d] == s.hist[d])
    {
      if d != b { PublishElsewhere(c, s, i, b, ent, e, a, d); }
    }
  }

  lemma PublishShared(c: Codec, s: State, i: nat, b: nat, ent: nat, e: Edit, a: Agent)
    requires Shared(c, s) && i < |s.agents| && b < |s.index| && ReadyToPublish(c, s, i, b, ent, e)
    requires AgentSlot(a) == Displaced(s.index[b]) && Holding(a) == Holding(s.agents[i])
    ensures Shared(c, Publish(s, i, b, ent, e, a)) && Grows(s, Publish(s, i, b, ent, e, a))
  {
    var s' := Publish(s, i, b, ent, e, a);
    hide EntGrain, EntClen, EntMake, AgentSlot, Holding, Apply, OwnerOk, HistOk, BlockOk, SlotsOk, ReadyToPublish,
      Displaced, BlockRely;
    PublishOwners(c, s, i, b, ent, e, a);
    forall d | 0 <= d < |s.index|
      ensures BlockOk(c, s', d) && HistOk(s', d) && s.hist[d] <= s'.hist[d]
    {
      if d == b { PublishBlock(c, s, i, b, ent, e, a); } else { PublishElsewhere(c, s, i, b, ent, e, a, d); }
    }
  }

  lemma CanPublish(c: Codec, s: State, i: nat, b: nat, ent: nat, e: Edit)
    requires Shared(c, s) && i < |s.agents| && b < |s.index| && ReadyToPublish(c, s, i, b, ent, e)
    ensures |s.index| == |s.hist| == |s.log| && |s.hist[b]| > 0 && EditOk(e)
  {
    assert BlockOk(c, s, b);
  }

  lemma PublishEffect(c: Codec, s: State, i: nat, b: nat, ent: nat, e: Edit, a: Agent)
    requires Shared(c, s) && i < |s.agents| && b < |s.index| && ReadyToPublish(c, s, i, b, ent, e)
    requires AgentSlot(a) == Displaced(s.index[b]) && Holding(a) == Holding(s.agents[i])
    ensures Guarantee(c, s, Publish(s, i, b, ent, e, a), i)
  {
    hide Shared, ReadyToPublish, Displaced, AgentSlot, Holding, Rely, EntClen, EntGrain, Apply;
    CanPublish(c, s, i, b, ent, e);
    var s' := Publish(s, i, b, ent, e, a);
    PublishShared(c, s, i, b, ent, e, a);
    forall j | 0 <= j < |s.agents| && j != i
      ensures s'.agents[j] == s.agents[j] && Rely(s, s', j)
    {
      PublishRely(c, s, i, b, ent, e, a, j);
    }
  }
}
