/** The protocol's invariant, and the rely/guarantee argument that every step keeps it. */
module ProtocolInv {
  import opened Blocks
  import opened Protocol

  // -------------------------------------------------------------- invariant

  /** The one slot an agent answers for: a reservation, or a displaced slot not yet freed. */
  function AgentSlot(a: Agent): Option<nat> {
    match a
    case Upload(_, _, g, _) => Some(g)
    case Want(_, Put(_, g)) => Some(g)
    case Locked(_, Put(_, g)) => Some(g)
    case Loaded(_, Put(_, g), _) => Some(g)
    case Writing(_, _, _, _, _, g, _) => Some(g)
    case Settle(_, _, _, release, _) => release
    case _ => None
  }

  /** The stripe an agent holds, if any: never more than one. */
  function Holding(a: Agent): Option<nat> {
    match a
    case Locked(b, _) => Some(Stripe(b))
    case Loaded(b, _, _) => Some(Stripe(b))
    case Fetching(b, _, _, _) => Some(Stripe(b))
    case Patching(b, _, _, _, _) => Some(Stripe(b))
    case Writing(b, _, _, _, _, _, _) => Some(Stripe(b))
    case Settle(b, locked, _, _, _) => if locked then Some(Stripe(b)) else None
    case _ => None
  }

  ghost predicate OwnedBy(s: State, g: nat, i: nat) { g in s.slots && g in s.owner && s.owner[g] == ByAgent(i) }

  /** The first k bytes of a page's stored form are in place at slot g. */
  ghost predicate Filled(c: Codec, s: State, page: Page, g: nat, k: nat) {
    var bytes := CompBlock(c, page);
    && g in s.slots && k <= |bytes| <= s.slots[g] && ALLOC_GRAIN * g + s.slots[g] <= |s.mem| && g < GRAIN_LIMIT
    && Stored(s.mem, g, k) == bytes[..k]
  }

  /** A copy in progress out of the slot an entry points at holds what is there now. */
  ghost predicate CopyOk(s: State, ent: nat, buf: seq<byte>) {
    0 < EntClen(ent) && InHeap(s.mem, ent) && |buf| <= EntClen(ent) && buf == Stored(s.mem, EntGrain(ent), |buf|)
  }

  /** A lock-free copy: its bytes mean something only while the block's version has not moved. */
  ghost predicate DownloadOk(s: State, b: nat, ent: nat, ver: nat, buf: seq<byte>)
    requires b < |s.index| == |s.hist|
  {
    && 0 < EntClen(ent) <= CBLK_SIZE && InHeap(s.mem, ent) && |buf| <= EntClen(ent)
    && ver <= Version(s, b) && ent == EntMake(EntGrain(ent), EntClen(ent), ver)
    && (ver == Version(s, b) ==> s.index[b] == ent && buf == Stored(s.mem, EntGrain(ent), |buf|))
  }

  ghost predicate TaskOk(c: Codec, s: State, t: Task) {
    match t
    case Put(page, g) => Filled(c, s, page, g, |CompBlock(c, page)|)
    case Patch(boff, src) => boff + |src| <= CBLK_SIZE
    case _ => true
  }

  ghost predicate PatchReady(s: State, b: nat, boff: nat, src: seq<byte>, page: Page, was: nat)
    requires b < |s.index| == |s.hist|
  {
    s.index[b] == was && boff + |src| <= CBLK_SIZE && |s.hist[b]| > 0 && page == Splice(LastPage(s, b), boff, src)
  }

  ghost predicate LocalOk(c: Codec, s: State, a: Agent)
    requires |s.index| == |s.hist|
  {
    match a
    case Idle => true
    case Reserve(b, _) => b < |s.index|
    case Upload(b, page, g, k) => b < |s.index| && Filled(c, s, page, g, k)
    case Snapshot(b, fails) => b < |s.index| && fails <= MAX_ROUNDS
    case Download(b, ent, ver, fails, buf) => b < |s.index| && fails <= MAX_ROUNDS && DownloadOk(s, b, ent, ver, buf)
    case Peek(b) => b < |s.index|
    case Want(b, t) => b < |s.index| && TaskOk(c, s, t)
    case Locked(b, t) => b < |s.index| && TaskOk(c, s, t)
    case Loaded(b, t, was) => b < |s.index| && TaskOk(c, s, t) && s.index[b] == was
    case Fetching(b, t, was, buf) =>
      b < |s.index| && TaskOk(c, s, t) && (t.Patch? || t.Fetch?) && s.index[b] == was && CopyOk(s, was, buf)
    case Patching(b, boff, src, page, was) => b < |s.index| && PatchReady(s, b, boff, src, page, was)
    case Writing(b, boff, src, page, was, g, k) =>
      b < |s.index| && PatchReady(s, b, boff, src, page, was) && Filled(c, s, page, g, k)
    case Settle(b, _, _, _, _) => b < |s.index|
  }

  ghost predicate AgentOk(c: Codec, s: State, i: nat)
    requires i < |s.agents| && |s.index| == |s.hist|
  {
    var a := s.agents[i];
    && (AgentSlot(a).Some? ==> OwnedBy(s, AgentSlot(a).value, i))
    && (Holding(a).Some? ==> Holding(a).value in s.locks && s.locks[Holding(a).value] == i)
    && LocalOk(c, s, a)
  }

  /** A block's entry is its latest version, and decodes to that version's page. */
  ghost predicate BlockOk(c: Codec, s: State, b: nat)
    requires b < |s.index| == |s.hist|
  {
    var e, h := s.index[b], s.hist[b];
    var g, clen := EntGrain(e), EntClen(e);
    && |h| > 0 && clen <= CBLK_SIZE && e == EntMake(g, clen, |h| - 1)
    && (clen == 0 ==> LastPage(s, b) == ZeroPage())
    && (clen != 0 ==>
          && g in s.slots && g in s.owner && s.owner[g] == InIndex(b)
          && clen <= s.slots[g] && ALLOC_GRAIN * g + s.slots[g] <= |s.mem|
          && DecompBlock(c, Stored(s.mem, g, clen)) == Some(LastPage(s, b)))
  }

  /** A block's versions are its published edits applied one at a time, from a page of zeros. */
  ghost predicate HistOk(s: State, b: nat)
    requires b < |s.hist| == |s.log|
  {
    && |s.hist[b]| == |s.log[b]| + 1 && s.hist[b][0] == ZeroPage()
    && forall v :: 0 <= v < |s.log[b]| ==> EditOk(s.log[b][v]) && s.hist[b][v + 1] == Apply(s.log[b][v], s.hist[b][v])
  }

  ghost predicate OwnerOk(s: State, g: nat)
    requires g in s.owner
  {
    match s.owner[g]
    case InIndex(b) => b < |s.index| && EntClen(s.index[b]) != 0 && EntGrain(s.index[b]) == g
    case ByAgent(i) => i < |s.agents| && AgentSlot(s.agents[i]) == Some(g)
    case Stranded => true
  }

  ghost predicate LocksOk(s: State) {
    forall st :: st in s.locks ==> s.locks[st] < |s.agents| && Holding(s.agents[s.locks[st]]) == Some(st)
  }

  ghost predicate Shared(c: Codec, s: State) {
    && |s.index| == |s.hist| == |s.log| && |s.mem| <= ALLOC_GRAIN * GRAIN_LIMIT
    && SlotsOk(s.slots, |s.mem|)
    && (forall b :: 0 <= b < |s.index| ==> BlockOk(c, s, b))
    && (forall b :: 0 <= b < |s.index| ==> HistOk(s, b))
    && s.owner.Keys == s.slots.Keys
    && (forall g :: g in s.owner ==> OwnerOk(s, g))
    && LocksOk(s)
  }

  /** A served read returned the page its block held when the read finished - provided fewer than
      2^21 publishes hit that block since its snapshot. */
  ghost predicate ReadOk(s: State, r: ReadRec) {
    && r.blk < |s.hist| && r.lo <= r.hi < |s.hist[r.blk]|
    && (r.hi - r.lo < GEN_LIMIT ==> r.page == Some(s.hist[r.blk][r.hi]))
  }

  ghost predicate ServedOk(s: State) { forall n :: 0 <= n < |s.served| ==> ReadOk(s, s.served[n]) }

  ghost predicate AgentsOk(c: Codec, s: State)
    requires |s.index| == |s.hist|
  {
    forall i :: 0 <= i < |s.agents| ==> AgentOk(c, s, i)
  }

  ghost predicate Inv(c: Codec, s: State) { Shared(c, s) && AgentsOk(c, s) && ServedOk(s) }

  // -------------------------------------------------------- rely / guarantee

  /** Slot g is exactly as it was. */
  ghost predicate Quiet(s: State, s': State, g: nat) {
    && g in s.slots && g in s'.slots && s'.slots[g] == s.slots[g]
    && |s'.mem| == |s.mem| && ALLOC_GRAIN * g + s.slots[g] <= |s.mem|
    && Stored(s'.mem, g, s.slots[g]) == Stored(s.mem, g, s.slots[g])
  }

  ghost predicate BlockRely(s: State, s': State, b: nat)
    requires b < |s.index| == |s.hist| && |s'.index| == |s'.hist| == |s.index|
  {
    && s.hist[b] <= s'.hist[b]
    && (|s'.hist[b]| == |s.hist[b]| ==>
          s'.index[b] == s.index[b] && (EntClen(s.index[b]) != 0 ==> Quiet(s, s', EntGrain(s.index[b]))))
  }

  /** What agent j may count on across other agents' steps: versions only grow, a block that keeps
      its version keeps its entry and bytes, j's slots are untouched, and blocks under j's lock do
      not move. */
  ghost predicate Rely(s: State, s': State, j: nat)
  {
    && |s.index| == |s.hist| == |s'.index| == |s'.hist| && |s'.mem| == |s.mem|
    && (forall b :: 0 <= b < |s.index| ==> BlockRely(s, s', b))
    && (forall g :: OwnedBy(s, g, j) ==> OwnedBy(s', g, j) && Quiet(s, s', g))
    && (forall st :: st in s.locks && s.locks[st] == j ==> st in s'.locks && s'.locks[st] == j)
    && (forall b :: 0 <= b < |s.index| && Stripe(b) in s.locks && s.locks[Stripe(b)] == j ==>
          |s'.hist[b]| == |s.hist[b]|)
  }

  lemma QuietPrefix(s: State, s': State, g: nat, k: nat)
    requires Quiet(s, s', g) && k <= s.slots[g]
    ensures Stored(s'.mem, g, k) == Stored(s.mem, g, k)
  {
    var n := s.slots[g];
    assert Stored(s.mem, g, k) == Stored(s.mem, g, n)[..k];
    assert Stored(s'.mem, g, k) == Stored(s'.mem, g, n)[..k];
  }

  lemma FilledStable(c: Codec, s: State, s': State, page: Page, g: nat, k: nat)
    requires Filled(c, s, page, g, k) && Quiet(s, s', g)
    ensures Filled(c, s', page, g, k)
  {
    QuietPrefix(s, s', g, k);
  }

  lemma DownloadStable(c: Codec, s: State, s': State, b: nat, ent: nat, ver: nat, buf: seq<byte>)
    requires |s.index| == |s.hist| == |s'.index| == |s'.hist| && b < |s.index| && |s'.mem| == |s.mem|
    requires BlockOk(c, s, b) && BlockRely(s, s', b) && DownloadOk(s, b, ent, ver, buf)
    ensures DownloadOk(s', b, ent, ver, buf)
  {
    if ver == Version(s', b) {
      QuietPrefix(s, s', EntGrain(ent), |buf|);
    }
  }

  lemma TaskStable(c: Codec, s: State, s': State, t: Task)
    requires TaskOk(c, s, t) && (t.Put? ==> Quiet(s, s', t.grain))
    ensures TaskOk(c, s', t)
  {
    if t.Put? { FilledStable(c, s, s', t.page, t.grain, |CompBlock(c, t.page)|); }
  }

  lemma UnlockedStable(c: Codec, s: State, s': State, j: nat)
    requires Shared(c, s) && j < |s.agents| && AgentOk(c, s, j) && Rely(s, s', j) && Holding(s.agents[j]).None?
    ensures LocalOk(c, s', s.agents[j])
  {
    hide EntGrain, EntClen, EntMake, HistOk, OwnerOk, CompBlock, DecompBlock, Splice, SlotsOk, LocksOk;
    var a := s.agents[j];
    if AgentSlot(a).Some? { assert Quiet(s, s', AgentSlot(a).value); }
    match a
    case Upload(b, page, g, k) => FilledStable(c, s, s', page, g, k);
    case Download(b, ent, ver, fails, buf) =>
      assert BlockOk(c, s, b) && BlockRely(s, s', b);
      DownloadStable(c, s, s', b, ent, ver, buf);
    case Want(b, t) => TaskStable(c, s, s', t);
    case _ =>
  }

  lemma LockedStable(c: Codec, s: State, s': State, j: nat)
    requires Shared(c, s) && j < |s.agents| && AgentOk(c, s, j) && Rely(s, s', j) && Holding(s.agents[j]).Some?
    ensures LocalOk(c, s', s.agents[j])
  {
    hide EntGrain, EntClen, EntMake, HistOk, OwnerOk, CompBlock, DecompBlock, Splice, SlotsOk, LocksOk;
    var a := s.agents[j];
    if AgentSlot(a).Some? { assert Quiet(s, s', AgentSlot(a).value); }
    var b := a.blk;
    assert BlockOk(c, s, b) && BlockRely(s, s', b) && s'.hist[b] == s.hist[b];
    match a
    case Locked(_, t) => TaskStable(c, s, s', t);
    case Loaded(_, t, was) => TaskStable(c, s, s', t);
    case Fetching(_, t, was, buf) => QuietPrefix(s, s', EntGrain(was), |buf|);
    case Writing(_, boff, src, page, was, g, k) => FilledStable(c, s, s', page, g, k);
    case _ =>
  }

  /** No step of another agent can break what an agent knows. */
  lemma AgentStable(c: Codec, s: State, s': State, j: nat)
    requires Shared(c, s) && j < |s.agents| == |s'.agents| && s'.agents[j] == s.agents[j]
    requires AgentOk(c, s, j) && Rely(s, s', j)
    ensures AgentOk(c, s', j)
  {
    hide BlockOk, HistOk, LocalOk, OwnerOk, SlotsOk, BlockRely, LocksOk;
    if Holding(s.agents[j]).Some? { LockedStable(c, s, s', j); } else { UnlockedStable(c, s, s', j); }
  }
}
