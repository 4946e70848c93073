/** Step-by-step bookkeeping facts that need no invariant: what each step logs, serves, strands and
    counts. */
module ProtocolBooks {
  import opened Blocks
  import opened Protocol

  /** The edit an agent's next store would publish. */
  ghost function EditOf(a: Agent): Option<Edit> {
    match a
    case Loaded(_, Put(page, _), _) => Some(SetPage(page))
    case Loaded(_, Discard, was) => if EntClen(was) != 0 then Some(ClearPage) else None
    case Writing(_, boff, src, _, _, _, _) => Some(PatchPage(boff, src))
    case _ => None
  }

  /** Counter changes an agent still has to make. */
  function TallyOf(a: Agent): seq<Delta> { if a.Settle? then a.tally else [] }

  /** The counter changes owed for a publish. */
  function Owed(e: Edit, was: nat, clen: nat): seq<Delta> {
    if e.ClearPage? then TrimDebit(was) else Debit(was) + Credit(clen)
  }

  /** The stored length of the entry an agent is about to publish. */
  ghost function NewClen(c: Codec, a: Agent): nat {
    match a
    case Loaded(_, Put(page, _), _) => |CompBlock(c, page)|
    case Writing(_, _, _, page, _, _, _) => |CompBlock(c, page)|
    case _ => 0
  }

  ghost function NewGrain(a: Agent): nat {
    match a
    case Loaded(_, Put(_, g), _) => g
    case Writing(_, _, _, _, _, g, _) => g
    case _ => 0
  }

  /** The acting agent stored an entry: its own edit, on its own block. */
  ghost predicate Publishes(c: Codec, s: State, i: nat, s': State)
    requires i < |s.agents|
  {
    var a := s.agents[i];
    && EditOf(a).Some? && a.blk < |s.index| == |s.log|
    && var e := EditOf(a).value;
       && s'.index == s.index[a.blk := NextEnt(NewGrain(a), NewClen(c, a), a.was)]
       && s'.log == s.log[a.blk := s.log[a.blk] + [e]]
       && s'.counts == s.counts && s'.trims == s.trims + (if e.ClearPage? then 1 else 0)
       && i < |s'.agents| && TallyOf(s'.agents[i]) == Owed(e, a.was, NewClen(c, a))
  }

  /** The acting agent settled one counter change. */
  ghost predicate Settles(s: State, i: nat, s': State)
    requires i < |s.agents|
  {
    && TallyOf(s.agents[i]) != [] && i < |s'.agents|
    && s'.counts == Bump(s.counts, TallyOf(s.agents[i])[0]) && TallyOf(s'.agents[i]) == TallyOf(s.agents[i])[1..]
    && s'.index == s.index && s'.log == s.log && s'.trims == s.trims
  }

  ghost predicate LeavesBooks(s: State, i: nat, s': State)
    requires i < |s.agents|
  {
    && i < |s'.agents| && TallyOf(s'.agents[i]) == TallyOf(s.agents[i])
    && s'.index == s.index && s'.log == s.log && s'.trims == s.trims && s'.counts == s.counts
  }

  /** A read is stamped with its block's version at the instant it finishes. */
  ghost predicate Serves(s: State, i: nat, s': State)
    requires i < |s.agents|
  {
    || s'.served == s.served
    || (&& s'.hist == s.hist && |s'.served| == |s.served| + 1 && s'.served == s.served + [s'.served[|s.served|]]
        && var r := s'.served[|s.served|];
           && r.blk < |s.index| == |s.hist| && r.hi == Version(s, r.blk)
           && (s.agents[i].Download? ==> r.blk == s.agents[i].blk && r.lo == s.agents[i].ver))
  }

  /** A lock-free copy carries the block and version of its snapshot from start to end. */
  ghost predicate Copies(s: State, i: nat, s': State)
    requires i < |s.agents| == |s'.agents|
  {
    var a, a' := s.agents[i], s'.agents[i];
    && (a.Download? && a'.Download? ==> a'.blk == a.blk && a'.ver == a.ver)
    && (a.Snapshot? && a'.Download? ==> a'.blk == a.blk && a.blk < |s.hist| && a'.ver == Version(s, a.blk))
  }

  ghost predicate Strands(s: State, i: nat, x: Action, s': State)
    requires i < |s.agents|
  {
    forall g :: g in s'.owner && s'.owner[g] == Stranded ==>
      (g in s.owner && s.owner[g] == Stranded) || (s.agents[i].Upload? && x.CopyFails?)
  }

  ghost predicate Books(c: Codec, s: State, i: nat, x: Action, s': State)
    requires i < |s.agents|
  {
    && (LeavesBooks(s, i, s') || Settles(s, i, s') || Publishes(c, s, i, s'))
    && Serves(s, i, s') && Strands(s, i, x, s')
    && |s'.agents| == |s.agents| && Copies(s, i, s')
    && forall j :: 0 <= j < |s.agents| && j != i ==> s'.agents[j] == s.agents[j]
  }

  lemma PrepareBooks(c: Codec, s: State, i: nat, x: Action, s': State)
    requires i < |s.agents|
    requires || (s.agents[i].Reserve? && StepReserve(c, s, i, x, s'))
             || (s.agents[i].Patching? && StepPatching(c, s, i, x, s'))
    ensures Books(c, s, i, x, s')
  {
    hide FreshSlot, CompBlock;
  }

  lemma UploadBooks(c: Codec, s: State, i: nat, x: Action, s': State)
    requires i < |s.agents| && s.agents[i].Upload? && StepUpload(c, s, i, x, s')
    ensures Books(c, s, i, x, s')
  {
    hide CompBlock;
  }

  lemma SnapshotBooks(c: Codec, s: State, i: nat, x: Action, s': State)
    requires i < |s.agents| && s.agents[i].Snapshot? && StepSnapshot(s, i, x, s')
    ensures Books(c, s, i, x, s')
  {
    hide EntClen;
  }

  lemma DownloadBooks(c: Codec, s: State, i: nat, x: Action, s': State)
    requires i < |s.agents| && s.agents[i].Download? && StepDownload(c, s, i, x, s')
    ensures Books(c, s, i, x, s')
  {
    hide EntClen, EntGrain, DecompBlock;
  }

  lemma LockingBooks(c: Codec, s: State, i: nat, x: Action, s': State)
    requires i < |s.agents|
    requires || (s.agents[i].Peek? && StepPeek(s, i, x, s')) || (s.agents[i].Want? && StepWant(s, i, x, s'))
             || (s.agents[i].Locked? && StepLocked(s, i, x, s'))
             || (s.agents[i].Idle? && x.Start? && Starting(s, x.a) && s' == At(s, i, x.a))
    ensures Books(c, s, i, x, s')
  {
    hide EntClen, Stripe;
  }

  lemma LoadedBooks(c: Codec, s: State, i: nat, x: Action, s': State)
    requires i < |s.agents| && s.agents[i].Loaded? && StepLoaded(c, s, i, x, s')
    ensures Books(c, s, i, x, s')
  {
    hide Books, StepLoaded;
    if s.agents[i].task.Put? || s.agents[i].task.Discard? {
      LoadedStoreBooks(c, s, i, x, s');
    } else {
      LoadedReadBooks(c, s, i, x, s');
    }
  }

  lemma LoadedStoreBooks(c: Codec, s: State, i: nat, x: Action, s': State)
    requires i < |s.agents| && s.agents[i].Loaded? && (s.agents[i].task.Put? || s.agents[i].task.Discard?)
             && StepLoaded(c, s, i, x, s')
    ensures Books(c, s, i, x, s')
  {
    hide EntClen, EntGrain, NextEnt, CompBlock, Apply, Debit, Credit, TrimDebit, Splice;
  }

  lemma LoadedReadBooks(c: Codec, s: State, i: nat, x: Action, s': State)
    requires i < |s.agents| && s.agents[i].Loaded? && !s.agents[i].task.Put? && !s.agents[i].task.Discard?
             && StepLoaded(c, s, i, x, s')
    ensures Books(c, s, i, x, s')
  {
    hide EntClen, EntGrain, NextEnt, CompBlock, Apply, Splice;
  }

  lemma FetchingBooks(c: Codec, s: State, i: nat, x: Action, s': State)
    requires i < |s.agents| && s.agents[i].Fetching? && StepFetching(c, s, i, x, s')
    requires s.agents[i].blk < |s.index| == |s.hist|
    ensures Books(c, s, i, x, s')
  {
    hide EntClen, EntGrain, DecompBlock, Splice;
  }

  lemma WritingBooks(c: Codec, s: State, i: nat, x: Action, s': State)
    requires i < |s.agents| && s.agents[i].Writing? && StepWriting(c, s, i, x, s')
    ensures Books(c, s, i, x, s')
  {
    hide EntClen, EntGrain, NextEnt, CompBlock, Apply, Debit, Credit, TrimDebit;
  }

  /** The step that settles one counter change, once the slot is free and an early unlock is done. */
  predicate Tallying(a: Agent) { a.Settle? && (a.late || !a.locked) && a.release.None? && a.tally != [] }

  lemma TallyBooks(c: Codec, s: State, i: nat, x: Action, s': State)
    requires i < |s.agents| && Tallying(s.agents[i]) && StepSettle(s, i, x, s')
    ensures Books(c, s, i, x, s')
  {
    hide Stripe, Bump, Publishes, LeavesBooks;
  }

  lemma ClosingBooks(c: Codec, s: State, i: nat, x: Action, s': State)
    requires i < |s.agents| && s.agents[i].Settle? && !Tallying(s.agents[i]) && StepSettle(s, i, x, s')
    ensures Books(c, s, i, x, s')
  {
    hide Stripe, Bump, Publishes, Settles;
  }

  lemma SettleBooks(c: Codec, s: State, i: nat, x: Action, s': State)
    requires i < |s.agents| && s.agents[i].Settle? && StepSettle(s, i, x, s')
    ensures Books(c, s, i, x, s')
  {
    hide Books, StepSettle;
    if Tallying(s.agents[i]) { TallyBooks(c, s, i, x, s'); } else { ClosingBooks(c, s, i, x, s'); }
  }
}
