/** The two kinds of lock together: stripe locks on the index and the allocator's mutex. Each worker
    runs a script of lock operations - any sequence of the store's block operations. */
module Locks {
  import opened Blocks
  import opened Sums

  /** Locks taken and dropped, and what they are for: `Entry(k)` reads or stores an index entry of stripe k,
      `Tables` touches the allocator's tables, `Work` needs no lock. */
  datatype LockOp = TakeStripe(k: nat) | DropStripe(k: nat) | TakeHeap | DropHeap | Entry(k: nat) | Tables | Work

  type Script = seq<LockOp>

  // ------------------------------------------------------ the store's scripts

  /** slot_alloc or slot_free. */
  function SlotCall(): Script { [TakeHeap, Tables, DropHeap] }

  function Maybe(call: bool): Script { if call then SlotCall() else [] }

  /** The lock operations of each block operation; `frees` says whether it displaced a slot. */
  datatype BlockOp =
    | Prepare
    | Abort
    | Publish(k: nat, frees: bool)
    | TrimOne(k: nat, frees: bool)
    | LockedRead(k: nat)
    | Rmw(k: nat, allocs: bool, frees: bool)

  function ScriptOf(op: BlockOp): Script {
    match op
    case Prepare => SlotCall()
    case Abort => SlotCall()
    case Publish(k, frees) => [TakeStripe(k), Entry(k), DropStripe(k)] + Maybe(frees)
    case TrimOne(k, frees) => [Work, TakeStripe(k), Entry(k), DropStripe(k)] + Maybe(frees)
    case LockedRead(k) => [TakeStripe(k), Entry(k), DropStripe(k)]
    case Rmw(k, allocs, frees) =>
      [TakeStripe(k), Entry(k)] + Maybe(allocs) + [Entry(k)] + Maybe(frees) + [DropStripe(k)]
  }

  function ScriptOfAll(ops: seq<BlockOp>): Script {
    if ops == [] then [] else ScriptOf(ops[0]) + ScriptOfAll(ops[1..])
  }

  /** At most one stripe at a time, the heap mutex only innermost, everything released at the end; entries
      only under their stripe, the allocator's tables only under its mutex. */
  predicate Disciplined(s: Script, stripe: Option<nat>, heap: bool) {
    if s == [] then stripe.None? && !heap
    else
      match s[0]
      case TakeStripe(k) => stripe.None? && !heap && Disciplined(s[1..], Some(k), false)
      case DropStripe(k) => stripe == Some(k) && !heap && Disciplined(s[1..], None, false)
      case TakeHeap => !heap && Disciplined(s[1..], stripe, true)
      case DropHeap => heap && Disciplined(s[1..], stripe, false)
      case Entry(k) => stripe == Some(k) && !heap && Disciplined(s[1..], stripe, heap)
      case Tables => heap && Disciplined(s[1..], stripe, heap)
      case Work => Disciplined(s[1..], stripe, heap)
  }

  /** Disciplined up to some point, after which `stripe'` is held. */
  predicate Leads(s: Script, stripe: Option<nat>, heap: bool, stripe': Option<nat>) {
    if s == [] then stripe == stripe' && !heap
    else
      match s[0]
      case TakeStripe(k) => stripe.None? && !heap && Leads(s[1..], Some(k), false, stripe')
      case DropStripe(k) => stripe == Some(k) && !heap && Leads(s[1..], None, false, stripe')
      case TakeHeap => !heap && Leads(s[1..], stripe, true, stripe')
      case DropHeap => heap && Leads(s[1..], stripe, false, stripe')
      case Entry(k) => stripe == Some(k) && !heap && Leads(s[1..], stripe, heap, stripe')
      case Tables => heap && Leads(s[1..], stripe, heap, stripe')
      case Work => Leads(s[1..], stripe, heap, stripe')
  }

  lemma {:induction false} LeadsThen(a: Script, b: Script, stripe: Option<nat>, heap: bool, mid: Option<nat>,
      end: Option<nat>)
    requires Leads(a, stripe, heap, mid) && Leads(b, mid, false, end)
    ensures Leads(a + b, stripe, heap, end)
  {
    if a == [] {
      assert a + b == b;
    } else {
      assert (a + b)[1..] == a[1..] + b;
      match a[0]
      case TakeStripe(k) => LeadsThen(a[1..], b, Some(k), false, mid, end);
      case DropStripe(k) => LeadsThen(a[1..], b, None, false, mid, end);
      case TakeHeap => LeadsThen(a[1..], b, stripe, true, mid, end);
      case DropHeap => LeadsThen(a[1..], b, stripe, false, mid, end);
      case _ => LeadsThen(a[1..], b, stripe, heap, mid, end);
    }
  }

  lemma {:induction false} LeadsIsDisciplined(s: Script, stripe: Option<nat>, heap: bool)
    ensures Leads(s, stripe, heap, None) <==> Disciplined(s, stripe, heap)
  {
    if s != [] {
      match s[0]
      case TakeStripe(k) => LeadsIsDisciplined(s[1..], Some(k), false);
      case DropStripe(k) => LeadsIsDisciplined(s[1..], None, false);
      case TakeHeap => LeadsIsDisciplined(s[1..], stripe, true);
      case DropHeap => LeadsIsDisciplined(s[1..], stripe, false);
      case _ => LeadsIsDisciplined(s[1..], stripe, heap);
    }
  }

  lemma MaybeLeads(call: bool, stripe: Option<nat>)
    ensures Leads(Maybe(call), stripe, false, stripe)
  {
    var c := SlotCall();
    assert c[1..] == [Tables, DropHeap] && c[1..][1..] == [DropHeap] && c[1..][1..][1..] == [];
    assert Leads(c[1..][1..], stripe, true, stripe);
    assert Leads(c[1..], stripe, true, stripe);
  }

  lemma OneLeads(op: LockOp, stripe: Option<nat>, stripe': Option<nat>)
    requires match op
             case TakeStripe(k) => stripe.None? && stripe' == Some(k)
             case DropStripe(k) => stripe == Some(k) && stripe'.None?
             case Entry(k) => stripe == Some(k) && stripe' == stripe
             case Work => stripe' == stripe
             case _ => false
    ensures Leads([op], stripe, false, stripe')
  {
    assert [op][1..] == [];
  }

  /** Take stripe k, use its entry, go on. */
  lemma StripeLeads(k: nat)
    ensures Leads([TakeStripe(k), Entry(k)], None, false, Some(k))
            && Leads([TakeStripe(k), Entry(k), DropStripe(k)], None, false, None)
  {
    OneLeads(TakeStripe(k), None, Some(k));
    OneLeads(Entry(k), Some(k), Some(k));
    OneLeads(DropStripe(k), Some(k), None);
    LeadsThen([TakeStripe(k)], [Entry(k)], None, false, Some(k), Some(k));
    assert [TakeStripe(k)] + [Entry(k)] == [TakeStripe(k), Entry(k)];
    LeadsThen([TakeStripe(k), Entry(k)], [DropStripe(k)], None, false, Some(k), None);
    assert [TakeStripe(k), Entry(k)] + [DropStripe(k)] == [TakeStripe(k), Entry(k), DropStripe(k)];
  }

  lemma RmwLeads(k: nat, allocs: bool, frees: bool)
    ensures Leads(ScriptOf(Rmw(k, allocs, frees)), None, false, None)
  {
    var head := [TakeStripe(k), Entry(k)];
    StripeLeads(k);
    MaybeLeads(allocs, Some(k));
    MaybeLeads(frees, Some(k));
    OneLeads(Entry(k), Some(k), Some(k));
    OneLeads(DropStripe(k), Some(k), None);
    LeadsThen(head, Maybe(allocs), None, false, Some(k), Some(k));
    LeadsThen(head + Maybe(allocs), [Entry(k)], None, false, Some(k), Some(k));
    LeadsThen(head + Maybe(allocs) + [Entry(k)], Maybe(frees), None, false, Some(k), Some(k));
    LeadsThen(head + Maybe(allocs) + [Entry(k)] + Maybe(frees), [DropStripe(k)], None, false, Some(k), None);
  }

  lemma OpLeads(op: BlockOp)
    ensures Leads(ScriptOf(op), None, false, None)
  {
    match op
    case Prepare => MaybeLeads(true, None);
    case Abort => MaybeLeads(true, None);
    case Publish(k, frees) =>
      StripeLeads(k);
      MaybeLeads(frees, None);
      LeadsThen([TakeStripe(k), Entry(k), DropStripe(k)], Maybe(frees), None, false, None, None);
    case TrimOne(k, frees) =>
      StripeLeads(k);
      MaybeLeads(frees, None);
      OneLeads(Work, None, None);
      LeadsThen([Work], [TakeStripe(k), Entry(k), DropStripe(k)], None, false, None, None);
      assert [Work] + [TakeStripe(k), Entry(k), DropStripe(k)] == [Work, TakeStripe(k), Entry(k), DropStripe(k)];
      LeadsThen([Work, TakeStripe(k), Entry(k), DropStripe(k)], Maybe(frees), None, false, None, None);
    case LockedRead(k) => StripeLeads(k);
    case Rmw(k, allocs, frees) => RmwLeads(k, allocs, frees);
  }

  /** Any sequence of block operations keeps the discipline. */
  lemma {:induction false} StoreIsDisciplined(ops: seq<BlockOp>)
    ensures Disciplined(ScriptOfAll(ops), None, false)
  {
    if ops != [] {
      StoreIsDisciplined(ops[1..]);
      OpLeads(ops[0]);
      LeadsIsDisciplined(ScriptOfAll(ops[1..]), None, false);
      LeadsThen(ScriptOf(ops[0]), ScriptOfAll(ops[1..]), None, false, None, None);
      LeadsIsDisciplined(ScriptOfAll(ops), None, false);
    }
  }

  // ------------------------------------------------------------------- runs

  datatype State = State(scripts: seq<Script>, held: seq<Option<nat>>, stripes: map<nat, nat>, heap: Option<nat>)

  /** The next lock operation of worker i can be done now. */
  ghost predicate Enabled(s: State, i: nat) {
    && i < |s.scripts| && s.scripts[i] != []
    && match s.scripts[i][0]
       case TakeStripe(k) => k !in s.stripes
       case TakeHeap => s.heap.None?
       case _ => true
  }

  ghost predicate Step(s: State, i: nat, s': State) {
    && Enabled(s, i) && i < |s.held|
    && var rest := s.(scripts := s.scripts[i := s.scripts[i][1..]]);
       match s.scripts[i][0]
       case TakeStripe(k) => s' == rest.(held := s.held[i := Some(k)], stripes := s.stripes[k := i])
       case DropStripe(k) => s' == rest.(held := s.held[i := None], stripes := s.stripes - {k})
       case TakeHeap => s' == rest.(heap := Some(i))
       case DropHeap => s' == rest.(heap := None)
       case _ => s' == rest
  }

  /** Every worker about to run block operations of its own, no lock held. */
  ghost predicate Init(s: State) {
    && |s.held| == |s.scripts| && s.stripes == map[] && s.heap == None
    && (forall i :: 0 <= i < |s.held| ==> s.held[i] == None)
    && (forall i :: 0 <= i < |s.scripts| ==> exists ops :: s.scripts[i] == ScriptOfAll(ops))
  }

  ghost predicate Next(s: State, s': State) { exists i :: Step(s, i, s') }

  ghost predicate StepAt(run: seq<State>, t: nat)
    requires t + 1 < |run|
  {
    Next(run[t], run[t + 1])
  }

  ghost predicate Run(run: seq<State>) {
    |run| > 0 && Init(run[0]) && forall t :: 0 <= t < |run| - 1 ==> StepAt(run, t)
  }

  /** Locks are held by whoever the scripts say; no stripe by two workers. */
  ghost predicate Inv(s: State) {
    && |s.held| == |s.scripts| && (s.heap.Some? ==> s.heap.value < |s.scripts|)
    && (forall i :: 0 <= i < |s.scripts| ==> Disciplined(s.scripts[i], s.held[i], s.heap == Some(i)))
    && (forall i :: 0 <= i < |s.held| && s.held[i].Some? ==>
          s.held[i].value in s.stripes && s.stripes[s.held[i].value] == i)
    && (forall k :: k in s.stripes ==> s.stripes[k] < |s.held| && s.held[s.stripes[k]] == Some(k))
  }

  lemma InvInit(s: State)
    requires Init(s)
    ensures Inv(s)
  {
    forall i | 0 <= i < |s.scripts|
      ensures Disciplined(s.scripts[i], s.held[i], s.heap == Some(i))
    {
      var ops :| s.scripts[i] == ScriptOfAll(ops);
      StoreIsDisciplined(ops);
    }
  }

  lemma InvNext(s: State, i: nat, s': State)
    requires Inv(s) && Step(s, i, s')
    ensures Inv(s')
  {
    assert Disciplined(s.scripts[i], s.held[i], s.heap == Some(i));
  }

  lemma {:induction false} InvAlways(run: seq<State>, t: nat)
    requires Run(run) && t < |run|
    ensures Inv(run[t])
  {
    if t == 0 {
      InvInit(run[0]);
    } else {
      InvAlways(run, t - 1);
      assert StepAt(run, t - 1);
      hide Inv;
      var i :| Step(run[t - 1], i, run[t]);
      InvNext(run[t - 1], i, run[t]);
    }
  }

  lemma HolderMoves(s: State, i: nat)
    requires Inv(s) && i < |s.scripts| && (s.heap == Some(i) || (s.heap.None? && s.held[i].Some?))
    ensures Enabled(s, i)
  {
    assert Disciplined(s.scripts[i], s.held[i], s.heap == Some(i));
  }

  /** NO DEADLOCK. Whatever any number of workers do, and however they are scheduled, as long as one
      has something left to do one of them can go on. */
  lemma NoDeadlock(run: seq<State>, t: nat, i: nat)
    requires Run(run) && t < |run| && i < |run[t].scripts| && run[t].scripts[i] != []
    ensures exists j :: Enabled(run[t], j)
  {
    InvAlways(run, t);
    hide Run;
    var s := run[t];
    if s.heap.Some? {
      HolderMoves(s, s.heap.value);
    } else if k :| k in s.stripes {
      HolderMoves(s, s.stripes[k]);
    } else {
      assert Enabled(s, i);
    }
  }

  function Length(s: Script): int { |s| }

  /** Lock operations still to do. */
  ghost function Left(s: State): int { SumBy(s.scripts, Length) }

  lemma LeftNext(s: State, s': State)
    requires Next(s, s')
    ensures Left(s') == Left(s) - 1
  {
    hide SumBy;
    var i: nat :| Step(s, i, s');
    SumUpdate(s.scripts, Length, i, s.scripts[i][1..]);
  }

  /** ... and every step is progress: a run is over after as many steps as there was work. */
  lemma {:induction false} StepsAreWork(run: seq<State>, t: nat)
    requires Run(run) && t < |run|
    ensures Left(run[t]) + t == Left(run[0])
  {
    if t > 0 {
      hide Left, Next, Init;
      StepsAreWork(run, t - 1);
      assert StepAt(run, t - 1);
      LeftNext(run[t - 1], run[t - 1 + 1]);
    }
  }

  /** Mutual exclusion: no two workers hold one stripe. */
  lemma StripeHeldOnce(run: seq<State>, t: nat, i: nat, j: nat)
    requires Run(run) && t < |run| && i < |run[t].held| && j < |run[t].held|
    requires run[t].held[i].Some? && run[t].held[i] == run[t].held[j]
    ensures i == j
  {
    InvAlways(run, t);
  }

  /** No two workers are ever at one stripe's entries, nor at the allocator's tables, at the same time. */
  lemma AccessIsExclusive(run: seq<State>, t: nat, i: nat, j: nat)
    requires Run(run) && t < |run| && i < |run[t].scripts| && j < |run[t].scripts|
    requires run[t].scripts[i] != [] && run[t].scripts[j] != [] && run[t].scripts[i][0] == run[t].scripts[j][0]
    requires run[t].scripts[i][0].Entry? || run[t].scripts[i][0].Tables?
    ensures i == j
  {
    InvAlways(run, t);
    hide Run;
    var s := run[t];
    assert Disciplined(s.scripts[i], s.held[i], s.heap == Some(i));
    assert Disciplined(s.scripts[j], s.held[j], s.heap == Some(j));
  }

  function Count(s: Script, op: LockOp): nat {
    if s == [] then 0 else (if s[0] == op then 1 else 0) + Count(s[1..], op)
  }

  lemma {:induction false} CountJoin(a: Script, b: Script, op: LockOp)
    ensures Count(a + b, op) == Count(a, op) + Count(b, op)
  {
    if a == [] {
      assert a + b == b;
    } else {
      assert (a + b)[1..] == a[1..] + b;
      CountJoin(a[1..], b, op);
    }
  }

  lemma CountOne(x: LockOp, op: LockOp)
    ensures Count([x], op) == if x == op then 1 else 0
  {
    assert [x][1..] == [];
  }

  lemma CountMaybe(call: bool, op: LockOp)
    ensures Count(Maybe(call), op) == if call && (op == TakeHeap || op == Tables || op == DropHeap) then 1 else 0
  {
    var s := SlotCall();
    assert s[1..] == [Tables, DropHeap] && s[1..][1..] == [DropHeap] && s[1..][1..][1..] == [];
    assert Count(s[1..][1..], op) == if op == DropHeap then 1 else 0;
    assert Count(s[1..], op) == (if op == Tables then 1 else 0) + Count(s[1..][1..], op);
  }

  /** How often an operation uses the entries of its stripe, and how often it calls the allocator. */
  function Uses(op: BlockOp): (entries: nat) {
    match op case Prepare => 0 case Abort => 0 case Rmw(_, _, _) => 2 case _ => 1
  }

  function Calls(op: BlockOp): nat {
    match op
    case Prepare => 1
    case Abort => 1
    case Publish(_, frees) => if frees then 1 else 0
    case TrimOne(_, frees) => if frees then 1 else 0
    case LockedRead(_) => 0
    case Rmw(_, allocs, frees) => (if allocs then 1 else 0) + if frees then 1 else 0
  }

  lemma CountThree(k: nat, op: LockOp)
    ensures Count([TakeStripe(k), Entry(k)], op) ==
            (if op == TakeStripe(k) then 1 else 0) + if op == Entry(k) then 1 else 0
    ensures Count([TakeStripe(k), Entry(k), DropStripe(k)], op) ==
            Count([TakeStripe(k), Entry(k)], op) + if op == DropStripe(k) then 1 else 0
  {
    CountOne(TakeStripe(k), op);
    CountOne(Entry(k), op);
    CountOne(DropStripe(k), op);
    CountJoin([TakeStripe(k)], [Entry(k)], op);
    assert [TakeStripe(k)] + [Entry(k)] == [TakeStripe(k), Entry(k)];
    CountJoin([TakeStripe(k), Entry(k)], [DropStripe(k)], op);
    assert [TakeStripe(k), Entry(k)] + [DropStripe(k)] == [TakeStripe(k), Entry(k), DropStripe(k)];
  }

  /** The scripts leave nothing out: every operation makes its uses of its own stripe's entries and its calls of
      the allocator - by the discipline, each under its lock. */
  lemma ScriptIsComplete(op: BlockOp, k: nat)
    requires op == Prepare || op == Abort || k == op.k
    ensures Count(ScriptOf(op), Entry(k)) == Uses(op) && Count(ScriptOf(op), Tables) == Calls(op)
  {
    CountScript(op, k, Entry(k));
    CountScript(op, k, Tables);
  }

  lemma CountScript(op: BlockOp, k: nat, x: LockOp)
    requires (op == Prepare || op == Abort || k == op.k) && (x == Entry(k) || x == Tables)
    ensures Count(ScriptOf(op), x) == if x == Tables then Calls(op) else Uses(op)
  {
    CountThree(k, x);
    CountOne(Entry(k), x);
    CountOne(Work, x);
    CountOne(DropStripe(k), x);
    CountMaybe(true, x);
    CountMaybe(false, x);
    match op
    case Publish(_, frees) => CountJoin([TakeStripe(k), Entry(k), DropStripe(k)], Maybe(frees), x);
    case TrimOne(_, frees) =>
      CountJoin([Work], [TakeStripe(k), Entry(k), DropStripe(k)], x);
      assert [Work] + [TakeStripe(k), Entry(k), DropStripe(k)] == [Work, TakeStripe(k), Entry(k), DropStripe(k)];
      CountJoin([Work, TakeStripe(k), Entry(k), DropStripe(k)], Maybe(frees), x);
    case Rmw(_, allocs, frees) =>
      var head := [TakeStripe(k), Entry(k)];
      CountJoin(head, Maybe(allocs), x);
      CountJoin(head + Maybe(allocs), [Entry(k)], x);
      CountJoin(head + Maybe(allocs) + [Entry(k)], Maybe(frees), x);
      CountJoin(head + Maybe(allocs) + [Entry(k)] + Maybe(frees), [DropStripe(k)], x);
    case _ =>
  }
}
