/** Shutdown: signal handlers, the workers' accept loops and the main thread, as a transition system.
    Each read or write of a shared flag is one step; the scan for connected clients is not atomic. */
module Drain {

  datatype WorkerPc =
    | Starting
    | Top                    // while (g_running)
    | Checking               // if (g_term_requested)
    | Scanning(c: nat)       // clients_connected, slots below c seen empty
    | Stopping               // none connected: about to clear g_running
    | Accepting
    | Registering            // accepted, slot not set yet
    | Serving                // handle_client, slot set
    | Exited

  /** A SIGTERM handler, run by whichever thread the signal hits. */
  datatype HandlerPc = Requesting | Looking(c: nat) | Halting | Returned

  datatype MainPc = Joining(k: nat) | Ending | Freed

  /** `owed` is history: the slots that were set when termination was first requested and have not been
      cleared since. */
  datatype State = State(running: bool, term: bool, slots: seq<bool>, workers: seq<WorkerPc>, handlers: seq<HandlerPc>,
      main: MainPc, owed: set<nat>)

  ghost predicate Init(s: State) {
    && s.running && !s.term && |s.slots| == |s.workers| && s.owed == {} && s.main == Joining(0) && s.handlers == []
    && (forall i :: 0 <= i < |s.slots| ==> !s.slots[i])
       && (forall i :: 0 <= i < |s.workers| ==> s.workers[i] == Starting)
  }

  function Goto(s: State, i: nat, pc: WorkerPc): State
    requires i < |s.workers|
  {
    s.(workers := s.workers[i := pc])
  }

  function ToHandler(s: State, h: nat, pc: HandlerPc): State
    requires h < |s.handlers|
  {
    s.(handlers := s.handlers[h := pc])
  }

  ghost predicate WorkerStep(s: State, i: nat, s': State)
    requires i < |s.workers| == |s.slots|
  {
    match s.workers[i]
    case Starting => s' == Goto(s, i, Top) || s' == Goto(s, i, Exited)
    case Top => s' == Goto(s, i, if s.running then Checking else Exited)
    case Checking => s' == Goto(s, i, if s.term then Scanning(0) else Accepting)
    case Scanning(c) =>
      if c >= |s.slots| then s' == Goto(s, i, Stopping)
      else s' == Goto(s, i, if s.slots[c] then Top else Scanning(c + 1))
    case Stopping => s' == Goto(s, i, Exited).(running := false)
    case Accepting => s' == Goto(s, i, Top) || s' == Goto(s, i, Registering) || s' == Goto(s, i, Exited)
    case Registering => s' == Goto(s, i, Serving).(slots := s.slots[i := true])
    case Serving => s' == Goto(s, i, Top).(slots := s.slots[i := false], owed := s.owed - {i})
    case Exited => false
  }

  ghost function SetSlots(s: State): set<nat> { set i | 0 <= i < |s.slots| && s.slots[i] }

  ghost predicate HandlerStep(s: State, h: nat, s': State)
    requires h < |s.handlers|
  {
    match s.handlers[h]
    case Requesting => s' == ToHandler(s, h, Looking(0)).(term := true, owed := if s.term then s.owed else SetSlots(s))
    case Looking(c) =>
      if c >= |s.slots| then s' == ToHandler(s, h, Halting)
      else s' == ToHandler(s, h, if s.slots[c] then Returned else Looking(c + 1))
    case Halting => s' == ToHandler(s, h, Returned).(running := false)
    case Returned => false
  }

  ghost predicate MainStep(s: State, s': State) {
    match s.main
    case Joining(k) =>
      if k >= |s.workers| then s' == s.(running := false, main := Ending)
      else s.workers[k] == Exited && s' == s.(main := Joining(k + 1))
    case Ending => s' == s.(main := Freed)
    case Freed => false
  }

  /** One step by anyone; a signal may arrive at any moment, any number of times. */
  ghost predicate Next(s: State, s': State) {
    || (exists i :: 0 <= i < |s.workers| == |s.slots| && WorkerStep(s, i, s'))
    || (exists h :: 0 <= h < |s.handlers| && HandlerStep(s, h, s'))
    || MainStep(s, s')
    || s' == s.(handlers := s.handlers + [Requesting])
  }

  ghost predicate StepAt(run: seq<State>, t: nat)
    requires t + 1 < |run|
  {
    Next(run[t], run[t + 1])
  }

  ghost predicate Run(run: seq<State>) {
    |run| > 0 && Init(run[0]) && forall t :: 0 <= t < |run| - 1 ==> StepAt(run, t)
  }

  // --------------------------------------------------------------- invariant

  /** A scan that has seen the slots below c empty has not passed a slot it is owed to notice. */
  ghost predicate Ahead(s: State, c: nat) { s.term && forall i :: i in s.owed ==> c <= i }

  ghost predicate WorkerOk(s: State, i: nat)
    requires i < |s.workers| == |s.slots|
  {
    && (s.slots[i] <==> s.workers[i] == Serving)
    && (s.workers[i].Scanning? ==> Ahead(s, s.workers[i].c))
    && (s.workers[i].Stopping? ==> s.term && s.owed == {})
  }

  ghost predicate HandlerOk(s: State, h: nat)
    requires h < |s.handlers|
  {
    && (s.handlers[h].Looking? ==> Ahead(s, s.handlers[h].c))
    && (s.handlers[h].Halting? ==> s.term && s.owed == {})
  }

  ghost predicate MainOk(s: State) {
    && (s.main.Joining? ==> forall i :: 0 <= i < s.main.k && i < |s.workers| ==> s.workers[i] == Exited)
    && (!s.main.Joining? ==> forall i :: 0 <= i < |s.workers| ==> s.workers[i] == Exited)
  }

  ghost predicate Inv(s: State) {
    && |s.slots| == |s.workers|
    && (forall i :: i in s.owed ==> i < |s.slots| && s.slots[i])
    && (s.owed != {} ==> s.running)
    && (forall i :: 0 <= i < |s.workers| ==> WorkerOk(s, i))
    && (forall h :: 0 <= h < |s.handlers| ==> HandlerOk(s, h))
    && MainOk(s)
    && (!s.term ==> s.owed == {} && (s.running || !s.main.Joining?))
  }

  lemma InitOk(s: State)
    requires Init(s)
    ensures Inv(s)
  {
  }

  lemma WorkerKeeps(s: State, i: nat, s': State)
    requires Inv(s) && i < |s.workers| && WorkerStep(s, i, s')
    ensures Inv(s')
  {
    assert WorkerOk(s, i);
    forall j | 0 <= j < |s'.workers|
      ensures WorkerOk(s', j)
    {
      assert WorkerOk(s, j);
    }
    forall h | 0 <= h < |s'.handlers|
      ensures HandlerOk(s', h)
    {
      assert HandlerOk(s, h);
    }
  }

  /** With every worker gone no slot is set. */
  lemma AllGone(s: State)
    requires Inv(s) && forall i :: 0 <= i < |s.workers| ==> s.workers[i] == Exited
    ensures SetSlots(s) == {} && s.owed == {}
  {
    forall i | 0 <= i < |s.slots|
      ensures !s.slots[i]
    {
      assert WorkerOk(s, i);
    }
  }

  lemma HandlerKeeps(s: State, h: nat, s': State)
    requires Inv(s) && h < |s.handlers| && HandlerStep(s, h, s')
    ensures Inv(s')
  {
    assert HandlerOk(s, h);
    if !s.term && !s.main.Joining? {
      AllGone(s);
    }
    forall j | 0 <= j < |s'.workers|
      ensures WorkerOk(s', j)
    {
      assert WorkerOk(s, j);
    }
    forall k | 0 <= k < |s'.handlers|
      ensures HandlerOk(s', k)
    {
      assert HandlerOk(s, k);
    }
  }

  lemma MainKeeps(s: State, s': State)
    requires Inv(s) && MainStep(s, s')
    ensures Inv(s')
  {
    if s.main.Joining? && s.main.k >= |s.workers| {
      AllGone(s);
    }
    forall j | 0 <= j < |s'.workers|
      ensures WorkerOk(s', j)
    {
      assert WorkerOk(s, j);
    }
    forall k | 0 <= k < |s'.handlers|
      ensures HandlerOk(s', k)
    {
      assert HandlerOk(s, k);
    }
  }

  lemma SignalKeeps(s: State)
    requires Inv(s)
    ensures Inv(s.(handlers := s.handlers + [Requesting]))
  {
    var s' := s.(handlers := s.handlers + [Requesting]);
    forall j | 0 <= j < |s'.workers|
      ensures WorkerOk(s', j)
    {
      assert WorkerOk(s, j);
    }
    forall k | 0 <= k < |s'.handlers|
      ensures HandlerOk(s', k)
    {
      if k < |s.handlers| { assert HandlerOk(s, k); }
    }
  }

  lemma InvNext(s: State, s': State)
    requires Inv(s) && Next(s, s')
    ensures Inv(s')
  {
    hide Inv, WorkerStep, HandlerStep, MainStep;
    if i :| 0 <= i < |s.workers| == |s.slots| && WorkerStep(s, i, s') {
      WorkerKeeps(s, i, s');
    } else if h :| 0 <= h < |s.handlers| && HandlerStep(s, h, s') {
      HandlerKeeps(s, h, s');
    } else if MainStep(s, s') {
      MainKeeps(s, s');
    } else {
      SignalKeeps(s);
    }
  }

  lemma {:induction false} InvAlways(run: seq<State>, t: nat)
    requires Run(run) && t < |run|
    ensures Inv(run[t])
  {
    if t == 0 {
      InitOk(run[0]);
    } else {
      InvAlways(run, t - 1);
      assert StepAt(run, t - 1);
      InvNext(run[t - 1], run[t]);
    }
  }

  // ---------------------------------------------------------------- theorems

  /** VRAM is freed only after every worker has left its loop; by then no client is registered. */
  lemma FreedLast(run: seq<State>, t: nat, i: nat)
    requires Run(run) && t < |run| && run[t].main == Freed && i < |run[t].workers|
    ensures run[t].workers[i] == Exited && i < |run[t].slots| && !run[t].slots[i]
  {
    InvAlways(run, t);
    assert WorkerOk(run[t], i);
  }

  /** A worker that has left never comes back, so nothing touches freed VRAM. */
  lemma ExitedForGood(s: State, s': State, i: nat)
    requires Next(s, s') && i < |s.workers| && s.workers[i] == Exited
    ensures i < |s'.workers| && s'.workers[i] == Exited
  {
    hide WorkerStep, HandlerStep, MainStep;
    if k :| 0 <= k < |s.workers| == |s.slots| && WorkerStep(s, k, s') {
      WorkerMovesItself(s, k, s', i);
    } else if h :| 0 <= h < |s.handlers| && HandlerStep(s, h, s') {
      HandlerMovesNoWorker(s, h, s');
    } else if MainStep(s, s') {
      MainMovesNoWorker(s, s');
    }
  }

  lemma WorkerMovesItself(s: State, k: nat, s': State, i: nat)
    requires k < |s.workers| == |s.slots| && WorkerStep(s, k, s') && i < |s.workers| && s.workers[i] == Exited
    ensures i < |s'.workers| && s'.workers[i] == Exited
  {
  }

  lemma HandlerMovesNoWorker(s: State, h: nat, s': State)
    requires h < |s.handlers| && HandlerStep(s, h, s')
    ensures s'.workers == s.workers
  {
  }

  lemma MainMovesNoWorker(s: State, s': State)
    requires MainStep(s, s')
    ensures s'.workers == s.workers
  {
  }

  /** Debts are only settled by the client leaving. */
  lemma OwedNext(s: State, s': State, i: nat)
    requires Inv(s) && Next(s, s') && i < |s.slots| && s.slots[i]
    requires i < |s'.slots| && s'.slots[i] && s'.term
    requires s.term ==> i in s.owed
    ensures i in s'.owed
  {
    assert WorkerOk(s, i);
  }

  /** THE DRAIN GUARANTEE. A client whose slot is set when termination is first requested is served
      until it leaves: as long as its slot stays set, whatever signals arrive and whatever the other
      workers do, g_running stays 1 and the main thread frees nothing. */
  lemma {:induction false} ServedUntilItLeaves(run: seq<State>, t0: nat, t: nat, i: nat)
    requires Run(run) && t0 + 1 <= t < |run| && !run[t0].term && run[t0 + 1].term
    requires forall u :: t0 <= u <= t ==> i < |run[u].slots| && run[u].slots[i]
    ensures run[t].term && i in run[t].owed && run[t].running && run[t].main.Joining?
  {
    InvAlways(run, t - 1);
    InvAlways(run, t);
    assert StepAt(run, t - 1);
    hide Run;
    if t > t0 + 1 {
      ServedUntilItLeaves(run, t0, t - 1, i);
      TermStays(run[t - 1], run[t]);
    }
    OwedNext(run[t - 1], run[t], i);
    assert WorkerOk(run[t], i);
  }

  lemma TermStays(s: State, s': State)
    requires Next(s, s') && s.term
    ensures s'.term
  {
  }

  /** A registered client whose server has stopped. */
  ghost predicate CutOff(s: State) { !s.running && exists i :: 0 <= i < |s.slots| && s.slots[i] }

  lemma Extend(run: seq<State>, s': State)
    requires Run(run) && Next(run[|run| - 1], s')
    ensures Run(run + [s'])
  {
    hide Next, Init;
    var r := run + [s'];
    forall t | 0 <= t < |r| - 1
      ensures StepAt(r, t)
    {
      if t < |run| - 1 { assert StepAt(run, t); }
    }
  }

  ghost predicate Reachable(s: State) { exists run :: Run(run) && run[|run| - 1] == s }

  lemma Reach(s: State, s': State)
    requires Reachable(s) && Next(s, s')
    ensures Reachable(s')
  {
    hide Next;
    var run :| Run(run) && run[|run| - 1] == s;
    Extend(run, s');
    hide Run;
    assert (run + [s'])[|run + [s']| - 1] == s';
  }

  lemma ByWorker(s: State, s': State)
    requires Reachable(s) && |s.workers| == |s.slots| == 1 && WorkerStep(s, 0, s')
    ensures Reachable(s')
  {
    hide WorkerStep, Reachable;
    Reach(s, s');
  }

  lemma ByHandler(s: State, s': State)
    requires Reachable(s) && |s.handlers| == 1 && HandlerStep(s, 0, s')
    ensures Reachable(s')
  {
    hide HandlerStep, Reachable;
    Reach(s, s');
  }

  /** One worker, its client accepted and not yet registered. */
  function Halfway(): State { State(true, false, [false], [Registering], [], Joining(0), {}) }

  /** One worker, nothing else. */
  function Alone(pc: WorkerPc): State { State(true, false, [false], [pc], [], Joining(0), {}) }

  lemma AloneReachable()
    ensures Reachable(Alone(Starting))
  {
    var s0 := Alone(Starting);
    assert Run([s0]) && [s0][|[s0]| - 1] == s0;
  }

  lemma HalfwayReachable()
    ensures Reachable(Halfway())
  {
    hide Reachable;
    AloneReachable();
    ByWorker(Alone(Starting), Alone(Top));
    ByWorker(Alone(Top), Alone(Checking));
    ByWorker(Alone(Checking), Alone(Accepting));
    ByWorker(Alone(Accepting), Halfway());
  }

  /** The guarantee stops at registration, and exactly there: a client accepted but not registered yet
      when the signal is handled can find its server stopped. One worker, one signal. */
  lemma UnregisteredCanBeCut()
    ensures exists s :: Reachable(s) && CutOff(s)
  {
    HalfwayReachable();
    hide Reachable;
    var h := Halfway();
    var asked := h.(handlers := [Requesting]);
    var looking := h.(term := true, handlers := [Looking(0)]);
    var stopped := looking.(handlers := [Returned], running := false);
    var served := stopped.(workers := [Serving], slots := [true]);
    Reach(h, asked);
    assert SetSlots(asked) == {};
    ByHandler(asked, looking);
    ByHandler(looking, looking.(handlers := [Looking(1)]));
    ByHandler(looking.(handlers := [Looking(1)]), looking.(handlers := [Halting]));
    ByHandler(looking.(handlers := [Halting]), stopped);
    ByWorker(stopped, served);
    assert served.slots[0];
  }
}
