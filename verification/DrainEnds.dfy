/** Shutdown completes: once termination is requested, only connected clients and further signals can hold it
    up, and each of them only for so long. */
module DrainEnds {
  import opened Drain

  // ------------------------------------------------------------- work left

  /** Steps a worker has left before it exits, at most, if no scan of its own meets a client. n slots. */
  function WorkerLeft(pc: WorkerPc, running: bool, n: nat): nat {
    match pc
    case Exited => 0
    case Stopping => 1
    case Scanning(c) => 2 + if c < n then n - c else 0
    case Checking => n + 3
    case Top => if running then n + 4 else 1
    case Starting => if running then n + 5 else 2
    case Serving => if running then n + 5 else 2
    case Registering => if running then n + 6 else 3
    case Accepting => if running then n + 7 else 4
  }

  function HandlerLeft(pc: HandlerPc, n: nat): nat {
    match pc
    case Requesting => n + 3
    case Looking(c) => 2 + if c < n then n - c else 0
    case Halting => 1
    case Returned => 0
  }

  function MainLeft(m: MainPc, n: nat): nat {
    match m
    case Joining(k) => 2 + if k < n then n - k else 0
    case Ending => 1
    case Freed => 0
  }

  function WorkersLeft(ws: seq<WorkerPc>, running: bool, n: nat): nat {
    if ws == [] then 0 else WorkersLeft(ws[..|ws| - 1], running, n) + WorkerLeft(ws[|ws| - 1], running, n)
  }

  function HandlersLeft(hs: seq<HandlerPc>, n: nat): nat {
    if hs == [] then 0 else HandlersLeft(hs[..|hs| - 1], n) + HandlerLeft(hs[|hs| - 1], n)
  }

  /** The steps left until the memory is freed, unless something holds the shutdown up. */
  function Left(s: State): nat {
    WorkersLeft(s.workers, s.running, |s.slots|) + HandlersLeft(s.handlers, |s.slots|) + MainLeft(s.main, |s.workers|)
  }

  /** In plain numbers: for n workers and m signals so far, at most n(n + 7) + m(n + 3) + n + 2. */
  lemma LeftBound(s: State)
    requires Inv(s)
    ensures var n, m := |s.workers|, |s.handlers|; Left(s) <= n * (n + 7) + m * (n + 3) + n + 2
  {
    hide Inv;
    assert |s.slots| == |s.workers| by { SlotsOfWorkers(s); }
    WorkersBound(s.workers, s.running, |s.slots|);
    HandlersBound(s.handlers, |s.slots|);
  }

  lemma SlotsOfWorkers(s: State)
    requires Inv(s)
    ensures |s.slots| == |s.workers|
  {
  }

  lemma {:induction false} WorkersBound(ws: seq<WorkerPc>, running: bool, n: nat)
    ensures WorkersLeft(ws, running, n) <= |ws| * (n + 7)
  {
    if ws != [] {
      WorkersBound(ws[..|ws| - 1], running, n);
      assert (|ws| - 1) * (n + 7) + (n + 7) == |ws| * (n + 7);
    }
  }

  lemma {:induction false} HandlersBound(hs: seq<HandlerPc>, n: nat)
    ensures HandlersLeft(hs, n) <= |hs| * (n + 3)
  {
    if hs != [] {
      HandlersBound(hs[..|hs| - 1], n);
      assert (|hs| - 1) * (n + 3) + (n + 3) == |hs| * (n + 3);
    }
  }

  lemma {:induction false} WorkersUpdate(ws: seq<WorkerPc>, running: bool, n: nat, i: nat, pc: WorkerPc)
    requires i < |ws|
    ensures WorkersLeft(ws[i := pc], running, n) ==
            WorkersLeft(ws, running, n) - WorkerLeft(ws[i], running, n) + WorkerLeft(pc, running, n)
  {
    var m := |ws| - 1;
    if i < m {
      assert ws[i := pc][..m] == ws[..m][i := pc];
      WorkersUpdate(ws[..m], running, n, i, pc);
    } else {
      assert ws[i := pc][..m] == ws[..m];
    }
  }

  lemma {:induction false} HandlersUpdate(hs: seq<HandlerPc>, n: nat, h: nat, pc: HandlerPc)
    requires h < |hs|
    ensures HandlersLeft(hs[h := pc], n) == HandlersLeft(hs, n) - HandlerLeft(hs[h], n) + HandlerLeft(pc, n)
  {
    var m := |hs| - 1;
    if h < m {
      assert hs[h := pc][..m] == hs[..m][h := pc];
      HandlersUpdate(hs[..m], n, h, pc);
    } else {
      assert hs[h := pc][..m] == hs[..m];
    }
  }

  /** Stopping the daemon gives nobody more to do. */
  lemma {:induction false} StoppingHelps(ws: seq<WorkerPc>, running: bool, n: nat)
    ensures WorkersLeft(ws, false, n) <= WorkersLeft(ws, running, n)
  {
    if ws != [] { StoppingHelps(ws[..|ws| - 1], running, n); }
  }

  // ------------------------------------------------------------ what holds it up

  ghost predicate Signals(s: State, s': State) { s' == s.(handlers := s.handlers + [Requesting]) }

  ghost predicate MeetsClient(s: State, i: nat, s': State) {
    && s.running && i < |s.workers| && s.workers[i].Scanning?
    && s.workers[i].c < |s.slots| && s.slots[s.workers[i].c] && s' == Goto(s, i, Top)
  }

  /** A worker of the running daemon met a connected client in its scan and starts over. */
  ghost predicate Rescans(s: State, s': State) { exists i :: MeetsClient(s, i, s') }

  ghost predicate HeldUp(s: State, s': State) { Signals(s, s') || Rescans(s, s') }

  /** What a worker's step leaves alone. */
  ghost predicate OnlyWorker(s: State, i: nat, s': State)
    requires i < |s.workers|
  {
    && i < |s'.workers| && s'.workers == s.workers[i := s'.workers[i]] && |s'.slots| == |s.slots|
    && s'.handlers == s.handlers && s'.main == s.main && s'.term == s.term && (s'.running ==> s.running)
  }

  lemma WorkerShape(s: State, i: nat, s': State)
    requires i < |s.workers| == |s.slots| && WorkerStep(s, i, s')
    ensures OnlyWorker(s, i, s')
  {
  }

  /** What a worker's own step does to its work. */
  lemma WorkerMoves(s: State, i: nat, s': State)
    requires i < |s.workers| == |s.slots| && s.term && WorkerStep(s, i, s')
    ensures i < |s'.workers|
    ensures var n := |s.slots|;
            && (MeetsClient(s, i, s')
                || WorkerLeft(s'.workers[i], s.running, n) < WorkerLeft(s.workers[i], s.running, n))
            && WorkerLeft(s'.workers[i], s.running, n) <= WorkerLeft(s.workers[i], s.running, n) + n + 3
  {
  }

  lemma WorkerProgress(s: State, i: nat, s': State)
    requires Inv(s) && s.term && i < |s.workers| && WorkerStep(s, i, s')
    ensures Rescans(s, s') || Left(s') < Left(s)
    ensures Left(s') <= Left(s) + |s.slots| + 3
  {
    SlotsOfWorkers(s);
    hide Inv, WorkerStep, WorkerLeft, WorkersLeft, MeetsClient;
    WorkerShape(s, i, s');
    WorkerMoves(s, i, s');
    WorkersUpdate(s.workers, s.running, |s.slots|, i, s'.workers[i]);
    StoppingHelps(s'.workers, s.running, |s.slots|);
  }

  lemma HandlerProgress(s: State, h: nat, s': State)
    requires h < |s.handlers| && HandlerStep(s, h, s')
    ensures Left(s') < Left(s)
  {
    var pc' := s'.handlers[h];
    assert s'.handlers == s.handlers[h := pc'];
    HandlersUpdate(s.handlers, |s.slots|, h, pc');
    StoppingHelps(s.workers, s.running, |s.slots|);
    hide HandlersLeft, WorkersLeft;
  }

  lemma MainProgress(s: State, s': State)
    requires MainStep(s, s')
    ensures Left(s') < Left(s)
  {
    StoppingHelps(s.workers, s.running, |s.slots|);
  }

  lemma SignalCost(s: State, s': State)
    requires Signals(s, s')
    ensures Left(s') == Left(s) + |s.slots| + 3
  {
    assert s'.handlers[..|s'.handlers| - 1] == s.handlers;
  }

  /** Once termination is requested every step is progress, except that a signal or a scan meeting a client
      costs a fixed number of steps more. */
  lemma StepCost(s: State, s': State)
    requires Inv(s) && s.term && Next(s, s')
    ensures |s'.slots| == |s.slots|
    ensures Left(s') + 1 <= Left(s) + if HeldUp(s, s') then |s.slots| + 4 else 0
  {
    SlotsKept(s, s');
    hide Inv, Left, WorkerStep, HandlerStep, MainStep, Signals, Rescans;
    if i :| 0 <= i < |s.workers| == |s.slots| && WorkerStep(s, i, s') {
      WorkerProgress(s, i, s');
    } else if h :| 0 <= h < |s.handlers| && HandlerStep(s, h, s') {
      HandlerProgress(s, h, s');
    } else if MainStep(s, s') {
      MainProgress(s, s');
    } else {
      assert Signals(s, s') by { SignalIs(s, s'); }
      SignalCost(s, s');
    }
  }

  lemma SignalIs(s: State, s': State)
    requires s' == s.(handlers := s.handlers + [Requesting])
    ensures Signals(s, s')
  {
  }

  lemma SlotsKept(s: State, s': State)
    requires Next(s, s')
    ensures |s'.slots| == |s.slots| && |s'.workers| == |s.workers|
  {
    hide WorkerStep;
    if i :| 0 <= i < |s.workers| == |s.slots| && WorkerStep(s, i, s') { WorkerShape(s, i, s'); }
  }

  // --------------------------------------------------------------- theorems

  ghost predicate HeldUpAt(run: seq<State>, t: nat)
    requires t + 1 < |run|
  {
    HeldUp(run[t], run[t + 1])
  }

  /** How often a signal or a connected client held the shutdown up between t0 and t. */
  ghost function Delays(run: seq<State>, t0: nat, t: nat): nat
    requires t0 <= t < |run|
    decreases t
  {
    if t == t0 then 0 else Delays(run, t0, t - 1) + if HeldUpAt(run, t - 1) then 1 else 0
  }

  lemma {:induction false} TermForGood(run: seq<State>, t0: nat, t: nat)
    requires Run(run) && t0 <= t < |run| && run[t0].term
    ensures run[t].term
  {
    hide Next;
    if t0 < t {
      TermForGood(run, t0, t - 1);
      assert StepAt(run, t - 1);
      TermStays(run[t - 1], run[t]);
    }
  }

  lemma {:induction false} SlotsForGood(run: seq<State>, t: nat)
    requires Run(run) && t < |run|
    ensures |run[t].slots| == |run[0].slots|
  {
    hide Next;
    if t > 0 {
      SlotsForGood(run, t - 1);
      assert StepAt(run, t - 1);
      SlotsKept(run[t - 1], run[t]);
    }
  }

  /** THE DRAIN COMPLETES. From the moment termination is requested, the steps taken and the steps left never
      exceed the steps left at first, plus a fixed number for every signal since and every time a scan met a
      connected client. */
  lemma {:induction false} DrainBudget(run: seq<State>, t0: nat, t: nat)
    requires Run(run) && t0 <= t < |run| && run[t0].term
    ensures (t - t0) + Left(run[t]) <= Left(run[t0]) + Delays(run, t0, t) * (|run[0].slots| + 4)
    decreases t
  {
    hide Next, Left, Run;
    if t0 < t {
      DrainBudget(run, t0, t - 1);
      TermForGood(run, t0, t - 1);
      SlotsForGood(run, t - 1);
      InvAlways(run, t - 1);
      assert StepAt(run, t - 1) by { RunAt(run, t - 1); }
      StepCost(run[t - 1], run[t]);
      var d, k := Delays(run, t0, t - 1), |run[0].slots| + 4;
      assert (d + 1) * k == d * k + k;
    }
  }

  lemma RunAt(run: seq<State>, t: nat)
    requires Run(run) && t + 1 < |run|
    ensures StepAt(run, t)
  {
  }

  /** A way on that nothing holds up. */
  ghost predicate CanGoOn(s: State) { exists s' :: Next(s, s') && !HeldUp(s, s') }

  lemma WorkerGoesOn(s: State, i: nat, s': State)
    requires i < |s.workers| == |s.slots| && WorkerStep(s, i, s') && !MeetsClient(s, i, s')
    requires |s'.handlers| == |s.handlers| && s'.workers == s.workers[i := s'.workers[i]]
             && s'.workers[i] != s.workers[i]
    ensures CanGoOn(s)
  {
    hide WorkerStep;
    forall j | 0 <= j < |s.workers|
      ensures !MeetsClient(s, j, s')
    {
      if j != i { assert Goto(s, j, Top).workers[i] == s.workers[i]; }
    }
    assert !Signals(s, s') && !Rescans(s, s');
    assert Next(s, s');
  }

  /** A worker still there can go on, or another one can: whoever a scan meets is being served. */
  lemma SomeWorkerGoesOn(s: State, i: nat)
    requires Inv(s) && s.term && i < |s.workers| && s.workers[i] != Exited
    ensures CanGoOn(s)
  {
    var n := |s.slots|;
    assert n == |s.workers| && WorkerOk(s, i);
    match s.workers[i]
    case Starting => WorkerGoesOn(s, i, Goto(s, i, Top));
    case Top => WorkerGoesOn(s, i, Goto(s, i, if s.running then Checking else Exited));
    case Checking => WorkerGoesOn(s, i, Goto(s, i, Scanning(0)));
    case Scanning(c) =>
      if c >= n {
        WorkerGoesOn(s, i, Goto(s, i, Stopping));
      } else if s.slots[c] {
        assert WorkerOk(s, c);
        WorkerGoesOn(s, c, Goto(s, c, Top).(slots := s.slots[c := false], owed := s.owed - {c}));
      } else {
        WorkerGoesOn(s, i, Goto(s, i, Scanning(c + 1)));
      }
    case Stopping => WorkerGoesOn(s, i, Goto(s, i, Exited).(running := false));
    case Accepting => WorkerGoesOn(s, i, Goto(s, i, Top));
    case Registering => WorkerGoesOn(s, i, Goto(s, i, Serving).(slots := s.slots[i := true]));
    case Serving => WorkerGoesOn(s, i, Goto(s, i, Top).(slots := s.slots[i := false], owed := s.owed - {i}));
  }

  lemma MainGoesOn(s: State, s': State)
    requires MainStep(s, s') && s'.handlers == s.handlers && s'.main != s.main
    ensures CanGoOn(s)
  {
    hide MainStep;
    forall j | 0 <= j < |s.workers|
      ensures !MeetsClient(s, j, s')
    {
    }
    assert !Signals(s, s') && !Rescans(s, s');
    assert Next(s, s');
  }

  /** Until the memory is freed there is always a way on. */
  lemma AlwaysAWayOn(s: State)
    requires Inv(s) && s.term && s.main != Freed
    ensures CanGoOn(s)
  {
    hide CanGoOn;
    if i :| 0 <= i < |s.workers| && s.workers[i] != Exited {
      SomeWorkerGoesOn(s, i);
    } else {
      hide Inv;
      match s.main
      case Joining(k) =>
        if k >= |s.workers| {
          MainGoesOn(s, s.(running := false, main := Ending));
        } else {
          MainGoesOn(s, s.(main := Joining(k + 1)));
        }
      case Ending => MainGoesOn(s, s.(main := Freed));
    }
  }

  /** With nothing to hold it up, the shutdown is over after `Left` steps at most: a run that has taken them all,
      or cannot go on, has stopped the daemon, seen every worker out and freed the memory. */
  lemma DrainEnds(run: seq<State>, t0: nat, t: nat)
    requires Run(run) && t0 <= t < |run| && run[t0].term && Delays(run, t0, t) == 0
    ensures t - t0 <= Left(run[t0])
    ensures t - t0 == Left(run[t0]) || !CanGoOn(run[t]) ==>
              && run[t].main == Freed && !run[t].running
              && forall i :: 0 <= i < |run[t].workers| ==> run[t].workers[i] == Exited
  {
    hide CanGoOn, Run;
    DrainBudget(run, t0, t);
    InvAlways(run, t);
    TermForGood(run, t0, t);
    if run[t].main != Freed { AlwaysAWayOn(run[t]); }
    FreedStopped(run, t);
  }

  lemma {:induction false} FreedStopped(run: seq<State>, t: nat)
    requires Run(run) && t < |run|
    ensures !run[t].main.Joining? ==> !run[t].running
  {
    if t > 0 {
      FreedStopped(run, t - 1);
      assert StepAt(run, t - 1);
    }
  }

  /** A stopped daemon stays stopped, and from then on only signals hold the shutdown up: no client does. */
  lemma StoppedForGood(s: State, s': State)
    requires Next(s, s') && !s.running
    ensures !s'.running && !Rescans(s, s')
  {
  }

  /** While nobody is connected no scan starts over. */
  lemma NobodyHoldsUp(s: State, s': State)
    requires SetSlots(s) == {}
    ensures !Rescans(s, s')
  {
    forall i | 0 <= i < |s.slots|
      ensures !s.slots[i]
    {
      assert s.slots[i] ==> i in SetSlots(s);
    }
  }

  // ---------------------------------------------------- signals and latecomers

  /** Where the handler of a signal that finds nobody connected can be. */
  ghost predicate WillStop(s: State, h: nat) {
    h < |s.handlers| && (s.handlers[h] == Returned ==> !s.running)
  }

  lemma WillStopNext(s: State, s': State, h: nat)
    requires Next(s, s') && WillStop(s, h) && SetSlots(s) == {}
    ensures WillStop(s', h)
  {
    hide WorkerStep, HandlerStep, MainStep;
    if i :| 0 <= i < |s.workers| == |s.slots| && WorkerStep(s, i, s') {
      WorkerShape(s, i, s');
    } else if k :| 0 <= k < |s.handlers| && HandlerStep(s, k, s') {
      HandlerStops(s, k, s');
    } else if MainStep(s, s') {
      MainShape(s, s');
    }
  }

  lemma HandlerStops(s: State, k: nat, s': State)
    requires k < |s.handlers| && HandlerStep(s, k, s') && SetSlots(s) == {}
    ensures k < |s'.handlers| && s'.handlers == s.handlers[k := s'.handlers[k]] && (s'.running ==> s.running)
    ensures s'.handlers[k] == Returned ==> !s'.running
  {
    forall i | 0 <= i < |s.slots|
      ensures !s.slots[i]
    {
      assert s.slots[i] ==> i in SetSlots(s);
    }
  }

  lemma MainShape(s: State, s': State)
    requires MainStep(s, s')
    ensures s'.handlers == s.handlers && s'.workers == s.workers && (s'.running ==> s.running)
  {
  }

  /** A SIGNAL WITH NOBODY CONNECTED STOPS THE DAEMON by the time its handler returns. */
  lemma {:induction false} IdleSignalStops(run: seq<State>, h: nat, u: nat, t: nat)
    requires Run(run) && u <= t < |run| && h < |run[u].handlers| && run[u].handlers[h] == Requesting
    requires forall v :: u <= v <= t ==> SetSlots(run[v]) == {}
    ensures h < |run[t].handlers| && (run[t].handlers[h] == Returned ==> !run[t].running)
  {
    hide Next, SetSlots;
    if u < t {
      IdleSignalStops(run, h, u, t - 1);
      assert StepAt(run, t - 1);
      WillStopNext(run[t - 1], run[t], h);
    }
  }

  /** A worker that takes no more clients while the daemon drains. */
  predicate Closed(pc: WorkerPc) { !pc.Accepting? && !pc.Registering? }

  lemma ClosedNext(s: State, s': State, i: nat)
    requires Next(s, s') && s.term && i < |s.workers| && Closed(s.workers[i])
    ensures i < |s'.workers| && Closed(s'.workers[i])
  {
    hide WorkerStep, HandlerStep, MainStep;
    if k :| 0 <= k < |s.workers| == |s.slots| && WorkerStep(s, k, s') {
      WorkerShape(s, k, s');
      if k == i { StaysClosed(s, i, s'); }
    } else if h :| 0 <= h < |s.handlers| && HandlerStep(s, h, s') {
      HandlerMovesNoWorker(s, h, s');
    } else if MainStep(s, s') {
      MainShape(s, s');
    }
  }

  lemma StaysClosed(s: State, i: nat, s': State)
    requires i < |s.workers| == |s.slots| && WorkerStep(s, i, s') && s.term && Closed(s.workers[i])
    ensures i < |s'.workers| && Closed(s'.workers[i])
  {
  }

  /** Latecomers are finitely many: once termination is requested, a worker that has served - or was not yet
      waiting for a client - never registers another. */
  lemma {:induction false} ClosedForGood(run: seq<State>, i: nat, u: nat, t: nat)
    requires Run(run) && u <= t < |run| && run[u].term && i < |run[u].workers| && Closed(run[u].workers[i])
    ensures i < |run[t].workers| && Closed(run[t].workers[i])
  {
    hide Next;
    if u < t {
      ClosedForGood(run, i, u, t - 1);
      TermForGood(run, u, t - 1);
      assert StepAt(run, t - 1);
      ClosedNext(run[t - 1], run[t], i);
    }
  }

  /** The worker that sees the last client go stops the daemon for everyone. */
  lemma {:induction false} LastOneOutStops(run: seq<State>, i: nat, u: nat, t: nat)
    requires Run(run) && u < t < |run| && i < |run[u].workers| && run[u].workers[i] == Stopping
    requires i < |run[t].workers| && run[t].workers[i] != Stopping
    ensures !run[t].running
    decreases t
  {
    assert StepAt(run, t - 1);
    SlotsKept(run[t - 1], run[t]);
    hide Next;
    if t - 1 > u && run[t - 1].workers[i] != Stopping {
      LastOneOutStops(run, i, u, t - 1);
      StoppedForGood(run[t - 1], run[t]);
    } else {
      StoppingStops(run[t - 1], run[t], i);
    }
  }

  lemma StoppingStops(s: State, s': State, i: nat)
    requires Next(s, s') && i < |s.workers| && i < |s'.workers| && s.workers[i] == Stopping && s'.workers[i] != Stopping
    ensures !s'.running
  {
    hide WorkerStep, HandlerStep, MainStep;
    if k :| 0 <= k < |s.workers| == |s.slots| && WorkerStep(s, k, s') {
      WorkerShape(s, k, s');
      assert k == i;
      StopperStops(s, i, s');
    } else if h :| 0 <= h < |s.handlers| && HandlerStep(s, h, s') {
      HandlerMovesNoWorker(s, h, s');
    } else if MainStep(s, s') {
      MainShape(s, s');
    }
  }

  lemma StopperStops(s: State, i: nat, s': State)
    requires i < |s.workers| == |s.slots| && WorkerStep(s, i, s') && s.workers[i] == Stopping
    ensures !s'.running
  {
  }
}
