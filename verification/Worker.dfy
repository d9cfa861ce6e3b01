/** The thread lifecycle of Worker.cpp as a state machine: one step per atomic access, every interleaving of any
    number of callers with the worker thread. */
module Worker {

  datatype WorkerState = Starting | Started | Stopping | Stopped | Killing

  /** Where the worker thread is. */
  datatype Thread =
    | None                                  // no thread has been created
    | Test                                  // about to read the loop condition, line 32
    | Announce                              // about to exchange Starting for Started, line 34
    | Working                               // inside workLoop, line 40
    | Retire                                // about to exchange the state for Stopped, line 52
    | Restore(ex: WorkerState)              // about to put back what the exchange found, lines 54-55
    | Idle                                  // spinning while the state is Stopped, lines 57-58
    | Exited                                // the thread function has returned

  /** Which call holds the mutex, and where it is. A caller without the mutex has done nothing yet. */
  datatype Holder =
    | Free
    | Start(caller: nat)                    // startWorking, mutex just taken
    | StartWait(caller: nat)                // spinning while the state is Starting, lines 63-64
    | Trigger(caller: nat)                  // triggerStopWorking
    | Stop(caller: nat)                     // stopWorking
    | StopWait(caller: nat)                 // spinning until the state is Stopped, lines 81-82
    | Destroy(caller: nat)                  // the destructor
    | Join(caller: nat)                     // waiting for the thread to finish, line 90
    | Destroyed                             // the object is gone

  /** `grants` counts starts that were granted, `entries` counts calls of workLoop. */
  datatype Machine = Machine(state: WorkerState, thread: Thread, holder: Holder, grants: nat, entries: nat)

  /** The member initialisers of Worker.h. */
  function Init(): Machine {
    Machine(Starting, None, Free, 0, 0)
  }

  // Steps of the callers

  datatype Step =
    | Acquire(call: Holder)                 // a caller takes the mutex and enters its call
    | CallerStep                            // the holder of the mutex does its next access
    | WorkerStep                            // the thread does its next access, or workLoop returns

  predicate Entry(call: Holder) {
    call.Start? || call.Trigger? || call.Stop? || call.Destroy?
  }

  function CallerNext(m: Machine): Machine {
    match m.holder
    case Start(c) =>
      if m.thread.None? then
        m.(state := Starting, thread := Test, holder := StartWait(c), grants := m.grants + 1)
      else if m.state == Stopped then
        m.(state := Starting, holder := StartWait(c), grants := m.grants + 1)
      else
        m.(holder := StartWait(c))
    case StartWait(_) =>
      if m.state == Starting then m else m.(holder := Free)
    case Trigger(_) =>
      if !m.thread.None? && m.state == Started then m.(state := Stopping, holder := Free) else m.(holder := Free)
    case Stop(c) =>
      if m.thread.None? then m.(holder := Free)
      else m.(state := if m.state == Started then Stopping else m.state, holder := StopWait(c))
    case StopWait(_) =>
      if m.state == Stopped then m.(holder := Free) else m
    case Destroy(c) =>
      if m.thread.None? then m.(holder := Destroyed) else m.(state := Killing, holder := Join(c))
    case Join(_) =>
      if m.thread.Exited? then m.(holder := Destroyed) else m
    case Free => m
    case Destroyed => m
  }

  function WorkerNext(m: Machine): Machine {
    match m.thread
    case Test =>
      if m.state == Killing then m.(thread := Exited) else m.(thread := Announce)
    case Announce =>
      m.(state := if m.state == Starting then Started else m.state, thread := Working, entries := m.entries + 1)
    case Working => m.(thread := Retire)
    case Retire =>
      m.(state := Stopped, thread := Restore(m.state))
    case Restore(ex) =>
      m.(state := if ex == Killing || ex == Starting then ex else m.state, thread := Idle)
    case Idle =>
      if m.state == Stopped then m else m.(thread := Test)
    case None => m
    case Exited => m
  }

  function Next(m: Machine, s: Step): Machine {
    match s
    case Acquire(call) => if m.holder.Free? && Entry(call) then m.(holder := call) else m
    case CallerStep => CallerNext(m)
    case WorkerStep => WorkerNext(m)
  }

  function Run(m: Machine, steps: seq<Step>): Machine
    decreases |steps|
  {
    if steps == [] then m else Run(Next(m, steps[0]), steps[1..])
  }

  // What every reachable state satisfies

  /** A kill has been requested. */
  predicate Killed(m: Machine) {
    m.holder.Join? || (m.holder.Destroyed? && !m.thread.None?)
  }

  predicate Inv(m: Machine) {
    // before the first start nothing has happened
    && (m.thread.None? ==> m.state == Starting && m.grants == 0 && m.entries == 0
                           && !m.holder.StartWait? && !m.holder.StopWait? && !m.holder.Join?)
    // a pending start has its caller waiting with the mutex, and the thread on the way to it
    && (!m.thread.None? && m.state == Starting ==>
          m.holder.StartWait? && (m.thread.Test? || m.thread.Announce? || m.thread.Idle? || m.thread.Restore?))
    // the thread announces itself only to a pending start
    && (m.thread.Announce? ==> m.state == Starting)
    && (m.thread.Test? ==> m.state == Starting || m.state == Killing)
    // at work, the state says so
    && (m.thread.Working? || m.thread.Retire? ==> m.state == Started || m.state == Stopping || m.state == Killing)
    // the exchange of line 52 never finds a pending start, and finds a kill only once one was requested
    && (m.thread.Restore? ==> m.thread.ex == Started || m.thread.ex == Stopping || m.thread.ex == Killing)
    && (m.thread.Restore? && m.thread.ex == Killing ==> Killed(m))
    && (m.thread.Restore? || m.thread.Idle? ==> m.state == Stopped || m.state == Starting || m.state == Killing)
    // a kill stays in force, in the state or in what is about to be put back
    && (Killed(m) ==> m.state == Killing || (m.thread.Restore? && m.thread.ex == Killing))
    && (m.state == Killing ==> Killed(m))
    && (m.thread.Exited? ==> Killed(m))
    && (m.holder.Destroyed? ==> m.thread.None? || m.thread.Exited?)
    // a stop waits for a thread that is at work and told to stop, or has stopped
    && (m.holder.StopWait? ==> m.state == Stopping || m.state == Stopped)
    && (m.state == Stopping ==> m.thread.Working? || m.thread.Retire?)
    // every granted start has been or is about to be served
    && m.grants == m.entries + (if !m.thread.None? && m.state == Starting then 1 else 0)
  }

  lemma InvStep(m: Machine, s: Step)
    requires Inv(m)
    ensures Inv(Next(m, s))
  {
  }

  lemma {:induction false} InvRun(m: Machine, steps: seq<Step>)
    requires Inv(m)
    ensures Inv(Run(m, steps))
    decreases |steps|
  {
    hide Inv, Next;
    if steps == [] {
    } else {
      InvStep(m, steps[0]);
      InvRun(Next(m, steps[0]), steps[1..]);
    }
  }

  /** In every interleaving: the exchange of Starting for Started always succeeds, Stopped means that workLoop is not
      running, and the granted starts are the entries into workLoop plus at most one that is pending. */
  lemma Safety(steps: seq<Step>)
    ensures var m := Run(Init(), steps);
            && (m.thread.Announce? ==> m.state == Starting && Next(m, WorkerStep).state == Started)
            && (m.state == Stopped ==> !m.thread.Working?)
            && m.grants == m.entries + (if Pending(m) then 1 else 0)
  {
    InvRun(Init(), steps);
  }

  /** A granted start that workLoop has not been entered for yet. */
  predicate Pending(m: Machine) {
    !m.thread.None? && m.state == Starting
  }

  /** The accesses the thread still makes before it serves a pending start. */
  function StartDistance(t: Thread): nat {
    match t case Announce => 1 case Test => 2 case Idle => 3 case Restore(_) => 4 case _ => 0
  }

  /** The accesses the thread still makes after a kill. */
  function KillDistance(t: Thread): nat {
    match t case Exited => 0 case Test => 1 case Idle => 2 case Restore(_) => 3 case Retire => 4 case _ => 5
  }

  function WorkerSteps(steps: seq<Step>): nat
    decreases |steps|
  {
    if steps == [] then 0 else (if steps[0].WorkerStep? then 1 else 0) + WorkerSteps(steps[1..])
  }

  lemma {:induction false} EntriesGrow(m: Machine, steps: seq<Step>)
    ensures m.entries <= Run(m, steps).entries
    decreases |steps|
  {
    if steps == [] {
    } else {
      EntriesGrow(Next(m, steps[0]), steps[1..]);
    }
  }

  /** Whatever the callers do meanwhile, a granted start is served: after as many accesses of the thread as its
      distance, at most four, workLoop has been entered for it. */
  lemma {:induction false} StartServed(m: Machine, steps: seq<Step>)
    requires Inv(m) && Pending(m) && WorkerSteps(steps) >= StartDistance(m.thread)
    ensures StartDistance(m.thread) <= 4 && Run(m, steps).entries > m.entries
    decreases |steps|
  {
    var n := Next(m, steps[0]);
    InvStep(m, steps[0]);
    if Pending(n) {
      StartServed(n, steps[1..]);
    } else {
      EntriesGrow(n, steps[1..]);
    }
  }

  lemma KillStep(m: Machine, s: Step)
    requires Inv(m) && Killed(m)
    ensures Killed(Next(m, s)) && Next(m, s).entries == m.entries
    ensures s.WorkerStep? && !m.thread.Exited? ==> KillDistance(Next(m, s).thread) < KillDistance(m.thread)
    ensures !s.WorkerStep? ==> Next(m, s).thread == m.thread
  {
  }

  /** A kill is never lost: no step undoes it, workLoop is not entered again, and once workLoop has returned at most
      five accesses bring the thread to its end, which is what the destructor waits for. */
  lemma {:induction false} KillServed(m: Machine, steps: seq<Step>)
    requires Inv(m) && Killed(m)
    ensures Killed(Run(m, steps)) && Run(m, steps).entries == m.entries
    ensures KillDistance(m.thread) <= 5
    ensures WorkerSteps(steps) >= KillDistance(m.thread) ==> Run(m, steps).thread.Exited?
    decreases |steps|
  {
    if steps == [] {
    } else {
      KillStep(m, steps[0]);
      InvStep(m, steps[0]);
      KillServed(Next(m, steps[0]), steps[1..]);
    }
  }

  /** The accesses the thread still makes before a stop takes effect, workLoop's return among them. */
  function StopDistance(t: Thread): nat {
    match t case Working => 2 case Retire => 1 case _ => 0
  }

  /** stopWorking returns exactly when the state has become Stopped, and then workLoop is not running. */
  lemma StopReturns(steps: seq<Step>)
    requires Run(Init(), steps).holder.StopWait?
    ensures var m := Run(Init(), steps);
            && (Next(m, CallerStep).holder.Free? <==> m.state == Stopped)
            && (m.state == Stopped ==> !m.thread.Working?)
            && (m.state != Stopped ==> m.state == Stopping && Next(m, CallerStep) == m)
  {
    InvRun(Init(), steps);
  }

  /** A stop is served: whatever else is tried meanwhile, at most two accesses of the thread after stopWorking began to
      wait the state is Stopped, the call still waiting for exactly that. */
  lemma {:induction false} StopServed(m: Machine, steps: seq<Step>) returns (k: nat)
    requires Inv(m) && m.holder.StopWait? && WorkerSteps(steps) >= StopDistance(m.thread)
    ensures k <= |steps| && WorkerSteps(steps[..k]) <= StopDistance(m.thread) <= 2
    ensures var d := Run(m, steps[..k]);
            d.state == Stopped && d.holder == m.holder && !d.thread.Working? && d.entries == m.entries
    decreases |steps|
  {
    if m.state == Stopped {
      k := 0;
    } else {
      InvStep(m, steps[0]);
      k := StopServed(Next(m, steps[0]), steps[1..]);
      assert steps[..k + 1][1..] == steps[1..][..k];
      k := k + 1;
    }
  }

  // Calls wait for what they promise

  predicate Stopper(h: Holder, c: nat) {
    h == Stop(c) || h == StopWait(c)
  }

  /** With a thread present, stopWorking gives up the mutex only after it saw the state Stopped, when workLoop was not
      running and had not been entered again since the call began. */
  lemma {:induction false} StopWaits(m: Machine, c: nat, steps: seq<Step>) returns (k: nat)
    requires Inv(m) && !m.thread.None? && Stopper(m.holder, c)
    ensures k <= |steps|
    ensures var d := Run(m, steps[..k]);
            && Stopper(d.holder, c) && d.entries == m.entries
            && (k < |steps| ==>
                  steps[k] == CallerStep && d.holder == StopWait(c) && d.state == Stopped && !d.thread.Working?)
    decreases |steps|
  {
    if steps == [] || !Stopper(Next(m, steps[0]).holder, c) {
      k := 0;
      assert steps[..0] == [];
    } else {
      InvStep(m, steps[0]);
      k := StopWaits(Next(m, steps[0]), c, steps[1..]);
      assert steps[..k + 1][1..] == steps[1..][..k];
      k := k + 1;
    }
  }

  predicate Destroyer(h: Holder, c: nat) {
    h == Destroy(c) || h == Join(c)
  }

  /** With a thread present, the destructor never gives the mutex to another call, and ends only with a kill in force
      and the thread at its end. */
  lemma {:induction false} DestructorWaits(m: Machine, c: nat, steps: seq<Step>)
    requires Inv(m) && !m.thread.None? && Destroyer(m.holder, c)
    ensures var d := Run(m, steps);
            if Destroyer(d.holder, c) then d.holder == Join(c) ==> Killed(d)
            else d.holder.Destroyed? && Killed(d) && d.thread.Exited?
    decreases |steps|
  {
    if steps == [] {
    } else {
      InvStep(m, steps[0]);
      if Destroyer(Next(m, steps[0]).holder, c) {
        DestructorWaits(Next(m, steps[0]), c, steps[1..]);
      } else {
        StaysDestroyed(Next(m, steps[0]), steps[1..]);
      }
    }
  }

  lemma {:induction false} StaysDestroyed(m: Machine, steps: seq<Step>)
    requires Inv(m) && m.holder.Destroyed? && m.thread.Exited?
    ensures Run(m, steps) == m
    decreases |steps|
  {
    if steps == [] {
    } else {
      StaysDestroyed(Next(m, steps[0]), steps[1..]);
    }
  }

  /** The caller's own steps get on: a stop begins to wait; a destructor kills and waits, and ends once the thread has. */
  lemma CallersGetOn(m: Machine)
    requires Inv(m) && !m.thread.None?
    ensures m.holder.Stop? ==> Next(m, CallerStep).holder == StopWait(m.holder.caller)
    ensures m.holder.Destroy? ==> Next(m, CallerStep).holder == Join(m.holder.caller) && Killed(Next(m, CallerStep))
    ensures m.holder.Join? && m.thread.Exited? ==> Next(m, CallerStep).holder.Destroyed?
    ensures m.holder.StartWait? && !Pending(m) ==> Next(m, CallerStep).holder.Free?
  {
  }

  predicate Starter(h: Holder, c: nat) {
    h == Start(c) || h == StartWait(c)
  }

  /** startWorking gives up the mutex only when no start is pending; so if its own was granted, workLoop has been entered
      for it by then. */
  lemma {:induction false} StartWaits(m: Machine, c: nat, steps: seq<Step>) returns (k: nat)
    requires Inv(m) && Starter(m.holder, c)
    ensures k <= |steps|
    ensures var d := Run(m, steps[..k]);
            && Starter(d.holder, c)
            && (k < |steps| ==>
                  && steps[k] == CallerStep && d.holder == StartWait(c) && !d.thread.None? && !Pending(d)
                  && (d.grants > m.grants ==> d.entries > m.entries))
    decreases |steps|
  {
    if steps == [] || !Starter(Next(m, steps[0]).holder, c) {
      k := 0;
      assert steps[..0] == [];
    } else {
      InvStep(m, steps[0]);
      k := StartWaits(Next(m, steps[0]), c, steps[1..]);
      assert steps[..k + 1][1..] == steps[1..][..k];
      InvRun(m, steps[..k + 1]);
      k := k + 1;
    }
  }

  /** Told to stop, workLoop finds itself told so until it returns: the state is Stopping, or Killing. */
  lemma {:induction false} Told(m: Machine, steps: seq<Step>)
    requires Inv(m) && (m.thread.Working? ==> m.state == Stopping || m.state == Killing)
    ensures var d := Run(m, steps);
            d.entries == m.entries && d.thread.Working? ==> d.state == Stopping || d.state == Killing
    decreases |steps|
  {
    if steps == [] {
    } else {
      var n := Next(m, steps[0]);
      InvStep(m, steps[0]);
      EntriesGrow(n, steps[1..]);
      if n.entries == m.entries {
        Told(n, steps[1..]);
      }
    }
  }

  /** triggerStopWorking and stopWorking tell a workLoop that is running to stop, for as long as it runs. */
  lemma StopIsTold(m: Machine, steps: seq<Step>)
    requires Inv(m) && m.thread.Working? && (m.holder.Trigger? || m.holder.Stop?)
    ensures var d := Run(Next(m, CallerStep), steps);
            d.entries == m.entries && d.thread.Working? ==> d.state == Stopping || d.state == Killing
    ensures m.holder.Trigger? ==> Next(m, CallerStep).holder.Free?
  {
    InvStep(m, CallerStep);
    Told(Next(m, CallerStep), steps);
  }

  // A start that is not granted

  predicate NoStart(steps: seq<Step>) {
    forall i :: 0 <= i < |steps| ==> !(steps[i].Acquire? && steps[i].call.Start?)
  }

  lemma {:induction false} QuietRun(m: Machine, steps: seq<Step>)
    requires Inv(m) && !Pending(m) && !m.holder.Start? && NoStart(steps)
    ensures Run(m, steps).entries == m.entries
    decreases |steps|
  {
    if steps == [] {
    } else {
      InvStep(m, steps[0]);
      QuietRun(Next(m, steps[0]), steps[1..]);
    }
  }

  /** startWorking is granted exactly when there is no thread yet or the thread has stopped. Called while a stop is
      still under way it returns without effect: unless somebody starts again, workLoop is never entered again. */
  lemma StartGranted(before: seq<Step>, after: seq<Step>)
    requires Run(Init(), before).holder.Start? && NoStart(after)
    ensures var m := Run(Init(), before);
            var granted := Next(m, CallerStep).grants == m.grants + 1;
            && (granted <==> m.thread.None? || m.state == Stopped)
            && (!granted ==> Run(Next(m, CallerStep), after).entries == m.entries)
  {
    var m := Run(Init(), before);
    InvRun(Init(), before);
    InvStep(m, CallerStep);
    if !m.thread.None? && m.state != Stopped {
      QuietRun(Next(m, CallerStep), after);
    }
  }

  lemma RunAppend(m: Machine, steps: seq<Step>, s: Step)
    ensures Run(m, steps + [s]) == Next(Run(m, steps), s)
    decreases |steps|
  {
    hide Next;
    if steps == [] {
      assert [s][1..] == [];
    } else {
      RunAppend(Next(m, steps[0]), steps[1..], s);
      assert (steps + [s])[1..] == steps[1..] + [s];
    }
  }

  /** And that does happen: started, told to stop, started again before the stop has taken effect. */
  lemma StartIsLost()
    ensures exists before :: Run(Init(), before).holder.Start? && Run(Init(), before).state == Stopping
  {
    hide Run;
    var sequence := [Acquire(Start(0)), CallerStep, WorkerStep, WorkerStep, CallerStep,
                     Acquire(Trigger(0)), CallerStep, Acquire(Start(1))];
    assert Run(Init(), []) == Init() by { RunNothing(Init()); }
    for k := 0 to 8
      invariant Run(Init(), sequence[..k]) == Trace(k)
    {
      RunAppend(Init(), sequence[..k], sequence[k]);
      assert sequence[..k] + [sequence[k]] == sequence[..k + 1];
    }
    assert sequence[..8] == sequence;
  }

  lemma RunNothing(m: Machine)
    ensures Run(m, []) == m
  {
  }

  /** The states along that run. */
  function Trace(k: nat): Machine
    requires k <= 8
  {
    match k
    case 0 => Init()
    case 1 => Machine(Starting, None, Start(0), 0, 0)
    case 2 => Machine(Starting, Test, StartWait(0), 1, 0)
    case 3 => Machine(Starting, Announce, StartWait(0), 1, 0)
    case 4 => Machine(Started, Working, StartWait(0), 1, 1)
    case 5 => Machine(Started, Working, Free, 1, 1)
    case 6 => Machine(Started, Working, Trigger(0), 1, 1)
    case 7 => Machine(Stopping, Working, Free, 1, 1)
    case 8 => Machine(Stopping, Working, Start(1), 1, 1)
  }
}
