/** Whole runs of the multiprocessor kernel: mutual exclusion, no environment on two CPUs, no
    lost zombie, no deadlock; and what goes wrong when the callers' hypotheses do not hold. */
module SmpRuns {
  import opened EnvIds
  import opened Mmu
  import opened Sched
  import opened Smp
  import opened SmpProof

  ghost predicate CanRun(s: State, steps: seq<Step>)
    decreases |steps|
  {
    steps == [] || (Enabled(s, steps[0]) && CanRun(Apply(s, steps[0]), steps[1..]))
  }

  ghost function After(s: State, steps: seq<Step>): State
    requires CanRun(s, steps)
    decreases |steps|
  {
    if steps == [] then s else After(Apply(s, steps[0]), steps[1..])
  }

  // Every step of the run respects the hypotheses when it is taken.
  ghost predicate Respects(s: State, steps: seq<Step>)
    requires CanRun(s, steps)
    decreases |steps|
  {
    steps == [] || (Guarded(s, steps[0]) && Respects(Apply(s, steps[0]), steps[1..]))
  }

  // The boot CPU holds the lock and is about to call sched_yield, the others wait for the
  // lock; environments have been created and none has run.
  ghost predicate Boot(s: State) {
    && Shaped(s) && s.locked && |s.cpus| > 0
    && s.cpus[0] == Cpu(Kernel(Yielding), None, false)
    && (forall c :: 0 < c < |s.cpus| ==> s.cpus[c] == Cpu(Spin(false, 1), None, false))
    && (forall e :: 0 <= e < |s.status| ==> (s.status[e].Unused? || s.status[e].Runnable?) && !s.recving[e])
  }

  lemma BootInv(s: State)
    requires Boot(s)
    ensures Inv(s)
  {
    assert HoldsLock(s.cpus[0]);
    forall c | 0 <= c < |s.cpus| ensures CpuOk(s, c) {}
    forall c, d | 0 <= c < |s.cpus| && 0 <= d < |s.cpus| ensures Apart(s, c, d) {}
    forall e | 0 <= e < |s.status| ensures EnvOk(s, e) {}
  }

  lemma {:induction false} RunKeeps(s: State, steps: seq<Step>)
    requires Inv(s) && CanRun(s, steps) && Respects(s, steps)
    ensures Inv(After(s, steps))
    decreases |steps|
  {
    if steps != [] {
      StepKeeps(s, steps[0]);
      RunKeeps(Apply(s, steps[0]), steps[1..]);
    }
  }

  // ---------------------------------------------------------------- safety of every run

  ghost predicate Safe(s: State) {
    // at most one CPU is in kernel code under the lock
    && (forall c, d :: 0 <= c < d < |s.cpus| ==> !(HoldsLock(s.cpus[c]) && HoldsLock(s.cpus[d])))
    // no environment is current on two CPUs
    && (forall c, d :: 0 <= c < d < |s.cpus| && s.cpus[c].curenv.Some? ==> s.cpus[c].curenv != s.cpus[d].curenv)
    // a CPU in user mode, or on its way there, runs a running or dying environment
    && (forall c :: 0 <= c < |s.cpus| && (s.cpus[c].mode.User? || s.cpus[c].mode.Leaving?) ==> Live(s, s.cpus[c].curenv))
    // a running or dying environment is on exactly one CPU
    && (forall e :: 0 <= e < |s.status| && (s.status[e].Running? || s.status[e].Dying?) ==> OnSomeCpu(s, e))
  }

  lemma InvIsSafe(s: State)
    requires Inv(s)
    ensures Safe(s)
  {
    forall c, d | 0 <= c < d < |s.cpus|
      ensures !(HoldsLock(s.cpus[c]) && HoldsLock(s.cpus[d]))
      ensures s.cpus[c].curenv.Some? ==> s.cpus[c].curenv != s.cpus[d].curenv
    {
      assert Apart(s, c, d);
    }
    forall c | 0 <= c < |s.cpus| && (s.cpus[c].mode.User? || s.cpus[c].mode.Leaving?) ensures Live(s, s.cpus[c].curenv) {
      assert CpuOk(s, c);
    }
    forall e | 0 <= e < |s.status| && (s.status[e].Running? || s.status[e].Dying?) ensures OnSomeCpu(s, e) {
      assert EnvOk(s, e);
    }
  }

  lemma RunsAreSafe(s: State, steps: seq<Step>)
    requires Boot(s) && CanRun(s, steps) && Respects(s, steps)
    ensures Safe(After(s, steps))
  {
    BootInv(s);
    RunKeeps(s, steps);
    InvIsSafe(After(s, steps));
  }

  // The two lock_kernel calls in trap: exactly one of them is made, whether the CPU comes from
  // user mode or from the halt state, so it neither enters unlocked nor waits for itself.
  lemma TrapTakesLockOnce(s: State, c: nat)
    requires Inv(s) && Enabled(s, Trap(c))
    ensures Apply(s, Trap(c)).cpus[c].mode == Spin(s.cpus[c].mode.User?, 1)
  {
    assert CpuOk(s, c);
  }

  // A dying environment never runs user code again once its CPU traps: the CPU frees it before
  // anything else and runs something else.
  lemma ZombieIsCollected(s: State, c: nat, e: nat)
    requires Inv(s) && c < |s.cpus| && e < |s.status| && s.status[e].Dying? && s.cpus[c].curenv == Some(e)
    ensures var m := s.cpus[c].mode;
            m.User? || m.Leaving? || m == Spin(true, 1) || m == Kernel(Entry(true))
    ensures s.cpus[c].mode == Kernel(Entry(true)) ==>
              && Enabled(s, Collect(c))
              && var t := Apply(s, Collect(c));
                 t.status[e].Unused? && t.cpus[c].curenv == None && t.cpus[c].mode == Kernel(Yielding)
  {
    assert CpuOk(s, c);
  }

  // A CPU goes into the monitor, and keeps the lock for ever, only when no environment can ever
  // run again: no other CPU runs one or is about to, and none is runnable.
  lemma MonitorMeansNobodyRuns(s: State, c: nat, turn: Turn)
    requires Inv(s) && Enabled(s, Schedule(c, turn)) && turn.next.Monitor?
    ensures forall e :: 0 <= e < |s.status| ==> s.status[e] == Unused || s.status[e] == NotRunnable
    ensures forall d :: 0 <= d < |s.cpus| ==> s.cpus[d].mode != User && s.cpus[d].mode != Leaving
    ensures forall d :: 0 <= d < |s.cpus| && s.cpus[d].curenv.Some? ==>
              s.cpus[d].curenv.value < |s.status| && s.status[s.cpus[d].curenv.value] == NotRunnable
  {
    var cur := s.cpus[c].curenv;
    var ready := Preempted(s.status, cur);
    assert CpuOk(s, c);
    forall e | 0 <= e < |s.status| ensures s.status[e] == Unused || s.status[e] == NotRunnable {
      assert ready[e] != Runnable && ready[e] != Running && ready[e] != Dying;
    }
    forall d | 0 <= d < |s.cpus|
      ensures s.cpus[d].mode != User && s.cpus[d].mode != Leaving
      ensures s.cpus[d].curenv.Some? ==> s.cpus[d].curenv.value < |s.status| && s.status[s.cpus[d].curenv.value] == NotRunnable
    {
      assert CpuOk(s, d) && Apart(s, c, d);
    }
  }

  // It halts, and gives up the lock, only when some other CPU has an environment that runs or is
  // to be collected, and which therefore comes back to the kernel.
  lemma HaltMeansSomebodyRuns(s: State, c: nat, turn: Turn) returns (d: nat)
    requires Inv(s) && Enabled(s, Schedule(c, turn)) && turn.next.Halt?
    ensures d < |s.cpus| && d != c && s.cpus[d].curenv.Some? && s.cpus[d].curenv.value < |s.status|
    ensures s.status[s.cpus[d].curenv.value] == Running || s.status[s.cpus[d].curenv.value] == Dying
    ensures forall e :: 0 <= e < |s.status| ==> s.status[e] != Runnable
  {
    var cur := s.cpus[c].curenv;
    var ready := Preempted(s.status, cur);
    assert CpuOk(s, c);
    forall e | 0 <= e < |s.status| ensures s.status[e] != Runnable && ready[e] != Runnable { assert ready[e] != Runnable; }
    var e :| 0 <= e < |ready| && Alive(ready[e]);
    assert EnvOk(s, e);
    d :| 0 <= d < |s.cpus| && s.cpus[d].curenv == Some(e);
  }

  // ---------------------------------------------------------------- nobody is forgotten

  // An environment is blocked only in a receive; or its parent has put it aside.
  ghost predicate Awaited(s: State, e: nat) {
    Shaped(s) && e < |s.status| && (s.status[e] == NotRunnable ==> s.recving[e])
  }

  // Steps by which somebody puts environment e aside.
  predicate PutsAside(a: Step, e: nat) { (a.Exofork? && a.e == e) || (a.SetStatus? && a.e == e) }

  lemma AwaitedStep(s: State, a: Step, e: nat)
    requires Inv(s) && Enabled(s, a) && Awaited(s, e) && !PutsAside(a, e)
    ensures Awaited(Apply(s, a), e)
  {
    assert CpuOk(s, a.c);
  }

  // No wakeup is lost: in any run in which nobody puts e aside, whenever it is blocked it is
  // still waiting for a message, so that a send finds it.
  lemma {:induction false} NoLostWakeup(s: State, steps: seq<Step>, e: nat)
    requires Inv(s) && CanRun(s, steps) && Respects(s, steps) && Awaited(s, e)
    requires forall a :: a in steps ==> !PutsAside(a, e)
    ensures Awaited(After(s, steps), e)
    decreases |steps|
  {
    if steps != [] {
      AwaitedStep(s, steps[0], e);
      StepKeeps(s, steps[0]);
      NoLostWakeup(Apply(s, steps[0]), steps[1..], e);
    }
  }

  // And the send makes it runnable.
  lemma SendWakes(s: State, c: nat, e: nat)
    requires Inv(s) && Enabled(s, IpcSend(c, e)) && s.recving[e]
    ensures Apply(s, IpcSend(c, e)).status[e] == Runnable && !Apply(s, IpcSend(c, e)).recving[e]
  {
  }

  // A destroyed environment stays dying or free until its slot is allocated again.
  ghost predicate Gone(s: State, e: nat) { Shaped(s) && e < |s.status| && (s.status[e] == Dying || s.status[e] == Unused) }

  lemma GoneStep(s: State, a: Step, e: nat)
    requires Inv(s) && Enabled(s, a) && Guarded(s, a) && Gone(s, e) && !(a.Exofork? && a.e == e)
    ensures Gone(Apply(s, a), e)
  {
    assert CpuOk(s, a.c) && EnvOk(s, e);
  }

  // It never runs again: after env_destroy, as long as its slot is not allocated, no CPU is in
  // user mode with it except the one that ran it then, and only until that CPU's next trap.
  lemma {:induction false} DestroyedIsGone(s: State, steps: seq<Step>, e: nat)
    requires Inv(s) && CanRun(s, steps) && Respects(s, steps) && Gone(s, e)
    requires forall a :: a in steps ==> !(a.Exofork? && a.e == e)
    ensures Gone(After(s, steps), e)
    ensures forall c :: 0 <= c < |After(s, steps).cpus| && After(s, steps).cpus[c].mode.User? && After(s, steps).cpus[c].curenv == Some(e) ==>
              After(s, steps).status[e] == Dying
    decreases |steps|
  {
    if steps != [] {
      GoneStep(s, steps[0], e);
      StepKeeps(s, steps[0]);
      DestroyedIsGone(Apply(s, steps[0]), steps[1..], e);
    } else {
      forall c | 0 <= c < |s.cpus| && s.cpus[c].mode.User? && s.cpus[c].curenv == Some(e) ensures s.status[e] == Dying {
        assert CpuOk(s, c);
      }
    }
  }

  lemma DestroyMakesGone(s: State, c: nat, e: nat)
    requires Inv(s) && Enabled(s, Destroy(c, e)) && Guarded(s, Destroy(c, e))
    ensures Gone(Apply(s, Destroy(c, e)), e)
  {
  }

  // ---------------------------------------------------------------- return from a system call

  // Calls and page faults that neither give up the CPU nor change the caller's own state, and
  // device interrupts from user mode.
  predicate Returns(s: State, a: Step)
    requires a.c < |s.cpus|
  {
    || a.Exofork? || a.IpcSend? || a.OtherCall? || (a.Interrupt? && !a.timer && s.cpus[a.c].mode == Kernel(Handling(true)))
    || ((a.SetStatus? || a.Destroy?) && s.cpus[a.c].curenv != Some(a.e))
  }

  // After them the caller goes on running on its CPU, and the lock is free.
  lemma CallReturns(s: State, a: Step)
    requires Inv(s) && Enabled(s, a) && Guarded(s, a) && Returns(s, a)
    ensures CanRun(s, [a, Finish(a.c)])
    ensures var t := After(s, [a, Finish(a.c)]);
            && |t.cpus| == |s.cpus| && !t.locked && t.cpus[a.c] == Cpu(Leaving, s.cpus[a.c].curenv, false)
            && t.cpus[a.c].curenv.Some? && t.cpus[a.c].curenv.value < |t.status| && t.status[t.cpus[a.c].curenv.value] == Running
  {
    assert CpuOk(s, a.c) && EnvOk(s, s.cpus[a.c].curenv.value);
    var t := Apply(s, a);
    Prepend(t, Finish(a.c), []);
    Prepend(s, a, [Finish(a.c)]);
    assert [a] + [Finish(a.c)] == [a, Finish(a.c)];
  }

  // A receiver gives up its CPU at once, and the scheduler does not give it back: another
  // environment is dispatched, or none.
  lemma ReceiverBlocks(s: State, c: nat, turn: Turn)
    requires Inv(s) && Enabled(s, IpcRecv(c))
    requires Enabled(Apply(s, IpcRecv(c)), Schedule(c, turn)) && turn.next.Dispatch?
    ensures s.cpus[c].curenv.Some? && turn.next.e != s.cpus[c].curenv.value
  {
    DispatchesOnlyRunnable(Apply(s, IpcRecv(c)).status, s.cpus[c].curenv, turn);
  }

  lemma ReceiverYields(s: State, c: nat)
    requires Inv(s) && Enabled(s, IpcRecv(c))
    ensures Apply(s, IpcRecv(c)).cpus[c].mode == Kernel(Yielding)
  {
  }

  // ---------------------------------------------------------------- progress

  // The holder of the lock, unless it sits in the monitor, has a next step; trap's assertion
  // that curenv is set cannot fail.
  lemma HolderCanStep(s: State, c: nat) returns (a: Step)
    requires Inv(s) && c < |s.cpus| && s.cpus[c].mode.Kernel?
    ensures a.c == c && Enabled(s, a) && Guarded(s, a) && Apply(s, a).cpus[c] != s.cpus[c]
  {
    assert CpuOk(s, c);
    match s.cpus[c].mode.pc
    case Entry(_) => a := Collect(c);
    case Handling(_) => a := Interrupt(c, true);
    case Final => a := Finish(c);
    case Yielding =>
      var turn := YieldIsTotal(s.status, s.cpus[c].curenv);
      a := Schedule(c, turn);
  }

  // Nobody waits for a lock that nobody holds, and nobody holds it for ever but the monitor.
  lemma NoDeadlock(s: State) returns (a: Step)
    requires Inv(s) && |s.cpus| > 0 && forall c :: 0 <= c < |s.cpus| ==> !s.cpus[c].mode.Stuck?
    ensures Enabled(s, a) && Guarded(s, a) && Apply(s, a) != s
  {
    if s.locked {
      var c: nat :| c < |s.cpus| && HoldsLock(s.cpus[c]);
      a := HolderCanStep(s, c);
    } else {
      assert CpuOk(s, 0);
      a := if s.cpus[0].mode.Spin? then Xchg(0) else if s.cpus[0].mode.Leaving? then Iret(0) else Trap(0);
    }
  }

  // ---------------------------------------------------------------- the hypotheses are needed

  // Two CPUs and two environments.
  function Two(mode0: Mode, cur0: Option<nat>, mode1: Mode, cur1: Option<nat>, st: seq<EnvStatus>): State {
    State(mode0.Kernel? || mode1.Kernel?, [Cpu(mode0, cur0, false), Cpu(mode1, cur1, false)], st, [false, false])
  }

  function Start(): State { Two(Kernel(Yielding), None, Spin(false, 1), None, [Runnable, Unused]) }

  // Both environments run.
  function Both(mode0: Mode, st: EnvStatus): State { Two(mode0, Some(0), User, Some(1), [Running, st]) }

  lemma Prepend(s: State, a: Step, rest: seq<Step>)
    requires Enabled(s, a) && CanRun(Apply(s, a), rest)
    ensures CanRun(s, [a] + rest) && After(s, [a] + rest) == After(Apply(s, a), rest)
  {
    assert ([a] + rest)[1..] == rest;
  }

  lemma PrependGuarded(s: State, a: Step, rest: seq<Step>)
    requires Enabled(s, a) && CanRun(Apply(s, a), rest) && Guarded(s, a) && Respects(Apply(s, a), rest)
    ensures CanRun(s, [a] + rest) && Respects(s, [a] + rest)
  {
    assert ([a] + rest)[1..] == rest;
  }

  lemma {:induction false} RunAppend(s: State, a: seq<Step>, b: seq<Step>)
    requires CanRun(s, a) && CanRun(After(s, a), b)
    ensures CanRun(s, a + b) && After(s, a + b) == After(After(s, a), b)
    decreases |a|
  {
    if a == [] {
      assert a + b == b;
    } else {
      var t := Apply(s, a[0]);
      assert CanRun(t, a[1..]) && After(s, a) == After(t, a[1..]);
      RunAppend(t, a[1..], b);
      Prepend(s, a[0], a[1..] + b);
      assert [a[0]] + (a[1..] + b) == a + b;
    }
  }

  lemma {:induction false} RespectsAppend(s: State, a: seq<Step>, b: seq<Step>)
    requires CanRun(s, a) && CanRun(After(s, a), b) && Respects(s, a) && Respects(After(s, a), b) && CanRun(s, a + b)
    ensures Respects(s, a + b)
    decreases |a|
  {
    if a == [] {
      assert a + b == b;
    } else {
      assert (a + b)[1..] == a[1..] + b;
      RunAppend(Apply(s, a[0]), a[1..], b);
      RespectsAppend(Apply(s, a[0]), a[1..], b);
    }
  }

  // A run of three steps from s to t.
  ghost predicate Leads(s: State, steps: seq<Step>, t: State) {
    CanRun(s, steps) && After(s, steps) == t && Respects(s, steps)
  }

  lemma Join(s: State, a: seq<Step>, t: State, b: seq<Step>, u: State)
    requires Leads(s, a, t) && Leads(t, b, u)
    ensures Leads(s, a + b, u)
  {
    RunAppend(s, a, b);
    RespectsAppend(s, a, b);
  }

  lemma Three(s: State, a: Step, s1: State, b: Step, s2: State, c: Step, t: State)
    requires Enabled(s, a) && Apply(s, a) == s1 && Enabled(s1, b) && Apply(s1, b) == s2 && Enabled(s2, c) && Apply(s2, c) == t
    ensures CanRun(s, [a, b, c]) && After(s, [a, b, c]) == t
    ensures Guarded(s, a) && Guarded(s1, b) && Guarded(s2, c) ==> Leads(s, [a, b, c], t)
  {
    Prepend(s2, c, []);
    Prepend(s1, b, [c]);
    Prepend(s, a, [b] + [c]);
    assert [a] + ([b] + [c]) == [a, b, c];
    if Guarded(s, a) && Guarded(s1, b) && Guarded(s2, c) {
      PrependGuarded(s2, c, []);
      PrependGuarded(s1, b, [c]);
      PrependGuarded(s, a, [b] + [c]);
    }
  }

  // Environment 0 is dispatched, and creates environment 1, of which it is then the parent.
  function First(): seq<Step> { [Schedule(0, Turn([Running, Unused], Some(0), Dispatch(0))), Iret(0), Trap(0)] }
  function Fork(): seq<Step> { [Xchg(0), Collect(0), Exofork(0, 1)] }
  function Return(): seq<Step> { [Finish(0), Iret(0), Trap(0)] }
  // It starts its child, which the other CPU dispatches.
  function StartChild(): seq<Step> { [Xchg(0), Collect(0), SetStatus(0, 1, Runnable)] }
  function OtherCpu(): seq<Step> { [Finish(0), Iret(0), Xchg(1)] }
  function Second(): seq<Step> { [Collect(1), Interrupt(1, true), Schedule(1, Turn([Running, Running], Some(1), Dispatch(1)))] }
  function TrapAgain(): seq<Step> { [Iret(1), Trap(0), Xchg(0)] }
  function Prelude(): seq<Step> { (First() + Fork()) + (Return() + StartChild()) + (OtherCpu() + Second()) }

  lemma FirstRun()
    ensures Leads(Start(), First(), Two(Spin(true, 1), Some(0), Spin(false, 1), None, [Running, Unused]))
  {
    var s := Start();
    var turn := Turn([Running, Unused], Some(0), Dispatch(0));
    assert Nearest(s.status, None, 0) && s.status[0 := Running] == turn.status;
    Three(s, Schedule(0, turn), Two(Leaving, Some(0), Spin(false, 1), None, turn.status), Iret(0),
          Two(User, Some(0), Spin(false, 1), None, turn.status), Trap(0), Two(Spin(true, 1), Some(0), Spin(false, 1), None, turn.status));
  }

  // From the spin lock into a handler, which takes step a.
  lemma Enter(st: seq<EnvStatus>, a: Step, t: seq<EnvStatus>)
    requires |st| == |t| == 2 && st[0].Running?
    requires (a == Exofork(0, 1) && st[1].Unused? && t == st[1 := NotRunnable])
          || (a == SetStatus(0, 1, Runnable) && st[1].NotRunnable? && t == st[1 := Runnable])
    ensures Leads(Two(Spin(true, 1), Some(0), Spin(false, 1), None, st), [Xchg(0), Collect(0), a],
                  Two(Kernel(Final), Some(0), Spin(false, 1), None, t))
  {
    Three(Two(Spin(true, 1), Some(0), Spin(false, 1), None, st), Xchg(0), Two(Kernel(Entry(true)), Some(0), Spin(false, 1), None, st),
          Collect(0), Two(Kernel(Handling(true)), Some(0), Spin(false, 1), None, st), a,
          Two(Kernel(Final), Some(0), Spin(false, 1), None, t));
  }

  lemma ReturnRun(st: seq<EnvStatus>)
    requires |st| == 2 && st[0].Running?
    ensures Leads(Two(Kernel(Final), Some(0), Spin(false, 1), None, st), Return(), Two(Spin(true, 1), Some(0), Spin(false, 1), None, st))
  {
    assert st[0 := Runnable][0 := Running] == st;
    Three(Two(Kernel(Final), Some(0), Spin(false, 1), None, st), Finish(0), Two(Leaving, Some(0), Spin(false, 1), None, st), Iret(0),
          Two(User, Some(0), Spin(false, 1), None, st), Trap(0), Two(Spin(true, 1), Some(0), Spin(false, 1), None, st));
  }

  lemma OtherCpuRun(st: seq<EnvStatus>)
    requires |st| == 2 && st[0].Running?
    ensures Leads(Two(Kernel(Final), Some(0), Spin(false, 1), None, st), OtherCpu(), Two(User, Some(0), Kernel(Entry(false)), None, st))
  {
    assert st[0 := Runnable][0 := Running] == st;
    Three(Two(Kernel(Final), Some(0), Spin(false, 1), None, st), Finish(0), Two(Leaving, Some(0), Spin(false, 1), None, st), Iret(0),
          Two(User, Some(0), Spin(false, 1), None, st), Xchg(1), Two(User, Some(0), Kernel(Entry(false)), None, st));
  }

  lemma SecondRun()
    ensures Leads(Two(User, Some(0), Kernel(Entry(false)), None, [Running, Runnable]), Second(),
                  Two(User, Some(0), Leaving, Some(1), [Running, Running]))
  {
    var turn := Turn([Running, Running], Some(1), Dispatch(1));
    assert Nearest([Running, Runnable], None, 1) && [Running, Runnable][1 := Running] == turn.status;
    Three(Two(User, Some(0), Kernel(Entry(false)), None, [Running, Runnable]), Collect(1),
          Two(User, Some(0), Kernel(Handling(false)), None, [Running, Runnable]), Interrupt(1, true),
          Two(User, Some(0), Kernel(Yielding), None, [Running, Runnable]), Schedule(1, turn),
          Two(User, Some(0), Leaving, Some(1), [Running, Running]));
  }

  lemma TrapAgainRun()
    ensures Leads(Two(User, Some(0), Leaving, Some(1), [Running, Running]), TrapAgain(), Both(Kernel(Entry(true)), Running))
  {
    Three(Two(User, Some(0), Leaving, Some(1), [Running, Running]), Iret(1), Both(User, Running), Trap(0),
          Both(Spin(true, 1), Running), Xchg(0), Both(Kernel(Entry(true)), Running));
  }

  function ChildReady(): State { Two(Kernel(Final), Some(0), Spin(false, 1), None, [Running, Runnable]) }

  lemma ParentRuns()
    ensures Leads(Start(), (First() + Fork()) + (Return() + StartChild()), ChildReady())
  {
    FirstRun();
    Enter([Running, Unused], Exofork(0, 1), [Running, NotRunnable]);
    ReturnRun([Running, NotRunnable]);
    Enter([Running, NotRunnable], SetStatus(0, 1, Runnable), [Running, Runnable]);
    var s1 := Two(Kernel(Final), Some(0), Spin(false, 1), None, [Running, NotRunnable]);
    Join(Start(), First(), Two(Spin(true, 1), Some(0), Spin(false, 1), None, [Running, Unused]), Fork(), s1);
    Join(s1, Return(), Two(Spin(true, 1), Some(0), Spin(false, 1), None, [Running, NotRunnable]), StartChild(), ChildReady());
    Join(Start(), First() + Fork(), s1, Return() + StartChild(), ChildReady());
  }

  lemma ChildRuns()
    ensures Leads(ChildReady(), OtherCpu() + Second(), Two(User, Some(0), Leaving, Some(1), [Running, Running]))
  {
    OtherCpuRun([Running, Runnable]);
    SecondRun();
    Join(ChildReady(), OtherCpu(), Two(User, Some(0), Kernel(Entry(false)), None, [Running, Runnable]), Second(),
         Two(User, Some(0), Leaving, Some(1), [Running, Running]));
  }

  // From boot to a state in which parent and child run, one on each CPU, and the parent enters
  // the kernel; every step so far respects the hypotheses.
  lemma ParentAndChildRun()
    ensures Boot(Start()) && Leads(Start(), Prelude() + TrapAgain(), Both(Kernel(Entry(true)), Running))
  {
    ParentRuns();
    ChildRuns();
    TrapAgainRun();
    var s3 := Two(User, Some(0), Leaving, Some(1), [Running, Running]);
    Join(Start(), (First() + Fork()) + (Return() + StartChild()), ChildReady(), OtherCpu() + Second(), s3);
    Join(Start(), Prelude(), s3, TrapAgain(), Both(Kernel(Entry(true)), Running));
  }

  // The parent marks its child, which runs on the other CPU, as runnable and returns; traps
  // again; and yields.
  function Mark(): seq<Step> { [Collect(0), SetStatus(0, 1, Runnable), Finish(0)] }
  function BackAgain(): seq<Step> { [Iret(0), Trap(0), Xchg(0)] }
  function MarkedTurn(): Turn { Turn([Runnable, Running], Some(1), Dispatch(1)) }
  function GiveUp(): seq<Step> { [Collect(0), YieldCall(0), Schedule(0, MarkedTurn())] }

  lemma MarkRun()
    ensures CanRun(Both(Kernel(Entry(true)), Running), Mark())
    ensures After(Both(Kernel(Entry(true)), Running), Mark()) == Both(Leaving, Runnable)
  {
    assert [Running, Runnable][0 := Runnable][0 := Running] == [Running, Runnable];
    Three(Both(Kernel(Entry(true)), Running), Collect(0), Both(Kernel(Handling(true)), Running), SetStatus(0, 1, Runnable),
          Both(Kernel(Final), Runnable), Finish(0), Both(Leaving, Runnable));
  }

  lemma BackAgainRun(st: EnvStatus)
    ensures Leads(Both(Leaving, st), BackAgain(), Both(Kernel(Entry(true)), st))
  {
    Three(Both(Leaving, st), Iret(0), Both(User, st), Trap(0), Both(Spin(true, 1), st), Xchg(0), Both(Kernel(Entry(true)), st));
  }

  lemma GiveUpRun()
    ensures CanRun(Both(Kernel(Entry(true)), Runnable), GiveUp())
    ensures After(Both(Kernel(Entry(true)), Runnable), GiveUp()) == Two(Leaving, Some(1), User, Some(1), [Runnable, Running])
  {
    var ready := Preempted([Running, Runnable], Some(0));
    assert ready == [Runnable, Runnable] && ready[1 := Running] == MarkedTurn().status && Nearest(ready, Some(0), 1);
    Three(Both(Kernel(Entry(true)), Runnable), Collect(0), Both(Kernel(Handling(true)), Runnable), YieldCall(0),
          Both(Kernel(Yielding), Runnable), Schedule(0, MarkedTurn()), Two(Leaving, Some(1), User, Some(1), [Runnable, Running]));
  }

  // Without the first hypothesis one environment ends up on both CPUs, in a run from boot of
  // which all steps but the one system call on a running child respect the hypotheses.
  lemma MeddlingRunsTwice()
    ensures var both := Prelude() + TrapAgain();
            && Boot(Start()) && Leads(Start(), both, Both(Kernel(Entry(true)), Running))
            && CanRun(Start(), both + Mark() + BackAgain() + GiveUp())
            && After(Start(), both + Mark() + BackAgain() + GiveUp()) == Two(Leaving, Some(1), User, Some(1), [Runnable, Running])
            && !Safe(Two(Leaving, Some(1), User, Some(1), [Runnable, Running]))
  {
    var both := Prelude() + TrapAgain();
    ParentAndChildRun();
    MarkRun();
    BackAgainRun(Runnable);
    GiveUpRun();
    RunAppend(Start(), both, Mark());
    RunAppend(Start(), both + Mark(), BackAgain());
    RunAppend(Start(), both + Mark() + BackAgain(), GiveUp());
    var t := Two(Leaving, Some(1), User, Some(1), [Runnable, Running]);
    assert t.cpus[0].curenv == t.cpus[1].curenv;
  }

  // The parent destroys its child, which runs on the other CPU and is only marked; and again.
  function Kill(): seq<Step> { [Collect(0), Destroy(0, 1), Finish(0)] }

  lemma KillRun()
    ensures Leads(Both(Kernel(Entry(true)), Running), Kill(), Both(Leaving, Dying))
  {
    assert [Running, Dying][0 := Runnable][0 := Running] == [Running, Dying];
    Three(Both(Kernel(Entry(true)), Running), Collect(0), Both(Kernel(Handling(true)), Running), Destroy(0, 1),
          Both(Kernel(Final), Dying), Finish(0), Both(Leaving, Dying));
  }

  lemma KillAgainRun()
    ensures CanRun(Both(Kernel(Entry(true)), Dying), [Collect(0)] + [Destroy(0, 1)])
    ensures After(Both(Kernel(Entry(true)), Dying), [Collect(0)] + [Destroy(0, 1)]) == Both(Kernel(Final), Unused)
  {
    assert Apply(Both(Kernel(Entry(true)), Dying), Collect(0)) == Both(Kernel(Handling(true)), Dying);
    assert Apply(Both(Kernel(Handling(true)), Dying), Destroy(0, 1)) == Both(Kernel(Final), Unused);
    Prepend(Both(Kernel(Handling(true)), Dying), Destroy(0, 1), []);
    Prepend(Both(Kernel(Entry(true)), Dying), Collect(0), [Destroy(0, 1)]);
  }

  // Without the second, an environment is freed under a CPU that is still running it, again in
  // a run from boot of which all steps but the last respect the hypotheses.
  lemma DestroyTwiceFreesUnderfoot()
    ensures var most := (Prelude() + TrapAgain()) + (Kill() + BackAgain());
            && Boot(Start()) && Leads(Start(), most, Both(Kernel(Entry(true)), Dying))
            && CanRun(Start(), most + ([Collect(0)] + [Destroy(0, 1)]))
            && After(Start(), most + ([Collect(0)] + [Destroy(0, 1)])) == Both(Kernel(Final), Unused)
            && Both(Kernel(Final), Unused).cpus[1] == Cpu(User, Some(1), false) && !Safe(Both(Kernel(Final), Unused))
  {
    ParentAndChildRun();
    KillRun();
    BackAgainRun(Dying);
    KillAgainRun();
    Join(Both(Kernel(Entry(true)), Running), Kill(), Both(Leaving, Dying), BackAgain(), Both(Kernel(Entry(true)), Dying));
    Join(Start(), Prelude() + TrapAgain(), Both(Kernel(Entry(true)), Running), Kill() + BackAgain(), Both(Kernel(Entry(true)), Dying));
    RunAppend(Start(), (Prelude() + TrapAgain()) + (Kill() + BackAgain()), [Collect(0)] + [Destroy(0, 1)]);
    var t := Both(Kernel(Final), Unused);
    assert t.cpus[1].mode.User? && !Live(t, t.cpus[1].curenv);
  }
}
