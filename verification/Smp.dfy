/** The kernel on several CPUs: how trap takes and gives up the big lock (kern/trap.c,
    kern/spinlock.c), and what the system calls do to environment states under it. */
module Smp {
  import opened EnvIds
  import opened Mmu
  import opened Sched

  // Where a CPU that holds the lock is in trap: before the zombie check, in trap_dispatch, at
  // the final test, in sched_yield.  `user` says whether it trapped from user mode.
  datatype Pc = Entry(user: bool) | Handling(user: bool) | Final | Yielding

  datatype Mode =
    | User
    | Spin(user: bool, locks: nat)   // in spin_lock; locks is how many lock_kernel calls are ahead
    | Kernel(pc: Pc)
    | Stuck                          // in the monitor, for ever
    | Leaving                        // in env_pop_tf, after unlock_kernel
    | Halted

  // haltFlag is cpu_status == CPU_HALTED.
  datatype Cpu = Cpu(mode: Mode, curenv: Option<nat>, haltFlag: bool)

  datatype State = State(locked: bool, cpus: seq<Cpu>, status: seq<EnvStatus>, recving: seq<bool>)

  datatype Step =
    | Trap(c: nat)
    | Xchg(c: nat)
    | Collect(c: nat)
    | Interrupt(c: nat, timer: bool)
    | Exofork(c: nat, e: nat)
    | SetStatus(c: nat, e: nat, to: EnvStatus)
    | Destroy(c: nat, e: nat)
    | IpcRecv(c: nat)
    | IpcSend(c: nat, e: nat)
    | YieldCall(c: nat)
    | OtherCall(c: nat)
    | Finish(c: nat)
    | Schedule(c: nat, turn: Turn)
    | Iret(c: nat)

  ghost predicate Shaped(s: State) {
    |s.status| > 0 && |s.recving| == |s.status|
  }

  predicate InHandler(s: State, c: nat, user: bool)
    requires c < |s.cpus|
  {
    s.cpus[c].mode == Kernel(Handling(user)) && (user ==> s.cpus[c].curenv.Some? && s.cpus[c].curenv.value < |s.status|)
  }

  ghost predicate Enabled(s: State, a: Step) {
    && Shaped(s) && a.c < |s.cpus|
    && var u := s.cpus[a.c];
       match a
       case Trap(c) => u.mode.User? || u.mode.Halted?
       case Xchg(c) => u.mode.Spin?
       case Collect(c) =>
         u.mode.Kernel? && u.mode.pc.Entry? && (u.mode.pc.user ==> u.curenv.Some? && u.curenv.value < |s.status|)
       case Interrupt(c, timer) => u.mode.Kernel? && u.mode.pc.Handling?
       // env_alloc takes a free slot
       case Exofork(c, e) => InHandler(s, c, true) && e < |s.status| && s.status[e].Unused?
       // envid2env finds only slots in use; sys_env_set_status accepts two states
       case SetStatus(c, e, to) =>
         InHandler(s, c, true) && e < |s.status| && !s.status[e].Unused? && (to.Runnable? || to.NotRunnable?)
       case Destroy(c, e) => InHandler(s, c, true) && e < |s.status| && !s.status[e].Unused?
       case IpcRecv(c) => InHandler(s, c, true)
       case IpcSend(c, e) => InHandler(s, c, true) && e < |s.status| && !s.status[e].Unused?
       case YieldCall(c) => InHandler(s, c, true)
       case OtherCall(c) => InHandler(s, c, true)
       case Finish(c) => u.mode == Kernel(Final) && Slots(s.status, u.curenv)
       case Schedule(c, turn) =>
         u.mode == Kernel(Yielding) && Slots(s.status, u.curenv) && Yields(s.status, u.curenv, turn)
       case Iret(c) => u.mode.Leaving?
  }

  function Goto(s: State, c: nat, pc: Pc): State
    requires c < |s.cpus|
  {
    SetCpu(s, c, Cpu(Kernel(pc), s.cpus[c].curenv, s.cpus[c].haltFlag))
  }

  function SetCpu(s: State, c: nat, u: Cpu): State
    requires c < |s.cpus|
  {
    State(s.locked, s.cpus[c := u], s.status, s.recving)
  }

  function SetEnv(s: State, e: nat, st: EnvStatus, rc: bool): State
    requires e < |s.status| == |s.recving|
  {
    State(s.locked, s.cpus, s.status[e := st], s.recving[e := rc])
  }

  // env_run: unlock_kernel, then env_pop_tf.
  function EnvRun(s: State, c: nat, e: nat): State
    requires c < |s.cpus| && Slots(s.status, s.cpus[c].curenv) && e < |s.status|
  {
    State(false, s.cpus[c := Cpu(Leaving, Some(e), s.cpus[c].haltFlag)], RunStates(s.status, s.cpus[c].curenv, e), s.recving)
  }

  // env_destroy as CPU c executes it.
  function EnvDestroy(s: State, c: nat, e: nat): State
    requires c < |s.cpus| && e < |s.status| == |s.recving|
  {
    var u := s.cpus[c];
    if s.status[e].Running? && u.curenv != Some(e) then Goto(SetEnv(s, e, Dying, s.recving[e]), c, Final)
    else if u.curenv == Some(e) then SetCpu(SetEnv(s, e, Unused, s.recving[e]), c, Cpu(Kernel(Yielding), None, u.haltFlag))
    else Goto(SetEnv(s, e, Unused, s.recving[e]), c, Final)
  }

  function Apply(s: State, a: Step): State
    requires Enabled(s, a)
  {
    var c := a.c;
    var u := s.cpus[c];
    match a
    // cpu_status is set to CPU_STARTED; lock_kernel is called once if it was CPU_HALTED and
    // once if the trap came from user mode
    case Trap(_) =>
      var user := u.mode.User?;
      var locks := (if u.haltFlag then 1 else 0) + (if user then 1 else 0);
      SetCpu(s, c, Cpu(if locks == 0 then Kernel(Entry(user)) else Spin(user, locks), u.curenv, false))
    case Xchg(_) =>
      var held := State(true, s.cpus, s.status, s.recving);
      if s.locked then held
      else SetCpu(held, c, Cpu(if u.mode.locks <= 1 then Kernel(Entry(u.mode.user)) else Spin(u.mode.user, u.mode.locks - 1),
                               u.curenv, u.haltFlag))
    case Collect(_) =>
      if u.mode.pc.user && s.status[u.curenv.value].Dying? then
        var e := u.curenv.value;
        SetCpu(SetEnv(s, e, Unused, s.recving[e]), c, Cpu(Kernel(Yielding), None, u.haltFlag))
      else Goto(s, c, Handling(u.mode.pc.user))
    case Interrupt(_, timer) => Goto(s, c, if timer then Yielding else Final)
    // env_alloc clears the receiving flag; sys_exofork then makes the child not runnable
    case Exofork(_, e) => Goto(SetEnv(s, e, NotRunnable, false), c, Final)
    case SetStatus(_, e, to) => Goto(SetEnv(s, e, to, s.recving[e]), c, Final)
    case Destroy(_, e) => EnvDestroy(s, c, e)
    case IpcRecv(_) => Goto(SetEnv(s, u.curenv.value, NotRunnable, true), c, Yielding)
    case IpcSend(_, e) => if s.recving[e] then Goto(SetEnv(s, e, Runnable, false), c, Final) else Goto(s, c, Final)
    case YieldCall(_) => Goto(s, c, Yielding)
    // also a page fault for which the environment has a handler: it changes registers only
    case OtherCall(_) => Goto(s, c, Final)
    case Finish(_) =>
      if u.curenv.Some? && s.status[u.curenv.value].Running? then EnvRun(s, c, u.curenv.value) else Goto(s, c, Yielding)
    case Schedule(_, turn) =>
      match turn.next {
        case Dispatch(e) => State(false, s.cpus[c := Cpu(Leaving, turn.curenv, u.haltFlag)], turn.status, s.recving)
        case Halt => State(false, s.cpus[c := Cpu(Halted, None, true)], turn.status, s.recving)
        case Monitor => State(s.locked, s.cpus[c := Cpu(Stuck, u.curenv, u.haltFlag)], turn.status, s.recving)
      }
    case Iret(_) => SetCpu(s, c, Cpu(User, u.curenv, u.haltFlag))
  }

  // ---------------------------------------------------------------- the invariant

  predicate HoldsLock(u: Cpu) { u.mode.Kernel? || u.mode.Stuck? }

  // Running or about to be collected.
  predicate Live(s: State, e: Option<nat>) {
    e.Some? && e.value < |s.status| && (s.status[e.value].Running? || s.status[e.value].Dying?)
  }

  predicate Kept(s: State, e: Option<nat>) {
    e.Some? ==> e.value < |s.status| && !s.status[e.value].Unused? && !s.status[e.value].Dying?
  }

  ghost predicate CpuOk(s: State, c: nat)
    requires c < |s.cpus|
  {
    var u := s.cpus[c];
    && u.haltFlag == u.mode.Halted?
    && (HoldsLock(u) ==> s.locked)
    && match u.mode
       case User => Live(s, u.curenv)
       case Leaving => Live(s, u.curenv)
       case Spin(user, locks) => locks == 1 && if user then Live(s, u.curenv) else u.curenv == None
       case Halted => u.curenv == None
       case Stuck => Kept(s, u.curenv)
       case Kernel(pc) =>
         match pc
         case Entry(user) => if user then Live(s, u.curenv) else u.curenv == None
         case Handling(user) =>
           if user then Live(s, u.curenv) && s.status[u.curenv.value].Running? else u.curenv == None
         case Final => Kept(s, u.curenv)
         case Yielding => Kept(s, u.curenv)
  }

  ghost predicate Apart(s: State, c: nat, d: nat)
    requires c < |s.cpus| && d < |s.cpus|
  {
    c != d ==>
      && !(HoldsLock(s.cpus[c]) && HoldsLock(s.cpus[d]))
      && (s.cpus[c].curenv.Some? ==> s.cpus[c].curenv != s.cpus[d].curenv)
  }

  // A running or dying environment is on some CPU; a receiver is blocked or gone.
  ghost predicate EnvOk(s: State, e: nat)
    requires e < |s.status| == |s.recving|
  {
    && (s.status[e].Running? || s.status[e].Dying? ==> OnSomeCpu(s, e))
    && (s.recving[e] ==> s.status[e].NotRunnable? || s.status[e].Unused?)
  }

  ghost predicate OnSomeCpu(s: State, e: nat) {
    exists c {:trigger s.cpus[c]} :: 0 <= c < |s.cpus| && s.cpus[c].curenv == Some(e)
  }

  ghost predicate LockTaken(s: State) {
    s.locked ==> exists c {:trigger s.cpus[c]} :: 0 <= c < |s.cpus| && HoldsLock(s.cpus[c])
  }

  ghost predicate Inv(s: State) {
    && Shaped(s) && LockTaken(s)
    && (forall c {:trigger CpuOk(s, c)} :: 0 <= c < |s.cpus| ==> CpuOk(s, c))
    && (forall c, d {:trigger Apart(s, c, d)} :: 0 <= c < |s.cpus| && 0 <= d < |s.cpus| ==> Apart(s, c, d))
    && (forall e {:trigger EnvOk(s, e)} :: 0 <= e < |s.status| ==> EnvOk(s, e))
  }

  // ---------------------------------------------------------------- what callers must respect

  // The two hypotheses: an environment marked dying is not destroyed again, and the state of an
  // environment that is on some other CPU is left alone, as is that of a blocked receiver.
  predicate Guarded(s: State, a: Step) {
    match a
    case Destroy(c, e) => e < |s.status| && !s.status[e].Dying?
    case SetStatus(c, e, to) =>
      && c < |s.cpus| && e < |s.status| == |s.recving|
      && (s.cpus[c].curenv == Some(e) || (!s.status[e].Running? && !s.status[e].Dying?))
      && (s.recving[e] ==> to.NotRunnable?)
    case _ => true
  }
}
