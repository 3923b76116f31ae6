/** The invariant of Smp: every step keeps it, exactly when the step respects the callers'
    hypotheses; and what it says of whole runs. */
module SmpProof {
  import opened EnvIds
  import opened Mmu
  import opened Sched
  import opened Smp

  // CPU c changed, and at most environment e with it.
  ghost predicate OnlyCpu(s: State, t: State, c: nat, e: nat) {
    && Shaped(s) && Shaped(t) && |t.cpus| == |s.cpus| && |t.status| == |s.status| && c < |s.cpus|
    && (forall d :: 0 <= d < |s.cpus| && d != c ==> t.cpus[d] == s.cpus[d])
    && (forall f :: 0 <= f < |s.status| && f != e ==> t.status[f] == s.status[f] && t.recving[f] == s.recving[f])
  }

  // While c holds the lock, an environment that is not c's own is live on its CPU or on none.
  lemma Elsewhere(s: State, c: nat, d: nat, e: nat)
    requires Inv(s) && c < |s.cpus| && d < |s.cpus| && d != c && HoldsLock(s.cpus[c])
    requires s.cpus[d].curenv == Some(e)
    ensures Live(s, Some(e)) && s.cpus[c].curenv != Some(e) && !HoldsLock(s.cpus[d])
  {
    assert CpuOk(s, d) && CpuOk(s, c) && Apart(s, c, d);
  }

  // A step of the lock holder that leaves other CPUs' environments live keeps the invariant,
  // if it does right by its own CPU and by the environment it changed.
  lemma HolderStep(s: State, t: State, c: nat, e: nat)
    requires Inv(s) && OnlyCpu(s, t, c, e) && HoldsLock(s.cpus[c])
    requires t.locked == HoldsLock(t.cpus[c]) && CpuOk(t, c)
    requires e < |s.status| ==> EnvOk(t, e) && (Live(s, Some(e)) && s.cpus[c].curenv != Some(e) ==> Live(t, Some(e)))
    requires s.cpus[c].curenv.Some? && s.cpus[c].curenv != Some(e) ==>
               t.cpus[c].curenv == s.cpus[c].curenv || (Kept(s, s.cpus[c].curenv) && !Live(s, s.cpus[c].curenv))
    requires t.cpus[c].curenv.Some? && t.cpus[c].curenv != s.cpus[c].curenv ==> !Live(s, t.cpus[c].curenv)
    ensures Inv(t)
  {
    forall d | 0 <= d < |t.cpus| ensures CpuOk(t, d) {
      if d != c {
        assert CpuOk(s, d) && CpuOk(s, c) && Apart(s, c, d);
      }
    }
    forall d, g | 0 <= d < |t.cpus| && 0 <= g < |t.cpus| ensures Apart(t, d, g) {
      assert Apart(s, d, g) && Apart(s, c, d) && Apart(s, c, g) && CpuOk(s, d) && CpuOk(s, g);
    }
    forall f | 0 <= f < |t.status| ensures EnvOk(t, f) {
      if f != e {
        assert EnvOk(s, f);
        if Live(s, Some(f)) {
          var d :| 0 <= d < |s.cpus| && s.cpus[d].curenv == Some(f);
          assert t.cpus[d].curenv == Some(f);
        }
      }
    }
    assert HoldsLock(t.cpus[c]) ==> LockTaken(t);
  }

  // A step of a CPU that does not hold the lock, which touches only where that CPU is.
  lemma OutsideStep(s: State, t: State, c: nat)
    requires Inv(s) && OnlyCpu(s, t, c, |s.status|) && !HoldsLock(s.cpus[c])
    requires t.cpus[c].curenv == s.cpus[c].curenv && CpuOk(t, c)
    requires if HoldsLock(t.cpus[c]) then !s.locked && t.locked else t.locked == s.locked
    ensures Inv(t)
  {
    forall d | 0 <= d < |t.cpus| ensures CpuOk(t, d) { assert CpuOk(s, d); }
    forall d, g | 0 <= d < |t.cpus| && 0 <= g < |t.cpus| ensures Apart(t, d, g) {
      assert Apart(s, d, g) && CpuOk(s, d) && CpuOk(s, g);
    }
    forall f | 0 <= f < |t.status| ensures EnvOk(t, f) {
      assert EnvOk(s, f);
      if OnSomeCpu(s, f) {
        var d :| 0 <= d < |s.cpus| && s.cpus[d].curenv == Some(f);
        assert t.cpus[d].curenv == Some(f);
      }
    }
    if s.locked {
      var h :| 0 <= h < |s.cpus| && HoldsLock(s.cpus[h]);
      assert HoldsLock(t.cpus[h]);
    } else {
      assert HoldsLock(t.cpus[c]) ==> LockTaken(t);
    }
  }

  lemma TrapKeeps(s: State, c: nat)
    requires Inv(s) && Enabled(s, Trap(c))
    ensures Inv(Apply(s, Trap(c)))
  {
    assert CpuOk(s, c);
    OutsideStep(s, Apply(s, Trap(c)), c);
  }

  lemma XchgKeeps(s: State, c: nat)
    requires Inv(s) && Enabled(s, Xchg(c))
    ensures Inv(Apply(s, Xchg(c)))
  {
    assert CpuOk(s, c);
    if s.locked {
      assert Apply(s, Xchg(c)) == s;
    } else {
      OutsideStep(s, Apply(s, Xchg(c)), c);
    }
  }

  lemma IretKeeps(s: State, c: nat)
    requires Inv(s) && Enabled(s, Iret(c))
    ensures Inv(Apply(s, Iret(c)))
  {
    assert CpuOk(s, c);
    OutsideStep(s, Apply(s, Iret(c)), c);
  }

  lemma CollectKeeps(s: State, c: nat)
    requires Inv(s) && Enabled(s, Collect(c))
    ensures Inv(Apply(s, Collect(c)))
  {
    assert CpuOk(s, c);
    var e := if s.cpus[c].curenv.Some? then s.cpus[c].curenv.value else 0;
    assert EnvOk(s, e);
    HolderStep(s, Apply(s, Collect(c)), c, e);
  }

  // Steps that only move along trap.
  lemma MoveKeeps(s: State, a: Step)
    requires Inv(s) && Enabled(s, a) && (a.Interrupt? || a.YieldCall? || a.OtherCall?)
    ensures Inv(Apply(s, a))
  {
    assert CpuOk(s, a.c);
    HolderStep(s, Apply(s, a), a.c, |s.status|);
  }

  lemma ExoforkKeeps(s: State, c: nat, e: nat)
    requires Inv(s) && Enabled(s, Exofork(c, e))
    ensures Inv(Apply(s, Exofork(c, e)))
  {
    assert CpuOk(s, c);
    HolderStep(s, Apply(s, Exofork(c, e)), c, e);
  }

  lemma SetStatusKeeps(s: State, c: nat, e: nat, to: EnvStatus)
    requires Inv(s) && Enabled(s, SetStatus(c, e, to))
    ensures Inv(Apply(s, SetStatus(c, e, to))) <==> Guarded(s, SetStatus(c, e, to))
  {
    var t := Apply(s, SetStatus(c, e, to));
    assert CpuOk(s, c) && EnvOk(s, e);
    if Guarded(s, SetStatus(c, e, to)) {
      HolderStep(s, t, c, e);
    } else if s.recving[e] && !to.NotRunnable? {
      assert !EnvOk(t, e);
    } else {
      var d :| 0 <= d < |s.cpus| && s.cpus[d].curenv == Some(e);
      Elsewhere(s, c, d, e);
      assert CpuOk(s, d) && !CpuOk(t, d);
    }
  }

  lemma DestroyKeeps(s: State, c: nat, e: nat)
    requires Inv(s) && Enabled(s, Destroy(c, e))
    ensures Inv(Apply(s, Destroy(c, e))) <==> Guarded(s, Destroy(c, e))
  {
    var t := Apply(s, Destroy(c, e));
    assert CpuOk(s, c) && EnvOk(s, e);
    if Guarded(s, Destroy(c, e)) {
      if t.status[e].Dying? {
        var d :| 0 <= d < |s.cpus| && s.cpus[d].curenv == Some(e);
        assert t.cpus[d].curenv == Some(e);
      }
      HolderStep(s, t, c, e);
    } else {
      var d :| 0 <= d < |s.cpus| && s.cpus[d].curenv == Some(e);
      Elsewhere(s, c, d, e);
      assert CpuOk(s, d) && !CpuOk(t, d);
    }
  }

  lemma IpcKeeps(s: State, a: Step)
    requires Inv(s) && Enabled(s, a) && (a.IpcRecv? || a.IpcSend?)
    ensures Inv(Apply(s, a))
  {
    assert CpuOk(s, a.c);
    var e := if a.IpcSend? then a.e else s.cpus[a.c].curenv.value;
    assert EnvOk(s, e);
    HolderStep(s, Apply(s, a), a.c, e);
  }

  lemma ReturnKeeps(s: State, a: Step)
    requires Inv(s) && Enabled(s, a) && a.Finish?
    ensures Inv(Apply(s, a))
  {
    assert CpuOk(s, a.c);
    var cur := s.cpus[a.c].curenv;
    var t := Apply(s, a);
    if cur.Some? && s.status[cur.value].Running? {
      assert t.status == s.status;
    }
    HolderStep(s, t, a.c, |s.status|);
  }

  lemma PreemptKeeps(s: State, c: nat)
    requires Inv(s) && c < |s.cpus| && s.cpus[c].mode == Kernel(Yielding) && Slots(s.status, s.cpus[c].curenv)
    ensures Inv(State(s.locked, s.cpus, Preempted(s.status, s.cpus[c].curenv), s.recving))
  {
    assert CpuOk(s, c);
    var cur := s.cpus[c].curenv;
    var t := State(s.locked, s.cpus, Preempted(s.status, cur), s.recving);
    if cur.Some? { assert EnvOk(s, cur.value); }
    HolderStep(s, t, c, if cur.Some? then cur.value else |s.status|);
  }

  lemma ScheduleKeeps(s: State, c: nat, turn: Turn)
    requires Inv(s) && Enabled(s, Schedule(c, turn))
    ensures Inv(Apply(s, Schedule(c, turn)))
  {
    var cur := s.cpus[c].curenv;
    PreemptKeeps(s, c);
    var r := State(s.locked, s.cpus, Preempted(s.status, cur), s.recving);
    var t := Apply(s, Schedule(c, turn));
    assert CpuOk(r, c) && CpuOk(s, c);
    var e := if turn.next.Dispatch? then turn.next.e else |s.status|;
    if turn.next.Dispatch? { assert EnvOk(r, e) && t.cpus[c].curenv == Some(e); }
    HolderStep(r, t, c, e);
  }

  // Every step keeps the invariant if and only if it respects the callers' hypotheses.
  lemma StepKeeps(s: State, a: Step)
    requires Inv(s) && Enabled(s, a)
    ensures Inv(Apply(s, a)) <==> Guarded(s, a)
  {
    match a
    case Trap(c) => TrapKeeps(s, c);
    case Xchg(c) => XchgKeeps(s, c);
    case Collect(c) => CollectKeeps(s, c);
    case Interrupt(_, _) => MoveKeeps(s, a);
    case Exofork(c, e) => ExoforkKeeps(s, c, e);
    case SetStatus(c, e, to) => SetStatusKeeps(s, c, e, to);
    case Destroy(c, e) => DestroyKeeps(s, c, e);
    case IpcRecv(_) => IpcKeeps(s, a);
    case IpcSend(_, _) => IpcKeeps(s, a);
    case YieldCall(_) => MoveKeeps(s, a);
    case OtherCall(_) => MoveKeeps(s, a);
    case Finish(_) => ReturnKeeps(s, a);
    case Schedule(c, turn) => ScheduleKeeps(s, c, turn);
    case Iret(c) => IretKeeps(s, c);
  }
}
