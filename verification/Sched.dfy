/** kern/sched.c and env_run (kern/env.c): the circular search for the next environment, and
    how long one can wait for its turn. */
module Sched {
  import opened EnvIds
  import opened Mmu

  // Where a CPU goes when it leaves the kernel; Monitor never leaves it.
  datatype Next = Dispatch(e: nat) | Halt | Monitor

  // What sched_yield does: the states it leaves behind, curenv, and the way out.
  datatype Turn = Turn(status: seq<EnvStatus>, curenv: Option<nat>, next: Next)

  predicate Slots(st: seq<EnvStatus>, cur: Option<nat>) {
    |st| > 0 && (cur.Some? ==> cur.value < |st|)
  }

  // A running curenv goes back to being runnable.
  function Preempted(st: seq<EnvStatus>, cur: Option<nat>): seq<EnvStatus>
    requires Slots(st, cur)
  {
    if cur.Some? && st[cur.value].Running? then st[cur.value := Runnable] else st
  }

  function RunStates(st: seq<EnvStatus>, cur: Option<nat>, e: nat): seq<EnvStatus>
    requires Slots(st, cur) && e < |st|
  {
    Preempted(st, cur)[e := Running]
  }

  // How many slots the search passes before it comes to e.
  function Ahead(n: nat, cur: Option<nat>, e: nat): nat
    requires e < n && (cur.Some? ==> cur.value < n)
  {
    if cur.None? then e else if e > cur.value then e - cur.value - 1 else n + e - cur.value - 1
  }

  ghost predicate Nearest(st: seq<EnvStatus>, cur: Option<nat>, e: nat)
    requires Slots(st, cur) && e < |st|
  {
    && st[e].Runnable?
    && forall f {:trigger Ahead(|st|, cur, f)} :: 0 <= f < |st| && st[f].Runnable? ==> Ahead(|st|, cur, e) <= Ahead(|st|, cur, f)
  }

  ghost predicate SomeRunnable(st: seq<EnvStatus>) { exists f :: 0 <= f < |st| && st[f].Runnable? }

  predicate Alive(s: EnvStatus) { s.Runnable? || s.Running? || s.Dying? }
  ghost predicate SomeAlive(st: seq<EnvStatus>) { exists f :: 0 <= f < |st| && Alive(st[f]) }

  // sched_yield as a relation: the nearest runnable environment, the running one last of all;
  // or halt; or, when nothing can ever run again, the monitor.
  ghost predicate Yields(st: seq<EnvStatus>, cur: Option<nat>, t: Turn)
    requires Slots(st, cur)
  {
    var ready := Preempted(st, cur);
    match t.next
    case Dispatch(e) => e < |st| && Nearest(ready, cur, e) && t.status == ready[e := Running] && t.curenv == Some(e)
    case Halt => !SomeRunnable(ready) && SomeAlive(ready) && t.status == ready && t.curenv == None
    case Monitor => !SomeAlive(ready) && t.status == ready && t.curenv == cur
  }

  // ---------------------------------------------------------------- one CPU's view

  class Scheduler {
    const envs: array<EnvStatus>
    var curenv: Option<nat>
    var halted: bool           // cpu_status == CPU_HALTED

    ghost predicate Valid()
      reads this, envs
    {
      Slots(envs[..], curenv)
    }

    constructor (n: nat)
      requires n > 0
      ensures Valid() && fresh(envs) && envs.Length == n && curenv == None && !halted
      ensures forall i :: 0 <= i < n ==> envs[i] == Unused
    {
      envs := new EnvStatus[n](i => Unused);
      curenv := None;
      halted := false;
    }

    method EnvRun(e: nat)
      requires Valid() && e < envs.Length
      modifies this`curenv, envs
      ensures Valid() && curenv == Some(e) && envs[..] == RunStates(old(envs[..]), old(curenv), e)
    {
      if curenv.Some? && envs[curenv.value].Running? {
        envs[curenv.value] := Runnable;
      }
      curenv := Some(e);
      envs[e] := Running;
    }

    method SchedHalt() returns (next: Next)
      requires Valid()
      modifies this
      ensures Valid()
      ensures next == Halt || next == Monitor
      ensures next == Monitor <==> forall f :: 0 <= f < envs.Length ==> envs[f] == Unused || envs[f] == NotRunnable
      ensures next.Halt? ==> halted && curenv == None
      ensures next.Monitor? ==> halted == old(halted) && curenv == old(curenv)
    {
      var i := 0;
      while i < envs.Length
        invariant 0 <= i <= envs.Length
        invariant forall f :: 0 <= f < i ==> !Alive(envs[f])
      {
        if Alive(envs[i]) { break; }
        i := i + 1;
      }
      if i == envs.Length {
        assert forall f :: 0 <= f < envs.Length ==> !Alive(envs[f]);
        return Monitor;
      }
      assert Alive(envs[..][i]);
      curenv := None;
      halted := true;
      return Halt;
    }

    // The loop of sched_yield: circular, starting just after curenv.
    method NextRunnable() returns (found: Option<nat>)
      requires Valid()
      ensures found.Some? ==> found.value < envs.Length && Nearest(envs[..], curenv, found.value)
      ensures found.None? ==> !SomeRunnable(envs[..])
    {
      var e := if curenv.Some? then curenv.value + 1 else 0;
      var i := 0;
      while i < envs.Length
        invariant 0 <= i <= envs.Length && 0 <= e <= envs.Length
        invariant i < envs.Length ==> Ahead(envs.Length, curenv, if e == envs.Length then 0 else e) == i
        invariant forall f {:trigger Ahead(envs.Length, curenv, f)} ::
                    0 <= f < envs.Length && Ahead(envs.Length, curenv, f) < i ==> !envs[f].Runnable?
      {
        if e >= envs.Length { e := 0; }
        if envs[e].Runnable? { return Some(e); }
        forall f | 0 <= f < envs.Length && Ahead(envs.Length, curenv, f) == i ensures f == e {}
        e := e + 1;
        i := i + 1;
      }
      forall f | 0 <= f < envs.Length ensures !envs[f].Runnable? { assert Ahead(envs.Length, curenv, f) < envs.Length; }
      return None;
    }

    method SchedYield() returns (next: Next)
      requires Valid()
      modifies this, envs
      ensures Valid() && Yields(old(envs[..]), old(curenv), Turn(envs[..], curenv, next))
      ensures halted == (old(halted) || next.Halt?)
    {
      if curenv.Some? && envs[curenv.value].Running? {
        envs[curenv.value] := Runnable;
      }
      assert envs[..] == Preempted(old(envs[..]), curenv);
      var found := NextRunnable();
      if found.Some? {
        EnvRun(found.value);
        return Dispatch(found.value);
      }
      if curenv.Some? && envs[curenv.value].Running? {
        assert false; // the running environment was made runnable, so the loop has found it
      }
      next := SchedHalt();
      assert next == Halt ==> exists f :: 0 <= f < envs.Length && Alive(envs[..][f]);
    }
  }

  // ---------------------------------------------------------------- what the search guarantees

  // The search is complete and its answer unique.
  lemma YieldIsDetermined(st: seq<EnvStatus>, cur: Option<nat>, t: Turn, u: Turn)
    requires Slots(st, cur) && Yields(st, cur, t) && Yields(st, cur, u)
    ensures t == u
  {
    var n := |st|;
    if t.next.Dispatch? && u.next.Dispatch? {
      assert Ahead(n, cur, t.next.e) == Ahead(n, cur, u.next.e);
    }
  }

  lemma {:induction false} NearestExists(st: seq<EnvStatus>, cur: Option<nat>, f: nat) returns (e: nat)
    requires Slots(st, cur) && f < |st| && st[f].Runnable?
    ensures e < |st| && Nearest(st, cur, e)
    decreases Ahead(|st|, cur, f)
  {
    if Nearest(st, cur, f) {
      return f;
    }
    var g: nat :| g < |st| && st[g].Runnable? && Ahead(|st|, cur, g) < Ahead(|st|, cur, f);
    e := NearestExists(st, cur, g);
  }

  lemma YieldIsTotal(st: seq<EnvStatus>, cur: Option<nat>) returns (t: Turn)
    requires Slots(st, cur)
    ensures Yields(st, cur, t)
  {
    var ready := Preempted(st, cur);
    if SomeRunnable(ready) {
      var f: nat :| f < |ready| && ready[f].Runnable?;
      var e := NearestExists(ready, cur, f);
      t := Turn(ready[e := Running], Some(e), Dispatch(e));
    } else {
      t := if SomeAlive(ready) then Turn(ready, None, Halt) else Turn(ready, cur, Monitor);
    }
  }

  // The three ways out, by the states found: dispatch while something can run here; the monitor
  // when nothing runs or is being destroyed either; and halting otherwise.
  lemma YieldWaysOut(st: seq<EnvStatus>, cur: Option<nat>, t: Turn)
    requires Slots(st, cur) && Yields(st, cur, t)
    ensures t.next.Dispatch? <==> (exists f :: 0 <= f < |st| && st[f] == Runnable) || (cur.Some? && st[cur.value] == Running)
    ensures t.next.Monitor? <==> forall f :: 0 <= f < |st| ==> st[f] == Unused || st[f] == NotRunnable
  {
    var ready := Preempted(st, cur);
    assert cur.Some? && st[cur.value] == Running ==> ready[cur.value] == Runnable;
    forall f | 0 <= f < |st| && st[f] == Runnable ensures ready[f] == Runnable {}
    if t.next.Dispatch? { assert ready[t.next.e] == Runnable; }
    if t.next.Monitor? {
      forall f | 0 <= f < |st| ensures st[f] == Unused || st[f] == NotRunnable { assert !Alive(ready[f]); }
    }
  }

  // The k-th slot after curenv, going round; from slot 0 on when there is no curenv.
  function InCircle(n: nat, cur: Option<nat>, k: nat): int {
    var c: int := if cur.Some? then cur.value else -1;
    if c + k < n then c + k else c + k - n
  }

  // Going round from curenv, no runnable environment is passed over.
  lemma NobodyIsPassed(st: seq<EnvStatus>, cur: Option<nat>, t: Turn, k: nat) returns (j: nat)
    requires Slots(st, cur) && Yields(st, cur, t)
    requires 1 <= k <= |st| && st[InCircle(|st|, cur, k)] == Runnable
    ensures 1 <= j <= k && t.next == Dispatch(InCircle(|st|, cur, j))
  {
    var n, f := |st|, InCircle(|st|, cur, k);
    assert Preempted(st, cur)[f] == Runnable;
    var e := t.next.e;
    assert Ahead(n, cur, e) <= Ahead(n, cur, f) == k - 1;
    j := Ahead(n, cur, e) + 1;
  }

  // An environment that was running here goes on running only if nobody else is runnable.
  lemma RunsAgainOnlyAlone(st: seq<EnvStatus>, cur: Option<nat>, t: Turn, f: nat)
    requires Slots(st, cur) && Yields(st, cur, t) && cur.Some? && t.next == Dispatch(cur.value)
    requires f < |st| && f != cur.value
    ensures !st[f].Runnable?
  {
    assert Ahead(|st|, cur, f) < |st| - 1 == Ahead(|st|, cur, cur.value);
  }

  // Nobody takes an environment away from another CPU.
  lemma DispatchesOnlyRunnable(st: seq<EnvStatus>, cur: Option<nat>, t: Turn)
    requires Slots(st, cur) && Yields(st, cur, t) && t.next.Dispatch?
    ensures t.next.e < |st| && (st[t.next.e].Runnable? || (st[t.next.e].Running? && cur == Some(t.next.e)))
  {
  }

  // The circular distance to a runnable environment shrinks until it is dispatched.
  lemma CloserOrDispatched(st: seq<EnvStatus>, cur: Option<nat>, t: Turn, w: nat)
    requires Slots(st, cur) && Yields(st, cur, t) && w < |st| && st[w].Runnable?
    ensures t.next.Dispatch? && t.next.e < |st|
    ensures t.next.e == w || Ahead(|st|, Some(t.next.e), w) < Ahead(|st|, cur, w)
  {
    assert Preempted(st, cur)[w].Runnable?;
    assert t.next.Dispatch? ==> Ahead(|st|, cur, t.next.e) <= Ahead(|st|, cur, w);
  }

  // Successive sched_yield calls on one CPU: states[k] is what the k-th call finds, which the
  // environments and the other CPUs may have changed at will since the call before it; curenv
  // is what that call dispatched.
  ghost predicate Calls(n: nat, states: seq<seq<EnvStatus>>, cur: Option<nat>, turns: seq<Turn>)
    decreases |states|
  {
    && |states| == |turns|
    && (states != [] ==>
          && |states[0]| == n && Slots(states[0], cur) && Yields(states[0], cur, turns[0])
          && Calls(n, states[1..], turns[0].curenv, turns[1..]))
  }

  // Bounded waiting: an environment that stays runnable is dispatched within n calls.
  lemma {:induction false} DispatchedWithin(n: nat, states: seq<seq<EnvStatus>>, cur: Option<nat>, turns: seq<Turn>, w: nat)
    requires Calls(n, states, cur, turns) && w < n && (cur.Some? ==> cur.value < n)
    requires forall k :: 0 <= k < |states| ==> |states[k]| == n && states[k][w].Runnable?
    requires |states| > Ahead(n, cur, w)
    ensures exists k :: 0 <= k <= Ahead(n, cur, w) && turns[k].next == Dispatch(w)
    decreases |states|
  {
    CloserOrDispatched(states[0], cur, turns[0], w);
    if turns[0].next.e != w {
      DispatchedWithin(n, states[1..], turns[0].curenv, turns[1..], w);
      var k :| 0 <= k <= Ahead(n, turns[0].curenv, w) && turns[1..][k].next == Dispatch(w);
      assert turns[k + 1].next == Dispatch(w);
    }
  }

  lemma BoundedWaiting(n: nat, states: seq<seq<EnvStatus>>, cur: Option<nat>, turns: seq<Turn>, w: nat)
    requires Calls(n, states, cur, turns) && w < n && (cur.Some? ==> cur.value < n)
    requires forall k :: 0 <= k < |states| ==> |states[k]| == n && states[k][w].Runnable?
    requires |states| >= n
    ensures exists k :: 0 <= k < n && turns[k].next == Dispatch(w)
  {
    DispatchedWithin(n, states, cur, turns, w);
  }

  // It is the kept curenv that makes it so: if each dispatched environment is destroyed before
  // the next call, so that curenv is cleared, slot 0 can be chosen for ever while slot 1 waits.
  ghost predicate ClearedCalls(states: seq<seq<EnvStatus>>, turns: seq<Turn>) {
    |states| == |turns| && forall k {:trigger turns[k]} :: 0 <= k < |turns| ==> Slots(states[k], None) && Yields(states[k], None, turns[k])
  }

  lemma ClearedCurenvStarves(m: nat)
    ensures exists states: seq<seq<EnvStatus>>, turns: seq<Turn> ::
              && |turns| == m && ClearedCalls(states, turns)
              && forall k {:trigger turns[k]} :: 0 <= k < m ==> |states[k]| == 2 && states[k][1].Runnable? && turns[k].next == Dispatch(0)
  {
    var st := [Runnable, Runnable];
    var turn := Turn([Running, Runnable], Some(0), Dispatch(0));
    assert Preempted(st, None)[0 := Running] == turn.status;
    assert Yields(st, None, turn);
    var states, turns := seq(m, i => st), seq(m, i => turn);
    assert ClearedCalls(states, turns);
    assert forall k :: 0 <= k < m ==> |states[k]| == 2 && states[k][1].Runnable? && turns[k].next == Dispatch(0);
  }
}
