/** All layers together: a run of the kernel of Syscalls in which programs follow lib/fork.c,
    call by call and store by store, is a run of the machine of CowFork; so what programs read
    in the kernel's pages is what they would read if fork copied. */
module KernelFork {
  import opened Mmu
  import opened PageTables
  import opened AddressSpaces
  import opened Syscalls
  import opened UserMemory
  import opened CowKernel
  import F = CowFork
  import R = CowRuns

  // ---------------------------------------------------------------- the remaining steps

  lemma SameSpacesSameTables(s: Vm, t: Vm)
    requires SpacesSame(s, t) && |s.dirs| == |t.dirs|
    ensures Tables(t) == Tables(s)
  {
    var before, after := Tables(s), Tables(t);
    forall k ensures (k in after <==> k in before) && (k in before ==> after[k] == before[k]) {
      TablesAt(s, k);
      TablesAt(t, k);
      assert k.env < |s.dirs| ==> Space(t, k.env) == Space(s, k.env);
    }
  }

  // A user page gets new contents, in the kernel and in the machine.
  lemma WriteShows(s: Vm, m: F.Machine, n: F.Machine, f: nat, pg: Page)
    requires Inv(s, multiset{}) && Shows(s, m) && f < |s.mem| && s.role[f] == Data
    requires n.pt == m.pt && n.mem == m.mem[f := pg]
    ensures Inv(s.(mem := s.mem[f := pg]), multiset{}) && Shows(s.(mem := s.mem[f := pg]), n)
  {
    var t := s.(mem := s.mem[f := pg]);
    DataWriteInv(s, multiset{}, f, pg);
    DataWriteSpaces(s, multiset{}, f, pg);
    SameSpacesSameTables(s, t);
    forall k | k in n.pt ensures PageShown(t, n, n.pt[k].frame) { assert PageShown(s, m, m.pt[k].frame); }
  }

  lemma StoreIsStep(s: Vm, m: F.Machine, e: nat, va: nat, off: nat, value: Word)
    requires Inv(s, multiset{}) && Shows(s, m) && F.Enabled(m, F.Store(e, va, off, value)) && off < NPTENTRIES
    ensures m.pt[F.Key(e, va)].frame < |s.mem|
    ensures Shows(WriteWord(s, m.pt[F.Key(e, va)].frame, off, value), F.Apply(m, F.Store(e, va, off, value)))
  {
    var f := m.pt[F.Key(e, va)].frame;
    assert PageShown(s, m, f);
    WriteShows(s, m, F.Apply(m, F.Store(e, va, off, value)), f, s.mem[f][off := value]);
  }

  lemma CopyIsStep(s: Vm, t: Vm, m: F.Machine, e: nat)
    requires Inv(s, multiset{}) && Shows(s, m) && F.Enabled(m, F.FaultCopy(e)) && e < |s.dirs|
    requires PageCopied(s, t, e, F.TEMP, m.proc[e].fault.va)
    ensures Shows(t, F.Apply(m, F.FaultCopy(e)))
  {
    var from, to := F.Key(e, m.proc[e].fault.va), F.Key(e, F.TEMP);
    TablesAt(s, from);
    TablesAt(s, to);
    var f, g := m.pt[to].frame, m.pt[from].frame;
    assert PageShown(s, m, g);
    WriteShows(s, m, F.Apply(m, F.FaultCopy(e)), f, s.mem[g]);
  }

  // sys_exofork: an environment with nothing in it.
  ghost predicate Born(s: Vm, t: Vm, child: nat) {
    && child < |s.dirs| == |t.dirs| && s.dirs[child].None?
    && Space(t, child) == map[] && OthersKeep(s, t, child) && ContentsKept(s, t)
  }

  lemma BornShows(s: Vm, t: Vm, m: F.Machine, n: F.Machine, child: nat)
    requires Inv(t, multiset{}) && Shows(s, m) && Born(s, t, child) && n.pt == m.pt && n.mem == m.mem
    ensures Shows(t, n)
  {
    assert Space(s, child) == map[];
    forall e: nat | e < |s.dirs| ensures Space(t, e) == Space(s, e) {}
    forall e: nat | e >= |s.dirs| ensures Space(t, e) == Space(s, e) {}
    SameSpacesSameTables(s, t);
    forall k | k in n.pt ensures PageShown(t, n, n.pt[k].frame) {
      assert PageShown(s, m, m.pt[k].frame);
      StillShown(s, t, m, n, k);
    }
  }

  lemma BornIsNew(s: Vm, m: F.Machine, child: nat)
    requires Shows(s, m) && child < |s.dirs| && s.dirs[child].None?
    ensures forall k :: k in m.pt ==> k.env != child
  {
    forall k | k in m.pt ensures k.env != child { TablesAt(s, k); }
  }

  // ---------------------------------------------------------------- steps and runs

  // What the kernel and the paging unit do when a program takes step a, by the contracts of
  // Syscalls.System and UserMemory.
  ghost predicate Does(s: Vm, t: Vm, m: F.Machine, a: F.Step)
    requires F.Enabled(m, a)
  {
    match a
    case Store(e, va, off, value) =>
      && off < NPTENTRIES && value < 0x1_0000_0000 && m.pt[F.Key(e, va)].frame < |s.mem|
      && t == WriteWord(s, m.pt[F.Key(e, va)].frame, off, value)
    case FaultAlloc(e, va, frame) => e < |s.dirs| == |t.dirs| && Alloced(s, t, e, F.TEMP, 7) && frame == s.free[0]
    case FaultCopy(e) => e < |s.dirs| && PageCopied(s, t, e, F.TEMP, m.proc[e].fault.va)
    case FaultRemap(e) =>
      e < |s.dirs| == |t.dirs| && Shared(s, t, e, m.proc[e].fault.va, m.pt[F.Key(e, F.TEMP)].frame, 7)
    case FaultUnmap(e) =>
      e < |s.dirs| == |t.dirs| && Space(t, e) == Space(s, e) - {F.TEMP} && OthersKeep(s, t, e) && ContentsKept(s, t)
    case ForkBegin(e, child) => Born(s, t, child)
    case ReadPerm(e) => t == s
    case MapChild(e) =>
      var PermRead(c, va, bits) := m.proc[e].fork;
      c < |s.dirs| == |t.dirs| && MapsWith(s, t, c, va, m.pt[F.Key(e, va)].frame, bits)
    case MapSelf(e) =>
      var ChildMapped(c, va, bits, snap) := m.proc[e].fork;
      e < |s.dirs| == |t.dirs| && MapsWith(s, t, e, va, m.pt[F.Key(e, va)].frame, bits)
    case ForkEnd(e, frame) =>
      m.proc[e].fork.child < |s.dirs| == |t.dirs| && Alloced(s, t, m.proc[e].fork.child, F.XSTACK, 6) && frame == s.free[0]
  }

  ghost predicate MapsWith(s: Vm, t: Vm, e: nat, va: nat, page: nat, bits: F.Bits) {
    exists perm: nat {:trigger BitsOf(perm)} :: BitsOf(perm) == bits && Shared(s, t, e, va, page, perm)
  }

  lemma StepShows(s: Vm, t: Vm, m: F.Machine, a: F.Step)
    requires Inv(s, multiset{}) && Inv(t, multiset{}) && Shows(s, m) && F.Enabled(m, a) && Does(s, t, m, a)
    ensures Shows(t, F.Apply(m, a))
  {
    match a
    case Store(e, va, off, value) => StoreIsStep(s, m, e, va, off, value);
    case FaultAlloc(e, va, frame) => FaultAllocIsStep(s, t, m, e, va);
    case FaultCopy(e) => CopyIsStep(s, t, m, e);
    case FaultRemap(e) => RemapIsStep(s, t, m, e);
    case FaultUnmap(e) => UnmapIsStep(s, t, m, e);
    case ForkBegin(e, child) => BornShows(s, t, m, F.Apply(m, a), child);
    case ReadPerm(e) =>
    case MapChild(e) =>
      var PermRead(c, va, bits) := m.proc[e].fork;
      var perm: nat :| BitsOf(perm) == bits && Shared(s, t, c, va, m.pt[F.Key(e, va)].frame, perm);
      MapChildIsStep(s, t, m, e, perm);
    case MapSelf(e) =>
      var ChildMapped(c, va, bits, snap) := m.proc[e].fork;
      var perm: nat :| BitsOf(perm) == bits && Shared(s, t, e, va, m.pt[F.Key(e, va)].frame, perm);
      MapSelfIsStep(s, t, m, e, perm);
    case ForkEnd(e, frame) => ForkEndIsStep(s, t, m, e);
  }

  // A run: the states the kernel goes through, the machine's beside them, and the steps that
  // programs take.
  datatype Run = Run(trace: seq<Vm>, machines: seq<F.Machine>, steps: seq<F.Step>)

  predicate Shaped(r: Run) { |r.trace| == |r.machines| == |r.steps| + 1 }

  function End(r: Run): Vm
    requires Shaped(r)
  {
    r.trace[|r.steps|]
  }

  function Now(r: Run): F.Machine
    requires Shaped(r)
  {
    r.machines[|r.steps|]
  }

  ghost predicate StepOk(r: Run, i: nat)
    requires Shaped(r) && i < |r.steps|
  {
    && F.Enabled(r.machines[i], r.steps[i]) && r.machines[i + 1] == F.Apply(r.machines[i], r.steps[i])
    && Inv(r.trace[i + 1], multiset{}) && Does(r.trace[i], r.trace[i + 1], r.machines[i], r.steps[i])
  }

  ghost predicate KernelRun(r: Run) {
    && Shaped(r) && Inv(r.trace[0], multiset{})
    && forall i {:trigger StepOk(r, i)} :: 0 <= i < |r.steps| ==> StepOk(r, i)
  }

  lemma StepOkShows(r: Run, i: nat)
    requires Shaped(r) && i < |r.steps| && StepOk(r, i) && Inv(r.trace[i], multiset{}) && Shows(r.trace[i], r.machines[i])
    ensures Inv(r.trace[i + 1], multiset{}) && Shows(r.trace[i + 1], r.machines[i + 1])
  {
    StepShows(r.trace[i], r.trace[i + 1], r.machines[i], r.steps[i]);
  }

  lemma {:induction false} ShowsUpTo(r: Run, n: nat)
    requires KernelRun(r) && Shows(r.trace[0], r.machines[0]) && n <= |r.steps|
    ensures Inv(r.trace[n], multiset{}) && Shows(r.trace[n], r.machines[n])
  {
    if n > 0 {
      ShowsUpTo(r, n - 1);
      StepOkShows(r, n - 1);
    }
  }

  lemma {:induction false} MachineRuns(r: Run, n: nat)
    requires KernelRun(r) && n <= |r.steps|
    ensures R.CanRun(r.machines[n], r.steps[n..]) && R.After(r.machines[n], r.steps[n..]) == Now(r)
    decreases |r.steps| - n
  {
    if n < |r.steps| {
      MachineRuns(r, n + 1);
      assert StepOk(r, n);
      assert r.steps[n..][1..] == r.steps[n + 1..] && r.steps[n..][0] == r.steps[n];
    }
  }

  // Every run of the kernel is a run of the machine, and shows at its end what the machine has.
  lemma RunShows(r: Run)
    requires KernelRun(r) && Shows(r.trace[0], r.machines[0])
    ensures R.CanRun(r.machines[0], r.steps) && R.After(r.machines[0], r.steps) == Now(r)
    ensures Inv(End(r), multiset{}) && Shows(End(r), Now(r))
  {
    ShowsUpTo(r, |r.steps|);
    MachineRuns(r, 0);
    assert r.steps[0..] == r.steps;
  }

  // One more step at the end of a run.
  ghost function More(r: Run, a: F.Step, t: Vm): Run
    requires Shaped(r) && F.Enabled(Now(r), a)
  {
    Run(r.trace + [t], r.machines + [F.Apply(Now(r), a)], r.steps + [a])
  }

  lemma Extend(r: Run, a: F.Step, t: Vm)
    requires KernelRun(r) && F.Enabled(Now(r), a) && Inv(t, multiset{}) && Does(End(r), t, Now(r), a)
    ensures KernelRun(More(r, a, t))
  {
    var u := More(r, a, t);
    forall i | 0 <= i < |u.steps| ensures StepOk(u, i) {
      if i < |r.steps| { assert StepOk(r, i); }
    }
  }

  // The three layers in one: whatever programs do with these calls and stores, in whatever
  // order, the page an environment has mapped at v holds what it would hold if every fork had
  // copied, and may be written (after a fault at most) if that page may.
  lemma KernelForkIsEagerCopy(r: Run, e: nat, v: nat)
    requires KernelRun(r) && Shows(r.trace[0], r.machines[0]) && R.Quiet(r.machines[0])
    requires e < |End(r).dirs| && v in Space(End(r), e) && v != F.TEMP && e in Now(r).proc
    ensures R.CanRun(r.machines[0], r.steps)
    ensures forall l :: l in r.machines[0].pt ==> r.machines[0].pt[l].frame in r.machines[0].mem
    ensures var t, g, k := End(r), R.EagerAfter(R.Copies(r.machines[0]), r.machines[0], r.steps), F.Key(e, v);
            var bits := BitsOf(Space(t, e)[v].perm);
            && Space(t, e)[v].page < |t.mem|
            && if bits.share then k in g.link && g.link[k] in g.common && t.mem[Space(t, e)[v].page] == g.common[g.link[k]]
               else k in g.own && g.own[k] == F.Own(t.mem[Space(t, e)[v].page], bits.w || bits.cow)
  {
    RunShows(r);
    var t, n, k := End(r), Now(r), F.Key(e, v);
    TablesAt(t, k);
    assert PageShown(t, n, n.pt[k].frame);
    R.ForkIsEagerCopy(r.machines[0], r.steps, k);
  }
}
