/** lib/fork.c itself, as it runs on the kernel of Syscalls: pgfault, duppage and fork, each
    shown to take the steps of CowFork's machine when nobody interrupts it. */
module ForkCode {
  import opened Mmu
  import opened PageTables
  import opened AddressSpaces
  import opened PageSteps
  import opened Pmap
  import opened EnvIds
  import opened Syscalls
  import opened Mappings
  import opened UserMemory
  import opened Paging
  import opened CowKernel
  import opened KernelFork
  import F = CowFork
  import R = CowRuns

  const PFTEMP: Word := 0x007f_f000
  const XSTACK_VA: Word := 0xeebf_f000

  // lib/entry.S: uvpt, and uvpd at UVPT + (UVPT >> 12) * 4
  const UVPT: Word := 0xef40_0000
  const UVPD: Word := 0xef7b_d000

  lemma Addresses()
    ensures Vpn(PFTEMP) == F.TEMP && PFTEMP < UTOP && PFTEMP % PGSIZE == 0
    ensures Vpn(XSTACK_VA) == F.XSTACK && XSTACK_VA < UTOP && XSTACK_VA % PGSIZE == 0
    ensures F.USER_PAGES == UTOP / PGSIZE == USER_PAGES
  {
  }

  // PTE_U|PTE_W, with and without PTE_P
  lemma PlainPerms()
    ensures LegalPerm(6) && LegalPerm(7)
  {
  }

  // The kernel's memory is at the end of the run.
  ghost predicate Tracks(s: Vm, run: Run) {
    KernelRun(run) && End(run) == s && Shows(run.trace[0], run.machines[0])
  }

  lemma NowShows(s: Vm, run: Run)
    requires Tracks(s, run)
    ensures Inv(s, multiset{}) && Shows(s, Now(run))
  {
    RunShows(run);
  }

  ghost predicate Continues(run0: Run, run: Run) {
    run0.trace <= run.trace && run0.machines <= run.machines && run0.steps <= run.steps
  }

  // The run goes on by one step, to t.
  ghost predicate Goes(run0: Run, run: Run, a: F.Step, t: Vm) {
    Tracks(t, run) && Continues(run0, run) && run.steps == run0.steps + [a]
  }

  lemma Advance(run0: Run, s: Vm, a: F.Step, t: Vm) returns (run: Run)
    requires Tracks(s, run0) && F.Enabled(Now(run0), a)
    requires Inv(s, multiset{}) && Inv(t, multiset{}) && Does(s, t, Now(run0), a)
    ensures Goes(run0, run, a, t) && Now(run) == F.Apply(Now(run0), a)
  {
    run := More(run0, a, t);
    Extend(run0, a, t);
  }

  // ---------------------------------------------------------------- counts stay small

  // A page from the free list is mapped once.
  lemma FreshCount(s: Vm, t: Vm, e: nat, v: nat, perm: nat)
    requires Inv(s, multiset{}) && Inv(t, multiset{}) && e < |s.dirs| == |t.dirs| && perm < PGSIZE && Alloced(s, t, e, v, perm)
    ensures Space(t, e)[v].page < |t.refs| && t.refs[Space(t, e)[v].page] == 1
  {
    var p := s.free[0];
    SpaceIsData(t, e, v);
    CountIsMappings(t, p);
    forall u ensures u in Mappers(t, p) <==> u == User(e, v) {
      if u.env < |s.dirs| && u.env != e { assert Space(t, u.env) == Space(s, u.env); }
      if u.env < |s.dirs| && u.page in Space(s, u.env) {
        SpaceIsData(s, u.env, u.page);
        assert OnListIffFree(s, p);
      }
    }
    assert Mappers(t, p) == {User(e, v)};
  }

  // ---------------------------------------------------------------- pgfault

  // Where environment e is in pgfault at the end of the run.
  ghost predicate FaultIs(run: Run, e: nat, f: F.FaultPc) {
    Shaped(run) && e in Now(run).proc && Now(run).proc[e].fault == f
  }

  ghost predicate CowAt(n: F.Machine, e: nat, v: nat) {
    F.Key(e, v) in n.pt && !n.pt[F.Key(e, v)].bits.w && n.pt[F.Key(e, v)].bits.cow
  }

  lemma SevenBits()
    ensures WithPresent(7) == 7 && 7 / 2 % 2 == 1 && 7 / 4 % 2 == 1
  {
  }

  lemma TempIsWritable(s: Vm, t: Vm, e: nat, v: nat)
    requires Alloced(s, t, e, F.TEMP, 7) && Readable(s, e, v)
    ensures MayCopy(t, e, F.TEMP, v)
  {
    SevenBits();
  }

  lemma TempTaken(s: Vm, t: Vm, e: nat, v: nat, run0: Run) returns (run: Run)
    requires Inv(s, multiset{}) && Inv(t, multiset{}) && Tracks(s, run0) && e < |s.dirs| == |t.dirs|
    requires F.Idle(Now(run0), e) && CowAt(Now(run0), e, v) && Alloced(s, t, e, F.TEMP, 7)
    ensures Goes(run0, run, F.FaultAlloc(e, v, s.free[0]), t)
    ensures FaultIs(run, e, F.HaveTemp(v))
    ensures F.TEMP in Space(t, e) && Space(t, e)[F.TEMP].page < |t.refs| && t.refs[Space(t, e)[F.TEMP].page] == 1
  {
    NowShows(s, run0);
    FreePageUnmapped(s, Now(run0));
    FreshCount(s, t, e, F.TEMP, 7);
    run := Advance(run0, s, F.FaultAlloc(e, v, s.free[0]), t);
  }

  method AllocTemp(k: System) returns (r: int)
    requires k.Good() && k.Live(k.curenv)
    modifies k.vm, k.vm.ppRef, k.vm.ppLink, k.vm.mem
    ensures k.Good() && |k.vm.View().dirs| == |old(k.vm.View()).dirs|
    ensures r < 0 <==> old(k.vm.free) == [] || NoRoom(old(k.vm.View()), k.curenv, PFTEMP, 1)
    ensures r >= 0 ==> Alloced(old(k.vm.View()), k.vm.View(), k.curenv, F.TEMP, 7)
  {
    Addresses();
    PlainPerms();
    r := k.SysPageAlloc(0, PFTEMP, 7);
  }

  // lib/fork.c:34: a new page at PFTEMP
  method TakeTemp(k: System, v: nat, ghost run0: Run) returns (r: int, ghost run: Run)
    requires k.Good() && k.Live(k.curenv) && Tracks(k.vm.View(), run0)
    requires F.Idle(Now(run0), k.curenv) && CowAt(Now(run0), k.curenv, v)
    requires Readable(k.vm.View(), k.curenv, v)
    modifies k.vm, k.vm.ppRef, k.vm.ppLink, k.vm.mem
    ensures k.Good()
    ensures r < 0 <==> old(k.vm.free) == [] || NoRoom(old(k.vm.View()), k.curenv, PFTEMP, 1)
    ensures r >= 0 ==> MayCopy(k.vm.View(), k.curenv, F.TEMP, v) && k.FewMappings(k.curenv, F.TEMP)
    ensures r >= 0 ==> FaultIs(run, k.curenv, F.HaveTemp(v))
    ensures r >= 0 ==> Goes(run0, run, F.FaultAlloc(k.curenv, v, old(k.vm.free)[0]), k.vm.View())
  {
    ghost var s := k.vm.View();
    run := run0;
    r := AllocTemp(k);
    if r >= 0 {
      TempIsWritable(s, k.vm.View(), k.curenv, v);
      run := TempTaken(s, k.vm.View(), k.curenv, v, run0);
    }
  }

  lemma TempCopied(s: Vm, t: Vm, e: nat, v: nat, run0: Run) returns (run: Run)
    requires Inv(s, multiset{}) && Tracks(s, run0) && e < |s.dirs|
    requires FaultIs(run0, e, F.HaveTemp(v)) && PageCopied(s, t, e, F.TEMP, v)
    ensures Inv(t, multiset{}) && Goes(run0, run, F.FaultCopy(e), t) && SpacesSame(s, t) && t.refs == s.refs
    ensures FaultIs(run, e, F.Copied(v))
  {
    NowShows(s, run0);
    var n, f := Now(run0), Space(s, e)[F.TEMP].page;
    TablesAt(s, F.Key(e, F.TEMP));
    TablesAt(s, F.Key(e, v));
    assert PageShown(s, n, n.pt[F.Key(e, v)].frame);
    DataWriteInv(s, multiset{}, f, t.mem[f]);
    DataWriteSpaces(s, multiset{}, f, t.mem[f]);
    run := Advance(run0, s, F.FaultCopy(e), t);
  }

  // lib/fork.c:36: memmove
  method CopyTemp(k: System, v: nat, ghost run0: Run) returns (ghost run: Run)
    requires k.Good() && k.Live(k.curenv) && Tracks(k.vm.View(), run0) && v < UTOP / PGSIZE
    requires FaultIs(run0, k.curenv, F.HaveTemp(v)) && MayCopy(k.vm.View(), k.curenv, F.TEMP, v)
    requires k.FewMappings(k.curenv, F.TEMP)
    modifies k.vm, k.vm.ppRef, k.vm.ppLink, k.vm.mem
    ensures k.Good() && MayShare(k.vm.View(), k.curenv, F.TEMP, 7) && v in Space(k.vm.View(), k.curenv)
    ensures k.FewMappings(k.curenv, F.TEMP) && FaultIs(run, k.curenv, F.Copied(v))
    ensures Goes(run0, run, F.FaultCopy(k.curenv), k.vm.View())
  {
    ghost var s := k.vm.View();
    var ok := UserCopyPage(k, F.TEMP, v);
    run := TempCopied(s, k.vm.View(), k.curenv, v, run0);
    assert Space(k.vm.View(), k.curenv) == Space(s, k.curenv);
  }

  // A mapped page has a page table.
  lemma HasTable(s: Vm, e: nat, v: nat, spare: nat)
    requires Inv(s, multiset{}) && v in Space(s, e) && v < UTOP / PGSIZE
    ensures !NoRoom(s, e, PGSIZE * v, spare)
  {
    WordOf(v, 0);
    VpnDigits(PGSIZE * v);
  }

  lemma TempMapped(s: Vm, t: Vm, e: nat, v: nat, run0: Run) returns (run: Run)
    requires Inv(s, multiset{}) && Inv(t, multiset{}) && Tracks(s, run0) && e < |s.dirs| == |t.dirs|
    requires FaultIs(run0, e, F.Copied(v)) && F.TEMP in Space(s, e) && Shared(s, t, e, v, Space(s, e)[F.TEMP].page, 7)
    ensures Goes(run0, run, F.FaultRemap(e), t) && FaultIs(run, e, F.Remapped(v))
  {
    NowShows(s, run0);
    TablesAt(s, F.Key(e, F.TEMP));
    run := Advance(run0, s, F.FaultRemap(e), t);
  }

  // lib/fork.c:37
  method MapTemp(k: System, v: nat, ghost run0: Run) returns (r: int, ghost run: Run)
    requires k.Good() && k.Live(k.curenv) && Tracks(k.vm.View(), run0) && v < UTOP / PGSIZE
    requires FaultIs(run0, k.curenv, F.Copied(v)) && MayShare(k.vm.View(), k.curenv, F.TEMP, 7)
    requires v in Space(k.vm.View(), k.curenv) && k.FewMappings(k.curenv, F.TEMP)
    modifies k.vm, k.vm.ppRef, k.vm.ppLink, k.vm.mem
    ensures k.Good() && r == 0 && Goes(run0, run, F.FaultRemap(k.curenv), k.vm.View())
    ensures FaultIs(run, k.curenv, F.Remapped(v))
  {
    ghost var s := k.vm.View();
    Addresses();
    PlainPerms();
    WordOf(v, 0);
    PageStart(v);
    HasTable(s, k.curenv, v, 0);
    r := k.SysPageMap(0, PFTEMP, 0, PGSIZE * v, 7);
    run := TempMapped(s, k.vm.View(), k.curenv, v, run0);
  }

  lemma PageStart(v: nat)
    ensures PGSIZE * v % PGSIZE == 0
  {
  }

  lemma TempDropped(s: Vm, t: Vm, e: nat, v: nat, run0: Run) returns (run: Run)
    requires Inv(s, multiset{}) && Inv(t, multiset{}) && Tracks(s, run0) && e < |s.dirs| == |t.dirs|
    requires FaultIs(run0, e, F.Remapped(v))
    requires Space(t, e) == Space(s, e) - {F.TEMP} && OthersKeep(s, t, e) && ContentsKept(s, t)
    ensures Goes(run0, run, F.FaultUnmap(e), t)
  {
    NowShows(s, run0);
    run := Advance(run0, s, F.FaultUnmap(e), t);
  }

  // lib/fork.c:40
  method DropTemp(k: System, v: nat, ghost run0: Run) returns (r: int, ghost run: Run)
    requires k.Good() && k.Live(k.curenv) && Tracks(k.vm.View(), run0)
    requires FaultIs(run0, k.curenv, F.Remapped(v))
    modifies k.vm, k.vm.ppRef, k.vm.ppLink, k.vm.mem
    ensures k.Good() && r == 0 && Goes(run0, run, F.FaultUnmap(k.curenv), k.vm.View())
  {
    ghost var s := k.vm.View();
    Addresses();
    r := k.SysPageUnmap(0, PFTEMP);
    run := TempDropped(s, k.vm.View(), k.curenv, v, run0);
  }

  // PTE_COW
  predicate CowBit(pte: Word) { Perm(pte) / 0x800 % 2 == 1 }

  ghost predicate CowMapped(s: Vm, e: nat, v: nat) { v in Space(s, e) && BitsOf(Space(s, e)[v].perm).cow }

  lemma BitsShown(s: Vm, n: F.Machine, e: nat, v: nat)
    requires Shows(s, n) && CowMapped(s, e, v) && Readable(s, e, v) && !MayWrite(s, e, v)
    ensures CowAt(n, e, v)
  {
    TablesAt(s, F.Key(e, v));
  }

  // uvpt[v] and uvpd[i]: loads through the slot at which the directory maps itself; where
  // there is no table, the first faults.
  method Uvpt(k: System, v: nat) returns (w: Option<Word>)
    requires k.Good() && k.Live(k.curenv) && v < UTOP / PGSIZE
    ensures HasDir(k.vm.View(), k.curenv) && w == EntryOf(k.vm.View(), k.vm.View().dirs[k.curenv].value, v)
  {
    RunningHasDir(k);
    DirectoryOf(k.vm.View(), k.curenv);
    TablesAreVisible(k.vm.View(), multiset{}, k.vm.View().dirs[k.curenv].value, v);
    w := UserLoad(k, UVPT + 4 * v);
  }

  method Uvpd(k: System, i: nat) returns (w: Option<Word>)
    requires k.Good() && k.Live(k.curenv) && i < NPTENTRIES
    ensures HasDir(k.vm.View(), k.curenv) && w == Some(k.vm.View().mem[k.vm.View().dirs[k.curenv].value][i])
  {
    RunningHasDir(k);
    DirectoryOf(k.vm.View(), k.curenv);
    DirectoryIsVisible(k.vm.View(), multiset{}, k.vm.View().dirs[k.curenv].value, i);
    w := UserLoad(k, UVPD + 4 * i);
  }

  lemma DirectoryOf(s: Vm, e: nat)
    requires Inv(s, multiset{}) && HasDir(s, e)
    ensures IsDir(s, s.dirs[e].value)
  {
    assert DirTyped(s, e);
  }

  // What the word read from uvpt says of the flat map.
  lemma UvptMeans(s: Vm, e: nat, v: nat)
    requires Inv(s, multiset{}) && HasDir(s, e) && v < USER_PAGES
    ensures var w := EntryOf(s, s.dirs[e].value, v);
            && (v in Space(s, e) <==> w.Some? && Present(w.value))
            && (v in Space(s, e) ==> Space(s, e)[v].perm == Perm(w.value))
            && (w.Some? && !Present(w.value) ==> w.value == 0)
  {
    var d := s.dirs[e].value;
    DirectoryOf(s, e);
    assert EntryTyped(s, d, v / NPTENTRIES);
    if EntryOf(s, d, v).Some? { assert EntryTyped(s, Frame(s.mem[d][v / NPTENTRIES]), v % NPTENTRIES); }
  }

  // uvpt[v] & PTE_COW
  method IsCow(k: System, v: nat) returns (cow: bool)
    requires k.Good() && k.Live(k.curenv) && v < UTOP / PGSIZE
    ensures cow <==> CowMapped(k.vm.View(), k.curenv, v)
  {
    var w := Uvpt(k, v);
    CowBitMeans(k.vm.View(), k.curenv, v);
    return w.Some? && CowBit(w.value);
  }

  lemma CowBitMeans(s: Vm, e: nat, v: nat)
    requires Inv(s, multiset{}) && HasDir(s, e) && v < USER_PAGES
    ensures var w := EntryOf(s, s.dirs[e].value, v);
            w.Some? && CowBit(w.value) <==> CowMapped(s, e, v)
  {
    UvptMeans(s, e, v);
  }

  // lib/fork.c:17; false is the panic.  A write that faults is to a page that may not be
  // written.
  method PgFault(k: System, v: nat, write: bool, ghost run0: Run) returns (ok: bool, ghost run: Run)
    requires k.Good() && k.Live(k.curenv) && Tracks(k.vm.View(), run0) && F.Idle(Now(run0), k.curenv)
    requires v < UTOP / PGSIZE && (v in Space(k.vm.View(), k.curenv) ==> Readable(k.vm.View(), k.curenv, v))
    requires write ==> !MayWrite(k.vm.View(), k.curenv, v)
    modifies k.vm, k.vm.ppRef, k.vm.ppLink, k.vm.mem
    ensures k.Good()
    ensures ok <==>
      && write && CowMapped(old(k.vm.View()), k.curenv, v)
      && old(k.vm.free) != [] && !NoRoom(old(k.vm.View()), k.curenv, 0x7f_f000, 1)
    ensures ok ==> Tracks(k.vm.View(), run) && Continues(run0, run)
    ensures ok ==> run.steps == run0.steps + FaultSteps(k.curenv, v, old(k.vm.free)[0])
  {
    run := run0;
    ok := ShouldCopy(k, v, write, run0);
    if ok { ok, run := CopyPage(k, v, run0); }
  }

  lemma ThreeSteps(l: seq<F.Step>, a: F.Step, b: F.Step, c: F.Step)
    ensures l + [a] + [b] + [c] == l + [a, b, c]
  {
  }

  lemma FirstStep(l: seq<F.Step>, e: nat, v: nat, frame: nat)
    ensures l + [F.FaultAlloc(e, v, frame)] + [F.FaultCopy(e), F.FaultRemap(e), F.FaultUnmap(e)] == l + FaultSteps(e, v, frame)
  {
  }

  function FaultSteps(e: nat, v: nat, frame: nat): seq<F.Step> {
    [F.FaultAlloc(e, v, frame), F.FaultCopy(e), F.FaultRemap(e), F.FaultUnmap(e)]
  }

  // lib/fork.c:30
  method ShouldCopy(k: System, v: nat, write: bool, ghost run: Run) returns (ok: bool)
    requires k.Good() && k.Live(k.curenv) && Tracks(k.vm.View(), run) && v < UTOP / PGSIZE
    requires v in Space(k.vm.View(), k.curenv) ==> Readable(k.vm.View(), k.curenv, v)
    requires write ==> !MayWrite(k.vm.View(), k.curenv, v)
    ensures ok <==> write && CowMapped(k.vm.View(), k.curenv, v)
    ensures ok ==> CowAt(Now(run), k.curenv, v) && Readable(k.vm.View(), k.curenv, v)
  {
    var cow := IsCow(k, v);
    ok := write && cow;
    if ok {
      NowShows(k.vm.View(), run);
      BitsShown(k.vm.View(), Now(run), k.curenv, v);
    }
  }

  // lib/fork.c:34-41
  method CopyPage(k: System, v: nat, ghost run0: Run) returns (ok: bool, ghost run: Run)
    requires k.Good() && k.Live(k.curenv) && Tracks(k.vm.View(), run0) && v < UTOP / PGSIZE
    requires F.Idle(Now(run0), k.curenv) && CowAt(Now(run0), k.curenv, v)
    requires Readable(k.vm.View(), k.curenv, v)
    modifies k.vm, k.vm.ppRef, k.vm.ppLink, k.vm.mem
    ensures k.Good()
    ensures ok <==> old(k.vm.free) != [] && !NoRoom(old(k.vm.View()), k.curenv, PFTEMP, 1)
    ensures ok ==> Tracks(k.vm.View(), run) && Continues(run0, run)
    ensures ok ==> run.steps == run0.steps + FaultSteps(k.curenv, v, old(k.vm.free)[0])
  {
    var r;
    r, run := TakeTemp(k, v, run0);
    ok := r >= 0;
    if ok {
      run := UseTemp(k, v, run);
      FirstStep(run0.steps, k.curenv, v, old(k.vm.free)[0]);
    }
  }

  // lib/fork.c:36-41: what follows the allocation cannot fail.
  method UseTemp(k: System, v: nat, ghost run0: Run) returns (ghost run: Run)
    requires k.Good() && k.Live(k.curenv) && Tracks(k.vm.View(), run0) && v < UTOP / PGSIZE
    requires FaultIs(run0, k.curenv, F.HaveTemp(v)) && MayCopy(k.vm.View(), k.curenv, F.TEMP, v)
    requires k.FewMappings(k.curenv, F.TEMP)
    modifies k.vm, k.vm.ppRef, k.vm.ppLink, k.vm.mem
    ensures k.Good() && Tracks(k.vm.View(), run) && Continues(run0, run)
    ensures run.steps == run0.steps + [F.FaultCopy(k.curenv), F.FaultRemap(k.curenv), F.FaultUnmap(k.curenv)]
  {
    run := CopyTemp(k, v, run0);
    run := MoveTemp(k, v, run);
    ThreeSteps(run0.steps, F.FaultCopy(k.curenv), F.FaultRemap(k.curenv), F.FaultUnmap(k.curenv));
  }

  // lib/fork.c:37-41
  method MoveTemp(k: System, v: nat, ghost run0: Run) returns (ghost run: Run)
    requires k.Good() && k.Live(k.curenv) && Tracks(k.vm.View(), run0) && v < UTOP / PGSIZE
    requires FaultIs(run0, k.curenv, F.Copied(v)) && MayShare(k.vm.View(), k.curenv, F.TEMP, 7)
    requires v in Space(k.vm.View(), k.curenv) && k.FewMappings(k.curenv, F.TEMP)
    modifies k.vm, k.vm.ppRef, k.vm.ppLink, k.vm.mem
    ensures k.Good() && Tracks(k.vm.View(), run) && Continues(run0, run)
    ensures run.steps == run0.steps + [F.FaultRemap(k.curenv)] + [F.FaultUnmap(k.curenv)]
  {
    var r;
    r, run := MapTemp(k, v, run0);
    r, run := DropTemp(k, v, run);
  }

  // ---------------------------------------------------------------- what fork does to the tables

  // The child's entry for a page, and the parent's afterwards: the same page.
  function ChildMapping(mp: Mapping): Mapping {
    if mp.perm < PGSIZE then Mapping(mp.page, WithPresent(DupPerm(mp.perm))) else mp
  }

  function ParentMapping(mp: Mapping): Mapping {
    if mp.perm < PGSIZE && BitsOf(DupPerm(mp.perm)).cow then ChildMapping(mp) else mp
  }

  ghost predicate ParentAt(s: Vm, t: Vm, e: nat, n: nat, v: nat) {
    && (v in Space(t, e) <==> v in Space(s, e))
    && (v in Space(s, e) ==>
          Space(t, e)[v] == if v < n && v != F.XSTACK then ParentMapping(Space(s, e)[v]) else Space(s, e)[v])
  }

  ghost predicate ChildAt(s: Vm, t: Vm, e: nat, c: nat, n: nat, v: nat) {
    && (v in Space(t, c) <==> v in Space(s, e) && v < n && v != F.XSTACK)
    && (v in Space(t, c) ==> Space(t, c)[v] == ChildMapping(Space(s, e)[v]))
  }

  // The contents of the page at v in x.
  ghost predicate ContentAt(s: Vm, t: Vm, x: nat, v: nat) {
    v in Space(s, x) ==>
      var p := Space(s, x)[v].page;
      p < |s.mem| == |t.mem| && t.mem[p] == s.mem[p]
  }

  // The pages below n have been duplicated from e into c, and nothing else has changed.
  ghost predicate Dupped(s: Vm, t: Vm, e: nat, c: nat, n: nat) {
    && e != c && e < |s.dirs| == |t.dirs| && c < |s.dirs|
    && (forall x {:trigger Space(t, x)} :: 0 <= x < |s.dirs| && x != e && x != c ==> Space(t, x) == Space(s, x))
    && (forall v {:trigger ParentAt(s, t, e, n, v)} :: 0 <= v ==> ParentAt(s, t, e, n, v))
    && (forall v {:trigger ChildAt(s, t, e, c, n, v)} :: 0 <= v ==> ChildAt(s, t, e, c, n, v))
    && (forall x, v {:trigger ContentAt(s, t, x, v)} :: 0 <= x && 0 <= v ==> ContentAt(s, t, x, v))
  }

  lemma DuppedStart(s: Vm, e: nat, c: nat)
    requires Inv(s, multiset{}) && e != c && e < |s.dirs| && c < |s.dirs| && Space(s, c) == map[]
    ensures Dupped(s, s, e, c, 0)
  {
    forall x: nat, v: nat ensures ContentAt(s, s, x, v) {
      if v in Space(s, x) { SpaceIsData(s, x, v); }
    }
    forall v: nat ensures ParentAt(s, s, e, 0, v) && ChildAt(s, s, e, c, 0, v) {}
  }

  lemma DuppedSkip(s: Vm, t: Vm, e: nat, c: nat, v: nat)
    requires Dupped(s, t, e, c, v) && (v == F.XSTACK || v !in Space(t, e))
    ensures Dupped(s, t, e, c, v + 1)
  {
    var n := v + 1;
    forall u: nat ensures ParentAt(s, t, e, n, u) && ChildAt(s, t, e, c, n, u) {
      assert ParentAt(s, t, e, v, u) && ChildAt(s, t, e, c, v, u);
    }
  }

  // One page: mapped in the child, and again in the parent if it is to be copy-on-write.
  ghost predicate DupDone(s: Vm, t: Vm, e: nat, c: nat, v: nat) {
    && v in Space(s, e) && |s.dirs| == |t.dirs|
    && Space(t, c) == Space(s, c)[v := ChildMapping(Space(s, e)[v])]
    && Space(t, e) == Space(s, e)[v := ParentMapping(Space(s, e)[v])]
    && (forall x {:trigger Space(t, x)} :: 0 <= x < |s.dirs| && x != e && x != c ==> Space(t, x) == Space(s, x))
    && ContentsKept(s, t)
  }

  lemma ParentMore(s: Vm, u: Vm, t: Vm, e: nat, c: nat, v: nat, w: nat)
    requires Dupped(s, u, e, c, v) && DupDone(u, t, e, c, v) && v != F.XSTACK
    ensures ParentAt(s, t, e, v + 1, w)
  {
    assert ParentAt(s, u, e, v, v) && ParentAt(s, u, e, v, w);
  }

  lemma ChildMore(s: Vm, u: Vm, t: Vm, e: nat, c: nat, v: nat, w: nat)
    requires Dupped(s, u, e, c, v) && DupDone(u, t, e, c, v) && v != F.XSTACK
    ensures ChildAt(s, t, e, c, v + 1, w)
  {
    assert ParentAt(s, u, e, v, v) && ChildAt(s, u, e, c, v, w);
  }

  lemma DuppedMore(s: Vm, u: Vm, t: Vm, e: nat, c: nat, v: nat)
    requires Inv(s, multiset{}) && Inv(u, multiset{}) && Inv(t, multiset{})
    requires Dupped(s, u, e, c, v) && DupDone(u, t, e, c, v) && v != F.XSTACK && Space(s, c) == map[]
    ensures Dupped(s, t, e, c, v + 1)
  {
    var n := v + 1;
    forall w: nat ensures ParentAt(s, t, e, n, w) && ChildAt(s, t, e, c, n, w) {
      ParentMore(s, u, t, e, c, v, w);
      ChildMore(s, u, t, e, c, v, w);
    }
    forall x: nat, w: nat ensures ContentAt(s, t, x, w) { ContentStays(s, u, t, e, c, v, x, w); }
  }

  lemma ContentStays(s: Vm, u: Vm, t: Vm, e: nat, c: nat, v: nat, x: nat, w: nat)
    requires Inv(s, multiset{}) && Inv(u, multiset{}) && Inv(t, multiset{})
    requires Dupped(s, u, e, c, v) && DupDone(u, t, e, c, v) && v != F.XSTACK && Space(s, c) == map[]
    ensures ContentAt(s, t, x, w)
  {
    if w in Space(s, x) {
      assert ContentAt(s, u, x, w) && x < |s.dirs| && x != c;
      assert x == e ==> ParentAt(s, u, e, v, w);
      assert w in Space(u, x) && w in Space(t, x) && Space(u, x)[w].page == Space(s, x)[w].page == Space(t, x)[w].page;
      SpaceIsData(u, x, w);
      SpaceIsData(t, x, w);
    }
  }

  // ---------------------------------------------------------------- counts while forking

  lemma {:induction false} ImageSize(a: set<User>, c: nat)
    ensures |set u | u in a :: User(c, u.page)| <= |a|
  {
    if a != {} {
      var x :| x in a;
      ImageSize(a - {x}, c);
      assert (set u | u in a :: User(c, u.page)) == (set u | u in a - {x} :: User(c, u.page)) + {User(c, x.page)};
    } else {
      assert (set u | u in a :: User(c, u.page)) == {};
    }
  }

  // No page has more than twice the references it had.
  lemma DuppedCount(s: Vm, t: Vm, e: nat, c: nat, n: nat, v: nat)
    requires Inv(s, multiset{}) && Inv(t, multiset{}) && Dupped(s, t, e, c, n) && Space(s, c) == map[] && v in Space(t, e)
    ensures var p := Space(t, e)[v].page; p < |s.refs| && p < |t.refs| && t.refs[p] <= 2 * s.refs[p]
  {
    var p := Space(t, e)[v].page;
    assert ParentAt(s, t, e, n, v);
    SpaceIsData(s, e, v);
    SpaceIsData(t, e, v);
    CountIsMappings(s, p);
    CountIsMappings(t, p);
    var a, b := Mappers(s, p), Mappers(t, p);
    var image := set u | u in a :: User(c, u.page);
    forall u | u in b ensures u in a + image { MapperWas(s, t, e, c, n, p, u); }
    ImageSize(a, c);
    SubsetSize(b, a, image);
  }

  lemma SubsetSize(b: set<User>, a: set<User>, c: set<User>)
    requires b <= a + c
    ensures |b| <= |a| + |c|
  {
    var rest := (a + c) - b;
    assert a + c == b + rest && |b + rest| == |b| + |rest|;
    assert |a + c| + |a * c| == |a| + |c|;
  }

  lemma MapperWas(s: Vm, t: Vm, e: nat, c: nat, n: nat, p: nat, u: User)
    requires Dupped(s, t, e, c, n) && u in Mappers(t, p)
    ensures u in Mappers(s, p) || (u.env == c && User(e, u.page) in Mappers(s, p))
  {
    if u.env == e {
      assert ParentAt(s, t, e, n, u.page);
    } else if u.env == c {
      assert ChildAt(s, t, e, c, n, u.page);
    } else {
      assert Space(t, u.env) == Space(s, u.env);
    }
  }

  // Mapping a page once more adds one reference at most.
  lemma SharedCount(s: Vm, t: Vm, e: nat, v: nat, p: nat, perm: nat)
    requires Inv(s, multiset{}) && Inv(t, multiset{}) && e < |s.dirs| == |t.dirs| && Shared(s, t, e, v, p, perm)
    requires p < |s.role| && s.role[p] == Data
    ensures p < |t.refs| && p < |s.refs| && t.refs[p] <= s.refs[p] + 1
  {
    SpaceIsData(t, e, v);
    CountIsMappings(s, p);
    CountIsMappings(t, p);
    forall u | u in Mappers(t, p) ensures u in Mappers(s, p) + {User(e, v)} {
      assert u.env != e ==> Space(t, u.env) == Space(s, u.env);
    }
    SubsetSize(Mappers(t, p), Mappers(s, p), {User(e, v)});
  }

  // ---------------------------------------------------------------- duppage

  // Where environment e is in fork at the end of the run.
  ghost predicate ForkIs(run: Run, e: nat, f: F.ForkPc) {
    Shaped(run) && F.Idle(Now(run), e) && Now(run).proc[e].fork == f
  }

  lemma PermRead(s: Vm, e: nat, c: nat, v: nat, run0: Run) returns (run: Run)
    requires Inv(s, multiset{}) && Tracks(s, run0) && ForkIs(run0, e, F.Scan(c, v)) && v < F.USER_PAGES
    ensures Goes(run0, run, F.ReadPerm(e), s)
    ensures ForkIs(run, e,
              if v == F.XSTACK || v !in Space(s, e) then F.Scan(c, v + 1)
              else F.PermRead(c, v, F.DupPerm(BitsOf(Space(s, e)[v].perm))))
  {
    NowShows(s, run0);
    TablesAt(s, F.Key(e, v));
    run := Advance(run0, s, F.ReadPerm(e), s);
  }

  lemma WithPerm(s: Vm, t: Vm, e: nat, v: nat, page: nat, perm: nat)
    requires Shared(s, t, e, v, page, perm)
    ensures MapsWith(s, t, e, v, page, BitsOf(perm))
  {
  }

  lemma ChildDoes(s: Vm, t: Vm, n: F.Machine, e: nat, c: nat, v: nat, bits: F.Bits)
    requires Shows(s, n) && c < |s.dirs| == |t.dirs| && F.Idle(n, e) && n.proc[e].fork == F.PermRead(c, v, bits)
    requires v in Space(s, e) && MapsWith(s, t, c, v, Space(s, e)[v].page, bits)
    ensures F.Enabled(n, F.MapChild(e)) && Does(s, t, n, F.MapChild(e))
  {
    TablesAt(s, F.Key(e, v));
  }

  lemma ChildNext(s: Vm, n: F.Machine, e: nat, c: nat, v: nat, bits: F.Bits)
    requires Shows(s, n) && F.Idle(n, e) && n.proc[e].fork == F.PermRead(c, v, bits) && v in Space(s, e) && e < |s.dirs|
    ensures F.Enabled(n, F.MapChild(e))
    ensures F.Idle(F.Apply(n, F.MapChild(e)), e) && F.Apply(n, F.MapChild(e)).proc[e].fork == AfterChild(s, e, c, v, bits)
  {
    TablesAt(s, F.Key(e, v));
  }

  lemma SelfDoes(s: Vm, t: Vm, n: F.Machine, e: nat, c: nat, v: nat, bits: F.Bits, snap: bool)
    requires Shows(s, n) && e < |s.dirs| == |t.dirs| && F.Idle(n, e) && n.proc[e].fork == F.ChildMapped(c, v, bits, snap)
    requires v in Space(s, e) && MapsWith(s, t, e, v, Space(s, e)[v].page, bits)
    ensures F.Enabled(n, F.MapSelf(e)) && Does(s, t, n, F.MapSelf(e))
  {
    TablesAt(s, F.Key(e, v));
  }

  lemma SelfNext(s: Vm, n: F.Machine, e: nat, c: nat, v: nat, bits: F.Bits, snap: bool)
    requires Shows(s, n) && F.Idle(n, e) && n.proc[e].fork == F.ChildMapped(c, v, bits, snap) && v in Space(s, e) && e < |s.dirs|
    ensures F.Enabled(n, F.MapSelf(e))
    ensures F.Idle(F.Apply(n, F.MapSelf(e)), e) && F.Apply(n, F.MapSelf(e)).proc[e].fork == F.Scan(c, v + 1)
  {
    TablesAt(s, F.Key(e, v));
  }

  lemma ChildMapped(s: Vm, t: Vm, e: nat, c: nat, v: nat, bits: F.Bits, run0: Run) returns (run: Run)
    requires Inv(s, multiset{}) && Inv(t, multiset{}) && Tracks(s, run0) && c < |s.dirs| == |t.dirs|
    requires ForkIs(run0, e, F.PermRead(c, v, bits)) && v in Space(s, e) && MapsWith(s, t, c, v, Space(s, e)[v].page, bits)
    ensures Goes(run0, run, F.MapChild(e), t)
    ensures ForkIs(run, e, AfterChild(s, e, c, v, bits))
  {
    NowShows(s, run0);
    ChildDoes(s, t, Now(run0), e, c, v, bits);
    ChildNext(s, Now(run0), e, c, v, bits);
    run := Advance(run0, s, F.MapChild(e), t);
  }

  // The parent may not write the page.
  ghost predicate Snap(s: Vm, e: nat, v: nat) { v in Space(s, e) && !BitsOf(Space(s, e)[v].perm).w }

  // Where fork is after the first sys_page_map for page v.
  ghost function AfterChild(s: Vm, e: nat, c: nat, v: nat, bits: F.Bits): F.ForkPc
    requires v in Space(s, e)
  {
    if bits.cow then F.ChildMapped(c, v, bits, Snap(s, e, v)) else F.Scan(c, v + 1)
  }

  lemma SelfMapped(s: Vm, t: Vm, e: nat, c: nat, v: nat, bits: F.Bits, snap: bool, run0: Run) returns (run: Run)
    requires Inv(s, multiset{}) && Inv(t, multiset{}) && Tracks(s, run0) && e < |s.dirs| == |t.dirs|
    requires ForkIs(run0, e, F.ChildMapped(c, v, bits, snap))
    requires v in Space(s, e) && MapsWith(s, t, e, v, Space(s, e)[v].page, bits)
    ensures Goes(run0, run, F.MapSelf(e), t) && ForkIs(run, e, F.Scan(c, v + 1))
  {
    NowShows(s, run0);
    SelfDoes(s, t, Now(run0), e, c, v, bits, snap);
    SelfNext(s, Now(run0), e, c, v, bits, snap);
    run := Advance(run0, s, F.MapSelf(e), t);
  }

  // uvpt[v] & PTE_SYSCALL, then lib/fork.c:62-65; nothing where no page is mapped
  method ReadPerm(k: System, v: nat) returns (perm: Option<nat>)
    requires k.Good() && k.Live(k.curenv) && v < UTOP / PGSIZE
    requires v in Space(k.vm.View(), k.curenv) ==> Readable(k.vm.View(), k.curenv, v)
    ensures perm.Some? <==> v in Space(k.vm.View(), k.curenv)
    ensures perm.Some? ==> PermToPass(k.vm.View(), k.curenv, v, perm.value)
  {
    var w := Uvpt(k, v);
    UvptMeans(k.vm.View(), k.curenv, v);
    if w.None? || !Present(w.value) { return None; }
    DupPermBits(Perm(w.value));
    return Some(DupPerm(Perm(w.value)));
  }

  // What duppage passes to sys_page_map for the page at v, and that this will be accepted.
  ghost predicate PermToPass(s: Vm, e: nat, v: nat, perm: nat) {
    && v in Space(s, e) && Space(s, e)[v].perm < PGSIZE && perm == DupPerm(Space(s, e)[v].perm)
    && LegalPerm(perm) && BitsOf(perm) == F.DupPerm(BitsOf(Space(s, e)[v].perm)) && MayShare(s, e, v, perm)
  }

  // lib/fork.c:66
  method MapChild(k: System, childId: int, v: nat, perm: nat, ghost c: nat, ghost run0: Run)
    returns (r: int, ghost run: Run)
    requires k.Good() && k.Live(k.curenv) && Tracks(k.vm.View(), run0) && v < UTOP / PGSIZE
    requires k.Permitted(childId, true) && k.Target(childId) == c && ForkIs(run0, k.curenv, F.PermRead(c, v, BitsOf(perm)))
    requires PermToPass(k.vm.View(), k.curenv, v, perm) && k.FewMappings(k.curenv, v)
    modifies k.vm, k.vm.ppRef, k.vm.ppLink, k.vm.mem
    ensures k.Good() && (r == 0 || r == -E_NO_MEM) && (r < 0 ==> k.vm.free == [])
    ensures r >= 0 ==> Shared(old(k.vm.View()), k.vm.View(), c, v, Space(old(k.vm.View()), k.curenv)[v].page, perm)
    ensures r >= 0 ==> Goes(run0, run, F.MapChild(k.curenv), k.vm.View())
    ensures r >= 0 ==>
      ForkIs(run, k.curenv, AfterChild(old(k.vm.View()), k.curenv, c, v, BitsOf(perm)))
  {
    ghost var s := k.vm.View();
    WordOf(v, 0);
    PageStart(v);
    run := run0;
    r := k.SysPageMap(0, PGSIZE * v, childId, PGSIZE * v, perm);
    if r >= 0 {
      WithPerm(s, k.vm.View(), c, v, Space(s, k.curenv)[v].page, perm);
      run := ChildMapped(s, k.vm.View(), k.curenv, c, v, BitsOf(perm), run0);
    }
  }

  // lib/fork.c:69
  method MapSelf(k: System, v: nat, perm: nat, ghost c: nat, ghost snap: bool, ghost run0: Run)
    returns (r: int, ghost run: Run)
    requires k.Good() && k.Live(k.curenv) && Tracks(k.vm.View(), run0) && v < UTOP / PGSIZE
    requires ForkIs(run0, k.curenv, F.ChildMapped(c, v, BitsOf(perm), snap))
    requires LegalPerm(perm) && MayShare(k.vm.View(), k.curenv, v, perm) && k.FewMappings(k.curenv, v)
    modifies k.vm, k.vm.ppRef, k.vm.ppLink, k.vm.mem
    ensures k.Good() && r == 0
    ensures Shared(old(k.vm.View()), k.vm.View(), k.curenv, v, Space(old(k.vm.View()), k.curenv)[v].page, perm)
    ensures Goes(run0, run, F.MapSelf(k.curenv), k.vm.View())
    ensures ForkIs(run, k.curenv, F.Scan(c, v + 1))
  {
    ghost var s := k.vm.View();
    WordOf(v, 0);
    PageStart(v);
    HasTable(s, k.curenv, v, 0);
    r := k.SysPageMap(0, PGSIZE * v, 0, PGSIZE * v, perm);
    WithPerm(s, k.vm.View(), k.curenv, v, Space(s, k.curenv)[v].page, perm);
    run := SelfMapped(s, k.vm.View(), k.curenv, c, v, BitsOf(perm), snap, run0);
  }

  // Room for two more references to the page at v.
  ghost predicate FewTwice(s: Vm, e: nat, v: nat) {
    v in Space(s, e) ==> Space(s, e)[v].page < |s.refs| && s.refs[Space(s, e)[v].page] + 2 < REF_LIMIT
  }

  // What the first call leaves is fit for the second.
  lemma AfterFirst(s: Vm, t: Vm, e: nat, c: nat, v: nat, perm: nat)
    requires Inv(s, multiset{}) && Inv(t, multiset{}) && e != c && e < |s.dirs| && c < |s.dirs| == |t.dirs|
    requires PermToPass(s, e, v, perm) && FewTwice(s, e, v) && Shared(s, t, c, v, Space(s, e)[v].page, perm)
    ensures Space(t, e) == Space(s, e) && MayShare(t, e, v, perm)
    ensures Space(t, e)[v].page < |t.refs| && t.refs[Space(t, e)[v].page] + 1 < REF_LIMIT
    ensures Space(t, c) == Space(s, c)[v := ChildMapping(Space(s, e)[v])]
  {
    assert Space(t, e) == Space(s, e);
    SpaceIsData(s, e, v);
    SharedCount(s, t, c, v, Space(s, e)[v].page, perm);
  }

  lemma DoneWithoutSelf(s: Vm, t: Vm, e: nat, c: nat, v: nat, perm: nat)
    requires e != c && e < |s.dirs| == |t.dirs| && c < |s.dirs| && PermToPass(s, e, v, perm) && !BitsOf(perm).cow
    requires Shared(s, t, c, v, Space(s, e)[v].page, perm)
    ensures DupDone(s, t, e, c, v)
  {
    assert Space(t, e) == Space(s, e);
  }

  lemma DoneWithSelf(s: Vm, u: Vm, t: Vm, e: nat, c: nat, v: nat, perm: nat)
    requires Inv(s, multiset{}) && Inv(u, multiset{}) && Inv(t, multiset{})
    requires e != c && e < |s.dirs| == |u.dirs| == |t.dirs| && c < |s.dirs| && PermToPass(s, e, v, perm) && PermCow(perm)
    requires Shared(s, u, c, v, Space(s, e)[v].page, perm) && v in Space(u, e) && Shared(u, t, e, v, Space(u, e)[v].page, perm)
    ensures DupDone(s, t, e, c, v)
  {
    assert Space(u, e) == Space(s, e);
    assert Space(t, c) == Space(u, c);
    forall x | 0 <= x < |s.dirs| && x != e && x != c ensures Space(t, x) == Space(s, x) { assert Space(u, x) == Space(s, x); }
    StayInUse(s, u, t, e, c, v, perm);
  }

  // No page leaves user hands on the way.
  lemma StayInUse(s: Vm, u: Vm, t: Vm, e: nat, c: nat, v: nat, perm: nat)
    requires Inv(s, multiset{}) && Inv(u, multiset{}) && Inv(t, multiset{})
    requires e != c && e < |s.dirs| == |u.dirs| == |t.dirs| && c < |s.dirs| && v in Space(s, e)
    requires Shared(s, u, c, v, Space(s, e)[v].page, perm) && v in Space(u, e) && Shared(u, t, e, v, Space(u, e)[v].page, perm)
    ensures ContentsKept(s, t)
  {
    assert Space(u, e) == Space(s, e);
    forall q | 0 <= q < |s.mem| && s.role[q] == Data && t.role[q] == Data ensures t.mem[q] == s.mem[q] {
      if u.role[q] != Data { NotMapped(u, t, e, v, perm, q); }
    }
  }

  // Remapping a page that is mapped there anyway puts no other page into user hands.
  lemma NotMapped(u: Vm, t: Vm, e: nat, v: nat, perm: nat, q: nat)
    requires Inv(u, multiset{}) && Inv(t, multiset{}) && e < |u.dirs| == |t.dirs| && q < |t.role| == |u.role|
    requires v in Space(u, e) && Shared(u, t, e, v, Space(u, e)[v].page, perm) && u.role[q] != Data
    ensures t.role[q] != Data
  {
    forall x ensures x !in Mappers(t, q) {
      if x in Mappers(t, q) {
        assert x.env != e ==> Space(t, x.env) == Space(u, x.env);
        SpaceIsData(u, x.env, x.page);
      }
    }
    UnmappedIsNotData(t, q);
  }

  // lib/fork.c:56, for a page that is mapped; false is the panic
  method DupPage(k: System, childId: int, v: nat, ghost c: nat, ghost run0: Run)
    returns (ok: bool, ghost run: Run)
    requires k.Good() && k.Live(k.curenv) && Tracks(k.vm.View(), run0) && v < UTOP / PGSIZE && v != F.XSTACK
    requires k.Permitted(childId, true) && k.Target(childId) == c && c != k.curenv && ForkIs(run0, k.curenv, F.Scan(c, v))
    requires Readable(k.vm.View(), k.curenv, v) && FewTwice(k.vm.View(), k.curenv, v)
    modifies k.vm, k.vm.ppRef, k.vm.ppLink, k.vm.mem
    ensures k.Good() && (!ok ==> k.vm.free == [])
    ensures ok ==> Tracks(k.vm.View(), run) && Continues(run0, run) && ForkIs(run, k.curenv, F.Scan(c, v + 1))
    ensures ok ==> DupDone(old(k.vm.View()), k.vm.View(), k.curenv, c, v)
  {
    ghost var s := k.vm.View();
    var r, perm;
    r, perm, run := MapFirst(k, childId, v, c, run0);
    ghost var u := k.vm.View();
    ok := r >= 0;
    if ok {
      OneCallDone(s, u, k.curenv, c, v, perm);
      if PermCow(perm) {
        run := MapAgain(k, v, perm, s, c, Snap(s, k.curenv, v), run);
      }
    }
  }

  lemma OneCallDone(s: Vm, u: Vm, e: nat, c: nat, v: nat, perm: nat)
    requires Inv(s, multiset{}) && Inv(u, multiset{}) && e != c && e < |s.dirs| && c < |s.dirs| == |u.dirs|
    requires PermToPass(s, e, v, perm) && FewTwice(s, e, v) && Shared(s, u, c, v, Space(s, e)[v].page, perm)
    ensures MayShare(u, e, v, perm) && Space(u, e)[v].page < |u.refs| && u.refs[Space(u, e)[v].page] + 1 < REF_LIMIT
    ensures !PermCow(perm) ==> DupDone(s, u, e, c, v)
    ensures AfterChild(s, e, c, v, BitsOf(perm)) ==
              if PermCow(perm) then F.ChildMapped(c, v, BitsOf(perm), Snap(s, e, v)) else F.Scan(c, v + 1)
  {
    AfterFirst(s, u, e, c, v, perm);
    if !PermCow(perm) { DoneWithoutSelf(s, u, e, c, v, perm); }
  }

  // Up to the first call.
  method MapFirst(k: System, childId: int, v: nat, ghost c: nat, ghost run0: Run)
    returns (r: int, perm: nat, ghost run: Run)
    requires k.Good() && k.Live(k.curenv) && Tracks(k.vm.View(), run0) && v < UTOP / PGSIZE && v != F.XSTACK
    requires k.Permitted(childId, true) && k.Target(childId) == c && c != k.curenv && ForkIs(run0, k.curenv, F.Scan(c, v))
    requires Readable(k.vm.View(), k.curenv, v) && k.FewMappings(k.curenv, v)
    modifies k.vm, k.vm.ppRef, k.vm.ppLink, k.vm.mem
    ensures k.Good() && (r == 0 || r == -E_NO_MEM) && (r < 0 ==> k.vm.free == [])
    ensures PermToPass(old(k.vm.View()), k.curenv, v, perm)
    ensures r >= 0 ==> Shared(old(k.vm.View()), k.vm.View(), c, v, Space(old(k.vm.View()), k.curenv)[v].page, perm)
    ensures r >= 0 ==> Tracks(k.vm.View(), run) && Continues(run0, run)
    ensures r >= 0 ==> ForkIs(run, k.curenv, AfterChild(old(k.vm.View()), k.curenv, c, v, BitsOf(perm)))
  {
    ghost var s := k.vm.View();
    var read := ReadPerm(k, v);
    perm := read.value;
    run := PermRead(s, k.curenv, c, v, run0);
    r, run := MapChild(k, childId, v, perm, c, run);
  }

  // The second call, after the first has led from s here.
  method MapAgain(k: System, v: nat, perm: nat, ghost s: Vm, ghost c: nat, ghost snap: bool, ghost run0: Run)
    returns (ghost run: Run)
    requires k.Good() && k.Live(k.curenv) && Tracks(k.vm.View(), run0) && v < UTOP / PGSIZE
    requires Inv(s, multiset{}) && c != k.curenv && k.curenv < |s.dirs| && c < |s.dirs| == |k.vm.View().dirs|
    requires PermToPass(s, k.curenv, v, perm) && PermCow(perm)
    requires Shared(s, k.vm.View(), c, v, Space(s, k.curenv)[v].page, perm)
    requires ForkIs(run0, k.curenv, F.ChildMapped(c, v, BitsOf(perm), snap))
    requires LegalPerm(perm) && MayShare(k.vm.View(), k.curenv, v, perm) && k.FewMappings(k.curenv, v)
    modifies k.vm, k.vm.ppRef, k.vm.ppLink, k.vm.mem
    ensures k.Good() && DupDone(s, k.vm.View(), k.curenv, c, v)
    ensures Tracks(k.vm.View(), run) && Continues(run0, run)
    ensures ForkIs(run, k.curenv, F.Scan(c, v + 1))
  {
    ghost var u := k.vm.View();
    var r;
    r, run := MapSelf(k, v, perm, c, snap, run0);
    DoneWithSelf(s, u, k.vm.View(), k.curenv, c, v, perm);
  }

  predicate PermCow(perm: nat) { BitsOf(perm).cow }

  // ---------------------------------------------------------------- fork

  // The hypotheses on the program that forks: its pages are user pages, and none is mapped more
  // than 32766 times.
  ghost predicate Forkable(s: Vm, e: nat) {
    forall v {:trigger v in Space(s, e)} :: v in Space(s, e) ==>
      Readable(s, e, v) && Space(s, e)[v].page < |s.refs| && 2 * s.refs[Space(s, e)[v].page] + 2 < REF_LIMIT
  }

  lemma StillForkable(s: Vm, t: Vm, e: nat, c: nat, v: nat)
    requires Inv(s, multiset{}) && Inv(t, multiset{}) && Dupped(s, t, e, c, v) && Space(s, c) == map[] && Forkable(s, e)
    ensures (v in Space(t, e) ==> Readable(t, e, v)) && FewTwice(t, e, v)
  {
    assert ParentAt(s, t, e, v, v);
    if v in Space(t, e) { DuppedCount(s, t, e, c, v, v); }
  }

  // One turn of the loop (lib/fork.c:108-114).
  method Turn(k: System, childId: int, v: nat, ghost s: Vm, ghost c: nat, ghost run0: Run)
    returns (ok: bool, ghost run: Run)
    requires k.Good() && k.Live(k.curenv) && Tracks(k.vm.View(), run0) && v < UTOP / PGSIZE
    requires k.Permitted(childId, true) && k.Target(childId) == c && c != k.curenv && ForkIs(run0, k.curenv, F.Scan(c, v))
    requires Inv(s, multiset{}) && Dupped(s, k.vm.View(), k.curenv, c, v) && Space(s, c) == map[] && Forkable(s, k.curenv)
    modifies k.vm, k.vm.ppRef, k.vm.ppLink, k.vm.mem
    ensures k.Good() && (!ok ==> k.vm.free == [])
    ensures ok ==> Tracks(k.vm.View(), run) && Continues(run0, run) && ForkIs(run, k.curenv, F.Scan(c, v + 1))
    ensures ok ==> Dupped(s, k.vm.View(), k.curenv, c, v + 1)
  {
    ghost var u := k.vm.View();
    StillForkable(s, u, k.curenv, c, v);
    var mapped := IsUserPage(k, v);
    if v == F.XSTACK || !mapped {
      run := PermRead(u, k.curenv, c, v, run0);
      DuppedSkip(s, u, k.curenv, c, v);
      ok := true;
    } else {
      ok, run := DupPage(k, childId, v, c, run0);
      if ok { DuppedMore(s, u, k.vm.View(), k.curenv, c, v); }
    }
  }

  // (uvpd[PDX(addr)] & PTE_P) && (uvpt[PGNUM(addr)] & PTE_P) && (uvpt[PGNUM(addr)] & PTE_U)
  method IsUserPage(k: System, v: nat) returns (r: bool)
    requires k.Good() && k.Live(k.curenv) && v < UTOP / PGSIZE
    ensures r <==> Readable(k.vm.View(), k.curenv, v)
  {
    RunningUvptMeans(k, v);
    var pde := Uvpd(k, v / NPTENTRIES);
    if pde.None? || !Present(pde.value) { return false; }
    var pte := Uvpt(k, v);
    if pte.None? || !Present(pte.value) { return false; }
    UserBit(pte.value);
    return Mmu.User(pte.value);
  }

  lemma RunningUvptMeans(k: System, v: nat)
    requires k.Good() && k.Live(k.curenv) && v < UTOP / PGSIZE
    ensures HasDir(k.vm.View(), k.curenv)
    ensures var s := k.vm.View();
            var w := EntryOf(s, s.dirs[k.curenv].value, v);
            && (v in Space(s, k.curenv) <==> w.Some? && Present(w.value))
            && (v in Space(s, k.curenv) ==> Space(s, k.curenv)[v].perm == Perm(w.value))
  {
    RunningHasDir(k);
    UvptMeans(k.vm.View(), k.curenv, v);
  }

  // The loop (lib/fork.c:107-115).
  method DupAll(k: System, childId: int, ghost c: nat, ghost run0: Run)
    returns (ok: bool, ghost run: Run)
    requires k.Good() && k.Live(k.curenv) && Tracks(k.vm.View(), run0)
    requires k.Permitted(childId, true) && k.Target(childId) == c && c != k.curenv && ForkIs(run0, k.curenv, F.Scan(c, 0))
    requires Space(k.vm.View(), c) == map[] && Forkable(k.vm.View(), k.curenv)
    modifies k.vm, k.vm.ppRef, k.vm.ppLink, k.vm.mem
    ensures k.Good() && (!ok ==> k.vm.free == [])
    ensures ok ==> Tracks(k.vm.View(), run) && Continues(run0, run) && ForkIs(run, k.curenv, F.Scan(c, F.USER_PAGES))
    ensures ok ==> Dupped(old(k.vm.View()), k.vm.View(), k.curenv, c, F.USER_PAGES)
  {
    ghost var s := k.vm.View();
    run := run0;
    DuppedStart(s, k.curenv, c);
    Addresses();
    var v := 0;
    ok := true;
    while ok && v < UTOP / PGSIZE
      invariant 0 <= v <= F.USER_PAGES && k.Good() && k.Live(k.curenv) && (!ok ==> k.vm.free == [])
      invariant ok ==> Tracks(k.vm.View(), run) && Continues(run0, run) && ForkIs(run, k.curenv, F.Scan(c, v))
      invariant ok ==> Dupped(s, k.vm.View(), k.curenv, c, v)
      decreases UTOP / PGSIZE - v, ok
    {
      ok, run := Turn(k, childId, v, s, c, run);
      if ok { v := v + 1; }
    }
  }

  // sys_exofork disturbs nobody.
  lemma AfterBirth(s: Vm, u: Vm, e: nat, c: nat)
    requires Inv(s, multiset{}) && Inv(u, multiset{}) && Born(s, u, c) && e < |s.dirs| && e != c && Forkable(s, e)
    ensures Space(u, e) == Space(s, e) && Forkable(u, e)
    ensures forall x: nat, v: nat {:trigger ContentAt(s, u, x, v)} :: ContentAt(s, u, x, v)
  {
    assert Space(u, e) == Space(s, e);
    forall v | v in Space(u, e) ensures Space(u, e)[v].page < |u.refs| && u.refs[Space(u, e)[v].page] == s.refs[Space(u, e)[v].page] {
      var p := Space(u, e)[v].page;
      SpaceIsData(s, e, v);
      SpaceIsData(u, e, v);
      CountIsMappings(s, p);
      CountIsMappings(u, p);
      forall x ensures x in Mappers(u, p) <==> x in Mappers(s, p) {
        assert x.env != c && x.env < |s.dirs| ==> Space(u, x.env) == Space(s, x.env);
      }
      assert Mappers(u, p) == Mappers(s, p);
    }
    forall x: nat, v: nat ensures ContentAt(s, u, x, v) {
      if v in Space(s, x) {
        assert x < |s.dirs| && x != c && Space(u, x) == Space(s, x);
        SpaceIsData(s, x, v);
        SpaceIsData(u, x, v);
      }
    }
  }

  lemma ForkBegun(s: Vm, u: Vm, e: nat, c: nat, run0: Run) returns (run: Run)
    requires Inv(s, multiset{}) && Inv(u, multiset{}) && Tracks(s, run0) && ForkIs(run0, e, F.NoFork)
    requires Born(s, u, c) && c !in Now(run0).proc && c !in Now(run0).parent
    ensures Goes(run0, run, F.ForkBegin(e, c), u) && ForkIs(run, e, F.Scan(c, 0))
  {
    NowShows(s, run0);
    BeginDoes(s, u, Now(run0), e, c);
    run := Advance(run0, s, F.ForkBegin(e, c), u);
  }

  lemma BeginDoes(s: Vm, u: Vm, n: F.Machine, e: nat, c: nat)
    requires Shows(s, n) && F.Idle(n, e) && n.proc[e].fork.NoFork? && Born(s, u, c) && c !in n.proc && c !in n.parent
    ensures F.Enabled(n, F.ForkBegin(e, c)) && Does(s, u, n, F.ForkBegin(e, c))
    ensures F.Idle(F.Apply(n, F.ForkBegin(e, c)), e) && F.Apply(n, F.ForkBegin(e, c)).proc[e].fork == F.Scan(c, 0)
  {
    BornIsNew(s, n, c);
  }

  lemma ForkEnded(s: Vm, t: Vm, e: nat, c: nat, run0: Run) returns (run: Run)
    requires Inv(s, multiset{}) && Inv(t, multiset{}) && Tracks(s, run0) && ForkIs(run0, e, F.Scan(c, F.USER_PAGES))
    requires e != c && c < |s.dirs| == |t.dirs| && Alloced(s, t, c, F.XSTACK, 6)
    ensures Goes(run0, run, F.ForkEnd(e, s.free[0]), t)
    ensures ForkIs(run, e, F.NoFork)
    ensures ForkIs(run, c, F.NoFork)
  {
    NowShows(s, run0);
    FreePageUnmapped(s, Now(run0));
    run := Advance(run0, s, F.ForkEnd(e, s.free[0]), t);
  }

  // What fork has done to the tables when it returns in the parent: the child has the parent's
  // pages, and an exception stack of its own, filled with zeros.
  ghost predicate ForkedAs(s: Vm, t: Vm, e: nat, c: nat) {
    && e != c && |s.dirs| == |t.dirs|
    && (forall x {:trigger Space(t, x)} :: 0 <= x < |s.dirs| && x != e && x != c ==> Space(t, x) == Space(s, x))
    && (forall v {:trigger ParentAt(s, t, e, F.USER_PAGES, v)} :: 0 <= v ==> ParentAt(s, t, e, F.USER_PAGES, v))
    && (forall v {:trigger ChildAt(s, t, e, c, F.USER_PAGES, v)} :: 0 <= v != 0xe_ebff ==> ChildAt(s, t, e, c, F.USER_PAGES, v))
    && (forall x, v {:trigger ContentAt(s, t, x, v)} :: 0 <= x && 0 <= v ==> ContentAt(s, t, x, v))
    && 0xe_ebff in Space(t, c) && Space(t, c)[0xe_ebff].perm == 7
    && Space(t, c)[0xe_ebff].page < |t.mem| && t.mem[Space(t, c)[0xe_ebff].page] == ZeroPage()
  }

  lemma StackStays(s: Vm, w: Vm, t: Vm, e: nat, c: nat, x: nat, v: nat)
    requires Inv(s, multiset{}) && Inv(w, multiset{}) && Inv(t, multiset{}) && Space(s, c) == map[]
    requires Dupped(s, w, e, c, F.USER_PAGES) && |w.dirs| == |t.dirs| && Alloced(w, t, c, F.XSTACK, 6)
    ensures ContentAt(s, t, x, v)
  {
    if v in Space(s, x) {
      assert ContentAt(s, w, x, v) && x < |s.dirs| && x != c;
      assert x == e ==> ParentAt(s, w, e, F.USER_PAGES, v);
      assert Space(t, x) == Space(w, x);
      SpaceIsData(w, x, v);
      SpaceIsData(t, x, v);
    }
  }

  lemma AllForked(s: Vm, u: Vm, w: Vm, t: Vm, e: nat, c: nat)
    requires Inv(s, multiset{}) && Inv(u, multiset{}) && Inv(w, multiset{}) && Inv(t, multiset{})
    requires Born(s, u, c) && e < |s.dirs| && Forkable(s, e) && Dupped(u, w, e, c, F.USER_PAGES) && |w.dirs| == |t.dirs|
    requires Alloced(w, t, c, F.XSTACK, 6)
    ensures ForkedAs(s, t, e, c)
  {
    AfterBirth(s, u, e, c);
    forall x | 0 <= x < |s.dirs| && x != e && x != c ensures Space(t, x) == Space(s, x) {
      assert Space(t, x) == Space(w, x) == Space(u, x) == Space(s, x);
    }
    assert Space(t, e) == Space(w, e);
    forall v: nat ensures ParentAt(s, t, e, F.USER_PAGES, v) { assert ParentAt(u, w, e, F.USER_PAGES, v); }
    forall v: nat | v != F.XSTACK ensures ChildAt(s, t, e, c, F.USER_PAGES, v) { assert ChildAt(u, w, e, c, F.USER_PAGES, v); }
    forall x: nat, v: nat ensures ContentAt(s, t, x, v) {
      StackStays(u, w, t, e, c, x, v);
      assert ContentAt(s, u, x, v) && ContentAt(u, t, x, v);
      if v in Space(s, x) { assert x < |s.dirs| && x != c && Space(u, x) == Space(s, x); }
    }
  }

  // Environments that the machine knows are in use.
  ghost predicate OnlyLive(k: System, n: F.Machine)
    requires k.Layout()
    reads k, k.envs
  {
    forall x {:trigger x in n.proc} {:trigger x in n.parent} :: x in n.proc || x in n.parent ==> k.Live(x)
  }

  // lib/fork.c:101
  method BeginFork(k: System, ghost run0: Run) returns (r: int, ghost c: nat, ghost run: Run)
    requires k.Good() && k.Live(k.curenv) && Tracks(k.vm.View(), run0) && ForkIs(run0, k.curenv, F.NoFork)
    requires Forkable(k.vm.View(), k.curenv) && OnlyLive(k, Now(run0))
    modifies k, k.vm, k.vm.ppRef, k.vm.ppLink, k.vm.mem, k.vm.envPgdir, k.envs, k.envLink
    ensures k.Good() && k.curenv == old(k.curenv) && k.Live(k.curenv)
    ensures r != 0 && (r < 0 ==> old(k.envFree) == [] || k.vm.free == [])
    ensures r > 0 ==> old(k.envFree) != [] && c == old(k.envFree)[0] < NENV && k.Permitted(r, true) && k.Target(r) == c
    ensures r > 0 ==> c != k.curenv && Born(old(k.vm.View()), k.vm.View(), c) && Forkable(k.vm.View(), k.curenv)
    ensures r > 0 ==> Goes(run0, run, F.ForkBegin(k.curenv, c), k.vm.View())
    ensures r > 0 ==> ForkIs(run, k.curenv, F.Scan(c, 0))
  {
    ghost var s, n := k.vm.View(), Now(run0);
    if k.envFree != [] {
      ghost var e := k.envFree[0];
      assert e in k.envFree && k.EnvOk(e);
      assert !k.Live(e) && e !in n.proc && e !in n.parent && s.dirs[e].None?;
    }
    run := run0;
    r, c := k.SysExofork();
    if r < 0 { return; }
    run := ForkBegun(s, k.vm.View(), k.curenv, c, run0);
    AfterBirth(s, k.vm.View(), k.curenv, c);
  }

  // lib/fork.c:117-123
  method EndFork(k: System, childId: int, ghost c: nat, ghost run0: Run)
    returns (ok: bool, ghost run: Run)
    requires k.Good() && k.Live(k.curenv) && Tracks(k.vm.View(), run0)
    requires k.Permitted(childId, true) && k.Target(childId) == c && c != k.curenv && ForkIs(run0, k.curenv, F.Scan(c, F.USER_PAGES))
    modifies k.vm, k.vm.ppRef, k.vm.ppLink, k.vm.mem, k.envs
    ensures k.Good() && (!ok ==> |k.vm.free| <= 1)
    ensures ok ==> k.Permitted(childId, true) && k.envs[c].status == Runnable
    ensures ok ==> Alloced(old(k.vm.View()), k.vm.View(), c, F.XSTACK, 6)
    ensures ok ==> Goes(run0, run, F.ForkEnd(k.curenv, old(k.vm.free)[0]), k.vm.View())
    ensures ok ==> ForkIs(run, k.curenv, F.NoFork)
    ensures ok ==> ForkIs(run, c, F.NoFork)
  {
    ghost var w := k.vm.View();
    Addresses();
    PlainPerms();
    var r := k.SysPageAlloc(childId, XSTACK_VA, 6);
    if r < 0 { return false, run0; }
    ghost var t := k.vm.View();
    run := ForkEnded(w, t, k.curenv, c, run0);
    r := k.SysEnvSetStatus(childId, Runnable);
    assert k.vm.View() == t;
    ok := true;
  }

  // lib/fork.c:91, in the parent and without the upcalls; a negative result stands for the
  // panics.  Nobody else runs meanwhile; for what happens when others do, see KernelFork.
  method Fork(k: System, ghost run0: Run)
    returns (r: int, ghost c: nat, ghost run: Run)
    requires k.Good() && k.Live(k.curenv) && Tracks(k.vm.View(), run0) && ForkIs(run0, k.curenv, F.NoFork)
    requires Forkable(k.vm.View(), k.curenv) && OnlyLive(k, Now(run0))
    modifies k, k.vm, k.vm.ppRef, k.vm.ppLink, k.vm.mem, k.vm.envPgdir, k.envs, k.envLink
    ensures k.Good() && k.curenv == old(k.curenv)
    ensures r != 0 && (r < 0 ==> old(k.envFree) == [] || |k.vm.free| <= 1)
    ensures r > 0 ==> old(k.envFree) != [] && c == old(k.envFree)[0] < NENV
    ensures r > 0 ==> k.Permitted(r, true) && k.Target(r) == c && k.envs[c].status == Runnable
    ensures r > 0 ==> ForkedAs(old(k.vm.View()), k.vm.View(), k.curenv, c)
    ensures r > 0 ==> Tracks(k.vm.View(), run) && Continues(run0, run) && ForkIs(run, k.curenv, F.NoFork) && ForkIs(run, c, F.NoFork)
  {
    ghost var s := k.vm.View();
    r, c, run := BeginFork(k, run0);
    if r < 0 { return; }
    ghost var u := k.vm.View();
    var ok;
    ghost var w;
    ok, w, run := FillAndStart(k, r, c, run);
    if ok { AllForked(s, u, w, k.vm.View(), k.curenv, c); } else { r := -1; }
  }

  // lib/fork.c:107-123; w is the memory after the loop.
  method FillAndStart(k: System, childId: int, ghost c: nat, ghost run0: Run)
    returns (ok: bool, ghost w: Vm, ghost run: Run)
    requires k.Good() && k.Live(k.curenv) && Tracks(k.vm.View(), run0)
    requires k.Permitted(childId, true) && k.Target(childId) == c && c != k.curenv && ForkIs(run0, k.curenv, F.Scan(c, 0))
    requires Space(k.vm.View(), c) == map[] && Forkable(k.vm.View(), k.curenv)
    modifies k.vm, k.vm.ppRef, k.vm.ppLink, k.vm.mem, k.envs
    ensures k.Good() && (!ok ==> |k.vm.free| <= 1)
    ensures ok ==> k.Permitted(childId, true) && k.envs[c].status == Runnable
    ensures ok ==> Inv(w, multiset{}) && Dupped(old(k.vm.View()), w, k.curenv, c, F.USER_PAGES)
    ensures ok ==> |w.dirs| == |k.vm.View().dirs| && Alloced(w, k.vm.View(), c, F.XSTACK, 6)
    ensures ok ==> Tracks(k.vm.View(), run) && Continues(run0, run) && ForkIs(run, k.curenv, F.NoFork) && ForkIs(run, c, F.NoFork)
  {
    ok, run := DupAll(k, childId, c, run0);
    w := k.vm.View();
    if ok { ok, run := EndFork(k, childId, c, run); }
  }
}
