/** kern/env.c and the memory system calls of kern/syscall.c, on top of Pmap.Kernel. */
module Syscalls {
  import opened Mmu
  import opened PageTables
  import opened AddressSpaces
  import opened PageSteps
  import opened Teardown
  import opened Pmap
  import opened EnvIds
  import opened EnvRecords
  import S = Sched

  const E_BAD_ENV: int := 2
  const E_INVAL: int := 3
  const E_NO_FREE_ENV: int := 5
  const E_IPC_NOT_RECV: int := 7

  // The address space of environment e.
  ghost function Space(s: Vm, e: nat): map<nat, Mapping> {
    if e < |s.dirs| && s.dirs[e].Some? && s.dirs[e].value < |s.mem| then AddrSpace(s, s.dirs[e].value) else map[]
  }

  // Pages that are in user hands before and after have the same contents.
  ghost predicate ContentsKept(s: Vm, t: Vm) {
    && |s.mem| == |t.mem| == |s.role| == |t.role|
    && forall q {:trigger t.mem[q]} :: 0 <= q < |s.mem| && s.role[q] == Data && t.role[q] == Data ==> t.mem[q] == s.mem[q]
  }

  // No page table covers va in e, and exactly `spare` pages are free.
  ghost predicate NoRoom(s: Vm, e: nat, va: Word, spare: nat) {
    && e < |s.dirs| && s.dirs[e].Some? && s.dirs[e].value < |s.mem|
    && !Present(s.mem[s.dirs[e].value][Pdx(va)]) && |s.free| == spare
  }

  ghost predicate OthersKeep(s: Vm, t: Vm, e: nat) {
    forall e': nat {:trigger Space(t, e')} :: e' < |s.dirs| && e' != e ==> Space(t, e') == Space(s, e')
  }

  // A function that touches only the mappings under e's directory touches only e.
  lemma OneSpaceOnly(s: Vm, t: Vm, extra: multiset<nat>, e: nat)
    requires Inv(s, extra) && Inv(t, extra) && e < |s.dirs| && s.dirs[e].Some? && KeepsData(s, t)
    requires OthersSame(s, t, s.dirs[e].value)
    ensures OthersKeep(s, t, e)
    ensures s.dirs[e].value < |s.mem| && IsDir(s, s.dirs[e].value)
  {
    assert DirTyped(s, e);
    forall e': nat | e' < |s.dirs| && e' != e ensures Space(t, e') == Space(s, e') {
      assert DirTyped(s, e');
      if s.dirs[e'] == s.dirs[e] { DirectoryHasOneOwner(s, extra, e, e'); }
      if s.dirs[e'].Some? { assert IsDir(s, s.dirs[e'].value); }
    }
  }

  // The slots from i on, in order: the free list env_init builds.
  ghost predicate SlotsFrom(l: seq<nat>, i: nat) {
    i + |l| == NENV && forall k :: 0 <= k < |l| ==> l[k] == i + k
  }

  lemma OneMoreSlot(l: seq<nat>, i: nat)
    requires i > 0 && SlotsFrom(l, i)
    ensures SlotsFrom([i - 1] + l, i - 1) && i - 1 !in l
  {
    var m := [i - 1] + l;
    assert forall k :: 0 < k < |m| ==> m[k] == l[k - 1];
  }

  lemma AllSlots(l: seq<nat>, e: nat)
    requires SlotsFrom(l, 0) && e < NENV
    ensures e in l
  {
    assert l[e] == e;
  }

  class System {
    const vm: Kernel
    const envs: array<Env>
    const envLink: array<Option<nat>>
    var envFreeList: Option<nat>
    var curenv: nat               // the environment that entered the kernel
    ghost var envFree: seq<nat>
    ghost var allocs: seq<nat>    // how often each slot was allocated

    ghost predicate Layout()
      reads this
    {
      && envs.Length == envLink.Length == vm.envPgdir.Length == |allocs| == NENV
      && curenv < NENV
      && envLink != vm.envPgdir && envLink != vm.ppLink
      && envs as object != envLink && envs as object != vm.envPgdir
    }

    ghost predicate EnvOk(e: nat)
      requires Layout() && e < NENV
      reads this, vm.envPgdir, envs
    {
      && (e in envFree <==> envs[e].status == Unused)
      && (envs[e].status == Unused <==> vm.envPgdir[e].None?)
      && envs[e].id == IdAfter(allocs[e], e)
      && (envs[e].status != Unused ==> allocs[e] > 0)
    }

    ghost predicate EnvList()
      reads this, envLink
    {
      && Chain(envLink[..], envFree)
      && (forall i, j :: 0 <= i < j < |envFree| ==> envFree[i] != envFree[j])
      && envFreeList == (if envFree == [] then None else Some(envFree[0]))
    }

    ghost predicate EnvsGood()
      reads this, vm.envPgdir, envs, envLink
    {
      Layout() && EnvList() && forall e {:trigger EnvOk(e)} :: 0 <= e < NENV ==> EnvOk(e)
    }

    ghost predicate Good()
      reads this, vm, vm.ppRef, vm.ppLink, vm.mem, vm.envPgdir, envs, envLink
    {
      EnvsGood() && vm.Valid(multiset{}) && HeldPages(vm.View()) == {}
    }

    constructor (vm: Kernel, curenv: nat)
      requires vm.envPgdir.Length == NENV && curenv < NENV
      ensures this.vm == vm && Layout() && EnvList() && envFree == []
      ensures forall e :: 0 <= e < NENV ==> allocs[e] == 0
      ensures fresh(envs) && fresh(envLink)
    {
      this.vm := vm;
      this.curenv := curenv;
      envs := new Env[NENV](i => Env(0, 0, NotRunnable, false, 0, 0, 0, 0));
      envLink := new Option<nat>[NENV](i => None);
      envFreeList, envFree, allocs := None, [], seq(NENV, i => 0);
    }

    // e->env_link = env_free_list; env_free_list = e
    method PushFree(e: nat)
      requires Layout() && EnvList() && e < NENV && e !in envFree
      modifies `envFreeList, `envFree, envLink
      ensures Layout() && EnvList() && envFree == [e] + old(envFree)
    {
      ChainPush(envLink[..], envFree, e);
      ghost var longer, links := [e] + envFree, envLink[..];
      envLink[e] := envFreeList;
      assert envLink[..] == links[e := Next(longer, 0)];
      envFreeList, envFree := Some(e), longer;
    }

    // kern/env.c:123-128
    method ListAllEnvs()
      requires Layout() && EnvList() && envFree == []
      modifies `envFreeList, `envFree, envs, envLink
      ensures Layout() && EnvList() && SlotsFrom(envFree, 0)
      ensures forall k :: 0 <= k < NENV ==> envs[k].status == Unused && envs[k].id == 0
    {
      var i := NENV;
      while i > 0
        invariant 0 <= i <= NENV && Layout() && EnvList() && SlotsFrom(envFree, i)
        invariant forall k :: i <= k < NENV ==> envs[k].status == Unused && envs[k].id == 0
      {
        OneMoreSlot(envFree, i);
        i := i - 1;
        envs[i] := envs[i].(id := 0, status := Unused);
        ghost var recs := envs[..];
        PushFree(i);
        assert envs[..] == recs;
      }
    }

    // kern/env.c:118
    method EnvInit()
      requires Layout() && EnvList() && envFree == []
      requires forall e :: 0 <= e < NENV ==> allocs[e] == 0 && vm.envPgdir[e].None?
      modifies `envFreeList, `envFree, envs, envLink
      ensures EnvsGood() && SlotsFrom(envFree, 0)
    {
      ListAllEnvs();
      forall e | 0 <= e < NENV ensures EnvOk(e) { AllSlots(envFree, e); }
    }

    ghost predicate Live(e: nat)
      requires Layout()
      reads this, envs
    {
      e < NENV && envs[e].status != Unused
    }

    // The hypothesis that the page to be shared is not mapped 65535 times already.
    ghost predicate FewMappings(e: nat, v: nat)
      reads vm, vm.ppRef, vm.mem, vm.envPgdir
    {
      v in Space(vm.View(), e) ==>
        Space(vm.View(), e)[v].page < vm.ppRef.Length && vm.ppRef[Space(vm.View(), e)[v].page] + 1 < REF_LIMIT
    }

    // Which environment an id names, and whether the caller may name it.
    ghost function Target(envid: int): nat
      reads this
    {
      if envid == 0 then curenv else Envx(envid)
    }

    ghost predicate Permitted(envid: int, checkperm: bool)
      requires Layout()
      reads this, envs
    {
      envid == 0 ||
      (var e := Envx(envid);
       && Live(e) && envs[e].id == envid
       && (checkperm ==> e == curenv || envs[e].parentId == envs[curenv].id))
    }

    // An id passes only if it was issued to this slot a whole number of periods ago.
    lemma StaleIdRejected(envid: int, checkperm: bool, m: nat)
      requires Good() && Permitted(envid, checkperm)
      requires 0 < m <= allocs[Envx(envid)] && envid == IdAfter(m, Envx(envid))
      ensures (allocs[Envx(envid)] - m) % PERIOD == 0
    {
      var e := Envx(envid);
      assert EnvOk(e);
      LiveIds(m, m, e, e);
      StaleId(m, allocs[e], e);
    }

    // An id that passes with the check names the caller or one of its children: so these are
    // all whose memory and state a caller of the memory calls can change.
    lemma StrangersKeep(s: Vm, t: Vm, envid: int, e: nat)
      requires Good() && Live(curenv) && Permitted(envid, true) && OthersKeep(s, t, Target(envid))
      requires e < |s.dirs| && e < NENV && e != curenv && envs[e].parentId != envs[curenv].id
      ensures e != Target(envid) && Space(t, e) == Space(s, e)
    {
    }

    // Two live environments never have one id.
    lemma LiveIdsDiffer(e: nat, e': nat)
      requires Good() && Live(e) && Live(e') && envs[e].id == envs[e'].id
      ensures e == e' && envs[e].id > 0 && Envx(envs[e].id) == e
    {
      assert EnvOk(e) && EnvOk(e');
      LiveIds(allocs[e], allocs[e'], e, e');
      LiveIds(allocs[e], allocs[e], e, e);
    }

    // kern/env.c:76
    method Envid2Env(envid: int, checkperm: bool) returns (r: Option<nat>)
      requires Layout() && Live(curenv)
      ensures r == if Permitted(envid, checkperm) then Some(Target(envid)) else None
      ensures r.Some? ==> Live(r.value)
    {
      if envid == 0 { return Some(curenv); }
      var e := Envx(envid);
      if envs[e].status == Unused || envs[e].id != envid { return None; }
      if checkperm && e != curenv && envs[e].parentId != envs[curenv].id { return None; }
      return Some(e);
    }

    // kern/syscall.c:188
    method SysPageAlloc(envid: int, va: Word, perm: nat) returns (r: int)
      requires Good() && Live(curenv)
      modifies vm, vm.ppRef, vm.ppLink, vm.mem
      ensures Good()
      ensures r in {0, -E_INVAL, -E_BAD_ENV, -E_NO_MEM}
      ensures r == -E_INVAL <==> va >= UTOP || va % PGSIZE != 0 || !LegalPerm(perm)
      ensures r == -E_BAD_ENV <==> va < UTOP && va % PGSIZE == 0 && LegalPerm(perm) && !Permitted(envid, true)
      ensures r == -E_NO_MEM ==> old(vm.free) == [] || NoRoom(old(vm.View()), Target(envid), va, 1)
      ensures r == 0 ==> old(vm.free) != [] && !NoRoom(old(vm.View()), Target(envid), va, 1)
      ensures r != 0 ==> SpacesSame(old(vm.View()), vm.View()) && vm.free == old(vm.free)
      ensures r == 0 ==> Alloced(old(vm.View()), vm.View(), Target(envid), Vpn(va), perm)
    {
      if va >= UTOP || va % PGSIZE != 0 { return -E_INVAL; }
      if !LegalPerm(perm) { return -E_INVAL; }
      var found := Envid2Env(envid, true);
      if found.None? { return -E_BAD_ENV; }
      r := AllocAt(found.value, va, perm);
    }

    // kern/syscall.c:208-214
    method AllocAt(e: nat, va: Word, perm: nat) returns (r: int)
      requires Good() && Live(e) && va < UTOP && LegalPerm(perm)
      modifies vm, vm.ppRef, vm.ppLink, vm.mem
      ensures Good()
      ensures r == 0 || r == -E_NO_MEM
      ensures r != 0 <==> old(vm.free) == [] || NoRoom(old(vm.View()), e, va, 1)
      ensures r != 0 ==> SpacesSame(old(vm.View()), vm.View()) && vm.free == old(vm.free)
      ensures r == 0 ==> Alloced(old(vm.View()), vm.View(), e, Vpn(va), perm)
    {
      ghost var s := vm.View();
      assert EnvOk(e);
      assert DirTyped(s, e);
      var pp := vm.PageAlloc(true, multiset{});
      if pp.None? { return -E_NO_MEM; }
      TakenSpaces(s, multiset{}, true);
      r := InsertTaken(e, pp.value, va, perm, s);
    }

    // page_insert of the page just taken from the free list, and page_free if it fails
    method InsertTaken(e: nat, pp: nat, va: Word, perm: nat, ghost s: Vm) returns (r: int)
      requires EnvsGood() && vm.Valid(multiset{}) && Live(e) && va < UTOP && perm < PGSIZE
      requires Inv(s, multiset{}) && HeldPages(s) == {} && s.free != [] && s.free[0] == pp < |s.mem| && SpacesSame(s, TakeFree(s, true))
      requires vm.View() == TakeFree(s, true) && HeldPages(vm.View()) == {pp} && vm.ppRef[pp] == 0
      modifies vm, vm.ppRef, vm.ppLink, vm.mem
      ensures Good() && (r == 0 || r == -E_NO_MEM) && (r != 0 <==> NoRoom(TakeFree(s, true), e, va, 0))
      ensures r != 0 ==> SpacesSame(s, vm.View()) && vm.free == s.free
      ensures r == 0 ==> Alloced(s, vm.View(), e, Vpn(va), perm)
    {
      assert pp in HeldPages(vm.View()) && OnListIffFree(s, pp);
      r := InsertInto(e, pp, va, perm);
      if r != 0 {
        TakenAndGivenBack(s, multiset{}, true);
        vm.PageFree(pp);
      } else {
        AllocedInSteps(s, TakeFree(s, true), vm.View(), e, Vpn(va), perm);
      }
      assert EnvsGood();
    }

    // kern/syscall.c:260-266 and 352-357: the page mapped at va in e, if it may be passed on
    // with `perm`
    method SharablePage(e: nat, va: Word, perm: nat) returns (pp: Option<nat>)
      requires Good() && Live(e) && va < UTOP
      modifies vm, vm.ppRef, vm.ppLink, vm.mem
      ensures Good() && vm.View() == old(vm.View())
      ensures pp.Some? <==> MayShare(vm.View(), e, Vpn(va), perm)
      ensures pp.Some? ==> pp.value == Space(vm.View(), e)[Vpn(va)].page
      ensures pp.Some? ==> pp.value < |vm.role| && vm.role[pp.value] == Data
    {
      assert EnvOk(e);
      assert DirTyped(vm.View(), e);
      ghost var d := vm.envPgdir[e].value;
      var found := vm.PageLookup(vm.envPgdir[e].value, va, multiset{});
      if found.None? { return None; }
      var (p, pte) := found.value;
      WritableBit(vm.mem[pte.frame][pte.index]);
      if perm / 2 % 2 == 1 && !Writable(vm.mem[pte.frame][pte.index]) { return None; }
      VpnDigits(va);
      MappedIsData(vm.View(), multiset{}, d, Vpn(va));
      return Some(p);
    }

    // page_insert into e's address space
    method InsertInto(e: nat, pp: nat, va: Word, perm: nat) returns (r: int)
      requires EnvsGood() && vm.Valid(multiset{}) && Live(e) && va < UTOP && perm < PGSIZE
      requires pp < |vm.role| && vm.role[pp] in {Data, Held} && vm.ppRef[pp] + 1 < REF_LIMIT
      modifies vm, vm.ppRef, vm.ppLink, vm.mem
      ensures EnvsGood() && vm.Valid(multiset{})
      ensures r == 0 || r == -E_NO_MEM
      ensures r != 0 <==> NoRoom(old(vm.View()), e, va, 0)
      ensures r != 0 ==> vm.View() == old(vm.View())
      ensures r == 0 ==> HeldPages(vm.View()) == old(HeldPages(vm.View())) - {pp}
      ensures r == 0 ==> vm.mem[pp] == old(vm.mem[pp])
      ensures r == 0 ==> Shared(old(vm.View()), vm.View(), e, Vpn(va), pp, perm)
    {
      ghost var s := vm.View();
      assert EnvOk(e);
      assert DirTyped(s, e);
      r := vm.PageInsert(vm.envPgdir[e].value, pp, va, perm, multiset{});
      OneSpaceOnly(s, vm.View(), multiset{}, e);
    }

    // kern/syscall.c:234
    method SysPageMap(srcid: int, srcva: Word, dstid: int, dstva: Word, perm: nat) returns (r: int)
      requires Good() && Live(curenv) && FewMappings(Target(srcid), Vpn(srcva))
      modifies vm, vm.ppRef, vm.ppLink, vm.mem
      ensures Good()
      ensures r == 0 || r == -E_NO_MEM || r == -E_INVAL || r == -E_BAD_ENV
      ensures !(GoodPageArgs(srcva, perm) && GoodPageArgs(dstva, perm)) ==> r == -E_INVAL
      ensures GoodPageArgs(srcva, perm) && GoodPageArgs(dstva, perm) ==>
        (r == -E_BAD_ENV <==> !(Permitted(srcid, true) && Permitted(dstid, true)))
      ensures GoodPageArgs(srcva, perm) && GoodPageArgs(dstva, perm) && r != -E_BAD_ENV ==>
        && (r == -E_INVAL <==> !MayShare(old(vm.View()), Target(srcid), Vpn(srcva), perm))
        && (r == -E_NO_MEM <==>
              MayShare(old(vm.View()), Target(srcid), Vpn(srcva), perm) && NoRoom(old(vm.View()), Target(dstid), dstva, 0))
      ensures r != 0 ==> vm.View() == old(vm.View())
      ensures r == 0 ==> Vpn(srcva) in old(Space(vm.View(), Target(srcid)))
      ensures r == 0 ==>
        Shared(old(vm.View()), vm.View(), Target(dstid), Vpn(dstva), old(Space(vm.View(), Target(srcid)))[Vpn(srcva)].page, perm)
    {
      if srcva >= UTOP || srcva % PGSIZE != 0 { return -E_INVAL; }
      if dstva >= UTOP || dstva % PGSIZE != 0 { return -E_INVAL; }
      if !LegalPerm(perm) { return -E_INVAL; }
      var srcenv := Envid2Env(srcid, true);
      if srcenv.None? { return -E_BAD_ENV; }
      var dstenv := Envid2Env(dstid, true);
      if dstenv.None? { return -E_BAD_ENV; }
      r := MapBetween(srcenv.value, srcva, dstenv.value, dstva, perm);
    }

    // kern/syscall.c:260-269
    method MapBetween(src: nat, srcva: Word, dst: nat, dstva: Word, perm: nat) returns (r: int)
      requires Good() && FewMappings(src, Vpn(srcva)) && Live(src) && Live(dst) && srcva < UTOP && dstva < UTOP && perm < PGSIZE
      modifies vm, vm.ppRef, vm.ppLink, vm.mem
      ensures Good()
      ensures r == 0 || r == -E_NO_MEM || r == -E_INVAL
      ensures r == -E_INVAL <==> !MayShare(old(vm.View()), src, Vpn(srcva), perm)
      ensures r == -E_NO_MEM <==> MayShare(old(vm.View()), src, Vpn(srcva), perm) && NoRoom(old(vm.View()), dst, dstva, 0)
      ensures r != 0 ==> vm.View() == old(vm.View())
      ensures r == 0 ==> Vpn(srcva) in old(Space(vm.View(), src))
      ensures r == 0 ==>
        Shared(old(vm.View()), vm.View(), dst, Vpn(dstva), old(Space(vm.View(), src))[Vpn(srcva)].page, perm)
    {
      var pp := SharablePage(src, srcva, perm);
      if pp.None? { return -E_INVAL; }
      r := InsertInto(dst, pp.value, dstva, perm);
    }

    // kern/syscall.c:280
    method SysPageUnmap(envid: int, va: Word) returns (r: int)
      requires Good() && Live(curenv)
      modifies vm, vm.ppRef, vm.ppLink, vm.mem
      ensures Good()
      ensures r == if va >= UTOP || va % PGSIZE != 0 then -E_INVAL else if Permitted(envid, true) then 0 else -E_BAD_ENV
      ensures r != 0 ==> vm.View() == old(vm.View())
      ensures r == 0 ==> Space(vm.View(), Target(envid)) == old(Space(vm.View(), Target(envid))) - {Vpn(va)}
      ensures r == 0 ==> OthersKeep(old(vm.View()), vm.View(), Target(envid)) && ContentsKept(old(vm.View()), vm.View())
    {
      if va >= UTOP || va % PGSIZE != 0 { return -E_INVAL; }
      var found := Envid2Env(envid, true);
      if found.None? { return -E_BAD_ENV; }
      UnmapAt(found.value, va);
      return 0;
    }

    // page_remove from e's address space
    method UnmapAt(e: nat, va: Word)
      requires Good() && Live(e) && va < UTOP
      modifies vm, vm.ppRef, vm.ppLink, vm.mem
      ensures Good()
      ensures Space(vm.View(), e) == old(Space(vm.View(), e)) - {Vpn(va)}
      ensures OthersKeep(old(vm.View()), vm.View(), e) && ContentsKept(old(vm.View()), vm.View())
    {
      ghost var s := vm.View();
      assert EnvOk(e);
      assert DirTyped(s, e);
      vm.PageRemove(vm.envPgdir[e].value, va, multiset{});
      OneSpaceOnly(s, vm.View(), multiset{}, e);
    }

    // Replacing a record without touching id or freeness.
    method Update(e: nat, env: Env)
      requires EnvsGood() && Live(e) && env.id == envs[e].id && env.status != Unused
      modifies envs
      ensures EnvsGood() && envs[..] == old(envs[..])[e := env]
    {
      ghost var before := envs[..];
      assert EnvOk(e);
      envs[e] := env;
      forall k | 0 <= k < NENV ensures EnvOk(k) { assert old(EnvOk(k)); assert envs[..][k] == before[e := env][k]; }
    }

    // The checks of sys_ipc_try_send on the page to be sent (kern/syscall.c:347-358).
    ghost predicate Sendable(srcva: Word, perm: nat)
      requires Layout()
      reads this, vm, vm.ppRef, vm.mem, vm.envPgdir
    {
      srcva < UTOP ==> GoodPageArgs(srcva, perm) && MayShare(vm.View(), curenv, Vpn(srcva), perm)
    }

    // What a send that passed all checks does: the receiver's record and, with a page on both
    // sides, its mapping.  A failed mapping leaves the receiver marked as sent to, with its
    // old permission field.
    twostate predicate SentTo(e: nat, value: Word, srcva: Word, perm: nat, r: int)
      requires old(Layout()) && e < NENV && Layout()
      reads this, vm, vm.ppRef, vm.mem, vm.envPgdir, envs
    {
      var withPage := WithPage(old(envs[e]), srcva);
      var env := Delivered(old(envs[e]), old(envs[curenv]).id, value);
      && (r == 0 || r == -E_NO_MEM) && (r != 0 <==> withPage && NoRoom(old(vm.View()), e, old(envs[e]).ipcDstva, 0))
      && envs[..] == old(envs[..])[e := if r != 0 then env else env.(ipcPerm := if withPage then perm else 0)]
      && (r != 0 || !withPage ==> vm.View() == old(vm.View()))
      && (r == 0 && withPage ==>
            && Vpn(srcva) in old(Space(vm.View(), curenv))
            && Shared(old(vm.View()), vm.View(), e, Vpn(old(envs[e]).ipcDstva), old(Space(vm.View(), curenv))[Vpn(srcva)].page, perm))
    }

    // kern/syscall.c:360-363
    method MarkSent(e: nat, value: Word)
      requires EnvsGood() && Live(curenv) && Live(e)
      modifies envs
      ensures EnvsGood() && envs[..] == old(envs[..])[e := Delivered(old(envs[e]), old(envs[curenv]).id, value)]
    {
      Update(e, envs[e].(ipcFrom := envs[curenv].id, ipcValue := value, ipcRecving := false, status := Runnable));
    }

    // kern/syscall.c:366-369
    method DeliverPage(e: nat, value: Word, srcva: Word, perm: nat, pp: nat) returns (r: int)
      requires Good() && FewMappings(curenv, Vpn(srcva)) && Live(curenv) && Live(e) && WithPage(envs[e], srcva)
      requires perm < PGSIZE && pp < |vm.role| && vm.role[pp] == Data
      requires Vpn(srcva) in Space(vm.View(), curenv) && Space(vm.View(), curenv)[Vpn(srcva)].page == pp
      modifies vm, vm.ppRef, vm.ppLink, vm.mem, envs
      ensures Good() && SentTo(e, value, srcva, perm, r)
    {
      ghost var s, recs := vm.View(), envs[..];
      MarkSent(e, value);
      ghost var marked := envs[e];
      assert vm.View() == s && marked.ipcDstva == recs[e].ipcDstva;
      r := InsertInto(e, pp, envs[e].ipcDstva, perm);
      if r >= 0 {
        StorePerm(e, perm);
        Overwrite(recs, e, marked, marked.(ipcPerm := perm));
      }
    }

    // kern/syscall.c:369
    method StorePerm(e: nat, perm: nat)
      requires Good() && Live(e)
      modifies envs
      ensures Good() && vm.View() == old(vm.View()) && envs[..] == old(envs[..])[e := old(envs[e]).(ipcPerm := perm)]
    {
      Update(e, envs[e].(ipcPerm := perm));
    }

    // kern/syscall.c:371
    method DeliverWord(e: nat, value: Word, srcva: Word, perm: nat)
      requires Good() && Live(curenv) && Live(e) && !WithPage(envs[e], srcva)
      modifies envs
      ensures Good() && SentTo(e, value, srcva, perm, 0)
    {
      MarkSent(e, value);
      Update(e, envs[e].(ipcPerm := 0));
    }

    // kern/syscall.c:360-374
    method Deliver(e: nat, value: Word, srcva: Word, perm: nat, pp: Option<nat>) returns (r: int)
      requires Good() && FewMappings(curenv, Vpn(srcva)) && Live(curenv) && Live(e)
      requires srcva < UTOP ==> perm < PGSIZE && pp.Some? && pp.value < |vm.role| && vm.role[pp.value] == Data
      requires srcva < UTOP ==> Vpn(srcva) in Space(vm.View(), curenv) && Space(vm.View(), curenv)[Vpn(srcva)].page == pp.value
      modifies vm, vm.ppRef, vm.ppLink, vm.mem, envs
      ensures Good() && SentTo(e, value, srcva, perm, r)
    {
      if srcva < UTOP && envs[e].ipcDstva < UTOP {
        r := DeliverPage(e, value, srcva, perm, pp.value);
      } else {
        DeliverWord(e, value, srcva, perm);
        r := 0;
      }
    }

    // kern/syscall.c:335
    method SysIpcTrySend(envid: int, value: Word, srcva: Word, perm: nat) returns (r: int)
      requires Good() && Live(curenv) && FewMappings(curenv, Vpn(srcva))
      modifies vm, vm.ppRef, vm.ppLink, vm.mem, envs
      ensures Good()
      ensures r == -E_BAD_ENV <==> !old(Permitted(envid, false))
      ensures r == -E_IPC_NOT_RECV <==> old(Permitted(envid, false)) && !old(envs[Target(envid)]).ipcRecving
      ensures r == -E_INVAL <==>
        old(Permitted(envid, false)) && old(envs[Target(envid)]).ipcRecving && !old(Sendable(srcva, perm))
      ensures r in {-E_BAD_ENV, -E_IPC_NOT_RECV, -E_INVAL} ==> vm.View() == old(vm.View()) && envs[..] == old(envs[..])
      ensures r !in {-E_BAD_ENV, -E_IPC_NOT_RECV, -E_INVAL} ==> SentTo(Target(envid), value, srcva, perm, r)
    {
      var found := Envid2Env(envid, false);
      if found.None? { return -E_BAD_ENV; }
      if !envs[found.value].ipcRecving { return -E_IPC_NOT_RECV; }
      var pp := None;
      if srcva < UTOP {
        if srcva % PGSIZE != 0 { return -E_INVAL; }
        if !LegalPerm(perm) { return -E_INVAL; }
        pp := SharablePage(curenv, srcva, perm);
        if pp.None? { return -E_INVAL; }
      }
      r := Deliver(found.value, value, srcva, perm, pp);
    }

    // kern/syscall.c:389-396, up to the call of the scheduler
    method SysIpcRecv(dstva: Word) returns (r: int)
      requires EnvsGood() && Live(curenv)
      modifies envs
      ensures EnvsGood()
      ensures r == if dstva < UTOP && dstva % PGSIZE != 0 then -E_INVAL else 0
      ensures r != 0 ==> envs[..] == old(envs[..])
      ensures r == 0 ==> envs[..] == old(envs[..])[curenv := Receiving(old(envs[curenv]), dstva)]
    {
      if dstva < UTOP && dstva % PGSIZE != 0 { return -E_INVAL; }
      Update(curenv, envs[curenv].(ipcRecving := true, ipcDstva := dstva, status := NotRunnable));
      return 0;
    }

    // kern/env.c:213
    method EnvAlloc(parentId: nat) returns (r: int, newenv: nat)
      requires Good()
      modifies this, vm, vm.ppRef, vm.ppLink, vm.mem, vm.envPgdir, envs, envLink
      ensures Good() && curenv == old(curenv)
      ensures r == 0 || r == -E_NO_MEM || r == -E_NO_FREE_ENV
      ensures r == -E_NO_FREE_ENV <==> old(envFree) == []
      ensures r == -E_NO_MEM <==> old(envFree) != [] && old(vm.free) == []
      ensures r != 0 ==> vm.View() == old(vm.View()) && envs[..] == old(envs[..]) && envFree == old(envFree)
      ensures r == 0 ==> newenv == old(envFree)[0] < NENV && envFree == old(envFree)[1..]
      ensures r == 0 ==> old(envs[newenv]).id < INT32_LIMIT && envs[..] == old(envs[..])[newenv := Allocated(old(envs[newenv]), newenv, parentId)]
      ensures r == 0 ==> Space(vm.View(), newenv) == map[] && OthersKeep(old(vm.View()), vm.View(), newenv)
      ensures ContentsKept(old(vm.View()), vm.View())
    {
      if envFreeList.None? { return -E_NO_FREE_ENV, 0; }
      var e := envFreeList.value;
      assert e in envFree && EnvOk(e);
      ghost var s := vm.View();
      r := vm.EnvSetupVm(e, multiset{});
      if r < 0 {
        assert vm.envPgdir[..] == s.dirs;
        forall k | 0 <= k < NENV ensures EnvOk(k) { assert old(EnvOk(k)); assert vm.envPgdir[..][k] == s.dirs[k]; }
        newenv := 0;
        return;
      }
      NewDirectoryOk(vm.kernPgdir, s.free[0]);
      NewSpaceEmpty(s, multiset{}, e, vm.kernPgdir[UVPT_PDX := MakeEntry(s.free[0], 4)]);
      assert vm.envPgdir[..] == s.dirs[e := Some(s.free[0])];
      forall k | 0 <= k < NENV && k != e ensures EnvOk(k) {
        assert old(EnvOk(k));
        assert vm.envPgdir[..][k] == s.dirs[k];
      }
      TakeSlot(e, parentId);
      newenv := e;
    }

    // Another environment runs and enters the kernel.
    method EnterKernel(e: nat)
      requires Good() && Live(e)
      modifies `curenv
      ensures Good() && curenv == e
    {
      curenv := e;
      forall k | 0 <= k < NENV ensures EnvOk(k) { assert old(EnvOk(k)); }
    }

    // kern/syscall.c:79; registers are not part of the model
    method SysExofork() returns (r: int, ghost child: nat)
      requires Good() && Live(curenv)
      modifies this, vm, vm.ppRef, vm.ppLink, vm.mem, vm.envPgdir, envs, envLink
      ensures Good() && curenv == old(curenv) && Live(curenv)
      ensures r == -E_NO_FREE_ENV <==> old(envFree) == []
      ensures r == -E_NO_MEM <==> old(envFree) != [] && old(vm.free) == []
      ensures r > 0 || r == -E_NO_FREE_ENV || r == -E_NO_MEM
      ensures r < 0 ==> vm.View() == old(vm.View()) && envs[..] == old(envs[..]) && envFree == old(envFree)
      ensures r > 0 ==> child == old(envFree)[0] < NENV && old(!Live(child)) && Target(r) == child && Permitted(r, true)
      ensures r > 0 ==> old(envs[child]).id < INT32_LIMIT
      ensures r > 0 ==> envs[..] == old(envs[..])[child := Forked(old(envs[child]), child, old(envs[curenv]).id)]
      ensures r > 0 ==> envs[child].status == NotRunnable && !envs[child].ipcRecving && envs[child].parentId == old(envs[curenv]).id
      ensures r > 0 ==> Space(vm.View(), child) == map[] && OthersKeep(old(vm.View()), vm.View(), child)
      ensures ContentsKept(old(vm.View()), vm.View())
    {
      ghost var recs := envs[..];
      assert EnvOk(curenv);
      assert envFree != [] ==> envFree[0] in envFree && EnvOk(envFree[0]);
      assert envFree != [] ==> !Live(envFree[0]) && envFree[0] != curenv;
      var e: nat;
      r, e := EnvAlloc(envs[curenv].id);
      child := e;
      if r < 0 { return; }
      assert EnvOk(e);
      assert envs[curenv] == recs[curenv];
      Update(e, envs[e].(status := NotRunnable));
      assert envs[curenv] == recs[curenv];
      LiveIdsDiffer(e, e);
      r := envs[e].id;
    }

    // kern/syscall.c:107
    method SysEnvSetStatus(envid: int, status: EnvStatus) returns (r: int)
      requires EnvsGood() && Live(curenv)
      modifies envs
      ensures EnvsGood()
      ensures r == if !status.Runnable? && !status.NotRunnable? then -E_INVAL
                   else if old(Permitted(envid, true)) then 0 else -E_BAD_ENV
      ensures r != 0 ==> envs[..] == old(envs[..])
      ensures r == 0 ==> envs[..] == old(envs[..])[Target(envid) := old(envs[Target(envid)]).(status := status)]
    {
      if !status.Runnable? && !status.NotRunnable? { return -E_INVAL; }
      var found := Envid2Env(envid, true);
      if found.None? { return -E_BAD_ENV; }
      Update(found.value, envs[found.value].(status := status));
      return 0;
    }

    // kern/env.c:227-271: id, status and the free list, once the directory is there
    method TakeSlot(e: nat, parentId: nat)
      requires Layout() && EnvList() && envFree != [] && envFree[0] == e && e < NENV && vm.envPgdir[e].Some?
      requires forall k :: 0 <= k < NENV && k != e ==> EnvOk(k)
      requires envs[e].id == IdAfter(allocs[e], e)
      modifies `envFreeList, `envFree, `allocs, envs, envLink
      ensures EnvsGood() && envFree == old(envFree)[1..]
      ensures old(envs[e]).id < INT32_LIMIT && envs[..] == old(envs[..])[e := Allocated(old(envs[e]), e, parentId)]
    {
      ghost var recs := envs[..];
      envs[e] := envs[e].(id := NextId(envs[e].id, e), parentId := parentId, status := Runnable, ipcRecving := false);
      allocs := allocs[e := allocs[e] + 1];
      assert envs[..] == recs[e := envs[e]];
      PopFree(e);
      forall k | 0 <= k < NENV ensures EnvOk(k) {
        if k != e {
          assert old(EnvOk(k)) && allocs[k] == old(allocs)[k];
          assert envs[k] == recs[k];
        } else {
          assert envs[e].id == IdAfter(allocs[e], e);
        }
      }
    }

    // env_free_list = e->env_link
    method PopFree(e: nat)
      requires Layout() && EnvList() && envFree != [] && envFree[0] == e && e < NENV
      modifies `envFreeList, `envFree, envLink
      ensures Layout() && EnvList() && envFree == old(envFree)[1..] && e !in envFree
      ensures forall k :: k != e ==> (k in envFree <==> k in old(envFree))
    {
      ghost var l, links := envFree, envLink[..];
      ChainPop(links, l);
      envFreeList := envLink[e];
      envLink[e] := None;
      envFree := l[1..];
      assert envLink[..] == links[e := None] && l == [e] + envFree;
    }

    // kern/env.c:415
    method EnvFree(e: nat)
      requires Good() && Live(e)
      modifies this, vm, vm.ppRef, vm.ppLink, vm.mem, vm.envPgdir, envs, envLink
      ensures Good() && curenv == old(curenv) && envFree == [e] + old(envFree)
      ensures envs[..] == old(envs[..])[e := old(envs[e]).(status := Unused)]
      ensures Space(vm.View(), e) == map[] && OthersKeep(old(vm.View()), vm.View(), e)
      ensures ContentsKept(old(vm.View()), vm.View())
      ensures ShareReturned(old(vm.View()), vm.View(), e)
      ensures Elements(vm.free) == old(Elements(vm.free)) + old(OnlyHeldBy(vm.View(), e))
      ensures |vm.free| == |old(vm.free)| + |old(OnlyHeldBy(vm.View(), e))|
    {
      ghost var s := vm.View();
      assert EnvOk(e);
      vm.EnvFreeVm(e, multiset{});
      GoneSpaces(s, vm.View(), multiset{}, e);
      ghost var recs := envs[..];
      envs[e] := envs[e].(status := Unused);
      PushFree(e);
      forall k | 0 <= k < NENV ensures EnvOk(k) { assert old(EnvOk(k)); if k != e { assert envs[k] == recs[k]; } }
    }
  }

  // mem_init up to page_init, then env_init: the invariant of the system calls holds at boot.
  method Boot(npages: nat, npagesBasemem: nat, bootEnd: nat, kernPgdir: KernDir) returns (k: System)
    requires npages <= 0x10_0000
    ensures fresh(k) && fresh(k.vm) && k.Good()
    ensures k.vm.free == FreeBelow(npages, npagesBasemem, bootEnd) && SlotsFrom(k.envFree, 0)
    ensures forall e: nat :: Space(k.vm.View(), e) == map[]
  {
    var vm := new Kernel(npages, kernPgdir, NENV);
    vm.PageInit(npagesBasemem, bootEnd);
    ghost var s := vm.View();
    k := new System(vm, 0);
    k.EnvInit();
    assert vm.View() == s;
    NoDirectories(s);
  }

  // env_create's use of env_alloc (kern/env.c:387): the first environment can be dispatched, and
  // is what sched_yield chooses.
  method FirstEnvironment(k: System) returns (r: int, e: nat)
    requires k.Good() && SlotsFrom(k.envFree, 0) && k.vm.free != []
    modifies k, k.vm, k.vm.ppRef, k.vm.ppLink, k.vm.mem, k.vm.envPgdir, k.envs, k.envLink
    ensures k.Good() && r == 0 && e == 0 && k.envs.Length == NENV && OnlyRunnable(k.envs[..], 0)
  {
    forall i | 0 <= i < NENV ensures k.envs[i].status == Unused { AllSlots(k.envFree, i); assert k.EnvOk(i); }
    r, e := k.EnvAlloc(0);
  }

  predicate OnlyRunnable(envs: seq<Env>, e: nat) {
    e < |envs| && envs[e].status == Runnable && forall i :: 0 <= i < |envs| && i != e ==> envs[i].status == Unused
  }

  lemma FirstIsDispatched(envs: seq<Env>, e: nat, st: seq<EnvStatus>, t: S.Turn)
    requires OnlyRunnable(envs, e) && |st| == |envs| && forall i :: 0 <= i < |st| ==> st[i] == envs[i].status
    requires S.Yields(st, None, t)
    ensures t.next == S.Dispatch(e)
  {
    S.YieldWaysOut(st, None, t);
    S.DispatchesOnlyRunnable(st, None, t);
  }

  // A page goes where the receiver asked for it, or nowhere.
  method ReceiveThenSend(k: System, dstva: Word, sender: nat, envid: int, value: Word, srcva: Word, perm: nat) returns (recvd: int, sent: int)
    requires k.Good() && k.Live(k.curenv) && k.Live(sender) && sender != k.curenv
    requires k.envs[k.curenv].id == envid && k.FewMappings(sender, Vpn(srcva))
    modifies k, k.vm, k.vm.ppRef, k.vm.ppLink, k.vm.mem, k.envs
    ensures k.Good()
    ensures recvd == 0 <==> dstva >= 0xeec0_0000 || dstva % 0x1000 == 0
    ensures recvd == 0 && sent == 0 && srcva < 0xeec0_0000 && dstva < 0xeec0_0000 ==>
              && srcva / 0x1000 in old(Space(k.vm.View(), sender))
              && Shared(old(k.vm.View()), k.vm.View(), old(k.curenv), dstva / 0x1000,
                        old(Space(k.vm.View(), sender))[srcva / 0x1000].page, perm)
    ensures recvd == 0 && (srcva >= 0xeec0_0000 || dstva >= 0xeec0_0000) ==> k.vm.View() == old(k.vm.View())
    ensures recvd == 0 && sent == 0 ==>
              k.envs[..] == old(k.envs[..])[old(k.curenv) :=
                Env(envid, old(k.envs[k.curenv]).parentId, Runnable, false, dstva, value, old(k.envs[sender]).id,
                    if srcva < 0xeec0_0000 && dstva < 0xeec0_0000 then perm else 0)]
    ensures recvd == 0 ==> sent in {0, -E_NO_MEM, -E_INVAL}
  {
    ghost var e, recs := k.curenv, k.envs[..];
    assert k.EnvOk(e);
    k.LiveIdsDiffer(e, e);
    recvd := Receive(k, dstva);
    sent := 0;
    if recvd == 0 {
      ReceivedThenSent(recs[e], dstva, recs[sender].id, value, srcva);
      assert k.envs[e] == Receiving(recs[e], dstva) && k.envs[sender] == recs[sender];
      sent := SendFrom(k, e, sender, envid, value, srcva, perm);
    }
  }

  // The receiver's half.
  method Receive(k: System, dstva: Word) returns (r: int)
    requires k.Good() && k.Live(k.curenv)
    modifies k.envs
    ensures k.Good() && k.vm.View() == old(k.vm.View())
    ensures r == 0 <==> dstva >= 0xeec0_0000 || dstva % 0x1000 == 0
    ensures r == 0 ==> k.envs[..] == old(k.envs[..])[k.curenv := Receiving(old(k.envs[k.curenv]), dstva)]
  {
    r := k.SysIpcRecv(dstva);
  }

  // The sender's half, to an environment that waits.
  method SendFrom(k: System, ghost e: nat, sender: nat, envid: int, value: Word, srcva: Word, perm: nat) returns (sent: int)
    requires k.Good() && k.Live(e) && k.envs[e].id == envid > 0 && Envx(envid) == e && k.envs[e].ipcRecving
    requires k.Live(sender) && k.FewMappings(sender, Vpn(srcva))
    modifies k, k.vm, k.vm.ppRef, k.vm.ppLink, k.vm.mem, k.envs
    ensures k.Good() && sent in {0, -E_NO_MEM, -E_INVAL}
    ensures var r := old(k.envs[e]);
            && (sent == 0 ==> k.envs[..] == old(k.envs[..])[e :=
                  Delivered(r, old(k.envs[sender]).id, value).(ipcPerm := if WithPage(r, srcva) then perm else 0)])
            && (!WithPage(r, srcva) ==> k.vm.View() == old(k.vm.View()))
            && (sent == 0 && WithPage(r, srcva) ==>
                  && Vpn(srcva) in old(Space(k.vm.View(), sender))
                  && Shared(old(k.vm.View()), k.vm.View(), e, Vpn(r.ipcDstva), old(Space(k.vm.View(), sender))[Vpn(srcva)].page, perm))
  {
    k.EnterKernel(sender);
    assert k.Permitted(envid, false) && k.Target(envid) == e;
    sent := k.SysIpcTrySend(envid, value, srcva, perm);
  }

  lemma ReceivedThenSent(env: Env, dstva: Word, from: nat, value: Word, srcva: Word)
    ensures var r := Receiving(env, dstva);
            && r.ipcRecving && r.ipcDstva == dstva && r.id == env.id && (WithPage(r, srcva) <==> srcva < 0xeec0_0000 && dstva < 0xeec0_0000)
            && Delivered(r, from, value) == Env(env.id, env.parentId, Runnable, false, dstva, value, from, env.ipcPerm)
  {
  }

  lemma Overwrite(l: seq<Env>, i: nat, x: Env, y: Env)
    requires i < |l|
    ensures l[i := x][i := y] == l[i := y]
  {
  }

  // What every user of sys_exofork does: the child it makes does not run, is the caller's to
  // start, and then runs.
  method ForkThenStart(k: System) returns (child: int, started: int)
    requires k.Good() && k.Live(k.curenv) && k.envFree != [] && k.vm.free != []
    modifies k, k.vm, k.vm.ppRef, k.vm.ppLink, k.vm.mem, k.vm.envPgdir, k.envs, k.envLink
    ensures k.EnvsGood() && child > 0 && started == 0 && old(k.envFree)[0] < NENV
    ensures k.Permitted(child, true) && k.Target(child) == old(k.envFree)[0]
    ensures k.envs[old(k.envFree)[0]].status == Runnable && k.envs[old(k.envFree)[0]].id == child
    ensures forall e :: 0 <= e < NENV && e != old(k.envFree)[0] ==> k.envs[e] == old(k.envs[e])
  {
    ghost var c: nat;
    child, c := k.SysExofork();
    started := k.SysEnvSetStatus(child, Runnable);
  }

  lemma NoDirectories(s: Vm)
    requires forall e :: 0 <= e < |s.dirs| ==> s.dirs[e].None?
    ensures forall e: nat :: Space(s, e) == map[]
  {
  }

  lemma NewSpaceEmpty(s: Vm, extra: multiset<nat>, e: nat, page: Page)
    requires Inv(s, extra) && s.free != [] && e < |s.dirs| && s.dirs[e].None?
    requires forall i :: 0 <= i < UTOP_PDX ==> !Present(page[i])
    requires IsNewDirectory(s.kern, s.free[0], page)
    ensures s.free[0] < |s.mem| && |s.refs| == |s.role|
    ensures Space(SetUp(s, e, page), e) == map[] && OthersKeep(s, SetUp(s, e, page), e)
    ensures HeldPages(SetUp(s, e, page)) == HeldPages(s)
  {
    SetUpInv(s, extra, e, page);
    SetUpSpaces(s, extra, e, page);
    var t := SetUp(s, e, page);
    forall e': nat | e' < |s.dirs| && e' != e ensures Space(t, e') == Space(s, e') {
      assert DirTyped(s, e');
      if s.dirs[e'].Some? { assert IsDir(s, s.dirs[e'].value); }
    }
  }

  lemma GoneSpaces(s: Vm, t: Vm, extra: multiset<nat>, e: nat)
    requires Inv(s, extra) && e < |s.dirs| && s.dirs[e].Some? && t.dirs == s.dirs[e := None] && |t.mem| == |s.mem|
    requires OthersSame(s, t, s.dirs[e].value)
    ensures Space(t, e) == map[] && OthersKeep(s, t, e)
  {
    forall e': nat | e' < |s.dirs| && e' != e ensures Space(t, e') == Space(s, e') {
      assert DirTyped(s, e');
      if s.dirs[e'] == s.dirs[e] { DirectoryHasOneOwner(s, extra, e, e'); }
      if s.dirs[e'].Some? { assert IsDir(s, s.dirs[e'].value); }
    }
  }

  predicate GoodPageArgs(va: Word, perm: nat) { va < UTOP && va % PGSIZE == 0 && LegalPerm(perm) }

  // Virtual page v of e is mapped, and writable if write access is to be passed on.
  ghost predicate MayShare(s: Vm, e: nat, v: nat, perm: nat) {
    v in Space(s, e) && (perm / 2 % 2 == 1 ==> Space(s, e)[v].perm / 2 % 2 == 1)
  }

  // Virtual page v of e is now page pp, and nothing else changed in any address space.
  ghost predicate Shared(s: Vm, t: Vm, e: nat, v: nat, pp: nat, perm: nat) {
    && perm < PGSIZE
    && Space(t, e) == Space(s, e)[v := Mapping(pp, WithPresent(perm))]
    && OthersKeep(s, t, e) && ContentsKept(s, t)
  }

  // Some environment may write page p.
  ghost predicate HasWriter(s: Vm, p: nat) {
    exists x: nat, w: nat {:trigger w in Space(s, x)} :: w in Space(s, x) && Space(s, x)[w].page == p && Space(s, x)[w].perm / 2 % 2 == 1
  }

  // sys_page_map and IPC make no page writable that nobody could write before.
  lemma SharingGrantsNothing(s: Vm, t: Vm, src: nat, v: nat, dst: nat, dv: nat, perm: nat, p: nat)
    requires MayShare(s, src, v, perm) && Shared(s, t, dst, dv, Space(s, src)[v].page, perm) && dst < |s.dirs| == |t.dirs|
    requires HasWriter(t, p)
    ensures HasWriter(s, p)
  {
    var x: nat, w: nat :| w in Space(t, x) && Space(t, x)[w].page == p && Space(t, x)[w].perm / 2 % 2 == 1;
    if x == dst && w == dv {
      PresentKeepsW(perm);
      assert v in Space(s, src);
    } else {
      assert x != dst ==> Space(t, x) == Space(s, x);
      assert w in Space(s, x);
    }
  }

  lemma PresentKeepsW(perm: nat)
    requires perm < PGSIZE
    ensures WithPresent(perm) / 2 % 2 == perm / 2 % 2
  {
  }

  lemma WritableBit(w: Word)
    ensures Writable(w) <==> Perm(w) / 2 % 2 == 1
  {
    assert w / 2 == (w / PGSIZE) * 2048 + (w % PGSIZE) / 2;
  }

  // Virtual page v of e is now a page taken from the free list, filled with zeros.
  ghost predicate Alloced(s: Vm, t: Vm, e: nat, v: nat, perm: nat)
    requires perm < PGSIZE
  {
    && s.free != [] && s.free[0] < |t.mem|
    && Space(t, e) == Space(s, e)[v := Mapping(s.free[0], WithPresent(perm))]
    && t.mem[s.free[0]] == ZeroPage()
    && OthersKeep(s, t, e) && ContentsKept(s, t)
  }

  lemma AllocedInSteps(s: Vm, u: Vm, t: Vm, e: nat, v: nat, perm: nat)
    requires perm < PGSIZE && |u.dirs| == |s.dirs|
    requires s.free != [] && s.free[0] < |t.mem| && t.mem[s.free[0]] == ZeroPage()
    requires SpacesSame(s, u) && OthersKeep(u, t, e) && ContentsKept(s, t)
    requires Space(t, e) == Space(u, e)[v := Mapping(s.free[0], WithPresent(perm))]
    ensures Alloced(s, t, e, v, perm)
  {
    assert Space(u, e) == Space(s, e);
    forall e': nat | e' < |s.dirs| && e' != e ensures Space(t, e') == Space(s, e') {
      assert Space(t, e') == Space(u, e') == Space(s, e');
    }
  }

  ghost predicate SpacesSame(s: Vm, t: Vm) {
    forall e: nat {:trigger Space(t, e)} :: Space(t, e) == Space(s, e)
  }

  // Taking a page from the free list changes no address space.
  lemma TakenSpaces(s: Vm, extra: multiset<nat>, zero: bool)
    requires Inv(s, extra) && s.free != []
    ensures s.free[0] < |s.mem| && SpacesSame(s, TakeFree(s, zero))
  {
    TakeFreeKeepsInv(s, extra, zero);
    var t := TakeFree(s, zero);
    forall e: nat ensures Space(t, e) == Space(s, e) {
      if e < |s.dirs| && s.dirs[e].Some? {
        var d := s.dirs[e].value;
        assert DirTyped(s, e);
        forall k | 0 <= k < UTOP_PDX && Present(s.mem[d][k]) && Frame(s.mem[d][k]) < |s.mem|
          ensures t.mem[Frame(s.mem[d][k])] == s.mem[Frame(s.mem[d][k])]
        {
          assert EntryTyped(s, d, k);
        }
        SameTablesSameSpaces(s, t, d);
      }
    }
  }

  // A page that is taken and given back leaves no trace but its contents.
  lemma TakenAndGivenBack(s: Vm, extra: multiset<nat>, zero: bool)
    requires Inv(s, extra) && s.free != []
    ensures s.free[0] < |s.mem| && Inv(TakeFree(s, zero), extra)
    ensures
      var t := GiveBack(TakeFree(s, zero), s.free[0]);
      && Inv(t, extra) && SpacesSame(s, t) && t.free == s.free && HeldPages(t) == HeldPages(s) - {s.free[0]}
      && s.free[0] !in TakeFree(s, zero).free
  {
    TakenSpaces(s, extra, zero);
    TakeFreeKeepsInv(s, extra, zero);
    var u := TakeFree(s, zero);
    GiveBackKeepsInv(u, extra, s.free[0]);
    assert OnListIffFree(u, s.free[0]);
    var t := GiveBack(u, s.free[0]);
    forall e: nat ensures Space(t, e) == Space(s, e) {
      assert Space(u, e) == Space(s, e);
      if e < |s.dirs| && s.dirs[e].Some? && s.dirs[e].value < |s.mem| { SpaceOfMem(u, t, s.dirs[e].value); }
    }
  }
}
