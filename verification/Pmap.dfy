/** kern/pmap.c: the page allocator and the page-table functions, over arrays updated in
    place, proved against the values of PageTables and AddressSpaces. */
module Pmap {
  import opened Mmu
  import opened PageTables
  import opened AddressSpaces
  import opened PageSteps
  import opened Teardown

  const E_NO_MEM: int := 4
  // pp_ref is a uint16_t
  const REF_LIMIT: nat := 0x1_0000

  datatype PtePtr = PtePtr(frame: nat, index: nat)

  // The links spell out the list l, one page after the other.
  ghost predicate Chain(links: seq<Option<nat>>, l: seq<nat>) {
    && (forall i :: 0 <= i < |l| ==> l[i] < |links|)
    && (forall i {:trigger l[i]} :: 0 <= i < |l| ==> links[l[i]] == Next(l, i))
  }

  ghost function Next(l: seq<nat>, i: nat): Option<nat> { if i + 1 < |l| then Some(l[i + 1]) else None }

  lemma ChainPush(links: seq<Option<nat>>, l: seq<nat>, p: nat)
    requires Chain(links, l) && p < |links| && p !in l
    ensures Chain(links[p := Next([p] + l, 0)], [p] + l)
  {
    var m := [p] + l;
    forall i | 0 <= i < |m| ensures links[p := Next(m, 0)][m[i]] == Next(m, i) {
      if i > 0 { assert m[i] == l[i - 1] && m[i] in l; assert Next(m, i) == Next(l, i - 1); }
    }
  }

  lemma ChainPop(links: seq<Option<nat>>, l: seq<nat>)
    requires Chain(links, l) && l != [] && l[0] !in l[1..]
    ensures Chain(links[l[0] := None], l[1..]) && links[l[0]] == Next(l, 0)
  {
    var m := l[1..];
    forall i | 0 <= i < |m| ensures links[l[0] := None][m[i]] == Next(m, i) {
      assert m[i] == l[i + 1] && m[i] in m;
      assert Next(m, i) == Next(l, i + 1);
    }
  }

  class Kernel {
    const ppRef: array<nat>
    const ppLink: array<Option<nat>>
    const mem: array<Page>
    const envPgdir: array<Option<nat>>
    const kernPgdir: KernDir
    var pageFreeList: Option<nat>
    ghost var role: seq<Role>
    ghost var free: seq<nat>

    ghost function View(): Vm
      reads this, ppRef, mem, envPgdir
    {
      Vm(ppRef[..], mem[..], role, free, envPgdir[..], kernPgdir)
    }

    // The linked list through ppLink, starting at pageFreeList, spells out `free`.
    ghost predicate ListOk()
      reads this, ppLink
    {
      && pageFreeList == (if free == [] then None else Some(free[0]))
      && Chain(ppLink[..], free)
    }

    ghost predicate Arrays()
      reads this, ppRef
    {
      && ppRef.Length == ppLink.Length == mem.Length == |role|
      && ppLink != envPgdir && ppRef as object != mem && ppRef as object != ppLink && ppRef as object != envPgdir
      && mem as object != ppLink && mem as object != envPgdir
      && forall p :: 0 <= p < ppRef.Length ==> ppRef[p] < REF_LIMIT
    }

    ghost predicate Valid(extra: multiset<nat>)
      reads this, ppRef, ppLink, mem, envPgdir
    {
      Arrays() && ListOk() && Inv(View(), extra)
    }

    // kern/pmap.c:154-161 and 320: the arrays as mem_init clears them, before page_init
    ghost predicate Cleared()
      reads this, ppRef, envPgdir
    {
      && Arrays() && pageFreeList.None? && free == [] && ppRef.Length <= 0x10_0000
      && (forall p :: 0 <= p < ppRef.Length ==> ppRef[p] == 0 && role[p] == Reserved)
      && (forall e :: 0 <= e < envPgdir.Length ==> envPgdir[e].None?)
    }

    constructor (npages: nat, kernPgdir: KernDir, nenv: nat)
      requires npages <= 0x10_0000
      ensures Cleared() && mem.Length == npages && envPgdir.Length == nenv && this.kernPgdir == kernPgdir
      ensures fresh(ppRef) && fresh(ppLink) && fresh(mem) && fresh(envPgdir)
    {
      ppRef := new nat[npages](i => 0);
      ppLink := new Option<nat>[npages](i => None);
      mem := new Page[npages](i => ZeroPage());
      envPgdir := new Option<nat>[nenv](i => None);
      this.kernPgdir := kernPgdir;
      pageFreeList := None;
      role := seq(npages, i => Reserved);
      free := [];
    }

    // kern/pmap.c:321-336
    method ListFreePages(npagesBasemem: nat, bootEnd: nat)
      requires Cleared()
      modifies this, ppRef, ppLink
      ensures Arrays() && ListOk() && free == FreeBelow(mem.Length, npagesBasemem, bootEnd)
      ensures forall p :: 0 <= p < mem.Length ==> ppRef[p] == 0
      ensures forall p :: 0 <= p < mem.Length ==> role[p] == (if InUse(p, npagesBasemem, bootEnd) then Reserved else Free)
    {
      for i := 0 to mem.Length
        invariant Arrays() && ListOk() && free == FreeBelow(i, npagesBasemem, bootEnd)
        invariant forall p :: 0 <= p < mem.Length ==> ppRef[p] == 0
        invariant forall p :: 0 <= p < mem.Length ==> role[p] == (if p < i && !InUse(p, npagesBasemem, bootEnd) then Free else Reserved)
      {
        if InUse(i, npagesBasemem, bootEnd) { continue; }
        NotListedYet(i, npagesBasemem, bootEnd);
        ppRef[i] := 0;
        PageFree(i);
      }
    }

    // kern/pmap.c:294
    method PageInit(npagesBasemem: nat, bootEnd: nat)
      requires Cleared()
      modifies this, ppRef, ppLink
      ensures Valid(multiset{}) && HeldPages(View()) == {}
      ensures free == FreeBelow(mem.Length, npagesBasemem, bootEnd)
    {
      ListFreePages(npagesBasemem, bootEnd);
      InitialInv(View(), npagesBasemem, bootEnd);
    }

    // kern/pmap.c:349
    method PageAlloc(zero: bool, ghost extra: multiset<nat>) returns (pp: Option<nat>)
      requires Valid(extra)
      modifies `pageFreeList, `role, `free, ppRef, ppLink, mem
      ensures Valid(extra)
      ensures pp.None? <==> old(free) == []
      ensures pp.None? ==> View() == old(View())
      ensures pp.Some? ==> pp.value == old(free)[0] < |role| && old(role)[pp.value] == Free
      ensures pp.Some? ==> View() == TakeFree(old(View()), zero) && ppRef[pp.value] == 0
      ensures pp.Some? ==> HeldPages(View()) == old(HeldPages(View())) + {pp.value}
    {
      if pageFreeList.None? { return None; }
      var p := pageFreeList.value;
      TakeFreeKeepsInv(View(), extra, zero);
      ChainPop(ppLink[..], free);
      pageFreeList := ppLink[p];
      ppLink[p] := None;
      ppRef[p] := 0;
      if zero { mem[p] := ZeroPage(); }
      ghost var rest := free[1..];
      assert ppLink[..] == old(ppLink[..])[p := None];
      role, free := role[p := Held], rest;
      assert View() == TakeFree(old(View()), zero);
      return Some(p);
    }

    // kern/pmap.c:370; the panic on a nonzero count is the second precondition
    method PageFree(pp: nat)
      requires Arrays() && ListOk() && pp < |role| && pp !in free
      requires ppRef[pp] == 0
      modifies `pageFreeList, `role, `free, ppLink
      ensures Arrays() && ListOk()
      ensures View() == GiveBack(old(View()), pp)
    {
      ppLink[pp] := pageFreeList;
      pageFreeList := Some(pp);
      ghost var longer := [pp] + free;
      assert ppLink[..] == old(ppLink[..])[pp := Next(longer, 0)];
      ChainPush(old(ppLink[..]), free, pp);
      role, free := role[pp := Free], longer;
    }

    // kern/pmap.c:383
    method PageDecref(pp: nat, ghost extra: multiset<nat>)
      requires Valid(extra) && pp < |role| && pp in extra
      requires role[pp] == Data || (role[pp] in {Table, Directory} && NoEntries(View(), pp))
      modifies `pageFreeList, `role, `free, ppRef, ppLink
      ensures Valid(extra - multiset{pp})
      ensures old(ppRef[pp]) > 0 && View() == DropRef(old(View()), pp)
    {
      ghost var s := View();
      assert OnListIffFree(s, pp);
      assert s.refs[pp] > 0 && Inv(DropRef(s, pp), extra - multiset{pp}) by { DropRefKeepsInv(s, extra, pp); }
      ppRef[pp] := ppRef[pp] - 1;
      assert ppRef[..] == s.refs[pp := s.refs[pp] - 1];
      if ppRef[pp] == 0 {
        PageFree(pp);
      }
      assert View() == DropRef(s, pp);
    }

    // *pte = w
    method Store(f: nat, j: nat, w: Word)
      requires Arrays() && f < mem.Length && j < NPTENTRIES
      modifies mem
      ensures Arrays() && View() == WriteWord(old(View()), f, j, w)
    {
      mem[f] := mem[f][j := w];
    }

    // pp->pp_ref++, after which the page is in use as r
    method IncRef(pp: nat, ghost r: Role)
      requires Arrays() && pp < mem.Length && ppRef[pp] + 1 < REF_LIMIT
      modifies `role, ppRef
      ensures Arrays() && View() == AddRef(old(View()), pp, r)
    {
      ppRef[pp] := (ppRef[pp] + 1) % REF_LIMIT;
      role := role[pp := r];
    }

    // pp->pp_ref++ and the store of an entry for pp: lines 425-426 and 496-497 of kern/pmap.c
    method CountAndStore(f: nat, j: nat, pp: nat, perm: nat, ghost r: Role)
      requires Arrays() && f < mem.Length && j < NPTENTRIES && pp < mem.Length && pp < 0x10_0000 && perm < PGSIZE
      requires ppRef[pp] + 1 < REF_LIMIT
      modifies `role, ppRef, mem
      ensures Arrays()
      ensures View() == WriteWord(AddRef(old(View()), pp, r), f, j, MakeEntry(pp, perm))
    {
      IncRef(pp, r);
      Store(f, j, MakeEntry(pp, perm));
    }

    // kern/pmap.c:417-427, the branch of pgdir_walk that creates a page-table page
    method NewTable(d: nat, i: nat, ghost extra: multiset<nat>) returns (ok: bool)
      requires Valid(extra) && IsDir(View(), d) && i < UTOP_PDX && !Present(mem[d][i])
      modifies `pageFreeList, `role, `free, ppRef, ppLink, mem
      ensures Valid(extra)
      ensures ok <==> old(free) != []
      ensures !ok ==> View() == old(View())
      ensures ok ==> old(free)[0] < |old(role)| && View() == Grown(old(View()), d, i)
    {
      ghost var s := View();
      var pp := PageAlloc(true, extra);
      if pp.None? { return false; }
      assert Inv(Grown(s, d, i), extra) by { GrownOk(s, extra, d, i); }
      CountAndStore(d, i, pp.value, 6, Table);
      return true;
    }

    // kern/pmap.c:412; the pointer to an entry is the page it lies in and its index there
    method PgdirWalk(d: nat, va: Word, create: bool, ghost extra: multiset<nat>) returns (pte: Option<PtePtr>)
      requires Valid(extra) && IsDir(View(), d) && va < UTOP
      modifies `pageFreeList, `role, `free, ppRef, ppLink, mem
      ensures Valid(extra)
      ensures pte.None? <==> old(!Present(mem[d][Pdx(va)]) && (!create || free == []))
      ensures pte.None? || old(Present(mem[d][Pdx(va)])) ==> View() == old(View())
      ensures pte.Some? ==> d < mem.Length && Present(mem[d][Pdx(va)])
      ensures pte.Some? ==> pte.value == PtePtr(Frame(mem[d][Pdx(va)]), Ptx(va))
      ensures pte.Some? ==> pte.value.frame < mem.Length && pte.value.index < NPTENTRIES
      ensures KeepsData(old(View()), View()) && AllSame(old(View()), View())
      ensures HeldPages(View()) == old(HeldPages(View()))
      ensures forall p: nat :: p < |role| && old(role)[p] in {Data, Held} ==> role[p] == old(role)[p] && ppRef[p] == old(ppRef[p])
    {
      ghost var s := View();
      VpnDigits(va);
      if !Present(mem[d][Pdx(va)]) {
        if !create { return None; }
        var ok := NewTable(d, Pdx(va), extra);
        if !ok { return None; }
        GrownOk(s, extra, d, Pdx(va));
        GrownSpaces(s, extra, d, Pdx(va));
      }
      assert EntryTyped(View(), d, Pdx(va));
      return Some(PtePtr(Frame(mem[d][Pdx(va)]), Ptx(va)));
    }

    // kern/pmap.c:514
    method PageLookup(d: nat, va: Word, ghost extra: multiset<nat>) returns (r: Option<(nat, PtePtr)>)
      requires Valid(extra) && IsDir(View(), d) && va < UTOP
      modifies `pageFreeList, `role, `free, ppRef, ppLink, mem
      ensures Valid(extra) && View() == old(View())
      ensures r.Some? <==> Vpn(va) in AddrSpace(View(), d)
      ensures r.Some? ==> r.value.0 == AddrSpace(View(), d)[Vpn(va)].page
      ensures r.Some? ==> r.value.1 == PtePtr(Frame(mem[d][Pdx(va)]), Ptx(va)) && r.value.1.frame < mem.Length
      ensures r.Some? ==> Perm(mem[r.value.1.frame][r.value.1.index]) == AddrSpace(View(), d)[Vpn(va)].perm
    {
      VpnDigits(va);
      var pte := PgdirWalk(d, va, false, extra);
      if pte.None? || !Present(mem[pte.value.frame][pte.value.index]) { return None; }
      return Some((Frame(mem[pte.value.frame][pte.value.index]), pte.value));
    }

    // kern/pmap.c:541
    method PageRemove(d: nat, va: Word, ghost extra: multiset<nat>)
      requires Valid(extra) && IsDir(View(), d) && va < UTOP
      modifies `pageFreeList, `role, `free, ppRef, ppLink, mem
      ensures Valid(extra) && View() == Removed(old(View()), d, Vpn(va))
      ensures AddrSpace(View(), d) == old(AddrSpace(View(), d)) - {Vpn(va)}
      ensures KeepsData(old(View()), View()) && OthersSame(old(View()), View(), d)
      ensures HeldPages(View()) == old(HeldPages(View()))
    {
      ghost var s := View();
      VpnDigits(va);
      RemovedInv(s, extra, d, Vpn(va));
      RemovedData(s, extra, d, Vpn(va));
      RemovedSpaces(s, extra, d, Vpn(va));
      var found := PageLookup(d, va, extra);
      if found.None? { return; }
      var (pp, pte) := found.value;
      MappedIsData(s, extra, d, Vpn(va));
      WriteKeepsInv(s, extra, pte.frame, pte.index, 0);
      Store(pte.frame, pte.index, 0);
      PageDecref(pp, extra + multiset{pp});
      assert extra + multiset{pp} - multiset{pp} == extra;
    }

    // kern/pmap.c:494: another page mapped at va goes first
    method MakeRoom(d: nat, pp: nat, va: Word, pte: PtePtr, ghost extra: multiset<nat>)
      requires Valid(extra) && IsDir(View(), d) && va < UTOP && pp < |role| && role[pp] in {Held, Data}
      requires Present(mem[d][Pdx(va)]) && pte == PtePtr(Frame(mem[d][Pdx(va)]), Ptx(va)) && pte.frame < mem.Length
      requires Vpn(va) < USER_PAGES && Pdx(va) == Vpn(va) / NPTENTRIES && Ptx(va) == Vpn(va) % NPTENTRIES
      requires Present(mem[pte.frame][pte.index]) ==> Frame(mem[pte.frame][pte.index]) != pp
      modifies `pageFreeList, `role, `free, ppRef, ppLink, mem
      ensures Arrays() && ListOk() && View() == Removed(old(View()), d, Vpn(va))
      ensures ppRef[pp] == old(ppRef[pp])
    {
      ghost var s := View();
      RemovedKeeps(s, extra, d, Vpn(va), pp);
      if Present(mem[pte.frame][pte.index]) {
        PageRemove(d, va, extra);
      }
      assert ppRef[pp] == View().refs[pp];
    }

    // kern/pmap.c:488-499, page_insert once the table is there
    method InsertEntry(d: nat, pp: nat, va: Word, perm: nat, pte: PtePtr, ghost extra: multiset<nat>)
      requires Valid(extra) && IsDir(View(), d) && va < UTOP && perm < PGSIZE
      requires Present(mem[d][Pdx(va)]) && pte == PtePtr(Frame(mem[d][Pdx(va)]), Ptx(va)) && pte.frame < mem.Length
      requires pp < |role| && role[pp] in {Held, Data} && ppRef[pp] + 1 < REF_LIMIT
      requires Vpn(va) < USER_PAGES && Pdx(va) == Vpn(va) / NPTENTRIES && Ptx(va) == Vpn(va) % NPTENTRIES
      requires Shape(Removed(View(), d, Vpn(va)))
      modifies `pageFreeList, `role, `free, ppRef, ppLink, mem
      ensures Arrays() && ListOk()
      ensures View() == Inserted(old(View()), d, Vpn(va), pp, MakeEntry(pp, perm))
    {
      ghost var s := View();
      var PtePtr(f, j) := pte;
      if Present(mem[f][j]) {
        if Frame(mem[f][j]) == pp {
          Store(f, j, MakeEntry(pp, perm));
          return;
        }
      }
      MakeRoom(d, pp, va, pte, extra);
      CountAndStore(f, j, pp, perm, Data);
    }

    // kern/pmap.c:480; the hypothesis on ppRef is that the 16-bit count does not overflow
    method PageInsert(d: nat, pp: nat, va: Word, perm: nat, ghost extra: multiset<nat>) returns (r: int)
      requires Valid(extra) && IsDir(View(), d) && va < UTOP && perm < PGSIZE
      requires pp < |role| && role[pp] in {Held, Data} && ppRef[pp] + 1 < REF_LIMIT
      modifies `pageFreeList, `role, `free, ppRef, ppLink, mem
      ensures Valid(extra)
      ensures r == 0 || r == -E_NO_MEM
      ensures r != 0 <==> old(!Present(mem[d][Pdx(va)]) && free == [])
      ensures r != 0 ==> View() == old(View())
      ensures r == 0 ==> AddrSpace(View(), d) == old(AddrSpace(View(), d))[Vpn(va) := Mapping(pp, WithPresent(perm))]
      ensures KeepsData(old(View()), View()) && OthersSame(old(View()), View(), d)
      ensures r == 0 ==> HeldPages(View()) == old(HeldPages(View())) - {pp}
      ensures r == 0 ==> role[pp] == Data && mem[pp] == old(mem[pp])
    {
      VpnDigits(va);
      ghost var s0 := View();
      var pte := PgdirWalk(d, va, true, extra);
      if pte.None? { return -E_NO_MEM; }
      ghost var s := View();
      InsertedDefined(s, extra, d, Vpn(va));
      InsertEntry(d, pp, va, perm, pte.value, extra);
      InsertedInv(s, extra, d, Vpn(va), pp, MakeEntry(pp, perm));
      InsertedData(s, extra, d, Vpn(va), pp, MakeEntry(pp, perm));
      InsertedSpaces(s, extra, d, Vpn(va), pp, MakeEntry(pp, perm));
      SameThenOthers(s0, s, View(), d);
      return 0;
    }

    // ---------------------------------------------------------------- kern/env.c

    // kern/env.c:195-199
    method CopyKernelHalf(p: nat)
      requires p < mem.Length && p < 0x10_0000
      modifies mem
      ensures mem[..] == old(mem[..])[p := kernPgdir[UVPT_PDX := MakeEntry(p, 4)]]
    {
      for i := 0 to NPTENTRIES
        invariant forall k :: 0 <= k < i ==> mem[p][k] == kernPgdir[k]
        invariant mem[..] == old(mem[..])[p := mem[p]]
      {
        mem[p] := mem[p][i := kernPgdir[i]];
      }
      assert mem[p] == kernPgdir;
      mem[p] := mem[p][UVPT_PDX := MakeEntry(p, 4)];
    }

    // kern/env.c:166
    method EnvSetupVm(e: nat, ghost extra: multiset<nat>) returns (r: int)
      requires Valid(extra) && e < envPgdir.Length && envPgdir[e].None?
      modifies `pageFreeList, `role, `free, ppRef, ppLink, mem, envPgdir
      ensures Valid(extra)
      ensures r == 0 || r == -E_NO_MEM
      ensures r != 0 <==> old(free) == []
      ensures r != 0 ==> View() == old(View())
      ensures r == 0 ==> old(free)[0] < mem.Length && envPgdir[e] == Some(old(free)[0])
      ensures r == 0 ==> View() == SetUp(old(View()), e, kernPgdir[UVPT_PDX := MakeEntry(old(free)[0], 4)])
    {
      ghost var s := View();
      var pp := PageAlloc(true, extra);
      if pp.None? { return -E_NO_MEM; }
      var p := pp.value;
      envPgdir[e] := Some(p);
      IncRef(p, Directory);
      CopyKernelHalf(p);
      NewDirectoryOk(kernPgdir, p);
      SetUpInSteps(s, e, kernPgdir[UVPT_PDX := MakeEntry(p, 4)]);
      SetUpInv(s, extra, e, kernPgdir[UVPT_PDX := MakeEntry(p, 4)]);
      return 0;
    }

    // What env_free may have done to the page tables under directory d: nobody else's
    // mappings changed, and every count fell by as much as d's share of it.
    ghost predicate Emptying(s: Vm, d: nat)
      requires |s.refs| == |s.mem| == |s.role| && d < |s.mem|
      reads this, ppRef, mem, envPgdir
    {
      var t := View();
      && KeepsData(s, t) && OthersSame(s, t, d) && HeldPages(t) == HeldPages(s) && |t.refs| == |s.refs|
      && IsDir(t, d) && SharesKept(s, t, d)
    }

    ghost predicate SlotsGone(d: nat, k: nat)
      requires d < mem.Length && k <= UTOP_PDX
      reads mem
    {
      forall i :: 0 <= i < k ==> !Present(mem[d][i])
    }

    // kern/env.c:445
    method UnmapEntry(d: nat, k: nat, j: nat, ghost s: Vm, ghost extra: multiset<nat>)
      requires Valid(extra) && |s.refs| == |s.mem| == |s.role| && IsDir(s, d) && k < UTOP_PDX && Emptying(s, d)
      requires j < NPTENTRIES && Present(mem[d][k]) && Frame(mem[d][k]) < mem.Length && Present(mem[Frame(mem[d][k])][j])
      modifies `pageFreeList, `role, `free, ppRef, ppLink, mem
      ensures Valid(extra) && Emptying(s, d) && mem[d] == old(mem[d])
      ensures var pt := Frame(mem[d][k]); role[pt] == Table && mem[pt] == old(mem[pt])[j := 0]
    {
      ghost var t := View();
      var va := k * PTSIZE + j * PGSIZE;
      SlotGone(s, t, extra, d, k, j, va);
      PageRemove(d, va, extra);
      assert View() == Removed(t, d, Vpn(va));
      SharesKeptTwice(s, t, View(), d);
    }

    ghost predicate EntriesGone(t: nat, j: nat)
      requires t < mem.Length && j <= NPTENTRIES
      reads mem
    {
      forall i :: 0 <= i < j ==> !Present(mem[t][i])
    }

    // kern/env.c:444-445: one round of env_free's loop over the entries of a table
    method FreeEntry(d: nat, k: nat, j: nat, ghost s: Vm, ghost extra: multiset<nat>)
      requires Valid(extra) && |s.refs| == |s.mem| == |s.role| && IsDir(s, d) && k < UTOP_PDX && Emptying(s, d)
      requires j < NPTENTRIES && Present(mem[d][k]) && Frame(mem[d][k]) < mem.Length && EntriesGone(Frame(mem[d][k]), j)
      modifies `pageFreeList, `role, `free, ppRef, ppLink, mem
      ensures Valid(extra) && Emptying(s, d) && mem[d] == old(mem[d]) && EntriesGone(Frame(mem[d][k]), j + 1)
    {
      ghost var before := mem[Frame(mem[d][k])];
      if Present(mem[Frame(mem[d][k])][j]) {
        UnmapEntry(d, k, j, s, extra);
        assert mem[Frame(mem[d][k])] == before[j := 0];
      }
      assert !Present(mem[Frame(mem[d][k])][j]) && forall i :: 0 <= i < j ==> mem[Frame(mem[d][k])][i] == before[i];
    }

    // kern/env.c:442-446: unmap all entries of the page table in slot k
    method EmptySlot(d: nat, k: nat, ghost s: Vm, ghost extra: multiset<nat>)
      requires Valid(extra) && |s.refs| == |s.mem| == |s.role| && IsDir(s, d) && k < UTOP_PDX && Emptying(s, d)
      requires Present(mem[d][k])
      modifies `pageFreeList, `role, `free, ppRef, ppLink, mem
      ensures Valid(extra) && Emptying(s, d) && mem[d] == old(mem[d])
      ensures Frame(mem[d][k]) < mem.Length && EmptyTable(View(), Frame(mem[d][k]))
    {
      var pt := Frame(mem[d][k]);
      assert EntryTyped(View(), d, k);
      for j := 0 to NPTENTRIES
        invariant Valid(extra) && Emptying(s, d) && mem[d] == old(mem[d]) && EntriesGone(pt, j)
      {
        FreeEntry(d, k, j, s, extra);
      }
    }

    // kern/env.c:449-450: free the page table itself
    method UnhookTable(d: nat, k: nat, ghost s: Vm, ghost extra: multiset<nat>)
      requires Valid(extra) && |s.refs| == |s.mem| == |s.role| && IsDir(s, d) && k < UTOP_PDX && Emptying(s, d)
      requires Present(mem[d][k]) && Frame(mem[d][k]) < mem.Length && EmptyTable(View(), Frame(mem[d][k]))
      modifies `pageFreeList, `role, `free, ppRef, ppLink, mem
      ensures Valid(extra) && Emptying(s, d) && mem[d] == old(mem[d])[k := 0]
    {
      ghost var t := View();
      SlotUnhooked(s, t, extra, d, k);
      UnhookedInv(t, extra, d, k);
      var pa := Frame(mem[d][k]);
      Store(d, k, 0);
      PageDecref(pa, extra + multiset{pa});
      assert View() == Unhooked(t, d, k);
      SharesKeptTwice(s, t, View(), d);
    }

    // kern/env.c:434-450: one round of env_free's loop over directory slots
    method FreeSlot(d: nat, k: nat, ghost s: Vm, ghost extra: multiset<nat>)
      requires Valid(extra) && |s.refs| == |s.mem| == |s.role| && IsDir(s, d) && k < UTOP_PDX && Emptying(s, d)
      requires SlotsGone(d, k)
      modifies `pageFreeList, `role, `free, ppRef, ppLink, mem
      ensures Valid(extra) && Emptying(s, d) && SlotsGone(d, k + 1)
    {
      ghost var before := mem[d];
      if Present(mem[d][k]) {
        EmptySlot(d, k, s, extra);
        UnhookTable(d, k, s, extra);
        assert mem[d] == before[k := 0];
      }
      assert !Present(mem[d][k]) && forall i :: 0 <= i < k ==> mem[d][i] == before[i];
    }

    // kern/env.c:454-456: free the page directory
    method DropDirectory(e: nat, d: nat, ghost s: Vm, ghost extra: multiset<nat>)
      requires Valid(extra) && e < envPgdir.Length && envPgdir[e] == Some(d)
      requires Inv(s, extra) && s.dirs == View().dirs && d < |s.mem| && Emptying(s, d) && SlotsGone(d, UTOP_PDX)
      modifies `pageFreeList, `role, `free, ppRef, ppLink, envPgdir
      ensures Valid(extra) && envPgdir[..] == old(envPgdir[..])[e := None]
      ensures ShareReturned(s, View(), e) && OthersSame(s, View(), d) && HeldPages(View()) == HeldPages(s)
      ensures forall q :: 0 <= q < |s.role| ==> (s.role[q] == Reserved <==> role[q] == Reserved)
      ensures forall q :: 0 <= q < |s.role| && s.role[q] == Data == role[q] ==> mem[q] == s.mem[q]
    {
      ghost var t := View();
      OrphanedInv(t, extra, e);
      DirectoryReturned(s, t, extra, e, d);
      envPgdir[e] := None;
      assert View() == Orphaned(t, e);
      PageDecref(d, extra + multiset{d});
      assert View() == DropRef(Orphaned(t, e), d);
      assert extra + multiset{d} - multiset{d} == extra;
    }

    // kern/env.c:415-456, the part of env_free that concerns memory
    method EnvFreeVm(e: nat, ghost extra: multiset<nat>)
      requires Valid(extra) && e < envPgdir.Length && envPgdir[e].Some?
      modifies `pageFreeList, `role, `free, ppRef, ppLink, mem, envPgdir
      ensures Valid(extra) && envPgdir[..] == old(envPgdir[..])[e := None]
      ensures ShareReturned(old(View()), View(), e)
      ensures old(envPgdir[e]).value < mem.Length && OthersSame(old(View()), View(), old(envPgdir[e]).value)
      ensures HeldPages(View()) == old(HeldPages(View()))
      ensures forall q :: 0 <= q < mem.Length && old(role)[q] == Data == role[q] ==> mem[q] == old(mem[q])
      ensures Elements(free) == old(Elements(free)) + old(OnlyHeldBy(View(), e))
      ensures |free| == |old(free)| + |old(OnlyHeldBy(View(), e))|
    {
      var d := envPgdir[e].value;
      ghost var s := View();
      assert DirTyped(s, e);
      for k := 0 to UTOP_PDX
        modifies `pageFreeList, `role, `free, ppRef, ppLink, mem
        invariant Valid(extra) && Emptying(s, d) && SlotsGone(d, k)
      {
        FreeSlot(d, k, s, extra);
      }
      DropDirectory(e, d, s, extra);
      FreeListGains(s, View(), extra, e);
    }
  }
}
