/** What a user program does to memory without a system call: the stores its page tables let
    through, word by word. */
module UserMemory {
  import opened Mmu
  import opened PageTables
  import opened AddressSpaces
  import opened PageSteps
  import opened Pmap
  import opened Syscalls
  import opened Paging

  // ---------------------------------------------------------------- a store to a user page

  // The contents of user pages are no references.
  lemma DataWriteTotal(s: Vm, f: nat, pg: Page, p: nat)
    requires f < |s.mem| == |s.role| && s.role[f] == Data
    ensures Total(s.(mem := s.mem[f := pg]), p) == Total(s, p)
  {
    TotalAfter(s, f, pg, Data, p);
    assert s.role[f := Data] == s.role;
  }

  lemma DataWriteInv(s: Vm, extra: multiset<nat>, f: nat, pg: Page)
    requires Inv(s, extra) && f < |s.mem| && s.role[f] == Data
    ensures Inv(s.(mem := s.mem[f := pg]), extra) && HeldPages(s.(mem := s.mem[f := pg])) == HeldPages(s)
  {
    var t := s.(mem := s.mem[f := pg]);
    forall p | 0 <= p < |s.role| ensures OnListIffFree(t, p) { assert OnListIffFree(s, p); }
    forall g, j | 0 <= g < |t.mem| && 0 <= j < NPTENTRIES ensures EntryTyped(t, g, j) { assert EntryTyped(s, g, j); }
    forall e | 0 <= e < |t.dirs| ensures DirTyped(t, e) { assert DirTyped(s, e); }
    forall p | 0 <= p < |t.role| ensures RefRange(t, p) { assert RefRange(s, p); }
    forall p | 0 <= p < |t.role| ensures Exact(t, extra, p) {
      assert Exact(s, extra, p);
      DataWriteTotal(s, f, pg, p);
    }
  }

  lemma DataWriteSpaces(s: Vm, extra: multiset<nat>, f: nat, pg: Page)
    requires Inv(s, extra) && f < |s.mem| && s.role[f] == Data
    ensures SpacesSame(s, s.(mem := s.mem[f := pg]))
  {
    var t := s.(mem := s.mem[f := pg]);
    forall e: nat ensures Space(t, e) == Space(s, e) {
      if e < |s.dirs| && s.dirs[e].Some? {
        var d := s.dirs[e].value;
        assert DirTyped(s, e);
        forall k | 0 <= k < UTOP_PDX && Present(s.mem[d][k]) && Frame(s.mem[d][k]) < |s.mem|
          ensures t.mem[Frame(s.mem[d][k])] == s.mem[Frame(s.mem[d][k])]
        {
          assert EntryTyped(s, d, k);
        }
        SameTablesSameSpaces(s, t, d);
      }
    }
  }

  lemma UserBit(w: Word)
    ensures User(w) <==> Perm(w) / 4 % 2 == 1
  {
    PermBits(w);
  }

  // What the flat map permits a program.
  ghost predicate Readable(s: Vm, e: nat, v: nat) { v in Space(s, e) && Space(s, e)[v].perm / 4 % 2 == 1 }
  ghost predicate MayWrite(s: Vm, e: nat, v: nat) { Readable(s, e, v) && Space(s, e)[v].perm / 2 % 2 == 1 }

  // The directory of an environment in use.
  ghost predicate HasDir(s: Vm, e: nat) { e < |s.dirs| && s.dirs[e].Some? && s.dirs[e].value < |s.mem| }

  // It permits exactly what the paging unit allows.
  lemma FlatAccess(s: Vm, e: nat, va: Word, write: bool)
    requires Inv(s, multiset{}) && HasDir(s, e) && va < UTOP
    ensures Allows(s.mem, s.dirs[e].value, va, write) <==>
              if write then MayWrite(s, e, Vpn(va)) else Readable(s, e, Vpn(va))
    ensures Allows(s.mem, s.dirs[e].value, va, write) ==>
              && Allows(s.mem, s.dirs[e].value, va, false)
              && PageAt(s.mem, s.dirs[e].value, va) == Space(s, e)[Vpn(va)].page
  {
    assert DirTyped(s, e);
    UserAccess(s, multiset{}, s.dirs[e].value, va, write);
  }

  // The running program has a directory.
  lemma RunningHasDir(k: System)
    requires k.Good() && k.Live(k.curenv)
    ensures HasDir(k.vm.View(), k.curenv)
  {
    assert k.EnvOk(k.curenv);
    assert DirTyped(k.vm.View(), k.curenv);
  }

  // The paging unit walks the two levels.
  method Translate(k: System, va: Word, write: bool) returns (r: Option<(nat, nat)>)
    requires k.Good() && k.Live(k.curenv)
    ensures HasDir(k.vm.View(), k.curenv)
    ensures var d := k.vm.View().dirs[k.curenv].value;
            && (r.Some? <==> Allows(k.vm.View().mem, d, va, write))
            && (r.Some? ==> Allows(k.vm.View().mem, d, va, false) && r.value == (PageAt(k.vm.View().mem, d, va), WordIn(va)))
  {
    RunningHasDir(k);
    var d := k.vm.envPgdir[k.curenv].value;
    var pde := k.vm.mem[d][Pdx(va)];
    if !Present(pde) || !User(pde) || (write && !Writable(pde)) || Frame(pde) >= k.vm.mem.Length { return None; }
    var pte := k.vm.mem[Frame(pde)][Ptx(va)];
    if !Present(pte) || !User(pte) || (write && !Writable(pte)) || Frame(pte) >= k.vm.mem.Length { return None; }
    return Some((Frame(pte), va % PGSIZE / 4));
  }

  // A store of a word by the running program.
  method UserStore(k: System, va: Word, value: Word) returns (ok: bool)
    requires k.Good() && k.Live(k.curenv) && va < UTOP && va % 4 == 0
    modifies k.vm.mem
    ensures k.Good()
    ensures HasDir(old(k.vm.View()), k.curenv)
    ensures ok <==> Allows(old(k.vm.View()).mem, old(k.vm.View()).dirs[k.curenv].value, va, true)
    ensures ok <==> MayWrite(old(k.vm.View()), k.curenv, Vpn(va))
    ensures !ok ==> k.vm.View() == old(k.vm.View())
    ensures ok ==> var p := old(Space(k.vm.View(), k.curenv))[Vpn(va)].page;
                   p < |old(k.vm.View()).mem| && k.vm.View() == WriteWord(old(k.vm.View()), p, WordIn(va), value)
  {
    ghost var s := k.vm.View();
    var found := Translate(k, va, true);
    FlatAccess(s, k.curenv, va, true);
    if found.None? { return false; }
    var (p, i) := found.value;
    SpaceIsData(s, k.curenv, Vpn(va));
    DataWriteInv(s, multiset{}, p, s.mem[p][i := value]);
    k.vm.Store(p, i, value);
    return true;
  }

  // A load, from anywhere.
  method UserLoad(k: System, va: Word) returns (value: Option<Word>)
    requires k.Good() && k.Live(k.curenv) && va % 4 == 0
    ensures HasDir(k.vm.View(), k.curenv)
    ensures value.Some? <==> Allows(k.vm.View().mem, k.vm.View().dirs[k.curenv].value, va, false)
    ensures value.Some? ==> value.value == Read(k.vm.View().mem, k.vm.View().dirs[k.curenv].value, va)
  {
    var found := Translate(k, va, false);
    if found.None? { return None; }
    var (p, i) := found.value;
    return Some(k.vm.mem[p][i]);
  }

  lemma LoadIsFlat(k: System, va: Word)
    requires k.Good() && k.Live(k.curenv) && va < UTOP
    ensures HasDir(k.vm.View(), k.curenv)
    ensures var s := k.vm.View();
            && (Allows(s.mem, s.dirs[k.curenv].value, va, false) <==> Readable(s, k.curenv, Vpn(va)))
            && (Readable(s, k.curenv, Vpn(va)) ==>
                  && Space(s, k.curenv)[Vpn(va)].page < |s.mem|
                  && Read(s.mem, s.dirs[k.curenv].value, va) == s.mem[Space(s, k.curenv)[Vpn(va)].page][WordIn(va)])
  {
    RunningHasDir(k);
    FlatAccess(k.vm.View(), k.curenv, va, false);
  }

  // The two accesses in terms of the flat map.
  method LoadBelowUtop(k: System, va: Word) returns (value: Option<Word>)
    requires k.Good() && k.Live(k.curenv) && va < UTOP && va % 4 == 0
    ensures value.Some? <==> Readable(k.vm.View(), k.curenv, Vpn(va))
    ensures value.Some? ==> var p := Space(k.vm.View(), k.curenv)[Vpn(va)].page;
                            p < |k.vm.View().mem| && value.value == k.vm.View().mem[p][WordIn(va)]
  {
    LoadIsFlat(k, va);
    value := UserLoad(k, va);
  }

  method StoreWord(k: System, va: Word, value: Word) returns (ok: bool)
    requires k.Good() && k.Live(k.curenv) && va < UTOP && va % 4 == 0
    modifies k.vm.mem
    ensures k.Good() && (ok <==> MayWrite(old(k.vm.View()), k.curenv, Vpn(va)))
    ensures !ok ==> k.vm.View() == old(k.vm.View())
    ensures ok ==> var p := old(Space(k.vm.View(), k.curenv))[Vpn(va)].page;
                   p < |old(k.vm.View()).mem| && k.vm.View() == WriteWord(old(k.vm.View()), p, WordIn(va), value)
  {
    ok := UserStore(k, va, value);
  }

  // Page f holds the first n words of page g, and its own after them.
  ghost function Half(s: Vm, f: nat, g: nat, n: nat): Vm
    requires f < |s.mem| && g < |s.mem| && n <= NPTENTRIES
  {
    s.(mem := s.mem[f := s.mem[g][..n] + s.mem[f][n..]])
  }

  lemma HalfMore(s: Vm, f: nat, g: nat, n: nat)
    requires f < |s.mem| && g < |s.mem| && n < NPTENTRIES
    ensures Half(s, f, g, n).mem[g][n] == s.mem[g][n]
    ensures WriteWord(Half(s, f, g, n), f, n, s.mem[g][n]) == Half(s, f, g, n + 1)
  {
    assert (s.mem[g][..n] + s.mem[f][n..])[n := s.mem[g][n]] == s.mem[g][..n + 1] + s.mem[f][n + 1..];
  }

  lemma WordOf(page: nat, n: nat)
    requires page < UTOP / PGSIZE && n < NPTENTRIES
    ensures var a := PGSIZE * page + 4 * n; a < UTOP && Vpn(a) == page && WordIn(a) == n && a % 4 == 0
  {
    assert PGSIZE * page + 4 * n == 4 * (1024 * page + n);
  }

  // memmove of page src onto page dst in environment e has come to word n, or cannot begin.
  ghost predicate Copying(s: Vm, t: Vm, e: nat, dst: nat, src: nat, n: nat) {
    && n <= NPTENTRIES
    && if MayCopy(s, e, dst, src) then
         var f, g := Space(s, e)[dst].page, Space(s, e)[src].page;
         f < |s.mem| == |s.role| && s.role[f] == Data && g < |s.mem| && t == Half(s, f, g, n)
       else t == s
  }

  ghost predicate MayCopy(s: Vm, e: nat, dst: nat, src: nat) { MayWrite(s, e, dst) && Readable(s, e, src) }

  lemma CopyingKeeps(s: Vm, t: Vm, e: nat, dst: nat, src: nat, n: nat)
    requires Inv(s, multiset{}) && Copying(s, t, e, dst, src, n)
    ensures MayWrite(t, e, dst) <==> MayWrite(s, e, dst)
    ensures Readable(t, e, src) <==> Readable(s, e, src)
    ensures SpacesSame(s, t)
  {
    if MayCopy(s, e, dst, src) {
      var f, g := Space(s, e)[dst].page, Space(s, e)[src].page;
      DataWriteSpaces(s, multiset{}, f, Half(s, f, g, n).mem[f]);
    }
  }

  lemma SpaceIsData(s: Vm, e: nat, v: nat)
    requires Inv(s, multiset{}) && v in Space(s, e)
    ensures Space(s, e)[v].page < |s.mem| == |s.role| && s.role[Space(s, e)[v].page] == Data
  {
    assert DirTyped(s, e);
    MappedIsData(s, multiset{}, s.dirs[e].value, v);
  }

  lemma CopyingStarts(s: Vm, e: nat, dst: nat, src: nat)
    requires Inv(s, multiset{})
    ensures Copying(s, s, e, dst, src, 0)
  {
    if MayCopy(s, e, dst, src) {
      SpaceIsData(s, e, dst);
      SpaceIsData(s, e, src);
      var f, g := Space(s, e)[dst].page, Space(s, e)[src].page;
      assert s.mem[g][..0] + s.mem[f][0..] == s.mem[f];
      assert s.mem[f := s.mem[f]] == s.mem;
    }
  }

  method CopyWord(k: System, dst: nat, src: nat, n: nat, ghost s: Vm) returns (ok: bool)
    requires k.Good() && k.Live(k.curenv) && dst < UTOP / PGSIZE && src < UTOP / PGSIZE && n < NPTENTRIES
    requires Inv(s, multiset{}) && Copying(s, k.vm.View(), k.curenv, dst, src, n)
    modifies k.vm.mem
    ensures k.Good() && (ok <==> MayCopy(s, k.curenv, dst, src))
    ensures Copying(s, k.vm.View(), k.curenv, dst, src, if ok then n + 1 else n)
  {
    WordOf(dst, n);
    WordOf(src, n);
    CopyingKeeps(s, k.vm.View(), k.curenv, dst, src, n);
    if MayCopy(s, k.curenv, dst, src) { HalfMore(s, Space(s, k.curenv)[dst].page, Space(s, k.curenv)[src].page, n); }
    var w := LoadBelowUtop(k, PGSIZE * src + 4 * n);
    ok := w.Some?;
    if ok { ok := StoreWord(k, PGSIZE * dst + 4 * n, w.value); }
  }

  // memmove of a page onto another, word by word.
  method UserCopyPage(k: System, dst: nat, src: nat) returns (ok: bool)
    requires k.Good() && k.Live(k.curenv) && dst < UTOP / PGSIZE && src < UTOP / PGSIZE
    modifies k.vm.mem
    ensures k.Good() && (ok <==> MayCopy(old(k.vm.View()), k.curenv, dst, src))
    ensures !ok ==> k.vm.View() == old(k.vm.View())
    ensures ok ==> PageCopied(old(k.vm.View()), k.vm.View(), k.curenv, dst, src)
  {
    ghost var s := k.vm.View();
    CopyingStarts(s, k.curenv, dst, src);
    var n := 0;
    while n < NPTENTRIES
      invariant 0 <= n <= NPTENTRIES && k.Good() && k.Live(k.curenv)
      invariant n > 0 ==> MayCopy(s, k.curenv, dst, src)
      invariant Copying(s, k.vm.View(), k.curenv, dst, src, n)
    {
      var stored := CopyWord(k, dst, src, n, s);
      if !stored { return false; }
      n := n + 1;
    }
    WholePage(s, k.vm.View(), k.curenv, dst, src);
    return true;
  }

  lemma WholePage(s: Vm, t: Vm, e: nat, dst: nat, src: nat)
    requires MayCopy(s, e, dst, src) && Copying(s, t, e, dst, src, NPTENTRIES)
    ensures PageCopied(s, t, e, dst, src)
  {
    var f, g := Space(s, e)[dst].page, Space(s, e)[src].page;
    assert s.mem[g][..NPTENTRIES] + s.mem[f][NPTENTRIES..] == s.mem[g];
  }

  ghost predicate PageCopied(s: Vm, t: Vm, e: nat, dst: nat, src: nat) {
    && dst in Space(s, e) && src in Space(s, e)
    && var f, g := Space(s, e)[dst].page, Space(s, e)[src].page;
       f < |s.mem| == |s.role| && s.role[f] == Data && g < |s.mem| && t == s.(mem := s.mem[f := s.mem[g]])
  }
}
