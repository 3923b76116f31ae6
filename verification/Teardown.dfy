/** Building and tearing down an address space (env_setup_vm and env_free in kern/env.c), on
    values: how many references to each page one environment holds, and how that number
    moves when one of its mappings, tables or its directory goes. */
module Teardown {
  import opened Mmu
  import opened PageTables
  import opened AddressSpaces
  import opened PageSteps

  // The references that hang below one directory slot: the table itself and its entries.
  ghost function SlotRefs(s: Vm, w: Word, p: nat): nat {
    if Present(w) && Frame(w) < |s.mem| then Hit(w, p) + RefsIn(s.mem[Frame(w)], NPTENTRIES, p) else 0
  }

  ghost function TreeRefs(s: Vm, d: nat, n: nat, p: nat): nat
    requires d < |s.mem| && n <= UTOP_PDX
  {
    if n == 0 then 0 else TreeRefs(s, d, n - 1, p) + SlotRefs(s, s.mem[d][n - 1], p)
  }

  // All references to p that environment e is responsible for.
  ghost function OwnRefs(s: Vm, e: nat, p: nat): nat
    requires e < |s.dirs|
  {
    if s.dirs[e].Some? && s.dirs[e].value < |s.mem|
    then DirHit(s.dirs[e], p) + TreeRefs(s, s.dirs[e].value, UTOP_PDX, p) else 0
  }

  // ---------------------------------------------------------------- env_setup_vm

  function SetUp(s: Vm, e: nat, page: Page): Vm
    requires s.free != [] && s.free[0] < |s.mem| == |s.role| == |s.refs| && e < |s.dirs|
  {
    s.(refs := s.refs[s.free[0] := 1], mem := s.mem[s.free[0] := page], role := s.role[s.free[0] := Directory],
       free := s.free[1..], dirs := s.dirs[e := Some(s.free[0])])
  }

  // Take a page, store the pointer to it, count it, fill it: the order of env_setup_vm.
  lemma SetUpInSteps(s: Vm, e: nat, page: Page)
    requires s.free != [] && s.free[0] < |s.mem| == |s.role| == |s.refs| && e < |s.dirs| && s.refs[s.free[0]] == 0
    ensures
      var p := s.free[0];
      var t := TakeFree(s, true);
      var u := AddRef(t.(dirs := t.dirs[e := Some(p)]), p, Directory);
      u.(mem := u.mem[p := page]) == SetUp(s, e, page)
  {
    var p := s.free[0];
    assert s.role[p := Held][p := Directory] == s.role[p := Directory];
    assert s.mem[p := ZeroPage()][p := page] == s.mem[p := page];
  }

  // The user half is empty, the kernel half is kern_pgdir's but for the slot at UVPT.
  ghost predicate IsNewDirectory(kern: Page, d: nat, page: Page) {
    forall i {:trigger SlotOk(kern, d, i, page[i])} :: 0 <= i < NPTENTRIES ==> SlotOk(kern, d, i, page[i])
  }

  lemma NewDirectoryOk(kern: KernDir, d: nat)
    requires d < 0x10_0000
    ensures IsNewDirectory(kern, d, kern[UVPT_PDX := MakeEntry(d, 4)])
  {
    EntryBits(d, 4);
  }

  lemma SetUpInv(s: Vm, extra: multiset<nat>, e: nat, page: Page)
    requires Inv(s, extra) && s.free != [] && e < |s.dirs| && s.dirs[e].None?
    requires forall i :: 0 <= i < UTOP_PDX ==> !Present(page[i])
    requires IsNewDirectory(s.kern, s.free[0], page)
    ensures s.free[0] < |s.mem| && s.role[s.free[0]] == Free && s.refs[s.free[0]] == 0
    ensures Inv(SetUp(s, e, page), extra)
    ensures HeldPages(SetUp(s, e, page)) == HeldPages(s)
  {
    TakeFreeShape(s, true);
    var p := s.free[0];
    assert RefRange(s, p);
    var s1 := TakeFree(s, true);
    var t := SetUp(s, e, page);
    forall q | 0 <= q < |t.role| ensures OnListIffFree(t, q) { assert OnListIffFree(s1, q); }
    forall g, j | 0 <= g < |t.mem| && 0 <= j < NPTENTRIES ensures EntryTyped(t, g, j) {
      assert EntryTyped(s, g, j);
      assert g == p ==> SlotOk(s.kern, p, j, page[j]);
    }
    forall k | 0 <= k < |t.dirs| ensures DirTyped(t, k) { assert DirTyped(s, k); }
    forall q | 0 <= q < |t.role| ensures RefRange(t, q) { assert RefRange(s, q); }
    forall q | 0 <= q < |t.role| ensures Exact(t, extra, q) {
      assert Exact(s, extra, q);
      TotalAfter(s, p, page, Directory, q);
      RefsInNone(page, UTOP_PDX, q);
      CountDirsUpdate(s.dirs, e, Some(p), |s.dirs|, q);
    }
  }

  lemma SetUpSpaces(s: Vm, extra: multiset<nat>, e: nat, page: Page)
    requires Inv(s, extra) && s.free != [] && e < |s.dirs| && s.dirs[e].None?
    requires forall i :: 0 <= i < UTOP_PDX ==> !Present(page[i])
    requires s.free[0] < |s.mem| && s.role[s.free[0]] == Free
    ensures AddrSpace(SetUp(s, e, page), s.free[0]) == map[]
    ensures AllSame(s, SetUp(s, e, page))
  {
    var t := SetUp(s, e, page);
    forall d': nat | IsDir(s, d') ensures AddrSpace(t, d') == AddrSpace(s, d') {
      forall k | 0 <= k < UTOP_PDX && Present(s.mem[d'][k]) && Frame(s.mem[d'][k]) < |s.mem|
        ensures t.mem[Frame(s.mem[d'][k])] == s.mem[Frame(s.mem[d'][k])]
      {
        assert EntryTyped(s, d', k);
      }
      SameTablesSameSpaces(s, t, d');
    }
  }

  // ---------------------------------------------------------------- one mapping goes

  lemma {:induction false} TreeAfterWrite(s: Vm, extra: multiset<nat>, d: nat, v: nat, n: nat, q: nat)
    requires Inv(s, extra) && IsDir(s, d) && v < USER_PAGES && n <= UTOP_PDX
    requires Present(s.mem[d][v / NPTENTRIES]) && Frame(s.mem[d][v / NPTENTRIES]) < |s.mem|
    ensures
      var f := Frame(s.mem[d][v / NPTENTRIES]);
      TreeRefs(WriteWord(s, f, v % NPTENTRIES, 0), d, n, q)
        == TreeRefs(s, d, n, q) - (if v / NPTENTRIES < n then Hit(s.mem[f][v % NPTENTRIES], q) else 0)
  {
    if n > 0 {
      var f := Frame(s.mem[d][v / NPTENTRIES]);
      assert EntryTyped(s, d, v / NPTENTRIES) && EntryTyped(s, d, n - 1);
      TreeAfterWrite(s, extra, d, v, n - 1, q);
      RefsInUpdate(s.mem[f], v % NPTENTRIES, 0, NPTENTRIES, q);
      if Present(s.mem[d][n - 1]) && Frame(s.mem[d][n - 1]) == f {
        TableHasOneParent(s, extra, d, v / NPTENTRIES, d, n - 1);
      }
    }
  }

  lemma {:induction false} TreeOfMem(s: Vm, t: Vm, d: nat, n: nat, q: nat)
    requires s.mem == t.mem && d < |s.mem| && n <= UTOP_PDX
    ensures TreeRefs(t, d, n, q) == TreeRefs(s, d, n, q)
  {
    if n > 0 { TreeOfMem(s, t, d, n - 1, q); }
  }

  // page_remove takes as much off a page's count as off the environment's share of it.
  lemma RemovedShare(s: Vm, extra: multiset<nat>, d: nat, v: nat, q: nat)
    requires Inv(s, extra) && IsDir(s, d) && v < USER_PAGES && q < |s.refs|
    ensures |Removed(s, d, v).refs| == |s.refs| && |Removed(s, d, v).mem| == |s.mem|
    ensures s.refs[q] - TreeRefs(s, d, UTOP_PDX, q)
         == Removed(s, d, v).refs[q] - TreeRefs(Removed(s, d, v), d, UTOP_PDX, q)
  {
    if Mapped(s, d, v) {
      MappedIsData(s, extra, d, v);
      var s1 := WriteWord(s, Frame(s.mem[d][v / NPTENTRIES]), v % NPTENTRIES, 0);
      TreeAfterWrite(s, extra, d, v, UTOP_PDX, q);
      TreeOfMem(s1, Removed(s, d, v), d, UTOP_PDX, q);
    }
  }

  // ---------------------------------------------------------------- one table goes

  // The state after an emptied table is unhooked from slot k and its page given back.
  ghost function Unhooked(s: Vm, d: nat, k: nat): Vm
    requires d < |s.mem| == |s.role| == |s.refs| && k < UTOP_PDX
  {
    if Frame(s.mem[d][k]) < |s.refs| && s.refs[Frame(s.mem[d][k])] > 0
    then DropRef(WriteWord(s, d, k, 0), Frame(s.mem[d][k])) else s
  }

  ghost predicate EmptyTable(s: Vm, t: nat)
    requires t < |s.mem|
  {
    forall j :: 0 <= j < NPTENTRIES ==> !Present(s.mem[t][j])
  }

  lemma UnhookedInv(s: Vm, extra: multiset<nat>, d: nat, k: nat)
    requires Inv(s, extra) && IsDir(s, d) && k < UTOP_PDX && Present(s.mem[d][k])
    requires Frame(s.mem[d][k]) < |s.mem| ==> EmptyTable(s, Frame(s.mem[d][k]))
    ensures Frame(s.mem[d][k]) < |s.mem| && s.refs[Frame(s.mem[d][k])] == 1 && s.role[Frame(s.mem[d][k])] == Table
    ensures Inv(WriteWord(s, d, k, 0), extra + multiset{Frame(s.mem[d][k])})
    ensures Inv(Unhooked(s, d, k), extra)
    ensures KeepsData(s, Unhooked(s, d, k)) && HeldPages(Unhooked(s, d, k)) == HeldPages(s)
  {
    assert EntryTyped(s, d, k);
    var t := Frame(s.mem[d][k]);
    assert RefRange(s, t);
    WriteKeepsInv(s, extra, d, k, 0);
    DropRefKeepsInv(WriteWord(s, d, k, 0), extra + multiset{t}, t);
    assert extra + multiset{t} - multiset{t} == extra;
  }

  lemma UnhookedSpaces(s: Vm, extra: multiset<nat>, d: nat, k: nat)
    requires Inv(s, extra) && IsDir(s, d) && k < UTOP_PDX && Present(s.mem[d][k])
    requires Frame(s.mem[d][k]) < |s.mem| ==> EmptyTable(s, Frame(s.mem[d][k]))
    ensures AllSame(s, Unhooked(s, d, k))
  {
    assert EntryTyped(s, d, k);
    assert RefRange(s, Frame(s.mem[d][k]));
    var t := Unhooked(s, d, k);
    forall d': nat | IsDir(s, d') ensures AddrSpace(t, d') == AddrSpace(s, d') {
      forall v: nat | v < USER_PAGES
        ensures Mapped(t, d', v) == Mapped(s, d', v) && (Mapped(s, d', v) ==> EntryOf(t, d', v) == EntryOf(s, d', v))
      {
        assert EntryTyped(s, d', v / NPTENTRIES);
        if d' == d && v / NPTENTRIES == k { assert t.mem[d][k] == 0; }
      }
    }
  }

  lemma {:induction false} TreeAfterUnhook(s: Vm, d: nat, k: nat, n: nat, q: nat)
    requires IsDir(s, d) && |s.refs| == |s.mem| && k < UTOP_PDX && n <= UTOP_PDX
    requires forall i {:trigger s.mem[d][i]} ::
               0 <= i < UTOP_PDX && Present(s.mem[d][i]) ==> Frame(s.mem[d][i]) < |s.mem| && s.role[Frame(s.mem[d][i])] == Table
    ensures TreeRefs(WriteWord(s, d, k, 0), d, n, q)
         == TreeRefs(s, d, n, q) - (if k < n then SlotRefs(s, s.mem[d][k], q) else 0)
  {
    if n > 0 { TreeAfterUnhook(s, d, k, n - 1, q); }
  }

  lemma UnhookedShare(s: Vm, extra: multiset<nat>, d: nat, k: nat, q: nat)
    requires Inv(s, extra) && IsDir(s, d) && k < UTOP_PDX && Present(s.mem[d][k]) && q < |s.refs|
    requires Frame(s.mem[d][k]) < |s.mem| ==> EmptyTable(s, Frame(s.mem[d][k]))
    ensures |Unhooked(s, d, k).refs| == |s.refs| && |Unhooked(s, d, k).mem| == |s.mem|
    ensures s.refs[q] - TreeRefs(s, d, UTOP_PDX, q)
         == Unhooked(s, d, k).refs[q] - TreeRefs(Unhooked(s, d, k), d, UTOP_PDX, q)
  {
    UnhookedInv(s, extra, d, k);
    forall i | 0 <= i < UTOP_PDX && Present(s.mem[d][i])
      ensures Frame(s.mem[d][i]) < |s.mem| && s.role[Frame(s.mem[d][i])] == Table
    {
      assert EntryTyped(s, d, i);
    }
    TreeAfterUnhook(s, d, k, UTOP_PDX, q);
    RefsInNone(s.mem[Frame(s.mem[d][k])], NPTENTRIES, q);
    TreeOfMem(WriteWord(s, d, k, 0), Unhooked(s, d, k), d, UTOP_PDX, q);
  }

  // ---------------------------------------------------------------- the directory goes

  ghost function Orphaned(s: Vm, e: nat): Vm
    requires e < |s.dirs|
  {
    s.(dirs := s.dirs[e := None])
  }

  lemma OrphanedInv(s: Vm, extra: multiset<nat>, e: nat)
    requires Inv(s, extra) && e < |s.dirs| && s.dirs[e].Some?
    ensures s.dirs[e].value < |s.mem| && s.role[s.dirs[e].value] == Directory && s.refs[s.dirs[e].value] == 1
    ensures Inv(Orphaned(s, e), extra + multiset{s.dirs[e].value})
  {
    assert DirTyped(s, e);
    var d := s.dirs[e].value;
    assert RefRange(s, d);
    var t := Orphaned(s, e);
    forall q | 0 <= q < |t.role| ensures OnListIffFree(t, q) { assert OnListIffFree(s, q); }
    forall g, j | 0 <= g < |t.mem| && 0 <= j < NPTENTRIES ensures EntryTyped(t, g, j) { assert EntryTyped(s, g, j); }
    forall k | 0 <= k < |t.dirs| ensures DirTyped(t, k) { assert DirTyped(s, k); }
    forall q | 0 <= q < |t.role| ensures RefRange(t, q) { assert RefRange(s, q); }
    forall q | 0 <= q < |t.role| ensures Exact(t, extra + multiset{d}, q) {
      assert Exact(s, extra, q);
      CountDirsUpdate(s.dirs, e, None, |s.dirs|, q);
    }
  }

  lemma {:induction false} TreeOfEmpty(s: Vm, d: nat, n: nat, q: nat)
    requires d < |s.mem| && n <= UTOP_PDX && forall i :: 0 <= i < UTOP_PDX ==> !Present(s.mem[d][i])
    ensures TreeRefs(s, d, n, q) == 0
  {
    if n > 0 { TreeOfEmpty(s, d, n - 1, q); }
  }

  // ---------------------------------------------------------------- conservation

  // The pages that environment e alone keeps in use.
  ghost function OnlyHeldBy(s: Vm, e: nat): set<nat>
    requires e < |s.dirs| && |s.refs| == |s.role|
  {
    set p | 0 <= p < |s.role| && s.role[p] != Reserved && s.refs[p] > 0 && s.refs[p] == OwnRefs(s, e, p)
  }

  ghost predicate ShareReturned(s: Vm, t: Vm, e: nat)
    requires e < |s.dirs|
  {
    |t.refs| == |s.refs| == |s.role| && forall p {:trigger OwnRefs(s, e, p)} ::
      0 <= p < |s.refs| && s.role[p] != Reserved ==> t.refs[p] == s.refs[p] - OwnRefs(s, e, p)
  }

  ghost function Elements(l: seq<nat>): set<nat> { set x | x in l }

  lemma {:induction false} DistinctSize(l: seq<nat>)
    requires forall i, j :: 0 <= i < j < |l| ==> l[i] != l[j]
    ensures |Elements(l)| == |l|
  {
    if l != [] {
      DistinctSize(l[1..]);
      assert l[0] !in Elements(l[1..]);
      assert Elements(l) == {l[0]} + Elements(l[1..]);
    }
  }

  lemma FreedPage(s: Vm, t: Vm, extra: multiset<nat>, e: nat, p: nat)
    requires Inv(s, extra) && Inv(t, extra) && e < |s.dirs| && ShareReturned(s, t, e)
    requires HeldPages(s) == HeldPages(t) && p < |s.role| == |t.role|
    requires s.role[p] == Reserved <==> t.role[p] == Reserved
    ensures p in t.free <==> p in s.free || p in OnlyHeldBy(s, e)
    ensures !(p in s.free && p in OnlyHeldBy(s, e))
  {
    assert OnListIffFree(s, p) && OnListIffFree(t, p) && RefRange(s, p) && RefRange(t, p);
    assert p in HeldPages(s) <==> p in HeldPages(t);
    assert OwnRefs(s, e, p) >= 0;
  }

  // If every page lost exactly e's share of its references, then the free list gained exactly
  // the pages that nobody else referred to.
  lemma FreeListGains(s: Vm, t: Vm, extra: multiset<nat>, e: nat)
    requires Inv(s, extra) && Inv(t, extra) && e < |s.dirs| && ShareReturned(s, t, e)
    requires HeldPages(s) == HeldPages(t)
    requires forall q :: 0 <= q < |s.role| ==> (s.role[q] == Reserved <==> t.role[q] == Reserved)
    ensures Elements(t.free) == Elements(s.free) + OnlyHeldBy(s, e)
    ensures |t.free| == |s.free| + |OnlyHeldBy(s, e)|
  {
    forall p: nat
      ensures p in t.free <==> p in s.free || p in OnlyHeldBy(s, e)
      ensures !(p in s.free && p in OnlyHeldBy(s, e))
    {
      if p < |s.role| { FreedPage(s, t, extra, e, p); }
    }
    DistinctSize(s.free);
    DistinctSize(t.free);
    assert Elements(s.free) !! OnlyHeldBy(s, e);
  }

  // ---------------------------------------------------------------- the steps of env_free

  // From s to t the count of page q fell by as much as directory d's share of it.
  ghost predicate ShareKept(s: Vm, t: Vm, d: nat, q: nat)
    requires d < |s.mem| && d < |t.mem| && q < |s.refs| == |t.refs|
  {
    s.refs[q] - TreeRefs(s, d, UTOP_PDX, q) == t.refs[q] - TreeRefs(t, d, UTOP_PDX, q)
  }

  ghost predicate SharesKept(s: Vm, t: Vm, d: nat)
    requires d < |s.mem| && d < |t.mem| && |s.refs| == |t.refs|
  {
    forall q {:trigger ShareKept(s, t, d, q)} :: 0 <= q < |s.refs| ==> ShareKept(s, t, d, q)
  }

  lemma SharesKeptTwice(s: Vm, t: Vm, u: Vm, d: nat)
    requires d < |s.mem| && d < |t.mem| && d < |u.mem| && |s.refs| == |t.refs| == |u.refs|
    requires SharesKept(s, t, d) && SharesKept(t, u, d)
    ensures SharesKept(s, u, d)
  {
    forall q | 0 <= q < |s.refs| ensures ShareKept(s, u, d, q) {
      assert ShareKept(s, t, d, q) && ShareKept(t, u, d, q);
    }
  }

  // One page_remove inside env_free: table k of directory d loses entry j and nothing else.
  lemma SlotGone(s: Vm, t: Vm, extra: multiset<nat>, d: nat, k: nat, j: nat, va: Word)
    requires Inv(t, extra) && IsDir(t, d) && k < UTOP_PDX && j < NPTENTRIES && va == k * PTSIZE + j * PGSIZE
    requires Present(t.mem[d][k]) && Frame(t.mem[d][k]) < |t.mem| && Present(t.mem[Frame(t.mem[d][k])][j])
    requires |s.mem| == |t.mem| == |s.role| && KeepsData(s, t) && OthersSame(s, t, d) && |s.refs| == |t.refs|
    ensures va < UTOP && Vpn(va) == k * NPTENTRIES + j && Vpn(va) < USER_PAGES
    ensures
      var u := Removed(t, d, Vpn(va));
      && KeepsData(s, u) && OthersSame(s, u, d) && u.mem[d] == t.mem[d] && IsDir(u, d) && |u.refs| == |t.refs|
      && u.mem[Frame(t.mem[d][k])] == t.mem[Frame(t.mem[d][k])][j := 0]
      && u.role[Frame(t.mem[d][k])] == Table
      && SharesKept(t, u, d)
  {
    assert Vpn(va) / NPTENTRIES == k && Vpn(va) % NPTENTRIES == j;
    MappedIsData(t, extra, d, Vpn(va));
    RemovedData(t, extra, d, Vpn(va));
    RemovedSpaces(t, extra, d, Vpn(va));
    var u := Removed(t, d, Vpn(va));
    forall q | 0 <= q < |t.refs| ensures ShareKept(t, u, d, q) {
      RemovedShare(t, extra, d, Vpn(va), q);
    }
    forall d': nat | IsDir(s, d') && d' != d ensures AddrSpace(u, d') == AddrSpace(s, d') {
      assert IsDir(t, d');
    }
  }

  lemma SlotUnhooked(s: Vm, t: Vm, extra: multiset<nat>, d: nat, k: nat)
    requires Inv(t, extra) && IsDir(t, d) && k < UTOP_PDX && Present(t.mem[d][k])
    requires Frame(t.mem[d][k]) < |t.mem| && EmptyTable(t, Frame(t.mem[d][k]))
    requires |s.mem| == |t.mem| == |s.role| && KeepsData(s, t) && OthersSame(s, t, d) && |s.refs| == |t.refs|
    ensures
      var u := Unhooked(t, d, k);
      && KeepsData(s, u) && OthersSame(s, u, d) && u.mem[d] == t.mem[d][k := 0] && IsDir(u, d)
      && HeldPages(u) == HeldPages(t) && |u.refs| == |t.refs| && SharesKept(t, u, d)
  {
    UnhookedInv(t, extra, d, k);
    UnhookedSpaces(t, extra, d, k);
    var u := Unhooked(t, d, k);
    forall q | 0 <= q < |t.refs| ensures ShareKept(t, u, d, q) {
      UnhookedShare(t, extra, d, k, q);
    }
    forall d': nat | IsDir(s, d') && d' != d ensures AddrSpace(u, d') == AddrSpace(s, d') {
      assert IsDir(t, d');
    }
  }

  // With all slots empty, dropping the directory itself returns the rest of the share.
  lemma DirectoryReturned(s: Vm, t: Vm, extra: multiset<nat>, e: nat, d: nat)
    requires Inv(s, extra) && Inv(t, extra) && e < |s.dirs| && s.dirs[e] == Some(d) && s.dirs == t.dirs && d < |s.mem|
    requires |t.mem| == |s.mem| && KeepsData(s, t) && OthersSame(s, t, d) && IsDir(t, d)
    requires forall i :: 0 <= i < UTOP_PDX ==> !Present(t.mem[d][i])
    requires SharesKept(s, t, d) && HeldPages(s) == HeldPages(t)
    ensures t.refs[d] == 1 && |Orphaned(t, e).role| == |t.role|
    ensures
      var u := DropRef(Orphaned(t, e), d);
      && ShareReturned(s, u, e) && OthersSame(s, u, d) && HeldPages(u) == HeldPages(s)
      && (forall q :: 0 <= q < |s.role| ==> (s.role[q] == Reserved <==> u.role[q] == Reserved))
      && (forall q :: 0 <= q < |s.role| && s.role[q] == Data == u.role[q] ==> u.mem[q] == s.mem[q])
  {
    OrphanedInv(t, extra, e);
    var u := DropRef(Orphaned(t, e), d);
    forall p | 0 <= p < |s.refs| && s.role[p] != Reserved
      ensures u.refs[p] == s.refs[p] - OwnRefs(s, e, p)
    {
      TreeOfEmpty(t, d, UTOP_PDX, p);
      assert ShareKept(s, t, d, p);
    }
    forall d': nat | IsDir(s, d') && d' != d ensures AddrSpace(u, d') == AddrSpace(s, d') {
      SpaceOfMem(t, u, d');
    }
  }
}
