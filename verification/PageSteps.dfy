/** What the page-table functions of kern/pmap.c do as a whole, on values: grow a directory
    by a table, remove a mapping, insert a mapping.  Each keeps the counts exact and changes
    at most one virtual page of one address space. */
module PageSteps {
  import opened Mmu
  import opened PageTables
  import opened AddressSpaces

  // What no function on page tables may disturb: the environments' directories, the kernel's
  // own pages, and the contents of every page that is data before and after.
  ghost predicate KeepsData(s: Vm, t: Vm) {
    && |t.mem| == |s.mem| == |s.role| == |t.role|
    && t.dirs == s.dirs
    && (forall q :: 0 <= q < |s.mem| && s.role[q] in {Data, Held} && t.role[q] in {Data, Held} ==> t.mem[q] == s.mem[q])
    && (forall q :: 0 <= q < |s.mem| ==> (s.role[q] == Directory <==> t.role[q] == Directory))
    && (forall q :: 0 <= q < |s.mem| ==> (s.role[q] == Reserved <==> t.role[q] == Reserved))
    && (forall q :: 0 <= q < |s.mem| && s.role[q] == Reserved ==> t.mem[q] == s.mem[q])
  }

  ghost predicate OthersSame(s: Vm, t: Vm, d: nat)
    requires |t.mem| == |s.mem|
  {
    forall d': nat {:trigger AddrSpace(t, d')} :: IsDir(s, d') && d' != d ==> AddrSpace(t, d') == AddrSpace(s, d')
  }

  ghost predicate AllSame(s: Vm, t: Vm)
    requires |t.mem| == |s.mem|
  {
    forall d': nat {:trigger AddrSpace(t, d')} :: IsDir(s, d') ==> AddrSpace(t, d') == AddrSpace(s, d')
  }

  // A step that changes no space, then one that changes only directory d's.
  lemma SameThenOthers(s: Vm, t: Vm, u: Vm, d: nat)
    requires KeepsData(s, t) && KeepsData(t, u) && AllSame(s, t) && OthersSame(t, u, d)
    requires forall q :: 0 <= q < |s.mem| && s.role[q] in {Data, Held} ==> t.role[q] == s.role[q]
    ensures KeepsData(s, u) && OthersSame(s, u, d)
  {
    forall d': nat | IsDir(s, d') && d' != d ensures AddrSpace(u, d') == AddrSpace(s, d') {
      assert IsDir(t, d') && AddrSpace(t, d') == AddrSpace(s, d');
    }
  }

  lemma SpaceOfMem(s: Vm, t: Vm, d: nat)
    requires s.mem == t.mem && d < |s.mem|
    ensures AddrSpace(t, d) == AddrSpace(s, d)
  {
    forall v: nat | v < USER_PAGES ensures EntryOf(t, d, v) == EntryOf(s, d, v) { }
  }

  // ---------------------------------------------------------------- pgdir_walk, create

  // The state after a fresh table is hung into slot i of directory d.
  function Grown(s: Vm, d: nat, i: nat): Vm
    requires s.free != [] && s.free[0] < |s.mem| == |s.role| == |s.refs| <= 0x10_0000
    requires d < |s.mem| && i < UTOP_PDX
  {
    WriteWord(AddRef(TakeFree(s, true), s.free[0], Table), d, i, MakeEntry(s.free[0], 6))
  }

  lemma GrownOk(s: Vm, extra: multiset<nat>, d: nat, i: nat)
    requires Inv(s, extra) && IsDir(s, d) && i < UTOP_PDX && !Present(s.mem[d][i]) && s.free != []
    ensures s.free[0] < |s.mem| && s.role[s.free[0]] == Free
    ensures Inv(Grown(s, d, i), extra) && KeepsData(s, Grown(s, d, i))
    ensures HeldPages(Grown(s, d, i)) == HeldPages(s)
    ensures Grown(s, d, i).role == s.role[s.free[0] := Table]
    ensures Grown(s, d, i).refs == s.refs[s.free[0] := 1]
  {
    TakeFreeKeepsInv(s, extra, true);
    var p := s.free[0];
    var s1 := TakeFree(s, true);
    AddRefKeepsInv(s1, extra, p, Table);
    var s2 := AddRef(s1, p, Table);
    EntryBits(p, 6);
    WriteKeepsInv(s2, extra + multiset{p}, d, i, MakeEntry(p, 6));
    assert AfterWrite(extra + multiset{p}, s2.mem[d][i], MakeEntry(p, 6)) == extra;
    assert s.role[p := Held][p := Table] == s.role[p := Table];
  }

  lemma GrownSpaces(s: Vm, extra: multiset<nat>, d: nat, i: nat)
    requires Inv(s, extra) && IsDir(s, d) && i < UTOP_PDX && !Present(s.mem[d][i]) && s.free != []
    requires s.free[0] < |s.mem| && s.role[s.free[0]] == Free
    ensures AllSame(s, Grown(s, d, i))
  {
    TakeFreeKeepsInv(s, extra, true);
    var p := s.free[0];
    var s1 := TakeFree(s, true);
    AddRefKeepsInv(s1, extra, p, Table);
    var s2 := AddRef(s1, p, Table);
    NewTableRefines(s2, d, i, MakeEntry(p, 6));
    forall d': nat | IsDir(s, d') ensures AddrSpace(Grown(s, d, i), d') == AddrSpace(s, d') {
      assert IsDir(s2, d');
      forall k | 0 <= k < UTOP_PDX && Present(s.mem[d'][k]) && Frame(s.mem[d'][k]) < |s.mem|
        ensures s2.mem[Frame(s.mem[d'][k])] == s.mem[Frame(s.mem[d'][k])]
      {
        assert EntryTyped(s, d', k);
      }
      SameTablesSameSpaces(s, s2, d');
    }
  }

  // ---------------------------------------------------------------- page_remove

  ghost function Removed(s: Vm, d: nat, v: nat): Vm
    requires Shape(s) && IsDir(s, d) && v < USER_PAGES
  {
    if Mapped(s, d, v) && Frame(EntryOf(s, d, v).value) < |s.refs| && s.refs[Frame(EntryOf(s, d, v).value)] > 0
    then DropRef(WriteWord(s, Frame(s.mem[d][v / NPTENTRIES]), v % NPTENTRIES, 0), Frame(EntryOf(s, d, v).value))
    else s
  }

  lemma MappedIsData(s: Vm, extra: multiset<nat>, d: nat, v: nat)
    requires Inv(s, extra) && IsDir(s, d) && v < USER_PAGES && Mapped(s, d, v)
    ensures s.role[Frame(s.mem[d][v / NPTENTRIES])] == Table
    ensures Frame(EntryOf(s, d, v).value) < |s.mem|
    ensures s.role[Frame(EntryOf(s, d, v).value)] == Data && s.refs[Frame(EntryOf(s, d, v).value)] > 0
  {
    assert EntryTyped(s, d, v / NPTENTRIES);
    assert EntryTyped(s, Frame(s.mem[d][v / NPTENTRIES]), v % NPTENTRIES);
    assert RefRange(s, Frame(EntryOf(s, d, v).value));
  }

  lemma RemovedInv(s: Vm, extra: multiset<nat>, d: nat, v: nat)
    requires Inv(s, extra) && IsDir(s, d) && v < USER_PAGES
    ensures Inv(Removed(s, d, v), extra)
  {
    if Mapped(s, d, v) {
      MappedIsData(s, extra, d, v);
      var f := Frame(s.mem[d][v / NPTENTRIES]);
      var p := Frame(EntryOf(s, d, v).value);
      WriteKeepsInv(s, extra, f, v % NPTENTRIES, 0);
      DropRefKeepsInv(WriteWord(s, f, v % NPTENTRIES, 0), extra + multiset{p}, p);
      assert extra + multiset{p} - multiset{p} == extra;
    }
  }

  lemma RemovedData(s: Vm, extra: multiset<nat>, d: nat, v: nat)
    requires Inv(s, extra) && IsDir(s, d) && v < USER_PAGES
    ensures KeepsData(s, Removed(s, d, v)) && HeldPages(Removed(s, d, v)) == HeldPages(s)
  {
    if Mapped(s, d, v) { MappedIsData(s, extra, d, v); }
  }

  lemma RemovedSpaces(s: Vm, extra: multiset<nat>, d: nat, v: nat)
    requires Inv(s, extra) && IsDir(s, d) && v < USER_PAGES
    ensures |Removed(s, d, v).mem| == |s.mem|
    ensures AddrSpace(Removed(s, d, v), d) == AddrSpace(s, d) - {v}
    ensures OthersSame(s, Removed(s, d, v), d)
  {
    if Mapped(s, d, v) {
      MappedIsData(s, extra, d, v);
      var s1 := WriteWord(s, Frame(s.mem[d][v / NPTENTRIES]), v % NPTENTRIES, 0);
      WriteRefines(s, extra, d, v, 0);
      var t := Removed(s, d, v);
      assert t.mem == s1.mem;
      forall d': nat | IsDir(s, d') ensures AddrSpace(t, d') == AddrSpace(s1, d') { SpaceOfMem(s1, t, d'); }
    }
  }

  // ---------------------------------------------------------------- page_insert

  // The state page_insert leaves when the table is there.
  ghost function Inserted(s: Vm, d: nat, v: nat, pp: nat, w: Word): Vm
    requires Shape(s) && IsDir(s, d) && v < USER_PAGES && pp < |s.refs|
    requires Frame(s.mem[d][v / NPTENTRIES]) < |s.mem|
    requires Shape(Removed(s, d, v))
  {
    if Mapped(s, d, v) && Frame(EntryOf(s, d, v).value) == pp
    then WriteWord(s, Frame(s.mem[d][v / NPTENTRIES]), v % NPTENTRIES, w)
    else WriteWord(AddRef(Removed(s, d, v), pp, Data), Frame(s.mem[d][v / NPTENTRIES]), v % NPTENTRIES, w)
  }

  lemma InsertedDefined(s: Vm, extra: multiset<nat>, d: nat, v: nat)
    requires Inv(s, extra) && IsDir(s, d) && v < USER_PAGES && Present(s.mem[d][v / NPTENTRIES])
    ensures Frame(s.mem[d][v / NPTENTRIES]) < |s.mem| && s.role[Frame(s.mem[d][v / NPTENTRIES])] == Table
    ensures Shape(Removed(s, d, v))
  {
    assert EntryTyped(s, d, v / NPTENTRIES);
    RemovedInv(s, extra, d, v);
  }

  lemma InsertedInv(s: Vm, extra: multiset<nat>, d: nat, v: nat, pp: nat, w: Word)
    requires Inv(s, extra) && IsDir(s, d) && v < USER_PAGES && pp < |s.mem| && s.role[pp] in {Held, Data}
    requires Present(s.mem[d][v / NPTENTRIES]) && Present(w) && Frame(w) == pp
    requires Frame(s.mem[d][v / NPTENTRIES]) < |s.mem| && Shape(Removed(s, d, v))
    ensures Inv(Inserted(s, d, v, pp, w), extra)
  {
    var f := Frame(s.mem[d][v / NPTENTRIES]);
    var j := v % NPTENTRIES;
    assert EntryTyped(s, d, v / NPTENTRIES);
    if Mapped(s, d, v) && Frame(EntryOf(s, d, v).value) == pp {
      MappedIsData(s, extra, d, v);
      WriteKeepsInv(s, extra, f, j, w);
      assert AfterWrite(extra, s.mem[f][j], w) == extra;
    } else {
      RemovedInv(s, extra, d, v);
      RemovedKeeps(s, extra, d, v, pp);
      CountedWriteInv(Removed(s, d, v), extra, f, j, pp, w);
    }
  }

  // pp->pp_ref++ followed by the store of an entry for pp into an empty slot.
  lemma CountedWriteInv(s: Vm, extra: multiset<nat>, f: nat, j: nat, pp: nat, w: Word)
    requires Inv(s, extra) && pp < |s.mem| && s.role[pp] in {Held, Data} && Present(w) && Frame(w) == pp
    requires f < |s.mem| && s.role[f] == Table && j < NPTENTRIES && !Present(s.mem[f][j])
    ensures Inv(WriteWord(AddRef(s, pp, Data), f, j, w), extra)
  {
    AddRefKeepsInv(s, extra, pp, Data);
    var s2 := AddRef(s, pp, Data);
    WriteKeepsInv(s2, extra + multiset{pp}, f, j, w);
    assert AfterWrite(extra + multiset{pp}, s2.mem[f][j], w) == extra;
  }

  lemma InsertedData(s: Vm, extra: multiset<nat>, d: nat, v: nat, pp: nat, w: Word)
    requires Inv(s, extra) && IsDir(s, d) && v < USER_PAGES && pp < |s.mem| && s.role[pp] in {Held, Data}
    requires Present(s.mem[d][v / NPTENTRIES]) && Present(w) && Frame(w) == pp
    requires Frame(s.mem[d][v / NPTENTRIES]) < |s.mem| && Shape(Removed(s, d, v))
    ensures KeepsData(s, Inserted(s, d, v, pp, w))
    ensures HeldPages(Inserted(s, d, v, pp, w)) == HeldPages(s) - {pp}
    ensures Inserted(s, d, v, pp, w).role[pp] == Data
  {
    var f := Frame(s.mem[d][v / NPTENTRIES]);
    assert EntryTyped(s, d, v / NPTENTRIES);
    if Mapped(s, d, v) && Frame(EntryOf(s, d, v).value) == pp {
      MappedIsData(s, extra, d, v);
    } else {
      RemovedData(s, extra, d, v);
      RemovedKeeps(s, extra, d, v, pp);
    }
  }

  lemma InsertedSpaces(s: Vm, extra: multiset<nat>, d: nat, v: nat, pp: nat, w: Word)
    requires Inv(s, extra) && IsDir(s, d) && v < USER_PAGES && pp < |s.mem| && s.role[pp] in {Held, Data}
    requires Present(s.mem[d][v / NPTENTRIES]) && Present(w) && Frame(w) == pp
    requires Frame(s.mem[d][v / NPTENTRIES]) < |s.mem| && Shape(Removed(s, d, v))
    ensures |Inserted(s, d, v, pp, w).mem| == |s.mem|
    ensures AddrSpace(Inserted(s, d, v, pp, w), d) == AddrSpace(s, d)[v := Mapping(pp, Perm(w))]
    ensures OthersSame(s, Inserted(s, d, v, pp, w), d)
  {
    if Mapped(s, d, v) && Frame(EntryOf(s, d, v).value) == pp {
      WriteRefines(s, extra, d, v, w);
    } else {
      RemovedInv(s, extra, d, v);
      RemovedKeeps(s, extra, d, v, pp);
      RemovedSpaces(s, extra, d, v);
      RemovedData(s, extra, d, v);
      var s1 := Removed(s, d, v);
      AddRefKeepsInv(s1, extra, pp, Data);
      InsertedFreshSpaces(s, s1, AddRef(s1, pp, Data), extra + multiset{pp}, d, v, w);
    }
  }

  lemma InsertedFreshSpaces(s: Vm, s1: Vm, s2: Vm, extra: multiset<nat>, d: nat, v: nat, w: Word)
    requires v < USER_PAGES && Present(w) && d < |s.mem| && Inv(s2, extra) && IsDir(s2, d)
    requires |s1.mem| == |s.mem| == |s.role| && s2.mem == s1.mem && s1.mem[d] == s.mem[d] && Present(s.mem[d][v / NPTENTRIES])
    requires AddrSpace(s1, d) == AddrSpace(s, d) - {v} && OthersSame(s, s1, d)
    requires forall q :: 0 <= q < |s.mem| ==> (s.role[q] == Directory <==> s2.role[q] == Directory)
    requires Frame(s.mem[d][v / NPTENTRIES]) < |s.mem|
    ensures
      var t := WriteWord(s2, Frame(s.mem[d][v / NPTENTRIES]), v % NPTENTRIES, w);
      && AddrSpace(t, d) == AddrSpace(s, d)[v := Mapping(Frame(w), Perm(w))]
      && OthersSame(s, t, d)
  {
    WriteRefines(s2, extra, d, v, w);
    SpaceOfMem(s1, s2, d);
    var t := WriteWord(s2, Frame(s.mem[d][v / NPTENTRIES]), v % NPTENTRIES, w);
    forall d': nat | IsDir(s, d') && d' != d ensures AddrSpace(t, d') == AddrSpace(s, d') {
      SpaceOfMem(s1, s2, d');
      assert IsDir(s2, d');
    }
  }

  // The 16-bit count: adding a reference keeps a page's count exact if and only if the count
  // was below 65535.
  lemma CountFits(s: Vm, extra: multiset<nat>, p: nat)
    requires Inv(s, extra) && p < |s.mem| && s.role[p] == Data && s.refs[p] < 0x1_0000
    ensures Exact(s.(refs := s.refs[p := (s.refs[p] + 1) % 0x1_0000]), extra + multiset{p}, p)
       <==> s.refs[p] + 1 < 0x1_0000
  {
    var t := s.(refs := s.refs[p := (s.refs[p] + 1) % 0x1_0000]);
    assert Exact(s, extra, p);
    assert Total(t, p) == Total(s, p);
  }

  // Removing a mapping leaves the directory and the table in place, and the slot empty.
  lemma RemovedKeeps(s: Vm, extra: multiset<nat>, d: nat, v: nat, pp: nat)
    requires Inv(s, extra) && IsDir(s, d) && v < USER_PAGES && pp < |s.mem| && s.role[pp] in {Held, Data}
    requires Present(s.mem[d][v / NPTENTRIES])
    requires !(Mapped(s, d, v) && Frame(EntryOf(s, d, v).value) == pp)
    ensures
      var t := Removed(s, d, v);
      && IsDir(t, d) && t.mem[d] == s.mem[d] && |t.mem| == |s.mem| && t.role[pp] == s.role[pp]
      && Frame(s.mem[d][v / NPTENTRIES]) < |s.mem| && t.role[Frame(s.mem[d][v / NPTENTRIES])] == Table
      && !Present(t.mem[Frame(s.mem[d][v / NPTENTRIES])][v % NPTENTRIES])
      && |t.refs| == |s.refs| && t.refs[pp] == s.refs[pp]
  {
    assert EntryTyped(s, d, v / NPTENTRIES);
    if Mapped(s, d, v) { MappedIsData(s, extra, d, v); }
  }

  // ---------------------------------------------------------------- page_init

  // The pages page_init keeps off the free list: page 0, the IO hole, the second CPU's entry
  // code and everything up to the end of what boot_alloc handed out.
  predicate InUse(i: nat, npagesBasemem: nat, bootEnd: nat) {
    || i == 0
    || npagesBasemem <= i < 0xA0
    || 0xA0 <= i < 0x100
    || i == 7
    || 0x100 <= i < bootEnd
  }

  // The free list after page_init has looked at pages 0 to i-1.
  function FreeBelow(i: nat, npagesBasemem: nat, bootEnd: nat): seq<nat> {
    if i == 0 then []
    else if InUse(i - 1, npagesBasemem, bootEnd) then FreeBelow(i - 1, npagesBasemem, bootEnd)
    else [i - 1] + FreeBelow(i - 1, npagesBasemem, bootEnd)
  }

  // Page numbers written out: of the first 640 KB what there is of base memory but pages 0 and
  // 7, of what lies above 1 MB everything from bootEnd on, and nothing in between.
  lemma InUseIs(p: nat, npagesBasemem: nat, bootEnd: nat)
    ensures !InUse(p, npagesBasemem, bootEnd) <==>
              (0 < p < 160 && p < npagesBasemem && p != 7) || (p >= 256 && p >= bootEnd)
  {
  }

  predicate Descending(l: seq<nat>) { forall j, k :: 0 <= j < k < |l| ==> l[j] > l[k] }

  // It holds each page not in use once, highest first.
  lemma {:induction false} FreeBelowExact(i: nat, npagesBasemem: nat, bootEnd: nat)
    ensures forall p: nat :: p in FreeBelow(i, npagesBasemem, bootEnd) <==> p < i && !InUse(p, npagesBasemem, bootEnd)
    ensures Descending(FreeBelow(i, npagesBasemem, bootEnd))
    ensures forall p: nat :: p in FreeBelow(i, npagesBasemem, bootEnd) <==>
              p < i && ((0 < p < 160 && p < npagesBasemem && p != 7) || (p >= 256 && p >= bootEnd))
  {
    if i > 0 {
      FreeBelowExact(i - 1, npagesBasemem, bootEnd);
      var l := FreeBelow(i - 1, npagesBasemem, bootEnd);
      forall k | 0 <= k < |l| ensures l[k] < i - 1 { assert l[k] in l; }
      assert Descending([i - 1] + l);
    }
  }

  lemma NotListedYet(i: nat, npagesBasemem: nat, bootEnd: nat)
    ensures i !in FreeBelow(i, npagesBasemem, bootEnd)
  {
    FreeBelowExact(i, npagesBasemem, bootEnd);
  }

  lemma {:induction false} CountNothing(s: Vm, k: nat, p: nat)
    requires k <= |s.mem| == |s.role| && forall f :: 0 <= f < |s.role| ==> s.role[f] in {Reserved, Free}
    ensures CountFrames(s.mem, s.role, k, p) == 0
  {
    if k > 0 { CountNothing(s, k - 1, p); }
  }

  lemma {:induction false} CountNoDirs(dirs: seq<Option<nat>>, k: nat, p: nat)
    requires k <= |dirs| && forall e :: 0 <= e < |dirs| ==> dirs[e].None?
    ensures CountDirs(dirs, k, p) == 0
  {
    if k > 0 { CountNoDirs(dirs, k - 1, p); }
  }

  lemma InitialInv(s: Vm, npagesBasemem: nat, bootEnd: nat)
    requires |s.refs| == |s.mem| == |s.role| <= 0x10_0000 && s.free == FreeBelow(|s.mem|, npagesBasemem, bootEnd)
    requires forall p :: 0 <= p < |s.role| ==> s.refs[p] == 0
    requires forall p :: 0 <= p < |s.role| ==> s.role[p] == (if InUse(p, npagesBasemem, bootEnd) then Reserved else Free)
    requires forall e :: 0 <= e < |s.dirs| ==> s.dirs[e].None?
    ensures Inv(s, multiset{}) && HeldPages(s) == {}
  {
    FreeBelowExact(|s.mem|, npagesBasemem, bootEnd);
    assert forall k :: 0 <= k < |s.free| ==> s.free[k] in s.free;
    forall p | 0 <= p < |s.role| ensures Exact(s, multiset{}, p) {
      CountNothing(s, |s.mem|, p);
      CountNoDirs(s.dirs, |s.dirs|, p);
    }
  }
}
