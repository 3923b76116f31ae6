/** The flat view of the two-level tables, and the single steps that the functions of
    kern/pmap.c are made of: each step's effect on the counts and on every address space. */
module AddressSpaces {
  import opened Mmu
  import opened PageTables

  datatype Mapping = Mapping(page: nat, perm: nat)

  const USER_PAGES: nat := UTOP_PDX * NPTENTRIES

  ghost predicate IsDir(s: Vm, d: nat) { d < |s.mem| == |s.role| && s.role[d] == Directory }

  // The table word for virtual page v, or None when the directory has no table there.
  ghost function EntryOf(s: Vm, d: nat, v: nat): Option<Word>
    requires d < |s.mem| && v < USER_PAGES
  {
    var pde := s.mem[d][v / NPTENTRIES];
    if Present(pde) && Frame(pde) < |s.mem| then Some(s.mem[Frame(pde)][v % NPTENTRIES]) else None
  }

  ghost predicate Mapped(s: Vm, d: nat, v: nat)
    requires d < |s.mem| && v < USER_PAGES
  {
    EntryOf(s, d, v).Some? && Present(EntryOf(s, d, v).value)
  }

  // The user half of an address space as a flat map from virtual page numbers.
  ghost function AddrSpace(s: Vm, d: nat): map<nat, Mapping>
    requires d < |s.mem|
  {
    map v: nat | v < USER_PAGES && Mapped(s, d, v) ::
      Mapping(Frame(EntryOf(s, d, v).value), Perm(EntryOf(s, d, v).value))
  }

  // ---------------------------------------------------------------- steps

  function WriteWord(s: Vm, f: nat, i: nat, w: Word): Vm
    requires f < |s.mem| && i < NPTENTRIES
  {
    s.(mem := s.mem[f := s.mem[f][i := w]])
  }

  // One more reference to a page; a held page becomes `r` with it.
  function AddRef(s: Vm, p: nat, r: Role): Vm
    requires p < |s.refs| == |s.role|
  {
    s.(refs := s.refs[p := s.refs[p] + 1], role := s.role[p := r])
  }

  // One reference less; the last one puts the page back on the free list.
  function DropRef(s: Vm, p: nat): Vm
    requires p < |s.refs| == |s.role| && s.refs[p] > 0
  {
    if s.refs[p] == 1 then
      s.(refs := s.refs[p := 0], role := s.role[p := Free], free := [p] + s.free)
    else
      s.(refs := s.refs[p := s.refs[p] - 1])
  }

  function TakeFree(s: Vm, zero: bool): Vm
    requires s.free != [] && s.free[0] < |s.mem| == |s.role|
  {
    s.(mem := if zero then s.mem[s.free[0] := ZeroPage()] else s.mem, role := s.role[s.free[0] := Held], free := s.free[1..])
  }

  function GiveBack(s: Vm, p: nat): Vm
    requires p < |s.role|
  {
    s.(role := s.role[p := Free], free := [p] + s.free)
  }

  // No user entry is present: nothing is lost when the page stops being a table.
  ghost predicate NoEntries(s: Vm, p: nat)
    requires p < |s.mem| == |s.role|
  {
    forall i :: 0 <= i < Limit(s.role[p]) ==> !Present(s.mem[p][i])
  }

  function AfterWrite(extra: multiset<nat>, was: Word, w: Word): multiset<nat> {
    var e := if Present(was) then extra + multiset{Frame(was)} else extra;
    if Present(w) then e - multiset{Frame(w)} else e
  }

  // ---------------------------------------------------------------- effect on the counts

  lemma TotalAfter(s: Vm, f: nat, pg: Page, r: Role, p: nat)
    requires f < |s.mem| == |s.role|
    ensures Total(s.(mem := s.mem[f := pg], role := s.role[f := r]), p)
         == Total(s, p) + RefsIn(pg, Limit(r), p) - RefsIn(s.mem[f], Limit(s.role[f]), p)
  {
    CountFramesUpdate(s.mem, s.role, f, pg, r, |s.mem|, p);
  }

  // Storing an entry moves one reference out of `extra` and the overwritten one into it.
  lemma WriteKeepsInv(s: Vm, extra: multiset<nat>, f: nat, i: nat, w: Word)
    requires Inv(s, extra) && f < |s.mem| && i < Limit(s.role[f])
    requires Present(w) ==> Frame(w) < |s.mem|
    requires Present(w) ==> s.role[Frame(w)] == (if s.role[f] == Directory then Table else Data)
    requires Present(w) ==> Frame(w) in extra || Refers(s.mem[f][i], Frame(w))
    requires s.role[f] == Directory && Present(w) ==> User(w) && Writable(w)
    requires s.role[f] == Table && !Present(w) ==> w == 0
    ensures Inv(WriteWord(s, f, i, w), AfterWrite(extra, s.mem[f][i], w))
  {
    var t := WriteWord(s, f, i, w);
    forall p | 0 <= p < |s.role| ensures OnListIffFree(t, p) { assert OnListIffFree(s, p); }
    forall g, j | 0 <= g < |t.mem| && 0 <= j < NPTENTRIES ensures EntryTyped(t, g, j) { assert EntryTyped(s, g, j); }
    forall e | 0 <= e < |t.dirs| ensures DirTyped(t, e) { assert DirTyped(s, e); }
    forall p | 0 <= p < |t.role| ensures RefRange(t, p) { assert RefRange(s, p); }
    forall p | 0 <= p < |t.role| ensures Exact(t, AfterWrite(extra, s.mem[f][i], w), p) {
      assert Exact(s, extra, p);
      WriteTotal(s, f, i, w, p);
    }
  }

  lemma WriteTotal(s: Vm, f: nat, i: nat, w: Word, p: nat)
    requires f < |s.mem| == |s.role| && i < Limit(s.role[f])
    ensures Total(WriteWord(s, f, i, w), p) == Total(s, p) + Hit(w, p) - Hit(s.mem[f][i], p)
  {
    var pg := s.mem[f][i := w];
    TotalAfter(s, f, pg, s.role[f], p);
    assert s.role[f := s.role[f]] == s.role;
    assert WriteWord(s, f, i, w) == s.(mem := s.mem[f := pg], role := s.role[f := s.role[f]]);
    RefsInUpdate(s.mem[f], i, w, Limit(s.role[f]), p);
  }

  // Changing a page's role without an entry in it changes no count.
  lemma RetypeKeepsTotal(s: Vm, p: nat, r: Role, q: nat)
    requires p < |s.mem| == |s.role| && NoEntries(s, p)
    requires forall i :: 0 <= i < Limit(r) ==> !Present(s.mem[p][i])
    ensures Total(s.(role := s.role[p := r]), q) == Total(s, q)
  {
    TotalAfter(s, p, s.mem[p], r, q);
    assert s.mem[p := s.mem[p]] == s.mem;
    RefsInNone(s.mem[p], Limit(r), q);
    RefsInNone(s.mem[p], Limit(s.role[p]), q);
  }

  lemma AddRefKeepsInv(s: Vm, extra: multiset<nat>, p: nat, r: Role)
    requires Inv(s, extra) && p < |s.mem|
    requires s.role[p] == Data == r
          || (s.role[p] == Held && (r == Data || (r == Table && s.mem[p] == ZeroPage())))
    ensures Inv(AddRef(s, p, r), extra + multiset{p})
  {
    var t := AddRef(s, p, r);
    assert RefRange(s, p);
    forall q | 0 <= q < |s.role| ensures OnListIffFree(t, q) { assert OnListIffFree(s, q); }
    forall g, j | 0 <= g < |t.mem| && 0 <= j < NPTENTRIES ensures EntryTyped(t, g, j) { assert EntryTyped(s, g, j); }
    forall e | 0 <= e < |t.dirs| ensures DirTyped(t, e) { assert DirTyped(s, e); }
    forall q | 0 <= q < |t.role| ensures RefRange(t, q) { assert RefRange(s, q); }
    forall q | 0 <= q < |t.role| ensures Exact(t, extra + multiset{p}, q) {
      assert Exact(s, extra, q);
      RetypeKeepsTotal(s, p, r, q);
      assert Total(t, q) == Total(s.(role := s.role[p := r]), q);
    }
  }

  lemma DropRefKeepsInv(s: Vm, extra: multiset<nat>, p: nat)
    requires Inv(s, extra) && p < |s.mem| && p in extra
    requires s.role[p] == Data || (s.role[p] in {Table, Directory} && NoEntries(s, p))
    ensures s.refs[p] > 0
    ensures Inv(DropRef(s, p), extra - multiset{p})
  {
    assert Exact(s, extra, p) && RefRange(s, p);
    var t := DropRef(s, p);
    DropRefShape(s, p);
    if s.refs[p] == 1 { assert Total(s, p) == 0; Unreferenced(s, p); }
    forall g, j | 0 <= g < |t.mem| && 0 <= j < NPTENTRIES ensures EntryTyped(t, g, j) { assert EntryTyped(s, g, j); }
    forall e | 0 <= e < |t.dirs| ensures DirTyped(t, e) { assert DirTyped(s, e); }
    forall q | 0 <= q < |t.role| ensures RefRange(t, q) { assert RefRange(s, q); }
    forall q | 0 <= q < |t.role| ensures Exact(t, extra - multiset{p}, q) {
      assert Exact(s, extra, q);
      RetypeKeepsTotal(s, p, Free, q);
      assert Total(t, q) == if s.refs[p] == 1 then Total(s.(role := s.role[p := Free]), q) else Total(s, q);
    }
  }

  lemma DropRefShape(s: Vm, p: nat)
    requires Shape(s) && p < |s.mem| && s.role[p] != Free && s.refs[p] > 0
    ensures Shape(DropRef(s, p))
  {
    var t := DropRef(s, p);
    assert OnListIffFree(s, p);
    assert s.refs[p] == 1 ==> forall i :: 0 < i < |t.free| ==> t.free[i] == s.free[i - 1] && t.free[i] in s.free;
    forall q | 0 <= q < |s.role| ensures OnListIffFree(t, q) {
      assert OnListIffFree(s, q);
      assert s.refs[p] == 1 ==> (q in t.free <==> q == p || q in s.free);
    }
  }

  lemma Unreferenced(s: Vm, p: nat)
    requires |s.mem| == |s.role| && Total(s, p) == 0
    ensures forall f, i {:trigger s.mem[f][i]} :: 0 <= f < |s.mem| && 0 <= i < Limit(s.role[f]) ==> !Refers(s.mem[f][i], p)
    ensures forall e :: 0 <= e < |s.dirs| ==> s.dirs[e] != Some(p)
  {
    forall f, i | 0 <= f < |s.mem| && 0 <= i < Limit(s.role[f])
      ensures !Refers(s.mem[f][i], p)
    {
      if Refers(s.mem[f][i], p) {
        RefsInSome(s.mem[f], Limit(s.role[f]), i, p);
        CountFramesOne(s.mem, s.role, |s.mem|, f, p);
      }
    }
    forall e | 0 <= e < |s.dirs|
      ensures s.dirs[e] != Some(p)
    {
      if s.dirs[e] == Some(p) { CountDirsOne(s.dirs, |s.dirs|, e, p); }
    }
  }

  lemma TakeFreeShape(s: Vm, zero: bool)
    requires Shape(s) && s.free != []
    ensures s.free[0] < |s.role| && s.role[s.free[0]] == Free
    ensures Shape(TakeFree(s, zero))
  {
    var p := s.free[0];
    assert OnListIffFree(s, p);
    var t := TakeFree(s, zero);
    assert s.free == [p] + t.free;
    assert p !in t.free;
    forall q | 0 <= q < |t.role| ensures OnListIffFree(t, q) {
      assert OnListIffFree(s, q);
      assert q in s.free <==> q == p || q in t.free;
    }
  }

  lemma TakeFreeKeepsInv(s: Vm, extra: multiset<nat>, zero: bool)
    requires Inv(s, extra) && s.free != []
    ensures s.free[0] < |s.role| && s.role[s.free[0]] == Free && s.refs[s.free[0]] == 0
    ensures Inv(TakeFree(s, zero), extra)
    ensures HeldPages(TakeFree(s, zero)) == HeldPages(s) + {s.free[0]}
  {
    TakeFreeShape(s, zero);
    var p := s.free[0];
    var t := TakeFree(s, zero);
    assert RefRange(s, p);
    forall g, j | 0 <= g < |t.mem| && 0 <= j < NPTENTRIES ensures EntryTyped(t, g, j) { assert EntryTyped(s, g, j); }
    forall e | 0 <= e < |t.dirs| ensures DirTyped(t, e) { assert DirTyped(s, e); }
    forall q | 0 <= q < |t.role| ensures RefRange(t, q) { assert RefRange(s, q); }
    forall q | 0 <= q < |t.role| ensures Exact(t, extra, q) {
      assert Exact(s, extra, q);
      TotalAfter(s, p, t.mem[p], Held, q);
      assert t.mem == s.mem[p := t.mem[p]];
      assert Total(t, q) == Total(s.(mem := s.mem[p := t.mem[p]], role := s.role[p := Held]), q);
    }
  }

  lemma GiveBackKeepsInv(s: Vm, extra: multiset<nat>, p: nat)
    requires Inv(s, extra) && p < |s.mem| && s.role[p] == Held
    ensures Inv(GiveBack(s, p), extra)
    ensures HeldPages(GiveBack(s, p)) == HeldPages(s) - {p}
  {
    var t := GiveBack(s, p);
    assert OnListIffFree(s, p);
    assert forall i :: 0 < i < |t.free| ==> t.free[i] == s.free[i - 1] && t.free[i] in s.free;
    forall q | 0 <= q < |t.role| ensures OnListIffFree(t, q) {
      assert OnListIffFree(s, q);
      assert q in t.free <==> q == p || q in s.free;
    }
    forall g, j | 0 <= g < |t.mem| && 0 <= j < NPTENTRIES ensures EntryTyped(t, g, j) { assert EntryTyped(s, g, j); }
    forall e | 0 <= e < |t.dirs| ensures DirTyped(t, e) { assert DirTyped(s, e); }
    forall q | 0 <= q < |t.role| ensures RefRange(t, q) { assert RefRange(s, q); }
    forall q | 0 <= q < |t.role| ensures Exact(t, extra, q) {
      assert Exact(s, extra, q);
      RetypeKeepsTotal(s, p, Free, q);
      assert Total(t, q) == Total(s.(role := s.role[p := Free]), q);
    }
  }

  // ---------------------------------------------------------------- no sharing of tables

  // A page-table page hangs from exactly one slot of exactly one directory.
  lemma TableHasOneParent(s: Vm, extra: multiset<nat>, d: nat, i: nat, d': nat, i': nat)
    requires Inv(s, extra) && IsDir(s, d) && IsDir(s, d') && i < UTOP_PDX && i' < UTOP_PDX
    requires Present(s.mem[d][i]) && Present(s.mem[d'][i']) && Frame(s.mem[d][i]) == Frame(s.mem[d'][i'])
    ensures d == d' && i == i'
  {
    var t := Frame(s.mem[d][i]);
    assert EntryTyped(s, d, i) && RefRange(s, t) && Exact(s, extra, t);
    if d != d' {
      RefsInSome(s.mem[d], UTOP_PDX, i, t);
      RefsInSome(s.mem[d'], UTOP_PDX, i', t);
      CountFramesTwo(s.mem, s.role, |s.mem|, if d < d' then d else d', if d < d' then d' else d, t);
    } else if i != i' {
      RefsInTwo(s.mem[d], UTOP_PDX, if i < i' then i else i', if i < i' then i' else i, t);
      CountFramesOne(s.mem, s.role, |s.mem|, d, t);
    }
  }

  // No two environments use one directory, and no directory is anybody's data page.
  lemma DirectoryHasOneOwner(s: Vm, extra: multiset<nat>, e: nat, e': nat)
    requires Inv(s, extra) && e < |s.dirs| && e' < |s.dirs| && s.dirs[e].Some? && s.dirs[e] == s.dirs[e']
    ensures e == e'
  {
    var d := s.dirs[e].value;
    assert DirTyped(s, e) && RefRange(s, d) && Exact(s, extra, d);
    if e != e' { CountDirsTwo(s.dirs, |s.dirs|, if e < e' then e else e', if e < e' then e' else e, d); }
  }

  // ---------------------------------------------------------------- effect on the flat maps

  lemma EntryAfterWrite(s: Vm, extra: multiset<nat>, d: nat, v: nat, w: Word, d': nat, v': nat)
    requires Inv(s, extra) && IsDir(s, d) && IsDir(s, d') && v < USER_PAGES && v' < USER_PAGES
    requires Present(s.mem[d][v / NPTENTRIES]) && Frame(s.mem[d][v / NPTENTRIES]) < |s.mem|
    ensures EntryOf(WriteWord(s, Frame(s.mem[d][v / NPTENTRIES]), v % NPTENTRIES, w), d', v')
         == if d' == d && v' == v then Some(w) else EntryOf(s, d', v')
  {
    var f := Frame(s.mem[d][v / NPTENTRIES]);
    assert EntryTyped(s, d, v / NPTENTRIES);
    var t := WriteWord(s, f, v % NPTENTRIES, w);
    var pde := s.mem[d'][v' / NPTENTRIES];
    assert t.mem[d'] == s.mem[d'];
    if Present(pde) && Frame(pde) == f {
      TableHasOneParent(s, extra, d, v / NPTENTRIES, d', v' / NPTENTRIES);
      assert v' == v / NPTENTRIES * NPTENTRIES + v' % NPTENTRIES;
    }
  }

  // Storing a table word changes one virtual page of one address space.
  lemma WriteRefines(s: Vm, extra: multiset<nat>, d: nat, v: nat, w: Word)
    requires Inv(s, extra) && IsDir(s, d) && v < USER_PAGES
    requires Present(s.mem[d][v / NPTENTRIES])
    ensures Frame(s.mem[d][v / NPTENTRIES]) < |s.mem|
    ensures
      var t := WriteWord(s, Frame(s.mem[d][v / NPTENTRIES]), v % NPTENTRIES, w);
      && AddrSpace(t, d) == (if Present(w) then AddrSpace(s, d)[v := Mapping(Frame(w), Perm(w))] else AddrSpace(s, d) - {v})
      && forall d': nat {:trigger AddrSpace(t, d')} :: IsDir(s, d') && d' != d ==> AddrSpace(t, d') == AddrSpace(s, d')
  {
    var f := Frame(s.mem[d][v / NPTENTRIES]);
    assert EntryTyped(s, d, v / NPTENTRIES);
    var t := WriteWord(s, f, v % NPTENTRIES, w);
    forall d': nat | IsDir(s, d')
      ensures AddrSpace(t, d') ==
        if d' != d then AddrSpace(s, d')
        else if Present(w) then AddrSpace(s, d)[v := Mapping(Frame(w), Perm(w))]
        else AddrSpace(s, d) - {v}
    {
      SpaceAfterWrite(s, extra, d, v, w, d');
    }
  }

  lemma SpaceAfterWrite(s: Vm, extra: multiset<nat>, d: nat, v: nat, w: Word, d': nat)
    requires Inv(s, extra) && IsDir(s, d) && IsDir(s, d') && v < USER_PAGES
    requires Present(s.mem[d][v / NPTENTRIES]) && Frame(s.mem[d][v / NPTENTRIES]) < |s.mem|
    ensures AddrSpace(WriteWord(s, Frame(s.mem[d][v / NPTENTRIES]), v % NPTENTRIES, w), d') ==
      if d' != d then AddrSpace(s, d')
      else if Present(w) then AddrSpace(s, d)[v := Mapping(Frame(w), Perm(w))]
      else AddrSpace(s, d) - {v}
  {
    var t := WriteWord(s, Frame(s.mem[d][v / NPTENTRIES]), v % NPTENTRIES, w);
    forall v': nat | v' < USER_PAGES
      ensures EntryOf(t, d', v') == if d' == d && v' == v then Some(w) else EntryOf(s, d', v')
    {
      EntryAfterWrite(s, extra, d, v, w, d', v');
    }
  }

  // Hanging an empty table into a directory changes no address space.
  lemma NewTableRefines(s: Vm, d: nat, i: nat, w: Word)
    requires |s.mem| == |s.role| && IsDir(s, d) && i < UTOP_PDX && !Present(s.mem[d][i])
    requires Present(w) && Frame(w) < |s.mem| && Frame(w) != d && s.mem[Frame(w)] == ZeroPage()
    requires Shape(s) && Typed(s)
    ensures forall d': nat :: IsDir(s, d') ==> AddrSpace(WriteWord(s, d, i, w), d') == AddrSpace(s, d')
  {
    var t := WriteWord(s, d, i, w);
    forall d': nat | IsDir(s, d') ensures AddrSpace(t, d') == AddrSpace(s, d') {
      forall v | 0 <= v < USER_PAGES ensures Mapped(t, d', v) == Mapped(s, d', v) && (Mapped(s, d', v) ==> EntryOf(t, d', v) == EntryOf(s, d', v)) {
        var pde := s.mem[d'][v / NPTENTRIES];
        if d' == d && v / NPTENTRIES == i {
          assert t.mem[d][i] == w;
          assert ZeroPage()[v % NPTENTRIES] == 0;
        } else {
          assert t.mem[d'][v / NPTENTRIES] == pde;
          assert EntryTyped(s, d', v / NPTENTRIES);
        }
      }
    }
  }

  // Steps that touch neither a directory nor a table change no address space.
  lemma SameTablesSameSpaces(s: Vm, t: Vm, d: nat)
    requires |s.mem| == |t.mem| == |s.role| && IsDir(s, d)
    requires t.mem[d] == s.mem[d]
    requires forall i ::
               0 <= i < UTOP_PDX && Present(s.mem[d][i]) && Frame(s.mem[d][i]) < |s.mem|
               ==> t.mem[Frame(s.mem[d][i])] == s.mem[Frame(s.mem[d][i])]
    ensures AddrSpace(t, d) == AddrSpace(s, d)
  {
    forall v | 0 <= v < USER_PAGES ensures EntryOf(t, d, v) == EntryOf(s, d, v) {
      assert 0 <= v / NPTENTRIES < UTOP_PDX;
    }
  }
}
