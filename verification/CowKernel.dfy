/** The machine of CowFork runs on the kernel of Syscalls: what a system call does to the
    address spaces is what the machine's step does to its tables. */
module CowKernel {
  import opened Mmu
  import opened PageTables
  import opened AddressSpaces
  import opened PageSteps
  import opened Syscalls
  import F = CowFork

  // PTE_W, PTE_SHARE and PTE_COW
  function BitsOf(perm: nat): F.Bits {
    F.Bits(perm / 2 % 2 == 1, perm / 0x800 % 2 == 1, perm / 0x400 % 2 == 1)
  }

  ghost function Tables(s: Vm): map<F.Key, F.Pte> {
    map e: nat, v: nat | e < |s.dirs| && v in Space(s, e) :: F.Key(e, v) := F.Pte(Space(s, e)[v].page, BitsOf(Space(s, e)[v].perm))
  }

  lemma TablesAt(s: Vm, k: F.Key)
    ensures k in Tables(s) <==> k.env < |s.dirs| && k.va in Space(s, k.env)
    ensures k in Tables(s) ==> Tables(s)[k] == F.Pte(Space(s, k.env)[k.va].page, BitsOf(Space(s, k.env)[k.va].perm))
  {
  }

  // The machine's tables are the kernel's, and so are the contents of mapped pages.
  ghost predicate Shows(s: Vm, m: F.Machine) {
    && m.pt == Tables(s)
    && forall k {:trigger k in m.pt} :: k in m.pt ==> PageShown(s, m, m.pt[k].frame)
  }

  ghost predicate PageShown(s: Vm, m: F.Machine, p: nat) {
    p < |s.mem| && p < |s.role| && s.role[p] == Data && p in m.mem && m.mem[p] == s.mem[p]
  }

  // uvpt[pn] & PTE_SYSCALL, and the permission duppage computes from it (lib/fork.c:60-65)
  function Syscall(w: nat): nat
    requires w < PGSIZE
  {
    w / 0x200 * 0x200 + w % 8
  }

  function DupPerm(w: nat): nat
    requires w < PGSIZE
  {
    var perm := Syscall(w);
    if w / 0x400 % 2 == 1 then perm
    else if perm / 2 % 2 == 1 then perm - 2 + (if perm / 0x800 % 2 == 1 then 0 else 0x800)
    else perm
  }

  // It is what the machine's MapChild passes on, and sys_page_map accepts it.
  lemma DupPermBits(w: nat)
    requires w < PGSIZE && w / 4 % 2 == 1
    ensures BitsOf(DupPerm(w)) == F.DupPerm(BitsOf(w)) && LegalPerm(DupPerm(w))
    ensures DupPerm(w) / 2 % 2 == 1 ==> w / 2 % 2 == 1
  {
    var h, l := w / 0x200, w % 8;
    WordParts(w);
    BitParts(h, l);
    if h / 2 % 2 == 0 && l / 2 % 2 == 1 {
      var up := if h / 4 % 2 == 1 then h else h + 4;
      assert DupPerm(w) == up * 0x200 + (l - 2);
      BitParts(up, l - 2);
      LowBits(l);
      if h / 4 % 2 == 0 { HighBits(h); }
    } else {
      assert DupPerm(w) == h * 0x200 + l;
    }
  }

  lemma LowBits(l: nat)
    requires l < 8 && l / 2 % 2 == 1
    ensures (l - 2) / 2 % 2 == 0 && (l - 2) / 4 % 2 == l / 4 % 2
  {
  }

  lemma HighBits(h: nat)
    requires h < 8 && h / 4 % 2 == 0
    ensures h + 4 < 8 && (h + 4) / 4 % 2 == 1 && (h + 4) / 2 % 2 == h / 2 % 2
  {
  }

  lemma Split(x: nat, m: nat, q: nat, r: nat)
    requires (m == 2 || m == 4 || m == 8 || m == 0x200 || m == 0x400 || m == 0x800) && x == m * q + r && r < m
    ensures x / m == q && x % m == r
  {
  }

  // The three upper and the three lower bits of a permission.
  lemma BitParts(h: nat, l: nat)
    requires h < 8 && l < 8
    ensures BitsOf(h * 0x200 + l) == F.Bits(l / 2 % 2 == 1, h / 4 % 2 == 1, h / 2 % 2 == 1)
    ensures h * 0x200 + l < PGSIZE && (h * 0x200 + l) / 8 % 64 == 0 && (h * 0x200 + l) / 4 % 2 == l / 4 % 2
  {
    var x := h * 0x200 + l;
    Split(x, 2, h * 0x100 + l / 2, l % 2);
    Split(h * 0x100 + l / 2, 2, h * 0x80 + l / 4, l / 2 % 2);
    Split(x, 4, h * 0x80 + l / 4, l % 4);
    Split(h * 0x80 + l / 4, 2, h * 0x40, l / 4);
    Split(x, 8, h * 0x40, l);
    Split(x, 0x400, h / 2, h % 2 * 0x200 + l);
    Split(x, 0x800, h / 4, h % 4 * 0x200 + l);
  }

  lemma WordParts(w: nat)
    requires w < PGSIZE
    ensures w / 0x200 < 8 && w / 2 % 2 == w % 8 / 2 % 2 && w / 4 % 2 == w % 8 / 4 % 2
    ensures w / 0x400 % 2 == w / 0x200 / 2 % 2 && w / 0x800 % 2 == w / 0x200 / 4 % 2
  {
    var h, r, q, l := w / 0x200, w % 0x200, w / 8, w % 8;
    Split(w, 2, 4 * q + l / 2, l % 2);
    Split(4 * q + l / 2, 2, 2 * q + l / 4, l / 2 % 2);
    Split(w, 4, 2 * q + l / 4, l % 4);
    Split(2 * q + l / 4, 2, q, l / 4);
    Split(w, 0x400, h / 2, h % 2 * 0x200 + r);
    Split(w, 0x800, h / 4, h % 4 * 0x200 + r);
  }

  lemma PresentKeepsBits(perm: nat)
    requires perm < PGSIZE
    ensures BitsOf(WithPresent(perm)) == BitsOf(perm)
  {
  }

  // ---------------------------------------------------------------- calls and tables

  lemma SharedAt(s: Vm, t: Vm, e: nat, v: nat, pp: nat, perm: nat, k: F.Key)
    requires Shared(s, t, e, v, pp, perm) && e < |s.dirs| == |t.dirs|
    ensures k in Tables(t) <==> k in Tables(s) || k == F.Key(e, v)
    ensures k in Tables(t) ==> Tables(t)[k] == if k == F.Key(e, v) then F.Pte(pp, BitsOf(perm)) else Tables(s)[k]
  {
    PresentKeepsBits(perm);
    TablesAt(s, k);
    TablesAt(t, k);
    if k.env != e { assert k.env < |s.dirs| ==> Space(t, k.env) == Space(s, k.env); }
  }

  lemma OneSet(before: map<F.Key, F.Pte>, after: map<F.Key, F.Pte>, at: F.Key, pte: F.Pte)
    requires forall k :: k in after <==> k in before || k == at
    requires forall k :: k in after ==> after[k] == if k == at then pte else before[k]
    ensures after == before[at := pte]
  {
  }

  lemma OneGone(before: map<F.Key, F.Pte>, after: map<F.Key, F.Pte>, at: F.Key)
    requires forall k :: k in after <==> k in before && k != at
    requires forall k :: k in after ==> after[k] == before[k]
    ensures after == before - {at}
  {
  }

  lemma SharedIsOneEntry(s: Vm, t: Vm, e: nat, v: nat, pp: nat, perm: nat)
    requires Shared(s, t, e, v, pp, perm) && e < |s.dirs| == |t.dirs|
    ensures Tables(t) == Tables(s)[F.Key(e, v) := F.Pte(pp, BitsOf(perm))]
  {
    var before, after := Tables(s), Tables(t);
    forall k ensures k in after <==> k in before || k == F.Key(e, v) { SharedAt(s, t, e, v, pp, perm, k); }
    forall k | k in after ensures after[k] == if k == F.Key(e, v) then F.Pte(pp, BitsOf(perm)) else before[k] {
      SharedAt(s, t, e, v, pp, perm, k);
    }
    OneSet(before, after, F.Key(e, v), F.Pte(pp, BitsOf(perm)));
  }

  lemma UnmappedAt(s: Vm, t: Vm, e: nat, v: nat, k: F.Key)
    requires Space(t, e) == Space(s, e) - {v} && OthersKeep(s, t, e) && e < |s.dirs| == |t.dirs|
    ensures k in Tables(t) <==> k in Tables(s) && k != F.Key(e, v)
    ensures k in Tables(t) ==> Tables(t)[k] == Tables(s)[k]
  {
    TablesAt(s, k);
    TablesAt(t, k);
    if k.env != e { assert k.env < |s.dirs| ==> Space(t, k.env) == Space(s, k.env); }
  }

  lemma UnmappedIsOneEntry(s: Vm, t: Vm, e: nat, v: nat)
    requires Space(t, e) == Space(s, e) - {v} && OthersKeep(s, t, e) && e < |s.dirs| == |t.dirs|
    ensures Tables(t) == Tables(s) - {F.Key(e, v)}
  {
    var before, after := Tables(s), Tables(t);
    forall k ensures k in after <==> k in before && k != F.Key(e, v) { UnmappedAt(s, t, e, v, k); }
    forall k | k in after ensures after[k] == before[k] { UnmappedAt(s, t, e, v, k); }
    OneGone(before, after, F.Key(e, v));
  }

  // What is mapped is data, and no page on the free list is mapped.
  lemma MappedData(s: Vm, k: F.Key)
    requires Inv(s, multiset{}) && k in Tables(s)
    ensures Tables(s)[k].frame < |s.mem| && s.role[Tables(s)[k].frame] == Data
    ensures s.free != [] ==> Tables(s)[k].frame != s.free[0]
  {
    TablesAt(s, k);
    assert DirTyped(s, k.env);
    var d := s.dirs[k.env].value;
    MappedIsData(s, multiset{}, d, k.va);
    if s.free != [] { assert OnListIffFree(s, s.free[0]); }
  }

  // Pages shown before that stay mapped are shown after.
  lemma StillShown(s: Vm, t: Vm, m: F.Machine, n: F.Machine, k: F.Key)
    requires Inv(t, multiset{}) && ContentsKept(s, t) && n.mem == m.mem && k in Tables(t)
    requires PageShown(s, m, Tables(t)[k].frame)
    ensures PageShown(t, n, Tables(t)[k].frame)
  {
    MappedData(t, k);
  }

  // ---------------------------------------------------------------- the machine's steps

  lemma MapShows(s: Vm, t: Vm, m: F.Machine, n: F.Machine, dst: F.Key, src: F.Key, perm: nat)
    requires Inv(t, multiset{}) && Shows(s, m) && |t.dirs| == |s.dirs|
    requires dst.env < |s.dirs| && src in m.pt && Shared(s, t, dst.env, dst.va, m.pt[src].frame, perm)
    requires n.mem == m.mem && n.pt == m.pt[dst := F.Pte(m.pt[src].frame, BitsOf(perm))]
    ensures Shows(t, n)
  {
    SharedIsOneEntry(s, t, dst.env, dst.va, m.pt[src].frame, perm);
    forall k | k in n.pt ensures PageShown(t, n, n.pt[k].frame) {
      assert PageShown(s, m, m.pt[if k == dst then src else k].frame);
      StillShown(s, t, m, n, k);
    }
  }

  // sys_page_map(0, PFTEMP, 0, addr, PTE_P|PTE_U|PTE_W) is the third step of pgfault.
  lemma RemapIsStep(s: Vm, t: Vm, m: F.Machine, e: nat)
    requires Inv(t, multiset{}) && Shows(s, m) && F.Enabled(m, F.FaultRemap(e)) && e < |s.dirs| == |t.dirs|
    requires Shared(s, t, e, m.proc[e].fault.va, m.pt[F.Key(e, F.TEMP)].frame, 7)
    ensures Shows(t, F.Apply(m, F.FaultRemap(e)))
  {
    PlainBits();
    MapShows(s, t, m, F.Apply(m, F.FaultRemap(e)), F.Key(e, m.proc[e].fault.va), F.Key(e, F.TEMP), 7);
  }

  // sys_page_map(0, addr, envid, addr, perm) is the step of duppage that maps in the child.
  lemma MapChildIsStep(s: Vm, t: Vm, m: F.Machine, e: nat, perm: nat)
    requires Inv(t, multiset{}) && Shows(s, m) && F.Enabled(m, F.MapChild(e)) && m.proc[e].fork.child < |s.dirs| == |t.dirs|
    requires var PermRead(c, va, bits) := m.proc[e].fork;
             BitsOf(perm) == bits && Shared(s, t, c, va, m.pt[F.Key(e, va)].frame, perm)
    ensures Shows(t, F.Apply(m, F.MapChild(e)))
  {
    var PermRead(c, va, bits) := m.proc[e].fork;
    MapShows(s, t, m, F.Apply(m, F.MapChild(e)), F.Key(c, va), F.Key(e, va), perm);
  }

  // sys_page_map(0, addr, 0, addr, perm) is the step that maps in the parent again.
  lemma MapSelfIsStep(s: Vm, t: Vm, m: F.Machine, e: nat, perm: nat)
    requires Inv(t, multiset{}) && Shows(s, m) && F.Enabled(m, F.MapSelf(e)) && e < |s.dirs| == |t.dirs|
    requires var ChildMapped(c, va, bits, snap) := m.proc[e].fork;
             BitsOf(perm) == bits && Shared(s, t, e, va, m.pt[F.Key(e, va)].frame, perm)
    ensures Shows(t, F.Apply(m, F.MapSelf(e)))
  {
    var ChildMapped(c, va, bits, snap) := m.proc[e].fork;
    MapShows(s, t, m, F.Apply(m, F.MapSelf(e)), F.Key(e, va), F.Key(e, va), perm);
  }

  // sys_page_unmap(0, PFTEMP) is the last step of pgfault.
  lemma UnmapIsStep(s: Vm, t: Vm, m: F.Machine, e: nat)
    requires Inv(t, multiset{}) && Shows(s, m) && F.Enabled(m, F.FaultUnmap(e)) && e < |s.dirs| == |t.dirs|
    requires Space(t, e) == Space(s, e) - {F.TEMP} && OthersKeep(s, t, e) && ContentsKept(s, t)
    ensures Shows(t, F.Apply(m, F.FaultUnmap(e)))
  {
    UnmappedIsOneEntry(s, t, e, F.TEMP);
    var n := F.Apply(m, F.FaultUnmap(e));
    forall k | k in n.pt ensures PageShown(t, n, n.pt[k].frame) {
      assert PageShown(s, m, m.pt[k].frame);
      StillShown(s, t, m, n, k);
    }
  }

  // PTE_U|PTE_W, with and without PTE_P
  lemma PlainBits()
    ensures BitsOf(6) == BitsOf(7) == F.Bits(true, false, false)
  {
  }

  lemma NewPageShown(s: Vm, t: Vm, m: F.Machine, n: F.Machine, dst: F.Key)
    requires Inv(t, multiset{}) && s.free != [] && s.free[0] < |t.mem| && t.mem[s.free[0]] == ZeroPage()
    requires n.mem == m.mem[s.free[0] := F.ZeroContent()] && dst in Tables(t) && Tables(t)[dst].frame == s.free[0]
    ensures PageShown(t, n, s.free[0])
  {
    MappedData(t, dst);
    ZeroWords();
  }

  lemma OldPageShown(s: Vm, t: Vm, m: F.Machine, n: F.Machine, k: F.Key)
    requires Inv(s, multiset{}) && Inv(t, multiset{}) && s.free != [] && ContentsKept(s, t)
    requires k in Tables(s) && k in Tables(t) && Tables(t)[k] == Tables(s)[k] && PageShown(s, m, Tables(s)[k].frame)
    requires n.mem == m.mem[s.free[0] := F.ZeroContent()]
    ensures PageShown(t, n, Tables(t)[k].frame)
  {
    MappedData(s, k);
    MappedData(t, k);
  }

  lemma AllocShows(s: Vm, t: Vm, m: F.Machine, n: F.Machine, dst: F.Key, perm: nat)
    requires Inv(s, multiset{}) && Inv(t, multiset{}) && Shows(s, m) && dst.env < |s.dirs| == |t.dirs|
    requires (perm == 6 || perm == 7) && Alloced(s, t, dst.env, dst.va, perm)
    requires n.mem == m.mem[s.free[0] := F.ZeroContent()]
    requires n.pt == m.pt[dst := F.Pte(s.free[0], F.Bits(true, false, false))]
    ensures Shows(t, n)
  {
    PlainBits();
    SharedIsOneEntry(s, t, dst.env, dst.va, s.free[0], perm);
    forall k | k in n.pt ensures PageShown(t, n, n.pt[k].frame) {
      if k == dst { NewPageShown(s, t, m, n, dst); } else { OldPageShown(s, t, m, n, k); }
    }
  }

  lemma FreePageUnmapped(s: Vm, m: F.Machine)
    requires Inv(s, multiset{}) && Shows(s, m) && s.free != []
    ensures F.Unmapped(m, s.free[0])
  {
    forall k | k in m.pt ensures m.pt[k].frame != s.free[0] { MappedData(s, k); }
  }

  // sys_page_alloc(0, PFTEMP, PTE_U|PTE_W|PTE_P) is the first step of pgfault: the page it
  // takes is one that nobody maps.
  lemma FaultAllocIsStep(s: Vm, t: Vm, m: F.Machine, e: nat, va: nat)
    requires Inv(s, multiset{}) && Inv(t, multiset{}) && Shows(s, m) && e < |s.dirs| == |t.dirs|
    requires Alloced(s, t, e, F.TEMP, 7)
    requires F.Idle(m, e) && F.Key(e, va) in m.pt && !m.pt[F.Key(e, va)].bits.w && m.pt[F.Key(e, va)].bits.cow
    ensures F.Enabled(m, F.FaultAlloc(e, va, s.free[0])) && Shows(t, F.Apply(m, F.FaultAlloc(e, va, s.free[0])))
  {
    FreePageUnmapped(s, m);
    AllocShows(s, t, m, F.Apply(m, F.FaultAlloc(e, va, s.free[0])), F.Key(e, F.TEMP), 7);
  }

  // sys_page_alloc(envid, UXSTACKTOP - PGSIZE, PTE_U|PTE_W) is the end of fork.
  lemma ForkEndIsStep(s: Vm, t: Vm, m: F.Machine, e: nat)
    requires Inv(s, multiset{}) && Inv(t, multiset{}) && Shows(s, m)
    requires F.Idle(m, e) && m.proc[e].fork.Scan? && m.proc[e].fork.va >= F.USER_PAGES
    requires m.proc[e].fork.child < |s.dirs| == |t.dirs| && Alloced(s, t, m.proc[e].fork.child, F.XSTACK, 6)
    ensures F.Enabled(m, F.ForkEnd(e, s.free[0])) && Shows(t, F.Apply(m, F.ForkEnd(e, s.free[0])))
  {
    FreePageUnmapped(s, m);
    AllocShows(s, t, m, F.Apply(m, F.ForkEnd(e, s.free[0])), F.Key(m.proc[e].fork.child, F.XSTACK), 6);
  }

  lemma ZeroWords()
    ensures F.ZeroContent() == ZeroPage()
  {
  }
}
