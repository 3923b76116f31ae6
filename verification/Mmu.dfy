/** The paging unit's data layout: page directories, page tables and their entries
    (inc/mmu.h; Intel 80386 Programmer's Reference Manual, section 5.2). */
module Mmu {

  const PGSIZE: nat := 4096
  const PTSIZE: nat := 0x40_0000
  const NPTENTRIES: nat := 1024
  const UTOP: nat := 0xeec0_0000
  // PDX(UTOP): the first page-directory slot that user code does not own
  const UTOP_PDX: nat := 955

  type Word = w: nat | w < 0x1_0000_0000
  type Page = p: seq<Word> | |p| == NPTENTRIES witness seq(1024, i => 0)

  // memset(page, 0, PGSIZE)
  function ZeroPage(): (p: Page)
    ensures forall i :: 0 <= i < NPTENTRIES ==> p[i] == 0
  {
    seq(NPTENTRIES, i => 0)
  }

  datatype Option<+T> = None | Some(value: T)

  function Pdx(va: Word): nat { va / PTSIZE }

  function Ptx(va: Word): nat { va / PGSIZE % NPTENTRIES }

  function Vpn(va: Word): nat { va / PGSIZE }

  // An entry is a frame number in the high 20 bits and permission bits in the low 12.
  predicate Present(w: Word) { w % 2 == 1 }

  predicate Writable(w: Word) { w / 2 % 2 == 1 }

  predicate User(w: Word) { w / 4 % 2 == 1 }

  function Frame(w: Word): nat { w / PGSIZE }

  function Perm(w: Word): nat { w % PGSIZE }

  // page2pa(pp) | perm | PTE_P
  function MakeEntry(pp: nat, perm: nat): (w: Word)
    requires pp < 0x10_0000 && perm < PGSIZE
    ensures Present(w) && Frame(w) == pp
    ensures Perm(w) == WithPresent(perm)
  {
    var w := pp * PGSIZE + WithPresent(perm);
    assert w / 2 == pp * 2048 + WithPresent(perm) / 2;
    w
  }

  // The bits the paging unit looks at.
  lemma EntryBits(pp: nat, perm: nat)
    requires pp < 0x10_0000 && perm < PGSIZE
    ensures Writable(MakeEntry(pp, perm)) <==> perm / 2 % 2 == 1
    ensures User(MakeEntry(pp, perm)) <==> perm / 4 % 2 == 1
  {
    var w, r := MakeEntry(pp, perm), WithPresent(perm);
    Halves(1024 * pp, r);
    Fourths(512 * pp, r);
    assert r / 2 == perm / 2;
    assert r / 4 == perm / 4;
    assert w == 4 * (1024 * pp) + r;
  }

  lemma Halves(k: nat, r: nat)
    ensures (4 * k + r) / 2 % 2 == r / 2 % 2
  {
    assert 4 * k + r == 2 * (2 * k) + r;
    EvenSum(k, r / 2);
  }

  lemma Fourths(k: nat, r: nat)
    ensures (8 * k + r) / 4 % 2 == r / 4 % 2
  {
    FourthOf(2 * k, r);
    EvenSum(k, r / 4);
  }

  lemma FourthOf(k: nat, r: nat)
    ensures (4 * k + r) / 4 == k + r / 4
  {
  }

  lemma EvenSum(k: nat, r: nat)
    ensures (2 * k + r) % 2 == r % 2
  {
  }

  function WithPresent(perm: nat): (r: nat)
    requires perm < PGSIZE
    ensures r < PGSIZE && r % 2 == 1
  {
    if perm % 2 == 1 then perm else perm + 1
  }

  // kern_pgdir: its user half is empty once mem_init is done.
  type KernDir = p: Page | forall i :: 0 <= i < UTOP_PDX ==> !Present(p[i]) witness ZeroPage()

  // PDX(UVPT), the slot through which a directory maps itself
  const UVPT_PDX: nat := 957

  // The permission test of the page system calls: only PTE_P, PTE_W, PTE_U and the
  // three PTE_AVAIL bits may be set, and PTE_U must be.
  predicate LegalPerm(perm: nat) { perm < PGSIZE && perm / 8 % 64 == 0 && perm / 4 % 2 == 1 }

  // So the legal permissions are PTE_U (4) with any of PTE_P and PTE_W (1, 2) and any of the
  // three bits from 0x200 on.
  lemma LegalPermsAre(perm: nat)
    ensures LegalPerm(perm) <==> perm / 0x200 < 8 && 4 <= perm % 0x200 < 8
  {
    var low := perm % 0x200;
    assert perm == 0x200 * (perm / 0x200) + low;
    assert perm / 8 == 64 * (perm / 0x200) + low / 8;
    assert perm / 4 == 2 * (64 * (perm / 0x200)) + low / 4;
  }

  // The two index fields are the digits of the virtual page number in base 1024.
  lemma VpnDigits(va: Word)
    ensures Vpn(va) == Pdx(va) * NPTENTRIES + Ptx(va)
    ensures Pdx(va) == Vpn(va) / NPTENTRIES && Ptx(va) == Vpn(va) % NPTENTRIES
    ensures va < UTOP <==> Pdx(va) < UTOP_PDX
  {
  }
}
