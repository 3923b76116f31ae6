/** The paging unit in user mode (Intel 80386 Programmer's Reference Manual, sections 5.2 and
    6.4): which page and word a linear address leads to, and whether the two levels of
    entries permit it.  Written with the machine's own numbers, on any address; the kernel's
    tables are then shown to mean to it what AddressSpaces says they mean. */
module Paging {
  import opened Mmu
  import opened PageTables
  import opened AddressSpaces

  // The directory entry and the table entry of an address, under directory d.
  function DirEntry(mem: seq<Page>, d: nat, a: Word): Word
    requires d < |mem|
  {
    mem[d][a / 0x40_0000]
  }

  predicate HasTableEntry(mem: seq<Page>, d: nat, a: Word)
    requires d < |mem|
  {
    DirEntry(mem, d, a) % 2 == 1 && DirEntry(mem, d, a) / 0x1000 < |mem|
  }

  function TableEntry(mem: seq<Page>, d: nat, a: Word): Word
    requires d < |mem| && HasTableEntry(mem, d, a)
  {
    mem[DirEntry(mem, d, a) / 0x1000][a / 0x1000 % 1024]
  }

  // A user-mode access needs both entries present and for users, and a store both writable.
  predicate Allows(mem: seq<Page>, d: nat, a: Word, write: bool)
    requires d < |mem|
  {
    && HasTableEntry(mem, d, a) && TableEntry(mem, d, a) % 2 == 1 && TableEntry(mem, d, a) / 0x1000 < |mem|
    && DirEntry(mem, d, a) / 4 % 2 == 1 && TableEntry(mem, d, a) / 4 % 2 == 1
    && (write ==> DirEntry(mem, d, a) / 2 % 2 == 1 && TableEntry(mem, d, a) / 2 % 2 == 1)
  }

  // The physical page and the word in it.
  function PageAt(mem: seq<Page>, d: nat, a: Word): (p: nat)
    requires d < |mem| && Allows(mem, d, a, false)
    ensures p < |mem|
  {
    TableEntry(mem, d, a) / 0x1000
  }

  function WordIn(a: Word): (i: nat)
    ensures i < NPTENTRIES
  {
    a % 0x1000 / 4
  }

  function Read(mem: seq<Page>, d: nat, a: Word): Word
    requires d < |mem| && Allows(mem, d, a, false)
  {
    mem[PageAt(mem, d, a)][WordIn(a)]
  }

  // ---------------------------------------------------------------- user addresses

  // The bits of an entry that are stored as its permission.
  lemma PermBits(w: Word)
    ensures w / 2 % 2 == Perm(w) / 2 % 2 && w / 4 % 2 == Perm(w) / 4 % 2
  {
    var q, r := w / PGSIZE, w % PGSIZE;
    assert w == 4 * (1024 * q) + r;
    Halves(1024 * q, r);
    assert w == 8 * (512 * q) + r;
    Fourths(512 * q, r);
  }

  lemma UserIndex(a: Word)
    requires a < 0xeec0_0000
    ensures a / 0x40_0000 == a / 0x1000 / 1024 < UTOP_PDX && a / 0x1000 < USER_PAGES
  {
  }

  // Below UTOP the paging unit sees the flat map of the directory: no more and no less is
  // mapped, and what a table entry permits no directory entry takes away.
  lemma UserAccess(s: Vm, extra: multiset<nat>, d: nat, a: Word, write: bool)
    requires Inv(s, extra) && IsDir(s, d) && a < 0xeec0_0000
    ensures Allows(s.mem, d, a, write) <==>
              && a / 0x1000 in AddrSpace(s, d) && AddrSpace(s, d)[a / 0x1000].perm / 4 % 2 == 1
              && (write ==> AddrSpace(s, d)[a / 0x1000].perm / 2 % 2 == 1)
    ensures Allows(s.mem, d, a, write) ==>
              Allows(s.mem, d, a, false) && PageAt(s.mem, d, a) == AddrSpace(s, d)[a / 0x1000].page
  {
    UserIndex(a);
    var v, i := a / 0x1000, a / 0x40_0000;
    assert EntryTyped(s, d, i);
    var pde := s.mem[d][i];
    if HasTableEntry(s.mem, d, a) {
      assert SlotOk(s.kern, d, i, pde);
      var pte := s.mem[Frame(pde)][v % NPTENTRIES];
      assert EntryTyped(s, Frame(pde), v % NPTENTRIES);
      PermBits(pte);
    }
  }

  // ---------------------------------------------------------------- the tables seen at UVPT

  lemma SelfSlot(a: Word)
    requires 0xef40_0000 <= a < 0xef80_0000
    ensures a / 0x40_0000 == 957
  {
  }

  // At 0xef7bd000 a program finds its page directory, to be read only.
  lemma DirectoryIsVisible(s: Vm, extra: multiset<nat>, d: nat, i: nat)
    requires Inv(s, extra) && IsDir(s, d) && i < 1024
    ensures var a: Word := 0xef7b_d000 + 4 * i;
            Allows(s.mem, d, a, false) && !Allows(s.mem, d, a, true) && Read(s.mem, d, a) == s.mem[d][i]
  {
    var a: Word := 0xef7b_d000 + 4 * i;
    SelfSlot(a);
    assert a / 0x1000 % 1024 == 957 && a % 0x1000 / 4 == i;
    assert EntryTyped(s, d, 957) && SlotOk(s.kern, d, 957, s.mem[d][957]);
  }

  // At 0xef400000 it finds its page tables, one after the other: where there is a table, the
  // entry of virtual page v; elsewhere it faults.
  lemma TablesAreVisible(s: Vm, extra: multiset<nat>, d: nat, v: nat)
    requires Inv(s, extra) && IsDir(s, d) && v < USER_PAGES
    ensures var a: Word := 0xef40_0000 + 4 * v;
            && (Allows(s.mem, d, a, false) <==> EntryOf(s, d, v).Some?) && !Allows(s.mem, d, a, true)
            && (EntryOf(s, d, v).Some? ==> Read(s.mem, d, a) == EntryOf(s, d, v).value)
  {
    var a: Word := 0xef40_0000 + 4 * v;
    SelfSlot(a);
    TableIndex(v);
    assert EntryTyped(s, d, 957) && SlotOk(s.kern, d, 957, s.mem[d][957]);
    var i := v / NPTENTRIES;
    assert EntryTyped(s, d, i) && SlotOk(s.kern, d, i, s.mem[d][i]);
  }

  lemma TableIndex(v: nat)
    requires v < USER_PAGES
    ensures var a: Word := 0xef40_0000 + 4 * v; a < 0xef80_0000 && a / 0x1000 % 1024 == v / 1024 && a % 0x1000 / 4 == v % 1024
  {
    assert 0xef40_0000 + 4 * v == 0x1000 * (0xef400 + v / 1024) + 4 * (v % 1024);
    assert 0xef400 + v / 1024 == 1024 * 957 + v / 1024;
  }

  // Above UTOP all directories have the kernel's mappings, but for that one slot.
  lemma KernelIsEverywhere(s: Vm, extra: multiset<nat>, d: nat, a: Word)
    requires Inv(s, extra) && IsDir(s, d) && a >= 0xeec0_0000 && !(0xef40_0000 <= a < 0xef80_0000)
    ensures DirEntry(s.mem, d, a) == s.kern[a / 0x40_0000]
  {
    var i := a / 0x40_0000;
    assert EntryTyped(s, d, i) && SlotOk(s.kern, d, i, s.mem[d][i]);
  }
}
