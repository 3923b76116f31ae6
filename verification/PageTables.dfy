/** Reference counting and the two-level tables, on values.

    Memory is a sequence of pages of 1024 words.  A page directory and a page table are
    pages like any other; the ghost `role` of a page says how its words are to be read.
    Counting references then needs one function only: the entries in the user half of a
    directory and all entries of a table are the references, plus one for every
    environment's pointer to its directory. */
module PageTables {
  import opened Mmu

  datatype Role = Reserved | Free | Held | Data | Table | Directory

  datatype Vm = Vm(
    refs: seq<nat>,          // pages[i].pp_ref
    mem: seq<Page>,          // physical memory
    role: seq<Role>,
    free: seq<nat>,          // page_free_list, first to last
    dirs: seq<Option<nat>>,  // env_pgdir, as a page number
    kern: KernDir            // kern_pgdir, whose upper half every directory has
  )

  // ---------------------------------------------------------------- counting

  predicate Refers(w: Word, p: nat) { Present(w) && Frame(w) == p }

  function Hit(w: Word, p: nat): nat { if Refers(w, p) then 1 else 0 }

  function RefsIn(pg: seq<Word>, n: nat, p: nat): nat
    requires n <= |pg|
  {
    if n == 0 then 0 else RefsIn(pg, n - 1, p) + Hit(pg[n - 1], p)
  }

  // How many of a page's words are references.
  function Limit(r: Role): nat {
    match r
    case Table => NPTENTRIES
    case Directory => UTOP_PDX
    case _ => 0
  }

  function CountFrames(mem: seq<Page>, role: seq<Role>, k: nat, p: nat): nat
    requires k <= |mem| == |role|
  {
    if k == 0 then 0
    else CountFrames(mem, role, k - 1, p) + RefsIn(mem[k - 1], Limit(role[k - 1]), p)
  }

  function DirHit(d: Option<nat>, p: nat): nat { if d == Some(p) then 1 else 0 }

  function CountDirs(dirs: seq<Option<nat>>, k: nat, p: nat): nat
    requires k <= |dirs|
  {
    if k == 0 then 0 else CountDirs(dirs, k - 1, p) + DirHit(dirs[k - 1], p)
  }

  // Every reference to page p that the machine holds.
  ghost function Total(s: Vm, p: nat): nat
    requires |s.mem| == |s.role|
  {
    CountFrames(s.mem, s.role, |s.mem|, p) + CountDirs(s.dirs, |s.dirs|, p)
  }

  // ---------------------------------------------------------------- the invariant

  // The clauses of the invariant are named predicates of one page or one entry, and each
  // quantifier is instantiated by mentioning the predicate only.

  ghost predicate OnListIffFree(s: Vm, p: nat)
    requires p < |s.role|
  {
    p in s.free <==> s.role[p] == Free
  }

  ghost predicate Shape(s: Vm) {
    && |s.refs| == |s.mem| == |s.role| <= 0x10_0000
    && (forall i, j :: 0 <= i < j < |s.free| ==> s.free[i] != s.free[j])
    && (forall i :: 0 <= i < |s.free| ==> s.free[i] < |s.role|)
    && (forall p {:trigger OnListIffFree(s, p)} :: 0 <= p < |s.role| ==> OnListIffFree(s, p))
  }

  // Entries lead from directories to tables to data pages, never across.
  ghost predicate EntryTyped(s: Vm, f: nat, i: nat)
    requires f < |s.mem| == |s.role| && i < NPTENTRIES
  {
    && (Present(s.mem[f][i]) && i < Limit(s.role[f]) ==>
          Frame(s.mem[f][i]) < |s.mem| && s.role[Frame(s.mem[f][i])] == (if s.role[f] == Directory then Table else Data))
    && (s.role[f] == Table && !Present(s.mem[f][i]) ==> s.mem[f][i] == 0)
    && (s.role[f] == Directory ==> SlotOk(s.kern, f, i, s.mem[f][i]))
  }

  // Slot i of directory d: in the user half, what the tables permit is not restricted; at UVPT
  // the directory itself, for users to read; elsewhere what kern_pgdir has.
  predicate SlotOk(kern: Page, d: nat, i: nat, w: Word)
    requires i < NPTENTRIES
  {
    if i < UTOP_PDX then Present(w) ==> User(w) && Writable(w)
    else if i == UVPT_PDX then Present(w) && Frame(w) == d && User(w) && !Writable(w)
    else w == kern[i]
  }

  ghost predicate DirTyped(s: Vm, e: nat)
    requires e < |s.dirs| && |s.mem| == |s.role|
  {
    s.dirs[e].Some? ==> s.dirs[e].value < |s.mem| && s.role[s.dirs[e].value] == Directory
  }

  ghost predicate Typed(s: Vm)
    requires Shape(s)
  {
    && (forall f, i {:trigger EntryTyped(s, f, i)} :: 0 <= f < |s.mem| && 0 <= i < NPTENTRIES ==> EntryTyped(s, f, i))
    && (forall e {:trigger DirTyped(s, e)} :: 0 <= e < |s.dirs| ==> DirTyped(s, e))
  }

  ghost predicate RefRange(s: Vm, p: nat)
    requires p < |s.role| == |s.refs|
  {
    match s.role[p]
    case Table => s.refs[p] == 1
    case Directory => s.refs[p] == 1
    case Data => s.refs[p] >= 1
    case Reserved => true
    case _ => s.refs[p] == 0
  }

  ghost predicate Exact(s: Vm, extra: multiset<nat>, p: nat)
    requires p < |s.role| == |s.refs| == |s.mem|
  {
    s.role[p] != Reserved ==> s.refs[p] == Total(s, p) + extra[p]
  }

  // `extra` holds the references the running kernel function has counted but not yet
  // stored, or has erased but not yet discounted.  Between system calls it is empty.
  ghost predicate Inv(s: Vm, extra: multiset<nat>) {
    && Shape(s) && Typed(s)
    && (forall p {:trigger RefRange(s, p)} :: 0 <= p < |s.role| ==> RefRange(s, p))
    && (forall p {:trigger Exact(s, extra, p)} :: 0 <= p < |s.role| ==> Exact(s, extra, p))
  }

  // Pages taken from the free list and not yet in use by anything.
  ghost function HeldPages(s: Vm): set<nat> {
    set p | 0 <= p < |s.role| && s.role[p] == Held
  }

  // ---------------------------------------------------------------- counting lemmas

  lemma {:induction false} RefsInUpdate(pg: seq<Word>, i: nat, w: Word, n: nat, p: nat)
    requires i < |pg| && n <= |pg|
    ensures RefsIn(pg[i := w], n, p) == RefsIn(pg, n, p) + (if i < n then Hit(w, p) - Hit(pg[i], p) else 0)
  {
    if n > 0 { RefsInUpdate(pg, i, w, n - 1, p); }
  }

  lemma {:induction false} RefsInNone(pg: seq<Word>, n: nat, p: nat)
    requires n <= |pg|
    requires forall i :: 0 <= i < n ==> !Refers(pg[i], p)
    ensures RefsIn(pg, n, p) == 0
  {
    if n > 0 { RefsInNone(pg, n - 1, p); }
  }

  lemma {:induction false} RefsInSome(pg: seq<Word>, n: nat, i: nat, p: nat)
    requires i < n <= |pg| && Refers(pg[i], p)
    ensures RefsIn(pg, n, p) >= 1
  {
    if i < n - 1 { RefsInSome(pg, n - 1, i, p); }
  }

  lemma {:induction false} RefsInTwo(pg: seq<Word>, n: nat, i: nat, j: nat, p: nat)
    requires i < j < n <= |pg| && Refers(pg[i], p) && Refers(pg[j], p)
    ensures RefsIn(pg, n, p) >= 2
  {
    if j < n - 1 { RefsInTwo(pg, n - 1, i, j, p); } else { RefsInSome(pg, n - 1, i, p); }
  }

  // Changing one page, in content or in role, changes the count by that page's share.
  lemma {:induction false} CountFramesUpdate(mem: seq<Page>, role: seq<Role>, f: nat, pg: Page, r: Role, k: nat, p: nat)
    requires k <= |mem| == |role| && f < |mem|
    ensures CountFrames(mem[f := pg], role[f := r], k, p)
         == CountFrames(mem, role, k, p)
            + (if f < k then RefsIn(pg, Limit(r), p) - RefsIn(mem[f], Limit(role[f]), p) else 0)
  {
    if k > 0 { CountFramesUpdate(mem, role, f, pg, r, k - 1, p); }
  }

  lemma {:induction false} CountFramesOne(mem: seq<Page>, role: seq<Role>, k: nat, f: nat, p: nat)
    requires f < k <= |mem| == |role|
    ensures CountFrames(mem, role, k, p) >= RefsIn(mem[f], Limit(role[f]), p)
  {
    if f < k - 1 { CountFramesOne(mem, role, k - 1, f, p); }
  }

  lemma {:induction false} CountFramesTwo(mem: seq<Page>, role: seq<Role>, k: nat, f: nat, g: nat, p: nat)
    requires f < g < k <= |mem| == |role|
    ensures CountFrames(mem, role, k, p)
         >= RefsIn(mem[f], Limit(role[f]), p) + RefsIn(mem[g], Limit(role[g]), p)
  {
    if g < k - 1 { CountFramesTwo(mem, role, k - 1, f, g, p); } else { CountFramesOne(mem, role, k - 1, f, p); }
  }

  lemma {:induction false} CountDirsUpdate(dirs: seq<Option<nat>>, e: nat, d: Option<nat>, k: nat, p: nat)
    requires e < |dirs| && k <= |dirs|
    ensures CountDirs(dirs[e := d], k, p)
         == CountDirs(dirs, k, p) + (if e < k then DirHit(d, p) - DirHit(dirs[e], p) else 0)
  {
    if k > 0 { CountDirsUpdate(dirs, e, d, k - 1, p); }
  }

  lemma {:induction false} CountDirsOne(dirs: seq<Option<nat>>, k: nat, e: nat, p: nat)
    requires e < k <= |dirs| && dirs[e] == Some(p)
    ensures CountDirs(dirs, k, p) >= 1
  {
    if e < k - 1 { CountDirsOne(dirs, k - 1, e, p); }
  }

  lemma {:induction false} CountDirsTwo(dirs: seq<Option<nat>>, k: nat, e: nat, e': nat, p: nat)
    requires e < e' < k <= |dirs| && dirs[e] == dirs[e'] == Some(p)
    ensures CountDirs(dirs, k, p) >= 2
  {
    if e' < k - 1 { CountDirsTwo(dirs, k - 1, e, e', p); } else { CountDirsOne(dirs, k - 1, e, p); }
  }
}
