/** Reference counts are counts of mappings: between system calls, pp_ref of a user page is the
    number of virtual pages of environments that are mapped to it. */
module Mappings {
  import opened Mmu
  import opened PageTables
  import opened AddressSpaces
  import opened Syscalls

  // A virtual page of an environment, and the table entry that maps it.
  datatype User = User(env: nat, page: nat)
  datatype Slot = Slot(frame: nat, index: nat)

  ghost function Mappers(s: Vm, p: nat): set<User> {
    set e: nat, v: nat | e < |s.dirs| && v in Space(s, e) && Space(s, e)[v].page == p :: User(e, v)
  }

  predicate InSlot(s: Vm, p: nat, f: nat, i: nat) {
    f < |s.mem| == |s.role| && i < NPTENTRIES && s.role[f] == Table && Refers(s.mem[f][i], p)
  }

  // The entries of tables below frame k, and of frame f before entry n, that refer to p.
  ghost function SlotsBelow(s: Vm, k: nat, p: nat): set<Slot> {
    set f: nat, i: nat | f < k && i < NPTENTRIES && InSlot(s, p, f, i) :: Slot(f, i)
  }

  ghost function SlotsOf(s: Vm, f: nat, n: nat, p: nat): set<Slot> {
    set i: nat | i < n && InSlot(s, p, f, i) :: Slot(f, i)
  }

  // ---------------------------------------------------------------- counting entries

  lemma SlotsOfAt(s: Vm, f: nat, n: nat, p: nat, x: Slot)
    ensures x in SlotsOf(s, f, n, p) <==> x.frame == f && x.index < n && InSlot(s, p, f, x.index)
  {
  }

  lemma SlotsOfNext(s: Vm, f: nat, n: nat, p: nat)
    ensures Slot(f, n) !in SlotsOf(s, f, n, p)
    ensures SlotsOf(s, f, n + 1, p) == SlotsOf(s, f, n, p) + if InSlot(s, p, f, n) then {Slot(f, n)} else {}
  {
    var before, after := SlotsOf(s, f, n, p), SlotsOf(s, f, n + 1, p);
    forall x: Slot ensures x in after <==> x in before || (x == Slot(f, n) && InSlot(s, p, f, n)) {
      SlotsOfAt(s, f, n, p, x);
      SlotsOfAt(s, f, n + 1, p, x);
    }
  }

  lemma {:induction false} SlotsOfSize(s: Vm, f: nat, n: nat, p: nat)
    requires f < |s.mem| == |s.role| && s.role[f] == Table && n <= NPTENTRIES
    ensures |SlotsOf(s, f, n, p)| == RefsIn(s.mem[f], n, p)
  {
    if n == 0 {
      assert SlotsOf(s, f, 0, p) == {};
    } else {
      SlotsOfSize(s, f, n - 1, p);
      SlotsOfNext(s, f, n - 1, p);
    }
  }

  lemma SlotsBelowNext(s: Vm, f: nat, p: nat)
    requires f < |s.mem| == |s.role|
    ensures SlotsBelow(s, f, p) !! SlotsOf(s, f, NPTENTRIES, p)
    ensures SlotsBelow(s, f + 1, p) == SlotsBelow(s, f, p) + SlotsOf(s, f, NPTENTRIES, p)
    ensures s.role[f] != Table ==> SlotsBelow(s, f + 1, p) == SlotsBelow(s, f, p)
  {
    var before, after := SlotsBelow(s, f, p), SlotsBelow(s, f + 1, p);
    forall x: Slot ensures x in after <==> x in before || x in SlotsOf(s, f, NPTENTRIES, p) {
      SlotsOfAt(s, f, NPTENTRIES, p, x);
    }
  }

  lemma {:induction false} SlotsBelowSize(s: Vm, k: nat, p: nat)
    requires Inv(s, multiset{}) && k <= |s.mem| && p < |s.role| && s.role[p] == Data
    ensures |SlotsBelow(s, k, p)| == CountFrames(s.mem, s.role, k, p)
  {
    if k == 0 {
      assert SlotsBelow(s, 0, p) == {};
    } else {
      SlotsBelowSize(s, k - 1, p);
      var f := k - 1;
      SlotsBelowNext(s, f, p);
      if s.role[f] == Table {
        SlotsOfSize(s, f, NPTENTRIES, p);
      } else {
        NoDataBelow(s, f, p, Limit(s.role[f]));
      }
    }
  }

  // Only tables refer to user pages.
  lemma {:induction false} NoDataBelow(s: Vm, f: nat, p: nat, n: nat)
    requires Inv(s, multiset{}) && f < |s.mem| && s.role[f] != Table && p < |s.role| && s.role[p] == Data && n <= Limit(s.role[f])
    ensures RefsIn(s.mem[f], n, p) == 0
  {
    if n > 0 {
      NoDataBelow(s, f, p, n - 1);
      assert EntryTyped(s, f, n - 1);
    }
  }

  lemma {:induction false} NoDirIs(s: Vm, k: nat, p: nat)
    requires Inv(s, multiset{}) && k <= |s.dirs| && p < |s.role| && s.role[p] != Directory
    ensures CountDirs(s.dirs, k, p) == 0
  {
    if k > 0 {
      NoDirIs(s, k - 1, p);
      assert DirTyped(s, k - 1);
    }
  }

  // ---------------------------------------------------------------- who holds a table

  lemma {:induction false} SomeEntry(pg: seq<Word>, n: nat, p: nat) returns (i: nat)
    requires n <= |pg| && RefsIn(pg, n, p) > 0
    ensures i < n && Refers(pg[i], p)
  {
    if Refers(pg[n - 1], p) {
      i := n - 1;
    } else {
      i := SomeEntry(pg, n - 1, p);
    }
  }

  lemma {:induction false} SomeFrame(s: Vm, k: nat, p: nat) returns (f: nat, i: nat)
    requires k <= |s.mem| == |s.role| && CountFrames(s.mem, s.role, k, p) > 0
    ensures f < k && i < Limit(s.role[f]) && Refers(s.mem[f][i], p)
  {
    if RefsIn(s.mem[k - 1], Limit(s.role[k - 1]), p) > 0 {
      f := k - 1;
      i := SomeEntry(s.mem[f], Limit(s.role[f]), p);
    } else {
      f, i := SomeFrame(s, k - 1, p);
    }
  }

  lemma {:induction false} SomeDir(s: Vm, k: nat, p: nat) returns (e: nat)
    requires k <= |s.dirs| && CountDirs(s.dirs, k, p) > 0
    ensures e < k && s.dirs[e] == Some(p)
  {
    if s.dirs[k - 1] == Some(p) {
      e := k - 1;
    } else {
      e := SomeDir(s, k - 1, p);
    }
  }

  lemma {:induction false} NoFrameRefers(s: Vm, k: nat, d: nat)
    requires Inv(s, multiset{}) && k <= |s.mem| && d < |s.role| && s.role[d] == Directory
    ensures CountFrames(s.mem, s.role, k, d) == 0
  {
    if k > 0 {
      NoFrameRefers(s, k - 1, d);
      NoEntryRefers(s, k - 1, Limit(s.role[k - 1]), d);
    }
  }

  lemma {:induction false} NoEntryRefers(s: Vm, f: nat, n: nat, d: nat)
    requires Inv(s, multiset{}) && f < |s.mem| && n <= Limit(s.role[f]) && d < |s.role| && s.role[d] == Directory
    ensures RefsIn(s.mem[f], n, d) == 0
  {
    if n > 0 {
      NoEntryRefers(s, f, n - 1, d);
      assert EntryTyped(s, f, n - 1);
    }
  }

  // A table hangs in the directory of some environment.
  lemma TableHasHolder(s: Vm, f: nat) returns (e: nat, j: nat)
    requires Inv(s, multiset{}) && f < |s.mem| && s.role[f] == Table
    ensures e < |s.dirs| && s.dirs[e].Some? && s.dirs[e].value < |s.mem| && j < UTOP_PDX
    ensures Refers(s.mem[s.dirs[e].value][j], f)
  {
    assert RefRange(s, f) && Exact(s, multiset{}, f);
    NoDirIs(s, |s.dirs|, f);
    var d;
    d, j := SomeFrame(s, |s.mem|, f);
    assert EntryTyped(s, d, j);
    assert s.role[d] == Directory;
    assert RefRange(s, d) && Exact(s, multiset{}, d);
    NoFrameRefers(s, |s.mem|, d);
    e := SomeDir(s, |s.dirs|, d);
  }

  // ---------------------------------------------------------------- entries and mappings

  ghost function PlaceOf(s: Vm, u: User): Slot
    requires u.env < |s.dirs| && u.page in Space(s, u.env)
  {
    Slot(Frame(s.mem[s.dirs[u.env].value][u.page / NPTENTRIES]), u.page % NPTENTRIES)
  }

  lemma PlaceInTable(s: Vm, p: nat, u: User)
    requires Inv(s, multiset{}) && u in Mappers(s, p)
    ensures PlaceOf(s, u) in SlotsBelow(s, |s.mem|, p)
  {
    assert DirTyped(s, u.env);
    var d := s.dirs[u.env].value;
    assert EntryTyped(s, d, u.page / NPTENTRIES);
    assert InSlot(s, p, PlaceOf(s, u).frame, PlaceOf(s, u).index);
  }

  lemma PlaceIsOneToOne(s: Vm, p: nat, u: User, w: User)
    requires Inv(s, multiset{}) && u in Mappers(s, p) && w in Mappers(s, p) && PlaceOf(s, u) == PlaceOf(s, w)
    ensures u == w
  {
    assert DirTyped(s, u.env) && DirTyped(s, w.env);
    var d, d' := s.dirs[u.env].value, s.dirs[w.env].value;
    TableHasOneParent(s, multiset{}, d, u.page / NPTENTRIES, d', w.page / NPTENTRIES);
    DirectoryHasOneOwner(s, multiset{}, u.env, w.env);
  }

  lemma EverySlotMaps(s: Vm, p: nat, x: Slot) returns (u: User)
    requires Inv(s, multiset{}) && x in SlotsBelow(s, |s.mem|, p)
    ensures u in Mappers(s, p) && PlaceOf(s, u) == x
  {
    var e, j := TableHasHolder(s, x.frame);
    var d, v := s.dirs[e].value, NPTENTRIES * j + x.index;
    assert v / NPTENTRIES == j && v % NPTENTRIES == x.index && v < USER_PAGES;
    assert DirTyped(s, e);
    assert EntryOf(s, d, v) == Some(s.mem[x.frame][x.index]);
    assert Mapped(s, d, v);
    u := User(e, v);
  }

  lemma {:induction false} OneToOneSize(m: map<User, Slot>)
    requires forall u, w :: u in m && w in m && m[u] == m[w] ==> u == w
    ensures |m.Keys| == |m.Values|
  {
    if m.Keys == {} {
      assert m.Values == {};
    } else {
      var u :| u in m;
      var rest := m - {u};
      OneToOneSize(rest);
      assert rest.Keys == m.Keys - {u};
      forall x | x in m.Values ensures x in rest.Values + {m[u]} {
        var w :| w in m && m[w] == x;
        assert w != u ==> w in rest && rest[w] == x;
      }
      assert m.Values == rest.Values + {m[u]} && m[u] !in rest.Values;
    }
  }

  // pp_ref of a user page is the number of its mappings, over all environments.
  lemma CountIsMappings(s: Vm, p: nat)
    requires Inv(s, multiset{}) && p < |s.role| && s.role[p] == Data
    ensures s.refs[p] == |Mappers(s, p)|
  {
    assert Exact(s, multiset{}, p);
    NoDirIs(s, |s.dirs|, p);
    SlotsBelowSize(s, |s.mem|, p);
    PairedOff(s, p);
  }

  lemma PairedOff(s: Vm, p: nat)
    requires Inv(s, multiset{})
    ensures |Mappers(s, p)| == |SlotsBelow(s, |s.mem|, p)|
  {
    var users := Mappers(s, p);
    var m := map u | u in users :: PlaceOf(s, u);
    assert m.Keys == users;
    forall u, w | u in m && w in m && m[u] == m[w] ensures u == w { PlaceIsOneToOne(s, p, u, w); }
    OneToOneSize(m);
    PlacesAreSlots(s, p, m);
  }

  lemma PlacesAreSlots(s: Vm, p: nat, m: map<User, Slot>)
    requires Inv(s, multiset{}) && m.Keys == Mappers(s, p) && forall u :: u in m ==> m[u] == PlaceOf(s, u)
    ensures m.Values == SlotsBelow(s, |s.mem|, p)
  {
    var slots := SlotsBelow(s, |s.mem|, p);
    forall x | x in m.Values ensures x in slots {
      var u :| u in m && m[u] == x;
      PlaceInTable(s, p, u);
    }
    forall x | x in slots ensures x in m.Values {
      var u := EverySlotMaps(s, p, x);
      assert u in m && m[u] == x;
    }
  }

  // A page that no environment maps is not in user hands.
  lemma UnmappedIsNotData(s: Vm, p: nat)
    requires Inv(s, multiset{}) && p < |s.role| && Mappers(s, p) == {}
    ensures s.role[p] != Data
  {
    assert RefRange(s, p);
    if s.role[p] == Data { CountIsMappings(s, p); }
  }
}
