/** fs/serv.c: the table of open files.  A file id names a slot and how often the slot has
    been given out; the count of references to the slot's Fd page tells whether any client
    still has the file open. */
module OpenFiles {
  import opened Mmu

  const MAXOPEN: nat := 1024
  const E_INVAL: int := 3
  const E_NO_MEM: int := 4
  const E_MAX_OPEN: int := 10
  // how many times a slot is given out before its ids repeat
  const PERIOD: nat := 0x40_0000

  // The id of a slot that has been given out n times, in 32 bits.
  function IdOf(slot: nat, n: nat): Word { (slot + MAXOPEN * n) % 0x1_0000_0000 }

  // An id as openfile_alloc returns it, in an int.
  function AsInt(id: Word): int { if id < 0x8000_0000 then id else id - 0x1_0000_0000 }

  lemma IdSlot(slot: nat, n: nat)
    requires slot < MAXOPEN
    ensures IdOf(slot, n) % MAXOPEN == slot
    ensures IdOf(slot, n) == slot + MAXOPEN * (n % PERIOD)
  {
    assert n == PERIOD * (n / PERIOD) + n % PERIOD;
    assert slot + MAXOPEN * n == 0x1_0000_0000 * (n / PERIOD) + (slot + MAXOPEN * (n % PERIOD));
    Reduce(n / PERIOD, slot + MAXOPEN * (n % PERIOD));
    Residue(n % PERIOD, slot);
  }

  lemma Reduce(k: nat, x: nat)
    requires x < 0x1_0000_0000
    ensures (0x1_0000_0000 * k + x) % 0x1_0000_0000 == x
  {
  }

  lemma Residue(k: nat, x: nat)
    requires x < MAXOPEN
    ensures (x + MAXOPEN * k) % MAXOPEN == x
  {
  }

  lemma Quotient(slot: nat, k: nat)
    requires slot < MAXOPEN
    ensures (slot + MAXOPEN * k) / MAXOPEN == k
  {
  }

  lemma NextIdOf(slot: nat, n: nat)
    requires slot < MAXOPEN
    ensures (IdOf(slot, n) + MAXOPEN) % 0x1_0000_0000 == IdOf(slot, n + 1)
  {
    var x := slot + MAXOPEN * n;
    var k := x / 0x1_0000_0000;
    assert x + MAXOPEN == 0x1_0000_0000 * k + (IdOf(slot, n) + MAXOPEN);
    ReduceSum(k, IdOf(slot, n) + MAXOPEN);
  }

  lemma ReduceSum(k: nat, y: nat)
    ensures (0x1_0000_0000 * k + y) % 0x1_0000_0000 == y % 0x1_0000_0000
  {
  }

  // Two ids are the same exactly when they are of one slot and a whole number of periods apart.
  lemma SameId(slot: nat, n: nat, slot': nat, n': nat)
    requires slot < MAXOPEN && slot' < MAXOPEN
    ensures IdOf(slot, n) == IdOf(slot', n') <==> slot == slot' && n % 0x40_0000 == n' % 0x40_0000
  {
    IdSlot(slot, n);
    IdSlot(slot', n');
  }

  // serve_open takes a negative result of openfile_alloc for an error: so it takes every id of
  // a slot's second 2^21 turns, and of every other 2^21 after that.
  lemma IdLooksLikeError(slot: nat, n: nat)
    requires slot < MAXOPEN
    ensures AsInt(IdOf(slot, n)) < 0 <==> n / 0x20_0000 % 2 == 1
    ensures AsInt(IdOf(slot, n)) % 0x1_0000_0000 == IdOf(slot, n)
  {
    IdSlot(slot, n);
    HalfPeriod(n);
  }

  lemma HalfPeriod(n: nat)
    ensures n % PERIOD >= 0x20_0000 <==> n / 0x20_0000 % 2 == 1
  {
    var q, r := n / PERIOD, n % PERIOD;
    assert n == 0x20_0000 * (2 * q) + r;
    assert n / 0x20_0000 == 2 * q + r / 0x20_0000;
  }

  class OpenTable {
    const fileid: array<Word>
    const refs: array<nat>         // pageref of each slot's Fd page: the server's and the clients'
    ghost var given: seq<nat>      // how often each slot has been given out

    ghost predicate Valid()
      reads this, fileid, refs
    {
      && fileid.Length == refs.Length == |given| == MAXOPEN && fileid as object != refs
      && forall i {:trigger SlotOk(i)} :: 0 <= i < MAXOPEN ==> SlotOk(i)
    }

    ghost predicate SlotOk(i: nat)
      reads this, fileid, refs
      requires fileid.Length == refs.Length == |given| == MAXOPEN && i < MAXOPEN
    {
      fileid[i] == IdOf(i, given[i]) && (refs[i] == 0 <==> given[i] == 0)
    }

    // fs/serv.c:52
    constructor ()
      ensures Valid() && fresh(fileid) && fresh(refs) && given == seq(MAXOPEN, i => 0)
    {
      fileid := new Word[MAXOPEN](i => if 0 <= i < MAXOPEN then i else 0);
      refs := new nat[MAXOPEN](i => 0);
      given := seq(MAXOPEN, i => 0);
      new;
      forall i | 0 <= i < MAXOPEN ensures SlotOk(i) {}
    }

    // fs/serv.c:65; `memory` is what sys_page_alloc finds
    method OpenfileAlloc(memory: bool) returns (r: int, o: nat)
      requires Valid()
      modifies this, fileid, refs
      ensures Valid()
      ensures (forall i :: 0 <= i < MAXOPEN ==> old(refs[i]) > 1) ==> r == -E_MAX_OPEN && given == old(given)
      ensures (exists i :: 0 <= i < MAXOPEN && old(refs[i]) <= 1) ==>
                && o < MAXOPEN && old(refs[o]) <= 1 && (forall i :: 0 <= i < o ==> old(refs[i]) > 1)
                && if old(refs[o]) == 0 && !memory then r == -E_NO_MEM && given == old(given)
                   else r == AsInt(IdOf(o, old(given[o]) + 1)) && given == old(given)[o := old(given[o]) + 1] && refs[o] == 1
      ensures forall i :: 0 <= i < MAXOPEN && i != o ==> refs[i] == old(refs[i])
    {
      var i := 0;
      o := 0;
      while i < MAXOPEN
        invariant 0 <= i <= MAXOPEN && forall j :: 0 <= j < i ==> refs[j] > 1
      {
        if refs[i] <= 1 {
          o := i;
          if refs[i] == 0 && !memory { return -E_NO_MEM, o; }
          assert SlotOk(i);
          NextIdOf(i, given[i]);
          ghost var ids, counts := fileid[..], refs[..];
          refs[i] := 1;
          fileid[i] := (fileid[i] + MAXOPEN) % 0x1_0000_0000;
          given := given[i := given[i] + 1];
          forall j | 0 <= j < MAXOPEN ensures SlotOk(j) {
            assert j != i ==> old(SlotOk(j)) && fileid[j] == ids[j] && refs[j] == counts[j];
          }
          return AsInt(fileid[i]), o;
        }
        i := i + 1;
      }
      r := -E_MAX_OPEN;
    }

    // fs/serv.c:88.  An id is accepted if its generation is the one its slot is at, and either a
    // client has the page mapped or the slot has never been given out.
    method OpenfileLookup(id: Word) returns (r: int, po: nat)
      requires Valid()
      ensures po == id % MAXOPEN && (r == 0 || r == -E_INVAL)
      ensures r == 0 <==> (refs[po] >= 2 || given[po] == 0) && given[po] % PERIOD == id / MAXOPEN
    {
      po := id % MAXOPEN;
      assert SlotOk(po);
      IdSlot(po, given[po]);
      if refs[po] == 1 || fileid[po] != id { return -E_INVAL, po; }
      return 0, po;
    }

    // A client maps the Fd page: the reply to open, dup, fork.
    method ClientMaps(i: nat)
      requires Valid() && i < MAXOPEN && refs[i] >= 1
      modifies refs
      ensures Valid() && refs[i] == old(refs[i]) + 1 && forall j :: 0 <= j < MAXOPEN && j != i ==> refs[j] == old(refs[j])
    {
      ghost var counts := refs[..];
      refs[i] := refs[i] + 1;
      forall j | 0 <= j < MAXOPEN ensures SlotOk(j) { assert old(SlotOk(j)); assert j != i ==> refs[j] == counts[j]; }
    }

    // A client closes the file or exits.
    method ClientUnmaps(i: nat)
      requires Valid() && i < MAXOPEN && refs[i] >= 2
      modifies refs
      ensures Valid() && refs[i] == old(refs[i]) - 1 && forall j :: 0 <= j < MAXOPEN && j != i ==> refs[j] == old(refs[j])
    {
      ghost var counts := refs[..];
      refs[i] := refs[i] - 1;
      forall j | 0 <= j < MAXOPEN ensures SlotOk(j) { assert old(SlotOk(j)); assert j != i ==> refs[j] == counts[j]; }
    }

    // An id given out for slot i at its n-th turn is accepted exactly as long as a client has
    // the page mapped and the slot has not been given out again, short of a whole period.
    method StaleFileId(i: nat, n: nat) returns (r: int, po: nat)
      requires Valid() && i < MAXOPEN && 0 < n <= given[i]
      ensures r == 0 <==> refs[i] >= 2 && (given[i] - n) % PERIOD == 0
      ensures r == 0 ==> po == i
    {
      assert SlotOk(i);
      SameId(i, n, i, given[i]);
      IdSlot(i, n);
      PeriodsApart(given[i], n);
      IdSlot(i, given[i]);
      Quotient(i, n % PERIOD);
      r, po := OpenfileLookup(IdOf(i, n));
    }

    // A slot never given out accepts its initial id, although no file is open in it.
    method VirginSlotAccepts(i: nat) returns (r: int, po: nat)
      requires Valid() && i < MAXOPEN && given[i] == 0
      ensures r == 0 && po == i && refs[i] == 0
    {
      assert SlotOk(i);
      IdSlot(i, 0);
      r, po := OpenfileLookup(i);
    }
  }

  lemma PeriodsApart(m: nat, n: nat)
    requires n <= m
    ensures m % PERIOD == n % PERIOD <==> (m - n) % PERIOD == 0
  {
    var d := m - n;
    assert m == PERIOD * (n / PERIOD + d / PERIOD) + (n % PERIOD + d % PERIOD);
    if n % PERIOD + d % PERIOD < PERIOD {
      ModPeriod(n / PERIOD + d / PERIOD, n % PERIOD + d % PERIOD);
    } else {
      ModPeriod(n / PERIOD + d / PERIOD + 1, n % PERIOD + d % PERIOD - PERIOD);
    }
  }

  lemma ModPeriod(k: nat, x: nat)
    requires x < PERIOD
    ensures (PERIOD * k + x) % PERIOD == x
  {
  }
}
