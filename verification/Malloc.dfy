/** lib/malloc.c: isfree, malloc and free, over the pages they map with system calls. */
module Malloc {
  import opened Mmu
  import opened HeapModel

  // n = ROUNDUP(n, 4) in 32 bits
  function Rounded(n: Word): nat { (n + 3) / 4 * 4 % 0x1_0000_0000 }

  // The last three sizes round up to 2^32, that is to 0.
  lemma RoundedCovers(n: Word)
    ensures Rounded(n) % 4 == 0
    ensures Rounded(n) >= n <==> n <= 0xffff_fffc
    ensures n > 0xffff_fffc ==> Rounded(n) == 0
  {
    var q := (n + 3) / 4;
    assert q * 4 % 4 == 0;
    if n > 0xffff_fffc { assert q == 0x4000_0000; } else { assert q * 4 < 0x1_0000_0000; }
  }

  // Nobody maps page p, and it does not lie beyond the arena.
  predicate Unused(cont: map<nat, bool>, foreign: set<nat>, p: nat) {
    p < 0x1_0000 && p !in cont && p !in foreign
  }

  // n bytes from the start of page `first` on.
  ghost predicate Room(cont: map<nat, bool>, foreign: set<nat>, first: nat, n: nat)
    requires n > 0
  {
    forall p {:trigger Unused(cont, foreign, p)} :: first <= p <= first + (n - 1) / PGSIZE ==> Unused(cont, foreign, p)
  }

  // No page of the arena below `end` starts enough room for a request of n bytes and a count.
  ghost predicate NoRoomBelow(cont: map<nat, bool>, foreign: set<nat>, end: nat, n: nat) {
    forall p {:trigger Room(cont, foreign, p, n + 4)} :: MBEGIN / PGSIZE <= p < end ==> !Room(cont, foreign, p, n + 4)
  }

  // All pages below page `end` are mapped.
  ghost predicate AllUsedBelow(cont: map<nat, bool>, foreign: set<nat>, end: nat) {
    forall p {:trigger Unused(cont, foreign, p)} :: 0 <= p < end ==> !Unused(cont, foreign, p)
  }

  // The one way out of the arena: mptr is in the last page and the request does not fit there.
  // Afterwards mptr is at its end or beyond.
  predicate Overruns(mptr: nat, n: nat) {
    Midway(mptr) && mptr / PGSIZE == MEND / PGSIZE - 1 && mptr / PGSIZE != (mptr + n + 3) / PGSIZE
  }

  predicate Beyond(mptr: nat, n: nat) { mptr >= MEND || Overruns(mptr, n) }

  // The end of the range would not be a 32-bit address.
  predicate GoesRound(a: nat, n: nat) { a + n + 4 >= WORD_LIMIT }

  class Allocator {
    var mptr: nat
    var cont: map<nat, bool>
    var ref: map<nat, nat>
    const foreign: set<nat>      // pages that something else has mapped
    // Whether the n-th sys_page_alloc finds memory.
    const granted: nat -> bool
    var asked: nat
    ghost var live: seq<Block>
    ghost var stranded: set<nat>

    ghost function View(): Heap
      reads this
    {
      Heap(mptr, cont, ref, live, stranded)
    }

    ghost predicate Valid()
      reads this
    {
      Inv(View()) && cont.Keys !! foreign
    }

    // Every page asked for since the n-th has been granted.
    ghost predicate AllMet(n: nat)
      reads this
    {
      forall k {:trigger granted(k)} :: n <= k < asked ==> granted(k)
    }

    constructor (foreign: set<nat>, granted: nat -> bool)
      ensures Valid() && mptr == 0 && live == [] && stranded == {} && cont == map[] && asked == 0
      ensures this.foreign == foreign && this.granted == granted
    {
      this.foreign, this.granted := foreign, granted;
      mptr, cont, ref, live, stranded, asked := 0, map[], map[], [], {}, 0;
    }

    // lib/malloc.c:29.  When the end of the range wraps, nothing is looked at.
    method IsFree(v: nat, n: nat) returns (r: bool)
      requires v % PGSIZE == 0 && v < WORD_LIMIT && 0 < n < WORD_LIMIT
      ensures r <==> v + n >= WORD_LIMIT || Room(cont, foreign, v / PGSIZE, n)
    {
      var va, endVa := v, (v + n) % WORD_LIMIT;
      ghost var first := v / PGSIZE;
      assert v + n >= WORD_LIMIT ==> endVa == v + n - WORD_LIMIT;
      while va < endVa
        invariant va == PGSIZE * (va / PGSIZE) && first <= va / PGSIZE
        invariant v + n >= WORD_LIMIT ==> va == v
        invariant v + n < WORD_LIMIT ==> va / PGSIZE <= first + (n - 1) / PGSIZE + 1
        invariant forall p {:trigger Unused(cont, foreign, p)} :: first <= p < va / PGSIZE ==> Unused(cont, foreign, p)
        decreases endVa - va
      {
        ghost var p := va / PGSIZE;
        LastOfRun(first, v, n, va, p);
        if va >= MEND || va / PGSIZE in cont || va / PGSIZE in foreign {
          assert !Unused(cont, foreign, p);
          return false;
        }
        va := va + PGSIZE;
        JoinAddress(p + 1, 0);
      }
      if v + n < WORD_LIMIT { PastRun(first, v, n, va, va / PGSIZE); }
      return true;
    }

    // sys_page_alloc; a new page is zero
    method SysPageAlloc(p: nat, continued: bool) returns (ok: bool)
      modifies `cont, `ref, `asked
      ensures ok ==> cont == old(cont)[p := continued] && ref == old(ref)[p := 0]
      ensures !ok ==> cont == old(cont) && ref == old(ref)
      ensures old(asked) <= asked && (ok <==> p < UTOP / PGSIZE && AllMet(old(asked)))
    {
      if p >= UTOP / PGSIZE { return false; }
      ok := granted(asked);
      asked := asked + 1;
      if ok {
        cont := cont[p := continued];
        ref := ref[p := 0];
      }
    }

    method SysPageUnmap(p: nat)
      modifies `cont
      ensures cont == old(cont) - {p}
    {
      cont := cont - {p};
    }

    // lib/malloc.c:114, for v that is a live block or mptr: `last` is where the pages marked
    // continued end.
    method Release(v: nat, ghost last: nat)
      requires MBEGIN <= v < MEND && last < MEND / PGSIZE && RunEnds(cont, ref, v / PGSIZE, last)
      modifies `cont, `ref
      ensures cont == FreedPages(old(cont), old(ref), v / PGSIZE, last)
      ensures ref == FreedRef(old(ref), last)
    {
      var c: nat := v / PGSIZE;
      ghost var pages := cont;
      while cont[c]
        invariant v / PGSIZE <= c <= last && ref == old(ref)
        invariant cont == pages - Pages(v / PGSIZE, c)
        decreases last - c
      {
        SysPageUnmap(c);
        c := c + 1;
        assert MBEGIN / PGSIZE <= c < MEND / PGSIZE;
      }
      ref := ref[c := ref[c] - 1];
      if ref[c] == 0 {
        SysPageUnmap(c);
      }
    }

    // A page stays mapped unless the block had the last reference to it.
    method Free(v: nat, ghost k: nat)
      requires Valid() && (v != 0 ==> k < |live| && live[k].v == v)
      modifies `cont, `ref, `live
      ensures Valid()
      ensures v == 0 ==> View() == old(View())
      ensures v != 0 ==> live == old(live)[..k] + old(live)[k + 1..]
      ensures v != 0 ==> forall p :: p in cont <==>
                p in old(cont) && !(Touches(old(live)[k], p) && Blocks(old(live), p) == 1 && OwnRefs(old(View()), p) == 0)
    {
      if v == 0 { return; }
      ghost var h := View();
      LiveRunEnds(h, k);
      LiveInArena(h, k);
      FreeKeeps(h, k);
      Release(v, LastPage(live[k]));
      live := live[..k] + live[k + 1..];
      assert View() == Freed(h, k);
      forall p ensures p in cont <==> p in h.cont && !(Touches(h.live[k], p) && Blocks(h.live, p) == 1 && OwnRefs(h, p) == 0) {
        if p >= 0 { FreedExactly(h, k, p); }
      }
    }

    // Fits in the page mptr is in.
    method Bump(n: nat) returns (v: nat)
      requires Valid() && Midway(mptr) && n % 4 == 0 && mptr / PGSIZE == (mptr + n + 3) / PGSIZE
      modifies `mptr, `ref, `live
      ensures Valid() && live == old(live) + [Block(v, n)] && v == old(mptr) && mptr == v + n
    {
      ghost var h := View();
      BumpKeeps(h, n);
      ref := ref[mptr / PGSIZE := ref[mptr / PGSIZE] + 1];
      v := mptr;
      mptr := mptr + n;
      live := live + [Block(v, n)];
      assert View() == Bumped(h, n);
    }

    // The page left stays mapped unless no block has a part on it.
    method MoveOn()
      requires Valid() && Midway(mptr)
      modifies `mptr, `cont, `ref
      ensures Valid() && !Midway(mptr) && mptr == PGSIZE * (old(mptr) / PGSIZE + 1) && MBEGIN <= mptr <= MEND
      ensures forall p :: p in cont <==>
                p in old(cont) && !(Open(old(View()), p) && Blocks(live, p) == 0 && p !in stranded)
    {
      ghost var h := View();
      MoveOnKeeps(h);
      assert PageOk(h, mptr / PGSIZE);
      MovedPointer(h);
      NextPage(mptr, mptr / PGSIZE);
      Release(mptr, mptr / PGSIZE);
      mptr := (mptr + PGSIZE) / PGSIZE * PGSIZE;
      assert View() == MovedOn(h);
      forall p ensures p in cont <==> p in h.cont && !(Open(h, p) && Blocks(h.live, p) == 0 && p !in h.stranded) {
        if p >= 0 { MovedExactly(h, p); }
      }
    }

    // The search for address space (lib/malloc.c:83-93), in 32 bits.
    method FindRoom(n: nat) returns (ok: bool)
      requires n < MAXMALLOC && MBEGIN <= mptr < WORD_LIMIT && mptr == PGSIZE * (mptr / PGSIZE)
      modifies `mptr
      ensures mptr < WORD_LIMIT && mptr == PGSIZE * (mptr / PGSIZE)
      // from inside the arena, twice around it at most
      ensures old(mptr) < MEND ==> FoundInArena(n, ok)
      // from beyond it, up to the top of the address space; short requests then go on from 0
      ensures old(mptr) >= MEND && n + 4 >= PGSIZE ==> ok && mptr >= old(mptr) && GoesRound(mptr, n)
      ensures old(mptr) >= MEND && n + 4 < PGSIZE ==>
                if AllUsedBelow(cont, foreign, MBEGIN / PGSIZE) then FoundInArena(n, ok)
                else ok && mptr < MBEGIN && Unused(cont, foreign, mptr / PGSIZE) && AllUsedBelow(cont, foreign, mptr / PGSIZE)
    {
      var nwrap := 0;
      while true
        invariant 0 <= nwrap < 2 && mptr < WORD_LIMIT && mptr == PGSIZE * (mptr / PGSIZE)
        invariant mptr >= MEND ==> mptr >= old(mptr) >= MEND && nwrap == 0
        invariant mptr < MEND && old(mptr) >= MEND ==> n + 4 < PGSIZE
        invariant mptr < MBEGIN ==> old(mptr) >= MEND && nwrap == 0 && AllUsedBelow(cont, foreign, mptr / PGSIZE)
        invariant MBEGIN <= mptr < MEND && old(mptr) >= MEND ==> AllUsedBelow(cont, foreign, MBEGIN / PGSIZE)
        invariant nwrap == 1 ==> NoRoomBelow(cont, foreign, mptr / PGSIZE, n)
        decreases 2 - nwrap, if mptr >= MEND then WORD_LIMIT - mptr + MEND else MEND - mptr
      {
        ghost var p := mptr / PGSIZE;
        PageStart(p);
        var free := IsFree(mptr, n + 4);
        if free {
          assert mptr >= MEND ==> !Unused(cont, foreign, p);
          if n + 4 < PGSIZE { OnePage(cont, foreign, p, n); }
          return true;
        }
        if n + 4 < PGSIZE { OnePage(cont, foreign, p, n); }
        mptr := if mptr + PGSIZE == WORD_LIMIT then 0 else mptr + PGSIZE;
        JoinAddress(p + 1, 0);
        if mptr == MEND {
          mptr := MBEGIN;
          nwrap := nwrap + 1;
          if nwrap == 2 { return false; }
        }
      }
    }

    ghost predicate FoundInArena(n: nat, ok: bool)
      reads this
    {
      && MBEGIN <= mptr < MEND
      && (ok ==> Room(cont, foreign, mptr / PGSIZE, n + 4))
      && (!ok ==> NoRoomBelow(cont, foreign, MEND / PGSIZE, n))
    }

    // Mapping the run (lib/malloc.c:98-105).
    method MapRun(n: nat, ghost first: nat, ghost last: nat) returns (ok: bool)
      requires first == mptr / PGSIZE && last == first + (n + 3) / PGSIZE
      requires forall p :: first <= p <= last ==> p !in cont
      modifies `cont, `ref, `asked
      ensures ok ==> cont == RunTo(old(cont), first, last - first + 1, last) && ref == ZeroedTo(old(ref), first, last - first + 1)
      ensures !ok ==> cont == old(cont) && forall p :: p in cont && p in old(ref) ==> p in ref && ref[p] == old(ref)[p]
      ensures old(asked) <= asked && (ok <==> last < UTOP / PGSIZE && AllMet(old(asked)))
    {
      var i := 0;
      ghost var pages, words := cont, ref;
      ghost var k: nat := 0;
      while i < n + 4
        invariant i == PGSIZE * k && first + k <= last + 1
        invariant cont == RunTo(pages, first, k, last) && ref == ZeroedTo(words, first, k)
        invariant old(asked) <= asked && AllMet(old(asked)) && (k > 0 ==> first + k - 1 < UTOP / PGSIZE)
        decreases n + 4 - i
      {
        RunIndex(n, i, k);
        ghost var asks := asked;
        var ok1 := SysPageAlloc(mptr / PGSIZE + i / PGSIZE, i + PGSIZE < n + 4);
        assert (forall k {:trigger granted(k)} :: asks <= k < asked ==> granted(k)) <==> AllMet(old(asked));
        if !ok1 {
          RunUndone(pages, first, k, last);
          UnmapRun(i, k);
          forall p | p in cont && p in words ensures p in ref && ref[p] == words[p] { ZeroedToAt(words, first, k, p); }
          return false;
        }
        i := i + PGSIZE;
        k := k + 1;
      }
      RunIndex(n, i, k);
      return true;
    }

    // sys_page_unmap from page i down (lib/malloc.c:101)
    method UnmapRun(i0: nat, ghost k: nat)
      requires i0 == PGSIZE * k
      modifies `cont
      ensures cont == old(cont) - Pages(mptr / PGSIZE, mptr / PGSIZE + k + 1)
    {
      var i := i0;
      ghost var m: int := k;
      while i >= 0
        invariant i == PGSIZE * m && -1 <= m <= k
        invariant cont == old(cont) - Pages((mptr / PGSIZE + m + 1) as nat, mptr / PGSIZE + k + 1)
      {
        assert i / PGSIZE == m;
        SysPageUnmap(mptr / PGSIZE + i / PGSIZE);
        i := i - PGSIZE;
        m := m - 1;
      }
    }

    // A block on pages of its own, at mptr (lib/malloc.c:98-111).
    method TakePages(n: nat) returns (v: nat)
      requires Valid() && MBEGIN <= mptr < MEND && mptr == PGSIZE * (mptr / PGSIZE) && n % 4 == 0
      requires Room(cont, foreign, mptr / PGSIZE, n + 4)
      modifies `mptr, `cont, `ref, `asked, `live, `stranded
      ensures Valid() && old(asked) <= asked && (v != 0 <==> AllMet(old(asked)))
      ensures v == 0 ==> View().(ref := old(ref)) == old(View())
      ensures v != 0 ==> v == old(mptr) && live == old(live) + [Block(v, n)] && stranded == old(stranded) + Strands(v, n)
      ensures forall p :: p in old(cont) ==> p in cont
    {
      PageStart(mptr / PGSIZE);
      ghost var h := View();
      ghost var first, last := mptr / PGSIZE, mptr / PGSIZE + n / PGSIZE;
      SameLastPage(n);
      RoomIsUnmapped(cont, foreign, first, n);
      var ok := MapRun(n, first, last);
      if !ok {
        OnlyMappedCounts(h, ref);
        return 0;
      }
      FreshKeeps(h, n);
      ref := ref[mptr / PGSIZE + (n + 3) / PGSIZE := 2];
      v := mptr;
      mptr := mptr + n;
      live, stranded := live + [Block(v, n)], stranded + if n % PGSIZE == 0 then {last} else {};
      assert View() == Fresh(h, n);
      forall p: nat ensures (p in cont ==> p !in foreign) && (p in h.cont ==> p in cont) {
        RunToAt(h.cont, first, n / PGSIZE + 1, last, p);
      }
    }

    // What malloc(n) does, for n rounded and below the maximum.  `beyond` says that mptr is, or
    // goes, beyond the arena; `strayed` that the search then ended on a page below it.
    ghost predicate Outcome(live0: seq<Block>, stranded0: set<nat>, asks: nat, beyond: bool, n: nat, v: nat, strayed: bool)
      reads this
    {
      if strayed then
        var p := mptr / PGSIZE;
        && beyond && n + 4 < PGSIZE && p < MBEGIN / PGSIZE && AllUsedBelow(cont, foreign, p)
        && live == live0 && stranded == stranded0
        && (if AllMet(asks) then v == PGSIZE * p && mptr == v + n && p in cont else v == 0 && mptr == PGSIZE * p && p !in cont)
      else
        && Valid()
        && (v != 0 ==> AllMet(asks) && live == live0 + [Block(v, n)] && stranded == stranded0 + Strands(v, n))
        && (v == 0 ==> live == live0 && stranded == stranded0)
        && (beyond && n + 4 >= PGSIZE ==> v == 0 && GoesRound(mptr, n))
        && (beyond && n + 4 < PGSIZE ==> AllUsedBelow(cont, foreign, MBEGIN / PGSIZE))
        && (v == 0 && AllMet(asks) && !GoesRound(mptr, n) ==> NoRoomBelow(cont, foreign, MEND / PGSIZE, n))
    }

    // What is left of malloc when it needs pages of their own.
    method StartRun(n: nat) returns (v: nat, ghost strayed: bool)
      requires Valid() && !Midway(mptr) && mptr > 0 && n % 4 == 0 && n < MAXMALLOC
      modifies `mptr, `cont, `ref, `asked, `live, `stranded
      ensures old(asked) <= asked && Outcome(old(live), old(stranded), old(asked), old(mptr) >= MEND, n, v, strayed)
    {
      SplitAddress(mptr);
      ghost var h := View();
      var found := FindRoom(n);
      strayed := mptr < MBEGIN;
      if mptr < MBEGIN {
        UnmappedOutside(h, mptr / PGSIZE);
        v := Stray(n);
        StillUsed(h.cont, cont, foreign, mptr / PGSIZE);
        return;
      }
      AlignedPointer(h, mptr);
      if !found { return 0, false; }
      if mptr >= MEND {
        v := AtTop(n);
      } else {
        v := TakePages(n);
        if old(mptr) >= MEND { StillUsed(h.cont, cont, foreign, MBEGIN / PGSIZE); }
      }
    }

    // Addresses at the top are refused by sys_page_alloc.
    method AtTop(n: nat) returns (v: nat)
      requires Valid() && mptr == PGSIZE * (mptr / PGSIZE) && n % 4 == 0 && n < MAXMALLOC && MEND <= mptr && GoesRound(mptr, n)
      modifies `cont, `ref, `asked
      ensures Valid() && v == 0 && old(asked) <= asked
    {
      ghost var h := View();
      TopRefused(mptr, n);
      forall p | p >= mptr / PGSIZE ensures p !in cont { UnmappedOutside(h, p); }
      var ok := MapRun(n, mptr / PGSIZE, mptr / PGSIZE + (n + 3) / PGSIZE);
      OnlyMappedCounts(h, ref);
      return 0;
    }

    // One page below the arena; its address may be the null pointer.
    method Stray(n: nat) returns (v: nat)
      requires n % 4 == 0 && n + 4 < PGSIZE && mptr < MBEGIN && mptr == PGSIZE * (mptr / PGSIZE) && mptr / PGSIZE !in cont
      modifies `mptr, `cont, `ref, `asked
      ensures old(asked) <= asked && mptr / PGSIZE == old(mptr) / PGSIZE
      ensures AllMet(old(asked)) ==> v == old(mptr) && mptr == v + n && cont == old(cont)[v / PGSIZE := false]
      ensures !AllMet(old(asked)) ==> v == 0 && mptr == old(mptr) && cont == old(cont)
    {
      ghost var p := mptr / PGSIZE;
      var ok := MapRun(n, p, p);
      if !ok { return 0; }
      assert RunTo(old(cont), p, 1, p) == old(cont)[p := false];
      ref := ref[mptr / PGSIZE + (n + 3) / PGSIZE := 2];
      v := mptr;
      mptr := mptr + n;
      JoinPage(p, n);
    }

    // lib/malloc.c:42
    method Malloc(n0: Word) returns (v: nat, ghost strayed: bool)
      requires Valid()
      modifies `mptr, `cont, `ref, `asked, `live, `stranded
      ensures Rounded(n0) >= 0x10_0000 ==>
                v == 0 && Valid() && View() == old(View()).(mptr := if old(mptr) == 0 then 0x0800_0000 else old(mptr))
      ensures old(asked) <= asked
      ensures Rounded(n0) < 0x10_0000 ==>
                Outcome(old(live), old(stranded), old(asked), Beyond(old(mptr), Rounded(n0)), Rounded(n0), v, strayed)
    {
      if mptr == 0 {
        AlignedPointer(View(), MBEGIN);
        mptr := MBEGIN;
      }
      var n := Rounded(n0);
      RoundedCovers(n0);
      if n >= MAXMALLOC { return 0, false; }
      if mptr % PGSIZE != 0 {
        if mptr / PGSIZE == (mptr + n - 1 + 4) / PGSIZE {
          assert PageOk(View(), mptr / PGSIZE);
          v := Bump(n);
          return v, false;
        }
        assert PageOk(View(), mptr / PGSIZE);
        MoveOn();
      }
      v, strayed := StartRun(n);
    }
  }

  // ---------------------------------------------------------------- addresses

  // The last page of a run holds the word after the request as well.
  lemma SameLastPage(n: nat)
    requires n % 4 == 0
    ensures (n + 3) / PGSIZE == n / PGSIZE
  {
    SplitAddress(n);
    JoinAddress(n / PGSIZE, n % PGSIZE + 3);
  }

  lemma RunIndex(n: nat, i: nat, k: nat)
    requires i == PGSIZE * k
    ensures i / PGSIZE == k
    ensures i < n + 4 <==> k <= (n + 3) / PGSIZE
    ensures i + PGSIZE < n + 4 <==> k < (n + 3) / PGSIZE
  {
    JoinAddress(k, 0);
    SplitAddress(n + 3);
  }

  lemma LastOfRun(first: nat, v: nat, n: nat, va: nat, p: nat)
    requires v % PGSIZE == 0 && first == v / PGSIZE && n > 0 && va == PGSIZE * p && first <= p && va < v + n
    ensures p <= first + (n - 1) / PGSIZE
  {
    SplitAddress(v);
    SplitAddress(n - 1);
  }

  lemma PastRun(first: nat, v: nat, n: nat, va: nat, p: nat)
    requires v % PGSIZE == 0 && first == v / PGSIZE && n > 0 && va == PGSIZE * p && va >= v + n
    ensures p > first + (n - 1) / PGSIZE
  {
    SplitAddress(v);
    SplitAddress(n - 1);
  }

  lemma LiveInArena(h: Heap, k: nat)
    requires Inv(h) && k < |h.live|
    ensures MBEGIN <= h.live[k].v < MEND && LastPage(h.live[k]) < MEND / PGSIZE
  {
    var b := h.live[k];
    assert BlockOk(h, b);
    assert LastPage(b) in h.cont;
    assert PageOk(h, LastPage(b));
    NextPage(b.v + b.size, LastPage(b));
  }

  // Nothing in the invariant ties an aligned mptr to a page.
  lemma AlignedPointer(h: Heap, m: nat)
    requires Inv(h) && !Midway(h.mptr) && MBEGIN <= m < WORD_LIMIT && m == PGSIZE * (m / PGSIZE)
    ensures !Midway(m) && Inv(h.(mptr := m))
  {
    PageStart(m / PGSIZE);
    var g := h.(mptr := m);
    forall p | p in g.cont ensures PageOk(g, p) { assert PageOk(h, p); }
    forall i | 0 <= i < |g.live| ensures BlockOk(g, g.live[i]) { assert BlockOk(h, h.live[i]); }
    forall i, j | 0 <= i < j < |g.live| ensures Apart(g.live[i], g.live[j]) { assert Apart(h.live[i], h.live[j]); }
  }

  lemma UnmappedOutside(h: Heap, p: nat)
    requires Inv(h) && (p < MBEGIN / PGSIZE || p >= MEND / PGSIZE)
    ensures p !in h.cont
  {
    if p in h.cont { MappedInArena(h, p); }
  }

  lemma MappedInArena(h: Heap, p: nat)
    requires Inv(h) && p in h.cont
    ensures MBEGIN / PGSIZE <= p < MEND / PGSIZE
  {
    assert PageOk(h, p);
  }

  lemma StillUsed(before: map<nat, bool>, after: map<nat, bool>, foreign: set<nat>, end: nat)
    requires AllUsedBelow(before, foreign, end) && forall p :: p in before ==> p in after
    ensures AllUsedBelow(after, foreign, end)
  {
    forall p | 0 <= p < end ensures !Unused(after, foreign, p) { assert !Unused(before, foreign, p); }
  }

  lemma RoomIsUnmapped(cont: map<nat, bool>, foreign: set<nat>, first: nat, n: nat)
    requires Room(cont, foreign, first, n + 4) && n % 4 == 0
    ensures forall p :: first <= p <= first + n / PGSIZE ==> p !in cont && p !in foreign
    ensures first + n / PGSIZE < MEND / PGSIZE
  {
    SameLastPage(n);
    forall p | first <= p <= first + n / PGSIZE ensures p !in cont && p !in foreign && p < MEND / PGSIZE {
      assert Unused(cont, foreign, p);
    }
    assert Unused(cont, foreign, first + n / PGSIZE);
  }

  // A request with its count that is shorter than a page needs one page.
  lemma OnePage(cont: map<nat, bool>, foreign: set<nat>, p: nat, n: nat)
    requires n + 4 < PGSIZE
    ensures Room(cont, foreign, p, n + 4) <==> Unused(cont, foreign, p)
  {
  }

  lemma TopRefused(a: nat, n: nat)
    requires a < WORD_LIMIT && a == PGSIZE * (a / PGSIZE) && n < MAXMALLOC && GoesRound(a, n)
    ensures a / PGSIZE >= UTOP / PGSIZE
  {
  }

  // The pages malloc strands by serving a request of n bytes at v.
  function Strands(v: nat, n: nat): set<nat> {
    if v % PGSIZE == 0 && n % PGSIZE == 0 then {v / PGSIZE + n / PGSIZE} else {}
  }

  // When malloc moves on from the last page of its arena, mptr is at the arena's end; isfree
  // refuses every address from there on until the end of the range goes round, and mptr comes
  // to the address at which the search would start over only by way of address 0.
  lemma OverrunLeavesArena(mptr: nat, n: nat, cont: map<nat, bool>, foreign: set<nat>, a: nat)
    requires Overruns(mptr, n) && n < MAXMALLOC && MEND <= a < WORD_LIMIT && a == PGSIZE * (a / PGSIZE)
    ensures (mptr + PGSIZE) / PGSIZE * PGSIZE == MEND
    ensures !Room(cont, foreign, a / PGSIZE, n + 4) && (a + PGSIZE) % WORD_LIMIT != MEND
    ensures a + PGSIZE == WORD_LIMIT ==> (GoesRound(a, n) <==> n + 4 >= PGSIZE)
  {
    assert !Unused(cont, foreign, a / PGSIZE);
  }
}
