/** What lib/malloc.c keeps: a pointer that bumps along pages of an arena, a count in the last
    word of each page, and a bit on the pages a larger block runs on from.  Values and their
    invariant; Malloc has the code. */
module HeapModel {
  import opened Mmu

  const MBEGIN: nat := 0x0800_0000
  const MEND: nat := 0x1000_0000
  const WORD_LIMIT: nat := 0x1_0000_0000
  const MAXMALLOC: nat := 1024 * 1024

  // A block handed out and not freed; size is the request rounded up to words.
  datatype Block = Block(v: nat, size: nat)

  // cont[p] says whether mapped page p has PTE_CONTINUED; ref[p] is p's last word.  A page is
  // stranded when malloc's own reference to it will never be dropped.
  datatype Heap = Heap(mptr: nat, cont: map<nat, bool>, ref: map<nat, nat>, live: seq<Block>, stranded: set<nat>)

  function FirstPage(b: Block): nat { b.v / PGSIZE }
  // the page that holds the block's count
  function LastPage(b: Block): nat { (b.v + b.size) / PGSIZE }

  predicate Midway(mptr: nat) { mptr % PGSIZE != 0 }

  predicate Touches(b: Block, p: nat) { FirstPage(b) <= p <= LastPage(b) }

  // How many live blocks have a part, or their count, on page p.
  function Blocks(live: seq<Block>, p: nat): nat {
    if live == [] then 0
    else Blocks(live[..|live| - 1], p) + if Touches(live[|live| - 1], p) then 1 else 0
  }

  predicate Counted(h: Heap, p: nat) { p in h.cont && !h.cont[p] && p in h.ref }

  // The page that malloc is handing out.
  predicate Open(h: Heap, p: nat) { Midway(h.mptr) && h.mptr / PGSIZE == p }

  // malloc's own references to page p.
  function OwnRefs(h: Heap, p: nat): nat {
    (if Open(h, p) then 1 else 0) + if p in h.stranded then 1 else 0
  }

  // A continued page belongs to one block; the count of any other is the number of references
  // to it, and there is one.
  predicate PageOk(h: Heap, p: nat)
    requires p in h.cont
  {
    && MBEGIN / PGSIZE <= p < MEND / PGSIZE
    && (h.cont[p] ==> Blocks(h.live, p) == 1)
    && (!h.cont[p] ==> p in h.ref && h.ref[p] == Blocks(h.live, p) + OwnRefs(h, p) > 0)
  }

  ghost predicate PagesOk(cont: map<nat, bool>, b: Block) {
    forall p {:trigger p in cont} :: FirstPage(b) <= p <= LastPage(b) ==> p in cont && cont[p] == (p < LastPage(b))
  }

  // A block's pages are mapped, it ends before the last page's count, and it owns the pages
  // it runs on from.
  ghost predicate BlockOk(h: Heap, b: Block) {
    && b.v % 4 == 0 && b.size % 4 == 0 && MBEGIN <= b.v
    && b.v + b.size <= PGSIZE * LastPage(b) + PGSIZE - 4
    && PagesOk(h.cont, b)
    && (FirstPage(b) < LastPage(b) ==> b.v % PGSIZE == 0)
    && (Midway(h.mptr) && LastPage(b) == h.mptr / PGSIZE ==> b.v + b.size <= h.mptr)
  }

  predicate Apart(b: Block, c: Block) {
    b.v + b.size <= c.v || c.v + c.size <= b.v || b.size == 0 || c.size == 0
  }

  predicate PointerOk(h: Heap) {
    && (h.mptr == 0 || MBEGIN <= h.mptr < WORD_LIMIT) && h.mptr % 4 == 0
    && (Midway(h.mptr) ==> Counted(h, h.mptr / PGSIZE) && h.mptr % PGSIZE <= PGSIZE - 4)
  }

  ghost predicate Inv(h: Heap) {
    && PointerOk(h)
    && (forall p {:trigger p in h.stranded} :: p in h.stranded ==> Counted(h, p))
    && (forall p {:trigger PageOk(h, p)} :: p in h.cont ==> PageOk(h, p))
    && (forall i {:trigger BlockOk(h, h.live[i])} :: 0 <= i < |h.live| ==> BlockOk(h, h.live[i]))
    && (forall i, j {:trigger Apart(h.live[i], h.live[j])} :: 0 <= i < j < |h.live| ==> Apart(h.live[i], h.live[j]))
  }

  // ---------------------------------------------------------------- counting

  lemma {:induction false} BlocksPositive(live: seq<Block>, k: nat, p: nat)
    requires k < |live| && Touches(live[k], p)
    ensures Blocks(live, p) > 0
  {
    if k < |live| - 1 { BlocksPositive(live[..|live| - 1], k, p); }
  }

  lemma BlocksMore(live: seq<Block>, b: Block, p: nat)
    ensures Blocks(live + [b], p) == Blocks(live, p) + if Touches(b, p) then 1 else 0
  {
    assert (live + [b])[..|live|] == live;
  }

  lemma {:induction false} BlocksWithout(live: seq<Block>, k: nat, p: nat)
    requires k < |live|
    ensures Blocks(live, p) == Blocks(live[..k] + live[k + 1..], p) + if Touches(live[k], p) then 1 else 0
  {
    var init, b := live[..|live| - 1], live[|live| - 1];
    if k == |live| - 1 {
      assert live[..k] + live[k + 1..] == init;
    } else {
      assert init[k] == live[k];
      BlocksWithout(init, k, p);
      var rest := init[..k] + init[k + 1..];
      assert live[..k] + live[k + 1..] == rest + [b];
      BlocksMore(rest, b, p);
    }
  }

  lemma {:induction false} NoBlocks(live: seq<Block>, p: nat)
    requires forall i :: 0 <= i < |live| ==> !Touches(live[i], p)
    ensures Blocks(live, p) == 0
  {
    if live != [] { NoBlocks(live[..|live| - 1], p); }
  }

  // No block has a part on an unmapped page.
  lemma UnmappedUntouched(h: Heap, p: nat)
    requires Inv(h) && p !in h.cont
    ensures Blocks(h.live, p) == 0
  {
    forall i | 0 <= i < |h.live| ensures !Touches(h.live[i], p) {
      assert BlockOk(h, h.live[i]);
    }
    NoBlocks(h.live, p);
  }

  // A page that a block runs on from is touched by no other block.
  lemma OwnsRun(h: Heap, i: nat, j: nat, p: nat)
    requires Inv(h) && i < |h.live| && j < |h.live| && i != j
    requires FirstPage(h.live[i]) <= p < LastPage(h.live[i])
    ensures !(FirstPage(h.live[j]) <= p <= LastPage(h.live[j]))
  {
    var b, c := h.live[i], h.live[j];
    assert BlockOk(h, b) && BlockOk(h, c);
    assert p in h.cont && h.cont[p];
    if i < j { assert Apart(h.live[i], h.live[j]); } else { assert Apart(h.live[j], h.live[i]); }
  }

  // ---------------------------------------------------------------- transitions

  // A block cut from the page mptr is in.
  function Bumped(h: Heap, n: nat): Heap {
    var p := h.mptr / PGSIZE;
    Heap(h.mptr + n, h.cont, if p in h.ref then h.ref[p := h.ref[p] + 1] else h.ref, h.live + [Block(h.mptr, n)],
         h.stranded)
  }

  lemma BumpedPage(h: Heap, n: nat, q: nat)
    requires Inv(h) && Midway(h.mptr) && n % 4 == 0 && h.mptr / PGSIZE == (h.mptr + n + 3) / PGSIZE
    requires q in h.cont
    ensures PageOk(Bumped(h, n), q)
  {
    var b := Block(h.mptr, n);
    assert LastPage(b) == h.mptr / PGSIZE == FirstPage(b);
    assert Midway(h.mptr + n);
    assert PageOk(h, q);
    BlocksMore(h.live, b, q);
  }

  lemma BumpedPointer(h: Heap, n: nat)
    requires Inv(h) && Midway(h.mptr) && n % 4 == 0 && h.mptr / PGSIZE == (h.mptr + n + 3) / PGSIZE
    ensures PointerOk(Bumped(h, n)) && BlockOk(Bumped(h, n), Block(h.mptr, n))
    ensures forall q :: q in h.stranded ==> Counted(Bumped(h, n), q)
  {
    var p := h.mptr / PGSIZE;
    assert PageOk(h, p);
    NextPage(h.mptr + n + 3, p);
    assert Midway(h.mptr + n) && (h.mptr + n) / PGSIZE == p;
  }

  lemma BumpedBlock(h: Heap, n: nat, i: nat)
    requires Inv(h) && Midway(h.mptr) && n % 4 == 0 && h.mptr / PGSIZE == (h.mptr + n + 3) / PGSIZE && i < |h.live|
    ensures BlockOk(Bumped(h, n), h.live[i]) && Apart(h.live[i], Block(h.mptr, n))
  {
    var c, p := h.live[i], h.mptr / PGSIZE;
    assert BlockOk(h, c);
    assert p in h.cont && !(FirstPage(c) <= p < LastPage(c));
    NextPage(h.mptr, p);
    NextPage(h.mptr + n + 3, p);
    NextPage(c.v, FirstPage(c));
    NextPage(c.v + c.size, LastPage(c));
    assert (h.mptr + n) / PGSIZE == p;
  }

  lemma BumpKeeps(h: Heap, n: nat)
    requires Inv(h) && Midway(h.mptr) && n % 4 == 0 && h.mptr / PGSIZE == (h.mptr + n + 3) / PGSIZE
    ensures Inv(Bumped(h, n))
  {
    var g := Bumped(h, n);
    var b := Block(h.mptr, n);
    forall q | q in g.cont ensures PageOk(g, q) { BumpedPage(h, n, q); }
    BumpedPointer(h, n);
    forall i | 0 <= i < |h.live| ensures BlockOk(g, h.live[i]) && Apart(h.live[i], b) { BumpedBlock(h, n, i); }
    forall i | 0 <= i < |g.live| ensures BlockOk(g, g.live[i]) {
      if i == |h.live| { assert g.live[i] == b; } else { assert g.live[i] == h.live[i]; }
    }
    forall i, j | 0 <= i < j < |g.live| ensures Apart(g.live[i], g.live[j]) {
      if j < |h.live| { assert Apart(h.live[i], h.live[j]); }
    }
  }

  // What free does to pages and counts: last is where the run of continued pages ends.
  ghost predicate RunEnds(cont: map<nat, bool>, ref: map<nat, nat>, first: nat, last: nat) {
    && first <= last && last in cont && !cont[last] && last in ref && ref[last] > 0
    && forall p :: first <= p < last ==> p in cont && cont[p]
  }

  predicate Within(p: nat, first: nat, last: nat) { first <= p < last }

  function Pages(first: nat, last: nat): set<nat> {
    set p: nat | first <= p < last && Within(p, first, last)
  }

  function FreedPages(cont: map<nat, bool>, ref: map<nat, nat>, first: nat, last: nat): map<nat, bool>
    requires last in ref
  {
    if ref[last] == 1 then cont - Pages(first, last + 1) else cont - Pages(first, last)
  }

  function FreedRef(ref: map<nat, nat>, last: nat): map<nat, nat>
    requires last in ref && ref[last] > 0
  {
    ref[last := ref[last] - 1]
  }

  // malloc drops its own reference to the page and moves to the next.
  function MovedOn(h: Heap): Heap
    requires Counted(h, h.mptr / PGSIZE) && h.ref[h.mptr / PGSIZE] > 0
  {
    var p := h.mptr / PGSIZE;
    Heap(PGSIZE * (p + 1), FreedPages(h.cont, h.ref, p, p), FreedRef(h.ref, p), h.live, h.stranded)
  }

  lemma MoveOnBlock(h: Heap, i: nat)
    requires Inv(h) && Midway(h.mptr) && i < |h.live|
    requires Counted(h, h.mptr / PGSIZE) && h.ref[h.mptr / PGSIZE] > 0
    ensures BlockOk(MovedOn(h), h.live[i])
  {
    var p := h.mptr / PGSIZE;
    var b := h.live[i];
    assert PageOk(h, p) && BlockOk(h, b);
    if LastPage(b) == p { BlocksPositive(h.live, i, p); }
    assert !Midway(MovedOn(h).mptr);
    forall q | FirstPage(b) <= q <= LastPage(b) ensures q in MovedOn(h).cont && h.cont[q] == (q < LastPage(b)) {
      assert q in h.cont;
    }
  }

  lemma ModFour(k: nat, r: nat)
    ensures (4 * k + r) % 4 == r % 4
  {
  }

  lemma JoinAddress(p: nat, r: nat)
    requires r < PGSIZE
    ensures (PGSIZE * p + r) / PGSIZE == p && (PGSIZE * p + r) % PGSIZE == r && (PGSIZE * p + r) % 4 == r % 4
  {
    ModFour(1024 * p, r);
    JoinPage(p, r);
  }

  lemma JoinPage(p: nat, r: nat)
    requires r < PGSIZE
    ensures (PGSIZE * p + r) / PGSIZE == p && (PGSIZE * p + r) % PGSIZE == r
  {
  }

  lemma PageStart(p: nat)
    ensures PGSIZE * p % PGSIZE == 0 && PGSIZE * p % 4 == 0 && PGSIZE * p / PGSIZE == p
  {
    ModFour(1024 * p, 0);
    JoinPage(p, 0);
  }

  lemma SplitAddress(m: nat)
    ensures m == PGSIZE * (m / PGSIZE) + m % PGSIZE && m % PGSIZE % 4 == m % 4
  {
    ModFour(1024 * (m / PGSIZE), m % PGSIZE);
  }

  lemma NextPage(m: nat, p: nat)
    requires p == m / PGSIZE
    ensures PGSIZE * p <= m < PGSIZE * (p + 1)
  {
  }

  lemma MovedPointer(h: Heap)
    requires PointerOk(h) && Midway(h.mptr) && h.mptr / PGSIZE < MEND / PGSIZE
    requires Counted(h, h.mptr / PGSIZE) && h.ref[h.mptr / PGSIZE] > 0
    ensures PointerOk(MovedOn(h)) && !Midway(MovedOn(h).mptr)
  {
    var p := h.mptr / PGSIZE;
    PageStart(p + 1);
    NextPage(h.mptr, p);
  }

  lemma MoveOnPage(h: Heap, q: nat)
    requires Inv(h) && Midway(h.mptr) && Counted(h, h.mptr / PGSIZE) && h.ref[h.mptr / PGSIZE] > 0
    requires !Midway(MovedOn(h).mptr) && q in MovedOn(h).cont
    ensures PageOk(MovedOn(h), q)
  {
    assert PageOk(h, q);
  }

  lemma MoveOnKeeps(h: Heap)
    requires Inv(h) && Midway(h.mptr)
    ensures Counted(h, h.mptr / PGSIZE) && h.ref[h.mptr / PGSIZE] > 0 && Inv(MovedOn(h))
  {
    assert PageOk(h, h.mptr / PGSIZE);
    var g := MovedOn(h);
    MovedPointer(h);
    forall q | q in g.cont ensures PageOk(g, q) { MoveOnPage(h, q); }
    forall i | 0 <= i < |g.live| ensures BlockOk(g, g.live[i]) { MoveOnBlock(h, i); }
    forall i, j | 0 <= i < j < |g.live| ensures Apart(g.live[i], g.live[j]) { assert Apart(h.live[i], h.live[j]); }
  }

  // A block on fresh pages, the last of which stays open; its count starts at 2.
  function Fresh(h: Heap, n: nat): Heap {
    var first := h.mptr / PGSIZE;
    var last := first + n / PGSIZE;
    Heap(h.mptr + n, RunTo(h.cont, first, n / PGSIZE + 1, last), ZeroedTo(h.ref, first, n / PGSIZE + 1)[last := 2],
         h.live + [Block(h.mptr, n)], h.stranded + if n % PGSIZE == 0 then {last} else {})
  }

  // The first k pages of a run that ends at `last` are mapped; new pages are zero.
  function RunTo(cont: map<nat, bool>, first: nat, k: nat, last: nat): map<nat, bool> {
    if k == 0 then cont else RunTo(cont, first, k - 1, last)[first + k - 1 := first + k - 1 < last]
  }

  function ZeroedTo(ref: map<nat, nat>, first: nat, k: nat): map<nat, nat> {
    if k == 0 then ref else ZeroedTo(ref, first, k - 1)[first + k - 1 := 0]
  }

  lemma {:induction false} RunToAt(cont: map<nat, bool>, first: nat, k: nat, last: nat, p: nat)
    ensures p in RunTo(cont, first, k, last) <==> p in cont || first <= p < first + k
    ensures first <= p < first + k ==> RunTo(cont, first, k, last)[p] == (p < last)
    ensures p in cont && !(first <= p < first + k) ==> RunTo(cont, first, k, last)[p] == cont[p]
  {
    if k > 0 { RunToAt(cont, first, k - 1, last, p); }
  }

  lemma {:induction false} ZeroedToAt(ref: map<nat, nat>, first: nat, k: nat, p: nat)
    ensures p in ref && !(first <= p < first + k) ==> p in ZeroedTo(ref, first, k) && ZeroedTo(ref, first, k)[p] == ref[p]
  {
    if k > 0 { ZeroedToAt(ref, first, k - 1, p); }
  }

  lemma RunUndone(cont: map<nat, bool>, first: nat, k: nat, last: nat)
    requires forall p :: first <= p <= first + k ==> p !in cont
    ensures RunTo(cont, first, k, last) - Pages(first, first + k + 1) == cont
  {
    var r := RunTo(cont, first, k, last) - Pages(first, first + k + 1);
    forall p: nat ensures (p in r <==> p in cont) && (p in cont ==> r[p] == cont[p]) { RunToAt(cont, first, k, last, p); }
  }

  lemma FreshEnd(h: Heap, n: nat)
    requires PointerOk(h) && !Midway(h.mptr) && h.mptr > 0 && n % 4 == 0
    requires h.mptr / PGSIZE + n / PGSIZE < MEND / PGSIZE
    ensures var b, last := Block(h.mptr, n), h.mptr / PGSIZE + n / PGSIZE;
            && h.mptr == PGSIZE * (h.mptr / PGSIZE) && FirstPage(b) == h.mptr / PGSIZE && LastPage(b) == last
            && h.mptr + n <= PGSIZE * last + PGSIZE - 4
            && h.mptr + n < MEND && (h.mptr + n) % 4 == 0 && (h.mptr + n) / PGSIZE == last
            && (h.mptr + n) % PGSIZE <= PGSIZE - 4
  {
    var q, r := n / PGSIZE, n % PGSIZE;
    var f := h.mptr / PGSIZE;
    SplitAddress(h.mptr);
    SplitAddress(n);
    assert h.mptr + n == PGSIZE * (f + q) + r;
    JoinAddress(f + q, r);
  }

  lemma OldPage(h: Heap, n: nat, q: nat)
    requires Inv(h) && !Midway(h.mptr) && h.mptr > 0 && n % 4 == 0
    requires h.mptr / PGSIZE + n / PGSIZE < MEND / PGSIZE
    requires q in h.cont && !(h.mptr / PGSIZE <= q <= h.mptr / PGSIZE + n / PGSIZE) && q in Fresh(h, n).cont
    ensures PageOk(Fresh(h, n), q)
  {
    var first, last := h.mptr / PGSIZE, h.mptr / PGSIZE + n / PGSIZE;
    FreshEnd(h, n);
    BlocksMore(h.live, Block(h.mptr, n), q);
    RunToAt(h.cont, first, last - first + 1, last, q);
    ZeroedToAt(h.ref, first, last - first + 1, q);
    assert PageOk(h, q);
  }

  lemma NewPage(h: Heap, n: nat, q: nat)
    requires PointerOk(h) && !Midway(h.mptr) && h.mptr > 0 && n % 4 == 0
    requires h.mptr / PGSIZE + n / PGSIZE < MEND / PGSIZE
    requires h.mptr / PGSIZE <= q <= h.mptr / PGSIZE + n / PGSIZE && q in Fresh(h, n).cont
    requires Blocks(h.live, q) == 0 && h.mptr / PGSIZE + n / PGSIZE !in h.stranded
    ensures PageOk(Fresh(h, n), q)
  {
    var first, last := h.mptr / PGSIZE, h.mptr / PGSIZE + n / PGSIZE;
    FreshEnd(h, n);
    BlocksMore(h.live, Block(h.mptr, n), q);
    RunToAt(h.cont, first, last - first + 1, last, q);
    NextPage(h.mptr, first);
  }

  lemma FreshBlock(h: Heap, n: nat)
    requires PointerOk(h) && !Midway(h.mptr) && h.mptr > 0 && n % 4 == 0
    requires h.mptr / PGSIZE + n / PGSIZE < MEND / PGSIZE
    ensures BlockOk(Fresh(h, n), Block(h.mptr, n))
  {
    var g, b := Fresh(h, n), Block(h.mptr, n);
    FreshEnd(h, n);
    forall p | FirstPage(b) <= p <= LastPage(b) ensures p in g.cont && g.cont[p] == (p < LastPage(b)) {
      RunToAt(h.cont, FirstPage(b), LastPage(b) - FirstPage(b) + 1, LastPage(b), p);
    }
  }

  lemma FreshPointer(h: Heap, n: nat)
    requires PointerOk(h) && !Midway(h.mptr) && h.mptr > 0 && n % 4 == 0
    requires h.mptr / PGSIZE + n / PGSIZE < MEND / PGSIZE
    ensures PointerOk(Fresh(h, n))
  {
    FreshEnd(h, n);
    var first := h.mptr / PGSIZE;
    RunToAt(h.cont, first, n / PGSIZE + 1, first + n / PGSIZE, first + n / PGSIZE);
  }

  lemma FreshKeeps(h: Heap, n: nat)
    requires Inv(h) && !Midway(h.mptr) && h.mptr > 0 && n % 4 == 0
    requires h.mptr / PGSIZE + n / PGSIZE < MEND / PGSIZE
    requires forall p :: h.mptr / PGSIZE <= p <= h.mptr / PGSIZE + n / PGSIZE ==> p !in h.cont
    ensures Inv(Fresh(h, n))
  {
    var g, b := Fresh(h, n), Block(h.mptr, n);
    var first, last := FirstPage(b), LastPage(b);
    FreshEnd(h, n);
    forall i | 0 <= i < |h.live| ensures LastPage(h.live[i]) in h.cont && Apart(h.live[i], b) && BlockOk(g, h.live[i]) {
      FreshApart(h, n, i);
    }
    FreshPointer(h, n);
    forall q | q in g.stranded ensures Counted(g, q) {
      RunToAt(h.cont, first, last - first + 1, last, q);
      ZeroedToAt(h.ref, first, last - first + 1, q);
      assert q != last ==> Counted(h, q);
    }
    forall q | q in g.cont ensures PageOk(g, q) {
      RunToAt(h.cont, first, last - first + 1, last, q);
      if q in h.cont { OldPage(h, n, q); } else { UnmappedUntouched(h, q); NewPage(h, n, q); }
    }
    forall i | 0 <= i < |g.live| ensures BlockOk(g, g.live[i]) {
      if i == |h.live| { assert g.live[i] == b; FreshBlock(h, n); } else { assert g.live[i] == h.live[i]; }
    }
    forall i, j | 0 <= i < j < |g.live| ensures Apart(g.live[i], g.live[j]) {
      if j < |h.live| { assert Apart(h.live[i], h.live[j]); }
    }
  }

  // Blocks handed out before lie on other pages than the fresh ones.
  lemma FreshApart(h: Heap, n: nat, i: nat)
    requires Inv(h) && !Midway(h.mptr) && h.mptr > 0 && n % 4 == 0 && i < |h.live|
    requires h.mptr / PGSIZE + n / PGSIZE < MEND / PGSIZE
    requires forall p :: h.mptr / PGSIZE <= p <= h.mptr / PGSIZE + n / PGSIZE ==> p !in h.cont
    ensures LastPage(h.live[i]) in h.cont && Apart(h.live[i], Block(h.mptr, n)) && BlockOk(Fresh(h, n), h.live[i])
  {
    var c, b := h.live[i], Block(h.mptr, n);
    var first, last := h.mptr / PGSIZE, h.mptr / PGSIZE + n / PGSIZE;
    FreshEnd(h, n);
    assert BlockOk(h, c);
    assert FirstPage(c) <= LastPage(c);
    assert FirstPage(c) in h.cont && LastPage(c) in h.cont;
    assert FirstPage(c) <= first <= LastPage(c) ==> first in h.cont;
    assert LastPage(c) < first || last < FirstPage(c);
    NextPage(c.v, FirstPage(c));
    NextPage(c.v + c.size, LastPage(c));
    NextPage(b.v + b.size, last);
    forall p | FirstPage(c) <= p <= LastPage(c) ensures p in Fresh(h, n).cont && Fresh(h, n).cont[p] == (p < LastPage(c)) {
      assert p in h.cont;
      RunToAt(h.cont, first, last - first + 1, last, p);
    }
  }

  // free of a live block.
  function Freed(h: Heap, k: nat): Heap
    requires k < |h.live| && LastPage(h.live[k]) in h.ref && h.ref[LastPage(h.live[k])] > 0
  {
    var first, last := FirstPage(h.live[k]), LastPage(h.live[k]);
    Heap(h.mptr, FreedPages(h.cont, h.ref, first, last), FreedRef(h.ref, last), h.live[..k] + h.live[k + 1..], h.stranded)
  }

  lemma LiveRunEnds(h: Heap, k: nat)
    requires Inv(h) && k < |h.live|
    ensures RunEnds(h.cont, h.ref, FirstPage(h.live[k]), LastPage(h.live[k]))
  {
    var b := h.live[k];
    assert BlockOk(h, b);
    assert LastPage(b) in h.cont;
    assert PageOk(h, LastPage(b));
  }

  lemma FreedBlock(h: Heap, k: nat, j: nat)
    requires Inv(h) && k < |h.live| && j < |h.live| && j != k
    requires LastPage(h.live[k]) in h.ref && h.ref[LastPage(h.live[k])] > 0
    ensures BlockOk(Freed(h, k), h.live[j])
  {
    var b := h.live[j];
    assert BlockOk(h, b);
    KeepsPages(h, k, j);
    forall p | FirstPage(b) <= p <= LastPage(b) ensures p in Freed(h, k).cont && Freed(h, k).cont[p] == (p < LastPage(b)) {
      assert p in h.cont;
    }
  }

  lemma FreedPage(h: Heap, k: nat, q: nat)
    requires Inv(h) && k < |h.live| && RunEnds(h.cont, h.ref, FirstPage(h.live[k]), LastPage(h.live[k]))
    requires q in Freed(h, k).cont
    ensures PageOk(Freed(h, k), q)
  {
    assert PageOk(h, q);
    BlocksWithout(h.live, k, q);
    if q == LastPage(h.live[k]) { BlocksPositive(h.live, k, q); }
  }

  // Only a count that includes nothing of malloc's own can go to 0.
  lemma FreedStranded(h: Heap, k: nat, q: nat)
    requires Inv(h) && k < |h.live| && RunEnds(h.cont, h.ref, FirstPage(h.live[k]), LastPage(h.live[k]))
    requires q in h.stranded
    ensures Counted(Freed(h, k), q)
  {
    assert Counted(h, q) && PageOk(h, q);
    if q == LastPage(h.live[k]) { BlocksPositive(h.live, k, q); }
  }

  lemma FreeKeeps(h: Heap, k: nat)
    requires Inv(h) && k < |h.live| && LastPage(h.live[k]) in h.ref && h.ref[LastPage(h.live[k])] > 0
    ensures Inv(Freed(h, k))
  {
    var g := Freed(h, k);
    var b := h.live[k];
    LiveRunEnds(h, k);
    forall q | q in g.cont ensures PageOk(g, q) { FreedPage(h, k, q); }
    forall q | q in h.stranded ensures Counted(g, q) { FreedStranded(h, k, q); }
    forall i | 0 <= i < |g.live| ensures BlockOk(g, g.live[i]) {
      var j := if i < k then i else i + 1;
      assert g.live[i] == h.live[j];
      FreedBlock(h, k, j);
    }
    forall i, j | 0 <= i < j < |g.live| ensures Apart(g.live[i], g.live[j]) {
      var i', j' := if i < k then i else i + 1, if j < k then j else j + 1;
      assert Apart(h.live[i'], h.live[j']);
    }
    BlocksWithout(h.live, k, h.mptr / PGSIZE);
    assert Midway(h.mptr) ==> PageOk(h, h.mptr / PGSIZE);
    assert Midway(h.mptr) ==> OwnsPointer(h, k);
  }

  // The page mptr is in is not one that block k runs on from.
  predicate OwnsPointer(h: Heap, k: nat)
    requires k < |h.live|
  {
    !(FirstPage(h.live[k]) <= h.mptr / PGSIZE < LastPage(h.live[k]))
  }

  // Freeing block k unmaps no page that holds a part of another live block, nor its count.
  lemma KeepsPages(h: Heap, k: nat, j: nat)
    requires Inv(h) && k < |h.live| && j < |h.live| && j != k
    requires LastPage(h.live[k]) in h.ref && h.ref[LastPage(h.live[k])] > 0
    ensures forall p :: FirstPage(h.live[j]) <= p <= LastPage(h.live[j]) ==> p in Freed(h, k).cont
  {
    var b, c := h.live[k], h.live[j];
    assert BlockOk(h, b) && BlockOk(h, c);
    forall p | FirstPage(c) <= p <= LastPage(c) ensures p in Freed(h, k).cont {
      assert p in h.cont;
      if FirstPage(b) <= p < LastPage(b) { OwnsRun(h, k, j, p); }
      if p == LastPage(b) {
        assert !h.cont[p];
        assert p == LastPage(c);
        BlocksWithout(h.live, k, p);
        var rest := h.live[..k] + h.live[k + 1..];
        var j' := if j < k then j else j - 1;
        assert rest[j'] == c;
        BlocksPositive(rest, j', p);
        assert PageOk(h, p);
      }
    }
  }

  // The words at the ends of unmapped pages mean nothing.
  lemma OnlyMappedCounts(h: Heap, ref: map<nat, nat>)
    requires Inv(h) && forall p :: p in h.cont && p in h.ref ==> p in ref && ref[p] == h.ref[p]
    ensures Inv(Heap(h.mptr, h.cont, ref, h.live, h.stranded))
  {
    var g := Heap(h.mptr, h.cont, ref, h.live, h.stranded);
    forall p | p in g.cont ensures PageOk(g, p) { assert PageOk(h, p); }
    forall i | 0 <= i < |g.live| ensures BlockOk(g, g.live[i]) { assert BlockOk(h, h.live[i]); }
    forall i, j | 0 <= i < j < |g.live| ensures Apart(g.live[i], g.live[j]) { assert Apart(h.live[i], h.live[j]); }
  }

  // ---------------------------------------------------------------- memory comes back

  // A page is mapped exactly as long as a block has a part on it, malloc is handing it out, or
  // it is stranded.
  lemma MappedIsInUse(h: Heap, p: nat)
    requires Inv(h)
    ensures p in h.cont <==> Blocks(h.live, p) + OwnRefs(h, p) > 0
  {
    if p in h.cont { assert PageOk(h, p); } else { UnmappedUntouched(h, p); }
  }

  // With no live block only the stranded pages and the open one are left.
  lemma AllFreed(h: Heap)
    requires Inv(h) && h.live == []
    ensures h.cont.Keys == h.stranded + if Midway(h.mptr) then {h.mptr / PGSIZE} else {}
  {
    forall p: nat ensures p in h.cont.Keys <==> p in h.stranded || Open(h, p) { MappedIsInUse(h, p); }
  }

  // free unmaps a page exactly when the block had the last reference to it.
  lemma FreedExactly(h: Heap, k: nat, p: nat)
    requires Inv(h) && k < |h.live|
    ensures RunEnds(h.cont, h.ref, FirstPage(h.live[k]), LastPage(h.live[k]))
    ensures p in Freed(h, k).cont <==>
              p in h.cont && !(Touches(h.live[k], p) && Blocks(h.live, p) == 1 && OwnRefs(h, p) == 0)
  {
    LiveRunEnds(h, k);
    FreeKeeps(h, k);
    MappedIsInUse(h, p);
    MappedIsInUse(Freed(h, k), p);
    BlocksWithout(h.live, k, p);
  }

  // Moving on unmaps the page left exactly when no block has a part on it, unless it is stranded.
  lemma MovedExactly(h: Heap, p: nat)
    requires Inv(h) && Midway(h.mptr)
    ensures Counted(h, h.mptr / PGSIZE) && h.ref[h.mptr / PGSIZE] > 0
    ensures p in MovedOn(h).cont <==> p in h.cont && !(Open(h, p) && Blocks(h.live, p) == 0 && p !in h.stranded)
  {
    MoveOnKeeps(h);
    MappedIsInUse(h, p);
    MappedIsInUse(MovedOn(h), p);
  }

  // A count is the number of blocks and open page exactly on pages that are not stranded.
  lemma CountsExactUnlessStranded(h: Heap, p: nat)
    requires Inv(h) && Counted(h, p)
    ensures h.ref[p] == Blocks(h.live, p) + (if Open(h, p) then 1 else 0) <==> p !in h.stranded
    ensures p in h.stranded ==> h.ref[p] == Blocks(h.live, p) + (if Open(h, p) then 1 else 0) + 1
  {
    assert PageOk(h, p);
  }

  // A request of a multiple of the page size strands the last of its pages: after the block is
  // freed, one reference is left that belongs to nobody.
  lemma PageMultiplesStrand(h: Heap, n: nat)
    requires Inv(h) && !Midway(h.mptr) && h.mptr > 0 && n % PGSIZE == 0
    requires h.mptr / PGSIZE + n / PGSIZE < MEND / PGSIZE
    requires forall p :: h.mptr / PGSIZE <= p <= h.mptr / PGSIZE + n / PGSIZE ==> p !in h.cont
    ensures var g := Fresh(h, n);
            RunEnds(g.cont, g.ref, FirstPage(g.live[|h.live|]), LastPage(g.live[|h.live|]))
    ensures var last, t := h.mptr / PGSIZE + n / PGSIZE, Freed(Fresh(h, n), |h.live|);
            && t.live == h.live && Counted(t, last) && t.ref[last] == 1 && Blocks(t.live, last) == 0 && !Open(t, last)
  {
    var g, last := Fresh(h, n), h.mptr / PGSIZE + n / PGSIZE;
    SplitAddress(n);
    assert n % 4 == 0;
    FreshKeeps(h, n);
    FreshEnd(h, n);
    LiveRunEnds(g, |h.live|);
    FreeKeeps(g, |h.live|);
    var t := Freed(g, |h.live|);
    assert t.live == h.live;
    UnmappedUntouched(h, last);
    assert Counted(t, last) && PageOk(t, last);
  }

  // ---------------------------------------------------------------- what the caller gets

  // Every byte of a live block is on a mapped page, is no part of a count, and belongs to no
  // other live block.
  lemma BytesAreUsable(h: Heap, i: nat, a: nat)
    requires Inv(h) && i < |h.live| && h.live[i].v <= a < h.live[i].v + h.live[i].size
    ensures 0x0800_0000 <= a < 0x1000_0000 && a / PGSIZE in h.cont
    ensures !h.cont[a / PGSIZE] ==> a % PGSIZE < PGSIZE - 4
    ensures forall j :: 0 <= j < |h.live| && j != i ==> !(h.live[j].v <= a < h.live[j].v + h.live[j].size)
  {
    var b := h.live[i];
    var p := a / PGSIZE;
    assert BlockOk(h, b) && PagesOk(h.cont, b);
    NextPage(a, p);
    NextPage(b.v, FirstPage(b));
    NextPage(b.v + b.size, LastPage(b));
    assert FirstPage(b) <= p <= LastPage(b);
    assert FirstPage(b) in h.cont && LastPage(b) in h.cont;
    assert p in h.cont && PageOk(h, p);
    SplitAddress(a);
    forall j | 0 <= j < |h.live| && j != i ensures !(h.live[j].v <= a < h.live[j].v + h.live[j].size) {
      if i < j { assert Apart(h.live[i], h.live[j]); } else { assert Apart(h.live[j], h.live[i]); }
    }
  }
}
