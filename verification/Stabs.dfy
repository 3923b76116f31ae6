/** kern/kdebug.c: stab_binsearch, a binary search for entries of one type among others. */
module Stabs {

  type Word = w: nat | w < 0x1_0000_0000

  datatype Stab = Stab(kind: nat, value: Word)

  // Entry i is of the wanted type and in the range searched.
  predicate Wanted(stabs: seq<Stab>, lo: int, hi: int, kind: nat, i: int) {
    0 <= lo <= i <= hi < |stabs| && stabs[i].kind == kind
  }

  ghost predicate SortedFor(stabs: seq<Stab>, lo: int, hi: int, kind: nat) {
    forall i, j {:trigger Wanted(stabs, lo, hi, kind, i), Wanted(stabs, lo, hi, kind, j)} ::
      i <= j && Wanted(stabs, lo, hi, kind, i) && Wanted(stabs, lo, hi, kind, j) ==> stabs[i].value <= stabs[j].value
  }

  ghost predicate Has(stabs: seq<Stab>, lo: int, hi: int, kind: nat, value: int) {
    exists i {:trigger Wanted(stabs, lo, hi, kind, i)} :: Wanted(stabs, lo, hi, kind, i) && stabs[i].value == value
  }

  ghost predicate HasAny(stabs: seq<Stab>, lo: int, hi: int, kind: nat) {
    exists i {:trigger Wanted(stabs, lo, hi, kind, i)} :: Wanted(stabs, lo, hi, kind, i)
  }

  ghost predicate HasAtOrBelow(stabs: seq<Stab>, lo: int, hi: int, kind: nat, addr: int) {
    exists i {:trigger Wanted(stabs, lo, hi, kind, i)} :: Wanted(stabs, lo, hi, kind, i) && stabs[i].value <= addr
  }

  // What a linear scan finds: `left` is the last wanted entry at or below addr.
  ghost predicate LastAtOrBelow(stabs: seq<Stab>, lo: int, hi: int, kind: nat, addr: int, left: int) {
    && Wanted(stabs, lo, hi, kind, left) && stabs[left].value <= addr
    && forall i {:trigger Wanted(stabs, lo, hi, kind, i)} :: Wanted(stabs, lo, hi, kind, i) && i > left ==> stabs[i].value > addr
  }

  // `right` is just before the next wanted entry after `left`, or the end.
  ghost predicate JustBeforeNext(stabs: seq<Stab>, lo: int, hi: int, kind: nat, left: int, right: int) {
    && left <= right <= hi && (right == hi || Wanted(stabs, lo, hi, kind, right + 1))
    && forall i {:trigger Wanted(stabs, lo, hi, kind, i)} :: left < i <= right ==> !Wanted(stabs, lo, hi, kind, i)
  }

  // The search's variables; `wrapped` says whether addr++ has gone past 2^32.
  datatype Search = Search(l: int, r: int, addr: Word, left: int, any: bool, wrapped: bool)

  // Where the bounds stand: below l the wanted values are less than addr, which exact matches
  // have advanced; above r they are greater than the address asked for.
  ghost predicate Bracket(stabs: seq<Stab>, lo: int, hi: int, kind: nat, addr0: int, s: Search) {
    && addr0 <= s.addr && (s.left == lo || (0 <= s.left <= s.r && s.left < |stabs| && stabs[s.left].value < s.addr))
    && forall i {:trigger Wanted(stabs, lo, hi, kind, i)} :: Wanted(stabs, lo, hi, kind, i) ==>
         (i < s.l ==> stabs[i].value < s.addr) && (i > s.r ==> stabs[i].value > addr0)
  }

  ghost predicate Going(stabs: seq<Stab>, lo: int, hi: int, kind: nat, addr0: int, s: Search) {
    && lo <= s.l <= s.r + 1 && s.r <= hi && (s.r == hi || Wanted(stabs, lo, hi, kind, s.r + 1))
    && lo <= s.left && (s.left == lo || Wanted(stabs, lo, hi, kind, s.left))
    && (!s.wrapped ==> Bracket(stabs, lo, hi, kind, addr0, s))
    && (s.wrapped ==> Has(stabs, lo, hi, kind, 0xffff_ffff))
    && (s.wrapped || s.addr > addr0 ==> Has(stabs, lo, hi, kind, addr0))
    && (!s.wrapped && s.addr > addr0 + 1 ==> Has(stabs, lo, hi, kind, addr0 + 1))
    && s.left <= s.l && (s.addr > addr0 + 1 ==> Wanted(stabs, lo, hi, kind, s.left) && stabs[s.left].value > addr0)
    && (s.any ==> HasAny(stabs, lo, hi, kind))
    && (!s.any ==> !s.wrapped && s.addr == addr0 && s.left == lo && s.r == hi &&
                   forall i {:trigger Wanted(stabs, lo, hi, kind, i)} :: i < s.l ==> !Wanted(stabs, lo, hi, kind, i))
  }

  // The last wanted entry in [l, m], or l - 1.
  ghost predicate IsBack(stabs: seq<Stab>, lo: int, hi: int, kind: nat, l: int, m: int, k: int) {
    && l - 1 <= k <= m && (k >= l ==> Wanted(stabs, lo, hi, kind, k))
    && forall i {:trigger Wanted(stabs, lo, hi, kind, i)} :: k < i <= m ==> !Wanted(stabs, lo, hi, kind, i)
  }

  // One turn of the search, at the entry m found back from the middle.
  function Turn(stabs: seq<Stab>, s: Search, m: int): Search
    requires m >= s.l ==> 0 <= m < |stabs|
  {
    var mid := (s.l + s.r) / 2;
    if m < s.l then Search(mid + 1, s.r, s.addr, s.left, s.any, s.wrapped)
    else if stabs[m].value < s.addr then Search(mid + 1, s.r, s.addr, m, true, s.wrapped)
    else if stabs[m].value > s.addr then Search(s.l, m - 1, s.addr, s.left, true, s.wrapped)
    else if s.addr == 0xffff_ffff then Search(m, s.r, 0, m, true, true)
    else Search(m, s.r, s.addr + 1, m, true, s.wrapped)
  }

  lemma TurnBracket(stabs: seq<Stab>, lo: int, hi: int, kind: nat, addr0: int, s: Search, m: int)
    requires 0 <= lo && hi < |stabs| && SortedFor(stabs, lo, hi, kind) && Going(stabs, lo, hi, kind, addr0, s)
    requires s.l <= s.r && IsBack(stabs, lo, hi, kind, s.l, (s.l + s.r) / 2, m) && !Turn(stabs, s, m).wrapped
    ensures Bracket(stabs, lo, hi, kind, addr0, Turn(stabs, s, m))
  {
    var t := Turn(stabs, s, m);
    forall i | Wanted(stabs, lo, hi, kind, i)
      ensures (i < t.l ==> stabs[i].value < t.addr) && (i > t.r ==> stabs[i].value > addr0)
    {
      if m >= s.l { assert Wanted(stabs, lo, hi, kind, m); }
    }
    if s.left != lo && m >= s.l && stabs[m].value > s.addr { assert Wanted(stabs, lo, hi, kind, s.left); }
  }

  lemma TurnKeeps(stabs: seq<Stab>, lo: int, hi: int, kind: nat, addr0: int, s: Search, m: int)
    requires 0 <= lo && hi < |stabs| && SortedFor(stabs, lo, hi, kind) && Going(stabs, lo, hi, kind, addr0, s)
    requires s.l <= s.r && IsBack(stabs, lo, hi, kind, s.l, (s.l + s.r) / 2, m)
    ensures Going(stabs, lo, hi, kind, addr0, Turn(stabs, s, m))
  {
    var t := Turn(stabs, s, m);
    assert s.l <= (s.l + s.r) / 2 <= s.r;
    if !t.wrapped { TurnBracket(stabs, lo, hi, kind, addr0, s, m); }
    if m >= s.l { assert Wanted(stabs, lo, hi, kind, m) && (s.left != lo ==> Wanted(stabs, lo, hi, kind, s.left)); }
  }

  // An exact match moves neither bound inward, but the next turn there does.
  ghost predicate ExactAt(stabs: seq<Stab>, lo: int, hi: int, kind: nat, s: Search, m: int) {
    s.l <= m && IsBack(stabs, lo, hi, kind, s.l, (s.l + s.r) / 2, m) && stabs[m].value == s.addr
  }

  ghost function Exact(stabs: seq<Stab>, lo: int, hi: int, kind: nat, s: Search): nat {
    if exists m :: ExactAt(stabs, lo, hi, kind, s, m) then 1 else 0
  }

  lemma TurnEnds(stabs: seq<Stab>, lo: int, hi: int, kind: nat, s: Search, m: int)
    requires 0 <= lo <= s.l <= s.r <= hi < |stabs| && IsBack(stabs, lo, hi, kind, s.l, (s.l + s.r) / 2, m)
    ensures var t := Turn(stabs, s, m);
            t.r - t.l < s.r - s.l || (t.r - t.l == s.r - s.l && Exact(stabs, lo, hi, kind, t) < Exact(stabs, lo, hi, kind, s))
  {
    var t := Turn(stabs, s, m);
    if m == s.l && stabs[m].value == s.addr {
      assert ExactAt(stabs, lo, hi, kind, s, m);
      forall k ensures !ExactAt(stabs, lo, hi, kind, t, k) {
        assert Wanted(stabs, lo, hi, kind, k) || !Wanted(stabs, lo, hi, kind, k);
        assert Wanted(stabs, lo, hi, kind, m);
      }
    }
  }

  // ---------------------------------------------------------------- when the search goes wrong

  // Every address from addr to the last has an entry: then addr++ can come to 2^32.
  ghost predicate AllFrom(stabs: seq<Stab>, lo: int, hi: int, kind: nat, addr: int) {
    forall v {:trigger Has(stabs, lo, hi, kind, v)} :: addr <= v < 0x1_0000_0000 ==> Has(stabs, lo, hi, kind, v)
  }

  ghost predicate HasIn(stabs: seq<Stab>, lo: int, hi: int, kind: nat, l: int, r: int, value: int) {
    exists i {:trigger Wanted(stabs, lo, hi, kind, i)} :: l <= i <= r && Wanted(stabs, lo, hi, kind, i) && stabs[i].value == value
  }

  // The last entry of the type in [l, m], or l - 1.
  function Back(stabs: seq<Stab>, kind: nat, l: int, m: int): int
    requires 0 <= l && m < |stabs|
    decreases m - l
  {
    if m < l then l - 1 else if stabs[m].kind == kind then m else Back(stabs, kind, l, m - 1)
  }

  lemma {:induction false} BackBounds(stabs: seq<Stab>, kind: nat, l: int, m: int)
    requires 0 <= l && m < |stabs| && l - 1 <= m
    ensures l - 1 <= Back(stabs, kind, l, m) <= m
    decreases m - l
  {
    if m >= l && stabs[m].kind != kind { BackBounds(stabs, kind, l, m - 1); }
  }

  lemma {:induction false} BackIs(stabs: seq<Stab>, lo: int, hi: int, kind: nat, l: int, m: int, k: int)
    requires 0 <= lo <= l && m <= hi < |stabs| && IsBack(stabs, lo, hi, kind, l, m, k)
    ensures k == Back(stabs, kind, l, m)
    decreases m - l
  {
    if m >= l {
      assert Wanted(stabs, lo, hi, kind, m) <==> stabs[m].kind == kind;
      if stabs[m].kind != kind { BackIs(stabs, lo, hi, kind, l, m - 1, k); }
    }
  }

  // The bisection of [l, r] for addr matches an entry while the range right of it still holds
  // an entry at the next address; equivalently, before it probes the first such entry.
  ghost predicate Overshoots(stabs: seq<Stab>, lo: int, hi: int, kind: nat, addr: int, l: int, r: int)
    requires 0 <= lo <= l && r <= hi < |stabs|
    decreases r - l
  {
    l <= r &&
      var mid := (l + r) / 2;
      var m := Back(stabs, kind, l, mid);
      BackBounds(stabs, kind, l, mid);
      if m < l || stabs[m].value < addr then Overshoots(stabs, lo, hi, kind, addr, mid + 1, r)
      else if stabs[m].value > addr then Overshoots(stabs, lo, hi, kind, addr, l, m - 1)
      else HasIn(stabs, lo, hi, kind, m, r, addr + 1)
  }

  // It can only where both addresses occur.
  lemma {:induction false} OvershootNeedsBoth(stabs: seq<Stab>, lo: int, hi: int, kind: nat, addr: int, l: int, r: int)
    requires 0 <= lo <= l && r <= hi < |stabs| && Overshoots(stabs, lo, hi, kind, addr, l, r)
    ensures Has(stabs, lo, hi, kind, addr) && Has(stabs, lo, hi, kind, addr + 1)
    decreases r - l
  {
    var mid := (l + r) / 2;
    var m := Back(stabs, kind, l, mid);
    BackBounds(stabs, kind, l, mid);
    if m < l || stabs[m].value < addr {
      OvershootNeedsBoth(stabs, lo, hi, kind, addr, mid + 1, r);
    } else if stabs[m].value > addr {
      OvershootNeedsBoth(stabs, lo, hi, kind, addr, l, m - 1);
    } else {
      BackIsWanted(stabs, lo, hi, kind, l, mid);
      assert Wanted(stabs, lo, hi, kind, m);
    }
  }

  lemma {:induction false} BackIsWanted(stabs: seq<Stab>, lo: int, hi: int, kind: nat, l: int, m: int)
    requires 0 <= lo <= l && m <= hi < |stabs| && Back(stabs, kind, l, m) >= l
    ensures Wanted(stabs, lo, hi, kind, Back(stabs, kind, l, m))
    decreases m - l
  {
    if m >= l && stabs[m].kind != kind { BackIsWanted(stabs, lo, hi, kind, l, m - 1); }
  }

  // Every address from addr0 up to the search's has been matched.
  ghost predicate Matched(stabs: seq<Stab>, lo: int, hi: int, kind: nat, addr0: int, s: Search) {
    forall v {:trigger Has(stabs, lo, hi, kind, v)} ::
      addr0 <= v < (if s.wrapped then 0x1_0000_0000 else s.addr) ==> Has(stabs, lo, hi, kind, v)
  }

  lemma TurnMatches(stabs: seq<Stab>, lo: int, hi: int, kind: nat, addr0: int, s: Search, m: int)
    requires 0 <= lo <= s.l <= s.r <= hi < |stabs| && Matched(stabs, lo, hi, kind, addr0, s)
    requires IsBack(stabs, lo, hi, kind, s.l, (s.l + s.r) / 2, m)
    ensures Matched(stabs, lo, hi, kind, addr0, Turn(stabs, s, m))
  {
    if m >= s.l { assert Wanted(stabs, lo, hi, kind, m); }
  }

  // What is left of the search overshoots if the whole does.
  ghost predicate Foretold(stabs: seq<Stab>, lo: int, hi: int, kind: nat, addr0: int, s: Search, over: bool)
    requires 0 <= lo <= s.l && s.r <= hi < |stabs|
  {
    !s.wrapped ==>
      && (s.addr == addr0 ==> (over <==> Overshoots(stabs, lo, hi, kind, addr0, s.l, s.r)))
      && (s.addr == addr0 + 1 ==> (over <==> HasIn(stabs, lo, hi, kind, s.l, s.r, addr0 + 1)))
      && (s.addr > addr0 + 1 ==> over)
  }

  lemma TurnForetells(stabs: seq<Stab>, lo: int, hi: int, kind: nat, addr0: int, s: Search, m: int, over: bool)
    requires 0 <= lo && hi < |stabs| && SortedFor(stabs, lo, hi, kind) && Going(stabs, lo, hi, kind, addr0, s) && s.l <= s.r
    requires IsBack(stabs, lo, hi, kind, s.l, (s.l + s.r) / 2, m) && Foretold(stabs, lo, hi, kind, addr0, s, over)
    ensures lo <= Turn(stabs, s, m).l && Turn(stabs, s, m).r <= hi
    ensures Foretold(stabs, lo, hi, kind, addr0, Turn(stabs, s, m), over)
  {
    if m >= s.l { assert Wanted(stabs, lo, hi, kind, m); }
    if !s.wrapped && s.addr == addr0 { FirstStays(stabs, lo, hi, kind, s, m); }
    if !s.wrapped && s.addr == addr0 + 1 { NextStays(stabs, lo, hi, kind, s, m); }
  }

  lemma FirstStays(stabs: seq<Stab>, lo: int, hi: int, kind: nat, s: Search, m: int)
    requires 0 <= lo <= s.l <= s.r <= hi < |stabs| && IsBack(stabs, lo, hi, kind, s.l, (s.l + s.r) / 2, m)
    ensures var t := Turn(stabs, s, m);
            && lo <= t.l && t.r <= hi
            && (Overshoots(stabs, lo, hi, kind, s.addr, s.l, s.r) <==>
                  if m >= s.l && stabs[m].value == s.addr then HasIn(stabs, lo, hi, kind, m, s.r, s.addr + 1)
                  else Overshoots(stabs, lo, hi, kind, s.addr, t.l, t.r))
  {
    var mid := (s.l + s.r) / 2;
    assert s.l <= mid <= s.r;
    BackIs(stabs, lo, hi, kind, s.l, mid, m);
    OneProbe(stabs, lo, hi, kind, s.addr, s.l, s.r, mid, m);
  }

  lemma OneProbe(stabs: seq<Stab>, lo: int, hi: int, kind: nat, addr: int, l: int, r: int, mid: int, m: int)
    requires 0 <= lo <= l <= mid <= r <= hi < |stabs| && mid == (l + r) / 2 && m == Back(stabs, kind, l, mid) && l - 1 <= m <= mid
    ensures Overshoots(stabs, lo, hi, kind, addr, l, r) ==
              if m < l || stabs[m].value < addr then Overshoots(stabs, lo, hi, kind, addr, mid + 1, r)
              else if stabs[m].value > addr then Overshoots(stabs, lo, hi, kind, addr, l, m - 1)
              else HasIn(stabs, lo, hi, kind, m, r, addr + 1)
  {
  }

  lemma NextStays(stabs: seq<Stab>, lo: int, hi: int, kind: nat, s: Search, m: int)
    requires 0 <= lo <= s.l <= s.r <= hi < |stabs| && SortedFor(stabs, lo, hi, kind)
    requires IsBack(stabs, lo, hi, kind, s.l, (s.l + s.r) / 2, m)
    ensures var t := Turn(stabs, s, m);
            if m >= s.l && stabs[m].value == s.addr then HasIn(stabs, lo, hi, kind, s.l, s.r, s.addr)
            else HasIn(stabs, lo, hi, kind, s.l, s.r, s.addr) <==> HasIn(stabs, lo, hi, kind, t.l, t.r, s.addr)
  {
    if m >= s.l { assert Wanted(stabs, lo, hi, kind, m); }
  }

  ghost predicate Sound(stabs: seq<Stab>, lo: int, hi: int, kind: nat, addr0: int, s: Search, over: bool) {
    && 0 <= lo && hi < |stabs| && Going(stabs, lo, hi, kind, addr0, s) && Matched(stabs, lo, hi, kind, addr0, s)
    && Foretold(stabs, lo, hi, kind, addr0, s, over)
  }

  lemma TurnSound(stabs: seq<Stab>, lo: int, hi: int, kind: nat, addr0: int, s: Search, m: int, over: bool)
    requires SortedFor(stabs, lo, hi, kind) && Sound(stabs, lo, hi, kind, addr0, s, over)
    requires s.l <= s.r && IsBack(stabs, lo, hi, kind, s.l, (s.l + s.r) / 2, m)
    ensures Sound(stabs, lo, hi, kind, addr0, Turn(stabs, s, m), over)
  {
    TurnKeeps(stabs, lo, hi, kind, addr0, s, m);
    TurnMatches(stabs, lo, hi, kind, addr0, s, m);
    TurnForetells(stabs, lo, hi, kind, addr0, s, m, over);
  }

  lemma Start(stabs: seq<Stab>, lo: int, hi: int, kind: nat, addr0: Word)
    requires 0 <= lo && lo - 1 <= hi < |stabs|
    ensures Sound(stabs, lo, hi, kind, addr0, Search(lo, hi, addr0, lo, false, false), Overshoots(stabs, lo, hi, kind, addr0, lo, hi))
  {
  }

  // The first inner loop: back from the middle.
  method FindBack(stabs: seq<Stab>, kind: nat, l: int, trueM: int, ghost lo: int, ghost hi: int) returns (m: int)
    requires 0 <= lo <= l <= trueM <= hi < |stabs|
    ensures IsBack(stabs, lo, hi, kind, l, trueM, m)
  {
    m := trueM;
    while m >= l && stabs[m].kind != kind
      invariant l - 1 <= m <= trueM
      invariant forall i {:trigger Wanted(stabs, lo, hi, kind, i)} :: m < i <= trueM ==> !Wanted(stabs, lo, hi, kind, i)
    {
      m := m - 1;
    }
  }

  // The last loop: back from the right end of the region, not past the left one.
  method FindLast(stabs: seq<Stab>, kind: nat, left: int, right: int, ghost lo: int, ghost hi: int) returns (l: int)
    requires 0 <= lo <= left && right <= hi < |stabs|
    ensures if right < left then l == right
            else left <= l <= right && (l == left || Wanted(stabs, lo, hi, kind, l))
    ensures forall i {:trigger Wanted(stabs, lo, hi, kind, i)} :: l < i <= right ==> !Wanted(stabs, lo, hi, kind, i)
  {
    l := right;
    while l > left && stabs[l].kind != kind
      invariant l <= right && (l >= left || l == right)
      invariant forall i {:trigger Wanted(stabs, lo, hi, kind, i)} :: l < i <= right ==> !Wanted(stabs, lo, hi, kind, i)
    {
      l := l - 1;
    }
  }

  // The documented result.
  ghost predicate Finds(stabs: seq<Stab>, lo: int, hi: int, kind: nat, addr: int, left: int, right: int) {
    LastAtOrBelow(stabs, lo, hi, kind, addr, left) && JustBeforeNext(stabs, lo, hi, kind, left, right)
  }

  lemma FoundIt(stabs: seq<Stab>, lo: int, hi: int, kind: nat, addr0: Word, s: Search, left: int)
    requires 0 <= lo && hi < |stabs| && SortedFor(stabs, lo, hi, kind) && Going(stabs, lo, hi, kind, addr0, s) && s.l > s.r
    requires HasAtOrBelow(stabs, lo, hi, kind, addr0) && !s.wrapped && s.addr <= addr0 + 1
    requires if s.r < s.left then left == s.r else s.left <= left <= s.r && (left == s.left || Wanted(stabs, lo, hi, kind, left))
    requires forall i {:trigger Wanted(stabs, lo, hi, kind, i)} :: left < i <= s.r ==> !Wanted(stabs, lo, hi, kind, i)
    ensures Finds(stabs, lo, hi, kind, addr0, left, s.r)
  {
    var k :| Wanted(stabs, lo, hi, kind, k) && stabs[k].value <= addr0;
    assert k <= s.r;
  }

  // Once the search has met an entry at the next address, it ends at or beyond that.
  lemma WentTooFar(stabs: seq<Stab>, lo: int, hi: int, kind: nat, addr0: Word, s: Search, left: int)
    requires 0 <= lo && hi < |stabs| && SortedFor(stabs, lo, hi, kind) && Going(stabs, lo, hi, kind, addr0, s) && s.l > s.r
    requires s.addr > addr0 + 1 && !s.wrapped
    requires if s.r < s.left then left == s.r else s.left <= left <= s.r && (left == s.left || Wanted(stabs, lo, hi, kind, left))
    ensures !Finds(stabs, lo, hi, kind, addr0, left, s.r)
  {
    assert Wanted(stabs, lo, hi, kind, s.left);
    assert Wanted(stabs, lo, hi, kind, left) ==> stabs[left].value >= stabs[s.left].value;
  }

  lemma NothingBelow(stabs: seq<Stab>, lo: int, hi: int, kind: nat, addr0: Word, s: Search, left: int)
    requires 0 <= lo && hi < |stabs| && SortedFor(stabs, lo, hi, kind) && Going(stabs, lo, hi, kind, addr0, s) && s.l > s.r
    requires HasAny(stabs, lo, hi, kind) && !HasAtOrBelow(stabs, lo, hi, kind, addr0)
    requires if s.r < s.left then left == s.r else s.left <= left <= s.r && (left == s.left || Wanted(stabs, lo, hi, kind, left))
    ensures Wanted(stabs, lo, hi, kind, s.r + 1) && left == (if s.r >= lo then lo else s.r)
    ensures forall i :: lo <= i <= s.r ==> !Wanted(stabs, lo, hi, kind, i)
  {
    assert !Has(stabs, lo, hi, kind, addr0);
    assert !s.wrapped && s.addr == addr0;
    forall i | lo <= i <= s.r ensures !Wanted(stabs, lo, hi, kind, i) {}
  }

  lemma Conclude(stabs: seq<Stab>, lo: int, hi: int, kind: nat, addr0: Word, s: Search, left: int)
    requires 0 <= lo && hi < |stabs| && SortedFor(stabs, lo, hi, kind) && Going(stabs, lo, hi, kind, addr0, s) && s.l > s.r && s.any
    requires if s.r < s.left then left == s.r else s.left <= left <= s.r && (left == s.left || Wanted(stabs, lo, hi, kind, left))
    requires forall i {:trigger Wanted(stabs, lo, hi, kind, i)} :: left < i <= s.r ==> !Wanted(stabs, lo, hi, kind, i)
    ensures HasAtOrBelow(stabs, lo, hi, kind, addr0) && !s.wrapped ==>
              (Finds(stabs, lo, hi, kind, addr0, left, s.r) <==> s.addr <= addr0 + 1)
    ensures !HasAtOrBelow(stabs, lo, hi, kind, addr0) ==>
              && Wanted(stabs, lo, hi, kind, s.r + 1) && left == (if s.r >= lo then lo else s.r)
              && forall i :: lo <= i <= s.r ==> !Wanted(stabs, lo, hi, kind, i)
  {
    if !HasAtOrBelow(stabs, lo, hi, kind, addr0) {
      NothingBelow(stabs, lo, hi, kind, addr0, s, left);
    } else if !s.wrapped {
      if s.addr <= addr0 + 1 {
        FoundIt(stabs, lo, hi, kind, addr0, s, left);
      } else {
        WentTooFar(stabs, lo, hi, kind, addr0, s, left);
      }
    }
  }

  // The binary search proper (kern/kdebug.c:63-91).
  method Narrow(stabs: seq<Stab>, left0: int, right0: int, kind: nat, addr0: Word)
    returns (left: int, right: int, anyMatches: bool, ghost s: Search)
    requires 0 <= left0 && left0 - 1 <= right0 < |stabs| && SortedFor(stabs, left0, right0, kind)
    ensures Going(stabs, left0, right0, kind, addr0, s) && s.l > s.r && Matched(stabs, left0, right0, kind, addr0, s)
    ensures !s.wrapped ==> (s.addr > addr0 + 1 <==> Overshoots(stabs, left0, right0, kind, addr0, left0, right0))
    ensures s.left == left && s.r == right && s.any == anyMatches
  {
    var addr := addr0;
    var l, r := left0, right0;
    anyMatches := false;
    left, right := left0, right0;
    s := Search(l, r, addr, left, false, false);
    ghost var over := Overshoots(stabs, left0, right0, kind, addr0, left0, right0);
    Start(stabs, left0, right0, kind, addr0);
    while l <= r
      invariant s.l == l && s.r == r == right && s.addr == addr && s.left == left && s.any == anyMatches
      invariant Sound(stabs, left0, right0, kind, addr0, s, over)
      decreases r - l, Exact(stabs, left0, right0, kind, s)
    {
      var trueM := (l + r) / 2;
      var m := FindBack(stabs, kind, l, trueM, left0, right0);
      TurnSound(stabs, left0, right0, kind, addr0, s, m, over);
      TurnEnds(stabs, left0, right0, kind, s, m);
      s := Turn(stabs, s, m);
      if m < l {
        l := trueM + 1;
      } else {
        anyMatches := true;
        if stabs[m].value < addr {
          left := m;
          l := trueM + 1;
        } else if stabs[m].value > addr {
          right := m - 1;
          r := m - 1;
        } else {
          left := m;
          l := m;
          addr := if addr == 0xffff_ffff then 0 else addr + 1;
        }
      }
    }
  }

  // kern/kdebug.c:60
  method StabBinsearch(stabs: seq<Stab>, left0: int, right0: int, kind: nat, addr: Word) returns (left: int, right: int)
    requires 0 <= left0 && left0 - 1 <= right0 < |stabs| && SortedFor(stabs, left0, right0, kind)
    // no entry of the type: an empty region
    ensures !HasAny(stabs, left0, right0, kind) ==> left == left0 && right == left0 - 1
    // an entry at or below addr: the region of the last one, exactly unless the bisection overshoots
    ensures HasAtOrBelow(stabs, left0, right0, kind, addr) && !AllFrom(stabs, left0, right0, kind, addr) ==>
              (Finds(stabs, left0, right0, kind, addr, left, right) <==> !Overshoots(stabs, left0, right0, kind, addr, left0, right0))
    // so always, unless there are entries at addr and at the next address
    ensures HasAtOrBelow(stabs, left0, right0, kind, addr) &&
              !(Has(stabs, left0, right0, kind, addr) && (addr == 0xffff_ffff || Has(stabs, left0, right0, kind, addr + 1)))
            ==> Finds(stabs, left0, right0, kind, addr, left, right)
    // all entries of the type above addr: what comes before the first of them, not an empty region
    ensures HasAny(stabs, left0, right0, kind) && !HasAtOrBelow(stabs, left0, right0, kind, addr) ==>
              && Wanted(stabs, left0, right0, kind, right + 1) && left == (if right >= left0 then left0 else right)
              && forall i :: left0 <= i <= right ==> !Wanted(stabs, left0, right0, kind, i)
  {
    var anyMatches;
    ghost var s;
    left, right, anyMatches, s := Narrow(stabs, left0, right0, kind, addr);
    if !anyMatches {
      right := left - 1;
    } else {
      left := FindLast(stabs, kind, left, right, left0, right0);
      Conclude(stabs, left0, right0, kind, addr, s, left);
    }
    if !(Has(stabs, left0, right0, kind, addr) && (addr == 0xffff_ffff || Has(stabs, left0, right0, kind, addr + 1))) {
      NotBoth(stabs, left0, right0, kind, addr);
    }
  }

  lemma NotBoth(stabs: seq<Stab>, lo: int, hi: int, kind: nat, addr: Word)
    requires 0 <= lo && hi < |stabs|
    requires !(Has(stabs, lo, hi, kind, addr) && (addr == 0xffff_ffff || Has(stabs, lo, hi, kind, addr + 1)))
    ensures !AllFrom(stabs, lo, hi, kind, addr) && !Overshoots(stabs, lo, hi, kind, addr, lo, hi)
  {
    if Overshoots(stabs, lo, hi, kind, addr, lo, hi) { OvershootNeedsBoth(stabs, lo, hi, kind, addr, lo, hi); }
  }

  // A region found is the only one a linear scan could find.
  lemma FindsIsUnique(stabs: seq<Stab>, lo: int, hi: int, kind: nat, addr: int, l1: int, r1: int, l2: int, r2: int)
    requires Finds(stabs, lo, hi, kind, addr, l1, r1) && Finds(stabs, lo, hi, kind, addr, l2, r2)
    ensures l1 == l2 && r1 == r2
  {
    assert Wanted(stabs, lo, hi, kind, l1) && Wanted(stabs, lo, hi, kind, l2);
    assert r1 < r2 ==> Wanted(stabs, lo, hi, kind, r1 + 1);
    assert r2 < r1 ==> Wanted(stabs, lo, hi, kind, r2 + 1);
  }

  // With entries at addr and addr + 1 the bisection can overshoot, and then does not find the
  // last entry at addr; it need not, when it probes the entry at addr + 1 first.
  lemma AdjacentValuesMislead(stabs: seq<Stab>)
    requires stabs == [Stab(36, 5), Stab(36, 6)]
    ensures Overshoots(stabs, 0, 1, 36, 5, 0, 1) && Finds(stabs, 0, 1, 36, 5, 0, 0)
    ensures SortedFor(stabs, 0, 1, 36) && HasAtOrBelow(stabs, 0, 1, 36, 5) && !AllFrom(stabs, 0, 1, 36, 5)
  {
    assert Wanted(stabs, 0, 1, 36, 0) && Wanted(stabs, 0, 1, 36, 1);
    assert !Has(stabs, 0, 1, 36, 7);
  }

  lemma ProbedFirstIsHarmless(stabs: seq<Stab>)
    requires stabs == [Stab(36, 5), Stab(36, 6), Stab(36, 9)]
    ensures !Overshoots(stabs, 0, 2, 36, 5, 0, 2) && Has(stabs, 0, 2, 36, 5) && Has(stabs, 0, 2, 36, 6)
  {
    assert Wanted(stabs, 0, 2, 36, 0) && Wanted(stabs, 0, 2, 36, 1);
    assert Back(stabs, 36, 0, 1) == 1;
    assert Back(stabs, 36, 0, 0) == 0;
  }

  // The search on that table.
  method SearchIsMisled() returns (left: int, right: int)
    ensures !Finds([Stab(36, 5), Stab(36, 6)], 0, 1, 36, 5, left, right)
  {
    var stabs := [Stab(36, 5), Stab(36, 6)];
    AdjacentValuesMislead(stabs);
    left, right := StabBinsearch(stabs, 0, 1, 36, 5);
  }
}
