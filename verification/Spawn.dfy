/** lib/spawn.c: the child's stack page and the segments of its image. */
module Spawn {
  import opened Mmu

  type Byte = b: int | 0 <= b < 256
  type Frame = f: seq<Byte> | |f| == PGSIZE witness seq(4096, i => 0)

  const UTEMP: nat := 0x0040_0000
  const USTACKTOP: nat := 0xeebf_e000
  const E_NO_MEM: int := 4
  const E_INVAL: int := 3

  function Blank(): (f: Frame)
    ensures forall k :: 0 <= k < PGSIZE ==> f[k] == 0
  {
    seq(PGSIZE, i => 0)
  }

  // ---------------------------------------------------------------- bytes in a page

  // `bytes` written at offset off.
  function Put(p: Frame, off: nat, bytes: seq<Byte>): (q: Frame)
    requires off + |bytes| <= PGSIZE
  {
    p[..off] + bytes + p[off + |bytes|..]
  }

  predicate Stored(p: Frame, off: nat, bytes: seq<Byte>) {
    off + |bytes| <= PGSIZE && p[off..off + |bytes|] == bytes
  }

  lemma PutStores(p: Frame, off: nat, bytes: seq<Byte>)
    requires off + |bytes| <= PGSIZE
    ensures Stored(Put(p, off, bytes), off, bytes)
  {
  }

  lemma PutAt(p: Frame, off: nat, bytes: seq<Byte>, k: nat)
    requires off + |bytes| <= PGSIZE && k < PGSIZE
    ensures Put(p, off, bytes)[k] == if off <= k < off + |bytes| then bytes[k - off] else p[k]
  {
  }

  lemma PutKeeps(p: Frame, off: nat, bytes: seq<Byte>, at: nat, kept: seq<Byte>)
    requires off + |bytes| <= PGSIZE && Stored(p, at, kept) && (at + |kept| <= off || off + |bytes| <= at)
    ensures Stored(Put(p, off, bytes), at, kept)
  {
    var q := Put(p, off, bytes);
    forall k: nat | k < |kept| ensures q[at..at + |kept|][k] == kept[k] {
      assert p[at..at + |kept|][k] == kept[k];
      PutAt(p, off, bytes, at + k);
    }
  }

  // The value of four bytes, low byte first.
  function Value(b: seq<Byte>): Word
    requires |b| == 4
  {
    var b0: int, b1: int, b2: int, b3: int := b[0], b[1], b[2], b[3];
    b0 + 0x100 * b1 + 0x1_0000 * b2 + 0x100_0000 * b3
  }

  function LowBytes(w: Word): (b: seq<Byte>)
    ensures |b| == 4
  {
    [w % 256, w / 0x100 % 256, w / 0x1_0000 % 256, w / 0x100_0000]
  }

  lemma LowBytesValue(w: Word)
    ensures Value(LowBytes(w)) == w
  {
    assert w / 0x100 == w / 0x1_0000 * 256 + w / 0x100 % 256;
    assert w / 0x1_0000 == w / 0x100_0000 * 256 + w / 0x1_0000 % 256;
  }

  lemma TopByte(x: int, y: int, a: int, b: int)
    requires 0 <= a < 0x100_0000 && 0 <= b < 0x100_0000 && a + 0x100_0000 * x == b + 0x100_0000 * y
    ensures a == b && x == y
  {
  }

  lemma ThirdByte(x: int, y: int, a: int, b: int)
    requires 0 <= a < 0x1_0000 && 0 <= b < 0x1_0000 && a + 0x1_0000 * x == b + 0x1_0000 * y
    ensures a == b && x == y
  {
  }

  lemma SecondByte(x: int, y: int, a: int, b: int)
    requires 0 <= a < 0x100 && 0 <= b < 0x100 && a + 0x100 * x == b + 0x100 * y
    ensures a == b && x == y
  {
  }

  lemma ValueIsOneToOne(a: seq<Byte>, b: seq<Byte>)
    requires |a| == |b| == 4 && Value(a) == Value(b)
    ensures a == b
  {
    var a0: int, a1: int, a2: int, b0: int, b1: int, b2: int := a[0], a[1], a[2], b[0], b[1], b[2];
    TopByte(a[3], b[3], a0 + 0x100 * a1 + 0x1_0000 * a2, b0 + 0x100 * b1 + 0x1_0000 * b2);
    ThirdByte(a2, b2, a0 + 0x100 * a1, b0 + 0x100 * b1);
    SecondByte(a1, b1, a0, b0);
  }

  // The bytes of a word.
  ghost function Little(w: Word): (b: seq<Byte>)
    ensures |b| == 4 && Value(b) == w
  {
    LowBytesValue(w);
    var b: seq<Byte> :| |b| == 4 && Value(b) == w;
    b
  }

  function WordAt(p: Frame, off: nat): Word
    requires off + 4 <= PGSIZE
  {
    Value(p[off..off + 4])
  }

  // Words are stored low byte first.
  lemma LowByteFirst(p: Frame, off: nat)
    requires off + 4 <= PGSIZE
    ensures WordAt(p, off) % 256 == p[off] && WordAt(p, off) / 256 % 256 == p[off + 1]
    ensures WordAt(p, off) / 0x1_0000 % 256 == p[off + 2] && WordAt(p, off) / 0x100_0000 == p[off + 3]
  {
    var b0: int, b1: int, b2: int, b3: int := p[off], p[off + 1], p[off + 2], p[off + 3];
    assert WordAt(p, off) == b0 + 0x100 * (b1 + 0x100 * (b2 + 0x100 * b3));
  }

  lemma WordBack(p: Frame, off: nat, w: Word)
    requires Stored(p, off, Little(w))
    ensures off + 4 <= PGSIZE && WordAt(p, off) == w
  {
  }

  // The bytes up to the first zero, as strlen and strcpy see them.
  function CString(p: Frame, off: nat): seq<Byte>
    decreases PGSIZE - off
  {
    if off >= PGSIZE || p[off] == 0 then [] else [p[off]] + CString(p, off + 1)
  }

  predicate IsString(s: seq<Byte>) { forall k :: 0 <= k < |s| ==> s[k] != 0 }

  lemma {:induction false} StringBack(p: Frame, off: nat, s: seq<Byte>)
    requires IsString(s) && Stored(p, off, s + [0])
    ensures CString(p, off) == s
    decreases |s|
  {
    var b := p[off..off + |s| + 1];
    assert b == s + [0];
    if s == [] {
      assert p[off] == b[0] == 0;
    } else {
      assert p[off] == b[0] == s[0];
      assert p[off + 1..off + 1 + |s[1..]| + 1] == b[1..] == s[1..] + [0];
      StringBack(p, off + 1, s[1..]);
      assert s == [s[0]] + s[1..];
    }
  }

  // ---------------------------------------------------------------- the stack page

  // Space for the first k strings.
  function Room(argv: seq<seq<Byte>>): nat {
    if argv == [] then 0 else Room(argv[..|argv| - 1]) + |argv[|argv| - 1]| + 1
  }

  lemma RoomMore(argv: seq<seq<Byte>>, k: nat)
    requires k < |argv|
    ensures Room(argv[..k + 1]) == Room(argv[..k]) + |argv[k]| + 1
  {
    assert argv[..k + 1][..k] == argv[..k];
  }

  lemma {:induction false} RoomUpTo(argv: seq<seq<Byte>>, k: nat)
    requires k <= |argv|
    ensures Room(argv[..k]) <= Room(argv)
    decreases |argv| - k
  {
    if k < |argv| {
      RoomMore(argv, k);
      RoomUpTo(argv, k + 1);
    } else {
      assert argv[..k] == argv;
    }
  }

  function Down4(x: int): int { x - x % 4 }

  // Offsets in the page: of the strings, of the pointer array, and of the stack pointer, two
  // words lower.
  function StringsAt(size: nat): int { PGSIZE - size }
  function PointersAt(size: nat, argc: nat): int { Down4(StringsAt(size)) - 4 * (argc + 1) }

  // All fits in one page.
  predicate Fits(size: nat, argc: nat) { PointersAt(size, argc) >= 8 }

  // The check the program makes, on 32-bit addresses.
  function Modulo32(x: int): Word { x % 0x1_0000_0000 }

  predicate PassesCheck(size: nat, argc: nat) {
    Modulo32(Down4(Modulo32(UTEMP + PGSIZE - size)) - 4 * (argc + 1) - 8) >= UTEMP
  }

  // The lowest address written, if addresses did not wrap.
  function Lowest(size: nat, argc: nat): int { Down4(UTEMP + PGSIZE - size) - 4 * (argc + 1) - 8 }

  // Whether the check can be trusted: the addresses do not go below 0, or go round so far that
  // they end up below UTEMP again.
  predicate Trusted(size: nat, argc: nat) {
    Lowest(size, argc) >= 0 || Modulo32(Lowest(size, argc)) < UTEMP
  }

  // The check is right exactly then; of what is less than 2^32 bytes too large, these are the
  // arguments that reach down to 0 at most and those that go round by all but UTEMP bytes.
  // Otherwise it passes arguments that do not fit.
  lemma CheckIsRight(size: nat, argc: nat)
    ensures (PassesCheck(size, argc) <==> Fits(size, argc)) <==> Trusted(size, argc)
    ensures Lowest(size, argc) >= -0x1_0000_0000 ==>
              (Trusted(size, argc) <==> Lowest(size, argc) >= 0 || Lowest(size, argc) < UTEMP - 0x1_0000_0000)
    ensures !Trusted(size, argc) ==> PassesCheck(size, argc) && !Fits(size, argc)
  {
    LowestInPage(size, argc);
    LowestModulo(size, argc);
    Rounds(Lowest(size, argc));
  }

  lemma LowestInPage(size: nat, argc: nat)
    ensures Lowest(size, argc) == UTEMP + PointersAt(size, argc) - 8 <= UTEMP + PGSIZE
  {
  }

  lemma Rounds(x: int)
    requires x <= UTEMP + PGSIZE
    ensures x >= 0 ==> Modulo32(x) == x
    ensures -0x1_0000_0000 <= x < 0 ==> Modulo32(x) == x + 0x1_0000_0000
  {
  }

  // One argument of a little more than four megabytes.
  lemma CheckPassesWrongly()
    ensures PassesCheck(0x40_1040, 1) && !Fits(0x40_1040, 1)
  {
    assert Lowest(UTEMP + PGSIZE + 64, 1) == -80;
    CheckIsRight(UTEMP + PGSIZE + 64, 1);
  }

  lemma LowestModulo(size: nat, argc: nat)
    ensures PassesCheck(size, argc) <==> Modulo32(Lowest(size, argc)) >= UTEMP
  {
    var x := UTEMP + PGSIZE - size;
    var q := x / 0x1_0000_0000;
    var y := Modulo32(x);
    SameLowBits(y, q);
    assert Lowest(size, argc) == Down4(y) - 4 * (argc + 1) - 8 + 0x1_0000_0000 * q;
    AddTurns(Down4(y) - 4 * (argc + 1) - 8, q);
  }

  lemma SameLowBits(y: int, q: int)
    ensures Down4(y + 0x1_0000_0000 * q) == Down4(y) + 0x1_0000_0000 * q
  {
    assert y + 0x1_0000_0000 * q == 4 * (y / 4 + 0x4000_0000 * q) + y % 4;
  }

  lemma AddTurns(x: int, q: int)
    ensures Modulo32(x + 0x1_0000_0000 * q) == Modulo32(x)
  {
  }

  // The address in the child of offset `off` of the page: UTEMP2USTACK.
  function InChild(off: nat): Word
    requires off < PGSIZE
  {
    USTACKTOP - PGSIZE + off
  }

  lemma StackPointer(at: nat)
    requires 8 <= at < PGSIZE && at % 4 == 0
    ensures 0xeebf_d000 <= InChild(at - 8) < 0xeebf_e000 && InChild(at - 8) % 4 == 0
  {
  }

  // What the child finds from its stack pointer: argc, the address of argv, the pointers and
  // the null pointer, and at each pointer the string.  `at` is the offset of the array.
  ghost predicate ArrayReadsBack(p: Frame, at: nat, argv: seq<seq<Byte>>) {
    && 8 <= at && at % 4 == 0 && at + 4 * |argv| + 4 <= PGSIZE
    && WordAt(p, at - 8) == |argv| && WordAt(p, at - 4) == InChild(at) && WordAt(p, at + 4 * |argv|) == 0
    && forall i {:trigger ArgIs(p, at, argv, i)} :: 0 <= i < |argv| ==> ArgIs(p, at, argv, i)
  }

  predicate ArgIs(p: Frame, at: nat, argv: seq<seq<Byte>>, i: nat)
    requires i < |argv| && at + 4 * i + 4 <= PGSIZE
  {
    StringIs(p, WordAt(p, at + 4 * i), argv[i])
  }

  ghost predicate ReadsBack(p: Frame, esp: nat, argv: seq<seq<Byte>>) {
    InChild(0) <= esp && ArrayReadsBack(p, esp - InChild(0) + 8, argv)
  }

  predicate StringIs(p: Frame, a: nat, s: seq<Byte>) {
    InChild(0) <= a < USTACKTOP && CString(p, a - InChild(0)) == s
  }

  // A string at offset o, and the pointer to it at offset `slot`.
  ghost predicate Placed(p: Frame, slot: nat, o: nat, s: seq<Byte>) {
    o < PGSIZE && Stored(p, slot, Little(InChild(o))) && Stored(p, o, s + [0])
  }

  // The first k strings, end to end from `top` on, and their pointers from `at` on.
  ghost predicate LaidOut(p: Frame, argv: seq<seq<Byte>>, at: nat, top: nat, k: nat)
    requires k <= |argv|
  {
    forall i {:trigger ArgPlaced(p, argv, at, top, i)} :: 0 <= i < k ==> ArgPlaced(p, argv, at, top, i)
  }

  ghost predicate ArgPlaced(p: Frame, argv: seq<seq<Byte>>, at: nat, top: nat, i: nat)
    requires i < |argv|
  {
    Placed(p, at + 4 * i, top + Room(argv[..i]), argv[i])
  }

  // The pointer array ends below the strings, and these end at the top of the page.
  predicate Shape(argv: seq<seq<Byte>>, at: nat, top: nat) {
    8 <= at && at % 4 == 0 && at + 4 * (|argv| + 1) <= top && top + Room(argv) == PGSIZE
  }

  lemma ShapeOf(argv: seq<seq<Byte>>)
    requires Fits(Room(argv), |argv|)
    ensures PointersAt(Room(argv), |argv|) >= 8 && StringsAt(Room(argv)) >= 0
    ensures Shape(argv, PointersAt(Room(argv), |argv|), StringsAt(Room(argv)))
  {
    PointersAligned(StringsAt(Room(argv)), |argv| + 1);
  }

  lemma PointersAligned(x: int, n: nat)
    ensures Down4(x) <= x && (Down4(x) - 4 * n) % 4 == 0
  {
    assert Down4(x) - 4 * n == 4 * (x / 4 - n);
  }

  lemma ArgBounds(argv: seq<seq<Byte>>, at: nat, top: nat, i: nat)
    requires i < |argv| && Shape(argv, at, top)
    ensures at + 4 * i + 4 <= top && top + Room(argv[..i]) + |argv[i]| + 1 <= PGSIZE
  {
    RoomMore(argv, i);
    RoomUpTo(argv, i + 1);
  }

  lemma StringsInOrder(argv: seq<seq<Byte>>, j: nat, i: nat)
    requires j < i <= |argv|
    ensures Room(argv[..j]) + |argv[j]| + 1 <= Room(argv[..i])
  {
    RoomMore(argv, j);
    assert argv[..i][..j + 1] == argv[..j + 1];
    RoomUpTo(argv[..i], j + 1);
  }

  // One more argument: its pointer, then its string.
  ghost function Pushed(p: Frame, slot: nat, o: nat, s: seq<Byte>): Frame
    requires slot + 4 <= PGSIZE && o + |s| + 1 <= PGSIZE
  {
    Put(Put(p, slot, Little(InChild(o))), o, s + [0])
  }

  lemma PushedBefore(p: Frame, slot: nat, o: nat, s: seq<Byte>, slot': nat, o': nat, s': seq<Byte>)
    requires Placed(p, slot', o', s')
    requires slot' + 4 <= slot && slot + 4 <= o' && o' + |s'| + 1 <= o && o + |s| + 1 <= PGSIZE
    ensures Placed(Pushed(p, slot, o, s), slot', o', s')
  {
    var w, w' := Little(InChild(o)), Little(InChild(o'));
    var q := Put(p, slot, w);
    PutKeeps(p, slot, w, slot', w');
    PutKeeps(q, o, s + [0], slot', w');
    PutKeeps(p, slot, w, o', s' + [0]);
    PutKeeps(q, o, s + [0], o', s' + [0]);
  }

  lemma PushedLast(p: Frame, slot: nat, o: nat, s: seq<Byte>)
    requires slot + 4 <= o && o + |s| + 1 <= PGSIZE
    ensures Placed(Pushed(p, slot, o, s), slot, o, s)
  {
    var w := Little(InChild(o));
    PutStores(p, slot, w);
    PutKeeps(Put(p, slot, w), o, s + [0], slot, w);
    PutStores(Put(p, slot, w), o, s + [0]);
  }

  lemma PushedEarlier(p: Frame, argv: seq<seq<Byte>>, at: nat, top: nat, i: nat, j: nat, o: nat)
    requires j < i < |argv| && at + 4 * i + 4 <= top && o == top + Room(argv[..i]) && o + |argv[i]| + 1 <= PGSIZE
    requires ArgPlaced(p, argv, at, top, j)
    ensures ArgPlaced(Pushed(p, at + 4 * i, o, argv[i]), argv, at, top, j)
  {
    StringsInOrder(argv, j, i);
    PushedBefore(p, at + 4 * i, o, argv[i], at + 4 * j, top + Room(argv[..j]), argv[j]);
  }

  lemma PushedArg(p: Frame, argv: seq<seq<Byte>>, at: nat, top: nat, i: nat, j: nat, o: nat)
    requires j <= i < |argv| && at + 4 * i + 4 <= top && o == top + Room(argv[..i]) && o + |argv[i]| + 1 <= PGSIZE
    requires j < i ==> ArgPlaced(p, argv, at, top, j)
    ensures ArgPlaced(Pushed(p, at + 4 * i, o, argv[i]), argv, at, top, j)
  {
    if j < i { PushedEarlier(p, argv, at, top, i, j, o); } else { PushedLast(p, at + 4 * i, o, argv[i]); }
  }

  lemma PushKeeps(p: Frame, argv: seq<seq<Byte>>, at: nat, top: nat, i: nat, o: nat)
    requires i < |argv| && Shape(argv, at, top) && LaidOut(p, argv, at, top, i) && o == top + Room(argv[..i])
    ensures at + 4 * i + 4 <= top && o + |argv[i]| + 1 <= PGSIZE
    ensures LaidOut(Pushed(p, at + 4 * i, o, argv[i]), argv, at, top, i + 1)
  {
    ArgBounds(argv, at, top, i);
    PushAll(p, argv, at, top, i, o);
  }

  lemma PushAll(p: Frame, argv: seq<seq<Byte>>, at: nat, top: nat, i: nat, o: nat)
    requires i < |argv| && LaidOut(p, argv, at, top, i) && o == top + Room(argv[..i])
    requires at + 4 * i + 4 <= top && o + |argv[i]| + 1 <= PGSIZE
    ensures LaidOut(Pushed(p, at + 4 * i, o, argv[i]), argv, at, top, i + 1)
  {
    var t := Pushed(p, at + 4 * i, o, argv[i]);
    forall j: nat | j <= i ensures ArgPlaced(t, argv, at, top, j) { PushedArg(p, argv, at, top, i, j, o); }
  }

  // The null pointer, and below the array the two words for umain.
  ghost function Header(p: Frame, at: nat, n: Word): Frame
    requires 8 <= at && at + 4 * n + 4 <= PGSIZE
  {
    Put(Put(Put(p, at + 4 * n, Little(0)), at - 4, Little(InChild(at))), at - 8, Little(n))
  }

  lemma HeaderWords(p: Frame, at: nat, n: Word)
    requires 8 <= at && at + 4 * n + 4 <= PGSIZE
    ensures var u := Header(p, at, n); WordAt(u, at + 4 * n) == 0 && WordAt(u, at - 4) == InChild(at) && WordAt(u, at - 8) == n
  {
    var q := Put(p, at + 4 * n, Little(0));
    var t := Put(q, at - 4, Little(InChild(at)));
    PutStores(p, at + 4 * n, Little(0));
    PutKeeps(q, at - 4, Little(InChild(at)), at + 4 * n, Little(0));
    PutKeeps(t, at - 8, Little(n), at + 4 * n, Little(0));
    PutStores(q, at - 4, Little(InChild(at)));
    PutKeeps(t, at - 8, Little(n), at - 4, Little(InChild(at)));
    PutStores(t, at - 8, Little(n));
    WordBack(Header(p, at, n), at + 4 * n, 0);
    WordBack(Header(p, at, n), at - 4, InChild(at));
    WordBack(Header(p, at, n), at - 8, n);
  }

  // The header's writes keep what lies in the array before the null pointer, or beyond it.
  lemma HeaderKeeps(p: Frame, at: nat, n: Word, off: nat, kept: seq<Byte>)
    requires 8 <= at && at + 4 * n + 4 <= PGSIZE && Stored(p, off, kept)
    requires at <= off && (off + |kept| <= at + 4 * n || at + 4 * n + 4 <= off)
    ensures Stored(Header(p, at, n), off, kept)
  {
    var q := Put(p, at + 4 * n, Little(0));
    PutKeeps(p, at + 4 * n, Little(0), off, kept);
    PutKeeps(q, at - 4, Little(InChild(at)), off, kept);
    PutKeeps(Put(q, at - 4, Little(InChild(at))), at - 8, Little(n), off, kept);
  }

  lemma HeaderString(p: Frame, at: nat, n: Word, slot: nat, o: nat, s: seq<Byte>)
    requires 8 <= at && at + 4 * n + 4 <= PGSIZE && Placed(p, slot, o, s) && IsString(s)
    requires at <= slot && slot + 4 <= at + 4 * n && at + 4 * n + 4 <= o
    ensures StringIs(Header(p, at, n), WordAt(Header(p, at, n), slot), s)
  {
    HeaderKeeps(p, at, n, slot, Little(InChild(o)));
    HeaderKeeps(p, at, n, o, s + [0]);
    WordBack(Header(p, at, n), slot, InChild(o));
    StringBack(Header(p, at, n), o, s);
  }

  lemma HeaderArg(p: Frame, argv: seq<seq<Byte>>, at: nat, top: nat, i: nat)
    requires i < |argv| && Shape(argv, at, top) && ArgPlaced(p, argv, at, top, i) && IsString(argv[i])
    ensures ArgIs(Header(p, at, |argv|), at, argv, i)
  {
    ArgBounds(argv, at, top, i);
    HeaderString(p, at, |argv|, at + 4 * i, top + Room(argv[..i]), argv[i]);
  }

  lemma HeaderReadsBack(p: Frame, argv: seq<seq<Byte>>, at: nat, top: nat)
    requires Shape(argv, at, top) && LaidOut(p, argv, at, top, |argv|) && forall k :: 0 <= k < |argv| ==> IsString(argv[k])
    ensures ArrayReadsBack(Header(p, at, |argv|), at, argv)
  {
    HeaderWords(p, at, |argv|);
    var u := Header(p, at, |argv|);
    forall i: nat | i < |argv| ensures ArgIs(u, at, argv, i) { HeaderArg(p, argv, at, top, i); }
  }

  class StackPage {
    const page: array<Byte>      // at UTEMP

    constructor ()
      ensures page.Length == PGSIZE && fresh(page)
    {
      page := new Byte[PGSIZE](i => 0);
    }

    method StoreWord(off: nat, w: Word)
      requires page.Length == PGSIZE && off + 4 <= PGSIZE
      modifies page
      ensures page[..] == Put(old(page[..]), off, Little(w))
    {
      var b := LowBytes(w);
      page[off], page[off + 1], page[off + 2], page[off + 3] := b[0], b[1], b[2], b[3];
      LowBytesValue(w);
      ValueIsOneToOne(b, Little(w));
    }

    // strcpy, with the terminating zero
    method StrCpy(off: nat, s: seq<Byte>)
      requires page.Length == PGSIZE && off + |s| < PGSIZE
      modifies page
      ensures page[..] == Put(old(page[..]), off, s + [0])
    {
      var k := 0;
      while k < |s|
        invariant 0 <= k <= |s|
        invariant forall j :: 0 <= j < PGSIZE ==> page[j] == if off <= j < off + k then s[j - off] else old(page[j])
      {
        page[off + k] := s[k];
        k := k + 1;
      }
      page[off + k] := 0;
    }

    // One turn of the loop: the pointer, then the string.
    method PushArg(slot: nat, stringStore: nat, s: seq<Byte>)
      requires page.Length == PGSIZE && slot + 4 <= PGSIZE && stringStore + |s| + 1 <= PGSIZE
      modifies page
      ensures page[..] == Pushed(old(page[..]), slot, stringStore, s)
    {
      StoreWord(slot, InChild(stringStore));
      StrCpy(stringStore, s);
    }

    method PushNext(argv: seq<seq<Byte>>, i: nat, stringStore: nat, argvStore: nat, ghost top: nat)
      requires page.Length == PGSIZE && i < |argv| && Shape(argv, argvStore, top) && LaidOut(page[..], argv, argvStore, top, i)
      requires stringStore == top + Room(argv[..i])
      modifies page
      ensures LaidOut(page[..], argv, argvStore, top, i + 1)
      ensures stringStore + |argv[i]| + 1 == top + Room(argv[..i + 1])
    {
      PushKeeps(page[..], argv, argvStore, top, i, stringStore);
      RoomMore(argv, i);
      PushArg(argvStore + 4 * i, stringStore, argv[i]);
    }

    // The three words below and after the pointers.
    method StoreHeader(argvStore: nat, argc: Word)
      requires page.Length == PGSIZE && 8 <= argvStore && argvStore + 4 * argc + 4 <= PGSIZE
      modifies page
      ensures page[..] == Header(old(page[..]), argvStore, argc)
    {
      StoreWord(argvStore + 4 * argc, 0);
      StoreWord(argvStore - 4, InChild(argvStore));
      StoreWord(argvStore - 8, argc);
    }

    // The first loop: how many arguments, and how much room for them.
    method Measure(argv: seq<seq<Byte>>) returns (argc: nat, stringSize: nat)
      ensures argc == |argv| && stringSize == Room(argv)
    {
      stringSize, argc := 0, 0;
      assert argv[..0] == [];
      while argc < |argv|
        invariant 0 <= argc <= |argv| && stringSize == Room(argv[..argc])
      {
        RoomMore(argv, argc);
        stringSize := stringSize + |argv[argc]| + 1;
        argc := argc + 1;
      }
      assert argv[..argc] == argv;
    }

    method PushArgs(argv: seq<seq<Byte>>, top: nat, argvStore: nat)
      requires page.Length == PGSIZE && Shape(argv, argvStore, top)
      modifies page
      ensures LaidOut(page[..], argv, argvStore, top, |argv|)
    {
      var stringStore := top;
      var i := 0;
      assert argv[..0] == [];
      while i < |argv|
        invariant 0 <= i <= |argv| && LaidOut(page[..], argv, argvStore, top, i) && stringStore == top + Room(argv[..i])
      {
        PushNext(argv, i, stringStore, argvStore, top);
        stringStore := stringStore + |argv[i]| + 1;
        i := i + 1;
      }
      assert argv[..i] == argv;
      assert stringStore == PGSIZE;
    }

    // lib/spawn.c:217; the page is then mapped in the child at USTACKTOP - PGSIZE
    method InitStack(argv: seq<seq<Byte>>) returns (r: int, esp: nat)
      requires page.Length == PGSIZE && Trusted(Room(argv), |argv|)
      requires forall k :: 0 <= k < |argv| ==> IsString(argv[k])
      modifies page
      ensures r == 0 <==> Fits(Room(argv), |argv|)
      ensures r == 0 || r == -E_NO_MEM
      ensures r == 0 ==> ReadsBack(page[..], esp, argv) && 0xeebf_d000 <= esp < 0xeebf_e000 && esp % 4 == 0
    {
      var argc, stringSize := Measure(argv);
      CheckIsRight(stringSize, argc);
      if !PassesCheck(stringSize, argc) { return -E_NO_MEM, 0; }
      ShapeOf(argv);
      var argvStore := PointersAt(stringSize, argc);
      PushArgs(argv, StringsAt(stringSize), argvStore);
      HeaderReadsBack(page[..], argv, argvStore, StringsAt(stringSize));
      StoreHeader(argvStore, argc);
      r, esp := 0, InChild(argvStore - 8);
      StackPointer(argvStore);
    }
  }

  // ---------------------------------------------------------------- segments

  // Byte k of a segment in memory, by the ELF rules: from the file up to filesz, zero after.
  function ImageByte(file: seq<Byte>, filesz: nat, offset: nat, k: nat): Byte {
    if k < filesz && offset + k < |file| then file[offset + k] else 0
  }

  // The page that starts at byte i.
  function PageImage(file: seq<Byte>, filesz: nat, offset: nat, i: nat): (f: Frame)
    ensures forall k {:trigger f[k]} :: 0 <= k < PGSIZE ==> f[k] == ImageByte(file, filesz, offset, i + k)
  {
    seq(PGSIZE, k requires 0 <= k => if i + k < filesz && offset + i + k < |file| then file[offset + i + k] else 0)
  }

  function Slice(file: seq<Byte>, pos: nat, n: nat): seq<Byte> {
    if pos >= |file| then [] else if pos + n <= |file| then file[pos..pos + n] else file[pos..]
  }

  // Pages of the segment, from page `first` on, that are in place.
  ghost predicate InPlace(pages: map<nat, Frame>, first: nat, m: nat, file: seq<Byte>, filesz: nat, offset: nat) {
    forall j {:trigger HasImage(pages, first, j, file, filesz, offset)} :: 0 <= j < m ==> HasImage(pages, first, j, file, filesz, offset)
  }

  predicate HasImage(pages: map<nat, Frame>, first: nat, j: nat, file: seq<Byte>, filesz: nat, offset: nat) {
    first + j in pages && pages[first + j] == PageImage(file, filesz, offset, PGSIZE * j)
  }

  ghost predicate SameOutside(before: map<nat, Frame>, after: map<nat, Frame>, first: nat, m: nat) {
    forall p: nat {:trigger p in after} {:trigger p in before} :: !(first <= p < first + m) ==>
      (p in after <==> p in before) && (p in before ==> after[p] == before[p])
  }

  // How map_segment ends: it panics when the data cannot be mapped in the child.
  datatype Ending = Done | Failed(error: int) | Panicked

  // All pages of the segment lie below UTOP.
  predicate BelowUtop(va: nat, memsz: nat) { memsz > 0 ==> (va + memsz - 1) / PGSIZE < UTOP / PGSIZE }

  class Loader {
    // Whether the n-th request for memory or for data from the file is met.
    const granted: nat -> bool
    var asked: nat
    var pages: map<nat, Frame>      // the child's address space
    var utemp: Option<Frame>        // what is mapped at UTEMP

    constructor (granted: nat -> bool, pages: map<nat, Frame>)
      ensures this.granted == granted && asked == 0 && this.pages == pages && utemp == None
    {
      this.granted := granted;
      asked, this.pages, utemp := 0, pages, None;
    }

    // All requests made since the n-th have been met.
    ghost predicate AllMet(n: nat)
      reads this
    {
      forall k {:trigger granted(k)} :: n <= k < asked ==> granted(k)
    }

    method Ask() returns (ok: bool)
      modifies `asked
      ensures asked == old(asked) + 1 && ok == granted(old(asked))
    {
      ok := granted(asked);
      asked := asked + 1;
    }

    // sys_page_alloc(child, ...)
    method AllocInChild(p: nat) returns (r: int)
      modifies `pages, `asked
      ensures r == 0 ==> pages == old(pages)[p := Blank()]
      ensures r != 0 ==> r < 0 && pages == old(pages)
      ensures r == 0 <==> PGSIZE * p < UTOP && AllMet(old(asked))
      ensures old(asked) <= asked
    {
      if PGSIZE * p >= UTOP { return -E_INVAL; }
      var ok := Ask();
      if !ok { return -E_NO_MEM; }
      pages := pages[p := Blank()];
      return 0;
    }

    // One read from the file: some bytes, or none at its end.
    method Read(file: seq<Byte>, pos: nat, n: nat) returns (ok: bool, data: seq<Byte>)
      modifies `asked
      ensures |data| <= n && data == Slice(file, pos, |data|) && (ok && |data| == 0 ==> n == 0 || pos >= |file|)
      ensures asked == old(asked) + 1 && ok == granted(old(asked))
    {
      ok := Ask();
      if !ok || n == 0 || pos >= |file| { return ok, []; }
      var m :| 0 < m <= n && pos + m <= |file|;
      return ok, file[pos..pos + m];
    }

    // lib/fd.c:226, into the page at UTEMP
    method ReadN(file: seq<Byte>, pos: nat, n: nat) returns (r: int)
      requires utemp == Some(Blank()) && n <= PGSIZE
      modifies `utemp, `asked
      ensures utemp.Some? && old(asked) <= asked && (r >= 0 <==> AllMet(old(asked)))
      ensures r >= 0 ==> r == |Slice(file, pos, n)|
      ensures r >= 0 ==> forall k :: 0 <= k < PGSIZE ==> utemp.value[k] == if k < n && pos + k < |file| then file[pos + k] else 0
    {
      var tot := 0;
      while tot < n
        invariant 0 <= tot <= n && (tot == 0 || pos + tot <= |file|) && utemp.Some?
        invariant forall k :: 0 <= k < PGSIZE ==> utemp.value[k] == if k < tot then file[pos + k] else 0
        invariant old(asked) <= asked && AllMet(old(asked))
        decreases n - tot
      {
        ghost var before := asked;
        var ok, data := Read(file, pos + tot, n - tot);
        if !ok {
          assert !granted(before);
          return -E_INVAL;
        }
        if data == [] { break; }
        utemp := Some(Put(utemp.value, tot, data));
        tot := tot + |data|;
      }
      return tot;
    }

    // A page from the file: read at UTEMP and mapped over.
    method MapData(p: nat, i: nat, file: seq<Byte>, filesz: nat, offset: nat) returns (r: Ending)
      requires i < filesz
      modifies this
      ensures r.Done? ==> pages == old(pages)[p := PageImage(file, filesz, offset, i)] && utemp == None
      ensures !r.Done? ==> pages == old(pages)
      ensures old(asked) <= asked && (r.Done? <==> PGSIZE * p < UTOP && AllMet(old(asked)))
      ensures r.Panicked? ==> PGSIZE * p >= UTOP || !granted(asked - 1)
    {
      var memory := Ask();
      if !memory {
        assert !granted(old(asked));
        return Failed(-E_NO_MEM);
      }
      utemp := Some(Blank());
      var n := ReadN(file, offset + i, if filesz - i < PGSIZE then filesz - i else PGSIZE);
      if n < 0 { return Failed(n); }
      if PGSIZE * p >= UTOP { return Panicked; }
      ghost var before := asked;
      var table := Ask();
      if !table {
        assert !granted(before);
        return Panicked;
      }
      pages := pages[p := utemp.value];
      assert utemp.value == PageImage(file, filesz, offset, i);
      utemp := None;
      return Done;
    }

    // One page of the segment.
    method MapPage(p: nat, i: nat, file: seq<Byte>, filesz: nat, offset: nat) returns (r: Ending)
      modifies this
      ensures r.Done? ==> pages == old(pages)[p := PageImage(file, filesz, offset, i)]
      ensures r.Done? ==> utemp == if i < filesz then None else old(utemp)
      ensures !r.Done? ==> pages == old(pages)
      ensures old(asked) <= asked && (r.Done? <==> PGSIZE * p < UTOP && AllMet(old(asked)))
    {
      if i >= filesz {
        var error := AllocInChild(p);
        assert error == 0 ==> PageImage(file, filesz, offset, i) == Blank();
        return if error < 0 then Failed(error) else Done;
      }
      r := MapData(p, i, file, filesz, offset);
    }

    // lib/spawn.c:293.  The offset in the file and the address agree in their low bits at
    // least so far that the part of the page before the segment lies in the file.
    method MapSegment(va: nat, memsz: nat, file: seq<Byte>, filesz: nat, offset: nat) returns (r: Ending)
      requires filesz <= memsz && va % PGSIZE <= offset
      modifies this
      ensures old(asked) <= asked && (r.Done? <==> BelowUtop(va - va % PGSIZE, va % PGSIZE + memsz) && AllMet(old(asked)))
      ensures r.Done? ==> forall k {:trigger ByteIs(pages, va, k, file, filesz, offset)} :: 0 <= k < memsz ==> ByteIs(pages, va, k, file, filesz, offset)
      ensures r.Done? ==> utemp == None || utemp == old(utemp)
      ensures SameOutside(old(pages), pages, va / PGSIZE, (va % PGSIZE + memsz + PGSIZE - 1) / PGSIZE)
    {
      var i := va % PGSIZE;
      var start, size, fsize, from := va - i, memsz + i, filesz + i, offset - i;
      ghost var first, before := va / PGSIZE, pages;
      ghost var m: nat := 0;
      i := 0;
      while i < size
        invariant i == PGSIZE * m && (m == 0 || PGSIZE * (m - 1) < size)
        invariant InPlace(pages, first, m, file, fsize, from) && SameOutside(before, pages, first, m)
        invariant old(asked) <= asked && AllMet(old(asked)) && (m == 0 || PGSIZE * (first + m - 1) < UTOP)
        invariant utemp == None || utemp == old(utemp)
        decreases size - i
      {
        PageOf(va, i, m);
        ghost var prev, asks := pages, asked;
        r := MapPage((start + i) / PGSIZE, i, file, fsize, from);
        assert (forall k {:trigger granted(k)} :: asks <= k < asked ==> granted(k)) <==> AllMet(old(asked));
        if !r.Done? {
          FewerOutside(before, pages, first, m, size);
          if PGSIZE * (first + m) >= UTOP { PageAbove(start, size, first, m); }
          return;
        }
        MoreInPlace(before, prev, first, m, file, fsize, from);
        i := i + PGSIZE;
        m := m + 1;
      }
      r := Done;
      PagesNeeded(size, m);
      LastBelow(start, size, first, m);
      forall k: nat | k < memsz ensures ByteIs(pages, va, k, file, filesz, offset) {
        ByteInPlace(pages, va, m, memsz, file, filesz, offset, k);
      }
    }
  }

  lemma PageAbove(start: nat, size: nat, first: nat, m: nat)
    requires start == PGSIZE * first && PGSIZE * m < size && PGSIZE * (first + m) >= UTOP
    ensures !BelowUtop(start, size)
  {
  }

  lemma LastBelow(start: nat, size: nat, first: nat, m: nat)
    requires start == PGSIZE * first && m == (size + PGSIZE - 1) / PGSIZE && (m == 0 || PGSIZE * (first + m - 1) < UTOP)
    ensures BelowUtop(start, size)
  {
  }

  lemma PageOf(va: nat, i: nat, m: nat)
    requires i == PGSIZE * m
    ensures (va - va % PGSIZE + i) / PGSIZE == va / PGSIZE + m
  {
    assert va - va % PGSIZE + i == PGSIZE * (va / PGSIZE + m);
  }

  lemma PagesNeeded(size: nat, m: nat)
    requires size <= PGSIZE * m && (m == 0 || PGSIZE * (m - 1) < size)
    ensures m == (size + PGSIZE - 1) / PGSIZE
  {
  }

  lemma FewerOutside(before: map<nat, Frame>, after: map<nat, Frame>, first: nat, m: nat, size: nat)
    requires SameOutside(before, after, first, m) && (m == 0 || PGSIZE * (m - 1) < size)
    ensures SameOutside(before, after, first, (size + PGSIZE - 1) / PGSIZE)
  {
    assert m <= (size + PGSIZE - 1) / PGSIZE;
  }

  lemma MoreInPlace(before: map<nat, Frame>, prev: map<nat, Frame>, first: nat, m: nat, file: seq<Byte>, filesz: nat, offset: nat)
    requires InPlace(prev, first, m, file, filesz, offset) && SameOutside(before, prev, first, m)
    ensures var after := prev[first + m := PageImage(file, filesz, offset, PGSIZE * m)];
            InPlace(after, first, m + 1, file, filesz, offset) && SameOutside(before, after, first, m + 1)
  {
    var after := prev[first + m := PageImage(file, filesz, offset, PGSIZE * m)];
    forall j: nat | j < m + 1 ensures HasImage(after, first, j, file, filesz, offset) {
      assert j < m ==> HasImage(prev, first, j, file, filesz, offset);
    }
  }

  lemma ByteInPlace(pages: map<nat, Frame>, va: nat, m: nat, memsz: nat, file: seq<Byte>, filesz: nat, offset: nat, k: nat)
    requires va % PGSIZE <= offset && k < memsz && memsz + va % PGSIZE <= PGSIZE * m
    requires InPlace(pages, va / PGSIZE, m, file, filesz + va % PGSIZE, offset - va % PGSIZE)
    ensures ByteIs(pages, va, k, file, filesz, offset)
  {
    var o := va % PGSIZE;
    var j, b := (o + k) / PGSIZE, (o + k) % PGSIZE;
    assert o + k == PGSIZE * j + b;
    assert va + k == PGSIZE * (va / PGSIZE + j) + b;
    assert (va + k) / PGSIZE == va / PGSIZE + j && (va + k) % PGSIZE == b;
    assert HasImage(pages, va / PGSIZE, j, file, filesz + o, offset - o);
    assert PageImage(file, filesz + o, offset - o, PGSIZE * j)[b] == ImageByte(file, filesz + o, offset - o, o + k);
  }

  // Byte k of the segment at its address.
  predicate ByteIs(pages: map<nat, Frame>, va: nat, k: nat, file: seq<Byte>, filesz: nat, offset: nat) {
    (va + k) / PGSIZE in pages && pages[(va + k) / PGSIZE][(va + k) % PGSIZE] == ImageByte(file, filesz, offset, k)
  }
}
