/** The ring buffer of lib/pipe.c: one environment in devpipe_read and one in devpipe_write,
    interleaved at every single load and store of the shared page, on any number of CPUs. */
module PipeRing {

  const PIPEBUFSIZ: nat := 32
  const HALF: int := 0x8000_0000

  type Byte = b: int | 0 <= b < 256

  // off_t is a 32-bit int; % truncates towards zero in C.
  function Wrap(x: int): int { (x + HALF) % (2 * HALF) - HALF }
  function Rem(x: int): int { if x >= 0 then x % PIPEBUFSIZ else -((-x) % PIPEBUFSIZ) }
  // an operand of type off_t converted to unsigned, as the comparison with sizeof does
  function Unsigned(x: int): int { x % (2 * HALF) }

  // devpipe_read(n): the loop test with its two loads, the two steps of taking a byte, and the
  // two of p_rpos++.  `got` is the caller's buffer.
  datatype Reader =
    | NoRead
    | RLoop(n: nat, got: seq<Byte>)
    | RSawR(n: nat, got: seq<Byte>, r: int)
    | REmpty(n: nat, got: seq<Byte>)
    | RTake(n: nat, got: seq<Byte>)
    | RIndex(n: nat, got: seq<Byte>, r: int)
    | RTaken(n: nat, got: seq<Byte>)
    | RBump(n: nat, got: seq<Byte>, r: int)

  // devpipe_write(data), with i bytes done.
  datatype Writer =
    | NoWrite
    | WLoop(data: seq<Byte>, i: nat)
    | WSawW(data: seq<Byte>, i: nat, w: int)
    | WFull(data: seq<Byte>, i: nat)
    | WPut(data: seq<Byte>, i: nat)
    | WIndex(data: seq<Byte>, i: nat, w: int)
    | WStored(data: seq<Byte>, i: nat)
    | WBump(data: seq<Byte>, i: nat, w: int)

  // returned: what finished reads gave their callers, end to end.  accepted: the bytes stored
  // and counted in p_wpos.  claimed: the sum of what finished writes returned.
  datatype State = State(
    rpos: int, wpos: int, buf: seq<Byte>, reader: Reader, writer: Writer,
    returned: seq<Byte>, accepted: seq<Byte>, claimed: nat
  )

  // `closed` is the answer of _pipeisclosed when it is asked.
  datatype Step = ReadCall(n: nat) | R(closed: bool) | WriteCall(data: seq<Byte>) | W(closed: bool)

  predicate Enabled(s: State, a: Step) {
    && |s.buf| == PIPEBUFSIZ
    && match a
       case ReadCall(n) => s.reader.NoRead?
       case R(closed) => !s.reader.NoRead?
       case WriteCall(data) => s.writer.NoWrite?
       case W(closed) => !s.writer.NoWrite? && s.writer.i <= |s.writer.data| && (s.writer.WIndex? ==> s.writer.i < |s.writer.data|)
  }

  function SetReader(s: State, r: Reader): State {
    State(s.rpos, s.wpos, s.buf, r, s.writer, s.returned, s.accepted, s.claimed)
  }

  function EndRead(s: State, got: seq<Byte>): State {
    State(s.rpos, s.wpos, s.buf, NoRead, s.writer, s.returned + got, s.accepted, s.claimed)
  }

  function SetWriter(s: State, w: Writer): State {
    State(s.rpos, s.wpos, s.buf, s.reader, w, s.returned, s.accepted, s.claimed)
  }

  function EndWrite(s: State, result: nat): State {
    State(s.rpos, s.wpos, s.buf, s.reader, NoWrite, s.returned, s.accepted, s.claimed + result)
  }

  function ReaderStep(s: State, closed: bool): State
    requires |s.buf| == PIPEBUFSIZ && !s.reader.NoRead?
  {
    match s.reader
    case RLoop(n, got) => if |got| < n then SetReader(s, RSawR(n, got, s.rpos)) else EndRead(s, got)
    case RSawR(n, got, r) => if r == s.wpos then SetReader(s, REmpty(n, got)) else SetReader(s, RTake(n, got))
    case REmpty(n, got) =>
      if |got| > 0 then EndRead(s, got) else if closed then EndRead(s, []) else SetReader(s, RLoop(n, got))
    case RTake(n, got) => SetReader(s, RIndex(n, got, s.rpos))
    case RIndex(n, got, r) =>
      var c := if 0 <= Rem(r) then s.buf[Rem(r)] else 0;
      SetReader(s, RTaken(n, got + [c]))
    case RTaken(n, got) => SetReader(s, RBump(n, got, s.rpos))
    case RBump(n, got, r) =>
      State(Wrap(r + 1), s.wpos, s.buf, RLoop(n, got), s.writer, s.returned, s.accepted, s.claimed)
  }

  function WriterStep(s: State, closed: bool): State
    requires |s.buf| == PIPEBUFSIZ && !s.writer.NoWrite? && s.writer.i <= |s.writer.data|
    requires s.writer.WIndex? ==> s.writer.i < |s.writer.data|
  {
    match s.writer
    case WLoop(data, i) => if i < |data| then SetWriter(s, WSawW(data, i, s.wpos)) else EndWrite(s, i)
    case WSawW(data, i, w) =>
      if Unsigned(w) >= Unsigned(s.rpos + PIPEBUFSIZ) then SetWriter(s, WFull(data, i)) else SetWriter(s, WPut(data, i))
    // a write that finds the readers gone returns 0, even after it has stored bytes
    case WFull(data, i) => if closed then EndWrite(s, 0) else SetWriter(s, WLoop(data, i))
    case WPut(data, i) => SetWriter(s, WIndex(data, i, s.wpos))
    case WIndex(data, i, w) =>
      State(s.rpos, s.wpos, if 0 <= Rem(w) then s.buf[Rem(w) := data[i]] else s.buf, s.reader, WStored(data, i),
            s.returned, s.accepted, s.claimed)
    case WStored(data, i) => SetWriter(s, WBump(data, i, s.wpos))
    case WBump(data, i, w) =>
      State(s.rpos, Wrap(w + 1), s.buf, s.reader, WLoop(data, i + 1), s.returned,
            s.accepted + if i < |data| then [data[i]] else [], s.claimed)
  }

  function Apply(s: State, a: Step): State
    requires Enabled(s, a)
  {
    match a
    case ReadCall(n) => SetReader(s, RLoop(n, []))
    case R(closed) => ReaderStep(s, closed)
    case WriteCall(data) => SetWriter(s, WLoop(data, 0))
    case W(closed) => WriterStep(s, closed)
  }

  // ---------------------------------------------------------------- the invariant

  // What the reader has put into its caller's buffer, and how many of these bytes p_rpos
  // does not count yet.
  function Partial(r: Reader): seq<Byte> { if r.NoRead? then [] else r.got }
  function Ahead(r: Reader): nat { if r.RTaken? || r.RBump? then 1 else 0 }

  function Sofar(w: Writer): nat { if w.NoWrite? then 0 else w.i }

  ghost predicate Inv(s: State) {
    && |s.buf| == PIPEBUFSIZ
    && s.wpos == |s.accepted| < HALF
    && 0 <= s.wpos - s.rpos <= PIPEBUFSIZ && 0 <= s.rpos
    && s.rpos + Ahead(s.reader) == |s.returned + Partial(s.reader)|
    && s.returned + Partial(s.reader) <= s.accepted
    && (forall k {:trigger s.accepted[k]} :: s.rpos <= k < s.wpos ==> s.buf[k % PIPEBUFSIZ] == s.accepted[k])
    && ReaderOk(s) && WriterOk(s)
  }

  ghost predicate ReaderOk(s: State) {
    match s.reader
    case NoRead => true
    case RLoop(n, got) => |got| <= n
    case RSawR(n, got, r) => r == s.rpos && |got| < n
    case REmpty(n, got) => |got| < n
    case RTake(n, got) => s.rpos < s.wpos && |got| < n
    case RIndex(n, got, r) => r == s.rpos < s.wpos && |got| < n
    case RTaken(n, got) => s.rpos < s.wpos && |got| <= n
    case RBump(n, got, r) => r == s.rpos < s.wpos && |got| <= n
  }

  ghost predicate WriterOk(s: State)
    requires |s.buf| == PIPEBUFSIZ
  {
    && (!s.writer.NoWrite? ==> s.writer.i <= |s.writer.data|)
    && match s.writer
       case WSawW(data, i, w) => i < |data| && w == s.wpos
       case WFull(data, i) => i < |data|
       case WPut(data, i) => i < |data| && s.wpos - s.rpos < PIPEBUFSIZ
       case WIndex(data, i, w) => i < |data| && w == s.wpos && s.wpos - s.rpos < PIPEBUFSIZ
       case WStored(data, i) => i < |data| && s.wpos - s.rpos < PIPEBUFSIZ && s.buf[s.wpos % PIPEBUFSIZ] == data[i]
       case WBump(data, i, w) =>
         i < |data| && w == s.wpos && s.wpos - s.rpos < PIPEBUFSIZ && s.buf[s.wpos % PIPEBUFSIZ] == data[i]
       case _ => true
  }

  lemma WrapSmall(x: int)
    requires -HALF <= x < HALF
    ensures Wrap(x) == x
  {
  }

  // Two positions less than a buffer apart do not collide.
  lemma SlotsDiffer(j: int, k: int)
    requires 0 <= j < k < j + PIPEBUFSIZ
    ensures j % PIPEBUFSIZ != k % PIPEBUFSIZ
  {
    assert j == PIPEBUFSIZ * (j / PIPEBUFSIZ) + j % PIPEBUFSIZ;
    assert k == PIPEBUFSIZ * (k / PIPEBUFSIZ) + k % PIPEBUFSIZ;
  }

  // Taking a byte and counting it.
  lemma TakeKeeps(s: State)
    requires Inv(s) && s.reader.RIndex?
    ensures Inv(ReaderStep(s, false))
  {
    var t := ReaderStep(s, false);
    var c := s.accepted[s.rpos];
    assert s.buf[Rem(s.reader.r)] == c;
    assert s.returned + (s.reader.got + [c]) == (s.returned + s.reader.got) + [c];
    assert ReaderOk(t) && WriterOk(t);
  }

  lemma CountKeeps(s: State)
    requires Inv(s) && s.reader.RBump?
    ensures Inv(ReaderStep(s, false))
  {
    WrapSmall(s.rpos + 1);
    var t := ReaderStep(s, false);
    assert ReaderOk(t) && WriterOk(t);
  }

  // Steps of the reader that change neither the ring nor what has been read.
  lemma ReaderMoves(s: State, t: State)
    requires Inv(s) && t.returned + Partial(t.reader) == s.returned + Partial(s.reader) && Ahead(t.reader) == Ahead(s.reader)
    requires t.rpos == s.rpos && t.wpos == s.wpos && t.buf == s.buf && t.writer == s.writer
    requires t.accepted == s.accepted && t.claimed == s.claimed && ReaderOk(t)
    ensures Inv(t)
  {
    assert WriterOk(t);
  }

  lemma ReaderKeeps(s: State, closed: bool)
    requires Inv(s) && !s.reader.NoRead?
    ensures Inv(ReaderStep(s, closed))
  {
    if s.reader.RIndex? {
      TakeKeeps(s);
    } else if s.reader.RBump? {
      CountKeeps(s);
    } else {
      var t := ReaderStep(s, closed);
      assert t.returned + Partial(t.reader) == s.returned + Partial(s.reader);
      assert ReaderOk(t);
      ReaderMoves(s, t);
    }
  }

  // The store goes to a slot that no byte still to be read occupies.
  lemma StoreKeeps(s: State)
    requires Inv(s) && s.writer.WIndex?
    ensures Inv(WriterStep(s, false))
  {
    var t := WriterStep(s, false);
    forall k | t.rpos <= k < t.wpos ensures t.buf[k % PIPEBUFSIZ] == t.accepted[k] {
      SlotsDiffer(k, s.wpos);
    }
  }

  lemma BumpKeeps(s: State)
    requires Inv(s) && s.writer.WBump? && s.wpos + 1 < HALF
    ensures Inv(WriterStep(s, false))
  {
    WrapSmall(s.wpos + 1);
    var t := WriterStep(s, false);
    assert t.accepted == s.accepted + [s.writer.data[s.writer.i]];
    forall k | t.rpos <= k < t.wpos ensures t.buf[k % PIPEBUFSIZ] == t.accepted[k] {
      if k < s.wpos { assert t.accepted[k] == s.accepted[k]; }
    }
  }

  // Positions stay below 2^31 bytes.
  predicate Short(s: State, a: Step) { a.W? && s.writer.WBump? ==> s.wpos + 1 < HALF }

  lemma WriterKeeps(s: State, closed: bool)
    requires Inv(s) && !s.writer.NoWrite? && (s.writer.WBump? ==> s.wpos + 1 < HALF)
    ensures Inv(WriterStep(s, closed))
  {
    if s.writer.WIndex? {
      StoreKeeps(s);
    } else if s.writer.WBump? {
      BumpKeeps(s);
    } else {
      assert ReaderOk(WriterStep(s, closed)) && WriterOk(WriterStep(s, closed));
    }
  }

  lemma StepKeeps(s: State, a: Step)
    requires Inv(s) && Enabled(s, a) && Short(s, a)
    ensures Inv(Apply(s, a))
  {
    match a
    case ReadCall(_) => ReaderMoves(s, Apply(s, a));
    case R(closed) => ReaderKeeps(s, closed);
    case WriteCall(_) =>
    case W(closed) => WriterKeeps(s, closed);
  }

  // ---------------------------------------------------------------- runs

  predicate CanRun(s: State, steps: seq<Step>)
    decreases |steps|
  {
    steps == [] || (Enabled(s, steps[0]) && CanRun(Apply(s, steps[0]), steps[1..]))
  }

  function After(s: State, steps: seq<Step>): State
    requires CanRun(s, steps)
    decreases |steps|
  {
    if steps == [] then s else After(Apply(s, steps[0]), steps[1..])
  }

  lemma {:induction false} AcceptedGrows(s: State, steps: seq<Step>)
    requires CanRun(s, steps)
    ensures |s.accepted| <= |After(s, steps).accepted|
    decreases |steps|
  {
    if steps != [] { AcceptedGrows(Apply(s, steps[0]), steps[1..]); }
  }

  lemma {:induction false} RunKeeps(s: State, steps: seq<Step>)
    requires Inv(s) && CanRun(s, steps) && |After(s, steps).accepted| < HALF
    ensures Inv(After(s, steps))
    decreases |steps|
  {
    if steps != [] {
      AcceptedGrows(Apply(s, steps[0]), steps[1..]);
      StepKeeps(s, steps[0]);
      RunKeeps(Apply(s, steps[0]), steps[1..]);
    }
  }

  // A pipe whose page is fresh from sys_page_alloc.
  predicate NewPipe(s: State) {
    s == State(0, 0, s.buf, NoRead, NoWrite, [], [], 0) && |s.buf| == PIPEBUFSIZ
  }

  // What reads have returned is always a prefix of what writes have stored, and the ring never
  // holds a negative number of bytes or more than fit.
  lemma ReadsArePrefixOfWrites(s: State, steps: seq<Step>)
    requires NewPipe(s) && CanRun(s, steps) && |After(s, steps).accepted| < HALF
    ensures var t := After(s, steps);
            t.returned + Partial(t.reader) <= t.accepted && 0 <= t.wpos - t.rpos <= PIPEBUFSIZ
  {
    RunKeeps(s, steps);
  }

  // No byte is lost: what neither a finished read nor the current one has is in the ring.
  lemma UnreadIsInTheRing(s: State, steps: seq<Step>, k: nat)
    requires NewPipe(s) && CanRun(s, steps) && |After(s, steps).accepted| < HALF
    requires var t := After(s, steps); |t.returned + Partial(t.reader)| <= k < |t.accepted|
    ensures var t := After(s, steps);
            |t.buf| == PIPEBUFSIZ && t.buf[k % PIPEBUFSIZ] == t.accepted[k] && k - |t.returned + Partial(t.reader)| < PIPEBUFSIZ
  {
    RunKeeps(s, steps);
  }

  // A read returns 0 only when the ring was empty and _pipeisclosed said so, or n was 0.
  lemma ZeroReadMeansEof(s: State, closed: bool)
    requires Inv(s) && !s.reader.NoRead?
    requires ReaderStep(s, closed).reader.NoRead? && ReaderStep(s, closed).returned == s.returned
    ensures s.reader.n == 0 || (s.reader.REmpty? && closed)
  {
    if s.reader.RLoop? || s.reader.REmpty? {
      assert |s.returned + s.reader.got| == |s.returned| + |s.reader.got|;
    }
  }

  // ---------------------------------------------------------------- what a read returns

  lemma {:induction false} LastStep(s: State, steps: seq<Step>)
    requires steps != [] && CanRun(s, steps)
    ensures var init, last := steps[..|steps| - 1], steps[|steps| - 1];
            CanRun(s, init) && Enabled(After(s, init), last) && After(s, steps) == Apply(After(s, init), last)
    decreases |steps|
  {
    var init := steps[..|steps| - 1];
    if |steps| > 1 {
      LastStep(Apply(s, steps[0]), steps[1..]);
      assert steps[1..][..|steps| - 2] == init[1..];
    }
  }

  // The second load of the last test of the ring was made after i steps, and found it empty.
  ghost predicate SawEmpty(s: State, steps: seq<Step>, i: nat) {
    && i < |steps| && steps[i].R? && (forall j :: i < j < |steps| ==> !steps[j].R?)
    && CanRun(s, steps[..i]) && CanRun(s, steps)
    && var u, t := After(s, steps[..i]), After(s, steps);
       u.rpos == u.wpos && !u.reader.NoRead? && !t.reader.NoRead? && u.reader.n == t.reader.n && u.reader.got == t.reader.got
  }

  lemma {:induction false} WhenEmpty(s: State, steps: seq<Step>) returns (i: nat)
    requires Inv(s) && !s.reader.REmpty? && CanRun(s, steps) && |After(s, steps).accepted| < HALF && After(s, steps).reader.REmpty?
    ensures SawEmpty(s, steps, i)
    decreases |steps|
  {
    LastStep(s, steps);
    var init, last := steps[..|steps| - 1], steps[|steps| - 1];
    AcceptedGrowsBy(s, steps);
    RunKeeps(s, init);
    if last.R? {
      i := |init|;
    } else {
      i := WhenEmpty(s, init);
      assert init[..i] == steps[..i];
    }
  }

  lemma AcceptedGrowsBy(s: State, steps: seq<Step>)
    requires steps != [] && CanRun(s, steps) && CanRun(s, steps[..|steps| - 1])
    requires Enabled(After(s, steps[..|steps| - 1]), steps[|steps| - 1])
    requires After(s, steps) == Apply(After(s, steps[..|steps| - 1]), steps[|steps| - 1])
    ensures |After(s, steps[..|steps| - 1]).accepted| <= |After(s, steps).accepted|
  {
  }

  // A read that ends returns all it was asked for; or it has found the ring empty, at the second
  // load of its last test, and returns what it had, or nothing because the pipe is closed.
  lemma ReadReturnsAllItCan(s: State, steps: seq<Step>, closed: bool) returns (i: nat)
    requires NewPipe(s) && CanRun(s, steps) && |After(s, steps).accepted| < HALF
    requires var t := After(s, steps); Enabled(t, R(closed)) && ReaderStep(t, closed).reader.NoRead?
    ensures var t := After(s, steps);
            && ReaderStep(t, closed).returned == t.returned + t.reader.got
            && (|t.reader.got| == t.reader.n || (SawEmpty(s, steps, i) && (t.reader.got != [] || closed)))
  {
    RunKeeps(s, steps);
    i := 0;
    if After(s, steps).reader.REmpty? { i := WhenEmpty(s, steps); }
    var t := After(s, steps);
    assert t.reader.got == [] ==> t.returned + t.reader.got == t.returned;
  }

  function Reads(m: nat): seq<Step> { seq(m, i => R(false)) }

  lemma Loads(s: State, m: nat)
    requires Enabled(s, R(false)) && CanRun(Apply(s, R(false)), Reads(m))
    ensures CanRun(s, Reads(m + 1)) && After(s, Reads(m + 1)) == After(Apply(s, R(false)), Reads(m))
  {
    Prepend(s, R(false), Reads(m));
    assert [R(false)] + Reads(m) == Reads(m + 1);
  }

  lemma LoadsFrom(s: State, t: State, m: nat)
    requires Enabled(s, R(false)) && Apply(s, R(false)) == t && CanRun(t, Reads(m))
    ensures CanRun(s, Reads(m + 1)) && After(s, Reads(m + 1)) == After(t, Reads(m))
  {
    Loads(s, m);
  }

  lemma ThreeLoads(s: State, a: State, b: State, t: State)
    requires Enabled(s, R(false)) && Apply(s, R(false)) == a && Enabled(a, R(false)) && Apply(a, R(false)) == b
    requires Enabled(b, R(false)) && Apply(b, R(false)) == t
    ensures CanRun(s, Reads(3)) && After(s, Reads(3)) == t
  {
    LoadsFrom(b, t, 0);
    LoadsFrom(a, b, 1);
    LoadsFrom(s, a, 2);
  }

  lemma ByteTaken(s: State)
    requires s.reader.RIndex? && |s.buf| == PIPEBUFSIZ && 0 <= s.reader.r
    ensures Enabled(s, R(false))
    ensures Apply(s, R(false)) == s.(reader := RTaken(s.reader.n, s.reader.got + [s.buf[s.reader.r % PIPEBUFSIZ]]))
  {
  }

  lemma ByteGone(s: State)
    requires s.reader.RBump? && |s.buf| == PIPEBUFSIZ && 0 <= s.reader.r && s.reader.r + 1 < HALF
    ensures Enabled(s, R(false)) && Apply(s, R(false)) == s.(rpos := s.reader.r + 1, reader := RLoop(s.reader.n, s.reader.got))
  {
    WrapSmall(s.reader.r + 1);
  }

  lemma FirstLoads(s: State)
    requires s.reader.RLoop? && |s.reader.got| < s.reader.n && |s.buf| == PIPEBUFSIZ && s.rpos != s.wpos
    ensures CanRun(s, Reads(3)) && After(s, Reads(3)) == s.(reader := RIndex(s.reader.n, s.reader.got, s.rpos))
  {
    var RLoop(n, got) := s.reader;
    ThreeLoads(s, s.(reader := RSawR(n, got, s.rpos)), s.(reader := RTake(n, got)), s.(reader := RIndex(n, got, s.rpos)));
  }

  // From the load of the byte on; s1 is after it.
  lemma LastLoads(s: State, s1: State, n: nat, more: seq<Byte>)
    requires Enabled(s, R(false)) && Apply(s, R(false)) == s1 && s1.reader == RTaken(n, more)
    requires |s1.buf| == PIPEBUFSIZ && 0 <= s1.rpos && s1.rpos + 1 < HALF
    ensures CanRun(s, Reads(3)) && After(s, Reads(3)) == s1.(rpos := s1.rpos + 1, reader := RLoop(n, more))
  {
    var s2 := s1.(reader := RBump(n, more, s1.rpos));
    ByteGone(s2);
    ThreeLoads(s, s1, s2, s1.(rpos := s1.rpos + 1, reader := RLoop(n, more)));
  }

  lemma SixLoads(s: State, mid: State, t: State)
    requires CanRun(s, Reads(3)) && After(s, Reads(3)) == mid && CanRun(mid, Reads(3)) && After(mid, Reads(3)) == t
    ensures CanRun(s, Reads(6)) && After(s, Reads(6)) == t
  {
    RunAppend(s, Reads(3), Reads(3));
    assert Reads(3) + Reads(3) == Reads(6);
  }

  lemma NextByte(s: State)
    requires Inv(s) && s.rpos < s.wpos
    ensures |s.buf| == PIPEBUFSIZ && 0 <= s.rpos && s.rpos + 1 < HALF && s.rpos < |s.accepted|
    ensures s.buf[s.rpos % PIPEBUFSIZ] == s.accepted[s.rpos]
  {
  }

  // One byte, by the reader alone.
  lemma TakeOne(s: State)
    requires Inv(s) && s.reader.RLoop? && |s.reader.got| < s.reader.n && s.rpos < s.wpos
    ensures CanRun(s, Reads(6))
    ensures After(s, Reads(6)) ==
              s.(rpos := s.rpos + 1, reader := RLoop(s.reader.n, s.reader.got + [s.accepted[s.rpos]]))
  {
    NextByte(s);
    TakeSteps(s, s.accepted[s.rpos]);
  }

  lemma TakeSteps(s: State, b: Byte)
    requires s.reader.RLoop? && |s.reader.got| < s.reader.n && |s.buf| == PIPEBUFSIZ && s.rpos != s.wpos
    requires 0 <= s.rpos && s.rpos + 1 < HALF && s.buf[s.rpos % PIPEBUFSIZ] == b
    ensures CanRun(s, Reads(6))
    ensures After(s, Reads(6)) == s.(rpos := s.rpos + 1, reader := RLoop(s.reader.n, s.reader.got + [b]))
  {
    var n, more := s.reader.n, s.reader.got + [b];
    var mid, t := s.(reader := RIndex(n, s.reader.got, s.rpos)), s.(rpos := s.rpos + 1, reader := RLoop(n, more));
    FirstLoads(s);
    ByteTaken(mid);
    LastLoads(mid, s.(reader := RTaken(n, more)), n, more);
    SixLoads(s, mid, t);
  }

  lemma TakeOneInv(s: State)
    requires Inv(s) && s.reader.RLoop? && |s.reader.got| < s.reader.n && s.rpos < s.wpos
    ensures Inv(s.(rpos := s.rpos + 1, reader := RLoop(s.reader.n, s.reader.got + [s.accepted[s.rpos]])))
  {
    var t := s.(rpos := s.rpos + 1, reader := RLoop(s.reader.n, s.reader.got + [s.accepted[s.rpos]]));
    assert s.returned + t.reader.got == (s.returned + s.reader.got) + [s.accepted[s.rpos]];
    assert WriterOk(t) && ReaderOk(t);
  }

  // The reader has taken the next `more` bytes and returned.
  function Done(s: State, more: nat): State
    requires !s.reader.NoRead? && 0 <= s.rpos <= s.rpos + more <= |s.accepted|
  {
    s.(rpos := s.rpos + more, reader := NoRead, returned := s.returned + (s.reader.got + s.accepted[s.rpos..s.rpos + more]))
  }

  lemma NoneLeft(s: State)
    requires Inv(s) && s.reader.RLoop? && s.rpos == s.wpos && s.reader.got != [] && |s.reader.got| < s.reader.n
    ensures CanRun(s, Reads(3)) && After(s, Reads(3)) == Done(s, 0)
  {
    var s1 := Apply(s, R(false));
    var s2 := Apply(s1, R(false));
    assert s2 == s.(reader := REmpty(s.reader.n, s.reader.got));
    Loads(s2, 0);
    Loads(s1, 1);
    Loads(s, 2);
    assert s.reader.got + s.accepted[s.rpos..s.rpos] == s.reader.got;
  }

  lemma AllTaken(s: State)
    requires Inv(s) && s.reader.RLoop? && |s.reader.got| == s.reader.n
    ensures CanRun(s, Reads(1)) && After(s, Reads(1)) == Done(s, 0)
  {
    Loads(s, 0);
    assert s.reader.got + s.accepted[s.rpos..s.rpos] == s.reader.got;
  }

  lemma OneAndTheRest(s: State, more: nat)
    requires Inv(s) && s.reader.RLoop? && more > 0 && s.rpos + more <= s.wpos
    ensures var t := s.(rpos := s.rpos + 1, reader := RLoop(s.reader.n, s.reader.got + [s.accepted[s.rpos]]));
            Done(t, more - 1) == Done(s, more)
  {
    var got := s.reader.got;
    var one, rest := s.accepted[s.rpos..s.rpos + 1], s.accepted[s.rpos + 1..s.rpos + more];
    assert one == [s.accepted[s.rpos]] && one + rest == s.accepted[s.rpos..s.rpos + more];
    assert (got + one) + rest == got + (one + rest);
  }

  // From the top of its loop on, alone.
  lemma {:induction false} Finishes(s: State) returns (m: nat)
    requires Inv(s) && s.reader.RLoop? && (s.rpos < s.wpos || s.reader.got != [] || s.reader.n == 0)
    ensures CanRun(s, Reads(m)) && After(s, Reads(m)) == Done(s, Least(s.reader.n - |s.reader.got|, s.wpos - s.rpos))
    decreases s.reader.n - |s.reader.got|
  {
    if |s.reader.got| == s.reader.n {
      AllTaken(s);
      m := 1;
    } else if s.rpos == s.wpos {
      NoneLeft(s);
      m := 3;
    } else {
      TakeOne(s);
      TakeOneInv(s);
      OneAndTheRest(s, Least(s.reader.n - |s.reader.got|, s.wpos - s.rpos));
      var rest := Finishes(After(s, Reads(6)));
      m := 6 + rest;
      RunAppend(s, Reads(6), Reads(rest));
      assert Reads(6) + Reads(rest) == Reads(m);
    }
  }

  function Least(a: int, b: int): int { if a <= b then a else b }

  // A read that is let run alone takes as many of the unread bytes as it was asked for, in
  // their order.
  lemma ReadAlone(s: State, n: nat) returns (m: nat)
    requires Inv(s) && s.reader.NoRead? && (s.rpos < s.wpos || n == 0)
    ensures CanRun(s, [ReadCall(n)] + Reads(m))
    ensures var k := Least(n, s.wpos - s.rpos);
            After(s, [ReadCall(n)] + Reads(m)) ==
              s.(rpos := s.rpos + k, returned := s.returned + s.accepted[s.rpos..s.rpos + k])
  {
    var t := Apply(s, ReadCall(n));
    StepKeeps(s, ReadCall(n));
    m := Finishes(t);
    Prepend(s, ReadCall(n), Reads(m));
    var k := Least(n, s.wpos - s.rpos);
    assert [] + s.accepted[s.rpos..s.rpos + k] == s.accepted[s.rpos..s.rpos + k];
  }

  // On an empty ring it returns nothing, once it is told that the pipe is closed.
  lemma EmptyAndClosed(s: State, n: nat)
    requires Inv(s) && s.reader.NoRead? && s.rpos == s.wpos && n > 0
    ensures CanRun(s, [ReadCall(n)] + (Reads(2) + [R(true)])) && After(s, [ReadCall(n)] + (Reads(2) + [R(true)])) == s
  {
    var s1, s2 := s.(reader := RLoop(n, [])), s.(reader := RSawR(n, [], s.rpos));
    var s3 := s.(reader := REmpty(n, []));
    LoadsFrom(s2, s3, 0);
    LoadsFrom(s1, s2, 1);
    Prepend(s3, R(true), []);
    assert s.returned + [] == s.returned;
    RunAppend(s1, Reads(2), [R(true)]);
    Prepend(s, ReadCall(n), Reads(2) + [R(true)]);
  }

  // ---------------------------------------------------------------- what writes report

  // A write that finds the readers gone returns 0; after it has stored bytes, these are stored
  // but not reported.
  predicate GivesUp(s: State, a: Step) { a.W? && a.closed && s.writer.WFull? && s.writer.i > 0 }

  predicate SomeGivesUp(s: State, steps: seq<Step>)
    requires CanRun(s, steps)
    decreases |steps|
  {
    steps != [] && (GivesUp(s, steps[0]) || SomeGivesUp(Apply(s, steps[0]), steps[1..]))
  }

  // The bytes that the writes which give up had stored.
  function Unreported(s: State, steps: seq<Step>): nat
    requires CanRun(s, steps)
    decreases |steps|
  {
    if steps == [] then 0
    else (if GivesUp(s, steps[0]) then s.writer.i else 0) + Unreported(Apply(s, steps[0]), steps[1..])
  }

  predicate InData(w: Writer) { w.NoWrite? || w.WLoop? || w.i < |w.data| }

  lemma {:induction false} Reports(s: State, steps: seq<Step>)
    requires CanRun(s, steps) && InData(s.writer)
    ensures var t := After(s, steps);
            && t.claimed + Sofar(t.writer) + Unreported(s, steps) == s.claimed + Sofar(s.writer) + |t.accepted| - |s.accepted|
            && (Unreported(s, steps) == 0 <==> !SomeGivesUp(s, steps))
    decreases |steps|
  {
    if steps != [] {
      var t := Apply(s, steps[0]);
      assert t.claimed + Sofar(t.writer) + (if GivesUp(s, steps[0]) then s.writer.i else 0)
          == s.claimed + Sofar(s.writer) + |t.accepted| - |s.accepted|;
      Reports(t, steps[1..]);
    }
  }

  // Writes report exactly the bytes they store, if and only if none of them gives up.
  lemma ReportsWhatItStores(s: State, steps: seq<Step>)
    requires NewPipe(s) && CanRun(s, steps)
    ensures var t := After(s, steps); t.claimed + Sofar(t.writer) + Unreported(s, steps) == |t.accepted|
    ensures var t := After(s, steps); t.claimed + Sofar(t.writer) == |t.accepted| <==> !SomeGivesUp(s, steps)
  {
    Reports(s, steps);
  }

  lemma Prepend(s: State, a: Step, rest: seq<Step>)
    requires Enabled(s, a) && CanRun(Apply(s, a), rest)
    ensures CanRun(s, [a] + rest) && After(s, [a] + rest) == After(Apply(s, a), rest)
  {
    assert ([a] + rest)[1..] == rest;
  }

  lemma {:induction false} RunAppend(s: State, a: seq<Step>, b: seq<Step>)
    requires CanRun(s, a) && CanRun(After(s, a), b)
    ensures CanRun(s, a + b) && After(s, a + b) == After(After(s, a), b)
    decreases |a|
  {
    if a == [] {
      assert a + b == b;
    } else {
      RunAppend(Apply(s, a[0]), a[1..], b);
      Prepend(s, a[0], a[1..] + b);
      assert [a[0]] + (a[1..] + b) == a + b;
    }
  }

  // A write that ends without giving up returns the number of all its bytes.
  lemma WriteReturnsAll(s: State, closed: bool)
    requires Inv(s) && Enabled(s, W(closed)) && WriterStep(s, closed).writer.NoWrite?
    ensures (s.writer.WFull? && closed && WriterStep(s, closed).claimed == s.claimed) ||
            (s.writer.WLoop? && s.writer.i == |s.writer.data| && WriterStep(s, closed).claimed == s.claimed + |s.writer.data|)
  {
  }

  // A write from a full turn of its loop on: k bytes stored, room for more.
  ghost predicate Filling(s: State, data: seq<Byte>, k: nat) {
    && Inv(s) && k <= |data| && s.rpos == 0 && s.wpos == k && s.claimed == 0
    && s.writer == WLoop(data, k) && s.accepted == data[..k]
  }

  function Turns(m: nat): seq<Step> { seq(m, i => W(false)) }

  lemma Waits(s: State, m: nat)
    requires Enabled(s, W(false)) && CanRun(Apply(s, W(false)), Turns(m))
    ensures CanRun(s, Turns(m + 1)) && After(s, Turns(m + 1)) == After(Apply(s, W(false)), Turns(m))
  {
    Prepend(s, W(false), Turns(m));
    assert [W(false)] + Turns(m) == Turns(m + 1);
  }

  // One more step of the writer at the front of a run.
  lemma WaitsFrom(s: State, t: State, m: nat)
    requires Enabled(s, W(false)) && Apply(s, W(false)) == t && CanRun(t, Turns(m))
    ensures CanRun(s, Turns(m + 1)) && After(s, Turns(m + 1)) == After(t, Turns(m))
  {
    Waits(s, m);
  }

  lemma ThreeWaits(s: State, a: State, b: State, t: State)
    requires Enabled(s, W(false)) && Apply(s, W(false)) == a && Enabled(a, W(false)) && Apply(a, W(false)) == b
    requires Enabled(b, W(false)) && Apply(b, W(false)) == t
    ensures CanRun(s, Turns(3)) && After(s, Turns(3)) == t
  {
    WaitsFrom(b, t, 0);
    WaitsFrom(a, b, 1);
    WaitsFrom(s, a, 2);
  }

  // It sees that there is room.
  lemma RoomSeen(s: State)
    requires s.writer.WSawW? && |s.buf| == PIPEBUFSIZ && s.writer.i <= |s.writer.data|
    requires 0 <= s.rpos <= s.writer.w < HALF && s.writer.w - s.rpos < PIPEBUFSIZ
    ensures Enabled(s, W(false)) && Apply(s, W(false)) == SetWriter(s, WPut(s.writer.data, s.writer.i))
  {
  }

  // It stores the byte in its slot.
  lemma ByteStored(s: State)
    requires s.writer.WIndex? && |s.buf| == PIPEBUFSIZ && s.writer.i < |s.writer.data| && 0 <= s.writer.w
    ensures Enabled(s, W(false))
    ensures Apply(s, W(false)) ==
              s.(buf := s.buf[s.writer.w % PIPEBUFSIZ := s.writer.data[s.writer.i]], writer := WStored(s.writer.data, s.writer.i))
  {
  }

  lemma ByteCounted(s: State)
    requires s.writer.WBump? && |s.buf| == PIPEBUFSIZ && s.writer.i < |s.writer.data| && 0 <= s.writer.w && s.writer.w + 1 < HALF
    ensures Enabled(s, W(false))
    ensures Apply(s, W(false)) == s.(wpos := s.writer.w + 1, writer := WLoop(s.writer.data, s.writer.i + 1),
                                     accepted := s.accepted + [s.writer.data[s.writer.i]])
  {
    WrapSmall(s.writer.w + 1);
  }

  // One byte, by the writer alone, when there is room.
  function Put(s: State): State
    requires s.writer.WLoop? && s.writer.i < |s.writer.data| && 0 <= s.wpos && |s.buf| == PIPEBUFSIZ
  {
    s.(buf := s.buf[s.wpos % PIPEBUFSIZ := s.writer.data[s.writer.i]], wpos := s.wpos + 1,
       writer := WLoop(s.writer.data, s.writer.i + 1), accepted := s.accepted + [s.writer.data[s.writer.i]])
  }

  // Both positions, as far as Inv bounds them.
  predicate RoomFor(s: State) {
    |s.buf| == PIPEBUFSIZ && 0 <= s.rpos <= s.wpos && s.wpos - s.rpos < PIPEBUFSIZ && s.wpos + 1 < HALF
  }

  // Up to the load of p_wpos that gives the index.
  lemma RoomSteps(s: State)
    requires RoomFor(s) && s.writer.WLoop? && s.writer.i < |s.writer.data|
    ensures CanRun(s, Turns(3)) && After(s, Turns(3)) == SetWriter(s, WIndex(s.writer.data, s.writer.i, s.wpos))
  {
    var WLoop(data, i) := s.writer;
    var s1, s2 := SetWriter(s, WSawW(data, i, s.wpos)), SetWriter(s, WPut(data, i));
    RoomSeen(s1);
    ThreeWaits(s, s1, s2, SetWriter(s, WIndex(data, i, s.wpos)));
  }

  lemma StoreSteps(s: State)
    requires RoomFor(s) && s.writer.WIndex? && s.writer.w == s.wpos && s.writer.i < |s.writer.data|
    ensures CanRun(s, Turns(3)) && After(s, Turns(3)) == Put(SetWriter(s, WLoop(s.writer.data, s.writer.i)))
  {
    var WIndex(data, i, w) := s.writer;
    ByteStored(s);
    var s1 := s.(buf := s.buf[w % PIPEBUFSIZ := data[i]], writer := WStored(data, i));
    var s2 := SetWriter(s1, WBump(data, i, w));
    ByteCounted(s2);
    ThreeWaits(s, s1, s2, Put(SetWriter(s, WLoop(data, i))));
  }

  lemma PutSteps(s: State)
    requires RoomFor(s) && s.writer.WLoop? && s.writer.i < |s.writer.data|
    ensures CanRun(s, Turns(6)) && After(s, Turns(6)) == Put(s)
  {
    RoomSteps(s);
    StoreSteps(SetWriter(s, WIndex(s.writer.data, s.writer.i, s.wpos)));
    RunAppend(s, Turns(3), Turns(3));
    assert Turns(3) + Turns(3) == Turns(6);
  }

  lemma PutOne(s: State)
    requires Inv(s) && s.writer.WLoop? && s.writer.i < |s.writer.data| && s.wpos - s.rpos < PIPEBUFSIZ && s.wpos + 1 < HALF
    ensures CanRun(s, Turns(6)) && Inv(After(s, Turns(6)))
    ensures var t := After(s, Turns(6));
            && t.writer == WLoop(s.writer.data, s.writer.i + 1) && t.accepted == s.accepted + [s.writer.data[s.writer.i]]
            && t.rpos == s.rpos && t.reader == s.reader && t.returned == s.returned && t.claimed == s.claimed
  {
    PutSteps(s);
    RunKeeps(s, Turns(6));
  }

  lemma {:induction false} PutRest(s: State) returns (m: nat)
    requires Inv(s) && s.writer.WLoop? && s.wpos - s.rpos + (|s.writer.data| - s.writer.i) <= PIPEBUFSIZ
    requires s.wpos + (|s.writer.data| - s.writer.i) < HALF
    ensures CanRun(s, Turns(m))
    ensures var t := After(s, Turns(m));
            && t.writer.NoWrite? && t.claimed == s.claimed + |s.writer.data| && t.reader == s.reader && t.returned == s.returned
            && t.accepted == s.accepted + s.writer.data[s.writer.i..] && t.rpos == s.rpos
    decreases |s.writer.data| - s.writer.i
  {
    var WLoop(data, i) := s.writer;
    if i == |data| {
      Waits(s, 0);
      m := 1;
    } else {
      PutOne(s);
      var t := After(s, Turns(6));
      var rest := PutRest(t);
      m := 6 + rest;
      RunAppend(s, Turns(6), Turns(rest));
      assert Turns(6) + Turns(rest) == Turns(m);
      assert s.accepted + [data[i]] + data[i + 1..] == s.accepted + data[i..];
    }
  }

  // A write for which there is room, let run alone, stores all its bytes and says so.
  lemma WriteAlone(s: State, data: seq<Byte>) returns (m: nat)
    requires Inv(s) && s.writer.NoWrite? && s.wpos - s.rpos + |data| <= PIPEBUFSIZ && s.wpos + |data| < HALF
    ensures CanRun(s, [WriteCall(data)] + Turns(m))
    ensures var t := After(s, [WriteCall(data)] + Turns(m));
            && t.writer.NoWrite? && t.claimed == s.claimed + |data| && t.accepted == s.accepted + data
            && t.rpos == s.rpos && t.reader == s.reader && t.returned == s.returned
  {
    StepKeeps(s, WriteCall(data));
    var t := Apply(s, WriteCall(data));
    m := PutRest(t);
    Prepend(s, WriteCall(data), Turns(m));
    assert data[0..] == data;
  }

  lemma FillNext(s: State, data: seq<Byte>, k: nat)
    requires Filling(s, data, k) && k < PIPEBUFSIZ && k < |data|
    ensures CanRun(s, Turns(6)) && Filling(After(s, Turns(6)), data, k + 1)
  {
    PutOne(s);
    assert data[..k] + [data[k]] == data[..k + 1];
  }

  lemma {:induction false} Fill(s: State, data: seq<Byte>, k: nat) returns (steps: seq<Step>)
    requires Filling(s, data, k) && k <= PIPEBUFSIZ <= |data|
    ensures CanRun(s, steps) && Filling(After(s, steps), data, PIPEBUFSIZ)
    decreases PIPEBUFSIZ - k
  {
    if k == PIPEBUFSIZ { return []; }
    FillNext(s, data, k);
    steps := Fill(After(s, Turns(6)), data, k + 1);
    RunAppend(s, Turns(6), steps);
    steps := Turns(6) + steps;
  }

  // Any write of more than 32 bytes can lose 32 of them to its caller: if nobody reads, and the
  // readers go when the ring is full, it has stored 32 bytes and returns 0.
  lemma GivingUpHidesBytes(s: State, data: seq<Byte>) returns (steps: seq<Step>)
    requires NewPipe(s) && |data| > 32
    ensures CanRun(s, steps)
    ensures var t := After(s, steps); t.writer.NoWrite? && t.claimed == 0 && |t.accepted| == 32 && t.accepted == data[..32]
  {
    StepKeeps(s, WriteCall(data));
    var s0 := Apply(s, WriteCall(data));
    var filled := Fill(s0, data, 0);
    var t := After(s0, filled);
    var t1 := Apply(t, W(false));
    var t2 := Apply(t1, W(false));
    assert t2.writer == WFull(data, PIPEBUFSIZ);
    Prepend(t2, W(true), []);
    Prepend(t1, W(false), [W(true)]);
    Prepend(t, W(false), [W(false)] + [W(true)]);
    RunAppend(s0, filled, [W(false)] + ([W(false)] + [W(true)]));
    steps := filled + ([W(false)] + ([W(false)] + [W(true)]));
    Prepend(s, WriteCall(data), steps);
    steps := [WriteCall(data)] + steps;
  }

  // From 2^31 bytes on, p_wpos is negative and the index computed from it leaves the buffer.
  lemma IndexLeavesBuffer(pos: nat)
    requires pos < 2 * HALF
    ensures 0 <= Rem(Wrap(pos)) < PIPEBUFSIZ <==> pos < HALF || pos % PIPEBUFSIZ == 0
    ensures pos < HALF ==> Rem(Wrap(pos)) == pos % PIPEBUFSIZ
  {
  }
}
