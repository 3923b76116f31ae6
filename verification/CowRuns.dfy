/** Whole runs of copy-on-write fork: what every environment reads, when a child's page is
    taken, and that the child gets all of the parent's pages. */
module CowRuns {
  import opened CowFork
  import opened CowProof

  // ---------------------------------------------------------------- one step, then any run

  lemma StepKeeps(s: Machine, a: Step)
    requires Inv(s) && Enabled(s, a)
    ensures Inv(Apply(s, a))
  {
    match a
    case Store(e, va, off, value) => StoreInv(s, e, va, off, value);
    case FaultAlloc(e, va, frame) => FaultAllocInv(s, e, va, frame);
    case FaultCopy(e) => FaultCopyInv(s, e);
    case FaultRemap(e) => FaultRemapInv(s, e);
    case FaultUnmap(e) => FaultUnmapInv(s, e);
    case ForkBegin(e, child) => ForkBeginInv(s, e, child);
    case ReadPerm(e) => ReadPermInv(s, e);
    case MapChild(e) => MapChildInv(s, e);
    case MapSelf(e) => MapSelfInv(s, e);
    case ForkEnd(e, frame) => ForkEndInv(s, e, frame);
  }

  lemma StepSimulates(s: Machine, g: Eager, a: Step)
    requires Inv(s) && Simulates(s, g) && Enabled(s, a)
    ensures Simulates(Apply(s, a), Meaning(g, EventOf(s, a)))
  {
    match a
    case Store(e, va, off, value) => StoreSim(s, g, e, va, off, value);
    case FaultAlloc(e, va, frame) => FaultAllocSim(s, g, e, va, frame);
    case FaultCopy(e) => FaultCopySim(s, g, e);
    case FaultRemap(e) => FaultRemapSim(s, g, e);
    case FaultUnmap(e) => FaultUnmapSim(s, g, e);
    case ForkBegin(e, child) => ForkBeginSim(s, g, e, child);
    case ReadPerm(e) => ReadPermSim(s, g, e);
    case MapChild(e) => MapChildSim(s, g, e);
    case MapSelf(e) => MapSelfSim(s, g, e);
    case ForkEnd(e, frame) => ForkEndSim(s, g, e, frame);
  }

  predicate CanRun(s: Machine, steps: seq<Step>)
    decreases |steps|
  {
    steps == [] || (Enabled(s, steps[0]) && CanRun(Apply(s, steps[0]), steps[1..]))
  }

  function After(s: Machine, steps: seq<Step>): Machine
    requires CanRun(s, steps)
    decreases |steps|
  {
    if steps == [] then s else After(Apply(s, steps[0]), steps[1..])
  }

  function EagerAfter(g: Eager, s: Machine, steps: seq<Step>): Eager
    requires CanRun(s, steps)
    decreases |steps|
  {
    if steps == [] then g
    else EagerAfter(Meaning(g, EventOf(s, steps[0])), Apply(s, steps[0]), steps[1..])
  }

  lemma {:induction false} RunSimulates(s: Machine, g: Eager, steps: seq<Step>)
    requires Inv(s) && Simulates(s, g) && CanRun(s, steps)
    ensures Inv(After(s, steps)) && Simulates(After(s, steps), EagerAfter(g, s, steps))
    decreases |steps|
  {
    if steps != [] {
      StepKeeps(s, steps[0]);
      StepSimulates(s, g, steps[0]);
      RunSimulates(Apply(s, steps[0]), Meaning(g, EventOf(s, steps[0])), steps[1..]);
    }
  }

  // ---------------------------------------------------------------- the start

  // Nobody is forking or handling a fault, every environment has its exception stack, and
  // each private page is mapped once.
  ghost predicate Quiet(s: Machine) {
    && (forall e {:trigger s.proc[e]} :: e in s.proc ==>
          s.proc[e] == Proc(NoFault, NoFork) && Key(e, TEMP) !in s.pt && StackOk(s, e))
    && (forall k {:trigger KeyOk(s, k)} :: k in s.pt ==> KeyOk(s, k))
    && (forall x, y {:trigger Exclusive(s, x, y)} :: x in s.pt && y in s.pt && x != y && s.pt[x].frame == s.pt[y].frame ==>
          s.pt[x].bits.share && s.pt[y].bits.share)
  }

  function Copies(s: Machine): Eager
    requires forall k :: k in s.pt ==> s.pt[k].frame in s.mem
  {
    Eager(map k | k in s.pt && !s.pt[k].bits.share :: Own(s.mem[s.pt[k].frame], s.pt[k].bits.w || s.pt[k].bits.cow),
          map k | k in s.pt && s.pt[k].bits.share :: s.pt[k].frame,
          s.mem)
  }

  lemma QuietStart(s: Machine)
    requires Quiet(s)
    ensures forall k :: k in s.pt ==> s.pt[k].frame in s.mem
    ensures Inv(s) && Simulates(s, Copies(s))
  {
    forall k | k in s.pt ensures s.pt[k].frame in s.mem && k.env in s.proc && k.va != TEMP && !Pending(s, k) {
      assert KeyOk(s, k);
    }
    forall e | e in s.proc ensures FaultOk(s, e) && ForkOk(s, e) && StackOk(s, e) {}
    forall x, y | x in s.pt && y in s.pt ensures Exclusive(s, x, y) {}
    var g := Copies(s);
    forall k | k in s.pt ensures Agrees(s, g, k) {}
    forall x, y | x in s.pt && y in s.pt ensures LinksMatch(s, g, x, y) {}
  }

  // ---------------------------------------------------------------- what environments see

  // What a load from the page returns, and whether a store to it will (after at most one
  // fault) go through.
  datatype Sight = Sight(content: Content, writable: bool)

  function Seen(s: Machine, k: Key): Sight
    requires k in s.pt && s.pt[k].frame in s.mem
  {
    Sight(s.mem[s.pt[k].frame], s.pt[k].bits.w || s.pt[k].bits.cow)
  }

  // The main result: from a quiet start, under every interleaving, each environment sees on
  // each of its pages what it would see if fork copied every private page.
  lemma ForkIsEagerCopy(s: Machine, steps: seq<Step>, k: Key)
    requires Quiet(s) && CanRun(s, steps)
    requires k in After(s, steps).pt && k.env in After(s, steps).proc && k.va != TEMP
    ensures forall l :: l in s.pt ==> s.pt[l].frame in s.mem
    ensures var t, g := After(s, steps), EagerAfter(Copies(s), s, steps);
            && t.pt[k].frame in t.mem
            && if t.pt[k].bits.share
               then k in g.link && g.link[k] in g.common && g.common[g.link[k]] == Seen(t, k).content
               else k in g.own && Seen(t, k) == Sight(g.own[k].content, g.own[k].writable)
  {
    QuietStart(s);
    RunSimulates(s, Copies(s), steps);
    var t, g := After(s, steps), EagerAfter(Copies(s), s, steps);
    StartedNotPending(t, k);
    assert Agrees(t, g, k);
  }

  // Outside the two-call window of duppage and the last two calls of pgfault, a private page
  // mapped writable anywhere has no other mapping.
  lemma WritableMappedOnce(s: Machine, steps: seq<Step>, x: Key, y: Key)
    requires Quiet(s) && CanRun(s, steps)
    requires var t := After(s, steps);
             && x in t.pt && y in t.pt && t.pt[x].frame == t.pt[y].frame && t.pt[x].bits.w && !t.pt[x].bits.share
             && forall e :: e in t.proc ==> !t.proc[e].fork.ChildMapped? && !t.proc[e].fault.Remapped?
    ensures x == y
  {
    QuietStart(s);
    RunSimulates(s, Copies(s), steps);
    assert Exclusive(After(s, steps), x, y);
  }

  // A store is seen by no other environment, unless the page is marked shared.
  lemma StoreIsPrivate(s: Machine, a: Step, k: Key)
    requires Inv(s) && Enabled(s, a) && a.Store? && !s.pt[Key(a.e, a.va)].bits.share
    requires k in s.pt && k.env in s.proc && k.env != a.e
    ensures s.pt[k].frame in s.mem && k in Apply(s, a).pt && s.pt[k].frame in Apply(s, a).mem
    ensures Seen(Apply(s, a), k) == Seen(s, k)
  {
    assert KeyOk(s, k) && Exclusive(s, Key(a.e, a.va), k);
    StartedNotPending(s, k);
  }

  // ---------------------------------------------------------------- when the copy is taken

  // What stays fixed between duppage's calls for the page x of child f.child.
  ghost predicate InWindow(s: Machine, g: Eager, e: nat, f: ForkPc, pte: Pte, own: Own) {
    && f.ChildMapped? && e in s.proc && s.proc[e].fork == f
    && var x := Key(f.child, f.va);
       x in s.pt && s.pt[x] == pte && (f.snap ==> x in g.own && g.own[x] == own)
  }

  lemma WindowStep(s: Machine, g: Eager, e: nat, f: ForkPc, pte: Pte, own: Own, a: Step)
    requires Inv(s) && Simulates(s, g) && InWindow(s, g, e, f, pte, own) && Enabled(s, a) && a != MapSelf(e)
    ensures InWindow(Apply(s, a), Meaning(g, EventOf(s, a)), e, f, pte, own)
  {
    assert ForkOk(s, e);
    assert a.e in s.proc && ForkOk(s, a.e) && FaultOk(s, a.e);
  }

  lemma {:induction false} WindowRun(s: Machine, g: Eager, e: nat, f: ForkPc, pte: Pte, own: Own, steps: seq<Step>)
    requires Inv(s) && Simulates(s, g) && InWindow(s, g, e, f, pte, own) && CanRun(s, steps) && MapSelf(e) !in steps
    ensures InWindow(After(s, steps), EagerAfter(g, s, steps), e, f, pte, own)
    decreases |steps|
  {
    if steps != [] {
      WindowStep(s, g, e, f, pte, own, steps[0]);
      StepKeeps(s, steps[0]);
      StepSimulates(s, g, steps[0]);
      WindowRun(Apply(s, steps[0]), Meaning(g, EventOf(s, steps[0])), e, f, pte, own, steps[1..]);
    }
  }

  // The child's page is the parent's page as it was at the second sys_page_map if the parent
  // could write it at the first, and as it was at the first otherwise, whatever happens
  // between the two calls.
  lemma CopyTime(s: Machine, g: Eager, e: nat, mid: seq<Step>)
    requires Inv(s) && Simulates(s, g) && Enabled(s, MapChild(e)) && s.proc[e].fork.perm.cow
    requires CanRun(Apply(s, MapChild(e)), mid) && MapSelf(e) !in mid
    requires Enabled(After(Apply(s, MapChild(e)), mid), MapSelf(e))
    ensures var PermRead(c, va, perm) := s.proc[e].fork;
            var p, x := Key(e, va), Key(c, va);
            var second := After(Apply(s, MapChild(e)), mid);
            var t := Apply(second, MapSelf(e));
            && s.pt[p].frame in s.mem && p in second.pt && second.pt[p].frame in second.mem
            && x in t.pt && t.pt[x].frame in t.mem
            && Seen(t, x).content == Seen(if s.pt[p].bits.w then second else s, p).content
  {
    var PermRead(c, va, perm) := s.proc[e].fork;
    var p, x := Key(e, va), Key(c, va);
    assert ForkOk(s, e) && KeyOk(s, p) && Agrees(s, g, p);
    StartedNotPending(s, p);
    StepKeeps(s, MapChild(e));
    StepSimulates(s, g, MapChild(e));
    var first, g1 := Apply(s, MapChild(e)), Meaning(g, EventOf(s, MapChild(e)));
    var own := if s.pt[p].bits.w then Own([], true) else g.own[p];
    WindowRun(first, g1, e, first.proc[e].fork, first.pt[x], own, mid);
    RunSimulates(first, g1, mid);
    var second, g2 := After(first, mid), EagerAfter(g1, first, mid);
    assert ForkOk(second, e) && KeyOk(second, p) && KeyOk(second, x) && Agrees(second, g2, x);
  }

  // The parent takes no fault on page va between the calls.
  predicate NoFaultOn(e: nat, va: nat, steps: seq<Step>) {
    forall a :: a in steps && a.FaultAlloc? ==> a.e != e || a.va != va
  }

  ghost predicate Untouched(s: Machine, e: nat, f: ForkPc, frame: nat) {
    && f.ChildMapped? && e in s.proc && s.proc[e].fork == f
    && Key(e, f.va) in s.pt && s.pt[Key(e, f.va)].frame == frame
    && (s.proc[e].fault.NoFault? || s.proc[e].fault.va != f.va)
  }

  lemma {:induction false} UntouchedRun(s: Machine, e: nat, f: ForkPc, frame: nat, steps: seq<Step>)
    requires Inv(s) && Untouched(s, e, f, frame) && CanRun(s, steps) && MapSelf(e) !in steps && NoFaultOn(e, f.va, steps)
    ensures Untouched(After(s, steps), e, f, frame)
    decreases |steps|
  {
    if steps != [] {
      assert ForkOk(s, e);
      assert steps[0].e in s.proc && ForkOk(s, steps[0].e) && FaultOk(s, steps[0].e);
      StepKeeps(s, steps[0]);
      UntouchedRun(Apply(s, steps[0]), e, f, frame, steps[1..]);
    }
  }

  // If it takes none, the copy is current: the child starts from what the parent holds at the
  // second call.
  lemma CopyIsCurrent(s: Machine, g: Eager, e: nat, mid: seq<Step>)
    requires Inv(s) && Simulates(s, g) && Enabled(s, MapChild(e)) && s.proc[e].fork.perm.cow
    requires CanRun(Apply(s, MapChild(e)), mid) && MapSelf(e) !in mid && NoFaultOn(e, s.proc[e].fork.va, mid)
    requires Enabled(After(Apply(s, MapChild(e)), mid), MapSelf(e))
    ensures var PermRead(c, va, perm) := s.proc[e].fork;
            var p, x := Key(e, va), Key(c, va);
            var second := After(Apply(s, MapChild(e)), mid);
            var t := Apply(second, MapSelf(e));
            && p in second.pt && second.pt[p].frame in second.mem && x in t.pt && t.pt[x].frame in t.mem
            && Seen(t, x).content == Seen(second, p).content
  {
    var PermRead(c, va, perm) := s.proc[e].fork;
    var p, x := Key(e, va), Key(c, va);
    assert ForkOk(s, e) && KeyOk(s, p) && Agrees(s, g, p);
    StartedNotPending(s, p);
    StepKeeps(s, MapChild(e));
    StepSimulates(s, g, MapChild(e));
    var first, g1 := Apply(s, MapChild(e)), Meaning(g, EventOf(s, MapChild(e)));
    var own := if s.pt[p].bits.w then Own([], true) else g.own[p];
    WindowRun(first, g1, e, first.proc[e].fork, first.pt[x], own, mid);
    UntouchedRun(first, e, first.proc[e].fork, s.pt[p].frame, mid);
    RunSimulates(first, g1, mid);
    assert KeyOk(After(first, mid), p) && KeyOk(After(first, mid), x);
  }

  // Otherwise the child need not get what the parent holds at the second call: here the parent, whose
  // page is already copy-on-write, faults on it and stores a 9 between the two calls.  (This is
  // an interleaving of the machine, which lets a program store at any moment.)
  function OlderStart(): Machine {
    Machine(map[Key(1, 0) := Pte(7, Bits(false, true, false)), Key(1, XSTACK) := Pte(8, Bits(true, false, false))],
            map[7 := [0], 8 := [0]], map[1 := Proc(NoFault, NoFork)], map[])
  }

  function OlderFirst(): seq<Step> { [ForkBegin(1, 2), ReadPerm(1), MapChild(1)] }
  function OlderCopy(): seq<Step> { [FaultAlloc(1, 0, 9), FaultCopy(1)] }
  function OlderUse(): seq<Step> { [FaultRemap(1), FaultUnmap(1), Store(1, 0, 0, 9)] }

  // Between the two calls: as the first leaves it, with the fault half handled, and at the end.
  function OlderWindow(): Machine {
    Machine(map[Key(1, 0) := Pte(7, Bits(false, true, false)), Key(1, XSTACK) := Pte(8, Bits(true, false, false)),
                Key(2, 0) := Pte(7, Bits(false, true, false))],
            map[7 := [0], 8 := [0]],
            map[1 := Proc(NoFault, ChildMapped(2, 0, Bits(false, true, false), true))], map[2 := 1])
  }

  function OlderCopied(): Machine {
    var s := OlderWindow();
    Machine(s.pt[Key(1, TEMP) := Pte(9, Bits(true, false, false))], s.mem[9 := [0]],
            map[1 := Proc(Copied(0), s.proc[1].fork)], s.parent)
  }

  function OlderEnd(): Machine {
    var s := OlderWindow();
    Machine(s.pt[Key(1, 0) := Pte(9, Bits(true, false, false))], s.mem[9 := [9]], s.proc, s.parent)
  }

  lemma Prepend(s: Machine, a: Step, rest: seq<Step>)
    requires Enabled(s, a) && CanRun(Apply(s, a), rest)
    ensures CanRun(s, [a] + rest) && After(s, [a] + rest) == After(Apply(s, a), rest)
  {
    assert ([a] + rest)[1..] == rest;
  }

  lemma {:induction false} RunAppend(s: Machine, a: seq<Step>, b: seq<Step>)
    requires CanRun(s, a) && CanRun(After(s, a), b)
    ensures CanRun(s, a + b) && After(s, a + b) == After(After(s, a), b)
    decreases |a|
  {
    if a == [] {
      assert a + b == b;
    } else {
      RunAppend(Apply(s, a[0]), a[1..], b);
      Prepend(s, a[0], a[1..] + b);
      assert [a[0]] + (a[1..] + b) == a + b;
    }
  }

  lemma Three(s: Machine, a: Step, b: Step, c: Step)
    requires Enabled(s, a) && Enabled(Apply(s, a), b) && Enabled(Apply(Apply(s, a), b), c)
    ensures CanRun(s, [a, b, c]) && After(s, [a, b, c]) == Apply(Apply(Apply(s, a), b), c)
  {
    Prepend(Apply(Apply(s, a), b), c, []);
    Prepend(Apply(s, a), b, [c]);
    Prepend(s, a, [b] + [c]);
    assert [a] + ([b] + [c]) == [a, b, c];
  }

  lemma OlderFirstCall()
    ensures CanRun(OlderStart(), OlderFirst()) && After(OlderStart(), OlderFirst()) == OlderWindow()
  {
    var s1 := Apply(OlderStart(), ForkBegin(1, 2));
    assert Apply(Apply(s1, ReadPerm(1)), MapChild(1)) == OlderWindow();
    Three(OlderStart(), ForkBegin(1, 2), ReadPerm(1), MapChild(1));
  }

  lemma OlderFaultCopy()
    ensures CanRun(OlderWindow(), OlderCopy()) && After(OlderWindow(), OlderCopy()) == OlderCopied()
  {
    var s1 := Apply(OlderWindow(), FaultAlloc(1, 0, 9));
    assert Apply(s1, FaultCopy(1)) == OlderCopied();
    Prepend(s1, FaultCopy(1), []);
    Prepend(OlderWindow(), FaultAlloc(1, 0, 9), [FaultCopy(1)]);
  }

  lemma OlderFaultUse()
    ensures CanRun(OlderCopied(), OlderUse()) && After(OlderCopied(), OlderUse()) == OlderEnd()
  {
    var s2 := Apply(Apply(OlderCopied(), FaultRemap(1)), FaultUnmap(1));
    assert Poke([0], 0, 9) == [9];
    assert Apply(s2, Store(1, 0, 0, 9)) == OlderEnd();
    Three(OlderCopied(), FaultRemap(1), FaultUnmap(1), Store(1, 0, 0, 9));
  }

  lemma OlderRun()
    ensures CanRun(OlderStart(), OlderFirst() + OlderCopy() + OlderUse())
    ensures After(OlderStart(), OlderFirst() + OlderCopy() + OlderUse()) == OlderEnd()
  {
    OlderFirstCall();
    OlderFaultCopy();
    OlderFaultUse();
    RunAppend(OlderStart(), OlderFirst(), OlderCopy());
    RunAppend(OlderStart(), OlderFirst() + OlderCopy(), OlderUse());
  }

  lemma CopyMayBeOlder()
    ensures Quiet(OlderStart()) && CanRun(OlderStart(), OlderFirst() + OlderCopy() + OlderUse())
    ensures var second := After(OlderStart(), OlderFirst() + OlderCopy() + OlderUse());
            && Enabled(second, MapSelf(1))
            && Key(1, 0) in second.pt && second.pt[Key(1, 0)].frame in second.mem
            && Key(2, 0) in second.pt && second.pt[Key(2, 0)].frame in second.mem
            && Seen(second, Key(1, 0)).content == [9] && Seen(second, Key(2, 0)).content == [0]
  {
    OlderRun();
  }

  // ---------------------------------------------------------------- the child gets every page

  ghost predicate SamePage(s: Machine, x: Key, y: Key) {
    && (x in s.pt <==> y in s.pt)
    && (x in s.pt ==>
          && s.pt[x].bits.share == s.pt[y].bits.share
          && (s.pt[x].bits.w || s.pt[x].bits.cow <==> s.pt[y].bits.w || s.pt[y].bits.cow))
  }

  // The pages behind the scan are mapped in the child as in the parent.
  ghost predicate Covered(s: Machine, e: nat, v: nat)
    requires e in s.proc
  {
    var f := s.proc[e].fork;
    !f.NoFork? && v != TEMP && v != XSTACK && v < f.va ==> SamePage(s, Key(e, v), Key(f.child, v))
  }

  lemma CoveredStep(s: Machine, a: Step, e: nat, v: nat)
    requires Inv(s) && Enabled(s, a) && e in s.proc && Covered(s, e, v)
    ensures e in Apply(s, a).proc && Covered(Apply(s, a), e, v)
  {
    assert ForkOk(s, e);
    assert a.e in s.proc && ForkOk(s, a.e) && FaultOk(s, a.e);
    assert a.MapChild? ==> KeyOk(s, Key(a.e, s.proc[a.e].fork.va));
    assert a == ReadPerm(e) && Key(s.proc[e].fork.child, s.proc[e].fork.va) in s.pt ==>
        KeyOk(s, Key(s.proc[e].fork.child, s.proc[e].fork.va));
  }

  lemma {:induction false} CoveredRun(s: Machine, steps: seq<Step>, e: nat, v: nat)
    requires Inv(s) && CanRun(s, steps) && e in After(s, steps).proc
    requires e in s.proc ==> Covered(s, e, v)
    ensures Covered(After(s, steps), e, v)
    decreases |steps|
  {
    if steps != [] {
      StepKeeps(s, steps[0]);
      if e in s.proc { CoveredStep(s, steps[0], e, v); }
      CoveredRun(Apply(s, steps[0]), steps[1..], e, v);
    }
  }

  lemma EndCovers(s: Machine, e: nat, frame: nat, v: nat)
    requires Inv(s) && Enabled(s, ForkEnd(e, frame)) && Covered(s, e, v) && v < USER_PAGES
    ensures SamePage(Apply(s, ForkEnd(e, frame)), Key(e, v), Key(s.proc[e].fork.child, v))
  {
    assert ForkOk(s, e) && FaultOk(s, e) && StackOk(s, e);
    var y := Key(s.proc[e].fork.child, TEMP);
    assert y in s.pt ==> KeyOk(s, y);
  }

  // When fork returns, the child has exactly the parent's pages, each as writable and as
  // shared as the parent's, and an exception stack of its own.
  lemma ForkCopiesEveryPage(s: Machine, steps: seq<Step>, e: nat, frame: nat, v: nat)
    requires Quiet(s) && CanRun(s, steps) && Enabled(After(s, steps), ForkEnd(e, frame)) && v < 0xe_ec00
    ensures var t := Apply(After(s, steps), ForkEnd(e, frame));
            var c := After(s, steps).proc[e].fork.child;
            && c in t.proc && SamePage(t, Key(e, v), Key(c, v))
            && (v == 0xe_ebff ==>
                  Key(c, v) in t.pt && t.pt[Key(c, v)].frame in t.mem && Seen(t, Key(c, v)) == Sight(ZeroContent(), true))
  {
    QuietStart(s);
    RunSimulates(s, Copies(s), steps);
    CoveredRun(s, steps, e, v);
    assert v < USER_PAGES && (v == XSTACK <==> v == 0xe_ebff);
    EndCovers(After(s, steps), e, frame, v);
  }
}
