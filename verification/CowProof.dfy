/** Copy-on-write fork simulates eager copying: every step of CowFork keeps its invariant and
    its agreement with the machine that copies. */
module CowProof {
  import opened CowFork

  // ---------------------------------------------------------------- a store

  lemma StartedNotPending(s: Machine, k: Key)
    requires Inv(s) && k.env in s.proc
    ensures !Pending(s, k)
  {
    if k.env in s.parent && s.parent[k.env] in s.proc { assert ForkOk(s, s.parent[k.env]); }
  }

  // A page that can be written in place is seen by nobody else, except in a window.
  lemma StoreSeen(s: Machine, x: Key, k: Key)
    requires Inv(s) && x in s.pt && k in s.pt && x != k && s.pt[x].frame == s.pt[k].frame
    requires s.pt[x].bits.w && !s.pt[x].bits.share && x.va != TEMP
    ensures Pending(s, k) || k.va == TEMP
    ensures k.env in s.proc ==> k.va == TEMP && s.proc[k.env].fault.Remapped?
  {
    assert Exclusive(s, x, k);
    if Pending(s, k) { assert ForkOk(s, s.parent[k.env]); }
  }

  lemma StoreInv(s: Machine, e: nat, va: nat, off: nat, value: nat)
    requires Inv(s) && Enabled(s, Store(e, va, off, value))
    ensures Inv(Apply(s, Store(e, va, off, value)))
  {
    var t := Apply(s, Store(e, va, off, value));
    var x := Key(e, va);
    forall k | k in t.pt ensures KeyOk(t, k) { assert KeyOk(s, k); }
    forall y, z | y in t.pt && z in t.pt ensures Exclusive(t, y, z) { assert Exclusive(s, y, z); }
    forall d | d in t.proc ensures ForkOk(t, d) { assert ForkOk(s, d); }
    forall d | d in t.proc ensures StackOk(t, d) { assert StackOk(s, d); }
    forall d | d in t.proc ensures FaultOk(t, d) {
      assert FaultOk(s, d) && KeyOk(s, x);
      if s.proc[d].fault.Copied? {
        var k := Key(d, s.proc[d].fault.va);
        assert Exclusive(s, Key(d, TEMP), x) && Exclusive(s, k, x) && Exclusive(s, x, k);
        StartedNotPending(s, x);
        StartedNotPending(s, k);
      }
    }
  }

  lemma StoreSim(s: Machine, g: Eager, e: nat, va: nat, off: nat, value: nat)
    requires Inv(s) && Simulates(s, g) && Enabled(s, Store(e, va, off, value))
    ensures Simulates(Apply(s, Store(e, va, off, value)), Meaning(g, Written(Key(e, va), off, value)))
  {
    var t := Apply(s, Store(e, va, off, value));
    var x := Key(e, va);
    var h := Meaning(g, Written(x, off, value));
    assert Agrees(s, g, x);
    forall y, z | y in t.pt && z in t.pt ensures LinksMatch(t, h, y, z) { assert LinksMatch(s, g, y, z); }
    StartedNotPending(s, x);
    forall k | k in t.pt ensures Agrees(t, h, k) {
      assert Agrees(s, g, k) && Exclusive(s, x, k) && Pending(t, k) == Pending(s, k);
      assert LinksMatch(s, g, x, k);
      if s.pt[k].frame == s.pt[x].frame && k != x && !s.pt[x].bits.share { StoreSeen(s, x, k); }
    }
  }

  // ---------------------------------------------------------------- pgfault

  lemma FaultAllocInv(s: Machine, e: nat, va: nat, frame: nat)
    requires Inv(s) && Enabled(s, FaultAlloc(e, va, frame))
    ensures Inv(Apply(s, FaultAlloc(e, va, frame)))
  {
    var t := Apply(s, FaultAlloc(e, va, frame));
    assert FaultOk(s, e) && KeyOk(s, Key(e, va)) && StackOk(s, e);
    forall k | k in t.pt ensures KeyOk(t, k) { if k != Key(e, TEMP) { assert KeyOk(s, k); } }
    forall y, z | y in t.pt && z in t.pt ensures Exclusive(t, y, z) {
      if y != Key(e, TEMP) && z != Key(e, TEMP) { assert Exclusive(s, y, z); }
    }
    forall d | d in t.proc ensures ForkOk(t, d) { assert ForkOk(s, d); }
    forall d | d in t.proc ensures StackOk(t, d) { assert StackOk(s, d); }
    forall d | d in t.proc ensures FaultOk(t, d) { assert FaultOk(s, d); }
  }

  lemma FaultAllocSim(s: Machine, g: Eager, e: nat, va: nat, frame: nat)
    requires Inv(s) && Simulates(s, g) && Enabled(s, FaultAlloc(e, va, frame))
    ensures Simulates(Apply(s, FaultAlloc(e, va, frame)), g)
  {
    var t := Apply(s, FaultAlloc(e, va, frame));
    assert FaultOk(s, e);
    forall k | k in t.pt ensures Agrees(t, g, k) {
      assert Pending(t, k) == Pending(s, k);
      if k != Key(e, TEMP) { assert Agrees(s, g, k); }
    }
    forall y, z | y in t.pt && z in t.pt ensures LinksMatch(t, g, y, z) {
      if y != Key(e, TEMP) && z != Key(e, TEMP) { assert LinksMatch(s, g, y, z); }
    }
  }

  lemma FaultCopyInv(s: Machine, e: nat)
    requires Inv(s) && Enabled(s, FaultCopy(e))
    ensures Inv(Apply(s, FaultCopy(e)))
  {
    var t := Apply(s, FaultCopy(e));
    var x := Key(e, TEMP);
    assert FaultOk(s, e) && KeyOk(s, x);
    StartedNotPending(s, x);
    forall k | k in t.pt ensures KeyOk(t, k) { assert KeyOk(s, k); }
    forall y, z | y in t.pt && z in t.pt ensures Exclusive(t, y, z) { assert Exclusive(s, y, z); }
    forall d | d in t.proc ensures ForkOk(t, d) { assert ForkOk(s, d); }
    forall d | d in t.proc ensures StackOk(t, d) { assert StackOk(s, d); }
    forall d | d in t.proc ensures FaultOk(t, d) {
      assert FaultOk(s, d);
      if s.proc[d].fault.Copied? {
        assert Exclusive(s, x, Key(d, TEMP)) && Exclusive(s, x, Key(d, s.proc[d].fault.va));
        StartedNotPending(s, Key(d, TEMP));
        StartedNotPending(s, Key(d, s.proc[d].fault.va));
      }
    }
  }

  lemma FaultCopySim(s: Machine, g: Eager, e: nat)
    requires Inv(s) && Simulates(s, g) && Enabled(s, FaultCopy(e))
    ensures Simulates(Apply(s, FaultCopy(e)), g)
  {
    var t := Apply(s, FaultCopy(e));
    var x := Key(e, TEMP);
    assert FaultOk(s, e);
    forall k | k in t.pt ensures Agrees(t, g, k) {
      assert Pending(t, k) == Pending(s, k);
      assert Agrees(s, g, k) && Exclusive(s, x, k);
      PendingVa(s, k);
    }
    forall y, z | y in t.pt && z in t.pt ensures LinksMatch(t, g, y, z) { assert LinksMatch(s, g, y, z); }
  }

  lemma PendingVa(s: Machine, k: Key)
    requires Inv(s)
    ensures Pending(s, k) ==> k.va != TEMP && k.env !in s.proc
  {
    if k.env in s.parent && s.parent[k.env] in s.proc { assert ForkOk(s, s.parent[k.env]); }
  }

  // Before the copy is mapped, the page at PFTEMP is mapped nowhere else.
  lemma TempAlone(s: Machine, e: nat, k: Key)
    requires Inv(s) && e in s.proc && (s.proc[e].fault.HaveTemp? || s.proc[e].fault.Copied?) && k in s.pt && k != Key(e, TEMP)
    ensures Key(e, TEMP) in s.pt && s.pt[k].frame != s.pt[Key(e, TEMP)].frame
  {
    assert FaultOk(s, e);
    assert Exclusive(s, Key(e, TEMP), k);
    PendingVa(s, k);
  }

  lemma FaultRemapInv(s: Machine, e: nat)
    requires Inv(s) && Enabled(s, FaultRemap(e))
    ensures Inv(Apply(s, FaultRemap(e)))
  {
    var t := Apply(s, FaultRemap(e));
    var x, temp := Key(e, s.proc[e].fault.va), Key(e, TEMP);
    assert FaultOk(s, e) && KeyOk(s, temp) && KeyOk(s, x) && ForkOk(s, e);
    forall k | k in t.pt ensures KeyOk(t, k) { assert KeyOk(s, k); }
    forall y, z | y in t.pt && z in t.pt ensures Exclusive(t, y, z) {
      assert Exclusive(s, y, z);
      if y != temp { TempAlone(s, e, y); }
      if z != temp { TempAlone(s, e, z); }
    }
    forall d | d in t.proc ensures ForkOk(t, d) {
      assert ForkOk(s, d);
      if !s.proc[d].fork.NoFork? { assert s.proc[d].fork.child != e; }
    }
    forall d | d in t.proc ensures StackOk(t, d) { assert StackOk(s, d); }
    forall d | d in t.proc ensures FaultOk(t, d) { assert FaultOk(s, d); }
  }

  lemma FaultRemapSim(s: Machine, g: Eager, e: nat)
    requires Inv(s) && Simulates(s, g) && Enabled(s, FaultRemap(e))
    ensures Simulates(Apply(s, FaultRemap(e)), g)
  {
    var t := Apply(s, FaultRemap(e));
    assert FaultOk(s, e);
    StartedNotPending(s, Key(e, s.proc[e].fault.va));
    forall k | k in t.pt ensures Agrees(t, g, k) {
      assert Agrees(s, g, k) && Pending(t, k) == Pending(s, k);
    }
    forall y, z | y in t.pt && z in t.pt ensures LinksMatch(t, g, y, z) { assert LinksMatch(s, g, y, z); }
  }

  lemma FaultUnmapInv(s: Machine, e: nat)
    requires Inv(s) && Enabled(s, FaultUnmap(e))
    ensures Inv(Apply(s, FaultUnmap(e)))
  {
    var t := Apply(s, FaultUnmap(e));
    forall k | k in t.pt ensures KeyOk(t, k) { assert KeyOk(s, k); }
    forall y, z | y in t.pt && z in t.pt ensures Exclusive(t, y, z) { assert Exclusive(s, y, z); }
    forall d | d in t.proc ensures ForkOk(t, d) { assert ForkOk(s, d); }
    forall d | d in t.proc ensures StackOk(t, d) { assert StackOk(s, d); }
    forall d | d in t.proc ensures FaultOk(t, d) { assert FaultOk(s, d); }
  }

  lemma FaultUnmapSim(s: Machine, g: Eager, e: nat)
    requires Inv(s) && Simulates(s, g) && Enabled(s, FaultUnmap(e))
    ensures Simulates(Apply(s, FaultUnmap(e)), g)
  {
    var t := Apply(s, FaultUnmap(e));
    assert FaultOk(s, e) && Agrees(s, g, Key(e, TEMP));
    forall k | k in t.pt ensures Agrees(t, g, k) {
      assert Agrees(s, g, k) && Pending(t, k) == Pending(s, k);
    }
    forall y, z | y in t.pt && z in t.pt ensures LinksMatch(t, g, y, z) { assert LinksMatch(s, g, y, z); }
  }

  // ---------------------------------------------------------------- fork

  lemma ForkBeginInv(s: Machine, e: nat, child: nat)
    requires Inv(s) && Enabled(s, ForkBegin(e, child))
    ensures Inv(Apply(s, ForkBegin(e, child)))
  {
    var t := Apply(s, ForkBegin(e, child));
    forall k | k in t.pt ensures KeyOk(t, k) { assert KeyOk(s, k); }
    forall y, z | y in t.pt && z in t.pt ensures Exclusive(t, y, z) { assert Exclusive(s, y, z); }
    forall d | d in t.proc ensures ForkOk(t, d) { assert ForkOk(s, d); }
    forall d | d in t.proc ensures StackOk(t, d) { assert StackOk(s, d); }
    forall d | d in t.proc ensures FaultOk(t, d) { assert FaultOk(s, d); }
  }

  lemma ForkBeginSim(s: Machine, g: Eager, e: nat, child: nat)
    requires Inv(s) && Simulates(s, g) && Enabled(s, ForkBegin(e, child))
    ensures Simulates(Apply(s, ForkBegin(e, child)), g)
  {
    var t := Apply(s, ForkBegin(e, child));
    forall k | k in t.pt ensures Agrees(t, g, k) {
      assert Agrees(s, g, k) && Pending(t, k) == Pending(s, k);
    }
    forall y, z | y in t.pt && z in t.pt ensures LinksMatch(t, g, y, z) { assert LinksMatch(s, g, y, z); }
  }

  lemma ReadPermInv(s: Machine, e: nat)
    requires Inv(s) && Enabled(s, ReadPerm(e))
    ensures Inv(Apply(s, ReadPerm(e)))
  {
    var t := Apply(s, ReadPerm(e));
    assert ForkOk(s, e) && FaultOk(s, e);
    forall k | k in t.pt ensures KeyOk(t, k) { assert KeyOk(s, k); }
    forall y, z | y in t.pt && z in t.pt ensures Exclusive(t, y, z) { assert Exclusive(s, y, z); }
    forall d | d in t.proc ensures ForkOk(t, d) { assert ForkOk(s, d); }
    forall d | d in t.proc ensures StackOk(t, d) { assert StackOk(s, d); }
    forall d | d in t.proc ensures FaultOk(t, d) { assert FaultOk(s, d); }
  }

  lemma ReadPermSim(s: Machine, g: Eager, e: nat)
    requires Inv(s) && Simulates(s, g) && Enabled(s, ReadPerm(e))
    ensures Simulates(Apply(s, ReadPerm(e)), g)
  {
    var t := Apply(s, ReadPerm(e));
    forall k | k in t.pt ensures Agrees(t, g, k) {
      assert Agrees(s, g, k) && Pending(t, k) == Pending(s, k);
    }
    forall y, z | y in t.pt && z in t.pt ensures LinksMatch(t, g, y, z) { assert LinksMatch(s, g, y, z); }
  }

  // Outside pgfault, whoever maps the same private page as a started environment and can
  // write it, does so in no window.
  lemma NobodyWrites(s: Machine, p: Key, y: Key)
    requires Inv(s) && Idle(s, p.env) && p in s.pt && y in s.pt && y != p && p.va != TEMP && s.pt[y].frame == s.pt[p].frame
    ensures s.pt[y].bits.share == s.pt[p].bits.share
    ensures !s.pt[y].bits.share ==> !s.pt[y].bits.w
  {
    assert Exclusive(s, y, p) && FaultOk(s, p.env);
    StartedNotPending(s, p);
  }

  lemma ChildSlotFree(s: Machine, e: nat)
    requires Inv(s) && e in s.proc && s.proc[e].fork.PermRead?
    ensures Key(s.proc[e].fork.child, s.proc[e].fork.va) !in s.pt
  {
    var x := Key(s.proc[e].fork.child, s.proc[e].fork.va);
    assert ForkOk(s, e);
    assert x in s.pt ==> KeyOk(s, x);
  }

  lemma MapChildInv(s: Machine, e: nat)
    requires Inv(s) && Enabled(s, MapChild(e))
    ensures Inv(Apply(s, MapChild(e)))
  {
    var t := Apply(s, MapChild(e));
    var PermRead(c, va, perm) := s.proc[e].fork;
    var x, p := Key(c, va), Key(e, va);
    ChildSlotFree(s, e);
    assert ForkOk(s, e) && FaultOk(s, e) && KeyOk(s, p);
    forall k | k in t.pt ensures KeyOk(t, k) { if k != x { assert KeyOk(s, k); } }
    forall y, z | y in t.pt && z in t.pt ensures Exclusive(t, y, z) {
      if y != x && z != x {
        assert Exclusive(s, y, z);
        assert Pending(s, z) ==> Pending(t, z);
      } else if y == x && z != x && z != p {
        if s.pt[z].frame == s.pt[p].frame { NobodyWrites(s, p, z); }
      } else if z == x && y != x && y != p {
        if s.pt[y].frame == s.pt[p].frame { NobodyWrites(s, p, y); }
      }
    }
    forall d | d in t.proc ensures ForkOk(t, d) { assert ForkOk(s, d); }
    forall d | d in t.proc ensures StackOk(t, d) { assert StackOk(s, d); }
    forall d | d in t.proc ensures FaultOk(t, d) { assert FaultOk(s, d); }
  }

  lemma MapChildSim(s: Machine, g: Eager, e: nat)
    requires Inv(s) && Simulates(s, g) && Enabled(s, MapChild(e))
    ensures Simulates(Apply(s, MapChild(e)), Meaning(g, EventOf(s, MapChild(e))))
  {
    var t := Apply(s, MapChild(e));
    var h := Meaning(g, EventOf(s, MapChild(e)));
    var PermRead(c, va, perm) := s.proc[e].fork;
    var x, p := Key(c, va), Key(e, va);
    ChildSlotFree(s, e);
    StartedNotPending(s, p);
    assert ForkOk(s, e) && KeyOk(s, p) && Agrees(s, g, p);
    forall k | k in t.pt ensures Agrees(t, h, k) {
      if k != x { assert Agrees(s, g, k) && Pending(t, k) == Pending(s, k); }
    }
    forall y, z | y in t.pt && z in t.pt ensures LinksMatch(t, h, y, z) {
      var y', z' := if y == x then p else y, if z == x then p else z;
      assert LinksMatch(s, g, y', z');
    }
  }

  lemma MapSelfInv(s: Machine, e: nat)
    requires Inv(s) && Enabled(s, MapSelf(e))
    ensures Inv(Apply(s, MapSelf(e)))
  {
    var t := Apply(s, MapSelf(e));
    var ChildMapped(c, va, perm, snap) := s.proc[e].fork;
    var x, p := Key(c, va), Key(e, va);
    assert ForkOk(s, e) && FaultOk(s, e) && KeyOk(s, p);
    forall k | k in t.pt ensures KeyOk(t, k) { assert KeyOk(s, k); }
    forall y, z | y in t.pt && z in t.pt ensures Exclusive(t, y, z) {
      assert Exclusive(s, y, z);
      assert z != x && Pending(s, z) ==> Pending(t, z);
      assert Exclusive(s, y, x);
      if z == x && y != p { PendingFrom(s, y, x); }
    }
    forall d | d in t.proc ensures ForkOk(t, d) { assert ForkOk(s, d); }
    forall d | d in t.proc ensures StackOk(t, d) { assert StackOk(s, d); }
    forall d | d in t.proc ensures FaultOk(t, d) { assert FaultOk(s, d); }
  }

  lemma PendingFrom(s: Machine, y: Key, x: Key)
    requires Inv(s) && x in s.pt && y in s.pt && x.env !in s.proc && x.va != TEMP
    ensures Window(s, y, x) ==> x.env in s.parent && y == Key(s.parent[x.env], x.va)
  {
  }

  lemma MapSelfSim(s: Machine, g: Eager, e: nat)
    requires Inv(s) && Simulates(s, g) && Enabled(s, MapSelf(e))
    ensures Simulates(Apply(s, MapSelf(e)), Meaning(g, EventOf(s, MapSelf(e))))
  {
    var t := Apply(s, MapSelf(e));
    var h := Meaning(g, EventOf(s, MapSelf(e)));
    var ChildMapped(c, va, perm, snap) := s.proc[e].fork;
    var x, p := Key(c, va), Key(e, va);
    StartedNotPending(s, p);
    assert ForkOk(s, e) && KeyOk(s, p) && KeyOk(s, x) && Agrees(s, g, p) && Agrees(s, g, x);
    forall k | k in t.pt ensures Agrees(t, h, k) {
      if k != x { assert Agrees(s, g, k) && Pending(t, k) == Pending(s, k); }
    }
    forall y, z | y in t.pt && z in t.pt ensures LinksMatch(t, h, y, z) { assert LinksMatch(s, g, y, z); }
  }

  lemma ForkEndInv(s: Machine, e: nat, frame: nat)
    requires Inv(s) && Enabled(s, ForkEnd(e, frame))
    ensures Inv(Apply(s, ForkEnd(e, frame)))
  {
    var t := Apply(s, ForkEnd(e, frame));
    var c := s.proc[e].fork.child;
    var x := Key(c, XSTACK);
    assert ForkOk(s, e);
    assert Key(c, TEMP) in s.pt ==> KeyOk(s, Key(c, TEMP));
    forall k | k in t.pt ensures KeyOk(t, k) { if k != x { assert KeyOk(s, k); } }
    forall y, z | y in t.pt && z in t.pt ensures Exclusive(t, y, z) {
      if y != x && z != x {
        assert Exclusive(s, y, z);
        assert Pending(s, z) ==> Pending(t, z);
      }
    }
    forall d | d in t.proc ensures ForkOk(t, d) { if d != c { assert ForkOk(s, d); } }
    forall d | d in t.proc ensures StackOk(t, d) { if d != c { assert StackOk(s, d); } }
    forall d | d in t.proc ensures FaultOk(t, d) {
      if d != c { assert FaultOk(s, d); }
    }
  }

  lemma ForkEndSim(s: Machine, g: Eager, e: nat, frame: nat)
    requires Inv(s) && Simulates(s, g) && Enabled(s, ForkEnd(e, frame))
    ensures Simulates(Apply(s, ForkEnd(e, frame)), Meaning(g, EventOf(s, ForkEnd(e, frame))))
  {
    var t := Apply(s, ForkEnd(e, frame));
    var h := Meaning(g, EventOf(s, ForkEnd(e, frame)));
    var x := Key(s.proc[e].fork.child, XSTACK);
    assert ForkOk(s, e);
    assert x in s.pt ==> KeyOk(s, x);
    forall k | k in t.pt ensures Agrees(t, h, k) {
      if k != x {
        assert Agrees(s, g, k) && Pending(t, k) == Pending(s, k);
      }
    }
    forall y, z | y in t.pt && z in t.pt ensures LinksMatch(t, h, y, z) {
      if y != x && z != x { assert LinksMatch(s, g, y, z); }
    }
  }
}
