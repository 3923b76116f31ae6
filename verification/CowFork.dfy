/** lib/fork.c: fork, duppage and pgfault as a machine whose steps are the single system calls
    and stores that these functions are made of, interleaved in any order between any number
    of environments; and the machine it pretends to be, in which fork copies every page.

    Virtual addresses are page numbers.  A frame number names a physical page; the tables are
    the flat maps that AddressSpaces proves the two-level tables to be. */
module CowFork {

  // PGNUM(PFTEMP) and PGNUM(UXSTACKTOP - PGSIZE), and how many pages lie below UTOP
  const TEMP: nat := 0x7ff
  const XSTACK: nat := USER_PAGES - 1
  const USER_PAGES: nat := 955 * 1024

  // the words of a page
  type Content = seq<nat>

  // The bits duppage looks at: PTE_W, PTE_COW and PTE_SHARE.
  datatype Bits = Bits(w: bool, cow: bool, share: bool)
  datatype Pte = Pte(frame: nat, bits: Bits)
  datatype Key = Key(env: nat, va: nat)

  // Where an environment is in pgfault: after sys_page_alloc, memmove and sys_page_map.
  datatype FaultPc = NoFault | HaveTemp(va: nat) | Copied(va: nat) | Remapped(va: nat)

  // Where an environment is in fork: at the top of the loop, after reading uvpt[pn], and
  // between the two sys_page_map calls.  `snap` is ghost: the parent's mapping was not
  // writable when the child got its own.
  datatype ForkPc =
    | NoFork
    | Scan(child: nat, va: nat)
    | PermRead(child: nat, va: nat, perm: Bits)
    | ChildMapped(child: nat, va: nat, perm: Bits, snap: bool)

  datatype Proc = Proc(fault: FaultPc, fork: ForkPc)

  datatype Machine = Machine(
    pt: map<Key, Pte>,
    mem: map<nat, Content>,
    proc: map<nat, Proc>,      // the environments that have been started
    parent: map<nat, nat>      // env_parent_id
  )

  datatype Step =
    | Store(e: nat, va: nat, off: nat, value: nat)
    | FaultAlloc(e: nat, va: nat, frame: nat)
    | FaultCopy(e: nat)
    | FaultRemap(e: nat)
    | FaultUnmap(e: nat)
    | ForkBegin(e: nat, child: nat)
    | ReadPerm(e: nat)
    | MapChild(e: nat)
    | MapSelf(e: nat)
    | ForkEnd(e: nat, frame: nat)

  function Poke(c: Content, off: nat, value: nat): Content {
    if off < |c| then c[off := value] else c
  }

  function ZeroContent(): Content { seq(1024, i => 0) }

  // The permission duppage passes on.
  function DupPerm(b: Bits): Bits {
    if b.share then b else if b.w then Bits(false, true, false) else b
  }

  predicate Unmapped(s: Machine, frame: nat) {
    forall k :: k in s.pt ==> s.pt[k].frame != frame
  }

  // ---------------------------------------------------------------- steps

  predicate Idle(s: Machine, e: nat) { e in s.proc && s.proc[e].fault.NoFault? }

  predicate Enabled(s: Machine, a: Step) {
    match a
    // the hardware lets the store through; inside pgfault only the exception stack is written
    case Store(e, va, off, value) =>
      && e in s.proc && Key(e, va) in s.pt && s.pt[Key(e, va)].bits.w && s.pt[Key(e, va)].frame in s.mem
      && va != TEMP && (s.proc[e].fault.NoFault? || va == XSTACK)
    // the store faults on a copy-on-write page; sys_page_alloc(0, PFTEMP)
    case FaultAlloc(e, va, frame) =>
      && Idle(s, e) && Key(e, va) in s.pt && !s.pt[Key(e, va)].bits.w && s.pt[Key(e, va)].bits.cow
      && Unmapped(s, frame)
    case FaultCopy(e) =>
      && e in s.proc && s.proc[e].fault.HaveTemp?
      && Key(e, TEMP) in s.pt && Key(e, s.proc[e].fault.va) in s.pt && s.pt[Key(e, s.proc[e].fault.va)].frame in s.mem
    case FaultRemap(e) =>
      e in s.proc && s.proc[e].fault.Copied? && Key(e, TEMP) in s.pt
    case FaultUnmap(e) =>
      e in s.proc && s.proc[e].fault.Remapped?
    // sys_exofork: the child is an environment nobody has seen yet
    case ForkBegin(e, child) =>
      && Idle(s, e) && s.proc[e].fork.NoFork? && child !in s.proc && child !in s.parent
      && forall k :: k in s.pt ==> k.env != child
    case ReadPerm(e) =>
      Idle(s, e) && s.proc[e].fork.Scan? && s.proc[e].fork.va < USER_PAGES
    case MapChild(e) =>
      Idle(s, e) && s.proc[e].fork.PermRead? && Key(e, s.proc[e].fork.va) in s.pt
    case MapSelf(e) =>
      Idle(s, e) && s.proc[e].fork.ChildMapped? && Key(e, s.proc[e].fork.va) in s.pt
    case ForkEnd(e, frame) =>
      Idle(s, e) && s.proc[e].fork.Scan? && s.proc[e].fork.va >= USER_PAGES && Unmapped(s, frame)
  }

  function SetFault(s: Machine, e: nat, f: FaultPc): map<nat, Proc>
    requires e in s.proc
  {
    s.proc[e := Proc(f, s.proc[e].fork)]
  }

  function SetFork(s: Machine, e: nat, f: ForkPc): map<nat, Proc>
    requires e in s.proc
  {
    s.proc[e := Proc(s.proc[e].fault, f)]
  }

  function Apply(s: Machine, a: Step): Machine
    requires Enabled(s, a)
  {
    match a
    case Store(e, va, off, value) =>
      var f := s.pt[Key(e, va)].frame;
      Machine(s.pt, s.mem[f := Poke(s.mem[f], off, value)], s.proc, s.parent)
    case FaultAlloc(e, va, frame) =>
      Machine(s.pt[Key(e, TEMP) := Pte(frame, Bits(true, false, false))], s.mem[frame := ZeroContent()],
              SetFault(s, e, HaveTemp(va)), s.parent)
    case FaultCopy(e) =>
      var va := s.proc[e].fault.va;
      Machine(s.pt, s.mem[s.pt[Key(e, TEMP)].frame := s.mem[s.pt[Key(e, va)].frame]],
              SetFault(s, e, Copied(va)), s.parent)
    case FaultRemap(e) =>
      var va := s.proc[e].fault.va;
      Machine(s.pt[Key(e, va) := Pte(s.pt[Key(e, TEMP)].frame, Bits(true, false, false))], s.mem,
              SetFault(s, e, Remapped(va)), s.parent)
    case FaultUnmap(e) =>
      Machine(s.pt - {Key(e, TEMP)}, s.mem, SetFault(s, e, NoFault), s.parent)
    case ForkBegin(e, child) =>
      Machine(s.pt, s.mem, SetFork(s, e, Scan(child, 0)), s.parent[child := e])
    case ReadPerm(e) =>
      var Scan(c, va) := s.proc[e].fork;
      Machine(s.pt, s.mem,
        SetFork(s, e,
          if va == XSTACK || Key(e, va) !in s.pt then Scan(c, va + 1)
          else PermRead(c, va, DupPerm(s.pt[Key(e, va)].bits))),
        s.parent)
    case MapChild(e) =>
      var PermRead(c, va, perm) := s.proc[e].fork;
      Machine(s.pt[Key(c, va) := Pte(s.pt[Key(e, va)].frame, perm)], s.mem,
        SetFork(s, e, if perm.cow then ChildMapped(c, va, perm, !s.pt[Key(e, va)].bits.w) else Scan(c, va + 1)),
        s.parent)
    case MapSelf(e) =>
      var ChildMapped(c, va, perm, snap) := s.proc[e].fork;
      Machine(s.pt[Key(e, va) := Pte(s.pt[Key(e, va)].frame, perm)], s.mem, SetFork(s, e, Scan(c, va + 1)), s.parent)
    case ForkEnd(e, frame) =>
      var c := s.proc[e].fork.child;
      Machine(s.pt[Key(c, XSTACK) := Pte(frame, Bits(true, false, false))], s.mem[frame := ZeroContent()],
              SetFork(s, e, NoFork)[c := Proc(NoFault, NoFork)], s.parent)
  }

  // ---------------------------------------------------------------- the machine that copies

  datatype Own = Own(content: Content, writable: bool)

  // Every private page is its environment's own; pages marked PTE_SHARE are common cells.
  datatype Eager = Eager(own: map<Key, Own>, link: map<Key, nat>, common: map<nat, Content>)

  datatype Event =
    | Silent
    | Written(k: Key, off: nat, value: nat)
    | CopiedTo(src: Key, dst: Key)
    | LinkedTo(src: Key, dst: Key)
    | NewStack(k: Key)

  // What a step means to the copying machine.  The child gets its copy when it is mapped,
  // unless the parent could still write the page in place; then at the second sys_page_map.
  function EventOf(s: Machine, a: Step): Event
    requires Enabled(s, a)
  {
    match a
    case Store(e, va, off, value) => Written(Key(e, va), off, value)
    case MapChild(e) =>
      var PermRead(c, va, perm) := s.proc[e].fork;
      if perm.share then LinkedTo(Key(e, va), Key(c, va))
      else if perm.cow && s.pt[Key(e, va)].bits.w then Silent
      else CopiedTo(Key(e, va), Key(c, va))
    case MapSelf(e) =>
      var ChildMapped(c, va, perm, snap) := s.proc[e].fork;
      if snap then Silent else CopiedTo(Key(e, va), Key(c, va))
    case ForkEnd(e, frame) => NewStack(Key(s.proc[e].fork.child, XSTACK))
    case _ => Silent
  }

  function Meaning(g: Eager, ev: Event): Eager {
    match ev
    case Silent => g
    case Written(k, off, value) =>
      if k in g.own then
        Eager(g.own[k := Own(Poke(g.own[k].content, off, value), g.own[k].writable)], g.link, g.common)
      else if k in g.link && g.link[k] in g.common then
        Eager(g.own, g.link, g.common[g.link[k] := Poke(g.common[g.link[k]], off, value)])
      else g
    case CopiedTo(src, dst) =>
      if src in g.own then Eager(g.own[dst := g.own[src]], g.link, g.common) else g
    case LinkedTo(src, dst) =>
      if src in g.link then Eager(g.own, g.link[dst := g.link[src]], g.common) else g
    case NewStack(k) => Eager(g.own[k := Own(ZeroContent(), true)], g.link, g.common)
  }

  // ---------------------------------------------------------------- the invariant

  // (c, va) is mapped but its copy is still to be taken.
  ghost predicate Pending(s: Machine, k: Key) {
    && k.env in s.parent && s.parent[k.env] in s.proc
    && var f := s.proc[s.parent[k.env]].fork;
       f.ChildMapped? && f.child == k.env && f.va == k.va && !f.snap
  }

  // x may be writable although y maps the same frame: between duppage's two calls, or between
  // pgfault's last two.
  ghost predicate Window(s: Machine, x: Key, y: Key) {
    || (Pending(s, y) && x == Key(s.parent[y.env], y.va))
    || (x.env in s.proc && y == Key(x.env, TEMP) && s.proc[x.env].fault == Remapped(x.va))
    || (y.env in s.proc && x == Key(y.env, TEMP) && s.proc[y.env].fault == Remapped(y.va))
  }

  // One frame is shared or private for all who map it, and a private frame that anybody can
  // write is mapped once, except in a window.
  ghost predicate Exclusive(s: Machine, x: Key, y: Key)
    requires x in s.pt && y in s.pt
  {
    x != y && s.pt[x].frame == s.pt[y].frame ==>
      && s.pt[x].bits.share == s.pt[y].bits.share
      && (!s.pt[x].bits.share && s.pt[x].bits.w ==> Window(s, x, y))
  }

  ghost predicate KeyOk(s: Machine, k: Key)
    requires k in s.pt
  {
    && s.pt[k].frame in s.mem
    && !(s.pt[k].bits.cow && s.pt[k].bits.w) && !(s.pt[k].bits.cow && s.pt[k].bits.share)
    && (k.env in s.proc || (k.env in s.parent && s.parent[k.env] in s.proc && InChildOf(s, s.parent[k.env], k)))
  }

  // A mapping of an environment that has not been started lies behind its parent's scan.
  ghost predicate InChildOf(s: Machine, e: nat, k: Key)
    requires e in s.proc
  {
    match s.proc[e].fork
    case NoFork => false
    case Scan(c, va) => c == k.env && k.va < va && k.va != XSTACK && k.va != TEMP
    case PermRead(c, va, perm) => c == k.env && k.va < va && k.va != XSTACK && k.va != TEMP
    case ChildMapped(c, va, perm, snap) => c == k.env && k.va <= va && k.va != XSTACK && k.va != TEMP
  }

  ghost predicate FaultOk(s: Machine, e: nat)
    requires e in s.proc
  {
    match s.proc[e].fault
    case NoFault => Key(e, TEMP) !in s.pt
    case HaveTemp(va) => TempOk(s, e, va) && CowAt(s, Key(e, va))
    case Copied(va) =>
      && TempOk(s, e, va) && CowAt(s, Key(e, va))
      && s.pt[Key(e, TEMP)].frame in s.mem && s.pt[Key(e, va)].frame in s.mem
      && s.mem[s.pt[Key(e, TEMP)].frame] == s.mem[s.pt[Key(e, va)].frame]
    case Remapped(va) =>
      && TempOk(s, e, va) && Key(e, va) in s.pt
      && s.pt[Key(e, va)] == Pte(s.pt[Key(e, TEMP)].frame, Bits(true, false, false))
  }

  ghost predicate TempOk(s: Machine, e: nat, va: nat) {
    va != TEMP && va != XSTACK && Key(e, TEMP) in s.pt && s.pt[Key(e, TEMP)].bits == Bits(true, false, false)
  }

  ghost predicate CowAt(s: Machine, k: Key) {
    k in s.pt && s.pt[k].bits == Bits(false, true, false)
  }

  ghost predicate ForkOk(s: Machine, e: nat)
    requires e in s.proc
  {
    var f := s.proc[e].fork;
    && (!f.NoFork? ==> f.child !in s.proc && f.child in s.parent && s.parent[f.child] == e)
    && (f.PermRead? ==>
          && f.va != XSTACK && f.va != TEMP && Key(e, f.va) in s.pt
          && var b := s.pt[Key(e, f.va)].bits;
             && f.perm.share == b.share
             && (b.share ==> f.perm == b)
             && (!b.share ==> !f.perm.w && f.perm.cow == (b.w || b.cow)))
    && (f.ChildMapped? ==>
          && f.va != XSTACK && f.va != TEMP && Key(e, f.va) in s.pt && Key(f.child, f.va) in s.pt
          && f.perm == Bits(false, true, false) && CowAt(s, Key(f.child, f.va)) && !s.pt[Key(e, f.va)].bits.share
          && (s.pt[Key(e, f.va)].bits.w || s.pt[Key(e, f.va)].bits.cow)
          && (!f.snap ==> s.pt[Key(e, f.va)] == Pte(s.pt[Key(f.child, f.va)].frame, Bits(true, false, false))))
  }

  // Each started environment has a private writable exception stack.
  ghost predicate StackOk(s: Machine, e: nat) {
    Key(e, XSTACK) in s.pt && s.pt[Key(e, XSTACK)].bits == Bits(true, false, false)
  }

  // What the copying machine holds for a mapping.
  ghost predicate Agrees(s: Machine, g: Eager, k: Key)
    requires k in s.pt
  {
    var p := s.pt[k];
    if p.bits.share then
      k !in g.own && k in g.link && g.link[k] in g.common && p.frame in s.mem && s.mem[p.frame] == g.common[g.link[k]]
    else if k.va == TEMP || Pending(s, k) then
      k !in g.own && k !in g.link
    else
      && k in g.own && k !in g.link && p.frame in s.mem && s.mem[p.frame] == g.own[k].content
      && g.own[k].writable == (p.bits.w || p.bits.cow)
  }

  ghost predicate LinksMatch(s: Machine, g: Eager, x: Key, y: Key)
    requires x in s.pt && y in s.pt
  {
    s.pt[x].bits.share && s.pt[y].bits.share && x in g.link && y in g.link ==>
      (s.pt[x].frame == s.pt[y].frame <==> g.link[x] == g.link[y])
  }

  ghost predicate Inv(s: Machine) {
    && (forall k {:trigger KeyOk(s, k)} :: k in s.pt ==> KeyOk(s, k))
    && (forall x, y {:trigger Exclusive(s, x, y)} :: x in s.pt && y in s.pt ==> Exclusive(s, x, y))
    && (forall e {:trigger FaultOk(s, e)} :: e in s.proc ==> FaultOk(s, e))
    && (forall e {:trigger ForkOk(s, e)} :: e in s.proc ==> ForkOk(s, e))
    && (forall e {:trigger StackOk(s, e)} :: e in s.proc ==> StackOk(s, e))
  }

  ghost predicate Simulates(s: Machine, g: Eager) {
    && (forall k {:trigger Agrees(s, g, k)} :: k in s.pt ==> Agrees(s, g, k))
    && (forall x, y {:trigger LinksMatch(s, g, x, y)} :: x in s.pt && y in s.pt ==> LinksMatch(s, g, x, y))
    && (forall k {:trigger k in g.own} :: k in g.own ==> k in s.pt)
    && (forall k {:trigger k in g.link} :: k in g.link ==> k in s.pt)
  }
}
