/** Message passing between environments over whole runs: sys_ipc_recv and sys_ipc_try_send
    (kern/syscall.c) as the kernel executes them one at a time under its lock, and ipc_recv
    and ipc_send (lib/ipc.c), whose loads and retries interleave with them. */
module Ipc {
  import opened Mmu
  import opened EnvIds
  import opened EnvRecords

  datatype Msg = Msg(from: nat, value: Word, perm: nat)

  // Where an environment is in ipc_recv: outside; in sys_ipc_recv; after loading
  // env_ipc_from; after loading env_ipc_perm.
  datatype User = Computing | InRecv | SawFrom(from: nat) | SawPerm(from: nat, perm: nat)

  // What happened, by receiver id: a successful sys_ipc_recv call with its address, a
  // sys_ipc_try_send that returned 0, with its own address and the virtual page of the receiver
  // at which it mapped a page, an ipc_recv that returned.
  datatype Event =
    | RecvCall(r: nat, dstva: Word)
    | Sent(r: nat, m: Msg, srcva: Word, page: Option<nat>)
    | Got(r: nat, m: Msg)

  datatype State = State(envs: seq<Env>, user: seq<User>, log: seq<Event>)

  datatype Step =
    | Recv(e: nat, dstva: Word)
    | Send(e: nat, to: nat, value: Word, srcva: Word, perm: nat, inserted: bool)
    | Refused(e: nat, to: nat)
    | LoadFrom(e: nat)
    | LoadPerm(e: nat)
    | LoadValue(e: nat)
    | Dispatch(e: nat)
    | Preempt(e: nat)
    | SetStatus(e: nat, st: EnvStatus)
    | Destroy(e: nat, elsewhere: bool)
    | Collect(e: nat)
    | Alloc(e: nat, parent: nat)

  predicate Named(log: seq<Event>, id: nat) { exists i :: 0 <= i < |log| && log[i].r == id }

  predicate Shaped(s: State) { |s.user| == |s.envs| && |s.envs| <= NENV }

  // The environment is executing user code.
  predicate InUser(s: State, e: nat) {
    Shaped(s) && e < |s.envs| && (s.envs[e].status.Running? || s.envs[e].status.Dying?)
  }

  predicate Enabled(s: State, a: Step) {
    && Shaped(s) && a.e < |s.envs|
    && var env := s.envs[a.e];
       match a
       case Recv(e, dstva) =>
         env.status.Running? && s.user[e].Computing? && (dstva < UTOP ==> dstva % PGSIZE == 0)
       // the target is in use and receiving, and the page arguments have passed the checks;
       // `inserted` is what page_insert, if called, returns
       case Send(e, to, value, srcva, perm, inserted) =>
         env.status.Running? && to < |s.envs| && !s.envs[to].status.Unused? && s.envs[to].ipcRecving
       case Refused(e, to) => env.status.Running? && to < |s.envs| && !s.envs[to].ipcRecving
       case LoadFrom(e) => InUser(s, e) && s.user[e].InRecv?
       case LoadPerm(e) => InUser(s, e) && s.user[e].SawFrom?
       case LoadValue(e) => InUser(s, e) && s.user[e].SawPerm?
       case Dispatch(e) => env.status.Runnable?
       case Preempt(e) => env.status.Running?
       case SetStatus(e, st) => !env.status.Unused? && !env.status.Dying? && (st.Runnable? || st.NotRunnable?)
       case Destroy(e, elsewhere) => !env.status.Unused? && !env.status.Dying? && (elsewhere ==> env.status.Running?)
       case Collect(e) => env.status.Dying?
       // the id has not come round again (see EnvIds.StaleId)
       case Alloc(e, parent) =>
         env.status.Unused? && env.id < INT32_LIMIT && !Named(s.log, NextId(env.id, e))
  }

  function Put(s: State, e: nat, env: Env, u: User, more: seq<Event>): State
    requires e < |s.envs| == |s.user|
  {
    State(s.envs[e := env], s.user[e := u], s.log + more)
  }

  function Apply(s: State, a: Step): State
    requires Enabled(s, a)
  {
    var env, u := s.envs[a.e], s.user[a.e];
    match a
    case Recv(e, dstva) => Put(s, e, Receiving(env, dstva), InRecv, [RecvCall(env.id, dstva)])
    case Send(e, to, value, srcva, perm, inserted) =>
      var t := Delivered(s.envs[to], env.id, value);
      if WithPage(s.envs[to], srcva) && !inserted then Put(s, to, t, s.user[to], [])
      else
        var p := if WithPage(s.envs[to], srcva) then perm else 0;
        var page := if WithPage(s.envs[to], srcva) then Some(Vpn(s.envs[to].ipcDstva)) else None;
        Put(s, to, t.(ipcPerm := p), s.user[to], [Sent(t.id, Msg(env.id, value, p), srcva, page)])
    case Refused(e, to) => s
    case LoadFrom(e) => Put(s, e, env, SawFrom(env.ipcFrom), [])
    case LoadPerm(e) => Put(s, e, env, SawPerm(u.from, env.ipcPerm), [])
    case LoadValue(e) => Put(s, e, env, Computing, [Got(env.id, Msg(u.from, env.ipcValue, u.perm))])
    case Dispatch(e) => Put(s, e, env.(status := Running), u, [])
    case Preempt(e) => Put(s, e, env.(status := Runnable), u, [])
    case SetStatus(e, st) => Put(s, e, env.(status := st), u, [])
    case Destroy(e, elsewhere) => Put(s, e, env.(status := if elsewhere then Dying else Unused), u, [])
    case Collect(e) => Put(s, e, env.(status := Unused), u, [])
    case Alloc(e, parent) => Put(s, e, Allocated(env, e, parent), Computing, [])
  }

  // ---------------------------------------------------------------- what was sent and received

  function Sends(log: seq<Event>, r: nat): seq<Msg> {
    if log == [] then []
    else
      var last := log[|log| - 1];
      Sends(log[..|log| - 1], r) + if last.Sent? && last.r == r then [last.m] else []
  }

  function Gots(log: seq<Event>, r: nat): seq<Msg> {
    if log == [] then []
    else
      var last := log[|log| - 1];
      Gots(log[..|log| - 1], r) + if last.Got? && last.r == r then [last.m] else []
  }

  // The addresses r has given to its calls, and what its senders gave and where they mapped.
  function Addresses(log: seq<Event>, r: nat): seq<Word> {
    if log == [] then []
    else
      var last := log[|log| - 1];
      Addresses(log[..|log| - 1], r) + if last.RecvCall? && last.r == r then [last.dstva] else []
  }

  datatype Place = Place(srcva: Word, page: Option<nat>)

  function Places(log: seq<Event>, r: nat): seq<Place> {
    if log == [] then []
    else
      var last := log[|log| - 1];
      Places(log[..|log| - 1], r) + if last.Sent? && last.r == r then [Place(last.srcva, last.page)] else []
  }

  function Calls(log: seq<Event>, r: nat): nat { |Addresses(log, r)| }

  lemma OneMore(log: seq<Event>, ev: Event, r: nat)
    ensures Sends(log + [ev], r) == Sends(log, r) + if ev.Sent? && ev.r == r then [ev.m] else []
    ensures Gots(log + [ev], r) == Gots(log, r) + if ev.Got? && ev.r == r then [ev.m] else []
    ensures Addresses(log + [ev], r) == Addresses(log, r) + if ev.RecvCall? && ev.r == r then [ev.dstva] else []
    ensures Places(log + [ev], r) == Places(log, r) + if ev.Sent? && ev.r == r then [Place(ev.srcva, ev.page)] else []
  {
    assert (log + [ev])[..|log|] == log;
  }

  lemma {:induction false} NamedOrSilent(log: seq<Event>, r: nat)
    requires !Named(log, r)
    ensures Sends(log, r) == [] && Gots(log, r) == [] && Addresses(log, r) == [] && Places(log, r) == []
  {
    if log != [] {
      var init := log[..|log| - 1];
      forall i | 0 <= i < |init| ensures init[i].r != r { assert log[i].r != r; }
      NamedOrSilent(init, r);
      assert log[|log| - 1].r != r;
    }
  }

  // Send k mapped its page where call k asked for it, and none if either side wanted none.
  predicate InPlace(log: seq<Event>, r: nat, k: nat) {
    k < |Places(log, r)| && k < |Addresses(log, r)| &&
    var src, dst := Places(log, r)[k].srcva, Addresses(log, r)[k];
    Places(log, r)[k].page == if src < 0xeec0_0000 && dst < 0xeec0_0000 then Some(dst / 0x1000) else None
  }

  // Each receiver's history: messages are read in the order they were sent, each at most once
  // and unchanged, and each was sent in answer to a call of its own.
  ghost predicate Balanced(log: seq<Event>, r: nat) {
    && Gots(log, r) <= Sends(log, r)
    && |Gots(log, r)| <= |Sends(log, r)| <= |Gots(log, r)| + 1
    && |Sends(log, r)| <= Calls(log, r) <= |Sends(log, r)| + 1
    && Calls(log, r) <= |Gots(log, r)| + 1
    && |Places(log, r)| == |Sends(log, r)|
    && AllInPlace(log, r)
  }

  ghost predicate AllInPlace(log: seq<Event>, r: nat) {
    forall k {:trigger InPlace(log, r, k)} :: 0 <= k < |Places(log, r)| ==> InPlace(log, r, k)
  }

  // An event that is no send to r leaves the sends to it in place.
  lemma StayInPlace(log: seq<Event>, ev: Event, r: nat)
    requires AllInPlace(log, r) && (ev.Sent? ==> ev.r != r)
    ensures AllInPlace(log + [ev], r)
  {
    OneMore(log, ev, r);
    forall k | 0 <= k < |Places(log + [ev], r)| ensures InPlace(log + [ev], r, k) { assert InPlace(log, r, k); }
  }

  // A send to r is in place when it answers r's last call.
  lemma SendInPlace(log: seq<Event>, ev: Event, r: nat)
    requires AllInPlace(log, r) && ev.Sent? && ev.r == r && |Addresses(log, r)| == |Places(log, r)| + 1
    requires ev.page == if ev.srcva < UTOP && Addresses(log, r)[|Places(log, r)|] < UTOP
                        then Some(Vpn(Addresses(log, r)[|Places(log, r)|])) else None
    ensures AllInPlace(log + [ev], r)
  {
    OneMore(log, ev, r);
    forall k | 0 <= k < |Places(log + [ev], r)| ensures InPlace(log + [ev], r, k) {
      if k < |Places(log, r)| { assert InPlace(log, r, k); }
    }
  }

  // ---------------------------------------------------------------- the invariant

  ghost predicate IdOk(s: State, e: nat)
    requires e < |s.envs|
  {
    !s.envs[e].status.Unused? ==> s.envs[e].id % NENV == e
  }

  // What has been delivered to slot e and not read yet.
  function Unread(s: State, e: nat): seq<Msg>
    requires e < |s.envs| == |s.user|
  {
    var env := s.envs[e];
    match s.user[e]
    case Computing => []
    case InRecv => if env.ipcRecving then [] else [Msg(env.ipcFrom, env.ipcValue, env.ipcPerm)]
    case SawFrom(f) => [Msg(f, env.ipcValue, env.ipcPerm)]
    case SawPerm(f, p) => [Msg(f, env.ipcValue, p)]
  }

  ghost predicate SlotOk(s: State, e: nat)
    requires e < |s.envs| == |s.user|
  {
    var env := s.envs[e];
    !env.status.Unused? ==>
      && (env.ipcRecving ==>
            && env.status.NotRunnable? && s.user[e].InRecv?
            && Calls(s.log, env.id) > 0 && env.ipcDstva == Addresses(s.log, env.id)[Calls(s.log, env.id) - 1])
      && Sends(s.log, env.id) == Gots(s.log, env.id) + Unread(s, e)
      && Calls(s.log, env.id) == |Sends(s.log, env.id)| + if env.ipcRecving then 1 else 0
  }

  ghost predicate Inv(s: State) {
    && Shaped(s)
    && (forall e {:trigger IdOk(s, e)} :: 0 <= e < |s.envs| ==> IdOk(s, e))
    && (forall e {:trigger SlotOk(s, e)} :: 0 <= e < |s.envs| ==> SlotOk(s, e))
    && (forall r {:trigger Balanced(s.log, r)} :: 0 <= r ==> Balanced(s.log, r))
  }

  // The mapping of the page does not fail, and a blocked receiver is not woken by
  // sys_env_set_status.
  predicate Guarded(s: State, a: Step) {
    match a
    case Send(e, to, value, srcva, perm, inserted) => to < |s.envs| && (WithPage(s.envs[to], srcva) ==> inserted)
    case SetStatus(e, st) => e < |s.envs| && (s.envs[e].ipcRecving ==> st.NotRunnable?)
    case _ => true
  }

  lemma NextIdInSlot(id: nat, slot: nat)
    requires id < INT32_LIMIT && slot < NENV
    ensures NextId(id, slot) % NENV == slot
  {
    var sum := id + GENERATION;
    var k := if sum >= INT32_LIMIT then 4 else sum / NENV;
    assert NextId(id, slot) == NENV * k + slot;
  }

  // A step that changes slot x and adds `more` about its owner only.
  lemma SlotStep(s: State, t: State, x: nat, more: seq<Event>)
    requires Inv(s) && x < |s.envs| && Shaped(t) && |t.envs| == |s.envs|
    requires forall e :: 0 <= e < |s.envs| && e != x ==> t.envs[e] == s.envs[e] && t.user[e] == s.user[e]
    requires t.log == s.log + more && |more| <= 1
    requires more != [] ==> !s.envs[x].status.Unused? && more[0].r == s.envs[x].id && Balanced(t.log, more[0].r)
    requires IdOk(t, x) && SlotOk(t, x)
    ensures Inv(t)
  {
    if more != [] { assert t.log == s.log + [more[0]]; } else { assert t.log == s.log; }
    forall r: nat ensures Balanced(t.log, r) {
      assert Balanced(s.log, r);
      if more != [] && r != more[0].r {
        OneMore(s.log, more[0], r);
        StayInPlace(s.log, more[0], r);
      }
    }
    forall e | 0 <= e < |t.envs| ensures IdOk(t, e) && SlotOk(t, e) {
      assert IdOk(s, e) && SlotOk(s, e) && IdOk(s, x);
      if more != [] { OneMore(s.log, more[0], s.envs[e].id); }
    }
  }

  lemma RecvKeeps(s: State, a: Step)
    requires Inv(s) && Enabled(s, a) && a.Recv?
    ensures Inv(Apply(s, a))
  {
    var id := s.envs[a.e].id;
    assert IdOk(s, a.e) && SlotOk(s, a.e) && Balanced(s.log, id);
    OneMore(s.log, RecvCall(id, a.dstva), id);
    StayInPlace(s.log, RecvCall(id, a.dstva), id);
    SlotStep(s, Apply(s, a), a.e, [RecvCall(id, a.dstva)]);
  }

  // A send keeps the invariant exactly when its page, if any, could be mapped.
  lemma SendKeeps(s: State, a: Step)
    requires Inv(s) && Enabled(s, a) && a.Send?
    ensures Inv(Apply(s, a)) <==> Guarded(s, a)
  {
    var t := Apply(s, a);
    var id := s.envs[a.to].id;
    assert IdOk(s, a.to) && SlotOk(s, a.to) && Balanced(s.log, id);
    if Guarded(s, a) {
      var m := Msg(t.envs[a.to].ipcFrom, a.value, t.envs[a.to].ipcPerm);
      var page := if WithPage(s.envs[a.to], a.srcva) then Some(Vpn(s.envs[a.to].ipcDstva)) else None;
      OneMore(s.log, Sent(id, m, a.srcva, page), id);
      SendInPlace(s.log, Sent(id, m, a.srcva, page), id);
      SlotStep(s, t, a.to, [Sent(id, m, a.srcva, page)]);
    } else {
      assert t.log == s.log;
      assert !SlotOk(t, a.to);
    }
  }

  lemma LoadKeeps(s: State, a: Step)
    requires Inv(s) && Enabled(s, a) && (a.LoadFrom? || a.LoadPerm?)
    ensures Inv(Apply(s, a))
  {
    assert IdOk(s, a.e) && SlotOk(s, a.e);
    var t := Apply(s, a);
    assert t.log == s.log && Unread(t, a.e) == Unread(s, a.e);
    SlotStep(s, t, a.e, []);
  }

  lemma LastLoadKeeps(s: State, a: Step)
    requires Inv(s) && Enabled(s, a) && a.LoadValue?
    ensures Inv(Apply(s, a))
  {
    var env := s.envs[a.e];
    assert IdOk(s, a.e) && SlotOk(s, a.e) && Balanced(s.log, env.id);
    var got := Got(env.id, Msg(s.user[a.e].from, env.ipcValue, s.user[a.e].perm));
    OneMore(s.log, got, env.id);
    StayInPlace(s.log, got, env.id);
    SlotStep(s, Apply(s, a), a.e, [got]);
  }

  lemma StatusKeeps(s: State, a: Step)
    requires Inv(s) && Enabled(s, a) && (a.Dispatch? || a.Preempt? || a.SetStatus? || a.Destroy? || a.Collect?)
    ensures Inv(Apply(s, a)) <==> Guarded(s, a)
  {
    var t := Apply(s, a);
    assert IdOk(s, a.e) && SlotOk(s, a.e) && t.log == s.log;
    if Guarded(s, a) {
      SlotStep(s, t, a.e, []);
    } else {
      assert !SlotOk(t, a.e);
    }
  }

  lemma AllocKeeps(s: State, a: Step)
    requires Inv(s) && Enabled(s, a) && a.Alloc?
    ensures Inv(Apply(s, a))
  {
    var id := NextId(s.envs[a.e].id, a.e);
    NextIdInSlot(s.envs[a.e].id, a.e);
    NamedOrSilent(s.log, id);
    assert Apply(s, a).log == s.log;
    SlotStep(s, Apply(s, a), a.e, []);
  }

  lemma StepKeeps(s: State, a: Step)
    requires Inv(s) && Enabled(s, a)
    ensures Inv(Apply(s, a)) <==> Guarded(s, a)
  {
    match a
    case Recv(_, _) => RecvKeeps(s, a);
    case Send(_, _, _, _, _, _) => SendKeeps(s, a);
    case Refused(_, _) =>
    case LoadFrom(_) => LoadKeeps(s, a);
    case LoadPerm(_) => LoadKeeps(s, a);
    case LoadValue(_) => LastLoadKeeps(s, a);
    case Dispatch(_) => StatusKeeps(s, a);
    case Preempt(_) => StatusKeeps(s, a);
    case SetStatus(_, _) => StatusKeeps(s, a);
    case Destroy(_, _) => StatusKeeps(s, a);
    case Collect(_) => StatusKeeps(s, a);
    case Alloc(_, _) => AllocKeeps(s, a);
  }

  // ---------------------------------------------------------------- runs

  predicate CanRun(s: State, steps: seq<Step>)
    decreases |steps|
  {
    steps == [] || (Enabled(s, steps[0]) && CanRun(Apply(s, steps[0]), steps[1..]))
  }

  predicate AllGuarded(s: State, steps: seq<Step>)
    requires CanRun(s, steps)
    decreases |steps|
  {
    steps == [] || (Guarded(s, steps[0]) && AllGuarded(Apply(s, steps[0]), steps[1..]))
  }

  function After(s: State, steps: seq<Step>): State
    requires CanRun(s, steps)
    decreases |steps|
  {
    if steps == [] then s else After(Apply(s, steps[0]), steps[1..])
  }

  lemma {:induction false} RunKeeps(s: State, steps: seq<Step>)
    requires Inv(s) && CanRun(s, steps) && AllGuarded(s, steps)
    ensures Inv(After(s, steps))
    decreases |steps|
  {
    if steps != [] {
      StepKeeps(s, steps[0]);
      RunKeeps(Apply(s, steps[0]), steps[1..]);
    }
  }

  // Nobody has sent or received anything yet.
  predicate Start(s: State) {
    && Shaped(s) && s.log == []
    && (forall e :: 0 <= e < |s.envs| && !s.envs[e].status.Unused? ==>
          s.envs[e].id % NENV == e && !s.envs[e].ipcRecving && s.user[e].Computing?)
  }

  // Exactly once: whatever environments send, retry, receive, start and die, messages reach
  // each receiver in order and unchanged, none twice, and at most the last is still unread.
  lemma DeliveredExactlyOnce(s: State, steps: seq<Step>, r: nat)
    requires Start(s) && CanRun(s, steps) && AllGuarded(s, steps)
    ensures Balanced(After(s, steps).log, r)
  {
    forall q: nat ensures Balanced(s.log, q) {}
    forall e | 0 <= e < |s.envs| ensures IdOk(s, e) && SlotOk(s, e) {}
    RunKeeps(s, steps);
    assert Balanced(After(s, steps).log, r);
  }

  // A send that succeeds answers a call that no earlier send has answered.
  lemma SendAnswersACall(s: State, steps: seq<Step>, a: Step)
    requires Start(s) && CanRun(s, steps) && AllGuarded(s, steps)
    requires Enabled(After(s, steps), a) && a.Send? && Guarded(After(s, steps), a)
    ensures var t := After(s, steps);
            var r := t.envs[a.to].id;
            Calls(t.log, r) == |Sends(t.log, r)| + 1 && Gots(t.log, r) == Sends(t.log, r)
  {
    forall q: nat ensures Balanced(s.log, q) {}
    forall e | 0 <= e < |s.envs| ensures IdOk(s, e) && SlotOk(s, e) {}
    RunKeeps(s, steps);
    assert SlotOk(After(s, steps), a.to);
  }

  // Each send's page goes to the address of the call that the send answers: the k-th send to r
  // maps its page at the virtual page of r's k-th sys_ipc_recv, if both gave an address below
  // UTOP, and otherwise none, whatever happens in between.
  lemma PageGoesWhereAsked(s: State, steps: seq<Step>, r: nat, k: nat)
    requires Start(s) && CanRun(s, steps) && AllGuarded(s, steps) && k < |Places(After(s, steps).log, r)|
    ensures var log := After(s, steps).log;
            && k < |Addresses(log, r)| && |Places(log, r)| == |Sends(log, r)|
            && var src, dst := Places(log, r)[k].srcva, Addresses(log, r)[k];
               Places(log, r)[k].page == if src < 0xeec0_0000 && dst < 0xeec0_0000 then Some(dst / 0x1000) else None
  {
    DeliveredExactlyOnce(s, steps, r);
    assert InPlace(After(s, steps).log, r, k);
  }

  // A receiver that returns from ipc_recv has read the last message sent to it, and all of it.
  lemma ReadsLastSent(s: State, steps: seq<Step>, e: nat)
    requires Start(s) && CanRun(s, steps) && AllGuarded(s, steps) && Enabled(After(s, steps), LoadValue(e))
    ensures var t := After(s, steps);
            var sends := Sends(t.log, t.envs[e].id);
            && sends != []
            && Apply(t, LoadValue(e)).log == t.log + [Got(t.envs[e].id, sends[|sends| - 1])]
            && |Gots(t.log, t.envs[e].id)| == |sends| - 1
  {
    forall q: nat ensures Balanced(s.log, q) {}
    forall f | 0 <= f < |s.envs| ensures IdOk(s, f) && SlotOk(s, f) {}
    RunKeeps(s, steps);
    assert SlotOk(After(s, steps), e);
  }

  // If the page cannot be mapped the sender is told of an error, but the receiver wakes up
  // with the message: value and sender new, the permission that of an earlier message.
  lemma FailedMappingDeliversAnyway(s: State, a: Step)
    requires Inv(s) && Enabled(s, a) && a.Send? && !Guarded(s, a)
    ensures var t := Apply(s, a);
            && t.log == s.log && t.envs[a.to].status.Runnable? && !t.envs[a.to].ipcRecving
            && Unread(t, a.to) == [Msg(s.envs[a.e].id, a.value, s.envs[a.to].ipcPerm)]
            && Sends(t.log, t.envs[a.to].id) == Gots(t.log, t.envs[a.to].id)
  {
    assert SlotOk(s, a.to);
  }

  // Such a run: environment 0 blocks for a page at address 0, environment 1 sends one, and
  // page_insert finds no memory for a page table.
  function Sender(id: nat): Env { Env(id, 0, Running, false, 0, 0, 0, 0) }

  lemma MappingCanFail(s: State)
    requires s == State([Sender(4096), Sender(4097)], [Computing, Computing], [])
    ensures Start(s) && CanRun(s, [Recv(0, 0)]) && AllGuarded(s, [Recv(0, 0)])
    ensures var t, a := After(s, [Recv(0, 0)]), Send(1, 0, 7, 0, 5, false);
            && Inv(t) && Enabled(t, a) && !Guarded(t, a)
            && t.envs[0].ipcRecving && Apply(t, a).log == [RecvCall(4096, 0)] && Unread(Apply(t, a), 0) == [Msg(4097, 7, 0)]
  {
    assert CanRun(Apply(s, Recv(0, 0)), []);
    var t := After(s, [Recv(0, 0)]);
    assert t == Apply(s, Recv(0, 0));
    forall q: nat ensures Balanced(s.log, q) {}
    forall e | 0 <= e < |s.envs| ensures IdOk(s, e) && SlotOk(s, e) {}
    RunKeeps(s, [Recv(0, 0)]);
  }
}
