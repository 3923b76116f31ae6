/** When a pipe is closed: lib/pipe.c, lib/fd.c and lib/pageref.c on one CPU, interleaved at
    every system call and every load of _pipeisclosed.  One pipe is followed; its three pages
    are the two fd pages and the data page, and their reference counts are the numbers of
    slots that map them, as Mappings proves of the kernel's counts. */
module PipeClose {

  datatype End = ReadEnd | WriteEnd | OtherFile

  // Where an environment is: between the system calls of pipe, devpipe_close and dup, and
  // after the loads of _pipeisclosed (env_runs, then pageref of the fd page and of the data
  // page).
  datatype Pc =
    | Idle
    | Pipe1(i: nat) | Pipe2(i: nat, j: nat) | Pipe3(i: nat, j: nat)
    | Closing(j: nat)
    | DupClosing(i: nat, j: nat) | DupData(i: nat, j: nat) | DupFd(i: nat, j: nat)
    | DupFailed(j: nat) | DupUndone(j: nat)
    | Ask(i: nat, n: nat) | AskedFd(i: nat, n: nat, a: nat) | AskedBoth(i: nat, n: nat, a: nat, b: nat)

  // fd[i] is what descriptor i's fd page is; data[i] says whether its data page is the pipe's;
  // absent means unmapped.
  datatype Env = Env(fd: map<nat, End>, data: map<nat, bool>, pc: Pc, runs: nat)

  // made: pipe has returned
  datatype State = State(envs: map<nat, Env>, cur: nat, made: bool)

  // All but Switch, Fork and Exit are steps of the current environment.
  datatype Step =
    | Switch(to: nat)
    | Pipe(i: nat) | PipeFd(j: nat) | PipeData | PipeMap | PipeFail
    | Close(i: nat) | CloseData
    | Dup(i: nat, j: nat) | DupClose | DupMapData(ok: bool) | DupMapFd(ok: bool) | UndoFd | UndoData
    | Open(i: nat) | OpenData(i: nat)
    | Load(i: nat) | LoadFdRef | LoadDataRef | Answer
    | Fork(child: nat)
    | Exit

  datatype Slot = Slot(env: nat, num: nat)

  ghost function Holders(s: State, end: End): set<Slot> {
    set e, i | e in s.envs && i in s.envs[e].fd && s.envs[e].fd[i] == end :: Slot(e, i)
  }

  ghost function Sharers(s: State): set<Slot> {
    set e, i | e in s.envs && i in s.envs[e].data && s.envs[e].data[i] :: Slot(e, i)
  }

  predicate HasEnd(env: Env, i: nat) { i in env.fd && !env.fd[i].OtherFile? }
  predicate HasPipe(env: Env, i: nat) { i in env.data && env.data[i] }

  // Descriptors that map the pipe's data page without an fd page of the pipe.
  ghost function Dangling(s: State): set<Slot> {
    set e, i | e in s.envs && i in s.envs[e].data && s.envs[e].data[i] && !HasEnd(s.envs[e], i) :: Slot(e, i)
  }

  predicate Free(env: Env, i: nat) { i !in env.fd && i !in env.data }

  ghost predicate Enabled(s: State, a: Step) {
    if a.Switch? then a.to in s.envs
    else
      s.cur in s.envs &&
      var env := s.envs[s.cur];
      match a
       // the pages of a pipe about to be made are mapped nowhere
      case Pipe(i) =>
        env.pc.Idle? && Free(env, i) && !s.made && Holders(s, ReadEnd) == Holders(s, WriteEnd) == Sharers(s) == {}
      case PipeFd(j) => env.pc.Pipe1? && Free(env, j)
      case PipeData => env.pc.Pipe2?
      case PipeMap => env.pc.Pipe3?
      case PipeFail => Piping(env)
      case Close(i) => env.pc.Idle? && i in env.fd
      case CloseData => env.pc.Closing?
      case Dup(i, j) => env.pc.Idle? && i in env.fd
      case DupClose => env.pc.DupClosing?
      case DupMapData(ok) => env.pc.DupData?
      case DupMapFd(ok) => env.pc.DupFd?
      case UndoFd => env.pc.DupFailed?
      case UndoData => env.pc.DupUndone?
      case Open(i) => env.pc.Idle? && Free(env, i)
      case OpenData(i) => env.pc.Idle? && i in env.fd && env.fd[i].OtherFile?
      case Load(i) => env.pc.Idle? && HasEnd(env, i)
      case LoadFdRef => env.pc.Ask? && HasEnd(env, env.pc.i)
      case LoadDataRef => env.pc.AskedFd?
      case Answer => env.pc.AskedBoth?
      case Fork(child) => env.pc.Idle? && child !in s.envs
      case Exit => true
      case Switch(_) => false
  }

  predicate Piping(env: Env) { env.pc.Pipe1? || env.pc.Pipe2? || env.pc.Pipe3? }

  function Put(s: State, env: Env): State {
    State(s.envs[s.cur := env], s.cur, s.made)
  }

  // pageref of a page of the pipe that `env` maps.
  ghost function FdRef(s: State, env: Env, i: nat): nat
    requires HasEnd(env, i)
  {
    |Holders(s, env.fd[i])|
  }

  ghost function Apply(s: State, a: Step): State
    requires Enabled(s, a)
  {
    // env_run counts in env_runs
    if a.Switch? then
      var to := a.to;
      State(s.envs[to := Env(s.envs[to].fd, s.envs[to].data, s.envs[to].pc, s.envs[to].runs + 1)], to, s.made)
    else Act(s, s.envs[s.cur], a)
  }

  ghost function Act(s: State, env: Env, a: Step): State
    requires Enabled(s, a) && !a.Switch? && env == s.envs[s.cur]
  {
    match a
    case Pipe(i) => Put(s, Env(env.fd[i := ReadEnd], env.data, Pipe1(i), env.runs))
    case PipeFd(j) => Put(s, Env(env.fd[j := WriteEnd], env.data, Pipe2(env.pc.i, j), env.runs))
    case PipeData => Put(s, Env(env.fd, env.data[env.pc.i := true], Pipe3(env.pc.i, env.pc.j), env.runs))
    case PipeMap =>
      State(s.envs[s.cur := Env(env.fd, env.data[env.pc.j := true], Idle, env.runs)], s.cur, true)
    case PipeFail =>
      var gone := if env.pc.Pipe1? then {env.pc.i} else {env.pc.i, env.pc.j};
      Put(s, Env(env.fd - gone, env.data - gone, Idle, env.runs))
    case Close(i) => Put(s, Env(env.fd - {i}, env.data, Closing(i), env.runs))
    case CloseData => Put(s, Env(env.fd, env.data - {env.pc.j}, Idle, env.runs))
    // close(newfdnum), if it is open
    case Dup(i, j) =>
      if j in env.fd then Put(s, Env(env.fd - {j}, env.data, DupClosing(i, j), env.runs))
      else Put(s, Env(env.fd, env.data, DupData(i, j), env.runs))
    case DupClose => Put(s, Env(env.fd, env.data - {env.pc.j}, DupData(env.pc.i, env.pc.j), env.runs))
    case DupMapData(ok) =>
      var i, j := env.pc.i, env.pc.j;
      if i !in env.data then Put(s, Env(env.fd, env.data, DupFd(i, j), env.runs))
      else if ok then Put(s, Env(env.fd, env.data[j := env.data[i]], DupFd(i, j), env.runs))
      else Put(s, Env(env.fd, env.data, DupFailed(j), env.runs))
    case DupMapFd(ok) =>
      var i, j := env.pc.i, env.pc.j;
      if ok && i in env.fd then Put(s, Env(env.fd[j := env.fd[i]], env.data, Idle, env.runs))
      else Put(s, Env(env.fd, env.data, DupFailed(j), env.runs))
    case UndoFd => Put(s, Env(env.fd - {env.pc.j}, env.data, DupUndone(env.pc.j), env.runs))
    case UndoData => Put(s, Env(env.fd, env.data - {env.pc.j}, Idle, env.runs))
    case Open(i) => Put(s, Env(env.fd[i := OtherFile], env.data, Idle, env.runs))
    case OpenData(i) => Put(s, Env(env.fd, env.data[i := false], Idle, env.runs))
    case Load(i) => Put(s, Env(env.fd, env.data, Ask(i, env.runs), env.runs))
    case LoadFdRef => Put(s, Env(env.fd, env.data, AskedFd(env.pc.i, env.pc.n, FdRef(s, env, env.pc.i)), env.runs))
    case LoadDataRef =>
      var b := if HasPipe(env, env.pc.i) then |Sharers(s)| else 0;
      Put(s, Env(env.fd, env.data, AskedBoth(env.pc.i, env.pc.n, env.pc.a, b), env.runs))
    // the second load of env_runs: return, or start over
    case Answer =>
      Put(s, Env(env.fd, env.data, if env.runs == env.pc.n then Idle else Ask(env.pc.i, env.runs), env.runs))
    case Fork(child) => State(s.envs[child := Env(env.fd, env.data, Idle, 0)], s.cur, s.made)
    case Exit => State(s.envs - {s.cur}, s.cur, s.made)
  }

  // ---------------------------------------------------------------- the invariant

  // The one descriptor whose data page may be mapped without its fd page.
  function Between(pc: Pc): set<nat> {
    match pc
    case Closing(j) => {j}
    case DupClosing(i, j) => {j}
    case DupFd(i, j) => {j}
    case DupFailed(j) => {j}
    case DupUndone(j) => {j}
    case _ => {}
  }

  // In an environment not inside pipe: fd pages of the pipe have its data page beside them.
  predicate PairedAt(env: Env, i: nat) {
    && (HasEnd(env, i) ==> HasPipe(env, i))
    && (HasPipe(env, i) ==> HasEnd(env, i) || i in Between(env.pc))
    && (i in Between(env.pc) ==> i !in env.fd)
  }

  ghost predicate Paired(env: Env) {
    && (forall i {:trigger PairedAt(env, i)} :: 0 <= i ==> PairedAt(env, i))
    && (env.pc.DupData? ==> env.pc.j !in env.fd && !HasPipe(env, env.pc.j))
    && (env.pc.DupFd? ==> (HasEnd(env, env.pc.i) <==> HasPipe(env, env.pc.j)))
  }

  predicate CleanAt(env: Env, i: nat) { !HasEnd(env, i) && !HasPipe(env, i) && (i in Between(env.pc) ==> i !in env.fd) }

  ghost predicate Clean(env: Env) {
    && (forall i {:trigger CleanAt(env, i)} :: 0 <= i ==> CleanAt(env, i))
    && !env.pc.Ask? && !env.pc.AskedFd? && !env.pc.AskedBoth?
    && (env.pc.DupData? ==> env.pc.j !in env.fd)
  }

  // Half-made: exactly the pages mapped so far.
  predicate HalfMadeAt(env: Env, i: nat)
    requires Piping(env)
  {
    && (HasEnd(env, i) <==> (i == env.pc.i || (!env.pc.Pipe1? && i == env.pc.j)))
    && (HasPipe(env, i) <==> (env.pc.Pipe3? && i == env.pc.i))
  }

  ghost predicate HalfMade(env: Env)
    requires Piping(env)
  {
    && (forall i {:trigger HalfMadeAt(env, i)} :: 0 <= i ==> HalfMadeAt(env, i))
    && env.pc.i in env.fd && env.fd[env.pc.i] == ReadEnd
    && (!env.pc.Pipe1? ==> env.pc.i != env.pc.j && env.pc.j in env.fd && env.fd[env.pc.j] == WriteEnd)
  }

  ghost predicate EnvOk(s: State, e: nat)
    requires e in s.envs
  {
    var env := s.envs[e];
    && (Piping(env) ==> !s.made && HalfMade(env) && forall f :: f in s.envs && f != e ==> !Piping(s.envs[f]))
    && (!Piping(env) ==> if s.made then Paired(env) else Clean(env))
  }

  // An environment that has not been switched away since it loaded env_runs has seen counts
  // that still hold.
  ghost predicate AskOk(s: State, e: nat)
    requires e in s.envs
  {
    var env := s.envs[e];
    && (env.pc.Ask? || env.pc.AskedFd? || env.pc.AskedBoth? ==>
          && env.pc.n <= env.runs && HasEnd(env, env.pc.i)
          && (e == s.cur && env.runs == env.pc.n ==>
                && (!env.pc.Ask? ==> env.pc.a == FdRef(s, env, env.pc.i))
                && (env.pc.AskedBoth? ==> env.pc.b == |Sharers(s)|)))
  }

  ghost predicate Inv(s: State) {
    && (forall e {:trigger EnvOk(s, e)} :: e in s.envs ==> EnvOk(s, e))
    && (forall e {:trigger AskOk(s, e)} :: e in s.envs ==> AskOk(s, e))
  }

  // ---------------------------------------------------------------- every step keeps it

  // A step of the current environment that leaves `made` alone.
  lemma LocalKeeps(s: State, env: Env)
    requires Inv(s) && s.cur in s.envs
    requires EnvOk(Put(s, env), s.cur) && AskOk(Put(s, env), s.cur)
    requires Piping(env) ==> forall f :: f in s.envs && f != s.cur ==> !Piping(s.envs[f])
    ensures Inv(Put(s, env))
  {
    var t := Put(s, env);
    forall e | e in t.envs ensures EnvOk(t, e) && AskOk(t, e) {
      if e != s.cur { assert EnvOk(s, e) && AskOk(s, e); }
    }
  }

  // While nothing of the pipe is mapped, nobody is inside pipe.
  lemma PipingHolds(s: State, e: nat)
    requires Inv(s) && e in s.envs
    ensures Piping(s.envs[e]) ==> Holders(s, ReadEnd) != {}
  {
    assert EnvOk(s, e);
    if Piping(s.envs[e]) { assert Slot(e, s.envs[e].pc.i) in Holders(s, ReadEnd); }
  }

  lemma PipeKeeps(s: State, a: Step)
    requires Inv(s) && Enabled(s, a) && (a.Pipe? || a.PipeFd? || a.PipeData? || a.PipeFail?)
    ensures Inv(Apply(s, a))
  {
    var env, next := s.envs[s.cur], Apply(s, a).envs[s.cur];
    assert EnvOk(s, s.cur);
    if a.Pipe? {
      forall f | f in s.envs ensures !Piping(s.envs[f]) { PipingHolds(s, f); }
      forall i: nat ensures HalfMadeAt(next, i) { assert CleanAt(env, i); }
    } else if a.PipeFail? {
      forall i: nat ensures CleanAt(next, i) { assert HalfMadeAt(env, i); }
    } else {
      forall i: nat ensures HalfMadeAt(next, i) { assert HalfMadeAt(env, i); }
    }
    LocalKeeps(s, next);
  }

  lemma PipeMapKeeps(s: State)
    requires Inv(s) && Enabled(s, PipeMap)
    ensures Inv(Apply(s, PipeMap))
  {
    var t := Apply(s, PipeMap);
    assert EnvOk(s, s.cur);
    forall e | e in t.envs ensures EnvOk(t, e) && AskOk(t, e) {
      assert EnvOk(s, e) && AskOk(s, e);
      var pc := s.envs[e].pc;
      assert pc.DupData? || pc.DupFd? ==> CleanAt(s.envs[e], pc.i) && CleanAt(s.envs[e], pc.j);
      forall i: nat ensures PairedAt(t.envs[e], i) {
        if e == s.cur { assert HalfMadeAt(s.envs[e], i); } else { assert CleanAt(s.envs[e], i); }
      }
    }
  }

  // A step of an environment that neither makes the pipe nor asks about it.
  lemma PlainKeeps(s: State, a: Step)
    requires Inv(s) && Enabled(s, a)
    requires a.Close? || a.CloseData? || a.Open? || a.OpenData? || a.Dup? || a.DupClose? || a.UndoFd? || a.UndoData?
    ensures Inv(Apply(s, a))
  {
    var env, next := s.envs[s.cur], Apply(s, a).envs[s.cur];
    var j := if a.Dup? then a.j else if a.DupClose? then env.pc.j else 0;
    assert EnvOk(s, s.cur);
    if s.made {
      assert PairedAt(env, j);
      forall i: nat ensures PairedAt(next, i) { assert PairedAt(env, i); }
    } else {
      assert CleanAt(env, j);
      forall i: nat ensures CleanAt(next, i) { assert CleanAt(env, i); }
    }
    LocalKeeps(s, next);
  }

  // The two mappings of dup, data page first.
  lemma DupKeeps(s: State, a: Step)
    requires Inv(s) && Enabled(s, a) && (a.DupMapData? || a.DupMapFd?)
    ensures Inv(Apply(s, a))
  {
    var env, next := s.envs[s.cur], Apply(s, a).envs[s.cur];
    assert EnvOk(s, s.cur);
    if s.made {
      assert PairedAt(env, env.pc.i) && PairedAt(env, env.pc.j);
      forall i: nat ensures PairedAt(next, i) { assert PairedAt(env, i); }
    } else {
      assert CleanAt(env, env.pc.i) && CleanAt(env, env.pc.j);
      forall i: nat ensures CleanAt(next, i) { assert CleanAt(env, i); }
    }
    LocalKeeps(s, next);
  }

  lemma SameRefs(s: State, env: Env, end: End)
    requires s.cur in s.envs && env.fd == s.envs[s.cur].fd && env.data == s.envs[s.cur].data
    ensures Holders(Put(s, env), end) == Holders(s, end) && Sharers(Put(s, env)) == Sharers(s)
  {
  }

  lemma AskKeeps(s: State, a: Step)
    requires Inv(s) && Enabled(s, a) && (a.Load? || a.LoadFdRef? || a.LoadDataRef? || a.Answer?)
    ensures Inv(Apply(s, a))
  {
    var env, next := s.envs[s.cur], Apply(s, a).envs[s.cur];
    var i := if a.Load? then a.i else env.pc.i;
    assert EnvOk(s, s.cur) && AskOk(s, s.cur);
    assert !s.made ==> CleanAt(env, i);
    assert PairedAt(env, i);
    SameRefs(s, next, env.fd[i]);
    forall k: nat ensures PairedAt(next, k) { assert PairedAt(env, k); }
    LocalKeeps(s, next);
  }

  lemma ForkKeeps(s: State, child: nat)
    requires Inv(s) && Enabled(s, Fork(child))
    ensures Inv(Apply(s, Fork(child)))
  {
    var t := Apply(s, Fork(child));
    assert EnvOk(s, s.cur);
    forall e | e in t.envs ensures EnvOk(t, e) && AskOk(t, e) {
      if e != child {
        assert EnvOk(s, e) && AskOk(s, e);
      } else {
        forall i: nat ensures if s.made then PairedAt(t.envs[e], i) else CleanAt(t.envs[e], i) {
          assert if s.made then PairedAt(s.envs[s.cur], i) else CleanAt(s.envs[s.cur], i);
        }
      }
    }
  }

  lemma MoveKeeps(s: State, a: Step)
    requires Inv(s) && Enabled(s, a) && (a.Switch? || a.Exit?)
    ensures Inv(Apply(s, a))
  {
    var t := Apply(s, a);
    forall e | e in t.envs ensures EnvOk(t, e) && AskOk(t, e) {
      assert EnvOk(s, e) && AskOk(s, e);
      forall i: nat ensures PairedAt(s.envs[e], i) ==> PairedAt(t.envs[e], i) {}
      forall i: nat ensures CleanAt(s.envs[e], i) ==> CleanAt(t.envs[e], i) {}
      if Piping(s.envs[e]) {
        forall i: nat ensures HalfMadeAt(t.envs[e], i) { assert HalfMadeAt(s.envs[e], i); }
      }
    }
  }

  lemma StepKeeps(s: State, a: Step)
    requires Inv(s) && Enabled(s, a)
    ensures Inv(Apply(s, a))
  {
    if a.Switch? || a.Exit? {
      MoveKeeps(s, a);
    } else if a.Fork? {
      ForkKeeps(s, a.child);
    } else if a.PipeMap? {
      PipeMapKeeps(s);
    } else if a.Pipe? || a.PipeFd? || a.PipeData? || a.PipeFail? {
      PipeKeeps(s, a);
    } else if a.Load? || a.LoadFdRef? || a.LoadDataRef? || a.Answer? {
      AskKeeps(s, a);
    } else if a.DupMapData? || a.DupMapFd? {
      DupKeeps(s, a);
    } else {
      PlainKeeps(s, a);
    }
  }

  // ---------------------------------------------------------------- counting

  lemma SharerIsOneOf(s: State, k: Slot)
    requires Inv(s) && s.made
    ensures k in Sharers(s) <==> k in Holders(s, ReadEnd) || k in Holders(s, WriteEnd) || k in Dangling(s)
  {
    if k.env in s.envs {
      assert EnvOk(s, k.env);
      assert PairedAt(s.envs[k.env], k.num);
    }
  }

  lemma EndsAreApart(s: State)
    ensures Holders(s, ReadEnd) !! Holders(s, WriteEnd)
    ensures Holders(s, ReadEnd) + Holders(s, WriteEnd) !! Dangling(s)
  {
  }

  lemma ThreeParts(all: set<Slot>, a: set<Slot>, b: set<Slot>, c: set<Slot>)
    requires a !! b && a + b !! c && forall k :: k in all <==> k in a || k in b || k in c
    ensures |all| == |a| + |b| + |c|
  {
    assert all == (a + b) + c;
  }

  // The data page's references are the two ends' and the dangling ones.
  lemma Split(s: State)
    requires Inv(s) && s.made
    ensures |Sharers(s)| == |Holders(s, ReadEnd)| + |Holders(s, WriteEnd)| + |Dangling(s)|
  {
    var r, w, d := Holders(s, ReadEnd), Holders(s, WriteEnd), Dangling(s);
    forall k ensures k in Sharers(s) <==> k in r || k in w || k in d { SharerIsOneOf(s, k); }
    EndsAreApart(s);
    ThreeParts(Sharers(s), r, w, d);
  }

  // ---------------------------------------------------------------- runs

  ghost predicate CanRun(s: State, steps: seq<Step>)
    decreases |steps|
  {
    steps == [] || (Enabled(s, steps[0]) && CanRun(Apply(s, steps[0]), steps[1..]))
  }

  ghost function After(s: State, steps: seq<Step>): State
    requires CanRun(s, steps)
    decreases |steps|
  {
    if steps == [] then s else After(Apply(s, steps[0]), steps[1..])
  }

  // The pipe has not been made; environments have other files open at most.
  ghost predicate Start(s: State) {
    !s.made && forall e :: e in s.envs ==>
      s.envs[e].pc.Idle? && forall i :: !HasEnd(s.envs[e], i) && !HasPipe(s.envs[e], i)
  }

  lemma {:induction false} RunKeeps(s: State, steps: seq<Step>)
    requires Inv(s) && CanRun(s, steps)
    ensures Inv(After(s, steps))
    decreases |steps|
  {
    if steps != [] {
      StepKeeps(s, steps[0]);
      RunKeeps(Apply(s, steps[0]), steps[1..]);
    }
  }

  lemma StartRun(s: State, steps: seq<Step>)
    requires Start(s) && CanRun(s, steps)
    ensures Inv(After(s, steps))
  {
    forall e | e in s.envs ensures EnvOk(s, e) && AskOk(s, e) {
      forall i: nat ensures CleanAt(s.envs[e], i) {}
    }
    RunKeeps(s, steps);
  }

  // Once the pipe is made, the data page has at least as many references as the two fd pages
  // together, also between the two calls of dup and of devpipe_close.
  lemma DataRefsCoverEnds(s: State, steps: seq<Step>)
    requires Start(s) && CanRun(s, steps) && After(s, steps).made
    ensures var t := After(s, steps); |Sharers(t)| >= |Holders(t, ReadEnd)| + |Holders(t, WriteEnd)|
  {
    StartRun(s, steps);
    Split(After(s, steps));
  }

  function Other(end: End): End { if end.ReadEnd? then WriteEnd else ReadEnd }

  // The current environment's next step is to return from _pipeisclosed.
  ghost predicate Returns(s: State) {
    Enabled(s, Answer) && s.cur in Apply(s, Answer).envs && Apply(s, Answer).envs[s.cur].pc.Idle?
  }

  // What _pipeisclosed returns is what holds at that moment: closed, the two counts being
  // equal, if and only if nobody has the other end open and nobody is in the middle of closing
  // or duplicating an end.
  lemma ClosedMeansNobodyElse(s: State, steps: seq<Step>)
    requires Start(s) && CanRun(s, steps) && Returns(After(s, steps))
    ensures var t := After(s, steps);
            var env := t.envs[t.cur];
            && HasEnd(env, env.pc.i)
            && (env.pc.a == env.pc.b <==> Holders(t, Other(env.fd[env.pc.i])) == {} && Dangling(t) == {})
  {
    StartRun(s, steps);
    var t := After(s, steps);
    var env := t.envs[t.cur];
    assert EnvOk(t, t.cur) && AskOk(t, t.cur);
    assert t.made;
    Split(t);
    var end := env.fd[env.pc.i];
    assert |Holders(t, Other(end))| == 0 <==> Holders(t, Other(end)) == {};
  }

  // Without the second load the answer can be wrong, the counts being from different moments:
  // environment 1, a writer, has loaded its fd page's count when environment 2, which holds
  // both ends, closes its write end; the old count then equals the data page's new one,
  // although environment 2 still reads.
  function Closer(fd: map<nat, End>, data: map<nat, bool>, pc: Pc): Env { Env(fd, data, pc, 4) }

  function Stale(asker: Pc, runs: nat, other: Env, cur: nat): State {
    State(map[1 := Env(map[1 := WriteEnd], map[1 := true], asker, runs), 2 := other], cur, true)
  }

  lemma Prepend(s: State, a: Step, rest: seq<Step>)
    requires Enabled(s, a) && CanRun(Apply(s, a), rest)
    ensures CanRun(s, [a] + rest) && After(s, [a] + rest) == After(Apply(s, a), rest)
  {
    assert ([a] + rest)[1..] == rest;
  }

  lemma Three(s: State, a: Step, b: Step, c: Step)
    requires Enabled(s, a) && Enabled(Apply(s, a), b) && Enabled(Apply(Apply(s, a), b), c)
    ensures CanRun(s, [a, b, c]) && After(s, [a, b, c]) == Apply(Apply(Apply(s, a), b), c)
  {
    Prepend(Apply(Apply(s, a), b), c, []);
    Prepend(Apply(s, a), b, [c]);
    Prepend(s, a, [b] + [c]);
    assert [a] + ([b] + [c]) == [a, b, c];
  }

  lemma StaleStart(s: State)
    requires s == Stale(AskedFd(1, 5, 2), 5, Env(map[0 := ReadEnd, 1 := WriteEnd], map[0 := true, 1 := true], Idle, 3), 1)
    ensures Inv(s)
  {
    assert Holders(s, WriteEnd) == {Slot(1, 1), Slot(2, 1)};
    forall e | e in s.envs ensures EnvOk(s, e) && AskOk(s, e) {
      forall i: nat ensures PairedAt(s.envs[e], i) {}
    }
  }

  lemma StaleCountsMislead(s: State)
    requires s == Stale(AskedFd(1, 5, 2), 5, Env(map[0 := ReadEnd, 1 := WriteEnd], map[0 := true, 1 := true], Idle, 3), 1)
    ensures Inv(s) && CanRun(s, [Switch(2), Close(1), CloseData] + [Switch(1), LoadDataRef])
    ensures var t := After(s, [Switch(2), Close(1), CloseData] + [Switch(1), LoadDataRef]);
            t == Stale(AskedBoth(1, 5, 2, 2), 6, Closer(map[0 := ReadEnd], map[0 := true], Idle), 1) && Slot(2, 0) in Holders(t, ReadEnd)
  {
    StaleStart(s);
    var s1 := Apply(s, Switch(2));
    assert s1 == Stale(AskedFd(1, 5, 2), 5, Closer(map[0 := ReadEnd, 1 := WriteEnd], map[0 := true, 1 := true], Idle), 2);
    assert map[0 := ReadEnd, 1 := WriteEnd] - {1} == map[0 := ReadEnd];
    assert map[0 := true, 1 := true] - {1} == map[0 := true];
    var s2 := Apply(s1, Close(1));
    assert s2 == Stale(AskedFd(1, 5, 2), 5, Closer(map[0 := ReadEnd], map[0 := true, 1 := true], Closing(1)), 2);
    var s3 := Apply(s2, CloseData);
    assert s3 == Stale(AskedFd(1, 5, 2), 5, Closer(map[0 := ReadEnd], map[0 := true], Idle), 2);
    StaleEnd(s3);
    Prepend(s2, CloseData, [Switch(1), LoadDataRef]);
    Prepend(s1, Close(1), [CloseData] + [Switch(1), LoadDataRef]);
    Prepend(s, Switch(2), [Close(1)] + ([CloseData] + [Switch(1), LoadDataRef]));
    assert [Switch(2)] + ([Close(1)] + ([CloseData] + [Switch(1), LoadDataRef]))
        == [Switch(2), Close(1), CloseData] + [Switch(1), LoadDataRef];
  }

  // The second load sends it round again.
  lemma StaleIsNotReturned(s: State)
    requires s == Stale(AskedBoth(1, 5, 2, 2), 6, Closer(map[0 := ReadEnd], map[0 := true], Idle), 1)
    ensures Enabled(s, Answer) && !Returns(s) && Apply(s, Answer) == Loading(s, Ask(1, 6))
  {
  }

  lemma StaleEnd(s: State)
    requires s == Stale(AskedFd(1, 5, 2), 5, Closer(map[0 := ReadEnd], map[0 := true], Idle), 2)
    ensures CanRun(s, [Switch(1), LoadDataRef])
    ensures After(s, [Switch(1), LoadDataRef]) == Stale(AskedBoth(1, 5, 2, 2), 6, Closer(map[0 := ReadEnd], map[0 := true], Idle), 1)
  {
    var s1 := Apply(s, Switch(1));
    assert s1 == Stale(AskedFd(1, 5, 2), 6, Closer(map[0 := ReadEnd], map[0 := true], Idle), 1);
    assert Sharers(s1) == {Slot(1, 1), Slot(2, 0)};
    assert Apply(s1, LoadDataRef) == Stale(AskedBoth(1, 5, 2, 2), 6, Closer(map[0 := ReadEnd], map[0 := true], Idle), 1);
    Prepend(s1, LoadDataRef, []);
    Prepend(s, Switch(1), [LoadDataRef]);
    assert [Switch(1)] + [LoadDataRef] == [Switch(1), LoadDataRef];
  }

  // Taking the current environment from one point of _pipeisclosed to the next changes no
  // mapping.
  lemma SameCounts(s: State, t: State)
    requires s.cur in s.envs && t.envs.Keys == s.envs.Keys
    requires forall e :: e in s.envs ==> t.envs[e].fd == s.envs[e].fd && t.envs[e].data == s.envs[e].data
    ensures Holders(t, ReadEnd) == Holders(s, ReadEnd) && Holders(t, WriteEnd) == Holders(s, WriteEnd)
    ensures Sharers(t) == Sharers(s)
  {
    forall k ensures k in Holders(t, ReadEnd) <==> k in Holders(s, ReadEnd) {}
    forall k ensures k in Holders(t, WriteEnd) <==> k in Holders(s, WriteEnd) {}
    forall k ensures k in Sharers(t) <==> k in Sharers(s) {}
  }

  function Loading(t: State, pc: Pc): State
    requires t.cur in t.envs
  {
    var env := t.envs[t.cur];
    Put(t, Env(env.fd, env.data, pc, env.runs))
  }

  // The current environment has made the three loads for descriptor i and got equal counts, so
  // that the next step returns 1.
  function Heard(t: State, i: nat, count: nat): State
    requires t.cur in t.envs
  {
    Loading(t, AskedBoth(i, t.envs[t.cur].runs, count, count))
  }

  lemma LastLoad(t: State, i: nat, count: nat)
    requires t.cur in t.envs && HasPipe(t.envs[t.cur], i) && count == |Sharers(t)|
    ensures var t2 := Loading(t, AskedFd(i, t.envs[t.cur].runs, count));
            Enabled(t2, LoadDataRef) && Apply(t2, LoadDataRef) == Heard(t, i, count)
  {
    SameCounts(t, Loading(t, AskedFd(i, t.envs[t.cur].runs, count)));
  }

  // Three loads in a row, when the pipe's pages other than this end's have no references.
  lemma LoadsAgree(t: State, i: nat)
    requires Inv(t) && t.made && Enabled(t, Load(i))
    requires Holders(t, Other(t.envs[t.cur].fd[i])) == {} && Dangling(t) == {}
    ensures CanRun(t, [Load(i), LoadFdRef, LoadDataRef])
    ensures After(t, [Load(i), LoadFdRef, LoadDataRef]) == Heard(t, i, |Sharers(t)|)
  {
    var env := t.envs[t.cur];
    assert EnvOk(t, t.cur) && PairedAt(env, i);
    Split(t);
    assert |Sharers(t)| == FdRef(t, env, i);
    var t1 := Apply(t, Load(i));
    assert t1 == Loading(t, Ask(i, env.runs));
    SameCounts(t, t1);
    var t2 := Apply(t1, LoadFdRef);
    assert t2 == Loading(t, AskedFd(i, env.runs, |Sharers(t)|));
    LastLoad(t, i, |Sharers(t)|);
    Three(t, Load(i), LoadFdRef, LoadDataRef);
  }

  // End of file is seen: when nobody has the other end open and nobody is in the middle of
  // closing or duplicating, an environment that asks and is not switched away is told so.
  lemma EndOfFileIsSeen(s: State, steps: seq<Step>, i: nat)
    requires Start(s) && CanRun(s, steps) && After(s, steps).made && Enabled(After(s, steps), Load(i))
    requires var t := After(s, steps); Holders(t, Other(t.envs[t.cur].fd[i])) == {} && Dangling(t) == {}
    ensures var t := After(s, steps);
            && CanRun(t, [Load(i), LoadFdRef, LoadDataRef])
            && After(t, [Load(i), LoadFdRef, LoadDataRef]) == Heard(t, i, |Sharers(t)|)
            && Returns(Heard(t, i, |Sharers(t)|)) && Apply(Heard(t, i, |Sharers(t)|), Answer) == t
  {
    StartRun(s, steps);
    LoadsAgree(After(s, steps), i);
  }

  // ---------------------------------------------------------------- who holds what

  // fork gives the child each end the parent has, under the same descriptors, and its data page,
  // and takes nothing from anybody.
  lemma ForkSharesEnds(s: State, child: nat, end: End, k: Slot)
    requires Enabled(s, Fork(child))
    ensures var t := Apply(s, Fork(child));
            && (k in Holders(t, end) <==> k in Holders(s, end) || (k.env == child && Slot(s.cur, k.num) in Holders(s, end)))
            && (k in Sharers(t) <==> k in Sharers(s) || (k.env == child && Slot(s.cur, k.num) in Sharers(s)))
  {
  }

  // dup, undisturbed, gives the new descriptor the same end and its data page, and takes nothing
  // from anybody.
  function Dupped(s: State, i: nat, j: nat): State
    requires s.cur in s.envs && i in s.envs[s.cur].fd && i in s.envs[s.cur].data
  {
    var env := s.envs[s.cur];
    Put(s, Env(env.fd[j := env.fd[i]], env.data[j := env.data[i]], Idle, env.runs))
  }

  lemma DupRuns(s: State, i: nat, j: nat)
    requires s.cur in s.envs && s.envs[s.cur].pc.Idle? && i in s.envs[s.cur].fd && i in s.envs[s.cur].data && Free(s.envs[s.cur], j)
    ensures CanRun(s, [Dup(i, j), DupMapData(true), DupMapFd(true)])
    ensures After(s, [Dup(i, j), DupMapData(true), DupMapFd(true)]) == Dupped(s, i, j)
  {
    var env := s.envs[s.cur];
    var s1 := Apply(s, Dup(i, j));
    assert s1 == Loading(s, DupData(i, j));
    var s2 := Apply(s1, DupMapData(true));
    assert s2 == Put(s, Env(env.fd, env.data[j := env.data[i]], DupFd(i, j), env.runs));
    assert Apply(s2, DupMapFd(true)) == Dupped(s, i, j);
    Three(s, Dup(i, j), DupMapData(true), DupMapFd(true));
  }

  lemma DupAddsEnd(s: State, i: nat, j: nat, end: End, k: Slot)
    requires s.cur in s.envs && s.envs[s.cur].pc.Idle? && i in s.envs[s.cur].fd && i in s.envs[s.cur].data && Free(s.envs[s.cur], j)
    ensures CanRun(s, [Dup(i, j), DupMapData(true), DupMapFd(true)])
    ensures var t := After(s, [Dup(i, j), DupMapData(true), DupMapFd(true)]);
            && (k in Holders(t, end) <==> k in Holders(s, end) || (k == Slot(s.cur, j) && Slot(s.cur, i) in Holders(s, end)))
            && (k in Sharers(t) <==> k in Sharers(s) || (k == Slot(s.cur, j) && Slot(s.cur, i) in Sharers(s)))
  {
    DupRuns(s, i, j);
  }

  // Closing the copy undoes it.
  lemma CloseUndoesDup(s: State, i: nat, j: nat)
    requires s.cur in s.envs && s.envs[s.cur].pc.Idle? && i in s.envs[s.cur].fd && i in s.envs[s.cur].data && Free(s.envs[s.cur], j)
    ensures CanRun(Dupped(s, i, j), [Close(j), CloseData]) && After(Dupped(s, i, j), [Close(j), CloseData]) == s
  {
    var env, t := s.envs[s.cur], Dupped(s, i, j);
    assert env.fd[j := env.fd[i]] - {j} == env.fd && env.data[j := env.data[i]] - {j} == env.data;
    var t1 := Apply(t, Close(j));
    assert Apply(t1, CloseData).envs == s.envs;
    Prepend(t1, CloseData, []);
    Prepend(t, Close(j), [CloseData]);
    assert [Close(j)] + [CloseData] == [Close(j), CloseData];
  }

  // An environment that exits has no end any more, and takes nothing from the others.
  lemma ExitDropsEnds(s: State, end: End, k: Slot)
    requires Enabled(s, Exit)
    ensures var t := Apply(s, Exit);
            && (k in Holders(t, end) <==> k in Holders(s, end) && k.env != s.cur)
            && (k in Sharers(t) <==> k in Sharers(s) && k.env != s.cur)
  {
  }
}
