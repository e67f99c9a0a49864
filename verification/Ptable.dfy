/**
 * The process table: fork, clone, exec, exit, wait, join, kill and growproc. Everything one process does while it
 * holds ptable.lock is one step, and so is all of clone, which takes no lock.
 */
module Ptable {
  datatype PState = UNUSED | EMBRYO | SLEEPING | RUNNABLE | RUNNING | ZOMBIE

  /** A sleep channel: the address of a process, or of anything else. */
  datatype Chan = NoChan | OnProc(p: nat) | OnOther(c: nat)

  /** Where in the kernel the process is: what its kernel stack says. An EMBRYO being made by fork says who makes it. */
  datatype Place = User | InWait | InJoin | InOther | InFork(child: nat) | Born(maker: nat, copied: bool)

  const NULL := -1

  datatype Proc = Proc(state: PState, pid: nat, parent: int, chan: Chan, killed: bool, pgdir: nat, sz: nat,
                       place: Place)

  /** The table, the slot of initproc, the page directories in use, and the pids wait and join have returned. */
  datatype Sys = Sys(procs: seq<Proc>, init: nat, nextpid: nat, dirs: set<nat>, returned: set<nat>)

  predicate Acting(p: Proc) { p.state == SLEEPING || p.state == RUNNABLE || p.state == RUNNING }

  predicate Live(p: Proc) { Acting(p) || p.state == ZOMBIE }

  /** A child wait can reap has another page directory than its parent, one join can reap has the same. */
  predicate Child(ps: seq<Proc>, i: nat, thread: bool, j: nat)
    requires i < |ps| && j < |ps|
  {
    ps[j].parent == i && (ps[j].pgdir == ps[i].pgdir) == thread
  }

  predicate ProcOk(s: Sys, j: nat)
    requires j < |s.procs|
  {
    var p := s.procs[j];
    && (j == s.init ==> Acting(p))
    && (p.state == UNUSED ==> p.parent == NULL)
    && (p.parent != NULL ==> 0 <= p.parent < |s.procs| && Acting(s.procs[p.parent]) && p.parent != j)
    && (Live(p) ==> p.pgdir in s.dirs && p.pgdir != 0 && (p.parent != NULL <==> j != s.init))
    && (p.state == SLEEPING ==> p.place.InWait? || p.place.InJoin? || p.place.InOther?)
    && (p.place.InWait? || p.place.InJoin? ==> p.state == RUNNABLE || p.chan == OnProc(j))
    && (p.place.InOther? ==> p.chan.OnOther?)
    && p.pid < s.nextpid && (p.state != UNUSED ==> p.pid > 0 && p.pid !in s.returned)
    && (p.place.InFork? ==> (p.state == RUNNABLE || p.state == RUNNING) && p.place.child < |s.procs|
                            && s.procs[p.place.child].place.Born? && s.procs[p.place.child].place.maker == j)
    && (p.place.Born? && !p.place.copied ==> p.parent == NULL)
    && (p.place.Born? ==> p.state == EMBRYO && p.place.maker < |s.procs| && s.procs[p.place.maker].place == InFork(j)
                          && (p.place.copied ==> p.pgdir in s.dirs && p.pgdir != 0 && p.parent == p.place.maker))
  }

  predicate PairOk(s: Sys, i: nat, j: nat)
    requires i < |s.procs| && j < |s.procs|
  {
    var p, q := s.procs[i], s.procs[j];
    && (i != j && p.state != UNUSED && q.state != UNUSED ==> p.pid != q.pid)
    && (Live(p) && Live(q) && p.pgdir == q.pgdir ==> p.sz == q.sz)
    && (i != j && p.place.Born? && p.place.copied && (Live(q) || (q.place.Born? && q.place.copied)) ==>
          q.pgdir != p.pgdir)
    && (p.state == SLEEPING && p.place.InWait? && q.state == ZOMBIE ==> !Child(s.procs, i, false, j))
    && (p.state == SLEEPING && p.place.InJoin? && q.state == ZOMBIE ==> !Child(s.procs, i, true, j))
  }

  ghost predicate Inv(s: Sys) {
    && s.init < |s.procs|
    && (forall d: nat {:trigger d in s.returned} :: d in s.returned ==> d < s.nextpid)
    && 0 < s.nextpid
    && (forall j: nat {:trigger ProcOk(s, j)} :: j < |s.procs| ==> ProcOk(s, j))
    && (forall i: nat, j: nat {:trigger PairOk(s, i, j)} :: i < |s.procs| && j < |s.procs| ==> PairOk(s, i, j))
  }

  // What the loops over the table compute.

  /** wakeup1: everybody sleeping on c becomes runnable. */
  function Woken(ps: seq<Proc>, c: Chan): seq<Proc> {
    seq(|ps|, j requires 0 <= j < |ps| =>
      if ps[j].state == SLEEPING && ps[j].chan == c then ps[j].(state := RUNNABLE) else ps[j])
  }

  /** The loop of exit: the children of i go to init. */
  function Adopted(ps: seq<Proc>, i: nat, init: nat): seq<Proc> {
    seq(|ps|, j requires 0 <= j < |ps| => if ps[j].parent == i then ps[j].(parent := init) else ps[j])
  }

  /** The loop of growproc: every used slot with page directory d gets the new size. */
  function Resized(ps: seq<Proc>, d: nat, sz: nat): seq<Proc> {
    seq(|ps|, j requires 0 <= j < |ps| =>
      if ps[j].pgdir == d && ps[j].state != UNUSED then ps[j].(sz := sz) else ps[j])
  }

  predicate ZombieChild(ps: seq<Proc>, i: nat, j: nat)
    requires j < |ps|
  {
    ps[j].parent == i && ps[j].state == ZOMBIE
  }

  /** exit, from acquire(&ptable.lock) on: i's parent is woken, and init if it inherits a zombie. */
  function Exited(ps: seq<Proc>, i: nat, init: nat, zombies: bool): (r: seq<Proc>)
    requires i < |ps| && ps[i].parent >= 0
    ensures |r| == |ps|
  {
    var a := Adopted(Woken(ps, OnProc(ps[i].parent)), i, init);
    var b := if zombies then Woken(a, OnProc(init)) else a;
    b[i := b[i].(state := ZOMBIE)]
  }

  // One pass of wait or join over the table.

  datatype Outcome = Reaped(child: nat) | Nothing | Sleeps

  predicate Reapable(ps: seq<Proc>, i: nat, thread: bool, j: nat)
    requires i < |ps| && j < |ps|
  {
    Child(ps, i, thread, j) && ps[j].state == ZOMBIE
  }

  /** The first child to reap; failing that -1 if there is no child or the caller was killed; else sleep. */
  ghost predicate IsOutcome(ps: seq<Proc>, i: nat, thread: bool, o: Outcome)
    requires i < |ps|
  {
    match o
    case Reaped(j) =>
      && j < |ps| && Reapable(ps, i, thread, j)
      && (forall k: nat {:trigger Reapable(ps, i, thread, k)} :: k < j ==> !Reapable(ps, i, thread, k))
    case Nothing =>
      && (forall k: nat {:trigger Reapable(ps, i, thread, k)} :: k < |ps| ==> !Reapable(ps, i, thread, k))
      && (ps[i].killed || forall k: nat {:trigger Child(ps, i, thread, k)} :: k < |ps| ==> !Child(ps, i, thread, k))
    case Sleeps =>
      && (forall k: nat {:trigger Reapable(ps, i, thread, k)} :: k < |ps| ==> !Reapable(ps, i, thread, k))
      && !ps[i].killed
      && exists k: nat {:trigger Child(ps, i, thread, k)} :: k < |ps| && Child(ps, i, thread, k)
  }

  /** Some other slot, used or not, holds the page directory of slot j. */
  ghost predicate Held(ps: seq<Proc>, j: nat)
    requires j < |ps|
  {
    exists k: nat {:trigger ps[k]} :: k < |ps| && k != j && ps[k].pgdir == ps[j].pgdir
  }

  /** The slot of a reaped child. join leaves the page directory in it; wait does so if it has freed it. */
  function Emptied(p: Proc, thread: bool, held: bool): Proc {
    p.(state := UNUSED, pid := 0, parent := NULL, killed := false, place := User,
       pgdir := if !thread && held then 0 else p.pgdir)
  }

  /** The caller's own slot after the pass. */
  function Passed(p: Proc, i: nat, thread: bool, o: Outcome): Proc {
    if o.Sleeps? then p.(state := SLEEPING, chan := OnProc(i), place := if thread then InJoin else InWait)
    else p.(state := RUNNING, chan := NoChan, place := User)
  }

  ghost function Pass(s: Sys, i: nat, thread: bool, o: Outcome): Sys
    requires i < |s.procs| && (o.Reaped? ==> o.child < |s.procs|)
  {
    var ps := s.procs[i := Passed(s.procs[i], i, thread, o)];
    match o
    case Reaped(j) =>
      var q, held := s.procs[j], Held(s.procs, j);
      s.(procs := ps[j := Emptied(q, thread, held)],
         dirs := if thread || held then s.dirs else s.dirs - {q.pgdir},
         returned := s.returned + {q.pid})
    case _ => s.(procs := ps)
  }

  // Steps.

  datatype CloneEnd = BadStack | CopyFault | Cloned

  datatype Action =
    | Dispatch(i: nat) | Preempt(i: nat)
    | SleepOn(i: nat, c: nat) | WakeOn(c: nat)
    | WaitPass(i: nat, thread: bool, o: Outcome)
    | Exit(i: nat, zombies: bool) | Kill(pid: nat)
    | ForkAlloc(i: nat, j: nat) | ForkFail(i: nat, tried: bool) | ForkCopy(i: nat, d: nat) | ForkDone(i: nat)
    | Clone(i: nat, j: nat, end: CloneEnd)
    | Exec(i: nat, d: nat, sz: nat) | Grow(i: nat, sz: nat)

  /** The process runs, in user code or at the start of a system call. */
  predicate Running(s: Sys, i: nat) { i < |s.procs| && s.procs[i].state == RUNNING && s.procs[i].place == User }

  predicate Forking(s: Sys, i: nat, copied: bool) {
    && i < |s.procs| && s.procs[i].state == RUNNING && s.procs[i].place.InFork? && s.procs[i].place.child < |s.procs|
    && s.procs[s.procs[i].place.child].place == Born(i, copied)
  }

  predicate FreshDir(s: Sys, d: nat) { d != 0 && d !in s.dirs }

  /** No live process but i has i's page directory. */
  ghost predicate Unshared(s: Sys, i: nat)
    requires i < |s.procs|
  {
    forall j: nat {:trigger s.procs[j]} ::
      j < |s.procs| && j != i && Live(s.procs[j]) ==> s.procs[j].pgdir != s.procs[i].pgdir
  }

  /** Inside the loop of wait or join: just called, or woken from its sleep. */
  predicate Looping(p: Proc, thread: bool) {
    || (p.state == RUNNING && p.place == User)
    || (p.state == RUNNABLE && p.place == if thread then InJoin else InWait)
  }

  ghost predicate Enabled(s: Sys, a: Action) {
    match a
    case Dispatch(i) =>
      i < |s.procs| && s.procs[i].state == RUNNABLE && !s.procs[i].place.InWait? && !s.procs[i].place.InJoin?
    case Preempt(i) => i < |s.procs| && s.procs[i].state == RUNNING
    case SleepOn(i, c) => Running(s, i)
    case WakeOn(c) => true
    case WaitPass(i, thread, o) => i < |s.procs| && Looping(s.procs[i], thread) && IsOutcome(s.procs, i, thread, o)
    case Exit(i, z) => Running(s, i) && i != s.init && s.procs[i].parent >= 0
                       && (z <==> exists j: nat {:trigger ZombieChild(s.procs, i, j)} ::
                                    j < |s.procs| && ZombieChild(s.procs, i, j))
    case Kill(_) => true
    case ForkAlloc(i, j) => Running(s, i) && j < |s.procs| && s.procs[j].state == UNUSED
    case ForkFail(i, _) => Forking(s, i, false)
    case ForkCopy(i, d) => Forking(s, i, false) && FreshDir(s, d)
    case ForkDone(i) => Forking(s, i, true)
    case Clone(i, j, _) => Running(s, i) && j < |s.procs| && s.procs[j].state == UNUSED
    case Exec(i, d, _) => Running(s, i) && FreshDir(s, d) && Unshared(s, i)
    case Grow(i, sz) => Running(s, i)
  }

  function Put(s: Sys, i: nat, p: Proc): Sys
    requires i < |s.procs|
  {
    s.(procs := s.procs[i := p])
  }

  /** allocproc: the slot keeps what its last user left in it, but for state and pid. */
  function Alloc(s: Sys, j: nat, place: Place): Sys
    requires j < |s.procs|
  {
    Put(s, j, s.procs[j].(state := EMBRYO, pid := s.nextpid, place := place)).(nextpid := s.nextpid + 1)
  }

  /** The first slot with this pid, in whatever state it is; |ps| if there is none. */
  function FirstPid(ps: seq<Proc>, pid: nat): (k: nat)
    ensures k <= |ps| && (k < |ps| ==> ps[k].pid == pid)
    ensures forall j: nat {:trigger ps[j]} :: j < k ==> ps[j].pid != pid
  {
    if ps == [] then 0
    else
      var k := FirstPid(ps[..|ps| - 1], pid);
      if k < |ps| - 1 || ps[|ps| - 1].pid == pid then k else |ps|
  }

  /** kill: the first slot with the pid is marked and, if it sleeps, made runnable. */
  function Killed(s: Sys, pid: nat): Sys {
    var k := FirstPid(s.procs, pid);
    if k == |s.procs| then s
    else
      var p := s.procs[k];
      Put(s, k, p.(killed := true, state := if p.state == SLEEPING then RUNNABLE else p.state))
  }

  function ForkStarted(s: Sys, i: nat, j: nat): Sys
    requires i < |s.procs| && j < |s.procs|
  {
    Alloc(Put(s, i, s.procs[i].(place := InFork(j))), j, Born(i, false))
  }

  /** No kernel stack, or copyuvm failed, which leaves a null directory in the slot. */
  function ForkFailed(s: Sys, i: nat, tried: bool): Sys
    requires Forking(s, i, false)
  {
    var c := s.procs[i].place.child;
    var q := s.procs[c];
    Put(Put(s, i, s.procs[i].(place := User)), c,
        q.(state := UNUSED, place := User, pgdir := if tried then 0 else q.pgdir))
  }

  function ForkCopied(s: Sys, i: nat, d: nat): Sys
    requires Forking(s, i, false)
  {
    var c := s.procs[i].place.child;
    Put(s, c, s.procs[c].(pgdir := d, sz := s.procs[i].sz, parent := i, place := Born(i, true))).(dirs := s.dirs + {d})
  }

  function ForkFinished(s: Sys, i: nat): Sys
    requires Forking(s, i, true)
  {
    var c := s.procs[i].place.child;
    Put(Put(s, i, s.procs[i].(place := User)), c, s.procs[c].(state := RUNNABLE, place := User))
  }

  /** The slot clone makes: complete, or left an EMBRYO where a check or copyout fails. */
  function Thread(s: Sys, i: nat, j: nat, end: CloneEnd): Proc
    requires i < |s.procs| && j < |s.procs|
  {
    var p, q := s.procs[i], s.procs[j].(state := EMBRYO, pid := s.nextpid, place := User);
    if end.BadStack? then q
    else q.(pgdir := p.pgdir, sz := p.sz, parent := i, state := if end.Cloned? then RUNNABLE else EMBRYO)
  }

  function CloneDone(s: Sys, i: nat, j: nat, end: CloneEnd): Sys
    requires i < |s.procs| && j < |s.procs|
  {
    Put(s, j, Thread(s, i, j, end)).(nextpid := s.nextpid + 1)
  }

  /** exec installs a new directory and frees the old one, whoever else uses it. */
  function ExecDone(s: Sys, i: nat, d: nat, sz: nat): Sys
    requires i < |s.procs|
  {
    Put(s, i, s.procs[i].(pgdir := d, sz := sz)).(dirs := s.dirs + {d} - {s.procs[i].pgdir})
  }

  function Grown(s: Sys, i: nat, sz: nat): Sys
    requires i < |s.procs|
  {
    s.(procs := Resized(s.procs[i := s.procs[i].(sz := sz)], s.procs[i].pgdir, sz))
  }

  ghost function Do(s: Sys, a: Action): Sys
    requires Enabled(s, a)
  {
    match a
    case Dispatch(i) =>
      var p := s.procs[i];
      Put(s, i, p.(state := RUNNING, chan := NoChan, place := if p.place.InOther? then User else p.place))
    case Preempt(i) => Put(s, i, s.procs[i].(state := RUNNABLE))
    case SleepOn(i, c) => Put(s, i, s.procs[i].(state := SLEEPING, chan := OnOther(c), place := InOther))
    case WakeOn(c) => s.(procs := Woken(s.procs, OnOther(c)))
    case WaitPass(i, thread, o) => Pass(s, i, thread, o)
    case Exit(i, z) => s.(procs := Exited(s.procs, i, s.init, z))
    case Kill(pid) => Killed(s, pid)
    case ForkAlloc(i, j) => ForkStarted(s, i, j)
    case ForkFail(i, tried) => ForkFailed(s, i, tried)
    case ForkCopy(i, d) => ForkCopied(s, i, d)
    case ForkDone(i) => ForkFinished(s, i)
    case Clone(i, j, end) => CloneDone(s, i, j, end)
    case Exec(i, d, sz) => ExecDone(s, i, d, sz)
    case Grow(i, sz) => Grown(s, i, sz)
  }

  /** The invariant at slot j and at the slots it names. */
  lemma Near(s: Sys, j: nat)
    requires Inv(s) && j < |s.procs|
    ensures ProcOk(s, j)
    ensures var p := s.procs[j];
            && (p.parent >= 0 ==> ProcOk(s, p.parent))
            && (p.place.InFork? ==> ProcOk(s, p.place.child))
            && (p.place.Born? ==> ProcOk(s, p.place.maker))
  {
    assert ProcOk(s, j);
  }

  /** A change of run state, channel or killed flag only, which puts nobody to sleep in wait or join. */
  predicate Tame(p: Proc, q: Proc) {
    && q.pid == p.pid && q.parent == p.parent && q.pgdir == p.pgdir && q.sz == p.sz
    && (q == p.(killed := q.killed)
        || (&& Acting(p) && Acting(q)
            && (q.state == SLEEPING ==> q.place.InOther?)
            && (q.place.InOther? ==> q.chan.OnOther?)
            && (q.place.InWait? || q.place.InJoin? ==> q.state == RUNNABLE && q.place == p.place)
            && !q.place.Born? && (p.place.InFork? || q.place.InFork? ==> q.place == p.place)))
  }

  /** t is s with tame changes. */
  ghost predicate TameStep(s: Sys, t: Sys) {
    && t == s.(procs := t.procs) && |t.procs| == |s.procs|
    && forall j: nat {:trigger t.procs[j]} :: j < |s.procs| ==> Tame(s.procs[j], t.procs[j])
  }

  lemma TameProc(s: Sys, t: Sys, j: nat)
    requires Inv(s) && TameStep(s, t) && j < |s.procs|
    ensures ProcOk(t, j)
  {
    Near(s, j);
    var p := s.procs[j];
    assert Tame(p, t.procs[j]);
    assert p.parent >= 0 ==> Tame(s.procs[p.parent], t.procs[p.parent]);
    assert p.place.InFork? ==> Tame(s.procs[p.place.child], t.procs[p.place.child]);
    assert p.place.Born? ==> Tame(s.procs[p.place.maker], t.procs[p.place.maker]);
  }

  lemma TamePair(s: Sys, t: Sys, k: nat, j: nat)
    requires Inv(s) && TameStep(s, t) && k < |s.procs| && j < |s.procs|
    ensures PairOk(t, k, j)
  {
    assert PairOk(s, k, j) && Tame(s.procs[k], t.procs[k]) && Tame(s.procs[j], t.procs[j]);
  }

  /** Steps that only move processes between running, waiting and sleeping elsewhere. */
  predicate IsTame(a: Action) {
    a.Dispatch? || a.Preempt? || a.SleepOn? || a.WakeOn? || a.Kill? || (a.WaitPass? && a.o == Nothing)
  }

  lemma TameSteps(s: Sys, a: Action)
    requires Inv(s) && Enabled(s, a) && IsTame(a)
    ensures TameStep(s, Do(s, a))
  {
    var t := Do(s, a);
    forall j: nat {:trigger t.procs[j]} | j < |s.procs|
      ensures Tame(s.procs[j], t.procs[j])
    {
      assert ProcOk(s, j);
    }
  }

  lemma SleepsProc(s: Sys, i: nat, thread: bool, j: nat)
    requires Inv(s) && i < |s.procs| && Looping(s.procs[i], thread) && IsOutcome(s.procs, i, thread, Sleeps)
    requires j < |s.procs|
    ensures ProcOk(Pass(s, i, thread, Sleeps), j)
  {
    Near(s, j);
  }

  lemma SleepsPair(s: Sys, i: nat, thread: bool, k: nat, j: nat)
    requires Inv(s) && i < |s.procs| && Looping(s.procs[i], thread) && IsOutcome(s.procs, i, thread, Sleeps)
    requires k < |s.procs| && j < |s.procs|
    ensures PairOk(Pass(s, i, thread, Sleeps), k, j)
  {
    assert PairOk(s, k, j);
    assert !Reapable(s.procs, i, thread, j);
  }

  lemma ReapedOther(s: Sys, i: nat, thread: bool, c: nat, j: nat)
    requires Inv(s) && i < |s.procs| && Looping(s.procs[i], thread) && IsOutcome(s.procs, i, thread, Reaped(c))
    requires j < |s.procs| && j != i && j != c
    ensures ProcOk(Pass(s, i, thread, Reaped(c)), j)
  {
    Near(s, j);
    assert ProcOk(s, c) && PairOk(s, j, c);
  }

  lemma ReapedProc(s: Sys, i: nat, thread: bool, c: nat, j: nat)
    requires Inv(s) && i < |s.procs| && Looping(s.procs[i], thread) && IsOutcome(s.procs, i, thread, Reaped(c))
    requires j < |s.procs|
    ensures ProcOk(Pass(s, i, thread, Reaped(c)), j)
  {
    if j == i {
      Near(s, i);
      assert ProcOk(s, c) && PairOk(s, i, c);
    } else if j == c {
      assert ProcOk(s, c);
    } else {
      ReapedOther(s, i, thread, c, j);
    }
  }

  lemma ReapedPair(s: Sys, i: nat, thread: bool, c: nat, k: nat, j: nat)
    requires Inv(s) && i < |s.procs| && Looping(s.procs[i], thread) && IsOutcome(s.procs, i, thread, Reaped(c))
    requires k < |s.procs| && j < |s.procs|
    ensures PairOk(Pass(s, i, thread, Reaped(c)), k, j)
  {
    assert PairOk(s, k, j) && ProcOk(s, c);
  }

  /** The pid of a reaped child was not returned before, and its page directory is in use. */
  lemma ReapedFresh(s: Sys, i: nat, thread: bool, c: nat)
    requires Inv(s) && i < |s.procs| && Looping(s.procs[i], thread) && IsOutcome(s.procs, i, thread, Reaped(c))
    ensures s.procs[c].pid > 0 && s.procs[c].pid !in s.returned && s.procs[c].pgdir in s.dirs
  {
    assert ProcOk(s, c);
  }

  lemma ExecProc(s: Sys, i: nat, d: nat, sz: nat, j: nat)
    requires Inv(s) && Running(s, i) && FreshDir(s, d) && Unshared(s, i) && j < |s.procs|
    ensures ProcOk(ExecDone(s, i, d, sz), j)
  {
    Near(s, j);
    assert PairOk(s, j, i);
  }

  lemma ExecPair(s: Sys, i: nat, d: nat, sz: nat, k: nat, j: nat)
    requires Inv(s) && Running(s, i) && FreshDir(s, d) && Unshared(s, i) && k < |s.procs| && j < |s.procs|
    ensures PairOk(ExecDone(s, i, d, sz), k, j)
  {
    assert PairOk(s, k, j);
    assert ProcOk(s, k) && ProcOk(s, j) && PairOk(s, k, i) && PairOk(s, j, i);
  }

  lemma GrowProc(s: Sys, i: nat, sz: nat, j: nat)
    requires Inv(s) && Running(s, i) && j < |s.procs|
    ensures ProcOk(Grown(s, i, sz), j)
  {
    Near(s, j);
  }

  lemma GrowPair(s: Sys, i: nat, sz: nat, k: nat, j: nat)
    requires Inv(s) && Running(s, i) && k < |s.procs| && j < |s.procs|
    ensures PairOk(Grown(s, i, sz), k, j)
  {
    assert PairOk(s, k, j);
  }

  lemma ForkAllocProc(s: Sys, i: nat, m: nat, j: nat)
    requires Inv(s) && Running(s, i) && m < |s.procs| && s.procs[m].state == UNUSED && j < |s.procs|
    ensures ProcOk(ForkStarted(s, i, m), j)
  {
    Near(s, j);
    assert ProcOk(s, m) && ProcOk(s, i);
  }

  lemma ForkAllocPair(s: Sys, i: nat, m: nat, k: nat, j: nat)
    requires Inv(s) && Running(s, i) && m < |s.procs| && s.procs[m].state == UNUSED && k < |s.procs| && j < |s.procs|
    ensures PairOk(ForkStarted(s, i, m), k, j)
  {
    assert PairOk(s, k, j);
    assert ProcOk(s, k) && ProcOk(s, j);
  }

  lemma ForkFailProc(s: Sys, i: nat, tried: bool, j: nat)
    requires Inv(s) && Forking(s, i, false) && j < |s.procs|
    ensures ProcOk(ForkFailed(s, i, tried), j)
  {
    Near(s, j);
    Near(s, i);
  }

  lemma ForkFailPair(s: Sys, i: nat, tried: bool, k: nat, j: nat)
    requires Inv(s) && Forking(s, i, false) && k < |s.procs| && j < |s.procs|
    ensures PairOk(ForkFailed(s, i, tried), k, j)
  {
    assert PairOk(s, k, j);
  }

  lemma ForkCopyProc(s: Sys, i: nat, d: nat, j: nat)
    requires Inv(s) && Forking(s, i, false) && FreshDir(s, d) && j < |s.procs|
    ensures ProcOk(ForkCopied(s, i, d), j)
  {
    Near(s, j);
    Near(s, i);
  }

  lemma ForkCopyPair(s: Sys, i: nat, d: nat, k: nat, j: nat)
    requires Inv(s) && Forking(s, i, false) && FreshDir(s, d) && k < |s.procs| && j < |s.procs|
    ensures PairOk(ForkCopied(s, i, d), k, j)
  {
    assert PairOk(s, k, j);
    assert ProcOk(s, k) && ProcOk(s, j);
  }

  lemma ForkDoneProc(s: Sys, i: nat, j: nat)
    requires Inv(s) && Forking(s, i, true) && j < |s.procs|
    ensures ProcOk(ForkFinished(s, i), j)
  {
    Near(s, j);
    Near(s, i);
  }

  lemma ForkDonePair(s: Sys, i: nat, k: nat, j: nat)
    requires Inv(s) && Forking(s, i, true) && k < |s.procs| && j < |s.procs|
    ensures PairOk(ForkFinished(s, i), k, j)
  {
    assert PairOk(s, k, j);
    Near(s, i);
    assert PairOk(s, s.procs[i].place.child, k) && PairOk(s, s.procs[i].place.child, j);
  }

  lemma CloneProc(s: Sys, i: nat, m: nat, end: CloneEnd, j: nat)
    requires Inv(s) && Running(s, i) && m < |s.procs| && s.procs[m].state == UNUSED && j < |s.procs|
    ensures ProcOk(CloneDone(s, i, m, end), j)
  {
    Near(s, j);
    assert ProcOk(s, m) && ProcOk(s, i);
  }

  lemma ClonePair(s: Sys, i: nat, m: nat, end: CloneEnd, k: nat, j: nat)
    requires Inv(s) && Running(s, i) && m < |s.procs| && s.procs[m].state == UNUSED && k < |s.procs| && j < |s.procs|
    ensures PairOk(CloneDone(s, i, m, end), k, j)
  {
    assert PairOk(s, k, j);
    assert ProcOk(s, k) && ProcOk(s, j) && PairOk(s, i, k) && PairOk(s, i, j) && PairOk(s, k, i) && PairOk(s, j, i);
  }

  /** What exit makes of slot j. */
  function ExitSlot(ps: seq<Proc>, i: nat, init: nat, zombies: bool, j: nat): Proc
    requires i < |ps| && j < |ps|
  {
    var p := ps[j];
    var wakes := p.state == SLEEPING && ps[i].parent >= 0
                 && (p.chan == OnProc(ps[i].parent) || (zombies && p.chan == OnProc(init)));
    p.(parent := if p.parent == i then init else p.parent,
       state := if j == i then ZOMBIE else if wakes then RUNNABLE else p.state)
  }

  lemma ExitedAt(ps: seq<Proc>, i: nat, init: nat, zombies: bool, j: nat)
    requires i < |ps| && ps[i].parent >= 0 && j < |ps|
    ensures Exited(ps, i, init, zombies)[j] == ExitSlot(ps, i, init, zombies, j)
  {
  }

  /** t is s after exit, slot by slot. */
  ghost predicate ExitTo(s: Sys, t: Sys, i: nat, zombies: bool)
    requires i < |s.procs|
  {
    && t == s.(procs := t.procs) && |t.procs| == |s.procs|
    && forall j: nat {:trigger t.procs[j]} ::
         j < |s.procs| ==> t.procs[j] == ExitSlot(s.procs, i, s.init, zombies, j)
  }

  lemma ExitOwn(s: Sys, t: Sys, i: nat, zombies: bool)
    requires Inv(s) && Enabled(s, Exit(i, zombies)) && ExitTo(s, t, i, zombies)
    ensures ProcOk(t, i)
  {
    Near(s, i);
    var p := t.procs[i].parent;
    assert p < |s.procs| && t.procs[p] == ExitSlot(s.procs, i, s.init, zombies, p);
  }

  lemma ExitProc(s: Sys, t: Sys, i: nat, zombies: bool, j: nat)
    requires Inv(s) && Enabled(s, Exit(i, zombies)) && ExitTo(s, t, i, zombies) && j < |s.procs|
    ensures ProcOk(t, j)
  {
    if j == i {
      ExitOwn(s, t, i, zombies);
    } else {
      Near(s, j);
      var p := s.procs[j];
      if p.parent == i {
        assert ProcOk(s, s.init) && t.procs[s.init].place == s.procs[s.init].place;
      }
      assert p.place.InFork? ==> t.procs[p.place.child].place == s.procs[p.place.child].place;
      assert p.place.Born? ==> t.procs[p.place.maker].place == s.procs[p.place.maker].place;
    }
  }

  /** Nobody who still sleeps after exit sleeps on the parent, nor on init if it got a zombie. */
  lemma ExitSleeper(s: Sys, i: nat, zombies: bool, k: nat)
    requires Inv(s) && Enabled(s, Exit(i, zombies)) && k < |s.procs|
    requires ExitSlot(s.procs, i, s.init, zombies, k).state == SLEEPING
    requires s.procs[k].place.InWait? || s.procs[k].place.InJoin?
    ensures s.procs[k].state == SLEEPING && k != s.procs[i].parent && (zombies ==> k != s.init)
  {
    assert ProcOk(s, k);
  }

  lemma ExitAwaited(s: Sys, i: nat, zombies: bool, k: nat, j: nat, thread: bool)
    requires Inv(s) && Enabled(s, Exit(i, zombies)) && k < |s.procs| && j < |s.procs|
    requires var p, q := ExitSlot(s.procs, i, s.init, zombies, k), ExitSlot(s.procs, i, s.init, zombies, j);
             && p.state == SLEEPING && p.place == (if thread then InJoin else InWait)
             && q.state == ZOMBIE && q.parent == k
    ensures (s.procs[j].pgdir == s.procs[k].pgdir) != thread
  {
    ExitSleeper(s, i, zombies, k);
    assert PairOk(s, k, j) && ProcOk(s, j) && ProcOk(s, i);
    assert ZombieChild(s.procs, i, j) ==> zombies;
  }

  lemma ExitPair(s: Sys, t: Sys, i: nat, zombies: bool, k: nat, j: nat)
    requires Inv(s) && Enabled(s, Exit(i, zombies)) && ExitTo(s, t, i, zombies) && k < |s.procs| && j < |s.procs|
    ensures PairOk(t, k, j)
  {
    assert PairOk(s, k, j) && ProcOk(s, k) && ProcOk(s, j);
    var p, q := t.procs[k], t.procs[j];
    if p.state == SLEEPING && q.state == ZOMBIE && q.parent == k {
      if p.place.InWait? {
        ExitAwaited(s, i, zombies, k, j, false);
      } else if p.place.InJoin? {
        ExitAwaited(s, i, zombies, k, j, true);
      }
    }
  }

  lemma ExitStep(s: Sys, i: nat, zombies: bool)
    requires Inv(s) && Enabled(s, Exit(i, zombies))
    ensures ExitTo(s, s.(procs := Exited(s.procs, i, s.init, zombies)), i, zombies)
  {
    var t := s.(procs := Exited(s.procs, i, s.init, zombies));
    forall j: nat {:trigger t.procs[j]} | j < |s.procs|
      ensures t.procs[j] == ExitSlot(s.procs, i, s.init, zombies, j)
    {
      ExitedAt(s.procs, i, s.init, zombies, j);
    }
  }

  // Every step keeps the invariant: slot by slot, pair by pair.

  predicate IsFork(a: Action) { a.ForkAlloc? || a.ForkFail? || a.ForkCopy? || a.ForkDone? }

  lemma ForkingProc(s: Sys, a: Action, j: nat)
    requires Inv(s) && Enabled(s, a) && j < |s.procs| && IsFork(a)
    ensures j < |Do(s, a).procs| && ProcOk(Do(s, a), j)
  {
    match a
    case ForkAlloc(i, m) => ForkAllocProc(s, i, m, j);
    case ForkFail(i, tried) => ForkFailProc(s, i, tried, j);
    case ForkCopy(i, d) => ForkCopyProc(s, i, d, j);
    case ForkDone(i) => ForkDoneProc(s, i, j);
  }

  lemma StepProc(s: Sys, a: Action, j: nat)
    requires Inv(s) && Enabled(s, a) && j < |s.procs| && !IsTame(a)
    ensures j < |Do(s, a).procs| && ProcOk(Do(s, a), j)
  {
    match a
    case WaitPass(i, thread, o) =>
      if o.Reaped? {
        ReapedProc(s, i, thread, o.child, j);
      } else {
        SleepsProc(s, i, thread, j);
      }
    case Exit(i, z) =>
      ExitStep(s, i, z);
      ExitProc(s, Do(s, a), i, z, j);
    case Clone(i, m, end) => CloneProc(s, i, m, end, j);
    case Exec(i, d, sz) => ExecProc(s, i, d, sz, j);
    case Grow(i, sz) => GrowProc(s, i, sz, j);
    case _ => ForkingProc(s, a, j);
  }

  lemma StepPair(s: Sys, a: Action, k: nat, j: nat)
    requires Inv(s) && Enabled(s, a) && k < |s.procs| && j < |s.procs| && !IsTame(a)
    ensures |Do(s, a).procs| == |s.procs| && PairOk(Do(s, a), k, j)
  {
    match a
    case WaitPass(i, thread, o) =>
      if o.Reaped? {
        ReapedPair(s, i, thread, o.child, k, j);
      } else {
        SleepsPair(s, i, thread, k, j);
      }
    case Exit(i, z) =>
      ExitStep(s, i, z);
      ExitPair(s, Do(s, a), i, z, k, j);
    case ForkAlloc(i, m) => ForkAllocPair(s, i, m, k, j);
    case ForkFail(i, tried) => ForkFailPair(s, i, tried, k, j);
    case ForkCopy(i, d) => ForkCopyPair(s, i, d, k, j);
    case ForkDone(i) => ForkDonePair(s, i, k, j);
    case Clone(i, m, end) => ClonePair(s, i, m, end, k, j);
    case Exec(i, d, sz) => ExecPair(s, i, d, sz, k, j);
    case Grow(i, sz) => GrowPair(s, i, sz, k, j);
  }

  /** What the invariant says beside the slots. */
  ghost predicate Frame(s: Sys) {
    && s.init < |s.procs| && 0 < s.nextpid
    && forall d: nat {:trigger d in s.returned} :: d in s.returned ==> d < s.nextpid
  }

  lemma StepFrame(s: Sys, a: Action)
    requires Inv(s) && Enabled(s, a) && !IsTame(a)
    ensures Frame(Do(s, a))
  {
    if a.WaitPass? && a.o.Reaped? {
      assert ProcOk(s, a.o.child);
    }
  }

  lemma InvStep(s: Sys, a: Action)
    requires Inv(s) && Enabled(s, a)
    ensures Inv(Do(s, a))
  {
    var t := Do(s, a);
    if IsTame(a) {
      TameSteps(s, a);
      assert Tame(s.procs[s.init], t.procs[s.init]);
    } else {
      StepFrame(s, a);
      StepPair(s, a, s.init, s.init);
    }
    forall j: nat {:trigger ProcOk(t, j)} | j < |t.procs|
      ensures ProcOk(t, j)
    {
      if IsTame(a) {
        TameProc(s, t, j);
      } else {
        StepProc(s, a, j);
      }
    }
    forall k: nat, j: nat {:trigger PairOk(t, k, j)} | k < |t.procs| && j < |t.procs|
      ensures PairOk(t, k, j)
    {
      if IsTame(a) {
        TamePair(s, t, k, j);
      } else {
        StepPair(s, a, k, j);
      }
    }
  }

  // Whole runs.

  /** userinit has made the first process; every other slot is as the boot left it. */
  predicate Init(s: Sys) {
    && s.init < |s.procs| && s.returned == {} && s.nextpid == 2
    && (forall j: nat {:trigger s.procs[j]} :: j < |s.procs| && j != s.init ==>
          s.procs[j].state == UNUSED && s.procs[j].pid == 0 && s.procs[j].parent == NULL && s.procs[j].place == User)
    && var p := s.procs[s.init];
       p.state == RUNNABLE && p.pid == 1 && p.parent == NULL && p.place == User && p.pgdir != 0 && s.dirs == {p.pgdir}
  }

  ghost predicate Run(s: Sys, t: Sys, run: seq<Action>)
    decreases |run|
  {
    if run == [] then t == s else Enabled(s, run[0]) && Run(Do(s, run[0]), t, run[1..])
  }

  lemma InitInv(s: Sys)
    requires Init(s)
    ensures Inv(s)
  {
  }

  lemma {:induction false} InvRun(s: Sys, t: Sys, run: seq<Action>)
    requires Inv(s) && Run(s, t, run)
    ensures Inv(t)
    decreases |run|
  {
    if run != [] {
      InvStep(s, run[0]);
      InvRun(Do(s, run[0]), t, run[1..]);
    }
  }

  /**
   * In every run: no process sleeps in wait or join while it has a zombie child to reap, and every child's parent
   * is a process that can still reap it.
   */
  lemma ExitProtocol(s: Sys, t: Sys, run: seq<Action>, j: nat)
    requires Init(s) && Run(s, t, run) && j < |t.procs| && t.procs[j].parent != NULL
    ensures 0 <= t.procs[j].parent < |t.procs|
    ensures var p := t.procs[t.procs[j].parent];
            && Acting(p)
            && (t.procs[j].state == ZOMBIE && p.state == SLEEPING && p.place.InWait? ==> t.procs[j].pgdir == p.pgdir)
            && (t.procs[j].state == ZOMBIE && p.state == SLEEPING && p.place.InJoin? ==> t.procs[j].pgdir != p.pgdir)
  {
    InitInv(s);
    InvRun(s, t, run);
    assert ProcOk(t, j);
    assert PairOk(t, t.procs[j].parent, j);
  }

  /** In every run: processes that share a page directory agree on its size, and it has not been freed. */
  lemma SharedMemory(s: Sys, t: Sys, run: seq<Action>, i: nat, j: nat)
    requires Init(s) && Run(s, t, run) && i < |t.procs| && j < |t.procs| && Live(t.procs[i]) && Live(t.procs[j])
    ensures t.procs[i].pgdir in t.dirs
    ensures t.procs[i].pgdir == t.procs[j].pgdir ==> t.procs[i].sz == t.procs[j].sz
    ensures i != j ==> t.procs[i].pid != t.procs[j].pid
  {
    InitInv(s);
    InvRun(s, t, run);
    assert ProcOk(t, i) && PairOk(t, i, j);
  }

  /** The pids that wait and join return in a run, in order. */
  ghost function Returns(s: Sys, run: seq<Action>): seq<nat>
    decreases |run|
  {
    if run == [] || !Enabled(s, run[0]) then []
    else (if run[0].WaitPass? && run[0].o.Reaped? then [s.procs[run[0].o.child].pid] else [])
         + Returns(Do(s, run[0]), run[1..])
  }

  /** Positive pids, none of them returned before and no two the same. */
  ghost predicate New(pids: seq<nat>, returned: set<nat>) {
    && (forall k: nat {:trigger pids[k]} :: k < |pids| ==> pids[k] > 0 && pids[k] !in returned)
    && (forall k: nat, m: nat {:trigger pids[k], pids[m]} :: k < m < |pids| ==> pids[k] != pids[m])
  }

  lemma NewFirst(pid: nat, rest: seq<nat>, returned: set<nat>)
    requires New(rest, returned + {pid}) && pid > 0 && pid !in returned
    ensures New([pid] + rest, returned)
  {
  }

  lemma {:induction false} ReturnsNew(s: Sys, t: Sys, run: seq<Action>)
    requires Inv(s) && Run(s, t, run)
    ensures New(Returns(s, run), s.returned)
    decreases |run|
  {
    if run != [] {
      var a, u := run[0], Do(s, run[0]);
      InvStep(s, a);
      ReturnsNew(u, t, run[1..]);
      if a.WaitPass? && a.o.Reaped? {
        ReapedFresh(s, a.i, a.thread, a.o.child);
        NewFirst(s.procs[a.o.child].pid, Returns(u, run[1..]), s.returned);
      } else {
        assert u.returned == s.returned && [] + Returns(u, run[1..]) == Returns(u, run[1..]);
      }
    }
  }

  /** In every run, no pid is returned twice. */
  lemma ReapedOnce(s: Sys, t: Sys, run: seq<Action>, k: nat, m: nat)
    requires Init(s) && Run(s, t, run) && k < m < |Returns(s, run)|
    ensures Returns(s, run)[k] != Returns(s, run)[m]
  {
    InitInv(s);
    ReturnsNew(s, t, run);
  }

  /**
   * wait frees the page directory of the child it reaps exactly when no other slot names it: a slot in use, or one
   * that join emptied without clearing it.
   */
  lemma WaitFrees(s: Sys, i: nat, c: nat)
    requires Inv(s) && Enabled(s, WaitPass(i, false, Reaped(c)))
    ensures s.procs[c].pgdir in s.dirs
    ensures s.procs[c].pgdir !in Do(s, WaitPass(i, false, Reaped(c))).dirs <==> !Held(s.procs, c)
  {
    assert ProcOk(s, c);
  }

  // What a step achieves, for the caller and for everybody else.

  /** Slots other than i and j are as they were. */
  ghost predicate SameBut(s: Sys, t: Sys, i: nat, j: nat) {
    && |t.procs| == |s.procs|
    && forall k: nat {:trigger t.procs[k]} :: k < |s.procs| && k != i && k != j ==> t.procs[k] == s.procs[k]
  }

  /** kill marks the first slot with the pid and leaves nobody asleep there. */
  lemma KillWakes(s: Sys, pid: nat)
    ensures var t, k := Do(s, Kill(pid)), FirstPid(s.procs, pid);
            && SameBut(s, t, k, k)
            && (k < |s.procs| ==>
                  && t.procs[k].killed && t.procs[k].state != SLEEPING
                  && (s.procs[k].state == SLEEPING ==> t.procs[k].state == RUNNABLE)
                  && t.procs[k] == s.procs[k].(killed := true, state := t.procs[k].state)
                  && (s.procs[k].state != SLEEPING ==> t.procs[k].state == s.procs[k].state))
  {
  }

  /** Nobody asleep in wait or join is marked killed. */
  ghost predicate KilledAwake(s: Sys) {
    forall j: nat {:trigger s.procs[j]} ::
      j < |s.procs| && s.procs[j].killed && s.procs[j].state == SLEEPING ==>
        !s.procs[j].place.InWait? && !s.procs[j].place.InJoin?
  }

  predicate IsForking(a: Action) { a.ForkAlloc? || a.ForkFail? || a.ForkCopy? || a.ForkDone? }

  lemma KilledForking(s: Sys, a: Action, j: nat)
    requires Enabled(s, a) && j < |s.procs| && (IsForking(a) || a.Clone?)
    ensures |Do(s, a).procs| == |s.procs| && Do(s, a).procs[j].killed == s.procs[j].killed
  {
  }

  lemma KilledStep(s: Sys, a: Action, j: nat)
    requires Enabled(s, a) && j < |s.procs| && !(a.WaitPass? && a.o == Reaped(j))
    ensures var t := Do(s, a);
            && |t.procs| == |s.procs|
            && (t.procs[j].killed <==> s.procs[j].killed || (a.Kill? && FirstPid(s.procs, a.pid) == j))
  {
    if IsForking(a) || a.Clone? {
      KilledForking(s, a, j);
    }
  }

  lemma KilledAwakeStep(s: Sys, a: Action)
    requires Inv(s) && KilledAwake(s) && Enabled(s, a)
    ensures KilledAwake(Do(s, a))
  {
    var t := Do(s, a);
    forall j: nat
      | j < |t.procs| && t.procs[j].state == SLEEPING && (t.procs[j].place.InWait? || t.procs[j].place.InJoin?)
      ensures !t.procs[j].killed
    {
      assert |t.procs| == |s.procs|;
      assert ProcOk(s, j);
      if !(a.WaitPass? && a.i == j) && !a.Kill? {
        KilledStep(s, a, j);
      }
    }
  }

  lemma {:induction false} KilledAwakeRun(s: Sys, t: Sys, run: seq<Action>)
    requires Inv(s) && KilledAwake(s) && Run(s, t, run)
    ensures KilledAwake(t)
    decreases |run|
  {
    if run != [] {
      InvStep(s, run[0]);
      KilledAwakeStep(s, run[0]);
      KilledAwakeRun(Do(s, run[0]), t, run[1..]);
    }
  }

  /** In every run nobody who is marked killed is asleep in wait or join: he will find the mark and return. */
  lemma KilledNeverWaits(s: Sys, t: Sys, run: seq<Action>, j: nat)
    requires Init(s) && Run(s, t, run) && j < |t.procs| && t.procs[j].killed && t.procs[j].state == SLEEPING
    ensures t.procs[j].place.InOther?
  {
    InitInv(s);
    InvRun(s, t, run);
    KilledAwakeRun(s, t, run);
    assert ProcOk(t, j);
  }

  /** wakeup leaves nobody asleep on the channel, and touches nobody else. */
  lemma WakeOnWakes(s: Sys, c: nat, j: nat)
    requires j < |s.procs|
    ensures var p, q := s.procs[j], Do(s, WakeOn(c)).procs[j];
            && !(q.state == SLEEPING && q.chan == OnOther(c))
            && (if p.state == SLEEPING && p.chan == OnOther(c) then q == p.(state := RUNNABLE) else q == p)
  {
  }

  /** Dispatch, preemption and sleep move the process they are about. */
  lemma Moves(s: Sys, i: nat, c: nat)
    requires i < |s.procs|
    ensures Enabled(s, Dispatch(i)) ==> var t := Do(s, Dispatch(i)); t.procs[i].state == RUNNING && SameBut(s, t, i, i)
    ensures Enabled(s, Preempt(i)) ==> var t := Do(s, Preempt(i)); t.procs[i].state == RUNNABLE && SameBut(s, t, i, i)
    ensures Enabled(s, SleepOn(i, c)) ==>
              var t := Do(s, SleepOn(i, c));
              t.procs[i].state == SLEEPING && t.procs[i].chan == OnOther(c) && SameBut(s, t, i, i)
  {
  }

  /** fork, undisturbed: a runnable child with a copy of the caller's space under a new directory. */
  lemma ForkMakesChild(s: Sys, i: nat, j: nat, d: nat)
    requires Inv(s) && Enabled(s, ForkAlloc(i, j)) && FreshDir(s, d)
    ensures var u := Do(s, ForkAlloc(i, j));
            && Enabled(u, ForkCopy(i, d)) && Enabled(Do(u, ForkCopy(i, d)), ForkDone(i))
            && var t := Do(Do(u, ForkCopy(i, d)), ForkDone(i));
               && SameBut(s, t, j, j) && i != j && t.procs[i] == s.procs[i]
               && t.procs[j].state == RUNNABLE && t.procs[j].pid == s.nextpid && t.procs[j].parent == i
               && t.procs[j].pgdir == d && t.procs[j].sz == s.procs[i].sz && t.procs[j].place == User
               && d !in s.dirs && t.dirs == s.dirs + {d}
  {
  }

  /** A fork that fails gives the slot back and the caller goes on; a clone that fails leaves the slot an EMBRYO. */
  lemma MakingFails(s: Sys, i: nat, j: nat, tried: bool, end: CloneEnd)
    requires Inv(s) && j < |s.procs| && end != Cloned
    ensures Enabled(s, ForkFail(i, tried)) ==>
              var t, c := Do(s, ForkFail(i, tried)), s.procs[i].place.child;
              && c < |t.procs| && SameBut(s, t, i, c) && t.dirs == s.dirs
              && t.procs[c].state == UNUSED && t.procs[c].parent == NULL
              && t.procs[i] == s.procs[i].(place := User)
    ensures Enabled(s, Clone(i, j, end)) ==>
              var t := Do(s, Clone(i, j, end));
              && SameBut(s, t, j, j) && t.dirs == s.dirs && t.procs[j].state == EMBRYO && t.procs[j].place == User
              && t.procs[j].parent == (if end == CopyFault then i else NULL)
  {
    if Enabled(s, ForkFail(i, tried)) {
      Near(s, i);
    }
    if Enabled(s, Clone(i, j, end)) {
      Near(s, j);
    }
  }

  /** clone: a runnable thread in the caller's space. */
  lemma CloneMakesThread(s: Sys, i: nat, j: nat)
    requires Inv(s) && Enabled(s, Clone(i, j, Cloned))
    ensures var t := Do(s, Clone(i, j, Cloned));
            && SameBut(s, t, j, j) && i != j && t.dirs == s.dirs
            && t.procs[j].state == RUNNABLE && t.procs[j].pid == s.nextpid && t.procs[j].parent == i
            && t.procs[j].pgdir == s.procs[i].pgdir && t.procs[j].sz == s.procs[i].sz
  {
  }

  /** exec: the caller has the new directory and the old one is free; nobody else is touched. */
  lemma ExecReplaces(s: Sys, i: nat, d: nat, sz: nat)
    requires Inv(s) && Enabled(s, Exec(i, d, sz))
    ensures var t := Do(s, Exec(i, d, sz));
            && SameBut(s, t, i, i) && t.procs[i] == s.procs[i].(pgdir := d, sz := sz)
            && d in t.dirs && s.procs[i].pgdir !in t.dirs
            && forall e: nat {:trigger e in s.dirs} ::
                 e != d && e != s.procs[i].pgdir ==> (e in t.dirs <==> e in s.dirs)
  {
    assert ProcOk(s, i);
  }

  /** growproc: the new size for everybody in use who shares the directory, and for nobody else. */
  lemma GrowResizes(s: Sys, i: nat, sz: nat, j: nat)
    requires Enabled(s, Grow(i, sz)) && j < |s.procs|
    ensures var p, q := s.procs[j], Do(s, Grow(i, sz)).procs[j];
            if p.state != UNUSED && p.pgdir == s.procs[i].pgdir then q == p.(sz := sz) else q == p
  {
  }

  /** exit: the caller is a zombie, its children are init's, and whoever waits for what is now to reap is awake. */
  lemma ExitLeaves(s: Sys, i: nat, z: bool, j: nat)
    requires Inv(s) && Enabled(s, Exit(i, z)) && j < |s.procs|
    ensures var t := Do(s, Exit(i, z));
            var p, q := s.procs[j], t.procs[j];
            && |t.procs| == |s.procs| && t.dirs == s.dirs
            && q.parent == (if p.parent == i then s.init else p.parent)
            && (j == i ==> q.state == ZOMBIE)
            && (j != i && (p.state != SLEEPING || p.chan.OnOther?) ==> q.state == p.state)
            && (j == s.procs[i].parent || (j == s.init && z) ==> q.state == SLEEPING ==> q.place.InOther?)
            && q == p.(parent := q.parent, state := q.state)
  {
    assert ProcOk(s, j) && ProcOk(s, i);
  }

  /** The table settles what wait or join comes to: a zombie to reap, else nobody to wait for or a mark, else sleep. */
  lemma OutcomeIff(ps: seq<Proc>, i: nat, thread: bool, o: Outcome)
    requires i < |ps| && IsOutcome(ps, i, thread, o)
    ensures o.Reaped? <==> exists c: nat :: c < |ps| && ps[c].parent == i && ps[c].state == ZOMBIE
                                           && (ps[c].pgdir == ps[i].pgdir) == thread
    ensures o == Sleeps <==> !o.Reaped? && !ps[i].killed
                             && exists c: nat :: c < |ps| && ps[c].parent == i && (ps[c].pgdir == ps[i].pgdir) == thread
    ensures o.Reaped? ==> o.child < |ps| && ps[o.child].parent == i && ps[o.child].state == ZOMBIE
  {
    forall c: nat | c < |ps| && ps[c].parent == i && (ps[c].pgdir == ps[i].pgdir) == thread
      ensures Child(ps, i, thread, c) && (ps[c].state == ZOMBIE ==> Reapable(ps, i, thread, c))
    {
    }
    match o
    case Reaped(c) => assert Reapable(ps, i, thread, c);
    case Nothing =>
    case Sleeps =>
      var c: nat :| c < |ps| && Child(ps, i, thread, c);
      assert ps[c].parent == i;
  }

  /** The child reaped is gone from the table, and the caller runs on; or it sleeps on itself. */
  lemma WaitResult(s: Sys, i: nat, thread: bool, o: Outcome)
    requires Inv(s) && Enabled(s, WaitPass(i, thread, o))
    ensures var t := Do(s, WaitPass(i, thread, o));
            && t.procs[i] == s.procs[i].(state := t.procs[i].state, chan := t.procs[i].chan, place := t.procs[i].place)
            && match o
               case Reaped(c) =>
                 && c < |s.procs| && c != i && SameBut(s, t, i, c)
                 && t.procs[i].state == RUNNING && t.procs[i].place == User
                 && t.procs[c].state == UNUSED && t.procs[c].pid == 0 && t.procs[c].parent == NULL && !t.procs[c].killed
               case Nothing => SameBut(s, t, i, i) && t.procs[i].state == RUNNING && t.procs[i].place == User
               case Sleeps => SameBut(s, t, i, i) && t.procs[i].state == SLEEPING && t.procs[i].chan == OnProc(i)
  {
    assert ProcOk(s, i);
    if o.Reaped? {
      assert ProcOk(s, o.child);
    }
  }

  // Directories that nobody uses.

  /** A live process has directory d, or fork has just made it for a child. */
  predicate Uses(p: Proc, d: nat) { p.pgdir == d && (Live(p) || (p.place.Born? && p.place.copied)) }

  /** d is allocated and nobody uses it. */
  ghost predicate Leaked(s: Sys, d: nat) {
    d in s.dirs && forall j: nat {:trigger s.procs[j]} :: j < |s.procs| ==> !Uses(s.procs[j], d)
  }

  /** Slot k is not in use but still names d. */
  predicate StillNames(p: Proc, d: nat) { (p.state == UNUSED || p.state == EMBRYO) && p.pgdir == d }

  /** c is the only one to use its directory. */
  ghost predicate LastUser(s: Sys, c: nat)
    requires c < |s.procs|
  {
    forall j: nat {:trigger s.procs[j]} :: j < |s.procs| && j != c ==> !Uses(s.procs[j], s.procs[c].pgdir)
  }

  /** When wait reaps the last user of a directory, the directory leaks exactly if some unused slot still names it. */
  lemma WaitLeaksIff(s: Sys, i: nat, c: nat)
    requires Inv(s) && Enabled(s, WaitPass(i, false, Reaped(c))) && LastUser(s, c)
    ensures Leaked(Do(s, WaitPass(i, false, Reaped(c))), s.procs[c].pgdir) <==>
              exists k: nat {:trigger s.procs[k]} ::
                k < |s.procs| && k != c && StillNames(s.procs[k], s.procs[c].pgdir)
  {
    var d, t := s.procs[c].pgdir, Do(s, WaitPass(i, false, Reaped(c)));
    WaitFrees(s, i, c);
    forall j: nat | j < |t.procs| && d in t.dirs
      ensures !Uses(t.procs[j], d)
    {
      assert j != c && j != i ==> t.procs[j] == s.procs[j];
      assert ProcOk(s, i) && ProcOk(s, c);
    }
    if k: nat :| k < |s.procs| && k != c && s.procs[k].pgdir == d {
      assert !Uses(s.procs[k], d);
    }
  }

  lemma ForkingUse(s: Sys, a: Action, d: nat, j: nat)
    requires Inv(s) && Enabled(s, a) && IsForking(a) && d in s.dirs && j < |s.procs|
    ensures |Do(s, a).procs| == |s.procs| && (Uses(Do(s, a).procs[j], d) <==> Uses(s.procs[j], d))
  {
    assert ProcOk(s, j) && ProcOk(s, a.i);
    if !a.ForkAlloc? {
      assert ProcOk(s, s.procs[a.i].place.child);
    }
  }

  lemma TameUse(s: Sys, a: Action, d: nat, j: nat)
    requires Inv(s) && Enabled(s, a) && IsTame(a) && j < |s.procs|
    ensures |Do(s, a).procs| == |s.procs| && (Uses(Do(s, a).procs[j], d) <==> Uses(s.procs[j], d))
  {
    TameSteps(s, a);
    assert Tame(s.procs[j], Do(s, a).procs[j]);
  }

  lemma ExitUse(s: Sys, i: nat, z: bool, d: nat, j: nat)
    requires Inv(s) && Enabled(s, Exit(i, z)) && j < |s.procs|
    ensures var t := Do(s, Exit(i, z)); |t.procs| == |s.procs| && (Uses(t.procs[j], d) <==> Uses(s.procs[j], d))
  {
    assert ProcOk(s, j);
  }

  /** Who does not use d does not begin to, unless it is new. */
  lemma NoNewUser(s: Sys, a: Action, d: nat, j: nat)
    requires Inv(s) && Enabled(s, a) && Leaked(s, d) && j < |s.procs|
    ensures j < |Do(s, a).procs| && !Uses(Do(s, a).procs[j], d)
  {
    assert !Uses(s.procs[j], d);
    if IsTame(a) {
      TameUse(s, a, d, j);
    } else if IsForking(a) {
      ForkingUse(s, a, d, j);
    } else if a.Exit? {
      ExitUse(s, a.i, a.zombies, d, j);
    } else {
      assert !Uses(s.procs[a.i], d);
    }
  }

  /** A leaked directory is never used again, nor freed. */
  lemma LeakStays(s: Sys, a: Action, d: nat)
    requires Inv(s) && Enabled(s, a) && Leaked(s, d)
    ensures Leaked(Do(s, a), d)
  {
    var t := Do(s, a);
    if a.WaitPass? && a.o.Reaped? {
      assert ProcOk(s, a.o.child) && !Uses(s.procs[a.o.child], d);
    }
    forall j: nat | j < |t.procs|
      ensures !Uses(t.procs[j], d)
    {
      assert |t.procs| == |s.procs|;
      NoNewUser(s, a, d, j);
    }
  }

  /** Who uses d goes on doing so until it is reaped or calls exec. */
  lemma UserStays(s: Sys, a: Action, d: nat, j: nat)
    requires Inv(s) && Enabled(s, a) && j < |s.procs| && Uses(s.procs[j], d)
    requires !(a.WaitPass? && a.o == Reaped(j)) && !(a.Exec? && a.i == j)
    ensures j < |Do(s, a).procs| && Uses(Do(s, a).procs[j], d)
  {
    assert ProcOk(s, j);
    if IsTame(a) {
      TameUse(s, a, d, j);
    } else if IsForking(a) {
      ForkingUse(s, a, d, j);
    } else if a.Exit? {
      ExitUse(s, a.i, a.zombies, d, j);
    }
  }

  /** A directory that is new is used by whoever it was made for. */
  lemma NewIsUsed(s: Sys, a: Action, d: nat)
    requires Inv(s) && Enabled(s, a) && d !in s.dirs && d in Do(s, a).dirs
    ensures !Leaked(Do(s, a), d)
  {
    var t := Do(s, a);
    if a.Exec? {
      assert Uses(t.procs[a.i], d);
    } else {
      assert a.ForkCopy? && Uses(t.procs[s.procs[a.i].place.child], d);
    }
  }

  /** Whoever joins a thread uses the directory himself. */
  lemma JoinerUses(s: Sys, i: nat, c: nat, d: nat)
    requires Inv(s) && Enabled(s, WaitPass(i, true, Reaped(c))) && Uses(s.procs[c], d)
    ensures Uses(Do(s, WaitPass(i, true, Reaped(c))).procs[i], d)
  {
    assert ProcOk(s, i) && ProcOk(s, c);
  }

  /** Only wait, reaping the last user of a directory, leaks it. */
  lemma NewLeak(s: Sys, a: Action, d: nat)
    requires Inv(s) && Enabled(s, a) && !Leaked(s, d) && Leaked(Do(s, a), d)
    ensures a.WaitPass? && !a.thread && a.o.Reaped? && s.procs[a.o.child].pgdir == d && LastUser(s, a.o.child)
  {
    var t := Do(s, a);
    if d !in s.dirs {
      NewIsUsed(s, a, d);
    }
    forall j: nat | j < |s.procs| && Uses(s.procs[j], d)
      ensures a.WaitPass? && !a.thread && a.o == Reaped(j)
    {
      if !(a.WaitPass? && a.o == Reaped(j)) && !(a.Exec? && a.i == j) {
        UserStays(s, a, d, j);
      } else if a.WaitPass? && a.thread {
        JoinerUses(s, a.i, j, d);
      }
    }
  }

  /** wait leaks d in this step. */
  ghost predicate Leaks(s: Sys, a: Action, d: nat)
    requires Enabled(s, a)
  {
    && a.WaitPass? && !a.thread && a.o.Reaped? && s.procs[a.o.child].pgdir == d && LastUser(s, a.o.child)
    && exists k: nat {:trigger s.procs[k]} :: k < |s.procs| && k != a.o.child && StillNames(s.procs[k], d)
  }

  /**
   * A step leaks a directory exactly if wait reaps its last user while a slot that is not in use still names it: one
   * that join emptied, or that a failed clone left.
   */
  lemma LeakIff(s: Sys, a: Action, d: nat)
    requires Inv(s) && Enabled(s, a) && !Leaked(s, d)
    ensures Leaked(Do(s, a), d) <==> Leaks(s, a, d)
  {
    if Leaked(Do(s, a), d) {
      NewLeak(s, a, d);
    }
    if a.WaitPass? && !a.thread && a.o.Reaped? && s.procs[a.o.child].pgdir == d && LastUser(s, a.o.child) {
      WaitLeaksIff(s, a.i, a.o.child);
    }
  }

  /** And then for good. */
  lemma {:induction false} LeakedForever(s: Sys, t: Sys, run: seq<Action>, d: nat)
    requires Inv(s) && Run(s, t, run) && Leaked(s, d)
    ensures Leaked(t, d)
    decreases |run|
  {
    if run != [] {
      InvStep(s, run[0]);
      LeakStays(s, run[0], d);
      LeakedForever(Do(s, run[0]), t, run[1..], d);
    }
  }

  /** exec frees the old directory whoever else uses it: that is safe exactly when nobody live does. */
  lemma ExecSafeIff(s: Sys, i: nat, d: nat, sz: nat)
    requires Inv(s) && Running(s, i) && FreshDir(s, d)
    ensures Inv(ExecDone(s, i, d, sz)) <==> Unshared(s, i)
  {
    var t := ExecDone(s, i, d, sz);
    if Unshared(s, i) {
      InvStep(s, Exec(i, d, sz));
    } else {
      var j: nat :| j < |s.procs| && j != i && Live(s.procs[j]) && s.procs[j].pgdir == s.procs[i].pgdir;
      assert ProcOk(s, i);
      assert !ProcOk(t, j);
    }
  }

  /** The table after userinit, with one more slot: init has the directory 1. */
  function Boot(): Sys {
    var free := Proc(UNUSED, 0, NULL, NoChan, false, 0, 0, User);
    Sys([Proc(RUNNABLE, 1, NULL, NoChan, false, 1, 4096, User), free], 0, 2, {1}, {})
  }

  /** A first process alone in a table of two can be dispatched and clone a thread. */
  lemma RunCloned(s: Sys) returns (run: seq<Action>, t: Sys)
    requires |s.procs| == 2 && s.procs[0].state == RUNNABLE && s.procs[0].place == User && s.procs[1].state == UNUSED
    ensures Run(s, t, run)
    ensures |t.procs| == 2 && t.procs[0] == s.procs[0].(state := RUNNING, chan := NoChan) && t.dirs == s.dirs
    ensures t.procs[1].state == RUNNABLE && t.procs[1].killed == s.procs[1].killed && t.procs[1].pid == s.nextpid
    ensures t.procs[1].pgdir == s.procs[0].pgdir
  {
    var a, b := Dispatch(0), Clone(0, 1, Cloned);
    var s1 := Do(s, a);
    run, t := [a, b], Do(s1, b);
    assert run[1..] == [b] && [b][1..] == [];
    assert Run(t, t, []);
    assert Run(s1, t, [b]);
  }

  /** Such an exec is within reach: the first process runs, clones a thread and calls exec; the thread has no memory. */
  lemma ExecUnderThread() returns (run: seq<Action>, t: Sys)
    ensures Init(Boot()) && Run(Boot(), t, run) && Running(t, 0) && FreshDir(t, 2)
    ensures |t.procs| == 2
    ensures var u := ExecDone(t, 0, 2, 4096); Live(u.procs[1]) && u.procs[1].pgdir !in u.dirs
  {
    run, t := RunCloned(Boot());
  }

  /** No unused slot is marked killed, so no process is born killed. */
  predicate Clean(s: Sys) {
    forall j: nat {:trigger s.procs[j]} :: j < |s.procs| && s.procs[j].state == UNUSED ==> !s.procs[j].killed
  }

  /**
   * kill takes the first slot with the pid whatever its state: it marks an unused slot exactly when that slot is
   * unused, which happens for pid 0 and for pids that a failed fork has left behind.
   */
  lemma KillCleanIff(s: Sys, pid: nat)
    requires Clean(s)
    ensures var k := FirstPid(s.procs, pid);
            Clean(Killed(s, pid)) <==> !(k < |s.procs| && s.procs[k].state == UNUSED)
  {
    var k := FirstPid(s.procs, pid);
    if k < |s.procs| {
      assert Killed(s, pid).procs[k].killed;
    }
  }

  /** Some kill of the run marks slot j. */
  ghost predicate Hits(s: Sys, run: seq<Action>, j: nat)
    decreases |run|
  {
    && run != [] && Enabled(s, run[0])
    && ((run[0].Kill? && FirstPid(s.procs, run[0].pid) == j) || Hits(Do(s, run[0]), run[1..], j))
  }

  /** wait or join reaps slot j in the run. */
  predicate Reaps(run: seq<Action>, j: nat) { exists a :: a in run && a.WaitPass? && a.o == Reaped(j) }

  /**
   * Until its slot is reaped a process is marked killed exactly if a kill hit the slot since, or the slot was marked to
   * begin with, as a slot not in use may be: whoever is made in that one is killed from birth.
   */
  lemma {:induction false} KilledIff(s: Sys, t: Sys, run: seq<Action>, j: nat)
    requires Run(s, t, run) && j < |s.procs| && !Reaps(run, j)
    ensures j < |t.procs| && (t.procs[j].killed <==> s.procs[j].killed || Hits(s, run, j))
    decreases |run|
  {
    if run != [] {
      assert run[0] in run;
      KilledStep(s, run[0], j);
      assert !Reaps(run[1..], j) by {
        assert forall a :: a in run[1..] ==> a in run;
      }
      KilledIff(Do(s, run[0]), t, run[1..], j);
    }
  }

  /** It happens: after kill(0) the next thread of the first process is born killed. */
  lemma KillZero() returns (run: seq<Action>, t: Sys)
    ensures Init(Boot()) && Run(Boot(), t, run) && Clean(Boot())
    ensures |t.procs| == 2 && t.procs[1].state == RUNNABLE && t.procs[1].pid == 2 && t.procs[1].killed
  {
    var ps := Boot().procs;
    assert FirstPid(ps, 0) == 1 by {
      assert ps[0].pid != 0 && ps[1].pid == 0;
    }
    var s := Killed(Boot(), 0);
    var r;
    r, t := RunCloned(s);
    run := [Kill(0)] + r;
    assert run[1..] == r;
  }

  // A directory that leaks.

  function Slot(state: PState, pid: nat, parent: int, pgdir: nat, place: Place): Proc {
    Proc(state, pid, parent, NoChan, false, pgdir, if pgdir == 0 then 0 else 4096, place)
  }

  function Three(p: Proc, q: Proc, r: Proc, nextpid: nat, dirs: set<nat>, returned: set<nat>): Sys {
    Sys([p, q, r], 0, nextpid, dirs, returned)
  }

  /** The table after userinit, with two more slots. */
  function BootThree(): Sys {
    Three(Slot(RUNNABLE, 1, NULL, 1, User), Slot(UNUSED, 0, NULL, 0, User), Slot(UNUSED, 0, NULL, 0, User), 2, {1}, {})
  }

  /** Init has made process 2. */
  function Forked(): Sys {
    Three(Slot(RUNNING, 1, NULL, 1, User), Slot(RUNNABLE, 2, 0, 2, User), Slot(UNUSED, 0, NULL, 0, User), 3, {1, 2}, {})
  }

  /** Process 2 has a thread, 3. */
  function WithThread(): Sys {
    Three(Slot(RUNNING, 1, NULL, 1, User), Slot(RUNNING, 2, 0, 2, User), Slot(RUNNING, 3, 1, 2, User), 4, {1, 2}, {})
  }

  /** The thread has exited and been joined. */
  function Joined(): Sys {
    Three(Slot(RUNNING, 1, NULL, 1, User), Slot(RUNNING, 2, 0, 2, User), Slot(UNUSED, 0, NULL, 2, User), 4, {1, 2}, {3})
  }

  /** Process 2 has exited and been reaped. */
  function Gone(): Sys {
    Three(Slot(RUNNING, 1, NULL, 1, User), Slot(UNUSED, 0, NULL, 0, User).(sz := 4096), Slot(UNUSED, 0, NULL, 2, User),
          4, {1, 2}, {2, 3})
  }

  lemma RunFirst(s: Sys, a: Action, u: Sys, run: seq<Action>, t: Sys)
    requires Enabled(s, a) && Do(s, a) == u && Run(u, t, run)
    ensures Run(s, t, [a] + run)
  {
    assert ([a] + run)[1..] == run;
  }

  function Forks(): seq<Action> {
    [Dispatch(0)] + ([ForkAlloc(0, 1)] + ([ForkCopy(0, 2)] + [])) + ([ForkDone(0)] + [])
  }

  function Threads(): seq<Action> { [Dispatch(1)] + ([Clone(1, 2, Cloned)] + ([Dispatch(2)] + [])) }

  function Joins(): seq<Action> { [Exit(2, false)] + ([WaitPass(1, true, Reaped(2))] + []) }

  function Leaves(): seq<Action> { [Exit(1, false)] + ([WaitPass(0, false, Reaped(1))] + []) }

  /** Init has a slot for its child, with a copy of its own memory. */
  function Copied(): Sys {
    Three(Slot(RUNNING, 1, NULL, 1, InFork(1)), Slot(EMBRYO, 2, 0, 2, Born(0, true)), Slot(UNUSED, 0, NULL, 0, User),
          3, {1, 2}, {})
  }

  lemma RunsCopy()
    ensures Run(BootThree(), Copied(), [Dispatch(0)] + ([ForkAlloc(0, 1)] + ([ForkCopy(0, 2)] + [])))
  {
    var s1 := Do(BootThree(), Dispatch(0));
    var s2 := Do(s1, ForkAlloc(0, 1));
    assert Do(s2, ForkCopy(0, 2)).procs == Copied().procs;
    assert Run(Copied(), Copied(), []);
    RunFirst(s2, ForkCopy(0, 2), Copied(), [], Copied());
    RunFirst(s1, ForkAlloc(0, 1), s2, [ForkCopy(0, 2)] + [], Copied());
    RunFirst(BootThree(), Dispatch(0), s1, [ForkAlloc(0, 1)] + ([ForkCopy(0, 2)] + []), Copied());
  }

  lemma RunsFork()
    ensures Run(Copied(), Forked(), [ForkDone(0)] + [])
  {
    assert Do(Copied(), ForkDone(0)).procs == Forked().procs;
    assert Run(Forked(), Forked(), []);
    RunFirst(Copied(), ForkDone(0), Forked(), [], Forked());
  }

  lemma RunsThread()
    ensures Run(Forked(), WithThread(), Threads())
  {
    var s1 := Do(Forked(), Dispatch(1));
    var s2 := Do(s1, Clone(1, 2, Cloned));
    assert Do(s2, Dispatch(2)).procs == WithThread().procs;
    assert Run(WithThread(), WithThread(), []);
    RunFirst(s2, Dispatch(2), WithThread(), [], WithThread());
    RunFirst(s1, Clone(1, 2, Cloned), s2, [Dispatch(2)] + [], WithThread());
    RunFirst(Forked(), Dispatch(1), s1, [Clone(1, 2, Cloned)] + ([Dispatch(2)] + []), WithThread());
  }

  /** The thread, or process 2 once the thread is gone, has exited. */
  function ThreadZombie(): Sys { Put(WithThread(), 2, WithThread().procs[2].(state := ZOMBIE)) }

  function Zombie(): Sys { Put(Joined(), 1, Joined().procs[1].(state := ZOMBIE)) }

  lemma RunsJoin()
    ensures Run(WithThread(), Joined(), Joins())
  {
    var s := WithThread();
    assert forall j: nat :: j < 3 ==> !ZombieChild(s.procs, 2, j);
    assert Do(s, Exit(2, false)).procs == ThreadZombie().procs;
    var u, a := ThreadZombie(), WaitPass(1, true, Reaped(2));
    assert Reapable(u.procs, 1, true, 2) && !Reapable(u.procs, 1, true, 0) && !Reapable(u.procs, 1, true, 1);
    assert Do(u, a).procs == Joined().procs;
    assert Run(Joined(), Joined(), []);
    RunFirst(u, a, Joined(), [], Joined());
    RunFirst(s, Exit(2, false), u, [a] + [], Joined());
  }

  lemma RunsGone()
    ensures Run(Joined(), Gone(), Leaves())
  {
    var s := Joined();
    assert forall j: nat :: j < 3 ==> !ZombieChild(s.procs, 1, j);
    assert Do(s, Exit(1, false)).procs == Zombie().procs;
    var u, a := Zombie(), WaitPass(0, false, Reaped(1));
    assert Reapable(u.procs, 0, false, 1) && !Reapable(u.procs, 0, false, 0);
    assert u.procs[2].pgdir == u.procs[1].pgdir && Held(u.procs, 1);
    assert Do(u, a).procs == Gone().procs;
    assert Run(Gone(), Gone(), []);
    RunFirst(u, a, Gone(), [], Gone());
    RunFirst(s, Exit(1, false), u, [a] + [], Gone());
  }

  lemma {:induction false} RunsOn(s: Sys, u: Sys, t: Sys, a: seq<Action>, b: seq<Action>)
    requires Run(s, u, a) && Run(u, t, b)
    ensures Run(s, t, a + b)
    decreases |a|
  {
    if a == [] {
      assert a + b == b;
    } else {
      RunsOn(Do(s, a[0]), u, t, a[1..], b);
      assert (a + b)[1..] == a[1..] + b;
    }
  }

  lemma RunsToGone() returns (run: seq<Action>)
    ensures Run(BootThree(), Gone(), run)
  {
    RunsGone();
    RunsJoin();
    RunsOn(WithThread(), Joined(), Gone(), Joins(), Leaves());
    RunsThread();
    RunsOn(Forked(), WithThread(), Gone(), Threads(), Joins() + Leaves());
    RunsCopy();
    RunsFork();
    RunsOn(BootThree(), Copied(), Forked(), [Dispatch(0)] + ([ForkAlloc(0, 1)] + ([ForkCopy(0, 2)] + [])),
           [ForkDone(0)] + []);
    RunsOn(BootThree(), Forked(), Gone(), Forks(), Threads() + (Joins() + Leaves()));
    run := Forks() + (Threads() + (Joins() + Leaves()));
  }

  /**
   * It happens: init forks, the child clones a thread, joins it and exits, and init waits for the child. The child's
   * directory is allocated, nobody has it, and so it stays.
   */
  lemma DirectoryLeaks() returns (run: seq<Action>)
    ensures Init(BootThree()) && Run(BootThree(), Gone(), run) && Leaked(Gone(), 2)
  {
    run := RunsToGone();
    assert forall j: nat {:trigger Gone().procs[j]} :: j < 3 ==> !Uses(Gone().procs[j], 2);
  }
}
