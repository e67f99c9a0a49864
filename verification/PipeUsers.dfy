/** Readers and writers of one pipe: who sleeps, who is woken, and the one case in which a wakeup is missing. */
module PipeUsers {
  import opened Blocks
  import opened Pipe

  datatype User = Idle | Writer(addr: seq<Byte>, i: nat, asleep: bool) | Reader(n: nat, asleep: bool)

  datatype Sys = Sys(pipe: View, users: seq<User>, killed: seq<bool>, got: seq<Byte>)

  /**
   * got is what all readers together have read, in order. One step is what a process does between getting and giving
   * up the pipe's lock.
   */
  datatype Action =
    | BeginWrite(p: nat, addr: seq<Byte>)
    | BeginRead(p: nat, n: nat)
    | Go(p: nat)
    | Kill(p: nat)
    | Close(writable: bool)

  function SetAsleep(u: User, asleep: bool): User {
    match u
    case Idle => Idle
    case Writer(addr, i, _) => Writer(addr, i, asleep)
    case Reader(n, _) => Reader(n, asleep)
  }

  /** wakeup(&p->nread) and wakeup(&p->nwrite). */
  function Woken(users: seq<User>, readers: bool): (r: seq<User>)
    ensures |r| == |users|
    ensures forall k: nat {:trigger r[k]} :: k < |users| ==>
              r[k] == if (if readers then users[k].Reader? else users[k].Writer?) then SetAsleep(users[k], false)
                      else users[k]
  {
    if users == [] then []
    else
      var u := users[|users| - 1];
      Woken(users[..|users| - 1], readers)
      + [if (if readers then u.Reader? else u.Writer?) then SetAsleep(u, false) else u]
  }

  /** An end is closed only when no process still has it open, so none is inside a call on it. */
  predicate Enabled(s: Sys, a: Action) {
    && |s.killed| == |s.users| && Fits(s.pipe)
    && match a
       case BeginWrite(p, _) => p < |s.users| && s.users[p].Idle? && s.pipe.writeopen
       case BeginRead(p, _) => p < |s.users| && s.users[p].Idle? && s.pipe.readopen
       case Go(p) => p < |s.users| && !s.users[p].Idle? && !s.users[p].asleep
                     && (s.users[p].Writer? ==> s.users[p].i <= |s.users[p].addr|)
       case Kill(p) => p < |s.users|
       case Close(w) =>
         forall k: nat {:trigger s.users[k]} :: k < |s.users| ==> if w then !s.users[k].Writer? else !s.users[k].Reader?
  }

  function GoWriter(s: Sys, p: nat): Sys
    requires Enabled(s, Go(p)) && s.users[p].Writer?
  {
    var u := s.users[p];
    var (pipe, i) := WriteSome(s.pipe, u.addr, u.i);
    match WriteResult(s.pipe, u.addr, u.i, s.killed[p])
    case WroteAll => s.(pipe := pipe, users := Woken(s.users, true)[p := Idle])
    case WaitsForRoom => s.(pipe := pipe, users := Woken(s.users, true)[p := Writer(u.addr, i, true)])
    case WriteFails => s.(pipe := pipe, users := s.users[p := Idle])
  }

  function GoReader(s: Sys, p: nat): Sys
    requires Enabled(s, Go(p)) && s.users[p].Reader?
  {
    var (pipe, r) := ReadSome(s.pipe, s.users[p].n, s.killed[p]);
    match r
    case Got(bytes) => s.(pipe := pipe, users := Woken(s.users, false)[p := Idle], got := s.got + bytes)
    case WaitsForBytes => s.(users := s.users[p := SetAsleep(s.users[p], true)])
    case ReadFails => s.(users := s.users[p := Idle])
  }

  function Do(s: Sys, a: Action): Sys
    requires Enabled(s, a)
  {
    match a
    case BeginWrite(p, addr) => s.(users := s.users[p := Writer(addr, 0, false)])
    case BeginRead(p, n) => s.(users := s.users[p := Reader(n, false)])
    case Go(p) => if s.users[p].Writer? then GoWriter(s, p) else GoReader(s, p)
    case Kill(p) =>
      var u := s.users[p];
      s.(killed := s.killed[p := true], users := s.users[p := SetAsleep(u, false)])
    case Close(w) =>
      s.(pipe := if w then s.pipe.(writeopen := false) else s.pipe.(readopen := false), users := Woken(s.users, w))
  }

  /** A writer sleeps only on a full pipe that is still read, a reader only on an empty one that is still written. */
  predicate UserOk(s: Sys, p: nat)
    requires p < |s.users| && Fits(s.pipe)
  {
    match s.users[p]
    case Idle => true
    case Writer(addr, i, asleep) => i <= |addr| && s.pipe.writeopen
                                    && (asleep ==> i < |addr| && Room(s.pipe) == 0 && s.pipe.readopen)
    case Reader(_, asleep) => s.pipe.readopen && (asleep ==> Available(s.pipe) == 0 && s.pipe.writeopen)
  }

  ghost predicate Inv(s: Sys) {
    && |s.killed| == |s.users| && Fits(s.pipe)
    && forall p: nat {:trigger UserOk(s, p)} :: p < |s.users| ==> UserOk(s, p)
  }

  /** A killed writer fills what room there is, fails on the rest, and a reader is asleep for want of bytes. */
  ghost predicate MissedWakeup(s: Sys, a: Action)
    requires Enabled(s, a)
  {
    && a.Go? && s.users[a.p].Writer? && s.killed[a.p]
    && 0 < Room(s.pipe) < |s.users[a.p].addr| - s.users[a.p].i
    && exists q: nat {:trigger s.users[q]} :: q < |s.users| && s.users[q].Reader? && s.users[q].asleep
  }

  lemma GoUser(s: Sys, p: nat, q: nat)
    requires Inv(s) && Enabled(s, Go(p)) && !MissedWakeup(s, Go(p)) && q < |s.users|
    ensures var t := Do(s, Go(p)); Fits(t.pipe) && |t.users| == |s.users| == |t.killed| && UserOk(t, q)
  {
    assert UserOk(s, q) && UserOk(s, p);
  }

  lemma StepUser(s: Sys, a: Action, q: nat)
    requires Inv(s) && Enabled(s, a) && !MissedWakeup(s, a) && q < |s.users|
    ensures Fits(Do(s, a).pipe) && |Do(s, a).users| == |s.users| == |Do(s, a).killed| && UserOk(Do(s, a), q)
  {
    if a.Go? {
      GoUser(s, a.p, q);
    } else {
      assert UserOk(s, q);
    }
  }

  lemma MissedBreaks(s: Sys, a: Action)
    requires Inv(s) && Enabled(s, a) && MissedWakeup(s, a)
    ensures !Inv(Do(s, a))
  {
    var q: nat :| q < |s.users| && s.users[q].Reader? && s.users[q].asleep;
    assert UserOk(s, q);
    assert !UserOk(Do(s, a), q);
  }

  /**
   * No sleeper is forgotten by a step, except that pipewrite, failing for a killed process after it has written some
   * bytes, does not wake the readers.
   */
  lemma StepIff(s: Sys, a: Action)
    requires Inv(s) && Enabled(s, a)
    ensures Inv(Do(s, a)) <==> !MissedWakeup(s, a)
  {
    if MissedWakeup(s, a) {
      MissedBreaks(s, a);
    } else {
      var t := Do(s, a);
      if |s.users| > 0 {
        StepUser(s, a, 0);
      }
      forall q: nat {:trigger UserOk(t, q)} | q < |t.users|
        ensures Fits(t.pipe) && UserOk(t, q)
      {
        StepUser(s, a, q);
      }
    }
  }

  // Whole runs.

  ghost predicate Run(s: Sys, t: Sys, run: seq<Action>)
    decreases |run|
  {
    if run == [] then t == s else Enabled(s, run[0]) && Run(Do(s, run[0]), t, run[1..])
  }

  ghost predicate Careful(s: Sys, run: seq<Action>)
    decreases |run|
  {
    run == [] || !Enabled(s, run[0]) || (!MissedWakeup(s, run[0]) && Careful(Do(s, run[0]), run[1..]))
  }

  lemma {:induction false} InvRun(s: Sys, t: Sys, run: seq<Action>)
    requires Inv(s) && Run(s, t, run) && Careful(s, run)
    ensures Inv(t)
    decreases |run|
  {
    if run != [] {
      StepIff(s, run[0]);
      InvRun(Do(s, run[0]), t, run[1..]);
    }
  }

  /** Everything read so far is the first bytes written. */
  ghost predicate InOrder(s: Sys) { Fits(s.pipe) && s.got == s.pipe.written[..s.pipe.taken] }

  lemma OrderReader(s: Sys, p: nat)
    requires InOrder(s) && Enabled(s, Go(p)) && s.users[p].Reader?
    ensures InOrder(GoReader(s, p)) && GoReader(s, p).pipe.written == s.pipe.written
  {
  }

  lemma OrderWriter(s: Sys, p: nat)
    requires InOrder(s) && Enabled(s, Go(p)) && s.users[p].Writer?
    ensures InOrder(GoWriter(s, p)) && s.pipe.written <= GoWriter(s, p).pipe.written
  {
    var v, t := s.pipe, GoWriter(s, p);
    assert t.got == s.got && t.pipe.taken == v.taken;
    assert t.pipe.written[..v.taken] == v.written[..v.taken];
  }

  lemma OrderStep(s: Sys, a: Action)
    requires InOrder(s) && Enabled(s, a)
    ensures InOrder(Do(s, a)) && s.pipe.written <= Do(s, a).pipe.written
  {
    if a.Go? {
      if s.users[a.p].Writer? {
        OrderWriter(s, a.p);
      } else {
        OrderReader(s, a.p);
      }
    } else {
      assert Do(s, a).got == s.got && Do(s, a).pipe.written == s.pipe.written && Do(s, a).pipe.taken == s.pipe.taken;
    }
  }

  /** With any readers and writers and in every run: the bytes read, in order, are a prefix of the bytes written. */
  lemma {:induction false} Fifo(s: Sys, t: Sys, run: seq<Action>)
    requires InOrder(s) && Run(s, t, run)
    ensures InOrder(t) && t.got <= t.pipe.written && |t.pipe.written| - |t.got| <= PIPESIZE
    decreases |run|
  {
    if run != [] {
      OrderStep(s, run[0]);
      Fifo(Do(s, run[0]), t, run[1..]);
    }
  }

  /** Where a reader goes on: it takes the oldest bytes, or leaves if it was killed, or sleeps until there are some. */
  lemma ReaderGets(s: Sys, p: nat)
    requires Inv(s) && Enabled(s, Go(p)) && s.users[p].Reader?
    ensures var t, m := Do(s, Go(p)), Min(s.users[p].n, Available(s.pipe));
            && |t.users| == |s.users| && t.killed == s.killed && t.pipe == s.pipe.(taken := s.pipe.taken + m)
            && t.got == s.got + s.pipe.written[s.pipe.taken..s.pipe.taken + m]
            && (if Available(s.pipe) == 0 && s.pipe.writeopen && !s.killed[p]
                then t.users == s.users[p := Reader(s.users[p].n, true)] else t.users[p] == Idle)
            && (Available(s.pipe) > 0 ==> forall q: nat {:trigger t.users[q]} ::
                  q < |t.users| && t.users[q].Writer? ==> !t.users[q].asleep)
  {
  }

  /** Where a writer goes on: it adds what there is room for, and leaves if that is all or the rest cannot go. */
  lemma WriterPuts(s: Sys, p: nat)
    requires Inv(s) && Enabled(s, Go(p)) && s.users[p].Writer?
    ensures var t, u := Do(s, Go(p)), s.users[p];
            var m := Min(Room(s.pipe), |u.addr| - u.i);
            && |t.users| == |s.users| && t.killed == s.killed && t.got == s.got
            && t.pipe == s.pipe.(written := s.pipe.written + u.addr[u.i..u.i + m])
            && t.users[p] == (if u.i + m < |u.addr| && s.pipe.readopen && !s.killed[p]
                              then Writer(u.addr, u.i + m, true) else Idle)
            && (t.users[p] != Idle || u.i + m == |u.addr| ==> forall q: nat {:trigger t.users[q]} ::
                  q < |t.users| && t.users[q].Reader? ==> !t.users[q].asleep)
  {
  }

  /** A writer at byte i of addr before an empty pipe, and somebody else who can read. */
  ghost predicate Ready(s: Sys, p: nat, q: nat, addr: seq<Byte>, i: nat) {
    && p < |s.users| && q < |s.users| == |s.killed| && p != q && i <= |addr|
    && s.users[p] == Writer(addr, i, false) && s.users[q] == Idle && !s.killed[p]
    && Fits(s.pipe) && Available(s.pipe) == 0 && s.pipe.readopen && s.pipe.writeopen
  }

  /** A turn of the writer and a read of the other: a pipe of bytes has gone across. */
  lemma Crosses(s: Sys, p: nat, q: nat, addr: seq<Byte>, i: nat) returns (t: Sys)
    requires Ready(s, p, q, addr, i) && i < |addr|
    ensures Run(s, t, [Go(p), BeginRead(q, PIPESIZE), Go(q)])
    ensures var j := Min(i + PIPESIZE, |addr|);
            && t.got == s.got + addr[i..j] && |t.users| == |s.users|
            && if j < |addr| then Ready(t, p, q, addr, j) else t.users[p] == Idle
  {
    var u := Do(s, Go(p));
    var v := Do(u, BeginRead(q, PIPESIZE));
    t := Do(v, Go(q));
    assert u.pipe.written[u.pipe.taken..] == addr[i..Min(i + PIPESIZE, |addr|)];
    assert Run(v, t, [Go(q)]);
    assert [BeginRead(q, PIPESIZE), Go(q)][1..] == [Go(q)];
    assert [Go(p), BeginRead(q, PIPESIZE), Go(q)][1..] == [BeginRead(q, PIPESIZE), Go(q)];
  }

  lemma {:induction false} Then(s: Sys, t: Sys, u: Sys, run: seq<Action>, more: seq<Action>)
    requires Run(s, t, run) && Run(t, u, more)
    ensures Run(s, u, run + more)
    decreases |run|
  {
    if run == [] {
      assert run + more == more;
    } else {
      assert (run + more)[1..] == run[1..] + more;
      Then(Do(s, run[0]), t, u, run[1..], more);
    }
  }

  /** A message of any length gets across, a pipe of bytes at a time, and its writer returns. */
  lemma {:induction false} Delivers(s: Sys, p: nat, q: nat, addr: seq<Byte>, i: nat)
    returns (t: Sys, run: seq<Action>)
    requires Ready(s, p, q, addr, i)
    ensures Run(s, t, run) && t.got == s.got + addr[i..] && p < |t.users| && t.users[p] == Idle
    decreases |addr| - i
  {
    if i == |addr| {
      run, t := [Go(p)], Do(s, Go(p));
      assert Run(t, t, []);
    } else {
      var u := Crosses(s, p, q, addr, i);
      var j := Min(i + PIPESIZE, |addr|);
      run, t := [], u;
      if j < |addr| {
        t, run := Delivers(u, p, q, addr, j);
      }
      Then(s, u, t, [Go(p), BeginRead(q, PIPESIZE), Go(q)], run);
      run := [Go(p), BeginRead(q, PIPESIZE), Go(q)] + run;
      assert addr[i..] == addr[i..j] + addr[j..];
    }
  }

  /** Closing an end wakes everybody at the other one. */
  lemma CloseWakes(s: Sys, w: bool, p: nat)
    requires Enabled(s, Close(w)) && p < |s.users|
    ensures var t := Do(s, Close(w));
            && (if w then !t.pipe.writeopen && t.pipe.readopen == s.pipe.readopen
                else !t.pipe.readopen && t.pipe.writeopen == s.pipe.writeopen)
            && t.pipe.written == s.pipe.written && t.pipe.taken == s.pipe.taken
            && |t.users| == |s.users| && SetAsleep(t.users[p], false) == SetAsleep(s.users[p], false)
            && (!t.users[p].Idle? ==> !t.users[p].asleep || (if w then t.users[p].Writer? else t.users[p].Reader?))
  {
  }

  /** Nobody who is marked killed is asleep. */
  predicate KilledAwake(s: Sys) {
    && |s.killed| == |s.users|
    && forall p: nat {:trigger s.users[p]} :: p < |s.users| && !s.users[p].Idle? && s.killed[p] ==> !s.users[p].asleep
  }

  lemma KilledAwakeStep(s: Sys, a: Action)
    requires KilledAwake(s) && Enabled(s, a)
    ensures KilledAwake(Do(s, a))
  {
  }

  /** In every run a killed process is awake, to find out and return. */
  lemma {:induction false} KilledNeverSleeps(s: Sys, t: Sys, run: seq<Action>)
    requires KilledAwake(s) && Run(s, t, run)
    ensures KilledAwake(t)
    decreases |run|
  {
    if run != [] {
      KilledAwakeStep(s, run[0]);
      KilledNeverSleeps(Do(s, run[0]), t, run[1..]);
    }
  }

  /** In every run without that case: nobody sleeps while he could go on. */
  lemma NobodyStuck(s: Sys, t: Sys, run: seq<Action>, p: nat)
    requires s.pipe == View([], 0, true, true) && |s.killed| == |s.users|
    requires forall k: nat {:trigger s.users[k]} :: k < |s.users| ==> s.users[k].Idle?
    requires Run(s, t, run) && Careful(s, run) && p < |t.users|
    ensures Fits(t.pipe)
    ensures t.users[p].Reader? && t.users[p].asleep ==> Available(t.pipe) == 0 && t.pipe.writeopen
    ensures t.users[p].Writer? && t.users[p].asleep ==> Room(t.pipe) == 0 && t.pipe.readopen
  {
    assert Inv(s);
    InvRun(s, t, run);
    assert UserOk(t, p);
  }

  /** An empty pipe and two processes, neither of them using it. */
  function TwoUsers(): Sys { Sys(View([], 0, true, true), [Idle, Idle], [false, false], []) }

  /**
   * That case happens: process 0 reads from the empty pipe and sleeps, process 1 begins to write 600 bytes and is
   * killed. Its write fails after 512 bytes, and the reader sleeps on with 512 bytes to be read.
   */
  lemma ReaderForgotten(addr: seq<Byte>) returns (run: seq<Action>, t: Sys)
    requires |addr| == 600
    ensures Run(TwoUsers(), t, run) && Enabled(t, Go(1)) && MissedWakeup(t, Go(1))
    ensures var u := Do(t, Go(1)); u.users[0] == Reader(1, true) && Fits(u.pipe) && Available(u.pipe) == 512
  {
    var a, b, c, d := BeginRead(0, 1), Go(0), BeginWrite(1, addr), Kill(1);
    run := [a, b, c, d];
    var s0 := TwoUsers();
    var s1 := Do(s0, a);
    var s2 := Do(s1, b);
    assert s2.users == [Reader(1, true), Idle];
    var s3 := Do(s2, c);
    t := Do(s3, d);
    assert t.users == [Reader(1, true), Writer(addr, 0, false)] && t.killed == [false, true];
    assert t.users[0].Reader? && t.users[0].asleep;
    assert run[1..] == [b, c, d] && run[1..][1..] == [c, d] && run[1..][1..][1..] == [d] && [d][1..] == [];
    assert Run(t, t, []);
    assert Run(s3, t, [d]);
    assert Run(s2, t, [c, d]);
    assert Run(s1, t, [b, c, d]);
  }
}
