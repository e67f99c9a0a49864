/**
 * Sleep locks under every interleaving. A process is at one line of acquiresleep, releasesleep, sleep or wakeup;
 * one step executes one line, with spinlock acquire, release and the context switch as single steps.
 */
module SleepLock {
  /** The line a process is about to execute, l being the sleep lock it works on. */
  datatype Pc =
    | Idle                  // in none of these functions
    | Enter(l: nat)         // acquiresleep: acquire(&lk->lk)
    | Check(l: nat)         // acquiresleep: while (lk->locked)
    | WantTable(l: nat)     // sleep: acquire(&ptable.lock)
    | DropLk(l: nat)        // sleep: release(lk)
    | GoSleep(l: nat)       // sleep: p->chan = chan, p->state = SLEEPING, sched()
    | Asleep(l: nat)        // state SLEEPING on channel l
    | Ready(l: nat)         // state RUNNABLE, not yet back from sched()
    | Resumed(l: nat)       // sleep: p->chan = 0, release(&ptable.lock)
    | Again(l: nat)         // sleep: acquire(lk)
    | Take(l: nat)          // acquiresleep: lk->locked = 1
    | SetPid(l: nat)        // acquiresleep: lk->pid = myproc()->pid
    | Leave(l: nat)         // acquiresleep or releasesleep: release(&lk->lk)
    | RelEnter(l: nat)      // releasesleep: acquire(&lk->lk)
    | Clear(l: nat)         // releasesleep: lk->locked = 0
    | ClearPid(l: nat)      // releasesleep: lk->pid = 0
    | WakeTable(l: nat)     // wakeup: acquire(&ptable.lock)
    | Wake(l: nat)          // wakeup: wakeup1(chan)
    | WakeDone(l: nat)      // wakeup: release(&ptable.lock)

  datatype Holder = Nobody | By(p: nat)

  /** pids are the process ids; held are the locks a process has set and not yet cleared. */
  datatype Sys = Sys(pids: seq<nat>, pc: seq<Pc>, held: seq<set<nat>>,
                     locked: seq<bool>, pid: seq<nat>, spin: seq<Holder>, table: Holder)

  /** Begin acquiresleep or releasesleep, execute the next line, or be hit by kill(). */
  datatype Action = Acquire(p: nat, l: nat) | Release(p: nat, l: nat) | Go(p: nat) | Kill(p: nat)

  predicate Shape(s: Sys) {
    && |s.pc| == |s.held| == |s.pids|
    && |s.locked| == |s.pid| == |s.spin|
    && forall p: nat {:trigger s.pc[p]} :: p < |s.pc| && !s.pc[p].Idle? ==> s.pc[p].l < |s.locked|
  }

  predicate Free(s: Sys, l: nat)
    requires l < |s.spin|
  {
    s.spin[l] == Nobody
  }

  /** May the process execute its next line? Only a lock that is taken, or sleep, stops it. */
  predicate CanGo(s: Sys, p: nat)
    requires Shape(s) && p < |s.pc|
  {
    match s.pc[p]
    case Idle => false
    case Enter(l) => Free(s, l)
    case Again(l) => Free(s, l)
    case RelEnter(l) => Free(s, l)
    case WantTable(_) => s.table == Nobody
    case WakeTable(_) => s.table == Nobody
    case Ready(_) => s.table == Nobody
    case Asleep(_) => false
    case _ => true
  }

  /** Only the holder releases: iunlock and brelse panic unless holdingsleep, and iput has just acquired. */
  predicate Enabled(s: Sys, a: Action)
    requires Shape(s)
  {
    match a
    case Acquire(p, l) => p < |s.pc| && s.pc[p].Idle? && l < |s.locked|
    case Release(p, l) => p < |s.pc| && s.pc[p].Idle? && l < |s.locked| && l in s.held[p]
    case Go(p) => p < |s.pc| && CanGo(s, p)
    case Kill(p) => p < |s.pc| && s.table == Nobody
  }

  function At(s: Sys, p: nat, c: Pc): Sys
    requires p < |s.pc|
  {
    s.(pc := s.pc[p := c])
  }

  /** wakeup1: every process sleeping on l becomes runnable. */
  function WakeAll(pc: seq<Pc>, l: nat): seq<Pc> {
    seq(|pc|, p requires 0 <= p < |pc| => if pc[p] == Asleep(l) then Ready(l) else pc[p])
  }

  /** The line at s.pc[p], executed. */
  function Line(s: Sys, p: nat): Sys
    requires Shape(s) && p < |s.pc| && CanGo(s, p)
  {
    match s.pc[p]
    case Enter(l) => At(s, p, Check(l)).(spin := s.spin[l := By(p)])
    case Check(l) => At(s, p, if s.locked[l] then WantTable(l) else Take(l))
    case WantTable(l) => At(s, p, DropLk(l)).(table := By(p))
    case DropLk(l) => At(s, p, GoSleep(l)).(spin := s.spin[l := Nobody])
    case GoSleep(l) => At(s, p, Asleep(l)).(table := Nobody)
    case Ready(l) => At(s, p, Resumed(l)).(table := By(p))
    case Resumed(l) => At(s, p, Again(l)).(table := Nobody)
    case Again(l) => At(s, p, Check(l)).(spin := s.spin[l := By(p)])
    case Take(l) => At(s, p, SetPid(l)).(locked := s.locked[l := true], held := s.held[p := s.held[p] + {l}])
    case SetPid(l) => At(s, p, Leave(l)).(pid := s.pid[l := s.pids[p]])
    case Leave(l) => At(s, p, Idle).(spin := s.spin[l := Nobody])
    case RelEnter(l) => At(s, p, Clear(l)).(spin := s.spin[l := By(p)])
    case Clear(l) => At(s, p, ClearPid(l)).(locked := s.locked[l := false], held := s.held[p := s.held[p] - {l}])
    case ClearPid(l) => At(s, p, WakeTable(l)).(pid := s.pid[l := 0])
    case WakeTable(l) => At(s, p, Wake(l)).(table := By(p))
    case Wake(l) => s.(pc := WakeAll(s.pc, l)[p := WakeDone(l)])
    case WakeDone(l) => At(s, p, Leave(l)).(table := Nobody)
  }

  function Do(s: Sys, a: Action): Sys
    requires Shape(s) && Enabled(s, a)
  {
    match a
    case Acquire(p, l) => At(s, p, Enter(l))
    case Release(p, l) => At(s, p, RelEnter(l))
    case Go(p) => Line(s, p)
    case Kill(p) => if s.pc[p].Asleep? then At(s, p, Ready(s.pc[p].l)) else s
  }

  /** Lines executed with lk->lk held. */
  predicate HoldsSpin(c: Pc) {
    c.Check? || c.WantTable? || c.DropLk? || c.Take? || c.SetPid? || c.Leave? || c.Clear? || c.ClearPid?
    || c.WakeTable? || c.Wake? || c.WakeDone?
  }

  /** Lines executed with ptable.lock held. */
  predicate HoldsTable(c: Pc) { c.DropLk? || c.GoSleep? || c.Resumed? || c.Wake? || c.WakeDone? }

  /** The lock is cleared and its sleepers are not yet woken. */
  predicate Waking(c: Pc) { c.ClearPid? || c.WakeTable? || c.Wake? }

  /** Past the check, on the way to sleep or asleep. */
  predicate Sleeper(c: Pc) { c.WantTable? || c.DropLk? || c.GoSleep? || c.Asleep? }

  /** Somebody between clearing l and waking its sleepers. */
  predicate WakeComing(s: Sys, l: nat)
    requires l < |s.spin|
  {
    s.spin[l].By? && s.spin[l].p < |s.pc| && Waking(s.pc[s.spin[l].p]) && s.pc[s.spin[l].p].l == l
  }

  predicate ProcOk(s: Sys, p: nat)
    requires Shape(s) && p < |s.pc|
  {
    var c := s.pc[p];
    && (HoldsSpin(c) ==> s.spin[c.l] == By(p))
    && (HoldsTable(c) ==> s.table == By(p))
    && (Sleeper(c) ==> s.locked[c.l] || WakeComing(s, c.l))
    && (c.RelEnter? || c.Clear? || c.SetPid? ==> c.l in s.held[p])
    && (c.Take? || c.ClearPid? ==> !s.locked[c.l])
  }

  /** p's locks are locked, under its own pid, and nobody else has them. */
  predicate HeldOk(s: Sys, p: nat, l: nat)
    requires Shape(s) && p < |s.pc|
  {
    l in s.held[p] ==>
      && l < |s.locked| && s.locked[l]
      && (s.pc[p] != SetPid(l) ==> s.pid[l] == s.pids[p])
      && forall q: nat {:trigger s.held[q]} :: q < |s.pc| && l in s.held[q] ==> q == p
  }

  predicate SpinOk(s: Sys, l: nat)
    requires Shape(s) && l < |s.spin|
  {
    s.spin[l].By? ==> s.spin[l].p < |s.pc| && HoldsSpin(s.pc[s.spin[l].p]) && s.pc[s.spin[l].p].l == l
  }

  predicate TableOk(s: Sys)
    requires Shape(s)
  {
    s.table.By? ==> s.table.p < |s.pc| && HoldsTable(s.pc[s.table.p])
  }

  /** A locked lock has a holder. */
  ghost predicate LockedOk(s: Sys, l: nat)
    requires Shape(s) && l < |s.spin|
  {
    s.locked[l] ==> exists p: nat {:trigger s.held[p]} :: p < |s.pc| && l in s.held[p]
  }

  ghost predicate Inv(s: Sys) {
    && Shape(s)
    && (forall p: nat {:trigger ProcOk(s, p)} :: p < |s.pc| ==> ProcOk(s, p))
    && (forall p: nat, l: nat {:trigger HeldOk(s, p, l)} :: p < |s.pc| ==> HeldOk(s, p, l))
    && (forall l: nat {:trigger SpinOk(s, l)} :: l < |s.spin| ==> SpinOk(s, l))
    && (forall l: nat {:trigger LockedOk(s, l)} :: l < |s.spin| ==> LockedOk(s, l))
    && TableOk(s)
  }

  lemma LineShape(s: Sys, p: nat)
    requires Shape(s) && p < |s.pc| && CanGo(s, p)
    ensures Shape(Line(s, p)) && |Line(s, p).pc| == |s.pc| && |Line(s, p).spin| == |s.spin|
  {
  }

  lemma LineSelf(s: Sys, p: nat)
    requires Inv(s) && p < |s.pc| && CanGo(s, p)
    ensures Shape(Line(s, p)) && ProcOk(Line(s, p), p)
  {
    LineShape(s, p);
    assert ProcOk(s, p);
  }

  /** What a sleeper waits for stays until the wakeup itself. */
  lemma LineWait(s: Sys, p: nat, l: nat)
    requires Inv(s) && p < |s.pc| && CanGo(s, p) && l < |s.spin| && s.pc[p] != Wake(l)
    requires s.locked[l] || WakeComing(s, l)
    ensures Shape(Line(s, p)) && (Line(s, p).locked[l] || WakeComing(Line(s, p), l))
  {
    LineShape(s, p);
    assert ProcOk(s, p);
  }

  /** What another process has locked stays locked by it. */
  lemma LineLocks(s: Sys, p: nat, q: nat)
    requires Inv(s) && p < |s.pc| && CanGo(s, p) && q < |s.pc| && q != p
    ensures var t := Line(s, p);
            && (s.table == By(q) ==> t.table == By(q))
            && forall l: nat {:trigger t.spin[l]} {:trigger s.spin[l]} ::
                 l < |s.spin| && s.spin[l] == By(q) ==> l < |t.spin| && t.spin[l] == By(q)
  {
    assert ProcOk(s, p);
  }

  lemma LineKeepsClear(s: Sys, p: nat, q: nat, l: nat)
    requires Inv(s) && p < |s.pc| && CanGo(s, p) && q != p && l < |s.spin| && s.spin[l] == By(q) && !s.locked[l]
    ensures var t := Line(s, p); l < |t.locked| && !t.locked[l]
  {
    assert ProcOk(s, p);
  }

  lemma LineOther(s: Sys, p: nat, q: nat)
    requires Inv(s) && p < |s.pc| && CanGo(s, p) && q < |s.pc| && q != p && !s.pc[p].Wake?
    ensures Shape(Line(s, p)) && ProcOk(Line(s, p), q)
  {
    LineShape(s, p);
    assert ProcOk(s, q);
    LineLocks(s, p, q);
    var c := s.pc[q];
    if Sleeper(c) {
      LineWait(s, p, c.l);
    } else if c.Take? || c.ClearPid? {
      LineKeepsClear(s, p, q, c.l);
    }
  }

  lemma WakeOther(s: Sys, p: nat, q: nat)
    requires Inv(s) && p < |s.pc| && CanGo(s, p) && q < |s.pc| && q != p && s.pc[p].Wake?
    ensures Shape(Line(s, p)) && ProcOk(Line(s, p), q)
  {
    LineShape(s, p);
    assert ProcOk(s, p) && ProcOk(s, q);
    var c := s.pc[q];
    if Sleeper(c) && s.pc[p] != Wake(c.l) {
      LineWait(s, p, c.l);
    }
  }

  lemma LineHeld(s: Sys, p: nat, q: nat, l: nat)
    requires Inv(s) && p < |s.pc| && CanGo(s, p) && q < |s.pc|
    ensures Shape(Line(s, p)) && HeldOk(Line(s, p), q, l)
  {
    var t := Line(s, p);
    assert ProcOk(s, p) && HeldOk(s, q, l) && HeldOk(s, p, l);
    forall r: nat {:trigger t.held[r]} | r < |s.pc| && l in t.held[r] && l in t.held[q]
      ensures r == q
    {
      assert HeldOk(s, r, l);
    }
  }

  lemma LineSpin(s: Sys, p: nat, l: nat)
    requires Inv(s) && p < |s.pc| && CanGo(s, p) && l < |s.spin|
    ensures Shape(Line(s, p)) && SpinOk(Line(s, p), l)
  {
    assert ProcOk(s, p) && SpinOk(s, l);
  }

  lemma LineLocked(s: Sys, p: nat, l: nat)
    requires Inv(s) && p < |s.pc| && CanGo(s, p) && l < |s.spin|
    ensures Shape(Line(s, p)) && LockedOk(Line(s, p), l)
  {
    var t := Line(s, p);
    assert ProcOk(s, p) && LockedOk(s, l);
    if s.locked[l] && t.locked[l] {
      var h: nat :| h < |s.pc| && l in s.held[h];
      assert l in t.held[h];
    } else if t.locked[l] {
      assert l in t.held[p];
    }
  }

  lemma LineTable(s: Sys, p: nat)
    requires Inv(s) && p < |s.pc| && CanGo(s, p)
    ensures Shape(Line(s, p)) && TableOk(Line(s, p))
  {
    assert ProcOk(s, p);
  }

  /** Every line keeps the invariant, whoever executes it. */
  lemma InvLine(s: Sys, p: nat)
    requires Inv(s) && p < |s.pc| && CanGo(s, p)
    ensures Inv(Line(s, p))
  {
    var t := Line(s, p);
    forall q: nat {:trigger ProcOk(t, q)} | q < |t.pc|
      ensures Shape(t) && ProcOk(t, q)
    {
      LineShape(s, p);
      if q == p {
        LineSelf(s, p);
      } else if s.pc[p].Wake? {
        WakeOther(s, p, q);
      } else {
        LineOther(s, p, q);
      }
    }
    LineShape(s, p);
    forall q: nat, l: nat {:trigger HeldOk(t, q, l)} | q < |t.pc|
      ensures HeldOk(t, q, l)
    {
      LineHeld(s, p, q, l);
    }
    forall l: nat {:trigger SpinOk(t, l)} | l < |t.spin|
      ensures SpinOk(t, l)
    {
      LineSpin(s, p, l);
    }
    forall l: nat {:trigger LockedOk(t, l)} | l < |t.spin|
      ensures LockedOk(t, l)
    {
      LineLocked(s, p, l);
    }
    LineTable(s, p);
  }

  /** A step that moves one process between lines without locks keeps the invariant. */
  lemma InvMove(s: Sys, p: nat, c: Pc)
    requires Inv(s) && p < |s.pc| && !c.Idle? && c.l < |s.locked|
    requires (s.pc[p].Idle? && (c.Enter? || (c.RelEnter? && c.l in s.held[p])))
             || (s.pc[p].Asleep? && c == Ready(s.pc[p].l))
    ensures Inv(At(s, p, c))
  {
    var t := At(s, p, c);
    forall q: nat {:trigger ProcOk(t, q)} | q < |t.pc|
      ensures ProcOk(t, q)
    {
      assert ProcOk(s, q) && ProcOk(s, p);
    }
    forall q: nat, l: nat {:trigger HeldOk(t, q, l)} | q < |t.pc|
      ensures HeldOk(t, q, l)
    {
      assert HeldOk(s, q, l);
    }
    forall l: nat {:trigger SpinOk(t, l)} | l < |t.spin|
      ensures SpinOk(t, l)
    {
      assert SpinOk(s, l);
    }
    forall l: nat {:trigger LockedOk(t, l)} | l < |t.spin|
      ensures LockedOk(t, l)
    {
      assert LockedOk(s, l);
    }
  }

  lemma InvStep(s: Sys, a: Action)
    requires Inv(s) && Enabled(s, a)
    ensures Inv(Do(s, a))
  {
    match a
    case Acquire(p, l) => InvMove(s, p, Enter(l));
    case Release(p, l) => InvMove(s, p, RelEnter(l));
    case Go(p) => InvLine(s, p);
    case Kill(p) =>
      if s.pc[p].Asleep? {
        InvMove(s, p, Ready(s.pc[p].l));
      }
  }

  // Whole runs.

  /** After initsleeplock: every lock free, every process elsewhere. */
  predicate Init(s: Sys) {
    && Shape(s) && s.table == Nobody
    && (forall p: nat {:trigger s.pc[p]} {:trigger s.held[p]} :: p < |s.pc| ==> s.pc[p].Idle? && s.held[p] == {})
    && (forall l: nat {:trigger s.locked[l]} {:trigger s.spin[l]} ::
          l < |s.locked| ==> !s.locked[l] && s.spin[l] == Nobody)
  }

  ghost predicate Run(s: Sys, t: Sys, run: seq<Action>)
    decreases |run|
  {
    if run == [] then t == s
    else Shape(s) && Enabled(s, run[0]) && Run(Do(s, run[0]), t, run[1..])
  }

  lemma {:induction false} InvRun(s: Sys, t: Sys, run: seq<Action>)
    requires Inv(s) && Run(s, t, run)
    ensures Inv(t)
    decreases |run|
  {
    if run != [] {
      InvStep(s, run[0]);
      InvRun(Do(s, run[0]), t, run[1..]);
    }
  }

  lemma InitInv(s: Sys)
    requires Init(s)
    ensures Inv(s)
  {
  }

  /**
   * No lost wakeup, in every run: a process asleep on a lock, or past the check and on its way to sleep, has a
   * holder to wait for, or somebody has cleared the lock and is still to wake it.
   */
  lemma NoLostWakeup(s: Sys, t: Sys, run: seq<Action>, p: nat)
    requires Init(s) && Run(s, t, run)
    requires Shape(t) && p < |t.pc| && Sleeper(t.pc[p])
    ensures var l := t.pc[p].l;
            (t.locked[l] && exists h: nat {:trigger t.held[h]} :: h < |t.pc| && l in t.held[h])
            || exists q: nat {:trigger t.pc[q]} :: q < |t.pc| && Waking(t.pc[q]) && t.pc[q].l == l
  {
    InitInv(s);
    InvRun(s, t, run);
    var l := t.pc[p].l;
    assert ProcOk(t, p) && LockedOk(t, l);
  }

  /** Mutual exclusion, in every run: one process at most has a lock, and the lock carries its pid. */
  lemma Exclusion(s: Sys, t: Sys, run: seq<Action>, p: nat, q: nat, l: nat)
    requires Init(s) && Run(s, t, run)
    requires Shape(t) && p < |t.pc| && q < |t.pc| && l in t.held[p]
    ensures l < |t.locked| && t.locked[l]
    ensures l in t.held[q] ==> q == p
    ensures t.pc[p] != SetPid(l) ==> t.pid[l] == t.pids[p]
  {
    InitInv(s);
    InvRun(s, t, run);
    assert HeldOk(t, p, l);
  }

  /** holdingsleep, asked by a process outside these functions, says whether that process has the lock. */
  lemma HoldingSleep(s: Sys, t: Sys, run: seq<Action>, p: nat, l: nat)
    requires Init(s) && Run(s, t, run)
    requires Shape(t) && p < |t.pc| && t.pc[p].Idle? && l < |t.locked| && Free(t, l)
    requires forall i: nat, j: nat {:trigger t.pids[i], t.pids[j]} ::
               i < j < |t.pids| ==> t.pids[i] != t.pids[j]
    ensures (t.locked[l] && t.pid[l] == t.pids[p]) <==> l in t.held[p]
  {
    InitInv(s);
    InvRun(s, t, run);
    assert HeldOk(t, p, l) && LockedOk(t, l);
    if t.locked[l] {
      var h: nat :| h < |t.pc| && l in t.held[h];
      assert HeldOk(t, h, l) && ProcOk(t, h);
    }
  }

  /** The step that clears a lock leaves no sleeper behind: once its wakeup is done, no process sleeps on it. */
  lemma WakesAll(s: Sys, t: Sys, run: seq<Action>, p: nat, q: nat)
    requires Init(s) && Run(s, t, run)
    requires Shape(t) && p < |t.pc| && q < |t.pc| && t.pc[p].Wake? && CanGo(t, p)
    ensures var u := Line(t, p); !(u.pc[q].Asleep? && u.pc[q].l == t.pc[p].l) && !u.pc[q].GoSleep?
  {
    InitInv(s);
    InvRun(s, t, run);
    assert ProcOk(t, p) && ProcOk(t, q);
  }

  // What a call achieves.

  /** p has begun to acquire l and does not have it yet. */
  predicate Acquiring(c: Pc, l: nat) {
    (c.Enter? || c.Check? || Sleeper(c) || c.Ready? || c.Resumed? || c.Again? || c.Take?) && c.l == l
  }

  /** p has begun to release l and still has it. */
  predicate Releasing(c: Pc, l: nat) { (c.RelEnter? || c.Clear?) && c.l == l }

  /** p has l or is on its way to have it. */
  predicate Gains(s: Sys, p: nat, l: nat)
    requires p < |s.pc| && |s.held| == |s.pc|
  {
    Acquiring(s.pc[p], l) || (l in s.held[p] && !Releasing(s.pc[p], l))
  }

  /** p does not have l or is on its way to give it up. */
  predicate Loses(s: Sys, p: nat, l: nat)
    requires p < |s.pc| && |s.held| == |s.pc|
  {
    Releasing(s.pc[p], l) || (l !in s.held[p] && !Acquiring(s.pc[p], l))
  }

  lemma GainsStep(s: Sys, a: Action, p: nat, l: nat)
    requires Inv(s) && Enabled(s, a) && p < |s.pc| && Gains(s, p, l) && a != Release(p, l)
    ensures |Do(s, a).pc| == |s.pc| == |Do(s, a).held| && Gains(Do(s, a), p, l)
  {
    assert ProcOk(s, p);
  }

  lemma LosesStep(s: Sys, a: Action, p: nat, l: nat)
    requires Inv(s) && Enabled(s, a) && p < |s.pc| && Loses(s, p, l) && a != Acquire(p, l)
    ensures |Do(s, a).pc| == |s.pc| == |Do(s, a).held| && Loses(Do(s, a), p, l)
  {
    if a == Go(p) {
      assert ProcOk(s, p);
    }
  }

  lemma {:induction false} GainsRun(s: Sys, t: Sys, run: seq<Action>, p: nat, l: nat)
    requires Inv(s) && Run(s, t, run) && p < |s.pc| && Gains(s, p, l) && Release(p, l) !in run
    ensures |t.pc| == |s.pc| == |t.held| && Gains(t, p, l)
    decreases |run|
  {
    if run != [] {
      GainsStep(s, run[0], p, l);
      InvStep(s, run[0]);
      GainsRun(Do(s, run[0]), t, run[1..], p, l);
    }
  }

  lemma {:induction false} LosesRun(s: Sys, t: Sys, run: seq<Action>, p: nat, l: nat)
    requires Inv(s) && Run(s, t, run) && p < |s.pc| && Loses(s, p, l) && Acquire(p, l) !in run
    ensures |t.pc| == |s.pc| == |t.held| && Loses(t, p, l)
    decreases |run|
  {
    if run != [] {
      LosesStep(s, run[0], p, l);
      InvStep(s, run[0]);
      LosesRun(Do(s, run[0]), t, run[1..], p, l);
    }
  }

  /** Where acquiresleep returns the process has the lock, and keeps it until it releases it. */
  lemma AcquireGains(s: Sys, t: Sys, run: seq<Action>, p: nat, l: nat)
    requires Inv(s) && Enabled(s, Acquire(p, l)) && Run(Do(s, Acquire(p, l)), t, run) && Release(p, l) !in run
    requires p < |t.pc| && t.pc[p].Idle?
    ensures |t.held| == |t.pc| && l in t.held[p] && l < |t.locked| && t.locked[l]
  {
    var u := Do(s, Acquire(p, l));
    InvStep(s, Acquire(p, l));
    GainsRun(u, t, run, p, l);
    InvRun(u, t, run);
    assert HeldOk(t, p, l);
  }

  lemma {:induction false} RunSize(s: Sys, t: Sys, run: seq<Action>)
    requires Inv(s) && Run(s, t, run)
    ensures |t.pc| == |s.pc| && |t.locked| == |s.locked|
    decreases |run|
  {
    if run != [] {
      InvStep(s, run[0]);
      RunSize(Do(s, run[0]), t, run[1..]);
    }
  }

  /** Where releasesleep returns the process does not have the lock, nor until it acquires it again. */
  lemma ReleaseLoses(s: Sys, t: Sys, run: seq<Action>, p: nat, l: nat)
    requires Inv(s) && Enabled(s, Release(p, l)) && Run(Do(s, Release(p, l)), t, run) && Acquire(p, l) !in run
    requires p < |t.pc| && t.pc[p].Idle?
    ensures |t.held| == |t.pc| && l !in t.held[p]
    ensures l < |t.locked|
    ensures t.locked[l] ==> exists q: nat {:trigger t.held[q]} :: q < |t.pc| && q != p && l in t.held[q]
  {
    var u := Do(s, Release(p, l));
    InvStep(s, Release(p, l));
    LosesRun(u, t, run, p, l);
    InvRun(u, t, run);
    RunSize(u, t, run);
    assert LockedOk(t, l);
  }

  /** q sleeps on l in every state of the run. */
  ghost predicate SleepsOn(s: Sys, run: seq<Action>, q: nat, l: nat)
    decreases |run|
  {
    && q < |s.pc| && s.pc[q] == Asleep(l)
    && (run != [] ==> Shape(s) && Enabled(s, run[0]) && SleepsOn(Do(s, run[0]), run[1..], q, l))
  }

  /** p has begun to release l and has not woken those who sleep on it. */
  predicate ToWake(c: Pc, l: nat) { (c.RelEnter? || c.Clear? || Waking(c)) && c.l == l }

  lemma {:induction false} StillToWake(s: Sys, t: Sys, run: seq<Action>, p: nat, q: nat, l: nat)
    requires Inv(s) && Run(s, t, run) && p < |s.pc| && ToWake(s.pc[p], l) && SleepsOn(s, run, q, l)
    ensures p < |t.pc| && ToWake(t.pc[p], l)
    decreases |run|
  {
    if run != [] {
      var u := Do(s, run[0]);
      assert u.pc[q] == Asleep(l);
      InvStep(s, run[0]);
      StillToWake(u, t, run[1..], p, q, l);
    }
  }

  /** Nobody sleeps on a lock from the beginning of a release to its end. */
  lemma ReleaseWakes(s: Sys, t: Sys, run: seq<Action>, p: nat, q: nat, l: nat)
    requires Inv(s) && Enabled(s, Release(p, l)) && Run(Do(s, Release(p, l)), t, run)
    requires p < |t.pc| && t.pc[p].Idle?
    ensures !SleepsOn(Do(s, Release(p, l)), run, q, l)
  {
    InvStep(s, Release(p, l));
    if SleepsOn(Do(s, Release(p, l)), run, q, l) {
      StillToWake(Do(s, Release(p, l)), t, run, p, q, l);
    }
  }

  /** Whoever has ptable.lock can execute a line. */
  lemma TableGoes(s: Sys)
    requires Inv(s) && s.table.By?
    ensures s.table.p < |s.pc| && CanGo(s, s.table.p)
  {
  }

  /** The spin locks never stand in each other's way: unless all processes are elsewhere or asleep, somebody goes on. */
  lemma SomebodyGoes(s: Sys, t: Sys, run: seq<Action>, p: nat)
    requires Init(s) && Run(s, t, run) && Shape(t) && p < |t.pc| && !t.pc[p].Idle? && !t.pc[p].Asleep?
    ensures exists q: nat :: q < |t.pc| && CanGo(t, q)
  {
    InitInv(s);
    InvRun(s, t, run);
    if !CanGo(t, p) {
      if t.table.By? {
        TableGoes(t);
      } else {
        var l := t.pc[p].l;
        assert SpinOk(t, l);
        assert CanGo(t, t.spin[l].p);
      }
    }
  }

  /** kill leaves the process awake and touches nothing else. */
  lemma KillWakes(s: Sys, p: nat)
    requires Shape(s) && Enabled(s, Kill(p))
    ensures var t := Do(s, Kill(p));
            && |t.pc| == |s.pc| && !t.pc[p].Asleep? && t == s.(pc := s.pc[p := t.pc[p]])
            && (s.pc[p].Asleep? ==> t.pc[p] == Ready(s.pc[p].l)) && (!s.pc[p].Asleep? ==> t == s)
  {
  }

  // Two processes, one lock.

  function Two(c: Pc, d: Pc, h: set<nat>, i: set<nat>, locked: bool, pid: nat, spin: Holder, table: Holder): Sys {
    Sys([7, 8], [c, d], [h, i], [locked], [pid], [spin], table)
  }

  function Calm(c: Pc, d: Pc, h: set<nat>, i: set<nat>, pid: nat): Sys {
    Two(c, d, h, i, pid != 0, pid, Nobody, Nobody)
  }

  lemma First(s: Sys, a: Action, u: Sys, run: seq<Action>, t: Sys)
    requires Shape(s) && Enabled(s, a) && Do(s, a) == u && Run(u, t, run)
    ensures Run(s, t, [a] + run)
  {
    assert ([a] + run)[1..] == run;
  }

  lemma {:induction false} Onwards(s: Sys, u: Sys, t: Sys, a: seq<Action>, b: seq<Action>)
    requires Run(s, u, a) && Run(u, t, b)
    ensures Run(s, t, a + b)
    decreases |a|
  {
    if a == [] {
      assert a + b == b;
    } else {
      Onwards(Do(s, a[0]), u, t, a[1..], b);
      assert (a + b)[1..] == a[1..] + b;
    }
  }

  /** n lines of process p. */
  function Lines(p: nat, n: nat): seq<Action> { if n == 0 then [] else [Go(p)] + Lines(p, n - 1) }

  lemma Same(s: Sys, t: Sys)
    requires s.pids == t.pids && s.pc == t.pc && s.locked == t.locked && s.pid == t.pid
    requires s.spin == t.spin && s.table == t.table
    requires |s.held| == |t.held| && forall k :: 0 <= k < |s.held| ==> s.held[k] == t.held[k]
    ensures s == t
  {
  }

  /** Process 0 acquires the lock, which is free. */
  lemma FirstAcquires1()
    ensures Run(Calm(Idle, Idle, {}, {}, 0),
                Two(Take(0), Idle, {}, {}, false, 0, By(0), Nobody), [Acquire(0, 0)] + Lines(0, 2))
  {
    var s0 := Two(Idle, Idle, {}, {}, false, 0, Nobody, Nobody);
    var s1 := Two(Enter(0), Idle, {}, {}, false, 0, Nobody, Nobody);
    Same(Do(s0, Acquire(0, 0)), s1);
    var s2 := Two(Check(0), Idle, {}, {}, false, 0, By(0), Nobody);
    Same(Do(s1, Go(0)), s2);
    var s3 := Two(Take(0), Idle, {}, {}, false, 0, By(0), Nobody);
    Same(Do(s2, Go(0)), s3);
    assert Run(s3, s3, []);
    First(s2, Go(0), s3, Lines(0, 0), s3);
    First(s1, Go(0), s2, Lines(0, 1), s3);
    First(s0, Acquire(0, 0), s1, Lines(0, 2), s3);
  }

  lemma FirstAcquires2()
    ensures Run(Two(Take(0), Idle, {}, {}, false, 0, By(0), Nobody), Calm(Idle, Idle, {0}, {}, 7), Lines(0, 3))
  {
    var s0 := Two(Take(0), Idle, {}, {}, false, 0, By(0), Nobody);
    var s1 := Two(SetPid(0), Idle, {0}, {}, true, 0, By(0), Nobody);
    Same(Do(s0, Go(0)), s1);
    var s2 := Two(Leave(0), Idle, {0}, {}, true, 7, By(0), Nobody);
    Same(Do(s1, Go(0)), s2);
    var s3 := Two(Idle, Idle, {0}, {}, true, 7, Nobody, Nobody);
    Same(Do(s2, Go(0)), s3);
    assert Run(s3, s3, []);
    First(s2, Go(0), s3, Lines(0, 0), s3);
    First(s1, Go(0), s2, Lines(0, 1), s3);
    First(s0, Go(0), s1, Lines(0, 2), s3);
  }

  lemma FirstAcquires() returns (run: seq<Action>)
    ensures Run(Calm(Idle, Idle, {}, {}, 0), Calm(Idle, Idle, {0}, {}, 7), run)
  {
    FirstAcquires2();
    FirstAcquires1();
    run := Lines(0, 3);
    Onwards(Calm(Idle, Idle, {}, {}, 0),
            Two(Take(0), Idle, {}, {}, false, 0, By(0), Nobody), Calm(Idle, Idle, {0}, {}, 7),
            [Acquire(0, 0)] + Lines(0, 2), run);
    run := [Acquire(0, 0)] + Lines(0, 2) + run;
  }

  /** Process 1 wants it and goes to sleep. */
  lemma SecondSleeps1()
    ensures Run(Calm(Idle, Idle, {0}, {}, 7),
                Two(Idle, WantTable(0), {0}, {}, true, 7, By(1), Nobody), [Acquire(1, 0)] + Lines(1, 2))
  {
    var s0 := Two(Idle, Idle, {0}, {}, true, 7, Nobody, Nobody);
    var s1 := Two(Idle, Enter(0), {0}, {}, true, 7, Nobody, Nobody);
    Same(Do(s0, Acquire(1, 0)), s1);
    var s2 := Two(Idle, Check(0), {0}, {}, true, 7, By(1), Nobody);
    Same(Do(s1, Go(1)), s2);
    var s3 := Two(Idle, WantTable(0), {0}, {}, true, 7, By(1), Nobody);
    Same(Do(s2, Go(1)), s3);
    assert Run(s3, s3, []);
    First(s2, Go(1), s3, Lines(1, 0), s3);
    First(s1, Go(1), s2, Lines(1, 1), s3);
    First(s0, Acquire(1, 0), s1, Lines(1, 2), s3);
  }

  lemma SecondSleeps2()
    ensures Run(Two(Idle, WantTable(0), {0}, {}, true, 7, By(1), Nobody),
                Calm(Idle, Asleep(0), {0}, {}, 7), Lines(1, 3))
  {
    var s0 := Two(Idle, WantTable(0), {0}, {}, true, 7, By(1), Nobody);
    var s1 := Two(Idle, DropLk(0), {0}, {}, true, 7, By(1), By(1));
    Same(Do(s0, Go(1)), s1);
    var s2 := Two(Idle, GoSleep(0), {0}, {}, true, 7, Nobody, By(1));
    Same(Do(s1, Go(1)), s2);
    var s3 := Two(Idle, Asleep(0), {0}, {}, true, 7, Nobody, Nobody);
    Same(Do(s2, Go(1)), s3);
    assert Run(s3, s3, []);
    First(s2, Go(1), s3, Lines(1, 0), s3);
    First(s1, Go(1), s2, Lines(1, 1), s3);
    First(s0, Go(1), s1, Lines(1, 2), s3);
  }

  lemma SecondSleeps() returns (run: seq<Action>)
    ensures Run(Calm(Idle, Idle, {0}, {}, 7), Calm(Idle, Asleep(0), {0}, {}, 7), run)
  {
    SecondSleeps2();
    SecondSleeps1();
    run := Lines(1, 3);
    Onwards(Calm(Idle, Idle, {0}, {}, 7),
            Two(Idle, WantTable(0), {0}, {}, true, 7, By(1), Nobody), Calm(Idle, Asleep(0), {0}, {}, 7),
            [Acquire(1, 0)] + Lines(1, 2), run);
    run := [Acquire(1, 0)] + Lines(1, 2) + run;
  }

  /** Process 0 releases it, which wakes process 1. */
  lemma FirstReleases1()
    ensures Run(Calm(Idle, Asleep(0), {0}, {}, 7),
                Two(ClearPid(0), Asleep(0), {}, {}, false, 7, By(0), Nobody), [Release(0, 0)] + Lines(0, 2))
  {
    var s0 := Two(Idle, Asleep(0), {0}, {}, true, 7, Nobody, Nobody);
    var s1 := Two(RelEnter(0), Asleep(0), {0}, {}, true, 7, Nobody, Nobody);
    Same(Do(s0, Release(0, 0)), s1);
    var s2 := Two(Clear(0), Asleep(0), {0}, {}, true, 7, By(0), Nobody);
    Same(Do(s1, Go(0)), s2);
    var s3 := Two(ClearPid(0), Asleep(0), {}, {}, false, 7, By(0), Nobody);
    Same(Do(s2, Go(0)), s3);
    assert Run(s3, s3, []);
    First(s2, Go(0), s3, Lines(0, 0), s3);
    First(s1, Go(0), s2, Lines(0, 1), s3);
    First(s0, Release(0, 0), s1, Lines(0, 2), s3);
  }

  lemma FirstReleases2()
    ensures Run(Two(ClearPid(0), Asleep(0), {}, {}, false, 7, By(0), Nobody),
                Two(WakeDone(0), Ready(0), {}, {}, false, 0, By(0), By(0)), Lines(0, 3))
  {
    var s0 := Two(ClearPid(0), Asleep(0), {}, {}, false, 7, By(0), Nobody);
    var s1 := Two(WakeTable(0), Asleep(0), {}, {}, false, 0, By(0), Nobody);
    Same(Do(s0, Go(0)), s1);
    var s2 := Two(Wake(0), Asleep(0), {}, {}, false, 0, By(0), By(0));
    Same(Do(s1, Go(0)), s2);
    var s3 := Two(WakeDone(0), Ready(0), {}, {}, false, 0, By(0), By(0));
    Same(Do(s2, Go(0)), s3);
    assert Run(s3, s3, []);
    First(s2, Go(0), s3, Lines(0, 0), s3);
    First(s1, Go(0), s2, Lines(0, 1), s3);
    First(s0, Go(0), s1, Lines(0, 2), s3);
  }

  lemma FirstReleases3()
    ensures Run(Two(WakeDone(0), Ready(0), {}, {}, false, 0, By(0), By(0)),
                Calm(Idle, Ready(0), {}, {}, 0), Lines(0, 2))
  {
    var s0 := Two(WakeDone(0), Ready(0), {}, {}, false, 0, By(0), By(0));
    var s1 := Two(Leave(0), Ready(0), {}, {}, false, 0, By(0), Nobody);
    Same(Do(s0, Go(0)), s1);
    var s2 := Two(Idle, Ready(0), {}, {}, false, 0, Nobody, Nobody);
    Same(Do(s1, Go(0)), s2);
    assert Run(s2, s2, []);
    First(s1, Go(0), s2, Lines(0, 0), s2);
    First(s0, Go(0), s1, Lines(0, 1), s2);
  }

  lemma FirstReleases() returns (run: seq<Action>)
    ensures Run(Calm(Idle, Asleep(0), {0}, {}, 7), Calm(Idle, Ready(0), {}, {}, 0), run)
  {
    FirstReleases3();
    FirstReleases2();
    FirstReleases1();
    run := Lines(0, 2);
    Onwards(Two(ClearPid(0), Asleep(0), {}, {}, false, 7, By(0), Nobody),
            Two(WakeDone(0), Ready(0), {}, {}, false, 0, By(0), By(0)), Calm(Idle, Ready(0), {}, {}, 0),
            Lines(0, 3), run);
    run := Lines(0, 3) + run;
    Onwards(Calm(Idle, Asleep(0), {0}, {}, 7),
            Two(ClearPid(0), Asleep(0), {}, {}, false, 7, By(0), Nobody), Calm(Idle, Ready(0), {}, {}, 0),
            [Release(0, 0)] + Lines(0, 2), run);
    run := [Release(0, 0)] + Lines(0, 2) + run;
  }

  /** Process 1 wakes up and finds the lock free. */
  lemma SecondAcquires1()
    ensures Run(Calm(Idle, Ready(0), {}, {}, 0), Two(Idle, Check(0), {}, {}, false, 0, By(1), Nobody), Lines(1, 3))
  {
    var s0 := Two(Idle, Ready(0), {}, {}, false, 0, Nobody, Nobody);
    var s1 := Two(Idle, Resumed(0), {}, {}, false, 0, Nobody, By(1));
    Same(Do(s0, Go(1)), s1);
    var s2 := Two(Idle, Again(0), {}, {}, false, 0, Nobody, Nobody);
    Same(Do(s1, Go(1)), s2);
    var s3 := Two(Idle, Check(0), {}, {}, false, 0, By(1), Nobody);
    Same(Do(s2, Go(1)), s3);
    assert Run(s3, s3, []);
    First(s2, Go(1), s3, Lines(1, 0), s3);
    First(s1, Go(1), s2, Lines(1, 1), s3);
    First(s0, Go(1), s1, Lines(1, 2), s3);
  }

  lemma SecondAcquires2()
    ensures Run(Two(Idle, Check(0), {}, {}, false, 0, By(1), Nobody),
                Two(Idle, Leave(0), {}, {0}, true, 8, By(1), Nobody), Lines(1, 3))
  {
    var s0 := Two(Idle, Check(0), {}, {}, false, 0, By(1), Nobody);
    var s1 := Two(Idle, Take(0), {}, {}, false, 0, By(1), Nobody);
    Same(Do(s0, Go(1)), s1);
    var s2 := Two(Idle, SetPid(0), {}, {0}, true, 0, By(1), Nobody);
    Same(Do(s1, Go(1)), s2);
    var s3 := Two(Idle, Leave(0), {}, {0}, true, 8, By(1), Nobody);
    Same(Do(s2, Go(1)), s3);
    assert Run(s3, s3, []);
    First(s2, Go(1), s3, Lines(1, 0), s3);
    First(s1, Go(1), s2, Lines(1, 1), s3);
    First(s0, Go(1), s1, Lines(1, 2), s3);
  }

  lemma SecondAcquires3()
    ensures Run(Two(Idle, Leave(0), {}, {0}, true, 8, By(1), Nobody), Calm(Idle, Idle, {}, {0}, 8), Lines(1, 1))
  {
    var s0 := Two(Idle, Leave(0), {}, {0}, true, 8, By(1), Nobody);
    var s1 := Two(Idle, Idle, {}, {0}, true, 8, Nobody, Nobody);
    Same(Do(s0, Go(1)), s1);
    assert Run(s1, s1, []);
    First(s0, Go(1), s1, Lines(1, 0), s1);
  }

  lemma SecondAcquires() returns (run: seq<Action>)
    ensures Run(Calm(Idle, Ready(0), {}, {}, 0), Calm(Idle, Idle, {}, {0}, 8), run)
  {
    SecondAcquires3();
    SecondAcquires2();
    SecondAcquires1();
    run := Lines(1, 1);
    Onwards(Two(Idle, Check(0), {}, {}, false, 0, By(1), Nobody),
            Two(Idle, Leave(0), {}, {0}, true, 8, By(1), Nobody), Calm(Idle, Idle, {}, {0}, 8),
            Lines(1, 3), run);
    run := Lines(1, 3) + run;
    Onwards(Calm(Idle, Ready(0), {}, {}, 0),
            Two(Idle, Check(0), {}, {}, false, 0, By(1), Nobody), Calm(Idle, Idle, {}, {0}, 8),
            Lines(1, 3), run);
    run := Lines(1, 3) + run;
  }

  /** From a free lock: process 0 gets it, process 1 sleeps for it, and gets it once process 0 has given it up. */
  lemma LockChangesHands() returns (run: seq<Action>)
    ensures Init(Calm(Idle, Idle, {}, {}, 0)) && Run(Calm(Idle, Idle, {}, {}, 0), Calm(Idle, Idle, {}, {0}, 8), run)
    ensures Calm(Idle, Idle, {}, {0}, 8).locked == [true] && Calm(Idle, Idle, {}, {0}, 8).pid == [8]
  {
    var a := FirstAcquires();
    var b := SecondSleeps();
    var c := FirstReleases();
    var d := SecondAcquires();
    Onwards(Calm(Idle, Asleep(0), {0}, {}, 7), Calm(Idle, Ready(0), {}, {}, 0), Calm(Idle, Idle, {}, {0}, 8), c, d);
    Onwards(Calm(Idle, Idle, {0}, {}, 7), Calm(Idle, Asleep(0), {0}, {}, 7), Calm(Idle, Idle, {}, {0}, 8), b, c + d);
    run := a + (b + (c + d));
    Onwards(Calm(Idle, Idle, {}, {}, 0), Calm(Idle, Idle, {0}, {}, 7), Calm(Idle, Idle, {}, {0}, 8), a, b + (c + d));
  }
}
