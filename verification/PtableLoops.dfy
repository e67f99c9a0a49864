/** The scans of the process table, on the table itself, each proved to be the step it stands for. */
module PtableLoops {
  import opened Ptable

  lemma WokenTo(ps: seq<Proc>, now: seq<Proc>, c: Chan)
    requires |now| == |ps|
    requires forall j: nat {:trigger now[j]} :: j < |ps| ==>
               now[j] == if ps[j].state == SLEEPING && ps[j].chan == c then ps[j].(state := RUNNABLE) else ps[j]
    ensures now == Woken(ps, c)
  {
  }

  /** The table when exit's loop has handed over the children in slots below n. */
  ghost function AdoptedTo(ps: seq<Proc>, i: nat, init: nat, n: nat): (r: seq<Proc>)
    requires n <= |ps|
    ensures |r| == |ps|
  {
    Adopted(ps[..n], i, init) + ps[n..]
  }

  lemma AdoptAll(ps: seq<Proc>, i: nat, init: nat)
    ensures AdoptedTo(ps, i, init, |ps|) == Adopted(ps, i, init) && AdoptedTo(ps, i, init, 0) == ps
  {
    assert ps[..|ps|] == ps;
  }

  lemma WokenTwice(ps: seq<Proc>, c: Chan)
    ensures Woken(Woken(ps, c), c) == Woken(ps, c)
  {
  }

  ghost function Adopting(ps: seq<Proc>, i: nat, init: nat, n: nat, zombies: bool): (r: seq<Proc>)
    requires n <= |ps|
    ensures |r| == |ps|
  {
    if zombies then Woken(AdoptedTo(ps, i, init, n), OnProc(init)) else AdoptedTo(ps, i, init, n)
  }

  /** Slots the loop has not come to have their parent and, if zombies, their state. */
  lemma AdoptingAt(ps: seq<Proc>, i: nat, init: nat, n: nat, zombies: bool, j: nat)
    requires n <= j < |ps|
    ensures var p := Adopting(ps, i, init, n, zombies)[j];
            p.parent == ps[j].parent && (p.state == ZOMBIE <==> ps[j].state == ZOMBIE)
  {
  }

  ghost predicate HasZombie(ps: seq<Proc>, i: nat) {
    exists k: nat {:trigger ZombieChild(ps, i, k)} :: k < |ps| && ZombieChild(ps, i, k)
  }

  lemma SameZombie(ps: seq<Proc>, c: Chan, i: nat, k: nat)
    requires k < |ps|
    ensures ZombieChild(ps, i, k) <==> ZombieChild(Woken(ps, c), i, k)
  {
    assert Woken(ps, c)[k] == if ps[k].state == SLEEPING && ps[k].chan == c then ps[k].(state := RUNNABLE) else ps[k];
  }

  lemma SameZombies(ps: seq<Proc>, c: Chan, i: nat)
    ensures HasZombie(ps, i) <==> HasZombie(Woken(ps, c), i)
  {
    var ws := Woken(ps, c);
    if k: nat :| k < |ps| && ZombieChild(ps, i, k) {
      SameZombie(ps, c, i, k);
      assert ZombieChild(ws, i, k);
    }
    if k: nat :| k < |ws| && ZombieChild(ws, i, k) {
      SameZombie(ps, c, i, k);
      assert ZombieChild(ps, i, k);
    }
  }

  lemma AdoptNext(ps: seq<Proc>, i: nat, init: nat, n: nat, woken: bool, now: seq<Proc>)
    requires n < |ps| == |now|
    requires var was := Adopting(ps, i, init, n, woken);
             now == if was[n].parent == i then was[n := was[n].(parent := init)] else was
    ensures now == Adopting(ps, i, init, n + 1, woken)
  {
    var next := AdoptedTo(ps, i, init, n + 1);
    forall j: nat | j < |ps|
      ensures next[j] == if j <= n && ps[j].parent == i then ps[j].(parent := init) else ps[j]
    {
      if j <= n {
        assert next[j] == Adopted(ps[..n + 1], i, init)[j];
      }
    }
    forall j: nat | j < |ps|
      ensures AdoptedTo(ps, i, init, n)[j] == if j < n && ps[j].parent == i then ps[j].(parent := init) else ps[j]
    {
      if j < n {
        assert AdoptedTo(ps, i, init, n)[j] == Adopted(ps[..n], i, init)[j];
      }
    }
  }

  class Table {
    const procs: array<Proc>
    const initproc: nat
    var nextpid: nat
    ghost var dirs: set<nat>
    ghost var returned: set<nat>

    constructor (procs: array<Proc>, initproc: nat, nextpid: nat, ghost dirs: set<nat>)
      ensures this.procs == procs && this.initproc == initproc && this.nextpid == nextpid
      ensures this.dirs == dirs && returned == {}
    {
      this.procs, this.initproc, this.nextpid := procs, initproc, nextpid;
      this.dirs, this.returned := dirs, {};
    }

    ghost function State(): Sys
      reads this, procs
    {
      Sys(procs[..], initproc, nextpid, dirs, returned)
    }

    method Wakeup1(c: Chan)
      modifies procs
      ensures procs[..] == Woken(old(procs[..]), c)
    {
      var j := 0;
      while j < procs.Length
        invariant j <= procs.Length
        invariant forall k: nat {:trigger procs[k]} :: j <= k < procs.Length ==> procs[k] == old(procs[k])
        invariant forall k: nat {:trigger procs[k]} :: k < j ==>
                    procs[k] == if old(procs[k]).state == SLEEPING && old(procs[k]).chan == c
                                then old(procs[k]).(state := RUNNABLE) else old(procs[k])
      {
        if procs[j].state == SLEEPING && procs[j].chan == c {
          procs[j] := procs[j].(state := RUNNABLE);
        }
        j := j + 1;
      }
      WokenTo(old(procs[..]), procs[..], c);
    }

    method Wakeup(c: nat)
      modifies procs
      ensures Enabled(old(State()), WakeOn(c)) && State() == Do(old(State()), WakeOn(c))
    {
      Wakeup1(OnOther(c));
    }

    /** The first unused slot becomes an EMBRYO with the next pid; -1 for a full table. */
    method Allocproc(place: Place) returns (found: bool, j: nat)
      modifies this`nextpid, procs
      ensures found ==> j < procs.Length && old(procs[j]).state == UNUSED && State() == Alloc(old(State()), j, place)
      ensures found ==> forall k: nat {:trigger old(procs[..])[k]} :: k < j ==> old(procs[..])[k].state != UNUSED
      ensures !found ==> State() == old(State())
                         && forall k: nat {:trigger procs[k]} :: k < procs.Length ==> procs[k].state != UNUSED
    {
      j := 0;
      while j < procs.Length && procs[j].state != UNUSED
        invariant j <= procs.Length
        invariant forall k: nat {:trigger procs[k]} :: k < j ==> procs[k].state != UNUSED
      {
        j := j + 1;
      }
      if j == procs.Length {
        return false, 0;
      }
      procs[j] := procs[j].(state := EMBRYO, pid := nextpid, place := place);
      nextpid := nextpid + 1;
      return true, j;
    }

    /** Marks the first slot with this pid, used or not; -1 if there is none. */
    method KillPid(pid: nat) returns (found: bool)
      modifies procs
      ensures found <==> FirstPid(old(procs[..]), pid) < procs.Length
      ensures Enabled(old(State()), Kill(pid)) && State() == Do(old(State()), Kill(pid))
    {
      ghost var ps := procs[..];
      var j := 0;
      while j < procs.Length
        invariant j <= procs.Length && procs[..] == ps
        invariant forall m: nat {:trigger ps[m]} :: m < j ==> ps[m].pid != pid
      {
        if procs[j].pid == pid {
          assert ps[j].pid == pid;
          assert FirstPid(ps, pid) == j;
          var p := procs[j];
          procs[j] := p.(killed := true, state := if p.state == SLEEPING then RUNNABLE else p.state);
          return true;
        }
        j := j + 1;
      }
      return false;
    }

    /** The inner loop of wait: does another slot name the page directory of slot j? */
    method SharesDirectory(j: nat) returns (held: bool)
      requires j < procs.Length
      ensures held <==> Held(procs[..], j)
    {
      held := false;
      var k := 0;
      while k < procs.Length
        invariant k <= procs.Length
        invariant held <==> exists m: nat {:trigger procs[..][m]} ::
                              m < k && m != j && procs[..][m].pgdir == procs[..][j].pgdir
      {
        assert procs[..][k] == procs[k];
        if k != j && procs[k].pgdir == procs[j].pgdir {
          held := true;
        }
        k := k + 1;
      }
    }

    /** The scan of wait or join for children of slot i. */
    method Scan(i: nat, thread: bool) returns (o: Outcome)
      requires i < procs.Length
      ensures IsOutcome(procs[..], i, thread, o)
    {
      ghost var ps := procs[..];
      var havekids := false;
      var j := 0;
      while j < procs.Length
        invariant j <= procs.Length
        invariant forall k: nat {:trigger Reapable(ps, i, thread, k)} :: k < j ==> !Reapable(ps, i, thread, k)
        invariant havekids <==> exists k: nat {:trigger Child(ps, i, thread, k)} :: k < j && Child(ps, i, thread, k)
      {
        if procs[j].parent == i && (procs[j].pgdir == procs[i].pgdir) == thread {
          assert Child(ps, i, thread, j);
          havekids := true;
          if procs[j].state == ZOMBIE {
            assert Reapable(ps, i, thread, j);
            return Reaped(j);
          }
        }
        j := j + 1;
      }
      return if !havekids || procs[i].killed then Nothing else Sleeps;
    }

    /** wait (thread false) or join (thread true), from taking ptable.lock to returning or going to sleep. */
    method Await(i: nat, thread: bool) returns (o: Outcome, pid: int)
      requires i < procs.Length && Looping(procs[i], thread)
      modifies this`dirs, this`returned, procs
      ensures Enabled(old(State()), WaitPass(i, thread, o)) && State() == Do(old(State()), WaitPass(i, thread, o))
      ensures pid == if o.Reaped? then old(procs[o.child]).pid else -1
    {
      o := Scan(i, thread);
      pid := -1;
      match o {
        case Reaped(j) =>
          var q := procs[j];
          assert q.state == ZOMBIE;
          pid := q.pid;
          var held := SharesDirectory(j);
          if !thread && !held {
            dirs := dirs - {q.pgdir};
          }
          returned := returned + {q.pid};
          procs[i] := Passed(procs[i], i, thread, o);
          procs[j] := Emptied(q, thread, held);
        case _ =>
          procs[i] := Passed(procs[i], i, thread, o);
      }
    }

    /** One round of exit's loop over the table. */
    method AdoptOne(i: nat, j: nat, ghost ws: seq<Proc>, ghost zombies: bool) returns (zombie: bool)
      requires j < procs.Length == |ws| && procs[..] == Adopting(ws, i, initproc, j, zombies)
      modifies procs
      ensures zombie == ZombieChild(ws, i, j)
      ensures procs[..] == Adopting(ws, i, initproc, j + 1, zombies || zombie)
    {
      AdoptingAt(ws, i, initproc, j, zombies, j);
      zombie := procs[j].parent == i && procs[j].state == ZOMBIE;
      if procs[j].parent == i {
        procs[j] := procs[j].(parent := initproc);
      }
      AdoptNext(ws, i, initproc, j, zombies, procs[..]);
      if zombie {
        Wakeup1(OnProc(initproc));
        WokenTwice(AdoptedTo(ws, i, initproc, j + 1), OnProc(initproc));
      }
    }

    /** The loop of exit: the children of i go to init, which is woken if one of them is a zombie. */
    method AdoptChildren(i: nat) returns (ghost zombies: bool)
      modifies procs
      ensures zombies <==> HasZombie(old(procs[..]), i)
      ensures procs[..] == if zombies then Woken(Adopted(old(procs[..]), i, initproc), OnProc(initproc))
                           else Adopted(old(procs[..]), i, initproc)
    {
      ghost var ws := procs[..];
      zombies := false;
      var j := 0;
      AdoptAll(ws, i, initproc);
      while j < procs.Length
        invariant j <= procs.Length == |ws|
        invariant procs[..] == Adopting(ws, i, initproc, j, zombies)
        invariant zombies <==> exists k: nat {:trigger ZombieChild(ws, i, k)} :: k < j && ZombieChild(ws, i, k)
      {
        var zombie := AdoptOne(i, j, ws, zombies);
        zombies := zombies || zombie;
        j := j + 1;
      }
    }

    /** exit, from taking ptable.lock on. */
    method ExitProcess(i: nat) returns (ghost zombies: bool)
      requires i < procs.Length && Running(State(), i) && i != initproc && procs[i].parent >= 0
      modifies procs
      ensures Enabled(old(State()), Exit(i, zombies)) && State() == Do(old(State()), Exit(i, zombies))
    {
      ghost var ps := procs[..];
      var c := OnProc(procs[i].parent);
      Wakeup1(c);
      zombies := AdoptChildren(i);
      SameZombies(ps, c, i);
      procs[i] := procs[i].(state := ZOMBIE);
    }

    /** The loop of growproc: every used slot with the directory of slot i gets its size. */
    method ResizeAll(i: nat, sz: nat)
      requires i < procs.Length && procs[i].sz == sz
      modifies procs
      ensures procs[..] == Resized(old(procs[..]), old(procs[i]).pgdir, sz)
    {
      ghost var ps, d := procs[..], procs[i].pgdir;
      var j := 0;
      while j < procs.Length
        invariant j <= procs.Length == |ps|
        invariant forall k: nat {:trigger procs[k]} :: j <= k < procs.Length ==> procs[k] == ps[k]
        invariant forall k: nat {:trigger procs[k]} :: k < j ==>
                    procs[k] == if ps[k].pgdir == d && ps[k].state != UNUSED then ps[k].(sz := sz) else ps[k]
        invariant procs[i].pgdir == d
      {
        if procs[j].pgdir == procs[i].pgdir && procs[j].state != UNUSED {
          procs[j] := procs[j].(sz := sz);
        }
        j := j + 1;
      }
      assert procs[..] == Resized(ps, d, sz);
    }

    /** growproc once the memory is resized. */
    method SetSize(i: nat, sz: nat)
      requires i < procs.Length && Running(State(), i)
      modifies procs
      ensures State() == Do(old(State()), Grow(i, sz))
    {
      procs[i] := procs[i].(sz := sz);
      ResizeAll(i, sz);
    }
  }
}
