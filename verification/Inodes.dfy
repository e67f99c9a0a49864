/** The inode cache and the system calls on it, which change inodes step by step, under the locks they take. */
module Inodes {
  import opened LinkTree
  import opened Links

  datatype Outcome = Hangs | Fails | Succeeds

  /** The same, but of inode i, which is new, the cache has no copy yet. */
  predicate CachedBut(t: Tree, valid: seq<bool>, i: nat) {
    && |valid| == |t|
    && forall j {:trigger valid[j]} :: 0 <= j < |t| ==>
         (valid[j] ==> t[j].kind != Free) && (t[j].kind != Free && t[j].nlink == 0 && j != i ==> valid[j])
  }

  /** Of an inode without a link the cache holds the current copy, and never one of a free inode. */
  predicate Cached(t: Tree, valid: seq<bool>) { CachedBut(t, valid, |t|) }

  /** Dropping a reference just taken changes nothing. */
  lemma ReleasedHeld(t: Tree, i: nat)
    requires Kept(t) && i < |t|
    ensures Released(Held(t, i), i) == t
  {
  }

  lemma HeldKept(t: Tree, i: nat)
    requires Kept(t) && Usable(t, i)
    ensures Kept(Held(t, i))
  {
  }

  /** Of two references the one taken first can be dropped. */
  lemma HeldTwice(t: Tree, i: nat, j: nat)
    requires Kept(t) && Usable(t, i) && j < |t|
    ensures Released(Held(Held(t, i), j), i) == Held(t, j)
  {
  }

  /** A call that is stuck says nothing of the state; one that fails leaves the inodes as they were. */
  predicate Came(a: After, before: Tree, r: Outcome, after: Tree) {
    match a
    case Stuck => r == Hangs
    case Failed => r == Fails && after == before
    case Done(t, _) => r == Succeeds && after == t
  }

  /** An inode that is no directory may have another link and another reference. */
  lemma LinkedMoreShape(t: Tree, u: Tree, i: nat)
    requires Shape(t) && Kept(t) && Usable(t, i) && t[i].kind != Directory
    requires u == t[i := t[i].(nlink := t[i].nlink + 1, ref := t[i].ref + 1)]
    ensures Shape(u) && Kept(u)
  {
    forall d: nat | d < |u| && u[d].kind == Directory ensures DirOk(u, d) {
      assert DirOk(t, d);
    }
  }

  predicate InRange(t: Tree, d: nat) {
    d < |t| && t[d].kind == Directory && forall k :: 0 <= k < |t[d].entries| ==> t[d].entries[k].inum < |t|
  }

  /** Inode i is new and will have a name in d. */
  function WithNew(t: Tree, d: nat, kind: Kind, i: nat): Tree
    requires d < |t| && i < |t|
  {
    var up := if kind == Directory then 1 else 0;
    t[d := t[d].(nlink := t[d].nlink + up, ref := t[d].ref + 1)][i := Fresh(kind, i, d).(nlink := 1)]
  }

  /** What dirlink comes to in a directory: it drops the inode it finds, and may hold that one's lock. */
  function LinkOutcome(es: seq<Entry>, locked: set<nat>, name: string): Outcome {
    var k := Find(es, name);
    if k < |es| then (if es[k].inum in locked then Hangs else Fails)
    else if Slot(es) >= MAXENTRIES then Hangs else Succeeds
  }

  lemma {:induction false} SameFree(t: Tree, d: nat, i: nat)
    requires d < |t| && i <= |t|
    ensures FreeFrom(Held(t, d), i) == FreeFrom(t, i)
    decreases |t| - i
  {
    if i < |t| {
      SameFree(t, d, i + 1);
    }
  }

  lemma ShapeInRange(t: Tree, i: nat)
    requires Shape(t) && i < |t|
    ensures t[i].kind == Directory ==> InRange(t, i)
  {
    if t[i].kind == Directory {
      assert DirOk(t, i);
    }
  }

  lemma StepOfWalk(t: Tree, i: nat, elems: seq<string>, p: nat, parent: bool)
    requires p < |elems|
    ensures var last := parent && p == |elems| - 1;
            var step := Namex(t, i, [elems[p]], last);
            Namex(t, i, elems[p..], parent) ==
              if step.At? && !last then Namex(t, step.inum, elems[p + 1..], parent) else step
  {
    assert [elems[p]][1..] == [];
    assert elems[p..][1..] == elems[p + 1..];
  }

  /** The new name and the directory's reference are all that is left to do. */
  lemma NewIsNamed(t: Tree, d: nat, kind: Kind, i: nat, name: string)
    requires d < |t| && i < |t| && d != i && (t[d].nlink > 0 || t[d].ref > 0) && t[d].nlink >= 0
    ensures var es := t[d].entries;
            var u := WithNew(t, d, kind, i);
            Released(u[d := u[d].(entries := WithEntry(es, Slot(es), Entry(i, name)))], d) ==
              Attach(t[i := Fresh(kind, i, d)], d, Slot(es), name, i)
  {
  }

  lemma MadeIsHeld(t: Tree, cwd: nat, path: Path, kind: Kind)
    requires MakeCall(t, cwd, path, kind).Done? && kind != Free
    ensures var i := MakeCall(t, cwd, path, kind).inum;
            var u := MakeCall(t, cwd, path, kind).tree;
            Usable(u, i) && u[i].ref >= 1
  {
    ParentIsDirectory(t, Start(cwd, path), path.elems);
  }

  class InodeTable {
    var node: Tree
    var valid: seq<bool>
    var locked: set<nat>

    /** Between calls no lock is held. */
    ghost predicate Valid()
      reads this
    {
      Sound(node) && Kept(node) && Cached(node, valid) && locked == {}
    }

    /** Another reference to inode i, whose copy in the cache is not valid if there was none before. */
    method Iget(i: nat)
      requires i < |node| && Cached(node, valid) && (node[i].ref == 0 && node[i].kind != Free ==> node[i].nlink != 0)
      modifies this
      ensures node == Held(old(node), i) && locked == old(locked) && Cached(node, valid)
      ensures node[i].ref == 1 ==> !valid[i]
      ensures forall j :: 0 <= j < |node| && j != i ==> valid[j] == old(valid)[j]
    {
      if node[i].ref == 0 {
        valid := valid[i := false];
      }
      node := node[i := node[i].(ref := node[i].ref + 1)];
    }

    /** False if this call holds the lock already, and so waits forever, or if the inode has no type: a panic. */
    method Ilock(i: nat) returns (ok: bool)
      requires i < |node| && CachedBut(node, valid, i)
      modifies this
      ensures ok <==> i !in old(locked) && old(node)[i].kind != Free
      ensures node == old(node)
      ensures ok ==> Cached(node, valid) && locked == old(locked) + {i} && valid[i]
    {
      if i in locked {
        return false;
      }
      locked := locked + {i};
      if !valid[i] {
        if node[i].kind == Free {
          return false;
        }
        valid := valid[i := true];
      }
      ok := true;
    }

    method Iunlock(i: nat)
      modifies this
      ensures node == old(node) && valid == old(valid) && locked == old(locked) - {i}
    {
      locked := locked - {i};
    }

    /** Drops a reference; the last one of an inode without a link frees it. False if this call holds its lock. */
    method Iput(i: nat) returns (ok: bool)
      requires i < |node| && Cached(node, valid) && node[i].ref >= 1
      requires node[i].kind == Free ==> node[i] == UNUSED.(ref := node[i].ref)
      modifies this
      ensures ok <==> i !in old(locked)
      ensures Cached(node, valid) && locked == old(locked) && |node| == |old(node)|
      ensures ok ==> node == Released(old(node), i)
      ensures forall j :: 0 <= j < |old(node)| && j != i ==> valid[j] == old(valid)[j]
    {
      if i in locked {
        return false;
      }
      if valid[i] && node[i].nlink == 0 && node[i].ref == 1 {
        node := node[i := node[i].(entries := [])];
        node := node[i := node[i].(kind := Free)];
        valid := valid[i := false];
      }
      node := node[i := node[i].(ref := node[i].ref - 1)];
      ok := true;
    }

    method IunlockPut(i: nat)
      requires i < |node| && Cached(node, valid) && node[i].ref >= 1
      requires node[i].kind == Free ==> node[i] == UNUSED.(ref := node[i].ref)
      modifies this
      ensures node == Released(old(node), i) && locked == old(locked) - {i} && Cached(node, valid)
      ensures forall j :: 0 <= j < |old(node)| && j != i ==> valid[j] == old(valid)[j]
    {
      Iunlock(i);
      var ok := Iput(i);
    }

    /** Where the name is, and another reference to the inode it names. */
    method DirLookup(d: nat, name: string) returns (k: nat)
      requires Kept(node) && Cached(node, valid) && InRange(node, d)
      modifies this
      ensures k == Find(old(node)[d].entries, name) && Cached(node, valid) && locked == old(locked)
      ensures if k < |old(node)[d].entries|
              then old(node)[d].entries[k].inum < |node| && node == Held(old(node), old(node)[d].entries[k].inum)
              else node == old(node)
      ensures k < |old(node)[d].entries| && old(node)[old(node)[d].entries[k].inum].kind == Free ==>
                !valid[old(node)[d].entries[k].inum]
    {
      k := 0;
      while k < |node[d].entries|
        invariant k <= |node[d].entries| && node == old(node) && valid == old(valid) && locked == old(locked)
        invariant forall j :: 0 <= j < k ==> node[d].entries[j].inum == 0 || node[d].entries[j].name != name
      {
        if node[d].entries[k].inum != 0 && node[d].entries[k].name == name {
          Iget(node[d].entries[k].inum);
          return;
        }
        k := k + 1;
      }
    }

    /** A new entry of d; the name must not be there, and the slot must fit in a file. */
    method DirLink(d: nat, name: string, i: nat) returns (r: Outcome)
      requires Kept(node) && Cached(node, valid) && InRange(node, d)
      modifies this
      ensures r == LinkOutcome(old(node)[d].entries, old(locked), name) && Cached(node, valid)
      ensures r == Fails ==> node == old(node) && locked == old(locked)
      ensures r == Succeeds ==>
                node == old(node)[d := old(node)[d].(entries :=
                          WithEntry(old(node)[d].entries, Slot(old(node)[d].entries), Entry(i, name)))]
                && locked == old(locked)
    {
      ghost var t := node;
      var k := DirLookup(d, name);
      if k < |node[d].entries| {
        var x := node[d].entries[k].inum;
        ReleasedHeld(t, x);
        var ok := Iput(x);
        return if ok then Fails else Hangs;
      }
      k := 0;
      while k < |node[d].entries| && node[d].entries[k].inum != 0
        invariant k <= |node[d].entries| && node == t && locked == old(locked) && Cached(node, valid)
        invariant forall j :: 0 <= j < k ==> node[d].entries[j].inum != 0
      {
        k := k + 1;
      }
      if k >= MAXENTRIES {
        return Hangs;
      }
      node := node[d := node[d].(entries := WithEntry(node[d].entries, k, Entry(i, name)))];
      r := Succeeds;
    }

    method IsDirEmpty(d: nat) returns (empty: bool)
      requires d < |node|
      ensures empty == Empty(node[d].entries)
    {
      var k := 2;
      while k < |node[d].entries|
        invariant 2 <= k && forall j :: 2 <= j < k && j < |node[d].entries| ==> node[d].entries[j].inum == 0
      {
        if node[d].entries[k].inum != 0 {
          return false;
        }
        k := k + 1;
      }
      empty := true;
    }

    /** The first free inode takes the type; false if there is none: a panic. */
    method Ialloc(kind: Kind) returns (ok: bool, i: nat)
      requires Kept(node) && Cached(node, valid) && |node| > 1 && kind != Free
      modifies this
      ensures i == FreeFrom(old(node), 1) && ok == (i < |old(node)|) && locked == old(locked)
      ensures ok ==> node == old(node)[i := Inode(kind, 0, [], 1)] && CachedBut(node, valid, i)
    {
      i := 1;
      while i < |node|
        invariant 1 <= i <= |node| && node == old(node) && valid == old(valid) && locked == old(locked)
        invariant FreeFrom(node, 1) == FreeFrom(node, i)
      {
        if node[i].kind == Free {
          node := node[i := node[i].(kind := kind)];
          valid := valid[i := false];
          node := node[i := node[i].(ref := node[i].ref + 1)];
          return true, i;
        }
        i := i + 1;
      }
      ok := false;
    }

    /** What the directory that is locked has under the name. */
    method WalkIn(ip: nat, name: string, ghost t: Tree) returns (r: Found)
      requires Kept(t) && InRange(t, ip)
      requires node == Held(t, ip) && Cached(node, valid) && locked == {ip}
      modifies this
      ensures Cached(node, valid) && locked == {} && r != Panics
      ensures var es := t[ip].entries;
              var k := Find(es, name);
              if k == |es| then r == Missing && node == t
              else r == At(es[k].inum) && es[k].inum < |t| && node == Held(t, es[k].inum)
    {
      HeldKept(t, ip);
      var k := DirLookup(ip, name);
      if k == |node[ip].entries| {
        ReleasedHeld(t, ip);
        IunlockPut(ip);
        return Missing;
      }
      var next := node[ip].entries[k].inum;
      HeldTwice(t, ip, next);
      IunlockPut(ip);
      r := At(next);
    }

    /** One step of a walk; the last one of nameiparent stays where it is. */
    method WalkStep(ip: nat, name: string, last: bool, ghost t: Tree) returns (r: Found)
      requires Kept(t) && ip < |t| && node == Held(t, ip) && Cached(node, valid) && locked == {}
      requires t[ip].kind == Directory ==> InRange(t, ip)
      modifies this
      ensures r == Namex(t, ip, [name], last)
      ensures r != Panics ==> Cached(node, valid) && locked == {}
      ensures r == Missing ==> node == t
      ensures r.At? ==> r.inum < |t| && node == Held(t, r.inum)
    {
      var ok := Ilock(ip);
      if !ok {
        return Panics;
      }
      if node[ip].kind != Directory {
        ReleasedHeld(t, ip);
        IunlockPut(ip);
        return Missing;
      }
      if last {
        Iunlock(ip);
        return At(ip);
      }
      r := WalkIn(ip, name, t);
    }

    /** The end of a path: nameiparent was given an empty one. */
    method EndWalk(ip: nat, parent: bool, ghost t: Tree) returns (r: Found)
      requires Kept(t) && ip < |t| && node == Held(t, ip) && Cached(node, valid) && locked == {}
      modifies this
      ensures r == (if parent then Missing else At(ip)) && Cached(node, valid) && locked == {}
      ensures node == if parent then t else Held(t, ip)
    {
      if parent {
        ReleasedHeld(t, ip);
        var ok := Iput(ip);
        return Missing;
      }
      r := At(ip);
    }

    /** Walks the path from an inode that is not free, and leaves a reference to where it ends. */
    method WalkPath(start: nat, elems: seq<string>, parent: bool) returns (r: Found)
      requires Shape(node) && Kept(node) && Cached(node, valid) && Usable(node, start) && locked == {}
      modifies this
      ensures r == Namex(old(node), start, elems, parent)
      ensures r != Panics ==> Cached(node, valid) && locked == {}
      ensures r == Missing ==> node == old(node)
      ensures r.At? ==> r.inum < |old(node)| && node == Held(old(node), r.inum)
    {
      ghost var t := node;
      var ip: nat, p: nat := start, 0;
      Iget(ip);
      while p < |elems|
        invariant p <= |elems| && ip < |t| && node == Held(t, ip) && locked == {} && Cached(node, valid)
        invariant Namex(t, start, elems, parent) == Namex(t, ip, elems[p..], parent)
        invariant p == |elems| && parent ==> p == 0
      {
        var last := parent && p == |elems| - 1;
        ShapeInRange(t, ip);
        StepOfWalk(t, ip, elems, p, parent);
        r := WalkStep(ip, elems[p], last, t);
        if last || !r.At? {
          return;
        }
        ip, p := r.inum, p + 1;
      }
      r := EndWalk(ip, parent, t);
    }

    method WalkFrom(cwd: nat, path: Path, parent: bool) returns (r: Found)
      requires Shape(node) && Kept(node) && Cached(node, valid) && locked == {} && Usable(node, cwd)
      requires Usable(node, ROOT)
      modifies this
      ensures r == Namex(old(node), Start(cwd, path), path.elems, parent)
      ensures r != Panics ==> Cached(node, valid)
      ensures r != Panics ==> locked == {}
      ensures r == Missing ==> node == old(node)
      ensures r.At? ==> r.inum < |old(node)| && node == Held(old(node), r.inum)
    {
      r := WalkPath(if path.absolute then ROOT else cwd, path.elems, parent);
    }

    /** The name in dp, once inode ip has the link; dp is released, and with success ip is. */
    method LinkAt(dp: nat, name: string, ip: nat, ghost t: Tree, ghost u: Tree) returns (r: Outcome)
      requires Shape(t) && Kept(t) && Usable(t, ip) && t[ip].kind != Directory
      requires u == t[ip := t[ip].(nlink := t[ip].nlink + 1, ref := t[ip].ref + 1)]
      requires InRange(t, dp)
      requires node == Held(u, dp) && Cached(node, valid) && locked == {dp}
      modifies this
      ensures r != Hangs ==> Cached(node, valid) && locked == {}
      ensures Came(Named(t, dp, name, ip), u, r, node)
    {
      LinkedMoreShape(t, u, ip);
      HeldKept(u, dp);
      r := DirLink(dp, name, ip);
      if r == Hangs {
        return;
      }
      if r == Fails {
        ReleasedHeld(u, dp);
        IunlockPut(dp);
        return;
      }
      IunlockPut(dp);
      var ok := Iput(ip);
    }

    /** Finds the directory of the new name, and makes the name there. */
    method LinkTo(cwd: nat, to: Path, ip: nat, ghost t: Tree, ghost u: Tree) returns (r: Outcome)
      requires Shape(t) && Kept(t) && Usable(t, ip) && t[ip].kind != Directory
      requires u == t[ip := t[ip].(nlink := t[ip].nlink + 1, ref := t[ip].ref + 1)]
      requires node == u && Cached(node, valid) && locked == {} && Usable(t, cwd) && Usable(t, ROOT)
      modifies this
      ensures r != Hangs ==> Cached(node, valid) && locked == {}
      ensures match NameiParent(t, cwd, to)
              case Panics => r == Hangs
              case Missing => r == Fails && node == u
              case At(d) => to.elems != [] && d < |t| && Came(Named(t, d, Last(to), ip), u, r, node)
    {
      LinkedMoreShape(t, u, ip);
      SameWalk(t, u, Start(cwd, to), to.elems, true);
      var at := WalkFrom(cwd, to, true);
      if !at.At? {
        return if at == Panics then Hangs else Fails;
      }
      ParentIsDirectory(t, Start(cwd, to), to.elems);
      var ok := Ilock(at.inum);
      if !ok {
        return Hangs;
      }
      r := LinkAt(at.inum, Last(to), ip, t, u);
    }

    /** Takes the link back that the inode got before its name could be made. */
    method TakeBack(ip: nat, ghost t: Tree)
      requires Kept(t) && Usable(t, ip) && Cached(node, valid) && locked == {}
      requires node == t[ip := t[ip].(nlink := t[ip].nlink + 1, ref := t[ip].ref + 1)]
      modifies this
      ensures node == t && Cached(node, valid) && locked == {}
    {
      var ok := Ilock(ip);
      node := node[ip := node[ip].(nlink := node[ip].nlink - 1)];
      assert node == Held(t, ip);
      ReleasedHeld(t, ip);
      IunlockPut(ip);
    }

    /** Gives the inode another link before the name exists; if the name cannot be made the count is put back. */
    method LinkFile(cwd: nat, to: Path, ip: nat, ghost t: Tree) returns (r: Outcome)
      requires Shape(t) && Kept(t) && Usable(t, ip) && t[ip].kind != Directory
      requires node == Held(t, ip) && Cached(node, valid) && locked == {ip} && valid[ip]
      requires Usable(t, cwd) && Usable(t, ROOT)
      modifies this
      ensures r != Hangs ==> Cached(node, valid) && locked == {}
      ensures match NameiParent(t, cwd, to)
              case Panics => r == Hangs
              case Missing => r == Fails && node == t
              case At(d) => to.elems != [] && d < |t| && Came(Named(t, d, Last(to), ip), t, r, node)
    {
      node := node[ip := node[ip].(nlink := node[ip].nlink + 1)];
      ghost var u := t[ip := t[ip].(nlink := t[ip].nlink + 1, ref := t[ip].ref + 1)];
      assert node == u;
      Iunlock(ip);
      r := LinkTo(cwd, to, ip, t, u);
      if r == Fails {
        TakeBack(ip, t);
      }
    }

    method SysLink(cwd: nat, from: Path, to: Path) returns (r: Outcome)
      requires Valid() && cwd < |node| && node[cwd].ref >= 1
      modifies this
      ensures Came(LinkCall(old(node), cwd, from, to), old(node), r, node)
      ensures r != Hangs && InLinked(old(node), Link(cwd, from, to)) ==> Valid()
    {
      ghost var t := node;
      var at := WalkFrom(cwd, from, false);
      if !at.At? {
        return if at == Panics then Hangs else Fails;
      }
      var ok := Ilock(at.inum);
      if !ok {
        return Hangs;
      }
      if node[at.inum].kind == Directory {
        ReleasedHeld(t, at.inum);
        IunlockPut(at.inum);
        return Fails;
      }
      r := LinkFile(cwd, to, at.inum, t);
      if r == Succeeds {
        LinkKeeps(t, cwd, from, to);
      }
    }

    /** The entry of d goes, then the links of d and of the inode it named: both are locked and held. */
    method UnlinkEntry(d: nat, k: nat, i: nat, ghost t: Tree) returns (r: Outcome)
      requires Kept(t) && d < |t| && k < |t[d].entries| && t[d].entries[k].inum == i && i < |t| && i != d
      requires Usable(t, d) && Usable(t, i) && t[i].nlink >= 1
      requires t[d].nlink >= (if t[i].kind == Directory then 2 else 1)
      requires node == Held(Held(t, d), i) && Cached(node, valid) && locked == {d, i} && valid[i]
      modifies this
      ensures r == Succeeds && node == Reap(Detach(t, d, k), i) && Cached(node, valid) && locked == {}
    {
      node := node[d := node[d].(entries := node[d].entries[k := NOENTRY])];
      if node[i].kind == Directory {
        node := node[d := node[d].(nlink := node[d].nlink - 1)];
      }
      IunlockPut(d);
      node := node[i := node[i].(nlink := node[i].nlink - 1)];
      IunlockPut(i);
      r := Succeeds;
    }

    /** What sys_unlink does with the inode it finds under the name; a count below one is a panic. */
    method UnlinkFound(dp: nat, k: nat, ip: nat, ghost t: Tree) returns (r: Outcome)
      requires Kept(t) && dp < |t| && k < |t[dp].entries| && t[dp].entries[k].inum == ip && ip != dp
      requires Usable(t, dp) && Usable(t, ip) && t[dp].nlink >= (if t[ip].kind == Directory then 2 else 1)
      requires node == Held(Held(t, dp), ip) && Cached(node, valid) && locked == {dp}
      modifies this
      ensures r != Hangs ==> Cached(node, valid) && locked == {}
      ensures Came(if t[ip].nlink < 1 then Stuck
                   else if t[ip].kind == Directory && !Empty(t[ip].entries) then Failed
                   else Done(Reap(Detach(t, dp, k), ip), ip), t, r, node)
    {
      var ok := Ilock(ip);
      if node[ip].nlink < 1 {
        return Hangs;
      }
      var empty := true;
      if node[ip].kind == Directory {
        empty := IsDirEmpty(ip);
      }
      if !empty {
        HeldTwice(t, ip, dp);
        assert Held(Held(t, dp), ip) == Held(Held(t, ip), dp);
        IunlockPut(ip);
        ReleasedHeld(t, dp);
        IunlockPut(dp);
        return Fails;
      }
      r := UnlinkEntry(dp, k, ip, t);
    }

    /** What sys_unlink does in the directory dp, which is locked. */
    method UnlinkIn(dp: nat, name: string, ghost t: Tree) returns (r: Outcome)
      requires Sound(t) && Kept(t) && dp < |t| && t[dp].kind == Directory
      requires node == Held(t, dp) && Cached(node, valid) && locked == {dp}
      modifies this
      ensures Came(UnlinkFrom(t, dp, name), t, r, node)
      ensures Cached(node, valid) && locked == {}
    {
      ReleasedHeld(t, dp);
      HeldKept(t, dp);
      if name == DOT || name == DOTDOT {
        IunlockPut(dp);
        return Fails;
      }
      var k := DirLookup(dp, name);
      if k == |node[dp].entries| {
        IunlockPut(dp);
        return Fails;
      }
      var ip := node[dp].entries[k].inum;
      UnlinkFinds(t, dp, name);
      r := UnlinkFound(dp, k, ip, t);
    }

    method SysUnlink(cwd: nat, path: Path) returns (r: Outcome)
      requires Valid() && cwd < |node| && node[cwd].ref >= 1
      modifies this
      ensures Came(UnlinkCall(old(node), cwd, path), old(node), r, node)
      ensures r != Hangs ==> Valid()
    {
      ghost var t := node;
      var at := WalkFrom(cwd, path, true);
      if !at.At? {
        return if at == Panics then Hangs else Fails;
      }
      ParentIsDirectory(t, Start(cwd, path), path.elems);
      var ok := Ilock(at.inum);
      r := UnlinkIn(at.inum, Last(path), t);
      if r == Succeeds {
        UnlinkKeeps(t, cwd, path);
      }
    }

    /** A new directory gets its two entries, and dp a link for the second. */
    method MakeDots(ip: nat, dp: nat)
      requires Kept(node) && Cached(node, valid) && 1 <= ip < |node| && dp < |node| && ip != dp
      requires node[ip].kind == Directory && node[ip].entries == [] && node[dp].kind != Free
      modifies this
      ensures node == old(node)[dp := old(node)[dp].(nlink := old(node)[dp].nlink + 1)]
                               [ip := old(node)[ip].(entries := Dots(ip, dp))]
      ensures locked == old(locked) && Cached(node, valid)
    {
      node := node[dp := node[dp].(nlink := node[dp].nlink + 1)];
      var r := DirLink(ip, DOT, ip);
      assert node[ip].entries == [Entry(ip, DOT)] && Slot(node[ip].entries) == 1;
      r := DirLink(ip, DOTDOT, dp);
      assert node[ip].entries == Dots(ip, dp);
    }

    /** A new inode, locked and with the link its name will be; a directory gets its dots, and dp a link. */
    method NewInode(dp: nat, kind: Kind, ghost t: Tree) returns (ok: bool, ip: nat)
      requires 1 < |t| && Kept(t) && Usable(t, dp) && kind != Free
      requires node == Held(t, dp) && Cached(node, valid) && locked == {dp}
      modifies this
      ensures ip == FreeFrom(t, 1) && ok == (ip < |t|)
      ensures ok ==> ip != dp && Cached(node, valid) && locked == {dp, ip} && node == WithNew(t, dp, kind, ip)
    {
      HeldKept(t, dp);
      ok, ip := Ialloc(kind);
      SameFree(t, dp, 1);
      if !ok {
        return;
      }
      ok := Ilock(ip);
      node := node[ip := node[ip].(nlink := 1)];
      assert Kept(node) && Cached(node, valid);
      if kind == Directory {
        MakeDots(ip, dp);
      }
    }

    /** A new inode with a name in dp, which is locked. It is left locked and with a reference. */
    method MakeNew(dp: nat, name: string, kind: Kind, ghost t: Tree) returns (r: Outcome, ip: nat)
      requires 1 < |t| && Kept(t) && InRange(t, dp) && Find(t[dp].entries, name) == |t[dp].entries| && kind != Free
      requires node == Held(t, dp) && Cached(node, valid) && locked == {dp}
      modifies this
      ensures Came(NewCall(t, dp, name, kind), t, r, node)
      ensures r == Succeeds ==> Cached(node, valid) && locked == {ip} && ip == FreeFrom(t, 1)
    {
      var ok;
      ok, ip := NewInode(dp, kind, t);
      if !ok {
        return Hangs, ip;
      }
      r := DirLink(dp, name, ip);
      if r == Succeeds {
        NewIsNamed(t, dp, kind, ip, name);
        IunlockPut(dp);
      }
    }

    /** What create does in the directory dp, which is locked; the inode is left locked and with a reference. */
    method MakeIn(dp: nat, name: string, kind: Kind, ghost t: Tree) returns (r: Outcome, ip: nat)
      requires 1 < |t| && Kept(t) && InRange(t, dp) && kind != Free
      requires node == Held(t, dp) && Cached(node, valid) && locked == {dp}
      modifies this
      ensures Came(MakeAt(t, dp, name, kind), t, r, node)
      ensures r == Succeeds ==> Cached(node, valid) && locked == {ip} && ip == MakeAt(t, dp, name, kind).inum
      ensures r == Fails ==> Cached(node, valid) && locked == {}
    {
      HeldKept(t, dp);
      var k := DirLookup(dp, name);
      if k == |node[dp].entries| {
        r, ip := MakeNew(dp, name, kind, t);
        return;
      }
      ip := node[dp].entries[k].inum;
      HeldTwice(t, dp, ip);
      IunlockPut(dp);
      var ok := Ilock(ip);
      if !ok {
        return Hangs, ip;
      }
      if kind == Plain && node[ip].kind == Plain {
        return Succeeds, ip;
      }
      ReleasedHeld(t, ip);
      IunlockPut(ip);
      r := Fails;
    }

    /** create: the inode is left locked and with a reference. */
    method Create(cwd: nat, path: Path, kind: Kind) returns (r: Outcome, ip: nat)
      requires Shape(node) && Kept(node) && Cached(node, valid) && locked == {}
      requires Usable(node, cwd) && Usable(node, ROOT) && kind != Free
      modifies this
      ensures Came(MakeCall(old(node), cwd, path, kind), old(node), r, node)
      ensures r != Hangs ==> Cached(node, valid) && locked == if r == Succeeds then {ip} else {}
      ensures r == Succeeds ==> ip == MakeCall(old(node), cwd, path, kind).inum
    {
      ghost var t := node;
      ip := 0;
      var at := WalkFrom(cwd, path, true);
      if !at.At? {
        r := if at == Panics then Hangs else Fails;
        return;
      }
      ParentIsDirectory(t, Start(cwd, path), path.elems);
      var ok := Ilock(at.inum);
      assert DirOk(t, at.inum);
      r, ip := MakeIn(at.inum, Last(path), kind, t);
    }

    /** sys_mkdir and sys_mknod: the new inode is not kept open. */
    method SysMake(cwd: nat, path: Path, kind: Kind) returns (r: Outcome)
      requires Valid() && cwd < |node| && node[cwd].ref >= 1 && kind != Free
      modifies this
      ensures match MakeCall(old(node), cwd, path, kind)
              case Stuck => r == Hangs
              case Failed => r == Fails && node == old(node)
              case Done(t, i) => r == Succeeds && i < |t| && t[i].ref >= 1 && node == Released(t, i)
      ensures r != Hangs && InLinked(old(node), Make(cwd, path, kind)) ==> Valid()
    {
      var ip;
      r, ip := Create(cwd, path, kind);
      if r == Succeeds {
        ghost var u := node;
        MadeIsHeld(old(node), cwd, path, kind);
        MakeKeeps(old(node), cwd, path, kind);
        IunlockPut(ip);
        if InLinked(old(node), Make(cwd, path, kind)) {
          ReleasedKeeps(u, ip);
        }
      }
    }

    /** sys_open: with O_CREATE the file may be new; otherwise it must be there, and a directory is only read. */
    method SysOpen(cwd: nat, path: Path, create: bool, write: bool) returns (r: Outcome)
      requires Valid() && cwd < |node| && node[cwd].ref >= 1
      modifies this
      ensures Came(if create then MakeCall(old(node), cwd, path, Plain) else OpenCall(old(node), cwd, path, write),
                   old(node), r, node)
      ensures r != Hangs && (create ==> InLinked(old(node), Make(cwd, path, Plain))) ==> Valid()
    {
      ghost var t := node;
      if create {
        var ip;
        r, ip := Create(cwd, path, Plain);
        if r == Succeeds {
          MakeKeeps(t, cwd, path, Plain);
          Iunlock(ip);
        }
        return;
      }
      var at := WalkFrom(cwd, path, false);
      if !at.At? {
        return if at == Panics then Hangs else Fails;
      }
      var ok := Ilock(at.inum);
      if !ok {
        return Hangs;
      }
      if node[at.inum].kind == Directory && write {
        ReleasedHeld(t, at.inum);
        IunlockPut(at.inum);
        return Fails;
      }
      HeldKeeps(t, at.inum);
      Iunlock(at.inum);
      r := Succeeds;
    }
  }
}
