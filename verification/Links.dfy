/** The inode cache and the calls link, unlink, create and open, as steps on inodes that change in place. */
module Links {
  import opened LinkTree

  // ---- what each call comes to

  /** A panic and a wait for a lock the call itself holds are both Stuck. Done names the inode the call is about. */
  datatype After = Stuck | Failed | Done(tree: Tree, inum: nat)

  function Held(t: Tree, i: nat): (u: Tree)
    requires i < |t|
  {
    t[i := t[i].(ref := t[i].ref + 1)]
  }

  /** An inode with no link and no reference is freed. */
  function Reap(t: Tree, i: nat): Tree
    requires i < |t|
  {
    if t[i].nlink == 0 && t[i].ref == 0 then t[i := UNUSED] else t
  }

  function Released(t: Tree, i: nat): Tree
    requires i < |t| && t[i].ref >= 1
  {
    Reap(t[i := t[i].(ref := t[i].ref - 1)], i)
  }

  /** The first free inode, or the number of inodes. */
  function FreeFrom(t: Tree, i: nat): (r: nat)
    requires i <= |t|
    ensures i <= r <= |t| && (r < |t| ==> t[r].kind == Free)
    ensures forall x :: i <= x < r ==> t[x].kind != Free
    decreases |t| - i
  {
    if i == |t| || t[i].kind == Free then i else FreeFrom(t, i + 1)
  }

  function Fresh(kind: Kind, i: nat, d: nat): Inode {
    Inode(kind, 0, if kind == Directory then Dots(i, d) else [], 1)
  }

  lemma {:induction false} ParentIsDirectory(t: Tree, i: nat, elems: seq<string>)
    requires Namex(t, i, elems, true).At?
    ensures elems != [] && Namex(t, i, elems, true).inum < |t|
    ensures t[Namex(t, i, elems, true).inum].kind == Directory
    decreases |elems|
  {
    if |elems| > 1 {
      ParentIsDirectory(t, t[i].entries[Find(t[i].entries, elems[0])].inum, elems[1..]);
    }
  }

  /** dirlink: the name must be new; to find that it is the directory itself waits forever for the lock already held. */
  function Named(t: Tree, d: nat, name: string, i: nat): After
    requires d < |t| && i < |t|
  {
    var es := t[d].entries;
    var k := Find(es, name);
    if k < |es| then (if es[k].inum == d then Stuck else Failed)
    else if Slot(es) >= MAXENTRIES || d == i then Stuck
    else Done(Attach(t, d, Slot(es), name, i), i)
  }

  function LinkCall(t: Tree, cwd: nat, from: Path, to: Path): After {
    match Namei(t, cwd, from)
    case Panics => Stuck
    case Missing => Failed
    case At(i) =>
      if !Usable(t, i) then Stuck
      else if t[i].kind == Directory then Failed
      else
        match NameiParent(t, cwd, to)
        case Panics => Stuck
        case Missing => Failed
        case At(d) => ParentIsDirectory(t, Start(cwd, to), to.elems); Named(t, d, Last(to), i)
  }

  function UnlinkFrom(t: Tree, d: nat, name: string): After
    requires d < |t|
  {
    var es := t[d].entries;
    var k := Find(es, name);
    if name == DOT || name == DOTDOT || k == |es| then Failed
    else
      var i := es[k].inum;
      if !Usable(t, i) || i == d || t[i].nlink < 1 then Stuck
      else if t[i].kind == Directory && !Empty(t[i].entries) then Failed
      else Done(Reap(Detach(t, d, k), i), i)
  }

  function UnlinkCall(t: Tree, cwd: nat, path: Path): After {
    match NameiParent(t, cwd, path)
    case Panics => Stuck
    case Missing => Failed
    case At(d) => ParentIsDirectory(t, Start(cwd, path), path.elems); UnlinkFrom(t, d, Last(path))
  }

  function NewCall(t: Tree, d: nat, name: string, kind: Kind): After
    requires d < |t|
  {
    var i := if |t| <= 1 then |t| else FreeFrom(t, 1);
    if i == |t| then Stuck else Named(t[i := Fresh(kind, i, d)], d, name, i)
  }

  function MakeAt(t: Tree, d: nat, name: string, kind: Kind): After
    requires d < |t|
  {
    var es := t[d].entries;
    var k := Find(es, name);
    if k == |es| then NewCall(t, d, name, kind)
    else
      var i := es[k].inum;
      if !Usable(t, i) then Stuck
      else if kind == Plain && t[i].kind == Plain then Done(Held(t, i), i)
      else Failed
  }

  function MakeCall(t: Tree, cwd: nat, path: Path, kind: Kind): After {
    match NameiParent(t, cwd, path)
    case Panics => Stuck
    case Missing => Failed
    case At(d) => ParentIsDirectory(t, Start(cwd, path), path.elems); MakeAt(t, d, Last(path), kind)
  }

  function OpenCall(t: Tree, cwd: nat, path: Path, write: bool): After {
    match Namei(t, cwd, path)
    case Panics => Stuck
    case Missing => Failed
    case At(i) =>
      if !Usable(t, i) then Stuck
      else if t[i].kind == Directory && write then Failed
      else Done(Held(t, i), i)
  }

  // ---- what a call keeps

  lemma HeldKeeps(t: Tree, i: nat)
    requires Sound(t) && Kept(t) && Usable(t, i)
    ensures Sound(Held(t, i)) && Kept(Held(t, i))
  {
    AlikeSound(t, Held(t, i));
  }

  lemma ReleasedKeeps(t: Tree, i: nat)
    requires Sound(t) && Kept(t) && Usable(t, i) && t[i].ref >= 1
    ensures Sound(Released(t, i)) && Kept(Released(t, i))
  {
    var u := t[i := t[i].(ref := t[i].ref - 1)];
    AlikeSound(t, u);
    assert Counted(t, i);
    if u[i].nlink == 0 && u[i].ref == 0 {
      OrphanChanges(u, i, UNUSED);
    }
  }

  /** A new name in a directory that was removed breaks what the counts mean; any other keeps it. */
  lemma NamedKeeps(t: Tree, d: nat, name: string, i: nat)
    requires Sound(t) && Kept(t) && d < |t| && t[d].kind == Directory && Usable(t, i) && i != ROOT
    requires t[i].kind == Directory ==> t[i].nlink == 0 && t[i].entries == Dots(i, d)
    requires Named(t, d, name, i).Done?
    ensures Sound(Named(t, d, name, i).tree) <==> Linked(t, d)
    ensures Kept(Named(t, d, name, i).tree)
  {
    AttachSoundIff(t, d, Slot(t[d].entries), name, i);
    assert Counted(t, i) && Counted(t, d);
  }

  lemma LinkKeeps(t: Tree, cwd: nat, from: Path, to: Path)
    requires Sound(t) && Kept(t) && LinkCall(t, cwd, from, to).Done?
    ensures Sound(LinkCall(t, cwd, from, to).tree) <==> Linked(t, NameiParent(t, cwd, to).inum)
    ensures Kept(LinkCall(t, cwd, from, to).tree)
  {
    ParentIsDirectory(t, Start(cwd, to), to.elems);
    NamedKeeps(t, NameiParent(t, cwd, to).inum, Last(to), Namei(t, cwd, from).inum);
  }

  lemma FreshKeeps(t: Tree, d: nat, kind: Kind, i: nat)
    requires Sound(t) && Kept(t) && 1 <= i < |t| && t[i].kind == Free && kind != Free
    requires 1 <= d < |t| && t[d].kind == Directory
    ensures Sound(t[i := Fresh(kind, i, d)]) && Kept(t[i := Fresh(kind, i, d)])
  {
    OrphanChanges(t, i, Fresh(kind, i, d));
  }

  /** The directory a new name would go into, if the call would make one. */
  predicate MakesNew(t: Tree, cwd: nat, path: Path) {
    NameiParent(t, cwd, path).At? &&
    (ParentIsDirectory(t, Start(cwd, path), path.elems);
     var es := t[NameiParent(t, cwd, path).inum].entries;
     Find(es, Last(path)) == |es|)
  }

  lemma MakeKeeps(t: Tree, cwd: nat, path: Path, kind: Kind)
    requires Sound(t) && Kept(t) && MakeCall(t, cwd, path, kind).Done? && kind != Free
    ensures Sound(MakeCall(t, cwd, path, kind).tree) <==>
              (MakesNew(t, cwd, path) ==> Linked(t, NameiParent(t, cwd, path).inum))
    ensures Kept(MakeCall(t, cwd, path, kind).tree)
  {
    ParentIsDirectory(t, Start(cwd, path), path.elems);
    var d := NameiParent(t, cwd, path).inum;
    var es := t[d].entries;
    if Find(es, Last(path)) < |es| {
      HeldKeeps(t, es[Find(es, Last(path))].inum);
    } else {
      var i := FreeFrom(t, 1);
      FreshKeeps(t, d, kind, i);
      NamedKeeps(t[i := Fresh(kind, i, d)], d, Last(path), i);
    }
  }

  /** Of the inodes that were kept only i can have lost its last hold. */
  lemma ReapKeeps(t: Tree, u: Tree, d: nat, i: nat)
    requires Kept(t) && Sound(u) && |u| == |t| && 1 <= i < |t| && d < |t| && u[d].nlink > 0
    requires u[i].kind != Free && u[d].kind != Free
    requires forall x :: 0 <= x < |t| && x != d && x != i ==> u[x] == t[x]
    ensures Sound(Reap(u, i)) && Kept(Reap(u, i))
  {
    assert Counted(u, i);
    if u[i].nlink == 0 && u[i].ref == 0 {
      OrphanChanges(u, i, UNUSED);
    }
  }

  lemma UnlinkKeeps(t: Tree, cwd: nat, path: Path)
    requires Sound(t) && Kept(t) && UnlinkCall(t, cwd, path).Done?
    ensures Sound(UnlinkCall(t, cwd, path).tree) && Kept(UnlinkCall(t, cwd, path).tree)
  {
    ParentIsDirectory(t, Start(cwd, path), path.elems);
    var d := NameiParent(t, cwd, path).inum;
    var k := Find(t[d].entries, Last(path));
    var i := t[d].entries[k].inum;
    assert DirOk(t, d);
    DetachSound(t, d, k, i);
    var u := Detach(t, d, k);
    assert Counted(t, i);
    ReapKeeps(t, u, d, i);
  }

  /** What unlink finds under another name than "." or "..": a linked inode that is not the directory itself. */
  lemma UnlinkFinds(t: Tree, d: nat, name: string)
    requires Sound(t) && Kept(t) && d < |t| && t[d].kind == Directory && name != DOT && name != DOTDOT
    ensures var k := Find(t[d].entries, name);
            k < |t[d].entries| ==>
              var i := t[d].entries[k].inum;
              && 2 <= k && Linked(t, d) && Usable(t, i) && i != d && t[i].nlink >= 1
              && (t[i].kind == Directory ==> t[d].nlink >= 2)
  {
    var es := t[d].entries;
    var k := Find(es, name);
    assert DirOk(t, d);
    if k < |es| {
      assert k >= 2;
      EntryIsLive(t, d, k);
      NotItself(t, d, k);
      assert ChildOk(t, d, k);
      if t[es[k].inum].kind == Directory {
        ParentHasTwo(t, d, es[k].inum);
      }
    }
  }

  // ---- when a call panics or waits forever

  /** "." and ".." lead the path from a removed current directory to a free inode within fewer than m names. */
  ghost predicate LeavesTree(t: Tree, cwd: nat, path: Path, m: nat) { !path.absolute && Falls(t, cwd, path.elems, m) }

  lemma {:induction false} WalkLeaves(t: Tree, cwd: nat, path: Path)
    requires Sound(t) && Kept(t) && 1 <= cwd < |t|
    ensures Namei(t, cwd, path) == Panics <==> LeavesTree(t, cwd, path, |path.elems|)
    ensures NameiParent(t, cwd, path) == Panics <==> LeavesTree(t, cwd, path, |path.elems|)
    ensures Stops(t, Namei(t, cwd, path)) <==> LeavesTree(t, cwd, path, |path.elems| + 1)
  {
    WalkFallsIff(t, Start(cwd, path), path.elems, false);
    WalkFallsIff(t, Start(cwd, path), path.elems, true);
    if path.absolute {
      assert t[ROOT].nlink >= 1;
      NoFall(t, ROOT, path.elems, |path.elems|);
      NoFall(t, ROOT, path.elems, |path.elems| + 1);
    }
  }

  /** With a current directory that is linked, or an absolute path, no walk leaves the tree. */
  lemma {:induction false} LinkedStays(t: Tree, cwd: nat, path: Path, m: nat)
    requires Kept(t) && cwd < |t| && (path.absolute || t[cwd].nlink >= 1)
    ensures !LeavesTree(t, cwd, path, m)
  {
  }

  /** open panics exactly if the path leaves the tree. */
  lemma {:induction false} OpenStuckIff(t: Tree, cwd: nat, path: Path, write: bool)
    requires Sound(t) && Kept(t) && 1 <= cwd < |t|
    ensures OpenCall(t, cwd, path, write) == Stuck <==> LeavesTree(t, cwd, path, |path.elems| + 1)
  {
    WalkLeaves(t, cwd, path);
  }

  /** unlink panics exactly if the path leaves the tree: it meets no free inode and no count below one. */
  lemma {:induction false} UnlinkStuckIff(t: Tree, cwd: nat, path: Path)
    requires Sound(t) && Kept(t) && 1 <= cwd < |t|
    ensures UnlinkCall(t, cwd, path) == Stuck <==> LeavesTree(t, cwd, path, |path.elems|)
  {
    WalkLeaves(t, cwd, path);
    if NameiParent(t, cwd, path).At? {
      ParentIsDirectory(t, Start(cwd, path), path.elems);
      if Last(path) != DOT && Last(path) != DOTDOT {
        UnlinkFinds(t, NameiParent(t, cwd, path).inum, Last(path));
      }
    }
  }

  /** The last step of namei, from where nameiparent stops. */
  lemma {:induction false} WalkLast(t: Tree, i: nat, elems: seq<string>)
    requires elems != []
    ensures Namex(t, i, elems, false) ==
              match Namex(t, i, elems, true)
              case At(d) => Namex(t, d, [elems[|elems| - 1]], false)
              case f => f
    decreases |elems|
  {
    if |elems| > 1 {
      if i < |t| && t[i].kind == Directory && Find(t[i].entries, elems[0]) < |t[i].entries| {
        WalkLast(t, t[i].entries[Find(t[i].entries, elems[0])].inum, elems[1..]);
      }
    } else {
      assert elems == [elems[0]];
    }
  }

  lemma {:induction false} NewStuckIff(t: Tree, d: nat, name: string, kind: Kind)
    requires 1 <= d < |t| && t[d].kind == Directory && Find(t[d].entries, name) == |t[d].entries|
    ensures NewCall(t, d, name, kind) == Stuck <==> FreeFrom(t, 1) == |t| || Slot(t[d].entries) >= MAXENTRIES
  {
    assert FreeFrom(t, 1) != d;
  }

  /** Where create comes to a name that is there but leads to a free inode. */
  lemma {:induction false} MakeMeetsFree(t: Tree, cwd: nat, path: Path)
    requires Sound(t) && Kept(t) && 1 <= cwd < |t| && NameiParent(t, cwd, path).At?
    ensures path.elems != [] && NameiParent(t, cwd, path).inum < |t|
    ensures var es := t[NameiParent(t, cwd, path).inum].entries;
            var k := Find(es, Last(path));
            k < |es| && !Usable(t, es[k].inum) <==> LeavesTree(t, cwd, path, |path.elems| + 1)
  {
    WalkLeaves(t, cwd, path);
    ParentIsDirectory(t, Start(cwd, path), path.elems);
    WalkLast(t, Start(cwd, path), path.elems);
    assert [Last(path)][1..] == [];
  }

  /** create panics exactly if the path leaves the tree, or it would make a name with no inode or no entry left. */
  lemma {:induction false} MakeStuckIff(t: Tree, cwd: nat, path: Path, kind: Kind)
    requires Sound(t) && Kept(t) && Usable(t, cwd) && cwd >= 1 && kind != Free
    ensures MakeCall(t, cwd, path, kind) == Stuck <==>
              LeavesTree(t, cwd, path, |path.elems| + 1)
              || (MakesNew(t, cwd, path) && NameiParent(t, cwd, path).inum < |t|
                  && (FreeFrom(t, 1) == |t| || Slot(t[NameiParent(t, cwd, path).inum].entries) >= MAXENTRIES))
  {
    WalkLeaves(t, cwd, path);
    if path.elems == [] {
      assert path.elems[..0] == [];
      assert !DropsAt(t, cwd, [], 0);
    } else if NameiParent(t, cwd, path).At? {
      MakeMeetsFree(t, cwd, path);
      ParentIsDirectory(t, Start(cwd, path), path.elems);
      var d := NameiParent(t, cwd, path).inum;
      assert t[0].kind == Free;
      if Find(t[d].entries, Last(path)) == |t[d].entries| {
        NewStuckIff(t, d, Last(path), kind);
      }
    } else {
      WalkLast(t, Start(cwd, path), path.elems);
    }
  }

  /** The name in d is there already and leads to d, whose lock is held; or it is new and d has no room for it. */
  predicate HangsIn(t: Tree, d: nat, name: string)
    requires d < |t|
  {
    var es := t[d].entries;
    var k := Find(es, name);
    if k < |es| then es[k].inum == d else Slot(es) >= MAXENTRIES
  }

  /** link panics or waits forever exactly if a path leaves the tree, or the new name hangs in its directory. */
  lemma {:induction false} LinkStuckIff(t: Tree, cwd: nat, from: Path, to: Path)
    requires Sound(t) && Kept(t) && 1 <= cwd < |t|
    ensures LinkCall(t, cwd, from, to) == Stuck <==>
              LeavesTree(t, cwd, from, |from.elems| + 1)
              || (Namei(t, cwd, from).At? && Usable(t, Namei(t, cwd, from).inum)
                  && t[Namei(t, cwd, from).inum].kind != Directory
                  && (LeavesTree(t, cwd, to, |to.elems|)
                      || (NameiParent(t, cwd, to).At? && NameiParent(t, cwd, to).inum < |t| && to.elems != []
                          && HangsIn(t, NameiParent(t, cwd, to).inum, Last(to)))))
  {
    WalkLeaves(t, cwd, from);
    WalkLeaves(t, cwd, to);
    if NameiParent(t, cwd, to).At? {
      ParentIsDirectory(t, Start(cwd, to), to.elems);
    }
  }

  lemma {:induction false} DotDots(n: nat) returns (elems: seq<string>)
    ensures |elems| == n && Dotted(elems) && Ups(elems) == n
  {
    elems := [];
    if n > 0 {
      elems := DotDots(n - 1);
      elems := [DOTDOT] + elems;
      assert elems[1..] == elems[1..];
    }
  }

  /** ".." leads from d through removed directories to a free inode. */
  ghost predicate Doomed(t: Tree, d: nat) { exists n: nat :: Drops(t, d, n) }

  predicate PathPanics(t: Tree, cwd: nat, elems: seq<string>) {
    OpenCall(t, cwd, Path(false, elems), false) == Stuck
  }

  /**
   * Some path panics from a current directory exactly if ".." leads from it through removed directories to a free
   * inode. From one that is linked, and for an absolute path, none does.
   */
  lemma {:induction false} SomePathPanicsIff(t: Tree, cwd: nat)
    requires Sound(t) && Kept(t) && 1 <= cwd < |t|
    ensures (exists elems :: PathPanics(t, cwd, elems)) <==> Doomed(t, cwd)
    ensures t[cwd].nlink >= 1 ==> !Doomed(t, cwd)
  {
    if n: nat :| Drops(t, cwd, n) {
      var elems := DotDots(n);
      assert elems[..n] == elems;
      assert DropsAt(t, cwd, elems, n);
      OpenStuckIff(t, cwd, Path(false, elems), false);
      assert PathPanics(t, cwd, elems);
    }
    forall elems | PathPanics(t, cwd, elems)
      ensures Doomed(t, cwd)
    {
      OpenStuckIff(t, cwd, Path(false, elems), false);
      var k: nat :| k < |elems| + 1 && DropsAt(t, cwd, elems, k);
      assert Drops(t, cwd, Ups(elems[..k]));
    }
  }

  /** What a caller can see to: with a linked current directory or absolute paths no walk of any call panics. */
  lemma {:induction false} LinkedNeverPanics(t: Tree, cwd: nat, path: Path, from: Path, write: bool)
    requires Sound(t) && Kept(t) && 1 <= cwd < |t| && (path.absolute || t[cwd].nlink >= 1)
    ensures OpenCall(t, cwd, path, write) != Stuck && UnlinkCall(t, cwd, path) != Stuck
    ensures NameiParent(t, cwd, path) != Panics && !Stops(t, Namei(t, cwd, path))
  {
    WalkLeaves(t, cwd, path);
    OpenStuckIff(t, cwd, path, write);
    UnlinkStuckIff(t, cwd, path);
  }

  // ---- when a call succeeds, and what can be seen of it after

  /**
   * From a linked directory, or by an absolute path, open gives what the walk leads to, with one more reference; it
   * fails exactly if there is nothing or a directory is to be written.
   */
  lemma {:induction false} OpenIff(t: Tree, cwd: nat, path: Path, write: bool)
    requires Sound(t) && Kept(t) && 1 <= cwd < |t| && (path.absolute || t[cwd].nlink >= 1)
    ensures match Namei(t, cwd, path)
            case Panics => false
            case Missing => OpenCall(t, cwd, path, write) == Failed
            case At(i) =>
              && i < |t| && t[i].kind != Free
              && OpenCall(t, cwd, path, write) ==
                   if t[i].kind == Directory && write then Failed else Done(t[i := t[i].(ref := t[i].ref + 1)], i)
  {
    WalkLeaves(t, cwd, path);
    LinkedStays(t, cwd, path, |path.elems| + 1);
  }

  /** Every linked inode can be opened by some absolute path, for reading or, if it is no directory, for writing. */
  lemma {:induction false} LinkedOpens(t: Tree, cwd: nat, write: bool, i: nat) returns (path: Path)
    requires Sound(t) && Kept(t) && 1 <= cwd < |t| && 1 <= i < |t| && t[i].nlink >= 1
    requires !(t[i].kind == Directory && write)
    ensures path.absolute && OpenCall(t, cwd, path, write) == Done(t[i := t[i].(ref := t[i].ref + 1)], i)
  {
    LinkedIffReachable(t, i);
    var elems :| Namex(t, ROOT, elems, false) == At(i);
    path := Path(true, elems);
    OpenIff(t, cwd, path, write);
  }

  lemma FindAfter(es: seq<Entry>, k: nat, e: Entry, name: string)
    requires k == Slot(es) && Find(es, name) < |es|
    requires e.name != name
    ensures Find(WithEntry(es, k, e), name) == Find(es, name)
  {
    var r := WithEntry(es, k, e);
    assert r[Find(es, name)] == es[Find(es, name)];
  }

  /** The walk to d goes on as it did once d has a name for the new inode i, and that name leads to i. */
  lemma {:induction false} WalkToNew(t: Tree, d: nat, name: string, i: nat, kind: Kind, x: nat, elems: seq<string>)
    requires d < |t| && i < |t| && t[i].kind == Free && t[d].kind == Directory && kind != Free
    requires Find(t[d].entries, name) == |t[d].entries|
    requires Namex(t, x, elems, true).At?
    ensures Namex(Attach(t[i := Fresh(kind, i, d)], d, Slot(t[d].entries), name, i), x, elems, true) ==
              Namex(t, x, elems, true)
    decreases |elems|
  {
    var t1 := t[i := Fresh(kind, i, d)];
    var u := Attach(t1, d, Slot(t[d].entries), name, i);
    AttachIs(t1, d, Slot(t[d].entries), name, i);
    if |elems| > 1 {
      var es := t[x].entries;
      var k := Find(es, elems[0]);
      if x == d {
        FindAfter(es, Slot(es), Entry(i, name), elems[0]);
        assert u[d].entries == WithEntry(es, Slot(es), Entry(i, name));
        assert u[d].entries[k] == es[k];
      }
      WalkToNew(t, d, name, i, kind, es[k].inum, elems[1..]);
    }
  }

  /** A path whose last name is found in the directory the rest leads to leads to what that name stands for. */
  lemma {:induction false} NameiLast(t: Tree, cwd: nat, path: Path, d: nat)
    requires NameiParent(t, cwd, path) == At(d)
    ensures path.elems != [] && d < |t| && t[d].kind == Directory
    ensures var es := t[d].entries;
            var k := Find(es, Last(path));
            Namei(t, cwd, path) == if k == |es| then Missing else At(es[k].inum)
  {
    ParentIsDirectory(t, Start(cwd, path), path.elems);
    WalkLast(t, Start(cwd, path), path.elems);
    assert [Last(path)][1..] == [];
  }

  lemma FindNew(t: Tree, d: nat, name: string, i: nat)
    requires d < |t| && i < |t| && d != i && i != 0 && Find(t[d].entries, name) == |t[d].entries|
    ensures Find(Attach(t, d, Slot(t[d].entries), name, i)[d].entries, name) == Slot(t[d].entries)
  {
    var es := t[d].entries;
    AttachIs(t, d, Slot(es), name, i);
    var r := WithEntry(es, Slot(es), Entry(i, name));
    assert r[Slot(es)] == Entry(i, name);
  }

  lemma {:induction false} NewGives(t: Tree, cwd: nat, path: Path, kind: Kind, d: nat)
    requires NameiParent(t, cwd, path) == At(d) && path.elems != [] && 1 <= d < |t| && t[d].kind == Directory
    requires Find(t[d].entries, Last(path)) == |t[d].entries| && NewCall(t, d, Last(path), kind).Done? && kind != Free
    ensures var i, u := NewCall(t, d, Last(path), kind).inum, NewCall(t, d, Last(path), kind).tree;
            && |u| == |t| && i < |t| && Namei(u, cwd, path) == At(i) && t[i].kind == Free
            && u[i] == Inode(kind, 1, if kind == Directory then Dots(i, d) else [], 1)
            && forall x :: 0 <= x < |t| && x != i && x != d ==> u[x] == t[x]
  {
    var i := FreeFrom(t, 1);
    var t1 := t[i := Fresh(kind, i, d)];
    WalkToNew(t, d, Last(path), i, kind, Start(cwd, path), path.elems);
    NameiLast(NewCall(t, d, Last(path), kind).tree, cwd, path, d);
    FindNew(t1, d, Last(path), i);
    AttachIs(t1, d, Slot(t[d].entries), Last(path), i);
  }

  /** create gives a file that is there, or a new inode of the kind asked for, with one link and one reference. */
  lemma {:induction false} MakeGives(t: Tree, cwd: nat, path: Path, kind: Kind)
    requires Sound(t) && Kept(t) && MakeCall(t, cwd, path, kind).Done? && kind != Free
    ensures var i, u := MakeCall(t, cwd, path, kind).inum, MakeCall(t, cwd, path, kind).tree;
            && |u| == |t| && i < |t|
            && Namei(u, cwd, path) == At(i)
            && if Namei(t, cwd, path) != Missing
               then kind == Plain && t[i].kind == Plain && Namei(t, cwd, path) == At(i)
                    && u == t[i := t[i].(ref := t[i].ref + 1)]
               else t[i].kind == Free
                    && u[i].kind == kind && u[i].nlink == 1 && u[i].ref == 1
                    && u[i].entries == (if kind == Directory then Dots(i, NameiParent(t, cwd, path).inum) else [])
                    && forall x :: 0 <= x < |t| && x != i && x != NameiParent(t, cwd, path).inum ==> u[x] == t[x]
  {
    var d := NameiParent(t, cwd, path).inum;
    NameiLast(t, cwd, path, d);
    var es := t[d].entries;
    var k := Find(es, Last(path));
    if k < |es| {
      SameWalk(t, Held(t, es[k].inum), Start(cwd, path), path.elems, false);
    } else {
      NewGives(t, cwd, path, kind, d);
    }
  }

  /** So what was just created can be opened by the same path. */
  lemma {:induction false} MakeThenOpen(t: Tree, cwd: nat, path: Path, kind: Kind, write: bool)
    requires Sound(t) && Kept(t) && MakeCall(t, cwd, path, kind).Done? && kind != Free
    requires !(kind == Directory && write)
    ensures var i, u := MakeCall(t, cwd, path, kind).inum, MakeCall(t, cwd, path, kind).tree;
            i < |u| && OpenCall(u, cwd, path, write) == Done(u[i := u[i].(ref := u[i].ref + 1)], i)
  {
    MakeGives(t, cwd, path, kind);
  }

  /** A walk that ends somewhere ends there after a new name is made: it met only names that were there. */
  lemma {:induction false} WalkAfter(t: Tree, d: nat, name: string, i: nat, x: nat, elems: seq<string>, parent: bool)
    requires d < |t| && i < |t| && d != i && t[i].kind != Directory && t[i].entries == []
    requires Find(t[d].entries, name) == |t[d].entries|
    requires Namex(t, x, elems, parent).At?
    ensures Namex(Attach(t, d, Slot(t[d].entries), name, i), x, elems, parent) == Namex(t, x, elems, parent)
    decreases |elems|
  {
    var u := Attach(t, d, Slot(t[d].entries), name, i);
    AttachIs(t, d, Slot(t[d].entries), name, i);
    if elems != [] && !(parent && |elems| == 1) {
      var es := t[x].entries;
      var k := Find(es, elems[0]);
      if x == d {
        FindAfter(es, Slot(es), Entry(i, name), elems[0]);
        assert u[d].entries == WithEntry(es, Slot(es), Entry(i, name));
        assert u[d].entries[k] == es[k];
      }
      WalkAfter(t, d, name, i, es[k].inum, elems[1..], parent);
    }
  }

  lemma FindDots(es: seq<Entry>)
    requires |es| >= 2 && es[0].inum != 0 && es[0].name == DOT && es[1].inum != 0 && es[1].name == DOTDOT
    ensures Find(es, DOT) < |es| && Find(es, DOTDOT) < |es|
  {
  }

  lemma LinkDone(t: Tree, cwd: nat, from: Path, to: Path)
    requires Sound(t) && Kept(t) && LinkCall(t, cwd, from, to).Done?
    ensures var d, i := NameiParent(t, cwd, to).inum, Namei(t, cwd, from).inum;
            && to.elems != [] && d < |t| && t[d].kind == Directory && 1 <= i < |t| && d != i
            && t[i].kind != Directory && t[i].kind != Free && t[i].entries == [] && t[i].nlink >= 0
            && Find(t[d].entries, Last(to)) == |t[d].entries|
            && LinkCall(t, cwd, from, to).tree == Attach(t, d, Slot(t[d].entries), Last(to), i)
            && Last(to) != DOT && Last(to) != DOTDOT
  {
    ParentIsDirectory(t, Start(cwd, to), to.elems);
    var d, i := NameiParent(t, cwd, to).inum, Namei(t, cwd, from).inum;
    assert DirOk(t, d) && Counted(t, i);
    FindDots(t[d].entries);
  }

  /** After link the new path leads to the inode of the old one, which has one link more; nothing else has changed. */
  lemma {:induction false} LinkGives(t: Tree, cwd: nat, from: Path, to: Path)
    requires Sound(t) && Kept(t) && LinkCall(t, cwd, from, to).Done?
    ensures var i, u := Namei(t, cwd, from).inum, LinkCall(t, cwd, from, to).tree;
            && |u| == |t| && i < |t| && u[i] == t[i].(nlink := t[i].nlink + 1)
            && Namei(t, cwd, to) == Missing && Namei(u, cwd, to) == At(i)
            && forall x :: 0 <= x < |t| && x != i && x != NameiParent(t, cwd, to).inum ==> u[x] == t[x]
  {
    LinkDone(t, cwd, from, to);
    var d, i := NameiParent(t, cwd, to).inum, Namei(t, cwd, from).inum;
    NameiLast(t, cwd, to, d);
    WalkAfter(t, d, Last(to), i, Start(cwd, to), to.elems, true);
    NameiLast(LinkCall(t, cwd, from, to).tree, cwd, to, d);
    FindNew(t, d, Last(to), i);
    AttachIs(t, d, Slot(t[d].entries), Last(to), i);
  }

  /** link succeeds exactly for an inode that is no directory and a new name, with room, in a directory. */
  lemma {:induction false} LinkIff(t: Tree, cwd: nat, from: Path, to: Path)
    requires Sound(t) && Kept(t) && 1 <= cwd < |t| && t[cwd].nlink >= 1
    ensures LinkCall(t, cwd, from, to).Done? <==>
              && Namei(t, cwd, from).At? && Namei(t, cwd, from).inum < |t|
              && t[Namei(t, cwd, from).inum].kind != Directory
              && NameiParent(t, cwd, to).At? && NameiParent(t, cwd, to).inum < |t| && Namei(t, cwd, to) == Missing
              && Slot(t[NameiParent(t, cwd, to).inum].entries) < MAXENTRIES
  {
    WalkLeaves(t, cwd, from);
    LinkedStays(t, cwd, from, |from.elems| + 1);
    if NameiParent(t, cwd, to).At? {
      NameiLast(t, cwd, to, NameiParent(t, cwd, to).inum);
    }
  }

  /** create succeeds exactly for a file where there is one, or a new name with an inode and room for it. */
  lemma {:induction false} MakeIff(t: Tree, cwd: nat, path: Path, kind: Kind)
    requires Sound(t) && Kept(t) && 1 <= cwd < |t| && t[cwd].nlink >= 1 && kind != Free
    ensures MakeCall(t, cwd, path, kind).Done? <==>
              && NameiParent(t, cwd, path).At? && NameiParent(t, cwd, path).inum < |t|
              && match Namei(t, cwd, path)
                 case At(i) => kind == Plain && i < |t| && t[i].kind == Plain
                 case _ =>
                   && (exists i :: 1 <= i < |t| && t[i].kind == Free)
                   && Slot(t[NameiParent(t, cwd, path).inum].entries) < MAXENTRIES
  {
    MakeStuckIff(t, cwd, path, kind);
    LinkedStays(t, cwd, path, |path.elems| + 1);
    assert (exists i :: 1 <= i < |t| && t[i].kind == Free) <==> FreeFrom(t, 1) < |t|;
    if NameiParent(t, cwd, path).At? {
      NameiLast(t, cwd, path, NameiParent(t, cwd, path).inum);
    }
  }

  /** unlink succeeds exactly for a name, other than "." and "..", of an inode that is no directory with entries. */
  lemma {:induction false} UnlinkIff(t: Tree, cwd: nat, path: Path)
    requires Sound(t) && Kept(t) && 1 <= cwd < |t| && t[cwd].nlink >= 1
    ensures UnlinkCall(t, cwd, path).Done? <==>
              && path.elems != [] && Last(path) != DOT && Last(path) != DOTDOT
              && match Namei(t, cwd, path)
                 case At(i) => i < |t| && (t[i].kind == Directory ==> Empty(t[i].entries))
                 case _ => false
  {
    UnlinkStuckIff(t, cwd, path);
    LinkedStays(t, cwd, path, |path.elems|);
    if path.elems != [] {
      WalkLast(t, Start(cwd, path), path.elems);
    }
    if NameiParent(t, cwd, path).At? {
      NameiLast(t, cwd, path, NameiParent(t, cwd, path).inum);
    }
  }

  /** A name is found where it was, unless it is the one removed: that is not found. */
  lemma FindWithout(es: seq<Entry>, k: nat, name: string)
    requires k < |es| && es[k].inum != 0
    requires forall j :: 0 <= j < |es| && j != k && es[j].inum != 0 ==> es[j].name != es[k].name
    ensures Find(es[k := NOENTRY], name) == if name == es[k].name then |es| else Find(es, name)
  {
    var r := es[k := NOENTRY];
    var m := Find(es, name);
    if name != es[k].name && m < |es| {
      assert r[m] == es[m];
    }
  }

  /** Once entry k of d is unused the walk goes on as it did, or comes to nothing: i itself is not on it, or is gone. */
  lemma {:induction false} WalkWithout(t: Tree, u: Tree, d: nat, k: nat, x: nat, elems: seq<string>)
    requires |u| == |t| && d < |t| && k < |t[d].entries| && |u[d].entries| == |t[d].entries|
    requires u[d].entries == t[d].entries[k := NOENTRY] && u[d].kind == t[d].kind
    requires forall y :: 0 <= y < |t| && y != d ==>
               u[y].kind == Free || (u[y].kind == t[y].kind && u[y].entries == t[y].entries)
    requires forall j :: 0 <= j < |t[d].entries| && j != k && t[d].entries[j].inum != 0 ==>
               t[d].entries[j].name != t[d].entries[k].name
    requires t[d].entries[k].inum != 0
    requires Namex(t, x, elems, true) == At(d)
    ensures Namex(u, x, elems, true) in {At(d), Missing, Panics}
    decreases |elems|
  {
    if |elems| > 1 && u[x].kind == t[x].kind == Directory {
      var es := t[x].entries;
      var m := Find(es, elems[0]);
      if x == d {
        FindWithout(es, k, elems[0]);
      }
      if !(x == d && m == k) {
        WalkWithout(t, u, d, k, es[m].inum, elems[1..]);
      }
    }
  }

  /** After unlink the path leads nowhere. */
  lemma {:induction false} UnlinkGone(t: Tree, cwd: nat, path: Path)
    requires Sound(t) && Kept(t) && UnlinkCall(t, cwd, path).Done?
    ensures !Namei(UnlinkCall(t, cwd, path).tree, cwd, path).At?
  {
    var d, u := NameiParent(t, cwd, path).inum, UnlinkCall(t, cwd, path).tree;
    NameiLast(t, cwd, path, d);
    var es := t[d].entries;
    var k := Find(es, Last(path));
    UnlinkFinds(t, d, Last(path));
    assert DirOk(t, d);
    WalkWithout(t, u, d, k, Start(cwd, path), path.elems);
    WalkLast(u, Start(cwd, path), path.elems);
    if NameiParent(u, cwd, path).At? {
      FindWithout(es, k, Last(path));
      NameiLast(u, cwd, path, d);
    }
  }

  // ---- runs

  datatype Call =
    | Link(cwd: nat, from: Path, to: Path)
    | Unlink(cwd: nat, path: Path)
    | Make(cwd: nat, path: Path, kind: Kind)
    | Open(cwd: nat, path: Path, write: bool)
    | Dup(i: nat)
    | Close(i: nat)

  /** The caller holds its current directory, and what it duplicates or closes. */
  predicate May(t: Tree, c: Call) {
    match c
    case Link(cwd, _, _) => cwd < |t| && t[cwd].ref >= 1
    case Unlink(cwd, _) => cwd < |t| && t[cwd].ref >= 1
    case Make(cwd, _, kind) => cwd < |t| && t[cwd].ref >= 1 && kind != Free
    case Open(cwd, _, _) => cwd < |t| && t[cwd].ref >= 1
    case Dup(i) => i < |t| && t[i].ref >= 1
    case Close(i) => i < |t| && t[i].ref >= 1
  }

  function Do(t: Tree, c: Call): After
    requires May(t, c)
  {
    match c
    case Link(cwd, from, to) => LinkCall(t, cwd, from, to)
    case Unlink(cwd, path) => UnlinkCall(t, cwd, path)
    case Make(cwd, path, kind) => MakeCall(t, cwd, path, kind)
    case Open(cwd, path, write) => OpenCall(t, cwd, path, write)
    case Dup(i) => Done(Held(t, i), i)
    case Close(i) => Done(Released(t, i), i)
  }

  /** No new name goes into a directory that has been removed. */
  predicate InLinked(t: Tree, c: Call) {
    match c
    case Link(cwd, _, to) => NameiParent(t, cwd, to).At? ==> Linked(t, NameiParent(t, cwd, to).inum)
    case Make(cwd, path, _) => MakesNew(t, cwd, path) ==> Linked(t, NameiParent(t, cwd, path).inum)
    case _ => true
  }

  /** Every call that succeeds keeps the tree sound exactly if it makes no name in a removed directory. */
  lemma CallKeepsIff(t: Tree, c: Call)
    requires Sound(t) && Kept(t) && May(t, c) && Do(t, c).Done?
    ensures Sound(Do(t, c).tree) <==> InLinked(t, c)
    ensures Kept(Do(t, c).tree)
  {
    match c
    case Link(cwd, from, to) => LinkKeeps(t, cwd, from, to);
    case Unlink(cwd, path) => UnlinkKeeps(t, cwd, path);
    case Make(cwd, path, kind) => MakeKeeps(t, cwd, path, kind);
    case Open(cwd, path, _) => HeldKeeps(t, Namei(t, cwd, path).inum);
    case Dup(i) => HeldKeeps(t, i);
    case Close(i) => ReleasedKeeps(t, i);
  }

  /**
   * What the calls cs lead to, one after another, where a call that fails changes nothing. Unless anywhere holds, no
   * name is made in a directory that was removed.
   */
  predicate Run(t: Tree, cs: seq<Call>, u: Tree, anywhere: bool)
    decreases |cs|
  {
    if cs == [] then u == t
    else
      && May(t, cs[0]) && (anywhere || InLinked(t, cs[0]))
      && match Do(t, cs[0])
         case Stuck => false
         case Failed => Run(t, cs[1..], u, anywhere)
         case Done(v, _) => Run(v, cs[1..], u, anywhere)
  }

  lemma {:induction false} RunKeeps(t: Tree, cs: seq<Call>, u: Tree)
    requires Sound(t) && Kept(t) && Run(t, cs, u, false)
    ensures Sound(u) && Kept(u)
    decreases |cs|
  {
    if cs != [] {
      match Do(t, cs[0])
      case Failed => RunKeeps(t, cs[1..], u);
      case Done(v, _) => CallKeepsIff(t, cs[0]); RunKeeps(v, cs[1..], u);
    }
  }

  /** What mkfs makes: a root that names itself, with some unused entries, and free inodes. */
  function Boot(n: nat, unused: nat): Tree
    requires n > ROOT
  {
    [UNUSED, Inode(Directory, 1, Dots(ROOT, ROOT) + seq(unused, _ => NOENTRY), 1)] + seq(n - 2, _ => UNUSED)
  }

  lemma BootShape(n: nat, unused: nat)
    requires n > ROOT
    ensures Shape(Boot(n, unused)) && Kept(Boot(n, unused)) && Empty(Boot(n, unused)[ROOT].entries)
  {
    var t := Boot(n, unused);
    assert forall k :: 2 <= k < |t[ROOT].entries| ==> t[ROOT].entries[k] == NOENTRY;
    assert DirOk(t, ROOT);
  }

  lemma BootSound(n: nat, unused: nat)
    requires n > ROOT
    ensures Sound(Boot(n, unused)) && Kept(Boot(n, unused))
  {
    var t := Boot(n, unused);
    BootShape(n, unused);
    forall i: nat | 1 <= i < |t| ensures Counted(t, i) {
      if i == ROOT {
        assert NamesAt(t, ROOT, ROOT, 1);
        assert Names(t, ROOT) == {Place(ROOT, 1)};
      } else {
        assert Names(t, i) == {};
      }
    }
    assert Climbs(t, ROOT, 0);
  }

  /**
   * In every run whose new names go into linked directories: a link count is the number of entries other than "." that
   * name the inode in linked directories; an inode is allocated exactly while it has such a link or a reference; and
   * it has such a link exactly if some path from the root leads to it.
   */
  lemma RunsCountLinks(n: nat, unused: nat, cs: seq<Call>, u: Tree, i: nat)
    requires n > ROOT && Run(Boot(n, unused), cs, u, false) && 1 <= i < |u|
    ensures u[i].nlink == |Names(u, i)|
    ensures u[i].kind != Free <==> u[i].nlink > 0 || u[i].ref > 0
    ensures Names(u, i) != {} <==> Reachable(u, i)
  {
    BootSound(n, unused);
    RunKeeps(Boot(n, unused), cs, u);
    assert Counted(u, i);
    LinkedIffReachable(u, i);
  }

  /** What call c adds to the references of inode i. */
  function Taken(t: Tree, c: Call, i: nat): int
    requires May(t, c)
  {
    match c
    case Link(_, _, _) => 0
    case Unlink(_, _) => 0
    case Make(_, _, _) => if Do(t, c).Done? && Do(t, c).inum == i then 1 else 0
    case Open(_, _, _) => if Do(t, c).Done? && Do(t, c).inum == i then 1 else 0
    case Dup(j) => if j == i then 1 else 0
    case Close(j) => if j == i then -1 else 0
  }

  function AllTaken(t: Tree, cs: seq<Call>, u: Tree, i: nat): int
    requires Run(t, cs, u, false)
    decreases |cs|
  {
    if cs == [] then 0
    else
      match Do(t, cs[0])
      case Failed => AllTaken(t, cs[1..], u, i)
      case Done(v, _) => Taken(t, cs[0], i) + AllTaken(v, cs[1..], u, i)
  }

  lemma {:induction false} NamedTakes(t: Tree, d: nat, name: string, i: nat, x: nat)
    requires d < |t| && i < |t| && x < |t| && Named(t, d, name, i).Done?
    ensures |Named(t, d, name, i).tree| == |t| && Named(t, d, name, i).inum == i
    ensures Named(t, d, name, i).tree[x].ref == t[x].ref
  {
    AttachIs(t, d, Slot(t[d].entries), name, i);
  }

  lemma {:induction false} UnlinkTakes(t: Tree, d: nat, name: string, x: nat)
    requires d < |t| && x < |t| && UnlinkFrom(t, d, name).Done?
    ensures |UnlinkFrom(t, d, name).tree| == |t| && UnlinkFrom(t, d, name).tree[x].ref == t[x].ref
  {
    var i := t[d].entries[Find(t[d].entries, name)].inum;
    var u := Detach(t, d, Find(t[d].entries, name));
    assert |u| == |t| && u[i].ref == t[i].ref && u[d].ref == t[d].ref;
  }

  lemma {:induction false} MakeTakes(t: Tree, d: nat, name: string, kind: Kind, x: nat)
    requires Kept(t) && d < |t| && x < |t| && MakeAt(t, d, name, kind).Done?
    ensures |MakeAt(t, d, name, kind).tree| == |t|
    ensures var r := MakeAt(t, d, name, kind); r.tree[x].ref == t[x].ref + if r.inum == x then 1 else 0
  {
    if Find(t[d].entries, name) == |t[d].entries| {
      var i := FreeFrom(t, 1);
      NamedTakes(t[i := Fresh(kind, i, d)], d, name, i, x);
    }
  }

  lemma {:induction false} CallTakes(t: Tree, c: Call, i: nat)
    requires Kept(t) && May(t, c) && Do(t, c).Done? && i < |t|
    ensures |Do(t, c).tree| == |t| && Do(t, c).tree[i].ref == t[i].ref + Taken(t, c, i)
  {
    match c
    case Link(cwd, from, to) =>
      ParentIsDirectory(t, Start(cwd, to), to.elems);
      NamedTakes(t, NameiParent(t, cwd, to).inum, Last(to), Namei(t, cwd, from).inum, i);
    case Unlink(cwd, path) =>
      ParentIsDirectory(t, Start(cwd, path), path.elems);
      UnlinkTakes(t, NameiParent(t, cwd, path).inum, Last(path), i);
    case Make(cwd, path, kind) =>
      ParentIsDirectory(t, Start(cwd, path), path.elems);
      MakeTakes(t, NameiParent(t, cwd, path).inum, Last(path), kind, i);
    case _ =>
  }

  lemma {:induction false} RunTakes(t: Tree, cs: seq<Call>, u: Tree, i: nat)
    requires Sound(t) && Kept(t) && Run(t, cs, u, false) && i < |t|
    ensures |u| == |t| && u[i].ref == t[i].ref + AllTaken(t, cs, u, i)
    decreases |cs|
  {
    if cs != [] {
      match Do(t, cs[0])
      case Failed => RunTakes(t, cs[1..], u, i);
      case Done(v, _) =>
        CallTakes(t, cs[0], i);
        CallKeepsIff(t, cs[0]);
        RunTakes(v, cs[1..], u, i);
    }
  }

  /** In every such run an inode has one reference for each open, create and dup that gave it and is not closed. */
  lemma RunsCountRefs(n: nat, unused: nat, cs: seq<Call>, u: Tree, i: nat)
    requires n > ROOT && Run(Boot(n, unused), cs, u, false) && 1 <= i < n
    ensures |u| == n && u[i].ref == (if i == ROOT then 1 else 0) + AllTaken(Boot(n, unused), cs, u, i)
  {
    BootSound(n, unused);
    RunTakes(Boot(n, unused), cs, u, i);
  }

  // ---- unlink undoes link

  lemma DetachUndoesAttach(t: Tree, d: nat, k: nat, name: string, i: nat)
    requires d < |t| && i < |t| && d != i && k <= |t[d].entries| && t[i].kind != Directory
    ensures k < |Attach(t, d, k, name, i)[d].entries| && Attach(t, d, k, name, i)[d].entries[k] == Entry(i, name)
    ensures Detach(Attach(t, d, k, name, i), d, k) ==
              t[d := t[d].(entries := WithEntry(t[d].entries, k, NOENTRY))]
  {
    AttachIs(t, d, k, name, i);
    var u := Attach(t, d, k, name, i);
    assert u[d].entries[k := NOENTRY] == WithEntry(t[d].entries, k, NOENTRY);
  }

  /** Unlinking what was just linked gives back every inode, but for the entry that is now unused. */
  lemma UnlinkUndoesLink(t: Tree, cwd: nat, from: Path, to: Path)
    requires Sound(t) && Kept(t) && LinkCall(t, cwd, from, to).Done?
    ensures var d := NameiParent(t, cwd, to).inum;
            && d < |t|
            && UnlinkCall(LinkCall(t, cwd, from, to).tree, cwd, to) ==
                 Done(t[d := t[d].(entries := WithEntry(t[d].entries, Slot(t[d].entries), NOENTRY))],
                      Namei(t, cwd, from).inum)
  {
    LinkDone(t, cwd, from, to);
    var d, i := NameiParent(t, cwd, to).inum, Namei(t, cwd, from).inum;
    var k := Slot(t[d].entries);
    var u := Attach(t, d, k, Last(to), i);
    WalkAfter(t, d, Last(to), i, Start(cwd, to), to.elems, true);
    FindNew(t, d, Last(to), i);
    DetachUndoesAttach(t, d, k, Last(to), i);
    AttachIs(t, d, k, Last(to), i);
  }

  // ---- where the code fails

  /** In a linked directory the name being linked leads back to that directory, whose lock the call holds. */
  lemma OwnNameIff(t: Tree, d: nat, name: string)
    requires Sound(t) && Linked(t, d)
    ensures (var k := Find(t[d].entries, name); k < |t[d].entries| && t[d].entries[k].inum == d) <==>
              name == DOT || (name == DOTDOT && d == ROOT)
  {
    assert DirOk(t, d) && Rooted(t, d);
    var k := Find(t[d].entries, name);
    FindEntry(t, d, 0);
    FindEntry(t, d, 1);
    if k < |t[d].entries| && k >= 2 {
      NotItself(t, d, k);
    }
    if Up(t, d) == d {
      var n: nat :| Climbs(t, d, n);
      OnlyRootIsItsParent(t, d, n);
    }
  }

  /**
   * link(f, ".") looks up "." in the current directory, which it has locked, and then waits for that lock when it drops
   * what it found: always, in a linked directory or a removed one.
   */
  lemma {:induction false} LinkToDotHangs(t: Tree, cwd: nat, from: Path)
    requires Shape(t) && 1 <= cwd < |t| && t[cwd].kind == Directory && Namei(t, cwd, from).At?
    requires Usable(t, Namei(t, cwd, from).inum) && t[Namei(t, cwd, from).inum].kind != Directory
    ensures LinkCall(t, cwd, from, Path(false, [DOT])) == Stuck
  {
    assert DirOk(t, cwd);
    assert t[cwd].entries[0] == Entry(cwd, DOT);
    assert Find(t[cwd].entries, DOT) == 0;
  }

  const A := Path(false, ["a"])
  const F := Path(false, ["f"])

  function RootDir(nlink: int, third: Entry): Inode { Inode(Directory, nlink, Dots(ROOT, ROOT) + [third], 1) }

  function WithA(): Tree { [UNUSED, RootDir(2, Entry(2, "a")), Inode(Directory, 1, Dots(2, ROOT), 1), UNUSED] }

  function WithoutA(): Tree { [UNUSED, RootDir(1, NOENTRY), Inode(Directory, 0, Dots(2, ROOT), 1), UNUSED] }

  function WithF(refs: nat): Tree {
    [UNUSED, RootDir(1, NOENTRY), Inode(Directory, 0, Dots(2, ROOT) + [Entry(3, "f")], 1), Inode(Plain, 1, [], refs)]
  }

  function Lost(): Tree { [UNUSED, RootDir(1, NOENTRY), UNUSED, Inode(Plain, 1, [], 0)] }

  lemma MakesA()
    ensures Do(Boot(4, 1), Make(ROOT, A, Directory)) == Done(WithA(), 2)
  {
    var t := Boot(4, 1);
    assert seq(1, _ => NOENTRY) == [NOENTRY] && seq(2, _ => UNUSED) == [UNUSED, UNUSED];
    assert t == [UNUSED, RootDir(1, NOENTRY), UNUSED, UNUSED];
    var es := t[ROOT].entries;
    assert es == [Entry(ROOT, DOT), Entry(ROOT, DOTDOT), NOENTRY];
    assert Find(es, "a") == 3 && Slot(es) == 2 && FreeFrom(t, 1) == 2;
    assert WithEntry(es, 2, Entry(2, "a")) == Dots(ROOT, ROOT) + [Entry(2, "a")];
    assert Named(t[2 := Fresh(Directory, 2, ROOT)], ROOT, "a", 2).Done?;
  }

  lemma UnlinksA()
    ensures Do(WithA(), Unlink(ROOT, A)) == Done(WithoutA(), 2)
  {
    var es := WithA()[ROOT].entries;
    assert es == [Entry(ROOT, DOT), Entry(ROOT, DOTDOT), Entry(2, "a")];
    assert es[2].name == "a";
    assert es[2 := NOENTRY] == Dots(ROOT, ROOT) + [NOENTRY];
  }

  lemma MakesF()
    ensures Do(WithoutA(), Make(2, F, Plain)) == Done(WithF(1), 3)
  {
    var t := WithoutA();
    var es := t[2].entries;
    assert es == [Entry(2, DOT), Entry(ROOT, DOTDOT)];
    assert FreeFrom(t, 3) == 3;
    assert Find(es, "f") == 2 && Slot(es) == 2 && FreeFrom(t, 1) == 3;
    assert Named(t[3 := Fresh(Plain, 3, 2)], 2, "f", 3).Done?;
  }

  lemma ClosesBoth()
    ensures Do(WithF(1), Close(3)) == Done(WithF(0), 3) && Do(WithF(0), Close(2)) == Done(Lost(), 2)
  {
  }

  lemma Further(t: Tree, c: Call, cs: seq<Call>, v: Tree, i: nat, u: Tree, anywhere: bool)
    requires May(t, c) && Do(t, c) == Done(v, i) && Run(v, cs, u, anywhere) && (anywhere || InLinked(t, c))
    ensures Run(t, [c] + cs, u, anywhere)
  {
  }

  lemma LeadsToLost()
    ensures Run(WithoutA(), [Make(2, F, Plain)] + ([Close(3)] + ([Close(2)] + [])), Lost(), true)
  {
    MakesF();
    ClosesBoth();
    Further(WithF(0), Close(2), [], Lost(), 2, Lost(), true);
    Further(WithF(1), Close(3), [Close(2)] + [], WithF(0), 3, Lost(), true);
    Further(WithoutA(), Make(2, F, Plain), [Close(3)] + ([Close(2)] + []), WithF(1), 3, Lost(), true);
  }

  lemma LostHasNoName()
    ensures Names(Lost(), 3) == {}
  {
    assert forall x, k :: !NamesAt(Lost(), 3, x, k);
  }

  lemma LeadsFromA()
    ensures Run(WithA(), [Unlink(ROOT, A), Make(2, F, Plain), Close(3), Close(2)], Lost(), true)
  {
    LeadsToLost();
    UnlinksA();
    var rest := [Make(2, F, Plain)] + ([Close(3)] + ([Close(2)] + []));
    assert rest == [Make(2, F, Plain), Close(3), Close(2)];
    Further(WithA(), Unlink(ROOT, A), rest, WithoutA(), 2, Lost(), true);
    assert [Unlink(ROOT, A)] + rest == [Unlink(ROOT, A), Make(2, F, Plain), Close(3), Close(2)];
  }

  /**
   * mkdir a with a as somebody's current directory, rmdir a, and create f there: once f and the directory are closed,
   * the directory is freed and inode 3 keeps a link that no directory has, so nothing can reach it or ever free it.
   */
  lemma FileIsLost()
    ensures Run(Boot(4, 1), [Make(ROOT, A, Directory), Unlink(ROOT, A), Make(2, F, Plain), Close(3), Close(2)], Lost(),
                true)
    ensures Lost()[3].kind == Plain && Lost()[3].nlink == 1 && Names(Lost(), 3) == {}
  {
    LostHasNoName();
    LeadsFromA();
    MakesA();
    var rest := [Unlink(ROOT, A), Make(2, F, Plain), Close(3), Close(2)];
    Further(Boot(4, 1), Make(ROOT, A, Directory), rest, WithA(), 2, Lost(), true);
    assert [Make(ROOT, A, Directory)] + rest ==
           [Make(ROOT, A, Directory), Unlink(ROOT, A), Make(2, F, Plain), Close(3), Close(2)];
  }

  const B := Path(false, ["b"])
  const AB := Path(false, ["a", "b"])
  const UP := Path(false, [DOTDOT])

  function WithB(refs: nat): Tree {
    [UNUSED, RootDir(2, Entry(2, "a")), Inode(Directory, 2, Dots(2, ROOT) + [Entry(3, "b")], refs),
     Inode(Directory, 1, Dots(3, 2), 1)]
  }

  function WithoutB(): Tree {
    [UNUSED, RootDir(2, Entry(2, "a")), Inode(Directory, 1, Dots(2, ROOT) + [NOENTRY], 0),
     Inode(Directory, 0, Dots(3, 2), 1)]
  }

  function Dangling(): Tree { [UNUSED, RootDir(1, NOENTRY), UNUSED, Inode(Directory, 0, Dots(3, 2), 1)] }

  lemma MakesB()
    ensures Do(WithA(), Make(2, B, Directory)) == Done(WithB(1), 3)
    ensures Do(WithB(1), Close(2)) == Done(WithB(0), 2)
  {
    var t := WithA();
    var es := t[2].entries;
    assert es == [Entry(2, DOT), Entry(ROOT, DOTDOT)];
    assert FreeFrom(t, 3) == 3;
    assert Find(es, "b") == 2 && Slot(es) == 2 && FreeFrom(t, 1) == 3;
    assert Named(t[3 := Fresh(Directory, 3, 2)], 2, "b", 3).Done?;
  }

  lemma UnlinksB()
    ensures Do(WithB(0), Unlink(ROOT, AB)) == Done(WithoutB(), 3)
  {
    var t := WithB(0);
    var es, fs := t[ROOT].entries, t[2].entries;
    assert es[2].name == "a" && fs[2].name == "b";
    assert Find(es, "a") == 2 && Find(fs, "b") == 2;
    assert AB.elems[1..] == ["b"];
    assert Namex(t, 2, ["b"], true) == At(2);
    assert fs[2 := NOENTRY] == Dots(2, ROOT) + [NOENTRY];
  }

  lemma UnlinksEmptyA()
    ensures Do(WithoutB(), Unlink(ROOT, A)) == Done(Dangling(), 2)
  {
    var es := WithoutB()[ROOT].entries;
    assert es[2].name == "a";
    assert Find(es, "a") == 2;
    assert es[2 := NOENTRY] == Dots(ROOT, ROOT) + [NOENTRY];
  }

  lemma UpPanics()
    ensures Do(Dangling(), Open(3, UP, false)) == Stuck
  {
    var es := Dangling()[3].entries;
    assert es[1].name == DOTDOT;
    assert Find(es, DOTDOT) == 1;
    assert UP.elems[1..] == [];
    assert Namex(Dangling(), 3, UP.elems, false) == At(2);
  }

  lemma LeadsToDangling()
    ensures Run(WithA(), [Make(2, B, Directory)] + ([Close(2)] + ([Unlink(ROOT, AB)] + ([Unlink(ROOT, A)] + []))),
                Dangling(), false)
  {
    UnlinksEmptyA();
    Further(WithoutB(), Unlink(ROOT, A), [], Dangling(), 2, Dangling(), false);
    UnlinksB();
    Further(WithB(0), Unlink(ROOT, AB), [Unlink(ROOT, A)] + [], WithoutB(), 3, Dangling(), false);
    MakesB();
    Further(WithB(1), Close(2), [Unlink(ROOT, AB)] + ([Unlink(ROOT, A)] + []), WithB(0), 2, Dangling(), false);
    Further(WithA(), Make(2, B, Directory), [Close(2)] + ([Unlink(ROOT, AB)] + ([Unlink(ROOT, A)] + [])), WithB(1), 3,
            Dangling(), false);
  }

  /** With a/b as a current directory, rmdir a/b and rmdir a free the inode its ".." names: opening it panics. */
  lemma DotDotPanics()
    ensures Run(Boot(4, 1), [Make(ROOT, A, Directory), Make(2, B, Directory), Close(2), Unlink(ROOT, AB),
                             Unlink(ROOT, A)], Dangling(), false)
    ensures Do(Dangling(), Open(3, UP, false)) == Stuck
  {
    UpPanics();
    LeadsToDangling();
    MakesA();
    var rest := [Make(2, B, Directory)] + ([Close(2)] + ([Unlink(ROOT, AB)] + ([Unlink(ROOT, A)] + [])));
    assert InLinked(Boot(4, 1), Make(ROOT, A, Directory));
    Further(Boot(4, 1), Make(ROOT, A, Directory), rest, WithA(), 2, Dangling(), false);
    assert [Make(ROOT, A, Directory), Make(2, B, Directory), Close(2), Unlink(ROOT, AB), Unlink(ROOT, A)] ==
           [Make(ROOT, A, Directory)] + rest;
  }
}
