/**
 * Directories and link counts. An inode is here what sysfile.c keeps about it: its type, its link count, its directory
 * entries, and how many references the inode cache holds for it. Every system call is one step.
 */
module LinkTree {

  const ROOT := 1

  /** What a directory of MAXFILE blocks holds. */
  const MAXENTRIES := 4480

  const DOT := "."
  const DOTDOT := ".."

  datatype Kind = Free | Directory | Plain | Device

  datatype Entry = Entry(inum: nat, name: string)

  datatype Inode = Inode(kind: Kind, nlink: int, entries: seq<Entry>, ref: nat)

  const NOENTRY := Entry(0, "")
  const UNUSED := Inode(Free, 0, [], 0)

  type Tree = seq<Inode>

  /** A place in a directory: which one, and which of its entries. */
  datatype Place = Place(dir: nat, k: nat)

  // ---- what a directory says

  /** Where the name is, or the number of entries. */
  function Find(es: seq<Entry>, name: string): (k: nat)
    ensures k <= |es| && (k < |es| ==> es[k].inum != 0 && es[k].name == name)
    ensures forall j :: 0 <= j < k ==> es[j].inum == 0 || es[j].name != name
  {
    if es == [] || (es[0].inum != 0 && es[0].name == name) then 0 else 1 + Find(es[1..], name)
  }

  /** Where the first unused entry is, or the number of entries. */
  function Slot(es: seq<Entry>): (k: nat)
    ensures k <= |es| && (k < |es| ==> es[k].inum == 0)
    ensures forall j :: 0 <= j < k ==> es[j].inum != 0
  {
    if es == [] || es[0].inum == 0 then 0 else 1 + Slot(es[1..])
  }

  predicate Empty(es: seq<Entry>) { forall k :: 2 <= k < |es| ==> es[k].inum == 0 }

  function WithEntry(es: seq<Entry>, k: nat, e: Entry): (r: seq<Entry>)
    requires k <= |es|
    ensures |r| == (if k < |es| then |es| else k + 1) && r[k] == e
    ensures forall j :: 0 <= j < |es| && j != k ==> r[j] == es[j]
  {
    if k < |es| then es[k := e] else es + [e]
  }

  function Dots(i: nat, d: nat): seq<Entry> { [Entry(i, DOT), Entry(d, DOTDOT)] }

  // ---- walking a path

  datatype Path = Path(absolute: bool, elems: seq<string>)

  /** What namei and nameiparent come to. They panic on an inode that is free. */
  datatype Found = Panics | Missing | At(inum: nat)

  function Namex(t: Tree, i: nat, elems: seq<string>, parent: bool): Found
    decreases |elems|
  {
    if elems == [] then (if parent then Missing else At(i))
    else if i >= |t| || t[i].kind == Free then Panics
    else if t[i].kind != Directory then Missing
    else if parent && |elems| == 1 then At(i)
    else
      var es := t[i].entries;
      var k := Find(es, elems[0]);
      if k == |es| then Missing else Namex(t, es[k].inum, elems[1..], parent)
  }

  function Start(cwd: nat, path: Path): nat { if path.absolute then ROOT else cwd }

  function Namei(t: Tree, cwd: nat, path: Path): Found { Namex(t, Start(cwd, path), path.elems, false) }

  function NameiParent(t: Tree, cwd: nat, path: Path): Found { Namex(t, Start(cwd, path), path.elems, true) }

  function Last(path: Path): string
    requires path.elems != []
  {
    path.elems[|path.elems| - 1]
  }

  // ---- what every call keeps

  predicate Linked(t: Tree, d: nat) { d < |t| && t[d].kind == Directory && t[d].nlink >= 1 }

  predicate NamesAt(t: Tree, i: nat, x: nat, k: nat) {
    Linked(t, x) && k < |t[x].entries| && t[x].entries[k].inum == i && t[x].entries[k].name != DOT
  }

  /** The entries other than "." that name inode i in the directories that are themselves linked. */
  ghost function Names(t: Tree, i: nat): set<Place> {
    set x: nat, k: nat | x < |t| && k < |t[x].entries| && NamesAt(t, i, x, k) :: Place(x, k)
  }

  ghost predicate Counted(t: Tree, i: nat)
    requires i < |t|
  {
    t[i].nlink == |Names(t, i)|
  }

  /** "." and ".." come first, no name occurs twice, and a directory that is no longer linked is empty. */
  predicate DirOk(t: Tree, d: nat)
    requires d < |t|
  {
    var es := t[d].entries;
    && |es| >= 2 && es[0] == Entry(d, DOT) && es[1].name == DOTDOT && 1 <= es[1].inum
    && (forall k :: 0 <= k < |es| ==> es[k].inum < |t|)
    && (forall k :: 2 <= k < |es| && es[k].inum != 0 ==> es[k].name != DOT && es[k].name != DOTDOT)
    && (forall j, k :: 2 <= j < k < |es| && es[j].inum != 0 && es[k].inum != 0 ==> es[j].name != es[k].name)
    && (t[d].nlink < 1 ==> Empty(es))
  }

  predicate Shape(t: Tree) {
    && |t| > ROOT
    && t[0] == UNUSED
    && (forall d :: 0 <= d < |t| && t[d].kind == Directory ==> DirOk(t, d))
    && (forall i :: 0 <= i < |t| && t[i].kind != Directory ==> t[i].entries == [])
  }

  /** Where ".." leads. */
  function Up(t: Tree, d: nat): nat { if d < |t| && |t[d].entries| >= 2 then t[d].entries[1].inum else 0 }

  /** A directory named by entry k of d has d for "..", and d names it only there. */
  predicate ChildOk(t: Tree, d: nat, k: nat)
    requires d < |t| && k < |t[d].entries|
  {
    var es := t[d].entries;
    var i := es[k].inum;
    i < |t| && t[i].kind == Directory ==>
      && i != ROOT && Up(t, i) == d
      && (forall j :: 2 <= j < |es| && j != k ==> es[j].inum != i)
  }

  predicate Has(t: Tree, d: nat, i: nat) {
    d < |t| && exists k :: 2 <= k < |t[d].entries| && t[d].entries[k].inum == i
  }

  predicate ParentOk(t: Tree, c: nat) { c != ROOT ==> Linked(t, Up(t, c)) && Has(t, Up(t, c), c) }

  /** From directory d, ".." leads to the root in at most n steps. */
  predicate Climbs(t: Tree, d: nat, n: nat)
    decreases n
  {
    Linked(t, d) && (d == ROOT || (n > 0 && Climbs(t, Up(t, d), n - 1)))
  }

  ghost predicate Rooted(t: Tree, d: nat) { exists n :: Climbs(t, d, n) }

  ghost predicate Sound(t: Tree) {
    && Shape(t)
    && Linked(t, ROOT) && Up(t, ROOT) == ROOT
    && (forall i :: 1 <= i < |t| ==> Counted(t, i))
    && (forall d: nat, k: nat :: Linked(t, d) && 2 <= k < |t[d].entries| ==> ChildOk(t, d, k))
    && (forall c: nat :: Linked(t, c) ==> ParentOk(t, c))
    && (forall c: nat :: Linked(t, c) ==> Rooted(t, c))
  }

  /** An inode is allocated exactly while it has a link or a reference. */
  predicate Kept(t: Tree) {
    forall i :: 0 <= i < |t| ==>
      && t[i].nlink >= 0
      && if t[i].kind == Free then t[i] == UNUSED else t[i].nlink > 0 || t[i].ref > 0
  }

  // ---- consequences

  lemma NamedIsLinked(t: Tree, i: nat, x: nat, k: nat)
    requires Sound(t) && 1 <= i < |t| && NamesAt(t, i, x, k)
    ensures t[i].nlink >= 1
  {
    assert Place(x, k) in Names(t, i);
    assert Counted(t, i);
    assert Names(t, i) != {};
  }

  lemma OrphanUnnamed(t: Tree, i: nat)
    requires Sound(t) && 1 <= i < |t| && t[i].nlink == 0
    ensures forall x, k :: !NamesAt(t, i, x, k)
  {
    forall x, k ensures !NamesAt(t, i, x, k) {
      if NamesAt(t, i, x, k) {
        NamedIsLinked(t, i, x, k);
      }
    }
  }

  /** An entry of a linked directory names an inode with a link, never a free one. */
  lemma EntryIsLive(t: Tree, d: nat, k: nat)
    requires Sound(t) && Kept(t) && Linked(t, d) && k < |t[d].entries| && t[d].entries[k].inum != 0
    ensures t[d].entries[k].inum < |t|
    ensures t[t[d].entries[k].inum].nlink >= 1 && t[t[d].entries[k].inum].kind != Free
  {
    if k > 0 {
      assert NamesAt(t, t[d].entries[k].inum, d, k);
      NamedIsLinked(t, t[d].entries[k].inum, d, k);
    }
  }

  /** A walk that starts at an inode with a link never panics, and ends at one with a link. */
  lemma {:induction false} WalkIsSafe(t: Tree, i: nat, elems: seq<string>, parent: bool)
    requires Sound(t) && Kept(t) && 1 <= i < |t| && t[i].nlink >= 1
    ensures Namex(t, i, elems, parent) != Panics
    ensures Namex(t, i, elems, parent).At? ==>
              1 <= Namex(t, i, elems, parent).inum < |t| && t[Namex(t, i, elems, parent).inum].nlink >= 1
    decreases |elems|
  {
    if elems != [] && t[i].kind == Directory && !(parent && |elems| == 1) {
      var k := Find(t[i].entries, elems[0]);
      if k < |t[i].entries| {
        EntryIsLive(t, i, k);
        WalkIsSafe(t, t[i].entries[k].inum, elems[1..], parent);
      }
    }
  }

  // ---- when a walk leaves the tree

  predicate Usable(t: Tree, i: nat) { i < |t| && t[i].kind != Free }

  /** The n-th step of ".." from d is the first to lead to a free inode; it leads there through removed directories. */
  predicate Drops(t: Tree, d: nat, n: nat)
    decreases n
  {
    if n == 0 then !Usable(t, d)
    else Usable(t, d) && t[d].kind == Directory && t[d].nlink < 1 && Drops(t, Up(t, d), n - 1)
  }

  predicate IsDot(name: string) { name == DOT || name == DOTDOT }

  predicate Dotted(elems: seq<string>) { elems == [] || (IsDot(elems[0]) && Dotted(elems[1..])) }

  function Ups(elems: seq<string>): nat {
    if elems == [] then 0 else (if elems[0] == DOTDOT then 1 else 0) + Ups(elems[1..])
  }

  /** The first k names of the path are "." and "..", with as many ".." as lead from d to a free inode. */
  predicate DropsAt(t: Tree, d: nat, elems: seq<string>, k: nat) {
    k <= |elems| && Dotted(elems[..k]) && Drops(t, d, Ups(elems[..k]))
  }

  /** It happens within fewer than m names. */
  ghost predicate Falls(t: Tree, d: nat, elems: seq<string>, m: nat) {
    exists k: nat :: k < m && DropsAt(t, d, elems, k)
  }

  lemma {:induction false} DropsLater(t: Tree, d: nat, elems: seq<string>, k: nat)
    requires elems != [] && k < |elems| && Usable(t, d) && t[d].kind == Directory && t[d].nlink < 1
    ensures elems[0] == DOT ==> (DropsAt(t, d, elems, k + 1) <==> DropsAt(t, d, elems[1..], k))
    ensures elems[0] == DOTDOT ==> (DropsAt(t, d, elems, k + 1) <==> DropsAt(t, Up(t, d), elems[1..], k))
    ensures !IsDot(elems[0]) ==> !DropsAt(t, d, elems, k + 1)
  {
    assert elems[..k + 1][1..] == elems[1..][..k];
  }

  lemma {:induction false} FallsLater(t: Tree, d: nat, elems: seq<string>, m: nat)
    requires elems != [] && m <= |elems| && Usable(t, d) && t[d].kind == Directory && t[d].nlink < 1
    ensures var next := if elems[0] == DOT then d else Up(t, d);
            Falls(t, d, elems, m + 1) <==> IsDot(elems[0]) && Falls(t, next, elems[1..], m)
  {
    var next := if elems[0] == DOT then d else Up(t, d);
    assert elems[..0] == [] && !DropsAt(t, d, elems, 0);
    if Falls(t, d, elems, m + 1) {
      var k: nat :| k < m + 1 && DropsAt(t, d, elems, k);
      DropsLater(t, d, elems, k - 1);
      assert DropsAt(t, next, elems[1..], k - 1);
    }
    if IsDot(elems[0]) && Falls(t, next, elems[1..], m) {
      var k: nat :| k < m && DropsAt(t, next, elems[1..], k);
      DropsLater(t, d, elems, k);
      assert DropsAt(t, d, elems, k + 1);
    }
  }

  /** Only a removed directory leads to a free inode. */
  lemma {:induction false} NoFall(t: Tree, d: nat, elems: seq<string>, m: nat)
    requires Usable(t, d) && (t[d].kind != Directory || t[d].nlink >= 1)
    ensures !Falls(t, d, elems, m)
  {
  }

  /** A removed directory has its two dots and nothing else. */
  lemma {:induction false} OrphanFind(t: Tree, d: nat, name: string)
    requires Shape(t) && 1 <= d < |t| && t[d].kind == Directory && t[d].nlink < 1
    ensures Find(t[d].entries, name) ==
              if name == DOT then 0 else if name == DOTDOT then 1 else |t[d].entries|
  {
    assert DirOk(t, d);
    var es := t[d].entries;
    assert es[0].name == DOT && es[1].name == DOTDOT;
  }

  /** A walk that has come to a free inode, or stops at one. */
  predicate Stops(t: Tree, f: Found) { f == Panics || (f.At? && !Usable(t, f.inum)) }

  /**
   * A walk panics exactly if "." and ".." lead it to a free inode with some of the path still to go, and stops at a
   * free inode exactly if they do with all of it.
   */
  lemma {:induction false} WalkFallsIff(t: Tree, i: nat, elems: seq<string>, parent: bool)
    requires Sound(t) && Kept(t) && 1 <= i < |t|
    ensures Namex(t, i, elems, parent) == Panics <==> Falls(t, i, elems, |elems|)
    ensures Stops(t, Namex(t, i, elems, false)) <==> Falls(t, i, elems, |elems| + 1)
    decreases |elems|
  {
    if !Usable(t, i) {
      assert elems[..0] == [];
      assert DropsAt(t, i, elems, 0);
    } else if t[i].kind != Directory || t[i].nlink >= 1 {
      NoFall(t, i, elems, |elems|);
      NoFall(t, i, elems, |elems| + 1);
      if t[i].nlink >= 1 {
        WalkIsSafe(t, i, elems, parent);
        WalkIsSafe(t, i, elems, false);
      }
    } else if elems == [] {
      assert !DropsAt(t, i, elems, 0);
    } else {
      assert DirOk(t, i);
      OrphanFind(t, i, elems[0]);
      FallsLater(t, i, elems, |elems| - 1);
      FallsLater(t, i, elems, |elems|);
      if IsDot(elems[0]) {
        WalkFallsIff(t, if elems[0] == DOT then i else Up(t, i), elems[1..], parent);
      }
    }
  }

  /** A walk depends on types and entries alone. */
  lemma {:induction false} SameWalk(t: Tree, u: Tree, i: nat, elems: seq<string>, parent: bool)
    requires |u| == |t|
    requires forall x :: 0 <= x < |t| ==> u[x].kind == t[x].kind && u[x].entries == t[x].entries
    ensures Namex(u, i, elems, parent) == Namex(t, i, elems, parent)
    decreases |elems|
  {
    if elems != [] && i < |t| && t[i].kind == Directory && !(parent && |elems| == 1) {
      var es := t[i].entries;
      var k := Find(es, elems[0]);
      if k < |es| {
        SameWalk(t, u, es[k].inum, elems[1..], parent);
      }
    }
  }

  lemma {:induction false} WalkThen(t: Tree, i: nat, a: seq<string>, b: seq<string>)
    requires Namex(t, i, a, false).At?
    ensures Namex(t, i, a + b, false) == Namex(t, Namex(t, i, a, false).inum, b, false)
    decreases |a|
  {
    if a == [] {
      assert a + b == b;
    } else {
      assert (a + b)[1..] == a[1..] + b;
      WalkThen(t, t[i].entries[Find(t[i].entries, a[0])].inum, a[1..], b);
    }
  }

  /** In a linked directory every entry is found under its own name. */
  lemma FindEntry(t: Tree, d: nat, k: nat)
    requires Shape(t) && Linked(t, d) && k < |t[d].entries| && t[d].entries[k].inum != 0
    ensures Find(t[d].entries, t[d].entries[k].name) == k
  {
    assert DirOk(t, d);
  }

  lemma WalkOne(t: Tree, d: nat, k: nat)
    requires Shape(t) && Linked(t, d) && k < |t[d].entries| && t[d].entries[k].inum != 0
    ensures Namex(t, d, [t[d].entries[k].name], false) == At(t[d].entries[k].inum)
  {
    FindEntry(t, d, k);
  }

  ghost predicate Reachable(t: Tree, i: nat) { exists elems :: Namex(t, ROOT, elems, false) == At(i) }

  lemma StepReachable(t: Tree, d: nat, k: nat)
    requires Shape(t) && Linked(t, d) && k < |t[d].entries| && t[d].entries[k].inum != 0
    requires Reachable(t, d)
    ensures Reachable(t, t[d].entries[k].inum)
  {
    var elems :| Namex(t, ROOT, elems, false) == At(d);
    WalkThen(t, ROOT, elems, [t[d].entries[k].name]);
    WalkOne(t, d, k);
  }

  lemma {:induction false} DirReachable(t: Tree, d: nat, n: nat)
    requires Sound(t) && Climbs(t, d, n)
    ensures Reachable(t, d)
    decreases n
  {
    if d == ROOT {
      assert Namex(t, ROOT, [], false) == At(ROOT);
    } else {
      DirReachable(t, Up(t, d), n - 1);
      assert ParentOk(t, d);
      var k :| 2 <= k < |t[Up(t, d)].entries| && t[Up(t, d)].entries[k].inum == d;
      StepReachable(t, Up(t, d), k);
    }
  }

  /** Nothing is lost and nothing dangles: an inode has a link exactly if some absolute path leads to it. */
  lemma LinkedIffReachable(t: Tree, i: nat)
    requires Sound(t) && Kept(t) && 1 <= i < |t|
    ensures t[i].nlink >= 1 <==> Reachable(t, i)
  {
    if Reachable(t, i) {
      var elems :| Namex(t, ROOT, elems, false) == At(i);
      WalkIsSafe(t, ROOT, elems, false);
    }
    if t[i].nlink >= 1 {
      assert Counted(t, i);
      assert Names(t, i) != {};
      var p :| p in Names(t, i);
      assert Rooted(t, p.dir);
      var n :| Climbs(t, p.dir, n);
      DirReachable(t, p.dir, n);
      StepReachable(t, p.dir, p.k);
    }
  }

  // ---- references

  /** The two trees differ only in how many references the inode cache holds. */
  predicate Alike(t: Tree, u: Tree) {
    |u| == |t| && forall i :: 0 <= i < |t| ==> u[i] == t[i].(ref := u[i].ref)
  }

  /** What is left of the old tree still leads upwards the way it did. */
  ghost predicate SameWay(t: Tree, u: Tree, x: nat) {
    Linked(t, x) && Linked(u, x) && x != ROOT && Linked(t, Up(t, x)) ==> Linked(u, Up(t, x)) && Up(u, x) == Up(t, x)
  }

  lemma {:induction false} ClimbsStays(t: Tree, u: Tree, d: nat, n: nat)
    requires Climbs(t, d, n) && Linked(u, d)
    requires forall x: nat :: SameWay(t, u, x)
    ensures Climbs(u, d, n)
    decreases n
  {
    if d != ROOT {
      assert SameWay(t, u, d);
      ClimbsStays(t, u, Up(t, d), n - 1);
    }
  }

  lemma RootedStays(t: Tree, u: Tree, d: nat)
    requires Rooted(t, d) && Linked(u, d)
    requires forall x: nat :: SameWay(t, u, x)
    ensures Rooted(u, d)
  {
    var n: nat :| Climbs(t, d, n);
    ClimbsStays(t, u, d, n);
  }

  lemma AlikeShape(t: Tree, u: Tree)
    requires Shape(t) && Alike(t, u) && u[0] == UNUSED
    ensures Shape(u)
  {
    forall d | 0 <= d < |u| && u[d].kind == Directory ensures DirOk(u, d) {
      assert DirOk(t, d);
    }
  }

  lemma AlikeSound(t: Tree, u: Tree)
    requires Sound(t) && Alike(t, u) && u[0] == UNUSED
    ensures Sound(u)
  {
    AlikeShape(t, u);
    forall i | 1 <= i < |u| ensures Counted(u, i) {
      assert Counted(t, i);
      assert Names(u, i) == Names(t, i);
    }
    forall d: nat, k: nat | Linked(u, d) && 2 <= k < |u[d].entries| ensures ChildOk(u, d, k) {
      assert ChildOk(t, d, k);
    }
    forall c: nat | Linked(u, c) ensures ParentOk(u, c) && Rooted(u, c) {
      assert ParentOk(t, c) && Rooted(t, c);
      RootedStays(t, u, c);
      if c != ROOT {
        var k :| 2 <= k < |t[Up(t, c)].entries| && t[Up(t, c)].entries[k].inum == c;
        assert u[Up(u, c)].entries[k].inum == c;
      }
    }
  }

  // ---- making a name

  /** Directory d gets the name for inode i in its entry k, and both counts that depend on it go up. */
  function Attach(t: Tree, d: nat, k: nat, name: string, i: nat): Tree
    requires d < |t| && i < |t| && d != i && k <= |t[d].entries|
  {
    var up := if t[i].kind == Directory then 1 else 0;
    t[d := t[d].(entries := WithEntry(t[d].entries, k, Entry(i, name)), nlink := t[d].nlink + up)]
     [i := t[i].(nlink := t[i].nlink + 1)]
  }

  /** The name is not there, entry k is unused, and i is not free; as a directory it is new and made for d. */
  predicate CanAttach(t: Tree, d: nat, k: nat, name: string, i: nat)
    requires Shape(t)
  {
    && d < |t| && t[d].kind == Directory && k == Slot(t[d].entries) && Find(t[d].entries, name) == |t[d].entries|
    && 1 <= i < |t| && i != d && i != ROOT && t[i].kind != Free
    && (t[i].kind == Directory ==> t[i].nlink == 0 && t[i].entries == Dots(i, d))
  }

  /** The same, place by place. */
  predicate Attached(t: Tree, u: Tree, d: nat, k: nat, name: string, i: nat) {
    && |u| == |t| && d < |t| && i < |t| && d != i && k <= |t[d].entries|
    && (forall x :: 0 <= x < |t| && x != d && x != i ==> u[x] == t[x])
    && u[i] == t[i].(nlink := t[i].nlink + 1)
    && u[d].kind == t[d].kind && u[d].ref == t[d].ref
    && u[d].nlink == t[d].nlink + (if t[i].kind == Directory then 1 else 0)
    && |u[d].entries| == (if k < |t[d].entries| then |t[d].entries| else k + 1)
    && u[d].entries[k] == Entry(i, name)
    && (forall j :: 0 <= j < |t[d].entries| && j != k ==> u[d].entries[j] == t[d].entries[j])
  }

  lemma AttachIs(t: Tree, d: nat, k: nat, name: string, i: nat)
    requires d < |t| && i < |t| && d != i && k <= |t[d].entries|
    ensures Attached(t, Attach(t, d, k, name, i), d, k, name, i)
  {
  }

  lemma SlotPastDots(t: Tree, d: nat, k: nat, name: string, i: nat)
    requires Shape(t) && CanAttach(t, d, k, name, i)
    ensures 2 <= k <= |t[d].entries| && name != DOT && name != DOTDOT
    ensures k < |t[d].entries| ==> t[d].entries[k].inum == 0
  {
    assert DirOk(t, d);
    assert t[d].entries[0].inum != 0 && t[d].entries[1].inum != 0;
  }

  /** All that one entry of the new tree can depend on. */
  ghost predicate Attaching(t: Tree, u: Tree, d: nat, k: nat, name: string, i: nat) {
    && Attached(t, u, d, k, name, i) && Linked(t, d) && t[i].kind != Free && 1 <= i && i != ROOT
    && 2 <= k && name != DOT && name != DOTDOT && (k < |t[d].entries| ==> t[d].entries[k].inum == 0)
    && (t[i].kind == Directory ==> t[i].nlink == 0 && t[i].entries == Dots(i, d))
    && (t[i].kind != Directory ==> t[i].entries == [])
  }

  lemma AttachDirOk(t: Tree, u: Tree, d: nat, k: nat, name: string, i: nat, x: nat)
    requires Attaching(t, u, d, k, name, i) && x < |t| && DirOk(t, x)
    requires x == d ==> Find(t[d].entries, name) == |t[d].entries|
    ensures DirOk(u, x)
  {
    if x == d {
      assert forall j :: 0 <= j < |u[d].entries| && j != k ==> u[d].entries[j] == t[d].entries[j];
    }
  }

  lemma AttachShape(t: Tree, u: Tree, d: nat, k: nat, name: string, i: nat)
    requires Attaching(t, u, d, k, name, i) && Shape(t) && Find(t[d].entries, name) == |t[d].entries|
    ensures Shape(u)
  {
    forall x | 0 <= x < |u| && u[x].kind == Directory ensures DirOk(u, x) {
      AttachDirOk(t, u, d, k, name, i, x);
    }
  }

  lemma AttachNames(t: Tree, u: Tree, d: nat, k: nat, name: string, i: nat, z: nat, x: nat, j: nat)
    requires Attaching(t, u, d, k, name, i) && 1 <= z
    ensures NamesAt(u, z, x, j) <==>
              NamesAt(t, z, x, j) || (z == i && x == d && j == k)
              || (t[i].kind == Directory && z == d && x == i && j == 1)
    ensures !NamesAt(t, z, d, k) && (t[i].kind == Directory ==> !NamesAt(t, z, i, j))
  {
  }

  ghost predicate NamesGrow(t: Tree, u: Tree, z: nat, more: set<Place>) {
    forall x: nat, j: nat :: NamesAt(u, z, x, j) <==> NamesAt(t, z, x, j) || Place(x, j) in more
  }

  lemma NamesGrown(t: Tree, u: Tree, z: nat, more: set<Place>)
    requires NamesGrow(t, u, z, more)
    requires forall p :: p in more ==> !NamesAt(t, z, p.dir, p.k)
    ensures |Names(u, z)| == |Names(t, z)| + |more|
  {
    forall p | p in Names(t, z) + more ensures p in Names(u, z) {
      assert NamesAt(u, z, p.dir, p.k);
    }
    forall p | p in Names(u, z) ensures p in Names(t, z) + more {
      assert NamesAt(u, z, p.dir, p.k);
    }
    assert Names(u, z) == Names(t, z) + more && Names(t, z) !! more;
  }

  lemma AttachCounted(t: Tree, u: Tree, d: nat, k: nat, name: string, i: nat, z: nat)
    requires Attaching(t, u, d, k, name, i) && 1 <= z < |t| && Counted(t, z)
    ensures Counted(u, z)
  {
    var more := if z == i then {Place(d, k)} else if z == d && t[i].kind == Directory then {Place(i, 1)} else {};
    forall x: nat, j: nat ensures NamesAt(u, z, x, j) <==> NamesAt(t, z, x, j) || Place(x, j) in more {
      AttachNames(t, u, d, k, name, i, z, x, j);
    }
    AttachNames(t, u, d, k, name, i, z, d, 1);
    NamesGrown(t, u, z, more);
  }

  /** No entry of a linked directory names an inode that has no link yet. */
  lemma NoEntryYet(t: Tree, i: nat, x: nat, j: nat)
    requires Sound(t) && 1 <= i < |t| && t[i].nlink == 0 && Linked(t, x) && 2 <= j < |t[x].entries|
    ensures t[x].entries[j].inum != i
  {
    OrphanUnnamed(t, i);
    assert DirOk(t, x) && !NamesAt(t, i, x, j);
  }

  lemma AttachOldChild(t: Tree, u: Tree, d: nat, k: nat, name: string, i: nat, x: nat, j: nat)
    requires Attaching(t, u, d, k, name, i) && x < |t| && 2 <= j < |t[x].entries| && ChildOk(t, x, j)
    requires t[i].kind == Directory ==> t[x].entries[j].inum != i
    requires x != i && (x == d ==> j != k)
    ensures ChildOk(u, x, j)
  {
    assert u[x].entries[j] == t[x].entries[j];
  }

  lemma AttachNewChild(t: Tree, u: Tree, d: nat, k: nat, name: string, i: nat)
    requires Attaching(t, u, d, k, name, i)
    requires t[i].kind == Directory ==> forall j :: 2 <= j < |t[d].entries| ==> t[d].entries[j].inum != i
    ensures ChildOk(u, d, k)
  {
  }

  lemma AttachChildren(t: Tree, u: Tree, d: nat, k: nat, name: string, i: nat, x: nat, j: nat)
    requires Attaching(t, u, d, k, name, i) && Sound(t)
    requires Linked(u, x) && 2 <= j < |u[x].entries|
    ensures ChildOk(u, x, j)
  {
    assert x != i;
    if x == d && j == k {
      if t[i].kind == Directory {
        forall m | 2 <= m < |t[d].entries| ensures t[d].entries[m].inum != i {
          NoEntryYet(t, i, d, m);
        }
      }
      AttachNewChild(t, u, d, k, name, i);
    } else {
      if t[i].kind == Directory {
        NoEntryYet(t, i, x, j);
      }
      AttachOldChild(t, u, d, k, name, i, x, j);
    }
  }

  lemma AttachedUp(t: Tree, u: Tree, d: nat, k: nat, name: string, i: nat, x: nat)
    requires Attaching(t, u, d, k, name, i) && x < |t|
    ensures Up(u, x) == Up(t, x) && (Linked(t, x) ==> Linked(u, x))
  {
  }

  lemma AttachedHas(t: Tree, u: Tree, d: nat, k: nat, name: string, i: nat, p: nat, c: nat)
    requires Attaching(t, u, d, k, name, i) && c != 0 && Has(t, p, c)
    ensures Has(u, p, c)
  {
    var j :| 2 <= j < |t[p].entries| && t[p].entries[j].inum == c;
    assert u[p].entries[j].inum == c;
  }

  lemma AttachRooted(t: Tree, u: Tree, d: nat, k: nat, name: string, i: nat, c: nat)
    requires Attaching(t, u, d, k, name, i) && Rooted(t, c) && Linked(t, c)
    ensures Rooted(u, c)
  {
    forall x: nat ensures SameWay(t, u, x) {
      if x < |t| && Up(t, x) < |t| {
        AttachedUp(t, u, d, k, name, i, x);
        AttachedUp(t, u, d, k, name, i, Up(t, x));
      }
    }
    AttachedUp(t, u, d, k, name, i, c);
    RootedStays(t, u, c);
  }

  lemma AttachParents(t: Tree, u: Tree, d: nat, k: nat, name: string, i: nat, c: nat)
    requires Attaching(t, u, d, k, name, i) && Linked(u, c) && Rooted(t, d)
    requires Linked(t, c) ==> c != 0 && ParentOk(t, c) && Rooted(t, c)
    ensures ParentOk(u, c) && Rooted(u, c)
  {
    if Linked(t, c) {
      AttachRooted(t, u, d, k, name, i, c);
      if c != ROOT {
        AttachedUp(t, u, d, k, name, i, c);
        AttachedUp(t, u, d, k, name, i, Up(t, c));
        AttachedHas(t, u, d, k, name, i, Up(t, c), c);
      }
    } else {
      assert c == i && Up(u, i) == d && u[d].entries[k].inum == i;
      AttachRooted(t, u, d, k, name, i, d);
      var n: nat :| Climbs(u, d, n);
      var m: nat := n + 1;
      assert Climbs(u, i, m);
    }
  }

  lemma AttachSound(t: Tree, u: Tree, d: nat, k: nat, name: string, i: nat)
    requires Attaching(t, u, d, k, name, i) && Sound(t) && Find(t[d].entries, name) == |t[d].entries|
    ensures Sound(u)
  {
    AttachShape(t, u, d, k, name, i);
    AttachedUp(t, u, d, k, name, i, ROOT);
    forall z | 1 <= z < |u| ensures Counted(u, z) {
      AttachCounted(t, u, d, k, name, i, z);
    }
    forall x: nat, j: nat | Linked(u, x) && 2 <= j < |u[x].entries| ensures ChildOk(u, x, j) {
      AttachChildren(t, u, d, k, name, i, x, j);
    }
    forall c: nat | Linked(u, c) ensures ParentOk(u, c) && Rooted(u, c) {
      AttachParents(t, u, d, k, name, i, c);
    }
  }

  /** A file made in a removed directory has a link that no linked directory accounts for. */
  lemma FileInOrphan(t: Tree, u: Tree, d: nat, k: nat, name: string, i: nat)
    requires Attached(t, u, d, k, name, i) && !Linked(t, d) && t[i].kind != Directory && Counted(t, i)
    ensures !Counted(u, i)
  {
    assert NamesGrow(t, u, i, {});
    NamesGrown(t, u, i, {});
  }

  /** A directory made in a removed directory gives that one a link, though its own parent does not have it. */
  lemma DirectoryInOrphan(t: Tree, u: Tree, d: nat, k: nat, name: string, i: nat)
    requires Sound(t) && Attached(t, u, d, k, name, i) && 2 <= k && 1 <= d && t[d].nlink == 0 && Empty(t[d].entries)
    requires t[d].kind == Directory && t[i].kind == Directory && i != 0 && t[i].entries == Dots(i, d)
    ensures Linked(u, d) && d != ROOT && !ParentOk(u, d)
  {
    var p := Up(t, d);
    if Has(u, p, d) && Linked(u, p) {
      var j :| 2 <= j < |u[p].entries| && u[p].entries[j].inum == d;
      assert p != i && p != d;
      NoEntryYet(t, d, p, j);
    }
  }

  /** Making a name keeps everything sound exactly when the directory it is made in is still linked. */
  lemma AttachSoundIff(t: Tree, d: nat, k: nat, name: string, i: nat)
    requires Sound(t) && CanAttach(t, d, k, name, i)
    ensures k <= |t[d].entries| && (Sound(Attach(t, d, k, name, i)) <==> Linked(t, d))
  {
    var u := Attach(t, d, k, name, i);
    AttachIs(t, d, k, name, i);
    SlotPastDots(t, d, k, name, i);
    assert DirOk(t, d) && Counted(t, d) && Counted(t, i);
    if Linked(t, d) {
      AttachSound(t, u, d, k, name, i);
    } else if t[i].kind == Directory {
      DirectoryInOrphan(t, u, d, k, name, i);
    } else {
      FileInOrphan(t, u, d, k, name, i);
    }
  }

  // ---- inodes without a link

  lemma OrphanNames(t: Tree, i: nat, v: Inode, z: nat)
    requires i < |t| && t[i].nlink == 0 && v.nlink == 0 && z < |t| && Counted(t, z)
    ensures Counted(t[i := v], z)
  {
    assert NamesGrow(t, t[i := v], z, {});
    NamesGrown(t, t[i := v], z, {});
  }

  lemma OrphanParents(t: Tree, i: nat, v: Inode, c: nat)
    requires i < |t| && t[i].nlink == 0 && v.nlink == 0 && Linked(t, c) && Rooted(t, c) && ParentOk(t, c)
    ensures c != i && ParentOk(t[i := v], c) && Rooted(t[i := v], c)
  {
    var u := t[i := v];
    forall x: nat ensures SameWay(t, u, x) {
    }
    RootedStays(t, u, c);
  }

  lemma OrphanChildren(t: Tree, i: nat, v: Inode, x: nat, j: nat)
    requires i < |t| && t[i].nlink == 0 && Linked(t, x) && 2 <= j < |t[x].entries| && t[x].entries[j].inum != i
    requires ChildOk(t, x, j)
    ensures x != i && ChildOk(t[i := v], x, j)
  {
  }

  lemma OrphanShape(t: Tree, i: nat, v: Inode)
    requires Shape(t) && 1 <= i < |t|
    requires if v.kind == Directory then DirOk(t[i := v], i) else v.entries == []
    ensures Shape(t[i := v])
  {
    var u := t[i := v];
    forall x: nat | x < |u| && u[x].kind == Directory ensures DirOk(u, x) {
      if x != i {
        assert DirOk(t, x);
      }
    }
  }

  /** An inode that has no link may be allocated, freed, or given another reference: no linked directory knows it. */
  lemma OrphanChanges(t: Tree, i: nat, v: Inode)
    requires Sound(t) && 1 <= i < |t| && t[i].nlink == 0 && v.nlink == 0
    requires if v.kind == Directory then DirOk(t[i := v], i) else v.entries == []
    ensures Sound(t[i := v])
  {
    var u := t[i := v];
    OrphanShape(t, i, v);
    forall z: nat | 1 <= z < |u| ensures Counted(u, z) {
      OrphanNames(t, i, v, z);
    }
    forall x: nat, j: nat | Linked(u, x) && 2 <= j < |u[x].entries| ensures ChildOk(u, x, j) {
      NoEntryYet(t, i, x, j);
      OrphanChildren(t, i, v, x, j);
    }
    forall c: nat | Linked(u, c) ensures ParentOk(u, c) && Rooted(u, c) {
      OrphanParents(t, i, v, c);
    }
  }

  // ---- removing a name

  function Detach(t: Tree, d: nat, k: nat): Tree
    requires d < |t| && k < |t[d].entries| && t[d].entries[k].inum < |t| && t[d].entries[k].inum != d
  {
    var i := t[d].entries[k].inum;
    var down := if t[i].kind == Directory then 1 else 0;
    t[d := t[d].(entries := t[d].entries[k := NOENTRY], nlink := t[d].nlink - down)]
     [i := t[i].(nlink := t[i].nlink - 1)]
  }

  predicate Detached(t: Tree, u: Tree, d: nat, k: nat, i: nat) {
    && |u| == |t| && d < |t| && 1 <= i < |t| && d != i && k < |t[d].entries| && t[d].entries[k].inum == i
    && (forall x :: 0 <= x < |t| && x != d && x != i ==> u[x] == t[x])
    && u[i] == t[i].(nlink := t[i].nlink - 1)
    && u[d] == t[d].(entries := u[d].entries, nlink := u[d].nlink)
    && u[d].nlink == t[d].nlink - (if t[i].kind == Directory then 1 else 0)
    && |u[d].entries| == |t[d].entries| && u[d].entries[k] == NOENTRY
    && (forall j :: 0 <= j < |t[d].entries| && j != k ==> u[d].entries[j] == t[d].entries[j])
  }

  /** All that one entry of the new tree can depend on. */
  ghost predicate Detaching(t: Tree, u: Tree, d: nat, k: nat, i: nat) {
    && Detached(t, u, d, k, i) && Linked(t, d) && Linked(u, d) && 2 <= k && i != ROOT
    && t[d].entries[k].name != DOT
    && (t[i].kind == Directory ==>
          && |t[i].entries| >= 2 && t[i].entries[0].name == DOT && t[i].entries[1] == Entry(d, DOTDOT)
          && t[i].nlink == 1 && Empty(t[i].entries))
  }

  lemma {:induction false} OnlyRootIsItsParent(t: Tree, d: nat, n: nat)
    requires Climbs(t, d, n) && Up(t, d) == d
    ensures d == ROOT
    decreases n
  {
    if d != ROOT {
      OnlyRootIsItsParent(t, d, n - 1);
    }
  }

  lemma NotItself(t: Tree, d: nat, k: nat)
    requires Sound(t) && Linked(t, d) && 2 <= k < |t[d].entries|
    ensures t[d].entries[k].inum != d
  {
    if t[d].entries[k].inum == d {
      assert ChildOk(t, d, k) && Rooted(t, d);
      var n: nat :| Climbs(t, d, n);
      OnlyRootIsItsParent(t, d, n);
    }
  }

  lemma EmptyNamedBy(t: Tree, d: nat, k: nat, i: nat, x: nat, j: nat)
    requires Sound(t) && Linked(t, d) && 2 <= k < |t[d].entries| && t[d].entries[k].inum == i && i != 0
    requires t[i].kind == Directory && Empty(t[i].entries) && NamesAt(t, i, x, j)
    ensures x == d && j == k
  {
    assert ChildOk(t, d, k) && DirOk(t, x) && ParentOk(t, x);
    if j >= 2 {
      assert ChildOk(t, x, j);
    }
  }

  /** An empty directory is named once, by its parent. */
  lemma EmptyNamedOnce(t: Tree, d: nat, k: nat, i: nat)
    requires Sound(t) && Linked(t, d) && 2 <= k < |t[d].entries| && t[d].entries[k].inum == i && i != 0
    requires t[i].kind == Directory && Empty(t[i].entries)
    ensures Names(t, i) == {Place(d, k)} && t[i].nlink == 1
  {
    assert DirOk(t, d) && NamesAt(t, i, d, k) && Counted(t, i);
    forall x: nat, j: nat | NamesAt(t, i, x, j) ensures x == d && j == k {
      EmptyNamedBy(t, d, k, i, x, j);
    }
    assert Names(t, i) == {Place(d, k)};
  }

  /** A directory that has a directory in it has a second link: from its own parent, or as root from itself. */
  lemma ParentHasTwo(t: Tree, d: nat, i: nat)
    requires Sound(t) && Linked(t, d) && Linked(t, i) && i != d && i != ROOT && Up(t, i) == d
    ensures t[d].nlink >= 2
  {
    assert DirOk(t, i) && DirOk(t, d) && Counted(t, d);
    var a := Place(i, 1);
    assert NamesAt(t, d, i, 1);
    var b := Place(ROOT, 1);
    if d == ROOT {
      assert NamesAt(t, d, ROOT, 1);
    } else {
      assert ParentOk(t, d);
      var j: nat :| 2 <= j < |t[Up(t, d)].entries| && t[Up(t, d)].entries[j].inum == d;
      b := Place(Up(t, d), j);
      assert DirOk(t, Up(t, d)) && NamesAt(t, d, Up(t, d), j);
    }
    assert {a, b} <= Names(t, d) && a != b;
    assert Names(t, d) == Names(t, d) - {a, b} + {a, b};
    assert |{a, b}| == 2;
  }

  lemma DetachIs(t: Tree, d: nat, k: nat, i: nat)
    requires Sound(t) && Linked(t, d) && 2 <= k < |t[d].entries| && t[d].entries[k].inum == i && i != 0
    requires t[i].kind == Directory ==> Empty(t[i].entries)
    ensures i != d && Detaching(t, Detach(t, d, k), d, k, i)
  {
    NotItself(t, d, k);
    assert DirOk(t, d) && ChildOk(t, d, k);
    if t[i].kind == Directory {
      EmptyNamedOnce(t, d, k, i);
      assert DirOk(t, i);
      ParentHasTwo(t, d, i);
    }
  }

  lemma DetachDirOk(t: Tree, u: Tree, d: nat, k: nat, i: nat, x: nat)
    requires Detaching(t, u, d, k, i) && x < |t| && t[x].kind == Directory && DirOk(t, x)
    ensures DirOk(u, x)
  {
    assert forall j :: 0 <= j < |u[x].entries| ==> u[x].entries[j] == t[x].entries[j] || u[x].entries[j] == NOENTRY;
  }

  lemma DetachNames(t: Tree, u: Tree, d: nat, k: nat, i: nat, z: nat, x: nat, j: nat)
    requires Detaching(t, u, d, k, i) && 1 <= z
    ensures NamesAt(t, z, x, j) <==>
              NamesAt(u, z, x, j) || (z == i && x == d && j == k)
              || (t[i].kind == Directory && z == d && x == i && j == 1)
    ensures !NamesAt(u, z, d, k) && (t[i].kind == Directory ==> !NamesAt(u, z, i, j))
  {
  }

  lemma DetachCounted(t: Tree, u: Tree, d: nat, k: nat, i: nat, z: nat)
    requires Detaching(t, u, d, k, i) && 1 <= z < |t| && Counted(t, z)
    ensures Counted(u, z)
  {
    var more := if z == i then {Place(d, k)} else if z == d && t[i].kind == Directory then {Place(i, 1)} else {};
    forall x: nat, j: nat ensures NamesAt(t, z, x, j) <==> NamesAt(u, z, x, j) || Place(x, j) in more {
      DetachNames(t, u, d, k, i, z, x, j);
    }
    DetachNames(t, u, d, k, i, z, d, 1);
    NamesGrown(u, t, z, more);
  }

  lemma DetachChildren(t: Tree, u: Tree, d: nat, k: nat, i: nat, x: nat, j: nat)
    requires Detaching(t, u, d, k, i) && x < |t| && 2 <= j < |t[x].entries| && ChildOk(t, x, j) && u[0] == UNUSED
    ensures ChildOk(u, x, j)
  {
    assert forall m :: 0 <= m < |u[x].entries| ==> u[x].entries[m] == t[x].entries[m] || u[x].entries[m] == NOENTRY;
  }

  lemma DetachHas(t: Tree, u: Tree, d: nat, k: nat, i: nat, c: nat)
    requires Detaching(t, u, d, k, i) && Linked(t, Up(t, c)) && Has(t, Up(t, c), c) && Linked(u, c) && c != 0
    ensures Linked(u, Up(t, c)) && Has(u, Up(t, c), c) && Up(u, c) == Up(t, c)
  {
    var p := Up(t, c);
    var j: nat :| 2 <= j < |t[p].entries| && t[p].entries[j].inum == c;
    assert u[p].entries[j].inum == c;
  }

  lemma DetachParents(t: Tree, u: Tree, d: nat, k: nat, i: nat, c: nat)
    requires Detaching(t, u, d, k, i) && Sound(t) && Linked(u, c)
    ensures ParentOk(u, c) && Rooted(u, c)
  {
    forall x: nat ensures SameWay(t, u, x) {
      if Linked(u, x) && x != ROOT {
        assert ParentOk(t, x);
        DetachHas(t, u, d, k, i, x);
      }
    }
    assert Rooted(t, c) && ParentOk(t, c);
    RootedStays(t, u, c);
    if c != ROOT {
      DetachHas(t, u, d, k, i, c);
    }
  }

  lemma DetachShape(t: Tree, u: Tree, d: nat, k: nat, i: nat)
    requires Detaching(t, u, d, k, i) && Shape(t)
    ensures Shape(u)
  {
    forall x: nat | x < |u| && u[x].kind == Directory ensures DirOk(u, x) {
      DetachDirOk(t, u, d, k, i, x);
    }
  }

  /** Removing a name, of an empty directory or of anything else, keeps the tree sound. */
  lemma DetachSound(t: Tree, d: nat, k: nat, i: nat)
    requires Sound(t) && Linked(t, d) && 2 <= k < |t[d].entries| && t[d].entries[k].inum == i && i != 0
    requires t[i].kind == Directory ==> Empty(t[i].entries)
    ensures i != d && Sound(Detach(t, d, k)) && Linked(Detach(t, d, k), d)
  {
    DetachIs(t, d, k, i);
    var u := Detach(t, d, k);
    DetachShape(t, u, d, k, i);
    forall z: nat | 1 <= z < |u| ensures Counted(u, z) {
      DetachCounted(t, u, d, k, i, z);
    }
    forall x: nat, j: nat | Linked(u, x) && 2 <= j < |u[x].entries| ensures ChildOk(u, x, j) {
      DetachChildren(t, u, d, k, i, x, j);
    }
    forall c: nat | Linked(u, c) ensures ParentOk(u, c) && Rooted(u, c) {
      DetachParents(t, u, d, k, i, c);
    }
  }
}
