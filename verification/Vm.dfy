/**
 * Two-level page tables over a list of free page frames. A virtual page is a pair (i, j): entry i of the directory
 * leads to a table, entry j of that table to a frame.
 */
module Vm {
  import opened Blocks

  const PGSIZE := 4096

  const ENTRIES := 1024
  const USERDIRS := 512
  const KERNBASE := 0x8000_0000
  const NULL := 0

  /** A directory or table entry: the frame, and the bits PTE_P, PTE_W and PTE_U. */
  datatype Entry = Entry(frame: nat, p: bool, w: bool, u: bool)

  const NONE := Entry(0, false, false, false)

  type Table = t: seq<Entry> | |t| == ENTRIES witness seq(ENTRIES, _ => NONE)

  type Page = b: seq<Byte> | |b| == PGSIZE witness seq(PGSIZE, _ => 0)

  function ZeroTable(): Table { seq(ENTRIES, _ => NONE) }

  function ZeroPage(): Page { seq(PGSIZE, _ => 0) }

  function JunkPage(): Page { seq(PGSIZE, _ => 1) }

  /** What a frame is used for: free, taken but in no table yet, a directory, a table, or a user page. */
  datatype Owner = Free | Loose | Dir | Tab(d: nat, i: nat) | User(d: nat, i: nat, j: nat)

  /** The free list, the frames read as tables, the frames read as bytes, and the use of every frame. */
  datatype Mem = Mem(free: seq<nat>, tables: map<nat, Table>, pages: map<nat, Page>, owner: map<nat, Owner>)

  predicate Is(m: Mem, f: nat, o: Owner) { f in m.owner && m.owner[f] == o }

  /** The table that entry i of directory d leads to. */
  predicate HasTable(m: Mem, d: nat, i: nat)
    requires i < ENTRIES
  {
    d in m.tables && m.tables[d][i].p
  }

  function TableAt(m: Mem, d: nat, i: nat): nat
    requires i < ENTRIES && HasTable(m, d, i)
  {
    m.tables[d][i].frame
  }

  /** The page map of directory d: the entry for page (i, j). */
  function Look(m: Mem, d: nat, i: nat, j: nat): Entry
    requires i < ENTRIES && j < ENTRIES
  {
    if HasTable(m, d, i) && TableAt(m, d, i) in m.tables then m.tables[TableAt(m, d, i)][j] else NONE
  }

  // What holds of the whole memory: frames and entries are two views of one relation.

  predicate DirOk(m: Mem, d: nat, i: nat)
    requires i < ENTRIES
  {
    Is(m, d, Dir) ==> d in m.tables
                      && (HasTable(m, d, i) ==> TableAt(m, d, i) in m.tables && Is(m, TableAt(m, d, i), Tab(d, i)))
  }

  predicate EntryOk(m: Mem, d: nat, i: nat, j: nat)
    requires i < ENTRIES && j < ENTRIES
  {
    Is(m, d, Dir) && i < USERDIRS ==>
      if Look(m, d, i, j).p then Is(m, Look(m, d, i, j).frame, User(d, i, j)) else Look(m, d, i, j) == NONE
  }

  predicate FrameOk(m: Mem, f: nat)
    requires f in m.owner
  {
    && f != NULL && f in m.pages
    && match m.owner[f]
       case Free => f in m.free
       case Loose => true
       case Dir => f in m.tables
       case Tab(d, i) => i < ENTRIES && Is(m, d, Dir) && HasTable(m, d, i) && TableAt(m, d, i) == f
       case User(d, i, j) => i < USERDIRS && j < ENTRIES && Is(m, d, Dir) && Look(m, d, i, j).p
                             && Look(m, d, i, j).frame == f
  }

  predicate NoDup(s: seq<nat>) {
    forall a: nat, b: nat {:trigger s[a], s[b]} :: a < b < |s| ==> s[a] != s[b]
  }

  ghost predicate Inv(m: Mem) {
    && NoDup(m.free)
    && (forall f: nat {:trigger f in m.free} :: f in m.free ==> Is(m, f, Free))
    && (forall f: nat {:trigger FrameOk(m, f)} :: f in m.owner ==> FrameOk(m, f))
    && (forall d: nat, i: nat {:trigger DirOk(m, d, i)} :: i < ENTRIES ==> DirOk(m, d, i))
    && (forall d: nat, i: nat, j: nat {:trigger EntryOk(m, d, i, j)} ::
          i < ENTRIES && j < ENTRIES ==> EntryOk(m, d, i, j))
  }

  // The primitive changes.

  /** kalloc takes the first frame of the list. */
  function Taken(m: Mem): Mem
    requires m.free != []
  {
    m.(free := m.free[1..], owner := m.owner[m.free[0] := Loose])
  }

  /** kfree fills the frame with junk and puts it in front. */
  function Given(m: Mem, f: nat): Mem {
    m.(free := [f] + m.free, pages := m.pages[f := JunkPage()], owner := m.owner[f := Free])
  }

  /** A taken frame becomes an empty table behind entry i of d. */
  function WithTable(m: Mem, d: nat, i: nat, t: nat): Mem
    requires i < ENTRIES && d in m.tables
  {
    m.(tables := m.tables[t := ZeroTable()][d := m.tables[d][i := Entry(t, true, true, true)]],
       owner := m.owner[t := Tab(d, i)])
  }

  /** A taken frame becomes an empty directory. */
  function WithDir(m: Mem, d: nat): Mem {
    m.(tables := m.tables[d := ZeroTable()], owner := m.owner[d := Dir])
  }

  /** Entry (i, j) is stored; o is what becomes of its frame. */
  function WithEntry(m: Mem, d: nat, i: nat, j: nat, e: Entry): Mem
    requires i < ENTRIES && j < ENTRIES && HasTable(m, d, i) && TableAt(m, d, i) in m.tables
  {
    var t := TableAt(m, d, i);
    m.(tables := m.tables[t := m.tables[t][j := e]])
  }

  lemma InvTaken(m: Mem)
    requires Inv(m) && m.free != []
    ensures Inv(Taken(m)) && Is(m, m.free[0], Free)
  {
    var t, f := Taken(m), m.free[0];
    assert f in m.free;
    forall g: nat {:trigger g in t.free} | g in t.free
      ensures Is(t, g, Free)
    {
      var a: nat :| a < |t.free| && t.free[a] == g;
      assert m.free[a + 1] == g && m.free[0] != m.free[a + 1];
      assert g in m.free;
    }
    forall g: nat {:trigger FrameOk(t, g)} | g in t.owner
      ensures FrameOk(t, g)
    {
      assert FrameOk(m, g);
      if m.owner[g].Free? && g != f {
        var a: nat :| a < |m.free| && m.free[a] == g;
        assert t.free[a - 1] == g;
      }
    }
    forall d: nat, i: nat {:trigger DirOk(t, d, i)} | i < ENTRIES
      ensures DirOk(t, d, i)
    {
      assert DirOk(m, d, i);
    }
    forall d: nat, i: nat, j: nat {:trigger EntryOk(t, d, i, j)} | i < ENTRIES && j < ENTRIES
      ensures EntryOk(t, d, i, j)
    {
      assert EntryOk(m, d, i, j);
    }
  }

  lemma InvAdded(m: Mem, f: nat)
    requires Inv(m) && m.tables == map[] && f != NULL && f !in m.owner
    ensures Inv(m.(pages := m.pages[f := ZeroPage()], owner := m.owner[f := Loose]))
  {
    var n := m.(pages := m.pages[f := ZeroPage()], owner := m.owner[f := Loose]);
    forall g: nat {:trigger FrameOk(n, g)} | g in n.owner
      ensures FrameOk(n, g)
    {
      assert g != f ==> FrameOk(m, g);
    }
    forall g: nat {:trigger g in n.free} | g in n.free
      ensures Is(n, g, Free)
    {
      assert Is(m, g, Free);
    }
    forall d: nat, i: nat {:trigger DirOk(n, d, i)} | i < ENTRIES
      ensures DirOk(n, d, i)
    {
      assert DirOk(m, d, i);
    }
    forall d: nat, i: nat, j: nat {:trigger EntryOk(n, d, i, j)} | i < ENTRIES && j < ENTRIES
      ensures EntryOk(n, d, i, j)
    {
      assert DirOk(m, d, i);
    }
  }

  lemma InvGiven(m: Mem, f: nat)
    requires Inv(m) && Is(m, f, Loose)
    ensures Inv(Given(m, f))
  {
    var t := Given(m, f);
    assert f in m.free ==> Is(m, f, Free);
    forall g: nat {:trigger FrameOk(t, g)} | g in t.owner
      ensures FrameOk(t, g)
    {
      assert FrameOk(m, g);
      if g == f {
        assert t.free[0] == f;
      } else if m.owner[g].Free? {
        var a: nat :| a < |m.free| && m.free[a] == g;
        assert t.free[a + 1] == g;
      }
    }
    forall g: nat {:trigger g in t.free} | g in t.free
      ensures Is(t, g, Free)
    {
      assert g in m.free || g == f;
    }
    forall d: nat, i: nat {:trigger DirOk(t, d, i)} | i < ENTRIES
      ensures DirOk(t, d, i)
    {
      assert DirOk(m, d, i);
    }
    forall d: nat, i: nat, j: nat {:trigger EntryOk(t, d, i, j)} | i < ENTRIES && j < ENTRIES
      ensures EntryOk(t, d, i, j)
    {
      assert EntryOk(m, d, i, j);
    }
  }

  /** A new table changes no page map. */
  lemma LookTable(m: Mem, d: nat, i: nat, t: nat, e: nat, k: nat, j: nat)
    requires Inv(m) && Is(m, d, Dir) && Is(m, t, Loose) && i < ENTRIES && d in m.tables && !HasTable(m, d, i)
    requires Is(m, e, Dir) && k < ENTRIES && j < ENTRIES
    ensures Look(WithTable(m, d, i, t), e, k, j) == Look(m, e, k, j)
  {
    assert DirOk(m, e, k) && DirOk(m, d, i);
  }

  lemma InvTable(m: Mem, d: nat, i: nat, t: nat)
    requires Inv(m) && Is(m, d, Dir) && Is(m, t, Loose) && i < ENTRIES && d in m.tables && !HasTable(m, d, i)
    ensures Inv(WithTable(m, d, i, t))
  {
    var n := WithTable(m, d, i, t);
    forall f: nat {:trigger f in n.free} | f in n.free
      ensures Is(n, f, Free)
    {
      assert f in m.free;
    }
    forall f: nat {:trigger FrameOk(n, f)} | f in n.owner
      ensures FrameOk(n, f)
    {
      assert FrameOk(m, f);
      if m.owner[f].User? {
        LookTable(m, d, i, t, m.owner[f].d, m.owner[f].i, m.owner[f].j);
      }
    }
    forall e: nat, k: nat {:trigger DirOk(n, e, k)} | k < ENTRIES
      ensures DirOk(n, e, k)
    {
      assert DirOk(m, e, k);
    }
    forall e: nat, k: nat, j: nat {:trigger EntryOk(n, e, k, j)} | k < ENTRIES && j < ENTRIES
      ensures EntryOk(n, e, k, j)
    {
      if Is(m, e, Dir) {
        assert EntryOk(m, e, k, j) && DirOk(m, e, k);
        LookTable(m, d, i, t, e, k, j);
      }
    }
  }

  /** Storing an entry changes that entry of that page map and nothing else. */
  lemma LookEntry(m: Mem, d: nat, i: nat, j: nat, x: Entry, e: nat, k: nat, l: nat)
    requires Inv(m) && Is(m, d, Dir) && Is(m, e, Dir) && i < ENTRIES && j < ENTRIES && k < ENTRIES && l < ENTRIES
    requires HasTable(m, d, i) && TableAt(m, d, i) in m.tables
    ensures var n := WithEntry(m, d, i, j, x);
            Look(n, e, k, l) == if e == d && k == i && l == j then x else Look(m, e, k, l)
  {
    assert DirOk(m, d, i) && DirOk(m, e, k);
  }

  /** A taken frame mapped at user page (i, j). */
  function MapUser(m: Mem, d: nat, i: nat, j: nat, x: Entry): Mem
    requires i < ENTRIES && j < ENTRIES && HasTable(m, d, i) && TableAt(m, d, i) in m.tables
  {
    WithEntry(m, d, i, j, x).(owner := m.owner[x.frame := User(d, i, j)])
  }

  /** The frame of user page (i, j) taken out of the map. */
  function Unmap(m: Mem, d: nat, i: nat, j: nat): Mem
    requires i < ENTRIES && j < ENTRIES && HasTable(m, d, i) && TableAt(m, d, i) in m.tables
  {
    WithEntry(m, d, i, j, NONE).(owner := m.owner[Look(m, d, i, j).frame := Loose])
  }

  /** An entry changed without a change of frames: a kernel entry, or bits of a user entry. */
  predicate Harmless(m: Mem, d: nat, i: nat, j: nat, x: Entry)
    requires i < ENTRIES && j < ENTRIES
  {
    i >= USERDIRS || (Look(m, d, i, j).p && x.p && x.frame == Look(m, d, i, j).frame)
  }

  /** The directories are as they were. */
  lemma KeptEntries(m: Mem, n: Mem, d: nat, i: nat, j: nat, x: Entry)
    requires Inv(m) && Is(m, d, Dir) && i < ENTRIES && j < ENTRIES
    requires HasTable(m, d, i) && TableAt(m, d, i) in m.tables && n.tables == WithEntry(m, d, i, j, x).tables
    requires forall f: nat, o: Owner {:trigger Is(n, f, o)} :: o.Dir? || o.Tab? ==> (Is(n, f, o) <==> Is(m, f, o))
    ensures forall e: nat, k: nat {:trigger DirOk(n, e, k)} :: k < ENTRIES ==> DirOk(n, e, k)
  {
    assert DirOk(m, d, i);
    forall e: nat, k: nat {:trigger DirOk(n, e, k)} | k < ENTRIES
      ensures DirOk(n, e, k)
    {
      assert DirOk(m, e, k);
      assert Is(n, e, Dir) <==> Is(m, e, Dir);
      if Is(m, e, Dir) && HasTable(m, e, k) {
        assert Is(m, TableAt(m, e, k), Tab(e, k));
        assert Is(n, TableAt(m, e, k), Tab(e, k));
      }
    }
  }

  lemma InvEntry(m: Mem, d: nat, i: nat, j: nat, x: Entry)
    requires Inv(m) && Is(m, d, Dir) && i < ENTRIES && j < ENTRIES
    requires HasTable(m, d, i) && TableAt(m, d, i) in m.tables && Harmless(m, d, i, j, x)
    ensures Inv(WithEntry(m, d, i, j, x))
  {
    var n := WithEntry(m, d, i, j, x);
    assert DirOk(m, d, i);
    KeptEntries(m, n, d, i, j, x);
    forall f: nat {:trigger FrameOk(n, f)} | f in n.owner
      ensures FrameOk(n, f)
    {
      assert FrameOk(m, f);
      if m.owner[f].User? {
        LookEntry(m, d, i, j, x, m.owner[f].d, m.owner[f].i, m.owner[f].j);
      }
    }
    forall f: nat {:trigger f in n.free} | f in n.free
      ensures Is(n, f, Free)
    {
      assert f in m.free;
    }
    assert EntryOk(m, d, i, j);
    forall e: nat, k: nat, l: nat {:trigger EntryOk(n, e, k, l)} | k < ENTRIES && l < ENTRIES
      ensures EntryOk(n, e, k, l)
    {
      if Is(m, e, Dir) {
        assert EntryOk(m, e, k, l);
        LookEntry(m, d, i, j, x, e, k, l);
      }
    }
  }

  lemma InvMapUser(m: Mem, d: nat, i: nat, j: nat, x: Entry)
    requires Inv(m) && Is(m, d, Dir) && i < USERDIRS && j < ENTRIES
    requires HasTable(m, d, i) && TableAt(m, d, i) in m.tables && !Look(m, d, i, j).p && x.p && Is(m, x.frame, Loose)
    ensures Inv(MapUser(m, d, i, j, x))
  {
    var n := MapUser(m, d, i, j, x);
    KeptEntries(m, n, d, i, j, x);
    LookEntry(m, d, i, j, x, d, i, j);
    forall f: nat {:trigger FrameOk(n, f)} | f in n.owner
      ensures FrameOk(n, f)
    {
      assert FrameOk(m, f);
      if f != x.frame && m.owner[f].User? {
        LookEntry(m, d, i, j, x, m.owner[f].d, m.owner[f].i, m.owner[f].j);
      }
    }
    forall f: nat {:trigger f in n.free} | f in n.free
      ensures Is(n, f, Free)
    {
      assert f in m.free;
    }
    forall e: nat, k: nat, l: nat {:trigger EntryOk(n, e, k, l)} | k < ENTRIES && l < ENTRIES
      ensures EntryOk(n, e, k, l)
    {
      if Is(m, e, Dir) {
        assert EntryOk(m, e, k, l);
        LookEntry(m, d, i, j, x, e, k, l);
      }
    }
  }

  lemma InvUnmap(m: Mem, d: nat, i: nat, j: nat)
    requires Inv(m) && Is(m, d, Dir) && i < USERDIRS && j < ENTRIES
    requires HasTable(m, d, i) && TableAt(m, d, i) in m.tables && Look(m, d, i, j).p
    ensures Inv(Unmap(m, d, i, j)) && Is(m, Look(m, d, i, j).frame, User(d, i, j))
  {
    var n := Unmap(m, d, i, j);
    assert EntryOk(m, d, i, j);
    KeptEntries(m, n, d, i, j, NONE);
    forall f: nat {:trigger FrameOk(n, f)} | f in n.owner
      ensures FrameOk(n, f)
    {
      assert FrameOk(m, f);
      if m.owner[f].User? {
        LookEntry(m, d, i, j, NONE, m.owner[f].d, m.owner[f].i, m.owner[f].j);
      }
    }
    forall f: nat {:trigger f in n.free} | f in n.free
      ensures Is(n, f, Free)
    {
      assert f in m.free;
    }
    forall e: nat, k: nat, l: nat {:trigger EntryOk(n, e, k, l)} | k < ENTRIES && l < ENTRIES
      ensures EntryOk(n, e, k, l)
    {
      if Is(m, e, Dir) {
        assert EntryOk(m, e, k, l);
        LookEntry(m, d, i, j, NONE, e, k, l);
      }
    }
  }

  /** What a page holds is no matter of the invariant. */
  lemma PagesDoNotMatter(m: Mem, f: nat, z: Page)
    requires Inv(m)
    ensures Inv(m.(pages := m.pages[f := z]))
  {
    var n := m.(pages := m.pages[f := z]);
    forall g: nat {:trigger FrameOk(n, g)} | g in n.owner
      ensures FrameOk(n, g)
    {
      assert FrameOk(m, g);
    }
    forall e: nat, k: nat {:trigger DirOk(n, e, k)} | k < ENTRIES
      ensures DirOk(n, e, k)
    {
      assert DirOk(m, e, k);
    }
    forall e: nat, k: nat, l: nat {:trigger EntryOk(n, e, k, l)} | k < ENTRIES && l < ENTRIES
      ensures EntryOk(n, e, k, l)
    {
      assert EntryOk(m, e, k, l);
    }
    forall g: nat {:trigger g in n.free} | g in n.free
      ensures Is(n, g, Free)
    {
      assert g in m.free;
    }
  }

  lemma InvDir(m: Mem, d: nat)
    requires Inv(m) && Is(m, d, Loose)
    ensures Inv(WithDir(m, d))
    ensures forall e: nat, k: nat, l: nat {:trigger Look(WithDir(m, d), e, k, l)} ::
              k < ENTRIES && l < ENTRIES && (Is(m, e, Dir) || e == d) ==>
                Look(WithDir(m, d), e, k, l) == if e == d then NONE else Look(m, e, k, l)
  {
    var n := WithDir(m, d);
    forall e: nat, k: nat, l: nat {:trigger Look(n, e, k, l)} | k < ENTRIES && l < ENTRIES && (Is(m, e, Dir) || e == d)
      ensures Look(n, e, k, l) == if e == d then NONE else Look(m, e, k, l)
    {
      assert DirOk(m, e, k);
    }
    forall f: nat {:trigger FrameOk(n, f)} | f in n.owner
      ensures FrameOk(n, f)
    {
      assert FrameOk(m, f);
    }
    forall f: nat {:trigger f in n.free} | f in n.free
      ensures Is(n, f, Free)
    {
      assert f in m.free;
    }
    forall e: nat, k: nat {:trigger DirOk(n, e, k)} | k < ENTRIES
      ensures DirOk(n, e, k)
    {
      assert DirOk(m, e, k);
    }
    forall e: nat, k: nat, l: nat {:trigger EntryOk(n, e, k, l)} | k < ENTRIES && l < ENTRIES
      ensures EntryOk(n, e, k, l)
    {
      if Is(m, e, Dir) {
        assert EntryOk(m, e, k, l);
        assert Look(n, e, k, l) == Look(m, e, k, l);
      }
    }
  }

  // What an operation on one directory leaves alone.

  /** Frame f is directory d, one of its tables or one of its user pages. */
  predicate Mine(m: Mem, f: nat, d: nat) {
    f in m.owner && match m.owner[f]
                    case Dir => f == d
                    case Tab(e, _) => e == d
                    case User(e, _, _) => e == d
                    case _ => false
  }

  predicate SameFrame(m: Mem, n: Mem, f: nat) {
    && f in m.owner && f in n.owner && n.owner[f] == m.owner[f]
    && (f in m.tables ==> f in n.tables && n.tables[f] == m.tables[f])
    && (f in m.pages ==> f in n.pages && n.pages[f] == m.pages[f])
  }

  predicate FrameKept(m: Mem, n: Mem, d: nat, f: nat)
    requires f in m.owner && f in n.owner
  {
    if Mine(m, f, d) || m.owner[f].Free? then Mine(n, f, d) || n.owner[f].Free? else SameFrame(m, n, f)
  }

  /** From m to n directory d has at most taken free frames and freed its own; every other frame is as it was. */
  ghost predicate Others(m: Mem, n: Mem, d: nat) {
    && n.owner.Keys == m.owner.Keys
    && forall f: nat {:trigger FrameKept(m, n, d, f)} :: f in m.owner ==> FrameKept(m, n, d, f)
  }

  lemma OthersTrans(m: Mem, n: Mem, p: Mem, d: nat)
    requires Others(m, n, d) && Others(n, p, d)
    ensures Others(m, p, d)
  {
    forall f: nat {:trigger FrameKept(m, p, d, f)} | f in m.owner
      ensures FrameKept(m, p, d, f)
    {
      assert FrameKept(m, n, d, f) && FrameKept(n, p, d, f);
    }
  }

  /** The page maps of the other directories are as they were, and so is what their pages hold. */
  lemma OthersLook(m: Mem, n: Mem, d: nat, e: nat, i: nat, j: nat)
    requires Inv(m) && Others(m, n, d) && Is(m, e, Dir) && e != d && i < ENTRIES && j < ENTRIES
    ensures Is(n, e, Dir) && Look(n, e, i, j) == Look(m, e, i, j)
    ensures i < USERDIRS && Look(m, e, i, j).p ==>
              var f := Look(m, e, i, j).frame; f in m.pages && f in n.pages && n.pages[f] == m.pages[f]
  {
    assert FrameKept(m, n, d, e) && DirOk(m, e, i) && EntryOk(m, e, i, j);
    if HasTable(m, e, i) {
      assert FrameKept(m, n, d, TableAt(m, e, i));
    }
    if i < USERDIRS && Look(m, e, i, j).p {
      var f := Look(m, e, i, j).frame;
      assert FrameKept(m, n, d, f) && FrameOk(m, f);
    }
  }

  /** No frame is mapped twice as a user page, by one directory or by two. */
  lemma PagesApart(m: Mem, d: nat, i: nat, j: nat, e: nat, k: nat, l: nat)
    requires Inv(m) && Is(m, d, Dir) && Is(m, e, Dir) && i < USERDIRS && j < ENTRIES && k < USERDIRS && l < ENTRIES
    requires Look(m, d, i, j).p && Look(m, e, k, l).p && Look(m, d, i, j).frame == Look(m, e, k, l).frame
    ensures d == e && i == k && j == l
  {
    assert EntryOk(m, d, i, j) && EntryOk(m, e, k, l);
  }

  /** Page number of (i, j) within lo to hi. */
  predicate InRange(lo: nat, hi: nat, i: nat, j: nat) { lo <= ENTRIES * i + j < hi }

  /** The frames directory d has are still its own, and its pages hold what they did. */
  ghost predicate OwnKept(m: Mem, n: Mem, d: nat) {
    forall f: nat {:trigger Mine(m, f, d)} :: f in m.pages && Mine(m, f, d) ==>
      && f in n.owner && n.owner[f] == m.owner[f]
      && (m.owner[f].User? ==> f in n.pages && n.pages[f] == m.pages[f])
  }

  /** x maps a frame that was free in m and holds z in n, with the bits w and u. */
  predicate NewPage(m: Mem, n: Mem, x: Entry, z: Page, w: bool, u: bool) {
    x == Entry(x.frame, true, w, u) && Is(m, x.frame, Free) && x.frame in n.pages && n.pages[x.frame] == z
  }

  ghost predicate PageAdded(m: Mem, n: Mem, d: nat, i: nat, j: nat, z: Page, w: bool, u: bool)
    requires i < ENTRIES && j < ENTRIES
  {
    && Others(m, n, d) && Is(n, d, Dir) && OwnKept(m, n, d) && NewPage(m, n, Look(n, d, i, j), z, w, u)
    && forall k: nat, l: nat {:trigger Look(n, d, k, l)} ::
         k < ENTRIES && l < ENTRIES && (k != i || l != j) ==> Look(n, d, k, l) == Look(m, d, k, l)
  }

  /** User pages lo to hi of d are new in n, all zero; the rest of its page map is as in m. */
  ghost predicate Grown(m: Mem, n: Mem, d: nat, lo: nat, hi: nat) {
    && Others(m, n, d) && Is(n, d, Dir) && OwnKept(m, n, d)
    && forall i: nat, j: nat {:trigger Look(n, d, i, j)} :: i < ENTRIES && j < ENTRIES ==>
         if InRange(lo, hi, i, j) then NewPage(m, n, Look(n, d, i, j), ZeroPage(), true, true)
         else Look(n, d, i, j) == Look(m, d, i, j)
  }

  lemma GrownNothing(m: Mem, d: nat, lo: nat)
    requires Inv(m) && Is(m, d, Dir)
    ensures Grown(m, m, d, lo, lo)
  {
    forall f: nat {:trigger FrameKept(m, m, d, f)} | f in m.owner
      ensures FrameKept(m, m, d, f)
    {
    }
  }

  lemma OwnKeptTrans(m: Mem, n: Mem, p: Mem, d: nat)
    requires Inv(n) && OwnKept(m, n, d) && OwnKept(n, p, d)
    ensures OwnKept(m, p, d)
  {
    forall f: nat {:trigger Mine(m, f, d)} | f in m.pages && Mine(m, f, d)
      ensures f in p.owner && p.owner[f] == m.owner[f]
      ensures m.owner[f].User? ==> f in p.pages && p.pages[f] == m.pages[f]
    {
      assert Mine(n, f, d) && FrameOk(n, f);
    }
  }

  lemma MineHasPage(m: Mem, f: nat, d: nat)
    requires Inv(m)
    ensures Mine(m, f, d) ==> f in m.pages
  {
    if f in m.owner {
      assert FrameOk(m, f);
    }
  }

  lemma GrownMore(m: Mem, n: Mem, p: Mem, d: nat, lo: nat, v: nat, i: nat, j: nat)
    requires i < USERDIRS && j < ENTRIES && lo <= v == ENTRIES * i + j
    requires Inv(m) && Inv(n) && Grown(m, n, d, lo, v) && PageAdded(n, p, d, i, j, ZeroPage(), true, true)
    ensures Grown(m, p, d, lo, v + 1)
  {
    OthersTrans(m, n, p, d);
    OwnKeptTrans(m, n, p, d);
    forall k: nat, l: nat {:trigger Look(p, d, k, l)} | k < ENTRIES && l < ENTRIES
      ensures if InRange(lo, v + 1, k, l) then NewPage(m, p, Look(p, d, k, l), ZeroPage(), true, true)
              else Look(p, d, k, l) == Look(m, d, k, l)
    {
      if k == i && l == j {
        var f := Look(p, d, i, j).frame;
        assert FrameKept(m, n, d, f);
        MineHasPage(m, f, d);
      } else {
        assert Look(p, d, k, l) == Look(n, d, k, l);
        if InRange(lo, v, k, l) {
          assert EntryOk(n, d, k, l);
          assert Mine(n, Look(n, d, k, l).frame, d);
        }
      }
    }
  }

  /** The memory with entry i of directory d there, made if need be. */
  function TableMade(m: Mem, d: nat, i: nat): Mem
    requires i < ENTRIES && d in m.tables && (HasTable(m, d, i) || m.free != [])
  {
    if HasTable(m, d, i) then m else WithTable(Taken(m), d, i, m.free[0])
  }

  lemma TableMadeOk(m: Mem, d: nat, i: nat)
    requires Inv(m) && Is(m, d, Dir) && i < ENTRIES && d in m.tables && (HasTable(m, d, i) || m.free != [])
    ensures var n := TableMade(m, d, i);
            && Inv(n) && Is(n, d, Dir) && HasTable(n, d, i) && TableAt(n, d, i) in n.tables && n.pages == m.pages
            && Others(m, n, d) && OwnKept(m, n, d)
    ensures forall f: nat {:trigger Is(m, f, Loose)} :: Is(m, f, Loose) ==> Is(TableMade(m, d, i), f, Loose)
    ensures forall k: nat, l: nat {:trigger Look(TableMade(m, d, i), d, k, l)} :: k < ENTRIES && l < ENTRIES ==>
              Look(TableMade(m, d, i), d, k, l) == Look(m, d, k, l)
  {
    var n := TableMade(m, d, i);
    assert DirOk(m, d, i);
    if !HasTable(m, d, i) {
      InvTaken(m);
      InvTable(Taken(m), d, i, m.free[0]);
      forall k: nat, l: nat {:trigger Look(n, d, k, l)} | k < ENTRIES && l < ENTRIES
        ensures Look(n, d, k, l) == Look(m, d, k, l)
      {
        LookTable(Taken(m), d, i, m.free[0], d, k, l);
      }
    }
    forall f: nat {:trigger FrameKept(m, n, d, f)} | f in m.owner
      ensures FrameKept(m, n, d, f)
    {
      assert FrameOk(m, f);
    }
  }

  /** The loose frame of x is now user page (i, j) of d; otherwise d took free frames at most. */
  ghost predicate MappedOne(m: Mem, n: Mem, d: nat, i: nat, j: nat, x: Entry)
    requires i < ENTRIES && j < ENTRIES
  {
    && n.owner.Keys == m.owner.Keys && Is(n, d, Dir) && OwnKept(m, n, d) && n.pages == m.pages
    && (forall f: nat {:trigger FrameKept(m, n, d, f)} :: f in m.owner && f != x.frame ==> FrameKept(m, n, d, f))
    && Is(n, x.frame, User(d, i, j))
    && forall k: nat, l: nat {:trigger Look(n, d, k, l)} :: k < ENTRIES && l < ENTRIES ==>
         Look(n, d, k, l) == if k == i && l == j then x else Look(m, d, k, l)
  }

  /** What mapping one taken frame does. */
  lemma PageMapped(m: Mem, d: nat, i: nat, j: nat, x: Entry)
    requires Inv(m) && Is(m, d, Dir) && i < USERDIRS && j < ENTRIES && d in m.tables
    requires HasTable(m, d, i) || m.free != []
    requires x.p && Is(m, x.frame, Loose) && !Look(m, d, i, j).p
    ensures var n := TableMade(m, d, i);
            && HasTable(n, d, i) && TableAt(n, d, i) in n.tables && Inv(MapUser(n, d, i, j, x))
            && MappedOne(m, MapUser(n, d, i, j, x), d, i, j, x)
  {
    TableMadeOk(m, d, i);
    var n := TableMade(m, d, i);
    var p := MapUser(n, d, i, j, x);
    assert Look(n, d, i, j) == Look(m, d, i, j);
    InvMapUser(n, d, i, j, x);
    forall k: nat, l: nat {:trigger Look(p, d, k, l)} | k < ENTRIES && l < ENTRIES
      ensures Look(p, d, k, l) == if k == i && l == j then x else Look(m, d, k, l)
    {
      LookEntry(n, d, i, j, x, d, k, l);
      assert Look(n, d, k, l) == Look(m, d, k, l);
    }
    forall f: nat {:trigger FrameKept(m, p, d, f)} | f in m.owner && f != x.frame
      ensures FrameKept(m, p, d, f)
    {
      assert FrameKept(m, n, d, f) && FrameOk(m, f) && DirOk(n, d, i);
    }
    forall f: nat {:trigger Mine(m, f, d)} | f in m.pages && Mine(m, f, d)
      ensures f in p.owner && p.owner[f] == m.owner[f] && p.pages == m.pages
    {
      assert f in n.owner && n.owner[f] == m.owner[f];
    }
  }

  // The kernel half.

  /** A row of kmap, in pages: n pages from page v on, mapped to frames pn, pn + 1, ... */
  datatype Range = Range(v: nat, n: nat, pn: nat, w: bool)

  /** Rows for the kernel half that do not overlap. */
  ghost predicate KmapOk(kmap: seq<Range>) {
    && (forall k: nat {:trigger kmap[k]} :: k < |kmap| ==>
          ENTRIES * USERDIRS <= kmap[k].v && 0 < kmap[k].n && kmap[k].v + kmap[k].n <= ENTRIES * ENTRIES)
    && (forall k: nat, l: nat {:trigger kmap[k], kmap[l]} :: k < l < |kmap| ==>
          kmap[k].v + kmap[k].n <= kmap[l].v || kmap[l].v + kmap[l].n <= kmap[k].v)
  }

  /** The four rows; data is the first page of the kernel's writable data. */
  function Kmap(data: nat): seq<Range>
    requires 0x8_0100 < data < 0x8_E000
  {
    [Range(0x8_0000, 0x100, 0, true), Range(0x8_0100, data - 0x8_0100, 0x100, false),
     Range(data, 0x8_E000 - data, data - 0x8_0000, true), Range(0xF_E000, 0x2000, 0xF_E000, true)]
  }

  lemma KmapFits(data: nat)
    requires 0x8_0100 < data < 0x8_E000
    ensures KmapOk(Kmap(data))
  {
  }

  /** What the first k rows map page (i, j) to. */
  function Kern(kmap: seq<Range>, k: nat, i: nat, j: nat): Entry
    requires k <= |kmap|
  {
    if k == 0 then NONE
    else
      var r := kmap[k - 1];
      if InRange(r.v, r.v + r.n, i, j) then Entry(r.pn + (ENTRIES * i + j - r.v), true, r.w, false)
      else Kern(kmap, k - 1, i, j)
  }

  lemma {:induction false} KernNone(kmap: seq<Range>, k: nat, i: nat, j: nat)
    requires k <= |kmap|
    requires forall l: nat {:trigger kmap[l]} :: l < k ==> !InRange(kmap[l].v, kmap[l].v + kmap[l].n, i, j)
    ensures Kern(kmap, k, i, j) == NONE
  {
    if k > 0 {
      KernNone(kmap, k - 1, i, j);
    }
  }

  /** Entry (i, j) of d is now x; otherwise d took free frames at most. */
  ghost predicate EntrySet(m: Mem, n: Mem, d: nat, i: nat, j: nat, x: Entry)
    requires i < ENTRIES && j < ENTRIES
  {
    && Others(m, n, d) && Is(n, d, Dir) && n.pages == m.pages
    && forall k: nat, l: nat {:trigger Look(n, d, k, l)} :: k < ENTRIES && l < ENTRIES ==>
         Look(n, d, k, l) == if k == i && l == j then x else Look(m, d, k, l)
  }

  lemma KernelMapped(m: Mem, d: nat, i: nat, j: nat, x: Entry)
    requires Inv(m) && Is(m, d, Dir) && USERDIRS <= i < ENTRIES && j < ENTRIES && d in m.tables
    requires HasTable(m, d, i) || m.free != []
    ensures var n := TableMade(m, d, i);
            && HasTable(n, d, i) && TableAt(n, d, i) in n.tables && Inv(WithEntry(n, d, i, j, x))
            && EntrySet(m, WithEntry(n, d, i, j, x), d, i, j, x)
  {
    TableMadeOk(m, d, i);
    var n := TableMade(m, d, i);
    var p := WithEntry(n, d, i, j, x);
    InvEntry(n, d, i, j, x);
    forall k: nat, l: nat {:trigger Look(p, d, k, l)} | k < ENTRIES && l < ENTRIES
      ensures Look(p, d, k, l) == if k == i && l == j then x else Look(m, d, k, l)
    {
      LookEntry(n, d, i, j, x, d, k, l);
      assert Look(n, d, k, l) == Look(m, d, k, l);
    }
    forall f: nat {:trigger FrameKept(m, p, d, f)} | f in m.owner
      ensures FrameKept(m, p, d, f)
    {
      assert FrameKept(m, n, d, f) && DirOk(n, d, i);
    }
  }

  /** The first c pages of row r are mapped. */
  ghost predicate RowMapped(m: Mem, n: Mem, d: nat, r: Range, c: nat) {
    && Others(m, n, d) && Is(n, d, Dir)
    && forall i: nat, j: nat {:trigger Look(n, d, i, j)} :: i < ENTRIES && j < ENTRIES ==>
         Look(n, d, i, j) == if InRange(r.v, r.v + c, i, j) then Entry(r.pn + (ENTRIES * i + j - r.v), true, r.w, false)
                             else Look(m, d, i, j)
  }

  lemma RowMore(m: Mem, n: Mem, p: Mem, d: nat, r: Range, c: nat, i: nat, j: nat)
    requires i < ENTRIES && j < ENTRIES && r.v + c == ENTRIES * i + j
    requires RowMapped(m, n, d, r, c) && EntrySet(n, p, d, i, j, Entry(r.pn + c, true, r.w, false))
    ensures RowMapped(m, p, d, r, c + 1)
  {
    OthersTrans(m, n, p, d);
    forall k: nat, l: nat {:trigger Look(p, d, k, l)} | k < ENTRIES && l < ENTRIES
      ensures Look(p, d, k, l) == if InRange(r.v, r.v + c + 1, k, l)
                                  then Entry(r.pn + (ENTRIES * k + l - r.v), true, r.w, false) else Look(m, d, k, l)
    {
      assert Look(p, d, k, l) == if k == i && l == j then Entry(r.pn + c, true, r.w, false) else Look(n, d, k, l);
    }
  }

  /** A directory with the first k rows of the kernel half and no user page. */
  ghost predicate KernelOnly(m: Mem, d: nat, kmap: seq<Range>, k: nat)
    requires k <= |kmap|
  {
    && Is(m, d, Dir)
    && forall i: nat, j: nat {:trigger Look(m, d, i, j)} :: i < ENTRIES && j < ENTRIES ==>
         Look(m, d, i, j) == Kern(kmap, k, i, j)
  }

  /** The pages of the next row are not mapped yet. */
  lemma RowFree(m: Mem, d: nat, kmap: seq<Range>, k: nat, i: nat, j: nat)
    requires KmapOk(kmap) && k < |kmap| && KernelOnly(m, d, kmap, k) && i < ENTRIES && j < ENTRIES
    requires InRange(kmap[k].v, kmap[k].v + kmap[k].n, i, j)
    ensures Look(m, d, i, j) == NONE
  {
    KernNone(kmap, k, i, j);
  }

  lemma RowsFree(m: Mem, d: nat, kmap: seq<Range>, k: nat)
    requires KmapOk(kmap) && k < |kmap| && KernelOnly(m, d, kmap, k)
    ensures forall i: nat, j: nat {:trigger Look(m, d, i, j)} ::
              i < ENTRIES && j < ENTRIES && InRange(kmap[k].v, kmap[k].v + kmap[k].n, i, j) ==> !Look(m, d, i, j).p
  {
    forall i: nat, j: nat {:trigger Look(m, d, i, j)}
      | i < ENTRIES && j < ENTRIES && InRange(kmap[k].v, kmap[k].v + kmap[k].n, i, j)
      ensures !Look(m, d, i, j).p
    {
      RowFree(m, d, kmap, k, i, j);
    }
  }

  /** Page v of a row is mapped to its own frame, writable if the row is, and not for users. */
  lemma {:induction false} KernAt(kmap: seq<Range>, k: nat, l: nat, i: nat, j: nat)
    requires KmapOk(kmap) && l < k <= |kmap| && InRange(kmap[l].v, kmap[l].v + kmap[l].n, i, j)
    ensures Kern(kmap, k, i, j) == Entry(kmap[l].pn + (ENTRIES * i + j - kmap[l].v), true, kmap[l].w, false)
    decreases k
  {
    if l < k - 1 {
      KernAt(kmap, k - 1, l, i, j);
    }
  }

  lemma {:induction false} KernUser(kmap: seq<Range>, k: nat, i: nat, j: nat)
    requires KmapOk(kmap) && k <= |kmap| && i < USERDIRS && j < ENTRIES
    ensures Kern(kmap, k, i, j) == NONE
  {
    KernNone(kmap, k, i, j);
  }

  // Emptying a range of user pages.

  predicate Leaving(m: Mem, d: nat, lo: nat, hi: nat, f: nat)
    requires f in m.owner
  {
    m.owner[f].User? && m.owner[f].d == d && InRange(lo, hi, m.owner[f].i, m.owner[f].j)
  }

  predicate FrameEmptied(m: Mem, n: Mem, d: nat, lo: nat, hi: nat, f: nat)
    requires f in m.owner && f in n.owner
  {
    if Leaving(m, d, lo, hi, f) || m.owner[f].Free? then n.owner[f].Free?
    else
      && n.owner[f] == m.owner[f]
      && (f in m.pages ==> f in n.pages && n.pages[f] == m.pages[f])
      && (f in m.tables && !(m.owner[f].Tab? && m.owner[f].d == d) ==> f in n.tables && n.tables[f] == m.tables[f])
  }

  /** User pages lo to hi of d are gone and exactly their frames are free; all else is as it was. */
  ghost predicate Emptied(m: Mem, n: Mem, d: nat, lo: nat, hi: nat) {
    && n.owner.Keys == m.owner.Keys
    && (forall f: nat {:trigger FrameEmptied(m, n, d, lo, hi, f)} :: f in m.owner ==> FrameEmptied(m, n, d, lo, hi, f))
    && forall i: nat, j: nat {:trigger Look(n, d, i, j)} :: i < ENTRIES && j < ENTRIES ==>
         Look(n, d, i, j) == if InRange(lo, hi, i, j) then NONE else Look(m, d, i, j)
  }

  lemma EmptiedNothing(m: Mem, d: nat, lo: nat)
    ensures Emptied(m, m, d, lo, lo)
  {
  }

  lemma EmptiedDir(m: Mem, n: Mem, d: nat, lo: nat, hi: nat)
    requires Emptied(m, n, d, lo, hi) && Is(m, d, Dir)
    ensures Is(n, d, Dir)
  {
    assert FrameEmptied(m, n, d, lo, hi, d);
  }

  /** From v to w no page of d is mapped. */
  ghost predicate NoneFrom(n: Mem, d: nat, v: nat, w: nat) {
    forall i: nat, j: nat {:trigger Look(n, d, i, j)} ::
      i < ENTRIES && j < ENTRIES && InRange(v, w, i, j) ==> !Look(n, d, i, j).p
  }

  lemma SkipFrame(m: Mem, n: Mem, d: nat, lo: nat, v: nat, w: nat, f: nat)
    requires Inv(n) && NoneFrom(n, d, v, w) && lo <= v <= w && n.owner.Keys == m.owner.Keys
    requires f in m.owner && FrameEmptied(m, n, d, lo, v, f) && Is(n, d, Dir)
    ensures FrameEmptied(m, n, d, lo, w, f)
  {
    assert FrameOk(n, f);
  }

  lemma SkipLook(m: Mem, n: Mem, d: nat, lo: nat, v: nat, w: nat, i: nat, j: nat)
    requires Inv(n) && NoneFrom(n, d, v, w) && lo <= v <= w <= ENTRIES * USERDIRS && Is(n, d, Dir)
    requires i < ENTRIES && j < ENTRIES
    requires Look(n, d, i, j) == if InRange(lo, v, i, j) then NONE else Look(m, d, i, j)
    ensures Look(n, d, i, j) == if InRange(lo, w, i, j) then NONE else Look(m, d, i, j)
  {
    assert EntryOk(n, d, i, j);
  }

  /** Pages v to w that are not mapped need no emptying. */
  lemma EmptiedSkip(m: Mem, n: Mem, d: nat, lo: nat, v: nat, w: nat)
    requires Inv(m) && Inv(n) && Emptied(m, n, d, lo, v) && Is(m, d, Dir) && lo <= v <= w <= ENTRIES * USERDIRS
    requires NoneFrom(n, d, v, w)
    ensures Emptied(m, n, d, lo, w)
  {
    EmptiedDir(m, n, d, lo, v);
    forall f: nat {:trigger FrameEmptied(m, n, d, lo, w, f)} | f in m.owner
      ensures FrameEmptied(m, n, d, lo, w, f)
    {
      assert FrameEmptied(m, n, d, lo, v, f);
      SkipFrame(m, n, d, lo, v, w, f);
    }
    forall i: nat, j: nat {:trigger Look(n, d, i, j)} | i < ENTRIES && j < ENTRIES
      ensures Look(n, d, i, j) == if InRange(lo, w, i, j) then NONE else Look(m, d, i, j)
    {
      SkipLook(m, n, d, lo, v, w, i, j);
    }
  }

  /** One page of d unmapped and its frame given back. */
  function Dropped(n: Mem, d: nat, i: nat, j: nat): Mem
    requires i < ENTRIES && j < ENTRIES && HasTable(n, d, i) && TableAt(n, d, i) in n.tables
  {
    Given(Unmap(n, d, i, j), Look(n, d, i, j).frame)
  }

  predicate CanDrop(n: Mem, d: nat, i: nat, j: nat) {
    && i < USERDIRS && j < ENTRIES && Is(n, d, Dir) && HasTable(n, d, i) && TableAt(n, d, i) in n.tables
    && Look(n, d, i, j).p
  }

  lemma DroppedFrame(m: Mem, n: Mem, d: nat, lo: nat, i: nat, j: nat, f: nat)
    requires Inv(m) && Inv(n) && CanDrop(n, d, i, j) && Emptied(m, n, d, lo, ENTRIES * i + j) && lo <= ENTRIES * i + j
    requires f in m.owner
    ensures f in Dropped(n, d, i, j).owner
            && FrameEmptied(m, Dropped(n, d, i, j), d, lo, ENTRIES * i + j + 1, f)
  {
    var v := ENTRIES * i + j;
    assert EntryOk(n, d, i, j) && DirOk(n, d, i);
    assert FrameEmptied(m, n, d, lo, v, Look(n, d, i, j).frame);
    assert FrameEmptied(m, n, d, lo, v, f) && FrameOk(m, f);
    if Leaving(m, d, lo, v + 1, f) && !Leaving(m, d, lo, v, f) {
      assert FrameOk(n, f);
    }
  }

  lemma DroppedLook(m: Mem, n: Mem, d: nat, lo: nat, i: nat, j: nat, k: nat, l: nat)
    requires Inv(n) && CanDrop(n, d, i, j) && Emptied(m, n, d, lo, ENTRIES * i + j) && lo <= ENTRIES * i + j
    requires k < ENTRIES && l < ENTRIES
    ensures Look(Dropped(n, d, i, j), d, k, l) ==
              if InRange(lo, ENTRIES * i + j + 1, k, l) then NONE else Look(m, d, k, l)
  {
    assert EntryOk(n, d, i, j) && DirOk(n, d, i);
    LookEntry(n, d, i, j, NONE, d, k, l);
    assert Look(n, d, k, l) == if InRange(lo, ENTRIES * i + j, k, l) then NONE else Look(m, d, k, l);
  }

  /** One more page is emptied. */
  lemma EmptiedMore(m: Mem, n: Mem, d: nat, lo: nat, i: nat, j: nat)
    requires Inv(m) && Inv(n) && CanDrop(n, d, i, j) && Emptied(m, n, d, lo, ENTRIES * i + j) && lo <= ENTRIES * i + j
    ensures Emptied(m, Dropped(n, d, i, j), d, lo, ENTRIES * i + j + 1)
  {
    var p := Dropped(n, d, i, j);
    assert p.owner.Keys == m.owner.Keys by {
      assert EntryOk(n, d, i, j) && Look(n, d, i, j).frame in n.owner;
    }
    forall f: nat {:trigger FrameEmptied(m, p, d, lo, ENTRIES * i + j + 1, f)} | f in m.owner
      ensures f in p.owner && FrameEmptied(m, p, d, lo, ENTRIES * i + j + 1, f)
    {
      DroppedFrame(m, n, d, lo, i, j, f);
    }
    forall k: nat, l: nat {:trigger Look(p, d, k, l)} | k < ENTRIES && l < ENTRIES
      ensures Look(p, d, k, l) == if InRange(lo, ENTRIES * i + j + 1, k, l) then NONE else Look(m, d, k, l)
    {
      DroppedLook(m, n, d, lo, i, j, k, l);
    }
  }

  lemma EmptiedOthers(m: Mem, n: Mem, d: nat, lo: nat, hi: nat)
    requires Emptied(m, n, d, lo, hi)
    ensures Others(m, n, d)
  {
    forall f: nat {:trigger FrameKept(m, n, d, f)} | f in m.owner
      ensures FrameKept(m, n, d, f)
    {
      assert FrameEmptied(m, n, d, lo, hi, f);
    }
  }

  /** Taking a frame, emptying a range and giving the frame back is emptying the range. */
  lemma TakenAndGiven(m: Mem, z: Page, n: Mem, d: nat, lo: nat, hi: nat)
    requires Inv(m) && m.free != [] && Is(m, d, Dir)
    requires var t := Taken(m); Emptied(t.(pages := t.pages[m.free[0] := z]), n, d, lo, hi)
    ensures Emptied(m, Given(n, m.free[0]), d, lo, hi)
  {
    var f := m.free[0];
    assert f in m.free;
    var t := Taken(m).(pages := m.pages[f := z]);
    var p := Given(n, f);
    forall g: nat {:trigger FrameEmptied(m, p, d, lo, hi, g)} | g in m.owner
      ensures FrameEmptied(m, p, d, lo, hi, g)
    {
      assert FrameEmptied(t, n, d, lo, hi, g);
    }
    forall i: nat, j: nat {:trigger Look(p, d, i, j)} | i < ENTRIES && j < ENTRIES
      ensures Look(p, d, i, j) == if InRange(lo, hi, i, j) then NONE else Look(m, d, i, j)
    {
      assert Look(p, d, i, j) == Look(n, d, i, j) && Look(t, d, i, j) == Look(m, d, i, j);
    }
  }

  /**
   * What a failed allocuvm leaves: no page in the range is mapped, the rest of the map and every other frame of the
   * directory are as before, and it took at most free frames, for tables.
   */
  ghost predicate Undone(m: Mem, n: Mem, d: nat, lo: nat, hi: nat) {
    && Others(m, n, d) && Is(n, d, Dir)
    && (forall i: nat, j: nat {:trigger Look(n, d, i, j)} :: i < ENTRIES && j < ENTRIES ==>
          Look(n, d, i, j) == if InRange(lo, hi, i, j) then NONE else Look(m, d, i, j))
    && forall f: nat {:trigger Mine(m, f, d)} :: f in m.pages && Mine(m, f, d) && !Leaving(m, d, lo, hi, f) ==>
         && f in n.owner && n.owner[f] == m.owner[f]
         && (m.owner[f].User? ==> f in n.pages && n.pages[f] == m.pages[f])
  }

  lemma GrownUndone(m: Mem, n: Mem, p: Mem, d: nat, lo: nat, v: nat, hi: nat)
    requires Inv(m) && Inv(n) && Grown(m, n, d, lo, v) && Emptied(n, p, d, lo, hi) && v <= hi
    ensures Undone(m, p, d, lo, hi)
  {
    EmptiedOthers(n, p, d, lo, hi);
    OthersTrans(m, n, p, d);
    EmptiedDir(n, p, d, lo, hi);
    forall i: nat, j: nat {:trigger Look(p, d, i, j)} | i < ENTRIES && j < ENTRIES
      ensures Look(p, d, i, j) == if InRange(lo, hi, i, j) then NONE else Look(m, d, i, j)
    {
      assert !InRange(lo, v, i, j) ==> Look(n, d, i, j) == Look(m, d, i, j);
    }
    forall f: nat {:trigger Mine(m, f, d)} | f in m.pages && Mine(m, f, d) && !Leaving(m, d, lo, hi, f)
      ensures f in p.owner && p.owner[f] == m.owner[f]
      ensures m.owner[f].User? ==> f in p.pages && p.pages[f] == m.pages[f]
    {
      assert FrameEmptied(n, p, d, lo, hi, f);
    }
  }

  // Freeing a whole directory.

  predicate FrameFreed(m: Mem, n: Mem, d: nat, f: nat)
    requires f in m.owner && f in n.owner
  {
    if Mine(m, f, d) || m.owner[f].Free? then n.owner[f].Free? else SameFrame(m, n, f)
  }

  /** The directory, its tables and its pages are free, and nothing else has changed. */
  ghost predicate Freed(m: Mem, n: Mem, d: nat) {
    && n.owner.Keys == m.owner.Keys
    && forall f: nat {:trigger FrameFreed(m, n, d, f)} :: f in m.owner ==> FrameFreed(m, n, d, f)
  }

  /** The same frames are free in m and n, and the others hold the same. */
  ghost predicate Restored(m: Mem, n: Mem) {
    && n.owner == m.owner
    && forall f: nat {:trigger SameFrame(m, n, f)} :: f in m.owner && !m.owner[f].Free? ==> SameFrame(m, n, f)
  }

  /** Freeing a directory gives back exactly the frames it was made of since it came into being. */
  lemma LifeCycle(m: Mem, n: Mem, p: Mem, d: nat)
    requires Is(m, d, Free) && (forall f: nat {:trigger Mine(m, f, d)} :: !Mine(m, f, d))
    requires Others(m, n, d) && Freed(n, p, d)
    ensures Restored(m, p)
  {
    forall f: nat | f in m.owner
      ensures p.owner[f] == m.owner[f] && (!m.owner[f].Free? ==> SameFrame(m, p, f))
    {
      assert FrameKept(m, n, d, f) && FrameFreed(n, p, d, f);
    }
  }

  lemma NewDir(m: Mem, d: nat)
    requires Inv(m) && m.free != [] && d == m.free[0]
    ensures Others(m, WithDir(Taken(m), d), d)
  {
    var n := WithDir(Taken(m), d);
    assert d in m.free;
    forall f: nat {:trigger FrameKept(m, n, d, f)} | f in m.owner
      ensures FrameKept(m, n, d, f)
    {
    }
  }

  /** A free frame is nobody's directory. */
  lemma FreeIsNoDir(m: Mem, d: nat)
    requires Inv(m) && Is(m, d, Free)
    ensures forall f: nat {:trigger Mine(m, f, d)} :: !Mine(m, f, d)
  {
    forall f: nat {:trigger Mine(m, f, d)}
      ensures !Mine(m, f, d)
    {
      assert f in m.owner ==> FrameOk(m, f);
    }
  }

  /** A directory without user pages given up: it and its tables are in no use, though not yet on the free list. */
  function Orphaned(m: Mem, d: nat): Mem {
    m.(owner := map f | f in m.owner :: if Mine(m, f, d) then Loose else m.owner[f])
  }

  lemma InvOrphaned(m: Mem, d: nat)
    requires Inv(m) && Is(m, d, Dir)
    requires forall i: nat, j: nat {:trigger Look(m, d, i, j)} :: i < USERDIRS && j < ENTRIES ==> !Look(m, d, i, j).p
    ensures Inv(Orphaned(m, d))
  {
    var n := Orphaned(m, d);
    forall f: nat {:trigger FrameOk(n, f)} | f in n.owner
      ensures FrameOk(n, f)
    {
      assert FrameOk(m, f);
    }
    forall f: nat {:trigger f in n.free} | f in n.free
      ensures Is(n, f, Free)
    {
      assert Is(m, f, Free);
    }
    forall e: nat, k: nat {:trigger DirOk(n, e, k)} | k < ENTRIES
      ensures DirOk(n, e, k)
    {
      assert DirOk(m, e, k);
    }
    forall e: nat, k: nat, l: nat {:trigger EntryOk(n, e, k, l)} | k < ENTRIES && l < ENTRIES
      ensures EntryOk(n, e, k, l)
    {
      assert EntryOk(m, e, k, l);
    }
  }

  predicate FrameTorn(m: Mem, n: Mem, d: nat, k: nat, f: nat)
    requires f in m.owner && f in n.owner
  {
    if Mine(m, f, d) then n.owner[f] == if m.owner[f].Tab? && m.owner[f].i < k then Free else Loose
    else n.owner[f] == m.owner[f] && (!m.owner[f].Free? ==> SameFrame(m, n, f))
  }

  /** freevm has freed the first k tables of the directory. */
  ghost predicate Torn(m: Mem, n: Mem, d: nat, k: nat) {
    && n.owner.Keys == m.owner.Keys && n.tables == m.tables
    && forall f: nat {:trigger FrameTorn(m, n, d, k, f)} :: f in m.owner ==> FrameTorn(m, n, d, k, f)
  }

  lemma TornStart(m: Mem, d: nat)
    ensures Torn(m, Orphaned(m, d), d, 0)
  {
  }

  lemma TornSkip(m: Mem, n: Mem, d: nat, k: nat)
    requires Inv(m) && Torn(m, n, d, k) && k < ENTRIES && Is(m, d, Dir) && d in m.tables && !m.tables[d][k].p
    ensures Torn(m, n, d, k + 1)
  {
    forall f: nat {:trigger FrameTorn(m, n, d, k + 1, f)} | f in m.owner
      ensures FrameTorn(m, n, d, k + 1, f)
    {
      assert FrameTorn(m, n, d, k, f) && FrameOk(m, f);
    }
  }

  lemma TornMore(m: Mem, n: Mem, d: nat, k: nat)
    requires Inv(m) && Torn(m, n, d, k) && k < ENTRIES && Is(m, d, Dir) && d in m.tables && m.tables[d][k].p
    ensures Is(n, m.tables[d][k].frame, Loose)
    ensures Torn(m, Given(n, m.tables[d][k].frame), d, k + 1)
  {
    var t := m.tables[d][k].frame;
    var p := Given(n, t);
    assert DirOk(m, d, k) && FrameTorn(m, n, d, k, t);
    forall f: nat {:trigger FrameTorn(m, p, d, k + 1, f)} | f in m.owner
      ensures FrameTorn(m, p, d, k + 1, f)
    {
      assert FrameTorn(m, n, d, k, f) && FrameOk(m, f);
    }
  }

  lemma TornFreed(m: Mem, n: Mem, p: Mem, d: nat)
    requires Inv(m) && Inv(n) && Emptied(m, n, d, 0, ENTRIES * USERDIRS) && Torn(n, p, d, ENTRIES) && Is(m, d, Dir)
    ensures Is(p, d, Loose) && Freed(m, Given(p, d), d)
  {
    var q := Given(p, d);
    assert FrameEmptied(m, n, d, 0, ENTRIES * USERDIRS, d) && FrameTorn(n, p, d, ENTRIES, d);
    forall f: nat {:trigger FrameFreed(m, q, d, f)} | f in m.owner
      ensures FrameFreed(m, q, d, f)
    {
      assert FrameEmptied(m, n, d, 0, ENTRIES * USERDIRS, f) && FrameTorn(n, p, d, ENTRIES, f);
      assert FrameOk(m, f) && FrameOk(n, f);
    }
  }

  // Copying a space.

  /** y maps a frame that was free in m and holds in n what the frame of x held in m, with the same bits. */
  predicate CopyOf(m: Mem, n: Mem, x: Entry, y: Entry) {
    && x.p && y == x.(frame := y.frame) && Is(m, y.frame, Free)
    && x.frame in m.pages && y.frame in n.pages && n.pages[y.frame] == m.pages[x.frame]
  }

  /**
   * e is a new directory with the kernel half and with copies of the user pages of d from page 1 up to page v; page 0
   * is not copied.
   */
  ghost predicate CopiedTo(m: Mem, n: Mem, d: nat, e: nat, v: nat, kmap: seq<Range>) {
    && Others(m, n, e) && Is(n, e, Dir)
    && forall i: nat, j: nat {:trigger Look(n, e, i, j)} :: i < ENTRIES && j < ENTRIES ==>
         if i < USERDIRS && InRange(1, v, i, j) then CopyOf(m, n, Look(m, d, i, j), Look(n, e, i, j))
         else Look(n, e, i, j) == Kern(kmap, |kmap|, i, j)
  }

  lemma CopiedNothing(m: Mem, n: Mem, d: nat, e: nat, kmap: seq<Range>)
    requires Others(m, n, e) && KernelOnly(n, e, kmap, |kmap|)
    ensures CopiedTo(m, n, d, e, 1, kmap) && CopiedTo(m, n, d, e, 0, kmap)
  {
  }

  lemma CopiedMore(m: Mem, n: Mem, p: Mem, d: nat, e: nat, i: nat, j: nat, kmap: seq<Range>)
    requires i < USERDIRS && j < ENTRIES && 0 < ENTRIES * i + j
    requires Inv(m) && Inv(n) && Is(m, e, Free) && CopiedTo(m, n, d, e, ENTRIES * i + j, kmap)
    requires var x := Look(m, d, i, j);
             x.p && x.frame in m.pages && PageAdded(n, p, e, i, j, m.pages[x.frame], x.w, x.u)
    ensures CopiedTo(m, p, d, e, ENTRIES * i + j + 1, kmap)
  {
    OthersTrans(m, n, p, e);
    FreeIsNoDir(m, e);
    var v := ENTRIES * i + j;
    forall k: nat, l: nat {:trigger Look(p, e, k, l)} | k < ENTRIES && l < ENTRIES
      ensures if k < USERDIRS && InRange(1, v + 1, k, l) then CopyOf(m, p, Look(m, d, k, l), Look(p, e, k, l))
              else Look(p, e, k, l) == Kern(kmap, |kmap|, k, l)
    {
      if k == i && l == j {
        assert FrameKept(m, n, e, Look(p, e, i, j).frame);
      } else {
        assert Look(p, e, k, l) == Look(n, e, k, l);
        if k < USERDIRS && InRange(1, v, k, l) {
          assert EntryOk(n, e, k, l);
          assert Mine(n, Look(n, e, k, l).frame, e);
        }
      }
    }
  }

  /** A frame taken and given back is no matter. */
  lemma GivenBack(m: Mem, n: Mem, z: Page, e: nat)
    requires Others(m, n, e) && Inv(n) && n.free != []
    ensures Others(m, Given(Taken(n).(pages := n.pages[n.free[0] := z]), n.free[0]), e)
  {
    var f := n.free[0];
    var p := Given(Taken(n).(pages := n.pages[f := z]), f);
    assert f in n.free;
    forall g: nat {:trigger FrameKept(m, p, e, g)} | g in m.owner
      ensures FrameKept(m, p, e, g)
    {
      assert FrameKept(m, n, e, g);
    }
  }

  // Protection.

  function Writable(x: Entry, on: bool): Entry { if x.p && x.u then x.(w := on) else x }

  /** The write bit of the user pages of d from lo to hi is as asked for; nothing else has changed. */
  ghost predicate Protected(m: Mem, n: Mem, d: nat, lo: nat, hi: nat, on: bool) {
    && n.free == m.free && n.pages == m.pages && n.owner == m.owner && Others(m, n, d)
    && (forall i: nat {:trigger HasTable(n, d, i)} :: i < ENTRIES ==> HasTable(n, d, i) == HasTable(m, d, i))
    && forall e: nat, i: nat, j: nat {:trigger Look(n, e, i, j)} :: Is(m, e, Dir) && i < ENTRIES && j < ENTRIES ==>
         Look(n, e, i, j)
         == if e == d && InRange(lo, hi, i, j) then Writable(Look(m, d, i, j), on) else Look(m, e, i, j)
  }

  lemma ProtectedMore(m: Mem, n: Mem, p: Mem, d: nat, lo: nat, i: nat, j: nat, on: bool)
    requires i < USERDIRS && j < ENTRIES && lo <= ENTRIES * i + j && Inv(n) && Is(m, d, Dir)
    requires Protected(m, n, d, lo, ENTRIES * i + j, on) && HasTable(n, d, i) && TableAt(n, d, i) in n.tables
    requires p == var x := Look(n, d, i, j); if x.p && x.u then WithEntry(n, d, i, j, x.(w := on)) else n
    ensures Protected(m, p, d, lo, ENTRIES * i + j + 1, on)
  {
    var v, x := ENTRIES * i + j, Look(n, d, i, j);
    assert x == Look(m, d, i, j) && DirOk(n, d, i);
    forall f: nat {:trigger FrameKept(m, p, d, f)} | f in m.owner
      ensures FrameKept(m, p, d, f)
    {
      assert FrameKept(m, n, d, f);
    }
    forall k: nat {:trigger HasTable(p, d, k)} | k < ENTRIES
      ensures HasTable(p, d, k) == HasTable(m, d, k)
    {
      assert HasTable(n, d, k) == HasTable(m, d, k);
      assert DirOk(n, d, i);
    }
    forall e: nat, k: nat, l: nat {:trigger Look(p, e, k, l)} | Is(m, e, Dir) && k < ENTRIES && l < ENTRIES
      ensures Look(p, e, k, l)
              == if e == d && InRange(lo, v + 1, k, l) then Writable(Look(m, d, k, l), on) else Look(m, e, k, l)
    {
      if x.p && x.u {
        LookEntry(n, d, i, j, x.(w := on), e, k, l);
      }
      assert Look(n, e, k, l)
             == if e == d && InRange(lo, v, k, l) then Writable(Look(m, d, k, l), on) else Look(m, e, k, l);
    }
  }

  // Addresses.

  /** PGROUNDUP(sz), in pages. */
  function Up(sz: nat): nat { (sz + PGSIZE - 1) / PGSIZE }

  function Pdx(a: nat): nat { a / 0x40_0000 }

  function Ptx(a: nat): nat { a / 0x1000 % 0x400 }

  lemma Indices(v: nat)
    ensures Pdx(PGSIZE * v) == v / ENTRIES && Ptx(PGSIZE * v) == v % ENTRIES
    ensures v == ENTRIES * (v / ENTRIES) + v % ENTRIES
  {
  }

  lemma UpIs(sz: nat, v: nat)
    ensures PGSIZE * v < sz <==> v < Up(sz)
  {
  }

  // How many frames an operation takes.

  /** For every entry of a directory whether there is a table behind it. */
  type Tables = ts: seq<bool> | |ts| == ENTRIES witness seq(ENTRIES, _ => false)

  function NoTables(): Tables { seq(ENTRIES, _ => false) }

  ghost predicate Has(m: Mem, d: nat, ts: Tables) {
    forall i: nat {:trigger ts[i]} :: i < ENTRIES ==> ts[i] == HasTable(m, d, i)
  }

  function TablesOf(m: Mem, d: nat): (ts: Tables)
    ensures Has(m, d, ts)
  {
    seq(ENTRIES, i requires 0 <= i < ENTRIES => HasTable(m, d, i))
  }

  /** Some page from lo to hi is behind entry i. */
  predicate Spans(lo: nat, hi: nat, i: nat) { lo < hi && lo / ENTRIES <= i <= (hi - 1) / ENTRIES }

  /** The tables once pages lo to hi have theirs. */
  function After(ts: Tables, lo: nat, hi: nat): Tables {
    seq(ENTRIES, i requires 0 <= i < ENTRIES => ts[i] || Spans(lo, hi, i))
  }

  /** How many of the entries from a on before b have no table. */
  function Missing(ts: Tables, a: nat, b: nat): (r: nat)
    ensures r <= b
    decreases b
  {
    if b <= a then 0 else Missing(ts, a, b - 1) + if b - 1 < ENTRIES && !ts[b - 1] then 1 else 0
  }

  /** How many tables pages lo to hi lack. */
  function Lacking(ts: Tables, lo: nat, hi: nat): nat {
    if hi <= lo then 0 else Missing(ts, lo / ENTRIES, (hi - 1) / ENTRIES + 1)
  }

  lemma {:induction false} MissingMonotone(ts: Tables, a: nat, b: nat, c: nat)
    requires b <= c
    ensures Missing(ts, a, b) <= Missing(ts, a, c)
    decreases c
  {
    if b < c {
      MissingMonotone(ts, a, b, c - 1);
    }
  }

  lemma PageIndex(lo: nat, i: nat, j: nat)
    requires j < ENTRIES && lo <= ENTRIES * i + j
    ensures (ENTRIES * i + j) / ENTRIES == i && lo / ENTRIES <= i
    ensures 0 < ENTRIES * i + j ==> (ENTRIES * i + j - 1) / ENTRIES == if j == 0 then i - 1 else i
  {
  }

  lemma LackingNext(ts: Tables, lo: nat, i: nat, j: nat)
    requires i < ENTRIES && j < ENTRIES && lo <= ENTRIES * i + j
    ensures var v := ENTRIES * i + j;
            Lacking(ts, lo, v + 1) == Lacking(ts, lo, v) + if ts[i] || Spans(lo, v, i) then 0 else 1
  {
    var v := ENTRIES * i + j;
    PageIndex(lo, i, j);
    var a := lo / ENTRIES;
    assert Lacking(ts, lo, v + 1) == Missing(ts, a, i + 1);
    if lo == v {
      assert Missing(ts, a, i) == 0;
    } else {
      assert Lacking(ts, lo, v) == Missing(ts, a, if j == 0 then i else i + 1);
    }
  }

  lemma AfterNext(ts: Tables, lo: nat, i: nat, j: nat)
    requires i < ENTRIES && j < ENTRIES && lo <= ENTRIES * i + j
    ensures var v := ENTRIES * i + j;
            && After(ts, lo, v + 1) == After(ts, lo, v)[i := true]
            && Lacking(ts, lo, v + 1) == Lacking(ts, lo, v) + if After(ts, lo, v)[i] then 0 else 1
  {
    LackingNext(ts, lo, i, j);
    PageIndex(lo, i, j);
  }

  lemma LackingMonotone(ts: Tables, lo: nat, v: nat, hi: nat)
    requires v <= hi
    ensures Lacking(ts, lo, v) <= Lacking(ts, lo, hi)
  {
    if lo < v {
      assert (v - 1) / ENTRIES <= (hi - 1) / ENTRIES;
      MissingMonotone(ts, lo / ENTRIES, (v - 1) / ENTRIES + 1, (hi - 1) / ENTRIES + 1);
    }
  }

  /** From m to n directory d has got a table behind entry i, if it had none, and k pages, all on free frames. */
  ghost predicate TableUsed(m: Mem, n: Mem, d: nat, i: nat, k: nat)
    requires i < ENTRIES
  {
    && |n.free| + k + (if HasTable(m, d, i) then 0 else 1) == |m.free|
    && forall x: nat {:trigger HasTable(n, d, x)} ::
         x < ENTRIES ==> (HasTable(n, d, x) <==> HasTable(m, d, x) || x == i)
  }

  lemma TableMadeUsed(m: Mem, d: nat, i: nat)
    requires Inv(m) && Is(m, d, Dir) && i < ENTRIES && d in m.tables && (HasTable(m, d, i) || m.free != [])
    ensures TableUsed(m, TableMade(m, d, i), d, i, 0)
  {
    if !HasTable(m, d, i) {
      assert m.free[0] in m.free;
    }
  }

  lemma EntryUsed(m: Mem, n: Mem, p: Mem, d: nat, i: nat, j: nat, x: Entry)
    requires Inv(n) && Is(n, d, Dir) && i < ENTRIES && j < ENTRIES && TableUsed(m, n, d, i, 0)
    requires HasTable(n, d, i) && TableAt(n, d, i) in n.tables
    requires p.tables == WithEntry(n, d, i, j, x).tables && p.free == n.free
    ensures TableUsed(m, p, d, i, 0)
  {
    assert DirOk(n, d, i);
    assert forall k: nat {:trigger HasTable(p, d, k)} :: k < ENTRIES ==> HasTable(p, d, k) == HasTable(n, d, k);
  }

  /** Since m, where it had the tables ts, d has got the tables for pages lo to v, and k pages. */
  ghost predicate Spent(m: Mem, n: Mem, d: nat, ts: Tables, lo: nat, v: nat, k: nat) {
    Has(n, d, After(ts, lo, v)) && |n.free| + Lacking(ts, lo, v) + k == |m.free|
  }

  lemma SpentNothing(m: Mem, d: nat, ts: Tables, lo: nat)
    requires Has(m, d, ts)
    ensures Spent(m, m, d, ts, lo, lo, 0)
  {
    assert After(ts, lo, lo) == ts;
  }

  lemma SpentNext(m: Mem, n: Mem, p: Mem, d: nat, ts: Tables, lo: nat, i: nat, j: nat, k: nat, l: nat)
    requires i < ENTRIES && j < ENTRIES && lo <= ENTRIES * i + j
    requires Spent(m, n, d, ts, lo, ENTRIES * i + j, k) && TableUsed(n, p, d, i, l)
    ensures Spent(m, p, d, ts, lo, ENTRIES * i + j + 1, k + l)
  {
    AfterNext(ts, lo, i, j);
    assert After(ts, lo, ENTRIES * i + j)[i] == HasTable(n, d, i);
  }

  /** A page more needs a table more, and there is no frame for it beside l others. */
  lemma SpentOut(m: Mem, n: Mem, d: nat, ts: Tables, lo: nat, i: nat, j: nat, hi: nat, k: nat)
    requires i < ENTRIES && j < ENTRIES && lo <= ENTRIES * i + j < hi
    requires Spent(m, n, d, ts, lo, ENTRIES * i + j, k)
    ensures |m.free| <= |n.free| + k + Lacking(ts, lo, hi)
    ensures !HasTable(n, d, i) ==> |m.free| + 1 <= |n.free| + k + Lacking(ts, lo, hi)
  {
    AfterNext(ts, lo, i, j);
    LackingMonotone(ts, lo, ENTRIES * i + j + 1, hi);
    assert After(ts, lo, ENTRIES * i + j)[i] == HasTable(n, d, i);
  }

  /** Some of the first k rows of the kernel half needs a table behind entry i. */
  predicate RowsSpan(kmap: seq<Range>, k: nat, i: nat)
    requires k <= |kmap|
  {
    exists l: nat {:trigger kmap[l]} :: l < k && Spans(kmap[l].v, kmap[l].v + kmap[l].n, i)
  }

  function KernTables(kmap: seq<Range>, k: nat): Tables
    requires k <= |kmap|
  {
    seq(ENTRIES, i requires 0 <= i < ENTRIES => RowsSpan(kmap, k, i))
  }

  /** How many entries have no table. */
  function Bare(ts: Tables): nat { Missing(ts, 0, |ts|) }

  /** How many tables the first k rows need. */
  function KernFrames(kmap: seq<Range>, k: nat): nat
    requires k <= |kmap|
  {
    ENTRIES - Bare(KernTables(kmap, k))
  }

  /** Where this is mentioned KernPaid and KernLacks stand for what they say; elsewhere they are names. */
  predicate InFull(x: nat) { true }

  /** From m to n directory d has got the tables of the first k rows. */
  ghost predicate KernPaid(m: Mem, n: Mem, d: nat, kmap: seq<Range>, k: nat)
    requires k <= |kmap|
  {
    forall x: nat {:trigger InFull(x)} ::
      InFull(x) ==> Has(n, d, KernTables(kmap, k)) && |n.free| + KernFrames(kmap, k) == |m.free|
  }

  /** So many frames are too few for the tables of the kernel half. */
  ghost predicate KernLacks(had: nat, kmap: seq<Range>) {
    forall x: nat {:trigger InFull(x)} :: InFull(x) ==> had < KernFrames(kmap, |kmap|)
  }

  /** The tables an entry has got are no longer missing. */
  lemma {:induction false} MissingAfter(ts: Tables, lo: nat, hi: nat, b: nat)
    requires lo < hi && b <= ENTRIES
    ensures Missing(After(ts, lo, hi), 0, b) + Missing(ts, lo / ENTRIES, Min(b, (hi - 1) / ENTRIES + 1))
            == Missing(ts, 0, b)
    decreases b
  {
    if b > 0 {
      MissingAfter(ts, lo, hi, b - 1);
      assert After(ts, lo, hi)[b - 1] == (ts[b - 1] || Spans(lo, hi, b - 1));
    }
  }

  lemma {:induction false} MissingClip(ts: Tables, a: nat, b: nat)
    requires b >= ENTRIES
    ensures Missing(ts, a, b) == Missing(ts, a, ENTRIES)
    decreases b
  {
    if b > ENTRIES {
      MissingClip(ts, a, b - 1);
    }
  }

  lemma LackingAfter(ts: Tables, lo: nat, hi: nat)
    ensures Bare(After(ts, lo, hi)) + Lacking(ts, lo, hi) == Bare(ts)
  {
    if lo < hi {
      MissingAfter(ts, lo, hi, |ts|);
      var c := (hi - 1) / ENTRIES + 1;
      if c > ENTRIES {
        MissingClip(ts, lo / ENTRIES, c);
      }
    } else {
      assert After(ts, lo, hi) == ts;
    }
  }

  lemma {:induction false} MissingLess(ts: Tables, us: Tables, b: nat)
    requires b <= ENTRIES && forall i :: 0 <= i < b && ts[i] ==> us[i]
    ensures Missing(us, 0, b) <= Missing(ts, 0, b)
    decreases b
  {
    if b > 0 {
      MissingLess(ts, us, b - 1);
    }
  }

  /** One more row. */
  lemma KernTablesNext(kmap: seq<Range>, k: nat)
    requires k < |kmap|
    ensures KernTables(kmap, k + 1) == After(KernTables(kmap, k), kmap[k].v, kmap[k].v + kmap[k].n)
  {
  }

  lemma KernFramesNext(kmap: seq<Range>, k: nat)
    requires k < |kmap|
    ensures KernFrames(kmap, k + 1)
            == KernFrames(kmap, k) + Lacking(KernTables(kmap, k), kmap[k].v, kmap[k].v + kmap[k].n)
  {
    KernTablesNext(kmap, k);
    LackingAfter(KernTables(kmap, k), kmap[k].v, kmap[k].v + kmap[k].n);
  }

  lemma KernFramesGrow(kmap: seq<Range>, k: nat)
    requires k <= |kmap|
    ensures KernFrames(kmap, k) <= KernFrames(kmap, |kmap|)
  {
    var ts, us := KernTables(kmap, k), KernTables(kmap, |kmap|);
    assert forall i :: 0 <= i < ENTRIES && ts[i] ==> us[i];
    MissingLess(ts, us, |ts|);
  }

  lemma {:induction false} AllBare(b: nat)
    requires b <= ENTRIES
    ensures Missing(NoTables(), 0, b) == b
    decreases b
  {
    if b > 0 {
      AllBare(b - 1);
    }
  }

  lemma NoRows(kmap: seq<Range>)
    ensures KernTables(kmap, 0) == NoTables() && KernFrames(kmap, 0) == 0
  {
    AllBare(|NoTables()|);
  }

  lemma KernelMore(n: Mem, p: Mem, d: nat, kmap: seq<Range>, k: nat)
    requires k < |kmap| && KernelOnly(n, d, kmap, k) && RowMapped(n, p, d, kmap[k], kmap[k].n)
    ensures KernelOnly(p, d, kmap, k + 1)
  {
    forall i: nat, j: nat {:trigger Look(p, d, i, j)} | i < ENTRIES && j < ENTRIES
      ensures Look(p, d, i, j) == Kern(kmap, k + 1, i, j)
    {
      assert Look(n, d, i, j) == Kern(kmap, k, i, j);
    }
  }

  lemma KernPaidNext(m: Mem, n: Mem, p: Mem, d: nat, kmap: seq<Range>, k: nat)
    requires k < |kmap| && KernPaid(m, n, d, kmap, k)
    requires Spent(n, p, d, KernTables(kmap, k), kmap[k].v, kmap[k].v + kmap[k].n, 0)
    ensures KernPaid(m, p, d, kmap, k + 1)
  {
    assert InFull(0);
    KernTablesNext(kmap, k);
    KernFramesNext(kmap, k);
  }

  lemma KernShort(m: Mem, n: Mem, d: nat, kmap: seq<Range>, k: nat)
    requires k < |kmap| && KernPaid(m, n, d, kmap, k)
    requires |n.free| < Lacking(KernTables(kmap, k), kmap[k].v, kmap[k].v + kmap[k].n)
    ensures KernLacks(|m.free|, kmap)
  {
    assert InFull(0);
    KernFramesNext(kmap, k);
    KernFramesGrow(kmap, k + 1);
  }

  lemma KernStart(m: Mem, d: nat, kmap: seq<Range>)
    requires Has(m, d, NoTables())
    ensures KernPaid(m, m, d, kmap, 0)
  {
    NoRows(kmap);
  }

  lemma KernHas(m: Mem, n: Mem, d: nat, kmap: seq<Range>, k: nat)
    requires k <= |kmap| && KernPaid(m, n, d, kmap, k)
    ensures Has(n, d, KernTables(kmap, k)) && |n.free| + KernFrames(kmap, k) == |m.free|
  {
    assert InFull(0);
  }

  lemma KernLacksIs(had: nat, kmap: seq<Range>)
    requires KernLacks(had, kmap)
    ensures had < KernFrames(kmap, |kmap|)
  {
    assert InFull(0);
  }

  // A process and its size.

  /** Page (i, j) is mapped as in a space of sz bytes. Page 0 need not be: exec leaves it out, and copyuvm does. */
  predicate SizedAt(m: Mem, d: nat, sz: nat, i: nat, j: nat)
    requires i < ENTRIES && j < ENTRIES
  {
    var v, p := ENTRIES * i + j, Look(m, d, i, j).p;
    if v == 0 then p ==> sz > 0 else p <==> v < Up(sz)
  }

  /** The user pages of d are those below sz. */
  ghost predicate Sized(m: Mem, d: nat, sz: nat) {
    && Is(m, d, Dir)
    && forall i: nat, j: nat {:trigger SizedAt(m, d, sz, i, j)} ::
         i < USERDIRS && j < ENTRIES ==> SizedAt(m, d, sz, i, j)
  }

  /** All pages of d, the kernel's too, are mapped in n as in m. */
  ghost predicate SameMap(m: Mem, n: Mem, d: nat) {
    && Is(n, d, Dir)
    && forall i: nat, j: nat {:trigger Look(n, d, i, j)} :: i < ENTRIES && j < ENTRIES ==>
         Look(n, d, i, j) == Look(m, d, i, j)
  }

  lemma UpMonotone(a: nat, b: nat)
    requires a <= b <= KERNBASE
    ensures Up(a) <= Up(b) <= ENTRIES * USERDIRS && (Up(a) == 0 <==> a == 0)
  {
  }

  lemma SizedGrown(m: Mem, n: Mem, d: nat, oldsz: nat, sz: nat)
    requires Sized(m, d, oldsz) && oldsz <= sz < KERNBASE && Grown(m, n, d, Up(oldsz), Up(sz))
    ensures Sized(n, d, sz)
  {
    UpMonotone(oldsz, sz);
    forall i: nat, j: nat {:trigger SizedAt(n, d, sz, i, j)} | i < USERDIRS && j < ENTRIES
      ensures SizedAt(n, d, sz, i, j)
    {
      assert SizedAt(m, d, oldsz, i, j);
    }
  }

  lemma SizedEmptied(m: Mem, n: Mem, d: nat, oldsz: nat, sz: nat)
    requires Sized(m, d, oldsz) && sz < oldsz <= KERNBASE && Emptied(m, n, d, Up(sz), Up(oldsz))
    ensures Sized(n, d, sz)
  {
    UpMonotone(sz, oldsz);
    EmptiedDir(m, n, d, Up(sz), Up(oldsz));
    forall i: nat, j: nat {:trigger SizedAt(n, d, sz, i, j)} | i < USERDIRS && j < ENTRIES
      ensures SizedAt(n, d, sz, i, j)
    {
      assert SizedAt(m, d, oldsz, i, j);
    }
  }

  /** Pages lo to hi take a frame each, and one for each table that is lacking. */
  function Frames(ts: Tables, lo: nat, hi: nat): nat { (if lo < hi then hi - lo else 0) + Lacking(ts, lo, hi) }

  /** A new directory takes a frame, and one for each table of the kernel half. */
  function SetupFrames(kmap: seq<Range>): nat { 1 + KernFrames(kmap, |kmap|) }

  /** A copy of sz bytes takes that, the pages but page 0, and the tables these need. */
  function CopyFrames(kmap: seq<Range>, sz: nat): nat {
    SetupFrames(kmap) + Frames(KernTables(kmap, |kmap|), 1, Up(sz))
  }

  /** A directory, its tables and its pages: no copy needs more. */
  lemma CopyFramesBound(kmap: seq<Range>, sz: nat)
    requires KmapOk(kmap) && sz <= KERNBASE
    ensures SetupFrames(kmap) <= 1 + ENTRIES && CopyFrames(kmap, sz) <= 1 + ENTRIES + Up(sz)
  {
    UpMonotone(0, sz);
    LackingAfter(KernTables(kmap, |kmap|), 1, Up(sz));
  }

  /** Nor does growing need more than its pages and all tables. */
  lemma FramesBound(ts: Tables, lo: nat, hi: nat)
    requires hi <= ENTRIES * ENTRIES
    ensures Frames(ts, lo, hi) <= (if lo < hi then hi - lo else 0) + ENTRIES
  {
    LackingAfter(ts, lo, hi);
  }

  /** In a space of lo bytes nothing is mapped from there on. */
  lemma SizedAbove(m: Mem, d: nat, lo: nat, hi: nat, i: nat, j: nat)
    requires Sized(m, d, lo) && lo <= hi < KERNBASE && i < ENTRIES && j < ENTRIES && InRange(Up(lo), Up(hi), i, j)
    ensures i < USERDIRS && !Look(m, d, i, j).p
  {
    UpMonotone(lo, hi);
    assert SizedAt(m, d, lo, i, j);
  }

  /** And below that everything is, but perhaps page 0. */
  lemma SizedBelow(m: Mem, d: nat, sz: nat, i: nat, j: nat)
    requires Sized(m, d, sz) && sz <= KERNBASE && i < ENTRIES && j < ENTRIES && InRange(1, Up(sz), i, j)
    ensures i < USERDIRS && Look(m, d, i, j).p
  {
    UpMonotone(0, sz);
    assert SizedAt(m, d, sz, i, j);
  }

  /** So an allocuvm that fails leaves every page as it was mapped. */
  lemma SizedUndone(m: Mem, n: Mem, d: nat, oldsz: nat, sz: nat)
    requires Inv(m) && Sized(m, d, oldsz) && oldsz <= sz < KERNBASE && Undone(m, n, d, Up(oldsz), Up(sz))
    ensures SameMap(m, n, d)
  {
    forall i: nat, j: nat {:trigger Look(n, d, i, j)} | i < ENTRIES && j < ENTRIES
      ensures Look(n, d, i, j) == Look(m, d, i, j)
    {
      if InRange(Up(oldsz), Up(sz), i, j) {
        SizedAbove(m, d, oldsz, sz, i, j);
        assert EntryOk(m, d, i, j);
      }
    }
  }

  lemma SizedSame(m: Mem, n: Mem, d: nat, sz: nat)
    requires Sized(m, d, sz) && SameMap(m, n, d)
    ensures Sized(n, d, sz)
  {
    forall i: nat, j: nat {:trigger SizedAt(n, d, sz, i, j)} | i < USERDIRS && j < ENTRIES
      ensures SizedAt(n, d, sz, i, j)
    {
      assert SizedAt(m, d, sz, i, j);
    }
  }

  lemma SizedCopied(m: Mem, n: Mem, d: nat, e: nat, sz: nat, kmap: seq<Range>)
    requires Sized(m, d, sz) && KmapOk(kmap) && CopiedTo(m, n, d, e, Max(1, Up(sz)), kmap)
    ensures Sized(n, e, sz)
  {
    forall i: nat, j: nat {:trigger SizedAt(n, e, sz, i, j)} | i < USERDIRS && j < ENTRIES
      ensures SizedAt(n, e, sz, i, j)
    {
      KernUser(kmap, |kmap|, i, j);
    }
  }

  /** What is done to another directory is no matter. */
  lemma SizedOthers(m: Mem, n: Mem, d: nat, e: nat, sz: nat)
    requires Inv(m) && Sized(m, e, sz) && Others(m, n, d) && e != d
    ensures Sized(n, e, sz)
  {
    OthersLook(m, n, d, e, 0, 0);
    forall i: nat, j: nat {:trigger SizedAt(n, e, sz, i, j)} | i < USERDIRS && j < ENTRIES
      ensures SizedAt(n, e, sz, i, j)
    {
      OthersLook(m, n, d, e, i, j);
      assert SizedAt(m, e, sz, i, j);
    }
  }

  lemma SizedProtected(m: Mem, n: Mem, d: nat, lo: nat, hi: nat, on: bool, sz: nat)
    requires Sized(m, d, sz) && Protected(m, n, d, lo, hi, on)
    ensures Sized(n, d, sz)
  {
    forall i: nat, j: nat {:trigger SizedAt(n, d, sz, i, j)} | i < USERDIRS && j < ENTRIES
      ensures SizedAt(n, d, sz, i, j)
    {
      assert SizedAt(m, d, sz, i, j);
    }
  }

  /** Without user pages a space has no size, or, as exec has it, that of page 0. */
  lemma SizedKernel(m: Mem, d: nat, kmap: seq<Range>, sz: nat)
    requires KmapOk(kmap) && KernelOnly(m, d, kmap, |kmap|) && sz <= PGSIZE
    ensures Sized(m, d, sz)
  {
    forall i: nat, j: nat {:trigger SizedAt(m, d, sz, i, j)} | i < USERDIRS && j < ENTRIES
      ensures SizedAt(m, d, sz, i, j)
    {
      KernUser(kmap, |kmap|, i, j);
    }
  }

  /** What lacks page 1 is not copied. */
  lemma NotCopied(m: Mem, n: Mem, d: nat, e: nat, v: nat, kmap: seq<Range>)
    requires !Look(m, d, 0, 1).p && v >= 2
    ensures !CopiedTo(m, n, d, e, v, kmap)
  {
    assert CopiedTo(m, n, d, e, v, kmap) ==> CopyOf(m, n, Look(m, d, 0, 1), Look(n, e, 0, 1));
  }

  /** A space whose pages are all gone has kept its size only if that is a page at most. */
  lemma SizedNothingIff(m: Mem, n: Mem, d: nat, sz: nat)
    requires Sized(m, d, sz) && 0 < sz <= KERNBASE && Emptied(m, n, d, 0, Up(sz))
    ensures Sized(n, d, sz) <==> sz <= PGSIZE
  {
    SizedEmptied(m, n, d, sz, 0);
    if sz > PGSIZE {
      assert !Look(n, d, 0, 1).p && !SizedAt(n, d, sz, 0, 1);
    } else {
      forall i: nat, j: nat {:trigger SizedAt(n, d, sz, i, j)} | i < USERDIRS && j < ENTRIES
        ensures SizedAt(n, d, sz, i, j)
      {
        assert SizedAt(n, d, 0, i, j);
      }
    }
  }

  /** Taking a frame, filling it and mapping it adds a page. */
  lemma MappedAdded(m: Mem, t: Mem, n: Mem, d: nat, i: nat, j: nat, z: Page, w: bool, u: bool)
    requires Inv(m) && m.free != [] && i < USERDIRS && j < ENTRIES && Is(m, d, Dir)
    requires t == Taken(m).(pages := m.pages[m.free[0] := z])
    requires MappedOne(t, n, d, i, j, Entry(m.free[0], true, w, u))
    ensures PageAdded(m, n, d, i, j, z, w, u)
  {
    var f := m.free[0];
    assert f in m.free;
    forall g: nat {:trigger FrameKept(m, n, d, g)} | g in m.owner
      ensures FrameKept(m, n, d, g)
    {
      if g != f {
        assert FrameKept(t, n, d, g);
      }
    }
    forall g: nat {:trigger Mine(m, g, d)} | g in m.pages && Mine(m, g, d)
      ensures g in n.owner && n.owner[g] == m.owner[g]
      ensures m.owner[g].User? ==> g in n.pages && n.pages[g] == m.pages[g]
    {
      assert Mine(t, g, d);
    }
    forall k: nat, l: nat {:trigger Look(n, d, k, l)} | k < ENTRIES && l < ENTRIES && (k != i || l != j)
      ensures Look(n, d, k, l) == Look(m, d, k, l)
    {
      assert Look(t, d, k, l) == Look(m, d, k, l);
    }
  }

  datatype AddResult = Added | NoFrame | NoRoom(f: nat) | Taboo

  datatype MapResult = Mapped | NoTable | Remap

  datatype Growth = Size(sz: nat) | Failed | Panic

  /** In a space of oldsz bytes allocuvm does not panic, and if it fails every page is mapped as it was. */
  lemma SizedStuck(m: Mem, n: Mem, d: nat, oldsz: nat, newsz: nat, r: Growth)
    requires Inv(m) && Sized(m, d, oldsz) && oldsz <= newsz < KERNBASE && !r.Size?
    requires r.Failed? ==> Undone(m, n, d, Up(oldsz), Up(newsz))
    requires r.Panic? ==> exists i: nat, j: nat ::
               i < ENTRIES && j < ENTRIES && InRange(Up(oldsz), Up(newsz), i, j) && Look(m, d, i, j).p
    ensures r.Failed? && SameMap(m, n, d)
  {
    if r.Panic? {
      var i: nat, j: nat :|
        i < ENTRIES && j < ENTRIES && InRange(Up(oldsz), Up(newsz), i, j) && Look(m, d, i, j).p;
      SizedAbove(m, d, oldsz, newsz, i, j);
    } else {
      SizedUndone(m, n, d, oldsz, newsz);
    }
  }

  datatype CopyResult = Copied(e: nat) | NoMemory | NotThere

  class Kernel {
    const kmap: seq<Range>
    var free: seq<nat>
    var tables: map<nat, Table>
    var pages: map<nat, Page>
    ghost var owner: map<nat, Owner>

    ghost function M(): Mem
      reads this
    {
      Mem(free, tables, pages, owner)
    }

    ghost predicate Valid()
      reads this
    {
      Inv(M())
    }

    /** Fills the frame with junk and puts it in front of the free list. */
    method Kfree(f: nat)
      requires Valid() && Is(M(), f, Loose)
      modifies this`free, this`pages, this`owner
      ensures Valid() && M() == Given(old(M()), f)
    {
      InvGiven(M(), f);
      pages := pages[f := JunkPage()];
      free := [f] + free;
      owner := owner[f := Free];
    }

    /** kinit: freerange puts the frames from first up to last on the free list. */
    constructor (first: nat, last: nat, kmap: seq<Range>)
      requires 0 < first
      ensures Valid() && this.kmap == kmap
      ensures forall f: nat {:trigger f in owner} ::
                (f in owner <==> first <= f < last) && (f in owner ==> owner[f].Free?)
    {
      this.kmap, free, tables, pages, owner := kmap, [], map[], map[], map[];
      new;
      var f := first;
      while f < last
        invariant Valid() && tables == map[] && first <= f <= Max(first, last)
        invariant forall g: nat {:trigger g in owner} :: g in owner <==> first <= g < f
        invariant forall g: nat {:trigger g in owner} :: g in owner ==> owner[g].Free?
      {
        InvAdded(M(), f);
        owner := owner[f := Loose];
        pages := pages[f := ZeroPage()];
        Kfree(f);
        f := f + 1;
      }
    }

    ghost predicate Directory(d: nat)
      reads this
    {
      Is(M(), d, Dir) && d in tables
    }

    /** The first frame of the free list, or NULL. */
    method Kalloc() returns (f: nat)
      requires Valid()
      modifies this`free, this`owner
      ensures Valid()
      ensures f == NULL <==> old(free) == []
      ensures f == NULL ==> M() == old(M())
      ensures f != NULL ==> f == old(free)[0] && Is(old(M()), f, Free) && Is(M(), f, Loose) && M() == Taken(old(M()))
    {
      if free == [] {
        return NULL;
      }
      InvTaken(M());
      assert FrameOk(M(), free[0]);
      f := free[0];
      free := free[1..];
      owner := owner[f := Loose];
    }

    /** walkpgdir: the table behind entry i of d, made if alloc; NULL if there is none. */
    method Walk(d: nat, i: nat, alloc: bool) returns (t: nat)
      requires Valid() && Directory(d) && i < ENTRIES
      modifies this`free, this`tables, this`owner
      ensures Valid() && Directory(d)
      ensures t == NULL <==> !HasTable(old(M()), d, i) && (!alloc || old(free) == [])
      ensures t == NULL ==> M() == old(M())
      ensures t != NULL ==> M() == TableMade(old(M()), d, i)
      ensures t != NULL ==> HasTable(M(), d, i) && t == TableAt(M(), d, i) && t in tables
    {
      assert DirOk(M(), d, i);
      if tables[d][i].p {
        assert FrameOk(M(), tables[d][i].frame);
        return tables[d][i].frame;
      }
      if !alloc {
        return NULL;
      }
      t := Kalloc();
      if t == NULL {
        return;
      }
      InvTable(M(), d, i, t);
      assert FrameOk(M(), t);
      tables := tables[t := ZeroTable()];
      tables := tables[d := tables[d][i := Entry(t, true, true, true)]];
      owner := owner[t := Tab(d, i)];
    }

    /** One round of mappages; the frame of a user page is taken and in no table yet. */
    method MapPage(d: nat, i: nat, j: nat, x: Entry) returns (r: MapResult)
      requires Valid() && Directory(d) && i < ENTRIES && j < ENTRIES && x.p
      requires i < USERDIRS ==> Is(M(), x.frame, Loose)
      modifies this`free, this`tables, this`owner
      ensures Valid() && Directory(d)
      ensures r.NoTable? ==> M() == old(M()) && free == [] && !HasTable(M(), d, i)
      ensures r.Remap? ==> M() == old(M()) && Look(M(), d, i, j).p
      ensures r.Mapped? ==> if i < USERDIRS then MappedOne(old(M()), M(), d, i, j, x)
                            else EntrySet(old(M()), M(), d, i, j, x)
      ensures r.Mapped? ==> TableUsed(old(M()), M(), d, i, 0)
    {
      ghost var m := M();
      var t := Walk(d, i, true);
      if t == NULL {
        return NoTable;
      }
      TableMadeOk(m, d, i);
      TableMadeUsed(m, d, i);
      ghost var n := M();
      assert Look(M(), d, i, j) == Look(m, d, i, j);
      if tables[t][j].p {
        return Remap;
      }
      if i < USERDIRS {
        PageMapped(m, d, i, j, x);
        owner := owner[x.frame := User(d, i, j)];
      } else {
        KernelMapped(m, d, i, j, x);
      }
      tables := tables[t := tables[t][j := x]];
      EntryUsed(m, n, M(), d, i, j, x);
      return Mapped;
    }

    /**
     * The body of the loops of allocuvm and copyuvm: a frame is taken, filled with z and mapped. With no memory for a
     * table it stays taken, for the caller to free.
     */
    method AddPage(d: nat, i: nat, j: nat, z: Page, w: bool, u: bool) returns (r: AddResult)
      requires Valid() && Directory(d) && i < USERDIRS && j < ENTRIES
      modifies this`free, this`tables, this`pages, this`owner
      ensures Valid() && Directory(d)
      ensures r.NoFrame? ==> M() == old(M()) && free == []
      ensures r.Added? ==> PageAdded(old(M()), M(), d, i, j, z, w, u)
      ensures r.Added? ==> TableUsed(old(M()), M(), d, i, 1)
      ensures r.Taboo? ==> Look(old(M()), d, i, j).p
      ensures r.NoRoom? ==> r.f != NULL && old(free) != [] && r.f == old(free)[0] && Is(M(), r.f, Loose)
                            && M() == Taken(old(M())).(pages := old(pages)[r.f := z])
      ensures r.NoRoom? ==> |old(free)| == 1 && !HasTable(old(M()), d, i)
    {
      ghost var m := M();
      var mem := Kalloc();
      if mem == NULL {
        return NoFrame;
      }
      PagesDoNotMatter(M(), mem, z);
      pages := pages[mem := z];
      ghost var t := M();
      var mapped := MapPage(d, i, j, Entry(mem, true, w, u));
      match mapped {
        case Mapped =>
          MappedAdded(m, t, M(), d, i, j, z, w, u);
          r := Added;
        case NoTable => r := NoRoom(mem);
        case Remap => r := Taboo;
      }
    }

    /** The body of deallocuvm's loop for a page that is there. */
    method DropPage(d: nat, i: nat, j: nat, t: nat)
      requires Valid() && Directory(d) && i < USERDIRS && j < ENTRIES
      requires HasTable(M(), d, i) && t == TableAt(M(), d, i) && t in tables && tables[t][j].p
      modifies this`free, this`tables, this`pages, this`owner
      ensures Valid() && Directory(d)
      ensures M() == Given(Unmap(old(M()), d, i, j), Look(old(M()), d, i, j).frame)
    {
      ghost var m := M();
      InvUnmap(m, d, i, j);
      var f := tables[t][j].frame;
      InvGiven(Unmap(m, d, i, j), f);
      pages := pages[f := JunkPage()];
      free := [f] + free;
      tables := tables[t := tables[t][j := NONE]];
      owner := owner[f := Loose][f := Free];
    }

    /** One round of deallocuvm's loop: page v, or the rest of the pages of a table that is missing. */
    method DropNext(d: nat, a: nat, ghost m: Mem, ghost lo: nat, ghost hi: nat, ghost v: nat)
      returns (b: nat, ghost w: nat)
      requires Valid() && Directory(d) && Inv(m) && Is(m, d, Dir)
      requires a == PGSIZE * v && lo <= v < hi <= ENTRIES * USERDIRS && Emptied(m, M(), d, lo, v)
      modifies this`free, this`tables, this`pages, this`owner
      ensures Valid() && Directory(d) && b == PGSIZE * w && v < w && Emptied(m, M(), d, lo, Min(w, hi))
    {
      Indices(v);
      var i, j := Pdx(a), Ptx(a);
      var t := Walk(d, i, false);
      if t == NULL {
        w := ENTRIES * (i + 1);
        EmptiedSkip(m, M(), d, lo, v, Min(w, hi));
        b := (i + 1) * 0x40_0000 - PGSIZE + PGSIZE;
      } else if tables[t][j].p {
        EmptiedMore(m, M(), d, lo, i, j);
        DropPage(d, i, j, t);
        b, w := a + PGSIZE, v + 1;
      } else {
        EmptiedSkip(m, M(), d, lo, v, v + 1);
        b, w := a + PGSIZE, v + 1;
      }
    }

    /**
     * deallocuvm: shrinks the space of d to newsz bytes. Exactly the user pages past that are unmapped and exactly
     * their frames become free; the jump over a missing table skips no mapped page.
     */
    method Deallocuvm(d: nat, oldsz: nat, newsz: nat) returns (r: nat)
      requires Valid() && Directory(d) && oldsz <= KERNBASE
      modifies this`free, this`tables, this`pages, this`owner
      ensures Valid() && Directory(d)
      ensures r == Min(oldsz, newsz)
      ensures newsz >= oldsz ==> M() == old(M())
      ensures newsz < oldsz ==> Emptied(old(M()), M(), d, Up(newsz), Up(oldsz))
      ensures Sized(old(M()), d, oldsz) ==> Sized(M(), d, r)
    {
      if newsz >= oldsz {
        return oldsz;
      }
      ghost var m, lo, hi, v := M(), Up(newsz), Up(oldsz), Up(newsz);
      var a := (newsz + PGSIZE - 1) / PGSIZE * PGSIZE;
      EmptiedNothing(m, d, lo);
      while a < oldsz
        invariant a == PGSIZE * v && lo <= v && Valid() && Directory(d)
        invariant Emptied(m, M(), d, lo, Min(v, hi))
        decreases oldsz - a
      {
        UpIs(oldsz, v);
        a, v := DropNext(d, a, m, lo, hi, v);
      }
      UpIs(oldsz, v);
      if Sized(m, d, oldsz) {
        SizedEmptied(m, M(), d, oldsz, newsz);
      }
      return newsz;
    }

    /** allocuvm out of memory with the pages up to v grown, mem being a frame it could not map. */
    method GiveUp(d: nat, oldsz: nat, newsz: nat, mem: nat, ghost m: Mem, ghost n: Mem, ghost v: nat)
      requires Valid() && Directory(d) && oldsz < newsz < KERNBASE && Inv(m) && Inv(n)
      requires Grown(m, n, d, Up(oldsz), v) && v <= Up(newsz)
      requires if mem == NULL then M() == n
               else n.free != [] && mem == n.free[0] && M() == Taken(n).(pages := n.pages[mem := ZeroPage()])
                    && Is(M(), mem, Loose)
      modifies this`free, this`tables, this`pages, this`owner
      ensures Valid() && Directory(d) && Undone(m, M(), d, Up(oldsz), Up(newsz))
    {
      ghost var lo, hi, t := Up(oldsz), Up(newsz), M();
      var _ := Deallocuvm(d, newsz, oldsz);
      if mem != NULL {
        assert FrameEmptied(t, M(), d, lo, hi, mem);
        TakenAndGiven(n, ZeroPage(), M(), d, lo, hi);
        Kfree(mem);
      }
      GrownUndone(m, n, M(), d, lo, v, hi);
      assert FrameKept(m, M(), d, d);
      assert DirOk(M(), d, 0);
    }

    /** One round of allocuvm's loop: page v is added, or memory has run out and what was added is gone again. */
    method GrowNext(d: nat, a: nat, oldsz: nat, newsz: nat, ghost m: Mem, ghost ts: Tables, ghost v: nat)
      returns (r: Growth)
      requires Valid() && Directory(d) && Inv(m) && Is(m, d, Dir) && oldsz <= newsz < KERNBASE
      requires a == PGSIZE * v < newsz && Up(oldsz) <= v < Up(newsz)
      requires Grown(m, M(), d, Up(oldsz), v) && Spent(m, M(), d, ts, Up(oldsz), v, v - Up(oldsz))
      modifies this`free, this`tables, this`pages, this`owner
      ensures Valid() && Directory(d)
      ensures r.Size? ==> Grown(m, M(), d, Up(oldsz), v + 1)
                          && Spent(m, M(), d, ts, Up(oldsz), v + 1, v + 1 - Up(oldsz))
      ensures r.Failed? ==> Undone(m, M(), d, Up(oldsz), Up(newsz)) && |m.free| < Frames(ts, Up(oldsz), Up(newsz))
      ensures r.Panic? ==> exists i: nat, j: nat ::
                i < ENTRIES && j < ENTRIES && InRange(Up(oldsz), Up(newsz), i, j) && Look(m, d, i, j).p
    {
      Indices(v);
      var i, j := Pdx(a), Ptx(a);
      ghost var n, lo := M(), Up(oldsz);
      var added := AddPage(d, i, j, ZeroPage(), true, true);
      if added.Taboo? {
        assert InRange(lo, Up(newsz), i, j) && Look(m, d, i, j).p;
        return Panic;
      }
      if !added.Added? {
        SpentOut(m, n, d, ts, lo, i, j, Up(newsz), v - lo);
        GiveUp(d, oldsz, newsz, if added.NoRoom? then added.f else NULL, m, n, v);
        return Failed;
      }
      GrownMore(m, n, M(), d, lo, v, i, j);
      SpentNext(m, n, M(), d, ts, lo, i, j, v - lo, 1);
      return Size(a + PGSIZE);
    }

    /**
     * allocuvm: grows the space of d to newsz bytes with zeroed pages on frames that were free. If memory runs out the
     * new pages are unmapped and freed again; a page that was mapped already is a panic. In a space of oldsz bytes
     * there is none, and a failure leaves every page mapped as it was.
     */
    method Allocuvm(d: nat, oldsz: nat, newsz: nat) returns (r: Growth)
      requires Valid() && Directory(d)
      modifies this`free, this`tables, this`pages, this`owner
      ensures Valid() && Directory(d)
      ensures newsz >= KERNBASE ==> r.Failed? && M() == old(M())
      ensures newsz < KERNBASE && newsz < oldsz ==> r == Size(oldsz) && M() == old(M())
      ensures oldsz <= newsz < KERNBASE && r.Size? ==>
                r.sz == newsz && Grown(old(M()), M(), d, Up(oldsz), Up(newsz))
      ensures oldsz <= newsz < KERNBASE && r.Failed? ==> Undone(old(M()), M(), d, Up(oldsz), Up(newsz))
      ensures r.Panic? ==> exists i: nat, j: nat ::
                i < ENTRIES && j < ENTRIES && InRange(Up(oldsz), Up(newsz), i, j) && Look(old(M()), d, i, j).p
      ensures Sized(old(M()), d, oldsz) ==>
                !r.Panic? && (if r.Size? then Sized(M(), d, r.sz) else SameMap(old(M()), M(), d))
      ensures oldsz <= newsz < KERNBASE && !r.Panic? ==>
                (r.Size? <==> |old(free)| >= Frames(TablesOf(old(M()), d), Up(oldsz), Up(newsz)))
    {
      if newsz >= KERNBASE {
        return Failed;
      }
      if newsz < oldsz {
        return Size(oldsz);
      }
      ghost var m, lo, hi, v := M(), Up(oldsz), Up(newsz), Up(oldsz);
      ghost var ts := TablesOf(m, d);
      var a := (oldsz + PGSIZE - 1) / PGSIZE * PGSIZE;
      GrownNothing(m, d, lo);
      SpentNothing(m, d, ts, lo);
      while a < newsz
        invariant a == PGSIZE * v && lo <= v <= hi && Valid() && Directory(d)
        invariant Grown(m, M(), d, lo, v) && Spent(m, M(), d, ts, lo, v, v - lo)
        decreases newsz - a
      {
        UpIs(newsz, v);
        r := GrowNext(d, a, oldsz, newsz, m, ts, v);
        if !r.Size? {
          if Sized(m, d, oldsz) {
            SizedStuck(m, M(), d, oldsz, newsz, r);
          }
          return;
        }
        a, v := a + PGSIZE, v + 1;
      }
      UpIs(newsz, v);
      if Sized(m, d, oldsz) {
        SizedGrown(m, M(), d, oldsz, newsz);
      }
      return Size(newsz);
    }

    /** The loop of freevm over the directory; n is the memory once the user pages are gone. */
    method FreeTables(d: nat, ghost n: Mem)
      requires Valid() && d in tables && Inv(n) && Is(n, d, Dir) && d in n.tables && Torn(n, M(), d, 0)
      modifies this`free, this`pages, this`owner
      ensures Valid() && Torn(n, M(), d, ENTRIES)
    {
      var i := 0;
      while i < ENTRIES
        invariant i <= ENTRIES && Valid() && d in tables && Torn(n, M(), d, i)
      {
        if tables[d][i].p {
          TornMore(n, M(), d, i);
          Kfree(tables[d][i].frame);
        } else {
          TornSkip(n, M(), d, i);
        }
        i := i + 1;
      }
    }

    /** freevm: the directory, its tables and all its user pages go back to the free list, and nothing else does. */
    method Freevm(d: nat)
      requires Valid() && Directory(d)
      modifies this`free, this`tables, this`pages, this`owner
      ensures Valid() && Freed(old(M()), M(), d)
    {
      ghost var m := M();
      var _ := Deallocuvm(d, KERNBASE, 0);
      ghost var n := M();
      InvOrphaned(n, d);
      TornStart(n, d);
      owner := Orphaned(n, d).owner;
      FreeTables(d, n);
      TornFreed(m, n, M(), d);
      Kfree(d);
    }

    /** One round of mappages for a row of kmap: its page c. */
    method MapRowPage(d: nat, r: Range, c: nat, ghost m: Mem, ghost ts: Tables) returns (ok: bool)
      requires Valid() && Directory(d) && c < r.n && ENTRIES * USERDIRS <= r.v && r.v + r.n <= ENTRIES * ENTRIES
      requires RowMapped(m, M(), d, r, c) && Spent(m, M(), d, ts, r.v, r.v + c, 0)
      requires forall i: nat, j: nat {:trigger Look(m, d, i, j)} ::
                 i < ENTRIES && j < ENTRIES && InRange(r.v, r.v + r.n, i, j) ==> !Look(m, d, i, j).p
      modifies this`free, this`tables, this`owner
      ensures Valid() && Directory(d) && Others(old(M()), M(), d)
      ensures ok ==> RowMapped(m, M(), d, r, c + 1) && Spent(m, M(), d, ts, r.v, r.v + c + 1, 0)
      ensures !ok ==> |m.free| < Lacking(ts, r.v, r.v + r.n)
    {
      Indices(r.v + c);
      var i, j := Pdx(PGSIZE * (r.v + c)), Ptx(PGSIZE * (r.v + c));
      ghost var n := M();
      assert Look(n, d, i, j) == Look(m, d, i, j);
      GrownNothing(n, d, 0);
      var mapped := MapPage(d, i, j, Entry(r.pn + c, true, r.w, false));
      if !mapped.Mapped? {
        SpentOut(m, n, d, ts, r.v, i, j, r.v + r.n, 0);
        return false;
      }
      RowMore(m, n, M(), d, r, c, i, j);
      SpentNext(m, n, M(), d, ts, r.v, i, j, 0, 0);
      return true;
    }

    /** mappages for a row of kmap, whose pages are not mapped yet. */
    method MapRow(d: nat, r: Range, ghost ts: Tables) returns (ok: bool)
      requires Valid() && Directory(d) && Has(M(), d, ts)
      requires ENTRIES * USERDIRS <= r.v && 0 < r.n && r.v + r.n <= ENTRIES * ENTRIES
      requires forall i: nat, j: nat {:trigger Look(M(), d, i, j)} ::
                 i < ENTRIES && j < ENTRIES && InRange(r.v, r.v + r.n, i, j) ==> !Look(M(), d, i, j).p
      modifies this`free, this`tables, this`owner
      ensures Valid() && Directory(d) && Others(old(M()), M(), d)
      ensures ok ==> RowMapped(old(M()), M(), d, r, r.n)
      ensures ok ==> Spent(old(M()), M(), d, ts, r.v, r.v + r.n, 0)
      ensures !ok ==> |old(free)| < Lacking(ts, r.v, r.v + r.n)
    {
      ghost var m := M();
      var c := 0;
      GrownNothing(m, d, 0);
      SpentNothing(m, d, ts, r.v);
      while c < r.n
        invariant c <= r.n && Valid() && Directory(d) && RowMapped(m, M(), d, r, c)
        invariant Spent(m, M(), d, ts, r.v, r.v + c, 0)
      {
        ghost var n := M();
        ok := MapRowPage(d, r, c, m, ts);
        if !ok {
          OthersTrans(m, n, M(), d);
          return;
        }
        c := c + 1;
      }
      return true;
    }

    /** A directory made since m, where its frame was free, is freed: nothing of it is left. */
    method Discard(d: nat, ghost m: Mem)
      requires Valid() && Directory(d) && Inv(m) && Is(m, d, Free) && Others(m, M(), d)
      modifies this`free, this`tables, this`pages, this`owner
      ensures Valid() && Restored(m, M())
    {
      ghost var n := M();
      Freevm(d);
      FreeIsNoDir(m, d);
      LifeCycle(m, n, M(), d);
    }

    /** A row more for a directory that has the first k rows and the tables ts. */
    method MapRowOf(d: nat, k: nat, ghost ts: Tables) returns (ok: bool)
      requires Valid() && KmapOk(kmap) && Directory(d) && k < |kmap| && KernelOnly(M(), d, kmap, k) && Has(M(), d, ts)
      modifies this`free, this`tables, this`owner
      ensures Valid() && Directory(d) && Others(old(M()), M(), d)
      ensures ok ==> KernelOnly(M(), d, kmap, k + 1)
                     && Spent(old(M()), M(), d, ts, kmap[k].v, kmap[k].v + kmap[k].n, 0)
      ensures !ok ==> |old(free)| < Lacking(ts, kmap[k].v, kmap[k].v + kmap[k].n)
    {
      ghost var n := M();
      RowsFree(n, d, kmap, k);
      ok := MapRow(d, kmap[k], ts);
      if ok {
        KernelMore(n, M(), d, kmap, k);
      }
    }

    /** One round of setupkvm's loop: a row more, or there are too few frames. */
    method MapNext(d: nat, k: nat, ghost m: Mem) returns (ok: bool)
      requires Valid() && KmapOk(kmap) && Directory(d) && k < |kmap| && KernelOnly(M(), d, kmap, k)
      requires KernPaid(m, M(), d, kmap, k)
      modifies this`free, this`tables, this`owner
      ensures Valid() && Directory(d) && Others(old(M()), M(), d)
      ensures ok ==> KernelOnly(M(), d, kmap, k + 1) && KernPaid(m, M(), d, kmap, k + 1)
      ensures !ok ==> KernLacks(|m.free|, kmap)
    {
      ghost var n := M();
      ghost var ts := KernTables(kmap, k);
      assert Has(n, d, ts) by { KernHas(m, n, d, kmap, k); }
      ok := MapRowOf(d, k, ts);
      if ok {
        KernPaidNext(m, n, M(), d, kmap, k);
      } else {
        KernShort(m, n, d, kmap, k);
      }
    }

    /** The loop of setupkvm over the rows of kmap. */
    method MapKernel(d: nat) returns (ok: bool)
      requires Valid() && KmapOk(kmap) && Directory(d) && KernelOnly(M(), d, kmap, 0)
      requires KernPaid(M(), M(), d, kmap, 0)
      modifies this`free, this`tables, this`owner
      ensures Valid() && Directory(d) && Others(old(M()), M(), d)
      ensures ok ==> KernelOnly(M(), d, kmap, |kmap|) && KernPaid(old(M()), M(), d, kmap, |kmap|)
      ensures !ok ==> KernLacks(|old(free)|, kmap)
    {
      ghost var m := M();
      GrownNothing(m, d, 0);
      var k := 0;
      while k < |kmap|
        invariant k <= |kmap| && Valid() && Directory(d) && Others(m, M(), d)
        invariant KernelOnly(M(), d, kmap, k) && KernPaid(m, M(), d, kmap, k)
      {
        ghost var n := M();
        ok := MapNext(d, k, m);
        OthersTrans(m, n, M(), d);
        if !ok {
          return;
        }
        k := k + 1;
      }
      return true;
    }

    /** setupkvm: a directory with the kernel half and no user page; if memory runs out everything is given back. */
    method Setupkvm() returns (d: nat)
      requires Valid() && KmapOk(kmap)
      modifies this`free, this`tables, this`pages, this`owner
      ensures Valid()
      ensures d == NULL ==> Restored(old(M()), M())
      ensures d != NULL ==> Is(old(M()), d, Free) && Directory(d) && Others(old(M()), M(), d)
                            && KernelOnly(M(), d, kmap, |kmap|)
      ensures d != NULL ==> Sized(M(), d, 0) && Sized(M(), d, PGSIZE)
      ensures d == NULL <==> |old(free)| < SetupFrames(kmap)
      ensures d != NULL ==> |free| == |old(free)| - SetupFrames(kmap) && Has(M(), d, KernTables(kmap, |kmap|))
    {
      ghost var m := M();
      d := Kalloc();
      if d == NULL {
        return;
      }
      NewDir(m, d);
      InvDir(M(), d);
      tables, owner := tables[d := ZeroTable()], owner[d := Dir];
      ghost var n := M();
      KernStart(n, d, kmap);
      var ok := MapKernel(d);
      OthersTrans(m, n, M(), d);
      if !ok {
        KernLacksIs(|n.free|, kmap);
        Discard(d, m);
        return NULL;
      }
      KernHas(n, M(), d, kmap, |kmap|);
      SizedKernel(M(), d, kmap, 0);
      SizedKernel(M(), d, kmap, PGSIZE);
    }

    /** One round of copyuvm's loop: page (i, j) of d is there, and e gets a copy. */
    method CopyPage(d: nat, e: nat, i: nat, j: nat, t: nat, ghost m: Mem) returns (r: AddResult)
      requires Valid() && Directory(d) && Directory(e) && d != e && i < USERDIRS && j < ENTRIES
      requires HasTable(M(), d, i) && t == TableAt(M(), d, i) && t in tables && tables[t][j].p
      requires Inv(m) && Is(m, d, Dir) && Is(m, e, Free) && 0 < ENTRIES * i + j
      requires KmapOk(kmap) && CopiedTo(m, M(), d, e, ENTRIES * i + j, kmap)
      modifies this`free, this`tables, this`pages, this`owner
      ensures Valid() && Directory(e) && !r.Taboo?
      ensures r.NoFrame? ==> old(free) == []
      ensures r.NoRoom? ==> |old(free)| == 1 && !HasTable(old(M()), e, i)
      ensures r.Added? ==> TableUsed(old(M()), M(), e, i, 1)
      ensures r.NoFrame? ==> Others(m, M(), e)
      ensures r.NoRoom? ==> r.f != NULL && Is(M(), r.f, Loose) && Others(m, Given(M(), r.f), e)
      ensures r.Added? ==> Directory(d) && CopiedTo(m, M(), d, e, ENTRIES * i + j + 1, kmap)
    {
      ghost var n := M();
      var x := tables[t][j];
      OthersLook(m, n, e, d, i, j);
      assert EntryOk(n, d, i, j) && FrameOk(n, x.frame) && DirOk(m, d, i);
      KernUser(kmap, |kmap|, i, j);
      assert !Look(n, e, i, j).p;
      r := AddPage(e, i, j, pages[x.frame], x.w, x.u);
      if r.Added? {
        CopiedMore(m, n, M(), d, e, i, j, kmap);
        OthersLook(m, M(), e, d, i, j);
        assert DirOk(M(), d, i);
      } else if r.NoRoom? {
        GivenBack(m, n, n.pages[x.frame], e);
      }
    }

    /** The loop of copyuvm; mem is a frame it took and could not map. */
    method CopyPages(d: nat, e: nat, sz: nat, ghost m: Mem, ghost ts: Tables) returns (r: CopyResult, mem: nat)
      requires Valid() && KmapOk(kmap) && Directory(d) && Directory(e) && d != e && sz <= KERNBASE
      requires Inv(m) && Is(m, d, Dir) && Is(m, e, Free) && CopiedTo(m, M(), d, e, 1, kmap) && Has(M(), e, ts)
      modifies this`free, this`tables, this`pages, this`owner
      ensures Valid() && Directory(e)
      ensures r.NoMemory? && mem == NULL ==> Others(m, M(), e)
      ensures r.NoMemory? && mem != NULL ==> Is(M(), mem, Loose) && Others(m, Given(M(), mem), e)
      ensures r.Copied? ==> r.e == e && Directory(d) && CopiedTo(m, M(), d, e, Max(1, Up(sz)), kmap)
      ensures r.Copied? ==> |old(free)| >= Frames(ts, 1, Up(sz))
      ensures r.NoMemory? ==> |old(free)| < Frames(ts, 1, Up(sz))
      ensures r.NotThere? ==> exists i: nat, j: nat ::
                i < ENTRIES && j < ENTRIES && InRange(1, Up(sz), i, j) && !Look(m, d, i, j).p
    {
      mem := NULL;
      ghost var v, m0 := 1, M();
      SpentNothing(m0, e, ts, 1);
      var a := PGSIZE;
      while a < sz
        invariant a == PGSIZE * v && 1 <= v <= Max(1, Up(sz))
        invariant Valid() && Directory(d) && Directory(e) && CopiedTo(m, M(), d, e, v, kmap)
        invariant Spent(m0, M(), e, ts, 1, v, v - 1)
        decreases sz - a
      {
        UpIs(sz, v);
        Indices(v);
        var i, j := Pdx(a), Ptx(a);
        OthersLook(m, M(), e, d, i, j);
        var t := Walk(d, i, false);
        if t == NULL || !tables[t][j].p {
          assert InRange(1, Up(sz), i, j) && !Look(m, d, i, j).p;
          r := NotThere;
          return;
        }
        ghost var n := M();
        var added := CopyPage(d, e, i, j, t, m);
        if !added.Added? {
          SpentOut(m0, n, e, ts, 1, i, j, Up(sz), v - 1);
          r, mem := NoMemory, if added.NoRoom? then added.f else NULL;
          return;
        }
        SpentNext(m0, n, M(), e, ts, 1, i, j, v - 1, 1);
        a, v := a + PGSIZE, v + 1;
      }
      UpIs(sz, v);
      r := Copied(e);
    }

    /** In a space of sz bytes copyuvm finds every page, and copy and original are spaces of sz bytes. */
    lemma CopySized(d: nat, sz: nat, r: CopyResult, m: Mem)
      requires Inv(m) && Sized(m, d, sz) && KmapOk(kmap) && sz <= KERNBASE && !r.NoMemory?
      requires r.Copied? ==> r.e != d && CopiedTo(m, M(), d, r.e, Max(1, Up(sz)), kmap)
      requires r.NotThere? ==> exists i: nat, j: nat ::
                 i < ENTRIES && j < ENTRIES && InRange(1, Up(sz), i, j) && !Look(m, d, i, j).p
      ensures r.Copied? && Sized(M(), d, sz) && Sized(M(), r.e, sz)
    {
      UpMonotone(0, sz);
      if r.NotThere? {
        var i: nat, j: nat :| i < ENTRIES && j < ENTRIES && InRange(1, Up(sz), i, j) && !Look(m, d, i, j).p;
        SizedBelow(m, d, sz, i, j);
      } else {
        SizedCopied(m, M(), d, r.e, sz, kmap);
        SizedOthers(m, M(), r.e, d, sz);
      }
    }

    /**
     * copyuvm: a new directory whose user pages, from the second on, are copies of those of d on frames that were
     * free, with the same bits; or, if memory runs out, exactly the frames that were free are free again. A page below
     * sz that is not there is a panic. In a space of sz bytes there is none.
     */
    method Copyuvm(d: nat, sz: nat) returns (r: CopyResult)
      requires Valid() && KmapOk(kmap) && Directory(d) && sz <= KERNBASE
      modifies this`free, this`tables, this`pages, this`owner
      ensures Valid()
      ensures r.NoMemory? ==> Restored(old(M()), M())
      ensures r.Copied? ==> Is(old(M()), r.e, Free) && Directory(d) && Directory(r.e) && r.e != d
                            && CopiedTo(old(M()), M(), d, r.e, Max(1, Up(sz)), kmap)
      ensures r.NotThere? ==> exists i: nat, j: nat ::
                i < ENTRIES && j < ENTRIES && InRange(1, Up(sz), i, j) && !Look(old(M()), d, i, j).p
      ensures Sized(old(M()), d, sz) ==> !r.NotThere? && (r.Copied? ==> Sized(M(), d, sz) && Sized(M(), r.e, sz))
      ensures !r.NotThere? ==> (r.Copied? <==> |old(free)| >= CopyFrames(kmap, sz))
    {
      ghost var m := M();
      var e := Setupkvm();
      if e == NULL {
        return NoMemory;
      }
      OthersLook(m, M(), e, d, 0, 0);
      assert DirOk(M(), d, 0);
      CopiedNothing(m, M(), d, e, kmap);
      var mem;
      r, mem := CopyPages(d, e, sz, m, KernTables(kmap, |kmap|));
      if r.NoMemory? {
        if mem != NULL {
          Kfree(mem);
        }
        Discard(e, m);
      } else if Sized(m, d, sz) {
        CopySized(d, sz, r, m);
      }
    }

    /** One round of mem_protect's loop. */
    method ProtectPage(d: nat, i: nat, j: nat, on: bool, ghost m: Mem, ghost lo: nat) returns (ok: bool)
      requires Valid() && Directory(d) && i < USERDIRS && j < ENTRIES && lo <= ENTRIES * i + j
      requires Inv(m) && Is(m, d, Dir) && Protected(m, M(), d, lo, ENTRIES * i + j, on)
      modifies this`tables
      ensures Valid() && Directory(d) && ok == HasTable(m, d, i)
      ensures Protected(m, M(), d, lo, if ok then ENTRIES * i + j + 1 else ENTRIES * i + j, on)
    {
      ghost var n := M();
      assert DirOk(n, d, i) && HasTable(n, d, i) == HasTable(m, d, i);
      if !tables[d][i].p {
        return false;
      }
      var t := tables[d][i].frame;
      var x := tables[t][j];
      if x.u && x.p {
        InvEntry(n, d, i, j, x.(w := on));
        tables := tables[t := tables[t][j := x.(w := on)]];
      }
      ProtectedMore(m, n, M(), d, lo, i, j, on);
      return true;
    }

    /**
     * mem_protect: sets or clears the write bit of the user pages in the range that are there, and changes nothing
     * else. It stops at the first page without a table, with the pages before it changed.
     */
    method MemProtect(d: nat, sz: nat, addr: nat, len: nat, on: bool) returns (ok: bool, ghost v: nat)
      requires Valid() && Directory(d) && sz <= KERNBASE && addr % PGSIZE == 0
      modifies this`tables
      ensures Valid() && Directory(d)
      ensures addr + len * PGSIZE > sz ==> !ok && v == addr / PGSIZE
      ensures addr / PGSIZE <= v && Protected(old(M()), M(), d, addr / PGSIZE, v, on)
      ensures Sized(old(M()), d, sz) ==> Sized(M(), d, sz)
      ensures ok ==> v == addr / PGSIZE + len
      ensures !ok && addr + len * PGSIZE <= sz ==>
                v < addr / PGSIZE + len && v / ENTRIES < ENTRIES && !HasTable(old(M()), d, v / ENTRIES)
    {
      ghost var m, lo := M(), addr / PGSIZE;
      v := lo;
      if addr + len * PGSIZE > sz {
        return false, v;
      }
      var a := addr;
      while a < addr + len * PGSIZE
        invariant a == PGSIZE * v && lo <= v <= lo + len && PGSIZE * (lo + len) <= sz && addr == PGSIZE * lo
        invariant Valid() && Directory(d) && Protected(m, M(), d, lo, v, on)
        decreases addr + len * PGSIZE - a
      {
        Indices(v);
        ok := ProtectPage(d, Pdx(a), Ptx(a), on, m, lo);
        if !ok {
          if Sized(m, d, sz) {
            SizedProtected(m, M(), d, lo, v, on, sz);
          }
          return;
        }
        a, v := a + PGSIZE, v + 1;
      }
      if Sized(m, d, sz) {
        SizedProtected(m, M(), d, lo, v, on, sz);
      }
      return true, v;
    }

    /**
     * growproc, with sz + n reckoned in 32 bits. Shrinking to nothing frees all pages and then reports failure, and
     * the process keeps its old size; shrinking by more than the size does nothing and reports success.
     */
    method Growproc(d: nat, sz: nat, n: int) returns (r: Growth)
      requires Valid() && Directory(d) && sz < KERNBASE && -0x8000_0000 <= n < 0x8000_0000
      modifies this`free, this`tables, this`pages, this`owner
      ensures Valid() && Directory(d)
      ensures n == 0 || sz + n < 0 ==> M() == old(M()) && (if n == 0 || sz > 0 then r == Size(sz) else r.Failed?)
      ensures n < 0 < sz + n ==> r == Size(sz + n) && Emptied(old(M()), M(), d, Up(sz + n), Up(sz))
      ensures n < 0 == sz + n ==> r.Failed? && Emptied(old(M()), M(), d, 0, Up(sz))
      ensures n > 0 && r.Size? ==> r.sz == sz + n < KERNBASE && Grown(old(M()), M(), d, Up(sz), Up(sz + n))
      ensures n > 0 && r.Failed? ==> if sz + n >= KERNBASE then M() == old(M())
                                     else Undone(old(M()), M(), d, Up(sz), Up(sz + n))
      ensures r.Panic? ==> n > 0 && exists i: nat, j: nat ::
                i < ENTRIES && j < ENTRIES && InRange(Up(sz), Up(sz + n), i, j) && Look(old(M()), d, i, j).p
      ensures Sized(old(M()), d, sz) ==>
                !r.Panic? && (Sized(M(), d, if r.Size? then r.sz else sz) <==> !(n < 0 == sz + n && sz > PGSIZE))
      ensures n > 0 && !r.Panic? ==>
                (r.Size? <==> sz + n < KERNBASE
                              && |old(free)| >= Frames(TablesOf(old(M()), d), Up(sz), Up(sz + n)))
    {
      ghost var m := M();
      var newsz := if sz + n < 0 then sz + n + 0x1_0000_0000 else sz + n;
      if n > 0 {
        r := Allocuvm(d, sz, newsz);
        if r.Failed? && Sized(m, d, sz) {
          SizedSame(m, M(), d, sz);
        }
      } else if n < 0 {
        var left := Deallocuvm(d, sz, newsz);
        if sz + n == 0 && Sized(m, d, sz) {
          SizedNothingIff(m, M(), d, sz);
        }
        r := if left == 0 then Failed else Size(left);
      } else {
        r := Size(sz);
      }
    }

    /** The space of a process of two pages, as exec makes it. */
    method TwoPages() returns (d: nat)
      requires Valid() && KmapOk(kmap)
      modifies this`free, this`tables, this`pages, this`owner
      ensures Valid() && (d != NULL ==> Directory(d) && Sized(M(), d, 8192))
    {
      d := Setupkvm();
      if d == NULL {
        return;
      }
      var g := Allocuvm(d, 4096, 8192);
      if g.Failed? {
        return NULL;
      }
    }

    /**
     * A process of two pages: asking for three pages less does nothing and succeeds; shrinking to nothing fails with
     * the pages gone; and then the fork panics, unless there is no memory even for a new directory.
     */
    method ShrinkAndFork() returns (r: CopyResult)
      requires Valid() && KmapOk(kmap)
      modifies this`free, this`tables, this`pages, this`owner
      ensures !r.Copied?
    {
      var d := TwoPages();
      if d == NULL {
        return NoMemory;
      }
      ghost var m := M();
      var g := Growproc(d, 8192, -12288);
      assert g == Size(8192) && M() == m;
      g := Growproc(d, 8192, -8192);
      assert g.Failed? && Emptied(m, M(), d, 0, 2);
      m := M();
      assert !Look(m, d, 0, 1).p;
      r := Copyuvm(d, 8192);
      if r.Copied? {
        NotCopied(m, M(), d, r.e, 2, kmap);
      }
    }
  }
}
