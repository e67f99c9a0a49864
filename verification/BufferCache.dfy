/** bio.c over memide.c: a fixed table of buffers on a doubly linked MRU list, caching a disk.

    The table is one array of structs; list pointers are indices into it and HEAD is the list head.
    Each method is one critical section; a method that would panic or go to sleep reports it, which
    leaves the caller stuck there. */
module BufferCache {
  import opened Blocks
  import opened RedoLog

  const NBUF := MAXOPBLOCKS * 3

  const HEAD := NBUF
  const ROOTDEV := 1

  datatype Buf = Buf(dev: nat, blockno: nat, valid: bool, dirty: bool, locked: bool, refcnt: nat,
                     prev: nat, next: nat, data: Block)

  datatype Found = Locked(i: nat) | Waits(i: nat) | NoBuffers

  datatype Read = Got(i: nat) | Stuck

  // ---------------------------------------------------------------- the disk

  /** The fake IDE disk: blocks in memory, with the writes received so far and the states they made. */
  class MemDisk {
    var blocks: Disk
    ghost const image: Disk
    ghost var trace: seq<Write>
    ghost var disks: seq<Disk>

    ghost predicate Valid()
      reads this
    {
      History(disks, trace) && blocks == disks[|trace|] && disks[0] == image
    }

    constructor (image: Disk)
      ensures Valid() && blocks == image && trace == [] && this.image == image
    {
      blocks, trace, disks := image, [], [image];
      this.image := image;
    }

    /** iderw: refuses (panics) unless the buffer is locked, has something to do, and is on the disk. */
    method Rw(b: Buf) returns (ok: bool, r: Buf)
      requires Valid()
      modifies this
      ensures Valid()
      ensures ok == (b.locked && (b.dirty || !b.valid) && b.dev == ROOTDEV && b.blockno < |blocks|)
      ensures ok && b.dirty ==> && trace == old(trace) + [Write(b.blockno, b.data)]
                                && blocks == Poke(old(blocks), Write(b.blockno, b.data))
                                && r == b.(dirty := false, valid := true)
      ensures ok && !b.dirty ==> r == b.(data := blocks[b.blockno], valid := true)
      ensures !ok || !b.dirty ==> blocks == old(blocks) && trace == old(trace)
      ensures old(disks) <= disks
      ensures !ok ==> r == b
    {
      r := b;
      ok := b.locked && !(b.valid && !b.dirty) && b.dev == ROOTDEV && b.blockno < |blocks|;
      if ok {
        if b.dirty {
          r := r.(dirty := false);
          blocks := blocks[b.blockno := b.data];
          trace := trace + [Write(b.blockno, b.data)];
          disks := disks + [blocks];
          forall i: nat | i < |trace| ensures Stepped(disks, trace, i) {
            var step := Stepped(old(disks), old(trace), i);
          }
        } else {
          r := r.(data := blocks[b.blockno]);
        }
        r := r.(valid := true);
      }
    }
  }

  // ---------------------------------------------------------------- the MRU list

  /** Following next from r[0] visits r, and following prev visits it backwards. */
  ghost predicate Chain(s: seq<Buf>, r: seq<nat>) {
    && (forall k :: 0 <= k < |r| ==> r[k] < |s|)
    && (forall k :: 0 <= k < |r| - 1 ==> s[r[k]].next == r[k + 1])
    && (forall k :: 0 < k < |r| ==> s[r[k]].prev == r[k - 1])
  }

  ghost predicate NoDup(q: seq<nat>) {
    forall i, j :: 0 <= i < j < |q| ==> q[i] != q[j]
  }

  function Ring(order: seq<nat>): seq<nat> {
    [HEAD] + order + [HEAD]
  }

  /** order is the list from most to least recently used, closed at both ends by the head. */
  ghost predicate Linked(s: seq<Buf>, order: seq<nat>) {
    && |s| == NBUF + 1
    && NoDup(order) && (forall k :: 0 <= k < |order| ==> order[k] < NBUF)
    && Chain(s, Ring(order))
  }

  /** Every buffer is on the list exactly once. */
  ghost predicate Permutation(order: seq<nat>) {
    && NoDup(order) && |order| == NBUF
    && (forall k :: 0 <= k < |order| ==> order[k] < NBUF)
    && (forall i: nat :: i < NBUF ==> i in order)
  }

  /** The two assignments that take b out of the list. */
  function Unlink(s: seq<Buf>, b: nat): seq<Buf>
    requires b < |s| && s[b].next < |s| && s[b].prev < |s|
  {
    var t := s[s[b].next := s[s[b].next].(prev := s[b].prev)];
    t[t[b].prev := t[t[b].prev].(next := t[b].next)]
  }

  /** The four assignments that put b behind the head. */
  function PushFront(s: seq<Buf>, b: nat): seq<Buf>
    requires |s| == NBUF + 1 && b < NBUF && s[HEAD].next < |s|
  {
    var t := s[b := s[b].(next := s[HEAD].next, prev := HEAD)];
    var u := t[t[HEAD].next := t[t[HEAD].next].(prev := b)];
    u[HEAD := u[HEAD].(next := b)]
  }

  predicate SameCore(a: Buf, b: Buf) {
    a.(prev := 0, next := 0) == b.(prev := 0, next := 0)
  }

  predicate SameCores(s: seq<Buf>, t: seq<Buf>) {
    |s| == |t| && forall i :: 0 <= i < |s| ==> SameCore(s[i], t[i])
  }

  /** What unlinking b changes: the next of its predecessor and the prev of its successor. */
  lemma UnlinkFields(s: seq<Buf>, b: nat)
    requires b < |s| && s[b].next < |s| && s[b].prev < |s| && s[b].next != b
    ensures var t := Unlink(s, b);
            && SameCores(s, t)
            && forall x :: 0 <= x < |s| ==>
                 && t[x].next == (if x == s[b].prev then s[b].next else s[x].next)
                 && t[x].prev == (if x == s[b].next then s[b].prev else s[x].prev)
  {}

  lemma PushFrontFields(s: seq<Buf>, b: nat)
    requires |s| == NBUF + 1 && b < NBUF && s[HEAD].next < |s| && s[HEAD].next != b
    ensures var t := PushFront(s, b);
            && SameCores(s, t)
            && forall x :: 0 <= x < |s| ==>
                 && t[x].next == (if x == HEAD then b else if x == b then s[HEAD].next else s[x].next)
                 && t[x].prev == (if x == s[HEAD].next then b else if x == b then HEAD else s[x].prev)
  {}

  lemma RingWithout(order: seq<nat>, p: nat)
    requires p < |order|
    ensures var r := Ring(order); r[..p + 1] + r[p + 2..] == Ring(order[..p] + order[p + 1..])
  {}

  lemma WithoutNoDup(order: seq<nat>, p: nat)
    requires NoDup(order) && p < |order| && forall k :: 0 <= k < |order| ==> order[k] < NBUF
    ensures var rest := order[..p] + order[p + 1..];
            NoDup(rest) && forall k :: 0 <= k < |rest| ==> rest[k] < NBUF
  {
    var rest := order[..p] + order[p + 1..];
    forall k | 0 <= k < |rest| ensures rest[k] < NBUF {
      assert rest[k] == order[if k < p then k else k + 1];
    }
    forall i, j | 0 <= i < j < |rest| ensures rest[i] != rest[j] {
      assert rest[i] == order[if i < p then i else i + 1] && rest[j] == order[if j < p then j else j + 1];
    }
  }

  lemma Neighbours(s: seq<Buf>, order: seq<nat>, p: nat)
    requires Linked(s, order) && p < |order|
    ensures var r, b := Ring(order), order[p];
            && r[p + 1] == b && s[b].next == r[p + 2] && s[b].prev == r[p]
            && r[p + 2] < |s| && r[p] < |s| && r[p + 2] != b && r[p] != b
  {
    var r, b := Ring(order), order[p];
    assert r[p + 1] == b;
  }

  lemma RingNoDup(order: seq<nat>)
    requires NoDup(order) && forall k :: 0 <= k < |order| ==> order[k] < NBUF
    ensures var r := Ring(order); NoDup(r[..|r| - 1]) && NoDup(r[1..])
  {
    var r := Ring(order);
    assert r[..|r| - 1] == [HEAD] + order && r[1..] == order + [HEAD];
  }

  /** A ring without its element at position p, once the neighbours are joined. */
  lemma UnlinkChain(s: seq<Buf>, t: seq<Buf>, r: seq<nat>, p: nat)
    requires Chain(s, r) && |t| == |s| && 0 < p < |r| - 1
    requires NoDup(r[..|r| - 1]) && NoDup(r[1..])
    requires forall x :: 0 <= x < |s| ==>
               && t[x].next == (if x == r[p - 1] then r[p + 1] else s[x].next)
               && t[x].prev == (if x == r[p + 1] then r[p - 1] else s[x].prev)
    ensures Chain(t, r[..p] + r[p + 1..])
  {
    var r' := r[..p] + r[p + 1..];
    assert forall k :: 0 <= k < |r'| ==> r'[k] == if k < p then r[k] else r[k + 1];
    forall k | 0 <= k < |r'| ensures r'[k] < |t| {
      var j := if k < p then k else k + 1;
      assert r[j] < |s|;
    }
    forall k | 0 <= k < |r'| - 1 ensures t[r'[k]].next == r'[k + 1] {
      var j := if k < p then k else k + 1;
      assert r[..|r| - 1][j] == r[j] && r[..|r| - 1][p - 1] == r[p - 1];
    }
    forall k | 0 < k < |r'| ensures t[r'[k]].prev == r'[k - 1] {
      var j := if k < p then k else k + 1;
      assert r[1..][j - 1] == r[j] && r[1..][p] == r[p + 1];
    }
  }

  lemma UnlinkLinked(s: seq<Buf>, order: seq<nat>, p: nat)
    requires Linked(s, order) && p < |order|
    ensures var b := order[p];
            && s[b].next < |s| && s[b].prev < |s| && s[b].next != b && s[b].prev != b
            && Linked(Unlink(s, b), order[..p] + order[p + 1..])
            && SameCores(s, Unlink(s, b))
  {
    var r, b := Ring(order), order[p];
    Neighbours(s, order, p);
    UnlinkFields(s, b);
    RingNoDup(order);
    UnlinkChain(s, Unlink(s, b), r, p + 1);
    RingWithout(order, p);
    WithoutNoDup(order, p);
  }

  lemma PushChain(s: seq<Buf>, t: seq<Buf>, r: seq<nat>, b: nat)
    requires |s| == NBUF + 1 && Chain(s, r) && |t| == |s| && |r| >= 2 && r[0] == HEAD
    requires NoDup(r[..|r| - 1]) && NoDup(r[1..]) && b < NBUF && b !in r
    requires forall x :: 0 <= x < |s| ==>
               && t[x].next == (if x == HEAD then b else if x == b then r[1] else s[x].next)
               && t[x].prev == (if x == r[1] then b else if x == b then HEAD else s[x].prev)
    ensures Chain(t, [HEAD, b] + r[1..])
  {
    var r' := [HEAD, b] + r[1..];
    assert forall k :: 1 < k < |r'| ==> r'[k] == r[k - 1];
    forall k | 0 <= k < |r'| ensures r'[k] < |t| {
      if k > 1 { assert r[k - 1] < |s|; }
    }
    forall k | 0 <= k < |r'| - 1 ensures t[r'[k]].next == r'[k + 1] {
      if k > 1 {
        assert r[..|r| - 1][k - 1] == r[k - 1] && r[..|r| - 1][0] == HEAD;
      }
    }
    forall k | 0 < k < |r'| ensures t[r'[k]].prev == r'[k - 1] {
      if k > 2 {
        assert r[1..][k - 2] == r[k - 1] && r[1..][0] == r[1];
      }
    }
  }

  lemma PushFrontLinked(s: seq<Buf>, order: seq<nat>, b: nat)
    requires Linked(s, order) && b < NBUF && b !in order
    ensures s[HEAD].next < |s| && s[HEAD].next != b
    ensures Linked(PushFront(s, b), [b] + order) && SameCores(s, PushFront(s, b))
  {
    var r := Ring(order);
    assert s[r[0]].next == r[1];
    PushFrontFields(s, b);
    RingNoDup(order);
    PushChain(s, PushFront(s, b), r, b);
    assert [HEAD, b] + r[1..] == Ring([b] + order);
  }

  // ---------------------------------------------------------------- coherence with the disk

  predicate Holds(b: Buf, dev: nat, blockno: nat) {
    b.dev == dev && b.blockno == blockno
  }

  /** Where each block is cached: the buffer that carries its identity. */
  type Directory = map<(nat, nat), nat>

  /** Nothing is lost if this buffer is recycled, or it cannot be recycled. */
  predicate Settled(b: Buf, d: Disk) {
    b.dirty || (b.blockno < |d| && b.data == d[b.blockno])
  }

  predicate BufOk(b: Buf, d: Disk) {
    && (b.valid ==> b.dev == ROOTDEV && b.blockno < |d|)
    && (b.dirty ==> b.valid)
    && (b.locked ==> b.refcnt > 0)
    && (b.valid && !b.locked ==> Settled(b, d))
  }

  /** Buffer i is fit to be in the table, the directory leads to it, and it is listed when pinned. */
  ghost predicate Entry(s: seq<Buf>, w: Directory, p: set<nat>, d: Disk, i: nat)
    requires i < |s|
  {
    && BufOk(s[i], d)
    // device 0 is the identity of buffers never used
    && (s[i].dev != 0 ==> (s[i].dev, s[i].blockno) in w && w[(s[i].dev, s[i].blockno)] == i)
    && (s[i].dirty ==> s[i].blockno in p)
  }

  /** w is the directory of the table s and p the set of its pinned blocks. */
  ghost predicate Coherent(s: seq<Buf>, w: Directory, p: set<nat>, d: Disk) {
    && |s| == NBUF + 1
    && (forall i: nat {:trigger Entry(s, w, p, d, i)} :: i < NBUF ==> Entry(s, w, p, d, i))
    && (forall k {:trigger k in w} :: k in w ==> k.0 != 0 && w[k] < NBUF && Holds(s[w[k]], k.0, k.1))
    && (forall b {:trigger b in p} :: b in p ==> (ROOTDEV, b) in w && s[w[(ROOTDEV, b)]].dirty)
  }

  /** Coherence with its entries spelled out. */
  lemma Entries(s: seq<Buf>, w: Directory, p: set<nat>, d: Disk)
    requires Coherent(s, w, p, d)
    ensures forall i: nat :: i < NBUF ==> BufOk(s[i], d)
    ensures forall i: nat :: i < NBUF && s[i].dev != 0 ==>
              (s[i].dev, s[i].blockno) in w && w[(s[i].dev, s[i].blockno)] == i
    ensures forall i: nat :: i < NBUF && s[i].dirty ==> s[i].blockno in p
  {
    forall i: nat | i < NBUF
      ensures BufOk(s[i], d)
      ensures s[i].dev != 0 ==> (s[i].dev, s[i].blockno) in w && w[(s[i].dev, s[i].blockno)] == i
      ensures s[i].dirty ==> s[i].blockno in p
    {
      var entry := Entry(s, w, p, d, i);
    }
  }

  lemma EntryAt(s: seq<Buf>, w: Directory, p: set<nat>, d: Disk, i: nat)
    requires Coherent(s, w, p, d) && i < NBUF
    ensures BufOk(s[i], d)
    ensures s[i].dev != 0 ==> (s[i].dev, s[i].blockno) in w && w[(s[i].dev, s[i].blockno)] == i
    ensures s[i].dirty ==> s[i].blockno in p
  {
    var entry := Entry(s, w, p, d, i);
  }

  /** What a read of block b through the cache returns. */
  ghost function View(s: seq<Buf>, w: Directory, d: Disk, b: nat): Block
    requires b < |d|
  {
    if (ROOTDEV, b) in w && w[(ROOTDEV, b)] < |s| && s[w[(ROOTDEV, b)]].valid then s[w[(ROOTDEV, b)]].data else d[b]
  }

  /** v is the flat block map the cache over the disk presents. */
  ghost predicate Shows(v: Disk, s: seq<Buf>, w: Directory, d: Disk) {
    |v| == |d| && forall b: nat {:trigger View(s, w, d, b)} :: b < |d| ==> v[b] == View(s, w, d, b)
  }

  /** What a valid buffer holds is what its block reads as. */
  lemma DataShown(v: Disk, s: seq<Buf>, w: Directory, p: set<nat>, d: Disk, i: nat)
    requires Coherent(s, w, p, d) && Shows(v, s, w, d) && i < NBUF && s[i].valid
    ensures s[i].dev == ROOTDEV && s[i].blockno < |d| && v[s[i].blockno] == s[i].data
  {
    EntryAt(s, w, p, d, i);
    assert v[s[i].blockno] == View(s, w, d, s[i].blockno);
  }

  /** There is at most one buffer per block of a real device. */
  lemma AtMostOneBuffer(s: seq<Buf>, w: Directory, p: set<nat>, d: Disk, i: nat, j: nat)
    requires Coherent(s, w, p, d) && i < NBUF && j < NBUF && s[i].dev != 0 && Holds(s[j], s[i].dev, s[i].blockno)
    ensures i == j
  {
    Entries(s, w, p, d);
  }

  /** No buffer is referenced, so nobody waits and nobody holds a lock. */
  predicate Quiet(s: seq<Buf>)
    requires |s| == NBUF + 1
  {
    forall i :: 0 <= i < NBUF ==> s[i].refcnt == 0 && !s[i].locked
  }

  /** Buffer i is held once and nothing else is referenced. */
  predicate QuietBut(s: seq<Buf>, i: nat)
    requires |s| == NBUF + 1 && i < NBUF
  {
    s[i].refcnt == 1 && forall j :: 0 <= j < NBUF && j != i ==> s[j].refcnt == 0 && !s[j].locked
  }

  /** A change of lock and reference count alone. */
  lemma SameButLock(v: Disk, s: seq<Buf>, w: Directory, p: set<nat>, d: Disk, i: nat, b': Buf)
    requires Coherent(s, w, p, d) && i < NBUF && BufOk(b', d)
    requires b' == s[i].(locked := b'.locked, refcnt := b'.refcnt)
    ensures var t := s[i := b'];
            Coherent(t, w, p, d) && (Shows(v, s, w, d) ==> Shows(v, t, w, d))
  {
    Entries(s, w, p, d);
    var t := s[i := b'];
    assert forall b: nat :: b < |d| ==> View(t, w, d, b) == View(s, w, d, b);
  }

  lemma SameCoresSameView(v: Disk, s: seq<Buf>, t: seq<Buf>, w: Directory, p: set<nat>, d: Disk)
    requires Coherent(s, w, p, d) && SameCores(s, t)
    ensures Coherent(t, w, p, d) && (Shows(v, s, w, d) ==> Shows(v, t, w, d))
  {
    Entries(s, w, p, d);
    forall i | 0 <= i < |s| ensures t[i] == s[i].(prev := t[i].prev, next := t[i].next) {
      assert SameCore(s[i], t[i]);
    }
    assert forall b: nat :: b < |d| ==> View(t, w, d, b) == View(s, w, d, b);
  }

  /** The directory after buffer i is given to a new block. */
  function Redirect(w: Directory, b: Buf, dev: nat, blockno: nat, i: nat): Directory {
    var v := w - {(b.dev, b.blockno)};
    if dev == 0 then v else v[(dev, blockno) := i]
  }

  /** Recycling an unreferenced clean buffer loses nothing. */
  lemma RecycleKeepsView(v: Disk, s: seq<Buf>, w: Directory, p: set<nat>, d: Disk, i: nat, dev: nat, blockno: nat)
    requires Coherent(s, w, p, d) && i < NBUF && s[i].refcnt == 0 && !s[i].dirty
    requires forall j :: 0 <= j < NBUF ==> !Holds(s[j], dev, blockno)
    ensures var b := s[i].(dev := dev, blockno := blockno, valid := false, dirty := false, refcnt := 1, locked := true);
            var t := s[i := b];
            var w' := Redirect(w, s[i], dev, blockno, i);
            Coherent(t, w', p, d) && (Shows(v, s, w, d) ==> Shows(v, t, w', d))
  {
    Entries(s, w, p, d);
    var t := s[i := s[i].(dev := dev, blockno := blockno, valid := false, dirty := false, refcnt := 1, locked := true)];
    var w' := Redirect(w, s[i], dev, blockno, i);
    assert (dev, blockno) !in w;
    assert forall b: nat :: b < |d| ==> View(t, w', d, b) == View(s, w, d, b);
  }

  /** Filling a buffer from the disk shows the same contents as before. */
  lemma FillKeepsView(v: Disk, s: seq<Buf>, w: Directory, p: set<nat>, d: Disk, i: nat)
    requires Coherent(s, w, p, d) && i < NBUF && !s[i].valid && s[i].locked && s[i].dev == ROOTDEV && s[i].blockno < |d|
    ensures var t := s[i := s[i].(data := d[s[i].blockno], valid := true)];
            Coherent(t, w, p, d) && (Shows(v, s, w, d) ==> Shows(v, t, w, d))
  {
    Entries(s, w, p, d);
    var t := s[i := s[i].(data := d[s[i].blockno], valid := true)];
    assert forall b: nat :: b < |d| ==> View(t, w, d, b) == View(s, w, d, b);
  }

  /** New data in a held buffer shows in the view of its block only. */
  lemma DataChangesOneBlock(v: Disk, s: seq<Buf>, w: Directory, p: set<nat>, d: Disk, i: nat, data: Block)
    requires Coherent(s, w, p, d) && i < NBUF && s[i].valid && s[i].locked
    ensures var t := s[i := s[i].(data := data)];
            && Coherent(t, w, p, d)
            && (Shows(v, s, w, d) ==> s[i].blockno < |v| && Shows(v[s[i].blockno := data], t, w, d))
  {
    Entries(s, w, p, d);
    var t := s[i := s[i].(data := data)];
    assert forall b: nat :: b < |d| ==> View(t, w, d, b) == if b == s[i].blockno then data else View(s, w, d, b);
  }

  /** Writing a held buffer through unpins it and changes what is on disk, not what is read. */
  lemma WriteThroughKeepsView(v: Disk, s: seq<Buf>, w: Directory, p: set<nat>, d: Disk, i: nat)
    requires Coherent(s, w, p, d) && i < NBUF && s[i].valid && s[i].locked
    ensures s[i].blockno < |d|
    ensures var t, e := s[i := s[i].(dirty := false)], d[s[i].blockno := s[i].data];
            Coherent(t, w, p - {s[i].blockno}, e) && (Shows(v, s, w, d) ==> Shows(v, t, w, e))
  {
    Entries(s, w, p, d);
    var t, e := s[i := s[i].(dirty := false)], d[s[i].blockno := s[i].data];
    assert forall b: nat :: b < |d| ==> View(t, w, e, b) == View(s, w, d, b);
  }

  lemma PinKeepsView(v: Disk, s: seq<Buf>, w: Directory, p: set<nat>, d: Disk, i: nat)
    requires Coherent(s, w, p, d) && i < NBUF && s[i].valid && s[i].locked
    ensures var t := s[i := s[i].(dirty := true)];
            Coherent(t, w, p + {s[i].blockno}, d) && (Shows(v, s, w, d) ==> Shows(v, t, w, d))
  {
    Entries(s, w, p, d);
    var t := s[i := s[i].(dirty := true)];
    assert forall b: nat :: b < |d| ==> View(t, w, d, b) == View(s, w, d, b);
  }

  method TakeOut(a: array<Buf>, b: nat)
    requires b < a.Length && a[b].next < a.Length && a[b].prev < a.Length && a[b].next != b && a[b].prev != b
    modifies a
    ensures a[..] == Unlink(old(a[..]), b)
  {
    a[a[b].next] := a[a[b].next].(prev := a[b].prev);
    a[a[b].prev] := a[a[b].prev].(next := a[b].next);
  }

  method PutBehindHead(a: array<Buf>, b: nat)
    requires a.Length == NBUF + 1 && b < NBUF && a[HEAD].next < a.Length && a[HEAD].next != b
    modifies a
    ensures a[..] == PushFront(old(a[..]), b)
  {
    a[b] := a[b].(next := a[HEAD].next);
    a[b] := a[b].(prev := HEAD);
    a[a[HEAD].next] := a[a[HEAD].next].(prev := b);
    a[HEAD] := a[HEAD].(next := b);
  }

  lemma OnRing(order: seq<nat>, i: nat) returns (p: nat)
    requires Permutation(order) && i < NBUF
    ensures p < |order| && order[p] == i && Ring(order)[p + 1] == i
  {
    assert i in order;
    p :| p < |order| && order[p] == i;
  }

  /** Links survive changes that keep every buffer's own links. */
  lemma SameLinks(s: seq<Buf>, t: seq<Buf>, order: seq<nat>)
    requires Linked(s, order) && |t| == |s|
    requires forall i :: 0 <= i < |s| ==> t[i].next == s[i].next && t[i].prev == s[i].prev
    ensures Linked(t, order)
  {}

  // ---------------------------------------------------------------- the cache

  /** Buffer i is the one the recycling scan takes: the least recently used free one. */
  ghost predicate Recyclable(s: seq<Buf>, order: seq<nat>, i: nat)
    requires |s| == NBUF + 1
  {
    && i < NBUF && s[i].refcnt == 0 && !s[i].dirty
    && exists p :: 0 <= p < |order| && order[p] == i
         && forall k :: p < k < |order| && order[k] < NBUF ==> s[order[k]].refcnt > 0 || s[order[k]].dirty
  }

  /** A bread of the block goes through at once: it is cached and unlocked, or there is a free buffer for it. */
  ghost predicate Available(s: seq<Buf>, dev: nat, blockno: nat)
    requires |s| == NBUF + 1
  {
    || (exists j :: 0 <= j < NBUF && Holds(s[j], dev, blockno) && !s[j].locked && s[j].dev != 0)
    || (&& (forall j :: 0 <= j < NBUF ==> !Holds(s[j], dev, blockno))
        && (exists j :: 0 <= j < NBUF && s[j].refcnt == 0 && !s[j].dirty))
  }

  /** An available block is not behind a lock, since only one buffer caches it. */
  lemma AvailableNow(s: seq<Buf>, w: Directory, p: set<nat>, d: Disk, dev: nat, blockno: nat, i: nat)
    requires Coherent(s, w, p, d) && Available(s, dev, blockno) && i < NBUF && Holds(s[i], dev, blockno)
    ensures !s[i].locked
  {
    Entries(s, w, p, d);
  }

  lemma {:induction false} DistinctBlocks(s: seq<Buf>, w: Directory, p: set<nat>, d: Disk, k: nat)
    requires Coherent(s, w, p, d) && k <= NBUF && forall j :: 0 <= j < k ==> s[j].dirty
    ensures |set i | 0 <= i < k :: s[i].blockno| == k
    ensures (set i | 0 <= i < k :: s[i].blockno) <= p
  {
    if k > 0 {
      Entries(s, w, p, d);
      DistinctBlocks(s, w, p, d, k - 1);
      assert (set i | 0 <= i < k :: s[i].blockno) == (set i | 0 <= i < k - 1 :: s[i].blockno) + {s[k - 1].blockno};
    }
  }

  lemma {:induction false} SubsetSize(a: set<nat>, b: set<nat>)
    requires a <= b
    ensures |a| <= |b|
    decreases a
  {
    if a != {} {
      var x :| x in a;
      SubsetSize(a - {x}, b - {x});
    }
  }

  /** With nobody holding buffers and fewer than NBUF blocks pinned, every block can be read. */
  lemma RoomToRead(s: seq<Buf>, w: Directory, p: set<nat>, d: Disk, blockno: nat)
    requires Coherent(s, w, p, d) && Quiet(s) && |p| < NBUF
    ensures Available(s, ROOTDEV, blockno)
  {
    Entries(s, w, p, d);
    if forall j :: 0 <= j < NBUF ==> s[j].dirty {
      DistinctBlocks(s, w, p, d, NBUF);
      SubsetSize(set i | 0 <= i < NBUF :: s[i].blockno, p);
    }
  }

  /** Nobody holds a buffer, not all are pinned, and the second block is pinned unless nothing is. */
  predicate RoomForPair(s: seq<Buf>, p: set<nat>, b2: nat)
    requires |s| == NBUF + 1
  {
    Quiet(s) && |p| < NBUF && (b2 in p || p == {})
  }

  /** After one bread into buffer i, the second block of a pair can still be read. */
  lemma SecondAvailable(s: seq<Buf>, t: seq<Buf>, w: Directory, p: set<nat>, d: Disk, i: nat, b2: nat)
    requires Coherent(s, w, p, d) && |t| == NBUF + 1
    requires RoomForPair(s, p, b2) && i < NBUF && t[i].blockno != b2 && (s[i].dirty ==> s[i].blockno == t[i].blockno)
    requires forall j :: 0 <= j < NBUF && j != i ==> t[j] == s[j]
    ensures Available(t, ROOTDEV, b2)
  {
    Entries(s, w, p, d);
    if b2 in p {
      var j := w[(ROOTDEV, b2)];
      assert t[j] == s[j] && Holds(t[j], ROOTDEV, b2) && !t[j].locked;
    } else {
      var j := if i == 0 then 1 else 0;
      assert t[j] == s[j];
    }
  }

  /** Somebody takes buffer i, which nobody holds: only that buffer changes. */
  predicate Took(s: seq<Buf>, u: seq<Buf>, i: nat)
    requires |s| == |u| == NBUF + 1
  {
    && i < NBUF && !s[i].locked && u[i].refcnt == s[i].refcnt + 1
    && forall k :: 0 <= k <= NBUF && k != i ==> u[k] == s[k]
  }

  predicate TookBoth(s: seq<Buf>, u: seq<Buf>, i: nat, j: nat)
    requires |s| == |u| == NBUF + 1
  {
    && i < NBUF && j < NBUF && i != j
    && u[i].refcnt == s[i].refcnt + 1 && u[j].refcnt == s[j].refcnt + 1
    && forall k :: 0 <= k <= NBUF && k != i && k != j ==> u[k] == s[k]
  }

  lemma TookTwice(s: seq<Buf>, t: seq<Buf>, u: seq<Buf>, i: nat, j: nat)
    requires |s| == |t| == |u| == NBUF + 1 && Took(s, t, i) && Took(t, u, j) && i != j
    ensures TookBoth(s, u, i, j)
  {
  }

  /** Taking two buffers and releasing them leaves a quiet cache quiet. */
  lemma QuietAgain(s: seq<Buf>, u: seq<Buf>, v: seq<Buf>, i: nat, j: nat)
    requires |s| == |u| == |v| == NBUF + 1 && TookBoth(s, u, i, j)
    requires forall k :: 0 <= k < NBUF && k != i && k != j ==> SameCore(v[k], u[k])
    requires forall k :: k == i || k == j ==> !v[k].locked && v[k].refcnt == u[k].refcnt - 1
    ensures Quiet(s) ==> Quiet(v)
  {
    forall k | 0 <= k < NBUF && k != i && k != j ensures v[k].refcnt == s[k].refcnt && v[k].locked == s[k].locked {
      assert SameCore(v[k], u[k]);
    }
  }

  /** Moving one element to the front permutes the list. */
  lemma MoveToFront(order: seq<nat>, p: nat)
    requires Permutation(order) && p < |order|
    ensures Permutation([order[p]] + (order[..p] + order[p + 1..]))
  {
    var rest := order[..p] + order[p + 1..];
    forall i: nat | i < NBUF ensures i in [order[p]] + rest {
      var k := OnRing(order, i);
      if k < p {
        assert rest[k] == i;
      } else if k > p {
        assert rest[k - 1] == i;
      }
    }
  }

  class Bcache {
    const buf: array<Buf>
    const ide: MemDisk
    ghost var order: seq<nat>
    ghost var where: Directory
    /** The blocks whose buffers are dirty, hence never recycled. */
    ghost var pinned: set<nat>
    /** What every block reads as through the cache. */
    ghost var view: Disk

    ghost predicate Valid()
      reads this, buf, ide
    {
      && ide.Valid()
      && buf.Length == NBUF + 1
      && Permutation(order) && Linked(buf[..], order)
      && Coherent(buf[..], where, pinned, ide.blocks) && Shows(view, buf[..], where, ide.blocks)
    }

    /** binit: all buffers are on the list, in reverse order of their index. */
    constructor (ide: MemDisk)
      requires ide.Valid()
      ensures Valid() && this.ide == ide && fresh(buf)
      ensures forall i :: 0 <= i < NBUF ==> buf[i].refcnt == 0 && !buf[i].dirty && !buf[i].valid && !buf[i].locked
      ensures order == seq(NBUF, i => NBUF - 1 - i)
      ensures view == ide.blocks && pinned == {}
    {
      this.ide := ide;
      var zero: Block := seq(BSIZE, _ => 0);
      var a := new Buf[NBUF + 1](_ => Buf(0, 0, false, false, false, 0, 0, 0, zero));
      a[HEAD] := a[HEAD].(prev := HEAD, next := HEAD);
      ghost var q: seq<nat> := [];
      var b := 0;
      assert Linked(a[..], q);
      while b < NBUF
        invariant 0 <= b <= NBUF && |q| == b
        invariant a.Length == NBUF + 1 && Linked(a[..], q)
        invariant forall k :: 0 <= k < |q| ==> q[k] == b - 1 - k
        invariant forall i :: 0 <= i < NBUF ==>
                    a[i].refcnt == 0 && !a[i].dirty && !a[i].valid && !a[i].locked && a[i].dev == 0
      {
        PushFrontLinked(a[..], q, b);
        PutBehindHead(a, b);
        q := [b] + q;
        b := b + 1;
      }
      assert q == seq(NBUF, i => NBUF - 1 - i);
      forall i: nat | i < NBUF ensures i in q {
        assert q[NBUF - 1 - i] == i;
      }
      buf, order, where, pinned, view := a, q, map[], {}, ide.blocks;
    }

    /** The first loop of bget, along next: the buffer caching the block, or the head if there is none. */
    method FindCached(dev: nat, blockno: nat) returns (b: nat)
      requires Valid()
      ensures b == HEAD || (b < NBUF && Holds(buf[b], dev, blockno))
      ensures b == HEAD ==> forall j :: 0 <= j < NBUF ==> !Holds(buf[j], dev, blockno)
    {
      ghost var ring, k := Ring(order), 1;
      assert ring[0] == HEAD;
      b := buf[HEAD].next;
      while b != HEAD
        invariant 1 <= k < |ring| && b == ring[k]
        invariant forall j :: 0 < j < k ==> !Holds(buf[ring[j]], dev, blockno)
        decreases |ring| - k
      {
        assert b == order[k - 1];
        if buf[b].dev == dev && buf[b].blockno == blockno {
          return;
        }
        b, k := buf[b].next, k + 1;
      }
      assert k == |ring| - 1;
      forall j | 0 <= j < NBUF ensures !Holds(buf[j], dev, blockno) {
        ghost var p := OnRing(order, j);
      }
    }

    /** The second loop of bget, along prev: the least recently used free buffer, or the head. */
    method FindFree() returns (b: nat)
      requires Valid()
      ensures b == HEAD || Recyclable(buf[..], order, b)
      ensures b == HEAD ==> forall j :: 0 <= j < NBUF ==> buf[j].refcnt > 0 || buf[j].dirty
    {
      ghost var ring, k := Ring(order), |order|;
      assert ring[|ring| - 1] == HEAD;
      b := buf[HEAD].prev;
      while b != HEAD
        invariant 0 <= k < |ring| - 1 && b == ring[k]
        invariant forall j :: k <= j < |order| ==> buf[order[j]].refcnt > 0 || buf[order[j]].dirty
        decreases k
      {
        assert b == order[k - 1];
        if buf[b].refcnt == 0 && !buf[b].dirty {
          return;
        }
        b, k := buf[b].prev, k - 1;
      }
      assert k == 0;
      forall j | 0 <= j < NBUF ensures buf[j].refcnt > 0 || buf[j].dirty {
        ghost var p := OnRing(order, j);
      }
    }

    /** Recycling: the free buffer b becomes an empty, locked buffer for the block. */
    method Relabel(b: nat, dev: nat, blockno: nat)
      requires Valid() && b < NBUF && buf[b].refcnt == 0 && !buf[b].dirty
      requires forall j :: 0 <= j < NBUF ==> !Holds(buf[j], dev, blockno)
      modifies this`where, buf
      ensures Valid() && view == old(view)
      ensures buf[..] == old(buf[..])[b := old(buf[b]).(dev := dev, blockno := blockno, valid := false, dirty := false,
                                                        refcnt := 1, locked := true)]
    {
      ghost var s := buf[..];
      buf[b] := buf[b].(dev := dev);
      buf[b] := buf[b].(blockno := blockno);
      buf[b] := buf[b].(valid := false, dirty := false);
      buf[b] := buf[b].(refcnt := 1);
      buf[b] := buf[b].(locked := true);
      assert buf[..] == s[b := s[b].(dev := dev, blockno := blockno, valid := false, dirty := false,
                                     refcnt := 1, locked := true)];
      RecycleKeepsView(view, s, where, pinned, ide.blocks, b, dev, blockno);
      where := Redirect(where, s[b], dev, blockno, b);
      SameLinks(s, buf[..], order);
    }

    /** The block is cached in buffer b: one more reference, and its lock if that is free. */
    method Take(b: nat) returns (r: Found)
      requires Valid() && b < NBUF
      modifies buf
      ensures Valid() && view == old(view)
      ensures r == if old(buf[b]).locked then Waits(b) else Locked(b)
      ensures buf[..] == old(buf[..])[b := old(buf[b]).(refcnt := old(buf[b]).refcnt + 1, locked := true)]
    {
      r := if buf[b].locked then Waits(b) else Locked(b);
      ghost var s := buf[..];
      EntryAt(s, where, pinned, ide.blocks, b);
      buf[b] := buf[b].(refcnt := buf[b].refcnt + 1);
      buf[b] := buf[b].(locked := true);
      assert buf[..] == s[b := s[b].(refcnt := s[b].refcnt + 1, locked := true)];
      SameButLock(view, s, where, pinned, ide.blocks, b, buf[b]);
      SameLinks(s, buf[..], order);
    }

    /** bget: the buffer already caching (dev, blockno), else the least recently used free one,
        relabelled; the caller then owns its lock or sleeps for it. */
    method Bget(dev: nat, blockno: nat) returns (r: Found)
      requires Valid()
      modifies this`where, buf
      ensures Valid() && view == old(view)
      ensures r.NoBuffers? ==> buf[..] == old(buf[..])
      ensures r.NoBuffers? <==> && (forall j :: 0 <= j < NBUF ==> !Holds(old(buf[j]), dev, blockno))
                                && (forall j :: 0 <= j < NBUF ==> old(buf[j]).refcnt > 0 || old(buf[j]).dirty)
      ensures !r.NoBuffers? ==> r.i < NBUF && Holds(buf[r.i], dev, blockno)
                                && forall j :: 0 <= j <= NBUF && j != r.i ==> buf[j] == old(buf[j])
      ensures !r.NoBuffers? && Holds(old(buf[r.i]), dev, blockno) ==>
                && r.Waits? == old(buf[r.i]).locked
                && buf[r.i] == old(buf[r.i]).(refcnt := old(buf[r.i]).refcnt + 1, locked := true)
      ensures !r.NoBuffers? && !Holds(old(buf[r.i]), dev, blockno) ==>
                && r.Locked?
                && (forall j :: 0 <= j < NBUF ==> !Holds(old(buf[j]), dev, blockno))
                && Recyclable(old(buf[..]), order, r.i)
                && buf[r.i] == old(buf[r.i]).(dev := dev, blockno := blockno, valid := false, dirty := false,
                                              refcnt := 1, locked := true)
    {
      Entries(buf[..], where, pinned, ide.blocks);
      var b := FindCached(dev, blockno);
      if b != HEAD {
        r := Take(b);
        return;
      }
      b := FindFree();
      if b == HEAD {
        return NoBuffers;
      }
      Relabel(b, dev, blockno);
      return Locked(b);
    }

    /** The sleeper woken by a release takes the lock it was waiting for (end of acquiresleep). */
    method Resume(i: nat)
      requires Valid() && i < NBUF && !buf[i].locked && buf[i].refcnt > 0
      modifies buf
      ensures Valid() && view == old(view)
      ensures buf[..] == old(buf[..])[i := old(buf[i]).(locked := true)]
    {
      EntryAt(buf[..], where, pinned, ide.blocks, i);
      ghost var s := buf[..];
      buf[i] := buf[i].(locked := true);
      assert buf[..] == s[i := buf[i]];
      SameButLock(view, s, where, pinned, ide.blocks, i, buf[i]);
      SameLinks(s, buf[..], order);
    }

    /** The read of a buffer not yet valid; refused for a block that is not on the disk. */
    method Load(i: nat) returns (ok: bool)
      requires Valid() && i < NBUF && buf[i].locked && !buf[i].valid
      modifies buf, ide
      ensures Valid() && view == old(view) && ide.blocks == old(ide.blocks) && ide.trace == old(ide.trace)
      ensures old(ide.disks) <= ide.disks
      ensures ok == (buf[i].dev == ROOTDEV && buf[i].blockno < |ide.blocks|)
      ensures !ok ==> buf[..] == old(buf[..])
      ensures ok ==> buf[..] == old(buf[..])[i := old(buf[i]).(valid := true, data := ide.blocks[buf[i].blockno])]
    {
      EntryAt(buf[..], where, pinned, ide.blocks, i);
      ghost var s := buf[..];
      var b;
      ok, b := ide.Rw(buf[i]);
      if ok {
        buf[i] := b;
        assert buf[..] == s[i := b];
        FillKeepsView(view, s, where, pinned, ide.blocks, i);
        SameLinks(s, buf[..], order);
      }
    }

    /** bread: a locked buffer holding what the block reads as. Reading changes no block's contents. */
    method Bread(dev: nat, blockno: nat) returns (r: Read)
      requires Valid()
      modifies this`where, buf, ide
      ensures Valid() && ide.blocks == old(ide.blocks) && ide.trace == old(ide.trace)
      ensures old(ide.disks) <= ide.disks
      ensures view == old(view)
      ensures r.Got? ==>
                && Took(old(buf[..]), buf[..], r.i)
                && buf[r.i].valid && buf[r.i].locked && Holds(buf[r.i], dev, blockno)
                && dev == ROOTDEV && blockno < |ide.blocks|
                && buf[r.i].data == view[blockno] && Settled(buf[r.i], ide.blocks)
                && buf[r.i].dirty == old(buf[r.i]).dirty
                && (buf[r.i].dirty ==> old(buf[r.i]).blockno == blockno)
      ensures dev == ROOTDEV && blockno < |ide.blocks| && old(Available(buf[..], dev, blockno)) ==> r.Got?
    {
      ghost var s, w := buf[..], where;
      var f := Bget(dev, blockno);
      if f.NoBuffers? {
        return Stuck;
      }
      EntryAt(s, w, pinned, ide.blocks, f.i);
      if f.Waits? {
        if Available(s, dev, blockno) {
          AvailableNow(s, w, pinned, ide.blocks, dev, blockno, f.i);
        }
        return Stuck;
      }
      if !buf[f.i].valid {
        var ok := Load(f.i);
        if !ok {
          return Stuck;
        }
      }
      EntryAt(buf[..], where, pinned, ide.blocks, f.i);
      DataShown(view, buf[..], where, pinned, ide.blocks, f.i);
      return Got(f.i);
    }

    /** The caller holds buffer i for block b, unmodified. */
    ghost predicate Held(i: nat, b: nat)
      requires buf.Length == NBUF + 1 && b < |view|
      reads this, buf, ide
    {
      && i < NBUF && buf[i].valid && buf[i].locked && Holds(buf[i], ROOTDEV, b)
      && buf[i].data == view[b] && Settled(buf[i], ide.blocks)
    }

    /** A bread of a block on the disk; when nobody holds buffers and not all are pinned it succeeds. */
    method BreadBlock(b: nat) returns (r: Read)
      requires Valid() && b < |ide.blocks|
      modifies this`where, buf, ide
      ensures Valid() && view == old(view) && ide.blocks == old(ide.blocks) && ide.trace == old(ide.trace)
      ensures old(ide.disks) <= ide.disks
      ensures r.Got? ==> Held(r.i, b)
      ensures r.Got? && old(Quiet(buf[..])) ==> QuietBut(buf[..], r.i)
      ensures old(Quiet(buf[..])) && |pinned| < NBUF ==> r.Got?
    {
      if Quiet(buf[..]) && |pinned| < NBUF {
        RoomToRead(buf[..], where, pinned, ide.blocks, b);
      }
      r := Bread(ROOTDEV, b);
    }

    /** A bread of another block while buffer i is held. */
    method BreadOther(i: nat, held: nat, b: nat) returns (r: Read)
      requires Valid() && held < |ide.blocks| && Held(i, held) && b != held
      modifies this`where, buf, ide
      ensures Valid() && view == old(view) && ide.blocks == old(ide.blocks) && ide.trace == old(ide.trace)
      ensures old(ide.disks) <= ide.disks
      ensures r.Got? ==>
                b < |ide.blocks| && Held(i, held) && Held(r.i, b) && r.i != i && Took(old(buf[..]), buf[..], r.i)
      ensures b < |ide.blocks| && old(Available(buf[..], ROOTDEV, b)) ==> r.Got?
    {
      r := Bread(ROOTDEV, b);
    }

    /** The first bread of a pair, after which there is still room for the second. */
    method BreadFirst(b1: nat, ghost b2: nat) returns (r: Read)
      requires Valid() && b1 != b2
      modifies this`where, buf, ide
      ensures Valid() && view == old(view) && ide.blocks == old(ide.blocks) && ide.trace == old(ide.trace)
      ensures old(ide.disks) <= ide.disks
      ensures r.Got? ==> b1 < |ide.blocks| && Held(r.i, b1) && Took(old(buf[..]), buf[..], r.i)
      ensures b1 < |ide.blocks| && old(RoomForPair(buf[..], pinned, b2)) ==> r.Got? && Available(buf[..], ROOTDEV, b2)
    {
      ghost var s, w := buf[..], where;
      if RoomForPair(s, pinned, b2) {
        RoomToRead(s, where, pinned, ide.blocks, b1);
      }
      r := Bread(ROOTDEV, b1);
      if r.Got? && RoomForPair(s, pinned, b2) {
        SecondAvailable(s, buf[..], w, pinned, ide.blocks, r.i, b2);
      }
    }

    /** Two breads in a row of different blocks, as the copying loops of the log do. With room in the
        cache they both succeed: the second block is pinned, hence cached, or nothing is pinned. */
    method BreadPair(b1: nat, b2: nat) returns (r1: Read, r2: Read)
      requires Valid() && b1 != b2
      modifies this`where, buf, ide
      ensures Valid() && ide.blocks == old(ide.blocks) && ide.trace == old(ide.trace)
      ensures old(ide.disks) <= ide.disks
      ensures view == old(view)
      ensures r1.Got? && r2.Got? ==>
                && b1 < |ide.blocks| && b2 < |ide.blocks|
                && Held(r1.i, b1) && Held(r2.i, b2) && TookBoth(old(buf[..]), buf[..], r1.i, r2.i)
      ensures b1 < |ide.blocks| && b2 < |ide.blocks| && old(RoomForPair(buf[..], pinned, b2)) ==> r1.Got? && r2.Got?
    {
      ghost var s := buf[..];
      r2 := Stuck;
      r1 := BreadFirst(b1, b2);
      if r1.Got? {
        ghost var t := buf[..];
        r2 := BreadOther(r1.i, b1, b2);
        if r2.Got? {
          TookTwice(s, t, buf[..], r1.i, r2.i);
        }
      }
    }

    /** memmove into the data of a held buffer. */
    method Fill(i: nat, data: Block)
      requires Valid() && i < NBUF && buf[i].valid && buf[i].locked
      modifies this`view, buf
      ensures Valid() && buf[..] == old(buf[..])[i := old(buf[i]).(data := data)]
      ensures buf[i].blockno < |old(view)| && view == old(view)[buf[i].blockno := data]
    {
      EntryAt(buf[..], where, pinned, ide.blocks, i);
      ghost var s := buf[..];
      buf[i] := buf[i].(data := data);
      assert buf[..] == s[i := buf[i]];
      DataChangesOneBlock(view, s, where, pinned, ide.blocks, i, data);
      view := view[s[i].blockno := data];
      SameLinks(s, buf[..], order);
    }

    /** bwrite: the block on disk becomes the buffer's data; the cache reads as before. */
    method Bwrite(i: nat)
      requires Valid() && i < NBUF && buf[i].valid && buf[i].locked
      modifies this`pinned, buf, ide
      ensures Valid() && buf[..] == old(buf[..])[i := old(buf[i]).(dirty := false)]
      ensures pinned == old(pinned) - {buf[i].blockno}
      ensures ide.trace == old(ide.trace) + [Write(buf[i].blockno, buf[i].data)]
      ensures buf[i].blockno < |old(ide.blocks)| && ide.blocks == old(ide.blocks)[buf[i].blockno := buf[i].data]
      ensures old(ide.disks) <= ide.disks
      ensures view == old(view)
    {
      EntryAt(buf[..], where, pinned, ide.blocks, i);
      ghost var s, d := buf[..], ide.blocks;
      buf[i] := buf[i].(dirty := true);
      var ok, b := ide.Rw(buf[i]);
      buf[i] := b;
      assert ok && buf[..] == s[i := s[i].(dirty := false)];
      WriteThroughKeepsView(view, s, where, pinned, d, i);
      pinned := pinned - {s[i].blockno};
      SameLinks(s, buf[..], order);
    }

    /** log_write's pin: the buffer is dirty, so it cannot be recycled before commit writes it. */
    method Pin(i: nat)
      requires Valid() && i < NBUF && buf[i].valid && buf[i].locked
      modifies this`pinned, buf
      ensures Valid() && view == old(view)
      ensures pinned == old(pinned) + {buf[i].blockno}
      ensures buf[..] == old(buf[..])[i := old(buf[i]).(dirty := true)]
    {
      EntryAt(buf[..], where, pinned, ide.blocks, i);
      ghost var s := buf[..];
      buf[i] := buf[i].(dirty := true);
      assert buf[..] == s[i := buf[i]];
      SameLinks(s, buf[..], order);
      PinKeepsView(view, s, where, pinned, ide.blocks, i);
      pinned := pinned + {s[i].blockno};
    }

    /** The relinking at the end of brelse. */
    method ToFront(i: nat)
      requires Valid() && i < NBUF
      modifies this`order, buf
      ensures Valid() && view == old(view)
      ensures SameCores(old(buf[..]), buf[..])
      ensures exists p: nat :: p < NBUF && old(order)[p] == i && order == [i] + (old(order)[..p] + old(order)[p + 1..])
    {
      ghost var t := buf[..];
      ghost var p := OnRing(order, i);
      ghost var rest := order[..p] + order[p + 1..];
      UnlinkLinked(t, order, p);
      TakeOut(buf, i);
      PushFrontLinked(buf[..], rest, i);
      PutBehindHead(buf, i);
      MoveToFront(order, p);
      order := [i] + rest;
      SameCoresSameView(view, t, buf[..], where, pinned, ide.blocks);
    }

    /** brelse: gives up the lock; the last reference moves the buffer to the front of the list.
        The caller has written or logged what it changed, which is what Settled says. */
    method Brelse(i: nat)
      requires Valid() && i < NBUF && buf[i].locked && (buf[i].valid ==> Settled(buf[i], ide.blocks))
      modifies this`order, buf
      ensures Valid() && view == old(view)
      ensures !buf[i].locked && SameCore(old(buf[i]), buf[i].(locked := true, refcnt := buf[i].refcnt + 1))
      ensures forall j :: 0 <= j <= NBUF && j != i ==> SameCore(buf[j], old(buf[j]))
      ensures if buf[i].refcnt > 0 then order == old(order)
              else exists p: nat :: p < NBUF && old(order)[p] == i
                     && order == [i] + (old(order)[..p] + old(order)[p + 1..])
    {
      EntryAt(buf[..], where, pinned, ide.blocks, i);
      ghost var s := buf[..];
      buf[i] := buf[i].(locked := false);
      buf[i] := buf[i].(refcnt := buf[i].refcnt - 1);
      assert buf[..] == s[i := s[i].(locked := false, refcnt := s[i].refcnt - 1)];
      SameButLock(view, s, where, pinned, ide.blocks, i, buf[i]);
      SameLinks(s, buf[..], order);
      if buf[i].refcnt == 0 {
        ToFront(i);
      }
    }

    /** New data for a held buffer, on the disk at once. */
    method WriteThrough(i: nat, data: Block)
      requires Valid() && i < NBUF && buf[i].valid && buf[i].locked
      modifies this`view, this`pinned, buf, ide
      ensures Valid() && buf[..] == old(buf[..])[i := old(buf[i]).(data := data, dirty := false)]
      ensures buf[i].blockno < |old(view)| == |old(ide.blocks)|
      ensures ide.trace == old(ide.trace) + [Write(buf[i].blockno, data)]
      ensures ide.blocks == old(ide.blocks)[buf[i].blockno := data] && view == old(view)[buf[i].blockno := data]
      ensures old(ide.disks) <= ide.disks
      ensures pinned == old(pinned) - {buf[i].blockno}
    {
      EntryAt(buf[..], where, pinned, ide.blocks, i);
      Fill(i, data);
      Bwrite(i);
    }

    /** The two brelse calls after a copy. */
    method ReleaseBoth(i: nat, j: nat)
      requires Valid() && i < NBUF && j < NBUF && i != j && buf[i].locked && buf[j].locked
      requires (buf[i].valid ==> Settled(buf[i], ide.blocks)) && (buf[j].valid ==> Settled(buf[j], ide.blocks))
      modifies this`order, buf
      ensures Valid() && view == old(view)
      ensures forall k :: 0 <= k < NBUF && k != i && k != j ==> SameCore(buf[k], old(buf[k]))
      ensures !buf[i].locked && buf[i].refcnt == old(buf[i]).refcnt - 1
      ensures !buf[j].locked && buf[j].refcnt == old(buf[j]).refcnt - 1
    {
      Brelse(i);
      Brelse(j);
    }

    /** The body shared by write_log and install_trans once both buffers are held: copy, write the
        destination through, release both. */
    method CopyThrough(to: nat, from: nat)
      requires Valid() && to < NBUF && from < NBUF && to != from
      requires buf[to].valid && buf[to].locked && buf[from].valid && buf[from].locked
      requires Settled(buf[from], ide.blocks) && buf[to].blockno != buf[from].blockno
      modifies this, buf, ide
      ensures Valid() && ide.trace == old(ide.trace) + [Write(old(buf[to]).blockno, old(buf[from]).data)]
      ensures old(buf[to]).blockno < |old(ide.blocks)| && |old(view)| == |old(ide.blocks)|
      ensures ide.blocks == old(ide.blocks)[old(buf[to]).blockno := old(buf[from]).data]
      ensures old(ide.disks) <= ide.disks
      ensures view == old(view)[old(buf[to]).blockno := old(buf[from]).data]
      ensures pinned == old(pinned) - {old(buf[to]).blockno}
      ensures forall j :: 0 <= j < NBUF && j != to && j != from ==> SameCore(buf[j], old(buf[j]))
      ensures forall j :: j == to || j == from ==>
                !buf[j].locked && buf[j].refcnt == old(buf[j]).refcnt - 1
    {
      WriteThrough(to, buf[from].data);
      assert Settled(buf[to], ide.blocks) && Settled(buf[from], ide.blocks);
      ReleaseBoth(from, to);
    }

    /** A brelse that gives up the only reference leaves a quiet cache. */
    method Release(i: nat)
      requires Valid() && i < NBUF && buf[i].locked && (buf[i].valid ==> Settled(buf[i], ide.blocks))
      modifies this`order, buf
      ensures Valid() && view == old(view)
      ensures old(QuietBut(buf[..], i)) ==> Quiet(buf[..])
    {
      ghost var s := buf[..];
      Brelse(i);
      forall k | 0 <= k < NBUF && k != i ensures buf[k].refcnt == s[k].refcnt && buf[k].locked == s[k].locked {
        assert SameCore(buf[k], s[k]);
      }
    }

    /** The end of write_head: the new header data, written through and released. */
    method WriteOut(i: nat, data: Block)
      requires Valid() && i < NBUF && buf[i].valid && buf[i].locked
      modifies this, buf, ide
      ensures Valid() && old(buf[i]).blockno < |old(view)| == |old(ide.blocks)|
      ensures ide.trace == old(ide.trace) + [Write(old(buf[i]).blockno, data)]
      ensures ide.blocks == old(ide.blocks)[old(buf[i]).blockno := data]
      ensures old(ide.disks) <= ide.disks
      ensures view == old(view)[old(buf[i]).blockno := data]
      ensures pinned == old(pinned) - {old(buf[i]).blockno}
      ensures old(QuietBut(buf[..], i)) ==> Quiet(buf[..])
    {
      WriteThrough(i, data);
      Release(i);
    }

    /** One round of write_log, which reads the destination first. */
    method TransferToFirst(to: nat, from: nat) returns (ok: bool)
      requires Valid() && to != from && to < |ide.blocks| && from < |ide.blocks|
      modifies this, buf, ide
      ensures Valid()
      ensures old(ide.disks) <= ide.disks
      ensures ok ==> && ide.trace == old(ide.trace) + [Write(to, old(view[from]))]
                     && ide.blocks == old(ide.blocks)[to := old(view[from])]
                     && view == old(view)[to := old(view[from])]
                     && pinned == old(pinned) - {to}
                     && (old(Quiet(buf[..])) ==> Quiet(buf[..]))
      ensures !ok ==> ide.trace == old(ide.trace) && ide.blocks == old(ide.blocks) && view == old(view)
                      && pinned == old(pinned)
      ensures old(RoomForPair(buf[..], pinned, from)) ==> ok
    {
      ghost var s := buf[..];
      var t, f := BreadPair(to, from);
      if t.Stuck? || f.Stuck? { return false; }
      ghost var u := buf[..];
      CopyThrough(t.i, f.i);
      QuietAgain(s, u, buf[..], t.i, f.i);
      return true;
    }

    /** One round of install_trans, which reads the source first. */
    method TransferFromFirst(to: nat, from: nat) returns (ok: bool)
      requires Valid() && to != from && to < |ide.blocks| && from < |ide.blocks|
      modifies this, buf, ide
      ensures Valid()
      ensures old(ide.disks) <= ide.disks
      ensures ok ==> && ide.trace == old(ide.trace) + [Write(to, old(view[from]))]
                     && ide.blocks == old(ide.blocks)[to := old(view[from])]
                     && view == old(view)[to := old(view[from])]
                     && pinned == old(pinned) - {to}
                     && (old(Quiet(buf[..])) ==> Quiet(buf[..]))
      ensures !ok ==> ide.trace == old(ide.trace) && ide.blocks == old(ide.blocks) && view == old(view)
                      && pinned == old(pinned)
      ensures old(RoomForPair(buf[..], pinned, to)) ==> ok
    {
      ghost var s := buf[..];
      var f, t := BreadPair(from, to);
      if f.Stuck? || t.Stuck? { return false; }
      ghost var u := buf[..];
      CopyThrough(t.i, f.i);
      QuietAgain(s, u, buf[..], t.i, f.i);
      return true;
    }
  }
}
