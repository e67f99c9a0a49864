/** Reads and writes through an open file, which keeps the position of the next byte. */
module OpenFile {
  import opened Blocks
  import opened Bitmap
  import opened BlockMap
  import opened Dinode
  import opened FileBytes
  import opened Files
  import RedoLog
  import opened Transactions

  /** What one transaction of filewrite writes at most, in bytes: ((MAXOPBLOCKS - 1 - 1 - 2) / 2) * 512. */
  const SLICE := 1536

  datatype Outcome = AllWritten | Refused | ToDevice | OutOfSpace

  /** Log blocks one slice may need, whatever its alignment. */
  function SliceCost(sb: Super): nat { BlocksOf(sb.size, BPB) + 6 }

  lemma SliceBlocks(sb: Super, off: nat, n: nat)
    requires n <= SLICE
    ensures BlocksOf(sb.size, BPB) + BlocksFor(off % BSIZE + n) + 2 <= SliceCost(sb)
  {
  }

  /** With a free map of one block a slice needs seven log blocks, and that many never fill the log. */
  lemma SliceFits(sb: Super)
    requires sb.size <= BPB
    ensures SLICE == (RedoLog.MAXOPBLOCKS - 1 - 1 - 2) / 2 * 512
    ensures SliceCost(sb) <= 7 < RedoLog.MAXOPBLOCKS
  {
  }

  /** File i alone has changed, by having src spliced in at off; nothing has if src is empty. */
  ghost predicate Spliced(before: seq<seq<Byte>>, after: seq<seq<Byte>>, i: nat, off: nat, src: seq<Byte>) {
    && i < |before|
    && (if src == [] then after == before
        else off <= |before[i]| && after == before[i := Splice(before[i], off, src)])
  }

  lemma SplicedNothing(f: seq<seq<Byte>>, i: nat, off: nat)
    requires i < |f|
    ensures Spliced(f, f, i, off, [])
  {
  }

  lemma SplicedMore(f: seq<seq<Byte>>, g: seq<seq<Byte>>, h: seq<seq<Byte>>, i: nat, off: nat, a: seq<Byte>,
                    b: seq<Byte>)
    requires Spliced(f, g, i, off, a) && i < |g| && off + |a| <= |g[i]| && |b| > 0
    requires h == g[i := Splice(g[i], off + |a|, b)]
    ensures Spliced(f, h, i, off, a + b)
  {
    if a == [] {
      assert a + b == b;
    } else {
      SpliceTwice(f[i], off, a, b);
      assert h == f[i := Splice(f[i], off, a + b)];
    }
  }

  lemma SplicedSize(f: seq<seq<Byte>>, g: seq<seq<Byte>>, i: nat, off: nat, src: seq<Byte>)
    requires Spliced(f, g, i, off, src)
    ensures |g| == |f|
    ensures src == [] ==> |g[i]| == |f[i]|
    ensures src != [] ==> off <= |f[i]| && |g[i]| == Max(|f[i]|, off + |src|)
  {
  }

  lemma FileSize(files: seq<seq<Byte>>, disk: seq<Block>, slots: seq<Slots>, nodes: seq<Node>, i: nat)
    requires FilesAre(files, disk, slots, nodes) && FilesOk(nodes, slots) && i < |nodes|
    ensures |files[i]| == nodes[i].size <= MAXFILE * BSIZE
  {
    assert FileIs(files, disk, slots, nodes, i) && FileOk(nodes[i], slots[i]);
  }

  // The transactions of a write.

  /** What an operation that logged the blocks l hands to the commit: their contents. */
  function Transaction(e: seq<Block>, l: set<nat>): (t: Update) {
    map b: Word | b in l && b < |e| :: e[b]
  }

  lemma TransactionIs(sb: Super, d: seq<Block>, e: seq<Block>, l: set<nat>)
    requires Touched(sb, d, e, l) && sb.size <= |d| && sb.size < 0x8000_0000
    ensures Overlay(d, Transaction(e, l)) == e && Transaction(e, l).Keys == l
  {
    forall b: nat | b < |d|
      ensures Overlay(d, Transaction(e, l))[b] == e[b]
    {
      if b in l {
        assert Behind(sb, b);
      } else {
        assert Untouched(d, e, b);
      }
    }
    forall b: nat | b in l
      ensures b in Transaction(e, l)
    {
      assert Behind(sb, b);
    }
  }

  /** The transaction keeps to its allowance and to the file system's own blocks. */
  ghost predicate Fits(sb: Super, t: Update) {
    |t.Keys| <= SliceCost(sb) && forall b: nat {:trigger Behind(sb, b)} :: b in t ==> Behind(sb, b)
  }

  /** What one slice logs is a transaction that keeps to its allowance. */
  lemma SliceTransaction(sb: Super, d: seq<Block>, e: seq<Block>, l: set<nat>, off: nat, n: nat)
    requires Touched(sb, d, e, l) && sb.size <= |d| && sb.size < 0x8000_0000 && n <= SLICE
    requires |l - {}| <= BlocksOf(sb.size, BPB) + BlocksFor(off % BSIZE + n) + 2
    ensures Fits(sb, Transaction(e, l)) && Overlay(d, Transaction(e, l)) == e
  {
    assert l - {} == l;
    SliceBlocks(sb, off, n);
    TransactionIs(sb, d, e, l);
  }

  /** A disk that holds the files with part written into file i at off. */
  ghost predicate Partly(sb: Super, d: seq<Block>, files: seq<seq<Byte>>, i: nat, off: nat, part: seq<Byte>) {
    exists g: seq<seq<Byte>> :: Holds(sb, d, g) && Spliced(files, g, i, off, part)
  }

  /** The bytes of src in its first k slices. */
  function Upto(src: seq<Byte>, k: nat): seq<Byte> { src[..Min(k * SLICE, |src|)] }

  ghost predicate SliceOk(sb: Super, d: seq<Block>, files: seq<seq<Byte>>, i: nat, off: nat, src: seq<Byte>,
                          txns: seq<Update>, k: nat)
    requires k <= |txns|
  {
    Partly(sb, Durable(d, txns[..k]), files, i, off, Upto(src, k))
  }

  /** txns are the transactions that write src slice by slice: the first k of them write its first k slices. */
  ghost predicate Sliced(sb: Super, d: seq<Block>, files: seq<seq<Byte>>, i: nat, off: nat, src: seq<Byte>,
                         txns: seq<Update>) {
    && (forall k: nat {:trigger SliceOk(sb, d, files, i, off, src, txns, k)} ::
          k <= |txns| ==> SliceOk(sb, d, files, i, off, src, txns, k))
    && (forall k: nat {:trigger Fits(sb, txns[k])} :: k < |txns| ==> Fits(sb, txns[k]))
  }

  lemma SlicedNothing(sb: Super, d: seq<Block>, files: seq<seq<Byte>>, i: nat, off: nat, src: seq<Byte>)
    requires Holds(sb, d, files) && i < |files|
    ensures Sliced(sb, d, files, i, off, src, []) && Durable(d, []) == d
  {
    SplicedNothing(files, i, off);
    assert Durable(d, []) == d;
    forall k: nat {:trigger SliceOk(sb, d, files, i, off, src, [], k)} | k <= 0
      ensures SliceOk(sb, d, files, i, off, src, [], k)
    {
      assert Upto(src, 0) == [];
      assert Spliced(files, files, i, off, []);
    }
  }

  lemma SlicedMore(sb: Super, d: seq<Block>, e: seq<Block>, files: seq<seq<Byte>>, g: seq<seq<Byte>>, i: nat, off: nat,
                   src: seq<Byte>, txns: seq<Update>, t: Update, part: seq<Byte>)
    requires Sliced(sb, d, files, i, off, src, txns) && Fits(sb, t) && Overlay(Durable(d, txns), t) == e
    requires Holds(sb, e, g) && Spliced(files, g, i, off, part) && part == Upto(src, |txns| + 1)
    ensures Sliced(sb, d, files, i, off, src, txns + [t]) && Durable(d, txns + [t]) == e
  {
    var all := txns + [t];
    assert all[..|txns|] == txns && all[..|txns| + 1] == all;
    forall k: nat {:trigger SliceOk(sb, d, files, i, off, src, all, k)} | k <= |all|
      ensures SliceOk(sb, d, files, i, off, src, all, k)
    {
      if k <= |txns| {
        assert SliceOk(sb, d, files, i, off, src, txns, k);
        assert all[..k] == txns[..k];
      }
    }
    forall k: nat {:trigger Fits(sb, all[k])} | k < |all|
      ensures Fits(sb, all[k])
    {
      assert k < |txns| ==> Fits(sb, txns[k]);
    }
  }

  // The loop of filewrite.

  /** done bytes of src are written at off in file i, by the transactions txns. */
  ghost predicate Halfway(sb: Super, d0: seq<Block>, d: seq<Block>, f0: seq<seq<Byte>>, f: seq<seq<Byte>>, i: nat,
                          off: nat, src: seq<Byte>, done: nat, txns: seq<Update>) {
    && done == Min(|txns| * SLICE, |src|) && Spliced(f0, f, i, off, src[..done])
    && d == Durable(d0, txns) && Sliced(sb, d0, f0, i, off, src, txns)
    && (done > 0 ==> !BadSpan(off, done, |f0[i]|))
  }

  lemma HalfwayStart(sb: Super, d: seq<Block>, f: seq<seq<Byte>>, i: nat, off: nat, src: seq<Byte>)
    requires Holds(sb, d, f) && i < |f|
    ensures Halfway(sb, d, d, f, f, i, off, src, 0, [])
  {
    SplicedNothing(f, i, off);
    SlicedNothing(sb, d, f, i, off, src);
  }

  /** The file has grown by what is written past its old end. */
  lemma HalfwaySize(sb: Super, d0: seq<Block>, d: seq<Block>, f0: seq<seq<Byte>>, f: seq<seq<Byte>>, i: nat, off: nat,
                    src: seq<Byte>, done: nat, txns: seq<Update>)
    requires Halfway(sb, d0, d, f0, f, i, off, src, done, txns)
    ensures i < |f| == |f0| && |f[i]| == if done == 0 then |f0[i]| else Max(|f0[i]|, off + done)
    ensures done > 0 ==> off <= |f0[i]|
  {
    SplicedSize(f0, f, i, off, src[..done]);
  }

  lemma HalfwayMore(sb: Super, d0: seq<Block>, d: seq<Block>, e: seq<Block>, f0: seq<seq<Byte>>, f: seq<seq<Byte>>,
                    g: seq<seq<Byte>>, i: nat, off: nat, src: seq<Byte>, done: nat, n: nat, txns: seq<Update>,
                    t: Update, at: nat, chunk: seq<Byte>)
    requires Halfway(sb, d0, d, f0, f, i, off, src, done, txns) && done < |src| && n == Min(|src| - done, SLICE)
    requires at == off + done && chunk == src[done..done + n]
    requires i < |f| && !BadSpan(at, |chunk|, |f[i]|) && g == f[i := Splice(f[i], at, chunk)]
    requires Fits(sb, t) && Overlay(d, t) == e && Holds(sb, e, g)
    ensures Halfway(sb, d0, e, f0, g, i, off, src, done + n, txns + [t])
  {
    HalfwaySize(sb, d0, d, f0, f, i, off, src, done, txns);
    Prefix(src, done, n);
    SplicedMore(f0, f, g, i, off, src[..done], src[done..done + n]);
    SlicedMore(sb, d0, e, f0, g, i, off, src, txns, t, src[..done + n]);
  }

  /** The first slice that does not fit: the whole write does not either, and what is written fits exactly so far. */
  lemma HalfwayRefused(sb: Super, d0: seq<Block>, d: seq<Block>, f0: seq<seq<Byte>>, f: seq<seq<Byte>>, i: nat,
                       off: nat, src: seq<Byte>, done: nat, txns: seq<Update>)
    requires Halfway(sb, d0, d, f0, f, i, off, src, done, txns) && done < |src| && |f0[i]| <= MAXFILE * BSIZE
    requires i < |f| && BadSpan(off + done, Min(|src| - done, SLICE), |f[i]|)
    ensures BadSpan(off, |src|, |f0[i]|) && done % SLICE == 0
    ensures if off > |f0[i]| then done == 0
            else off + done <= MAXFILE * BSIZE < off + Min(|src|, done + SLICE)
  {
    HalfwaySize(sb, d0, d, f0, f, i, off, src, done, txns);
    assert done == |txns| * SLICE;
  }

  class File {
    const ip: Inode
    var off: Word

    constructor (ip: Inode)
      ensures this.ip == ip && off == 0
    {
      this.ip, off := ip, 0;
    }

    /** The file is open on an inode in use. */
    ghost predicate Open(fs: FileSystem)
      reads ip, fs
    {
      fs.Valid() && ip.inum < |fs.nodes| && fs.nodes[ip.inum].typ != 0 && (ip.valid ==> fs.Loaded(ip))
    }

    /** Reads on from the position and moves it past what was read. */
    method FileRead(fs: FileSystem, n: Word) returns (r: ReadResult)
      requires Open(fs)
      modifies this, ip, fs
      ensures fs.Valid() && fs.Loaded(ip) && fs.files == old(fs.files)
      ensures r.DeviceRead? <==> old(fs.nodes[ip.inum]).typ == T_DEV
      ensures !r.DeviceRead? ==>
                (r.BadRead? <==> old(off > |fs.files[ip.inum]|) || old(off) + n >= 0x1_0000_0000)
      ensures r.BadRead? || r.DeviceRead? ==> off == old(off)
      ensures r.Read? ==> |fs.files[ip.inum]| == ip.size && old(off) <= off <= ip.size
                          && r.data == fs.files[ip.inum][old(off)..off]
      ensures r.Read? ==> off == Min(old(off) + n, ip.size)
    {
      FileSize(fs.files, fs.disk, fs.slots, fs.nodes, ip.inum);
      var ok := fs.Ilock(ip);
      r := fs.Readi(ip, off, n);
      if r.Read? {
        off := off + |r.data|;
      }
    }

    /** One transaction of filewrite: t is what it puts in the log. */
    method WriteSlice(fs: FileSystem, chunk: seq<Byte>) returns (w: WriteResult, ghost t: Update)
      requires Open(fs) && 0 < |chunk| <= SLICE
      modifies this, ip, fs
      ensures w.DeviceWrite? <==> old(fs.nodes[ip.inum]).typ == T_DEV
      ensures w.NoSpace? ==> Full(fs.owner)
      ensures !w.NoSpace? ==> Open(fs) && fs.nodes[ip.inum].typ == old(fs.nodes[ip.inum].typ)
      ensures !w.NoSpace? && !w.DeviceWrite? ==> (w.BadWrite? <==> BadSpan(old(off), |chunk|, old(|fs.files[ip.inum]|)))
      ensures w.BadWrite? || w.DeviceWrite? ==> fs.files == old(fs.files) && fs.disk == old(fs.disk) && off == old(off)
      ensures w.Wrote? ==> off == old(off) + |chunk|
                           && fs.files == old(fs.files)[ip.inum := Splice(old(fs.files)[ip.inum], old(off), chunk)]
      ensures w.Wrote? ==> Fits(fs.sb, t) && Overlay(old(fs.disk), t) == fs.disk
    {
      t := map[];
      fs.BeginOp();
      var ok := fs.Ilock(ip);
      FileSize(fs.files, fs.disk, fs.slots, fs.nodes, ip.inum);
      w := fs.Writei(ip, chunk, off);
      if w.Wrote? {
        FileSize(fs.files, fs.disk, fs.slots, fs.nodes, ip.inum);
        SliceTransaction(fs.sb, fs.began, fs.disk, fs.logged, off, |chunk|);
        off := off + |chunk|;
        t := Transaction(fs.disk, fs.logged);
      }
    }

    /**
     * Writes src at the position in slices, each a transaction of its own. The write fails exactly if it starts
     * beyond the end or would make the file too long; the slices before the first that does not fit stay written,
     * though the caller is told that the write failed.
     */
    method FileWrite(fs: FileSystem, src: seq<Byte>) returns (r: Outcome, ghost done: nat, ghost txns: seq<Update>)
      requires Open(fs)
      modifies this, ip, fs
      ensures r.ToDevice? <==> old(fs.nodes[ip.inum]).typ == T_DEV && |src| > 0
      ensures r.OutOfSpace? ==> Full(fs.owner)
      ensures r.AllWritten? || r.Refused? ==>
                (r.Refused? <==> |src| > 0 && BadSpan(old(off), |src|, old(|fs.files[ip.inum]|)))
      ensures r.AllWritten? ==> done == |src|
      ensures r.Refused? ==> done % SLICE == 0
                             && if old(off > |fs.files[ip.inum]|) then done == 0
                                else old(off) + done <= MAXFILE * BSIZE < old(off) + Min(|src|, done + SLICE)
      ensures r.AllWritten? || r.Refused? ==> Open(fs) && off == old(off) + done
      ensures r.AllWritten? || r.Refused? ==>
                Halfway(fs.sb, old(fs.disk), fs.disk, old(fs.files), fs.files, ip.inum, old(off), src, done, txns)
      ensures Sliced(fs.sb, old(fs.disk), old(fs.files), ip.inum, old(off), src, txns)
    {
      ghost var f0, d0, off0 := fs.files, fs.disk, off;
      var i := 0;
      done, txns := 0, [];
      FileSize(f0, d0, fs.slots, fs.nodes, ip.inum);
      fs.ValidHolds();
      HalfwayStart(fs.sb, d0, f0, ip.inum, off0, src);
      while i < |src|
        invariant i == done <= |src| && off == off0 + i
        invariant Open(fs) && fs.nodes[ip.inum].typ == old(fs.nodes[ip.inum].typ)
        invariant i > 0 ==> fs.nodes[ip.inum].typ != T_DEV
        invariant Halfway(fs.sb, d0, fs.disk, f0, fs.files, ip.inum, off0, src, done, txns)
      {
        var n1 := Min(|src| - i, SLICE);
        ghost var f, d, at := fs.files, fs.disk, off;
        var w;
        ghost var t;
        var chunk := src[i..i + n1];
        w, t := WriteSlice(fs, chunk);
        if w.BadWrite? {
          HalfwayRefused(fs.sb, d0, d, f0, f, ip.inum, off0, src, done, txns);
          r := Refused;
          return;
        }
        if !w.Wrote? {
          r := if w.NoSpace? then OutOfSpace else ToDevice;
          return;
        }
        fs.ValidHolds();
        HalfwayMore(fs.sb, d0, d, fs.disk, f0, f, fs.files, ip.inum, off0, src, done, n1, txns, t, at,
                    chunk);
        i, done, txns := i + n1, done + n1, txns + [t];
      }
      r := AllWritten;
    }
  }

  /**
   * At the end of a file of 70000 bytes a write of 3072 bytes fails, for a file ends at 71680; but its first slice of
   * 1536 bytes stays written, unless the disk is full.
   */
  method WriteTooFar(f: File, fs: FileSystem, src: seq<Byte>) returns (r: Outcome)
    requires f.Open(fs) && fs.nodes[f.ip.inum].typ != T_DEV
    requires f.off == 70000 == |fs.files[f.ip.inum]| && |src| == 3072
    modifies f, f.ip, fs
    ensures r == Refused || (r == OutOfSpace && Full(fs.owner))
    ensures r == Refused ==>
              && fs.files == old(fs.files)[f.ip.inum := old(fs.files)[f.ip.inum] + src[..1536]]
              && f.off == 71536
  {
    ghost var done, txns;
    ghost var i, f0 := f.ip.inum, fs.files;
    r, done, txns := f.FileWrite(fs, src);
    if r == Refused {
      assert done == 1536;
      assert Splice(f0[i], 70000, src[..1536]) == f0[i] + src[..1536];
    }
  }
}
