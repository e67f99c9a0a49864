/** Files over blocks: allocation, the block map of an inode, reading, writing and truncation. */
module Files {
  import opened Blocks
  import opened Bitmap
  import opened BlockMap
  import opened Dinode
  import opened FileBytes

  const T_DEV := 3

  datatype ReadResult = Read(data: seq<Byte>) | BadRead | DeviceRead

  datatype WriteResult = Wrote(n: nat) | BadWrite | DeviceWrite | NoSpace

  function AddrsOf(s: Slots): Addrs { s[..NDIRECT] + [s[INDIRECT]] }

  ghost predicate NodeOk(sb: Super, disk: seq<Block>, nodes: seq<Node>, i: nat)
    requires i < |nodes| == sb.ninodes && Geometry(sb, disk)
  {
    GetNode(disk[InodeBlock(sb, i)], i % IPB) == nodes[i]
  }

  /** The inodes on disk are these. */
  ghost predicate NodesOk(sb: Super, disk: seq<Block>, nodes: seq<Node>) {
    && Geometry(sb, disk) && |nodes| == sb.ninodes
    && forall i: nat {:trigger NodeOk(sb, disk, nodes, i)} :: i < |nodes| ==> NodeOk(sb, disk, nodes, i)
  }

  /** An inode names the file's blocks, and has exactly as many as its size needs. */
  ghost predicate FileOk(node: Node, s: Slots) {
    && node.addrs == AddrsOf(s)
    && node.size <= MAXFILE * BSIZE
    && Compact(s, BlocksFor(node.size))
  }

  ghost function BytesOf(disk: seq<Block>, s: Slots, node: Node): seq<Byte> {
    if node.size <= MAXFILE * BSIZE then Contents(disk, s, node.size) else []
  }

  ghost predicate FileIs(files: seq<seq<Byte>>, disk: seq<Block>, slots: seq<Slots>, nodes: seq<Node>, i: nat)
    requires i < |files| == |nodes| == |slots|
  {
    files[i] == BytesOf(disk, slots[i], nodes[i])
  }

  /** The bytes of every file, by inode number. */
  ghost predicate FilesAre(files: seq<seq<Byte>>, disk: seq<Block>, slots: seq<Slots>, nodes: seq<Node>) {
    && |files| == |nodes| == |slots|
    && forall i: nat {:trigger FileIs(files, disk, slots, nodes, i)} ::
         i < |files| ==> FileIs(files, disk, slots, nodes, i)
  }

  ghost predicate FilesOk(nodes: seq<Node>, slots: seq<Slots>) {
    && |nodes| == |slots|
    && forall i: nat {:trigger FileOk(nodes[i], slots[i])} :: i < |nodes| ==> FileOk(nodes[i], slots[i])
  }

  /** Bytes of a file that lie in one block, read from that block. */
  lemma PartOfFile(files: seq<seq<Byte>>, disk: seq<Block>, slots: seq<Slots>, nodes: seq<Node>, i: nat, bn: nat,
                   o: nat, m: nat)
    requires FilesAre(files, disk, slots, nodes) && FilesOk(nodes, slots) && i < |nodes|
    requires 0 < m && o + m <= BSIZE && BSIZE * bn + o + m <= nodes[i].size
    ensures bn < MAXFILE && slots[i][bn] != 0 && BSIZE * bn + o + m <= |files[i]|
    ensures slots[i][bn] < |disk| ==>
              disk[slots[i][bn]][o..o + m] == files[i][BSIZE * bn + o..BSIZE * bn + o + m]
  {
    assert FileOk(nodes[i], slots[i]) && FileIs(files, disk, slots, nodes, i);
    BlockBeforeEnd(bn, nodes[i].size);
    WithinBlock(disk, slots[i], nodes[i].size, bn, o, m);
    assert slots[i][bn] != 0;
  }

  ghost predicate KeptBelow(sb: Super, d: seq<Block>, e: seq<Block>) {
    |e| == |d| && forall c: nat {:trigger e[c]} :: c < |d| && c < sb.bmapstart ==> e[c] == d[c]
  }

  lemma NodesBelow(sb: Super, d: seq<Block>, e: seq<Block>, nodes: seq<Node>)
    requires NodesOk(sb, d, nodes) && KeptBelow(sb, d, e)
    ensures NodesOk(sb, e, nodes)
  {
    forall i: nat {:trigger NodeOk(sb, e, nodes, i)} | i < |nodes|
      ensures NodeOk(sb, e, nodes, i)
    {
      assert NodeOk(sb, d, nodes, i);
      InodeBlockIn(sb, d, i);
      assert e[InodeBlock(sb, i)] == d[InodeBlock(sb, i)];
    }
  }

  lemma SameNode(i: nat, j: nat)
    requires i / IPB == j / IPB && i % IPB == j % IPB
    ensures i == j
  {
  }

  /** The inode at place m of block b once place k of block at holds another one. */
  lemma NodeAt(d: seq<Block>, nodes: seq<Node>, i: nat, j: nat, at: nat, k: nat, b: nat, m: nat, node: Node,
               data: Block)
    requires i < |nodes| && j < |nodes| && at < |d| && b < |d| && m < IPB && GetNode(d[b], m) == nodes[j]
    requires GetNode(data, m) == if m == k then node else GetNode(d[at], m)
    requires b == at && m == k <==> i == j
    ensures GetNode(d[at := data][b], m) == nodes[i := node][j]
  {
  }

  lemma OtherNode(sb: Super, d: seq<Block>, nodes: seq<Node>, i: nat, j: nat, at: nat, k: nat, node: Node, data: Block)
    requires NodesOk(sb, d, nodes) && i < |nodes| && j < |nodes| && at == InodeBlock(sb, i) && k == i % IPB
    requires at < |d| && forall m: nat {:trigger GetNode(data, m)} ::
               m < IPB ==> GetNode(data, m) == if m == k then node else GetNode(d[at], m)
    ensures NodeOk(sb, d[at := data], nodes[i := node], j)
  {
    assert NodeOk(sb, d, nodes, j);
    if InodeBlock(sb, j) == at && j % IPB == k {
      SameNode(i, j);
    }
    InodeBlockIn(sb, d, j);
    NodeAt(d, nodes, i, j, at, k, InodeBlock(sb, j), j % IPB, node, data);
  }

  /** Writing one inode back. */
  lemma NodeWritten(sb: Super, d: seq<Block>, nodes: seq<Node>, i: nat, at: nat, k: nat, node: Node, data: Block)
    requires NodesOk(sb, d, nodes) && i < |nodes| && at == InodeBlock(sb, i) && k == i % IPB
    requires at < |d| && forall m: nat {:trigger GetNode(data, m)} ::
               m < IPB ==> GetNode(data, m) == if m == k then node else GetNode(d[at], m)
    ensures NodesOk(sb, d[at := data], nodes[i := node])
  {
    var e, nodes1 := d[at := data], nodes[i := node];
    forall j: nat {:trigger NodeOk(sb, e, nodes1, j)} | j < |nodes1|
      ensures NodeOk(sb, e, nodes1, j)
    {
      OtherNode(sb, d, nodes, i, j, at, k, node, data);
    }
  }

  lemma PutNodeAll(b: Block, k: nat, node: Node)
    requires k < IPB
    ensures forall m: nat {:trigger GetNode(PutNode(b, k, node), m)} :: m < IPB ==>
              GetNode(PutNode(b, k, node), m) == if m == k then node else GetNode(b, m)
  {
    forall m: nat | m < IPB
      ensures GetNode(PutNode(b, k, node), m) == if m == k then node else GetNode(b, m)
    {
      PutNodeAt(b, k, node, m);
    }
  }

  ghost predicate Maps(sb: Super, disk: seq<Block>, slots: seq<Slots>, owner: seq<Owner>) {
    && Linked(sb, slots, owner)
    && BitsOk(sb, disk, owner)
    && ListsOk(disk, slots)
  }

  ghost predicate AllSameData(slots: seq<Slots>, d: seq<Block>, e: seq<Block>) {
    forall j: nat {:trigger SameData(slots[j], d, e)} :: j < |slots| ==> SameData(slots[j], d, e)
  }

  lemma MapsBelow(sb: Super, d: seq<Block>, slots: seq<Slots>, owner: seq<Owner>, b: nat, data: Block)
    requires Maps(sb, d, slots, owner) && b < sb.bmapstart
    ensures Maps(sb, d[b := data], slots, owner) && AllSameData(slots, d, d[b := data])
  {
    var e := d[b := data];
    BitsElsewhere(sb, d, owner, b, data);
    forall j: nat {:trigger slots[j]} | j < |slots|
      ensures ListOk(e, slots[j]) && SameData(slots[j], d, e)
    {
      assert ListOk(d, slots[j]);
      forall n: nat | n <= MAXFILE && slots[j][n] != 0
        ensures slots[j][n] < |d| && slots[j][n] != b
      {
        SlotOwned(sb, slots, owner, j, n);
      }
    }
  }

  /** The other files have the same blocks, and these the same data. */
  ghost predicate OthersKept(slots: seq<Slots>, slots1: seq<Slots>, d: seq<Block>, e: seq<Block>, i: nat) {
    && |slots1| == |slots|
    && forall j: nat {:trigger slots1[j]} {:trigger slots[j]} ::
         j < |slots| && j != i ==> slots1[j] == slots[j] && SameData(slots[j], d, e)
  }

  /** No slot that had a block lost or changed it. */
  ghost predicate Grows(s: Slots, t: Slots) {
    forall n: nat {:trigger s[n]} {:trigger t[n]} :: n <= MAXFILE && s[n] != 0 ==> t[n] == s[n]
  }

  /** The indirect block, if there is one. */
  function Inds(s: Slots): set<nat> { if s[INDIRECT] == 0 then {} else {s[INDIRECT]} }

  /** What bmap may do to the block map: fill slot bn of inode i, and its indirect slot if bn needs it. */
  ghost predicate Extended(slots: seq<Slots>, slots1: seq<Slots>, i: nat, bn: nat)
    requires bn < MAXFILE
  {
    && i < |slots| && |slots1| == |slots|
    && slots1[i][bn] != 0
    && slots1 == SetSlot(SetSlot(slots, i, INDIRECT, slots1[i][INDIRECT]), i, bn, slots1[i][bn])
    && (slots[i][bn] != 0 ==> slots1 == slots)
    && (slots[i][INDIRECT] != 0 || bn < NDIRECT ==> slots1[i][INDIRECT] == slots[i][INDIRECT])
    && (bn >= NDIRECT ==> slots1[i][INDIRECT] != 0)
  }

  lemma ExtendedCompact(slots: seq<Slots>, slots1: seq<Slots>, i: nat, bn: nat, count: nat)
    requires bn < MAXFILE && bn <= count && Extended(slots, slots1, i, bn) && Compact(slots[i], count)
    ensures Compact(slots1[i], Max(count, bn + 1)) && Grows(slots[i], slots1[i])
    ensures bn < count ==> slots1 == slots
  {
    forall n: nat | n < MAXFILE
      ensures slots1[i][n] != 0 <==> n < Max(count, bn + 1)
    {
      assert slots[i][n] != 0 <==> n < count;
    }
  }

  lemma OthersTrans(slots: seq<Slots>, slots1: seq<Slots>, slots2: seq<Slots>, d: seq<Block>, e: seq<Block>,
                    f: seq<Block>, i: nat)
    requires OthersKept(slots, slots1, d, e, i) && OthersKept(slots1, slots2, e, f, i)
    ensures OthersKept(slots, slots2, d, f, i)
  {
    forall j: nat {:trigger slots[j]} | j < |slots| && j != i
      ensures slots2[j] == slots[j] && SameData(slots[j], d, f)
    {
      assert slots1[j] == slots[j] && SameData(slots[j], d, e) && SameData(slots[j], e, f);
    }
  }

  /** Writing a block that slot m of file i owns changes that slot's data and no other. */
  lemma OwnedWrite(sb: Super, d: seq<Block>, slots: seq<Slots>, owner: seq<Owner>, i: nat, m: nat, data: Block)
    requires Linked(sb, slots, owner) && BitsOk(sb, d, owner) && i < |slots| && m <= MAXFILE && slots[i][m] != 0
    ensures slots[i][m] < |d| && BitsOk(sb, d[slots[i][m] := data], owner) && KeptBelow(sb, d, d[slots[i][m] := data])
    ensures forall j: nat, n: nat {:trigger slots[j][n]} ::
              j < |slots| && n <= MAXFILE && slots[j][n] != 0 && (j != i || n != m) ==>
                slots[j][n] < |d| && d[slots[i][m] := data][slots[j][n]] == d[slots[j][n]]
  {
    SlotOwned(sb, slots, owner, i, m);
    BitsElsewhere(sb, d, owner, slots[i][m], data);
    forall j: nat, n: nat | j < |slots| && n <= MAXFILE && slots[j][n] != 0 && (j != i || n != m)
      ensures slots[j][n] < |d| && slots[j][n] != slots[i][m]
    {
      SlotOwned(sb, slots, owner, j, n);
    }
  }

  /** Writing the block of data slot bn of file i. */
  lemma DataWritten(sb: Super, d: seq<Block>, slots: seq<Slots>, owner: seq<Owner>, i: nat, bn: nat, data: Block)
    requires Maps(sb, d, slots, owner) && i < |slots| && bn < MAXFILE && slots[i][bn] != 0
    ensures slots[i][bn] < |d|
    ensures var e := d[slots[i][bn] := data];
            && Maps(sb, e, slots, owner) && KeptBelow(sb, d, e) && OthersKept(slots, slots, d, e, i)
            && DataBlock(e, slots[i], bn) == data
            && forall n: nat {:trigger slots[i][n]} ::
                 n < MAXFILE && n != bn && slots[i][n] != 0 ==> DataBlock(e, slots[i], n) == DataBlock(d, slots[i], n)
  {
    OwnedWrite(sb, d, slots, owner, i, bn, data);
    var e := d[slots[i][bn] := data];
    forall j: nat {:trigger ListOk(e, slots[j])} | j < |slots|
      ensures ListOk(e, slots[j])
    {
      assert ListOk(d, slots[j]);
      if slots[j][INDIRECT] != 0 {
        assert e[slots[j][INDIRECT]] == d[slots[j][INDIRECT]];
      }
    }
  }

  lemma ChunkWritten(sb: Super, d: seq<Block>, slots: seq<Slots>, owner: seq<Owner>, i: nat, at: nat, chunk: seq<Byte>,
                     len: nat, bp: Block)
    requires Maps(sb, d, slots, owner) && i < |slots|
    requires at <= len && Max(len, at + |chunk|) <= MAXFILE * BSIZE && 0 < |chunk| <= BSIZE - at % BSIZE
    requires at / BSIZE < MAXFILE && Compact(slots[i], BlocksFor(Max(len, at + |chunk|))) && slots[i][at / BSIZE] != 0
    requires var b, o := DataBlock(d, slots[i], at / BSIZE), at % BSIZE; bp == b[..o] + chunk + b[o + |chunk|..]
    ensures slots[i][at / BSIZE] < |d|
    ensures var e := d[slots[i][at / BSIZE] := bp];
            && Maps(sb, e, slots, owner) && KeptBelow(sb, d, e) && OthersKept(slots, slots, d, e, i)
            && Contents(e, slots[i], Max(len, at + |chunk|)) == Splice(Contents(d, slots[i], len), at, chunk)
  {
    var s, bn := slots[i], at / BSIZE;
    DataWritten(sb, d, slots, owner, i, bn, bp);
    var e := d[s[bn] := bp];
    OneBlock(len, at, |chunk|);
    forall n: nat {:trigger DataBlock(e, s, n)} | n < BlocksFor(len) && n < MAXFILE && n != bn
      ensures DataBlock(e, s, n) == DataBlock(d, s, n)
    {
      assert slots[i][n] != 0;
    }
    SpliceBlock(d, e, s, len, at, chunk);
  }

  /** How far a write of src at off has come: done bytes of it are in the file, the rest is as it was. */
  ghost predicate Written(sb: Super, slots0: seq<Slots>, slots: seq<Slots>, d: seq<Block>, e: seq<Block>, i: nat,
                          size: nat, off: nat, done: seq<Byte>)
    requires i < |slots0| && off <= size && Max(size, off + |done|) <= MAXFILE * BSIZE
  {
    && i < |slots|
    && Compact(slots[i], BlocksFor(Max(size, off + |done|)))
    && Contents(e, slots[i], Max(size, off + |done|)) == Splice(Contents(d, slots0[i], size), off, done)
    && KeptBelow(sb, d, e) && OthersKept(slots0, slots, d, e, i)
    && Grows(slots0[i], slots[i])
    && (off + |done| <= size ==> slots == slots0)
  }

  lemma SameSelf(sb: Super, d: seq<Block>, slots: seq<Slots>, owner: seq<Owner>)
    requires Maps(sb, d, slots, owner)
    ensures AllSameData(slots, d, d)
  {
    forall j: nat | j < |slots|
      ensures SameData(slots[j], d, d)
    {
      forall n: nat | n < MAXFILE && slots[j][n] != 0
        ensures slots[j][n] < |d|
      {
        SlotOwned(sb, slots, owner, j, n);
      }
    }
  }

  lemma WrittenNothing(sb: Super, slots: seq<Slots>, d: seq<Block>, owner: seq<Owner>, i: nat, size: nat, off: nat)
    requires Maps(sb, d, slots, owner)
    requires i < |slots| && off <= size <= MAXFILE * BSIZE && Compact(slots[i], BlocksFor(size))
    ensures Written(sb, slots, slots, d, d, i, size, off, [])
  {
    SpliceNothing(Contents(d, slots[i], size), off);
    SameSelf(sb, d, slots, owner);
    forall j: nat {:trigger slots[j]} | j < |slots|
      ensures SameData(slots[j], d, d)
    {
    }
  }

  function Range(first: nat, n: nat): (r: set<nat>)
    ensures |r| == n && forall m: nat {:trigger m in r} :: m in r <==> first <= m < first + n
  {
    if n == 0 then {} else Range(first, n - 1) + {first + n - 1}
  }

  function BlocksOf(n: nat, unit: nat): nat
    requires unit > 0
  {
    (n + unit - 1) / unit
  }

  /** The blocks of the free map that hold bits. */
  function MapBlocks(sb: Super): set<nat> { Range(sb.bmapstart, BlocksOf(sb.size, BPB)) }

  /** Block bn is there after the step, and the step logged no more than it, the indirect block and map blocks. */
  ghost predicate ChunkLog(sb: Super, s: Slots, t: Slots, l: set<nat>, l1: set<nat>, bn: nat) {
    Grows(s, t) && bn < MAXFILE && t[bn] != 0 && l1 <= l + MapBlocks(sb) + Inds(t) + {t[bn]}
  }

  /** What one chunk of a write does: the bytes are spliced in, and nothing else changes. */
  ghost predicate ChunkStep(sb: Super, slots: seq<Slots>, slots1: seq<Slots>, d: seq<Block>, e: seq<Block>,
                            l: set<nat>, l1: set<nat>, i: nat, at: nat, chunk: seq<Byte>, len: nat, bn: nat)
    requires i < |slots| && at <= len && Max(len, at + |chunk|) <= MAXFILE * BSIZE && |chunk| > 0
  {
    && i < |slots1|
    && Compact(slots1[i], BlocksFor(Max(len, at + |chunk|)))
    && Contents(e, slots1[i], Max(len, at + |chunk|)) == Splice(Contents(d, slots[i], len), at, chunk)
    && KeptBelow(sb, d, e) && OthersKept(slots, slots1, d, e, i)
    && (bn < BlocksFor(len) ==> slots1 == slots)
    && ChunkLog(sb, slots[i], slots1[i], l, l1, bn)
  }

  /** Block b belongs to the file system proper, not to the log before it. */
  predicate Behind(sb: Super, b: nat) { sb.inodestart <= b < sb.size }

  lemma SlotBehind(sb: Super, d: seq<Block>, slots: seq<Slots>, owner: seq<Owner>, i: nat, n: nat)
    requires Linked(sb, slots, owner) && Geometry(sb, d) && i < |slots| && n <= MAXFILE && slots[i][n] != 0
    ensures Behind(sb, slots[i][n])
  {
    SlotOwned(sb, slots, owner, i, n);
  }

  /** bmap has found or made the block for a chunk; putting the chunk into it completes the step. */
  lemma ChunkDone(sb: Super, d: seq<Block>, d1: seq<Block>, slots: seq<Slots>, slots1: seq<Slots>, owner: seq<Owner>,
                  l: set<nat>, l1: set<nat>, i: nat, at: nat, chunk: seq<Byte>, len: nat, bn: nat, o: nat, bp: Block)
    requires Maps(sb, d1, slots1, owner) && bn < MAXFILE && Extended(slots, slots1, i, bn)
    requires AllSameData(slots, d, d1) && KeptBelow(sb, d, d1) && slots1[i][bn] < |d1|
    requires l1 <= l + MapBlocks(sb) + Inds(slots1[i]) + {slots1[i][bn]}
    requires at <= len && Max(len, at + |chunk|) <= MAXFILE * BSIZE && 0 < |chunk| <= BSIZE - o
    requires Compact(slots[i], BlocksFor(len)) && bn == at / BSIZE && o == at % BSIZE
    requires var b := d1[slots1[i][bn]]; bp == b[..o] + chunk + b[o + |chunk|..]
    ensures Behind(sb, slots1[i][bn])
    ensures var e := d1[slots1[i][bn] := bp];
            && Maps(sb, e, slots1, owner)
            && ChunkStep(sb, slots, slots1, d, e, l, l1 + {slots1[i][bn]}, i, at, chunk, len, bn)
  {
    OneBlock(len, at, |chunk|);
    ExtendedCompact(slots, slots1, i, bn, BlocksFor(len));
    assert SameData(slots[i], d, d1);
    SameContents(d, d1, slots[i], slots1[i], len);
    ChunkWritten(sb, d1, slots1, owner, i, at, chunk, len, bp);
    SlotBehind(sb, d1, slots1, owner, i, bn);
    OthersTrans(slots, slots1, slots1, d, d1, d1[slots1[i][bn] := bp], i);
  }

  lemma WrittenMore(sb: Super, slots0: seq<Slots>, slots1: seq<Slots>, slots2: seq<Slots>, d: seq<Block>, e: seq<Block>,
                    f: seq<Block>, l1: set<nat>, l2: set<nat>, i: nat, size: nat, off: nat, done: seq<Byte>,
                    chunk: seq<Byte>, bn: nat, at: nat, len: nat)
    requires i < |slots0| && off <= size && Max(size, off + |done| + |chunk|) <= MAXFILE * BSIZE && |chunk| > 0
    requires Written(sb, slots0, slots1, d, e, i, size, off, done) && |slots2| == |slots1|
    requires at == off + |done| && len == Max(size, at)
    requires ChunkStep(sb, slots1, slots2, e, f, l1, l2, i, at, chunk, len, bn)
    requires BSIZE * bn <= at
    ensures Written(sb, slots0, slots2, d, f, i, size, off, done + chunk)
  {
    SpliceTwice(Contents(d, slots0[i], size), off, done, chunk);
    OthersTrans(slots0, slots1, slots2, d, e, f, i);
    if off + |done| + |chunk| <= size {
      BlockBeforeEnd(bn, size);
    }
    forall n: nat | n <= MAXFILE && slots0[i][n] != 0
      ensures slots2[i][n] == slots0[i][n]
    {
      assert slots1[i][n] == slots0[i][n];
    }
  }

  /** The blocks behind k slots from lo on. */
  function DataSet(s: Slots, lo: nat, k: nat): (r: set<nat>)
    ensures |r| <= k
  {
    if k == 0 then {} else DataSet(s, lo, k - 1) + (if lo + k - 1 < MAXFILE then {s[lo + k - 1]} else {})
  }

  /** The blocks a write may put in the log: map blocks, the indirect block and k blocks of data. */
  function WriteSet(sb: Super, s: Slots, lo: nat, k: nat): set<nat> { MapBlocks(sb) + Inds(s) + DataSet(s, lo, k) }

  lemma {:induction false} DataSetGrows(s: Slots, t: Slots, lo: nat, k: nat)
    requires Grows(s, t) && forall n: nat {:trigger s[n]} :: lo <= n < lo + k && n < MAXFILE ==> s[n] != 0
    ensures DataSet(t, lo, k) == DataSet(s, lo, k)
  {
    if k > 0 {
      DataSetGrows(s, t, lo, k - 1);
      if lo + k - 1 < MAXFILE {
        assert s[lo + k - 1] != 0;
      }
    }
  }

  lemma WriteSetMore(sb: Super, s: Slots, t: Slots, lo: nat, k: nat)
    requires Grows(s, t) && lo + k < MAXFILE && t[lo + k] != 0
    requires forall n: nat {:trigger s[n]} :: lo <= n < lo + k && n < MAXFILE ==> s[n] != 0
    ensures WriteSet(sb, s, lo, k) + MapBlocks(sb) + Inds(t) + {t[lo + k]} <= WriteSet(sb, t, lo, k + 1)
  {
    DataSetGrows(s, t, lo, k);
  }

  /** k blocks from block lo on hold the done bytes at off; the next of the n bytes goes into block lo + k. */
  predicate Counted(lo: nat, off: nat, done: nat, n: nat, k: nat) {
    && (done < n ==> BSIZE * (lo + k) <= off + done < BSIZE * (lo + k + 1))
    && (k > 0 ==> BSIZE * (lo + k - 1) < off + done)
  }

  /** A chunk ends with its block or with the data. */
  predicate IsChunk(at: nat, m: nat, left: nat, bn: nat) {
    && BSIZE * bn <= at && 0 < m <= left && at + m <= BSIZE * (bn + 1)
    && (m == left || at + m == BSIZE * (bn + 1))
  }

  /** How much of left bytes at position at goes into its block. */
  method ChunkSize(at: nat, left: nat) returns (m: nat)
    requires 0 < left
    ensures IsChunk(at, m, left, at / BSIZE) && m <= BSIZE - at % BSIZE
  {
    m := Min(left, BSIZE - at % BSIZE);
  }

  lemma CountedStart(off: nat, n: nat)
    ensures Counted(off / BSIZE, off, 0, n, 0)
  {
  }

  lemma CountedMore(lo: nat, off: nat, done: nat, m: nat, n: nat, k: nat, bn: nat)
    requires done < n && Counted(lo, off, done, n, k) && IsChunk(off + done, m, n - done, bn)
    ensures bn == lo + k && Counted(lo, off, done + m, n, k + 1)
  {
  }

  lemma CountedEnd(off: nat, n: nat, k: nat)
    requires Counted(off / BSIZE, off, n, n, k)
    ensures k <= BlocksFor(off % BSIZE + n)
  {
  }

  lemma Slices(s: seq<Byte>, a: nat, b: nat, c: nat)
    requires a <= b <= c <= |s|
    ensures s[a..b] + s[b..c] == s[a..c]
  {
  }

  lemma Prefix(s: seq<Byte>, n: nat, m: nat)
    requires n + m <= |s|
    ensures s[..n] + s[n..n + m] == s[..n + m]
  {
  }

  /** The blocks logged since l0 are those of k blocks' worth of writing. */
  ghost predicate Logged(sb: Super, s: Slots, l0: set<nat>, l: set<nat>, lo: nat, k: nat) {
    && (forall n: nat {:trigger s[n]} :: lo <= n < lo + k && n < MAXFILE ==> s[n] != 0)
    && l <= l0 + WriteSet(sb, s, lo, k)
  }

  /** The state of writei's loop when done bytes out of n are written, in k blocks from block lo on. */
  ghost predicate Copying(sb: Super, slots0: seq<Slots>, slots: seq<Slots>, d: seq<Block>, e: seq<Block>, l0: set<nat>,
                          l: set<nat>, i: nat, size: nat, off: nat, done: seq<Byte>, n: nat, lo: nat, k: nat)
    requires i < |slots0| && off <= size && Max(size, off + n) <= MAXFILE * BSIZE && |done| <= n
  {
    && Written(sb, slots0, slots, d, e, i, size, off, done)
    && Counted(lo, off, |done|, n, k)
    && Logged(sb, slots[i], l0, l, lo, k)
  }

  lemma LoggedMore(sb: Super, s: Slots, t: Slots, l0: set<nat>, l1: set<nat>, l2: set<nat>, lo: nat, k: nat, bn: nat)
    requires Logged(sb, s, l0, l1, lo, k) && ChunkLog(sb, s, t, l1, l2, bn) && bn == lo + k
    ensures Logged(sb, t, l0, l2, lo, k + 1)
  {
    forall n: nat {:trigger t[n]} | lo <= n < lo + k && n < MAXFILE
      ensures t[n] != 0
    {
      assert s[n] != 0;
    }
    WriteSetMore(sb, s, t, lo, k);
  }

  lemma CopyingNothing(sb: Super, slots: seq<Slots>, d: seq<Block>, owner: seq<Owner>, l: set<nat>, i: nat, size: nat,
                       off: nat, n: nat)
    requires Maps(sb, d, slots, owner) && i < |slots| && off <= size && Max(size, off + n) <= MAXFILE * BSIZE
    requires Compact(slots[i], BlocksFor(size))
    ensures Copying(sb, slots, slots, d, d, l, l, i, size, off, [], n, off / BSIZE, 0)
  {
    WrittenNothing(sb, slots, d, owner, i, size, off);
    CountedStart(off, n);
  }

  lemma CopyingMore(sb: Super, slots0: seq<Slots>, slots1: seq<Slots>, slots2: seq<Slots>, d: seq<Block>, e: seq<Block>,
                    f: seq<Block>, l0: set<nat>, l1: set<nat>, l2: set<nat>, i: nat, size: nat, off: nat,
                    done: seq<Byte>, chunk: seq<Byte>, n: nat, lo: nat, k: nat, bn: nat, at: nat, len: nat)
    requires i < |slots0| && off <= size && Max(size, off + n) <= MAXFILE * BSIZE
    requires at == off + |done| && len == Max(size, at)
    requires |done| < n && IsChunk(at, |chunk|, n - |done|, bn)
    requires Copying(sb, slots0, slots1, d, e, l0, l1, i, size, off, done, n, lo, k) && |slots2| == |slots1|
    requires ChunkStep(sb, slots1, slots2, e, f, l1, l2, i, at, chunk, len, bn)
    ensures Copying(sb, slots0, slots2, d, f, l0, l2, i, size, off, done + chunk, n, lo, k + 1)
  {
    WrittenMore(sb, slots0, slots1, slots2, d, e, f, l1, l2, i, size, off, done, chunk, bn, at, len);
    CountedMore(lo, off, |done|, |chunk|, n, k, bn);
    LoggedMore(sb, slots1[i], slots2[i], l0, l1, l2, lo, k, bn);
  }

  /** A write this long at this place is refused. */
  predicate BadSpan(off: nat, n: nat, size: nat) { off > size || off + n > MAXFILE * BSIZE }

  lemma {:induction false} Subset(a: set<nat>, b: set<nat>)
    requires a <= b
    ensures |a| <= |b|
  {
    if x :| x in a {
      Subset(a - {x}, b - {x});
    }
  }

  /** A set bounded by another plus some more elements has at most as many new ones. */
  lemma Grown(l0: set<nat>, l: set<nat>, w: set<nat>)
    requires l <= l0 + w
    ensures |l - l0| <= |w|
  {
    Subset(l - l0, w);
  }

  /** What a write of n bytes at off, and the inode's block at, put in the log. */
  lemma LogSize(sb: Super, s: Slots, l0: set<nat>, l1: set<nat>, l2: set<nat>, k: nat, at: nat, off: nat, n: nat)
    requires Logged(sb, s, l0, l1, off / BSIZE, k) && Counted(off / BSIZE, off, n, n, k) && l2 <= l1 + {at}
    ensures |l2 - l0| <= BlocksOf(sb.size, BPB) + BlocksFor(off % BSIZE + n) + 2
  {
    CountedEnd(off, n, k);
    var lo := off / BSIZE;
    var w := WriteSet(sb, s, lo, k);
    assert |w| <= |MapBlocks(sb)| + |Inds(s)| + |DataSet(s, lo, k)|;
    Grown(l0, l2, w + {at});
  }

  /** The owners are what the slots say. */
  lemma OwnerDetermined(sb: Super, slots: seq<Slots>, slots1: seq<Slots>, owner: seq<Owner>, owner1: seq<Owner>)
    requires Linked(sb, slots, owner) && Linked(sb, slots1, owner1)
    ensures slots == slots1 ==> owner == owner1
  {
    if slots == slots1 {
      forall b: nat | b < sb.size
        ensures owner[b] == owner1[b]
      {
        assert OwnerOk(sb, slots, owner, b) && OwnerOk(sb, slots, owner1, b);
        if owner[b].Slot? {
          assert SlotOk(sb, slots, owner1, owner[b].inum, owner[b].n);
        }
        if owner1[b].Slot? {
          assert SlotOk(sb, slots, owner, owner1[b].inum, owner1[b].n);
        }
      }
    }
  }

  /** The write is complete and the inode in memory is back on disk. */
  lemma WriteDone(sb: Super, slots0: seq<Slots>, slots: seq<Slots>, nodes0: seq<Node>, nodes: seq<Node>, d: seq<Block>,
                  e: seq<Block>, f: seq<Block>, files: seq<seq<Byte>>, i: nat, off: nat, src: seq<Byte>)
    requires FilesAre(files, d, slots0, nodes0) && FilesOk(nodes0, slots0) && i < |nodes0|
    requires off <= nodes0[i].size && off + |src| <= MAXFILE * BSIZE
    requires nodes0[i].size <= MAXFILE * BSIZE && Written(sb, slots0, slots, d, e, i, nodes0[i].size, off, src)
    requires AllSameData(slots, e, f) && |nodes| == |nodes0| && nodes == nodes0[i := nodes[i]]
    requires nodes[i].addrs == AddrsOf(slots[i]) && nodes[i].size == Max(nodes0[i].size, off + |src|)
    ensures FilesOk(nodes, slots)
    ensures |files[i]| == nodes0[i].size
    ensures FilesAre(files[i := Splice(files[i], off, src)], f, slots, nodes)
  {
    assert FileIs(files, d, slots0, nodes0, i) && SameData(slots[i], e, f);
    SameContents(e, f, slots[i], slots[i], nodes[i].size);
    var files1 := files[i := Splice(files[i], off, src)];
    forall j: nat {:trigger FileIs(files1, f, slots, nodes, j)} {:trigger nodes[j]} | j < |nodes|
      ensures FileOk(nodes[j], slots[j]) && FileIs(files1, f, slots, nodes, j)
    {
      assert FileIs(files, d, slots0, nodes0, j) && FileOk(nodes0[j], slots0[j]) && SameData(slots[j], e, f);
      if j != i {
        assert slots[j] == slots0[j];
        SameContents(d, e, slots[j], slots[j], nodes[j].size);
        SameContents(e, f, slots[j], slots[j], nodes[j].size);
      }
    }
  }

  lemma InMapBlocks(sb: Super, b: nat)
    requires b < sb.size
    ensures MapBlock(sb, b) in MapBlocks(sb)
  {
    assert b / BPB <= (sb.size - 1) / BPB;
    assert (sb.size - 1 + BPB) / BPB == (sb.size - 1) / BPB + 1;
  }

  ghost predicate UsedBelow(owner: seq<Owner>, b: nat) {
    forall c: nat {:trigger owner[c]} :: c < b && c < |owner| ==> owner[c] != Free
  }

  ghost predicate Full(owner: seq<Owner>) { UsedBelow(owner, |owner|) }

  /** The inner loop of balloc: the first clear bit below limit, or limit. */
  method FirstClear(bp: Block, limit: nat) returns (bi: nat)
    requires limit <= BPB
    ensures bi <= limit && (bi < limit ==> !BlockBit(bp, bi))
    ensures forall k: nat {:trigger BlockBit(bp, k)} :: k < bi ==> BlockBit(bp, k)
  {
    bi := 0;
    while bi < limit && BlockBit(bp, bi)
      invariant bi <= limit
      invariant forall k: nat {:trigger BlockBit(bp, k)} :: k < bi ==> BlockBit(bp, k)
    {
      bi := bi + 1;
    }
  }

  lemma InMapBlock(first: nat, k: nat)
    requires first % BPB == 0 && k < BPB
    ensures (first + k) / BPB == first / BPB && (first + k) % BPB == k
  {
  }

  lemma BitsAreOwners(sb: Super, disk: seq<Block>, owner: seq<Owner>, first: nat, at: nat, bi: nat)
    requires BitsOk(sb, disk, owner) && first % BPB == 0 && first + bi <= sb.size && bi <= BPB
    requires UsedBelow(owner, first) && at == MapBlock(sb, first) < |disk|
    requires forall k: nat {:trigger BlockBit(disk[at], k)} :: k < bi ==> BlockBit(disk[at], k)
    ensures UsedBelow(owner, first + bi)
  {
    forall c: nat | first <= c < first + bi
      ensures owner[c] != Free
    {
      InMapBlock(first, c - first);
      assert BitOk(sb, disk, owner, c);
      assert BlockBit(disk[at], c - first);
    }
  }

  lemma FreeBlock(sb: Super, disk: seq<Block>, slots: seq<Slots>, owner: seq<Owner>, b: nat)
    requires Linked(sb, slots, owner) && BitsOk(sb, disk, owner) && b < sb.size && !MapBit(sb, disk, b)
    ensures owner[b] == Free && DataStart(sb) <= b
  {
    assert BitOk(sb, disk, owner, b) && OwnerOk(sb, slots, owner, b);
  }

  /** Inode blocks and every block owned by a file hold in e what they hold in d. */
  ghost predicate Kept(sb: Super, owner: seq<Owner>, d: seq<Block>, e: seq<Block>) {
    && |e| == |d| && |owner| == sb.size <= |d|
    && forall c: nat {:trigger e[c]} ::
         c < |d| && (c < sb.bmapstart || (c < sb.size && owner[c].Slot?)) ==> e[c] == d[c]
  }

  lemma KeptFiles(sb: Super, slots: seq<Slots>, owner: seq<Owner>, d: seq<Block>, e: seq<Block>)
    requires Linked(sb, slots, owner) && Kept(sb, owner, d, e) && ListsOk(d, slots)
    ensures AllSameData(slots, d, e) && ListsOk(e, slots)
  {
    forall j: nat | j < |slots|
      ensures SameData(slots[j], d, e) && ListOk(e, slots[j])
    {
      forall n: nat | n <= MAXFILE && slots[j][n] != 0
        ensures slots[j][n] < |d| && e[slots[j][n]] == d[slots[j][n]]
      {
        assert SlotOk(sb, slots, owner, j, n);
      }
      assert ListOk(d, slots[j]);
    }
  }

  lemma Allocated(sb: Super, d: seq<Block>, slots: seq<Slots>, owner: seq<Owner>, i: nat, n: nat, b: Word)
    requires Maps(sb, d, slots, owner) && b < sb.size && owner[b] == Free && DataStart(sb) <= b
    requires i < |slots| && n <= MAXFILE && slots[i][n] == 0
    ensures var e := PutMapBit(sb, d, b, true)[b := ZeroBlock()];
            && Linked(sb, SetSlot(slots, i, n, b), owner[b := Slot(i, n)])
            && BitsOk(sb, e, owner[b := Slot(i, n)])
            && ListsOk(e, slots) && AllSameData(slots, d, e) && KeptBelow(sb, d, e)
  {
    MapBlockIn(sb, d, b);
    var d1 := PutMapBit(sb, d, b, true);
    var e := d1[b := ZeroBlock()];
    Claim(sb, slots, owner, i, n, b);
    PutMapBitOk(sb, d, owner, b, Slot(i, n));
    BitsElsewhere(sb, d1, owner[b := Slot(i, n)], b, ZeroBlock());
    forall c: nat | c < |d| && (c < sb.bmapstart || (c < sb.size && owner[c].Slot?))
      ensures e[c] == d[c]
    {
      if c < sb.size {
        assert OwnerOk(sb, slots, owner, c);
      }
    }
    KeptFiles(sb, slots, owner, d, e);
  }

  /** A fresh indirect block lists nothing. */
  lemma ZeroLists(disk: seq<Block>, s: Slots, b: Word)
    requires ListOk(disk, s) && s[INDIRECT] == 0 && b < |disk| && disk[b] == ZeroBlock()
    ensures ListOk(disk, s[INDIRECT := b])
  {
    forall k: nat {:trigger GetWord(disk[b], k)} | k < NINDIRECT
      ensures GetWord(disk[b], k) == s[NDIRECT + k]
    {
    }
  }

  lemma ListsSet(disk: seq<Block>, slots: seq<Slots>, i: nat, s: Slots)
    requires ListsOk(disk, slots) && i < |slots| && ListOk(disk, s)
    ensures ListsOk(disk, slots[i := s])
  {
    forall j: nat {:trigger ListOk(disk, slots[i := s][j])} | j < |slots|
      ensures ListOk(disk, slots[i := s][j])
    {
      assert ListOk(disk, slots[j]);
    }
  }

  lemma DirectListed(disk: seq<Block>, s: Slots, n: nat, b: Word)
    requires ListOk(disk, s) && n < NDIRECT
    ensures ListOk(disk, s[n := b])
  {
    if s[INDIRECT] != 0 {
      var t := s[n := b];
      forall k: nat {:trigger GetWord(disk[s[INDIRECT]], k)} | k < NINDIRECT
        ensures GetWord(disk[s[INDIRECT]], k) == t[NDIRECT + k]
      {
      }
    }
  }

  lemma AllSameTrans(slots0: seq<Slots>, slots1: seq<Slots>, i: nat, b: Word, d: seq<Block>, e: seq<Block>,
                     f: seq<Block>)
    requires i < |slots0| && slots1 == SetSlot(slots0, i, INDIRECT, b)
    requires AllSameData(slots0, d, e) && AllSameData(slots1, e, f)
    ensures AllSameData(slots0, d, f)
  {
    forall j: nat {:trigger SameData(slots0[j], d, f)} | j < |slots0|
      ensures SameData(slots0[j], d, f)
    {
      assert SameData(slots0[j], d, e) && SameData(slots1[j], e, f);
      forall n: nat | n < MAXFILE && slots0[j][n] != 0
        ensures slots0[j][n] < |d| == |f| && f[slots0[j][n]] == d[slots0[j][n]]
      {
        assert slots1[j][n] == slots0[j][n];
      }
    }
  }

  lemma SetSame(slots: seq<Slots>, i: nat, n: nat)
    requires i < |slots| && n <= MAXFILE
    ensures SetSlot(slots, i, n, slots[i][n]) == slots
  {
    assert slots[i][n := slots[i][n]] == slots[i];
  }

  /** Entry k of the indirect block is filled with the block just allocated for it. */
  lemma ListFilled(sb: Super, d0: seq<Block>, d: seq<Block>, slots0: seq<Slots>, owner: seq<Owner>, i: nat, k: nat,
                   addr: Word)
    requires Geometry(sb, d0) && i < |slots0| && k < NINDIRECT && 0 < addr
    requires ListsOk(d0, slots0) && slots0[i][INDIRECT] != 0 && slots0[i][NDIRECT + k] == 0
    requires Linked(sb, SetSlot(slots0, i, NDIRECT + k, addr), owner) && BitsOk(sb, d, owner)
    requires ListsOk(d, slots0) && AllSameData(slots0, d0, d) && KeptBelow(sb, d0, d)
    ensures ListOk(d0, slots0[i]) && slots0[i][INDIRECT] < |d0| && addr < |d|
    ensures var slots1, ind := SetSlot(slots0, i, NDIRECT + k, addr), slots0[i][INDIRECT];
            var e := d[ind := PutWord(d0[ind], k, addr)];
            Maps(sb, e, slots1, owner) && AllSameData(slots0, d0, e) && KeptBelow(sb, d0, e) && e[addr] == d[addr]
  {
    var slots1, ind := SetSlot(slots0, i, NDIRECT + k, addr), slots0[i][INDIRECT];
    assert ListOk(d0, slots0[i]);
    var data := PutWord(d0[ind], k, addr);
    var e := d[ind := data];
    OwnedWrite(sb, d, slots1, owner, i, INDIRECT, data);
    assert slots1[i][NDIRECT + k] == addr;
    ListPut(d0[ind], slots0[i], k, addr);
    forall j: nat {:trigger ListOk(e, slots1[j])} | j < |slots1|
      ensures ListOk(e, slots1[j])
    {
      if j != i {
        assert ListOk(d, slots0[j]) && slots1[j] == slots0[j];
        if slots0[j][INDIRECT] != 0 {
          assert e[slots1[j][INDIRECT]] == d[slots1[j][INDIRECT]];
        }
      }
    }
    forall j: nat {:trigger SameData(slots0[j], d0, e)} | j < |slots0|
      ensures SameData(slots0[j], d0, e)
    {
      assert SameData(slots0[j], d0, d);
      forall n: nat | n < MAXFILE && slots0[j][n] != 0
        ensures e[slots0[j][n]] == d0[slots0[j][n]]
      {
        SlotOwned(sb, slots1, owner, i, NDIRECT + k);
        assert slots1[j][n] != 0;
      }
    }
  }

  lemma CopiedNodes(sb: Super, slots0: seq<Slots>, slots: seq<Slots>, d: seq<Block>, e: seq<Block>, l0: set<nat>,
                    l: set<nat>, i: nat, size: nat, off: nat, src: seq<Byte>, lo: nat, k: nat, nodes: seq<Node>)
    requires i < |slots0| && off <= size && Max(size, off + |src|) <= MAXFILE * BSIZE && NodesOk(sb, d, nodes)
    requires Copying(sb, slots0, slots, d, e, l0, l, i, size, off, src, |src|, lo, k)
    ensures NodesOk(sb, e, nodes) && (off + |src| <= size ==> slots == slots0)
  {
    NodesBelow(sb, d, e, nodes);
  }

  /** The loop of writei and the writing back of the inode together. */
  lemma SpanDone(sb: Super, slots0: seq<Slots>, slots: seq<Slots>, nodes0: seq<Node>, nodes: seq<Node>, d: seq<Block>,
                 e: seq<Block>, f: seq<Block>, l0: set<nat>, l1: set<nat>, l2: set<nat>, files: seq<seq<Byte>>, i: nat,
                 off: nat, src: seq<Byte>, k: nat, at: nat, size: nat)
    requires FilesAre(files, d, slots0, nodes0) && FilesOk(nodes0, slots0) && i < |nodes0| && size == nodes0[i].size
    requires off <= size <= MAXFILE * BSIZE && off + |src| <= MAXFILE * BSIZE
    requires Copying(sb, slots0, slots, d, e, l0, l1, i, size, off, src, |src|, off / BSIZE, k)
    requires AllSameData(slots, e, f) && |nodes| == |nodes0| && nodes == nodes0[i := nodes[i]]
    requires nodes[i].addrs == AddrsOf(slots[i]) && nodes[i].size == Max(size, off + |src|) && l2 <= l1 + {at}
    ensures FilesOk(nodes, slots) && |files[i]| == size
    ensures FilesAre(files[i := Splice(files[i], off, src)], f, slots, nodes)
    ensures |l2 - l0| <= BlocksOf(sb.size, BPB) + BlocksFor(off % BSIZE + |src|) + 2
  {
    WriteDone(sb, slots0, slots, nodes0, nodes, d, e, f, files, i, off, src);
    LogSize(sb, slots[i], l0, l1, l2, k, at, off, |src|);
  }

  // Truncation.

  /** e is d but for the free map. */
  ghost predicate KeptOutsideMap(sb: Super, d: seq<Block>, e: seq<Block>) {
    && |e| == |d|
    && forall c: nat {:trigger e[c]} :: c < |d| && (c < sb.bmapstart || DataStart(sb) <= c) ==> e[c] == d[c]
  }

  /** Slots lo to hi are emptied. */
  ghost predicate Cleared(s: Slots, t: Slots, hi: nat) {
    forall n: nat {:trigger t[n]} {:trigger s[n]} :: n <= MAXFILE ==> t[n] == if n < hi then 0 else s[n]
  }

  lemma Freed(sb: Super, d: seq<Block>, slots: seq<Slots>, owner: seq<Owner>, i: nat, n: nat)
    requires Linked(sb, slots, owner) && BitsOk(sb, d, owner) && i < |slots| && n <= MAXFILE && slots[i][n] != 0
    ensures slots[i][n] < sb.size && owner[slots[i][n]] != Free
    ensures Linked(sb, SetSlot(slots, i, n, 0), owner[slots[i][n] := Free])
    ensures BitsOk(sb, PutMapBit(sb, d, slots[i][n], false), owner[slots[i][n] := Free])
    ensures KeptOutsideMap(sb, d, PutMapBit(sb, d, slots[i][n], false))
  {
    var b := slots[i][n];
    Drop(sb, slots, owner, i, n);
    PutMapBitOk(sb, d, owner, b, Free);
    MapBlockIn(sb, d, b);
  }

  /** What is left of the other files and of the inodes once file i has no blocks. */
  lemma Truncated(sb: Super, slots0: seq<Slots>, slots: seq<Slots>, owner0: seq<Owner>, owner: seq<Owner>,
                  d: seq<Block>, e: seq<Block>, nodes: seq<Node>, i: nat)
    requires Maps(sb, d, slots0, owner0) && NodesOk(sb, d, nodes) && i < |slots0|
    requires Linked(sb, slots, owner) && BitsOk(sb, e, owner) && KeptOutsideMap(sb, d, e)
    requires |slots| == |slots0| && slots == slots0[i := slots[i]] && Cleared(slots0[i], slots[i], MAXFILE + 1)
    ensures Maps(sb, e, slots, owner) && NodesOk(sb, e, nodes) && AllSameData(slots, d, e)
    ensures forall b: nat {:trigger owner[b]} :: b < sb.size ==>
              owner[b] == if owner0[b].Slot? && owner0[b].inum == i then Free else owner0[b]
  {
    NodesBelow(sb, d, e, nodes);
    forall j: nat {:trigger slots[j]} | j < |slots|
      ensures ListOk(e, slots[j]) && SameData(slots[j], d, e)
    {
      assert ListOk(d, slots0[j]);
      forall n: nat | n <= MAXFILE && slots[j][n] != 0
        ensures slots[j][n] < |d| && e[slots[j][n]] == d[slots[j][n]]
      {
        SlotOwned(sb, slots, owner, j, n);
      }
    }
    forall b: nat {:trigger owner[b]} | b < sb.size
      ensures owner[b] == if owner0[b].Slot? && owner0[b].inum == i then Free else owner0[b]
    {
      assert OwnerOk(sb, slots0, owner0, b) && OwnerOk(sb, slots, owner, b);
      if owner0[b].Slot? && owner0[b].inum != i {
        assert SlotOk(sb, slots, owner, owner0[b].inum, owner0[b].n);
      }
      if owner[b].Slot? {
        assert SlotOk(sb, slots0, owner0, owner[b].inum, owner[b].n);
      }
    }
  }

  lemma EmptyFile(files: seq<seq<Byte>>, d: seq<Block>, e: seq<Block>, slots0: seq<Slots>, slots: seq<Slots>,
                  nodes0: seq<Node>, nodes: seq<Node>, i: nat)
    requires FilesAre(files, d, slots0, nodes0) && FilesOk(nodes0, slots0) && i < |nodes0|
    requires |nodes| == |nodes0| && nodes == nodes0[i := nodes[i]]
    requires |slots| == |slots0| && slots == slots0[i := slots[i]] && Cleared(slots0[i], slots[i], MAXFILE + 1)
    requires AllSameData(slots, d, e) && nodes[i].addrs == AddrsOf(slots[i]) && nodes[i].size == 0
    ensures FilesOk(nodes, slots)
    ensures FilesAre(files[i := []], e, slots, nodes)
  {
    var files1 := files[i := []];
    forall j: nat {:trigger FileIs(files1, e, slots, nodes, j)} {:trigger nodes[j]} | j < |nodes|
      ensures FileOk(nodes[j], slots[j]) && FileIs(files1, e, slots, nodes, j)
    {
      assert FileIs(files, d, slots0, nodes0, j) && FileOk(nodes0[j], slots0[j]) && SameData(slots[j], d, e);
      if j != i {
        assert slots[j] == slots0[j];
        SameContents(d, e, slots[j], slots[j], nodes[j].size);
      }
    }
  }

  lemma StillLists(b: Block, s: Slots, t: Slots)
    requires Lists(b, s) && Cleared(s, t, NDIRECT)
    ensures Lists(b, t)
  {
    forall k: nat {:trigger GetWord(b, k)} | k < NINDIRECT
      ensures GetWord(b, k) == t[NDIRECT + k]
    {
      assert GetWord(b, k) == s[NDIRECT + k];
    }
  }

  lemma NoAddrs(s: Slots, t: Slots)
    requires Cleared(s, t, MAXFILE + 1)
    ensures AddrsOf(t) == seq(NDIRECT + 1, _ => 0)
  {
  }

  lemma SameTrans(slots: seq<Slots>, d: seq<Block>, e: seq<Block>, f: seq<Block>)
    requires AllSameData(slots, d, e) && AllSameData(slots, e, f)
    ensures AllSameData(slots, d, f)
  {
    forall j: nat {:trigger SameData(slots[j], d, f)} | j < |slots|
      ensures SameData(slots[j], d, f)
    {
      assert SameData(slots[j], d, e) && SameData(slots[j], e, f);
    }
  }

  // What a transaction has touched.

  predicate Untouched(d: seq<Block>, e: seq<Block>, b: nat)
    requires b < |d| == |e|
  {
    e[b] == d[b]
  }

  /** Blocks that are not in l hold in e what they hold in d; those in l lie behind the log. */
  ghost predicate Touched(sb: Super, d: seq<Block>, e: seq<Block>, l: set<nat>) {
    && |e| == |d|
    && (forall b: nat {:trigger Behind(sb, b)} :: b in l ==> Behind(sb, b))
    && (forall b: nat {:trigger Untouched(d, e, b)} :: b < |d| && b !in l ==> Untouched(d, e, b))
  }

  lemma TouchedMore(sb: Super, d: seq<Block>, e: seq<Block>, l: set<nat>, b: nat, data: Block)
    requires Touched(sb, d, e, l) && Behind(sb, b) && b < |e|
    ensures Touched(sb, d, e[b := data], l + {b})
  {
    forall c: nat {:trigger Untouched(d, e[b := data], c)} | c < |d| && c !in l + {b}
      ensures Untouched(d, e[b := data], c)
    {
      assert Untouched(d, e, c);
    }
  }

  // What a disk holds, whoever reads it.

  ghost predicate HoldsBy(sb: Super, d: seq<Block>, files: seq<seq<Byte>>, slots: seq<Slots>, owner: seq<Owner>,
                          nodes: seq<Node>) {
    Maps(sb, d, slots, owner) && NodesOk(sb, d, nodes) && FilesOk(nodes, slots) && FilesAre(files, d, slots, nodes)
  }

  /** The disk d is a sound file system with these files. */
  ghost predicate Holds(sb: Super, d: seq<Block>, files: seq<seq<Byte>>) {
    exists slots: seq<Slots>, owner: seq<Owner>, nodes: seq<Node> ::
      HoldsBy(sb, d, files, slots, owner, nodes)
  }

  class Inode {
    const inum: nat
    var valid: bool
    var typ: Short
    var major: Short
    var minor: Short
    var nlink: Short
    var size: Word
    var addrs: Addrs

    constructor (inum: nat)
      ensures this.inum == inum && !valid
    {
      this.inum := inum;
      valid, typ, major, minor, nlink, size, addrs := false, 0, 0, 0, 0, 0, seq(NDIRECT + 1, _ => 0);
    }

    function AsNode(): Node
      reads this
    {
      Node(typ, major, minor, nlink, size, addrs)
    }
  }

  class FileSystem {
    const sb: Super
    /** Every block as the kernel sees it through the buffer cache and the log. */
    var disk: seq<Block>
    ghost var slots: seq<Slots>
    ghost var owner: seq<Owner>
    ghost var nodes: seq<Node>
    /** The bytes of every file. */
    ghost var files: seq<seq<Byte>>
    /** What the operation in progress has logged since it began, and the disk it began with. */
    ghost var logged: set<nat>
    ghost var began: seq<Block>

    ghost predicate Mapped()
      reads this
    {
      Maps(sb, disk, slots, owner)
    }

    /** Every change since the operation began is in the log. */
    ghost predicate Tracked()
      reads this`disk, this`began, this`logged
    {
      Touched(sb, began, disk, logged)
    }

    ghost predicate Valid()
      reads this
    {
      Mapped() && NodesOk(sb, disk, nodes) && FilesOk(nodes, slots) && FilesAre(files, disk, slots, nodes) && Tracked()
    }

    lemma ValidHolds()
      requires Valid()
      ensures Holds(sb, disk, files)
    {
      assert HoldsBy(sb, disk, files, slots, owner, nodes);
    }

    constructor (sb: Super, disk: seq<Block>, ghost slots: seq<Slots>, ghost owner: seq<Owner>, ghost nodes: seq<Node>)
      requires Maps(sb, disk, slots, owner) && NodesOk(sb, disk, nodes) && FilesOk(nodes, slots)
      ensures Valid() && this.sb == sb && this.disk == disk && began == disk && logged == {}
      ensures this.slots == slots && this.owner == owner && this.nodes == nodes
    {
      this.sb, this.disk := sb, disk;
      this.slots, this.owner, this.nodes, this.logged, this.began := slots, owner, nodes, {}, disk;
      this.files := seq(|nodes|, i requires 0 <= i < |nodes| => BytesOf(disk, slots[i], nodes[i]));
    }

    /** The inode in memory is the one on disk. */
    ghost predicate Loaded(ip: Inode)
      reads this, ip
    {
      ip.valid && ip.inum < |nodes| && ip.AsNode() == nodes[ip.inum]
    }

    /** begin_op: from here on the log fills anew. */
    method BeginOp()
      requires Valid()
      modifies this`began, this`logged
      ensures Valid() && began == disk && logged == {}
    {
      began, logged := disk, {};
    }

    method LogWrite(b: nat, data: Block)
      requires b < |disk| && Behind(sb, b)
      modifies this`disk, this`logged
      ensures disk == old(disk)[b := data] && logged == old(logged) + {b}
      ensures old(Tracked()) ==> Tracked()
    {
      if Touched(sb, began, disk, logged) {
        TouchedMore(sb, began, disk, logged, b, data);
      }
      disk := disk[b := data];
      logged := logged + {b};
    }

    /** Sets the block's bit and zeroes the block. */
    method MarkUsed(b: nat)
      requires Geometry(sb, disk) && DataStart(sb) <= b < sb.size
      requires Tracked()
      modifies this`disk, this`logged
      ensures Tracked()
      ensures disk == PutMapBit(sb, old(disk), b, true)[b := ZeroBlock()]
      ensures logged == old(logged) + {MapBlock(sb, b), b}
    {
      MapBlockIn(sb, disk, b);
      var bp := disk[MapBlock(sb, b)];
      LogWrite(MapBlock(sb, b), WithBlockBit(bp, b % BPB, true));
      LogWrite(b, ZeroBlock());
    }

    /** The inner loop of balloc, over the map block that starts with block first. */
    method Scan(first: nat) returns (found: bool, b: Word)
      requires Linked(sb, slots, owner) && BitsOk(sb, disk, owner)
      requires first % BPB == 0 && first < sb.size && UsedBelow(owner, first)
      ensures found ==> b < sb.size && owner[b] == Free && DataStart(sb) <= b && UsedBelow(owner, b)
      ensures !found ==> UsedBelow(owner, first + BPB)
    {
      MapBlockIn(sb, disk, first);
      var at := MapBlock(sb, first);
      var bi := FirstClear(disk[at], Min(BPB, sb.size - first));
      BitsAreOwners(sb, disk, owner, first, at, bi);
      if bi < BPB && first + bi < sb.size {
        InMapBlock(first, bi);
        FreeBlock(sb, disk, slots, owner, first + bi);
        return true, first + bi;
      }
      return false, 0;
    }

    /** Finds the first free block, marks it used and zeroes it; with no free block it panics. */
    method Balloc() returns (ok: bool, b: Word)
      requires Linked(sb, slots, owner) && BitsOk(sb, disk, owner)
      requires Tracked()
      modifies this`disk, this`logged
      ensures Tracked()
      ensures !ok ==> disk == old(disk) && Full(owner)
      ensures ok ==> b < sb.size && owner[b] == Free && DataStart(sb) <= b
      ensures ok ==> UsedBelow(owner, b)
      ensures ok ==> disk == PutMapBit(sb, old(disk), b, true)[b := ZeroBlock()]
      ensures ok ==> logged == old(logged) + {MapBlock(sb, b), b}
    {
      var first := 0;
      while first < sb.size
        invariant first % BPB == 0
        invariant disk == old(disk) && logged == old(logged) && Tracked()
        invariant UsedBelow(owner, first)
      {
        ok, b := Scan(first);
        if ok {
          MarkUsed(b);
          return;
        }
        first := first + BPB;
      }
      return false, 0;
    }

    /** Clears the block's bit; it panics if the block was free already. */
    method Bfree(b: Word) returns (ok: bool)
      requires BitsOk(sb, disk, owner) && b < sb.size
      requires Tracked()
      modifies this`disk, this`logged
      ensures Tracked()
      ensures ok <==> owner[b] != Free
      ensures disk == if ok then PutMapBit(sb, old(disk), b, false) else old(disk)
      ensures logged == old(logged) + if ok then {MapBlock(sb, b)} else {}
    {
      MapBlockIn(sb, disk, b);
      var bp := disk[MapBlock(sb, b)];
      var bi := b % BPB;
      assert BitOk(sb, disk, owner, b);
      if !BlockBit(bp, bi) {
        return false;
      }
      LogWrite(MapBlock(sb, b), WithBlockBit(bp, bi, false));
      return true;
    }

    /** Allocates a block for slot n of inode i, which has none. */
    method Alloc(ghost i: nat, ghost n: nat) returns (ok: bool, b: Word)
      requires Mapped() && i < |slots| && n <= MAXFILE && slots[i][n] == 0
      requires Tracked()
      modifies this`disk, this`logged, this`slots, this`owner
      ensures Tracked()
      ensures !ok ==> slots == old(slots) && owner == old(owner) && disk == old(disk) && Full(owner)
      ensures ok ==> 0 < b < |disk| && slots == SetSlot(old(slots), i, n, b) && disk[b] == ZeroBlock()
      ensures ok ==> b < sb.size && old(owner)[b] == Free && owner == old(owner)[b := Slot(i, n)]
      ensures ok ==> Linked(sb, slots, owner) && BitsOk(sb, disk, owner) && ListsOk(disk, old(slots))
      ensures ok ==> AllSameData(old(slots), old(disk), disk) && KeptBelow(sb, old(disk), disk)
      ensures ok ==> logged == old(logged) + {MapBlock(sb, b), b}
    {
      ok, b := Balloc();
      if ok {
        Allocated(sb, old(disk), slots, owner, i, n, b);
        slots, owner := SetSlot(slots, i, n, b), owner[b := Slot(i, n)];
      }
    }

    /** The block behind entry n of the inode's own list, allocated if there is none. */
    method OwnEntry(ip: Inode, n: nat, ghost slot: nat) returns (ok: bool, addr: Word)
      requires Mapped() && ip.inum < |slots| && ip.addrs == AddrsOf(slots[ip.inum])
      requires n <= NDIRECT && slot == if n == NDIRECT then INDIRECT else n
      requires Tracked()
      modifies this`disk, this`logged, this`slots, this`owner, ip`addrs
      ensures Tracked()
      ensures !ok ==> Full(owner) && old(slots[ip.inum][slot]) == 0
      ensures ok ==> Mapped() && |slots| == old(|slots|) && ip.addrs == AddrsOf(slots[ip.inum])
      ensures ok ==> 0 < addr < |disk| && slots == SetSlot(old(slots), ip.inum, slot, addr)
      ensures ok ==> AllSameData(old(slots), old(disk), disk) && KeptBelow(sb, old(disk), disk)
      ensures ok && old(slots[ip.inum][slot]) != 0 ==>
                slots == old(slots) && disk == old(disk) && owner == old(owner) && logged == old(logged)
      ensures ok && old(slots[ip.inum][slot]) == 0 ==> disk[addr] == ZeroBlock()
      ensures ok ==> logged <= old(logged) + MapBlocks(sb) + {addr}
    {
      ghost var i := ip.inum;
      addr := ip.addrs[n];
      if addr != 0 {
        SlotOwned(sb, slots, owner, i, slot);
        SameSelf(sb, disk, slots, owner);
        SetSame(slots, i, slot);
        return true, addr;
      }
      ok, addr := Alloc(i, slot);
      if ok {
        ip.addrs := ip.addrs[n := addr];
        InMapBlocks(sb, addr);
        ghost var s := old(slots)[i];
        assert ListOk(disk, s);
        if n < NDIRECT {
          DirectListed(disk, s, n, addr);
        } else {
          ZeroLists(disk, s, addr);
        }
        ListsSet(disk, old(slots), i, s[slot := addr]);
      }
    }

    /** The block behind entry k of the inode's indirect block, allocated if there is none. */
    method ListEntry(ghost i: nat, ind: Word, k: nat) returns (ok: bool, addr: Word)
      requires Mapped() && i < |slots| && k < NINDIRECT && 0 < ind < |disk| && slots[i][INDIRECT] == ind
      requires Tracked()
      modifies this`disk, this`logged, this`slots, this`owner
      ensures Tracked()
      ensures !ok ==> Full(owner) && old(slots[i][NDIRECT + k]) == 0
      ensures ok ==> Mapped() && 0 < addr < |disk| && slots == SetSlot(old(slots), i, NDIRECT + k, addr)
      ensures ok ==> AllSameData(old(slots), old(disk), disk) && KeptBelow(sb, old(disk), disk)
      ensures ok && old(slots[i][NDIRECT + k]) != 0 ==>
                slots == old(slots) && disk == old(disk) && owner == old(owner) && logged == old(logged)
      ensures ok && old(slots[i][NDIRECT + k]) == 0 ==> disk[addr] == ZeroBlock()
      ensures ok ==> logged <= old(logged) + MapBlocks(sb) + {addr, ind}
    {
      var bp := disk[ind];
      assert ListOk(disk, slots[i]);
      addr := GetWord(bp, k);
      if addr != 0 {
        SameSelf(sb, disk, slots, owner);
        SetSame(slots, i, NDIRECT + k);
        SlotOwned(sb, slots, owner, i, NDIRECT + k);
        return true, addr;
      }
      ok, addr := Alloc(i, NDIRECT + k);
      if ok {
        InMapBlocks(sb, addr);
        ListFilled(sb, old(disk), disk, old(slots), owner, i, k, addr);
        SlotBehind(sb, disk, slots, owner, i, INDIRECT);
        LogWrite(ind, PutWord(bp, k, addr));
      }
    }

    /** bmap for a block past the direct ones. */
    method BmapListed(ip: Inode, k: nat) returns (ok: bool, addr: Word)
      requires Mapped() && ip.inum < |slots| && ip.addrs == AddrsOf(slots[ip.inum]) && k < NINDIRECT
      requires Tracked()
      modifies this`disk, this`logged, this`slots, this`owner, ip`addrs
      ensures Tracked()
      ensures !ok ==> Full(owner) && old(slots[ip.inum])[NDIRECT + k] == 0
      ensures ok ==> Mapped() && |slots| == old(|slots|) && ip.addrs == AddrsOf(slots[ip.inum])
      ensures ok ==> Extended(old(slots), slots, ip.inum, NDIRECT + k) && addr == slots[ip.inum][NDIRECT + k] < |disk|
      ensures ok ==> AllSameData(old(slots), old(disk), disk) && KeptBelow(sb, old(disk), disk)
      ensures ok && old(slots[ip.inum])[NDIRECT + k] != 0 ==>
                disk == old(disk) && owner == old(owner) && logged == old(logged)
      ensures ok && old(slots[ip.inum])[NDIRECT + k] == 0 ==> disk[addr] == ZeroBlock()
      ensures ok ==> logged <= old(logged) + MapBlocks(sb) + Inds(slots[ip.inum]) + {addr}
    {
      ghost var i := ip.inum;
      assert ListOk(disk, slots[i]);
      var ind: Word;
      ok, ind := OwnEntry(ip, NDIRECT, INDIRECT);
      if !ok {
        return false, 0;
      }
      ghost var slots1, disk1 := slots, disk;
      ok, addr := ListEntry(i, ind, k);
      if ok {
        SetSame(old(slots), i, NDIRECT + k);
        AllSameTrans(old(slots), slots1, i, ind, old(disk), disk1, disk);
      }
    }

    /** The block that holds data block bn of the inode, allocated if there is none. */
    method Bmap(ip: Inode, bn: nat) returns (ok: bool, addr: Word)
      requires Mapped() && ip.inum < |slots| && ip.addrs == AddrsOf(slots[ip.inum])
      requires Tracked()
      modifies this`disk, this`logged, this`slots, this`owner, ip`addrs
      ensures Tracked()
      ensures !ok ==> bn >= MAXFILE || (Full(owner) && old(slots[ip.inum])[bn] == 0)
      ensures ok ==> bn < MAXFILE && Mapped() && |slots| == old(|slots|) && ip.addrs == AddrsOf(slots[ip.inum])
      ensures ok ==> Extended(old(slots), slots, ip.inum, bn) && addr == slots[ip.inum][bn] < |disk|
      ensures ok ==> AllSameData(old(slots), old(disk), disk) && KeptBelow(sb, old(disk), disk)
      ensures ok && old(slots[ip.inum])[bn] != 0 ==>
                disk == old(disk) && owner == old(owner) && logged == old(logged)
      ensures ok && old(slots[ip.inum])[bn] == 0 ==> disk[addr] == ZeroBlock()
      ensures ok ==> logged <= old(logged) + MapBlocks(sb) + Inds(slots[ip.inum]) + {addr}
    {
      if bn < NDIRECT {
        ok, addr := OwnEntry(ip, bn, bn);
        SetSame(old(slots), ip.inum, INDIRECT);
      } else if bn - NDIRECT < NINDIRECT {
        ok, addr := BmapListed(ip, bn - NDIRECT);
      } else {
        ok, addr := false, 0;
      }
    }

    method DiskNode(inum: nat) returns (dip: Node)
      requires NodesOk(sb, disk, nodes) && inum < |nodes|
      ensures dip == nodes[inum]
    {
      assert NodeOk(sb, disk, nodes, inum);
      dip := GetNode(disk[InodeBlock(sb, inum)], inum % IPB);
    }

    /** Reads the inode from disk unless that has been done; an inode without a type panics. */
    method Ilock(ip: Inode) returns (ok: bool)
      requires Valid() && ip.inum < |nodes|
      requires ip.valid ==> Loaded(ip)
      modifies ip
      ensures Loaded(ip)
      ensures !ok <==> !old(ip.valid) && nodes[ip.inum].typ == 0
    {
      if !ip.valid {
        var dip := DiskNode(ip.inum);
        ip.typ, ip.major, ip.minor, ip.nlink := dip.typ, dip.major, dip.minor, dip.nlink;
        ip.size, ip.addrs := dip.size, dip.addrs;
        ip.valid := true;
        if ip.typ == 0 {
          return false;
        }
      }
      return true;
    }

    /** Copies the inode in memory to disk. */
    method Iupdate(ip: Inode)
      requires Mapped() && NodesOk(sb, disk, nodes) && ip.inum < |nodes|
      requires Tracked()
      modifies this`disk, this`logged, this`nodes
      ensures Tracked()
      ensures Mapped() && NodesOk(sb, disk, nodes)
      ensures nodes == old(nodes)[ip.inum := ip.AsNode()]
      ensures AllSameData(slots, old(disk), disk)
      ensures logged == old(logged) + {InodeBlock(sb, ip.inum)}
    {
      var at := InodeBlock(sb, ip.inum);
      InodeBlockIn(sb, disk, ip.inum);
      var bp := PutNode(disk[at], ip.inum % IPB, ip.AsNode());
      PutNodeAll(disk[at], ip.inum % IPB, ip.AsNode());
      NodeWritten(sb, disk, nodes, ip.inum, at, ip.inum % IPB, ip.AsNode(), bp);
      MapsBelow(sb, disk, slots, owner, at, bp);
      LogWrite(at, bp);
      nodes := nodes[ip.inum := ip.AsNode()];
    }

    method ReadPart(ip: Inode, bn: nat, o: nat, m: nat) returns (bytes: seq<Byte>)
      requires Valid() && Loaded(ip) && 0 < m && o + m <= BSIZE && BSIZE * bn + o + m <= ip.size
      modifies this`disk, this`logged, this`slots, this`owner, ip`addrs
      ensures disk == old(disk) && slots == old(slots) && owner == old(owner) && logged == old(logged)
      ensures Valid() && ip.addrs == old(ip.addrs)
      ensures BSIZE * bn + o + m <= |files[ip.inum]| && bytes == files[ip.inum][BSIZE * bn + o..BSIZE * bn + o + m]
    {
      PartOfFile(files, disk, slots, nodes, ip.inum, bn, o, m);
      assert FileOk(nodes[ip.inum], slots[ip.inum]);
      var ok, addr := Bmap(ip, bn);
      bytes := disk[addr][o..o + m];
    }

    /** m bytes of the file from at, all in one block. */
    method ReadChunk(ip: Inode, at: nat, m: nat) returns (bytes: seq<Byte>)
      requires Valid() && Loaded(ip) && 0 < m <= BSIZE - at % BSIZE && at + m <= ip.size
      modifies this`disk, this`logged, this`slots, this`owner, ip`addrs
      ensures disk == old(disk) && slots == old(slots) && owner == old(owner) && logged == old(logged)
      ensures Valid() && ip.addrs == old(ip.addrs)
      ensures at + m <= |files[ip.inum]| && bytes == files[ip.inum][at..at + m]
    {
      var bn, o := at / BSIZE, at % BSIZE;
      bytes := ReadPart(ip, bn, o, m);
    }

    /** One round of readi's loop, which has tot of count bytes in dst. */
    method ReadNext(ip: Inode, off: nat, count: nat, tot: nat, dst: seq<Byte>) returns (m: nat, more: seq<Byte>)
      requires Valid() && Loaded(ip) && off + count <= ip.size && tot < count
      requires |files[ip.inum]| == ip.size && dst == files[ip.inum][off..off + tot]
      modifies this`disk, this`logged, this`slots, this`owner, ip`addrs
      ensures disk == old(disk) && slots == old(slots) && owner == old(owner) && logged == old(logged)
      ensures Valid() && ip.addrs == old(ip.addrs)
      ensures 0 < m <= count - tot && |files[ip.inum]| == ip.size && more == files[ip.inum][off..off + tot + m]
    {
      m := ChunkSize(off + tot, count - tot);
      var bytes := ReadChunk(ip, off + tot, m);
      Slices(files[ip.inum], off, off + tot, off + tot + m);
      more := dst + bytes;
    }

    /** The copying loop of readi. */
    method ReadSpan(ip: Inode, off: nat, count: nat) returns (dst: seq<Byte>)
      requires Valid() && Loaded(ip) && off + count <= ip.size
      modifies this`disk, this`logged, this`slots, this`owner, ip`addrs
      ensures disk == old(disk) && slots == old(slots) && owner == old(owner) && logged == old(logged)
      ensures Valid() && ip.addrs == old(ip.addrs)
      ensures |files[ip.inum]| == ip.size && dst == files[ip.inum][off..off + count]
    {
      ghost var i := ip.inum;
      assert FileOk(nodes[i], slots[i]) && FileIs(files, disk, slots, nodes, i);
      dst := [];
      var tot := 0;
      while tot < count
        invariant tot <= count && off + count <= ip.size == |files[i]| && dst == files[i][off..off + tot]
        invariant disk == old(disk) && slots == old(slots) && owner == old(owner) && logged == old(logged)
        invariant Valid() && ip.addrs == old(ip.addrs)
      {
        var m;
        m, dst := ReadNext(ip, off, count, tot, dst);
        tot := tot + m;
      }
    }

    /** Returns the bytes of the file from off, up to n of them; nothing changes. */
    method Readi(ip: Inode, off: Word, n: Word) returns (r: ReadResult)
      requires Valid() && Loaded(ip)
      modifies this`disk, this`logged, this`slots, this`owner, ip`addrs
      ensures disk == old(disk) && slots == old(slots) && owner == old(owner) && logged == old(logged)
      ensures ip.addrs == old(ip.addrs)
      ensures r.DeviceRead? <==> ip.typ == T_DEV
      ensures r.BadRead? <==> ip.typ != T_DEV && (off > ip.size || off + n >= 0x1_0000_0000)
      ensures Valid() && Loaded(ip)
      ensures r.Read? ==> |files[ip.inum]| == ip.size && r.data == files[ip.inum][off..Min(off + n, ip.size)]
    {
      if ip.typ == T_DEV {
        return DeviceRead;
      }
      if off > ip.size || (off + n) % 0x1_0000_0000 < off {
        return BadRead;
      }
      var count := n;
      if off + n > ip.size {
        count := ip.size - off;
      }
      var dst := ReadSpan(ip, off, count);
      return Read(dst);
    }

    /** Writes bytes that lie in one block, at a position no later than the end of the file. */
    method WriteChunk(ip: Inode, at: nat, chunk: seq<Byte>, ghost len: nat, ghost block: nat) returns (ok: bool)
      requires Mapped() && ip.inum < |slots| && ip.addrs == AddrsOf(slots[ip.inum])
      requires at <= len && Max(len, at + |chunk|) <= MAXFILE * BSIZE && 0 < |chunk| <= BSIZE - at % BSIZE
      requires Compact(slots[ip.inum], BlocksFor(len)) && block == at / BSIZE
      requires Tracked()
      modifies this`disk, this`logged, this`slots, this`owner, ip`addrs
      ensures Tracked()
      ensures !ok ==> Full(owner)
      ensures ok ==> Mapped() && |slots| == old(|slots|) && ip.addrs == AddrsOf(slots[ip.inum])
      ensures ok ==> ChunkStep(sb, old(slots), slots, old(disk), disk, old(logged), logged, ip.inum, at, chunk, len,
                               block)
    {
      ghost var i := ip.inum;
      var bn, o := at / BSIZE, at % BSIZE;
      OneBlock(len, at, |chunk|);
      var addr: Word;
      ok, addr := Bmap(ip, bn);
      if ok {
        var bp := disk[addr][..o] + chunk + disk[addr][o + |chunk|..];
        ChunkDone(sb, old(disk), disk, old(slots), slots, owner, old(logged), logged, i, at, chunk, len, bn, o, bp);
        LogWrite(addr, bp);
      }
    }

    /** One round of writei's loop: the next m bytes of src, those that fit into one block. */
    method WriteNext(ip: Inode, src: seq<Byte>, off: nat, tot: nat, ghost done: seq<Byte>, ghost lo: nat, ghost k: nat,
                     ghost slots0: seq<Slots>, ghost d0: seq<Block>, ghost l0: set<nat>)
      returns (ok: bool, m: nat, ghost more: seq<Byte>)
      requires Mapped() && ip.inum < |slots| && ip.addrs == AddrsOf(slots[ip.inum])
      requires off <= ip.size && Max(ip.size, off + |src|) <= MAXFILE * BSIZE && ip.inum < |slots0| && tot < |src|
      requires done == src[..tot]
      requires Copying(sb, slots0, slots, d0, disk, l0, logged, ip.inum, ip.size, off, done, |src|, lo, k)
      requires Tracked()
      modifies this`disk, this`logged, this`slots, this`owner, ip`addrs
      ensures Tracked()
      ensures !ok ==> Full(owner)
      ensures ok ==> Mapped() && ip.inum < |slots| && ip.addrs == AddrsOf(slots[ip.inum])
      ensures ok ==> 0 < m <= |src| - tot && more == src[..tot + m]
      ensures ok ==> Copying(sb, slots0, slots, d0, disk, l0, logged, ip.inum, ip.size, off, more, |src|, lo, k + 1)
    {
      ghost var slots1, d1, logged1 := slots, disk, logged;
      var at := off + tot;
      ghost var len, block := Max(ip.size, at), at / BSIZE;
      m := ChunkSize(at, |src| - tot);
      var chunk := src[tot..tot + m];
      more := done + chunk;
      ok := WriteChunk(ip, at, chunk, len, block);
      if ok {
        CopyingMore(sb, slots0, slots1, slots, d0, d1, disk, l0, logged1, logged, ip.inum, ip.size, off, done, chunk,
                    |src|, lo, k, block, at, len);
        Prefix(src, tot, m);
      }
    }

    /** The copying loop of writei. The ghost k counts the blocks it went through. */
    method WriteAll(ip: Inode, src: seq<Byte>, off: Word) returns (ok: bool, ghost k: nat)
      requires Mapped() && ip.inum < |slots| && ip.addrs == AddrsOf(slots[ip.inum])
      requires Compact(slots[ip.inum], BlocksFor(ip.size))
      requires off <= ip.size <= MAXFILE * BSIZE && off + |src| <= MAXFILE * BSIZE
      requires Tracked()
      modifies this`disk, this`logged, this`slots, this`owner, ip`addrs
      ensures Tracked()
      ensures !ok ==> Full(owner)
      ensures ok ==> Mapped() && ip.inum < |slots| && ip.addrs == AddrsOf(slots[ip.inum]) && ip.size <= MAXFILE * BSIZE
      ensures ok ==> Copying(sb, old(slots), slots, old(disk), disk, old(logged), logged, ip.inum, ip.size, off, src,
                             |src|, off / BSIZE, k)
    {
      ghost var i, lo := ip.inum, off / BSIZE;
      CopyingNothing(sb, slots, disk, owner, logged, i, ip.size, off, |src|);
      var tot := 0;
      ghost var done: seq<Byte> := [];
      k := 0;
      while tot < |src|
        invariant tot <= |src| && done == src[..tot]
        invariant Mapped() && Tracked() && i < |slots| && ip.addrs == AddrsOf(slots[i])
        invariant Copying(sb, old(slots), slots, old(disk), disk, old(logged), logged, i, ip.size, off, done, |src|,
                          lo, k)
      {
        var m;
        ok, m, done := WriteNext(ip, src, off, tot, done, lo, k, old(slots), old(disk), old(logged));
        if !ok {
          return;
        }
        tot, k := tot + m, k + 1;
      }
      assert done == src;
      return true, k;
    }

    /** The end of writei: the size and the inode on disk follow the file if it grew. */
    method WriteBack(ip: Inode, end: nat, n: nat)
      requires Mapped() && NodesOk(sb, disk, nodes) && ip.valid && ip.inum < |nodes| && end < 0x1_0000_0000
      requires n == 0 ==> end <= ip.size
      requires end <= ip.size ==> ip.AsNode() == nodes[ip.inum]
      requires Tracked()
      modifies this`disk, this`logged, this`nodes, ip`size
      ensures Tracked()
      ensures Mapped() && NodesOk(sb, disk, nodes) && Loaded(ip) && ip.size == Max(old(ip.size), end)
      ensures |nodes| == old(|nodes|) && nodes == old(nodes)[ip.inum := nodes[ip.inum]]
      ensures AllSameData(slots, old(disk), disk)
      ensures end <= old(ip.size) ==> nodes == old(nodes)
      ensures logged <= old(logged) + {InodeBlock(sb, ip.inum)}
    {
      SameSelf(sb, disk, slots, owner);
      if n > 0 && end > ip.size {
        ip.size := end;
        Iupdate(ip);
      }
    }

    /** writei once all bytes are in place: the inode goes back to disk if the file grew. */
    method EndSpan(ip: Inode, src: seq<Byte>, off: Word, ghost slots0: seq<Slots>, ghost d0: seq<Block>,
                   ghost l0: set<nat>, ghost k: nat)
      requires FilesAre(files, d0, slots0, nodes) && FilesOk(nodes, slots0) && NodesOk(sb, d0, nodes)
      requires Mapped() && Tracked() && ip.valid && ip.inum < |nodes| == |slots0| && ip.inum < |slots|
      requires ip.AsNode() == nodes[ip.inum].(addrs := ip.addrs) && ip.addrs == AddrsOf(slots[ip.inum])
      requires off <= ip.size <= MAXFILE * BSIZE && off + |src| <= MAXFILE * BSIZE
      requires Copying(sb, slots0, slots, d0, disk, l0, logged, ip.inum, ip.size, off, src, |src|, off / BSIZE, k)
      requires slots == slots0 ==> ip.AsNode() == nodes[ip.inum]
      modifies this`disk, this`logged, this`nodes, this`files, ip`size
      ensures Valid() && Loaded(ip) && ip.size == Max(old(ip.size), off + |src|)
      ensures |nodes| == old(|nodes|) && nodes == old(nodes)[ip.inum := nodes[ip.inum]]
      ensures |old(files)[ip.inum]| == old(ip.size)
      ensures files == old(files)[ip.inum := Splice(old(files)[ip.inum], off, src)]
      ensures off + |src| <= old(ip.size) ==> slots == slots0 && nodes == old(nodes)
      ensures |logged - l0| <= BlocksOf(sb.size, BPB) + BlocksFor(off % BSIZE + |src|) + 2
    {
      ghost var i, d1, l1, size, lo := ip.inum, disk, logged, ip.size, off / BSIZE;
      CopiedNodes(sb, slots0, slots, d0, disk, l0, logged, i, size, off, src, lo, k, nodes);
      WriteBack(ip, off + |src|, |src|);
      SpanDone(sb, slots0, slots, old(nodes), nodes, d0, d1, disk, l0, l1, logged, files, i, off, src, k,
               InodeBlock(sb, i), size);
      files := files[i := Splice(files[i], off, src)];
    }

    /** The part of writei past its checks: the copying loop, and the inode back to disk if the file grew. */
    method WriteSpan(ip: Inode, src: seq<Byte>, off: Word) returns (ok: bool)
      requires Valid() && Loaded(ip) && !BadSpan(off, |src|, ip.size)
      modifies this`disk, this`logged, this`slots, this`owner, this`nodes, this`files, ip`addrs,
               ip`size
      ensures !ok ==> Full(owner)
      ensures ok ==> Valid() && Loaded(ip) && ip.size == Max(old(ip.size), off + |src|)
      ensures ok ==> |nodes| == old(|nodes|) && nodes == old(nodes)[ip.inum := nodes[ip.inum]]
      ensures ok ==> |old(files)[ip.inum]| == old(ip.size)
      ensures ok ==> files == old(files)[ip.inum := Splice(old(files)[ip.inum], off, src)]
      ensures ok && off + |src| <= old(ip.size) ==> slots == old(slots) && owner == old(owner) && nodes == old(nodes)
      ensures ok ==> |logged - old(logged)| <= BlocksOf(sb.size, BPB) + BlocksFor(off % BSIZE + |src|) + 2
    {
      assert FileOk(nodes[ip.inum], slots[ip.inum]);
      ghost var k;
      ok, k := WriteAll(ip, src, off);
      if ok {
        EndSpan(ip, src, off, old(slots), old(disk), old(logged), k);
        OwnerDetermined(sb, old(slots), slots, old(owner), owner);
      }
    }

    /**
     * Writes src into the file at off. On success the file's bytes are the old ones with src spliced in, all other
     * files keep theirs, and the inode on disk again equals the one in memory, though it is written back only when
     * the file grows.
     */
    method Writei(ip: Inode, src: seq<Byte>, off: Word) returns (r: WriteResult)
      requires Valid() && Loaded(ip) && |src| < 0x1_0000_0000
      modifies this`disk, this`logged, this`slots, this`owner, this`nodes, this`files, ip`addrs,
               ip`size
      ensures r.DeviceWrite? <==> ip.typ == T_DEV
      ensures r.BadWrite? <==> ip.typ != T_DEV && BadSpan(off, |src|, old(ip.size))
      ensures r.DeviceWrite? || r.BadWrite? ==>
                && disk == old(disk) && slots == old(slots) && owner == old(owner) && nodes == old(nodes)
                && files == old(files) && logged == old(logged) && ip.size == old(ip.size) && ip.addrs == old(ip.addrs)
      ensures r.NoSpace? ==> Full(owner)
      ensures r.Wrote? ==> Valid() && Loaded(ip) && r.n == |src| && ip.size == Max(old(ip.size), off + |src|)
      ensures r.Wrote? ==> |nodes| == old(|nodes|) && nodes == old(nodes)[ip.inum := nodes[ip.inum]]
      ensures r.Wrote? ==> |old(files)[ip.inum]| == old(ip.size)
      ensures r.Wrote? ==> files == old(files)[ip.inum := Splice(old(files)[ip.inum], off, src)]
      ensures r.Wrote? && off + |src| <= old(ip.size) ==>
                slots == old(slots) && owner == old(owner) && nodes == old(nodes)
      ensures r.Wrote? ==> |logged - old(logged)| <= BlocksOf(sb.size, BPB) + BlocksFor(off % BSIZE + |src|) + 2
    {
      if ip.typ == T_DEV {
        return DeviceWrite;
      }
      if off > ip.size || (off + |src|) % 0x1_0000_0000 < off {
        return BadWrite;
      }
      if off + |src| > MAXFILE * BSIZE {
        return BadWrite;
      }
      var ok := WriteSpan(ip, src, off);
      return if ok then Wrote(|src|) else NoSpace;
    }

    /** Frees the block of slot n of file i; it has one, so bfree does not panic. */
    method FreeSlot(b: Word, ghost i: nat, ghost n: nat) returns (ok: bool)
      requires Linked(sb, slots, owner) && BitsOk(sb, disk, owner)
      requires i < |slots| && n <= MAXFILE && slots[i][n] == b != 0
      requires Tracked()
      modifies this`disk, this`logged, this`slots, this`owner
      ensures Tracked()
      ensures ok && Linked(sb, slots, owner) && BitsOk(sb, disk, owner)
      ensures slots == SetSlot(old(slots), i, n, 0) && KeptOutsideMap(sb, old(disk), disk)
    {
      Freed(sb, disk, slots, owner, i, n);
      ok := Bfree(b);
      slots, owner := SetSlot(slots, i, n, 0), owner[b := Free];
    }

    /** The loop of itrunc over the direct blocks. */
    method FreeDirect(ip: Inode) returns (ok: bool)
      requires Linked(sb, slots, owner) && BitsOk(sb, disk, owner)
      requires ip.inum < |slots| && ip.addrs == AddrsOf(slots[ip.inum])
      requires Tracked()
      modifies this`disk, this`logged, this`slots, this`owner, ip`addrs
      ensures Tracked()
      ensures ok && Linked(sb, slots, owner) && BitsOk(sb, disk, owner) && KeptOutsideMap(sb, old(disk), disk)
      ensures |slots| == old(|slots|) && slots == old(slots)[ip.inum := slots[ip.inum]]
      ensures Cleared(old(slots[ip.inum]), slots[ip.inum], NDIRECT) && ip.addrs == AddrsOf(slots[ip.inum])
    {
      ghost var n := ip.inum;
      var i := 0;
      while i < NDIRECT
        invariant i <= NDIRECT && Linked(sb, slots, owner) && BitsOk(sb, disk, owner) && Tracked()
        invariant KeptOutsideMap(sb, old(disk), disk)
        invariant |slots| == old(|slots|) && slots == old(slots)[n := slots[n]]
        invariant Cleared(old(slots[n]), slots[n], i) && ip.addrs == AddrsOf(slots[n])
      {
        if ip.addrs[i] != 0 {
          ok := FreeSlot(ip.addrs[i], n, i);
          if !ok {
            return;
          }
          ip.addrs := ip.addrs[i := 0];
        }
        i := i + 1;
      }
      return true;
    }

    /** The loop of itrunc over the blocks that the indirect block a lists. */
    method FreeListed(a: Block, ghost n: nat) returns (ok: bool)
      requires Linked(sb, slots, owner) && BitsOk(sb, disk, owner)
      requires n < |slots| && Lists(a, slots[n])
      requires Tracked()
      modifies this`disk, this`logged, this`slots, this`owner
      ensures Tracked()
      ensures ok && Linked(sb, slots, owner) && BitsOk(sb, disk, owner) && KeptOutsideMap(sb, old(disk), disk)
      ensures |slots| == old(|slots|) && slots == old(slots)[n := slots[n]]
      ensures forall m: nat {:trigger slots[n][m]} ::
                m <= MAXFILE ==> slots[n][m] == if NDIRECT <= m < MAXFILE then 0 else old(slots[n])[m]
    {
      var j := 0;
      while j < NINDIRECT
        invariant j <= NINDIRECT && Linked(sb, slots, owner) && BitsOk(sb, disk, owner) && Tracked()
        invariant KeptOutsideMap(sb, old(disk), disk)
        invariant |slots| == old(|slots|) && slots == old(slots)[n := slots[n]]
        invariant forall m: nat {:trigger slots[n][m]} ::
                    m <= MAXFILE ==> slots[n][m] == if NDIRECT <= m < NDIRECT + j then 0 else old(slots[n])[m]
      {
        assert GetWord(a, j) == old(slots[n])[NDIRECT + j] == slots[n][NDIRECT + j];
        if GetWord(a, j) != 0 {
          ok := FreeSlot(GetWord(a, j), n, NDIRECT + j);
          if !ok {
            return;
          }
        }
        j := j + 1;
      }
      return true;
    }

    /** The second half of itrunc: the listed blocks, then the indirect block itself. */
    method FreeIndirect(ip: Inode) returns (ok: bool)
      requires Linked(sb, slots, owner) && BitsOk(sb, disk, owner)
      requires ip.inum < |slots| && ip.addrs == AddrsOf(slots[ip.inum]) && 0 < ip.addrs[NDIRECT] < |disk|
      requires Lists(disk[ip.addrs[NDIRECT]], slots[ip.inum])
      requires Tracked()
      modifies this`disk, this`logged, this`slots, this`owner, ip`addrs
      ensures Tracked()
      ensures ok && Linked(sb, slots, owner) && BitsOk(sb, disk, owner) && KeptOutsideMap(sb, old(disk), disk)
      ensures |slots| == old(|slots|) && slots == old(slots)[ip.inum := slots[ip.inum]]
      ensures forall m: nat {:trigger slots[ip.inum][m]} ::
                m <= MAXFILE ==> slots[ip.inum][m] == if NDIRECT <= m then 0 else old(slots[ip.inum])[m]
      ensures ip.addrs == AddrsOf(slots[ip.inum])
    {
      var b := ip.addrs[NDIRECT];
      ok := FreeListed(disk[b], ip.inum);
      if !ok {
        return;
      }
      assert slots[ip.inum][INDIRECT] == b;
      ok := FreeSlot(b, ip.inum, INDIRECT);
      if !ok {
        return;
      }
      ip.addrs := ip.addrs[NDIRECT := 0];
    }

    /** itrunc frees all the blocks of the file. */
    method FreeAll(ip: Inode) returns (ok: bool)
      requires Mapped() && Tracked() && ip.inum < |slots| && ip.addrs == AddrsOf(slots[ip.inum])
      modifies this`disk, this`logged, this`slots, this`owner, ip`addrs
      ensures ok && Tracked() && Linked(sb, slots, owner) && BitsOk(sb, disk, owner)
      ensures KeptOutsideMap(sb, old(disk), disk)
      ensures |slots| == old(|slots|) && slots == old(slots)[ip.inum := slots[ip.inum]]
      ensures Cleared(old(slots[ip.inum]), slots[ip.inum], MAXFILE + 1) && ip.addrs == AddrsOf(slots[ip.inum])
    {
      ghost var i, s0 := ip.inum, slots[ip.inum];
      assert ListOk(disk, s0);
      ok := FreeDirect(ip);
      if ok && ip.addrs[NDIRECT] != 0 {
        SlotOwned(sb, slots, owner, i, INDIRECT);
        StillLists(disk[ip.addrs[NDIRECT]], s0, slots[i]);
        ok := FreeIndirect(ip);
      }
    }

    /**
     * Discards a file's contents: exactly the blocks the file owned become free, no other file changes, and
     * "freeing free block" is never reached.
     */
    method Itrunc(ip: Inode) returns (ok: bool)
      requires Valid() && Loaded(ip)
      modifies this`disk, this`logged, this`slots, this`owner, this`nodes, this`files, ip`addrs,
               ip`size
      ensures ok && Valid() && Loaded(ip)
      ensures nodes == old(nodes)[ip.inum := old(nodes)[ip.inum].(size := 0, addrs := seq(NDIRECT + 1, _ => 0))]
      ensures files == old(files)[ip.inum := []]
      ensures |owner| == old(|owner|)
      ensures forall b: nat {:trigger owner[b]} :: b < sb.size ==>
                owner[b] == if old(owner[b]).Slot? && old(owner[b]).inum == ip.inum then Free else old(owner[b])
    {
      ghost var i, s0 := ip.inum, slots[ip.inum];
      assert FileOk(nodes[i], s0);
      ok := FreeAll(ip);
      NoAddrs(s0, slots[i]);
      ghost var d1 := disk;
      Truncated(sb, old(slots), slots, old(owner), owner, old(disk), disk, nodes, i);
      ip.size := 0;
      Iupdate(ip);
      SameTrans(slots, old(disk), d1, disk);
      EmptyFile(files, old(disk), disk, old(slots), slots, old(nodes), nodes, i);
      files := files[i := []];
    }
  }
}
