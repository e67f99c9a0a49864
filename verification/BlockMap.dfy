/**
 * Which file owns which disk block. A file's blocks are its slots: slot n < MAXFILE is the file's n-th
 * block of data, slot INDIRECT the block that lists the data blocks past the NDIRECT direct ones.
 */
module BlockMap {
  import opened Blocks
  import opened Bitmap

  const NDIRECT := 12

  const NINDIRECT := WORDS
  const MAXFILE := NDIRECT + NINDIRECT
  const INDIRECT := MAXFILE
  const IPB := 8

  datatype Super = Super(size: nat, nblocks: nat, ninodes: nat, inodestart: nat, bmapstart: nat)

  type Slots = s: seq<Word> | |s| == MAXFILE + 1 witness seq(MAXFILE + 1, _ => 0)

  type Addrs = a: seq<Word> | |a| == NDIRECT + 1 witness seq(NDIRECT + 1, _ => 0)

  datatype Owner = Free | Meta | Slot(inum: nat, n: nat)

  function DataStart(sb: Super): int { sb.size - sb.nblocks }

  /** The regions lie one after another: inodes, free map, data; all of them on the disk. */
  predicate Geometry(sb: Super, disk: seq<Block>) {
    && sb.size <= |disk| && sb.size < 0x8000_0000
    && 1 < sb.inodestart && sb.inodestart + sb.ninodes / IPB < sb.bmapstart
    && sb.bmapstart + sb.size / BPB < DataStart(sb) <= sb.size
  }

  function InodeBlock(sb: Super, inum: nat): nat { inum / IPB + sb.inodestart }

  function MapBlock(sb: Super, b: nat): nat { b / BPB + sb.bmapstart }

  lemma InodeBlockIn(sb: Super, disk: seq<Block>, i: nat)
    requires Geometry(sb, disk) && i < sb.ninodes
    ensures InodeBlock(sb, i) < sb.bmapstart < |disk|
  {
  }

  lemma MapBlockIn(sb: Super, disk: seq<Block>, b: nat)
    requires Geometry(sb, disk) && b < sb.size
    ensures sb.bmapstart <= MapBlock(sb, b) < DataStart(sb) <= |disk|
  {
  }

  // Slots and owners: two views of one relation.

  ghost predicate SlotOk(sb: Super, slots: seq<Slots>, owner: seq<Owner>, i: nat, n: nat)
    requires i < |slots| && n <= MAXFILE && |owner| == sb.size
  {
    var b := slots[i][n];
    b == 0 || (b < sb.size && owner[b] == Slot(i, n))
  }

  ghost predicate OwnerOk(sb: Super, slots: seq<Slots>, owner: seq<Owner>, b: nat)
    requires |owner| == sb.size && b < sb.size
  {
    && (owner[b] == Meta <==> b < DataStart(sb))
    && (owner[b].Slot? ==> owner[b].inum < |slots| && owner[b].n <= MAXFILE && slots[owner[b].inum][owner[b].n] == b)
  }

  /** A block is named by the slot that owns it and by no other; the blocks before the data have no file. */
  ghost predicate Linked(sb: Super, slots: seq<Slots>, owner: seq<Owner>) {
    && |owner| == sb.size && 0 < DataStart(sb)
    && (forall i: nat, n: nat {:trigger SlotOk(sb, slots, owner, i, n)} ::
          i < |slots| && n <= MAXFILE ==> SlotOk(sb, slots, owner, i, n))
    && (forall b: nat {:trigger OwnerOk(sb, slots, owner, b)} :: b < sb.size ==> OwnerOk(sb, slots, owner, b))
  }

  function SetSlot(slots: seq<Slots>, i: nat, n: nat, b: Word): (r: seq<Slots>)
    requires i < |slots| && n <= MAXFILE
    ensures |r| == |slots|
  {
    slots[i := slots[i][n := b]]
  }

  /** Giving a free block to an empty slot keeps the two views equal. */
  lemma Claim(sb: Super, slots: seq<Slots>, owner: seq<Owner>, i: nat, n: nat, b: Word)
    requires Linked(sb, slots, owner)
    requires i < |slots| && n <= MAXFILE && slots[i][n] == 0 && b < sb.size && owner[b] == Free
    ensures Linked(sb, SetSlot(slots, i, n, b), owner[b := Slot(i, n)])
  {
    var slots1, owner1 := SetSlot(slots, i, n, b), owner[b := Slot(i, n)];
    assert OwnerOk(sb, slots, owner, b);
    forall j: nat, m: nat {:trigger SlotOk(sb, slots1, owner1, j, m)} | j < |slots1| && m <= MAXFILE
      ensures SlotOk(sb, slots1, owner1, j, m)
    {
      assert SlotOk(sb, slots, owner, j, m);
    }
    forall c: nat {:trigger OwnerOk(sb, slots1, owner1, c)} | c < sb.size
      ensures OwnerOk(sb, slots1, owner1, c)
    {
      assert OwnerOk(sb, slots, owner, c);
    }
  }

  /** Taking a slot's block back. */
  lemma Drop(sb: Super, slots: seq<Slots>, owner: seq<Owner>, i: nat, n: nat)
    requires Linked(sb, slots, owner)
    requires i < |slots| && n <= MAXFILE && slots[i][n] != 0
    ensures slots[i][n] < sb.size && owner[slots[i][n]] == Slot(i, n)
    ensures Linked(sb, SetSlot(slots, i, n, 0), owner[slots[i][n] := Free])
  {
    assert SlotOk(sb, slots, owner, i, n);
    var b := slots[i][n];
    var slots1, owner1 := SetSlot(slots, i, n, 0), owner[b := Free];
    assert OwnerOk(sb, slots, owner, b);
    forall j: nat, m: nat {:trigger SlotOk(sb, slots1, owner1, j, m)} | j < |slots1| && m <= MAXFILE
      ensures SlotOk(sb, slots1, owner1, j, m)
    {
      assert SlotOk(sb, slots, owner, j, m);
    }
    forall c: nat {:trigger OwnerOk(sb, slots1, owner1, c)} | c < sb.size
      ensures OwnerOk(sb, slots1, owner1, c)
    {
      assert OwnerOk(sb, slots, owner, c);
    }
  }

  lemma SlotOwned(sb: Super, slots: seq<Slots>, owner: seq<Owner>, i: nat, n: nat)
    requires Linked(sb, slots, owner) && i < |slots| && n <= MAXFILE && slots[i][n] != 0
    ensures DataStart(sb) <= slots[i][n] < sb.size && owner[slots[i][n]] == Slot(i, n)
  {
    assert SlotOk(sb, slots, owner, i, n);
    assert OwnerOk(sb, slots, owner, slots[i][n]);
  }

  /** No two slots, of one file or of two, name the same block. */
  lemma NoSharing(sb: Super, slots: seq<Slots>, owner: seq<Owner>, i: nat, n: nat, j: nat, m: nat)
    requires Linked(sb, slots, owner)
    requires i < |slots| && n <= MAXFILE && slots[i][n] != 0
    requires j < |slots| && m <= MAXFILE && slots[j][m] == slots[i][n]
    ensures i == j && n == m
  {
    SlotOwned(sb, slots, owner, i, n);
    SlotOwned(sb, slots, owner, j, m);
  }

  /** The file's blocks are the first count, and the indirect block is there if one of them needs it. */
  ghost predicate Compact(s: Slots, count: nat) {
    && (forall n: nat {:trigger s[n]} :: n < MAXFILE ==> (s[n] != 0 <==> n < count))
    && (s[INDIRECT] != 0 <==> count > NDIRECT)
  }

  /** Blocks needed for so many bytes. */
  function BlocksFor(bytes: nat): nat { (bytes + BSIZE - 1) / BSIZE }

  // The free map on disk.

  predicate MapBit(sb: Super, disk: seq<Block>, b: nat)
    requires b < sb.size && Geometry(sb, disk)
  {
    BlockBit(disk[MapBlock(sb, b)], b % BPB)
  }

  function PutMapBit(sb: Super, disk: seq<Block>, b: nat, v: bool): (r: seq<Block>)
    requires b < sb.size && Geometry(sb, disk)
    ensures |r| == |disk|
  {
    var m := MapBlock(sb, b);
    disk[m := WithBlockBit(disk[m], b % BPB, v)]
  }

  ghost predicate BitOk(sb: Super, disk: seq<Block>, owner: seq<Owner>, b: nat)
    requires b < sb.size == |owner| && Geometry(sb, disk)
  {
    MapBit(sb, disk, b) <==> owner[b] != Free
  }

  /** A bit of the free map is set exactly when the block has an owner. */
  ghost predicate BitsOk(sb: Super, disk: seq<Block>, owner: seq<Owner>) {
    && Geometry(sb, disk) && |owner| == sb.size
    && forall b: nat {:trigger BitOk(sb, disk, owner, b)} :: b < sb.size ==> BitOk(sb, disk, owner, b)
  }

  lemma SameBit(b: nat, c: nat)
    requires b / BPB == c / BPB && b % BPB == c % BPB
    ensures b == c
  {
  }

  lemma PutMapBitAt(sb: Super, disk: seq<Block>, b: nat, v: bool, c: nat)
    requires b < sb.size && c < sb.size && Geometry(sb, disk)
    ensures MapBit(sb, PutMapBit(sb, disk, b, v), c) == if c == b then v else MapBit(sb, disk, c)
  {
    var m := MapBlock(sb, b);
    var disk1 := PutMapBit(sb, disk, b, v);
    assert disk1[m] == WithBlockBit(disk[m], b % BPB, v);
    if MapBlock(sb, c) == m {
      WithBlockBitAt(disk[m], b % BPB, v, c % BPB);
      if c % BPB == b % BPB {
        SameBit(b, c);
      }
    }
  }

  lemma PutMapBitOk(sb: Super, disk: seq<Block>, owner: seq<Owner>, b: nat, o: Owner)
    requires BitsOk(sb, disk, owner) && b < sb.size
    ensures BitsOk(sb, PutMapBit(sb, disk, b, o != Free), owner[b := o])
  {
    var disk1, owner1 := PutMapBit(sb, disk, b, o != Free), owner[b := o];
    forall c: nat {:trigger BitOk(sb, disk1, owner1, c)} | c < sb.size
      ensures BitOk(sb, disk1, owner1, c)
    {
      assert BitOk(sb, disk, owner, c);
      PutMapBitAt(sb, disk, b, o != Free, c);
    }
  }

  lemma BitsElsewhere(sb: Super, disk: seq<Block>, owner: seq<Owner>, b: nat, data: Block)
    requires BitsOk(sb, disk, owner) && b < |disk| && (b < sb.bmapstart || DataStart(sb) <= b)
    ensures BitsOk(sb, disk[b := data], owner)
  {
    var disk1 := disk[b := data];
    forall c: nat {:trigger BitOk(sb, disk1, owner, c)} | c < sb.size
      ensures BitOk(sb, disk1, owner, c)
    {
      assert BitOk(sb, disk, owner, c);
    }
  }

  // Indirect blocks on disk.

  ghost predicate Lists(b: Block, s: Slots) {
    forall k: nat {:trigger GetWord(b, k)} :: k < NINDIRECT ==> GetWord(b, k) == s[NDIRECT + k]
  }

  ghost predicate ListOk(disk: seq<Block>, s: Slots) {
    if s[INDIRECT] == 0 then forall n: nat {:trigger s[n]} :: NDIRECT <= n < MAXFILE ==> s[n] == 0
    else s[INDIRECT] < |disk| && Lists(disk[s[INDIRECT]], s)
  }

  ghost predicate ListsOk(disk: seq<Block>, slots: seq<Slots>) {
    forall i: nat {:trigger ListOk(disk, slots[i])} :: i < |slots| ==> ListOk(disk, slots[i])
  }

  function ZeroBlock(): Block { seq(BSIZE, _ => 0) }

  lemma ListPut(b: Block, s: Slots, k: nat, w: Word)
    requires Lists(b, s) && k < NINDIRECT
    ensures Lists(PutWord(b, k, w), s[NDIRECT + k := w])
  {
    forall j: nat | j < NINDIRECT
      ensures GetWord(PutWord(b, k, w), j) == s[NDIRECT + k := w][NDIRECT + j]
    {
      GetPut(b, k, w, j);
      assert GetWord(b, j) == s[NDIRECT + j];
    }
  }

  // Data.

  /** The data blocks of a file hold in e what they hold in d. */
  ghost predicate SameData(s: Slots, d: seq<Block>, e: seq<Block>) {
    forall n: nat {:trigger s[n]} :: n < MAXFILE && s[n] != 0 ==> s[n] < |d| == |e| && e[s[n]] == d[s[n]]
  }
}
