/** A file as a sequence of bytes, read off its blocks. */
module FileBytes {
  import opened Blocks
  import opened BlockMap

  /** The data block behind slot n. */
  function DataBlock(disk: seq<Block>, s: Slots, n: nat): Block
    requires n < MAXFILE
  {
    if s[n] < |disk| then disk[s[n]] else ZeroBlock()
  }

  /** Byte p of a file. */
  function ByteAt(disk: seq<Block>, s: Slots, p: nat): Byte
    requires p < MAXFILE * BSIZE
  {
    DataBlock(disk, s, p / BSIZE)[p % BSIZE]
  }

  /** The bytes of a file of the given size. */
  ghost function Contents(disk: seq<Block>, s: Slots, size: nat): (c: seq<Byte>)
    requires size <= MAXFILE * BSIZE
    ensures |c| == size
  {
    seq(size, p requires 0 <= p < size => ByteAt(disk, s, p))
  }

  /** src written over c from position off, which may make it longer. */
  function Splice(c: seq<Byte>, off: nat, src: seq<Byte>): (r: seq<Byte>)
    requires off <= |c|
    ensures |r| == Max(|c|, off + |src|)
  {
    c[..off] + src + (if off + |src| <= |c| then c[off + |src|..] else [])
  }

  /** Two writes in a row are one longer write. */
  lemma SpliceTwice(c: seq<Byte>, off: nat, a: seq<Byte>, b: seq<Byte>)
    requires off <= |c|
    ensures Splice(Splice(c, off, a), off + |a|, b) == Splice(c, off, a + b)
  {
  }

  lemma SpliceNothing(c: seq<Byte>, off: nat)
    requires off <= |c|
    ensures Splice(c, off, []) == c
  {
  }

  /** A run of bytes inside one block. */
  lemma WithinBlock(disk: seq<Block>, s: Slots, size: nat, bn: nat, o: nat, m: nat)
    requires size <= MAXFILE * BSIZE && BSIZE * bn + o + m <= size && 0 < m && o + m <= BSIZE
    ensures bn < MAXFILE
    ensures Contents(disk, s, size)[BSIZE * bn + o..BSIZE * bn + o + m] == DataBlock(disk, s, bn)[o..o + m]
  {
    var at := BSIZE * bn + o;
    var got, want := Contents(disk, s, size)[at..at + m], DataBlock(disk, s, bn)[o..o + m];
    forall k: nat | k < m
      ensures got[k] == want[k]
    {
      assert (at + k) / BSIZE == bn && (at + k) % BSIZE == o + k;
      assert got[k] == ByteAt(disk, s, at + k);
    }
  }

  lemma InBlock(at: nat, k: nat)
    requires at % BSIZE + k < BSIZE
    ensures (at + k) / BSIZE == at / BSIZE && (at + k) % BSIZE == at % BSIZE + k
  {
  }

  lemma BeforeEnd(p: nat, size: nat)
    requires p < size
    ensures p / BSIZE < BlocksFor(size)
  {
  }

  /** Data kept is contents kept. */
  lemma SameContents(d: seq<Block>, e: seq<Block>, s: Slots, t: Slots, size: nat)
    requires size <= MAXFILE * BSIZE && SameData(s, d, e)
    requires forall n: nat {:trigger s[n]} :: n < BlocksFor(size) ==> s[n] != 0 && t[n] == s[n]
    ensures Contents(e, t, size) == Contents(d, s, size)
  {
    forall p: nat | p < size
      ensures ByteAt(e, t, p) == ByteAt(d, s, p)
    {
      BeforeEnd(p, size);
      assert s[p / BSIZE] != 0;
    }
  }

  lemma BlockBeforeEnd(bn: nat, size: nat)
    requires BSIZE * bn < size
    ensures bn < BlocksFor(size)
  {
  }

  lemma OutsideChunk(p: nat, at: nat, m: nat)
    requires !(at <= p < at + m) && at % BSIZE + m <= BSIZE
    ensures p / BSIZE != at / BSIZE || p % BSIZE < at % BSIZE || at % BSIZE + m <= p % BSIZE
  {
  }

  /** Changing part of one block splices the change into the file's bytes. */
  lemma SpliceBlock(d: seq<Block>, e: seq<Block>, s: Slots, len: nat, at: nat, chunk: seq<Byte>)
    requires at <= len && Max(len, at + |chunk|) <= MAXFILE * BSIZE && at % BSIZE + |chunk| <= BSIZE && |chunk| > 0
    requires forall n: nat {:trigger DataBlock(e, s, n)} ::
               n < BlocksFor(len) && n < MAXFILE && n != at / BSIZE ==> DataBlock(e, s, n) == DataBlock(d, s, n)
    requires at / BSIZE < MAXFILE
    requires var b, o := DataBlock(d, s, at / BSIZE), at % BSIZE;
             DataBlock(e, s, at / BSIZE) == b[..o] + chunk + b[o + |chunk|..]
    ensures Contents(e, s, Max(len, at + |chunk|)) == Splice(Contents(d, s, len), at, chunk)
  {
    var l1, c := Max(len, at + |chunk|), Contents(d, s, len);
    var got, want := Contents(e, s, l1), Splice(c, at, chunk);
    forall p: nat | p < l1
      ensures got[p] == want[p]
    {
      assert got[p] == ByteAt(e, s, p);
      if at <= p < at + |chunk| {
        InBlock(at, p - at);
      } else {
        assert p < len && want[p] == c[p] == ByteAt(d, s, p);
        BeforeEnd(p, len);
        OutsideChunk(p, at, |chunk|);
      }
    }
  }

  /** How far a write that stays in one block pushes the end of the file. */
  lemma OneBlock(len: nat, at: nat, m: nat)
    requires at <= len && 0 < m <= BSIZE - at % BSIZE
    ensures at / BSIZE <= BlocksFor(len)
    ensures BlocksFor(Max(len, at + m)) == Max(BlocksFor(len), at / BSIZE + 1)
  {
    assert at + m <= BSIZE * (at / BSIZE + 1);
    assert BlocksFor(at + m) == at / BSIZE + 1;
  }
}
