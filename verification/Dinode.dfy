/** The 64 bytes an inode takes on disk: four shorts, the size and the block numbers, IPB inodes to a block. */
module Dinode {
  import opened Blocks
  import opened BlockMap

  type Short = x: int | -0x8000 <= x < 0x8000

  datatype Node = Node(typ: Short, major: Short, minor: Short, nlink: Short, size: Word, addrs: Addrs)

  const NODEWORDS := 16

  function Low(x: Short): (u: int) ensures 0 <= u < 0x1_0000 { if x < 0 then x + 0x1_0000 else x }

  function Signed(u: int): Short requires 0 <= u < 0x1_0000 { if u < 0x8000 then u else u - 0x1_0000 }

  /** Two shorts side by side in memory, read as one little-endian word. */
  function Pair(x: Short, y: Short): Word { Low(x) + 0x1_0000 * Low(y) }

  function NodeWords(d: Node): (ws: seq<Word>)
    ensures |ws| == NODEWORDS
  {
    [Pair(d.typ, d.major), Pair(d.minor, d.nlink), d.size] + d.addrs
  }

  function FromWords(ws: seq<Word>): Node
    requires |ws| == NODEWORDS
  {
    Node(Signed(ws[0] % 0x1_0000), Signed(ws[0] / 0x1_0000), Signed(ws[1] % 0x1_0000), Signed(ws[1] / 0x1_0000),
         ws[2], ws[3..])
  }

  lemma PairSplits(x: Short, y: Short)
    ensures Signed(Pair(x, y) % 0x1_0000) == x && Signed(Pair(x, y) / 0x1_0000) == y
  {
  }

  lemma WordsRoundTrip(d: Node)
    ensures FromWords(NodeWords(d)) == d
  {
    PairSplits(d.typ, d.major);
    PairSplits(d.minor, d.nlink);
    assert NodeWords(d)[3..] == d.addrs;
  }

  /** Words at, at + 1, ... of a block. */
  function Words(b: Block, at: nat, n: nat): (ws: seq<Word>)
    requires at + n <= WORDS
    ensures |ws| == n
    ensures forall j: nat {:trigger ws[j]} :: j < n ==> ws[j] == GetWord(b, at + j)
  {
    if n == 0 then [] else Words(b, at, n - 1) + [GetWord(b, at + n - 1)]
  }

  function PutWords(b: Block, at: nat, ws: seq<Word>): (r: Block)
    requires at + |ws| <= WORDS
  {
    if ws == [] then b else PutWord(PutWords(b, at, ws[..|ws| - 1]), at + |ws| - 1, ws[|ws| - 1])
  }

  lemma {:induction false} PutWordsAt(b: Block, at: nat, ws: seq<Word>, j: nat)
    requires at + |ws| <= WORDS && j < WORDS
    ensures GetWord(PutWords(b, at, ws), j) == if at <= j < at + |ws| then ws[j - at] else GetWord(b, j)
  {
    if ws != [] {
      var n := |ws| - 1;
      PutWordsAt(b, at, ws[..n], j);
      GetPut(PutWords(b, at, ws[..n]), at + n, ws[n], j);
    }
  }

  /** The k-th inode of a block. */
  function GetNode(b: Block, k: nat): Node
    requires k < IPB
  {
    FromWords(Words(b, NODEWORDS * k, NODEWORDS))
  }

  function PutNode(b: Block, k: nat, d: Node): Block
    requires k < IPB
  {
    PutWords(b, NODEWORDS * k, NodeWords(d))
  }

  /** Writing an inode into its block: that inode reads back whole, its seven neighbours are as they were. */
  lemma PutNodeAt(b: Block, k: nat, d: Node, m: nat)
    requires k < IPB && m < IPB
    ensures GetNode(PutNode(b, k, d), m) == if m == k then d else GetNode(b, m)
  {
    var got := Words(PutNode(b, k, d), NODEWORDS * m, NODEWORDS);
    forall j: nat | j < NODEWORDS
      ensures got[j] == if m == k then NodeWords(d)[j] else GetWord(b, NODEWORDS * m + j)
    {
      PutWordsAt(b, NODEWORDS * k, NodeWords(d), NODEWORDS * m + j);
    }
    assert got == if m == k then NodeWords(d) else Words(b, NODEWORDS * m, NODEWORDS);
    WordsRoundTrip(d);
  }
}
