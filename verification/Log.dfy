/** log.c over the buffer cache: transactions by group commit, and recovery. */
module Log {
  import opened Blocks
  import opened RedoLog
  import opened BufferCache

  datatype LogResult = Logged | TooBig | OutsideTrans

  datatype EndResult = Left | Committed | Halted | Panicked

  /** Log absorption: a block is listed once. */
  function Absorb(bs: seq<Word>, b: Word): seq<Word> {
    if b in bs then bs else bs + [b]
  }

  lemma TheContents(v: Disk, bs: seq<Word>) returns (vs: seq<Block>)
    requires forall i: nat :: i < |bs| ==> bs[i] < |v|
    ensures AreContents(v, bs, vs)
  {
    vs := seq(|bs|, i requires 0 <= i < |bs| => v[bs[i]]);
  }

  /** The copying loop of install_trans cannot run out of buffers when nobody else holds one: the pending
      blocks are pinned, as in commit, or nothing is, as in recovery. */
  ghost predicate Installable(bs: seq<Word>, pinned: set<nat>) {
    |pinned| < NBUF && (pinned == {} || forall i :: 0 <= i < |bs| ==> bs[i] as nat in pinned)
  }

  /** The blocks still pinned when the first k of bs are installed. */
  ghost function Unpinned(pinned: set<nat>, bs: seq<Word>, k: nat): set<nat>
    requires k <= |bs|
  {
    if k == 0 then pinned else Unpinned(pinned, bs, k - 1) - {bs[k - 1] as nat}
  }

  lemma {:induction false} UnpinnedIs(pinned: set<nat>, bs: seq<Word>, k: nat)
    requires k <= |bs|
    ensures Unpinned(pinned, bs, k) <= pinned && |Unpinned(pinned, bs, k)| <= |pinned|
    ensures forall b: Word :: b as nat in pinned ==> (b as nat in Unpinned(pinned, bs, k) <==> b !in bs[..k])
  {
    if k > 0 {
      UnpinnedIs(pinned, bs, k - 1);
      assert bs[..k] == bs[..k - 1] + [bs[k - 1]];
    }
  }

  /** The next block to install is pinned or nothing is. */
  lemma UnpinNext(pinned: set<nat>, bs: seq<Word>, k: nat)
    requires k < |bs| && Distinct(bs)
    ensures Installable(bs, pinned) ==>
              |Unpinned(pinned, bs, k)| < NBUF
              && (bs[k] as nat in Unpinned(pinned, bs, k) || Unpinned(pinned, bs, k) == {})
    ensures Unpinned(pinned, bs, k + 1) == Unpinned(pinned, bs, k) - {bs[k] as nat}
  {
    if Installable(bs, pinned) {
      UnpinnedIs(pinned, bs, k);
      assert bs[k] !in bs[..k];
    }
  }

  function SetOf(bs: seq<Word>): set<nat> {
    if bs == [] then {} else SetOf(bs[..|bs| - 1]) + {bs[|bs| - 1] as nat}
  }

  lemma {:induction false} SetOfBlocks(bs: seq<Word>)
    ensures |SetOf(bs)| <= |bs|
    ensures forall i :: 0 <= i < |bs| ==> bs[i] as nat in SetOf(bs)
    ensures forall b :: b in SetOf(bs) ==> exists i :: 0 <= i < |bs| && bs[i] == b
  {
    if bs != [] {
      SetOfBlocks(bs[..|bs| - 1]);
      forall b | b in SetOf(bs) ensures exists i :: 0 <= i < |bs| && bs[i] == b {
        if b in SetOf(bs[..|bs| - 1]) {
          var i :| 0 <= i < |bs| - 1 && bs[..|bs| - 1][i] == b;
          assert bs[i] == b;
        } else {
          assert bs[|bs| - 1] == b;
        }
      }
    }
  }

  lemma AbsorbLoggable(l: Layout, disksize: nat, bs: seq<Word>, b: Word)
    requires Loggable(l, disksize, bs) && |bs| < LOGSIZE && |bs| + 1 < l.size && b < disksize && !InLog(l, b)
    ensures Loggable(l, disksize, Absorb(bs, b))
  {}

  lemma {:induction false} InSetOf(bs: seq<Word>, b: Word)
    requires b in bs
    ensures b as nat in SetOf(bs)
  {
    if b != bs[|bs| - 1] {
      InSetOf(bs[..|bs| - 1], b);
    }
  }

  lemma AbsorbSet(bs: seq<Word>, b: Word)
    ensures SetOf(Absorb(bs, b)) == SetOf(bs) + {b as nat}
  {
    if b in bs {
      InSetOf(bs, b);
    } else {
      assert (bs + [b])[..|bs|] == bs;
    }
  }

  lemma AllUnpinned(pinned: set<nat>, bs: seq<Word>)
    requires pinned == {} || pinned == SetOf(bs)
    ensures Unpinned(pinned, bs, |bs|) == {}
  {
    UnpinnedIs(pinned, bs, |bs|);
    SetOfBlocks(bs);
    assert bs[..|bs|] == bs;
    forall b | b in pinned ensures b !in Unpinned(pinned, bs, |bs|) {
      var i :| 0 <= i < |bs| && bs[i] == b;
      assert bs[i] as nat in pinned && bs[i] in bs;
    }
  }

  lemma GetPutAll(b: Block, i: nat, w: Word)
    requires i < WORDS
    ensures forall j: nat :: j < WORDS ==> GetWord(PutWord(b, i, w), j) == if j == i then w else GetWord(b, j)
  {
    forall j: nat | j < WORDS ensures GetWord(PutWord(b, i, w), j) == if j == i then w else GetWord(b, j) {
      GetPut(b, i, w, j);
    }
  }

  /** What a commit of bs, or a part of it, has done to a disk d0: k of its writes, none of which a crash can hurt. */
  ghost predicate CommitMade(l: Layout, d0: Disk, v0: Disk, bs: seq<Word>, t0: seq<Write>, disks0: seq<Disk>,
                             t: seq<Write>, disks: seq<Disk>, k: nat, h1: Block, h2: Block, vs: seq<Block>) {
    && Header(h1, bs) && Header(h2, []) && AreContents(v0, bs, vs)
    && Wrote(t0, t, CommitWrites(l, h1, h2, bs, vs), k)
    && disks0 <= disks && CrashSafe(l, d0, disks, |t0|, bs, vs)
  }

  function Sum(uses: seq<nat>): nat { if uses == [] then 0 else Sum(uses[..|uses| - 1]) + uses[|uses| - 1] }

  /** What each of some operations may append to the log. */
  predicate Allowed(uses: seq<nat>) { forall i :: 0 <= i < |uses| ==> uses[i] <= MAXOPBLOCKS }

  /** A log with n blocks in it takes all that ops operations append, whatever that is. */
  ghost predicate AllFit(n: nat, ops: nat) {
    forall uses: seq<nat> {:trigger Sum(uses)} :: |uses| == ops && Allowed(uses) ==> n + Sum(uses) <= LOGSIZE
  }

  lemma {:induction false} SumAllowed(uses: seq<nat>)
    requires Allowed(uses)
    ensures Sum(uses) <= |uses| * MAXOPBLOCKS
    decreases |uses|
  {
    if uses != [] {
      SumAllowed(uses[..|uses| - 1]);
    }
  }

  lemma {:induction false} FullUse(ops: nat) returns (uses: seq<nat>)
    ensures |uses| == ops && Allowed(uses) && Sum(uses) == ops * MAXOPBLOCKS
  {
    uses := [];
    if ops > 0 {
      var less := FullUse(ops - 1);
      uses := less + [MAXOPBLOCKS];
      assert uses[..ops - 1] == less;
    }
  }

  lemma AllFitIff(n: nat, ops: nat)
    ensures AllFit(n, ops) <==> n + ops * MAXOPBLOCKS <= LOGSIZE
  {
    var full := FullUse(ops);
    assert AllFit(n, ops) ==> n + Sum(full) <= LOGSIZE;
    forall uses: seq<nat> | |uses| == ops && Allowed(uses)
      ensures Sum(uses) <= ops * MAXOPBLOCKS
    {
      SumAllowed(uses);
    }
  }

  class Log {
    const bc: Bcache
    const l: Layout
    var n: nat
    var block: array<Word>
    var outstanding: nat
    var committing: bool

    /** The blocks logged since the last commit. */
    ghost function Pending(): seq<Word>
      reads this`n, this`block, block
      requires n <= block.Length
    {
      block[..n]
    }

    /** The log on disk is empty and the pinned buffers are those of the blocks bs. */
    ghost predicate Ready(bs: seq<Word>)
      reads bc, bc.ide
    {
      && WellFormed(l, bc.ide.blocks) && HeadBlocks(bc.ide.blocks[l.start]) == []
      && Loggable(l, |bc.ide.blocks|, bs)
      && bc.pinned == SetOf(bs)
    }

    /** The memory side: the cache is sound and agrees with the disk on the log's own blocks. */
    ghost predicate Sound()
      reads this`n, this`block, block, bc, bc.buf, bc.ide
    {
      && bc.Valid()
      && block.Length == LOGSIZE && n <= LOGSIZE
      && |bc.ide.blocks| <= 0x1_0000_0000
      && 0 < l.size && l.start + l.size <= |bc.ide.blocks|
      && (forall b: nat {:trigger InLog(l, b)} :: InLog(l, b) ==> bc.view[b] == bc.ide.blocks[b] && b !in bc.pinned)
    }

    /** Between commits. */
    ghost predicate Valid()
      reads this`n, this`block, block, bc, bc.buf, bc.ide
    {
      Sound() && Ready(Pending())
    }

    /** The log as the kernel finds it at boot, before recovery: nothing in memory, an empty cache. */
    constructor (bc: Bcache, l: Layout)
      requires bc.Valid() && |bc.ide.blocks| <= 0x1_0000_0000
      requires 0 < l.size && l.start + l.size <= |bc.ide.blocks|
      requires forall b: nat :: InLog(l, b) ==> bc.view[b] == bc.ide.blocks[b] && b !in bc.pinned
      ensures Sound() && this.bc == bc && this.l == l && n == 0 && outstanding == 0 && !committing && fresh(block)
    {
      this.bc, this.l := bc, l;
      n, outstanding, committing := 0, 0, false;
      block := new Word[LOGSIZE](_ => 0);
    }

    /** The first k of the writes ws have been made since the trace was t0 and the view d. */
    ghost predicate Progress(t0: seq<Write>, d: Disk, ws: seq<Write>, k: nat)
      reads bc, bc.ide
    {
      Advanced(t0, d, ws, k, bc.ide.trace, bc.view)
    }

    /** Every pending block is pinned, and a buffer is left. */
    ghost predicate PendingPinned()
      requires n <= block.Length
      reads this`n, this`block, block, bc
    {
      |bc.pinned| < NBUF && forall i :: 0 <= i < n ==> block[i] as nat in bc.pinned
    }

    /** One round of write_log: cache block to log slot. */
    method LogOne(tail: nat, ghost vs: seq<Block>, ghost t0: seq<Write>, ghost d: Disk, ghost room: bool)
      returns (ok: bool)
      requires Sound() && tail < n && Loggable(l, |d|, Pending())
      requires AreContents(d, Pending(), vs)
      requires Progress(t0, d, LogWrites(l, vs), tail)
      requires room ==> Quiet(bc.buf[..]) && PendingPinned()
      modifies bc, bc.buf, bc.ide
      ensures Sound() && bc.pinned == old(bc.pinned)
      ensures Progress(t0, d, LogWrites(l, vs), if ok then tail + 1 else tail)
      ensures room ==> ok && Quiet(bc.buf[..])
    {
      var b := block[tail];
      assert b == Pending()[tail];
      LogStep(l, d, Pending(), vs, tail, t0, bc.ide.trace, bc.view);
      assert InLog(l, l.start + 1 + tail);
      ok := bc.TransferToFirst(l.start + 1 + tail, b);
    }

    /** One round of install_trans: log slot to home location. */
    method InstallOne(tail: nat, ghost bs: seq<Word>, ghost vs: seq<Block>, ghost t0: seq<Write>, ghost d: Disk,
                      ghost p0: set<nat>, ghost room: bool) returns (ok: bool)
      requires Sound() && tail < n && bs == Pending() && Loggable(l, |d|, bs)
      requires |vs| == n && l.start + l.size <= |d| && InSlots(l, d, vs)
      requires Progress(t0, d, InstallWrites(bs, vs), tail)
      requires bc.pinned == Unpinned(p0, bs, tail) && (room ==> Quiet(bc.buf[..]) && Installable(bs, p0))
      modifies bc, bc.buf, bc.ide
      ensures Sound()
      ensures ok ==> bc.pinned == Unpinned(p0, bs, tail + 1)
      ensures ok ==> Progress(t0, d, InstallWrites(bs, vs), tail + 1)
      ensures !ok ==> Progress(t0, d, InstallWrites(bs, vs), tail)
      ensures room ==> ok && Quiet(bc.buf[..])
    {
      var b := block[tail];
      assert b == bs[tail];
      UnpinNext(p0, bs, tail);
      InstallStep(l, d, bs, vs, tail, t0, bc.ide.trace, bc.view);
      assert InLog(l, l.start + 1 + tail);
      ok := bc.TransferFromFirst(b, l.start + 1 + tail);
    }

    /** write_log: the cached contents of the pending blocks go to the log slots, in order. When the
        process gets stuck the writes done are a prefix. */
    method WriteLog(ghost vs: seq<Block>, ghost room: bool) returns (ok: bool, ghost k: nat)
      requires Sound() && Loggable(l, |bc.view|, Pending())
      requires AreContents(bc.view, Pending(), vs)
      requires room ==> Quiet(bc.buf[..]) && PendingPinned()
      modifies bc, bc.buf, bc.ide
      ensures Sound() && (ok ==> k == n) && bc.pinned == old(bc.pinned)
      ensures Progress(old(bc.ide.trace), old(bc.view), LogWrites(l, vs), k)
      ensures room ==> ok && Quiet(bc.buf[..])
    {
      var tail := 0;
      ghost var t0, d := bc.ide.trace, bc.view;
      assert LogWrites(l, vs)[..0] == [];
      while tail < n
        invariant 0 <= tail <= n && Sound() && bc.pinned == old(bc.pinned)
        invariant Progress(t0, d, LogWrites(l, vs), tail)
        invariant room ==> Quiet(bc.buf[..])
      {
        assert block[tail] == Pending()[tail];
        ok := LogOne(tail, vs, t0, d, room);
        if !ok { return false, tail; }
        tail := tail + 1;
      }
      return true, n;
    }

    /** install_trans: the log slots go to the home locations, in order. */
    method InstallTrans(ghost vs: seq<Block>, ghost room: bool) returns (ok: bool, ghost k: nat)
      requires Sound() && Loggable(l, |bc.view|, Pending())
      requires |vs| == n && InSlots(l, bc.view, vs)
      requires room ==> Quiet(bc.buf[..]) && Installable(Pending(), bc.pinned)
      modifies bc, bc.buf, bc.ide
      ensures Sound() && (ok ==> k == n && bc.pinned == Unpinned(old(bc.pinned), Pending(), n))
      ensures Progress(old(bc.ide.trace), old(bc.view), InstallWrites(Pending(), vs), k)
      ensures room ==> ok && Quiet(bc.buf[..])
    {
      var tail := 0;
      ghost var t0, d, p0, bs := bc.ide.trace, bc.view, bc.pinned, Pending();
      assert InstallWrites(bs, vs)[..0] == [];
      while tail < n
        invariant 0 <= tail <= n && Sound() && bc.pinned == Unpinned(p0, bs, tail)
        invariant Progress(t0, d, InstallWrites(bs, vs), tail)
        invariant room ==> Quiet(bc.buf[..])
      {
        ok := InstallOne(tail, bs, vs, t0, d, p0, room);
        if !ok { return false, tail; }
        tail := tail + 1;
      }
      return true, n;
    }

    /** The loop of write_head: a header block for the pending blocks; words past the count keep their
        old contents. */
    method FillHead(head: Block) returns (hb: Block)
      requires n <= LOGSIZE == block.Length
      ensures Header(hb, Pending())
      ensures forall j: nat :: n < j < WORDS ==> GetWord(hb, j) == GetWord(head, j)
    {
      hb := PutWord(head, 0, n);
      GetPutAll(head, 0, n);
      var i := 0;
      while i < n
        invariant 0 <= i <= n && GetWord(hb, 0) == n
        invariant forall j: nat :: j < i ==> GetWord(hb, 1 + j) == block[j]
        invariant forall j: nat :: i < j < WORDS ==> GetWord(hb, j) == GetWord(head, j)
      {
        GetPutAll(hb, 1 + i, block[i]);
        hb := PutWord(hb, 1 + i, block[i]);
        i := i + 1;
      }
    }

    /** write_head: a header block h for the pending list reaches the disk. */
    method WriteHead() returns (ok: bool, ghost h: Block)
      requires Sound()
      modifies bc, bc.buf, bc.ide
      ensures Sound() && bc.pinned == old(bc.pinned) && Header(h, Pending())
      ensures ok ==> && bc.ide.trace == old(bc.ide.trace) + [Write(l.start, h)]
                     && bc.view == old(bc.view)[l.start := h]
                     && bc.ide.blocks == old(bc.ide.blocks)[l.start := h]
      ensures !ok ==> bc.ide.trace == old(bc.ide.trace) && bc.ide.blocks == old(bc.ide.blocks)
      ensures !ok ==> bc.view == old(bc.view)
      ensures ok && old(Quiet(bc.buf[..])) ==> Quiet(bc.buf[..])
      ensures old(Quiet(bc.buf[..]) && |bc.pinned| < NBUF) ==> ok
    {
      assert InLog(l, l.start);
      h := AHeader(Pending());
      var r := bc.BreadBlock(l.start);
      if r.Stuck? { return false, h; }
      var hb := FillHead(bc.buf[r.i].data);
      bc.WriteOut(r.i, hb);
      return true, hb;
    }

    /** The loop of read_head. */
    method CopyHead(lh: Block)
      requires HeadOk(lh) && block.Length == LOGSIZE
      modifies this`n, block
      ensures n <= LOGSIZE && Pending() == HeadBlocks(lh)
    {
      n := GetWord(lh, 0);
      var i := 0;
      while i < n
        invariant 0 <= i <= n == GetWord(lh, 0)
        invariant forall j :: 0 <= j < i ==> block[j] == GetWord(lh, 1 + j)
      {
        block[i] := GetWord(lh, 1 + i);
        i := i + 1;
      }
    }

    /** read_head: the pending list becomes the one in the header block on disk. */
    method ReadHead() returns (ok: bool)
      requires Sound() && HeadOk(bc.view[l.start])
      modifies this`n, block, bc, bc.buf
      modifies bc.ide
      ensures Sound() && bc.pinned == old(bc.pinned)
      ensures bc.ide.trace == old(bc.ide.trace) && bc.view == old(bc.view) && bc.ide.blocks == old(bc.ide.blocks)
      ensures ok ==> Pending() == HeadBlocks(bc.view[l.start])
      ensures ok && old(Quiet(bc.buf[..])) ==> Quiet(bc.buf[..])
      ensures old(Quiet(bc.buf[..]) && |bc.pinned| < NBUF) ==> ok
    {
      assert InLog(l, l.start);
      var r := bc.BreadBlock(l.start);
      if r.Stuck? { return false; }
      var lh := bc.buf[r.i].data;
      bc.Release(r.i);
      CopyHead(lh);
      return true;
    }

    /** The first half of commit: write_log, write_head. */
    method Record(ghost vs: seq<Block>, ghost room: bool) returns (ok: bool, ghost k: nat, ghost h: Block)
      requires Sound() && n > 0 && Loggable(l, |bc.view|, Pending())
      requires AreContents(bc.view, Pending(), vs)
      requires room ==> Quiet(bc.buf[..]) && PendingPinned()
      modifies bc, bc.buf, bc.ide
      ensures Sound() && bc.pinned == old(bc.pinned) && Header(h, Pending())
      ensures Wrote(old(bc.ide.trace), bc.ide.trace, RecordWrites(l, h, vs), k) && k <= n + 1
      ensures ok ==> k == n + 1 && |bc.view| == |old(bc.view)| && InSlots(l, bc.view, vs)
      ensures room ==> ok && Quiet(bc.buf[..])
    {
      ghost var t0, v0 := bc.ide.trace, bc.view;
      h := AHeader(Pending());
      ok, k := WriteLog(vs, room);
      ghost var t1 := bc.ide.trace;
      AfterLogWrites(l, v0, vs, k);
      if ok {
        ghost var v1 := bc.view;
        ok, h := WriteHead();
        HeadKeepsSlots(l, v1, vs, h);
      }
      WroteRecord(l, h, vs, t0, t1, k);
      if ok {
        k := n + 1;
      }
    }

    /** The header once all blocks are installed: empty. */
    method ClearHead() returns (ok: bool, ghost h: Block)
      requires Sound() && bc.pinned == {}
      modifies this`n, bc, bc.buf, bc.ide
      ensures Sound() && Header(h, [])
      ensures ok ==> n == 0 && Valid() && bc.ide.trace == old(bc.ide.trace) + [Write(l.start, h)]
      ensures !ok ==> bc.ide.trace == old(bc.ide.trace)
      ensures old(Quiet(bc.buf[..])) ==> ok && Quiet(bc.buf[..])
    {
      n := 0;
      assert Pending() == [];
      ok, h := WriteHead();
      HeaderBlocks(h, []);
    }

    /** The second half of commit, and recovery once the header is read: install_trans, n = 0,
        write_head. */
    method Finish(ghost vs: seq<Block>, ghost room: bool) returns (ok: bool, ghost k: nat, ghost h: Block)
      requires Sound() && Loggable(l, |bc.view|, Pending())
      requires |vs| == n && InSlots(l, bc.view, vs)
      requires Unpinned(bc.pinned, Pending(), n) == {}
      requires room ==> Quiet(bc.buf[..]) && Installable(Pending(), bc.pinned)
      modifies this`n, bc, bc.buf, bc.ide
      ensures Sound() && Header(h, [])
      ensures Wrote(old(bc.ide.trace), bc.ide.trace, FinishWrites(l, h, old(Pending()), vs), k)
      ensures k <= old(n) + 1 && (ok ==> k == old(n) + 1 && n == 0 && Valid())
      ensures room ==> ok && Quiet(bc.buf[..])
    {
      ghost var t0, bs, m := bc.ide.trace, Pending(), n;
      h := AHeader([]);
      ok, k := InstallTrans(vs, room);
      ghost var t1 := bc.ide.trace;
      WroteFinish(l, h, bs, vs, t0, t1, k);
      if !ok { return; }
      ok, h := ClearHead();
      WroteFinish(l, h, bs, vs, t0, t1, k);
      if ok { k := m + 1; }
    }

    /** commit of the pending blocks bs, of which there are some. */
    method CommitSome(ghost bs: seq<Word>, ghost vs: seq<Block>, ghost room: bool)
      returns (ok: bool, ghost k: nat, ghost h1: Block, ghost h2: Block)
      requires Sound() && n > 0 && bs == Pending() && Loggable(l, |bc.view|, bs)
      requires Unpinned(bc.pinned, bs, n) == {}
      requires AreContents(bc.view, bs, vs)
      requires room ==> Quiet(bc.buf[..]) && PendingPinned() && Installable(bs, bc.pinned)
      modifies this`n, bc, bc.buf, bc.ide
      ensures Sound() && Header(h1, bs) && Header(h2, [])
      ensures Wrote(old(bc.ide.trace), bc.ide.trace, CommitWrites(l, h1, h2, bs, vs), k)
      ensures ok ==> Valid() && n == 0 && k == 2 * |bs| + 2
      ensures room ==> ok && Quiet(bc.buf[..])
    {
      ghost var t0 := bc.ide.trace;
      h2 := AHeader([]);
      ok, k, h1 := Record(vs, room);
      assert Pending() == bs;
      ghost var t1 := bc.ide.trace;
      if !ok {
        WroteFirstHalf(l, h1, h2, bs, vs, t0, t1, k);
        return;
      }
      ghost var j;
      ok, j, h2 := Finish(vs, room);
      assert Wrote(t1, bc.ide.trace, FinishWrites(l, h2, bs, vs), j);
      WroteSecondHalf(l, h1, h2, bs, vs, t0, t1, bc.ide.trace, j);
      k := k + j;
    }

    /** The body of commit. */
    method CommitAll() returns (ok: bool, ghost k: nat, ghost h1: Block, ghost h2: Block, ghost vs: seq<Block>)
      requires Valid()
      modifies this`n, bc, bc.buf, bc.ide
      ensures Sound() && Header(h1, old(Pending())) && Header(h2, [])
      ensures AreContents(old(bc.view), old(Pending()), vs)
      ensures Wrote(old(bc.ide.trace), bc.ide.trace, CommitWrites(l, h1, h2, old(Pending()), vs), k)
      ensures ok ==> Valid() && n == 0 && k == |CommitWrites(l, h1, h2, old(Pending()), vs)|
      ensures old(Quiet(bc.buf[..])) && old(n) < NBUF ==> ok && Quiet(bc.buf[..])
    {
      ghost var bs := Pending();
      h2 := AHeader([]);
      if n == 0 {
        ok, k, h1, vs := true, 0, h2, [];
      } else {
        ghost var v := bc.view;
        vs := TheContents(v, bs);
        SetOfBlocks(bs);
        AllUnpinned(bc.pinned, bs);
        assert forall i: nat :: i < n ==> block[i] == bs[i];
        ok, k, h1, h2 := CommitSome(bs, vs, Quiet(bc.buf[..]) && n < NBUF);
        CommitLength(l, h1, h2, bs, vs);
      }
    }

    /** commit: the disk receives exactly the writes of CommitWrites, or a prefix of them when the
        process gets stuck; which it cannot when nobody else holds buffers. Whatever state of the disk a
        crash meanwhile leaves, recovery finds the transaction undone or done. */
    method Commit() returns (ok: bool, ghost k: nat, ghost h1: Block, ghost h2: Block, ghost vs: seq<Block>)
      requires Valid()
      modifies this`n, bc, bc.buf, bc.ide
      ensures Sound() && |vs| == |old(Pending())|
      ensures CommitMade(l, old(bc.ide.blocks), old(bc.view), old(Pending()), old(bc.ide.trace), old(bc.ide.disks),
                         bc.ide.trace, bc.ide.disks, k, h1, h2, vs)
      ensures ok ==> Valid() && n == 0 && k == |CommitWrites(l, h1, h2, old(Pending()), vs)|
      ensures old(Quiet(bc.buf[..])) && old(n) < NBUF ==> ok && Quiet(bc.buf[..])
    {
      ghost var disks, trace := bc.ide.disks, bc.ide.trace;
      ok, k, h1, h2, vs := CommitAll();
      HistoryGrows(disks, trace, bc.ide.disks, bc.ide.trace);
      assert bc.ide.trace[..|trace|] == trace;
      CommitCrashSafe(l, bc.ide.disks, bc.ide.trace, |trace|, h1, h2, old(Pending()), vs, k);
    }

    /** The body of recover_from_log. */
    method RecoverAll() returns (ok: bool, ghost k: nat, ghost h: Block)
      requires Sound() && bc.view == bc.ide.blocks && bc.pinned == {}
      requires WellFormed(l, bc.ide.blocks)
      modifies this`n, block, bc, bc.buf, bc.ide
      ensures Sound() && Header(h, [])
      ensures Wrote(old(bc.ide.trace), bc.ide.trace, RecoverWrites(l, old(bc.ide.blocks), h), k)
      ensures ok ==> k == |RecoverWrites(l, old(bc.ide.blocks), h)| && Valid() && n == 0
      ensures old(Quiet(bc.buf[..])) ==> ok && Quiet(bc.buf[..])
    {
      k := 0;
      h := AHeader([]);
      ghost var d := bc.ide.blocks;
      ghost var room := Quiet(bc.buf[..]);
      ok := ReadHead();
      if !ok { return; }
      AllUnpinned({}, Pending());
      ok, k, h := Finish(Slots(l, d), room);
    }

    /** recover_from_log, on a freshly booted cache: exactly the writes of RecoverWrites, or a prefix; a crash
        meanwhile loses nothing that the log held. */
    method Recover() returns (ok: bool, ghost k: nat, ghost h: Block)
      requires Sound() && bc.view == bc.ide.blocks && bc.pinned == {}
      requires WellFormed(l, bc.ide.blocks)
      modifies this`n, block, bc, bc.buf, bc.ide
      ensures Sound() && Header(h, [])
      ensures Wrote(old(bc.ide.trace), bc.ide.trace, RecoverWrites(l, old(bc.ide.blocks), h), k)
      ensures ok ==> k == |RecoverWrites(l, old(bc.ide.blocks), h)| && Valid() && n == 0
      ensures old(Quiet(bc.buf[..])) ==> ok && Quiet(bc.buf[..])
      ensures old(bc.ide.disks) <= bc.ide.disks
      ensures RecoveryCrashSafe(l, old(bc.ide.blocks), bc.ide.disks, |old(bc.ide.trace)|)
    {
      ghost var disks, trace := bc.ide.disks, bc.ide.trace;
      ok, k, h := RecoverAll();
      HistoryGrows(disks, trace, bc.ide.disks, bc.ide.trace);
      assert bc.ide.trace[..|trace|] == trace;
      RecoverCrashSafe(l, bc.ide.disks, bc.ide.trace, |trace|, h, k);
    }

    /** The loop of log_write. */
    method Append(b: Word)
      requires n < LOGSIZE == block.Length
      modifies this`n, block
      ensures n <= LOGSIZE && Pending() == Absorb(old(Pending()), b)
    {
      ghost var bs := Pending();
      var j := 0;
      while j < n && block[j] != b
        invariant 0 <= j <= n && forall k :: 0 <= k < j ==> block[k] != b
      {
        j := j + 1;
      }
      block[j] := b;
      if j == n { n := n + 1; }
      assert j < |bs| ==> bs[j] == b;
    }

    /** log_write past its checks. */
    method Enlist(i: nat)
      requires Valid() && i < NBUF && bc.buf[i].valid && bc.buf[i].locked && !InLog(l, bc.buf[i].blockno)
      requires bc.buf[i].blockno < |bc.ide.blocks| && n < LOGSIZE && n + 1 < l.size
      modifies this`n, block, bc, bc.buf
      ensures Valid() && bc.view == old(bc.view)
      ensures bc.buf[i].blockno < 0x1_0000_0000 && Pending() == Absorb(old(Pending()), bc.buf[i].blockno)
      ensures bc.pinned == old(bc.pinned) + {bc.buf[i].blockno}
      ensures bc.buf[..] == old(bc.buf[..])[i := old(bc.buf[i]).(dirty := true)]
    {
      var b := bc.buf[i].blockno;
      ghost var bs := Pending();
      Append(b);
      bc.Pin(i);
      AbsorbLoggable(l, |bc.ide.blocks|, bs, b);
      AbsorbSet(bs, b);
      assert Ready(Absorb(bs, b));
    }

    /** log_write: the held buffer's block joins the pending list, once, and is pinned. */
    method LogWrite(i: nat) returns (r: LogResult)
      requires Valid() && i < NBUF && bc.buf[i].valid && bc.buf[i].locked && !InLog(l, bc.buf[i].blockno)
      modifies this`n, block, bc, bc.buf
      ensures Valid() && bc.view == old(bc.view)
      ensures r.TooBig? <==> old(n) >= LOGSIZE || old(n) + 1 >= l.size
      ensures r.OutsideTrans? <==> !r.TooBig? && outstanding < 1
      ensures r.Logged? ==> && bc.buf[i].blockno < 0x1_0000_0000
                            && Pending() == Absorb(old(Pending()), bc.buf[i].blockno)
                            && bc.pinned == old(bc.pinned) + {bc.buf[i].blockno}
                            && bc.buf[..] == old(bc.buf[..])[i := old(bc.buf[i]).(dirty := true)]
      ensures !r.Logged? ==> Pending() == old(Pending()) && bc.pinned == old(bc.pinned) && bc.buf[..] == old(bc.buf[..])
    {
      if n >= LOGSIZE || n + 1 >= l.size { return TooBig; }
      if outstanding < 1 { return OutsideTrans; }
      EntryAt(bc.buf[..], bc.where, bc.pinned, bc.ide.blocks, i);
      Enlist(i);
      return Logged;
    }

    /** One pass of begin_op's loop: false when the caller has to sleep. */
    method BeginOp() returns (admitted: bool)
      modifies this`outstanding
      ensures admitted <==> !committing && AllFit(n, old(outstanding) + 1)
      ensures outstanding == if admitted then old(outstanding) + 1 else old(outstanding)
    {
      AllFitIff(n, outstanding + 1);
      if committing {
        return false;
      } else if n + (outstanding + 1) * MAXOPBLOCKS > LOGSIZE {
        return false;
      } else {
        outstanding := outstanding + 1;
        return true;
      }
    }

    /** The end of end_op for the last operation: while it commits no operation begins. */
    method CommitAlone() returns (ok: bool, ghost k: nat, ghost h1: Block, ghost h2: Block, ghost vs: seq<Block>)
      requires Valid()
      modifies this`committing, this`n, bc, bc.buf, bc.ide
      ensures Sound() && committing == !ok && |vs| == |old(Pending())|
      ensures CommitMade(l, old(bc.ide.blocks), old(bc.view), old(Pending()), old(bc.ide.trace), old(bc.ide.disks),
                         bc.ide.trace, bc.ide.disks, k, h1, h2, vs)
      ensures ok ==> Valid() && n == 0 && k == |CommitWrites(l, h1, h2, old(Pending()), vs)|
      ensures old(Quiet(bc.buf[..])) && old(n) < NBUF ==> ok
    {
      committing := true;
      ok, k, h1, h2, vs := Commit();
      if ok {
        committing := false;
      }
    }

    /** end_op: the last operation out commits everything logged since the last commit. */
    method EndOp() returns (r: EndResult, ghost k: nat, ghost h1: Block, ghost h2: Block, ghost vs: seq<Block>)
      requires Valid() && outstanding > 0
      modifies this`outstanding, this`committing, this`n, bc, bc.buf, bc.ide
      ensures outstanding == old(outstanding) - 1
      ensures r.Panicked? <==> old(committing)
      ensures r.Left? <==> !old(committing) && old(outstanding) > 1
      ensures r.Panicked? || r.Left? ==> Valid() && committing == old(committing) && Pending() == old(Pending())
                                         && bc.view == old(bc.view) && bc.ide.trace == old(bc.ide.trace)
      ensures r.Committed? ==> Valid() && !committing && n == 0
      ensures r.Committed? || r.Halted? ==>
                && |vs| == |old(Pending())|
                && CommitMade(l, old(bc.ide.blocks), old(bc.view), old(Pending()), old(bc.ide.trace), old(bc.ide.disks),
                              bc.ide.trace, bc.ide.disks, k, h1, h2, vs)
                && (r.Committed? ==> k == |CommitWrites(l, h1, h2, old(Pending()), vs)|)
      ensures r.Halted? ==> Sound() && committing && !(old(Quiet(bc.buf[..])) && old(n) < NBUF)
    {
      outstanding := outstanding - 1;
      if committing {
        r, k, h1, h2, vs := Panicked, 0, bc.ide.blocks[l.start], bc.ide.blocks[l.start], [];
      } else if outstanding == 0 {
        var ok;
        ok, k, h1, h2, vs := CommitAlone();
        r := if ok then Committed else Halted;
      } else {
        r, k, h1, h2, vs := Left, 0, bc.ide.blocks[l.start], bc.ide.blocks[l.start], [];
      }
    }
  }
}
