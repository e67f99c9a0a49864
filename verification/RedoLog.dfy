/** The physical redo log as a discipline on disk writes.

    A run of the disk is the list of block writes it received; a crash keeps a prefix of that list.
    `Logical` reads a disk through its log header, which is what recovery makes of it, and every
    crash property is a statement about how single writes move `Logical`. */
module RedoLog {
  import opened Blocks

  const MAXOPBLOCKS := 10

  const LOGSIZE := MAXOPBLOCKS * 3

  type Disk = seq<Block>

  datatype Write = Write(bn: nat, data: Block)

  /** log.start and log.size: the header block, then the data slots. */
  datatype Layout = Layout(start: nat, size: nat)

  function Poke(d: Disk, w: Write): Disk {
    if w.bn < |d| then d[w.bn := w.data] else d
  }

  function Apply(d: Disk, ws: seq<Write>): (r: Disk)
    ensures |r| == |d|
  {
    if ws == [] then d else Poke(Apply(d, ws[..|ws| - 1]), ws[|ws| - 1])
  }

  // ---------------------------------------------------------------- histories of disks

  /** Write i of the trace took the disk from disks[i] to disks[i + 1]. */
  ghost predicate Stepped(disks: seq<Disk>, trace: seq<Write>, i: nat) {
    i < |trace| && i + 1 < |disks| && disks[i + 1] == Poke(disks[i], trace[i])
  }

  /** disks are all the states the disk went through, each of which a crash may leave behind. */
  ghost predicate History(disks: seq<Disk>, trace: seq<Write>) {
    && |disks| == |trace| + 1
    && forall i: nat {:trigger Stepped(disks, trace, i)} :: i < |trace| ==> Stepped(disks, trace, i)
  }

  /** Between two points of a history the disk is changed by exactly the writes in between. */
  lemma {:induction false} Replay(disks: seq<Disk>, trace: seq<Write>, a: nat, b: nat)
    requires History(disks, trace) && a <= b <= |trace|
    ensures disks[b] == Apply(disks[a], trace[a..b])
  {
    if a < b {
      Replay(disks, trace, a, b - 1);
      var step := Stepped(disks, trace, b - 1);
      assert trace[a..b][..b - a - 1] == trace[a..b - 1];
    }
  }

  /** A longer history of the same disk begins with the shorter one. */
  lemma HistoryGrows(disks: seq<Disk>, trace: seq<Write>, disks1: seq<Disk>, trace1: seq<Write>)
    requires History(disks, trace) && History(disks1, trace1) && trace <= trace1 && disks[0] == disks1[0]
    ensures disks <= disks1
  {
    forall i: nat | i < |disks| ensures disks[i] == disks1[i] {
      Replay(disks, trace, 0, i);
      Replay(disks1, trace1, 0, i);
      assert trace1[0..i] == trace[0..i];
    }
  }

  // ---------------------------------------------------------------- the header block

  predicate HeadOk(b: Block) {
    GetWord(b, 0) <= LOGSIZE
  }

  /** What read_head decodes. */
  function HeadBlocks(b: Block): seq<Word>
    requires HeadOk(b)
  {
    seq(GetWord(b, 0), i requires 0 <= i < GetWord(b, 0) => GetWord(b, 1 + i))
  }

  /** h is a header block naming bs, whatever the words past the count. */
  predicate Header(h: Block, bs: seq<Word>) {
    && |bs| <= LOGSIZE && GetWord(h, 0) == |bs|
    && forall i: nat :: i < |bs| ==> GetWord(h, 1 + i) == bs[i]
  }

  lemma HeaderBlocks(h: Block, bs: seq<Word>)
    requires Header(h, bs)
    ensures HeadOk(h) && HeadBlocks(h) == bs
  {}

  /** Every block list that fits has a header block naming it. */
  lemma {:induction false} AHeader(bs: seq<Word>) returns (h: Block)
    requires |bs| <= LOGSIZE
    ensures Header(h, bs)
  {
    if bs == [] {
      h := seq(BSIZE, _ => 0);
    } else {
      var n := |bs|;
      var g := AHeader(bs[..n - 1]);
      h := PutWord(PutWord(g, n, bs[n - 1]), 0, n);
      forall j: nat | j < WORDS
        ensures GetWord(h, j) == if j == 0 then n else if j == n then bs[n - 1] else GetWord(g, j)
      {
        GetPut(g, n, bs[n - 1], j);
        GetPut(PutWord(g, n, bs[n - 1]), 0, n, j);
      }
      forall i: nat | i < n - 1 ensures GetWord(h, 1 + i) == bs[i] {
        assert GetWord(g, 1 + i) == bs[..n - 1][i];
      }
    }
  }

  // ---------------------------------------------------------------- reading a disk through its log

  predicate InLog(l: Layout, b: int) {
    l.start <= b < l.start + l.size
  }

  predicate Distinct(bs: seq<Word>) {
    forall i, j :: 0 <= i < j < |bs| ==> bs[i] != bs[j]
  }

  /** A block list the log can hold: it fits, names each block once, and only home blocks. */
  predicate Loggable(l: Layout, disksize: nat, bs: seq<Word>) {
    && |bs| <= LOGSIZE && |bs| < l.size
    && Distinct(bs)
    && forall i :: 0 <= i < |bs| ==> bs[i] < disksize && !InLog(l, bs[i])
  }

  predicate WellFormed(l: Layout, d: Disk) {
    && 0 < l.size && l.start + l.size <= |d|
    && HeadOk(d[l.start])
    && Loggable(l, |d|, HeadBlocks(d[l.start]))
  }

  predicate Home(l: Layout, d: Disk, b: nat) {
    b < |d| && !InLog(l, b)
  }

  /** The contents of home block b once the log is taken into account. */
  ghost function Logical(l: Layout, d: Disk, b: nat): Block
    requires WellFormed(l, d) && Home(l, d, b)
  {
    var bs := HeadBlocks(d[l.start]);
    if i: nat :| i < |bs| && bs[i] == b then d[l.start + 1 + i] else d[b]
  }

  lemma LogicalNamed(l: Layout, d: Disk, i: nat)
    requires WellFormed(l, d) && i < |HeadBlocks(d[l.start])|
    ensures Logical(l, d, HeadBlocks(d[l.start])[i]) == d[l.start + 1 + i]
  {
    var bs := HeadBlocks(d[l.start]);
    var j: nat :| j < |bs| && bs[j] == bs[i] && Logical(l, d, bs[i]) == d[l.start + 1 + j];
    assert j == i;
  }

  ghost predicate SameLogical(l: Layout, d: Disk, e: Disk) {
    && WellFormed(l, d) && WellFormed(l, e) && |d| == |e|
    && forall b: nat :: Home(l, d, b) ==> Logical(l, e, b) == Logical(l, d, b)
  }

  /** e reads as d with the values vs stored in blocks bs. */
  ghost predicate LogicalUpdate(l: Layout, d: Disk, e: Disk, bs: seq<Word>, vs: seq<Block>)
    requires |vs| == |bs|
  {
    && WellFormed(l, d) && WellFormed(l, e) && |d| == |e|
    && (forall i :: 0 <= i < |bs| && Home(l, d, bs[i]) ==> Logical(l, e, bs[i]) == vs[i])
    && (forall b: nat :: Home(l, d, b) && b !in bs ==> Logical(l, e, b) == Logical(l, d, b))
  }

  // ---------------------------------------------------------------- the write lists of log.c

  function LogWrites(l: Layout, vs: seq<Block>): seq<Write> {
    seq(|vs|, i requires 0 <= i < |vs| => Write(l.start + 1 + i, vs[i]))
  }

  function InstallWrites(bs: seq<Word>, vs: seq<Block>): seq<Write>
    requires |vs| == |bs|
  {
    seq(|bs|, i requires 0 <= i < |bs| => Write(bs[i], vs[i]))
  }

  /** vs are the contents of the blocks bs. */
  ghost predicate AreContents(v: Disk, bs: seq<Word>, vs: seq<Block>) {
    |vs| == |bs| && forall i: nat :: i < |bs| ==> bs[i] < |v| && vs[i] == v[bs[i]]
  }

  /** write_log, write_head: the data slots, then the header h1. */
  function RecordWrites(l: Layout, h1: Block, vs: seq<Block>): seq<Write> {
    LogWrites(l, vs) + [Write(l.start, h1)]
  }

  /** install_trans, write_head: the home locations, then the cleared header h2. */
  function FinishWrites(l: Layout, h2: Block, bs: seq<Word>, vs: seq<Block>): seq<Write>
    requires |bs| == |vs|
  {
    InstallWrites(bs, vs) + [Write(l.start, h2)]
  }

  /** commit(): both, or nothing when nothing is logged. */
  function CommitWrites(l: Layout, h1: Block, h2: Block, bs: seq<Word>, vs: seq<Block>): seq<Write>
    requires |vs| == |bs|
  {
    if bs == [] then [] else RecordWrites(l, h1, vs) + FinishWrites(l, h2, bs, vs)
  }

  function Slots(l: Layout, d: Disk): seq<Block>
    requires WellFormed(l, d)
  {
    var n := |HeadBlocks(d[l.start])|;
    d[l.start + 1..l.start + 1 + n]
  }

  /** recover_from_log(): what the header on disk names, then the cleared header h. */
  function RecoverWrites(l: Layout, d: Disk, h: Block): seq<Write>
    requires WellFormed(l, d)
  {
    FinishWrites(l, h, HeadBlocks(d[l.start]), Slots(l, d))
  }

  /** A trace that grew from t0 by the first k of the writes ws. */
  ghost predicate Wrote(t0: seq<Write>, t: seq<Write>, ws: seq<Write>, k: nat) {
    k <= |ws| && t == t0 + ws[..k]
  }

  lemma WroteRecord(l: Layout, h1: Block, vs: seq<Block>, t0: seq<Write>, t: seq<Write>, k: nat)
    requires Wrote(t0, t, LogWrites(l, vs), k)
    ensures Wrote(t0, t, RecordWrites(l, h1, vs), k)
    ensures k == |vs| ==> Wrote(t0, t + [Write(l.start, h1)], RecordWrites(l, h1, vs), |vs| + 1)
  {
    assert RecordWrites(l, h1, vs)[..k] == LogWrites(l, vs)[..k];
  }

  lemma WroteFinish(l: Layout, h2: Block, bs: seq<Word>, vs: seq<Block>, t0: seq<Write>, t: seq<Write>, k: nat)
    requires |bs| == |vs| && Wrote(t0, t, InstallWrites(bs, vs), k)
    ensures Wrote(t0, t, FinishWrites(l, h2, bs, vs), k)
    ensures k == |bs| ==> Wrote(t0, t + [Write(l.start, h2)], FinishWrites(l, h2, bs, vs), |bs| + 1)
  {
    assert FinishWrites(l, h2, bs, vs)[..k] == InstallWrites(bs, vs)[..k];
  }

  lemma WroteFirstHalf(l: Layout, h1: Block, h2: Block, bs: seq<Word>, vs: seq<Block>,
                       t0: seq<Write>, t: seq<Write>, k: nat)
    requires |vs| == |bs| && bs != [] && Wrote(t0, t, RecordWrites(l, h1, vs), k)
    ensures Wrote(t0, t, CommitWrites(l, h1, h2, bs, vs), k)
  {
    assert CommitWrites(l, h1, h2, bs, vs)[..k] == RecordWrites(l, h1, vs)[..k];
  }

  lemma WroteSecondHalf(l: Layout, h1: Block, h2: Block, bs: seq<Word>, vs: seq<Block>,
                        t0: seq<Write>, t1: seq<Write>, t2: seq<Write>, k: nat)
    requires |vs| == |bs| && bs != [] && Wrote(t0, t1, RecordWrites(l, h1, vs), |bs| + 1)
    requires Wrote(t1, t2, FinishWrites(l, h2, bs, vs), k)
    ensures Wrote(t0, t2, CommitWrites(l, h1, h2, bs, vs), |bs| + 1 + k)
    ensures |CommitWrites(l, h1, h2, bs, vs)| == 2 * |bs| + 2
  {
    var a, b := RecordWrites(l, h1, vs), FinishWrites(l, h2, bs, vs);
    assert (a + b)[..|bs| + 1 + k] == a[..|bs| + 1] + b[..k];
  }

  lemma CommitLength(l: Layout, h1: Block, h2: Block, bs: seq<Word>, vs: seq<Block>)
    requires |vs| == |bs| && bs != []
    ensures |CommitWrites(l, h1, h2, bs, vs)| == 2 * |bs| + 2
  {
  }

  // ---------------------------------------------------------------- prefixes of write lists

  lemma {:induction false} ApplyConcat(d: Disk, a: seq<Write>, b: seq<Write>)
    ensures Apply(d, a + b) == Apply(Apply(d, a), b)
  {
    if b == [] {
      assert a + b == a;
    } else {
      assert (a + b)[..|a + b| - 1] == a + b[..|b| - 1];
      ApplyConcat(d, a, b[..|b| - 1]);
    }
  }

  lemma ApplyNext(d: Disk, ws: seq<Write>, k: nat)
    requires k < |ws|
    ensures ws[..k + 1] == ws[..k] + [ws[k]]
    ensures Apply(d, ws[..k + 1]) == Poke(Apply(d, ws[..k]), ws[k])
  {
    assert ws[..k + 1][..k] == ws[..k];
  }

  /** After k log writes exactly the first k data slots have changed. */
  lemma {:induction false} ApplyLogWrites(l: Layout, d: Disk, vs: seq<Block>, k: nat)
    requires k <= |vs| && l.start + 1 + |vs| <= |d|
    ensures var c := Apply(d, LogWrites(l, vs)[..k]);
            forall j: nat :: j < |d| ==>
              c[j] == if l.start + 1 <= j < l.start + 1 + k then vs[j - l.start - 1] else d[j]
  {
    if k == 0 {
      assert LogWrites(l, vs)[..0] == [];
    } else {
      ApplyLogWrites(l, d, vs, k - 1);
      var ws := LogWrites(l, vs);
      assert ws[..k][..k - 1] == ws[..k - 1];
      assert Apply(d, ws[..k]) == Poke(Apply(d, ws[..k - 1]), Write(l.start + k, vs[k - 1]));
    }
  }

  /** The log slots hold vs. */
  ghost predicate InSlots(l: Layout, d: Disk, vs: seq<Block>) {
    l.start + 1 + |vs| <= |d| && forall i: nat {:trigger vs[i]} :: i < |vs| ==> d[l.start + 1 + i] == vs[i]
  }

  lemma HeadKeepsSlots(l: Layout, d: Disk, vs: seq<Block>, h: Block)
    requires InSlots(l, d, vs)
    ensures InSlots(l, d[l.start := h], vs)
  {
  }

  /** The log writes in the end fill the slots. */
  lemma AfterLogWrites(l: Layout, d: Disk, vs: seq<Block>, k: nat)
    requires k <= |vs| && l.start + 1 + |vs| <= |d|
    ensures k == |vs| ==> InSlots(l, Apply(d, LogWrites(l, vs)[..k]), vs)
  {
    ApplyLogWrites(l, d, vs, k);
  }

  /** From the trace t0 and the contents d, the first k of the writes ws led to the trace t and the contents v. */
  ghost predicate Advanced(t0: seq<Write>, d: Disk, ws: seq<Write>, k: nat, t: seq<Write>, v: Disk) {
    k <= |ws| && t == t0 + ws[..k] && v == Apply(d, ws[..k])
  }

  lemma Advance(t0: seq<Write>, d: Disk, ws: seq<Write>, k: nat, t: seq<Write>, v: Disk)
    requires Advanced(t0, d, ws, k, t, v) && k < |ws| && ws[k].bn < |d|
    ensures Advanced(t0, d, ws, k + 1, t + [ws[k]], v[ws[k].bn := ws[k].data])
  {
    ApplyNext(d, ws, k);
  }

  /** One more log write, seen from the loop of write_log. */
  lemma LogStep(l: Layout, d: Disk, bs: seq<Word>, vs: seq<Block>, k: nat, t0: seq<Write>, t: seq<Write>, v: Disk)
    requires k < |bs| < l.size && l.start + l.size <= |d| && Loggable(l, |d|, bs) && AreContents(d, bs, vs)
    requires Advanced(t0, d, LogWrites(l, vs), k, t, v)
    ensures v[bs[k]] == vs[k]
    ensures Advanced(t0, d, LogWrites(l, vs), k + 1, t + [Write(l.start + 1 + k, vs[k])], v[l.start + 1 + k := vs[k]])
  {
    ApplyLogWrites(l, d, vs, k);
    Advance(t0, d, LogWrites(l, vs), k, t, v);
  }

  /** After k install writes exactly the first k home blocks hold their new values. */
  lemma {:induction false} ApplyInstallWrites(d: Disk, bs: seq<Word>, vs: seq<Block>, k: nat)
    requires k <= |bs| == |vs| && Distinct(bs)
    requires forall i :: 0 <= i < |bs| ==> bs[i] < |d|
    ensures var c := Apply(d, InstallWrites(bs, vs)[..k]);
            && (forall i: nat :: i < k ==> c[bs[i]] == vs[i])
            && (forall j: nat :: j < |d| && j !in bs[..k] ==> c[j] == d[j])
  {
    if k > 0 {
      ApplyInstallWrites(d, bs, vs, k - 1);
      assert InstallWrites(bs, vs)[..k][..k - 1] == InstallWrites(bs, vs)[..k - 1];
      assert bs[..k] == bs[..k - 1] + [bs[k - 1]];
    }
  }

  /** One more install write, seen from the loop of install_trans. */
  lemma InstallStep(l: Layout, d: Disk, bs: seq<Word>, vs: seq<Block>, k: nat, t0: seq<Write>, t: seq<Write>, v: Disk)
    requires k < |bs| == |vs| && Loggable(l, |d|, bs) && l.start + l.size <= |d| && InSlots(l, d, vs)
    requires Advanced(t0, d, InstallWrites(bs, vs), k, t, v)
    ensures l.start + 1 + k < |v| && v[l.start + 1 + k] == vs[k]
    ensures Advanced(t0, d, InstallWrites(bs, vs), k + 1, t + [Write(bs[k], vs[k])], v[bs[k] := vs[k]])
  {
    ApplyInstallWrites(d, bs, vs, k);
    Advance(t0, d, InstallWrites(bs, vs), k, t, v);
    var slot := l.start + 1 + k;
    assert InLog(l, slot);
    assert slot !in bs[..k];
  }

  // ---------------------------------------------------------------- recovery

  /** Two disks with the same log read the same in a block that the log names or that is the same in both. */
  lemma SameLog(l: Layout, d: Disk, c: Disk, b: nat)
    requires WellFormed(l, d) && |c| == |d| && c[l.start] == d[l.start]
    requires forall j: nat {:trigger InLog(l, j)} :: InLog(l, j) ==> c[j] == d[j]
    requires Home(l, d, b) && (b in HeadBlocks(d[l.start]) || c[b] == d[b])
    ensures Logical(l, c, b) == Logical(l, d, b)
  {
    var bs := HeadBlocks(d[l.start]);
    if b in bs {
      var i: nat :| i < |bs| && bs[i] == b;
      assert InLog(l, l.start + 1 + i);
      LogicalNamed(l, d, i);
      LogicalNamed(l, c, i);
    }
  }

  /** A disk that differs only in home blocks named by its header reads the same through the log. */
  lemma NamedHomesDoNotMatter(l: Layout, d: Disk, c: Disk)
    requires WellFormed(l, d) && |c| == |d|
    requires forall j: nat :: j < |d| && j !in HeadBlocks(d[l.start]) ==> c[j] == d[j]
    ensures SameLogical(l, d, c)
  {
    forall j: nat {:trigger InLog(l, j)} | InLog(l, j)
      ensures c[j] == d[j]
    {
      assert j !in HeadBlocks(d[l.start]);
    }
    assert InLog(l, l.start);
    forall b: nat | Home(l, d, b)
      ensures Logical(l, c, b) == Logical(l, d, b)
    {
      SameLog(l, d, c, b);
    }
  }

  /** Clearing the header of a fully installed disk does not change what it reads as. */
  lemma ClearInstalled(l: Layout, d: Disk, h: Block)
    requires WellFormed(l, d) && Header(h, [])
    requires var bs := HeadBlocks(d[l.start]); forall i :: 0 <= i < |bs| ==> d[bs[i]] == d[l.start + 1 + i]
    ensures var c := Poke(d, Write(l.start, h)); SameLogical(l, d, c) && HeadBlocks(c[l.start]) == []
  {
    HeaderBlocks(h, []);
    var c := Poke(d, Write(l.start, h));
    assert WellFormed(l, c);
    forall b: nat | Home(l, d, b) ensures Logical(l, c, b) == Logical(l, d, b) {
      assert c[b] == d[b];
    }
  }

  lemma InstalledSlots(l: Layout, d: Disk, c: Disk)
    requires WellFormed(l, d) && |c| == |d|
    requires var bs := HeadBlocks(d[l.start]);
             && (forall i: nat :: i < |bs| ==> c[bs[i]] == Slots(l, d)[i])
             && (forall j: nat :: j < |d| && j !in bs ==> c[j] == d[j])
    ensures c[l.start] == d[l.start]
    ensures var bs := HeadBlocks(d[l.start]); forall i :: 0 <= i < |bs| ==> c[bs[i]] == c[l.start + 1 + i]
  {
    forall j | InLog(l, j) ensures c[j] == d[j] {}
    var bs := HeadBlocks(d[l.start]);
    forall i | 0 <= i < |bs| ensures c[bs[i]] == c[l.start + 1 + i] {
      assert InLog(l, l.start + 1 + i);
    }
  }

  /** Recovery before its last write. */
  lemma RecoveryUnfinished(l: Layout, d: Disk, h: Block, k: nat)
    requires WellFormed(l, d) && k <= |HeadBlocks(d[l.start])|
    ensures SameLogical(l, d, Apply(d, RecoverWrites(l, d, h)[..k]))
  {
    var bs, vs := HeadBlocks(d[l.start]), Slots(l, d);
    ApplyInstallWrites(d, bs, vs, k);
    assert RecoverWrites(l, d, h)[..k] == InstallWrites(bs, vs)[..k];
    NamedHomesDoNotMatter(l, d, Apply(d, InstallWrites(bs, vs)[..k]));
  }

  /** Recovery after its last write, which clears the header. */
  lemma RecoveryFinished(l: Layout, d: Disk, h: Block)
    requires WellFormed(l, d) && Header(h, [])
    ensures var c := Apply(d, RecoverWrites(l, d, h)); SameLogical(l, d, c) && HeadBlocks(c[l.start]) == []
  {
    var bs, vs := HeadBlocks(d[l.start]), Slots(l, d);
    var n, ws := |bs|, InstallWrites(bs, vs);
    ApplyInstallWrites(d, bs, vs, n);
    assert bs[..n] == bs && ws[..n] == ws;
    var c := Apply(d, ws);
    NamedHomesDoNotMatter(l, d, c);
    InstalledSlots(l, d, c);
    ClearInstalled(l, c, h);
    assert RecoverWrites(l, d, h)[..n] == ws;
  }

  /** Every crash point of recovery leaves a recoverable disk with the same logical contents, and
      finished recovery has an empty header, so that the home blocks are the logical contents. */
  lemma RecoveryPrefix(l: Layout, d: Disk, h: Block, k: nat)
    requires WellFormed(l, d) && Header(h, []) && k <= |RecoverWrites(l, d, h)|
    ensures var c := Apply(d, RecoverWrites(l, d, h)[..k]);
            && SameLogical(l, d, c)
            && (k == |RecoverWrites(l, d, h)| ==> HeadBlocks(c[l.start]) == [])
  {
    if k <= |HeadBlocks(d[l.start])| {
      RecoveryUnfinished(l, d, h, k);
    } else {
      assert RecoverWrites(l, d, h)[..k] == RecoverWrites(l, d, h);
      RecoveryFinished(l, d, h);
    }
  }

  /** A run of recovery that dies after k writes, having meant to clear the header to h. */
  datatype Attempt = Attempt(k: nat, h: Block)

  predicate Attempts(runs: seq<Attempt>) {
    forall i :: 0 <= i < |runs| ==> Header(runs[i].h, [])
  }

  /** Recovery interrupted as runs[0] says, restarted, interrupted as runs[1] says, ..., and finally
      left to run to its end. */
  ghost function Recover(l: Layout, d: Disk, runs: seq<Attempt>, h: Block): Disk
    requires WellFormed(l, d) && Attempts(runs) && Header(h, [])
    decreases |runs|
  {
    if runs == [] then Apply(d, RecoverWrites(l, d, h))
    else
      var ws := RecoverWrites(l, d, runs[0].h);
      var k := if runs[0].k <= |ws| then runs[0].k else |ws|;
      RecoveryPrefix(l, d, runs[0].h, k);
      Recover(l, Apply(d, ws[..k]), runs[1..], h)
  }

  /** Recovery is idempotent and immune to its own crashes. */
  lemma {:induction false} RecoverKeepsLogical(l: Layout, d: Disk, runs: seq<Attempt>, h: Block)
    requires WellFormed(l, d) && Attempts(runs) && Header(h, [])
    ensures var r := Recover(l, d, runs, h);
            && SameLogical(l, d, r)
            && HeadBlocks(r[l.start]) == []
            && forall b: nat :: Home(l, d, b) ==> r[b] == Logical(l, d, b)
    decreases |runs|
  {
    if runs == [] {
      var ws := RecoverWrites(l, d, h);
      RecoveryPrefix(l, d, h, |ws|);
      assert ws[..|ws|] == ws;
    } else {
      var ws := RecoverWrites(l, d, runs[0].h);
      var k := if runs[0].k <= |ws| then runs[0].k else |ws|;
      RecoveryPrefix(l, d, runs[0].h, k);
      RecoverKeepsLogical(l, Apply(d, ws[..k]), runs[1..], h);
    }
  }

  // ---------------------------------------------------------------- commit

  predicate CanCommit(l: Layout, d: Disk, bs: seq<Word>, vs: seq<Block>) {
    && |vs| == |bs|
    && WellFormed(l, d) && HeadBlocks(d[l.start]) == []
    && Loggable(l, |d|, bs)
  }

  /** Until the header write, a committing disk reads as before. */
  lemma CommitBeforeHead(l: Layout, d: Disk, h1: Block, h2: Block, bs: seq<Word>, vs: seq<Block>, k: nat)
    requires CanCommit(l, d, bs, vs) && k <= |bs| && bs != []
    ensures SameLogical(l, d, Apply(d, CommitWrites(l, h1, h2, bs, vs)[..k]))
  {
    assert CommitWrites(l, h1, h2, bs, vs)[..k] == LogWrites(l, vs)[..k];
    ApplyLogWrites(l, d, vs, k);
  }

  /** A disk whose header names bs and whose slots hold vs reads as d updated with vs at bs. */
  lemma HeadedDisk(l: Layout, d: Disk, c: Disk, bs: seq<Word>, vs: seq<Block>)
    requires CanCommit(l, d, bs, vs) && |c| == |d|
    requires HeadOk(c[l.start]) && HeadBlocks(c[l.start]) == bs
    requires forall i: nat :: i < |bs| ==> c[l.start + 1 + i] == vs[i]
    requires forall b: nat :: Home(l, d, b) ==> c[b] == d[b]
    ensures LogicalUpdate(l, d, c, bs, vs) && Slots(l, c) == vs
  {
    assert WellFormed(l, c);
    forall b: nat | Home(l, d, b) && b !in bs ensures Logical(l, c, b) == Logical(l, d, b) {
      assert c[b] == d[b];
    }
    forall i: nat | i < |bs| ensures Logical(l, c, bs[i]) == vs[i] {
      LogicalNamed(l, c, i);
    }
  }

  /** The header write alone moves the logical contents from the old state to the new one. */
  lemma CommitAtHead(l: Layout, d: Disk, h1: Block, h2: Block, bs: seq<Word>, vs: seq<Block>)
    requires CanCommit(l, d, bs, vs) && bs != [] && Header(h1, bs)
    ensures var c := Apply(d, CommitWrites(l, h1, h2, bs, vs)[..|bs| + 1]);
            LogicalUpdate(l, d, c, bs, vs) && c[l.start] == h1 && Slots(l, c) == vs
  {
    var n, w := |bs|, Write(l.start, h1);
    assert CommitWrites(l, h1, h2, bs, vs)[..n + 1] == LogWrites(l, vs)[..n] + [w];
    assert (LogWrites(l, vs)[..n] + [w])[..n] == LogWrites(l, vs)[..n];
    ApplyLogWrites(l, d, vs, n);
    var c := Apply(d, CommitWrites(l, h1, h2, bs, vs)[..n + 1]);
    assert forall i: nat :: i < n ==> c[l.start + 1 + i] == vs[i];
    HeaderBlocks(h1, bs);
    HeadedDisk(l, d, c, bs, vs);
  }

  /** A write list whose tail recovers the disk reached after n writes keeps that disk's contents. */
  lemma WritesThenRecovery(l: Layout, d: Disk, h: Block, ws: seq<Write>, n: nat, k: nat)
    requires n <= k <= |ws| && WellFormed(l, Apply(d, ws[..n])) && Header(h, [])
    requires ws == ws[..n] + RecoverWrites(l, Apply(d, ws[..n]), h)
    ensures SameLogical(l, Apply(d, ws[..n]), Apply(d, ws[..k]))
    ensures k == |ws| ==> HeadBlocks(Apply(d, ws[..k])[l.start]) == []
  {
    var c := Apply(d, ws[..n]);
    var tail := RecoverWrites(l, c, h);
    assert ws[..k] == ws[..n] + tail[..k - n];
    ApplyConcat(d, ws[..n], tail[..k - n]);
    RecoveryPrefix(l, c, h, k - n);
  }

  lemma UpdateThenSame(l: Layout, d: Disk, c: Disk, e: Disk, bs: seq<Word>, vs: seq<Block>)
    requires |vs| == |bs| && LogicalUpdate(l, d, c, bs, vs) && SameLogical(l, c, e)
    ensures LogicalUpdate(l, d, e, bs, vs)
  {
    forall b: nat | Home(l, d, b) ensures Home(l, c, b) {}
  }

  /** What follows the header write is recovery of the disk the header write produced; crash points
      there show the new state, whatever remains of the installation. */
  lemma CommitAfterHead(l: Layout, d: Disk, h1: Block, h2: Block, bs: seq<Word>, vs: seq<Block>, k: nat)
    requires CanCommit(l, d, bs, vs) && bs != [] && Header(h1, bs) && Header(h2, [])
    requires |bs| < k <= |CommitWrites(l, h1, h2, bs, vs)|
    ensures var ws := CommitWrites(l, h1, h2, bs, vs);
            var c := Apply(d, ws[..k]);
            LogicalUpdate(l, d, c, bs, vs) && (k == |ws| ==> HeadBlocks(c[l.start]) == [])
  {
    var ws := CommitWrites(l, h1, h2, bs, vs);
    var n := |bs| + 1;
    CommitAtHead(l, d, h1, h2, bs, vs);
    HeaderBlocks(h1, bs);
    assert ws == ws[..n] + FinishWrites(l, h2, bs, vs);
    WritesThenRecovery(l, d, h2, ws, n, k);
    UpdateThenSame(l, d, Apply(d, ws[..n]), Apply(d, ws[..k]), bs, vs);
  }

  /** Where the k-th crash point of a commit stands. */
  lemma CommitPrefix(l: Layout, d: Disk, h1: Block, h2: Block, bs: seq<Word>, vs: seq<Block>, k: nat)
    requires CanCommit(l, d, bs, vs) && Header(h1, bs) && Header(h2, [])
    requires k <= |CommitWrites(l, h1, h2, bs, vs)|
    ensures var ws := CommitWrites(l, h1, h2, bs, vs);
            var c := Apply(d, ws[..k]);
            && (k <= |bs| ==> SameLogical(l, d, c))
            && (k > |bs| || bs == [] ==> LogicalUpdate(l, d, c, bs, vs))
            && (k == |ws| ==> WellFormed(l, c) && HeadBlocks(c[l.start]) == [])
  {
    if bs == [] {
      assert CommitWrites(l, h1, h2, bs, vs)[..k] == [];
    } else if k <= |bs| {
      CommitBeforeHead(l, d, h1, h2, bs, vs, k);
    } else {
      CommitAfterHead(l, d, h1, h2, bs, vs, k);
    }
  }

  /** r is a recovered disk: the home blocks of d throughout, or d with vs in bs throughout. */
  ghost predicate OldOrNew(l: Layout, d: Disk, r: Disk, bs: seq<Word>, vs: seq<Block>, isNew: bool)
    requires |vs| == |bs|
  {
    && |r| == |d| && WellFormed(l, r) && HeadBlocks(r[l.start]) == []
    && (forall i :: 0 <= i < |bs| && isNew ==> bs[i] < |r| && r[bs[i]] == vs[i])
    && (forall b: nat :: Home(l, d, b) && !(isNew && b in bs) ==> r[b] == d[b])
  }

  /** Crash atomicity: a commit cut after any number k of its writes, and then recovered through any
      number of further crashes, leaves every home block at its old contents when the header had not
      reached the disk and all of them at their new contents otherwise. */
  lemma CrashAtomicity(l: Layout, d: Disk, h1: Block, h2: Block, bs: seq<Word>, vs: seq<Block>, k: nat,
                       runs: seq<Attempt>, h: Block)
    requires CanCommit(l, d, bs, vs) && Header(h1, bs) && Header(h2, [])
    requires k <= |CommitWrites(l, h1, h2, bs, vs)| && Attempts(runs) && Header(h, [])
    ensures var c := Apply(d, CommitWrites(l, h1, h2, bs, vs)[..k]);
            && WellFormed(l, c)
            && OldOrNew(l, d, Recover(l, c, runs, h), bs, vs, k > |bs|)
  {
    CommitPrefix(l, d, h1, h2, bs, vs, k);
    var c := Apply(d, CommitWrites(l, h1, h2, bs, vs)[..k]);
    RecoverKeepsLogical(l, c, runs, h);
    forall i | 0 <= i < |bs| ensures Home(l, d, bs[i]) {}
  }

  lemma StateAfter(disks: seq<Disk>, trace: seq<Write>, a: nat, ws: seq<Write>, k: nat, c: nat)
    requires History(disks, trace) && a <= c <= |trace| && Wrote(trace[..a], trace, ws, k)
    ensures c - a <= |ws| && disks[c] == Apply(disks[a], ws[..c - a])
  {
    Replay(disks, trace, a, c);
    var t := trace[..a] + ws[..k];
    forall i | 0 <= i < c - a ensures trace[a..c][i] == ws[i] {
      assert trace[a..c][i] == t[a + i] == ws[..k][i];
    }
    assert trace[a..c] == ws[..c - a];
  }

  /** Crash atomicity over the states of a real disk: in every state it went through since the commit
      began, recovery yields the old contents throughout or the new contents throughout. */
  lemma CommitCrashStates(l: Layout, disks: seq<Disk>, trace: seq<Write>, a: nat, h1: Block, h2: Block,
                          bs: seq<Word>, vs: seq<Block>, k: nat, c: nat, runs: seq<Attempt>, h: Block)
    requires History(disks, trace) && a <= |trace| && CanCommit(l, disks[a], bs, vs) && Header(h1, bs) && Header(h2, [])
    requires Wrote(trace[..a], trace, CommitWrites(l, h1, h2, bs, vs), k)
    requires a <= c <= |trace| && Attempts(runs) && Header(h, [])
    ensures WellFormed(l, disks[c])
    ensures OldOrNew(l, disks[a], Recover(l, disks[c], runs, h), bs, vs, c - a > |bs|)
  {
    assert c - a <= |CommitWrites(l, h1, h2, bs, vs)|
           && disks[c] == Apply(disks[a], CommitWrites(l, h1, h2, bs, vs)[..c - a]) by {
      StateAfter(disks, trace, a, CommitWrites(l, h1, h2, bs, vs), k, c);
    }
    CrashAtomicity(l, disks[a], h1, h2, bs, vs, c - a, runs, h);
  }

  /** A crash after c writes of the disk's history, and any recoveries, leave the commit of bs undone or done. */
  ghost predicate CrashAt(l: Layout, d: Disk, disks: seq<Disk>, a: nat, c: nat, bs: seq<Word>, vs: seq<Block>,
                          runs: seq<Attempt>, h: Block)
    requires |vs| == |bs| && a <= c < |disks| && Attempts(runs) && Header(h, [])
  {
    WellFormed(l, disks[c]) && OldOrNew(l, d, Recover(l, disks[c], runs, h), bs, vs, c - a > |bs|)
  }

  /** So it is at every point of the history from write a on. */
  ghost predicate CrashSafe(l: Layout, d: Disk, disks: seq<Disk>, a: nat, bs: seq<Word>, vs: seq<Block>)
    requires |vs| == |bs|
  {
    forall c: nat, runs: seq<Attempt>, h: Block {:trigger CrashAt(l, d, disks, a, c, bs, vs, runs, h)} ::
      a <= c < |disks| && Attempts(runs) && Header(h, []) ==> CrashAt(l, d, disks, a, c, bs, vs, runs, h)
  }

  lemma CommitCrashSafe(l: Layout, disks: seq<Disk>, trace: seq<Write>, a: nat, h1: Block, h2: Block,
                        bs: seq<Word>, vs: seq<Block>, k: nat)
    requires History(disks, trace) && a <= |trace| && CanCommit(l, disks[a], bs, vs) && Header(h1, bs) && Header(h2, [])
    requires Wrote(trace[..a], trace, CommitWrites(l, h1, h2, bs, vs), k)
    ensures CrashSafe(l, disks[a], disks, a, bs, vs)
  {
    forall c: nat, runs: seq<Attempt>, h: Block {:trigger CrashAt(l, disks[a], disks, a, c, bs, vs, runs, h)}
      | a <= c < |disks| && Attempts(runs) && Header(h, [])
      ensures CrashAt(l, disks[a], disks, a, c, bs, vs, runs, h)
    {
      CommitCrashStates(l, disks, trace, a, h1, h2, bs, vs, k, c, runs, h);
    }
  }

  /** A crash while recovery runs, and any recoveries after it, lose nothing. */
  ghost predicate RecoveryCrashAt(l: Layout, d: Disk, disks: seq<Disk>, c: nat, runs: seq<Attempt>, h: Block)
    requires WellFormed(l, d) && c < |disks| && Attempts(runs) && Header(h, [])
  {
    && WellFormed(l, disks[c])
    && var r := Recover(l, disks[c], runs, h);
       && WellFormed(l, r) && |r| == |d| && HeadBlocks(r[l.start]) == []
       && forall b: nat :: Home(l, d, b) ==> r[b] == Logical(l, d, b)
  }

  ghost predicate RecoveryCrashSafe(l: Layout, d: Disk, disks: seq<Disk>, a: nat)
    requires WellFormed(l, d)
  {
    forall c: nat, runs: seq<Attempt>, h: Block {:trigger RecoveryCrashAt(l, d, disks, c, runs, h)} ::
      a <= c < |disks| && Attempts(runs) && Header(h, []) ==> RecoveryCrashAt(l, d, disks, c, runs, h)
  }

  lemma RecoverCrashState(l: Layout, disks: seq<Disk>, trace: seq<Write>, a: nat, h0: Block, k: nat, c: nat,
                          runs: seq<Attempt>, h: Block)
    requires History(disks, trace) && a <= |trace| && WellFormed(l, disks[a]) && Header(h0, [])
    requires Wrote(trace[..a], trace, RecoverWrites(l, disks[a], h0), k)
    requires a <= c <= |trace| && Attempts(runs) && Header(h, [])
    ensures RecoveryCrashAt(l, disks[a], disks, c, runs, h)
  {
    var d := disks[a];
    StateAfter(disks, trace, a, RecoverWrites(l, d, h0), k, c);
    RecoveryPrefix(l, d, h0, c - a);
    RecoverKeepsLogical(l, disks[c], runs, h);
  }

  lemma RecoverCrashSafe(l: Layout, disks: seq<Disk>, trace: seq<Write>, a: nat, h0: Block, k: nat)
    requires History(disks, trace) && a <= |trace| && WellFormed(l, disks[a]) && Header(h0, [])
    requires Wrote(trace[..a], trace, RecoverWrites(l, disks[a], h0), k)
    ensures RecoveryCrashSafe(l, disks[a], disks, a)
  {
    forall c: nat, runs: seq<Attempt>, h: Block {:trigger RecoveryCrashAt(l, disks[a], disks, c, runs, h)}
      | a <= c < |disks| && Attempts(runs) && Header(h, [])
      ensures RecoveryCrashAt(l, disks[a], disks, c, runs, h)
    {
      RecoverCrashState(l, disks, trace, a, h0, k, c, runs, h);
    }
  }
}
