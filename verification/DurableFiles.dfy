/** What crashes make of a write to a file: its slices are transactions, so the file ends between two of them. */
module DurableFiles {
  import opened Blocks
  import Bitmap
  import opened RedoLog
  import opened Transactions
  import opened BlockMap
  import opened Dinode
  import opened FileBytes
  import opened Files
  import opened OpenFile

  // A disk holds one list of files, and the log's own blocks have no part in it.

  /** e agrees with d on every block behind the log. */
  ghost predicate SameBehind(sb: Super, d: seq<Block>, e: seq<Block>) {
    |e| == |d| && forall b: nat {:trigger e[b]} {:trigger d[b]} :: b < |d| && sb.inodestart <= b ==> e[b] == d[b]
  }

  lemma BitsBehind(sb: Super, d: seq<Block>, e: seq<Block>, owner: seq<Owner>)
    requires BitsOk(sb, d, owner) && SameBehind(sb, d, e)
    ensures BitsOk(sb, e, owner)
  {
    forall b: nat {:trigger BitOk(sb, e, owner, b)} | b < sb.size
      ensures BitOk(sb, e, owner, b)
    {
      assert BitOk(sb, d, owner, b);
      MapBlockIn(sb, d, b);
    }
  }

  lemma SlotsBehind(sb: Super, d: seq<Block>, e: seq<Block>, slots: seq<Slots>, owner: seq<Owner>)
    requires Maps(sb, d, slots, owner) && SameBehind(sb, d, e)
    ensures ListsOk(e, slots) && AllSameData(slots, d, e)
  {
    forall j: nat {:trigger ListOk(e, slots[j])} {:trigger SameData(slots[j], d, e)} | j < |slots|
      ensures ListOk(e, slots[j]) && SameData(slots[j], d, e)
    {
      assert ListOk(d, slots[j]);
      forall n: nat | n <= MAXFILE && slots[j][n] != 0
        ensures slots[j][n] < |d| && e[slots[j][n]] == d[slots[j][n]]
      {
        SlotOwned(sb, slots, owner, j, n);
      }
    }
  }

  lemma NodesBehind(sb: Super, d: seq<Block>, e: seq<Block>, nodes: seq<Node>)
    requires NodesOk(sb, d, nodes) && SameBehind(sb, d, e)
    ensures NodesOk(sb, e, nodes)
  {
    forall i: nat {:trigger NodeOk(sb, e, nodes, i)} | i < |nodes|
      ensures NodeOk(sb, e, nodes, i)
    {
      assert NodeOk(sb, d, nodes, i);
      InodeBlockIn(sb, d, i);
    }
  }

  lemma FilesBehind(d: seq<Block>, e: seq<Block>, files: seq<seq<Byte>>, slots: seq<Slots>, nodes: seq<Node>)
    requires FilesAre(files, d, slots, nodes) && FilesOk(nodes, slots) && AllSameData(slots, d, e)
    ensures FilesAre(files, e, slots, nodes)
  {
    forall i: nat {:trigger FileIs(files, e, slots, nodes, i)} | i < |files|
      ensures FileIs(files, e, slots, nodes, i)
    {
      assert FileIs(files, d, slots, nodes, i) && FileOk(nodes[i], slots[i]) && SameData(slots[i], d, e);
      SameContents(d, e, slots[i], slots[i], nodes[i].size);
    }
  }

  /** What is on the disk behind the log is all there is to the files. */
  lemma HoldsBehind(sb: Super, d: seq<Block>, e: seq<Block>, files: seq<seq<Byte>>)
    requires Holds(sb, d, files) && SameBehind(sb, d, e)
    ensures Holds(sb, e, files)
  {
    var slots, owner, nodes :| HoldsBy(sb, d, files, slots, owner, nodes);
    BitsBehind(sb, d, e, owner);
    SlotsBehind(sb, d, e, slots, owner);
    NodesBehind(sb, d, e, nodes);
    FilesBehind(d, e, files, slots, nodes);
    assert HoldsBy(sb, e, files, slots, owner, nodes);
  }

  lemma SlotsOnce(d: seq<Block>, s: Slots, t: Slots)
    requires ListOk(d, s) && ListOk(d, t) && AddrsOf(s) == AddrsOf(t)
    ensures s == t
  {
    assert AddrsOf(s)[NDIRECT] == s[INDIRECT] && AddrsOf(t)[NDIRECT] == t[INDIRECT];
    forall n: nat | n <= MAXFILE
      ensures s[n] == t[n]
    {
      if n < NDIRECT {
        assert AddrsOf(s)[n] == s[n] && AddrsOf(t)[n] == t[n];
      } else if n < MAXFILE && s[INDIRECT] != 0 {
        assert GetWord(d[s[INDIRECT]], n - NDIRECT) == s[n] == t[n];
      }
    }
  }

  /** A disk does not hold two different lists of files. */
  lemma HoldsOnce(sb: Super, d: seq<Block>, f: seq<seq<Byte>>, g: seq<seq<Byte>>)
    requires Holds(sb, d, f) && Holds(sb, d, g)
    ensures f == g
  {
    var s, o, m :| HoldsBy(sb, d, f, s, o, m);
    var t, p, n :| HoldsBy(sb, d, g, t, p, n);
    forall i: nat | i < sb.ninodes
      ensures f[i] == g[i]
    {
      assert NodeOk(sb, d, m, i) && NodeOk(sb, d, n, i);
      assert FileOk(m[i], s[i]) && FileOk(n[i], t[i]);
      assert ListOk(d, s[i]) && ListOk(d, t[i]);
      SlotsOnce(d, s[i], t[i]);
      assert FileIs(f, d, s, m, i) && FileIs(g, d, t, n, i);
    }
  }

  // Runs that commit a given list of transactions.

  /** If action a starts a commit, it commits the next transaction of the list. */
  predicate Serves(txns: seq<Update>, s: Sys, a: Action) {
    a.End? && |s.ops| == 1 && s.bs != [] ==> |s.txns| < |txns| && s.cache == txns[|s.txns|]
  }

  predicate ServesAt(c: Config, s: Sys, run: seq<Action>, txns: seq<Update>, j: nat)
    requires j < |run|
  {
    Run(c, s, run[..j]).Ok? ==> Serves(txns, Run(c, s, run[..j]).s, run[j])
  }

  /** The run commits nothing but the transactions txns, in order; it may crash and boot anywhere. */
  ghost predicate Follows(c: Config, s: Sys, run: seq<Action>, txns: seq<Update>) {
    forall j: nat {:trigger ServesAt(c, s, run, txns, j)} :: j < |run| ==> ServesAt(c, s, run, txns, j)
  }

  /** So far the list has been followed. */
  predicate Ahead(s: Sys, txns: seq<Update>) {
    && s.txns <= txns
    && (s.phase.Commit? && s.phase.k <= |s.bs| ==> |s.txns| < |txns| && s.cache == txns[|s.txns|])
  }

  lemma AheadStep(c: Config, s: Sys, a: Action, txns: seq<Update>)
    requires Ahead(s, txns) && Serves(txns, s, a) && Step(c, s, a).Ok?
    ensures Ahead(Step(c, s, a).s, txns)
  {
  }

  lemma {:induction false} AheadRun(c: Config, d: Disk, h: Block, run: seq<Action>, txns: seq<Update>)
    requires Follows(c, Start(d, h), run, txns)
    ensures var o := Run(c, Start(d, h), run); o.Ok? ==> Ahead(o.s, txns)
  {
    if run != [] {
      var n := |run| - 1;
      forall j: nat {:trigger ServesAt(c, Start(d, h), run[..n], txns, j)} | j < n
        ensures ServesAt(c, Start(d, h), run[..n], txns, j)
      {
        assert ServesAt(c, Start(d, h), run, txns, j);
        assert run[..n][..j] == run[..j];
      }
      AheadRun(c, d, h, run[..n], txns);
      var p := Run(c, Start(d, h), run[..n]);
      if p.Ok? && Step(c, p.s, run[n]).Ok? {
        assert ServesAt(c, Start(d, h), run, txns, n);
        AheadStep(c, p.s, run[n], txns);
      }
    }
  }

  // Crashes during a write.

  lemma PartlyBehind(sb: Super, d: seq<Block>, e: seq<Block>, files: seq<seq<Byte>>, i: nat, off: nat, part: seq<Byte>)
    requires Partly(sb, d, files, i, off, part) && SameBehind(sb, d, e)
    ensures Partly(sb, e, files, i, off, part)
  {
    var g :| Holds(sb, d, g) && Spliced(files, g, i, off, part);
    HoldsBehind(sb, d, e, g);
  }

  /** Behind the log the recovered disk is what the transactions that had their header on disk make it. */
  lemma RecoveredBehind(c: Config, d: Disk, h: Block, v0: Disk, run: seq<Action>, runs: seq<Attempt>, h1: Block,
                        sb: Super, txns: seq<Update>)
    requires Reads(c.l, d, v0) && Header(h, []) && Attempts(runs) && Header(h1, [])
    requires c.l.start + c.l.size <= sb.inodestart && Follows(c, Start(d, h), run, txns)
    ensures var o := Run(c, Start(d, h), run);
            o.Ok? ==> WellFormed(c.l, o.s.disk) && |o.s.txns| <= |txns|
                      && SameBehind(sb, Durable(v0, txns[..|o.s.txns|]), Recover(c.l, o.s.disk, runs, h1))
  {
    var o := Run(c, Start(d, h), run);
    if o.Ok? {
      RunsAreDurable(c, d, h, v0, run);
      AheadRun(c, d, h, run, txns);
      assert o.s.txns == txns[..|o.s.txns|];
      var v, r := Durable(v0, o.s.txns), Recover(c.l, o.s.disk, runs, h1);
      RecoverKeepsLogical(c.l, o.s.disk, runs, h1);
      forall b: nat | b < |v| && sb.inodestart <= b
        ensures r[b] == v[b]
      {
        assert Home(c.l, o.s.disk, b);
      }
    }
  }

  /**
   * If nobody else commits during a write, the recovered disk holds the files with as many slices written as
   * transactions had their header on disk.
   */
  lemma CrashDuringLoneWrite(c: Config, d: Disk, h: Block, v0: Disk, run: seq<Action>, runs: seq<Attempt>, h1: Block,
                             sb: Super, files: seq<seq<Byte>>, i: nat, off: nat, src: seq<Byte>, txns: seq<Update>)
    requires Reads(c.l, d, v0) && Header(h, []) && Attempts(runs) && Header(h1, [])
    requires c.l.start + c.l.size <= sb.inodestart
    requires Sliced(sb, v0, files, i, off, src, txns) && Follows(c, Start(d, h), run, txns)
    ensures var o := Run(c, Start(d, h), run);
            o.Ok? ==> WellFormed(c.l, o.s.disk) && |o.s.txns| <= |txns|
                      && Partly(sb, Recover(c.l, o.s.disk, runs, h1), files, i, off, Upto(src, |o.s.txns|))
  {
    var o := Run(c, Start(d, h), run);
    if o.Ok? {
      RecoveredBehind(c, d, h, v0, run, runs, h1, sb, txns);
      var k := |o.s.txns|;
      assert SliceOk(sb, v0, files, i, off, src, txns, k);
      PartlyBehind(sb, Durable(v0, txns[..k]), Recover(c.l, o.s.disk, runs, h1), files, i, off, Upto(src, k));
    }
  }

  // Group commit: a transaction is what several operations have logged.

  /** What one operation after another logs, taken together. */
  function Merged(us: seq<Update>): Update { if us == [] then map[] else Merged(us[..|us| - 1]) + us[|us| - 1] }

  lemma OverlayTwice(d: Disk, u: Update, w: Update)
    ensures Overlay(Overlay(d, u), w) == Overlay(d, u + w)
  {
  }

  lemma {:induction false} MergedDurable(d: Disk, us: seq<Update>)
    ensures Overlay(d, Merged(us)) == Durable(d, us)
    decreases |us|
  {
    if us == [] {
      assert Overlay(d, Merged(us)) == d;
    } else {
      MergedDurable(d, us[..|us| - 1]);
      OverlayTwice(d, Merged(us[..|us| - 1]), us[|us| - 1]);
    }
  }

  lemma {:induction false} DurableConcat(d: Disk, a: seq<Update>, b: seq<Update>)
    ensures Durable(d, a + b) == Durable(Durable(d, a), b)
    decreases |b|
  {
    if b == [] {
      assert a + b == a;
    } else {
      DurableConcat(d, a, b[..|b| - 1]);
      assert (a + b)[..|a + b| - 1] == a + b[..|b| - 1];
    }
  }

  predicate GroupOk(us: seq<Update>, txns: seq<Update>, cuts: seq<nat>, j: nat)
    requires |cuts| == |txns| + 1 && j < |txns|
  {
    cuts[j] <= cuts[j + 1] <= |us| && txns[j] == Merged(us[cuts[j]..cuts[j + 1]])
  }

  /** Transaction j is what the operations from cuts[j] up to cuts[j + 1] log. */
  ghost predicate Grouped(us: seq<Update>, txns: seq<Update>, cuts: seq<nat>) {
    && |cuts| == |txns| + 1 && cuts[0] == 0
    && forall j: nat {:trigger GroupOk(us, txns, cuts, j)} :: j < |txns| ==> GroupOk(us, txns, cuts, j)
  }

  lemma {:induction false} GroupsDurable(d: Disk, us: seq<Update>, txns: seq<Update>, cuts: seq<nat>, k: nat)
    requires Grouped(us, txns, cuts) && k <= |txns|
    ensures cuts[k] <= |us| && Durable(d, txns[..k]) == Durable(d, us[..cuts[k]])
    decreases k
  {
    if k == 0 {
      assert us[..0] == [] && txns[..0] == [];
    } else {
      GroupsDurable(d, us, txns, cuts, k - 1);
      assert GroupOk(us, txns, cuts, k - 1);
      var a, b := us[..cuts[k - 1]], us[cuts[k - 1]..cuts[k]];
      assert txns[..k][..k - 1] == txns[..k - 1] && us[..cuts[k]] == a + b;
      MergedDurable(Durable(d, a), b);
      DurableConcat(d, a, b);
    }
  }

  /** The first k operations lead from the disk d to one that holds the files fs[k]. */
  ghost predicate HeldAt(sb: Super, d: Disk, us: seq<Update>, fs: seq<seq<seq<Byte>>>, k: nat)
    requires k <= |us| < |fs|
  {
    Holds(sb, Durable(d, us[..k]), fs[k])
  }

  ghost predicate Serial(sb: Super, d: Disk, us: seq<Update>, fs: seq<seq<seq<Byte>>>) {
    && |fs| == |us| + 1
    && forall k: nat {:trigger HeldAt(sb, d, us, fs, k)} :: k <= |us| ==> HeldAt(sb, d, us, fs, k)
  }

  /**
   * Operations us lead one after another through the files fs, and are committed in groups. Whenever the machine stops,
   * and however often recovery is interrupted before it ends, the disk holds the files as the operations of the groups
   * whose header was on disk left them: each operation whole or not at all, and none without those before it.
   */
  lemma CrashBetweenOperations(c: Config, d: Disk, h: Block, v0: Disk, run: seq<Action>, runs: seq<Attempt>, h1: Block,
                               sb: Super, us: seq<Update>, fs: seq<seq<seq<Byte>>>, txns: seq<Update>, cuts: seq<nat>)
    requires Reads(c.l, d, v0) && Header(h, []) && Attempts(runs) && Header(h1, [])
    requires c.l.start + c.l.size <= sb.inodestart
    requires Serial(sb, v0, us, fs) && Grouped(us, txns, cuts) && Follows(c, Start(d, h), run, txns)
    ensures var o := Run(c, Start(d, h), run);
            o.Ok? ==> WellFormed(c.l, o.s.disk) && |o.s.txns| <= |txns| && cuts[|o.s.txns|] <= |us|
                      && Holds(sb, Recover(c.l, o.s.disk, runs, h1), fs[cuts[|o.s.txns|]])
  {
    var o := Run(c, Start(d, h), run);
    if o.Ok? {
      RecoveredBehind(c, d, h, v0, run, runs, h1, sb, txns);
      var k := |o.s.txns|;
      GroupsDurable(v0, us, txns, cuts, k);
      assert HeldAt(sb, v0, us, fs, cuts[k]);
      HoldsBehind(sb, Durable(v0, txns[..k]), Recover(c.l, o.s.disk, runs, h1), fs[cuts[k]]);
    }
  }

  // A write among other operations.

  /** How many of the first k operations are slices of the write. */
  function Count(own: seq<bool>, k: nat): nat
    requires k <= |own|
  {
    if k == 0 then 0 else Count(own, k - 1) + if own[k - 1] then 1 else 0
  }

  /** File f with the first n slices of src written at off. */
  function Written(f: seq<Byte>, off: nat, src: seq<Byte>, n: nat): seq<Byte>
    requires off <= |f| || Upto(src, n) == []
  {
    if Upto(src, n) == [] then f else Splice(f, off, Upto(src, n))
  }

  /** One slice, as WriteSlice writes it after n others, or an operation that does not touch file i. */
  predicate StepOk(f: seq<seq<Byte>>, g: seq<seq<Byte>>, own: bool, n: nat, i: nat, off: nat, src: seq<Byte>) {
    && i < |f| == |g|
    && if own then
         var done := n * SLICE;
         && done < |src| && off + done <= |f[i]|
         && g == f[i := Splice(f[i], off + done, src[done..Min(done + SLICE, |src|)])]
       else g[i] == f[i]
  }

  predicate StepAt(fs: seq<seq<seq<Byte>>>, own: seq<bool>, i: nat, off: nat, src: seq<Byte>, k: nat)
    requires k < |own| && |fs| == |own| + 1
  {
    StepOk(fs[k], fs[k + 1], own[k], Count(own, k), i, off, src)
  }

  /** The write of src to file i goes on slice by slice, while other operations come between. */
  ghost predicate Among(fs: seq<seq<seq<Byte>>>, own: seq<bool>, i: nat, off: nat, src: seq<Byte>) {
    && |fs| == |own| + 1 && i < |fs[0]|
    && forall k: nat {:trigger StepAt(fs, own, i, off, src, k)} :: k < |own| ==> StepAt(fs, own, i, off, src, k)
  }

  lemma UptoNext(src: seq<Byte>, n: nat)
    requires n * SLICE < |src|
    ensures |Upto(src, n)| == n * SLICE
    ensures Upto(src, n + 1) == Upto(src, n) + src[n * SLICE..Min(n * SLICE + SLICE, |src|)]
  {
    Prefix(src, n * SLICE, Min(n * SLICE + SLICE, |src|) - n * SLICE);
  }

  lemma SliceAfter(f: seq<Byte>, off: nat, src: seq<Byte>, n: nat)
    requires off <= |f| || Upto(src, n) == []
    requires n * SLICE < |src| && off + n * SLICE <= |Written(f, off, src, n)|
    ensures off <= |f|
    ensures Splice(Written(f, off, src, n), off + n * SLICE, src[n * SLICE..Min(n * SLICE + SLICE, |src|)]) ==
              Written(f, off, src, n + 1)
  {
    UptoNext(src, n);
    var a, b := Upto(src, n), src[n * SLICE..Min(n * SLICE + SLICE, |src|)];
    if a == [] {
      assert a + b == b;
    } else {
      SpliceTwice(f, off, a, b);
    }
  }

  lemma WrittenStep(f: seq<seq<Byte>>, g: seq<seq<Byte>>, f0: seq<Byte>, own: bool, n: nat, i: nat, off: nat,
                    src: seq<Byte>)
    requires StepOk(f, g, own, n, i, off, src) && (off <= |f0| || Upto(src, n) == [])
    requires f[i] == Written(f0, off, src, n)
    ensures var m := if own then n + 1 else n;
            |g| == |f| && (off <= |f0| || Upto(src, m) == []) && g[i] == Written(f0, off, src, m)
  {
    if own {
      SliceAfter(f0, off, src, n);
    }
  }

  lemma {:induction false} WrittenAmong(fs: seq<seq<seq<Byte>>>, own: seq<bool>, i: nat, off: nat, src: seq<Byte>,
                                        k: nat)
    requires Among(fs, own, i, off, src) && k <= |own|
    ensures |fs[k]| == |fs[0]| && (off <= |fs[0][i]| || Upto(src, Count(own, k)) == [])
    ensures fs[k][i] == Written(fs[0][i], off, src, Count(own, k))
    decreases k
  {
    if k == 0 {
      assert Upto(src, 0) == [];
    } else {
      WrittenAmong(fs, own, i, off, src, k - 1);
      assert StepAt(fs, own, i, off, src, k - 1);
      WrittenStep(fs[k - 1], fs[k], fs[0][i], own[k - 1], Count(own, k - 1), i, off, src);
    }
  }

  /**
   * However the slices of a write and the operations of others are grouped into commits, whenever the machine stops,
   * and however often recovery is interrupted: the disk then holds the files as some of these operations, in order,
   * left them, and in the file written a whole number of slices is there, those among the operations committed.
   */
  lemma CrashDuringWrite(c: Config, d: Disk, h: Block, v0: Disk, run: seq<Action>, runs: seq<Attempt>, h1: Block,
                         sb: Super, us: seq<Update>, fs: seq<seq<seq<Byte>>>, txns: seq<Update>, cuts: seq<nat>,
                         own: seq<bool>, i: nat, off: nat, src: seq<Byte>)
    requires Reads(c.l, d, v0) && Header(h, []) && Attempts(runs) && Header(h1, [])
    requires c.l.start + c.l.size <= sb.inodestart
    requires Serial(sb, v0, us, fs) && Grouped(us, txns, cuts) && Follows(c, Start(d, h), run, txns)
    requires Among(fs, own, i, off, src) && |own| == |us|
    ensures var o := Run(c, Start(d, h), run);
            o.Ok? ==>
              && |o.s.txns| <= |txns| && cuts[|o.s.txns|] <= |us|
              && var k := cuts[|o.s.txns|];
                 && (off <= |fs[0][i]| || Upto(src, Count(own, k)) == [])
                 && |fs[k]| == |fs[0]| && fs[k][i] == Written(fs[0][i], off, src, Count(own, k))
                 && WellFormed(c.l, o.s.disk) && Holds(sb, Recover(c.l, o.s.disk, runs, h1), fs[k])
  {
    CrashBetweenOperations(c, d, h, v0, run, runs, h1, sb, us, fs, txns, cuts);
    var o := Run(c, Start(d, h), run);
    if o.Ok? {
      WrittenAmong(fs, own, i, off, src, cuts[|o.s.txns|]);
    }
  }

  /** Operations that keep to what a slice needs never fill the log. */
  lemma SlicesNeverPanic(c: Config, d: Disk, h: Block, run: seq<Action>, sb: Super)
    requires c.cap <= SliceCost(sb) && sb.size <= Bitmap.BPB && LOGSIZE <= c.l.size
    ensures !Run(c, Start(d, h), run).Panic?
  {
    SliceFits(sb);
    RunsReserve(c, d, h, run);
  }
}
