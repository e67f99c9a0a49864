/** Whole runs of the logging system: operations that begin, log blocks and end, group commits and
    recoveries done one disk write at a time, and crashes at any moment. */
module Transactions {
  import opened Blocks
  import opened RedoLog

  /** What one transaction changes. */
  type Update = map<Word, Block>

  /** A commit or a boot remembers the disk it started from and how many of its writes are made. */
  datatype Phase =
    | Running
    | Commit(from: Disk, h1: Block, h2: Block, k: nat)
    | Boot(from: Disk, h: Block, k: nat)

  /** disk: on disk. cache: the pinned contents of the logged blocks bs. ops: for every operation in
      progress, how many blocks it added to the log. txns: the transactions whose header reached the disk. */
  datatype Sys = Sys(disk: Disk, cache: Update, bs: seq<Word>, ops: seq<nat>, phase: Phase, txns: seq<Update>)

  datatype Action =
    | Begin
    | LogWrite(op: nat, b: Word, v: Block)
    | End(op: nat, h1: Block, h2: Block)
    | Io
    | Crash(h: Block)

  datatype Outcome = Ok(s: Sys) | NotNow | Panic

  /** Where the log is, and how many blocks one operation may add to it. */
  datatype Config = Config(l: Layout, cap: nat)

  // ---------------------------------------------------------------- one step

  predicate Cached(cache: Update, bs: seq<Word>) {
    forall i :: 0 <= i < |bs| ==> bs[i] in cache
  }

  function Contents(cache: Update, bs: seq<Word>): seq<Block>
    requires Cached(cache, bs)
  {
    seq(|bs|, i requires 0 <= i < |bs| => cache[bs[i]])
  }

  /** begin_op: refused while it might exhaust the log. */
  function DoBegin(s: Sys): Outcome {
    if s.phase.Running? && |s.bs| + (|s.ops| + 1) * MAXOPBLOCKS <= LOGSIZE then Ok(s.(ops := s.ops + [0]))
    else NotNow
  }

  /** log_write by an operation in progress that keeps to its allowance. */
  function DoLogWrite(c: Config, s: Sys, i: nat, b: Word, v: Block): Outcome {
    if !s.phase.Running? || i >= |s.ops| || !Home(c.l, s.disk, b) || (b !in s.bs && s.ops[i] >= c.cap) then NotNow
    else if |s.bs| >= LOGSIZE || |s.bs| + 1 >= c.l.size then Panic
    else if b in s.bs then Ok(s.(cache := s.cache[b := v]))
    else Ok(s.(cache := s.cache[b := v], bs := s.bs + [b], ops := s.ops[i := s.ops[i] + 1]))
  }

  /** end_op: the last operation out starts the commit. */
  function DoEnd(s: Sys, i: nat, h1: Block, h2: Block): Outcome {
    if !s.phase.Running? || i >= |s.ops| || !Header(h1, s.bs) || !Header(h2, []) then NotNow
    else
      var ops := s.ops[..i] + s.ops[i + 1..];
      if ops == [] && s.bs != [] then Ok(s.(ops := ops, phase := Commit(s.disk, h1, h2, 0)))
      else Ok(s.(ops := ops))
  }

  /** The writes of the commit or boot in progress. */
  function Todo(c: Config, s: Sys): seq<Write> {
    match s.phase
    case Running => []
    case Commit(_, h1, h2, _) =>
      if Cached(s.cache, s.bs) then CommitWrites(c.l, h1, h2, s.bs, Contents(s.cache, s.bs)) else []
    case Boot(d, h, _) => if WellFormed(c.l, d) then RecoverWrites(c.l, d, h) else []
  }

  /** One disk write of the commit or boot in progress; the header write makes the transaction count. */
  function DoIo(c: Config, s: Sys): Outcome {
    var ws := Todo(c, s);
    if s.phase.Running? || s.phase.k >= |ws| then NotNow
    else
      var d, k := Poke(s.disk, ws[s.phase.k]), s.phase.k;
      var txns := if s.phase.Commit? && k == |s.bs| then s.txns + [s.cache] else s.txns;
      if k + 1 < |ws| then Ok(s.(disk := d, phase := s.phase.(k := k + 1), txns := txns))
      else Ok(Sys(d, map[], [], [], Running, txns))
  }

  /** A crash loses memory; the machine boots from the disk as it is. */
  function DoCrash(s: Sys, h: Block): Outcome {
    if Header(h, []) then Ok(Sys(s.disk, map[], [], [], Boot(s.disk, h, 0), s.txns)) else NotNow
  }

  function Step(c: Config, s: Sys, a: Action): Outcome {
    match a
    case Begin => DoBegin(s)
    case LogWrite(i, b, v) => DoLogWrite(c, s, i, b, v)
    case End(i, h1, h2) => DoEnd(s, i, h1, h2)
    case Io => DoIo(c, s)
    case Crash(h) => DoCrash(s, h)
  }

  function Run(c: Config, s: Sys, run: seq<Action>): Outcome {
    if run == [] then Ok(s)
    else match Run(c, s, run[..|run| - 1])
         case Ok(t) => Step(c, t, run[|run| - 1])
         case o => o
  }

  /** A machine about to boot from the disk d. */
  function Start(d: Disk, h: Block): Sys {
    Sys(d, map[], [], [], Boot(d, h, 0), [])
  }

  // ---------------------------------------------------------------- what survives

  function Overlay(d: Disk, u: Update): Disk {
    seq(|d|, b requires 0 <= b < |d| => if b in u then u[b] else d[b])
  }

  /** The disk d with whole transactions applied in order. */
  function Durable(d: Disk, txns: seq<Update>): (r: Disk)
    ensures |r| == |d|
  {
    if txns == [] then d else Overlay(Durable(d, txns[..|txns| - 1]), txns[|txns| - 1])
  }

  ghost predicate Reads(l: Layout, disk: Disk, v: Disk) {
    && WellFormed(l, disk) && |disk| == |v|
    && forall b: nat :: Home(l, disk, b) ==> Logical(l, disk, b) == v[b]
  }

  /** What the initial disk v0 has become by the end of the finished transactions. */
  ghost function Base(v0: Disk, s: Sys): Disk {
    Durable(v0, if s.phase.Commit? && s.phase.k > |s.bs| && s.txns != [] then s.txns[..|s.txns| - 1] else s.txns)
  }

  ghost predicate Inv(c: Config, v0: Disk, s: Sys) {
    && Reads(c.l, s.disk, Durable(v0, s.txns))
    && Loggable(c.l, |s.disk|, s.bs)
    && Cached(s.cache, s.bs) && (forall b :: b in s.cache ==> b in s.bs)
    && match s.phase
       case Running => HeadBlocks(s.disk[c.l.start]) == [] && (s.ops == [] ==> s.bs == [])
       case Commit(d, h1, h2, k) =>
         && s.bs != [] && s.ops == [] && Header(h1, s.bs) && Header(h2, [])
         && CanCommit(c.l, d, s.bs, Contents(s.cache, s.bs))
         && k < |Todo(c, s)| && s.disk == Apply(d, Todo(c, s)[..k])
         && Reads(c.l, d, Base(v0, s))
         && (k > |s.bs| ==> s.txns != [] && s.txns[|s.txns| - 1] == s.cache)
       case Boot(d, h, k) =>
         && s.bs == [] && s.ops == [] && Header(h, [])
         && WellFormed(c.l, d) && k < |Todo(c, s)| && s.disk == Apply(d, Todo(c, s)[..k])
  }

  lemma InvDoLogWrite(c: Config, v0: Disk, s: Sys, i: nat, b: Word, v: Block)
    requires Inv(c, v0, s) && DoLogWrite(c, s, i, b, v).Ok?
    ensures Inv(c, v0, DoLogWrite(c, s, i, b, v).s)
  {}

  lemma InvDoEnd(c: Config, v0: Disk, s: Sys, i: nat, h1: Block, h2: Block)
    requires Inv(c, v0, s) && DoEnd(s, i, h1, h2).Ok?
    ensures Inv(c, v0, DoEnd(s, i, h1, h2).s)
  {
    var t := DoEnd(s, i, h1, h2).s;
    if t.phase.Commit? {
      assert Todo(c, t)[..0] == [];
    }
  }

  lemma InvDoCrash(c: Config, v0: Disk, s: Sys, h: Block)
    requires Inv(c, v0, s) && DoCrash(s, h).Ok?
    ensures Inv(c, v0, DoCrash(s, h).s)
  {
    var t := DoCrash(s, h).s;
    assert Todo(c, t)[..0] == [];
  }

  lemma SameReads(l: Layout, d: Disk, e: Disk, f: Disk, v: Disk)
    requires SameLogical(l, d, e) && SameLogical(l, d, f) && Reads(l, e, v)
    ensures Reads(l, f, v)
  {
    forall b: nat | Home(l, f, b) ensures Logical(l, f, b) == v[b] {
      assert Home(l, d, b) && Home(l, e, b);
    }
  }

  /** A boot step keeps what the disk reads as. */
  lemma InvBootIo(c: Config, v0: Disk, s: Sys)
    requires Inv(c, v0, s) && s.phase.Boot? && DoIo(c, s).Ok?
    ensures Inv(c, v0, DoIo(c, s).s)
  {
    var ws, k, d := Todo(c, s), s.phase.k, s.phase.from;
    ApplyNext(d, ws, k);
    RecoveryPrefix(c.l, d, s.phase.h, k);
    RecoveryPrefix(c.l, d, s.phase.h, k + 1);
    assert ws[..|ws|] == ws;
    SameReads(c.l, d, s.disk, DoIo(c, s).s.disk, Durable(v0, s.txns));
  }

  lemma UpdateReads(l: Layout, d: Disk, e: Disk, v: Disk, cache: Update, bs: seq<Word>)
    requires Cached(cache, bs) && (forall b :: b in cache ==> b in bs)
    requires Reads(l, d, v) && LogicalUpdate(l, d, e, bs, Contents(cache, bs))
    ensures Reads(l, e, Overlay(v, cache))
  {
    forall b: nat | Home(l, e, b) ensures Logical(l, e, b) == Overlay(v, cache)[b] {
      assert Home(l, d, b);
      if b in cache {
        var i :| 0 <= i < |bs| && bs[i] == b;
        assert Logical(l, e, bs[i]) == Contents(cache, bs)[i];
      }
    }
  }

  /** A commit step reads as before, except the header write, which brings in the whole transaction. */
  lemma CommitIoReads(c: Config, v0: Disk, s: Sys)
    requires Inv(c, v0, s) && s.phase.Commit?
    ensures var k := s.phase.k + 1;
            var d := Apply(s.phase.from, Todo(c, s)[..k]);
            && Reads(c.l, d, Durable(v0, if k == |s.bs| + 1 then s.txns + [s.cache] else s.txns))
            && (k == |Todo(c, s)| ==> HeadBlocks(d[c.l.start]) == [])
  {
    var ws, k, d, vs := Todo(c, s), s.phase.k + 1, s.phase.from, Contents(s.cache, s.bs);
    CommitPrefix(c.l, d, s.phase.h1, s.phase.h2, s.bs, vs, k);
    if k <= |s.bs| {
      SameReads(c.l, d, d, Apply(d, ws[..k]), Durable(v0, s.txns));
    } else {
      UpdateReads(c.l, d, Apply(d, ws[..k]), Base(v0, s), s.cache, s.bs);
      assert (s.txns + [s.cache])[..|s.txns|] == s.txns;
    }
  }

  /** The last write of a commit. */
  lemma InvCommitEnd(c: Config, v0: Disk, s: Sys)
    requires Inv(c, v0, s) && s.phase.Commit? && s.phase.k + 1 == |Todo(c, s)|
    ensures DoIo(c, s).Ok? && Inv(c, v0, DoIo(c, s).s)
  {
    var ws, k, t := Todo(c, s), s.phase.k, DoIo(c, s).s;
    ApplyNext(s.phase.from, ws, k);
    CommitIoReads(c, v0, s);
    assert t.disk == Apply(s.phase.from, ws[..k + 1]);
  }

  lemma InvCommitMore(c: Config, v0: Disk, s: Sys)
    requires Inv(c, v0, s) && s.phase.Commit? && s.phase.k + 1 < |Todo(c, s)|
    ensures DoIo(c, s).Ok? && Inv(c, v0, DoIo(c, s).s)
  {
    var ws, k, t := Todo(c, s), s.phase.k, DoIo(c, s).s;
    ApplyNext(s.phase.from, ws, k);
    CommitIoReads(c, v0, s);
    assert t.disk == Apply(s.phase.from, ws[..k + 1]);
    assert (s.txns + [s.cache])[..|s.txns|] == s.txns;
    assert Todo(c, t) == ws && Base(v0, t) == Base(v0, s);
  }

  lemma InvCommitIo(c: Config, v0: Disk, s: Sys)
    requires Inv(c, v0, s) && s.phase.Commit? && DoIo(c, s).Ok?
    ensures Inv(c, v0, DoIo(c, s).s)
  {
    if s.phase.k + 1 == |Todo(c, s)| {
      InvCommitEnd(c, v0, s);
    } else {
      InvCommitMore(c, v0, s);
    }
  }

  lemma InvStep(c: Config, v0: Disk, s: Sys, a: Action)
    requires Inv(c, v0, s) && Step(c, s, a).Ok?
    ensures Inv(c, v0, Step(c, s, a).s)
  {
    match a
    case Begin =>
    case LogWrite(i, b, v) => InvDoLogWrite(c, v0, s, i, b, v);
    case End(i, h1, h2) => InvDoEnd(c, v0, s, i, h1, h2);
    case Io => if s.phase.Commit? { InvCommitIo(c, v0, s); } else { InvBootIo(c, v0, s); }
    case Crash(h) => InvDoCrash(c, v0, s, h);
  }

  /** In every state of every run, with any crashes, the disk reads as the initial contents with the
      transactions that reached their header, whole and in order; between commits and boots the home
      blocks themselves hold that. */
  lemma {:induction false} RunsAreDurable(c: Config, d: Disk, h: Block, v0: Disk, run: seq<Action>)
    requires Reads(c.l, d, v0) && Header(h, [])
    ensures var o := Run(c, Start(d, h), run);
            o.Ok? ==>
              && Inv(c, v0, o.s)
              && Reads(c.l, o.s.disk, Durable(v0, o.s.txns))
              && (o.s.phase.Running? ==>
                   forall b: nat :: Home(c.l, o.s.disk, b) ==> o.s.disk[b] == Durable(v0, o.s.txns)[b])
  {
    var o := Run(c, Start(d, h), run);
    if run == [] {
      assert Todo(c, o.s)[..0] == [];
    } else {
      RunsAreDurable(c, d, h, v0, run[..|run| - 1]);
      var p := Run(c, Start(d, h), run[..|run| - 1]);
      if o.Ok? {
        InvStep(c, v0, p.s, run[|run| - 1]);
      }
    }
  }

  // ---------------------------------------------------------------- the simple machine it implements

  /** A disk that survives crashes and a set of pending changes that does not. */
  datatype Store = Store(durable: Disk, pending: Update)

  function Abstract(v0: Disk, s: Sys): Store {
    Store(Durable(v0, s.txns), if s.phase.Commit? && s.phase.k > |s.bs| then map[] else s.cache)
  }

  /** Only a disk write with no operation in progress may make the pending changes durable, and it makes
      all of them durable at once. */
  predicate StoreStep(a: Action, idle: bool, m: Store, m': Store) {
    match a
    case LogWrite(_, b, v) => m' == Store(m.durable, m.pending[b := v])
    case Crash(_) => m' == Store(m.durable, map[])
    case Io => m' == m || (idle && m' == Store(Overlay(m.durable, m.pending), map[]))
    case _ => m' == m
  }

  lemma CommitRefinesStore(c: Config, v0: Disk, s: Sys)
    requires Inv(c, v0, s) && s.phase.Commit? && DoIo(c, s).Ok?
    ensures StoreStep(Io, true, Abstract(v0, s), Abstract(v0, DoIo(c, s).s))
  {
    assert (s.txns + [s.cache])[..|s.txns|] == s.txns;
  }

  lemma StepRefinesStore(c: Config, v0: Disk, s: Sys, a: Action)
    requires Inv(c, v0, s) && Step(c, s, a).Ok?
    ensures StoreStep(a, s.ops == [], Abstract(v0, s), Abstract(v0, Step(c, s, a).s))
  {
    if a.Io? {
      if s.phase.Commit? {
        CommitRefinesStore(c, v0, s);
      } else {
        assert s.cache == map[];
      }
    }
  }

  function Then(c: Config, o: Outcome, a: Action): Outcome { if o.Ok? then Step(c, o.s, a) else o }

  lemma RunThen(c: Config, s: Sys, run: seq<Action>, a: Action)
    ensures Run(c, s, run + [a]) == Then(c, Run(c, s, run), a)
  {
    assert (run + [a])[..|run|] == run;
  }

  // ---------------------------------------------------------------- what an operation achieves

  /** begin_op lets the operation in exactly if no commit or boot runs and its whole allowance fits. */
  lemma BeginIff(c: Config, s: Sys)
    ensures Step(c, s, Begin).Ok? <==> s.phase.Running? && |s.bs| + (|s.ops| + 1) * MAXOPBLOCKS <= LOGSIZE
    ensures Step(c, s, Begin).Ok? ==> Step(c, s, Begin).s == s.(ops := s.ops + [0])
  {
  }

  /** Blocks that operations in progress may still add, at cap blocks each. */
  function Unused(cap: int, ops: seq<nat>): int {
    if ops == [] then 0 else Unused(cap, ops[..|ops| - 1]) + cap - ops[|ops| - 1]
  }

  predicate Within(cap: nat, ops: seq<nat>) {
    forall i :: 0 <= i < |ops| ==> ops[i] <= cap
  }

  lemma {:induction false} UnusedBounds(cap: nat, ops: seq<nat>)
    requires Within(cap, ops)
    ensures 0 <= Unused(cap, ops) <= cap * |ops|
  {
    if ops != [] {
      UnusedBounds(cap, ops[..|ops| - 1]);
    }
  }

  /** Reservation: begin_op admits only operations whose whole allowance still fits. */
  predicate Reserved(c: Config, s: Sys) {
    && Within(c.cap, s.ops)
    && (s.phase.Running? ==> |s.bs| + Unused(c.cap, s.ops) <= LOGSIZE - 2 && (s.ops == [] ==> s.bs == []))
    && (!s.phase.Running? ==> s.ops == [])
  }

  /** log_write of a home block by an operation that keeps to its allowance: the block is pending from then on. */
  lemma WriteGoes(c: Config, s: Sys, i: nat, b: Word, v: Block)
    requires Reserved(c, s) && LOGSIZE <= c.l.size && s.phase.Running? && i < |s.ops| && Home(c.l, s.disk, b)
    requires b in s.bs || s.ops[i] < c.cap
    ensures var o := Step(c, s, LogWrite(i, b, v));
            && o.Ok? && o.s.cache == s.cache[b := v] && o.s.disk == s.disk && o.s.txns == s.txns
            && o.s.bs == if b in s.bs then s.bs else s.bs + [b]
  {
    UnusedBounds(c.cap, s.ops);
  }

  // ---------------------------------------------------------------- what a commit and a boot achieve

  function Ios(n: nat): seq<Action> { seq(n, _ => Io) }

  /** n disk writes of the commit or boot in progress lead from s to t. */
  predicate Leads(c: Config, s: Sys, n: nat, t: Sys) { Run(c, s, Ios(n)) == Ok(t) }

  /** After the writes of the commit or boot in s up to k. */
  function Later(s: Sys, disk: Disk, k: nat): Sys
    requires !s.phase.Running?
  {
    match s.phase
    case Commit(d, h1, h2, j) =>
      s.(disk := disk, phase := Commit(d, h1, h2, k), txns := if j <= |s.bs| < k then s.txns + [s.cache] else s.txns)
    case Boot(d, h, _) => s.(disk := disk, phase := Boot(d, h, k))
  }

  predicate Further(s: Sys, t: Sys, k: nat) { !s.phase.Running? && t == Later(s, t.disk, k) }

  /** Where this is mentioned Writes stands for what it says; elsewhere it is a name. */
  predicate InFull(x: nat) { true }

  /** The commit or boot in s is m writes. */
  ghost predicate Writes(c: Config, s: Sys, m: nat) {
    forall x: nat {:trigger InFull(x)} :: InFull(x) ==> |Todo(c, s)| == m
  }

  /** One disk write leads from s to t. */
  ghost predicate IoTo(c: Config, s: Sys, t: Sys) {
    forall x: nat {:trigger InFull(x)} :: InFull(x) ==> Step(c, s, Io) == Ok(t)
  }

  /** One disk write where m are to be done. */
  lemma IoDoes(c: Config, s: Sys, m: nat) returns (t: Sys)
    requires Writes(c, s, m) && !s.phase.Running? && s.phase.k < m
    ensures IoTo(c, s, t)
    ensures var k := s.phase.k;
            var txns := if s.phase.Commit? && k == |s.bs| then s.txns + [s.cache] else s.txns;
            t == if k + 1 == m then Sys(t.disk, map[], [], [], Running, txns)
                 else s.(disk := t.disk, phase := s.phase.(k := k + 1), txns := txns)
  {
    assert InFull(0);
    t := Step(c, s, Io).s;
  }

  lemma WritesLater(c: Config, s: Sys, t: Sys, k: nat, m: nat)
    requires Writes(c, s, m) && Further(s, t, k)
    ensures Writes(c, t, m)
  {
    assert InFull(0);
    assert Todo(c, t) == Todo(c, s);
  }

  lemma IoOne(c: Config, s: Sys, t: Sys, k: nat, m: nat) returns (w: Sys)
    requires Writes(c, s, m) && k > 0 && Further(s, t, k - 1) && s.phase.k < k < m
    ensures IoTo(c, t, w) && Further(s, w, k)
  {
    WritesLater(c, s, t, k - 1, m);
    w := IoDoes(c, t, m);
  }

  /** The last write ends the commit or boot. */
  predicate Ended(s: Sys, t: Sys, k: nat) {
    && !s.phase.Running? && t == Sys(t.disk, map[], [], [], Running, t.txns)
    && t.txns == if s.phase.Commit? && s.phase.k <= |s.bs| < k then s.txns + [s.cache] else s.txns
  }

  lemma IoLast(c: Config, s: Sys, t: Sys, k: nat) returns (w: Sys)
    requires Writes(c, s, k) && k > 0 && Further(s, t, k - 1) && s.phase.k < k
    ensures IoTo(c, t, w) && Ended(s, w, k)
  {
    WritesLater(c, s, t, k - 1, k);
    w := IoDoes(c, t, k);
  }

  /** Between commits and boots the home blocks hold what is durable. */
  ghost predicate AtHome(c: Config, d: Disk, v: Disk) {
    |d| == |v| && forall b: nat :: Home(c.l, d, b) ==> b < |d| && d[b] == v[b]
  }

  lemma RunningAtHome(c: Config, v0: Disk, s: Sys)
    requires Inv(c, v0, s) && s.phase.Running?
    ensures AtHome(c, s.disk, Durable(v0, s.txns))
  {
  }

  lemma EndCommits(c: Config, v0: Disk, s: Sys, h1: Block, h2: Block)
    requires Inv(c, v0, s) && s.phase.Running? && |s.ops| == 1 && s.bs != [] && Header(h1, s.bs) && Header(h2, [])
    ensures var o := Step(c, s, End(0, h1, h2));
            && o.Ok? && o.s == s.(ops := [], phase := Commit(s.disk, h1, h2, 0)) && |Todo(c, o.s)| == 2 * |s.bs| + 2
  {
    CommitLength(c.l, h1, h2, s.bs, Contents(s.cache, s.bs));
    assert s.ops[..0] + s.ops[1..] == [];
  }

  /** n disk writes lead from s to t, one by one. */
  ghost predicate Steps(c: Config, s: Sys, n: nat, t: Sys)
    decreases n
  {
    if n == 0 then t == s else exists u {:trigger IoTo(c, u, t)} :: Steps(c, s, n - 1, u) && IoTo(c, u, t)
  }

  lemma StepsNone(c: Config, s: Sys, n: nat, k: nat)
    requires n == 0 && !s.phase.Running? && k == s.phase.k
    ensures Steps(c, s, n, s) && Further(s, s, k)
  {
  }

  lemma StepsMore(c: Config, s: Sys, n: nat, u: Sys, t: Sys)
    requires n > 0 && Steps(c, s, n - 1, u) && IoTo(c, u, t)
    ensures Steps(c, s, n, t)
  {
  }

  lemma {:induction false} StepsLead(c: Config, s: Sys, n: nat, t: Sys)
    requires Steps(c, s, n, t)
    ensures Leads(c, s, n, t)
    decreases n
  {
    if n == 0 {
      assert Ios(n) == [];
    } else {
      var u :| Steps(c, s, n - 1, u) && IoTo(c, u, t);
      StepsLead(c, s, n - 1, u);
      assert InFull(0);
      assert Ios(n) == Ios(n - 1) + [Io];
      RunThen(c, s, Ios(n - 1), Io);
    }
  }

  lemma {:induction false} WritesPart(c: Config, s: Sys, n: nat, k: nat, m: nat) returns (t: Sys)
    requires Writes(c, s, m) && !s.phase.Running? && k == s.phase.k + n < m
    ensures Steps(c, s, n, t) && Further(s, t, k)
    decreases n
  {
    if n == 0 {
      StepsNone(c, s, n, k);
      return s;
    }
    var u := WritesPart(c, s, n - 1, k - 1, m);
    t := IoOne(c, s, u, k, m);
    StepsMore(c, s, n, u, t);
  }

  /** The rest of a commit or boot, n writes, leaves the machine running with an empty log. */
  lemma PhaseEnds(c: Config, s: Sys, n: nat, k: nat) returns (t: Sys)
    requires Writes(c, s, k) && !s.phase.Running? && n > 0 && k == s.phase.k + n
    ensures Steps(c, s, n, t) && Ended(s, t, k)
  {
    var u := WritesPart(c, s, n - 1, k - 1, k);
    t := IoLast(c, s, u, k);
    StepsMore(c, s, n, u, t);
  }

  lemma {:induction false} InvRun(c: Config, v0: Disk, s: Sys, run: seq<Action>)
    requires Inv(c, v0, s)
    ensures Run(c, s, run).Ok? ==> Inv(c, v0, Run(c, s, run).s)
    decreases |run|
  {
    if run != [] {
      var n := |run| - 1;
      InvRun(c, v0, s, run[..n]);
      if Run(c, s, run[..n]).Ok? && Step(c, Run(c, s, run[..n]).s, run[n]).Ok? {
        InvStep(c, v0, Run(c, s, run[..n]).s, run[n]);
      }
    }
  }

  lemma Written(c: Config, v0: Disk, s: Sys, n: nat, t: Sys)
    requires Inv(c, v0, s) && Steps(c, s, n, t) && t.phase.Running?
    ensures Leads(c, s, n, t) && AtHome(c, t.disk, Durable(v0, t.txns))
  {
    StepsLead(c, s, n, t);
    InvRun(c, v0, s, Ios(n));
    RunningAtHome(c, v0, t);
  }

  /**
   * When the last operation ends, 2n + 2 disk writes complete the commit of n blocks: what it and the operations before
   * it have logged is then durable and at home, and the log is empty.
   */
  lemma CommitCompletes(c: Config, v0: Disk, s: Sys, h1: Block, h2: Block) returns (u: Sys, t: Sys)
    requires Inv(c, v0, s) && s.phase.Running? && |s.ops| == 1 && s.bs != [] && Header(h1, s.bs) && Header(h2, [])
    ensures Step(c, s, End(0, h1, h2)) == Ok(u) && Leads(c, u, 2 * |s.bs| + 2, t)
    ensures t == Sys(t.disk, map[], [], [], Running, s.txns + [s.cache])
    ensures AtHome(c, t.disk, Overlay(Durable(v0, s.txns), s.cache))
  {
    EndCommits(c, v0, s, h1, h2);
    u := Step(c, s, End(0, h1, h2)).s;
    InvStep(c, v0, s, End(0, h1, h2));
    var n := 2 * |s.bs| + 2;
    t := PhaseEnds(c, u, n, n);
    Written(c, v0, u, n, t);
    assert (s.txns + [s.cache])[..|s.txns|] == s.txns;
  }

  /** A machine that crashes, whatever it was doing, boots, with what had reached the log and nothing else. */
  lemma CrashCompletes(c: Config, v0: Disk, s: Sys, h: Block) returns (u: Sys, t: Sys)
    requires Inv(c, v0, s) && Header(h, [])
    ensures WellFormed(c.l, s.disk)
    ensures Step(c, s, Crash(h)) == Ok(u) && Leads(c, u, |RecoverWrites(c.l, s.disk, h)|, t)
    ensures t == Sys(t.disk, map[], [], [], Running, s.txns) && AtHome(c, t.disk, Durable(v0, s.txns))
  {
    var n := |RecoverWrites(c.l, s.disk, h)|;
    u := Step(c, s, Crash(h)).s;
    InvStep(c, v0, s, Crash(h));
    t := PhaseEnds(c, u, n, n);
    Written(c, v0, u, n, t);
  }

  // ---------------------------------------------------------------- log space

  lemma {:induction false} UnusedSet(cap: int, ops: seq<nat>, i: nat, x: nat)
    requires i < |ops|
    ensures Unused(cap, ops[i := x]) == Unused(cap, ops) + ops[i] - x
  {
    var n := |ops| - 1;
    if i == n {
      assert ops[i := x][..n] == ops[..n];
    } else {
      UnusedSet(cap, ops[..n], i, x);
      assert ops[i := x][..n] == ops[..n][i := x];
    }
  }

  lemma {:induction false} UnusedRemove(cap: int, ops: seq<nat>, i: nat)
    requires i < |ops|
    ensures Unused(cap, ops[..i] + ops[i + 1..]) == Unused(cap, ops) - (cap - ops[i])
  {
    var n := |ops| - 1;
    var rest := ops[..i] + ops[i + 1..];
    if i == n {
      assert rest == ops[..n];
    } else {
      UnusedRemove(cap, ops[..n], i);
      assert rest[..|rest| - 1] == ops[..n][..i] + ops[..n][i + 1..];
    }
  }

  /** Allowances below MAXOPBLOCKS leave a block over for each operation. */
  lemma Allowances(cap: nat, n: nat)
    requires cap < MAXOPBLOCKS
    ensures cap * n + cap + n + 1 <= (n + 1) * MAXOPBLOCKS && cap * (n + 1) == cap * n + cap
  {
    var spare := MAXOPBLOCKS - 1 - cap;
    assert (n + 1) * MAXOPBLOCKS == (n + 1) * (cap + 1) + (n + 1) * spare;
    assert (n + 1) * (cap + 1) == cap * n + cap + n + 1;
  }

  lemma ReservedBegin(c: Config, s: Sys)
    requires Reserved(c, s) && c.cap < MAXOPBLOCKS && DoBegin(s).Ok?
    ensures Reserved(c, DoBegin(s).s)
  {
    UnusedBounds(c.cap, s.ops);
    assert (s.ops + [0])[..|s.ops|] == s.ops;
    Allowances(c.cap, |s.ops|);
  }

  lemma ReservedWrite(c: Config, s: Sys, i: nat, b: Word, v: Block)
    requires Reserved(c, s) && DoLogWrite(c, s, i, b, v).Ok?
    ensures Reserved(c, DoLogWrite(c, s, i, b, v).s)
  {
    if b !in s.bs {
      UnusedSet(c.cap, s.ops, i, s.ops[i] + 1);
    }
  }

  lemma ReservedEnd(c: Config, s: Sys, i: nat, h1: Block, h2: Block)
    requires Reserved(c, s) && DoEnd(s, i, h1, h2).Ok?
    ensures Reserved(c, DoEnd(s, i, h1, h2).s)
  {
    UnusedRemove(c.cap, s.ops, i);
    var ops := s.ops[..i] + s.ops[i + 1..];
    assert Within(c.cap, ops);
    UnusedBounds(c.cap, s.ops);
  }

  lemma ReservedStep(c: Config, s: Sys, a: Action)
    requires Reserved(c, s) && c.cap < MAXOPBLOCKS && Step(c, s, a).Ok?
    ensures Reserved(c, Step(c, s, a).s)
  {
    match a
    case Begin => ReservedBegin(c, s);
    case LogWrite(i, b, v) => ReservedWrite(c, s, i, b, v);
    case End(i, h1, h2) => ReservedEnd(c, s, i, h1, h2);
    case _ =>
  }

  lemma {:induction false} RunsReserve(c: Config, d: Disk, h: Block, run: seq<Action>)
    requires c.cap < MAXOPBLOCKS <= LOGSIZE <= c.l.size
    ensures var o := Run(c, Start(d, h), run); !o.Panic? && (o.Ok? ==> Reserved(c, o.s))
  {
    if run != [] {
      RunsReserve(c, d, h, run[..|run| - 1]);
      var p := Run(c, Start(d, h), run[..|run| - 1]);
      if p.Ok? {
        var a := run[|run| - 1];
        UnusedBounds(c.cap, p.s.ops);
        if Step(c, p.s, a).Ok? {
          ReservedStep(c, p.s, a);
        }
      }
    }
  }

  /** The boot from d after k of its writes. */
  function Booting(c: Config, d: Disk, h: Block, k: nat): Sys
    requires WellFormed(c.l, d) && k <= |RecoverWrites(c.l, d, h)|
  {
    Sys(Apply(d, RecoverWrites(c.l, d, h)[..k]), map[], [], [], Boot(d, h, k), [])
  }

  lemma BootIo(c: Config, d: Disk, h: Block, k: nat)
    requires WellFormed(c.l, d) && k + 1 < |RecoverWrites(c.l, d, h)|
    ensures Step(c, Booting(c, d, h, k), Io) == Ok(Booting(c, d, h, k + 1))
  {
    ApplyNext(d, RecoverWrites(c.l, d, h), k);
  }

  lemma {:induction false} BootPartly(c: Config, d: Disk, h: Block, k: nat) returns (run: seq<Action>)
    requires WellFormed(c.l, d) && k < |RecoverWrites(c.l, d, h)|
    ensures Run(c, Start(d, h), run) == Ok(Booting(c, d, h, k))
  {
    if k == 0 {
      assert RecoverWrites(c.l, d, h)[..0] == [];
      run := [];
    } else {
      var r := BootPartly(c, d, h, k - 1);
      RunThen(c, Start(d, h), r, Io);
      BootIo(c, d, h, k - 1);
      run := r + [Io];
    }
  }

  /** Booting without a crash reaches a running system with an empty log. */
  lemma Booted(c: Config, d: Disk, h: Block) returns (run: seq<Action>, t: Sys)
    requires WellFormed(c.l, d)
    ensures Run(c, Start(d, h), run) == Ok(t) && |t.disk| == |d| && t == Sys(t.disk, map[], [], [], Running, [])
  {
    var n := |RecoverWrites(c.l, d, h)|;
    var r := BootPartly(c, d, h, n - 1);
    RunThen(c, Start(d, h), r, Io);
    run := r + [Io];
    t := Run(c, Start(d, h), run).s;
  }

  function Clamp(j: int): nat {
    if j < 0 then 0 else if j > MAXOPBLOCKS then MAXOPBLOCKS else j
  }

  /** Three operations in progress have logged the first j home blocks behind the log. */
  predicate FilledTo(c: Config, t: Sys, j: nat) {
    && t.phase == Running && |t.bs| == j
    && (forall i :: 0 <= i < j ==> t.bs[i] == c.l.start + c.l.size + i)
    && t.ops == [Clamp(j), Clamp(j - MAXOPBLOCKS), Clamp(j - 2 * MAXOPBLOCKS)]
  }

  function FillWrite(c: Config, j: nat, v: Block): Action
    requires c.l.start + c.l.size + j < 0x1_0000_0000
  {
    LogWrite(j / MAXOPBLOCKS, c.l.start + c.l.size + j, v)
  }

  lemma FillOne(c: Config, s: Sys, j: nat, v: Block)
    requires c.cap >= MAXOPBLOCKS && j < LOGSIZE && j + 1 < c.l.size && FilledTo(c, s, j)
    requires c.l.start + c.l.size + j < |s.disk| <= 0x1_0000_0000
    ensures var o := Step(c, s, FillWrite(c, j, v)); o.Ok? && o.s.disk == s.disk && FilledTo(c, o.s, j + 1)
  {
    var i := j / MAXOPBLOCKS;
    assert i < 3 && s.ops[i] == j - i * MAXOPBLOCKS;
  }

  lemma Begun(c: Config, d: Disk, h: Block) returns (run: seq<Action>, t: Sys)
    requires WellFormed(c.l, d)
    ensures Run(c, Start(d, h), run) == Ok(t) && |t.disk| == |d| && FilledTo(c, t, 0)
  {
    run, t := Booted(c, d, h);
    RunThen(c, Start(d, h), run, Begin);
    RunThen(c, Start(d, h), run + [Begin], Begin);
    RunThen(c, Start(d, h), run + [Begin] + [Begin], Begin);
    run := run + [Begin] + [Begin] + [Begin];
    t := t.(ops := [0, 0, 0]);
  }

  lemma {:induction false} Filled(c: Config, d: Disk, h: Block, j: nat) returns (run: seq<Action>, t: Sys)
    requires c.cap >= MAXOPBLOCKS && LOGSIZE <= c.l.size && j <= LOGSIZE && j < c.l.size
    requires WellFormed(c.l, d) && c.l.start + c.l.size + LOGSIZE <= |d| <= 0x1_0000_0000
    ensures Run(c, Start(d, h), run) == Ok(t) && |t.disk| == |d| && FilledTo(c, t, j)
  {
    if j == 0 {
      run, t := Begun(c, d, h);
    } else {
      var r, s := Filled(c, d, h, j - 1);
      FillOne(c, s, j - 1, h);
      RunThen(c, Start(d, h), r, FillWrite(c, j - 1, h));
      run := r + [FillWrite(c, j - 1, h)];
      t := Step(c, s, FillWrite(c, j - 1, h)).s;
    }
  }

  /** Operations that use the full MAXOPBLOCKS can make log_write panic: once the log is full, even
      writing a block again does. */
  lemma FullAllowancePanics(c: Config, d: Disk, h: Block) returns (run: seq<Action>)
    requires c.cap >= MAXOPBLOCKS && LOGSIZE <= c.l.size
    requires WellFormed(c.l, d) && c.l.start + c.l.size + LOGSIZE <= |d| <= 0x1_0000_0000
    ensures Run(c, Start(d, h), run).Panic?
  {
    var r, s := Filled(c, d, h, if c.l.size == LOGSIZE then LOGSIZE - 1 else LOGSIZE);
    var a := LogWrite(0, s.bs[0], h);
    assert Home(c.l, s.disk, s.bs[0]);
    RunThen(c, Start(d, h), r, a);
    run := r + [a];
  }

  /** log_write can never panic exactly when operations stay below MAXOPBLOCKS blocks each. */
  lemma NoPanicIffBelowAllowance(c: Config, d: Disk, h: Block)
    requires LOGSIZE <= c.l.size && WellFormed(c.l, d) && c.l.start + c.l.size + LOGSIZE <= |d| <= 0x1_0000_0000
    ensures (forall run :: !Run(c, Start(d, h), run).Panic?) <==> c.cap < MAXOPBLOCKS
  {
    if c.cap < MAXOPBLOCKS {
      forall run ensures !Run(c, Start(d, h), run).Panic? {
        RunsReserve(c, d, h, run);
      }
    } else {
      var run := FullAllowancePanics(c, d, h);
    }
  }
}
