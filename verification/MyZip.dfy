/**
 * The streaming compressor and its decompressor. The compressor keeps its bytes in a signed char, so 0xFF looks like
 * the end of the file, and takes a zero byte as "nothing read yet": when that does no harm is stated exactly.
 */
module MyZip {
  import opened Blocks
  import opened Rle
  import opened Pzip

  const EOF_BYTE := 0xFF

  /** The current byte, how often it came, and the runs written. */
  datatype State = State(last: Byte, count: nat, out: seq<Run>)

  function View(st: State): (v: seq<Run>)
    ensures v != []
  {
    st.out + [Run(st.count, st.last)]
  }

  /** One more byte of the same file. */
  function Read(st: State, c: Byte): State {
    if c == st.last then st.(count := st.count + 1) else State(c, 1, View(st))
  }

  /** The loop over the rest of a file, up to the first byte that looks like the end. */
  function Scan(st: State, x: seq<Byte>): State
    decreases |x|
  {
    if x == [] || x[0] == EOF_BYTE then st else Scan(Read(st, x[0]), x[1..])
  }

  /** A file; if the current byte is zero, the first byte replaces it, the end of file replacing it by 0xFF. */
  function OneFile(st: State, x: seq<Byte>): State {
    if st.last != 0 then Scan(st, x)
    else if x == [] then st.(last := EOF_BYTE)
    else Scan(st.(last := x[0]), x[1..])
  }

  function AllFiles(st: State, files: seq<seq<Byte>>): State
    decreases |files|
  {
    if files == [] then st else AllFiles(OneFile(st, files[0]), files[1..])
  }

  /** The runs written for some files. */
  function Zip(files: seq<seq<Byte>>): seq<Run> { View(AllFiles(State(0, 1, []), files)) }

  // Which inputs come out as run-length encoding.

  predicate NoEof(x: seq<Byte>) {
    x == [] || (x[0] != EOF_BYTE && NoEof(x[1..]))
  }

  /** What the loop reads of x. */
  function Seen(x: seq<Byte>): (r: seq<Byte>)
    ensures |r| <= |x|
    ensures |r| == |x| <==> NoEof(x)
    ensures NoEof(x) ==> r == x
  {
    if x == [] || x[0] == EOF_BYTE then [] else [x[0]] + Seen(x[1..])
  }

  function LastOf(last: Byte, x: seq<Byte>): Byte { if x == [] then last else x[|x| - 1] }

  /** The files to come hold no 0xFF, and none of them starts after a zero byte. */
  predicate TailClean(last: Byte, files: seq<seq<Byte>>)
    decreases |files|
  {
    files == [] || (last != 0 && NoEof(files[0]) && TailClean(LastOf(last, files[0]), files[1..]))
  }

  /** Empty files first: then the only good input is the single byte 0xFF followed by a clean rest. */
  predicate LuckyClean(files: seq<seq<Byte>>)
    decreases |files|
  {
    && files != []
    && if files[0] == [] then LuckyClean(files[1..]) else files[0] == [EOF_BYTE] && TailClean(EOF_BYTE, files[1..])
  }

  predicate Clean(files: seq<seq<Byte>>) {
    && files != []
    && if files[0] == [] then LuckyClean(files[1..])
       else NoEof(files[0][1..]) && TailClean(files[0][|files[0]| - 1], files[1..])
  }

  lemma ReadPushes(st: State, c: Byte)
    ensures View(Read(st, c)) == Push(View(st), c)
  {
    assert View(st)[..|st.out|] == st.out;
  }

  lemma Shift(a: seq<Byte>, c: Byte, b: seq<Byte>)
    ensures a + [c] + b == a + ([c] + b)
  {
  }

  lemma {:induction false} ScanDecodes(st: State, x: seq<Byte>)
    requires st.count > 0
    ensures Decode(View(Scan(st, x))) == Decode(View(st)) + Seen(x) && Scan(st, x).count > 0
    decreases |x|
  {
    if x == [] || x[0] == EOF_BYTE {
      assert Decode(View(st)) + [] == Decode(View(st));
    } else {
      ReadPushes(st, x[0]);
      DecodePush(View(st), x[0]);
      ScanDecodes(Read(st, x[0]), x[1..]);
      Shift(Decode(View(st)), x[0], Seen(x[1..]));
    }
  }

  lemma {:induction false} ScanEncodes(st: State, x: seq<Byte>, p: seq<Byte>)
    requires View(st) == Encode(p)
    ensures View(Scan(st, x)) == Encode(p + Seen(x))
    decreases |x|
  {
    if x == [] || x[0] == EOF_BYTE {
      assert p + [] == p;
    } else {
      ReadPushes(st, x[0]);
      EncodeSnoc(p, x[0]);
      ScanEncodes(Read(st, x[0]), x[1..], p + [x[0]]);
      Shift(p, x[0], Seen(x[1..]));
    }
  }

  lemma {:induction false} ScanLast(st: State, x: seq<Byte>)
    ensures Scan(st, x).last == LastOf(st.last, Seen(x))
    decreases |x|
  {
    if x != [] && x[0] != EOF_BYTE {
      ScanLast(Read(st, x[0]), x[1..]);
    }
  }

  lemma ViewEnds(st: State)
    requires st.count > 0
    ensures |Decode(View(st))| > 0 && Decode(View(st))[|Decode(View(st))| - 1] == st.last
  {
    assert View(st)[..|View(st)| - 1] == st.out;
  }

  lemma ConcatHead(f: seq<Byte>, rest: seq<seq<Byte>>)
    ensures Concat([f] + rest) == f + Concat(rest)
  {
    ConcatAppend([f], rest);
    ConcatOne(f);
  }

  /** No file adds more bytes than it has. */
  lemma OneFileLength(st: State, x: seq<Byte>)
    requires st.count > 0
    ensures OneFile(st, x).count > 0
    ensures |Decode(View(OneFile(st, x)))| <= |Decode(View(st))| + |x|
    ensures |Decode(View(OneFile(st, x)))| == |Decode(View(st))| + |x| ==> x == [] || (st.last != 0 && NoEof(x))
  {
    if st.last != 0 {
      ScanDecodes(st, x);
    } else {
      var c: Byte := if x == [] then EOF_BYTE else x[0];
      assert View(st.(last := c))[..|st.out|] == View(st)[..|st.out|] == st.out;
      if x != [] {
        ScanDecodes(st.(last := c), x[1..]);
      }
    }
  }

  lemma {:induction false} FilesLength(st: State, files: seq<seq<Byte>>)
    requires st.count > 0
    ensures |Decode(View(AllFiles(st, files)))| <= |Decode(View(st))| + |Concat(files)|
    decreases |files|
  {
    if files != [] {
      OneFileLength(st, files[0]);
      FilesLength(OneFile(st, files[0]), files[1..]);
      ConcatHead(files[0], files[1..]);
      assert [files[0]] + files[1..] == files;
    }
  }

  lemma StartKeeps(st: State, c: Byte, p: nat)
    requires p < |Decode(View(st))| && (c == st.last || p < |Decode(st.out)|)
    ensures |Decode(View(st.(last := c)))| == |Decode(View(st))|
    ensures Decode(View(st.(last := c)))[p] == Decode(View(st))[p]
  {
    assert View(st.(last := c))[..|st.out|] == st.out && View(st)[..|st.out|] == st.out;
  }

  /** A position before a zero run that a scan ends in is in the runs written. */
  lemma {:induction false} ScanRuns(st: State, x: seq<Byte>, p: nat)
    requires st.count > 0 && p < |Decode(View(st))| && (st.last != 0 || p < |Decode(st.out)|)
    ensures Scan(st, x).last == 0 ==> p < |Decode(Scan(st, x).out)|
    decreases |x|
  {
    if x != [] && x[0] != EOF_BYTE {
      ReadPushes(st, x[0]);
      DecodePush(View(st), x[0]);
      ScanRuns(Read(st, x[0]), x[1..], p);
    }
  }

  /** A byte once read stays, unless it is in a last run of zeros. */
  lemma {:induction false} PositionStays(st: State, files: seq<seq<Byte>>, p: nat)
    requires st.count > 0 && p < |Decode(View(st))| && (st.last != 0 || p < |Decode(st.out)|)
    ensures |Decode(View(AllFiles(st, files)))| >= |Decode(View(st))|
    ensures Decode(View(AllFiles(st, files)))[p] == Decode(View(st))[p]
    decreases |files|
  {
    if files != [] {
      var next := OneFile(st, files[0]);
      var start := if st.last != 0 then st else st.(last := if files[0] == [] then EOF_BYTE else files[0][0]);
      var x := if st.last != 0 || files[0] == [] then files[0] else files[0][1..];
      assert next == Scan(start, x);
      StartKeeps(st, start.last, p);
      ScanDecodes(start, x);
      if next.last == 0 {
        ScanRuns(start, x, p);
      }
      PositionStays(next, files[1..], p);
    }
  }

  /** A current byte other than zero is there to stay. */
  lemma {:induction false} LastStays(st: State, files: seq<seq<Byte>>)
    requires st.count > 0 && st.last != 0
    ensures |Decode(View(AllFiles(st, files)))| >= |Decode(View(st))| > 0
    ensures Decode(View(AllFiles(st, files)))[|Decode(View(st))| - 1] == st.last
    decreases |files|
  {
    PositionStays(st, files, |Decode(View(st))| - 1);
    ViewEnds(st);
  }

  lemma ZeroReplaced(st: State)
    requires st.count > 0 && st.last == 0
    ensures |Decode(View(st.(last := EOF_BYTE)))| == |Decode(View(st))|
  {
    assert View(st.(last := EOF_BYTE))[..|st.out|] == View(st)[..|st.out|] == st.out;
  }

  /** A file that is cut short, or loses its first byte, leaves the output too short. */
  lemma TailShort(st: State, p: seq<Byte>, f: seq<Byte>, rest: seq<seq<Byte>>)
    requires st.count > 0 && View(st) == Encode(p) && f != [] && (st.last == 0 || !NoEof(f))
    ensures View(AllFiles(OneFile(st, f), rest)) != Encode(p + (f + Concat(rest)))
  {
    OneFileLength(st, f);
    FilesLength(OneFile(st, f), rest);
    DecodeEncode(p);
    DecodeEncode(p + (f + Concat(rest)));
  }

  /** An empty file after a zero byte turns the zeros into 0xFF for good. */
  lemma TailTurned(st: State, p: seq<Byte>, rest: seq<seq<Byte>>)
    requires st.count > 0 && p != [] && View(st) == Encode(p) && st.last == 0
    ensures View(AllFiles(OneFile(st, []), rest)) != Encode(p + Concat(rest))
  {
    ViewEnds(st);
    ZeroReplaced(st);
    LastStays(OneFile(st, []), rest);
    DecodeEncode(p);
    DecodeEncode(p + Concat(rest));
    assert (p + Concat(rest))[|p| - 1] == p[|p| - 1];
  }

  lemma TailStep(st: State, p: seq<Byte>, f: seq<Byte>)
    requires st.count > 0 && p != [] && View(st) == Encode(p) && st.last != 0 && NoEof(f)
    ensures var next := OneFile(st, f);
            next.count > 0 && View(next) == Encode(p + f) && next.last == LastOf(st.last, f) && p + f != []
  {
    ScanEncodes(st, f, p);
    ScanDecodes(st, f);
    ScanLast(st, f);
  }

  /** Once a text is encoded so far, the files to come are encoded with it exactly if they are clean. */
  lemma {:induction false} TailIff(st: State, p: seq<Byte>, files: seq<seq<Byte>>)
    requires st.count > 0 && p != [] && View(st) == Encode(p)
    ensures View(AllFiles(st, files)) == Encode(p + Concat(files)) <==> TailClean(st.last, files)
    decreases |files|
  {
    if files == [] {
      assert p + [] == p;
    } else {
      var f, rest := files[0], files[1..];
      ConcatHead(f, rest);
      assert [f] + rest == files;
      if st.last != 0 && NoEof(f) {
        TailStep(st, p, f);
        TailIff(OneFile(st, f), p + f, rest);
        assert p + f + Concat(rest) == p + (f + Concat(rest));
      } else if f != [] {
        TailShort(st, p, f, rest);
      } else {
        TailTurned(st, p, rest);
        assert f + Concat(rest) == Concat(rest);
      }
    }
  }

  /** After empty files the state is one 0xFF that was never read. */
  lemma {:induction false} LuckyIff(files: seq<seq<Byte>>)
    ensures View(AllFiles(State(EOF_BYTE, 1, []), files)) == Encode(Concat(files)) <==> LuckyClean(files)
    decreases |files|
  {
    var st := State(EOF_BYTE, 1, []);
    ViewEnds(st);
    if files != [] {
      var f, rest := files[0], files[1..];
      ConcatHead(f, rest);
      assert [f] + rest == files;
      assert View(st) == [Run(1, EOF_BYTE)] == Encode([EOF_BYTE]);
      DecodeEncode([EOF_BYTE]);
      DecodeEncode(Concat(files));
      if f == [] {
        LuckyIff(rest);
        assert f + Concat(rest) == Concat(rest);
      } else if f == [EOF_BYTE] {
        TailIff(st, f, rest);
      } else if f[0] == EOF_BYTE {
        FilesLength(st, rest);
      } else {
        LastStays(st, files);
      }
    }
  }

  /** my-zip writes the run-length encoding of its files exactly if they are clean. */
  lemma ZipIff(files: seq<seq<Byte>>)
    requires files != []
    ensures Zip(files) == Encode(Concat(files)) <==> Clean(files)
  {
    var f, rest := files[0], files[1..];
    ConcatHead(f, rest);
    assert [f] + rest == files;
    if f == [] {
      LuckyIff(rest);
      assert f + Concat(rest) == Concat(rest);
    } else {
      var st := State(f[0], 1, []);
      assert View(st) == [Run(1, f[0])] == Encode([f[0]]);
      ScanEncodes(st, f[1..], [f[0]]);
      ScanLast(st, f[1..]);
      ScanDecodes(st, f[1..]);
      DecodeEncode([f[0]]);
      DecodeEncode(Concat(files));
      if NoEof(f[1..]) {
        assert [f[0]] + f[1..] == f;
        TailIff(Scan(st, f[1..]), f, rest);
      } else {
        FilesLength(Scan(st, f[1..]), rest);
      }
    }
  }

  /** Bytes other than 0 and 0xFF are always safe. */
  predicate Plain(x: seq<Byte>) {
    forall k: nat {:trigger x[k]} :: k < |x| ==> x[k] != 0 && x[k] != EOF_BYTE
  }

  lemma {:induction false} PlainSeen(x: seq<Byte>)
    requires Plain(x)
    ensures NoEof(x)
  {
    if x != [] {
      forall k: nat | k < |x[1..]|
        ensures x[1..][k] != 0 && x[1..][k] != EOF_BYTE
      {
        assert x[1..][k] == x[k + 1];
      }
      PlainSeen(x[1..]);
    }
  }

  lemma {:induction false} PlainTail(last: Byte, files: seq<seq<Byte>>)
    requires last != 0 && forall i: nat {:trigger files[i]} :: i < |files| ==> Plain(files[i])
    ensures TailClean(last, files)
    decreases |files|
  {
    if files != [] {
      PlainSeen(files[0]);
      PlainTail(LastOf(last, files[0]), files[1..]);
    }
  }

  /** On plain bytes and a nonempty first file, my-zip writes what the parallel compressor writes. */
  lemma SameAsPzip(files: seq<seq<Byte>>, size: nat)
    requires size > 0 && files != [] && files[0] != []
    requires forall i: nat {:trigger files[i]} :: i < |files| ==> Plain(files[i])
    ensures Zip(files) == Encode(Concat(Bytes(AllChunks(files, size, |files|))))
  {
    PlainSeen(files[0]);
    var f := files[0];
    assert Plain(f) && f[0] != EOF_BYTE;
    PlainTail(f[|f| - 1], files[1..]);
    ZipIff(files);
    ChunkingKeepsEncoding(files, size);
  }

  lemma SerializeOne(rs: seq<Run>, r: Run)
    ensures Serialize(rs + [r]) == Serialize(rs) + RunBytes(r)
  {
    assert (rs + [r])[..|rs|] == rs;
  }

  /** The loop over one file: a byte like the last is counted, any other byte has the last run written. */
  method ScanFile(rest: seq<Byte>, last0: Byte, count0: nat, out0: seq<Byte>, ghost st0: State)
    returns (last: Byte, count: nat, out: seq<Byte>, ghost st: State)
    requires st0 == State(last0, count0, st0.out) && out0 == Serialize(st0.out)
    ensures st == Scan(st0, rest) && st == State(last, count, st.out) && out == Serialize(st.out)
  {
    last, count, out, st := last0, count0, out0, st0;
    var j := 0;
    while j < |rest| && rest[j] != EOF_BYTE
      invariant j <= |rest| && st == State(last, count, st.out) && out == Serialize(st.out)
      invariant Scan(st, rest[j..]) == Scan(st0, rest)
    {
      var current := rest[j];
      assert rest[j..][0] == current && rest[j..][1..] == rest[j + 1..];
      st := Read(st, current);
      if current == last {
        count := count + 1;
      } else {
        SerializeOne(st.out[..|st.out| - 1], Run(count, last));
        assert st.out[..|st.out| - 1] + [Run(count, last)] == st.out;
        out := out + WordBytes(count % 0x1_0000_0000) + [last];
        count, last := 1, current;
      }
      j := j + 1;
    }
  }

  /** What is left to read of a file once the current byte has been made sure of. */
  function AfterOpen(last: Byte, x: seq<Byte>): seq<Byte> { if last == 0 && x != [] then x[1..] else x }

  lemma NextFile(st: State, files: seq<seq<Byte>>, i: nat)
    requires i < |files|
    ensures AllFiles(st, files[i..]) == AllFiles(OneFile(st, files[i]), files[i + 1..])
    ensures var first: Byte := if st.last != 0 then st.last else if files[i] == [] then EOF_BYTE else files[i][0];
            OneFile(st, files[i]) == Scan(st.(last := first), AfterOpen(st.last, files[i]))
  {
    assert files[i..][0] == files[i] && files[i..][1..] == files[i + 1..];
  }

  /** The program: the current byte and its count, carried from file to file. */
  method MyZip(files: seq<seq<Byte>>) returns (out: seq<Byte>)
    requires files != []
    ensures out == Serialize(Zip(files))
  {
    var last: Byte, count: nat := 0, 1;
    ghost var st := State(0, 1, []);
    ghost var goal := AllFiles(st, files);
    assert files[0..] == files;
    out := [];
    var i := 0;
    while i < |files|
      invariant i <= |files| && st == State(last, count, st.out) && out == Serialize(st.out)
      invariant AllFiles(st, files[i..]) == goal
    {
      NextFile(st, files, i);
      var x := files[i];
      var rest := AfterOpen(last, x);
      if last == 0 {
        last := if x == [] then EOF_BYTE else x[0];
      }
      last, count, out, st := ScanFile(rest, last, count, out, st.(last := last));
      i := i + 1;
    }
    assert files[i..] == [];
    SerializeOne(st.out, Run(count, last));
    out := out + WordBytes(count % 0x1_0000_0000) + [last];
  }

  function UnzipAll(files: seq<seq<Byte>>): seq<Byte> {
    if files == [] then [] else UnzipAll(files[..|files| - 1]) + Unzip(files[|files| - 1])
  }

  method MyUnzip(files: seq<seq<Byte>>) returns (out: seq<Byte>)
    ensures out == UnzipAll(files)
  {
    out := [];
    var i := 0;
    while i < |files|
      invariant i <= |files| && out == UnzipAll(files[..i])
    {
      var fp := files[i];
      ghost var before := out;
      while |fp| >= 5
        invariant out + Unzip(fp) == before + Unzip(files[i])
        decreases |fp|
      {
        var number, chr := CountOf(fp), fp[4];
        ghost var start := out;
        var k := 0;
        while k < number
          invariant k <= number && out == start + Repeat(k, chr)
        {
          out := out + [chr];
          k := k + 1;
        }
        assert start + Repeat(number, chr) + Unzip(fp[5..]) == start + (Repeat(number, chr) + Unzip(fp[5..]));
        fp := fp[5..];
      }
      assert out + [] == out;
      assert files[..i + 1][..i] == files[..i];
      i := i + 1;
    }
    assert files[..i] == files;
  }

  /** Compressing clean files and decompressing the result gives the files back. */
  lemma ZipThenUnzip(files: seq<seq<Byte>>)
    requires files != [] && Clean(files) && |Concat(files)| < INT_LIMIT
    ensures Unzip(Serialize(Zip(files))) == Concat(files)
  {
    ZipIff(files);
    ZipUnzip(Concat(files));
  }

  /** Three inputs it gets wrong: a byte 0xFF, a file that ends in a zero byte before another, an empty first file. */
  lemma ZipFails()
    ensures !Clean([[65, 0xFF]]) && Zip([[65, 0xFF]]) == [Run(1, 65)] != Encode(Concat([[65, 0xFF]]))
    ensures !Clean([[0], [0]]) && Zip([[0], [0]]) == [Run(1, 0)] != Encode(Concat([[0], [0]]))
    ensures !Clean([[], [65]]) && Zip([[], [65]]) == [Run(1, 0xFF), Run(1, 65)] != Encode(Concat([[], [65]]))
  {
    var start := State(0, 1, []);
    ZipIff([[65, 0xFF]]);
    assert [65, 0xFF][1..] == [0xFF];
    assert [[65, 0xFF]][1..] == [];
    assert OneFile(start, [65, 0xFF]) == State(65, 1, []);
    ZipIff([[0], [0]]);
    assert [[0], [0]][1..] == [[0]] && [[0]][1..] == [] && [0][1..] == [];
    assert OneFile(start, [0]) == start;
    assert AllFiles(start, [[0]]) == start;
    ZipIff([[], [65]]);
    assert [[], [65]][1..] == [[65]] && [[65]][1..] == [] && [65][1..] == [];
    var empty := State(0xFF, 1, []);
    assert OneFile(start, []) == empty;
    assert OneFile(empty, [65]) == State(65, 1, [Run(1, 0xFF)]);
    assert AllFiles(empty, [[65]]) == State(65, 1, [Run(1, 0xFF)]);
  }
}
