/** The parallel compressor: chunks through a ring, encoded in any order, merged at the seams. */
module Pzip {
  import opened Blocks
  import opened Rle

  const QSIZE := 256

  datatype Chunk = Chunk(bytes: seq<Byte>, file: nat, id: nat)

  function Bytes(chunks: seq<Chunk>): (r: seq<seq<Byte>>)
    ensures |r| == |chunks|
    ensures forall k: nat {:trigger r[k]} :: k < |r| ==> r[k] == chunks[k].bytes
  {
    if chunks == [] then [] else Bytes(chunks[..|chunks| - 1]) + [chunks[|chunks| - 1].bytes]
  }

  // Cutting files into chunks.

  /** The size as an int, one more if dividing lost anything. */
  function Ceil(n: nat, d: nat): nat
    requires d > 0
  {
    if n % d == 0 then n / d else n / d + 1
  }

  function LastSize(n: nat, size: nat): nat
    requires size > 0
  {
    if Ceil(n, size) > n / size then n % size else size
  }

  /** A file cut into pieces of the given size, numbered from id; the last piece may be shorter. */
  function Chop(data: seq<Byte>, file: nat, size: nat, id: nat): (r: seq<Chunk>)
    requires size > 0
    ensures r == [] <==> data == []
    decreases |data|
  {
    if data == [] then []
    else
      var m := if size < |data| then size else |data|;
      [Chunk(data[..m], file, id)] + Chop(data[m..], file, size, id + 1)
  }

  lemma Scale(k: int, d: nat)
    requires k >= 1
    ensures k * d >= d
  {
  }

  lemma Divide(n: nat, d: nat, q: int, r: nat)
    requires d > 0 && n == q * d + r && r < d
    ensures n / d == q && n % d == r
  {
    var p, t := n / d, n % d;
    assert (p - q) * d == r - t && (q - p) * d == t - r;
    if p > q {
      Scale(p - q, d);
    } else if p < q {
      Scale(q - p, d);
    }
  }

  /** Dividing once the first full chunk is gone. */
  lemma CeilStep(n: nat, size: nat)
    requires size > 0 && n > 0
    ensures n <= size ==> Ceil(n, size) == 1 && LastSize(n, size) == n
    ensures n > size ==> Ceil(n, size) == 1 + Ceil(n - size, size) && LastSize(n, size) == LastSize(n - size, size)
  {
    if n < size {
      Divide(n, size, 0, n);
    } else {
      var q, r := n / size, n % size;
      assert q * size == (q - 1) * size + size;
      Divide(n - size, size, q - 1, r);
      if n == size {
        Divide(n, size, 1, 0);
      }
    }
  }

  lemma BytesAppend(a: seq<Chunk>, b: seq<Chunk>)
    ensures Bytes(a + b) == Bytes(a) + Bytes(b)
  {
  }

  lemma ConcatFirst(c: Chunk, rest: seq<Chunk>)
    ensures Concat(Bytes([c] + rest)) == c.bytes + Concat(Bytes(rest))
  {
    BytesAppend([c], rest);
    assert Bytes([c]) == [c.bytes];
    ConcatAppend([c.bytes], Bytes(rest));
    ConcatOne(c.bytes);
  }

  /** Every byte of the file is in exactly one chunk, in order. */
  lemma {:induction false} ChopCovers(data: seq<Byte>, file: nat, size: nat, id: nat)
    requires size > 0
    ensures Concat(Bytes(Chop(data, file, size, id))) == data
    decreases |data|
  {
    if data != [] {
      var m := if size < |data| then size else |data|;
      ChopCovers(data[m..], file, size, id + 1);
      ConcatFirst(Chunk(data[..m], file, id), Chop(data[m..], file, size, id + 1));
      assert data == data[..m] + data[m..];
    }
  }

  predicate NumberedAs(c: Chunk, file: nat, id: nat) { c.bytes != [] && c.file == file && c.id == id }

  /** No chunk is empty, they are numbered in order, and there are as many as the quotient rounded up. */
  lemma {:induction false} ChopNumbers(data: seq<Byte>, file: nat, size: nat, id: nat)
    requires size > 0
    ensures |Chop(data, file, size, id)| == Ceil(|data|, size)
    ensures forall k: nat {:trigger Chop(data, file, size, id)[k]} :: k < |Chop(data, file, size, id)| ==>
              NumberedAs(Chop(data, file, size, id)[k], file, id + k)
    decreases |data|
  {
    if data == [] {
      Divide(0, size, 0, 0);
    } else {
      var m := if size < |data| then size else |data|;
      ChopNumbers(data[m..], file, size, id + 1);
      CeilStep(|data|, size);
      if |data| <= size {
        Divide(0, size, 0, 0);
      }
    }
  }

  /** The chunks of the first n files, in the order the producer puts them. */
  function AllChunks(files: seq<seq<Byte>>, size: nat, n: nat): seq<Chunk>
    requires size > 0 && n <= |files|
  {
    if n == 0 then [] else AllChunks(files, size, n - 1) + Chop(files[n - 1], n - 1, size, 0)
  }

  function Sum(counts: seq<nat>, n: nat): nat
    requires n <= |counts|
  {
    if n == 0 then 0 else Sum(counts, n - 1) + counts[n - 1]
  }

  /** chunk_of_files after the producer has run. */
  ghost predicate CountsAre(counts: seq<nat>, files: seq<seq<Byte>>, size: nat)
    requires size > 0
  {
    && |counts| == |files|
    && forall i: nat {:trigger counts[i]} :: i < |files| ==> counts[i] == |Chop(files[i], i, size, 0)|
  }

  /** The index consume computes for a chunk is the chunk's place in the input: a bijection onto 0 .. N_chunks. */
  lemma {:induction false} IndexIsPlace(files: seq<seq<Byte>>, size: nat, counts: seq<nat>, n: nat, k: nat)
    requires size > 0 && CountsAre(counts, files, size) && n <= |files|
    ensures |AllChunks(files, size, n)| == Sum(counts, n)
    ensures k < |AllChunks(files, size, n)| ==>
              var c := AllChunks(files, size, n)[k];
              c.file < n && Sum(counts, c.file) + c.id == k && c.bytes != []
  {
    if n > 0 {
      IndexIsPlace(files, size, counts, n - 1, k);
      ChopNumbers(files[n - 1], n - 1, size, 0);
      assert counts[n - 1] == |Chop(files[n - 1], n - 1, size, 0)|;
    }
  }

  lemma CoverNext(a: seq<Chunk>, b: seq<Chunk>, files: seq<seq<Byte>>, n: nat)
    requires n < |files| && Concat(Bytes(a)) == Concat(files[..n]) && Concat(Bytes(b)) == files[n]
    ensures Concat(Bytes(a + b)) == Concat(files[..n + 1])
  {
    BytesAppend(a, b);
    ConcatAppend(Bytes(a), Bytes(b));
    ConcatNext(files, n);
  }

  /** The chunks together are the files together. */
  lemma {:induction false} ChunksCover(files: seq<seq<Byte>>, size: nat, n: nat)
    requires size > 0 && n <= |files|
    ensures Concat(Bytes(AllChunks(files, size, n))) == Concat(files[..n])
  {
    if n == 0 {
      assert AllChunks(files, size, 0) == [] && Bytes([]) == [] && files[..0] == [];
    } else {
      ChunksCover(files, size, n - 1);
      ChopCovers(files[n - 1], n - 1, size, 0);
      var a, b := AllChunks(files, size, n - 1), Chop(files[n - 1], n - 1, size, 0);
      CoverNext(a, b, files, n - 1);
      assert AllChunks(files, size, n) == a + b;
    }
  }

  // The encoded chunks and their merging.

  /** An encoded chunk: the first size entries of counts and chars. */
  datatype Compressed = Compressed(counts: seq<nat>, chars: seq<Byte>, size: nat)

  predicate WellFormed(c: Compressed) { c.size <= |c.counts| && c.size <= |c.chars| }

  function Runs(c: Compressed): (r: seq<Run>)
    requires WellFormed(c)
    ensures |r| == c.size
    ensures forall k: nat {:trigger r[k]} :: k < c.size ==> r[k] == Run(c.counts[k], c.chars[k])
  {
    seq(c.size, k requires 0 <= k < c.size => Run(c.counts[k], c.chars[k]))
  }

  lemma StartRun(s: seq<Byte>, i: nat)
    requires i < |s| && (0 < i ==> s[i] != s[i - 1])
    ensures Encode(s[..i + 1]) == Encode(s[..i]) + [Run(1, s[i])]
  {
    assert s[..i + 1][..i] == s[..i];
    if i > 0 {
      LastByte(s[..i]);
    }
  }

  lemma GrowRun(s: seq<Byte>, i: nat, before: seq<Run>, n: nat)
    requires i + 1 < |s| && s[i] == s[i + 1] && before + [Run(n, s[i])] == Encode(s[..i + 1])
    ensures before + [Run(n + 1, s[i])] == Encode(s[..i + 2])
  {
    assert s[..i + 2][..i + 1] == s[..i + 1];
  }

  /** The inner loop of the encoding: the run that starts at byte k is counted to its end. */
  method CountRun(input: seq<Byte>, counts: array<nat>, r: nat, k: nat, ghost before: seq<Run>) returns (i: nat)
    requires k < |input| && r < counts.Length && counts[r] == 1
    requires before + [Run(1, input[k])] == Encode(input[..k + 1])
    modifies counts
    ensures k <= i < |input| && input[i] == input[k] && (i + 1 < |input| ==> input[i + 1] != input[i])
    ensures before + [Run(counts[r], input[k])] == Encode(input[..i + 1])
    ensures forall j: nat :: j < counts.Length && j != r ==> counts[j] == old(counts[j])
  {
    i := k;
    while i + 1 < |input| && input[i] == input[i + 1]
      invariant k <= i < |input| && input[i] == input[k]
      invariant before + [Run(counts[r], input[k])] == Encode(input[..i + 1])
      invariant forall j: nat :: j < counts.Length && j != r ==> counts[j] == old(counts[j])
    {
      GrowRun(input, i, before, counts[r]);
      counts[r] := counts[r] + 1;
      i := i + 1;
    }
  }

  /** The encoding of one chunk. */
  method RleEncoding(input: seq<Byte>) returns (res: Compressed)
    ensures WellFormed(res) && Runs(res) == Encode(input)
  {
    var counts := new nat[|input|];
    var data := new Byte[|input|];
    var r, i := 0, 0;
    ghost var done: seq<Run> := [];
    assert input[..0] == [];
    while i < |input|
      invariant r == |done| <= i <= |input| && done == Encode(input[..i])
      invariant forall k: nat {:trigger done[k]} :: k < r ==> done[k] == Run(counts[k], data[k])
      invariant 0 < i < |input| ==> input[i] != input[i - 1]
    {
      data[r] := input[i];
      counts[r] := 1;
      StartRun(input, i);
      i := CountRun(input, counts, r, i, done);
      done := done + [Run(counts[r], data[r])];
      r, i := r + 1, i + 1;
    }
    assert input[..i] == input;
    res := Compressed(counts[..], data[..r], r);
    assert Runs(res) == done;
  }

  /** The next chunk's runs once the last run of r is carried into them. */
  function Carried(r: seq<Run>, next: seq<Run>): seq<Run>
    requires r != [] && next != []
  {
    next[0 := Run(next[0].count + r[|r| - 1].count, next[0].c)]
  }

  lemma SeamSame(out: seq<Run>, r: seq<Run>, next: seq<Run>)
    requires r != [] && next != [] && r[|r| - 1].c == next[0].c
    ensures Join(out + r, next) == out + r[..|r| - 1] + Carried(r, next)
  {
    var a := out + r;
    assert a[|a| - 1] == r[|r| - 1] && a[..|a| - 1] == out + r[..|r| - 1];
    assert Carried(r, next) == [Run(r[|r| - 1].count + next[0].count, next[0].c)] + next[1..];
  }

  lemma SeamDiffers(out: seq<Run>, r: seq<Run>, next: seq<Run>)
    requires r != [] && next != [] && r[|r| - 1].c != next[0].c
    ensures Join(out + r, next) == out + r + next
  {
    var a := out + r;
    assert a[|a| - 1] == r[|r| - 1];
  }

  /** print_queue between two chunks: what is written, and the chunk to come with the carried count, join up. */
  lemma MergeStep(out: seq<Run>, r: seq<Run>, next: seq<Run>, x: seq<Byte>, y: seq<Byte>)
    requires r != [] && next != [] && out + r == Encode(x) && next == Encode(y)
    ensures r[|r| - 1].c == next[0].c ==> out + r[..|r| - 1] + Carried(r, next) == Encode(x + y)
    ensures r[|r| - 1].c != next[0].c ==> out + r + next == Encode(x + y)
  {
    EncodeConcat(x, y);
    if r[|r| - 1].c == next[0].c {
      SeamSame(out, r, next);
    } else {
      SeamDiffers(out, r, next);
    }
  }

  ghost predicate EncodedFrom(result: seq<Compressed>, parts: seq<seq<Byte>>, n: nat) {
    && |result| == |parts|
    && forall k: nat {:trigger result[k]} :: n <= k < |result| ==>
         WellFormed(result[k]) && parts[k] != [] && Runs(result[k]) == Encode(parts[k])
  }

  lemma SerializeNext(rs: seq<Run>, r: seq<Run>, j: nat)
    requires j < |r|
    ensures Serialize(rs + r[..j + 1]) == Serialize(rs + r[..j]) + RunBytes(r[j])
  {
    assert (rs + r[..j + 1])[..|rs| + j] == rs + r[..j];
  }

  /** Writes the records of one chunk. */
  method Emit(c: Compressed, before: seq<Byte>, ghost rs: seq<Run>) returns (out: seq<Byte>)
    requires WellFormed(c) && before == Serialize(rs)
    ensures out == Serialize(rs + Runs(c))
  {
    out := before;
    ghost var r := Runs(c);
    var j := 0;
    assert rs + r[..0] == rs;
    while j < c.size
      invariant j <= c.size && out == Serialize(rs + r[..j])
    {
      SerializeNext(rs, r, j);
      out := out + (WordBytes(c.counts[j] % 0x1_0000_0000) + [c.chars[j]]);
      j := j + 1;
    }
    assert r[..j] == r;
  }

  lemma Carry(c: Compressed, r: seq<Run>)
    requires WellFormed(c) && c.size > 0 && r != []
    ensures var d := c.(counts := c.counts[0 := c.counts[0] + r[|r| - 1].count]);
            WellFormed(d) && Runs(d) == Carried(r, Runs(c))
  {
  }

  lemma Shorter(c: Compressed)
    requires WellFormed(c) && c.size > 0
    ensures WellFormed(c.(size := c.size - 1)) && Runs(c.(size := c.size - 1)) == Runs(c)[..c.size - 1]
  {
  }

  /** The comparison of two neighbours: the last run of chunk i moves into chunk i + 1 if the bytes agree. */
  method MergeNeighbours(result: array<Compressed>, i: nat, ghost done: seq<Run>, ghost x: seq<Byte>,
                         ghost y: seq<Byte>)
    requires i + 1 < result.Length && WellFormed(result[i]) && WellFormed(result[i + 1]) && x != [] && y != []
    requires result[i].size > 0 && done + Runs(result[i]) == Encode(x) && Runs(result[i + 1]) == Encode(y)
    modifies result
    ensures WellFormed(result[i]) && WellFormed(result[i + 1]) && Runs(result[i + 1]) != []
    ensures done + Runs(result[i]) + Runs(result[i + 1]) == Encode(x + y)
    ensures forall k: nat {:trigger result[k]} ::
              k < result.Length && k != i && k != i + 1 ==> result[k] == old(result[k])
  {
    var cur, next, last := result[i], result[i + 1], result[i].size - 1;
    MergeStep(done, Runs(cur), Runs(next), x, y);
    if cur.chars[last] == next.chars[0] {
      Carry(next, Runs(cur));
      Shorter(cur);
      result[i + 1] := next.(counts := next.counts[0 := next.counts[0] + cur.counts[last]]);
      result[i] := cur.(size := last);
    }
  }

  /** What is written and the chunk at hand together encode x. */
  ghost predicate Merged(c: Compressed, done: seq<Run>, x: seq<Byte>) {
    WellFormed(c) && Runs(c) != [] && done + Runs(c) == Encode(x)
  }

  lemma NonEmpty(a: seq<Run>, b: seq<Run>, x: seq<Byte>)
    requires b != [] && a + b == Encode(x)
    ensures x != []
  {
  }

  /**
   * Merges in place, each chunk's last run into the next chunk's first when the bytes agree, and writes the
   * records: those of the whole input encoded at once.
   */
  method PrintQueue(result: array<Compressed>, ghost parts: seq<seq<Byte>>) returns (out: seq<Byte>)
    requires EncodedFrom(result[..], parts, 0)
    modifies result
    ensures out == Serialize(Encode(Concat(parts)))
  {
    out := [];
    ghost var done: seq<Run>, sofar: seq<Byte> := [], [];
    var i := 0;
    if result.Length > 0 {
      ConcatNext(parts, 0);
      sofar := parts[0];
      assert result[..][0] == result[0] && done + Runs(result[0]) == Runs(result[0]);
    }
    while i < result.Length
      invariant i <= result.Length == |parts| && out == Serialize(done)
      invariant EncodedFrom(result[..], parts, i + 1)
      invariant i < result.Length ==> Merged(result[i], done, sofar) && sofar == Concat(parts[..i + 1])
      invariant i == result.Length ==> done == Encode(Concat(parts))
    {
      if i != result.Length - 1 {
        assert result[..][i + 1] == result[i + 1];
        NonEmpty(done, Runs(result[i]), sofar);
        MergeNeighbours(result, i, done, sofar, parts[i + 1]);
        ConcatNext(parts, i + 1);
        sofar := sofar + parts[i + 1];
      } else {
        assert parts[..i + 1] == parts;
      }
      out := Emit(result[i], out, done);
      done := done + Runs(result[i]);
      i := i + 1;
    }
  }

  // The ring between the producer and the consumers.

  /** What a consumer is doing: nothing, or encoding a chunk it has taken. */
  datatype Work = Idle | Holds(c: Chunk)

  ghost predicate Encoded(r: Compressed, c: Chunk) { WellFormed(r) && Runs(r) == Encode(c.bytes) }

  /** A consumer holds only chunks that have been taken. */
  ghost predicate HoldOk(w: Work, input: seq<Chunk>, got: nat)
    requires got <= |input|
  {
    w.Holds? ==> exists k: nat {:trigger input[k]} :: k < got && input[k] == w.c
  }

  /** Chunk k is stored, or some consumer is working on it. */
  ghost predicate Tended(result: seq<Compressed>, working: seq<Work>, input: seq<Chunk>, k: nat)
    requires k < |input| == |result|
  {
    || Encoded(result[k], input[k])
    || exists t: nat {:trigger working[t]} :: t < |working| && working[t] == Holds(input[k])
  }

  ghost predicate PoolOk(result: seq<Compressed>, working: seq<Work>, input: seq<Chunk>, got: nat) {
    && |result| == |input| && got <= |input|
    && (forall k: nat {:trigger Tended(result, working, input, k)} :: k < got ==> Tended(result, working, input, k))
    && (forall t: nat {:trigger HoldOk(working[t], input, got)} :: t < |working| ==> HoldOk(working[t], input, got))
  }

  lemma Taken(result: seq<Compressed>, working: seq<Work>, input: seq<Chunk>, got: nat, t: nat)
    requires PoolOk(result, working, input, got) && got < |input| && t < |working| && working[t] == Idle
    ensures PoolOk(result, working[t := Holds(input[got])], input, got + 1)
  {
    var after := working[t := Holds(input[got])];
    forall k: nat {:trigger Tended(result, after, input, k)} | k < got + 1
      ensures Tended(result, after, input, k)
    {
      if k == got {
        assert after[t] == Holds(input[k]);
      } else {
        assert Tended(result, working, input, k);
        if !Encoded(result[k], input[k]) {
          var u: nat :| u < |working| && working[u] == Holds(input[k]);
          assert after[u] == Holds(input[k]);
        }
      }
    }
    forall u: nat {:trigger HoldOk(after[u], input, got + 1)} | u < |after|
      ensures HoldOk(after[u], input, got + 1)
    {
      assert HoldOk(working[u], input, got);
    }
  }

  lemma Stored(before: seq<Compressed>, result: seq<Compressed>, working: seq<Work>, input: seq<Chunk>, got: nat,
               t: nat, k: nat)
    requires PoolOk(before, working, input, got) && t < |working| && k < got && working[t] == Holds(input[k])
    requires |result| == |before| && Encoded(result[k], input[k])
    requires forall j: nat {:trigger input[j]} :: j < |input| && j != k ==> input[j] != input[k]
    requires forall j: nat {:trigger result[j]} :: j < |result| && j != k ==> result[j] == before[j]
    ensures PoolOk(result, working[t := Idle], input, got)
  {
    var after := working[t := Idle];
    forall j: nat {:trigger Tended(result, after, input, j)} | j < got
      ensures Tended(result, after, input, j)
    {
      assert Tended(before, working, input, j);
      if j != k && !Encoded(before[j], input[j]) {
        var u: nat :| u < |working| && working[u] == Holds(input[j]);
        assert after[u] == Holds(input[j]);
      }
    }
    forall u: nat {:trigger HoldOk(after[u], input, got)} | u < |after|
      ensures HoldOk(after[u], input, got)
    {
      assert HoldOk(working[u], input, got);
    }
  }

  /** No chunk comes twice. */
  lemma OnlyOnce(files: seq<seq<Byte>>, size: nat, counts: seq<nat>, k: nat)
    requires size > 0 && CountsAre(counts, files, size) && k < |AllChunks(files, size, |files|)|
    ensures forall j: nat {:trigger AllChunks(files, size, |files|)[j]} ::
              j < |AllChunks(files, size, |files|)| && j != k ==>
                AllChunks(files, size, |files|)[j] != AllChunks(files, size, |files|)[k]
  {
    IndexIsPlace(files, size, counts, |files|, k);
    forall j: nat | j < |AllChunks(files, size, |files|)| && j != k
      ensures AllChunks(files, size, |files|)[j] != AllChunks(files, size, |files|)[k]
    {
      IndexIsPlace(files, size, counts, |files|, j);
    }
  }

  lemma AllStored(result: seq<Compressed>, working: seq<Work>, input: seq<Chunk>)
    requires PoolOk(result, working, input, |input|)
    requires forall t: nat {:trigger working[t]} :: t < |working| ==> working[t] == Idle
    ensures forall k: nat {:trigger result[k]} :: k < |result| ==> Encoded(result[k], input[k])
  {
    forall k: nat | k < |result|
      ensures Encoded(result[k], input[k])
    {
      assert Tended(result, working, input, k);
    }
  }

  lemma NoneEmpty(files: seq<seq<Byte>>, size: nat, counts: seq<nat>)
    requires size > 0 && CountsAre(counts, files, size)
    ensures forall k: nat {:trigger AllChunks(files, size, |files|)[k]} ::
              k < |AllChunks(files, size, |files|)| ==> AllChunks(files, size, |files|)[k].bytes != []
  {
    forall k: nat | k < |AllChunks(files, size, |files|)|
      ensures AllChunks(files, size, |files|)[k].bytes != []
    {
      IndexIsPlace(files, size, counts, |files|, k);
    }
  }

  predicate InRing(queue: seq<Chunk>, input: seq<Chunk>, k: nat)
    requires |queue| == QSIZE && k < |input|
  {
    |input| <= k + QSIZE ==> queue[k % QSIZE] == input[k]
  }

  /** The last QSIZE chunks are where they were put. */
  ghost predicate RingHolds(queue: seq<Chunk>, input: seq<Chunk>)
    requires |queue| == QSIZE
  {
    forall k: nat {:trigger InRing(queue, input, k)} :: k < |input| ==> InRing(queue, input, k)
  }

  lemma RingPut(queue: seq<Chunk>, input: seq<Chunk>, c: Chunk)
    requires |queue| == QSIZE && RingHolds(queue, input)
    ensures RingHolds(queue[|input| % QSIZE := c], input + [c])
  {
    var q, s := queue[|input| % QSIZE := c], input + [c];
    forall k: nat {:trigger InRing(q, s, k)} | k < |s|
      ensures InRing(q, s, k)
    {
      if k < |input| {
        assert InRing(queue, input, k);
      }
    }
  }

  /** The producer has made j chunks out of the first at bytes of a file; the rest makes the rest of the chunks. */
  ghost predicate Producing(data: seq<Byte>, file: nat, size: nat, j: nat, at: nat, done: seq<Chunk>, count: nat,
                            lastSize: nat)
    requires size > 0 && at <= |data|
  {
    && j <= count && count - j == Ceil(|data| - at, size)
    && (j < count ==> LastSize(|data| - at, size) == lastSize)
    && done + Chop(data[at..], file, size, j) == Chop(data, file, size, 0)
  }

  lemma CeilPositive(n: nat, size: nat)
    requires size > 0 && n > 0
    ensures Ceil(n, size) > 0
  {
    assert n == n / size * size + n % size;
    if n / size == 0 {
      assert n / size * size == 0;
    }
  }

  lemma LeftOver(n: nat, size: nat)
    requires size > 0
    ensures Ceil(n, size) == 0 <==> n == 0
    ensures Ceil(n, size) == 1 <==> 0 < n <= size
  {
    if n == 0 {
      Divide(0, size, 0, 0);
    } else {
      CeilStep(n, size);
      if n > size {
        CeilPositive(n - size, size);
      }
    }
  }

  lemma ProducedAll(data: seq<Byte>, file: nat, size: nat, at: nat, done: seq<Chunk>, count: nat, lastSize: nat)
    requires size > 0 && at <= |data| && Producing(data, file, size, count, at, done, count, lastSize)
    ensures done == Chop(data, file, size, 0)
  {
    LeftOver(|data| - at, size);
  }

  lemma ProducingStart(data: seq<Byte>, file: nat, size: nat)
    requires size > 0 && data != []
    ensures Producing(data, file, size, 0, 0, [], Ceil(|data|, size), LastSize(|data|, size))
    ensures Ceil(|data|, size) == |Chop(data, file, size, 0)|
  {
    ChopNumbers(data, file, size, 0);
    LeftOver(|data|, size);
    assert data[0..] == data;
  }

  lemma ChopNext(data: seq<Byte>, at: nat, file: nat, size: nat, j: nat)
    requires size > 0 && at < |data|
    ensures var n := if size < |data| - at then size else |data| - at;
            Chop(data[at..], file, size, j)
            == [Chunk(data[at..at + n], file, j)] + Chop(data[at + n..], file, size, j + 1)
  {
    var rest := data[at..];
    var n := if size < |rest| then size else |rest|;
    assert rest[..n] == data[at..at + n] && rest[n..] == data[at + n..];
  }

  /** The size of the next chunk when left bytes make the last few of the chunks. */
  lemma NextSize(left: nat, size: nat, few: nat, lastSize: nat)
    requires size > 0 && few > 0 && few == Ceil(left, size) && LastSize(left, size) == lastSize
    ensures var n := if few == 1 then lastSize else size;
            && n == (if size < left then size else left)
            && few - 1 == Ceil(left - n, size) && (few > 1 ==> LastSize(left - n, size) == lastSize)
  {
    LeftOver(left, size);
    CeilStep(left, size);
    LeftOver(0, size);
  }

  /** The next chunk moves from what is left to what is done. */
  lemma ChopMoves(data: seq<Byte>, at: nat, n: nat, file: nat, size: nat, j: nat, done: seq<Chunk>, all: seq<Chunk>)
    requires size > 0 && at < |data| && n == (if size < |data| - at then size else |data| - at)
    requires done + Chop(data[at..], file, size, j) == all
    ensures done + [Chunk(data[at..at + n], file, j)] + Chop(data[at + n..], file, size, j + 1) == all
  {
    ChopNext(data, at, file, size, j);
  }

  lemma ProducingNext(data: seq<Byte>, file: nat, size: nat, j: nat, at: nat, done: seq<Chunk>, count: nat,
                      lastSize: nat)
    requires size > 0 && at <= |data| && j < count && Producing(data, file, size, j, at, done, count, lastSize)
    ensures var n := if j == count - 1 then lastSize else size;
            at + n <= |data|
            && Producing(data, file, size, j + 1, at + n, done + [Chunk(data[at..at + n], file, j)], count, lastSize)
  {
    NextSize(|data| - at, size, count - j, lastSize);
    LeftOver(|data| - at, size);
    var n := if j == count - 1 then lastSize else size;
    ChopMoves(data, at, n, file, size, j, done, Chop(data, file, size, 0));
  }

  class Zip {
    const size: nat
    const queue: array<Chunk>
    var nextIn: nat
    var nextOut: nat
    var taken: nat
    var chunkOfFiles: seq<nat>
    /** The chunks put so far, and how many of them have been taken. */
    ghost var input: seq<Chunk>
    ghost var got: nat

    ghost predicate Valid()
      reads this, queue
    {
      && size > 0 && queue.Length == QSIZE
      && got <= |input| && taken == |input| - got
      && nextIn == |input| % QSIZE && nextOut == got % QSIZE
      && RingHolds(queue[..], input)
    }

    constructor (size: nat)
      requires size > 0
      ensures Valid() && this.size == size && input == [] && got == 0 && chunkOfFiles == [] && fresh(queue)
    {
      this.size := size;
      queue := new Chunk[QSIZE](_ => Chunk([], 0, 0));
      nextIn, nextOut, taken, chunkOfFiles, input, got := 0, 0, 0, [], [], 0;
    }

    method Put(c: Chunk)
      requires Valid()
      modifies this, queue
      ensures Valid() && input == old(input) + [c] && got == old(got) && chunkOfFiles == old(chunkOfFiles)
    {
      RingPut(queue[..], input, c);
      queue[nextIn] := c;
      nextIn := (nextIn + 1) % QSIZE;
      taken := taken + 1;
      input := input + [c];
    }

    /** The chunk in turn, as long as the ring has not come round over it. */
    method Get() returns (c: Chunk)
      requires Valid() && taken != 0
      modifies this`nextOut, this`taken, this`got
      ensures Valid() && got == old(got) + 1 && input == old(input) && chunkOfFiles == old(chunkOfFiles)
      ensures c == queue[old(got) % QSIZE]
      ensures |input| <= old(got) + QSIZE ==> c == input[old(got)]
    {
      c := queue[nextOut];
      assert InRing(queue[..], input, got);
      nextOut := (nextOut + 1) % QSIZE;
      taken := taken - 1;
      got := got + 1;
    }

    /** The chunks of one file; mapping an empty file fails, which ends the program. */
    method ProduceFile(data: seq<Byte>, file: nat) returns (ok: bool)
      requires Valid()
      modifies this, queue
      ensures Valid() && got == old(got)
      ensures ok <==> data != []
      ensures ok ==> input == old(input) + Chop(data, file, size, 0)
                     && chunkOfFiles == old(chunkOfFiles) + [|Chop(data, file, size, 0)|]
    {
      var count, lastSize := Ceil(|data|, size), LastSize(|data|, size);
      chunkOfFiles := chunkOfFiles + [count];
      if data == [] {
        return false;
      }
      ProducingStart(data, file, size);
      var j, at := 0, 0;
      ghost var done: seq<Chunk> := [];
      while j < count
        invariant Valid() && got == old(got) && chunkOfFiles == old(chunkOfFiles) + [count]
        invariant 0 <= at <= |data| && input == old(input) + done
        invariant Producing(data, file, size, j, at, done, count, lastSize)
      {
        var n := if j == count - 1 then lastSize else size;
        ProducingNext(data, file, size, j, at, done, count, lastSize);
        var product := Chunk(data[at..at + n], file, j);
        Put(product);
        done := done + [product];
        assert input == old(input) + done;
        j, at := j + 1, at + n;
      }
      ProducedAll(data, file, size, at, done, count, lastSize);
      return true;
    }

    /** Cuts all files up, or stops at an empty one. */
    method Produce(files: seq<seq<Byte>>) returns (ok: bool)
      requires Valid() && input == [] && chunkOfFiles == []
      modifies this, queue
      ensures Valid() && got == old(got)
      ensures ok <==> forall i: nat {:trigger files[i]} :: i < |files| ==> files[i] != []
      ensures ok ==> input == AllChunks(files, size, |files|) && CountsAre(chunkOfFiles, files, size)
    {
      var i := 0;
      while i < |files|
        invariant i <= |files| && Valid() && got == old(got)
        invariant forall k: nat {:trigger files[k]} :: k < i ==> files[k] != []
        invariant input == AllChunks(files, size, i) && |chunkOfFiles| == i
        invariant forall k: nat {:trigger chunkOfFiles[k]} :: k < i ==> chunkOfFiles[k] == |Chop(files[k], k, size, 0)|
      {
        ok := ProduceFile(files[i], i);
        if !ok {
          return;
        }
        i := i + 1;
      }
      return true;
    }

    /** The second half of a consumer's round: encodes the chunk and stores it under the index it works out. */
    method Store(c: Chunk, result: array<Compressed>, ghost files: seq<seq<Byte>>, ghost k: nat)
      requires Valid() && k < |input| == result.Length && input[k] == c
      requires input == AllChunks(files, size, |files|) && CountsAre(chunkOfFiles, files, size)
      modifies result
      ensures Encoded(result[k], c)
      ensures forall j: nat {:trigger result[j]} :: j < result.Length && j != k ==> result[j] == old(result[j])
    {
      IndexIsPlace(files, size, chunkOfFiles, |files|, k);
      var index, i := 0, 0;
      while i < c.file
        invariant i <= c.file && index == Sum(chunkOfFiles, i)
      {
        index := index + chunkOfFiles[i];
        i := i + 1;
      }
      index := index + c.id;
      var encoded := RleEncoding(c.bytes);
      result[index] := encoded;
    }

    /**
     * The turn of consumer t: it takes a chunk out of the ring, under the lock, or stores the one it holds. A
     * consumer that holds nothing when the ring is empty is done.
     */
    method Turn(t: nat, working: seq<Work>, result: array<Compressed>, ghost files: seq<seq<Byte>>)
      returns (after: seq<Work>)
      requires Valid() && t < |working| && |input| <= QSIZE
      requires input == AllChunks(files, size, |files|) && CountsAre(chunkOfFiles, files, size)
      requires PoolOk(result[..], working, input, got)
      modifies this`nextOut, this`taken, this`got, result
      ensures Valid() && |after| == |working| && PoolOk(result[..], after, input, got)
      ensures after == working[t := after[t]]
      ensures if working[t].Holds? then got == old(got) && after[t] == Idle
              else if old(taken) == 0 then got == old(got) && after[t] == Idle
              else got == old(got) + 1 && after[t].Holds?
    {
      ghost var before := result[..];
      match working[t] {
        case Idle =>
          after := working;
          if taken != 0 {
            var c := Get();
            after := working[t := Holds(c)];
            Taken(before, working, input, got - 1, t);
          }
        case Holds(c) =>
          assert HoldOk(working[t], input, got);
          ghost var k: nat :| k < got && input[k] == c;
          Store(c, result, files, k);
          after := working[t := Idle];
          OnlyOnce(files, size, chunkOfFiles, k);
          Stored(before, result[..], working, input, got, t, k);
      }
    }

    /** The consumers take turns as the schedule says, and are then left to finish one after another. */
    method Consume(threads: nat, schedule: seq<nat>, result: array<Compressed>, ghost files: seq<seq<Byte>>)
      requires Valid() && got == 0 && |input| <= QSIZE && result.Length == |input| && threads > 0
      requires input == AllChunks(files, size, |files|) && CountsAre(chunkOfFiles, files, size)
      modifies this`nextOut, this`taken, this`got, result
      ensures EncodedFrom(result[..], Bytes(input), 0)
    {
      var working: seq<Work> := seq(threads, _ => Idle);
      var i := 0;
      while i < |schedule|
        invariant Valid() && |working| == threads && PoolOk(result[..], working, input, got)
      {
        if schedule[i] < threads {
          working := Turn(schedule[i], working, result, files);
        }
        i := i + 1;
      }
      while taken != 0
        invariant Valid() && |working| == threads && PoolOk(result[..], working, input, got)
        decreases |input| - got, if working[0].Holds? then 1 else 0
      {
        working := Turn(0, working, result, files);
      }
      var t := 0;
      while t < threads
        invariant t <= threads == |working| && Valid() && taken == 0 && PoolOk(result[..], working, input, got)
        invariant forall u: nat {:trigger working[u]} :: u < t ==> working[u] == Idle
      {
        working := Turn(t, working, result, files);
        t := t + 1;
      }
      AllStored(result[..], working, input);
      NoneEmpty(files, size, chunkOfFiles);
    }
  }

  /** The largest index below n with k's remainder. */
  lemma Latest(k: nat, n: nat) returns (m: nat)
    requires k < n
    ensures k <= m < n <= m + QSIZE && m % QSIZE == k % QSIZE && (m == k <==> n <= k + QSIZE)
  {
    var q := (n - 1 - k) / QSIZE;
    m := k + QSIZE * q;
    assert n - 1 - k == QSIZE * q + (n - 1 - k) % QSIZE;
  }

  /** A chunk is still in the ring when the producer is done exactly if no more than QSIZE - 1 others came after it. */
  lemma RingKeepsIff(queue: seq<Chunk>, files: seq<seq<Byte>>, size: nat, counts: seq<nat>, k: nat)
    requires size > 0 && CountsAre(counts, files, size) && |queue| == QSIZE
    requires RingHolds(queue, AllChunks(files, size, |files|)) && k < |AllChunks(files, size, |files|)|
    ensures queue[k % QSIZE] == AllChunks(files, size, |files|)[k] <==> |AllChunks(files, size, |files|)| <= k + QSIZE
  {
    var input := AllChunks(files, size, |files|);
    var m := Latest(k, |input|);
    assert InRing(queue, input, m);
    IndexIsPlace(files, size, counts, |files|, k);
    IndexIsPlace(files, size, counts, |files|, m);
  }

  /** It does lose chunks, whatever their size: of a file of 256 chunks and a byte the first has been overwritten. */
  lemma RingLosesFirst(queue: seq<Chunk>, data: seq<Byte>, size: nat, counts: seq<nat>)
    requires size > 0 && |data| == QSIZE * size + 1
    requires |queue| == QSIZE && CountsAre(counts, [data], size) && RingHolds(queue, AllChunks([data], size, 1))
    ensures |AllChunks([data], size, 1)| == QSIZE + 1 && queue[0] != AllChunks([data], size, 1)[0]
  {
    ChopNumbers(data, 0, size, 0);
    if size == 1 {
      Divide(|data|, 1, |data|, 0);
    } else {
      Divide(|data|, size, QSIZE, 1);
    }
    assert AllChunks([data], size, 0) == [];
    RingKeepsIff(queue, [data], size, counts, 0);
  }

  /**
   * The whole program, for every number of consumers and every order in which they take and store chunks: as long
   * as the chunks fit the ring, the output is the encoding of all files as one, and unzipping it gives them back.
   */
  method ParallelZip(files: seq<seq<Byte>>, size: nat, threads: nat, schedule: seq<nat>)
    returns (ok: bool, out: seq<Byte>)
    requires size > 0 && threads > 0 && |AllChunks(files, size, |files|)| <= QSIZE
    ensures ok <==> forall i: nat {:trigger files[i]} :: i < |files| ==> files[i] != []
    ensures ok ==> out == Serialize(Encode(Concat(files)))
    ensures ok && |Concat(files)| < INT_LIMIT ==> Unzip(out) == Concat(files)
  {
    var zip := new Zip(size);
    ok := zip.Produce(files);
    out := [];
    if ok {
      var result := new Compressed[zip.taken](_ => Compressed([], [], 0));
      zip.Consume(threads, schedule, result, files);
      ghost var parts := Bytes(zip.input);
      out := PrintQueue(result, parts);
      ChunksCover(files, size, |files|);
      assert files[..|files|] == files;
      if |Concat(files)| < INT_LIMIT {
        ZipUnzip(Concat(files));
      }
    }
  }

  /** The chunks of some files are their concatenation, so cutting them up does not change the encoding. */
  lemma ChunkingKeepsEncoding(files: seq<seq<Byte>>, size: nat)
    requires size > 0
    ensures Encode(Concat(Bytes(AllChunks(files, size, |files|)))) == Encode(Concat(files))
  {
    ChunksCover(files, size, |files|);
    assert files[..|files|] == files;
  }
}
