/** Run-length encoding: canonical runs, what they decode to, and how two encodings join. */
module Rle {
  import opened Blocks

  datatype Run = Run(count: nat, c: Byte)

  function Repeat(n: nat, c: Byte): (r: seq<Byte>)
    ensures |r| == n && forall k: nat {:trigger r[k]} :: k < n ==> r[k] == c
  {
    if n == 0 then [] else Repeat(n - 1, c) + [c]
  }

  function Decode(rs: seq<Run>): seq<Byte> {
    if rs == [] then [] else Decode(rs[..|rs| - 1]) + Repeat(rs[|rs| - 1].count, rs[|rs| - 1].c)
  }

  /** One more byte: the last run grows, or a new one starts. */
  function Push(rs: seq<Run>, c: Byte): (r: seq<Run>)
    ensures r != []
  {
    var n := |rs| - 1;
    if rs != [] && rs[n].c == c then rs[n := Run(rs[n].count + 1, c)] else rs + [Run(1, c)]
  }

  function Encode(s: seq<Byte>): (rs: seq<Run>)
    ensures rs == [] <==> s == []
  {
    if s == [] then [] else Push(Encode(s[..|s| - 1]), s[|s| - 1])
  }

  /** No empty run, and no two neighbouring runs of the same byte. */
  ghost predicate Canonical(rs: seq<Run>) {
    && (forall k: nat {:trigger rs[k]} :: k < |rs| ==> rs[k].count > 0)
    && (forall k: nat, m: nat {:trigger rs[k], rs[m]} :: m == k + 1 < |rs| ==> rs[k].c != rs[m].c)
  }

  lemma {:induction false} EncodeCanonical(s: seq<Byte>)
    ensures Canonical(Encode(s))
  {
    if s != [] {
      EncodeCanonical(s[..|s| - 1]);
    }
  }

  lemma DecodePush(rs: seq<Run>, c: Byte)
    ensures Decode(Push(rs, c)) == Decode(rs) + [c]
  {
    var n := |rs| - 1;
    if rs != [] && rs[n].c == c {
      assert Push(rs, c)[..n] == rs[..n];
    } else {
      assert Push(rs, c)[..n + 1] == rs;
      assert Repeat(1, c) == [c];
    }
  }

  lemma EncodeSnoc(s: seq<Byte>, c: Byte)
    ensures Encode(s + [c]) == Push(Encode(s), c)
  {
    assert (s + [c])[..|s|] == s;
  }

  lemma DecodeSnoc(s: seq<Byte>, c: Byte)
    requires Decode(Encode(s)) == s
    ensures Decode(Encode(s + [c])) == s + [c]
  {
    EncodeSnoc(s, c);
    DecodePush(Encode(s), c);
  }

  lemma {:induction false} DecodeEncode(s: seq<Byte>)
    ensures Decode(Encode(s)) == s
  {
    if s != [] {
      DecodeEncode(s[..|s| - 1]);
      DecodeSnoc(s[..|s| - 1], s[|s| - 1]);
      assert s[..|s| - 1] + [s[|s| - 1]] == s;
    }
  }

  /** The last run is of the last byte. */
  lemma {:induction false} LastByte(s: seq<Byte>)
    requires s != []
    ensures Encode(s)[|Encode(s)| - 1].c == s[|s| - 1]
  {
  }

  lemma {:induction false} EncodeRepeat(s: seq<Byte>, n: nat, c: Byte)
    requires s != [] ==> s[|s| - 1] != c
    requires n > 0
    ensures Encode(s + Repeat(n, c)) == Encode(s) + [Run(n, c)]
  {
    var t := s + Repeat(n, c);
    assert t[..|t| - 1] == s + Repeat(n - 1, c);
    if n == 1 {
      assert t[..|t| - 1] == s;
      if s != [] {
        LastByte(s);
      }
    } else {
      EncodeRepeat(s, n - 1, c);
    }
  }

  lemma DecodeLast(a: seq<Run>)
    requires a != []
    ensures Decode(a) == Decode(a[..|a| - 1]) + Repeat(a[|a| - 1].count, a[|a| - 1].c)
  {
  }

  lemma DecodeEnds(rs: seq<Run>)
    requires rs != [] && rs[|rs| - 1].count > 0
    ensures Decode(rs) != [] && Decode(rs)[|Decode(rs)| - 1] == rs[|rs| - 1].c
  {
    DecodeLast(rs);
  }

  /** A canonical list of runs is the encoding of what it decodes to: there is no other one. */
  lemma {:induction false} EncodeDecode(rs: seq<Run>)
    requires Canonical(rs)
    ensures Encode(Decode(rs)) == rs
  {
    if rs != [] {
      var n := |rs| - 1;
      var head := rs[..n];
      EncodeDecode(head);
      if n > 0 {
        assert head[n - 1].count > 0 && head[n - 1].c != rs[n].c;
        DecodeEnds(head);
      }
      EncodeRepeat(Decode(head), rs[n].count, rs[n].c);
      DecodeLast(rs);
      assert rs == head + [rs[n]];
    }
  }

  /** Two encodings side by side, with the runs at the seam made one if they are of the same byte. */
  function Join(a: seq<Run>, b: seq<Run>): seq<Run> {
    if a == [] || b == [] || a[|a| - 1].c != b[0].c then a + b
    else a[..|a| - 1] + [Run(a[|a| - 1].count + b[0].count, b[0].c)] + b[1..]
  }

  lemma Assoc(a: seq<Byte>, b: seq<Byte>, c: seq<Byte>)
    ensures (a + b) + c == a + (b + c)
  {
  }

  lemma {:induction false} DecodeConcat(a: seq<Run>, b: seq<Run>)
    ensures Decode(a + b) == Decode(a) + Decode(b)
  {
    if b == [] {
      assert a + b == a;
    } else {
      var n := |b| - 1;
      DecodeConcat(a, b[..n]);
      assert (a + b)[..|a + b| - 1] == a + b[..n];
      DecodeLast(a + b);
      DecodeLast(b);
      Assoc(Decode(a), Decode(b[..n]), Repeat(b[n].count, b[n].c));
    }
  }

  lemma DecodeOne(r: Run)
    ensures Decode([r]) == Repeat(r.count, r.c)
  {
    assert [r][..0] == [];
  }

  lemma RepeatSum(m: nat, n: nat, c: Byte)
    ensures Repeat(m, c) + Repeat(n, c) == Repeat(m + n, c)
  {
  }

  lemma DecodeFirst(b: seq<Run>)
    requires b != []
    ensures Decode(b) == Repeat(b[0].count, b[0].c) + Decode(b[1..])
  {
    DecodeConcat([b[0]], b[1..]);
    DecodeOne(b[0]);
    assert [b[0]] + b[1..] == b;
  }

  lemma DecodeMiddle(h: seq<Run>, r: Run, t: seq<Run>)
    ensures Decode(h + [r] + t) == Decode(h) + Repeat(r.count, r.c) + Decode(t)
  {
    DecodeConcat(h + [r], t);
    DecodeConcat(h, [r]);
    DecodeOne(r);
  }

  lemma Regroup(a: seq<Byte>, b: seq<Byte>, c: seq<Byte>, d: seq<Byte>)
    ensures a + (b + c) + d == (a + b) + (c + d)
  {
  }

  lemma DecodeSeam(h: seq<Run>, m: nat, k: nat, c: Byte, t: seq<Run>)
    ensures Decode(h + [Run(m + k, c)] + t) == (Decode(h) + Repeat(m, c)) + (Repeat(k, c) + Decode(t))
  {
    DecodeMiddle(h, Run(m + k, c), t);
    RepeatSum(m, k, c);
    Regroup(Decode(h), Repeat(m, c), Repeat(k, c), Decode(t));
  }

  /** Joining encodes the bytes of both. */
  lemma DecodeJoin(a: seq<Run>, b: seq<Run>)
    ensures Decode(Join(a, b)) == Decode(a) + Decode(b)
  {
    if a == [] || b == [] || a[|a| - 1].c != b[0].c {
      DecodeConcat(a, b);
    } else {
      var h, m, k, c, t := a[..|a| - 1], a[|a| - 1].count, b[0].count, b[0].c, b[1..];
      assert Join(a, b) == h + [Run(m + k, c)] + t;
      DecodeSeam(h, m, k, c, t);
      DecodeLast(a);
      DecodeFirst(b);
    }
  }

  lemma JoinCanonical(a: seq<Run>, b: seq<Run>)
    requires Canonical(a) && Canonical(b)
    ensures Canonical(Join(a, b))
  {
    var j := Join(a, b);
    forall k: nat {:trigger j[k]} | k < |j|
      ensures j[k].count > 0 && (k + 1 < |j| ==> j[k].c != j[k + 1].c)
    {
      if a == [] || b == [] || a[|a| - 1].c != b[0].c {
        if k < |a| {
          assert j[k] == a[k];
        } else {
          assert j[k] == b[k - |a|];
        }
        if k + 1 < |a| {
          assert j[k + 1] == a[k + 1];
        } else if k + 1 < |j| {
          assert j[k + 1] == b[k + 1 - |a|];
        }
      } else {
        var n := |a| - 1;
        assert j[k].c == if k <= n then a[k].c else b[k - n].c;
        assert j[k].count >= if k <= n then a[k].count else b[k - n].count;
        assert k + 1 < |j| ==> j[k + 1].c == if k < n then a[k + 1].c else b[k + 1 - n].c;
      }
    }
  }

  /** Encoding in pieces and joining at the seams is encoding the whole. */
  lemma EncodeConcat(x: seq<Byte>, y: seq<Byte>)
    ensures Encode(x + y) == Join(Encode(x), Encode(y))
  {
    EncodeCanonical(x);
    EncodeCanonical(y);
    JoinCanonical(Encode(x), Encode(y));
    DecodeJoin(Encode(x), Encode(y));
    DecodeEncode(x);
    DecodeEncode(y);
    EncodeDecode(Join(Encode(x), Encode(y)));
  }

  // The file format: for every run a 32-bit count, low byte first, and the byte.

  const INT_LIMIT := 0x8000_0000

  function RunBytes(r: Run): (b: seq<Byte>)
    ensures |b| == 5
  {
    WordBytes(r.count % 0x1_0000_0000) + [r.c]
  }

  function Serialize(rs: seq<Run>): seq<Byte> {
    if rs == [] then [] else Serialize(rs[..|rs| - 1]) + RunBytes(rs[|rs| - 1])
  }

  function CountOf(b: seq<Byte>): nat
    requires |b| >= 4
  {
    var b0: int, b1: int, b2: int, b3: int := b[0], b[1], b[2], b[3];
    var n := b0 + 0x100 * b1 + 0x1_0000 * b2 + 0x100_0000 * b3;
    if n < INT_LIMIT then n else 0
  }

  /** The record reader: it stops at the first record that is not whole, and a negative count writes nothing. */
  function Unzip(b: seq<Byte>): seq<Byte> {
    if |b| < 5 then [] else Repeat(CountOf(b), b[4]) + Unzip(b[5..])
  }

  lemma UnzipFirst(b: seq<Byte>)
    requires |b| >= 5
    ensures Unzip(b) == Repeat(CountOf(b), b[4]) + Unzip(b[5..])
  {
  }

  lemma {:induction false} UnzipConcat(a: seq<Byte>, b: seq<Byte>)
    requires |a| % 5 == 0
    ensures Unzip(a + b) == Unzip(a) + Unzip(b)
    decreases |a|
  {
    if a == [] {
      assert a + b == b;
    } else {
      assert (a + b)[5..] == a[5..] + b;
      UnzipConcat(a[5..], b);
      UnzipFirst(a);
      UnzipFirst(a + b);
      Assoc(Repeat(CountOf(a), a[4]), Unzip(a[5..]), Unzip(b));
    }
  }

  lemma {:induction false} SerializeLength(rs: seq<Run>)
    ensures |Serialize(rs)| == 5 * |rs|
  {
    if rs != [] {
      SerializeLength(rs[..|rs| - 1]);
    }
  }

  lemma CountBack(n: nat, c: Byte)
    requires n < INT_LIMIT
    ensures CountOf(WordBytes(n) + [c]) == n && (WordBytes(n) + [c])[4] == c
  {
    SplitWord(n);
  }

  lemma UnzipRun(r: Run)
    requires r.count < INT_LIMIT
    ensures Unzip(RunBytes(r)) == Repeat(r.count, r.c)
  {
    CountBack(r.count, r.c);
    var b := RunBytes(r);
    assert b == WordBytes(r.count) + [r.c];
    assert b[5..] == [];
    assert Unzip(b) == Repeat(CountOf(b), b[4]) + Unzip([]);
  }

  /** Reading one more record. */
  lemma UnzipNext(a: seq<Byte>, r: Run)
    requires |a| % 5 == 0 && r.count < INT_LIMIT
    ensures Unzip(a + RunBytes(r)) == Unzip(a) + Repeat(r.count, r.c)
  {
    UnzipConcat(a, RunBytes(r));
    UnzipRun(r);
  }

  /** A record is the count, low byte first, and then the byte. */
  lemma RecordLayout(r: Run)
    ensures var b := RunBytes(r);
            var b0: int, b1: int, b2: int, b3: int := b[0], b[1], b[2], b[3];
            b0 + 0x100 * b1 + 0x1_0000 * b2 + 0x100_0000 * b3 == r.count % 0x1_0000_0000 && b[4] == r.c
  {
    SplitWord(r.count % 0x1_0000_0000);
  }

  /** Record k of the output is that of run k. */
  lemma {:induction false} RecordAt(rs: seq<Run>, k: nat)
    requires k < |rs|
    ensures |Serialize(rs)| == 5 * |rs| && Serialize(rs)[5 * k..5 * k + 5] == RunBytes(rs[k])
    decreases |rs|
  {
    SerializeLength(rs);
    var n := |rs| - 1;
    SerializeLength(rs[..n]);
    if k < n {
      RecordAt(rs[..n], k);
    }
  }

  /** Reading back what was written. */
  lemma {:induction false} UnzipSerialize(rs: seq<Run>)
    requires forall k: nat {:trigger rs[k]} :: k < |rs| ==> rs[k].count < INT_LIMIT
    ensures Unzip(Serialize(rs)) == Decode(rs)
  {
    if rs != [] {
      var n := |rs| - 1;
      UnzipSerialize(rs[..n]);
      SerializeLength(rs[..n]);
      UnzipNext(Serialize(rs[..n]), rs[n]);
    }
  }

  lemma {:induction false} CountsBounded(rs: seq<Run>)
    ensures forall k: nat {:trigger rs[k]} :: k < |rs| ==> rs[k].count <= |Decode(rs)|
  {
    if rs != [] {
      CountsBounded(rs[..|rs| - 1]);
      forall k: nat {:trigger rs[k]} | k < |rs|
        ensures rs[k].count <= |Decode(rs)|
      {
        assert k < |rs| - 1 ==> rs[k] == rs[..|rs| - 1][k];
      }
    }
  }

  /** Unzipping the encoding of a text gives the text, unless a count may not fit an int. */
  lemma ZipUnzip(s: seq<Byte>)
    requires |s| < INT_LIMIT
    ensures Unzip(Serialize(Encode(s))) == s
  {
    DecodeEncode(s);
    CountsBounded(Encode(s));
    UnzipSerialize(Encode(s));
  }
}
