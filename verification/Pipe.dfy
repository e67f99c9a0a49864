/** The pipe: a ring under 32-bit counters that wrap, and the sleeping and waking of its readers and writers. */
module Pipe {
  import opened Blocks

  const PIPESIZE := 512
  const WRAP := 0x1_0000_0000

  /** The pipe as its users see it: every byte ever written, and how many of them have been read. */
  datatype View = View(written: seq<Byte>, taken: nat, readopen: bool, writeopen: bool)

  predicate Fits(v: View) { v.taken <= |v.written| <= v.taken + PIPESIZE }

  function Room(v: View): nat
    requires Fits(v)
  {
    v.taken + PIPESIZE - |v.written|
  }

  function Available(v: View): nat
    requires Fits(v)
  {
    |v.written| - v.taken
  }

  datatype WriteEnd = WroteAll | WaitsForRoom | WriteFails
  datatype ReadEnd = Got(bytes: seq<Byte>) | WaitsForBytes | ReadFails

  /** A writer at byte i, from getting the lock to giving it up: it writes while there is room. */
  function WriteSome(v: View, addr: seq<Byte>, i: nat): (r: (View, nat))
    requires Fits(v) && i <= |addr|
    ensures Fits(r.0) && i <= r.1 <= |addr|
  {
    var m := Min(Room(v), |addr| - i);
    (v.(written := v.written + addr[i..i + m]), i + m)
  }

  function WriteResult(v: View, addr: seq<Byte>, i: nat, killed: bool): WriteEnd
    requires Fits(v) && i <= |addr|
  {
    if |addr| - i <= Room(v) then WroteAll
    else if !v.readopen || killed then WriteFails
    else WaitsForRoom
  }

  function ReadSome(v: View, n: nat, killed: bool): (r: (View, ReadEnd))
    requires Fits(v)
    ensures Fits(r.0)
  {
    if Available(v) == 0 && v.writeopen then (v, if killed then ReadFails else WaitsForBytes)
    else
      var m := Min(n, Available(v));
      (v.(taken := v.taken + m), Got(v.written[v.taken..v.taken + m]))
  }

  /** A read gives what there is, up to n bytes in order; it sleeps or fails exactly if there is nothing yet to come. */
  lemma ReadIff(v: View, n: nat, killed: bool)
    requires Fits(v)
    ensures var (w, r) := ReadSome(v, n, killed);
            && w.written == v.written && w.readopen == v.readopen && w.writeopen == v.writeopen
            && (r.Got? <==> v.taken < |v.written| || !v.writeopen)
            && (r.Got? ==> |r.bytes| == Min(n, |v.written| - v.taken) && w.taken == v.taken + |r.bytes|
                           && r.bytes == v.written[v.taken..w.taken])
            && (!r.Got? ==> w == v && (r.ReadFails? <==> killed))
  {
  }

  /** A write appends what there is room for, in order; it is done, fails or sleeps by what is left. */
  lemma WriteIff(v: View, addr: seq<Byte>, i: nat, killed: bool)
    requires Fits(v) && i <= |addr|
    ensures var (w, j) := WriteSome(v, addr, i);
            var r := WriteResult(v, addr, i, killed);
            && w == v.(written := v.written + addr[i..j]) && |w.written| <= v.taken + PIPESIZE
            && (r.WroteAll? <==> j == |addr|) && (j < |addr| ==> |w.written| == v.taken + PIPESIZE)
            && (r.WriteFails? <==> j < |addr| && (killed || !v.readopen))
  {
  }

  /** What is written to an empty pipe, if it is not too long, is what is read. */
  lemma WriteThenRead(v: View, addr: seq<Byte>, n: nat)
    requires v.taken == |v.written| && |addr| <= PIPESIZE && |addr| <= n && addr != []
    ensures var (w, j) := WriteSome(v, addr, 0);
            WriteResult(v, addr, 0, false) == WroteAll && ReadSome(w, n, false).1 == Got(addr)
  {
  }

  // The ring.

  lemma WrapIndex(k: nat)
    ensures k % WRAP % PIPESIZE == k % PIPESIZE
  {
  }

  lemma WrapNext(k: nat)
    ensures (k % WRAP + 1) % WRAP == (k + 1) % WRAP
  {
  }

  /** With at most PIPESIZE bytes between them, the wrapped counters tell empty and full apart. */
  lemma WrapCompare(w: nat, r: nat)
    requires r <= w <= r + PIPESIZE
    ensures w % WRAP == r % WRAP <==> w == r
    ensures w % WRAP == (r % WRAP + PIPESIZE) % WRAP <==> w == r + PIPESIZE
  {
    var d := w - r;
    assert (r % WRAP + PIPESIZE) % WRAP == (r + PIPESIZE) % WRAP;
    if w % WRAP == r % WRAP {
      assert d % WRAP == 0;
    }
    if w % WRAP == (r + PIPESIZE) % WRAP {
      assert (PIPESIZE - d) % WRAP == 0;
    }
  }

  predicate Slot(data: seq<Byte>, written: seq<Byte>, k: nat)
    requires |data| == PIPESIZE && k < |written|
  {
    data[k % PIPESIZE] == written[k]
  }

  /** The bytes written and not yet read are in the ring. */
  ghost predicate Ring(data: seq<Byte>, written: seq<Byte>, taken: nat) {
    && |data| == PIPESIZE
    && forall k: nat {:trigger Slot(data, written, k)} :: taken <= k < |written| ==> Slot(data, written, k)
  }

  lemma RingPut(data: seq<Byte>, written: seq<Byte>, taken: nat, c: Byte)
    requires Ring(data, written, taken) && taken <= |written| < taken + PIPESIZE
    ensures Ring(data[|written| % PIPESIZE := c], written + [c], taken)
  {
    var d, w := data[|written| % PIPESIZE := c], written + [c];
    forall k: nat {:trigger Slot(d, w, k)} | taken <= k < |w|
      ensures Slot(d, w, k)
    {
      if k < |written| {
        assert Slot(data, written, k);
        assert k % PIPESIZE != |written| % PIPESIZE;
      }
    }
  }

  class PipeBuffer {
    const data: array<Byte>
    var nread: Word
    var nwrite: Word
    var readopen: bool
    var writeopen: bool
    ghost var written: seq<Byte>
    ghost var taken: nat

    ghost function State(): View
      reads this
    {
      View(written, taken, readopen, writeopen)
    }

    ghost predicate Valid()
      reads this, data
    {
      && Fits(State()) && nwrite == |written| % WRAP && nread == taken % WRAP
      && Ring(data[..], written, taken)
    }

    constructor ()
      ensures Valid() && State() == View([], 0, true, true) && fresh(data)
    {
      data := new Byte[PIPESIZE](_ => 0);
      nread, nwrite, readopen, writeopen, written, taken := 0, 0, true, true, [], 0;
    }

    method PutByte(c: Byte)
      requires Valid() && Room(State()) > 0
      modifies this`nwrite, this`written, data
      ensures Valid() && written == old(written) + [c]
    {
      WrapIndex(|written|);
      WrapNext(|written|);
      RingPut(data[..], written, taken, c);
      data[nwrite % PIPESIZE] := c;
      nwrite := (nwrite + 1) % WRAP;
      written := written + [c];
    }

    method GetByte() returns (c: Byte)
      requires Valid() && Available(State()) > 0
      modifies this`nread, this`taken
      ensures Valid() && taken == old(taken) + 1 && c == written[old(taken)]
    {
      WrapIndex(taken);
      WrapNext(taken);
      assert Slot(data[..], written, taken);
      c := data[nread % PIPESIZE];
      nread := (nread + 1) % WRAP;
      taken := taken + 1;
    }

    /** pipewrite from byte start, until it returns or sleeps. */
    method PipeWrite(addr: seq<Byte>, start: nat, killed: bool) returns (r: WriteEnd, i: nat)
      requires Valid() && start <= |addr|
      modifies this`nwrite, this`written, data
      ensures Valid()
      ensures (State(), i) == WriteSome(old(State()), addr, start)
      ensures r == WriteResult(old(State()), addr, start, killed)
    {
      i := start;
      while i < |addr|
        invariant start <= i <= |addr| && Valid()
        invariant written == old(written) + addr[start..i] && taken == old(taken)
      {
        WrapCompare(|written|, taken);
        if nwrite == (nread + PIPESIZE) % WRAP {
          r := if !readopen || killed then WriteFails else WaitsForRoom;
          return;
        }
        PutByte(addr[i]);
        i := i + 1;
      }
      r := WroteAll;
    }

    /** piperead, until it returns or sleeps. */
    method PipeRead(n: nat, killed: bool) returns (r: ReadEnd)
      requires Valid()
      modifies this`nread, this`taken
      ensures Valid()
      ensures (State(), r) == ReadSome(old(State()), n, killed)
    {
      WrapCompare(|written|, taken);
      if nread == nwrite && writeopen {
        return if killed then ReadFails else WaitsForBytes;
      }
      var bytes: seq<Byte> := [];
      var i := 0;
      while i < n
        invariant i <= n && Valid() && taken == old(taken) + i && bytes == written[old(taken)..taken]
      {
        WrapCompare(|written|, taken);
        if nread == nwrite {
          break;
        }
        var c := GetByte();
        bytes := bytes + [c];
        i := i + 1;
      }
      return Got(bytes);
    }

    /** One end is closed for good; the pipe is freed when both are. */
    method PipeClose(writable: bool) returns (freed: bool)
      requires Valid()
      modifies this`readopen, this`writeopen
      ensures Valid()
      ensures State() == if writable then old(State()).(writeopen := false) else old(State()).(readopen := false)
      ensures freed <==> !readopen && !writeopen
    {
      if writable {
        writeopen := false;
      } else {
        readopen := false;
      }
      freed := !readopen && !writeopen;
    }
  }
}
