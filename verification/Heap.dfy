/** umalloc.c: the K&R allocator. Memory is a map from unit addresses to headers; a free list, circular
    and in address order, starts at the static header base, which lies below all memory from sbrk. */
module Heap {
  const NULL: nat := 0
  const BASE: nat := 1
  const UNIT := 8
  const MINUNITS := 4096

  datatype Header = Header(ptr: nat, size: nat)

  type Memory = map<nat, Header>

  // ---------------------------------------------------------------- what the heap is

  /** fl: the free list from base on. blocks: every block, free or allocated, with its size in units.
      owner: for every unit obtained from sbrk, the block it lies in. */
  datatype Layout = Layout(fl: seq<nat>, blocks: map<nat, nat>, owner: map<nat, nat>)

  /** The allocated blocks. */
  function Live(h: Layout): map<nat, nat> {
    map a | a in h.blocks && a !in h.fl :: h.blocks[a]
  }

  predicate Ascending(fl: seq<nat>) {
    forall i, j :: 0 <= i < j < |fl| ==> fl[i] < fl[j]
  }

  function Next(fl: seq<nat>, i: nat): nat
    requires i < |fl|
  {
    if i + 1 < |fl| then fl[i + 1] else fl[0]
  }

  predicate Linked(m: Memory, fl: seq<nat>, i: nat)
    requires i < |fl|
  {
    fl[i] in m && m[fl[i]].ptr == Next(fl, i)
  }

  predicate Headed(m: Memory, blocks: map<nat, nat>, a: nat)
    requires a in blocks
  {
    a > BASE && a in m && m[a].size == blocks[a] > 0
  }

  /** The free list is circular, in address order, and made of blocks; headers carry the blocks' sizes. */
  ghost predicate ListOk(m: Memory, fl: seq<nat>, blocks: map<nat, nat>) {
    && |fl| > 0 && fl[0] == BASE && Ascending(fl) && BASE in m && m[BASE].size == 0
    && (forall i: nat {:trigger Linked(m, fl, i)} :: i < |fl| ==> Linked(m, fl, i))
    && (forall i :: 0 < i < |fl| ==> fl[i] in blocks)
    && (forall a {:trigger a in blocks} :: a in blocks ==> Headed(m, blocks, a))
  }

  predicate Inside(blocks: map<nat, nat>, a: nat, u: nat) {
    a in blocks && a <= u < a + blocks[a]
  }

  /** The blocks tile the units obtained: every unit lies in exactly one block. */
  ghost predicate Tiles(blocks: map<nat, nat>, owner: map<nat, nat>) {
    && (forall u {:trigger u in owner} :: u in owner ==> Inside(blocks, owner[u], u))
    && (forall a, u {:trigger Inside(blocks, a, u)} :: Inside(blocks, a, u) ==> u in owner && owner[u] == a)
  }

  /** Free block i does not touch its successor. */
  predicate ApartAt(m: Memory, fl: seq<nat>, i: nat) {
    0 < i && i + 1 < |fl| && fl[i] in m ==> fl[i] + m[fl[i]].size < fl[i + 1]
  }

  /** No two free blocks touch: coalescing is complete. */
  ghost predicate Apart(m: Memory, fl: seq<nat>) {
    forall i: nat {:trigger ApartAt(m, fl, i)} :: i < |fl| ==> ApartAt(m, fl, i)
  }

  ghost predicate HeapBase(m: Memory, h: Layout) {
    ListOk(m, h.fl, h.blocks) && Tiles(h.blocks, h.owner)
  }

  ghost predicate HeapOk(m: Memory, h: Layout) {
    HeapBase(m, h) && Apart(m, h.fl)
  }

  /** Two different blocks have no unit in common. */
  lemma BlocksDisjoint(m: Memory, h: Layout, a: nat, b: nat)
    requires HeapBase(m, h) && a in h.blocks && b in h.blocks && a < b
    ensures a + h.blocks[a] <= b
  {
    assert Headed(m, h.blocks, b);
    assert Inside(h.blocks, b, b);
    if a + h.blocks[a] > b {
      assert Inside(h.blocks, a, b);
    }
  }

  // ---------------------------------------------------------------- linking a block in

  /** Position t of the free list is where block bp belongs. */
  predicate Gap(fl: seq<nat>, bp: nat, t: nat) {
    t < |fl| && fl[t] < bp && (t + 1 < |fl| ==> bp < fl[t + 1])
  }

  lemma {:induction false} FindGap(fl: seq<nat>, bp: nat) returns (t: nat)
    requires |fl| > 0 && fl[0] < bp && Ascending(fl) && bp !in fl
    ensures Gap(fl, bp, t)
    decreases |fl|
  {
    var n := |fl| - 1;
    if fl[n] < bp {
      t := n;
    } else {
      t := FindGap(fl[..n], bp);
    }
  }

  /** The freed block bp linked in behind position t. */
  function Link(m: Memory, fl: seq<nat>, t: nat, bp: nat): Memory
    requires t < |fl| && fl[t] in m && bp in m
  {
    m[bp := Header(Next(fl, t), m[bp].size)][fl[t] := Header(bp, m[fl[t]].size)]
  }

  function Insert(fl: seq<nat>, t: nat, bp: nat): seq<nat>
    requires t < |fl|
  {
    fl[..t + 1] + [bp] + fl[t + 1..]
  }

  function Delete(fl: seq<nat>, i: nat): seq<nat>
    requires i < |fl|
  {
    fl[..i] + fl[i + 1..]
  }

  lemma InsertAscending(fl: seq<nat>, t: nat, bp: nat)
    requires Ascending(fl) && Gap(fl, bp, t)
    ensures Ascending(Insert(fl, t, bp))
  {
    var fl' := Insert(fl, t, bp);
    forall i, j | 0 <= i < j < |fl'| ensures fl'[i] < fl'[j] {
      assert fl'[i] == if i <= t then fl[i] else if i == t + 1 then bp else fl[i - 1];
      assert fl'[j] == if j <= t then fl[j] else if j == t + 1 then bp else fl[j - 1];
      assert i <= t ==> fl[i] <= fl[t];
      assert j > t + 1 ==> fl[t + 1] <= fl[j - 1];
    }
  }

  lemma LinkedAfter(m: Memory, h: Layout, t: nat, bp: nat, i: nat)
    requires HeapBase(m, h) && bp in h.blocks && bp !in h.fl && Gap(h.fl, bp, t) && h.fl[t] in m && bp in m
    requires i <= |h.fl|
    ensures var fl', m' := Insert(h.fl, t, bp), Link(m, h.fl, t, bp);
            Linked(m', fl', i) && (i > 0 ==> fl'[i] in h.blocks)
  {
    var fl, fl' := h.fl, Insert(h.fl, t, bp);
    assert Linked(m, fl, t);
    if i <= t {
      assert Linked(m, fl, i) && fl'[i] == fl[i];
      assert i < t ==> fl[i] < fl[t];
    } else if i > t + 1 {
      assert Linked(m, fl, i - 1) && fl'[i] == fl[i - 1];
      assert fl[t] < fl[i - 1];
    }
  }

  lemma LinkOk(m: Memory, h: Layout, t: nat, bp: nat)
    requires HeapBase(m, h) && bp in h.blocks && bp !in h.fl && Gap(h.fl, bp, t)
    ensures h.fl[t] in m && bp in m
    ensures HeapBase(Link(m, h.fl, t, bp), h.(fl := Insert(h.fl, t, bp)))
  {
    assert Linked(m, h.fl, t) && Headed(m, h.blocks, bp);
    var fl', m' := Insert(h.fl, t, bp), Link(m, h.fl, t, bp);
    InsertAscending(h.fl, t, bp);
    forall i: nat | i < |fl'| ensures Linked(m', fl', i) && (i > 0 ==> fl'[i] in h.blocks) {
      LinkedAfter(m, h, t, bp, i);
    }
    forall a | a in h.blocks ensures Headed(m', h.blocks, a) {
      assert Headed(m, h.blocks, a);
    }
  }

  // ---------------------------------------------------------------- merging, unlinking, splitting, growing

  function Reown(owner: map<nat, nat>, lo: nat, hi: nat, a: nat): map<nat, nat> {
    map u | u in owner :: if lo <= u < hi then a else owner[u]
  }

  lemma DeleteAscending(fl: seq<nat>, k: nat)
    requires Ascending(fl) && k < |fl|
    ensures Ascending(Delete(fl, k))
    ensures fl[k] !in Delete(fl, k)
    ensures forall a :: a in fl && a != fl[k] ==> a in Delete(fl, k)
  {
    var fl' := Delete(fl, k);
    assert forall i :: 0 <= i < |fl'| ==> fl'[i] == fl[if i < k then i else i + 1];
    forall a | a in fl && a != fl[k] ensures a in fl' {
      var i :| 0 <= i < |fl| && fl[i] == a;
      assert fl'[if i < k then i else i - 1] == a;
    }
  }

  /** Skipping position k, whatever the sizes become. */
  lemma DeleteList(m: Memory, fl: seq<nat>, blocks: map<nat, nat>, k: nat, m': Memory, blocks': map<nat, nat>)
    requires ListOk(m, fl, blocks) && 0 < k < |fl|
    requires forall a :: a in m && a != fl[k - 1] ==> a in m' && m'[a] == m[a]
    requires fl[k - 1] in m' && m'[fl[k - 1]].ptr == Next(fl, k) && (k == 1 ==> m'[BASE].size == 0)
    requires forall a :: a in blocks && a != fl[k] ==> a in blocks'
    requires forall a :: a in blocks' ==> Headed(m', blocks', a)
    ensures ListOk(m', Delete(fl, k), blocks')
  {
    var fl' := Delete(fl, k);
    DeleteAscending(fl, k);
    forall i: nat | i < |fl'| ensures Linked(m', fl', i) && (i > 0 ==> fl'[i] in blocks') {
      var j := if i < k then i else i + 1;
      assert Linked(m, fl, j) && fl'[i] == fl[j];
      assert i != k - 1 ==> fl[j] != fl[k - 1];
    }
  }

  /** Block i absorbs its free successor. */
  function Merge(m: Memory, fl: seq<nat>, i: nat): Memory
    requires i + 1 < |fl| && fl[i] in m && fl[i + 1] in m
  {
    m[fl[i] := Header(m[fl[i + 1]].ptr, m[fl[i]].size + m[fl[i + 1]].size)]
  }

  function Merged(h: Layout, i: nat): Layout
    requires i + 1 < |h.fl| && h.fl[i] in h.blocks && h.fl[i + 1] in h.blocks
  {
    var a, b := h.fl[i], h.fl[i + 1];
    Layout(Delete(h.fl, i + 1), (h.blocks - {b})[a := h.blocks[a] + h.blocks[b]],
           Reown(h.owner, b, b + h.blocks[b], a))
  }

  lemma MergeTiles(blocks: map<nat, nat>, owner: map<nat, nat>, a: nat, b: nat)
    requires Tiles(blocks, owner) && a in blocks && b in blocks && a < b && a + blocks[a] == b
    ensures Tiles((blocks - {b})[a := blocks[a] + blocks[b]], Reown(owner, b, b + blocks[b], a))
  {
    var blocks', owner' := (blocks - {b})[a := blocks[a] + blocks[b]], Reown(owner, b, b + blocks[b], a);
    forall u | u in owner' ensures Inside(blocks', owner'[u], u) {
      assert Inside(blocks, owner[u], u);
      assert owner[u] == b ==> Inside(blocks, b, u);
    }
    forall c: nat, u: nat | Inside(blocks', c, u) ensures u in owner' && owner'[u] == c {
      if c == a && u >= b {
        assert Inside(blocks, b, u);
      } else {
        assert Inside(blocks, c, u);
        assert b <= u < b + blocks[b] ==> Inside(blocks, b, u);
      }
    }
  }

  lemma MergeOk(m: Memory, h: Layout, i: nat)
    requires HeapBase(m, h) && 0 < i && i + 1 < |h.fl| && h.fl[i] + h.blocks[h.fl[i]] == h.fl[i + 1]
    ensures h.fl[i] in m && h.fl[i + 1] in m
    ensures HeapBase(Merge(m, h.fl, i), Merged(h, i))
  {
    var a, b := h.fl[i], h.fl[i + 1];
    assert Linked(m, h.fl, i) && Linked(m, h.fl, i + 1);
    assert Headed(m, h.blocks, a) && Headed(m, h.blocks, b);
    var m', h' := Merge(m, h.fl, i), Merged(h, i);
    forall c | c in h'.blocks ensures Headed(m', h'.blocks, c) {
      assert Headed(m, h.blocks, c);
    }
    DeleteList(m, h.fl, h.blocks, i + 1, m', h'.blocks);
    MergeTiles(h.blocks, h.owner, a, b);
  }

  /** Block k leaves the free list. */
  function Unlink(m: Memory, fl: seq<nat>, k: nat): Memory
    requires 0 < k < |fl| && fl[k - 1] in m && fl[k] in m
  {
    m[fl[k - 1] := Header(m[fl[k]].ptr, m[fl[k - 1]].size)]
  }

  lemma DeleteKeeps(fl: seq<nat>, k: nat)
    requires k < |fl|
    ensures forall a {:trigger a in Delete(fl, k)} :: a in Delete(fl, k) ==> a in fl
  {
    var fl' := Delete(fl, k);
    forall a | a in fl' ensures a in fl {
      var i :| 0 <= i < |fl'| && fl'[i] == a;
      assert a == fl[if i < k then i else i + 1];
    }
  }

  lemma UnlinkApart(m: Memory, h: Layout, k: nat, i: nat)
    requires HeapOk(m, h) && 0 < k < |h.fl| && h.fl[k - 1] in m && h.fl[k] in m && i < |Delete(h.fl, k)|
    ensures ApartAt(Unlink(m, h.fl, k), Delete(h.fl, k), i)
  {
    var fl, fl' := h.fl, Delete(h.fl, k);
    assert Linked(m, fl, k - 1) && Linked(m, fl, k);
    assert ApartAt(m, fl, if i < k then i else i + 1);
    assert fl'[i] == fl[if i < k then i else i + 1];
    if i + 1 < |fl'| {
      assert fl'[i + 1] == fl[if i + 1 < k then i + 1 else i + 2];
    }
    assert i + 1 == k && k + 1 < |fl| ==> fl[k] < fl[k + 1];
  }

  lemma UnlinkOk(m: Memory, h: Layout, k: nat)
    requires HeapOk(m, h) && 0 < k < |h.fl|
    ensures h.fl[k - 1] in m && h.fl[k] in m
    ensures HeapOk(Unlink(m, h.fl, k), h.(fl := Delete(h.fl, k)))
    ensures Live(h.(fl := Delete(h.fl, k))) == Live(h)[h.fl[k] := h.blocks[h.fl[k]]]
  {
    var fl, fl' := h.fl, Delete(h.fl, k);
    assert Linked(m, fl, k - 1) && Linked(m, fl, k);
    var m' := Unlink(m, fl, k);
    forall c | c in h.blocks ensures Headed(m', h.blocks, c) {
      assert Headed(m, h.blocks, c);
    }
    DeleteList(m, fl, h.blocks, k, m', h.blocks);
    forall i: nat | i < |fl'| ensures ApartAt(m', fl', i) {
      UnlinkApart(m, h, k, i);
    }
    DeleteAscending(fl, k);
    DeleteKeeps(fl, k);
  }

  /** The tail of free block k, n units long, becomes a block of its own. */
  function Split(m: Memory, p: nat, n: nat, ptr: nat): Memory
    requires p in m && n < m[p].size
  {
    var rest := m[p].size - n;
    m[p := Header(m[p].ptr, rest)][p + rest := Header(ptr, n)]
  }

  function Splitted(h: Layout, p: nat, n: nat): Layout
    requires p in h.blocks && n < h.blocks[p]
  {
    var rest := h.blocks[p] - n;
    Layout(h.fl, h.blocks[p := rest][p + rest := n], Reown(h.owner, p + rest, p + rest + n, p + rest))
  }

  lemma SplitTiles(blocks: map<nat, nat>, owner: map<nat, nat>, p: nat, n: nat)
    requires Tiles(blocks, owner) && p in blocks && 0 < n < blocks[p] && forall a :: a in blocks ==> blocks[a] > 0
    ensures var q := p + blocks[p] - n;
            q !in blocks && Tiles(blocks[p := blocks[p] - n][q := n], Reown(owner, q, q + n, q))
  {
    var q := p + blocks[p] - n;
    var blocks', owner' := blocks[p := blocks[p] - n][q := n], Reown(owner, q, q + n, q);
    assert Inside(blocks, p, q);
    assert q in blocks ==> Inside(blocks, q, q);
    forall u | u in owner' ensures Inside(blocks', owner'[u], u) {
      assert Inside(blocks, owner[u], u);
    }
    forall c: nat, u: nat | Inside(blocks', c, u) ensures u in owner' && owner'[u] == c {
      if c == q {
        assert Inside(blocks, p, u);
      } else {
        assert Inside(blocks, c, u);
        assert q <= u < q + n ==> Inside(blocks, p, u);
      }
    }
  }

  lemma SplitLive(h: Layout, p: nat, n: nat)
    requires p in h.blocks && p in h.fl && n < h.blocks[p]
    ensures var q := p + h.blocks[p] - n; q !in h.fl ==> Live(Splitted(h, p, n)) == Live(h)[q := n]
  {
  }

  /** The new block starts inside the split one, so it is nobody's yet. */
  lemma SplitNew(m: Memory, h: Layout, p: nat, n: nat)
    requires HeapBase(m, h) && p in h.blocks && 0 < n < h.blocks[p]
    ensures var q := p + h.blocks[p] - n; q !in h.blocks && q !in h.fl && q > BASE
    ensures Tiles(Splitted(h, p, n).blocks, Splitted(h, p, n).owner)
  {
    forall a | a in h.blocks ensures h.blocks[a] > 0 {
      assert Headed(m, h.blocks, a);
    }
    assert Headed(m, h.blocks, p);
    SplitTiles(h.blocks, h.owner, p, n);
    var q := p + h.blocks[p] - n;
    forall i | 0 <= i < |h.fl| ensures h.fl[i] != q {
      assert i > 0 ==> h.fl[i] in h.blocks;
    }
  }

  lemma SplitOk(m: Memory, h: Layout, k: nat, n: nat, ptr: nat)
    requires HeapOk(m, h) && 0 < k < |h.fl| && 0 < n < h.blocks[h.fl[k]]
    ensures var p := h.fl[k];
            var q := p + h.blocks[p] - n;
            && p in m && m[p].size == h.blocks[p] && q !in h.blocks && q !in h.fl
            && HeapOk(Split(m, p, n, ptr), Splitted(h, p, n))
            && Live(Splitted(h, p, n)) == Live(h)[q := n]
  {
    var p := h.fl[k];
    SplitNew(m, h, p, n);
    SplitLive(h, p, n);
    assert Headed(m, h.blocks, p);
    var m', h' := Split(m, p, n, ptr), Splitted(h, p, n);
    forall c | c in h'.blocks ensures Headed(m', h'.blocks, c) {
      assert c in h.blocks ==> Headed(m, h.blocks, c);
    }
    forall i: nat | i < |h.fl| ensures Linked(m', h.fl, i) && ApartAt(m', h.fl, i) {
      assert Linked(m, h.fl, i) && ApartAt(m, h.fl, i);
    }
  }

  /** nu more units from a on, all belonging to block a. */
  function Extend(owner: map<nat, nat>, a: nat, nu: nat): (r: map<nat, nat>)
    ensures forall u {:trigger u in r} :: u in r <==> u in owner || a <= u < a + nu
    ensures forall u {:trigger r[u]} :: u in r ==> r[u] == if a <= u < a + nu then a else owner[u]
  {
    if nu == 0 then owner else Extend(owner, a, nu - 1)[a + nu - 1 := a]
  }

  /** The new block a of nu units that sbrk granted, not yet on the free list. */
  function Granted(h: Layout, a: nat, nu: nat): Layout {
    Layout(h.fl, h.blocks[a := nu], Extend(h.owner, a, nu))
  }

  lemma GrantOk(m: Memory, h: Layout, a: nat, nu: nat, ptr: nat)
    requires HeapOk(m, h) && a > BASE && nu > 0 && forall u :: u in h.owner ==> u < a
    ensures var m', h' := m[a := Header(ptr, nu)], Granted(h, a, nu);
            && HeapOk(m', h') && a !in h.blocks && a !in h.fl
            && Live(h') == Live(h)[a := nu]
  {
    forall b | b in h.blocks ensures b < a {
      assert Headed(m, h.blocks, b);
      assert Inside(h.blocks, b, b);
    }
    var m', h' := m[a := Header(ptr, nu)], Granted(h, a, nu);
    forall c | c in h'.blocks ensures Headed(m', h'.blocks, c) {
      assert c in h.blocks ==> Headed(m, h.blocks, c);
    }
    forall i: nat | i < |h.fl| ensures Linked(m', h.fl, i) && ApartAt(m', h.fl, i) && h.fl[i] < a {
      assert Linked(m, h.fl, i) && ApartAt(m, h.fl, i);
      assert i > 0 ==> h.fl[i] in h.blocks;
    }
    forall u | u in h'.owner ensures Inside(h'.blocks, h'.owner[u], u) {
      assert u in h.owner && !(a <= u) ==> Inside(h.blocks, h.owner[u], u);
    }
    forall c: nat, u: nat | Inside(h'.blocks, c, u) ensures u in h'.owner && h'.owner[u] == c {
      assert c != a ==> Inside(h.blocks, c, u);
    }
  }

  // ---------------------------------------------------------------- free

  predicate TouchesUpper(h: Layout, t: nat, bp: nat)
    requires t < |h.fl| && bp in h.blocks
  {
    t + 1 < |h.fl| && bp + h.blocks[bp] == h.fl[t + 1]
  }

  predicate TouchesLower(h: Layout, t: nat, bp: nat)
    requires t < |h.fl|
  {
    0 < t && h.fl[t] in h.blocks && h.fl[t] + h.blocks[h.fl[t]] == bp
  }

  /** Linking leaves only the two new neighbourhoods to coalesce. */
  lemma LinkApart(m: Memory, h: Layout, t: nat, bp: nat)
    requires HeapOk(m, h) && bp in h.blocks && bp !in h.fl && Gap(h.fl, bp, t)
    ensures h.fl[t] in m && bp in m
    ensures var m1, fl1 := Link(m, h.fl, t, bp), Insert(h.fl, t, bp);
            && (forall i: nat :: i < |fl1| && i != t && i != t + 1 ==> ApartAt(m1, fl1, i))
            && (!TouchesUpper(h, t, bp) ==> ApartAt(m1, fl1, t + 1))
            && (!TouchesLower(h, t, bp) ==> ApartAt(m1, fl1, t))
  {
    assert Linked(m, h.fl, t) && Headed(m, h.blocks, bp);
    var m1, fl, fl1 := Link(m, h.fl, t, bp), h.fl, Insert(h.fl, t, bp);
    forall i: nat | i < |fl1| && i != t && i != t + 1 ensures ApartAt(m1, fl1, i) {
      var j := if i < t then i else i - 1;
      assert Linked(m, fl, j) && ApartAt(m, fl, j) && fl1[i] == fl[j];
      assert i + 1 < |fl1| ==> fl1[i + 1] == fl[j + 1];
      assert fl[j] != fl[t];
    }
    assert fl1[t] == fl[t] && fl1[t + 1] == bp;
    if t + 1 < |fl| {
      assert fl1[t + 2] == fl[t + 1] && fl[t + 1] in h.blocks;
      BlocksDisjoint(m, h, bp, fl[t + 1]);
    }
    if t > 0 {
      assert fl[t] in h.blocks && Headed(m, h.blocks, fl[t]);
      BlocksDisjoint(m, h, fl[t], bp);
    }
  }

  lemma InsertLive(h: Layout, t: nat, bp: nat)
    requires t < |h.fl|
    ensures Live(h.(fl := Insert(h.fl, t, bp))) == Live(h) - {bp}
  {
    var fl1 := Insert(h.fl, t, bp);
    forall a ensures a in fl1 <==> a in h.fl || a == bp {
      if a in h.fl {
        var i :| 0 <= i < |h.fl| && h.fl[i] == a;
        assert fl1[if i <= t then i else i + 1] == a;
      }
      assert fl1[t + 1] == bp;
    }
  }

  /** Merging keeps every other neighbourhood apart and inherits the successor's. */
  lemma MergeApart(m: Memory, h: Layout, i: nat)
    requires HeapBase(m, h) && 0 < i && i + 1 < |h.fl| && h.fl[i] + h.blocks[h.fl[i]] == h.fl[i + 1]
    ensures h.fl[i] in m && h.fl[i + 1] in m
    ensures var m', fl' := Merge(m, h.fl, i), Delete(h.fl, i + 1);
            && (forall j: nat :: j < i && ApartAt(m, h.fl, j) ==> ApartAt(m', fl', j))
            && (forall j: nat :: i <= j < |fl'| && ApartAt(m, h.fl, j + 1) ==> ApartAt(m', fl', j))
  {
    assert Linked(m, h.fl, i) && Linked(m, h.fl, i + 1);
    assert Headed(m, h.blocks, h.fl[i]) && Headed(m, h.blocks, h.fl[i + 1]);
    var fl, m', fl' := h.fl, Merge(m, h.fl, i), Delete(h.fl, i + 1);
    assert forall j :: 0 <= j < |fl'| ==> fl'[j] == fl[if j <= i then j else j + 1];
    forall j: nat | j < |fl'| && j != i ensures fl'[j] in m && m'[fl'[j]] == m[fl'[j]] {
      assert Linked(m, fl, if j <= i then j else j + 1);
    }
  }

  lemma MergeLive(h: Layout, i: nat)
    requires i + 1 < |h.fl| && h.fl[i] in h.blocks && h.fl[i + 1] in h.blocks && Ascending(h.fl)
    ensures Live(Merged(h, i)) == Live(h)
  {
    DeleteAscending(h.fl, i + 1);
    var fl' := Delete(h.fl, i + 1);
    assert fl'[i] == h.fl[i];
    forall a | a in fl' ensures a in h.fl {
      var j :| 0 <= j < |fl'| && fl'[j] == a;
      assert h.fl[if j <= i then j else j + 1] == a;
    }
  }

  /** free up to its first if: bp is linked in and merged with the block above it. */
  ghost predicate HalfFreed(m: Memory, h: Layout, t: nat, bp: nat, m2: Memory, h2: Layout)
    requires t < |h.fl| && bp in h.blocks
  {
    && HeapBase(m2, h2) && Live(h2) == Live(h) - {bp} && h2.owner.Keys == h.owner.Keys
    && t + 1 < |h2.fl| && h2.fl[t] == h.fl[t] && h2.fl[t + 1] == bp
    && (forall i: nat :: i < |h2.fl| && i != t ==> ApartAt(m2, h2.fl, i))
    && (!TouchesLower(h, t, bp) ==> ApartAt(m2, h2.fl, t))
    && bp in h2.blocks && h2.blocks[bp] >= h.blocks[bp]
    && (t > 0 ==> h.fl[t] in h.blocks && h.fl[t] in h2.blocks && h2.blocks[h.fl[t]] == h.blocks[h.fl[t]])
  }

  lemma MergeLinked(m: Memory, fl: seq<nat>, t: nat, bp: nat)
    requires t + 1 < |fl| && fl[t] in m && fl[t + 1] in m && bp in m && fl[t] < bp < fl[t + 1]
    ensures var m1, fl1 := Link(m, fl, t, bp), Insert(fl, t, bp);
            && fl1[t + 1] == bp && fl1[t + 2] == fl[t + 1]
            && Merge(m1, fl1, t + 1) == m[bp := Header(m[fl[t + 1]].ptr, m[bp].size + m[fl[t + 1]].size)]
                                         [fl[t] := Header(bp, m[fl[t]].size)]
  {}

  lemma UpperMerge(m: Memory, h: Layout, t: nat, bp: nat, m1: Memory, h1: Layout) returns (m2: Memory, h2: Layout)
    requires HeapOk(m, h) && bp in h.blocks && bp !in h.fl && Gap(h.fl, bp, t) && TouchesUpper(h, t, bp)
    requires h.fl[t] in m && bp in m && m1 == Link(m, h.fl, t, bp) && h1 == h.(fl := Insert(h.fl, t, bp))
    requires HeapBase(m1, h1) && Live(h1) == Live(h) - {bp} && (t > 0 ==> h.fl[t] in h.blocks)
    requires forall i: nat :: i < |h1.fl| && i != t && i != t + 1 ==> ApartAt(m1, h1.fl, i)
    requires !TouchesLower(h, t, bp) ==> ApartAt(m1, h1.fl, t)
    ensures HalfFreed(m, h, t, bp, m2, h2)
    ensures t + 2 < |h1.fl| && h1.fl[t + 1] in m1 && h1.fl[t + 2] in m1 && m2 == Merge(m1, h1.fl, t + 1)
  {
    var c := h.fl[t + 1];
    assert h1.fl[t] == h.fl[t] && h1.fl[t + 1] == bp && h1.fl[t + 2] == c;
    assert Linked(m, h.fl, t + 1) && h.fl[t] != c;
    MergeOk(m1, h1, t + 1);
    MergeApart(m1, h1, t + 1);
    MergeLive(h1, t + 1);
    m2, h2 := Merge(m1, h1.fl, t + 1), Merged(h1, t + 1);
    assert h2.fl[t] == h.fl[t] && h2.fl[t + 1] == bp;
  }

  lemma UpperOk(m: Memory, h: Layout, t: nat, bp: nat) returns (m2: Memory, h2: Layout)
    requires HeapOk(m, h) && bp in h.blocks && bp !in h.fl && Gap(h.fl, bp, t)
    ensures h.fl[t] in m && bp in m && HalfFreed(m, h, t, bp, m2, h2)
    ensures if TouchesUpper(h, t, bp)
            then h.fl[t + 1] in m && m2 == m[bp := Header(m[h.fl[t + 1]].ptr, m[bp].size + m[h.fl[t + 1]].size)]
                                            [h.fl[t] := Header(bp, m[h.fl[t]].size)]
            else m2 == Link(m, h.fl, t, bp)
  {
    LinkOk(m, h, t, bp);
    LinkApart(m, h, t, bp);
    InsertLive(h, t, bp);
    m2, h2 := Link(m, h.fl, t, bp), h.(fl := Insert(h.fl, t, bp));
    assert h2.fl[t] == h.fl[t] && h2.fl[t + 1] == bp;
    assert t > 0 ==> h.fl[t] in h.blocks;
    if TouchesUpper(h, t, bp) {
      m2, h2 := UpperMerge(m, h, t, bp, m2, h2);
      assert Linked(m, h.fl, t + 1);
      MergeLinked(m, h.fl, t, bp);
    }
  }

  /** Free: everything about the state it leaves. */
  ghost predicate AfterFree(h: Layout, t: nat, bp: nat, m': Memory, h': Layout)
    requires t < |h.fl| && bp in h.blocks
  {
    && HeapOk(m', h') && Live(h') == Live(h) - {bp} && h'.owner.Keys == h.owner.Keys
    && t < |h'.fl| && h'.fl[t] == h.fl[t]
    && exists i: nat :: i < |h'.fl| && h'.fl[i] in h'.blocks && h'.blocks[h'.fl[i]] >= h.blocks[bp]
  }

  lemma LowerOk(m: Memory, h: Layout, t: nat, bp: nat, m2: Memory, h2: Layout) returns (m': Memory, h': Layout)
    requires HeapOk(m, h) && bp in h.blocks && bp !in h.fl && Gap(h.fl, bp, t) && HalfFreed(m, h, t, bp, m2, h2)
    ensures AfterFree(h, t, bp, m', h')
    ensures h.fl[t] in m2 && bp in m2
    ensures m' == if TouchesLower(h, t, bp)
                  then m2[h.fl[t] := Header(m2[bp].ptr, m2[h.fl[t]].size + m2[bp].size)]
                  else m2
  {
    m', h' := m2, h2;
    assert Linked(m2, h2.fl, t) && Linked(m2, h2.fl, t + 1);
    if TouchesLower(h, t, bp) {
      MergeOk(m2, h2, t);
      MergeApart(m2, h2, t);
      MergeLive(h2, t);
      m', h' := Merge(m2, h2.fl, t), Merged(h2, t);
      assert h'.fl[t] == h.fl[t] && h'.blocks[h'.fl[t]] >= h.blocks[bp];
    } else {
      assert h'.fl[t + 1] in h'.blocks && h'.blocks[h'.fl[t + 1]] >= h.blocks[bp];
    }
  }

  /** The header writes of free. */
  function FreeWrites(m: Memory, p: nat, bp: nat): Memory
    requires p in m && bp in m && m[p].ptr in m && p != bp
  {
    var n := m[p].ptr;
    var m1 := if bp + m[bp].size == n then m[bp := Header(m[n].ptr, m[bp].size + m[n].size)]
              else m[bp := Header(n, m[bp].size)];
    if p + m1[p].size == bp then m1[p := Header(m1[bp].ptr, m1[p].size + m1[bp].size)]
    else m1[p := Header(bp, m1[p].size)]
  }

  lemma Touching(m: Memory, h: Layout, t: nat, bp: nat)
    requires HeapOk(m, h) && bp in h.blocks && bp !in h.fl && Gap(h.fl, bp, t)
    ensures h.fl[t] in m && bp in m && m[h.fl[t]].ptr in m && m[h.fl[t]].ptr == Next(h.fl, t)
    ensures (bp + m[bp].size == m[h.fl[t]].ptr) == TouchesUpper(h, t, bp)
    ensures (h.fl[t] + m[h.fl[t]].size == bp) == TouchesLower(h, t, bp)
  {
    var p := h.fl[t];
    assert Headed(m, h.blocks, bp) && Linked(m, h.fl, t);
    assert t + 1 < |h.fl| ==> Linked(m, h.fl, t + 1) && Headed(m, h.blocks, h.fl[t + 1]);
    assert t > 0 ==> Headed(m, h.blocks, p);
  }

  /** Those writes free the block. */
  lemma FreeWritesOk(m: Memory, h: Layout, t: nat, bp: nat) returns (h': Layout)
    requires HeapOk(m, h) && bp in h.blocks && bp !in h.fl && Gap(h.fl, bp, t)
    ensures h.fl[t] in m && bp in m && m[h.fl[t]].ptr in m
    ensures AfterFree(h, t, bp, FreeWrites(m, h.fl[t], bp), h')
  {
    var m2, h2 := UpperOk(m, h, t, bp);
    var m';
    m', h' := LowerOk(m, h, t, bp, m2, h2);
    Touching(m, h, t, bp);
    assert FreeWrites(m, h.fl[t], bp) == m';
  }

  /** Headers stored inside allocated blocks other than bp are as they were. */
  ghost predicate Untouched(m: Memory, m': Memory, h: Layout, bp: nat) {
    forall u {:trigger u in h.owner} :: u in h.owner && h.owner[u] in Live(h) && h.owner[u] != bp ==>
      (u in m <==> u in m') && (u in m ==> m[u] == m'[u])
  }

  lemma OwnersAbove(m: Memory, h: Layout)
    requires HeapBase(m, h)
    ensures forall u: nat {:trigger u in h.owner} :: u in h.owner ==> u > BASE
  {
    forall u: nat | u in h.owner
      ensures u > BASE
    {
      assert Inside(h.blocks, h.owner[u], u);
      assert Headed(m, h.blocks, h.owner[u]);
    }
  }

  /** free writes no header inside a block that stays allocated. */
  lemma FreeUntouched(m: Memory, h: Layout, t: nat, bp: nat)
    requires HeapBase(m, h) && bp in h.blocks && t < |h.fl|
    requires h.fl[t] in m && bp in m && m[h.fl[t]].ptr in m && h.fl[t] != bp
    ensures Untouched(m, FreeWrites(m, h.fl[t], bp), h, bp)
  {
    var p := h.fl[t];
    assert Headed(m, h.blocks, bp) && Inside(h.blocks, bp, bp);
    if t > 0 {
      assert p in h.blocks && Headed(m, h.blocks, p) && Inside(h.blocks, p, p);
    } else {
      OwnersAbove(m, h);
    }
  }

  // ---------------------------------------------------------------- the allocator

  /** The blocks after the first s of the ring that were passed over. */
  ghost predicate Small(m: Memory, ring: seq<nat>, s: nat, n: nat) {
    s < |ring| && forall k :: 0 < k <= s ==> ring[k] in m && m[ring[k]].size < n
  }

  function More(want: nat): nat {
    if want < MINUNITS then MINUNITS else want
  }

  /** What sbrk answers: the address of the new memory, or a refusal. */
  datatype Grant = At(a: nat) | Refused

  /** The units under the allocator's care are those of before, and at most those just granted besides. */
  ghost predicate OwnersAfter(before: map<nat, nat>, after: map<nat, nat>, sbrk: Grant, want: nat) {
    && before.Keys <= after.Keys
    && forall u {:trigger u in after} :: u in after ==> u in before || (sbrk.At? && sbrk.a <= u < sbrk.a + More(want))
  }

  ghost predicate OwnerGrew(h0: Layout, h: Layout, a: nat, want: nat) {
    forall u {:trigger u in h.owner} :: u in h.owner <==> u in h0.owner || a <= u < a + More(want)
  }

  lemma UntouchedTrans(m0: Memory, h0: Layout, m1: Memory, h1: Layout, m2: Memory)
    requires HeapOk(m0, h0) || h0.owner == map[]
    requires HeapOk(m1, h1) && Live(h1) == Live(h0)
    requires Untouched(m0, m1, h0, NULL) && Untouched(m1, m2, h1, NULL)
    ensures Untouched(m0, m2, h0, NULL)
  {
    forall u | u in h0.owner && h0.owner[u] in Live(h0)
      ensures (u in m0 <==> u in m2) && (u in m0 ==> m0[u] == m2[u])
    {
      assert Inside(h0.blocks, h0.owner[u], u);
      assert h0.owner[u] in Live(h1) && Live(h1)[h0.owner[u]] == Live(h0)[h0.owner[u]];
      assert Inside(h1.blocks, h0.owner[u], u);
    }
  }

  function Units(nbytes: nat): nat {
    (nbytes + UNIT - 1) / UNIT + 1
  }

  /** The free list read from freep on. */
  ghost predicate IsRing(m: Memory, fl: seq<nat>, ring: seq<nat>, freep: nat) {
    && |ring| == |fl| > 0 && ring[0] == freep
    && (forall i, j :: 0 <= i < j < |ring| ==> ring[i] != ring[j])
    && (forall k: nat {:trigger Linked(m, ring, k)} :: k < |ring| ==> Linked(m, ring, k))
    && (forall a {:trigger a in fl} :: a in fl ==> a in ring)
    && (forall k :: 0 <= k < |ring| ==> ring[k] in fl)
  }

  function Rotated(n: nat, c: nat, k: nat): nat
    requires c <= n && k < n
  {
    if k < n - c then c + k else k - (n - c)
  }

  lemma Rotation(fl: seq<nat>, c: nat)
    requires c < |fl| && Ascending(fl)
    ensures var ring := fl[c..] + fl[..c];
            && (forall k: nat :: k < |fl| ==>
                  ring[k] == fl[Rotated(|fl|, c, k)] && Next(ring, k) == Next(fl, Rotated(|fl|, c, k)))
            && (forall i, j :: 0 <= i < j < |ring| ==> ring[i] != ring[j])
            && (forall a :: a in fl ==> a in ring)
  {
    var ring, n := fl[c..] + fl[..c], |fl|;
    forall k: nat | k < n ensures ring[k] == fl[Rotated(n, c, k)] {}
    forall i, j | 0 <= i < j < n ensures ring[i] != ring[j] {
      var x, y := Rotated(n, c, i), Rotated(n, c, j);
      assert x < y ==> fl[x] < fl[y];
      assert y < x ==> fl[y] < fl[x];
    }
    forall a | a in fl ensures a in ring {
      var i :| 0 <= i < n && fl[i] == a;
      assert ring[if i >= c then i - c else i + (n - c)] == a;
    }
  }

  lemma RingFrom(m: Memory, fl: seq<nat>, freep: nat) returns (ring: seq<nat>)
    requires |fl| > 0 && Ascending(fl) && freep in fl
    requires forall i: nat {:trigger Linked(m, fl, i)} :: i < |fl| ==> Linked(m, fl, i)
    ensures IsRing(m, fl, ring, freep)
  {
    var c: nat :| c < |fl| && fl[c] == freep;
    ring := fl[c..] + fl[..c];
    Rotation(fl, c);
    forall k: nat | k < |fl| ensures Linked(m, ring, k) && ring[k] in fl {
      assert Linked(m, fl, Rotated(|fl|, c, k));
    }
  }

  lemma RingAt(m: Memory, fl: seq<nat>, ring: seq<nat>, freep: nat, s: nat)
    requires IsRing(m, fl, ring, freep) && s < |ring|
    ensures ring[s] in m && m[ring[s]].ptr == Next(ring, s) && Next(ring, s) in m
    ensures ring[s] in fl && Next(ring, s) in fl
    ensures Next(ring, s) in m && m[Next(ring, s)].ptr == if s + 1 < |ring| then Next(ring, s + 1) else Next(ring, 0)
    ensures Next(ring, s) == freep <==> s + 1 == |ring|
  {
    assert Linked(m, ring, s);
    assert Linked(m, ring, if s + 1 < |ring| then s + 1 else 0);
  }

  /** The search has passed s blocks, all too small, and looks at p, the successor of prevp. */
  ghost predicate Looking(m: Memory, fl: seq<nat>, ring: seq<nat>, freep: nat, s: nat, n: nat, prevp: nat, p: nat) {
    IsRing(m, fl, ring, freep) && Small(m, ring, s, n) && prevp == ring[s] && p == Next(ring, s)
  }

  lemma LookAt(m: Memory, fl: seq<nat>, ring: seq<nat>, freep: nat, s: nat, n: nat, prevp: nat, p: nat)
    requires Looking(m, fl, ring, freep, s, n, prevp, p)
    ensures prevp in fl && p in fl && prevp in m && m[prevp].ptr == p && p in m
    ensures p == freep <==> s + 1 == |ring|
  {
    RingAt(m, fl, ring, freep, s);
  }

  lemma LookFirst(m: Memory, fl: seq<nat>, ring: seq<nat>, freep: nat, n: nat)
    requires IsRing(m, fl, ring, freep)
    ensures freep in m && Looking(m, fl, ring, freep, 0, n, freep, m[freep].ptr)
  {
    RingAt(m, fl, ring, freep, 0);
  }

  lemma LookNext(m: Memory, fl: seq<nat>, ring: seq<nat>, freep: nat, s: nat, n: nat, prevp: nat, p: nat)
    requires Looking(m, fl, ring, freep, s, n, prevp, p) && p != freep && p in m && m[p].size < n
    ensures s + 1 < |ring| && Looking(m, fl, ring, freep, s + 1, n, p, m[p].ptr)
  {
    RingAt(m, fl, ring, freep, s);
    RingAt(m, fl, ring, freep, s + 1);
  }

  /** Some free block has room for n units. */
  ghost predicate Fits(m: Memory, h: Layout, n: nat) {
    exists a: nat :: a in h.fl && a in m && m[a].size >= n
  }

  lemma AllSmall(m: Memory, h: Layout, ring: seq<nat>, freep: nat, s: nat, n: nat)
    requires IsRing(m, h.fl, ring, freep) && s + 1 == |ring| && Small(m, ring, s, n)
    requires freep in m && m[freep].size < n
    ensures !Fits(m, h, n)
  {}

  lemma FindPred(m: Memory, h: Layout, prevp: nat, p: nat) returns (k: nat)
    requires HeapOk(m, h) && prevp in h.fl && p in h.fl && prevp in m && m[prevp].ptr == p && p in m && m[p].size > 0
    ensures 0 < k < |h.fl| && h.fl[k] == p && h.fl[k - 1] == prevp
  {
    k :| 0 <= k < |h.fl| && h.fl[k] == p;
    var j :| 0 <= j < |h.fl| && h.fl[j] == prevp;
    assert Linked(m, h.fl, j);
    assert k != 0;
  }

  lemma FreeOwner(m: Memory, h: Layout, t: nat)
    requires HeapBase(m, h) && t < |h.fl|
    ensures h.fl[t] in h.owner ==> h.owner[h.fl[t]] !in Live(h)
  {
    if t > 0 {
      assert h.fl[t] in h.blocks && Headed(m, h.blocks, h.fl[t]);
      assert Inside(h.blocks, h.fl[t], h.fl[t]);
    } else {
      OwnersAbove(m, h);
    }
  }

  /** Unlinking writes only into the predecessor's header, which is base or in a free block. */
  lemma UnlinkKeeps(m: Memory, h: Layout, k: nat)
    requires HeapOk(m, h) && 0 < k < |h.fl| && h.fl[k - 1] in m && h.fl[k] in m
    ensures Untouched(m, Unlink(m, h.fl, k), h, NULL)
  {
    FreeOwner(m, h, k - 1);
  }

  lemma SplitUntouched(m: Memory, h: Layout, k: nat, n: nat, ptr: nat)
    requires HeapOk(m, h) && 0 < k < |h.fl| && h.fl[k] in m && 0 < n < m[h.fl[k]].size
    ensures Untouched(m, Split(m, h.fl[k], n, ptr), h, NULL)
  {
    FreeOwner(m, h, k);
    var p := h.fl[k];
    assert p in h.blocks && Headed(m, h.blocks, p);
    assert Inside(h.blocks, p, p + (m[p].size - n));
  }

  lemma FitsFrom(m: Memory, h: Layout, n: nat)
    requires HeapOk(m, h) && exists i: nat :: i < |h.fl| && h.fl[i] in h.blocks && h.blocks[h.fl[i]] >= n
    ensures Fits(m, h, n)
  {
    var i: nat :| i < |h.fl| && h.fl[i] in h.blocks && h.blocks[h.fl[i]] >= n;
    assert Headed(m, h.blocks, h.fl[i]);
    assert h.fl[i] in h.fl;
  }

  /** A grant and then a change that spares live blocks spare the blocks live before the grant. */
  lemma UntouchedChain(m0: Memory, h0: Layout, m1: Memory, h1: Layout, m2: Memory, a: nat)
    requires HeapOk(m0, h0) && HeapOk(m1, h1) && Untouched(m1, m2, h1, a)
    requires a !in h0.owner && (forall u :: u in m0 && u != a ==> u in m1 && m1[u] == m0[u]) && m1.Keys == m0.Keys + {a}
    requires forall b :: b in Live(h0) ==> b in Live(h1) && b != a && Live(h1)[b] == Live(h0)[b]
    ensures Untouched(m0, m2, h0, NULL)
  {
    forall u | u in h0.owner && h0.owner[u] in Live(h0)
      ensures (u in m0 <==> u in m2) && (u in m0 ==> m0[u] == m2[u])
    {
      assert Inside(h0.blocks, h0.owner[u], u);
      assert Inside(h1.blocks, h0.owner[u], u);
    }
  }

  lemma GrantedAndFreed(live: map<nat, nat>, a: nat, nu: nat)
    requires a !in live
    ensures live[a := nu] - {a} == live
  {
  }

  class Allocator {
    var mem: Memory
    var freep: nat
    var brk: nat
    ghost var h: Layout

    ghost predicate Valid()
      reads this
    {
      && BASE < brk && (forall u :: u in h.owner ==> u < brk)
      && BASE in mem
      && if freep == NULL then h == Layout([], map[], map[])
         else HeapOk(mem, h) && freep in h.fl
    }

    /** The blocks handed out and not yet freed, with their sizes in units. */
    ghost function Allocated(): map<nat, nat>
      reads this
    {
      Live(h)
    }

    constructor (brk: nat)
      requires BASE < brk
      ensures Valid() && this.brk == brk && Allocated() == map[] && h.owner == map[]
    {
      mem, freep, this.brk, h := map[BASE := Header(NULL, 0)], NULL, brk, Layout([], map[], map[]);
    }

    /** The search loop of free: the list position whose gap takes bp. It terminates because the gap is
        somewhere on the circle. */
    method FindPlace(bp: nat) returns (p: nat, ghost t: nat)
      requires Valid() && freep != NULL && bp > BASE && bp !in h.fl
      ensures Gap(h.fl, bp, t) && p == h.fl[t]
    {
      ghost var fl := h.fl;
      ghost var goal := FindGap(fl, bp);
      ghost var c: nat :| c < |fl| && fl[c] == freep;
      p := freep;
      assert Linked(mem, fl, c);
      while !(bp > p && bp < mem[p].ptr)
        invariant c < |fl| && p == fl[c] && Linked(mem, fl, c)
        decreases if c <= goal then goal - c else |fl| - c + goal
      {
        assert fl[0] <= fl[c] && fl[c] <= fl[|fl| - 1];
        assert c + 1 < |fl| ==> fl[c] < fl[c + 1];
        if p >= mem[p].ptr && (bp > p || bp < mem[p].ptr) {
          return p, c;
        }
        p := mem[p].ptr;
        c := if c + 1 < |fl| then c + 1 else 0;
        assert Linked(mem, fl, c);
      }
      return p, c;
    }

    /** The header writes of free, in the order of the code. */
    method Relink(p: nat, bp: nat)
      requires p in mem && bp in mem && mem[p].ptr in mem && p != bp
      modifies this`mem
      ensures mem == FreeWrites(old(mem), p, bp)
    {
      if bp + mem[bp].size == mem[p].ptr {
        mem := mem[bp := Header(mem[bp].ptr, mem[bp].size + mem[mem[p].ptr].size)];
        mem := mem[bp := Header(mem[mem[p].ptr].ptr, mem[bp].size)];
      } else {
        mem := mem[bp := Header(mem[p].ptr, mem[bp].size)];
      }
      if p + mem[p].size == bp {
        mem := mem[p := Header(mem[p].ptr, mem[p].size + mem[bp].size)];
        mem := mem[p := Header(mem[bp].ptr, mem[p].size)];
      } else {
        mem := mem[p := Header(bp, mem[p].size)];
      }
    }

    /** free: the block goes back to the free list, merged with the free blocks it touches; every other
        allocated block is as it was, and exactly the same units are in use. */
    method Free(ap: nat)
      requires Valid() && ap > 0 && ap - 1 in Allocated()
      modifies this`mem, this`freep, this`h
      ensures Valid() && freep != NULL
      ensures Allocated() == old(Allocated()) - {ap - 1}
      ensures h.owner.Keys == old(h.owner.Keys) && Untouched(old(mem), mem, old(h), ap - 1)
      ensures exists i: nat :: i < |h.fl| && h.fl[i] in h.blocks && h.blocks[h.fl[i]] >= old(Allocated()[ap - 1])
    {
      var bp := ap - 1;
      assert Headed(mem, h.blocks, bp);
      var p, t := FindPlace(bp);
      ghost var h' := FreeWritesOk(mem, h, t, bp);
      FreeUntouched(mem, h, t, bp);
      Relink(p, bp);
      freep, h := p, h';
    }

    /** sbrk returns a, and the new memory is made one block with a header. */
    method Grow(a: nat, nu: nat)
      requires Valid() && freep != NULL && a >= brk && nu > 0
      modifies this`mem, this`brk, this`h
      ensures Valid() && a !in old(h.owner) && a !in old(Allocated())
      ensures Allocated() == old(Allocated())[a := nu]
      ensures a in mem && mem == old(mem)[a := mem[a]]
      ensures forall u {:trigger u in h.owner} :: u in h.owner <==> u in old(h.owner) || a <= u < a + nu
    {
      var ptr := if a in mem then mem[a].ptr else NULL;
      GrantOk(mem, h, a, nu, ptr);
      mem, h, brk := mem[a := Header(ptr, nu)], Granted(h, a, nu), a + nu;
    }

    /** morecore: at least MINUNITS more units, added to the free list. */
    method MoreCore(want: nat, sbrk: Grant) returns (p: nat)
      requires Valid() && freep != NULL && want > 0 && (sbrk.At? ==> sbrk.a >= brk)
      modifies this
      ensures Valid() && freep != NULL && Allocated() == old(Allocated()) && Untouched(old(mem), mem, old(h), NULL)
      ensures sbrk.Refused? ==> p == NULL && freep == old(freep) && h == old(h) && mem == old(mem)
      ensures sbrk.At? ==> p == freep && Fits(mem, h, want) && OwnerGrew(old(h), h, sbrk.a, want)
    {
      var nu := want;
      if nu < MINUNITS {
        nu := MINUNITS;
      }
      if sbrk.Refused? {
        return NULL;
      }
      var a := sbrk.a;
      ghost var m0, h0 := mem, h;
      Grow(a, nu);
      ghost var m1, h1 := mem, h;
      Free(a + 1);
      GrantedAndFreed(Live(h0), a, nu);
      UntouchedChain(m0, h0, m1, h1, mem, a);
      FitsFrom(mem, h, want);
      return freep;
    }

    /** A block of exactly the size wanted leaves the list. */
    method TakeWhole(p: nat, prevp: nat)
      requires Valid() && freep != NULL && p in h.fl && prevp in h.fl && prevp in mem && mem[prevp].ptr == p
      requires p in mem && mem[p].size > 0
      modifies this`mem, this`h
      ensures HeapOk(mem, h) && BASE in mem && prevp in h.fl && p !in old(Allocated()) && p > BASE
      ensures Allocated() == old(Allocated())[p := old(mem)[p].size]
      ensures h.owner == old(h.owner) && Untouched(old(mem), mem, old(h), NULL)
    {
      ghost var k := FindPred(mem, h, prevp, p);
      assert Headed(mem, h.blocks, p) && Linked(mem, h.fl, k) && Linked(mem, h.fl, k - 1);
      UnlinkOk(mem, h, k);
      UnlinkKeeps(mem, h, k);
      mem := mem[prevp := Header(mem[p].ptr, mem[prevp].size)];
      h := h.(fl := Delete(h.fl, k));
    }

    /** The tail of a larger block becomes a block; what is left of it stays in the list. */
    method TakeTail(p: nat, prevp: nat, n: nat) returns (bp: nat)
      requires Valid() && freep != NULL && p in h.fl && prevp in h.fl && prevp in mem && mem[prevp].ptr == p
      requires p in mem && 0 < n < mem[p].size
      modifies this`mem, this`h
      ensures HeapOk(mem, h) && BASE in mem && prevp in h.fl && bp !in old(Allocated()) && bp > BASE
      ensures Allocated() == old(Allocated())[bp := n]
      ensures h.owner.Keys == old(h.owner.Keys) && Untouched(old(mem), mem, old(h), NULL)
    {
      ghost var m0 := mem;
      ghost var k := FindPred(mem, h, prevp, p);
      var rest := mem[p].size - n;
      var ptr := if p + rest in mem then mem[p + rest].ptr else NULL;
      mem := mem[p := Header(mem[p].ptr, rest)];
      bp := p + rest;
      mem := mem[bp := Header(ptr, n)];
      assert mem == Split(m0, p, n, ptr);
      assert Headed(m0, h.blocks, p);
      SplitOk(m0, h, k, n, ptr);
      SplitUntouched(m0, h, k, n, ptr);
      h := Splitted(h, p, n);
    }

    /** Cut the found block p, successor of prevp, down to n units and take it off the list. */
    method Take(p: nat, prevp: nat, n: nat) returns (bp: nat)
      requires Valid() && freep != NULL && n > 0
      requires p in h.fl && prevp in h.fl && prevp in mem && mem[prevp].ptr == p && p in mem && mem[p].size >= n
      modifies this`mem, this`freep, this`h
      ensures Valid() && freep == prevp && bp !in old(Allocated()) && bp > BASE
      ensures Allocated() == old(Allocated())[bp := n]
      ensures h.owner.Keys == old(h.owner.Keys) && Untouched(old(mem), mem, old(h), NULL)
    {
      if mem[p].size == n {
        TakeWhole(p, prevp);
        bp := p;
      } else {
        bp := TakeTail(p, prevp, n);
      }
      freep := prevp;
    }

    /** The search of malloc so far: live blocks are as at its start, and it has called morecore or it has not. */
    ghost predicate Since(m0: Memory, h0: Layout, n: nat, sbrk: Grant, grown: bool)
      reads this
    {
      && Valid() && freep != NULL && Live(h0) == Allocated() && Untouched(m0, mem, h0, NULL)
      && if grown then Fits(mem, h, n) && sbrk.At? && OwnerGrew(h0, h, sbrk.a, n) else h.owner == h0.owner
    }

    /** The search has come back to freep and found every block too small. */
    method WrapAround(n: nat, sbrk: Grant, ghost m0: Memory, ghost h0: Layout, ghost ring0: seq<nat>, ghost s: nat,
                      ghost prevp: nat)
      returns (p: nat, ghost ring: seq<nat>)
      requires Since(m0, h0, n, sbrk, false) && n > 0 && (sbrk.At? ==> sbrk.a >= brk)
      requires HeapOk(m0, h0) || h0.owner == map[]
      requires Looking(mem, h.fl, ring0, freep, s, n, prevp, freep) && freep in mem && mem[freep].size < n
      modifies this
      ensures sbrk.Refused? ==> p == NULL && Since(m0, h0, n, sbrk, false) && !Fits(mem, h, n)
      ensures sbrk.At? ==> p == freep && Since(m0, h0, n, sbrk, true) && IsRing(mem, h.fl, ring, freep)
    {
      LookAt(mem, h.fl, ring0, freep, s, n, prevp, freep);
      AllSmall(mem, h, ring0, freep, s, n);
      ghost var m1, h1 := mem, h;
      p := MoreCore(n, sbrk);
      UntouchedTrans(m0, h0, m1, h1, mem);
      ring := RingFrom(mem, h.fl, freep);
    }

    /** Take, seen from the state malloc started in. */
    method Hand(p: nat, prevp: nat, n: nat, sbrk: Grant, ghost m0: Memory, ghost h0: Layout, ghost grown: bool)
      returns (bp: nat)
      requires Since(m0, h0, n, sbrk, grown) && n > 0 && (HeapOk(m0, h0) || h0.owner == map[])
      requires p in h.fl && prevp in h.fl && prevp in mem && mem[prevp].ptr == p && p in mem && mem[p].size >= n
      modifies this`mem, this`freep, this`h
      ensures Valid() && bp !in Live(h0) && bp > BASE && Allocated() == Live(h0)[bp := n]
      ensures Untouched(m0, mem, h0, NULL) && OwnersAfter(h0.owner, h.owner, sbrk, n)
    {
      ghost var m1, h1 := mem, h;
      bp := Take(p, prevp, n);
      UntouchedTrans(m0, h0, m1, h1, mem);
    }

    /** The first call of malloc makes the list of base alone. */
    method StartList()
      requires Valid() && freep == NULL
      modifies this`mem, this`freep, this`h
      ensures Valid() && freep == BASE && Allocated() == map[] && h.owner == map[] && h.fl == [BASE]
    {
      mem := mem[BASE := Header(BASE, 0)];
      freep := BASE;
      h := Layout([BASE], map[], map[]);
      assert Linked(mem, h.fl, 0);
    }

    /** Where malloc begins its search. */
    method Begin() returns (prevp: nat, ghost ring: seq<nat>)
      requires Valid()
      modifies this`mem, this`freep, this`h
      ensures Valid() && prevp == freep != NULL && IsRing(mem, h.fl, ring, freep)
      ensures Allocated() == old(Allocated()) && h.owner == old(h.owner) && Untouched(old(mem), mem, old(h), NULL)
      ensures old(HeapOk(mem, h)) || old(h.owner) == map[]
    {
      if freep == NULL {
        StartList();
      }
      prevp := freep;
      ring := RingFrom(mem, h.fl, freep);
    }

    /** malloc for nunits units. It asks sbrk at most once, and the search after that ends. */
    method Search(nunits: nat, sbrk: Grant) returns (r: nat)
      requires Valid() && nunits > 0 && (sbrk.At? ==> sbrk.a >= brk)
      modifies this
      ensures Valid() && Untouched(old(mem), mem, old(h), NULL)
      ensures r == NULL ==> sbrk.Refused? && Allocated() == old(Allocated()) && !Fits(mem, h, nunits)
                            && h.owner == old(h.owner)
      ensures r != NULL ==>
                && r > BASE + 1 && r - 1 !in old(Allocated())
                && Allocated() == old(Allocated())[r - 1 := nunits]
                && OwnersAfter(old(h.owner), h.owner, sbrk, nunits)
    {
      ghost var m0, h0, grown, s: nat := mem, h, false, 0;
      assert Allocated() == Live(h0);
      var prevp;
      ghost var ring;
      prevp, ring := Begin();
      LookFirst(mem, h.fl, ring, freep, nunits);
      var p := mem[prevp].ptr;
      while true
        invariant Since(m0, h0, nunits, sbrk, grown) && (!grown ==> brk == old(brk))
        invariant Looking(mem, h.fl, ring, freep, s, nunits, prevp, p)
        decreases !grown, |ring| - s
      {
        LookAt(mem, h.fl, ring, freep, s, nunits, prevp, p);
        if mem[p].size >= nunits {
          var bp := Hand(p, prevp, nunits, sbrk, m0, h0, grown);
          return bp + 1;
        }
        if p == freep {
          if grown {
            AllSmall(mem, h, ring, freep, s, nunits);
          }
          p, ring := WrapAround(nunits, sbrk, m0, h0, ring, s, prevp);
          if p == NULL {
            return NULL;
          }
          grown, s := true, 0;
          LookFirst(mem, h.fl, ring, freep, nunits);
        } else {
          LookNext(mem, h.fl, ring, freep, s, nunits, prevp, p);
          s := s + 1;
        }
        prevp := p;
        p := mem[p].ptr;
      }
    }

    /** malloc: a new block of enough units, apart from every other; or NULL when no free block is large
        enough and sbrk refuses. */
    method Malloc(nbytes: nat, sbrk: Grant) returns (r: nat)
      requires Valid() && (sbrk.At? ==> sbrk.a >= brk)
      modifies this
      ensures Valid() && Untouched(old(mem), mem, old(h), NULL)
      ensures r == NULL ==> sbrk.Refused? && Allocated() == old(Allocated()) && !Fits(mem, h, Units(nbytes))
                            && h.owner == old(h.owner)
      ensures r != NULL ==>
                && r > BASE + 1 && r - 1 !in old(Allocated())
                && Allocated() == old(Allocated())[r - 1 := Units(nbytes)]
                && OwnersAfter(old(h.owner), h.owner, sbrk, Units(nbytes))
    {
      var nunits := (nbytes + UNIT - 1) / UNIT + 1;
      r := Search(nunits, sbrk);
    }
  }

  /** A block of Units(nbytes) units has room for its header and nbytes bytes. */
  lemma UnitsEnough(nbytes: nat)
    ensures (Units(nbytes) - 1) * UNIT >= nbytes && (Units(nbytes) - 2) * UNIT < nbytes
  {}
}
