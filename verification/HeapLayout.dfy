/**
 The heap of seminar2/dlmalloc.c as a value: the blocks of the arena in address
 order and the addresses on the free list in list order. Addresses are byte
 offsets from `arena`. Every allocator operation is specified here as a function
 on such heaps; the class in Dlmalloc.dfy is proved to compute these functions
 on words in memory.
 */
module HeapLayout {
  import opened Options
  import opened CTypes

  const HEAD := 8               // sizeof(struct taken)
  const MIN := 16               // MIN(0) with TAKENSTRUCT defined
  const ALIGN := 8
  const ARENA := 64 * 1024
  const SENTINEL := ARENA - HEAD
  const WORDS := ARENA / 8

  /** A header address, its payload size in bytes, and its status. */
  datatype Block = Block(start: nat, size: nat, free: bool) {
    /** The address of the next header. */
    function End(): nat { start + size + HEAD }
  }

  datatype Heap = Heap(blocks: seq<Block>, flist: seq<nat>)

  // ---------------------------------------------------------------- invariant

  ghost predicate Sized(b: Block) {
    b.start % ALIGN == 0 && b.size % ALIGN == 0 && b.size >= MIN
  }

  /** The blocks cover the stretch from `from` up to `to`, each starting where the one before ends. */
  ghost predicate Contiguous(bs: seq<Block>, from: nat, to: nat) {
    && |bs| > 0
    && bs[0].start == from
    && bs[|bs| - 1].End() == to
    && (forall i, j :: 0 <= i && j == i + 1 && j < |bs| ==> bs[j].start == bs[i].End())
  }

  /** They do so in pieces that are aligned and can hold two links. */
  ghost predicate Chain(bs: seq<Block>, from: nat, to: nat) {
    Contiguous(bs, from, to) && (forall b :: b in bs ==> Sized(b))
  }

  ghost predicate AllAligned(bs: seq<Block>) {
    forall b :: b in bs ==> b.start % ALIGN == 0 && b.size % ALIGN == 0
  }

  /** The blocks tile the arena exactly, up to the sentinel. */
  ghost predicate Tiles(bs: seq<Block>) { Chain(bs, 0, SENTINEL) }

  ghost predicate IsFree(bs: seq<Block>, a: nat) {
    exists b :: b in bs && b.start == a && b.free
  }

  ghost predicate IsLive(bs: seq<Block>, a: nat) {
    exists b :: b in bs && b.start == a && !b.free
  }

  ghost predicate IsStart(bs: seq<Block>, a: nat) {
    exists b :: b in bs && b.start == a
  }

  ghost predicate NoDup(f: seq<nat>) {
    forall i, j :: 0 <= i < j < |f| ==> f[i] != f[j]
  }

  /** The free list holds each free block once and nothing else. */
  ghost predicate ListsFree(h: Heap) {
    NoDup(h.flist) && forall a :: a in h.flist <==> IsFree(h.blocks, a)
  }

  /** As `ListsFree`, except that the block at `a` is known to be off the list. */
  ghost predicate ListsFreeExcept(h: Heap, a: nat) {
    NoDup(h.flist) && forall x :: x in h.flist <==> IsFree(h.blocks, x) && x != a
  }

  ghost predicate WellFormed(h: Heap) {
    Tiles(h.blocks) && ListsFree(h)
  }

  /** No two neighbouring blocks are both free. */
  ghost predicate Coalesced(bs: seq<Block>) {
    forall i, j :: 0 <= i && j == i + 1 && j < |bs| ==> !(bs[i].free && bs[j].free)
  }

  /** A word in the payload of a live block. */
  ghost predicate InLive(bs: seq<Block>, w: int) {
    exists b :: b in bs && !b.free && b.start < 8 * w < b.End()
  }

  // ---------------------------------------------------------------- operations

  /** The `%` of C. */
  function Rem(a: int, b: int): int
    requires b > 0
  {
    if a >= 0 then a % b else -((-a) % b)
  }

  /** `adjust`. */
  function Adjust(requested: nat): int {
    var minsize := ToInt(if requested > MIN then requested else MIN);
    if Rem(minsize, ALIGN) == 0 then ToInt(requested)
    else ToInt(minsize + ALIGN - Rem(minsize, ALIGN))
  }

  /** The size that `find` is asked for. */
  function Wanted(requested: nat): nat { ToSize(Adjust(requested)) }

  /** The least free size that is split when `size` bytes are wanted. */
  function Limit(size: nat): nat { MIN + HEAD + size }

  /** Sizes of which a proper block can be cut off another one. */
  predicate Cuttable(size: nat) { size % ALIGN == 0 && size >= MIN }

  function InitHeap(): Heap {
    Heap([Block(0, ARENA - 2 * HEAD, true)], [0])
  }

  function Splice<T>(s: seq<T>, i: nat, j: nat, mid: seq<T>): seq<T>
    requires i <= j <= |s|
  {
    s[..i] + mid + s[j..]
  }

  function IndexOf(bs: seq<Block>, a: nat): (i: nat)
    ensures i <= |bs|
    ensures i < |bs| ==> bs[i].start == a
    ensures forall k :: 0 <= k < i ==> bs[k].start != a
  {
    if bs == [] || bs[0].start == a then 0 else 1 + IndexOf(bs[1..], a)
  }

  function SizeAt(bs: seq<Block>, a: nat): nat {
    var i := IndexOf(bs, a);
    if i < |bs| then bs[i].size else 0
  }

  function Unlink(f: seq<nat>, a: nat): seq<nat> {
    if f == [] then []
    else if f[0] == a then f[1..]
    else [f[0]] + Unlink(f[1..], a)
  }

  /** The position at or after `k` of the first block on the free list with room for `size`. */
  function FirstFit(h: Heap, k: nat, size: nat): (r: nat)
    requires k <= |h.flist|
    ensures k <= r <= |h.flist|
    ensures r < |h.flist| ==> SizeAt(h.blocks, h.flist[r]) >= size
    ensures forall j :: k <= j < r ==> SizeAt(h.blocks, h.flist[j]) < size
    decreases |h.flist| - k
  {
    if k == |h.flist| || SizeAt(h.blocks, h.flist[k]) >= size then k
    else FirstFit(h, k + 1, size)
  }

  /** `find` splits the block it takes: the guard of that branch, for the block the search stops at. */
  predicate WillSplit(h: Heap, size: nat) {
    var k := FirstFit(h, 0, size);
    k < |h.flist| && SizeAt(h.blocks, h.flist[k]) >= Limit(size)
  }

  /** Cut block `i` in two: the rest keeps the address, the new block of `size` bytes takes the high end. */
  function SplitBlock(bs: seq<Block>, i: nat, size: nat): seq<Block>
    requires i < |bs| && bs[i].size >= size + HEAD
  {
    var rest := bs[i].(size := bs[i].size - size - HEAD);
    Splice(bs, i, i + 1, [rest, Block(rest.End(), size, false)])
  }

  function SetFree(bs: seq<Block>, i: nat, free: bool): seq<Block>
    requires i < |bs|
  {
    bs[i := bs[i].(free := free)]
  }

  /** Take `size` bytes out of free block `i`; the address is that of the block handed out. */
  function Carve(h: Heap, i: nat, size: nat): (Heap, nat)
    requires i < |h.blocks| && h.blocks[i].size >= size
  {
    var b := h.blocks[i];
    if b.size >= Limit(size) then
      (Heap(SplitBlock(h.blocks, i, size), [b.start] + Unlink(h.flist, b.start)), b.End() - size - HEAD)
    else
      (Heap(SetFree(h.blocks, i, false), Unlink(h.flist, b.start)), b.start)
  }

  function FindSpec(h: Heap, size: nat): (Heap, Option<nat>) {
    var k := FirstFit(h, 0, size);
    if k < |h.flist| && IndexOf(h.blocks, h.flist[k]) < |h.blocks| then
      var (h', a) := Carve(h, IndexOf(h.blocks, h.flist[k]), size);
      (h', Some(a))
    else
      (h, None)
  }

  /** `dalloc`: the new heap and the header address behind the pointer returned, if any. */
  function DallocSpec(h: Heap, requested: nat): (Heap, Option<nat>) {
    if requested == 0 then (h, None) else FindSpec(h, Wanted(requested))
  }

  /** Blocks `i` and `i + 1` become one block at the address and with the status of the first. */
  function Join(bs: seq<Block>, i: nat): seq<Block>
    requires i + 1 < |bs|
  {
    Splice(bs, i, i + 2, [bs[i].(size := bs[i].size + bs[i + 1].size + HEAD)])
  }

  /** The first half of `merge`: absorb block `i` into a free block before it. */
  function MergeBefore(h: Heap, i: nat): (r: (Heap, nat))
    requires i < |h.blocks|
    ensures r.1 < |r.0.blocks|
  {
    if i > 0 && h.blocks[i - 1].free then
      (Heap(Join(h.blocks, i - 1), Unlink(h.flist, h.blocks[i - 1].start)), i - 1)
    else (h, i)
  }

  /** The second half of `merge`: absorb a free block after block `i`. */
  function MergeAfter(h: Heap, i: nat): (h': Heap)
    requires i < |h.blocks|
    ensures i < |h'.blocks|
  {
    if i + 1 < |h.blocks| && h.blocks[i + 1].free then
      Heap(Join(h.blocks, i), Unlink(h.flist, h.blocks[i + 1].start))
    else h
  }

  /** `dfree` as written: mark block `i` free and push it on the free list. */
  function Release(h: Heap, i: nat): Heap
    requires i < |h.blocks|
  {
    Heap(SetFree(h.blocks, i, true), [h.blocks[i].start] + h.flist)
  }

  /** `dfree` of the block at header address `a`; `merging` enables the commented-out call. */
  function DfreeSpec(h: Heap, a: nat, merging: bool): Heap {
    var i := IndexOf(h.blocks, a);
    if i >= |h.blocks| then h
    else if merging then
      var (h1, i1) := MergeBefore(h, i);
      Release(MergeAfter(h1, i1), i1)
    else Release(h, i)
  }

  // ---------------------------------------------------------------- facts about tilings

  lemma {:induction false} Ordered(bs: seq<Block>, from: nat, to: nat, i: nat, j: nat)
    requires Chain(bs, from, to) && i < j < |bs|
    ensures bs[i].End() <= bs[j].start
    decreases j
  {
    if i + 1 < j {
      Ordered(bs, from, to, i, j - 1);
      assert Sized(bs[j - 1]);
    }
  }

  /** The header addresses of a tiling determine its blocks. */
  lemma IndexOfStart(bs: seq<Block>, i: nat)
    requires Tiles(bs) && i < |bs|
    ensures IndexOf(bs, bs[i].start) == i
  {
    var k := IndexOf(bs, bs[i].start);
    if k < i {
      Ordered(bs, 0, SENTINEL, k, i);
    } else if i < k { }
  }

  lemma SameStart(bs: seq<Block>, b: Block, c: Block)
    requires Tiles(bs) && b in bs && c in bs && b.start == c.start
    ensures b == c
  {
    var i :| 0 <= i < |bs| && bs[i] == b;
    var j :| 0 <= j < |bs| && bs[j] == c;
    IndexOfStart(bs, i);
    IndexOfStart(bs, j);
  }

  lemma BlocksApart(bs: seq<Block>, b: Block, c: Block)
    requires Tiles(bs) && b in bs && c in bs && b != c
    ensures b.End() <= c.start || c.End() <= b.start
  {
    var i :| 0 <= i < |bs| && bs[i] == b;
    var j :| 0 <= j < |bs| && bs[j] == c;
    if i < j { Ordered(bs, 0, SENTINEL, i, j); } else { Ordered(bs, 0, SENTINEL, j, i); }
  }

  lemma WithinArena(bs: seq<Block>, b: Block)
    requires Tiles(bs) && b in bs
    ensures b.End() <= SENTINEL
  {
    var i :| 0 <= i < |bs| && bs[i] == b;
    if i < |bs| - 1 { Ordered(bs, 0, SENTINEL, i, |bs| - 1); }
  }

  lemma SpliceContiguous(bs: seq<Block>, i: nat, j: nat, mid: seq<Block>)
    requires Contiguous(bs, 0, SENTINEL) && i < j <= |bs|
    requires Contiguous(mid, bs[i].start, bs[j - 1].End())
    ensures Contiguous(Splice(bs, i, j, mid), 0, SENTINEL)
  {
  }

  /** Replacing a run of blocks by another chain over the same stretch keeps the tiling. */
  lemma SpliceTiles(bs: seq<Block>, i: nat, j: nat, mid: seq<Block>)
    requires Tiles(bs) && i < j <= |bs|
    requires Chain(mid, bs[i].start, bs[j - 1].End())
    ensures Tiles(Splice(bs, i, j, mid))
  {
  }

  lemma SetFreeTiles(bs: seq<Block>, i: nat, free: bool)
    requires Tiles(bs) && i < |bs|
    ensures Tiles(SetFree(bs, i, free))
  {
    var mid := [bs[i].(free := free)];
    assert Sized(bs[i]) && Sized(mid[0]);
    SpliceTiles(bs, i, i + 1, mid);
    SetFreeSplice(bs, i, free);
  }

  lemma SetFreeSplice(bs: seq<Block>, i: nat, free: bool)
    requires i < |bs|
    ensures SetFree(bs, i, free) == Splice(bs, i, i + 1, [bs[i].(free := free)])
  {
  }

  lemma SplitTiles(bs: seq<Block>, i: nat, size: nat)
    requires Tiles(bs) && i < |bs|
    requires Cuttable(size) && bs[i].size >= Limit(size)
    ensures Tiles(SplitBlock(bs, i, size))
  {
    var rest := bs[i].(size := bs[i].size - size - HEAD);
    assert Sized(bs[i]);
    SpliceTiles(bs, i, i + 1, [rest, Block(rest.End(), size, false)]);
  }

  lemma JoinTiles(bs: seq<Block>, i: nat)
    requires Tiles(bs) && i + 1 < |bs|
    ensures Tiles(Join(bs, i))
  {
    assert Sized(bs[i]) && Sized(bs[i + 1]) && bs[i + 1].start == bs[i].End();
    SpliceTiles(bs, i, i + 2, [bs[i].(size := bs[i].size + bs[i + 1].size + HEAD)]);
  }

  // ---------------------------------------------------------------- facts about the free list

  /** Unlinking the entry at `k` closes the gap. */
  lemma {:induction false} UnlinkAt(f: seq<nat>, k: nat)
    requires NoDup(f) && k < |f|
    ensures Unlink(f, f[k]) == f[..k] + f[k + 1..]
  {
    if k > 0 {
      UnlinkAt(f[1..], k - 1);
      assert f[1..][k - 1] == f[k];
      assert f[..k] + f[k + 1..] == [f[0]] + (f[1..][..k - 1] + f[1..][k..]);
    }
  }

  /** Unlinking removes exactly the one occurrence of `a`. */
  lemma UnlinkMember(f: seq<nat>, a: nat)
    requires NoDup(f) && a in f
    ensures NoDup(Unlink(f, a))
    ensures forall x :: x in Unlink(f, a) <==> x in f && x != a
  {
    var k :| 0 <= k < |f| && f[k] == a;
    UnlinkAt(f, k);
    GapDistinct(f, k);
    forall x ensures x in f[..k] + f[k + 1..] <==> x in f && x != a { GapMember(f, k, x); }
  }

  lemma GapDistinct(f: seq<nat>, k: nat)
    requires NoDup(f) && k < |f|
    ensures NoDup(f[..k] + f[k + 1..])
  {
    var u := f[..k] + f[k + 1..];
    forall i, j | 0 <= i < j < |u| ensures u[i] != u[j] {
      assert u[i] == f[if i < k then i else i + 1] && u[j] == f[if j < k then j else j + 1];
    }
  }

  lemma GapMember(f: seq<nat>, k: nat, x: nat)
    requires NoDup(f) && k < |f|
    ensures x in f[..k] + f[k + 1..] <==> x in f && x != f[k]
  {
    var u := f[..k] + f[k + 1..];
    if x in f && x != f[k] {
      var i :| 0 <= i < |f| && f[i] == x;
      assert x == u[if i < k then i else i - 1];
    }
  }
}
