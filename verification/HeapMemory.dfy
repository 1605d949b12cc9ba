/**
 The arena of seminar2/dlmalloc.c as 8192 eight-byte words, and what it means for
 those words to hold a given heap: a header in front of each block, and the two
 links of a listed block in the first two words of its payload.
 */
module HeapMemory {
  import opened Options
  import opened HeapLayout
  import opened HeapInvariant
  import opened LinkedLists

  /** The 16-bit fields of a header. */
  type u16 = x: int | 0 <= x < 0x1_0000

  /** What a store to a 16-bit field keeps of a value. */
  function U16(x: int): u16 { x % 0x1_0000 }

  datatype Word =
    | Header(bfree: bool, bsize: u16, free: bool, size: u16)
    | Link(to: Option<nat>)
    | Raw(bits: nat)

  /** The address of header `i`; the last one is the sentinel. */
  function AddrAt(bs: seq<Block>, i: nat): nat
    requires i <= |bs|
  {
    if i < |bs| then bs[i].start else SENTINEL
  }

  /** Header `i` tells of its own block and, in its boundary tag, of the block before; a stale `bfree` may be off. */
  ghost predicate HeaderFor(w: Word, bs: seq<Block>, i: nat, stale: bool)
    requires i <= |bs|
  {
    && w.Header?
    && w.size == (if i < |bs| then bs[i].size else 0)
    && w.free == (i < |bs| && bs[i].free)
    && w.bsize == (if i > 0 then bs[i - 1].size else 0)
    && (!stale ==> w.bfree == (i > 0 && bs[i - 1].free))
  }

  ghost predicate Headers(m: seq<Word>, bs: seq<Block>, stale: int)
    requires |m| == WORDS
  {
    forall i :: 0 <= i <= |bs| ==>
      AddrAt(bs, i) / 8 < WORDS && HeaderFor(m[AddrAt(bs, i) / 8], bs, i, i == stale)
  }

  /** The two words after header `a` are its links. */
  ghost predicate Linked(m: seq<Word>, a: nat, next: Option<nat>, prev: Option<nat>)
    requires |m| == WORDS
  {
    a / 8 + 2 < WORDS && m[a / 8 + 1] == Link(next) && m[a / 8 + 2] == Link(prev)
  }

  ghost predicate Links(m: seq<Word>, f: seq<nat>)
    requires |m| == WORDS
  {
    forall k :: 0 <= k < |f| ==> Linked(m, f[k], At(f, k + 1), At(f, k - 1))
  }

  /** The listed addresses lie at least three words apart. */
  ghost predicate Spread(f: seq<nat>) {
    forall i, j :: 0 <= i < j < |f| ==> f[i] / 8 + 3 <= f[j] / 8 || f[j] / 8 + 3 <= f[i] / 8
  }

  ghost predicate IsHeaderWord(bs: seq<Block>, w: int) {
    exists i :: 0 <= i <= |bs| && w == AddrAt(bs, i) / 8
  }

  ghost predicate IsLinkWord(f: seq<nat>, w: int) {
    exists k :: 0 <= k < |f| && (w == f[k] / 8 + 1 || w == f[k] / 8 + 2)
  }

  ghost predicate AllStarts(bs: seq<Block>, f: seq<nat>) {
    forall a :: a in f ==> IsStart(bs, a)
  }

  /** None of the words to be left alone is a header or a link. */
  ghost predicate Clear(keep: set<int>, bs: seq<Block>, f: seq<nat>) {
    forall w :: w in keep ==> 0 <= w < WORDS && !IsHeaderWord(bs, w) && !IsLinkWord(f, w)
  }

  ghost predicate Untouched(keep: set<int>, m: seq<Word>, m': seq<Word>)
    requires |m| == |m'| == WORDS
  {
    forall w :: w in keep && 0 <= w < WORDS ==> m'[w] == m[w]
  }

  /** The words `m` and the list head represent `h`, but for the `bfree` field of header `stale`. */
  ghost predicate Holds(m: seq<Word>, head: Option<nat>, h: Heap, stale: int) {
    && |m| == WORDS
    && Tiles(h.blocks) && NoDup(h.flist) && AllStarts(h.blocks, h.flist)
    && head == At(h.flist, 0)
    && Headers(m, h.blocks, stale)
    && Links(m, h.flist)
  }

  /** Header `i` as `Holds` promises it, and where the next one is. */
  lemma HeaderAt(m: seq<Word>, head: Option<nat>, h: Heap, stale: int, i: nat)
    requires Holds(m, head, h, stale) && i <= |h.blocks|
    ensures var w := AddrAt(h.blocks, i) / 8;
            w < |m| == WORDS && HeaderFor(m[w], h.blocks, i, i == stale)
    ensures AddrAt(h.blocks, i) % 8 == 0
    ensures i < |h.blocks| ==>
              && AddrAt(h.blocks, i + 1) == h.blocks[i].End()
              && Sized(h.blocks[i]) && h.blocks[i].size < 0x1_0000
              && AddrAt(h.blocks, i) / 8 + 3 <= AddrAt(h.blocks, i + 1) / 8 < WORDS
  {
    AddrWords(h.blocks, i);
    assert HeaderFor(m[AddrAt(h.blocks, i) / 8], h.blocks, i, i == stale);
    if i < |h.blocks| {
      AddrWords(h.blocks, i + 1);
      assert h.blocks[i] in h.blocks;
      if i < |h.blocks| - 1 { Ordered(h.blocks, 0, SENTINEL, i, |h.blocks| - 1); }
    }
  }

  /** The links of the `k`-th listed block as `Holds` promises them. */
  lemma LinksAt(m: seq<Word>, head: Option<nat>, h: Heap, stale: int, k: nat)
    requires Holds(m, head, h, stale) && k < |h.flist|
    ensures |m| == WORDS && Linked(m, h.flist[k], At(h.flist, k + 1), At(h.flist, k - 1))
    ensures head == At(h.flist, 0)
  {
  }

  // ---------------------------------------------------------------- where headers and links lie

  lemma AddrWords(bs: seq<Block>, i: nat)
    requires Tiles(bs) && i <= |bs|
    ensures AddrAt(bs, i) % 8 == 0 && AddrAt(bs, i) / 8 < WORDS
    ensures i < |bs| ==> AddrAt(bs, i) / 8 + 3 <= AddrAt(bs, i + 1) / 8
  {
    if i < |bs| {
      assert Sized(bs[i]);
      if i + 1 < |bs| { assert Sized(bs[i + 1]); }
      var last := bs[|bs| - 1];
      if i < |bs| - 1 { Ordered(bs, 0, SENTINEL, i, |bs| - 1); }
    }
  }

  lemma HeaderOrder(bs: seq<Block>, i: nat, j: nat)
    requires Tiles(bs) && i < j <= |bs|
    ensures AddrAt(bs, i) / 8 + 3 <= AddrAt(bs, j) / 8
  {
    AddrWords(bs, i);
    AddrWords(bs, j);
    if j < |bs| { Ordered(bs, 0, SENTINEL, i, j); assert Sized(bs[i]); }
    else if i < |bs| - 1 { Ordered(bs, 0, SENTINEL, i, |bs| - 1); assert Sized(bs[i]); assert Sized(bs[|bs| - 1]); }
  }

  lemma StartIndex(bs: seq<Block>, a: nat) returns (i: nat)
    requires Tiles(bs) && IsStart(bs, a)
    ensures i < |bs| && bs[i].start == a && IndexOf(bs, a) == i && AddrAt(bs, i) == a
  {
    var b :| b in bs && b.start == a;
    i :| 0 <= i < |bs| && bs[i] == b;
    IndexOfStart(bs, i);
  }

  /** The two link words of a block are no header words. */
  lemma LinkNotHeader(bs: seq<Block>, a: nat)
    requires Tiles(bs) && IsStart(bs, a)
    ensures !IsHeaderWord(bs, a / 8 + 1) && !IsHeaderWord(bs, a / 8 + 2) && a / 8 + 2 < WORDS
  {
    var i := StartIndex(bs, a);
    AddrWords(bs, i);
    AddrWords(bs, i + 1);
    forall j | 0 <= j <= |bs| ensures AddrAt(bs, j) / 8 != a / 8 + 1 && AddrAt(bs, j) / 8 != a / 8 + 2 {
      if j < i { HeaderOrder(bs, j, i); } else if i < j { HeaderOrder(bs, i, j); }
    }
  }

  /** Among aligned blocks the two link words of a block are no header words exactly when it has 16 bytes for them. */
  lemma LinkWordsClear(bs: seq<Block>, i: nat)
    requires Contiguous(bs, 0, SENTINEL) && AllAligned(bs) && i < |bs|
    ensures var w := bs[i].start / 8;
            IsHeaderWord(bs, w + 1) || IsHeaderWord(bs, w + 2) <==> bs[i].size < MIN
  {
    var w := bs[i].start / 8;
    assert bs[i] in bs;
    ContiguousOrder(bs, i, i + 1);
    if bs[i].size < MIN {
      assert AddrAt(bs, i + 1) / 8 == if bs[i].size == 0 then w + 1 else w + 2;
    } else {
      forall j | 0 <= j <= |bs| ensures AddrAt(bs, j) / 8 != w + 1 && AddrAt(bs, j) / 8 != w + 2 {
        if j < i { ContiguousOrder(bs, j, i); } else if i < j { ContiguousOrder(bs, i, j); }
      }
    }
  }

  lemma {:induction false} ContiguousOrder(bs: seq<Block>, i: nat, j: nat)
    requires Contiguous(bs, 0, SENTINEL) && i < j <= |bs|
    ensures bs[i].End() <= AddrAt(bs, j) && (j == i + 1 ==> bs[i].End() == AddrAt(bs, j))
    decreases j
  {
    if i + 1 < j { ContiguousOrder(bs, i, j - 1); }
  }

  lemma ListSpread(bs: seq<Block>, f: seq<nat>)
    requires Tiles(bs) && NoDup(f) && AllStarts(bs, f)
    ensures Spread(f)
  {
    forall k, l | 0 <= k < l < |f| ensures f[k] / 8 + 3 <= f[l] / 8 || f[l] / 8 + 3 <= f[k] / 8 {
      assert f[k] in f && f[l] in f;
      var i := StartIndex(bs, f[k]);
      var j := StartIndex(bs, f[l]);
      if i < j { HeaderOrder(bs, i, j); } else { HeaderOrder(bs, j, i); }
    }
  }

  // ---------------------------------------------------------------- stores

  /** A store away from the headers keeps them. */
  lemma StoreKeepsHeaders(m: seq<Word>, bs: seq<Block>, stale: int, w: nat, x: Word)
    requires |m| == WORDS && Headers(m, bs, stale) && w < WORDS && !IsHeaderWord(bs, w)
    ensures Headers(m[w := x], bs, stale)
  {
  }

  /** A store away from the links keeps them. */
  lemma StoreKeepsLinks(m: seq<Word>, f: seq<nat>, w: nat, x: Word)
    requires |m| == WORDS && Links(m, f) && w < WORDS && !IsLinkWord(f, w)
    ensures Links(m[w := x], f)
  {
  }

  /** Header words hold no links. */
  lemma HeaderNotLink(bs: seq<Block>, f: seq<nat>, i: nat)
    requires Tiles(bs) && AllStarts(bs, f) && i <= |bs|
    ensures !IsLinkWord(f, AddrAt(bs, i) / 8)
  {
    forall k | 0 <= k < |f| ensures AddrAt(bs, i) / 8 != f[k] / 8 + 1 && AddrAt(bs, i) / 8 != f[k] / 8 + 2 {
      assert f[k] in f;
      LinkNotHeader(bs, f[k]);
    }
  }

  /** The link words of a listed block after the stores of `detach`. */
  lemma UnlinkedCell(m: seq<Word>, f: seq<nat>, k: nat, m1: seq<Word>, m2: seq<Word>, o: nat)
    requires |m| == WORDS && Spread(f) && k < |f| && o < |f|
    requires Linked(m, f[o], At(f, o + 1), At(f, o - 1))
    requires forall i :: 0 <= i < |f| ==> f[i] / 8 + 2 < WORDS
    requires m1 == if k + 1 < |f| then m[f[k + 1] / 8 + 2 := Link(At(f, k - 1))] else m
    requires m2 == if k > 0 then m1[f[k - 1] / 8 + 1 := Link(At(f, k + 1))] else m1
    ensures Linked(m2, f[o], At(f, if o == k - 1 then k + 1 else o + 1), At(f, if o == k + 1 then k - 1 else o - 1))
  {
  }

  lemma UnlinkPtr(f: seq<nat>, k: nat, l: nat)
    requires NoDup(f) && k < |f| && l < |f| - 1
    ensures var g, o := Unlink(f, f[k]), if l < k then l else l + 1;
            && |g| == |f| - 1 && g[l] == f[o]
            && At(g, l + 1) == At(f, if o == k - 1 then k + 1 else o + 1)
            && At(g, l - 1) == At(f, if o == k + 1 then k - 1 else o - 1)
  {
    hide Unlink, NoDup;
    UnlinkAt(f, k);
  }

  /** The stores of `detach` make the list without entry `k`. */
  lemma UnlinkLinks(m: seq<Word>, f: seq<nat>, k: nat, m1: seq<Word>, m2: seq<Word>)
    requires |m| == WORDS && Links(m, f) && NoDup(f) && Spread(f) && k < |f|
    requires forall i :: 0 <= i < |f| ==> f[i] / 8 + 2 < WORDS
    requires m1 == if k + 1 < |f| then m[f[k + 1] / 8 + 2 := Link(At(f, k - 1))] else m
    requires m2 == if k > 0 then m1[f[k - 1] / 8 + 1 := Link(At(f, k + 1))] else m1
    ensures Links(m2, Unlink(f, f[k]))
  {
    var g := Unlink(f, f[k]);
    assert |g| == |f| - 1 by { UnlinkAt(f, k); }
    forall l | 0 <= l < |g|
      ensures Linked(m2, g[l], At(g, l + 1), At(g, l - 1))
    {
      UnlinkPtr(f, k, l);
      UnlinkedCell(m, f, k, m1, m2, if l < k then l else l + 1);
    }
  }

  /** The stores of `insert` make the list with `a` in front. */
  lemma PushLinks(m: seq<Word>, f: seq<nat>, a: nat, m1: seq<Word>, m2: seq<Word>)
    requires |m| == WORDS && Links(m, f) && Spread([a] + f) && a / 8 + 2 < WORDS
    requires m1 == m[a / 8 + 1 := Link(At(f, 0))][a / 8 + 2 := Link(None)]
    requires m2 == if |f| > 0 then m1[f[0] / 8 + 2 := Link(Some(a))] else m1
    ensures Links(m2, [a] + f)
  {
    assert |m2| == WORDS;
    hide Spread, Linked, At;
    var g := [a] + f;
    forall l | 0 <= l < |g|
      ensures Linked(m2, g[l], At(g, l + 1), At(g, l - 1))
    {
      PushedPtr(f, a, l);
      PushedCell(m, f, a, m1, m2, l);
    }
  }

  /** The neighbours of an entry after `a` has been pushed. */
  lemma PushedPtr(f: seq<nat>, a: nat, l: nat)
    requires l <= |f|
    ensures At([a] + f, l + 1) == At(f, l)
    ensures At([a] + f, l - 1) == if l == 0 then None else if l == 1 then Some(a) else At(f, l - 2)
  {
  }

  lemma PushedCell(m: seq<Word>, f: seq<nat>, a: nat, m1: seq<Word>, m2: seq<Word>, l: nat)
    requires |m| == WORDS && Links(m, f) && Spread([a] + f) && a / 8 + 2 < WORDS && l <= |f|
    requires m1 == m[a / 8 + 1 := Link(At(f, 0))][a / 8 + 2 := Link(None)]
    requires m2 == if |f| > 0 then m1[f[0] / 8 + 2 := Link(Some(a))] else m1
    ensures Linked(m2, ([a] + f)[l], At(f, l), if l == 0 then None else if l == 1 then Some(a) else At(f, l - 2))
  {
    if l > 0 { assert Linked(m, f[l - 1], At(f, l), At(f, l - 2)); }
    var g := [a] + f;
    var x, y := g[l] / 8, a / 8;
    assert g[0] == a;
    assert l > 0 ==> x + 3 <= y || y + 3 <= x;
    if |f| > 0 {
      var z := g[1] / 8;
      assert l != 1 ==> x + 3 <= z || z + 3 <= x;
    }
  }

  // ---------------------------------------------------------------- header updates

  /** The headers of a spliced layout, away from the splice. */
  lemma HeaderAfterStatus(m: seq<Word>, bs: seq<Block>, i: nat, free: bool, stale: int, m': seq<Word>)
    requires |m| == WORDS && Tiles(bs) && i < |bs| && Headers(m, bs, stale) && (stale == -1 || stale == i + 1)
    requires var x, y := AddrAt(bs, i) / 8, AddrAt(bs, i + 1) / 8;
             x < y < WORDS && m[x].Header? && m[y].Header? &&
             m' == m[x := m[x].(free := free)][y := m[y].(bfree := free)]
    ensures Headers(m', SetFree(bs, i, free), -1)
  {
    hide Chain;
    var bs' := SetFree(bs, i, free);
    forall j | 0 <= j <= |bs'|
      ensures AddrAt(bs', j) / 8 < WORDS && HeaderFor(m'[AddrAt(bs', j) / 8], bs', j, false)
    {
      assert HeaderFor(m[AddrAt(bs, j) / 8], bs, j, j == stale);
      assert AddrAt(bs', j) == AddrAt(bs, j);
      if j < i { HeaderOrder(bs, j, i); } else if i + 1 < j { HeaderOrder(bs, i + 1, j); }
    }
  }

  /** The stores of `split`: the header after the new block still says that its neighbour is free. */
  lemma SplitHeaders(m: seq<Word>, bs: seq<Block>, i: nat, size: nat, m': seq<Word>)
    requires |m| == WORDS && Tiles(bs) && i < |bs| && Headers(m, bs, -1) && bs[i].free
    requires Cuttable(size) && bs[i].size >= Limit(size)
    requires var x, y, z := AddrAt(bs, i) / 8, (bs[i].End() - size - HEAD) / 8, AddrAt(bs, i + 1) / 8;
             x < y < z < WORDS && m[x].Header? && m[z].Header? && bs[i].size < 0x1_0000 &&
             m' == m[x := m[x].(size := bs[i].size - size - HEAD)]
                    [y := Header(true, bs[i].size - size - HEAD, false, size)]
                    [z := m[z].(bsize := size)]
    ensures Headers(m', SplitBlock(bs, i, size), i + 2)
  {
    hide Chain;
    var bs' := SplitBlock(bs, i, size);
    forall j | 0 <= j <= |bs'|
      ensures AddrAt(bs', j) / 8 < WORDS && HeaderFor(m'[AddrAt(bs', j) / 8], bs', j, j == i + 2)
    {
      if j <= i {
        assert HeaderFor(m[AddrAt(bs, j) / 8], bs, j, false);
        assert AddrAt(bs', j) == AddrAt(bs, j);
        assert j > 0 ==> bs'[j - 1] == bs[j - 1];
        if j < i { HeaderOrder(bs, j, i); }
      } else if j == i + 1 {
        assert bs'[j] == Block(bs[i].End() - size - HEAD, size, false);
      } else {
        assert HeaderFor(m[AddrAt(bs, j - 1) / 8], bs, j - 1, false);
        assert AddrAt(bs', j) == AddrAt(bs, j - 1);
        assert j < |bs'| ==> bs'[j] == bs[j - 1];
        if j > i + 2 {
          assert bs'[j - 1] == bs[j - 2];
          HeaderOrder(bs, i + 1, j - 1);
        }
      }
    }
  }

  /** The stores of one half of `merge`: the tag behind the joined block is not updated yet. */
  lemma JoinHeaders(m: seq<Word>, bs: seq<Block>, i: nat, stale: int, m': seq<Word>)
    requires |m| == WORDS && Tiles(bs) && i + 1 < |bs| && Headers(m, bs, stale) && (stale == -1 || stale == i + 1)
    requires var x, z := AddrAt(bs, i) / 8, AddrAt(bs, i + 2) / 8;
             var size := bs[i].size + bs[i + 1].size + HEAD;
             x < z < WORDS && m[x].Header? && m[z].Header? && size < 0x1_0000 &&
             m' == m[x := m[x].(size := size)][z := m[z].(bsize := size)]
    ensures Headers(m', Join(bs, i), i + 1)
  {
    hide Chain;
    var bs' := Join(bs, i);
    forall j | 0 <= j <= |bs'|
      ensures AddrAt(bs', j) / 8 < WORDS && HeaderFor(m'[AddrAt(bs', j) / 8], bs', j, j == i + 1)
    {
      if j <= i {
        assert HeaderFor(m[AddrAt(bs, j) / 8], bs, j, false);
        assert AddrAt(bs', j) == AddrAt(bs, j);
        assert j > 0 ==> bs'[j - 1] == bs[j - 1];
        if j < i { HeaderOrder(bs, j, i); }
      } else {
        assert HeaderFor(m[AddrAt(bs, j + 1) / 8], bs, j + 1, false);
        assert AddrAt(bs', j) == AddrAt(bs, j + 1);
        assert j < |bs'| ==> bs'[j] == bs[j + 1];
        if j > i + 1 {
          assert bs'[j - 1] == bs[j];
          HeaderOrder(bs, i + 2, j + 1);
        }
      }
    }
  }

  // ---------------------------------------------------------------- client payloads

  ghost function LiveWords(bs: seq<Block>): set<int> {
    set w | 0 <= w < WORDS && InLive(bs, w)
  }

  /** No word of a live payload is a header word or holds a link of the free list. */
  lemma LiveClear(bs: seq<Block>, f: seq<nat>)
    requires Tiles(bs) && forall a :: a in f ==> IsFree(bs, a)
    ensures Clear(LiveWords(bs), bs, f)
  {
    forall w | w in LiveWords(bs) ensures !IsHeaderWord(bs, w) && !IsLinkWord(f, w) {
      var b :| b in bs && !b.free && b.start < 8 * w < b.End();
      if IsHeaderWord(bs, w) {
        var i :| 0 <= i <= |bs| && w == AddrAt(bs, i) / 8;
        AddrWords(bs, i);
        LiveNotHeader(bs, b, i);
      }
      if IsLinkWord(f, w) {
        var k :| 0 <= k < |f| && (w == f[k] / 8 + 1 || w == f[k] / 8 + 2);
        assert f[k] in f;
        var c :| c in bs && c.start == f[k] && c.free;
        assert Sized(c);
        BlocksApart(bs, b, c);
      }
    }
  }

  lemma LiveInRange(h: Heap, w: int)
    requires WellFormed(h) && InLive(h.blocks, w)
    ensures 0 <= w < WORDS
  {
    var b :| b in h.blocks && !b.free && b.start < 8 * w < b.End();
    WithinArena(h.blocks, b);
  }

  lemma LiveNotHeader(bs: seq<Block>, b: Block, i: nat)
    requires Tiles(bs) && b in bs && i <= |bs|
    ensures AddrAt(bs, i) <= b.start || b.End() <= AddrAt(bs, i)
  {
    if i < |bs| {
      assert bs[i] in bs;
      if bs[i] != b { BlocksApart(bs, b, bs[i]); }
    } else {
      var j :| 0 <= j < |bs| && bs[j] == b;
      if j < |bs| - 1 { Ordered(bs, 0, SENTINEL, j, |bs| - 1); }
    }
  }

  /** A word inside a free block is in no live payload. */
  lemma FreeWordNotLive(bs: seq<Block>, b: Block, w: int)
    requires Tiles(bs) && b in bs && b.free && b.start < 8 * w < b.End()
    ensures w !in LiveWords(bs)
  {
    if w in LiveWords(bs) {
      var c :| c in bs && !c.free && c.start < 8 * w < c.End();
      BlocksApart(bs, b, c);
    }
  }

  // ---------------------------------------------------------------- steps: the stores of one C function

  /** A list with fewer blocks has fewer links. */
  lemma LinkWordOf(f: seq<nat>, g: seq<nat>, w: int)
    requires IsLinkWord(g, w) && forall a :: a in g ==> a in f
    ensures IsLinkWord(f, w)
  {
    var k :| 0 <= k < |g| && (w == g[k] / 8 + 1 || w == g[k] / 8 + 2);
    assert g[k] in f;
    var l :| 0 <= l < |f| && f[l] == g[k];
  }

  lemma UnlinkClear(keep: set<int>, bs: seq<Block>, f: seq<nat>, a: nat)
    requires NoDup(f) && a in f && Clear(keep, bs, f)
    ensures Clear(keep, bs, Unlink(f, a))
  {
    hide Unlink, NoDup, IsHeaderWord;
    var g := Unlink(f, a);
    UnlinkMember(f, a);
    forall w | IsLinkWord(g, w) ensures IsLinkWord(f, w) { LinkWordOf(f, g, w); }
  }

  /** `detach` of the `k`-th listed block. */
  lemma DetachStep(m: seq<Word>, head: Option<nat>, h: Heap, stale: int, keep: set<int>, k: nat,
                   m1: seq<Word>, m2: seq<Word>)
    requires Holds(m, head, h, stale) && Clear(keep, h.blocks, h.flist) && k < |h.flist|
    requires var f := h.flist;
             && (k + 1 < |f| ==> f[k + 1] / 8 + 2 < WORDS) && (k > 0 ==> f[k - 1] / 8 + 1 < WORDS)
             && m1 == (if k + 1 < |f| then m[f[k + 1] / 8 + 2 := Link(At(f, k - 1))] else m)
             && m2 == (if k > 0 then m1[f[k - 1] / 8 + 1 := Link(At(f, k + 1))] else m1)
    ensures var g := Unlink(h.flist, h.flist[k]);
            && Holds(m2, if k > 0 then head else At(h.flist, k + 1), h.(flist := g), stale)
            && Clear(keep, h.blocks, g)
    ensures |m2| == WORDS && Untouched(keep, m, m2)
  {
    hide Chain, NoDup, AllStarts, Headers, Links, Clear, Untouched, IsStart, IsFree, Linked;
    hide Unlink, Spread;
    var f, bs := h.flist, h.blocks;
    ListSpread(bs, f);
    forall i | 0 <= i < |f| ensures f[i] / 8 + 2 < WORDS { LinkRange(m, head, h, stale, i); }
    UnlinkLinks(m, f, k, m1, m2);
    UnlinkHead(f, k);
    UnlinkKeeps(keep, bs, f, k);
    if k + 1 < |f| {
      LinkStore(m, bs, f, stale, keep, k + 1, f[k + 1] / 8 + 2, Link(At(f, k - 1)));
    } else {
      UntouchedRefl(keep, m);
    }
    if k > 0 {
      LinkStore(m1, bs, f, stale, keep, k - 1, f[k - 1] / 8 + 1, Link(At(f, k + 1)));
    } else {
      UntouchedRefl(keep, m1);
    }
    UntouchedTrans(keep, m, m1, m2);
  }

  lemma LinkRange(m: seq<Word>, head: Option<nat>, h: Heap, stale: int, k: nat)
    requires Holds(m, head, h, stale) && k < |h.flist|
    ensures h.flist[k] / 8 + 2 < WORDS
  {
    LinksAt(m, head, h, stale, k);
  }

  lemma UnlinkKeeps(keep: set<int>, bs: seq<Block>, f: seq<nat>, k: nat)
    requires NoDup(f) && AllStarts(bs, f) && Clear(keep, bs, f) && k < |f|
    ensures var g := Unlink(f, f[k]); NoDup(g) && AllStarts(bs, g) && Clear(keep, bs, g)
  {
    assert f[k] in f;
    UnlinkMember(f, f[k]);
    UnlinkClear(keep, bs, f, f[k]);
  }

  lemma UntouchedRefl(keep: set<int>, m: seq<Word>)
    requires |m| == WORDS
    ensures Untouched(keep, m, m)
  {
  }

  lemma UntouchedTrans(keep: set<int>, m: seq<Word>, m1: seq<Word>, m2: seq<Word>)
    requires |m| == |m1| == |m2| == WORDS && Untouched(keep, m, m1) && Untouched(keep, m1, m2)
    ensures Untouched(keep, m, m2)
  {
  }

  /** A store to a link of the `k`-th listed block leaves headers and kept words alone. */
  lemma LinkStore(m: seq<Word>, bs: seq<Block>, f: seq<nat>, stale: int, keep: set<int>, k: nat, w: nat, x: Word)
    requires |m| == WORDS && Tiles(bs) && AllStarts(bs, f) && Headers(m, bs, stale) && Clear(keep, bs, f)
    requires k < |f| && (w == f[k] / 8 + 1 || w == f[k] / 8 + 2) && w < WORDS
    ensures Headers(m[w := x], bs, stale) && Untouched(keep, m, m[w := x])
  {
    assert f[k] in f;
    LinkNotHeader(bs, f[k]);
    StoreKeepsHeaders(m, bs, stale, w, x);
    assert IsLinkWord(f, w);
  }

  lemma UnlinkHead(f: seq<nat>, k: nat)
    requires NoDup(f) && k < |f|
    ensures At(Unlink(f, f[k]), 0) == if k > 0 then At(f, 0) else At(f, k + 1)
  {
    UnlinkAt(f, k);
  }

  /** `insert` of block `a`. */
  lemma InsertStep(m: seq<Word>, head: Option<nat>, h: Heap, stale: int, keep: set<int>, a: nat,
                   m1: seq<Word>, m2: seq<Word>)
    requires Holds(m, head, h, stale) && Clear(keep, h.blocks, h.flist)
    requires IsStart(h.blocks, a) && a !in h.flist && a / 8 + 1 !in keep && a / 8 + 2 !in keep && a / 8 + 2 < WORDS
    requires m1 == m[a / 8 + 1 := Link(At(h.flist, 0))][a / 8 + 2 := Link(None)]
    requires |h.flist| > 0 ==> h.flist[0] / 8 + 2 < WORDS
    requires m2 == if |h.flist| > 0 then m1[h.flist[0] / 8 + 2 := Link(Some(a))] else m1
    ensures Holds(m2, Some(a), h.(flist := [a] + h.flist), stale)
    ensures Clear(keep, h.blocks, [a] + h.flist)
    ensures |m2| == WORDS && Untouched(keep, m, m2)
  {
    hide Chain, NoDup, AllStarts, Headers, Links, Clear, Untouched, IsStart, IsFree, Linked;
    hide Spread;
    var f, bs := h.flist, h.blocks;
    var g := [a] + f;
    PushKeeps(keep, bs, f, a);
    ListSpread(bs, g);
    PushLinks(m, f, a, m1, m2);
    var m0 := m[a / 8 + 1 := Link(At(f, 0))];
    LinkStore(m, bs, g, stale, {}, 0, a / 8 + 1, Link(At(f, 0)));
    LinkStore(m0, bs, g, stale, {}, 0, a / 8 + 2, Link(None));
    if |f| > 0 {
      assert g[1] == f[0];
      LinkStore(m1, bs, g, stale, {}, 1, f[0] / 8 + 2, Link(Some(a)));
      LinkStore(m1, bs, f, stale, keep, 0, f[0] / 8 + 2, Link(Some(a)));
    } else {
      UntouchedRefl(keep, m1);
    }
    assert Untouched(keep, m, m1) by { TwoStores(keep, m, m1, a / 8 + 1, a / 8 + 2); }
    UntouchedTrans(keep, m, m1, m2);
  }

  /** Pushing an unlisted block that starts outside the kept words. */
  lemma PushKeeps(keep: set<int>, bs: seq<Block>, f: seq<nat>, a: nat)
    requires NoDup(f) && AllStarts(bs, f) && Clear(keep, bs, f)
    requires IsStart(bs, a) && a !in f && a / 8 + 1 !in keep && a / 8 + 2 !in keep
    ensures var g := [a] + f; NoDup(g) && AllStarts(bs, g) && Clear(keep, bs, g) && Clear({}, bs, g)
  {
  }

  lemma TwoStores(keep: set<int>, m: seq<Word>, m': seq<Word>, x: int, y: int)
    requires |m| == |m'| == WORDS && x !in keep && y !in keep
    requires forall w :: 0 <= w < WORDS && w != x && w != y ==> m'[w] == m[w]
    ensures Untouched(keep, m, m')
  {
  }

  /** Stores at words that hold no link leave the links alone. */
  lemma OtherStores(m: seq<Word>, m': seq<Word>, f: seq<nat>, written: set<int>)
    requires |m| == |m'| == WORDS && Links(m, f) && forall w :: w in written ==> !IsLinkWord(f, w)
    requires forall w :: 0 <= w < WORDS && w !in written ==> m'[w] == m[w]
    ensures Links(m', f)
  {
  }

  /** After a splice, old starts outside the dropped headers are still starts. */
  lemma SpliceStarts(bs: seq<Block>, bs': seq<Block>, f: seq<nat>, pos: seq<nat>)
    requires AllStarts(bs, f) && |pos| == |bs|
    requires forall j :: 0 <= j < |bs| && bs[j].start in f ==> pos[j] < |bs'| && bs'[pos[j]].start == bs[j].start
    ensures AllStarts(bs', f)
  {
  }

  /** After a splice, header words are old header words or `y`. */
  lemma SpliceClear(keep: set<int>, bs: seq<Block>, bs': seq<Block>, f: seq<nat>, y: int)
    requires Clear(keep, bs, f) && y !in keep
    requires forall j :: 0 <= j <= |bs'| ==>
               AddrAt(bs', j) / 8 == y || exists l :: 0 <= l <= |bs| && AddrAt(bs', j) == AddrAt(bs, l)
    ensures Clear(keep, bs', f)
  {
  }

  /** `split` of free block `i`. */
  lemma SplitStep(m: seq<Word>, head: Option<nat>, h: Heap, keep: set<int>, i: nat, size: nat, m': seq<Word>)
    requires Holds(m, head, h, -1) && Clear(keep, h.blocks, h.flist) && i < |h.blocks| && h.blocks[i].free
    requires Cuttable(size) && Limit(size) <= h.blocks[i].size < 0x1_0000
    requires var x, y, z := AddrAt(h.blocks, i) / 8, (h.blocks[i].End() - size - HEAD) / 8, AddrAt(h.blocks, i + 1) / 8;
             && x < y < z < WORDS && m[x].Header? && m[z].Header? && y !in keep
             && m' == m[x := m[x].(size := h.blocks[i].size - size - HEAD)]
                       [y := Header(true, h.blocks[i].size - size - HEAD, false, size)]
                       [z := m[z].(bsize := size)]
    ensures var bs' := SplitBlock(h.blocks, i, size);
            Holds(m', head, h.(blocks := bs'), i + 2) && Clear(keep, bs', h.flist)
    ensures |m'| == WORDS && Untouched(keep, m, m')
  {
    hide Chain, NoDup, AllStarts, Headers, Links, Clear, Untouched, IsStart, IsFree, Linked;
    hide HeaderFor;
    var f, bs := h.flist, h.blocks;
    SplitHeaders(m, bs, i, size, m');
    SplitTiles(bs, i, size);
    SplitStarts(bs, f, i, size);
    SplitKeeps(m, bs, f, keep, i, size, m');
  }

  /** The stores of `split` leave links and kept words alone. */
  lemma SplitKeeps(m: seq<Word>, bs: seq<Block>, f: seq<nat>, keep: set<int>, i: nat, size: nat, m': seq<Word>)
    requires |m| == |m'| == WORDS && Tiles(bs) && AllStarts(bs, f) && Links(m, f) && Clear(keep, bs, f)
    requires i < |bs| && Cuttable(size) && Limit(size) <= bs[i].size
    requires var bs' := SplitBlock(bs, i, size); Tiles(bs') && AllStarts(bs', f)
    requires var x, y, z := AddrAt(bs, i) / 8, (bs[i].End() - size - HEAD) / 8, AddrAt(bs, i + 1) / 8;
             y !in keep && forall w :: 0 <= w < WORDS && w != x && w != y && w != z ==> m'[w] == m[w]
    ensures Links(m', f) && Untouched(keep, m, m') && Clear(keep, SplitBlock(bs, i, size), f)
  {
    hide Chain, AllStarts, Links, IsLinkWord;
    var bs' := SplitBlock(bs, i, size);
    var x, y, z := AddrAt(bs, i) / 8, (bs[i].End() - size - HEAD) / 8, AddrAt(bs, i + 1) / 8;
    HeaderNotLink(bs, f, i);
    HeaderNotLink(bs, f, i + 1);
    HeaderNotLink(bs', f, i + 1);
    assert AddrAt(bs', i + 1) / 8 == y;
    OtherStores(m, m', f, {x, y, z});
    forall j | 0 <= j <= |bs'|
      ensures AddrAt(bs', j) / 8 == y || exists l :: 0 <= l <= |bs| && AddrAt(bs', j) == AddrAt(bs, l)
    {
      if j != i + 1 { assert AddrAt(bs', j) == AddrAt(bs, if j <= i then j else j - 1); }
    }
    SpliceClear(keep, bs, bs', f, y);
    assert IsHeaderWord(bs, x) && IsHeaderWord(bs, z);
  }

  lemma SplitStarts(bs: seq<Block>, f: seq<nat>, i: nat, size: nat)
    requires i < |bs| && bs[i].size >= size + HEAD && AllStarts(bs, f)
    ensures AllStarts(SplitBlock(bs, i, size), f)
  {
    hide AllStarts;
    var bs' := SplitBlock(bs, i, size);
    var pos := seq(|bs|, j requires 0 <= j < |bs| => if j <= i then j else j + 1);
    forall j | 0 <= j < |bs| ensures pos[j] < |bs'| && bs'[pos[j]].start == bs[j].start { }
    SpliceStarts(bs, bs', f, pos);
  }

  /** One half of `merge`: the stores that make blocks `i` and `i + 1` one. */
  lemma JoinStep(m: seq<Word>, head: Option<nat>, h: Heap, stale: int, keep: set<int>, i: nat, m': seq<Word>)
    requires Holds(m, head, h, stale) && Clear(keep, h.blocks, h.flist) && i + 1 < |h.blocks|
    requires (stale == -1 || stale == i + 1) && h.blocks[i + 1].start !in h.flist
    requires var x, z := AddrAt(h.blocks, i) / 8, AddrAt(h.blocks, i + 2) / 8;
             var size := h.blocks[i].size + h.blocks[i + 1].size + HEAD;
             && x < z < WORDS && m[x].Header? && m[z].Header? && size < 0x1_0000
             && m' == m[x := m[x].(size := size)][z := m[z].(bsize := size)]
    ensures var bs' := Join(h.blocks, i);
            Holds(m', head, h.(blocks := bs'), i + 1) && Clear(keep, bs', h.flist)
    ensures |m'| == WORDS && Untouched(keep, m, m')
  {
    hide Chain, NoDup, AllStarts, Headers, Links, Clear, Untouched, IsStart, IsFree, Linked;
    hide HeaderFor;
    var f, bs := h.flist, h.blocks;
    JoinHeaders(m, bs, i, stale, m');
    JoinTiles(bs, i);
    JoinStarts(bs, f, i);
    JoinKeeps(m, bs, f, keep, i, m');
  }

  /** The stores that join two blocks leave links and kept words alone. */
  lemma JoinKeeps(m: seq<Word>, bs: seq<Block>, f: seq<nat>, keep: set<int>, i: nat, m': seq<Word>)
    requires |m| == |m'| == WORDS && Tiles(bs) && AllStarts(bs, f) && Links(m, f) && Clear(keep, bs, f)
    requires i + 1 < |bs|
    requires var x, z := AddrAt(bs, i) / 8, AddrAt(bs, i + 2) / 8;
             forall w :: 0 <= w < WORDS && w != x && w != z ==> m'[w] == m[w]
    ensures Links(m', f) && Untouched(keep, m, m') && Clear(keep, Join(bs, i), f)
  {
    hide Chain, AllStarts, Links, IsLinkWord;
    var bs' := Join(bs, i);
    var x, z := AddrAt(bs, i) / 8, AddrAt(bs, i + 2) / 8;
    HeaderNotLink(bs, f, i);
    HeaderNotLink(bs, f, i + 2);
    OtherStores(m, m', f, {x, z});
    assert IsHeaderWord(bs, x) && IsHeaderWord(bs, z);
    forall j | 0 <= j <= |bs'|
      ensures AddrAt(bs', j) / 8 == -1 || exists l :: 0 <= l <= |bs| && AddrAt(bs', j) == AddrAt(bs, l)
    {
      assert AddrAt(bs', j) == AddrAt(bs, if j <= i then j else j + 1);
    }
    assert -1 !in keep;
    SpliceClear(keep, bs, bs', f, -1);
  }

  lemma JoinStarts(bs: seq<Block>, f: seq<nat>, i: nat)
    requires i + 1 < |bs| && AllStarts(bs, f) && bs[i + 1].start !in f
    ensures AllStarts(Join(bs, i), f)
  {
    hide AllStarts;
    var bs' := Join(bs, i);
    assert forall j :: i + 1 < j < |bs| ==> bs'[j - 1] == bs[j];
    SpliceStarts(bs, bs', f, seq(|bs|, j requires 0 <= j < |bs| => if j <= i then j else j - 1));
  }

  /** Setting the status of block `i` in its header and in the tag behind it. */
  lemma StatusStep(m: seq<Word>, head: Option<nat>, h: Heap, stale: int, keep: set<int>, i: nat, free: bool,
                   m': seq<Word>)
    requires Holds(m, head, h, stale) && Clear(keep, h.blocks, h.flist) && i < |h.blocks|
    requires stale == -1 || stale == i + 1
    requires var x, y := AddrAt(h.blocks, i) / 8, AddrAt(h.blocks, i + 1) / 8;
             && x < y < WORDS && m[x].Header? && m[y].Header?
             && m' == m[x := m[x].(free := free)][y := m[y].(bfree := free)]
    ensures var bs' := SetFree(h.blocks, i, free);
            Holds(m', head, h.(blocks := bs'), -1) && Clear(keep, bs', h.flist)
    ensures |m'| == WORDS && Untouched(keep, m, m')
  {
    hide Chain, NoDup, AllStarts, Headers, Links, Clear, Untouched, IsStart, IsFree, Linked;
    hide HeaderFor;
    var f, bs := h.flist, h.blocks;
    HeaderAfterStatus(m, bs, i, free, stale, m');
    SetFreeTiles(bs, i, free);
    StatusKeeps(m, bs, f, keep, i, free, m');
  }

  lemma StatusKeeps(m: seq<Word>, bs: seq<Block>, f: seq<nat>, keep: set<int>, i: nat, free: bool, m': seq<Word>)
    requires |m| == |m'| == WORDS && Tiles(bs) && AllStarts(bs, f) && Links(m, f) && Clear(keep, bs, f)
    requires i < |bs|
    requires var x, y := AddrAt(bs, i) / 8, AddrAt(bs, i + 1) / 8;
             forall w :: 0 <= w < WORDS && w != x && w != y ==> m'[w] == m[w]
    ensures var bs' := SetFree(bs, i, free);
            AllStarts(bs', f) && Links(m', f) && Untouched(keep, m, m') && Clear(keep, bs', f)
  {
    hide Chain, AllStarts, Links, IsLinkWord;
    var bs' := SetFree(bs, i, free);
    var x, y := AddrAt(bs, i) / 8, AddrAt(bs, i + 1) / 8;
    SpliceStarts(bs, bs', f, seq(|bs|, j => j));
    HeaderNotLink(bs, f, i);
    HeaderNotLink(bs, f, i + 1);
    OtherStores(m, m', f, {x, y});
    assert IsHeaderWord(bs, x) && IsHeaderWord(bs, y);
    forall j | 0 <= j <= |bs'|
      ensures AddrAt(bs', j) / 8 == -1 || exists l :: 0 <= l <= |bs| && AddrAt(bs', j) == AddrAt(bs, l)
    {
      assert AddrAt(bs', j) == AddrAt(bs, j);
    }
    assert -1 !in keep;
    SpliceClear(keep, bs, bs', f, -1);
  }

  /** A tag may be called stale without being so. */
  lemma Weaken(m: seq<Word>, head: Option<nat>, h: Heap, stale: int)
    requires Holds(m, head, h, -1)
    ensures Holds(m, head, h, stale)
  {
  }

  /** A client store in a live payload. */
  lemma ClientStep(m: seq<Word>, head: Option<nat>, h: Heap, w: nat, x: Word)
    requires Holds(m, head, h, -1) && ListsFree(h) && w < WORDS && InLive(h.blocks, w)
    ensures Holds(m[w := x], head, h, -1)
  {
    LiveClear(h.blocks, h.flist);
    assert w in LiveWords(h.blocks);
    StoreKeepsHeaders(m, h.blocks, -1, w, x);
    StoreKeepsLinks(m, h.flist, w, x);
  }

  // ---------------------------------------------------------------- live blocks before and after dfree

  /** Every block live after `dfree` was live before it. */
  lemma DfreeLive(h: Heap, a: nat, merging: bool, b: Block)
    requires b in DfreeSpec(h, a, merging).blocks && !b.free
    ensures b in h.blocks
  {
    hide MergeBefore, MergeAfter, IndexOf;
    var i := IndexOf(h.blocks, a);
    if i < |h.blocks| {
      var (h1, i1) := if merging then MergeBefore(h, i) else (h, i);
      var h2 := if merging then MergeAfter(h1, i1) else h1;
      var l :| 0 <= l < |h2.blocks| && SetFree(h2.blocks, i1, true)[l] == b;
      if merging {
        MergeAfterOther(h1, i1, l);
        assert b in h1.blocks;
        var m :| 0 <= m < |h1.blocks| && m != i1 && h1.blocks[m] == b;
        MergeBeforeOther(h, i, m);
      }
    }
  }

  /** Any block but the merged one was there before. */
  lemma MergeBeforeOther(h: Heap, i: nat, l: nat)
    requires i < |h.blocks|
    ensures var (h1, i1) := MergeBefore(h, i);
            l < |h1.blocks| && l != i1 ==> h1.blocks[l] in h.blocks
  {
  }

  lemma MergeAfterOther(h: Heap, i: nat, l: nat)
    requires i < |h.blocks|
    ensures var h1 := MergeAfter(h, i);
            l < |h1.blocks| && l != i ==> exists m :: 0 <= m < |h.blocks| && m != i && h.blocks[m] == h1.blocks[l]
  {
    var h1 := MergeAfter(h, i);
    if l < |h1.blocks| && l != i {
      assert h.blocks[if l < i || |h1.blocks| == |h.blocks| then l else l + 1] == h1.blocks[l];
    }
  }

  /** Words of payloads live after `dfree` were so before it. */
  lemma DfreeLiveWords(h: Heap, a: nat, merging: bool)
    ensures LiveWords(DfreeSpec(h, a, merging).blocks) <= LiveWords(h.blocks)
  {
    var h' := DfreeSpec(h, a, merging);
    forall w | w in LiveWords(h'.blocks) ensures w in LiveWords(h.blocks) {
      var b :| b in h'.blocks && !b.free && b.start < 8 * w < b.End();
      DfreeLive(h, a, merging, b);
    }
  }

  // ---------------------------------------------------------------- what the methods need before their stores

  /** The two words `new` writes. */
  lemma NewHolds(m: seq<Word>)
    requires |m| == WORDS && m[0] == Header(false, 0, true, 65520) && m[SENTINEL / 8] == Header(true, 65520, false, 0)
    ensures Holds(m, None, Heap(InitHeap().blocks, []), -1)
    ensures IsStart(InitHeap().blocks, 0)
  {
  }

  lemma StartAt(m: seq<Word>, head: Option<nat>, h: Heap, stale: int, a: nat)
    requires Holds(m, head, h, stale) && IsStart(h.blocks, a)
    ensures a / 8 + 2 < WORDS && head == At(h.flist, 0)
  {
    LinkNotHeader(h.blocks, a);
  }

  lemma FirstAddress(m: seq<Word>, head: Option<nat>, h: Heap)
    requires Holds(m, head, h, -1)
    ensures AddrAt(h.blocks, 0) == 0
  {
  }

  lemma FirstLink(m: seq<Word>, head: Option<nat>, h: Heap, stale: int)
    requires Holds(m, head, h, stale)
    ensures head == At(h.flist, 0)
  {
  }

  /** Before a free block is taken: no word that changes is in a live payload. */
  lemma TakeReady(h: Heap, i: nat, size: nat)
    requires WellFormed(h) && i < |h.blocks| && h.blocks[i].free
    ensures var b := h.blocks[i];
            && Clear(LiveWords(h.blocks), h.blocks, h.flist)
            && b.start !in Unlink(h.flist, b.start)
            && b.start / 8 + 1 !in LiveWords(h.blocks) && b.start / 8 + 2 !in LiveWords(h.blocks)
            && (b.size >= Limit(size) && Cuttable(size) ==> (b.End() - size - HEAD) / 8 !in LiveWords(h.blocks))
  {
    var b := h.blocks[i];
    assert b in h.blocks && Sized(b);
    LiveClear(h.blocks, h.flist);
    UnlinkMember(h.flist, b.start);
    FreeWordNotLive(h.blocks, b, b.start / 8 + 1);
    FreeWordNotLive(h.blocks, b, b.start / 8 + 2);
    if b.size >= Limit(size) && Cuttable(size) {
      FreeWordNotLive(h.blocks, b, (b.End() - size - HEAD) / 8);
    }
  }

  lemma OwnStart(bs: seq<Block>, i: nat)
    requires i < |bs|
    ensures IsStart(bs, bs[i].start)
  {
    assert bs[i] in bs;
  }

  lemma SplitIsStart(bs: seq<Block>, i: nat, size: nat)
    requires i < |bs| && bs[i].size >= size + HEAD
    ensures IsStart(SplitBlock(bs, i, size), bs[i].start)
  {
    assert SplitBlock(bs, i, size)[i] in SplitBlock(bs, i, size);
  }

  /** What `merge` relies on: free neighbours are listed, and unlisted once detached. */
  lemma MergeReady(h: Heap, a: nat)
    requires WellFormed(h) && IsLive(h.blocks, a)
    ensures var i := IndexOf(h.blocks, a);
            && i < |h.blocks| && h.blocks[i].start == a && !h.blocks[i].free && a !in h.flist
            && (i > 0 && h.blocks[i - 1].free ==>
                  h.blocks[i - 1].start in h.flist && a !in Unlink(h.flist, h.blocks[i - 1].start))
            && var (h1, i1) := MergeBefore(h, i);
               i1 + 1 < |h1.blocks| && h1.blocks[i1 + 1].free ==>
                 var next := h1.blocks[i1 + 1].start;
                 next in h1.flist && next !in Unlink(h1.flist, next)
  {
    hide Contiguous, Sized, Unlink, NoDup;
    LiveIndex(h.blocks, a);
    var i := IndexOf(h.blocks, a);
    LiveIsUnlisted(h, i);
    MergeBeforeKeeps(h, i);
    if i > 0 && h.blocks[i - 1].free {
      assert h.blocks[i - 1] in h.blocks;
      UnlinkMember(h.flist, h.blocks[i - 1].start);
    }
    var (h1, i1) := MergeBefore(h, i);
    if i1 + 1 < |h1.blocks| && h1.blocks[i1 + 1].free {
      assert h1.blocks[i1 + 1] in h1.blocks;
      IndexOfStart(h1.blocks, i1);
      IndexOfStart(h1.blocks, i1 + 1);
      UnlinkMember(h1.flist, h1.blocks[i1 + 1].start);
    }
  }

  lemma JoinedSize(m: seq<Word>, head: Option<nat>, h: Heap, stale: int, i: nat)
    requires Holds(m, head, h, stale) && i + 1 < |h.blocks|
    ensures h.blocks[i].size + h.blocks[i + 1].size + HEAD < 0x1_0000
  {
    HeaderAt(m, head, h, stale, i);
    HeaderAt(m, head, h, stale, i + 1);
    AddrWords(h.blocks, i + 2);
  }

  /** What `dfree` relies on: the words live afterwards are not written. */
  lemma DfreeReady(h: Heap, a: nat, merging: bool)
    requires WellFormed(h) && IsLive(h.blocks, a)
    ensures var h' := DfreeSpec(h, a, merging);
            var keep := LiveWords(h'.blocks);
            var i := IndexOf(h.blocks, a);
            && i < |h.blocks| && h.blocks[i].start == a
            && WellFormed(h') && Clear(keep, h.blocks, h.flist)
            && |h'.flist| > 0 && h'.flist[0] !in h'.flist[1..]
            && h'.flist[0] / 8 + 1 !in keep && h'.flist[0] / 8 + 2 !in keep
  {
    var h' := DfreeSpec(h, a, merging);
    LiveIndex(h.blocks, a);
    DfreeKeeps(h, a, merging);
    LiveClear(h.blocks, h.flist);
    LiveClear(h'.blocks, h'.flist);
    DfreeLiveWords(h, a, merging);
    assert IsLinkWord(h'.flist, h'.flist[0] / 8 + 1) && IsLinkWord(h'.flist, h'.flist[0] / 8 + 2);
  }
}
