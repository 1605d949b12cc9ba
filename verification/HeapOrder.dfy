/**
 The order of the free list, which decides what later calls hand out, and what an operation
 leaves alone.
 */
module HeapOrder {
  import opened CTypes
  import opened HeapInvariant
  import opened HeapLayout
  import opened HeapRuns
  import opened LinkedLists
  import opened Options

  lemma UnlinkOrder(f: seq<nat>, a: nat, x: nat, y: nat)
    requires NoDup(f) && a in f && x != a && y != a
    ensures Before(Unlink(f, a), x, y) <==> Before(f, x, y)
  {
    hide Before, NoDup;
    var k :| 0 <= k < |f| && f[k] == a;
    UnlinkAt(f, k);
    RemovalOrder(f, k, x, y);
  }

  // ---------------------------------------------------------------- dalloc

  /** Away from block `a` the two lists hold the same blocks in the same order. */
  ghost predicate SameOrder(f: seq<nat>, f': seq<nat>, a: nat) {
    && (forall x :: x != a ==> (x in f' <==> x in f))
    && (forall x, y :: x != a && y != a ==> (Before(f', x, y) <==> Before(f, x, y)))
  }

  /** All blocks outside the stretch from `from` to `to` are as they were, and no others are there. */
  ghost predicate SameOutside(bs: seq<Block>, bs': seq<Block>, from: nat, to: nat) {
    forall b: Block :: !(from <= b.start && b.End() <= to) ==> (b in bs' <==> b in bs)
  }

  /**
   `dalloc` disturbs nothing but the block it finds: the other blocks and the order of the list
   stay, and the rest of a split goes to the front.
   */
  lemma DallocOrder(h: Heap, n: nat)
    requires WellFormed(h) && DallocSpec(h, n).1.Some?
    ensures var h' := DallocSpec(h, n).0;
            exists b :: FirstFitting(h, b, Wanted(n)) && SameOrder(h.flist, h'.flist, b.start)
              && SameOutside(h.blocks, h'.blocks, b.start, b.End())
              && if WillSplit(h, Wanted(n)) then h'.flist != [] && h'.flist[0] == b.start
                 else b.start !in h'.flist
  {
    hide Wanted, WellFormed, FindSpec;
    var i := FindFound(h, n);
    hide DallocSpec;
    var b := h.blocks[i];
    FoundFirst(h, i, n);
    assert NoDup(h.flist) by { WellListed(h); }
    assert Tiles(h.blocks) by { WellTiled(h); }
    CarveOrder(h, i, Wanted(n));
    CarveOutside(h, i, Wanted(n));
  }

  lemma WellListed(h: Heap)
    requires WellFormed(h)
    ensures NoDup(h.flist)
  {
  }

  /** The block found is the first one that fits. */
  lemma FoundFirst(h: Heap, i: nat, n: nat)
    requires WellFormed(h) && DallocSpec(h, n).1.Some? && i < |h.blocks|
    requires FirstFit(h, 0, Wanted(n)) < |h.flist| && i == IndexOf(h.blocks, h.flist[FirstFit(h, 0, Wanted(n))])
    ensures FirstFitting(h, h.blocks[i], Wanted(n))
  {
    var size, k := Wanted(n), FirstFit(h, 0, Wanted(n));
    ListedBlock(h, h.flist[k]);
    forall l, d | 0 <= l < k && d in h.blocks && d.start == h.flist[l] ensures d.size < size {
      SizeOfBlock(h.blocks, d);
    }
  }

  lemma CarveOrder(h: Heap, i: nat, size: nat)
    requires NoDup(h.flist) && i < |h.blocks| && h.blocks[i].start in h.flist && h.blocks[i].size >= size
    ensures var a, f' := h.blocks[i].start, Carve(h, i, size).0.flist;
            SameOrder(h.flist, f', a) &&
            if h.blocks[i].size >= Limit(size) then f' != [] && f'[0] == a else a !in f'
  {
    hide Before, NoDup, SplitBlock, SetFree;
    var a, f' := h.blocks[i].start, Carve(h, i, size).0.flist;
    UnlinkMember(h.flist, a);
    forall x, y | x != a && y != a ensures Before(f', x, y) <==> Before(h.flist, x, y) {
      UnlinkOrder(h.flist, a, x, y);
      PushOrder(Unlink(h.flist, a), a, x, y);
    }
  }

  /** Replacing some blocks changes nothing outside the stretch they cover. */
  lemma SpliceOutside(bs: seq<Block>, i: nat, j: nat, mid: seq<Block>, from: nat, to: nat)
    requires i <= j <= |bs|
    requires forall b :: b in bs[i..j] || b in mid ==> from <= b.start && b.End() <= to
    ensures SameOutside(bs, Splice(bs, i, j, mid), from, to)
  {
    assert bs == bs[..i] + bs[i..j] + bs[j..];
  }

  lemma CarveOutside(h: Heap, i: nat, size: nat)
    requires i < |h.blocks| && h.blocks[i].size >= size
    ensures SameOutside(h.blocks, Carve(h, i, size).0.blocks, h.blocks[i].start, h.blocks[i].End())
  {
    hide SameOutside;
    var b := h.blocks[i];
    assert h.blocks[i..i + 1] == [b];
    if b.size >= Limit(size) {
      var rest := b.(size := b.size - size - HEAD);
      SpliceOutside(h.blocks, i, i + 1, [rest, Block(rest.End(), size, false)], b.start, b.End());
    } else {
      SetFreeSplice(h.blocks, i, false);
      SpliceOutside(h.blocks, i, i + 1, [b.(free := false)], b.start, b.End());
    }
  }

  // ---------------------------------------------------------------- dfree

  /**
   As written, `dfree` changes nothing but the status of one block, which goes to the front of the
   list; the order behind it stays.
   */
  lemma WrittenDfreeOrder(h: Heap, a: nat)
    requires WellFormed(h) && IsLive(h.blocks, a)
    ensures var h' := DfreeSpec(h, a, false);
            && h'.flist != [] && h'.flist[0] == a && SameOrder(h.flist, h'.flist, a)
            && SameOutside(h.blocks, h'.blocks, a, a + SizeAt(h.blocks, a) + HEAD)
            && SizeAt(h'.blocks, a) == SizeAt(h.blocks, a) && IsFree(h'.blocks, a)
  {
    LiveIndex(h.blocks, a);
    var i := IndexOf(h.blocks, a);
    ReleaseOrder(h, i);
    ReleaseOutside(h, i);
    SameStarts(h.blocks, Release(h, i).blocks, a);
    assert Release(h, i).blocks[i] in Release(h, i).blocks;
  }

  lemma ReleaseOrder(h: Heap, i: nat)
    requires i < |h.blocks|
    ensures var a, f' := h.blocks[i].start, Release(h, i).flist; f' != [] && f'[0] == a && SameOrder(h.flist, f', a)
  {
    hide Before, SetFree;
    var a, f' := h.blocks[i].start, Release(h, i).flist;
    forall x, y | x != a && y != a ensures Before(f', x, y) <==> Before(h.flist, x, y) { PushOrder(h.flist, a, x, y); }
  }

  lemma ReleaseOutside(h: Heap, i: nat)
    requires i < |h.blocks|
    ensures SameOutside(h.blocks, Release(h, i).blocks, h.blocks[i].start, h.blocks[i].End())
  {
    hide SameOutside;
    var b := h.blocks[i];
    assert h.blocks[i..i + 1] == [b];
    SetFreeSplice(h.blocks, i, true);
    SpliceOutside(h.blocks, i, i + 1, [b.(free := true)], b.start, b.End());
  }

  /** Blocks with the same addresses are found at the same index. */
  lemma {:induction false} SameStarts(bs: seq<Block>, bs': seq<Block>, a: nat)
    requires |bs| == |bs'| && forall i :: 0 <= i < |bs| ==> bs'[i].start == bs[i].start
    ensures IndexOf(bs', a) == IndexOf(bs, a)
  {
    if bs != [] && bs[0].start != a { SameStarts(bs[1..], bs'[1..], a); }
  }

  /** Away from the addresses `a` and `b` the second list holds only blocks of the first, in the same order. */
  ghost predicate SameOrderBut(f: seq<nat>, f': seq<nat>, a: nat, b: nat) {
    && (forall x :: x != a && x != b ==> (x in f' <==> x in f))
    && (forall x, y :: x != a && x != b && y != a && y != b ==> (Before(f', x, y) <==> Before(f, x, y)))
  }

  lemma OrderChain(f: seq<nat>, g: seq<nat>, h: seq<nat>, k: seq<nat>, a: nat, b: nat)
    requires SameOrder(f, g, a) && (SameOrder(g, h, b) || g == h) && SameOrder(h, k, a)
    ensures SameOrderBut(f, k, a, b)
  {
    hide Before;
    forall x, y | x != a && x != b && y != a && y != b ensures Before(k, x, y) <==> Before(f, x, y) {
      assert Before(g, x, y) <==> Before(f, x, y);
      assert Before(h, x, y) <==> Before(g, x, y);
    }
  }

  lemma OutsideChain(bs: seq<Block>, cs: seq<Block>, ds: seq<Block>, from: nat, mid: nat, to: nat)
    requires SameOutside(bs, cs, from, mid) && SameOutside(cs, ds, from, to) && mid <= to
    ensures SameOutside(bs, ds, from, to)
  {
  }

  /** The first half of `merge`, on the list and on the blocks. */
  lemma MergeBeforeParts(h: Heap, i: nat)
    requires Tiles(h.blocks) && NoDup(h.flist) && i < |h.blocks|
    requires i > 0 && h.blocks[i - 1].free ==> h.blocks[i - 1].start in h.flist
    ensures var (h1, i1) := MergeBefore(h, i);
            var from := if i > 0 && h.blocks[i - 1].free then h.blocks[i - 1].start else h.blocks[i].start;
            && h1.blocks[i1].start == from && h1.blocks[i1].End() == h.blocks[i].End()
            && |h1.blocks| - i1 == |h.blocks| - i
            && (i + 1 < |h.blocks| ==> h1.blocks[i1 + 1] == h.blocks[i + 1])
            && SameOutside(h.blocks, h1.blocks, from, h.blocks[i].End()) && SameOrder(h.flist, h1.flist, from)
  {
    hide Before, NoDup, SameOutside;
    if i > 0 && h.blocks[i - 1].free {
      JoinParts(h, i - 1);
      var a := h.blocks[i - 1].start;
      UnlinkMember(h.flist, a);
      forall x, y | x != a && y != a ensures Before(Unlink(h.flist, a), x, y) <==> Before(h.flist, x, y) {
        UnlinkOrder(h.flist, a, x, y);
      }
    } else {
      assert SameOutside(h.blocks, h.blocks, h.blocks[i].start, h.blocks[i].End()) by { OutsideSelf(h.blocks); }
    }
  }

  lemma OutsideSelf(bs: seq<Block>)
    ensures forall from, to :: SameOutside(bs, bs, from, to)
  {
  }

  /** Two neighbours that become one. */
  lemma JoinParts(h: Heap, i: nat)
    requires Tiles(h.blocks) && i + 1 < |h.blocks|
    ensures var bs, bs' := h.blocks, Join(h.blocks, i);
            && |bs'| == |bs| - 1 && bs'[i].start == bs[i].start && bs'[i].End() == bs[i + 1].End()
            && bs[i].End() == bs[i + 1].start && bs[i].End() <= bs[i + 1].End()
            && (i + 2 < |bs| ==> bs'[i + 1] == bs[i + 2])
            && SameOutside(bs, bs', bs[i].start, bs[i + 1].End())
  {
    var merged := h.blocks[i].(size := h.blocks[i].size + h.blocks[i + 1].size + HEAD);
    assert h.blocks[i + 1].start == h.blocks[i].End();
    assert h.blocks[i..i + 2] == [h.blocks[i], h.blocks[i + 1]];
    SpliceOutside(h.blocks, i, i + 2, [merged], h.blocks[i].start, h.blocks[i + 1].End());
  }

  /** The second half of `merge`. */
  lemma MergeAfterParts(h: Heap, i: nat)
    requires Tiles(h.blocks) && NoDup(h.flist) && i < |h.blocks|
    requires i + 1 < |h.blocks| && h.blocks[i + 1].free ==> h.blocks[i + 1].start in h.flist
    ensures var h2, end := MergeAfter(h, i), h.blocks[i].End();
            var to := if i + 1 < |h.blocks| && h.blocks[i + 1].free then h.blocks[i + 1].End() else end;
            && h2.blocks[i].start == h.blocks[i].start && h2.blocks[i].End() == to && end <= to
            && SameOutside(h.blocks, h2.blocks, h.blocks[i].start, to)
            && (if i + 1 < |h.blocks| && h.blocks[i + 1].free
                then SameOrder(h.flist, h2.flist, end) && end !in h2.flist else h2.flist == h.flist)
  {
    hide Before, NoDup, SameOutside;
    if i + 1 < |h.blocks| && h.blocks[i + 1].free {
      JoinParts(h, i);
      var a := h.blocks[i + 1].start;
      UnlinkMember(h.flist, a);
      forall x, y | x != a && y != a ensures Before(Unlink(h.flist, a), x, y) <==> Before(h.flist, x, y) {
        UnlinkOrder(h.flist, a, x, y);
      }
    } else {
      OutsideSelf(h.blocks);
    }
  }

  /** The blocks after a merging `dfree`, in terms of the neighbours. */
  lemma MergedParts(h: Heap, i: nat)
    requires i < |h.blocks| && Tiles(h.blocks) && NoDup(h.flist)
    requires i > 0 && h.blocks[i - 1].free ==> h.blocks[i - 1].start in h.flist
    requires var (h1, i1) := MergeBefore(h, i);
             && Tiles(h1.blocks) && NoDup(h1.flist)
             && (i1 + 1 < |h1.blocks| && h1.blocks[i1 + 1].free ==> h1.blocks[i1 + 1].start in h1.flist)
    ensures var (h1, i1) := MergeBefore(h, i);
            var h2 := MergeAfter(h1, i1);
            var from := if i > 0 && h.blocks[i - 1].free then h.blocks[i - 1].start else h.blocks[i].start;
            var end := h.blocks[i].End();
            var behind := i + 1 < |h.blocks| && h.blocks[i + 1].free;
            var to := if behind then h.blocks[i + 1].End() else end;
            && h2.blocks[i1].start == from && h2.blocks[i1].End() == to
            && SameOutside(h.blocks, h2.blocks, from, to)
            && SameOrder(h.flist, h1.flist, from) && (SameOrder(h1.flist, h2.flist, end) || h2.flist == h1.flist)
            && (behind ==> end !in h2.flist)
  {
    hide Before, NoDup, SameOutside, SameOrder, MergeBefore, MergeAfter, Chain;
    MergeBeforeParts(h, i);
    var (h1, i1) := MergeBefore(h, i);
    MergeAfterParts(h1, i1);
    OutsideChain(h.blocks, h1.blocks, MergeAfter(h1, i1).blocks, h1.blocks[i1].start, h1.blocks[i1].End(),
                 MergeAfter(h1, i1).blocks[i1].End());
  }

  /**
   With `merge` enabled, `dfree` makes one block of the freed one and its free neighbours, which
   goes to the front of the list. Nothing else changes but that the neighbours leave the list.
   */
  lemma MergingDfreeOrder(h: Heap, a: nat)
    requires WellFormed(h) && IsLive(h.blocks, a)
    ensures var h', i := DfreeSpec(h, a, true), IndexOf(h.blocks, a);
            var from := if i > 0 && h.blocks[i - 1].free then h.blocks[i - 1].start else a;
            var end := a + SizeAt(h.blocks, a) + HEAD;
            var behind := i + 1 < |h.blocks| && h.blocks[i + 1].free;
            var to := if behind then h.blocks[i + 1].End() else end;
            && from + HEAD <= to && Block(from, to - from - HEAD, true) in h'.blocks
            && SameOutside(h.blocks, h'.blocks, from, to)
            && h'.flist != [] && h'.flist[0] == from && SameOrderBut(h.flist, h'.flist, from, end)
            && (behind ==> end !in h'.flist)
  {
    hide Before, NoDup, SameOutside, SameOrder, SameOrderBut, WellFormed, Chain, IsLive;
    hide MergeBefore, MergeAfter, Release;
    MergeNeighbours(h, a);
    var i := IndexOf(h.blocks, a);
    MergedParts(h, i);
    var (h1, i1) := MergeBefore(h, i);
    var h2 := MergeAfter(h1, i1);
    ReleaseParts(h2, i1);
    var from, to := h2.blocks[i1].start, h2.blocks[i1].End();
    OutsideChain(h.blocks, h2.blocks, Release(h2, i1).blocks, from, to, to);
    OrderChain(h.flist, h1.flist, h2.flist, Release(h2, i1).flist, from, h.blocks[i].End());
    EndBehind(h, a);
  }

  /** The block behind a live one does not start where the merged block does. */
  lemma EndBehind(h: Heap, a: nat)
    requires WellFormed(h) && IsLive(h.blocks, a)
    ensures var i := IndexOf(h.blocks, a);
            && i < |h.blocks| && h.blocks[i].start < h.blocks[i].End()
            && (i > 0 ==> h.blocks[i - 1].start < h.blocks[i].start)
  {
    LiveIndex(h.blocks, a);
    var i := IndexOf(h.blocks, a);
    if i > 0 { Ordered(h.blocks, 0, SENTINEL, i - 1, i); }
  }

  lemma ReleaseParts(h: Heap, i: nat)
    requires i < |h.blocks|
    ensures var h', b := Release(h, i), h.blocks[i];
            && Block(b.start, b.size, true) in h'.blocks && SameOutside(h.blocks, h'.blocks, b.start, b.End())
            && h'.flist == [b.start] + h.flist && SameOrder(h.flist, h'.flist, b.start)
  {
    hide SameOutside, SameOrder;
    ReleaseOutside(h, i);
    ReleaseOrder(h, i);
    assert Release(h, i).blocks[i] in Release(h, i).blocks;
  }

  /** What `merge` finds before and after the freed block is on the list. */
  lemma MergeNeighbours(h: Heap, a: nat)
    requires WellFormed(h) && IsLive(h.blocks, a)
    ensures var i := IndexOf(h.blocks, a);
            && Tiles(h.blocks) && NoDup(h.flist) && i < |h.blocks| && h.blocks[i].start == a
            && (i > 0 && h.blocks[i - 1].free ==> h.blocks[i - 1].start in h.flist)
            && var (h1, i1) := MergeBefore(h, i);
               && Tiles(h1.blocks) && NoDup(h1.flist) && i1 < |h1.blocks|
               && (i1 + 1 < |h1.blocks| && h1.blocks[i1 + 1].free ==> h1.blocks[i1 + 1].start in h1.flist)
  {
    LiveIndex(h.blocks, a);
    var i := IndexOf(h.blocks, a);
    LiveIsUnlisted(h, i);
    MergeBeforeKeeps(h, i);
    if i > 0 && h.blocks[i - 1].free { assert h.blocks[i - 1] in h.blocks; }
    var (h1, i1) := MergeBefore(h, i);
    if i1 + 1 < |h1.blocks| && h1.blocks[i1 + 1].free {
      assert h1.blocks[i1 + 1] in h1.blocks;
      IndexOfStart(h1.blocks, i1);
      IndexOfStart(h1.blocks, i1 + 1);
    }
  }

  // ---------------------------------------------------------------- last in, first out

  /** A request that takes a block of `size` bytes without splitting it. */
  predicate TakesWhole(size: nat, n: nat) {
    0 < n < SIZES && Wanted(n) <= size < Limit(Wanted(n))
  }

  /** As written, a request that takes the block freed last whole undoes the `dfree`, list and all. */
  lemma FreedTakenBack(h: Heap, a: nat, n: nat)
    requires WellFormed(h) && IsLive(h.blocks, a) && TakesWhole(SizeAt(h.blocks, a), n)
    ensures var h' := DfreeSpec(h, a, false);
            WellFormed(h') && Sound(h', n) && DallocSpec(h', n) == (h, Some(a))
  {
    hide Wanted;
    LiveIndex(h.blocks, a);
    var i := IndexOf(h.blocks, a);
    var h' := DfreeSpec(h, a, false);
    DfreeKeeps(h, a, false);
    HeadUsed(h', i, n);
    IndexOfStart(h'.blocks, i);
    assert FirstFit(h', 0, Wanted(n)) == 0;
    assert SetFree(h'.blocks, i, false) == h.blocks;
    assert Unlink(h'.flist, a) == h.flist;
  }

  function Frees(blocks: seq<nat>): (ops: seq<Op>)
    ensures |ops| == |blocks| && forall k :: 0 <= k < |ops| ==> ops[k] == Dfree(Some(blocks[k]))
  {
    seq(|blocks|, k requires 0 <= k < |blocks| => Dfree(Some(blocks[k])))
  }

  function Dallocs(requests: seq<nat>): (ops: seq<Op>)
    ensures |ops| == |requests| && forall k :: 0 <= k < |ops| ==> ops[k] == Dalloc(requests[k])
  {
    seq(|requests|, k requires 0 <= k < |requests| => Dalloc(requests[k]))
  }

  /** The size of a block as it stands before it and others are freed. */
  lemma {:induction false} SizesStay(ops: seq<Op>, blocks: seq<nat>, k: nat, a: nat)
    requires LegalRun(ops + Frees(blocks), false) && k <= |blocks|
    ensures SizeAt(Run(ops + Frees(blocks[..k]), false).blocks, a) == SizeAt(Run(ops, false).blocks, a)
    ensures LegalRun(ops + Frees(blocks[..k]), false)
  {
    hide LegalRun, Run, SizeAt;
    var all := ops + Frees(blocks);
    if k == 0 {
      assert ops + Frees(blocks[..0]) == ops == all[..|ops|];
      PrefixLegal(all, |ops|);
    } else {
      SizesStay(ops, blocks, k - 1, a);
      var before := ops + Frees(blocks[..k - 1]);
      assert before == all[..|ops| + k - 1];
      LegalPrefix(all, |ops| + k - 1, false);
      assert ops + Frees(blocks[..k]) == all[..|ops| + k];
      PrefixLegal(all, |ops| + k);
      RunWellFormed(before, false);
      DfreeSizeAt(Run(before, false), blocks[k - 1], a);
    }
  }

  lemma PrefixLegal(ops: seq<Op>, k: nat)
    requires LegalRun(ops, false) && k <= |ops|
    ensures LegalRun(ops[..k], false)
  {
    hide LegalRun;
    if k < |ops| { LegalPrefix(ops, k, false); } else { assert ops[..k] == ops; }
  }

  lemma DfreeSizeAt(h: Heap, a: nat, x: nat)
    requires WellFormed(h) && IsLive(h.blocks, a)
    ensures SizeAt(DfreeSpec(h, a, false).blocks, x) == SizeAt(h.blocks, x)
  {
    LiveIndex(h.blocks, a);
    SameStarts(h.blocks, DfreeSpec(h, a, false).blocks, x);
  }

  /**
   As written, blocks that are freed in a row are handed out again last in, first out, to requests
   that take them whole, whatever else is on the list; and that undoes the `dfree` calls.
   */
  lemma {:induction false} LastInFirstOut(ops: seq<Op>, blocks: seq<nat>, requests: seq<nat>, i: nat)
    requires LegalRun(ops + Frees(blocks), false) && i <= |requests| == |blocks|
    requires forall j :: 0 <= j < |blocks| ==>
               TakesWhole(SizeAt(Run(ops, false).blocks, blocks[|blocks| - 1 - j]), requests[j])
    ensures var k, run := |blocks|, ops + Frees(blocks) + Dallocs(requests[..i]);
            && LegalRun(run, false) && Run(run, false) == Run(ops + Frees(blocks[..k - i]), false)
            && (i < k ==> DallocSpec(Run(run, false), requests[i]).1 == Some(blocks[k - 1 - i]))
  {
    hide LegalRun, Run, TakesWhole, SizeAt;
    var k := |blocks|;
    var run := ops + Frees(blocks) + Dallocs(requests[..i]);
    if i == 0 {
      assert run == ops + Frees(blocks) && blocks[..k] == blocks;
    } else {
      LastInFirstOut(ops, blocks, requests, i - 1);
      var before := ops + Frees(blocks) + Dallocs(requests[..i - 1]);
      assert before + [Dalloc(requests[i - 1])] == run;
      TakenBack(ops, blocks, requests[i - 1], k - i);
      RunExtends(before, Dalloc(requests[i - 1]), false);
    }
    if i < k { TakenBack(ops, blocks, requests[i], k - 1 - i); }
  }

  /** The step of the argument: the block freed as number `m`, when it is the last one freed and not taken. */
  lemma TakenBack(ops: seq<Op>, blocks: seq<nat>, n: nat, m: nat)
    requires LegalRun(ops + Frees(blocks), false) && m < |blocks|
    requires TakesWhole(SizeAt(Run(ops, false).blocks, blocks[m]), n)
    ensures var h := Run(ops + Frees(blocks[..m + 1]), false);
            DallocSpec(h, n) == (Run(ops + Frees(blocks[..m]), false), Some(blocks[m])) && Sound(h, n)
  {
    hide LegalRun, Run, TakesWhole, SizeAt, Sound, DallocSpec;
    var all, before := ops + Frees(blocks), ops + Frees(blocks[..m]);
    SizesStay(ops, blocks, m, blocks[m]);
    assert before == all[..|ops| + m] && before + [Dfree(Some(blocks[m]))] == ops + Frees(blocks[..m + 1]);
    LegalPrefix(all, |ops| + m, false);
    RunExtends(before, Dfree(Some(blocks[m])), false);
    RunWellFormed(before, false);
    FreedTakenBack(Run(before, false), blocks[m], n);
  }
}
