/** What each operation of the allocator keeps: the tiling, the free list, and coalescing. */
module HeapInvariant {
  import opened HeapLayout

  // ---------------------------------------------------------------- which blocks are free

  /** Replacing the blocks `i..j` changes the free addresses only among those blocks. */
  lemma SpliceFree(bs: seq<Block>, i: nat, j: nat, mid: seq<Block>, x: nat)
    requires Tiles(bs) && i <= j <= |bs|
    ensures IsFree(Splice(bs, i, j, mid), x) <==>
            IsFree(mid, x) || (IsFree(bs, x) && !IsStart(bs[i..j], x))
  {
    hide Chain;
    var r := Splice(bs, i, j, mid);
    assert bs == bs[..i] + bs[i..j] + bs[j..];
    if IsFree(r, x) && !IsFree(mid, x) {
      var b :| b in r && b.start == x && b.free;
      assert b in bs[..i] || b in bs[j..];
      if IsStart(bs[i..j], x) {
        var c :| c in bs[i..j] && c.start == x;
        var k :| i <= k < j && bs[k] == c;
        var l :| 0 <= l < |bs| && (l < i || j <= l) && bs[l] == b;
        IndexOfStart(bs, k);
        IndexOfStart(bs, l);
      }
    }
    if IsFree(mid, x) {
      var b :| b in mid && b.start == x && b.free;
      assert b in r;
    }
    if IsFree(bs, x) && !IsStart(bs[i..j], x) {
      var b :| b in bs && b.start == x && b.free;
      assert b !in bs[i..j];
      assert b in r;
    }
  }

  /** The free addresses after one block is replaced. */
  lemma ReplaceFree(bs: seq<Block>, i: nat, mid: seq<Block>, x: nat)
    requires Tiles(bs) && i < |bs|
    ensures IsFree(Splice(bs, i, i + 1, mid), x) <==>
            IsFree(mid, x) || (IsFree(bs, x) && x != bs[i].start)
  {
    SpliceFree(bs, i, i + 1, mid, x);
    assert bs[i..i + 1] == [bs[i]];
    if x == bs[i].start { assert bs[i] in bs[i..i + 1]; }
  }

  lemma SetFreeIsFree(bs: seq<Block>, i: nat, free: bool, x: nat)
    requires Tiles(bs) && i < |bs|
    ensures IsFree(SetFree(bs, i, free), x) <==>
            if x == bs[i].start then free else IsFree(bs, x)
  {
    var mid := [bs[i].(free := free)];
    ReplaceFree(bs, i, mid, x);
    SetFreeSplice(bs, i, free);
    assert mid[0] in mid;
  }

  lemma SplitIsFree(bs: seq<Block>, i: nat, size: nat, x: nat)
    requires Tiles(bs) && i < |bs| && bs[i].free && bs[i].size >= size + HEAD
    ensures IsFree(SplitBlock(bs, i, size), x) <==> IsFree(bs, x)
  {
  }

  lemma JoinIsFree(bs: seq<Block>, i: nat, x: nat)
    requires Tiles(bs) && i + 1 < |bs|
    ensures IsFree(Join(bs, i), x) <==> IsFree(bs, x) && x != bs[i + 1].start
  {
    var mid := [bs[i].(size := bs[i].size + bs[i + 1].size + HEAD)];
    SpliceFree(bs, i, i + 2, mid, x);
    assert bs[i..i + 2] == [bs[i], bs[i + 1]];
    assert mid[0] in mid && bs[i] in bs && bs[i + 1] in bs;
    assert bs[i].start != bs[i + 1].start;
    if x == bs[i].start {
      assert bs[i] in bs[i..i + 2];
      if IsFree(bs, x) {
        var b :| b in bs && b.start == x && b.free;
        SameStart(bs, b, bs[i]);
      }
    } else if x == bs[i + 1].start {
      assert bs[i + 1] in bs[i..i + 2];
    }
  }

  // ---------------------------------------------------------------- one operation at a time

  /** A free block found through the list has its index and its size. */
  lemma ListedBlock(h: Heap, a: nat)
    requires Tiles(h.blocks) && IsFree(h.blocks, a)
    ensures var i := IndexOf(h.blocks, a); i < |h.blocks| && h.blocks[i].start == a && h.blocks[i].free
  {
    var b :| b in h.blocks && b.start == a && b.free;
    var i :| 0 <= i < |h.blocks| && h.blocks[i] == b;
    IndexOfStart(h.blocks, i);
  }

  lemma CarveKeeps(h: Heap, i: nat, size: nat)
    requires WellFormed(h) && i < |h.blocks| && h.blocks[i].free
    requires h.blocks[i].size >= size && (Cuttable(size) || h.blocks[i].size < Limit(size))
    ensures WellFormed(Carve(h, i, size).0)
  {
    var b := h.blocks[i];
    var h' := Carve(h, i, size).0;
    assert b in h.blocks;
    UnlinkMember(h.flist, b.start);
    if b.size >= Limit(size) {
      SplitTiles(h.blocks, i, size);
      forall x ensures x in h'.flist <==> IsFree(h'.blocks, x) { SplitIsFree(h.blocks, i, size, x); }
    } else {
      SetFreeTiles(h.blocks, i, false);
      forall x ensures x in h'.flist <==> IsFree(h'.blocks, x) { SetFreeIsFree(h.blocks, i, false, x); }
    }
  }

  lemma FindKeeps(h: Heap, size: nat)
    requires WellFormed(h) && (Cuttable(size) || !WillSplit(h, size))
    ensures WellFormed(FindSpec(h, size).0)
  {
    var k := FirstFit(h, 0, size);
    if k < |h.flist| {
      ListedBlock(h, h.flist[k]);
      CarveKeeps(h, IndexOf(h.blocks, h.flist[k]), size);
    }
  }

  lemma ReleaseKeeps(h: Heap, i: nat)
    requires Tiles(h.blocks) && i < |h.blocks| && ListsFreeExcept(h, h.blocks[i].start)
    ensures WellFormed(Release(h, i))
  {
    var h' := Release(h, i);
    SetFreeTiles(h.blocks, i, true);
    assert h.blocks[i].start !in h.flist;
    forall x ensures x in h'.flist <==> IsFree(h'.blocks, x) { SetFreeIsFree(h.blocks, i, true, x); }
  }

  /** A live block is not on the free list. */
  lemma LiveIsUnlisted(h: Heap, i: nat)
    requires WellFormed(h) && i < |h.blocks| && !h.blocks[i].free
    ensures ListsFreeExcept(h, h.blocks[i].start)
  {
    if IsFree(h.blocks, h.blocks[i].start) {
      var b :| b in h.blocks && b.start == h.blocks[i].start && b.free;
      SameStart(h.blocks, b, h.blocks[i]);
    }
  }

  lemma MergeBeforeKeeps(h: Heap, i: nat)
    requires Tiles(h.blocks) && i < |h.blocks| && !h.blocks[i].free && ListsFreeExcept(h, h.blocks[i].start)
    ensures var (h', i') := MergeBefore(h, i);
            Tiles(h'.blocks) && ListsFreeExcept(h', h'.blocks[i'].start)
  {
    if i > 0 && h.blocks[i - 1].free {
      var (h', i') := MergeBefore(h, i);
      assert h.blocks[i - 1] in h.blocks;
      IndexOfStart(h.blocks, i - 1);
      IndexOfStart(h.blocks, i);
      UnlinkMember(h.flist, h.blocks[i - 1].start);
      JoinTiles(h.blocks, i - 1);
      forall x ensures x in h'.flist <==> IsFree(h'.blocks, x) && x != h'.blocks[i'].start {
        JoinIsFree(h.blocks, i - 1, x);
      }
    }
  }

  lemma MergeAfterKeeps(h: Heap, i: nat)
    requires Tiles(h.blocks) && i < |h.blocks| && ListsFreeExcept(h, h.blocks[i].start)
    ensures var h' := MergeAfter(h, i);
            Tiles(h'.blocks) && h'.blocks[i].start == h.blocks[i].start && ListsFreeExcept(h', h.blocks[i].start)
  {
    if i + 1 < |h.blocks| && h.blocks[i + 1].free {
      var h' := MergeAfter(h, i);
      assert h.blocks[i + 1] in h.blocks;
      IndexOfStart(h.blocks, i);
      IndexOfStart(h.blocks, i + 1);
      UnlinkMember(h.flist, h.blocks[i + 1].start);
      JoinTiles(h.blocks, i);
      forall x ensures x in h'.flist <==> IsFree(h'.blocks, x) && x != h.blocks[i].start {
        JoinIsFree(h.blocks, i, x);
      }
    }
  }

  lemma LiveIndex(bs: seq<Block>, a: nat)
    requires Tiles(bs) && IsLive(bs, a)
    ensures var i := IndexOf(bs, a); i < |bs| && bs[i].start == a && !bs[i].free
  {
    var b :| b in bs && b.start == a && !b.free;
    var i :| 0 <= i < |bs| && bs[i] == b;
    IndexOfStart(bs, i);
  }

  lemma DfreeKeeps(h: Heap, a: nat, merging: bool)
    requires WellFormed(h) && IsLive(h.blocks, a)
    ensures WellFormed(DfreeSpec(h, a, merging))
  {
    LiveIndex(h.blocks, a);
    var i := IndexOf(h.blocks, a);
    LiveIsUnlisted(h, i);
    if merging {
      MergeBeforeKeeps(h, i);
      var (h1, i1) := MergeBefore(h, i);
      MergeAfterKeeps(h1, i1);
      ReleaseKeeps(MergeAfter(h1, i1), i1);
    } else {
      ReleaseKeeps(h, i);
    }
  }

  // ---------------------------------------------------------------- coalescing

  lemma FindKeepsCoalesced(h: Heap, size: nat)
    requires WellFormed(h) && Coalesced(h.blocks)
    ensures Coalesced(FindSpec(h, size).0.blocks)
  {
  }

  /** No two free neighbours, leaving out the pairs that involve block `i`. */
  ghost predicate CoalescedExcept(bs: seq<Block>, i: nat) {
    forall p, q :: 0 <= p && q == p + 1 && q < |bs| && p != i && q != i ==> !(bs[p].free && bs[q].free)
  }

  lemma MergeBeforeCoalesces(h: Heap, i: nat)
    requires i < |h.blocks| && Coalesced(h.blocks)
    ensures var (h', i') := MergeBefore(h, i);
            CoalescedExcept(h'.blocks, i') && (i' > 0 ==> !h'.blocks[i' - 1].free)
  {
  }

  lemma MergeAfterCoalesces(h: Heap, i: nat)
    requires i < |h.blocks| && CoalescedExcept(h.blocks, i)
    requires i > 0 ==> !h.blocks[i - 1].free
    ensures Coalesced(Release(MergeAfter(h, i), i).blocks)
  {
  }

  /** With `merge` enabled, `dfree` leaves no free neighbours. */
  lemma MergingDfreeKeepsCoalesced(h: Heap, a: nat)
    requires WellFormed(h) && IsLive(h.blocks, a) && Coalesced(h.blocks)
    ensures Coalesced(DfreeSpec(h, a, true).blocks)
  {
    LiveIndex(h.blocks, a);
    var i := IndexOf(h.blocks, a);
    MergeBeforeCoalesces(h, i);
    var (h1, i1) := MergeBefore(h, i);
    MergeAfterCoalesces(h1, i1);
  }

  /** As written, `dfree` leaves free neighbours exactly when a neighbour of the block it frees is free. */
  lemma WrittenDfreeCoalesced(h: Heap, a: nat)
    requires WellFormed(h) && IsLive(h.blocks, a) && Coalesced(h.blocks)
    ensures var i := IndexOf(h.blocks, a);
            Coalesced(DfreeSpec(h, a, false).blocks) <==>
              !(i > 0 && h.blocks[i - 1].free) && !(i + 1 < |h.blocks| && h.blocks[i + 1].free)
  {
    LiveIndex(h.blocks, a);
    var i := IndexOf(h.blocks, a);
    var bs := DfreeSpec(h, a, false).blocks;
    if i > 0 && h.blocks[i - 1].free {
      assert bs[i - 1].free && bs[i].free;
    }
    if i + 1 < |h.blocks| && h.blocks[i + 1].free {
      assert bs[i].free && bs[i + 1].free;
    }
  }
}
