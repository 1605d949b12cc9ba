/**
 seminar2/dlmalloc.c on words in memory. Each method makes the loads and stores of
 the C function of the same name and is proved to compute the operation that
 HeapLayout.dfy specifies on the abstract heap.
 */
module Dlmalloc {
  import opened Options
  import opened HeapLayout
  import opened HeapInvariant
  import opened HeapMemory
  import opened HeapRuns
  import opened CTypes
  import opened LinkedLists

  datatype Verdict = Sane | NotFree | NotAligned | BadPrev | NullDereference

  /** Words in which a walk along `next` meets headers at the addresses `f`, each followed by two links. */
  ghost predicate ListWords(m: seq<Word>, head: Option<nat>, f: seq<nat>) {
    && |m| == WORDS && head == At(f, 0)
    && forall k :: 0 <= k < |f| ==>
         && f[k] / 8 + 2 < WORDS && m[f[k] / 8].Header?
         && m[f[k] / 8 + 1] == Link(At(f, k + 1)) && m[f[k] / 8 + 2].Link?
  }

  /** What is wrong with the `k`-th listed block, in the order in which `sanity` looks. */
  function Fault(m: seq<Word>, f: seq<nat>, k: nat): Verdict
    requires k < |f| && f[k] / 8 + 2 < |m| && m[f[k] / 8].Header? && m[f[k] / 8 + 2].Link?
  {
    if !m[f[k] / 8].free then NotFree
    else if m[f[k] / 8].size % ALIGN != 0 then NotAligned
    else if k > 0 && m[f[k] / 8 + 2].to != Some(f[k - 1]) then BadPrev
    else Sane
  }

  /** The walk gets past the first `k` listed blocks: nothing is wrong with them, and none has size 0. */
  ghost predicate Passes(m: seq<Word>, head: Option<nat>, f: seq<nat>, k: nat)
    requires ListWords(m, head, f) && k <= |f|
  {
    forall j :: 0 <= j < k ==> m[f[j] / 8].size != 0 && Fault(m, f, j) == Sane
  }

  /** `v` is what is wrong with the first block that is not in order, if the walk gets that far. */
  ghost predicate FirstFault(m: seq<Word>, head: Option<nat>, f: seq<nat>, v: Verdict)
    requires ListWords(m, head, f)
  {
    exists k :: 0 <= k <= |f| && Passes(m, head, f, k) &&
      if k == |f| || m[f[k] / 8].size == 0 then v == Sane else v == Fault(m, f, k) != Sane
  }

  lemma ListStarts(m: seq<Word>, head: Option<nat>, f: seq<nat>)
    requires ListWords(m, head, f)
    ensures head == At(f, 0) && Passes(m, head, f, 0)
  {
  }

  lemma ListedWords(m: seq<Word>, head: Option<nat>, f: seq<nat>, k: nat)
    requires ListWords(m, head, f) && k < |f|
    ensures f[k] / 8 + 2 < |m| == WORDS && m[f[k] / 8].Header?
    ensures m[f[k] / 8 + 1] == Link(At(f, k + 1)) && m[f[k] / 8 + 2].Link?
  {
  }

  /** What a walk that has got past the first `k` blocks comes to. */
  lemma WalkEnds(m: seq<Word>, head: Option<nat>, f: seq<nat>, k: nat)
    requires ListWords(m, head, f) && k <= |f| && Passes(m, head, f, k)
    ensures k == |f| ==> FirstFault(m, head, f, Sane)
    ensures k < |f| && m[f[k] / 8].size == 0 ==> FirstFault(m, head, f, Sane)
    ensures k < |f| && m[f[k] / 8].size != 0 && Fault(m, f, k) != Sane ==> FirstFault(m, head, f, Fault(m, f, k))
    ensures k < |f| && m[f[k] / 8].size != 0 && Fault(m, f, k) == Sane ==> Passes(m, head, f, k + 1)
  {
  }

  /** The free list of a valid heap is such a list, and nothing is wrong with it. */
  lemma ValidPasses(m: seq<Word>, head: Option<nat>, h: Heap)
    requires Holds(m, head, h, -1) && WellFormed(h)
    ensures ListWords(m, head, h.flist) && Passes(m, head, h.flist, |h.flist|)
  {
    hide Holds, WellFormed, Fault;
    FirstLink(m, head, h, -1);
    assert |m| == WORDS by { FirstWords(m, head, h); }
    forall k | 0 <= k < |h.flist|
      ensures h.flist[k] / 8 + 2 < |m| && m[h.flist[k] / 8].Header?
      ensures m[h.flist[k] / 8 + 1] == Link(At(h.flist, k + 1)) && m[h.flist[k] / 8 + 2].Link?
      ensures m[h.flist[k] / 8].size != 0 && Fault(m, h.flist, k) == Sane
    {
      ListedSane(m, head, h, k);
    }
  }

  lemma FirstWords(m: seq<Word>, head: Option<nat>, h: Heap)
    requires Holds(m, head, h, -1)
    ensures |m| == WORDS
  {
  }

  lemma ListedSane(m: seq<Word>, head: Option<nat>, h: Heap, k: nat)
    requires Holds(m, head, h, -1) && WellFormed(h) && k < |h.flist|
    ensures |m| == WORDS && h.flist[k] / 8 + 2 < |m| && m[h.flist[k] / 8].Header?
    ensures m[h.flist[k] / 8 + 1] == Link(At(h.flist, k + 1)) && m[h.flist[k] / 8 + 2].Link?
    ensures m[h.flist[k] / 8].size != 0 && Fault(m, h.flist, k) == Sane
  {
    hide Holds;
    assert h.flist[k] in h.flist;
    ListedBlock(h, h.flist[k]);
    hide WellFormed;
    LinksAt(m, head, h, -1, k);
    HeaderAt(m, head, h, -1, IndexOf(h.blocks, h.flist[k]));
  }

  lemma NoFault(m: seq<Word>, head: Option<nat>, f: seq<nat>, v: Verdict)
    requires ListWords(m, head, f) && Passes(m, head, f, |f|) && FirstFault(m, head, f, v)
    ensures v == Sane
  {
  }

  class Arena {
    const mem: array<Word>
    var flist: Option<nat>
    ghost var heap: Heap

    /** Memory and `flist` represent `heap`, but for the `bfree` field of header `stale`. */
    ghost predicate Rep(stale: int)
      reads this, mem
    {
      mem.Length == WORDS && Holds(mem[..], flist, heap, stale)
    }

    ghost predicate Valid()
      reads this, mem
    {
      Rep(-1) && WellFormed(heap)
    }

    /** The block with its header at `a` has index `i`. */
    ghost predicate BlockAt(i: nat, a: nat)
      reads this
    {
      i < |heap.blocks| && heap.blocks[i].start == a
    }

    ghost predicate KeepsClear(keep: set<int>)
      reads this
    {
      Clear(keep, heap.blocks, heap.flist)
    }

    /** The address of the header after the one at `block`. */
    function After(block: nat): nat
      requires block / 8 < mem.Length && mem[block / 8].Header?
      reads mem
    {
      block + mem[block / 8].size + HEAD
    }

    /** The address of the header before the one at `block`. */
    function Before(block: nat): int
      requires block / 8 < mem.Length && mem[block / 8].Header?
      reads mem
    {
      block - mem[block / 8].bsize - HEAD
    }

    /** `init`: `new` on fresh memory, then `insert` of the one block. */
    constructor ()
      ensures Valid() && fresh(mem) && mem.Length == WORDS
      ensures heap == InitHeap()
    {
      mem := new Word[WORDS](i => Raw(0));
      flist := None;
      heap := Heap(InitHeap().blocks, []);
      new;
      var size := ARENA - 2 * HEAD;
      mem[0] := Header(false, 0, true, U16(size));
      var sentinel := After(0);
      mem[sentinel / 8] := Header(mem[0].free, U16(size), false, 0);
      InitWellFormed();
      NewHolds(mem[..]);
      Insert(0, -1, {});
      assert heap == InitHeap();
    }

    /** `detach`: unlink a listed block. */
    method Detach(block: nat, ghost stale: int, ghost keep: set<int>)
      requires Rep(stale) && block in heap.flist && KeepsClear(keep)
      modifies this, mem
      ensures Rep(stale) && KeepsClear(keep) && Untouched(keep, old(mem[..]), mem[..])
      ensures heap == old(heap).(flist := Unlink(old(heap.flist), block))
    {
      hide Holds, Clear, Untouched;
      ghost var f, m := heap.flist, mem[..];
      ghost var k :| 0 <= k < |f| && f[k] == block;
      LinksAt(m, flist, heap, stale, k);
      var next, prev := mem[block / 8 + 1].to, mem[block / 8 + 2].to;
      if next.Some? {
        LinksAt(m, flist, heap, stale, k + 1);
        mem[next.value / 8 + 2] := Link(prev);
      }
      ghost var m1, head := mem[..], flist;
      if prev.Some? {
        LinksAt(m, flist, heap, stale, k - 1);
        mem[prev.value / 8 + 1] := Link(next);
      } else {
        flist := next;
      }
      DetachStep(m, head, heap, stale, keep, k, m1, mem[..]);
      heap := heap.(flist := Unlink(f, block));
    }

    /** `insert`: push a block on the free list. */
    method Insert(block: nat, ghost stale: int, ghost keep: set<int>)
      requires Rep(stale) && IsStart(heap.blocks, block) && block !in heap.flist
      requires KeepsClear(keep) && block / 8 + 1 !in keep && block / 8 + 2 !in keep
      modifies this, mem
      ensures Rep(stale) && KeepsClear(keep) && Untouched(keep, old(mem[..]), mem[..])
      ensures heap == old(heap).(flist := [block] + old(heap.flist))
    {
      hide Holds, Clear, Untouched;
      ghost var f, m, head := heap.flist, mem[..], flist;
      StartAt(m, flist, heap, stale, block);
      mem[block / 8 + 1] := Link(flist);
      mem[block / 8 + 2] := Link(None);
      ghost var m1 := mem[..];
      if flist.Some? {
        LinksAt(m, flist, heap, stale, 0);
        mem[flist.value / 8 + 2] := Link(Some(block));
      }
      flist := Some(block);
      InsertStep(m, head, heap, stale, keep, block, m1, mem[..]);
      heap := heap.(flist := [block] + f);
    }

    /** `split`: shrink a free block and make a block of `size` bytes out of its high end. */
    method Split(block: nat, size: nat, ghost i: nat, ghost keep: set<int>) returns (splt: nat)
      requires Rep(-1) && BlockAt(i, block) && heap.blocks[i].free && KeepsClear(keep)
      requires Cuttable(size) && heap.blocks[i].size >= Limit(size)
      requires (heap.blocks[i].End() - size - HEAD) / 8 !in keep
      modifies this, mem
      ensures Rep(i + 2) && KeepsClear(keep) && Untouched(keep, old(mem[..]), mem[..])
      ensures heap == old(heap).(blocks := SplitBlock(old(heap.blocks), i, size))
      ensures splt == heap.blocks[i + 1].start
    {
      hide Holds, Clear, Untouched;
      ghost var bs, m := heap.blocks, mem[..];
      HeaderAt(m, flist, heap, -1, i);
      HeaderAt(m, flist, heap, -1, i + 1);
      var rsize: int := mem[block / 8].size - size - HEAD;
      mem[block / 8] := mem[block / 8].(size := U16(rsize));
      splt := After(block);
      assert splt == bs[i].End() - size - HEAD;
      mem[splt / 8] := Header(mem[block / 8].free, mem[block / 8].size, false, U16(size));
      var aft := After(splt);
      assert aft == AddrAt(bs, i + 1);
      mem[aft / 8] := mem[aft / 8].(bsize := mem[splt / 8].size);
      SplitStep(m, flist, heap, keep, i, size, mem[..]);
      heap := heap.(blocks := SplitBlock(bs, i, size));
    }

    /** `find`: the first block of the list that fits is taken, whole or split. */
    method Find(size: nat, ghost keep: set<int>) returns (r: Option<nat>)
      requires Valid() && (Cuttable(size) || !WillSplit(heap, size)) && keep == LiveWords(heap.blocks)
      modifies this, mem
      ensures Valid() && Untouched(keep, old(mem[..]), mem[..])
      ensures (heap, r) == FindSpec(old(heap), size)
    {
      hide Holds, Clear;
      ghost var h := heap;
      var temp := flist;
      ghost var k := 0;
      FirstLink(mem[..], flist, h, -1);
      while temp.Some?
        invariant Valid() && heap == h && mem[..] == old(mem[..])
        invariant k <= |h.flist| && temp == At(h.flist, k)
        invariant FirstFit(h, 0, size) == FirstFit(h, k, size)
        decreases |h.flist| - k
      {
        assert h.flist[k] in h.flist;
        ListedBlock(h, temp.value);
        ghost var i := IndexOf(h.blocks, temp.value);
        HeaderAt(mem[..], flist, h, -1, i);
        LinksAt(mem[..], flist, h, -1, k);
        if mem[temp.value / 8].size >= size {
          r := Take(temp.value, size, i, keep);
          return;
        }
        temp := mem[temp.value / 8 + 1].to;
        k := k + 1;
      }
      r := None;
    }

    /** The body of the loop in `find` for a block that fits. */
    method Take(temp: nat, size: nat, ghost i: nat, ghost keep: set<int>) returns (r: Option<nat>)
      requires Valid() && BlockAt(i, temp) && temp in heap.flist && heap.blocks[i].free
      requires heap.blocks[i].size >= size && (Cuttable(size) || heap.blocks[i].size < Limit(size))
      requires keep == LiveWords(heap.blocks)
      modifies this, mem
      ensures Valid() && Untouched(keep, old(mem[..]), mem[..])
      ensures heap == Carve(old(heap), i, size).0 && r == Some(Carve(old(heap), i, size).1)
    {
      hide Holds, Clear, WellFormed, LiveWords, IsStart, Unlink;
      ghost var h := heap;
      CarveKeeps(h, i, size);
      TakeReady(h, i, size);
      Detach(temp, -1, keep);
      HeaderAt(mem[..], flist, heap, -1, i);
      if mem[temp / 8].size >= Limit(size) {
        var block := Split(temp, size, i, keep);
        SplitIsStart(h.blocks, i, size);
        Insert(temp, i + 2, keep);
        SetStatus(block, false, i + 1, i + 2, keep);
        assert heap.blocks == SplitBlock(h.blocks, i, size);
        r := Some(block);
      } else {
        SetStatus(temp, false, i, -1, keep);
        r := Some(temp);
      }
    }

    /** The two stores, in `find` and in `dfree`, that change the status of a block. */
    method SetStatus(block: nat, free: bool, ghost i: nat, ghost stale: int, ghost keep: set<int>)
      requires Rep(stale) && (stale == -1 || stale == i + 1) && KeepsClear(keep) && BlockAt(i, block)
      modifies this, mem
      ensures Rep(-1) && KeepsClear(keep) && Untouched(keep, old(mem[..]), mem[..])
      ensures heap == old(heap).(blocks := SetFree(old(heap.blocks), i, free))
    {
      hide Holds, Clear, Untouched;
      ghost var m := mem[..];
      HeaderAt(m, flist, heap, stale, i);
      HeaderAt(m, flist, heap, stale, i + 1);
      var aft := After(block);
      mem[block / 8] := mem[block / 8].(free := free);
      mem[aft / 8] := mem[aft / 8].(bfree := free);
      StatusStep(m, flist, heap, stale, keep, i, free, mem[..]);
      heap := heap.(blocks := SetFree(heap.blocks, i, free));
    }

    /** `dalloc`: the pointer returned is one header past the block found. */
    method Dalloc(requested: nat) returns (p: Option<nat>)
      requires Valid() && Sound(heap, requested)
      modifies this, mem
      ensures Valid()
      ensures heap == DallocSpec(old(heap), requested).0
      ensures p == match DallocSpec(old(heap), requested).1 case None => None case Some(a) => Some(a + HEAD)
      ensures forall w :: 0 <= w < WORDS && InLive(old(heap.blocks), w) ==> mem[w] == old(mem[w])
    {
      hide Holds, WellFormed, InLive;
      if requested == 0 {
        return None;
      }
      var size := ToSize(Adjust(requested));
      ghost var keep := LiveWords(heap.blocks);
      ghost var m := mem[..];
      var taken := Find(size, keep);
      assert forall w :: 0 <= w < WORDS && w in keep ==> mem[..][w] == m[w];
      match taken
      case None => p := None;
      case Some(a) => p := Some(a + HEAD);
    }

    /** `merge`: the block that results, and its index. */
    method Merge(block: nat, ghost keep: set<int>) returns (r: nat, ghost i: nat)
      requires Valid() && IsLive(heap.blocks, block) && KeepsClear(keep)
      modifies this, mem
      ensures var (h1, i1) := MergeBefore(old(heap), IndexOf(old(heap.blocks), block));
              heap == MergeAfter(h1, i1) && i == i1
      ensures BlockAt(i, r) && Rep(i + 1) && KeepsClear(keep) && Untouched(keep, old(mem[..]), mem[..])
    {
      hide Holds, Clear, WellFormed, IsLive, Unlink, Splice;
      MergeReady(heap, block);
      i := IndexOf(heap.blocks, block);
      HeaderAt(mem[..], flist, heap, -1, i);
      var aft := After(block);
      r, i := MergeWithBefore(block, aft, i, keep);
      MergeWithAfter(r, aft, i, keep);
    }

    /** The first half of `merge`. */
    method MergeWithBefore(block: nat, aft: nat, ghost i: nat, ghost keep: set<int>) returns (r: nat, ghost i': nat)
      requires Rep(-1) && BlockAt(i, block) && aft == heap.blocks[i].End() && KeepsClear(keep)
      requires block !in heap.flist
      requires i > 0 && heap.blocks[i - 1].free ==>
                 heap.blocks[i - 1].start in heap.flist && block !in Unlink(heap.flist, heap.blocks[i - 1].start)
      modifies this, mem
      ensures (heap, i') == MergeBefore(old(heap), i)
      ensures BlockAt(i', r) && AddrAt(heap.blocks, i' + 1) == aft
      ensures Rep(i' + 1) && KeepsClear(keep) && Untouched(keep, old(mem[..]), mem[..])
    {
      hide Holds, Clear, Unlink, Splice;
      r, i' := block, i;
      HeaderAt(mem[..], flist, heap, -1, i);
      if mem[block / 8].bfree {
        HeaderAt(mem[..], flist, heap, -1, i - 1);
        var bef := Before(block);
        Detach(bef, -1, keep);
        JoinAt(bef, block, aft, i - 1, -1, keep);
        r, i' := bef, i - 1;
      } else {
        Weaken(mem[..], flist, heap, i + 1);
      }
    }

    /** The second half of `merge`. */
    method MergeWithAfter(block: nat, aft: nat, ghost i: nat, ghost keep: set<int>)
      requires Rep(i + 1) && BlockAt(i, block) && aft == AddrAt(heap.blocks, i + 1) && KeepsClear(keep)
      requires i + 1 < |heap.blocks| && heap.blocks[i + 1].free ==> aft in heap.flist && aft !in Unlink(heap.flist, aft)
      modifies this, mem
      ensures heap == MergeAfter(old(heap), i)
      ensures BlockAt(i, block) && Rep(i + 1) && KeepsClear(keep) && Untouched(keep, old(mem[..]), mem[..])
    {
      hide Holds, Clear, Unlink, Splice;
      HeaderAt(mem[..], flist, heap, i + 1, i);
      HeaderAt(mem[..], flist, heap, i + 1, i + 1);
      if mem[aft / 8].free {
        HeaderAt(mem[..], flist, heap, i + 1, i + 2);
        var next := After(aft);
        Detach(aft, i + 1, keep);
        JoinAt(block, aft, next, i, i + 1, keep);
      }
    }

    /** The stores of `merge` that make two neighbours one block. */
    method JoinAt(first: nat, second: nat, aft: nat, ghost i: nat, ghost stale: int, ghost keep: set<int>)
      requires Rep(stale) && (stale == -1 || stale == i + 1) && KeepsClear(keep)
      requires BlockAt(i, first) && BlockAt(i + 1, second) && aft == heap.blocks[i + 1].End()
      requires second !in heap.flist
      modifies this, mem
      ensures Rep(i + 1) && KeepsClear(keep) && Untouched(keep, old(mem[..]), mem[..])
      ensures heap == old(heap).(blocks := Join(old(heap.blocks), i))
      ensures BlockAt(i, first) && AddrAt(heap.blocks, i + 1) == aft
    {
      hide Holds, Clear, Untouched;
      ghost var m := mem[..];
      HeaderAt(m, flist, heap, stale, i);
      HeaderAt(m, flist, heap, stale, i + 1);
      HeaderAt(m, flist, heap, stale, i + 2);
      JoinedSize(m, flist, heap, stale, i);
      mem[first / 8] := mem[first / 8].(size := U16(mem[first / 8].size + mem[second / 8].size + HEAD));
      mem[aft / 8] := mem[aft / 8].(bsize := mem[first / 8].size);
      JoinStep(m, flist, heap, stale, keep, i, mem[..]);
      heap := heap.(blocks := Join(heap.blocks, i));
    }

    /** `dfree`; `merging` enables the call of `merge` that the source has commented out. */
    method Dfree(memory: Option<nat>, merging: bool)
      requires Valid()
      requires memory.Some? ==> memory.value >= HEAD && IsLive(heap.blocks, memory.value - HEAD)
      modifies this, mem
      ensures Valid()
      ensures heap == if memory.None? then old(heap) else DfreeSpec(old(heap), memory.value - HEAD, merging)
      ensures forall w :: 0 <= w < WORDS && InLive(heap.blocks, w) ==> mem[w] == old(mem[w])
    {
      hide Holds, Clear, WellFormed, InLive, IsStart, IsLive, Unlink, Splice;
      if memory.None? {
        return;
      }
      var block := memory.value - HEAD;
      ghost var h, m := heap, mem[..];
      ghost var h' := DfreeSpec(h, block, merging);
      ghost var keep := LiveWords(h'.blocks);
      DfreeReady(h, block, merging);
      ghost var i := IndexOf(h.blocks, block);
      if merging {
        block, i := Merge(block, keep);
      } else {
        Weaken(mem[..], flist, heap, i + 1);
      }
      assert h' == Release(heap, i);
      SetStatus(block, true, i, i + 1, keep);
      OwnStart(heap.blocks, i);
      Insert(block, -1, keep);
      assert forall w :: 0 <= w < WORDS && w in keep ==> mem[..][w] == m[w];
    }

    /** A client store into the payload of a live block. */
    method ClientStore(w: nat, x: Word)
      requires Valid() && w < WORDS && InLive(heap.blocks, w)
      modifies mem
      ensures Valid() && heap == old(heap)
      ensures mem[..] == old(mem[..])[w := x]
    {
      hide Holds;
      ClientStep(mem[..], flist, heap, w, x);
      ghost var m := mem[..];
      mem[w] := x;
      assert mem[..] == m[w := x];
    }

    /** `traverseblocks`: each block's address with its header, up to the sentinel. */
    method Traverse() returns (rows: seq<(nat, Word)>)
      requires Valid()
      ensures |rows| == |heap.blocks|
      ensures forall i :: 0 <= i < |rows| ==>
                rows[i].0 == heap.blocks[i].start && HeaderFor(rows[i].1, heap.blocks, i, false)
    {
      hide Holds, WellFormed, Sized;
      rows := [];
      var temp := 0;
      FirstAddress(mem[..], flist, heap);
      HeaderAt(mem[..], flist, heap, -1, 0);
      while mem[temp / 8].size != 0
        invariant |rows| <= |heap.blocks| && temp == AddrAt(heap.blocks, |rows|)
        invariant temp / 8 < WORDS && HeaderFor(mem[temp / 8], heap.blocks, |rows|, false)
        invariant forall i :: 0 <= i < |rows| ==>
                    rows[i].0 == heap.blocks[i].start && HeaderFor(rows[i].1, heap.blocks, i, false)
        decreases |heap.blocks| - |rows|
      {
        HeaderAt(mem[..], flist, heap, -1, |rows|);
        HeaderAt(mem[..], flist, heap, -1, |rows| + 1);
        rows := rows + [(temp, mem[temp / 8])];
        temp := After(temp);
      }
      if |rows| < |heap.blocks| {
        HeaderAt(mem[..], flist, heap, -1, |rows|);
        assert false;
      }
    }

    /** `freelistlength`. */
    method FreeListLength() returns (i: nat)
      requires Valid()
      ensures i == |heap.flist|
    {
      hide Holds, WellFormed;
      i := 0;
      var temp := flist;
      FirstLink(mem[..], flist, heap, -1);
      while temp.Some?
        invariant i <= |heap.flist| && temp == At(heap.flist, i)
        decreases |heap.flist| - i
      {
        LinksAt(mem[..], flist, heap, -1, i);
        i := i + 1;
        temp := mem[temp.value / 8 + 1].to;
      }
    }

    /**
     `sanity` of whatever words link a list: the first fault along it decides, and an empty list makes
     it dereference NULL. A valid heap passes.
     */
    method Sanity(ghost f: seq<nat>) returns (v: Verdict)
      requires mem.Length == WORDS && ListWords(mem[..], flist, f)
      ensures f == [] ==> v == NullDereference
      ensures f != [] ==> FirstFault(mem[..], flist, f, v)
      ensures Valid() && f == heap.flist ==> v == if f == [] then NullDereference else Sane
    {
      hide Holds, WellFormed;
      v := SanityWalk(f);
      if Valid() && f == heap.flist && f != [] {
        ValidPasses(mem[..], flist, heap);
        NoFault(mem[..], flist, f, v);
      }
    }

    /** The body of `sanity`. */
    method SanityWalk(ghost f: seq<nat>) returns (v: Verdict)
      requires mem.Length == WORDS && ListWords(mem[..], flist, f)
      ensures f == [] ==> v == NullDereference
      ensures f != [] ==> FirstFault(mem[..], flist, f, v)
    {
      hide ListWords, Passes, FirstFault;
      ListStarts(mem[..], flist, f);
      var sanity := flist;
      if sanity.None? {
        return NullDereference;
      }
      ListedWords(mem[..], flist, f, 0);
      var prev := mem[sanity.value / 8 + 2].to;
      ghost var k := 0;
      while sanity.Some?
        invariant k <= |f| && sanity == At(f, k)
        invariant k > 0 ==> prev == Some(f[k - 1])
        invariant k == 0 ==> f[0] / 8 + 2 < WORDS && mem[f[0] / 8 + 2] == Link(prev)
        invariant Passes(mem[..], flist, f, k)
        decreases |f| - k
      {
        ListedWords(mem[..], flist, f, k);
        WalkEnds(mem[..], flist, f, k);
        if mem[sanity.value / 8].size == 0 {
          break;
        }
        if !mem[sanity.value / 8].free {
          return NotFree;
        }
        if mem[sanity.value / 8].size % ALIGN != 0 {
          return NotAligned;
        }
        if mem[sanity.value / 8 + 2].to != prev {
          return BadPrev;
        }
        prev := sanity;
        sanity := mem[sanity.value / 8 + 1].to;
        k := k + 1;
      }
      if k == |f| { WalkEnds(mem[..], flist, f, k); }
      v := Sane;
    }
  }

  /** The words hold what the client has stored. */
  ghost predicate Remembers(m: seq<Word>, data: map<nat, nat>) {
    forall w :: w in data ==> w < |m| && m[w] == Raw(data[w])
  }

  lemma StillRemembers(ops: seq<Op>, i: nat, merging: bool, m: seq<Word>, m': seq<Word>)
    requires LegalRun(ops, merging) && i < |ops| && |m| == |m'| == WORDS
    requires Remembers(m, Data(ops[..i], merging))
    requires var bs, bs' := Run(ops[..i], merging).blocks, Run(ops[..i + 1], merging).blocks;
             match ops[i]
             case Dalloc(_) => forall w :: 0 <= w < WORDS && InLive(bs, w) ==> m'[w] == m[w]
             case Dfree(_) => forall w :: 0 <= w < WORDS && InLive(bs', w) ==> m'[w] == m[w]
             case Store(w, x) => w < WORDS && m' == m[w := Raw(x)]
    ensures Remembers(m', Data(ops[..i + 1], merging))
  {
    hide InLive, DallocSpec, DfreeSpec;
    LegalPrefix(ops, i, merging);
    assert ops[..i + 1][..i] == ops[..i];
    forall w | w in Data(ops[..i], merging) ensures InLive(Run(ops[..i], merging).blocks, w) {
      DataLive(ops[..i], merging, w);
    }
  }

  /**
   Any legal sequence of calls and client stores, made on memory, ends in the heap that `Run`
   computes, and each word the client has stored in and not freed since holds what it stored last.
   */
  method Execute(ops: seq<Op>, merging: bool) returns (arena: Arena)
    requires LegalRun(ops, merging)
    ensures fresh(arena) && arena.Valid() && arena.heap == Run(ops, merging)
    ensures Remembers(arena.mem[..], Data(ops, merging))
  {
    hide Arena.Rep, WellFormed, DallocSpec, DfreeSpec, InLive;
    arena := new Arena();
    var i := 0;
    assert ops[..0] == [];
    while i < |ops|
      invariant i <= |ops| && fresh(arena) && fresh(arena.mem) && arena.mem.Length == WORDS
      invariant arena.Valid() && arena.heap == Run(ops[..i], merging)
      invariant Remembers(arena.mem[..], Data(ops[..i], merging))
    {
      LegalPrefix(ops, i, merging);
      ghost var m := arena.mem[..];
      match ops[i] {
        case Dalloc(n) =>
          var p := arena.Dalloc(n);
        case Dfree(p) =>
          arena.Dfree(if p.None? then None else Some(p.value + HEAD), merging);
        case Store(w, x) =>
          LiveInRange(arena.heap, w);
          arena.ClientStore(w, Raw(x));
      }
      StillRemembers(ops, i, merging, m, arena.mem[..]);
      i := i + 1;
    }
    assert ops[..i] == ops;
  }
}
