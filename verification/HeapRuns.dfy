/**
 Whole runs of the allocator: one `init`, then any `dalloc` and `dfree` calls a client
 may make, and its own stores into the blocks it has been given. `merging` tells the two
 variants of `dfree` apart: false is the code as written, true has the commented-out call
 of `merge` enabled.
 */
module HeapRuns {
  import opened CTypes
  import opened Options
  import opened HeapLayout
  import opened HeapInvariant

  datatype Op = Dalloc(requested: nat) | Dfree(block: Option<nat>) | Store(word: nat, bits: nat)

  /** The size asked of `find` is one a block can be cut to, or none has to be cut. */
  predicate Sound(h: Heap, requested: nat) {
    requested < SIZES && (requested == 0 || Cuttable(Wanted(requested)) || !WillSplit(h, Wanted(requested)))
  }

  ghost predicate Legal(h: Heap, op: Op) {
    match op
    case Dalloc(n) => Sound(h, n)
    case Dfree(p) => p.Some? ==> IsLive(h.blocks, p.value)
    case Store(w, _) => InLive(h.blocks, w)
  }

  function Step(h: Heap, op: Op, merging: bool): Heap {
    match op
    case Dalloc(n) => DallocSpec(h, n).0
    case Dfree(p) => if p.None? then h else DfreeSpec(h, p.value, merging)
    case Store(_, _) => h
  }

  function Run(ops: seq<Op>, merging: bool): Heap {
    if ops == [] then InitHeap()
    else Step(Run(ops[..|ops| - 1], merging), ops[|ops| - 1], merging)
  }

  ghost predicate LegalRun(ops: seq<Op>, merging: bool) {
    ops == [] || (LegalRun(ops[..|ops| - 1], merging) && Legal(Run(ops[..|ops| - 1], merging), ops[|ops| - 1]))
  }

  /** The calls of a legal run are legal one after the other. */
  lemma {:induction false} LegalPrefix(ops: seq<Op>, i: nat, merging: bool)
    requires LegalRun(ops, merging) && i < |ops|
    ensures LegalRun(ops[..i], merging) && Legal(Run(ops[..i], merging), ops[i])
    ensures Run(ops[..i + 1], merging) == Step(Run(ops[..i], merging), ops[i], merging)
  {
    var before := ops[..|ops| - 1];
    assert ops[..i + 1][..i] == ops[..i];
    if i < |ops| - 1 {
      LegalPrefix(before, i, merging);
      assert before[..i] == ops[..i];
    }
  }

  /** A run and one more call. */
  lemma RunExtends(ops: seq<Op>, op: Op, merging: bool)
    ensures Run(ops + [op], merging) == Step(Run(ops, merging), op, merging)
    ensures LegalRun(ops + [op], merging) <==> LegalRun(ops, merging) && Legal(Run(ops, merging), op)
  {
    assert (ops + [op])[..|ops|] == ops;
  }

  // ---------------------------------------------------------------- the invariant over every run

  lemma ToIntRange(n: nat)
    ensures ToInt(n) <= INT_MAX && (n <= INT_MAX ==> ToInt(n) == n)
  {
  }

  /** `adjust` of a request that is an `int` and not too close to the largest one. */
  lemma AdjustSmall(n: nat)
    requires n <= INT_MAX - 7
    ensures n < MIN ==> Adjust(n) == n
    ensures MIN <= n ==> n <= Adjust(n) < n + ALIGN && Adjust(n) % ALIGN == 0
  {
    hide ToInt;
    var minsize := if n > MIN then n else MIN;
    ToIntRange(minsize);
    ToIntRange(n);
    if minsize % ALIGN != 0 {
      ToIntRange(minsize + ALIGN - minsize % ALIGN);
    }
  }

  /** `adjust` keeps its promise, an aligned size that is at least MIN and what was asked, exactly on this range. */
  lemma AdjustPromise(n: nat)
    requires n < SIZES
    ensures Adjust(n) % ALIGN == 0 && MIN <= Adjust(n) && n <= Adjust(n) <==> MIN <= n <= INT_MAX - 7
  {
  }

  lemma WantedSize(n: nat)
    requires n <= INT_MAX - 7
    ensures MIN <= n ==> n <= Wanted(n) < n + ALIGN && Wanted(n) % ALIGN == 0
    ensures n < MIN ==> Wanted(n) == n
  {
    hide Adjust;
    AdjustSmall(n);
  }

  lemma StepKeeps(h: Heap, op: Op, merging: bool)
    requires WellFormed(h) && Legal(h, op)
    ensures WellFormed(Step(h, op, merging))
  {
    match op
    case Dalloc(n) =>
      if n > 0 { FindKeeps(h, Wanted(n)); }
    case Dfree(p) =>
      if p.Some? { DfreeKeeps(h, p.value, merging); }
    case Store(_, _) =>
  }

  lemma InitWellFormed()
    ensures WellFormed(InitHeap()) && Coalesced(InitHeap().blocks)
  {
  }

  /** Tiling, free list and block statuses agree in every run, with either `dfree`. */
  lemma {:induction false} RunWellFormed(ops: seq<Op>, merging: bool)
    requires LegalRun(ops, merging)
    ensures WellFormed(Run(ops, merging))
  {
    if ops == [] {
      InitWellFormed();
    } else {
      RunWellFormed(ops[..|ops| - 1], merging);
      StepKeeps(Run(ops[..|ops| - 1], merging), ops[|ops| - 1], merging);
    }
  }

  /** With `merge` enabled no reachable heap has two adjacent free blocks. */
  lemma {:induction false} RunCoalesced(ops: seq<Op>)
    requires LegalRun(ops, true)
    ensures Coalesced(Run(ops, true).blocks)
  {
    if ops == [] {
      InitWellFormed();
    } else {
      var before := ops[..|ops| - 1];
      RunCoalesced(before);
      RunWellFormed(before, true);
      var h, op := Run(before, true), ops[|ops| - 1];
      match op
      case Dalloc(n) => if n > 0 { FindKeepsCoalesced(h, Wanted(n)); }
      case Dfree(p) => if p.Some? { MergingDfreeKeepsCoalesced(h, p.value); }
      case Store(_, _) =>
    }
  }

  // ---------------------------------------------------------------- balanced runs

  function Lives(bs: seq<Block>): nat {
    if bs == [] then 0 else (if bs[0].free then 0 else 1) + Lives(bs[1..])
  }

  lemma {:induction false} LivesConcat(a: seq<Block>, b: seq<Block>)
    ensures Lives(a + b) == Lives(a) + Lives(b)
  {
    if a == [] {
      assert a + b == b;
    } else {
      LivesConcat(a[1..], b);
      assert (a + b)[1..] == a[1..] + b;
    }
  }

  lemma LivesSplice(bs: seq<Block>, i: nat, j: nat, mid: seq<Block>)
    requires i <= j <= |bs|
    ensures Lives(Splice(bs, i, j, mid)) == Lives(bs) - Lives(bs[i..j]) + Lives(mid)
  {
    LivesConcat(bs[..i] + mid, bs[j..]);
    LivesConcat(bs[..i], mid);
    LivesConcat(bs[..i] + bs[i..j], bs[j..]);
    LivesConcat(bs[..i], bs[i..j]);
    assert bs[..i] + bs[i..j] == bs[..j];
    assert bs == bs[..j] + bs[j..];
  }

  lemma LivesPair(b: Block, c: Block)
    ensures Lives([b]) == if b.free then 0 else 1
    ensures Lives([b, c]) == Lives([b]) + Lives([c])
  {
    assert [b, c] == [b] + [c];
    LivesConcat([b], [c]);
  }

  lemma CarveLives(h: Heap, i: nat, size: nat)
    requires i < |h.blocks| && h.blocks[i].free && h.blocks[i].size >= size
    ensures Lives(Carve(h, i, size).0.blocks) == Lives(h.blocks) + 1
  {
    var b := h.blocks[i];
    assert h.blocks[i..i + 1] == [b];
    LivesPair(b, b);
    if b.size >= Limit(size) {
      var rest := b.(size := b.size - size - HEAD);
      LivesPair(rest, Block(rest.End(), size, false));
      LivesPair(Block(rest.End(), size, false), rest);
      LivesSplice(h.blocks, i, i + 1, [rest, Block(rest.End(), size, false)]);
    } else {
      LivesPair(b.(free := false), b);
      LivesSplice(h.blocks, i, i + 1, [b.(free := false)]);
      SetFreeSplice(h.blocks, i, false);
    }
  }

  /** Joining a free block to its neighbour does not change the number of live blocks. */
  lemma JoinLives(bs: seq<Block>, i: nat)
    requires i + 1 < |bs| && (bs[i].free || bs[i + 1].free)
    requires bs[i].free ==> !bs[i + 1].free
    ensures Lives(Join(bs, i)) == Lives(bs) - (if bs[i].free then 1 else 0)
  {
    var merged := bs[i].(size := bs[i].size + bs[i + 1].size + HEAD);
    assert bs[i..i + 2] == [bs[i], bs[i + 1]];
    LivesPair(bs[i], bs[i + 1]);
    LivesPair(bs[i + 1], bs[i]);
    LivesPair(merged, merged);
    LivesSplice(bs, i, i + 2, [merged]);
  }

  lemma ReleaseLives(h: Heap, i: nat)
    requires i < |h.blocks|
    ensures Lives(Release(h, i).blocks) == Lives(h.blocks) - (if h.blocks[i].free then 0 else 1)
  {
    var b := h.blocks[i];
    assert h.blocks[i..i + 1] == [b];
    LivesPair(b, b);
    LivesPair(b.(free := true), b);
    LivesSplice(h.blocks, i, i + 1, [b.(free := true)]);
    SetFreeSplice(h.blocks, i, true);
  }

  /** Joining two free blocks. */
  lemma JoinFreeLives(bs: seq<Block>, i: nat)
    requires i + 1 < |bs| && bs[i].free && bs[i + 1].free
    ensures Lives(Join(bs, i)) == Lives(bs)
  {
    var merged := bs[i].(size := bs[i].size + bs[i + 1].size + HEAD);
    assert bs[i..i + 2] == [bs[i], bs[i + 1]];
    LivesPair(bs[i], bs[i + 1]);
    LivesPair(bs[i + 1], bs[i]);
    LivesPair(merged, merged);
    LivesSplice(bs, i, i + 2, [merged]);
  }

  lemma DfreeLives(h: Heap, a: nat, merging: bool)
    requires WellFormed(h) && IsLive(h.blocks, a)
    ensures Lives(DfreeSpec(h, a, merging).blocks) == Lives(h.blocks) - 1
  {
    LiveIndex(h.blocks, a);
    var i := IndexOf(h.blocks, a);
    if merging {
      var (h1, i1) := MergeBefore(h, i);
      if i1 < i { JoinLives(h.blocks, i1); }
      if i1 + 1 < |h1.blocks| && h1.blocks[i1 + 1].free {
        if h1.blocks[i1].free { JoinFreeLives(h1.blocks, i1); } else { JoinLives(h1.blocks, i1); }
      }
      ReleaseLives(MergeAfter(h1, i1), i1);
    } else {
      ReleaseLives(h, i);
    }
  }

  /** Successful `dalloc` calls less `dfree` calls on a pointer. */
  function Balance(ops: seq<Op>, merging: bool): int {
    if ops == [] then 0
    else
      var before, op := ops[..|ops| - 1], ops[|ops| - 1];
      Balance(before, merging) +
      match op
      case Dalloc(n) => if DallocSpec(Run(before, merging), n).1.Some? then 1 else 0
      case Dfree(p) => if p.Some? then -1 else 0
      case Store(_, _) => 0
  }

  /** Blocks are conserved: the live blocks of a run are the allocations not yet freed. */
  lemma {:induction false} RunBalance(ops: seq<Op>, merging: bool)
    requires LegalRun(ops, merging)
    ensures Lives(Run(ops, merging).blocks) == Balance(ops, merging)
  {
    if ops == [] {
      LivesPair(InitHeap().blocks[0], InitHeap().blocks[0]);
    } else {
      var before := ops[..|ops| - 1];
      RunBalance(before, merging);
      RunWellFormed(before, merging);
      var h, op := Run(before, merging), ops[|ops| - 1];
      match op
      case Dalloc(n) =>
        if n > 0 {
          var size := Wanted(n);
          var k := FirstFit(h, 0, size);
          if k < |h.flist| {
            ListedBlock(h, h.flist[k]);
            CarveLives(h, IndexOf(h.blocks, h.flist[k]), size);
          }
        }
      case Dfree(p) =>
        if p.Some? { DfreeLives(h, p.value, merging); }
      case Store(_, _) =>
    }
  }

  lemma {:induction false} NoneLive(bs: seq<Block>, i: nat)
    requires Lives(bs) == 0 && i < |bs|
    ensures bs[i].free
  {
    if i > 0 { NoneLive(bs[1..], i - 1); }
  }

  /** A heap that is one free block is the heap `init` made. */
  lemma SingleFreeBlock(h: Heap)
    requires WellFormed(h) && |h.blocks| == 1 && h.blocks[0].free
    ensures h == InitHeap()
  {
    assert h.blocks[0] in h.blocks;
    assert 0 in h.flist;
    SameMembers(h.flist, [0]);
    assert |h.flist| == |multiset(h.flist)| == 1;
    assert h.flist[0] in h.flist;
    assert h.flist == [0];
    assert h.blocks == InitHeap().blocks;
  }

  /** With `merge` enabled, a run that has freed all it allocated is back at the heap `init` made. */
  lemma BalancedRunRestores(ops: seq<Op>)
    requires LegalRun(ops, true) && Balance(ops, true) == 0
    ensures Run(ops, true) == InitHeap()
  {
    var h := Run(ops, true);
    RunWellFormed(ops, true);
    RunCoalesced(ops);
    RunBalance(ops, true);
    NoneLive(h.blocks, 0);
    if |h.blocks| > 1 {
      NoneLive(h.blocks, 1);
    }
    SingleFreeBlock(h);
  }

  // ---------------------------------------------------------------- what the client has stored

  /** The block that a successful `dalloc` finds. */
  lemma FindFound(h: Heap, n: nat) returns (i: nat)
    requires WellFormed(h) && n > 0 && DallocSpec(h, n).1.Some?
    ensures i < |h.blocks| && h.blocks[i].free && h.blocks[i].start in h.flist
    ensures h.blocks[i].size >= Wanted(n)
    ensures DallocSpec(h, n) == (Carve(h, i, Wanted(n)).0, Some(Carve(h, i, Wanted(n)).1))
    ensures WillSplit(h, Wanted(n)) <==> h.blocks[i].size >= Limit(Wanted(n))
    ensures FirstFit(h, 0, Wanted(n)) < |h.flist| && i == IndexOf(h.blocks, h.flist[FirstFit(h, 0, Wanted(n))])
  {
    var k := FirstFit(h, 0, Wanted(n));
    ListedBlock(h, h.flist[k]);
    i := IndexOf(h.blocks, h.flist[k]);
  }

  /** The value last stored in each word that has been live since. */
  ghost function Data(ops: seq<Op>, merging: bool): map<nat, nat> {
    if ops == [] then map[]
    else
      var before := Data(ops[..|ops| - 1], merging);
      match ops[|ops| - 1]
      case Dalloc(_) => before
      case Dfree(_) => map w | w in before && InLive(Run(ops, merging).blocks, w) :: before[w]
      case Store(w, x) => before[w := x]
  }

  /** Taking or splitting a free block leaves the live ones alone. */
  lemma CarveLive(h: Heap, i: nat, size: nat, w: int)
    requires i < |h.blocks| && h.blocks[i].free && h.blocks[i].size >= size && InLive(h.blocks, w)
    ensures InLive(Carve(h, i, size).0.blocks, w)
  {
    var b :| b in h.blocks && !b.free && b.start < 8 * w < b.End();
    var l :| 0 <= l < |h.blocks| && h.blocks[l] == b;
    var bs' := Carve(h, i, size).0.blocks;
    assert bs'[if l < i || |bs'| == |h.blocks| then l else l + 1] == b;
  }

  lemma DallocLive(h: Heap, n: nat, w: int)
    requires WellFormed(h) && InLive(h.blocks, w)
    ensures InLive(DallocSpec(h, n).0.blocks, w)
  {
    hide InLive;
    if DallocSpec(h, n).1.Some? {
      var i := FindFound(h, n);
      CarveLive(h, i, Wanted(n), w);
    }
  }

  lemma {:induction false} DataLive(ops: seq<Op>, merging: bool, w: nat)
    requires LegalRun(ops, merging) && w in Data(ops, merging)
    ensures InLive(Run(ops, merging).blocks, w)
  {
    hide InLive;
    var before, op := ops[..|ops| - 1], ops[|ops| - 1];
    if op.Dalloc? || (op.Store? && op.word != w) {
      DataLive(before, merging, w);
      RunWellFormed(before, merging);
      if op.Dalloc? { DallocLive(Run(before, merging), op.requested, w); }
    }
  }

  /** A stored value stays until another store to the word, or until its block is freed. */
  lemma {:induction false} StoreLasts(ops: seq<Op>, merging: bool, j: nat)
    requires LegalRun(ops, merging) && j < |ops| && ops[j].Store?
    requires forall k :: j < k < |ops| && ops[k].Store? ==> ops[k].word != ops[j].word
    requires forall k :: j < k <= |ops| ==> InLive(Run(ops[..k], merging).blocks, ops[j].word)
    ensures ops[j].word in Data(ops, merging) && Data(ops, merging)[ops[j].word] == ops[j].bits
  {
    hide InLive;
    if j < |ops| - 1 {
      var before := ops[..|ops| - 1];
      assert ops[..|ops|] == ops;
      forall k | j < k <= |before| ensures InLive(Run(before[..k], merging).blocks, ops[j].word) {
        assert before[..k] == ops[..k];
      }
      StoreLasts(before, merging, j);
    }
  }

  // ---------------------------------------------------------------- round trips

  /** Cutting a block in two, then joining the halves, changes nothing. */
  lemma SplitThenMerge(h: Heap, i: nat, size: nat)
    requires WellFormed(h) && Coalesced(h.blocks) && i < |h.blocks| && h.blocks[i].free
    requires h.blocks[i].size >= Limit(size)
    ensures var (h1, a) := Carve(h, i, size);
            h1.blocks[i + 1].start == a &&
            Release(MergeAfter(MergeBefore(h1, i + 1).0, i), i).blocks == h.blocks
  {
    hide WellFormed;
    var h1 := Carve(h, i, size).0;
    assert h1.blocks == SplitBlock(h.blocks, i, size) && h1.blocks[i].free;
    JoinSplit(h.blocks, i, size);
    var h2 := MergeBefore(h1, i + 1).0;
    assert h2.blocks == h.blocks;
    assert MergeAfter(h2, i) == h2;
  }

  lemma JoinSplit(bs: seq<Block>, i: nat, size: nat)
    requires i < |bs| && bs[i].size >= size + HEAD
    ensures i + 1 < |SplitBlock(bs, i, size)| && Join(SplitBlock(bs, i, size), i) == bs
  {
  }

  /** Next to no free block, marking a block live and releasing it changes nothing. */
  lemma TakeThenMerge(h: Heap, i: nat, size: nat)
    requires WellFormed(h) && Coalesced(h.blocks) && i < |h.blocks| && h.blocks[i].free
    requires size <= h.blocks[i].size < Limit(size)
    ensures var (h1, a) := Carve(h, i, size);
            h1.blocks[i].start == a && MergeBefore(h1, i) == (h1, i) && MergeAfter(h1, i) == h1 &&
            Release(h1, i).blocks == h.blocks
  {
  }

  lemma CarveRoundTrip(h: Heap, i: nat, size: nat)
    requires WellFormed(h) && Coalesced(h.blocks) && i < |h.blocks| && h.blocks[i].free
    requires size <= h.blocks[i].size && (Cuttable(size) || h.blocks[i].size < Limit(size))
    ensures var (h1, a) := Carve(h, i, size);
            IsLive(h1.blocks, a) && DfreeSpec(h1, a, true).blocks == h.blocks
  {
    var (h1, a) := Carve(h, i, size);
    CarveKeeps(h, i, size);
    var j := if h.blocks[i].size >= Limit(size) then i + 1 else i;
    if i < j { SplitThenMerge(h, i, size); } else { TakeThenMerge(h, i, size); }
    assert h1.blocks[j] in h1.blocks;
    IndexOfStart(h1.blocks, j);
  }

  /** With `merge` enabled, `dalloc` then `dfree` restores every block and the set of listed blocks. */
  lemma MergingRoundTrip(h: Heap, n: nat)
    requires WellFormed(h) && Coalesced(h.blocks) && Sound(h, n)
    requires DallocSpec(h, n).1.Some?
    ensures var (h1, a) := DallocSpec(h, n);
            var h2 := DfreeSpec(h1, a.value, true);
            IsLive(h1.blocks, a.value) && h2.blocks == h.blocks && multiset(h2.flist) == multiset(h.flist)
  {
    var i := FindFound(h, n);
    CarveRoundTrip(h, i, Wanted(n));
    CarveKeeps(h, i, Wanted(n));
    var (h1, a) := Carve(h, i, Wanted(n));
    DfreeKeeps(h1, a, true);
    SameMembers(DfreeSpec(h1, a, true).flist, h.flist);
  }

  /** Lists without duplicates and with the same members are permutations of each other. */
  lemma SameMembers(f: seq<nat>, g: seq<nat>)
    requires NoDup(f) && NoDup(g) && forall x :: x in f <==> x in g
    ensures multiset(f) == multiset(g)
  {
    forall x ensures multiset(f)[x] == multiset(g)[x] {
      OnceEach(f, x);
      OnceEach(g, x);
    }
  }

  lemma {:induction false} OnceEach(f: seq<nat>, x: nat)
    requires NoDup(f)
    ensures multiset(f)[x] == if x in f then 1 else 0
  {
    if f != [] {
      OnceEach(f[1..], x);
      assert f == [f[0]] + f[1..];
    }
  }

  /** As written, `dalloc` then `dfree` restores the blocks exactly when the first fit is too small to be split. */
  lemma WrittenRoundTrip(h: Heap, n: nat)
    requires WellFormed(h) && Sound(h, n) && DallocSpec(h, n).1.Some?
    ensures var (h1, a) := DallocSpec(h, n);
            DfreeSpec(h1, a.value, false).blocks == h.blocks <==> !WillSplit(h, Wanted(n))
  {
    var size := Wanted(n);
    var i := FindFound(h, n);
    var (h1, a) := Carve(h, i, size);
    FindKeeps(h, size);
    var j := if h.blocks[i].size >= Limit(size) then i + 1 else i;
    assert h1.blocks[j].start == a;
    IndexOfStart(h1.blocks, j);
    if j == i { assert DfreeSpec(h1, a, false).blocks == h.blocks; }
  }

  /** The calls of a run, with `dfree` as written, that find a first fit big enough to be split. */
  function Splits(ops: seq<Op>): nat {
    if ops == [] then 0
    else
      var before, op := ops[..|ops| - 1], ops[|ops| - 1];
      Splits(before) +
      if op.Dalloc? && op.requested > 0 && WillSplit(Run(before, false), Wanted(op.requested)) then 1 else 0
  }

  /** As written, blocks are never put together again: each split adds one for good. */
  lemma {:induction false} WrittenRunSplits(ops: seq<Op>)
    requires LegalRun(ops, false)
    ensures |Run(ops, false).blocks| == 1 + Splits(ops)
  {
    if ops != [] {
      var before := ops[..|ops| - 1];
      WrittenRunSplits(before);
      RunWellFormed(before, false);
      var h, op := Run(before, false), ops[|ops| - 1];
      match op
      case Dalloc(n) =>
        if DallocSpec(h, n).1.Some? {
          var i := FindFound(h, n);
        } else if n > 0 && FirstFit(h, 0, Wanted(n)) < |h.flist| {
          ListedBlock(h, h.flist[FirstFit(h, 0, Wanted(n))]);
        }
      case Dfree(p) => if p.Some? { LiveIndex(h.blocks, p.value); }
      case Store(_, _) =>
    }
  }

  /** As written, a balanced run is back at the initial heap exactly when no first fit was big enough to be split. */
  lemma WrittenBalancedRun(ops: seq<Op>)
    requires LegalRun(ops, false) && Balance(ops, false) == 0
    ensures Run(ops, false) == InitHeap() <==> Splits(ops) == 0
  {
    var h := Run(ops, false);
    RunWellFormed(ops, false);
    RunBalance(ops, false);
    WrittenRunSplits(ops);
    NoneLive(h.blocks, 0);
    if Splits(ops) == 0 { SingleFreeBlock(h); }
  }

  // ---------------------------------------------------------------- what dalloc hands out

  /** The least run that is not undone: a block allocated and freed stays cut off. */
  lemma WrittenLeavesSplit()
    ensures var ops := [Dalloc(16), Dfree(Some(65504))];
            && LegalRun(ops, false) && Balance(ops, false) == 0
            && Run(ops, false) == Heap([Block(0, 65496, true), Block(65504, 16, true)], [65504, 0])
  {
    hide Run, LegalRun, Wanted;
    var b := Block(65504, 16, false);
    var h := Heap([Block(0, 65496, true), b], [0]);
    assert InitHeap().blocks[1..] == [];
    FirstSixteen(false);
    RunExtends([Dalloc(16)], Dfree(Some(65504)), false);
    assert [Dalloc(16)] + [Dfree(Some(65504))] == [Dalloc(16), Dfree(Some(65504))];
    assert b in h.blocks;
    IndexOfSecond(h.blocks);
    assert [Dalloc(16), Dfree(Some(65504))][..1] == [Dalloc(16)] && [Dalloc(16)][..0] == [];
  }

  /** The run that allocates 16 bytes, with either `dfree`. */
  lemma FirstSixteen(merging: bool)
    ensures LegalRun([Dalloc(16)], merging)
    ensures Run([Dalloc(16)], merging) == Heap([Block(0, 65496, true), Block(65504, 16, false)], [0])
    ensures DallocSpec(InitHeap(), 16).1 == Some(65504)
    ensures Run([], merging) == InitHeap()
  {
    hide DallocSpec;
    RunExtends([], Dalloc(16), merging);
    assert [] + [Dalloc(16)] == [Dalloc(16)];
    assert InitHeap().blocks[1..] == [];
    WantedSize(16);
    LowBlockCut(InitHeap(), 16);
  }

  /** What a heap with one free block, at address 0, gives for a request that `adjust` leaves as it is. */
  lemma LowBlockCut(h: Heap, n: nat)
    requires |h.blocks| > 0 && h.blocks[0].start == 0 && h.blocks[0].free && h.flist == [0]
    requires n > 0 && Wanted(n) == n && h.blocks[0].size >= Limit(n)
    ensures WillSplit(h, n)
    ensures var s := h.blocks[0].size;
            DallocSpec(h, n) ==
              (Heap([Block(0, s - n - HEAD, true), Block(s - n, n, false)] + h.blocks[1..], [0]), Some(s - n))
  {
    hide Wanted;
    var s := h.blocks[0].size;
    assert h.blocks[..0] == [];
    assert DallocSpec(h, n).0.blocks == [Block(0, s - n - HEAD, true), Block(s - n, n, false)] + h.blocks[1..];
    assert DallocSpec(h, n).0.flist == [0];
  }

  lemma IndexOfSecond(bs: seq<Block>)
    requires |bs| == 2 && bs[0].start != bs[1].start
    ensures IndexOf(bs, bs[1].start) == 1
  {
  }

  /** `b` is the first block of the free list with room for `size`. */
  ghost predicate FirstFitting(h: Heap, b: Block, size: nat) {
    && b in h.blocks && b.free && b.size >= size
    && (exists k :: 0 <= k < |h.flist| && h.flist[k] == b.start &&
          (forall l, d :: 0 <= l < k && d in h.blocks && d.start == h.flist[l] ==> d.size < size))
  }

  /** The block at `a` is live and is the high end of what used to be `b`. */
  ghost predicate HighEnd(h': Heap, a: nat, b: Block, n: nat) {
    exists c :: c in h'.blocks && !c.free && c.start == a && c.End() == b.End()
                && n <= c.size <= n + 23 && Sized(c)
  }

  /** NULL exactly when no free block fits; otherwise the first fit, cut from its high end. */
  lemma DallocResult(h: Heap, n: nat)
    requires WellFormed(h) && Sound(h, n) && n > 0
    ensures var (h', r) := DallocSpec(h, n);
            && (r.None? <==> forall b :: b in h.blocks && b.free ==> b.size < Wanted(n))
            && (r.None? ==> h' == h)
            && (r.Some? ==> exists b :: FirstFitting(h, b, Wanted(n)) && HighEnd(h', r.value, b, Wanted(n)) &&
                              (n <= INT_MAX - 7 ==> HighEnd(h', r.value, b, n)))
  {
    var size := Wanted(n);
    var k := FirstFit(h, 0, size);
    if k == |h.flist| {
      forall b | b in h.blocks && b.free ensures b.size < size {
        assert b.start in h.flist;
        var l :| 0 <= l < |h.flist| && h.flist[l] == b.start;
        SizeOfBlock(h.blocks, b);
      }
    } else {
      ListedBlock(h, h.flist[k]);
      var b := h.blocks[IndexOf(h.blocks, h.flist[k])];
      forall l, d | 0 <= l < k && d in h.blocks && d.start == h.flist[l] ensures d.size < size {
        SizeOfBlock(h.blocks, d);
      }
      assert FirstFitting(h, b, size);
      assert WillSplit(h, size) <==> b.size >= Limit(size);
      CarvedHighEnd(h, IndexOf(h.blocks, h.flist[k]), n);
    }
  }

  /** The block that is handed out of block `i`: all of it, or its high end. */
  lemma CarvedBlock(h: Heap, i: nat, size: nat) returns (c: Block)
    requires i < |h.blocks| && h.blocks[i].size >= size
    ensures var (h', a) := Carve(h, i, size);
            c in h'.blocks && !c.free && c.start == a && c.End() == h.blocks[i].End()
    ensures c.size == if h.blocks[i].size >= Limit(size) then size else h.blocks[i].size
  {
    var h' := Carve(h, i, size).0;
    if h.blocks[i].size >= Limit(size) {
      c := h'.blocks[i + 1];
    } else {
      c := h'.blocks[i];
    }
    assert c in h'.blocks;
  }

  lemma CarvedHighEnd(h: Heap, i: nat, n: nat)
    requires WellFormed(h) && i < |h.blocks| && h.blocks[i].size >= Wanted(n)
    requires Cuttable(Wanted(n)) || h.blocks[i].size < Limit(Wanted(n))
    ensures var (h', a) := Carve(h, i, Wanted(n));
            HighEnd(h', a, h.blocks[i], Wanted(n)) && (n <= INT_MAX - 7 ==> HighEnd(h', a, h.blocks[i], n))
  {
    hide Wanted, Chain, ListsFree;
    if n <= INT_MAX - 7 { WantedSize(n); }
    hide Carve;
    assert Sized(h.blocks[i]) by { SizedAt(h.blocks, i); }
    var c := CarvedBlock(h, i, Wanted(n));
  }

  lemma SizedAt(bs: seq<Block>, i: nat)
    requires Tiles(bs) && i < |bs|
    ensures Sized(bs[i])
  {
  }

  /** If the block at the head of the list fits, `dalloc` takes it. */
  lemma HeadUsed(h: Heap, j: nat, n: nat)
    requires Tiles(h.blocks) && j < |h.blocks| && n > 0 && Wanted(n) <= h.blocks[j].size
    requires |h.flist| > 0 && h.flist[0] == h.blocks[j].start
    ensures DallocSpec(h, n) == (Carve(h, j, Wanted(n)).0, Some(Carve(h, j, Wanted(n)).1))
  {
    IndexOfStart(h.blocks, j);
  }

  /** The block handed out at `r` is `c`, in use. */
  ghost predicate HandsOut(h: Heap, n: nat, c: Block) {
    var (h', r) := DallocSpec(h, n);
    r == Some(c.start) && c in h'.blocks && !c.free
  }

  /** As written, the block freed last is the first to be used again, if the request fits it. */
  lemma LastFreedFirstUsed(h: Heap, a: nat, n: nat)
    requires WellFormed(h) && IsLive(h.blocks, a) && n > 0 && Wanted(n) <= SizeAt(h.blocks, a)
    ensures exists c :: HandsOut(DfreeSpec(h, a, false), n, c) &&
                        a <= c.start && c.End() == a + SizeAt(h.blocks, a) + HEAD
  {
    LiveIndex(h.blocks, a);
    var i := IndexOf(h.blocks, a);
    var h' := DfreeSpec(h, a, false);
    DfreeKeeps(h, a, false);
    HeadUsed(h', i, n);
    var c := CarvedBlock(h', i, Wanted(n));
  }

  /**
   With `merge` enabled the next block comes from the high end of the merged block. It reaches
   into the bytes freed last exactly when no free block that could hold it lay behind them.
   */
  lemma MergedFreedReused(h: Heap, a: nat, n: nat)
    requires WellFormed(h) && IsLive(h.blocks, a) && n > 0 && Wanted(n) <= SizeAt(h.blocks, a)
    ensures var end, j := a + SizeAt(h.blocks, a) + HEAD, IndexOf(h.blocks, a) + 1;
            exists c :: HandsOut(DfreeSpec(h, a, true), n, c) && a < end <= c.End() &&
              (c.start < end <==> !(j < |h.blocks| && h.blocks[j].free && Wanted(n) <= h.blocks[j].size))
  {
    hide Wanted, WellFormed, IsLive, DfreeSpec, DallocSpec, Carve;
    var i := MergedHead(h, a);
    var h' := DfreeSpec(h, a, true);
    assert Tiles(h'.blocks) by { DfreeKeeps(h, a, true); WellTiled(h'); }
    HeadUsed(h', i, n);
    var c := CarvedBlock(h', i, Wanted(n));
  }

  lemma WellTiled(h: Heap)
    requires WellFormed(h)
    ensures Tiles(h.blocks)
  {
  }

  /** After a merging `dfree` the merged block is at the head of the list. */
  lemma MergedHead(h: Heap, a: nat) returns (k: nat)
    requires WellFormed(h) && IsLive(h.blocks, a)
    ensures var h', i := DfreeSpec(h, a, true), IndexOf(h.blocks, a);
            && k < |h'.blocks| && h'.flist != [] && h'.flist[0] == h'.blocks[k].start
            && h'.blocks[k].start <= a && MIN <= SizeAt(h.blocks, a) <= h'.blocks[k].size
            && h'.blocks[k].End() == a + SizeAt(h.blocks, a) + HEAD +
                 (if i + 1 < |h.blocks| && h.blocks[i + 1].free then h.blocks[i + 1].size + HEAD else 0)
  {
    hide MergeBefore, MergeAfter;
    LiveIndex(h.blocks, a);
    MergeGrows(h, IndexOf(h.blocks, a));
    k := MergeBefore(h, IndexOf(h.blocks, a)).1;
  }

  /** `merge` makes the block bigger by the free neighbours. */
  lemma MergeGrows(h: Heap, i: nat)
    requires Tiles(h.blocks) && i < |h.blocks|
    ensures var (h1, i1) := MergeBefore(h, i);
            var b := MergeAfter(h1, i1).blocks[i1];
            && b.start <= h.blocks[i].start && MIN <= h.blocks[i].size <= b.size
            && b.End() == h.blocks[i].End() +
                 (if i + 1 < |h.blocks| && h.blocks[i + 1].free then h.blocks[i + 1].size + HEAD else 0)
  {
    SizedAt(h.blocks, i);
  }

  /** With `merge` enabled the block handed out next can miss the bytes freed last altogether. */
  lemma MergingTakesBehind()
    ensures var ops := [Dalloc(16), Dalloc(16), Dfree(Some(65504)), Dfree(Some(65480))];
            LegalRun(ops, true) && DallocSpec(Run(ops, true), 16).1 == Some(65504)
  {
    hide Run, LegalRun, DallocSpec, DfreeSpec, Wanted;
    var b0, b1, b2 := Block(0, 65472, true), Block(65480, 16, false), Block(65504, 16, false);
    var h1, h2 := Heap([Block(0, 65496, true), b2], [0]), Heap([b0, b1, b2], [0]);
    var o1 := [Dalloc(16)];
    var o2 := o1 + [Dalloc(16)];
    var o3 := o2 + [Dfree(Some(65504))];
    FirstSixteen(true);
    RunExtends(o1, Dalloc(16), true);
    WantedSize(16);
    LowBlockCut(h1, 16);
    assert h1.blocks[1..] == [b2] && [b0, b1] + [b2] == h2.blocks;
    assert Run(o2, true) == h2;
    RunExtends(o2, Dfree(Some(65504)), true);
    RunExtends(o3, Dfree(Some(65480)), true);
    assert b2 in h2.blocks;
    FreeBoth();
    LowBlockCut(InitHeap(), 16);
    assert o3 + [Dfree(Some(65480))] == [Dalloc(16), Dalloc(16), Dfree(Some(65504)), Dfree(Some(65480))];
  }

  /** Two live blocks at the high end are freed, the last one first. */
  lemma FreeBoth()
    ensures var b0, b1, b2 := Block(0, 65472, true), Block(65480, 16, false), Block(65504, 16, false);
            var h3 := DfreeSpec(Heap([b0, b1, b2], [0]), 65504, true);
            IsLive(h3.blocks, 65480) && DfreeSpec(h3, 65480, true) == InitHeap()
  {
    var b0, b1, b2 := Block(0, 65472, true), Block(65480, 16, false), Block(65504, 16, false);
    var h2 := Heap([b0, b1, b2], [0]);
    var h3 := Heap([b0, b1, b2.(free := true)], [65504, 0]);
    IndexOfThird(h2.blocks);
    assert DfreeSpec(h2, 65504, true) == h3;
    assert b1 in h3.blocks;
    IndexOfThird(h3.blocks);
    var h4 := Heap([Block(0, 65496, true), b2.(free := true)], [65504]);
    assert Join(h3.blocks, 0) == h4.blocks;
    assert Unlink([0], 0) == [] && [65504, 0][1..] == [0];
    assert Unlink([65504, 0], 0) == [65504];
    assert MergeBefore(h3, 1) == (h4, 0);
    assert Join(h4.blocks, 0) == InitHeap().blocks;
    assert DfreeSpec(h3, 65480, true).blocks == InitHeap().blocks;
  }

  lemma IndexOfThird(bs: seq<Block>)
    requires |bs| == 3 && bs[0].start < bs[1].start < bs[2].start
    ensures IndexOf(bs, bs[1].start) == 1 && IndexOf(bs, bs[2].start) == 2
  {
  }

  /** What is left of a block that was split is the first to be split or used next. */
  lemma RestUsedNext(h: Heap, n: nat, m: nat)
    requires WellFormed(h) && Sound(h, n) && n > 0 && m > 0 && WillSplit(h, Wanted(n))
    ensures var (h1, a) := DallocSpec(h, n);
            a.Some? && exists rest ::
              rest in h1.blocks && rest.free && rest.End() == a.value &&
              (Wanted(m) <= rest.size ==>
                 var (h2, r) := DallocSpec(h1, m); r.Some? && rest.start <= r.value < rest.End())
  {
    ListedBlock(h, h.flist[FirstFit(h, 0, Wanted(n))]);
    var i := FindFound(h, n);
    FindKeeps(h, Wanted(n));
    var h1 := DallocSpec(h, n).0;
    assert h1.blocks[i] in h1.blocks;
    if Wanted(m) <= h1.blocks[i].size { HeadUsed(h1, i, m); }
  }

  lemma SizeOfBlock(bs: seq<Block>, b: Block)
    requires Tiles(bs) && b in bs
    ensures SizeAt(bs, b.start) == b.size
  {
    var i :| 0 <= i < |bs| && bs[i] == b;
    IndexOfStart(bs, i);
  }

  /**
   For any `size_t` request that is served: the blocks still tile the arena in pieces that
   can hold two links exactly when the size asked of `find` can be cut or no cut is made.
   */
  lemma DallocTilesExactly(h: Heap, n: nat)
    requires WellFormed(h) && 0 < n < SIZES && DallocSpec(h, n).1.Some?
    ensures Tiles(DallocSpec(h, n).0.blocks) <==> Sound(h, n)
  {
    var i := FindFound(h, n);
    if Sound(h, n) {
      FindKeeps(h, Wanted(n));
    } else {
      var bs := DallocSpec(h, n).0.blocks;
      assert bs[i + 1].size == Wanted(n) && bs[i + 1] in bs;
    }
  }

  /**
   Whatever is requested, the blocks still follow each other without gaps, and they stay aligned
   exactly when the size asked of `find` is a multiple of 8 or no cut is made.
   */
  lemma DallocAligned(h: Heap, n: nat)
    requires WellFormed(h) && 0 < n < SIZES && DallocSpec(h, n).1.Some?
    ensures var bs := DallocSpec(h, n).0.blocks;
            Contiguous(bs, 0, SENTINEL) && (AllAligned(bs) <==> Wanted(n) % ALIGN == 0 || !WillSplit(h, Wanted(n)))
  {
    hide Wanted, WellFormed, Chain, SplitBlock;
    var i := FindFound(h, n);
    assert Tiles(h.blocks) by { WellTiled(h); }
    if WillSplit(h, Wanted(n)) {
      SplitAligned(h.blocks, i, Wanted(n));
    } else {
      SetFreeTiles(h.blocks, i, false);
      TilesAligned(SetFree(h.blocks, i, false));
    }
  }

  lemma TilesAligned(bs: seq<Block>)
    requires Tiles(bs)
    ensures Contiguous(bs, 0, SENTINEL) && AllAligned(bs)
  {
  }

  lemma SplitAligned(bs: seq<Block>, i: nat, size: nat)
    requires Tiles(bs) && i < |bs| && bs[i].size >= Limit(size)
    ensures Contiguous(SplitBlock(bs, i, size), 0, SENTINEL)
    ensures AllAligned(SplitBlock(bs, i, size)) <==> size % ALIGN == 0
  {
    hide Chain, Contiguous, AllAligned, Splice;
    TilesAligned(bs);
    var rest := bs[i].(size := bs[i].size - size - HEAD);
    CutContiguous(rest, size);
    SpliceContiguous(bs, i, i + 1, [rest, Block(rest.End(), size, false)]);
    SplitAllAligned(bs, i, size);
  }

  lemma CutContiguous(rest: Block, size: nat)
    ensures Contiguous([rest, Block(rest.End(), size, false)], rest.start, rest.End() + size + HEAD)
  {
  }

  lemma SplitAllAligned(bs: seq<Block>, i: nat, size: nat)
    requires AllAligned(bs) && i < |bs| && bs[i].size >= Limit(size)
    ensures AllAligned(SplitBlock(bs, i, size)) <==> size % ALIGN == 0
  {
    var rest := bs[i].(size := bs[i].size - size - HEAD);
    var cut, bs' := Block(rest.End(), size, false), SplitBlock(bs, i, size);
    assert cut.start == bs[i].End() - size - HEAD;
    assert bs'[i + 1] == cut && cut in bs';
    assert bs[i] in bs;
    hide SplitBlock;
    CutAligned(bs[i], size);
    SplitMembers(bs, i, size);
  }

  /** Cutting an aligned block leaves two aligned ones exactly when the size is aligned. */
  lemma CutAligned(b: Block, size: nat)
    requires b.start % ALIGN == 0 && b.size % ALIGN == 0 && b.size >= size + HEAD
    ensures size % ALIGN == 0 ==> (b.size - size - HEAD) % ALIGN == 0 && (b.End() - size - HEAD) % ALIGN == 0
  {
  }

  lemma SplitMembers(bs: seq<Block>, i: nat, size: nat)
    requires i < |bs| && bs[i].size >= size + HEAD
    ensures var rest := bs[i].(size := bs[i].size - size - HEAD);
            forall b :: b in SplitBlock(bs, i, size) ==> b == rest || b == Block(rest.End(), size, false) || b in bs
  {
  }

  /** Every request for which `adjust` keeps its promise can be cut; a smaller one never can. */
  lemma SoundRequests(h: Heap, n: nat)
    requires 0 < n <= INT_MAX - 7
    ensures Sound(h, n) <==> n >= MIN || !WillSplit(h, n)
  {
    WantedSize(n);
  }

  /** The first request for one byte already breaks the tiling. */
  lemma OneByteBreaks()
    ensures var (h, a) := DallocSpec(InitHeap(), 1);
            a == Some(65519) && !Tiles(h.blocks)
  {
    LowBlockCut(InitHeap(), 1);
    InitWellFormed();
    DallocTilesExactly(InitHeap(), 1);
  }

  /**
   For any `size_t` request that `dalloc` serves: the block at the address returned has
   room for it exactly when the request is not beyond what `adjust` can represent.
   */
  lemma DallocRoom(h: Heap, n: nat)
    requires WellFormed(h) && 0 < n < SIZES && DallocSpec(h, n).1.Some?
    ensures var (h', a) := DallocSpec(h, n);
            exists c :: c in h'.blocks && !c.free && c.start == a.value && (n <= c.size <==> n <= INT_MAX - 7)
  {
    var i := FindFound(h, n);
    assert h.blocks[i] in h.blocks;
    WithinArena(h.blocks, h.blocks[i]);
    var c := CarvedBlock(h, i, Wanted(n));
    if n <= INT_MAX - 7 { WantedSize(n); }
  }

  // ---------------------------------------------------------------- sizes and addresses

  function TotalBytes(bs: seq<Block>): nat {
    if bs == [] then 0 else bs[0].size + HEAD + TotalBytes(bs[1..])
  }

  lemma {:induction false} ChainTotal(bs: seq<Block>, from: nat, to: nat)
    requires Chain(bs, from, to)
    ensures TotalBytes(bs) == to - from
    ensures |bs| * (MIN + HEAD) <= to - from
  {
    assert Sized(bs[0]);
    if |bs| > 1 {
      var rest := bs[1..];
      assert forall i :: 0 <= i < |rest| ==> rest[i] == bs[i + 1];
      assert bs[1].start == bs[0].End();
      ChainTotal(rest, bs[1].start, to);
    } else {
      assert TotalBytes(bs[1..]) == 0;
    }
  }

  /** In every run headers and payloads add up to the arena, there are few blocks, and all sizes fit 16 bits. */
  lemma RunSizes(ops: seq<Op>, merging: bool)
    requires LegalRun(ops, merging)
    ensures TotalBytes(Run(ops, merging).blocks) == 65528
    ensures |Run(ops, merging).blocks| <= 2730
    ensures forall b :: b in Run(ops, merging).blocks ==> b.size <= 65520
  {
    RunWellFormed(ops, merging);
    TiledSizes(Run(ops, merging).blocks);
  }

  lemma TiledSizes(bs: seq<Block>)
    requires Tiles(bs)
    ensures TotalBytes(bs) == 65528 && |bs| <= 2730 && forall b :: b in bs ==> b.size <= 65520
  {
    ChainTotal(bs, 0, SENTINEL);
    forall b | b in bs ensures b.size <= 65520 { WithinArena(bs, b); }
  }

  /** In every run different blocks, header and payload, share no byte. */
  lemma RunBlocksApart(ops: seq<Op>, merging: bool, b: Block, c: Block)
    requires LegalRun(ops, merging)
    requires b in Run(ops, merging).blocks && c in Run(ops, merging).blocks && b != c
    ensures b.End() <= c.start || c.End() <= b.start
    ensures b.End() <= SENTINEL && b.start + HEAD + MIN <= b.End()
  {
    var bs := Run(ops, merging).blocks;
    RunWellFormed(ops, merging);
    WithinArena(bs, b);
    assert Sized(b);
    BlocksApart(bs, b, c);
  }

  ghost function Starts(bs: seq<Block>): set<nat> {
    set b | b in bs :: b.start
  }

  lemma CarveStartsGrow(h: Heap, i: nat, size: nat)
    requires i < |h.blocks| && h.blocks[i].size >= size
    ensures Starts(h.blocks) <= Starts(Carve(h, i, size).0.blocks)
  {
    var bs, bs' := h.blocks, Carve(h, i, size).0.blocks;
    forall a | a in Starts(bs) ensures a in Starts(bs') {
      var b :| b in bs && b.start == a;
      var l :| 0 <= l < |bs| && bs[l] == b;
      var m := if l <= i || |bs'| == |bs| then l else l + 1;
      assert bs'[m].start == a && bs'[m] in bs';
    }
  }

  lemma ReleaseStartsGrow(h: Heap, i: nat)
    requires i < |h.blocks|
    ensures Starts(h.blocks) <= Starts(Release(h, i).blocks)
  {
    var bs, bs' := h.blocks, Release(h, i).blocks;
    forall a | a in Starts(bs) ensures a in Starts(bs') {
      var b :| b in bs && b.start == a;
      var l :| 0 <= l < |bs| && bs[l] == b;
      assert bs'[l].start == a && bs'[l] in bs';
    }
  }

  /** As written, the block addresses of a longer run include those of a shorter one. */
  lemma {:induction false} WrittenStartsGrow(ops: seq<Op>, k: nat)
    requires LegalRun(ops, false) && k <= |ops|
    ensures Starts(Run(ops[..k], false).blocks) <= Starts(Run(ops, false).blocks)
  {
    hide Starts, Carve, Release;
    if k < |ops| {
      var before := ops[..|ops| - 1];
      assert before[..k] == ops[..k];
      WrittenStartsGrow(before, k);
      RunWellFormed(before, false);
      var h, op := Run(before, false), ops[|ops| - 1];
      match op
      case Dalloc(n) =>
        if DallocSpec(h, n).1.Some? {
          var i := FindFound(h, n);
          CarveStartsGrow(h, i, Wanted(n));
        }
      case Dfree(p) =>
        if p.Some? {
          LiveIndex(h.blocks, p.value);
          ReleaseStartsGrow(h, IndexOf(h.blocks, p.value));
        }
      case Store(_, _) =>
    } else {
      assert ops[..k] == ops;
    }
  }
}
