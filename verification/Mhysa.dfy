/**
 mylloc-assignment/mhysa.c: first fit over a singly linked list of freed chunks, with
 `sbrk` for what the list cannot serve. Whether a call of `sbrk` succeeds is a parameter;
 the heap is assumed to grow contiguously.
 */
module Mhysa {
  import opened CTypes
  import opened LinkedLists
  import opened Options
  import opened Sets

  const HEADER := 16   // sizeof(struct chunk)

  // ---------------------------------------------------------------- specification

  /** How big a chunk of `n` bytes passes for: the `int` in its header, compared with a request as a `size_t`. */
  function Recorded(n: nat): nat { ToSize(ToInt(n)) }

  /** The size requested of `sbrk` for each chunk, in address order, and the numbers of the chunks on `flist`. */
  datatype Heap = Heap(chunks: seq<nat>, flist: seq<nat>)

  /** The address of chunk `k`; that of the chunk after the last one is the end of the heap. */
  function Base(chunks: seq<nat>, k: nat): nat
    requires k <= |chunks|
  {
    if k == 0 then 0 else Base(chunks, k - 1) + HEADER + chunks[k - 1]
  }

  function Top(h: Heap): nat { Base(h.chunks, |h.chunks|) }

  ghost predicate WellFormed(h: Heap) {
    && (forall i :: 0 <= i < |h.flist| ==> h.flist[i] < |h.chunks|)
    && (forall i, j :: 0 <= i < j < |h.flist| ==> h.flist[i] != h.flist[j])
  }

  predicate Fits(h: Heap, c: nat, n: nat) {
    c < |h.chunks| && Recorded(h.chunks[c]) >= n
  }

  /** The position at or after `k` of the first chunk on the list that fits. */
  function FirstFit(h: Heap, k: nat, n: nat): (r: nat)
    requires k <= |h.flist|
    ensures k <= r <= |h.flist|
    ensures r < |h.flist| ==> Fits(h, h.flist[r], n)
    ensures forall j :: k <= j < r ==> !Fits(h, h.flist[j], n)
    decreases |h.flist| - k
  {
    if k == |h.flist| || Fits(h, h.flist[k], n) then k else FirstFit(h, k + 1, n)
  }

  function Without(f: seq<nat>, k: nat): seq<nat>
    requires k < |f|
  {
    f[..k] + f[k + 1..]
  }

  /** `malloc`: the new heap and the chunk handed out, if any. */
  function MallocSpec(h: Heap, n: nat, grows: bool): (Heap, Option<nat>) {
    var k := FirstFit(h, 0, n);
    if n == 0 then (h, None)
    else if k < |h.flist| then (h.(flist := Without(h.flist, k)), Some(h.flist[k]))
    else if grows then (h.(chunks := h.chunks + [n]), Some(|h.chunks|))
    else (h, None)
  }

  function FreeSpec(h: Heap, c: nat): Heap {
    h.(flist := [c] + h.flist)
  }

  /** `grows` says whether `sbrk` would succeed. */
  datatype Op = Malloc(n: nat, grows: bool) | Free(chunk: Option<nat>)

  /** The heap and the chunks the client has got and not freed. */
  datatype World = World(h: Heap, live: set<nat>)

  predicate Legal(w: World, op: Op) {
    op.Free? && op.chunk.Some? ==> op.chunk.value in w.live
  }

  function Step(w: World, op: Op): World {
    match op
    case Malloc(n, grows) =>
      var (h, r) := MallocSpec(w.h, n, grows);
      World(h, if r.Some? then w.live + {r.value} else w.live)
    case Free(c) => if c.None? then w else World(FreeSpec(w.h, c.value), w.live - {c.value})
  }

  function Run(ops: seq<Op>): World {
    if ops == [] then World(Heap([], []), {}) else Step(Run(ops[..|ops| - 1]), ops[|ops| - 1])
  }

  predicate LegalRun(ops: seq<Op>) {
    ops == [] || (LegalRun(ops[..|ops| - 1]) && Legal(Run(ops[..|ops| - 1]), ops[|ops| - 1]))
  }

  // ---------------------------------------------------------------- chunks

  /** Each chunk is either live or on the list, once. */
  ghost predicate Partition(w: World) {
    && WellFormed(w.h)
    && forall c: nat :: (c in w.live || c in w.h.flist <==> c < |w.h.chunks|) && !(c in w.live && c in w.h.flist)
  }

  lemma WithoutMembers(f: seq<nat>, k: nat)
    requires k < |f| && forall i, j :: 0 <= i < j < |f| ==> f[i] != f[j]
    ensures forall x :: x in Without(f, k) <==> x in f && x != f[k]
  {
  }

  lemma WithoutOk(h: Heap, k: nat)
    requires WellFormed(h) && k < |h.flist|
    ensures WellFormed(h.(flist := Without(h.flist, k)))
  {
  }

  lemma TakePartition(w: World, k: nat)
    requires Partition(w) && k < |w.h.flist|
    ensures Partition(World(w.h.(flist := Without(w.h.flist, k)), w.live + {w.h.flist[k]}))
  {
    WithoutOk(w.h, k);
    WithoutMembers(w.h.flist, k);
    assert w.h.flist[k] in w.h.flist;
  }

  lemma GrowPartition(w: World, n: nat)
    requires Partition(w)
    ensures Partition(World(w.h.(chunks := w.h.chunks + [n]), w.live + {|w.h.chunks|}))
  {
  }

  lemma FreePartition(w: World, c: nat)
    requires Partition(w) && c in w.live
    ensures Partition(World(FreeSpec(w.h, c), w.live - {c}))
  {
  }

  lemma StepPartition(w: World, op: Op)
    requires Partition(w) && Legal(w, op)
    ensures Partition(Step(w, op))
  {
    hide Partition, Without;
    match op
    case Malloc(n, grows) =>
      var k := FirstFit(w.h, 0, n);
      if n > 0 && k < |w.h.flist| { TakePartition(w, k); } else if n > 0 && grows { GrowPartition(w, n); }
    case Free(c) =>
      if c.Some? { FreePartition(w, c.value); }
  }

  /** In every run each chunk of the heap is live or on the list, and never both or twice. */
  lemma {:induction false} RunPartition(ops: seq<Op>)
    requires LegalRun(ops)
    ensures Partition(Run(ops))
  {
    if ops != [] {
      RunPartition(ops[..|ops| - 1]);
      StepPartition(Run(ops[..|ops| - 1]), ops[|ops| - 1]);
    }
  }

  /** Chunks, header and payload, follow each other without gaps up to the end of the heap. */
  lemma {:induction false} ChunksApart(chunks: seq<nat>, j: nat, k: nat)
    requires j < k <= |chunks|
    ensures Base(chunks, j) + HEADER + chunks[j] <= Base(chunks, k)
    ensures k == j + 1 ==> Base(chunks, j) + HEADER + chunks[j] == Base(chunks, k)
  {
    if j + 1 < k { ChunksApart(chunks, j, k - 1); }
  }

  /** `sbrk` is needed exactly when no chunk on the list is recorded as big enough. */
  lemma GrowsOnlyWhenNeeded(h: Heap, n: nat)
    requires n > 0
    ensures |MallocSpec(h, n, true).0.chunks| > |h.chunks| <==> forall c :: c in h.flist ==> !Fits(h, c, n)
  {
  }

  /** Chunk `c` is on the list, is recorded as big enough, and no chunk before it on the list is. */
  ghost predicate FirstFitting(h: Heap, n: nat, c: nat) {
    exists k :: 0 <= k < |h.flist| && h.flist[k] == c && Fits(h, c, n) &&
                forall j :: 0 <= j < k ==> !Fits(h, h.flist[j], n)
  }

  /**
   What `malloc` does: nothing for a size of 0; otherwise the first chunk on the list that fits
   goes to the client and the others keep their order; if none fits, the heap gets a chunk of the
   size asked for at its end, or NULL is returned.
   */
  lemma MallocResult(h: Heap, n: nat, grows: bool)
    requires WellFormed(h)
    ensures var (h', r) := MallocSpec(h, n, grows);
            && (n == 0 ==> r == None && h' == h)
            && (n > 0 && (exists c :: c in h.flist && Fits(h, c, n)) ==>
                  r.Some? && FirstFitting(h, n, r.value) && h'.chunks == h.chunks &&
                  (forall c :: c in h'.flist <==> c in h.flist && c != r.value) &&
                  (forall c, d :: c != r.value && d != r.value ==> (Before(h'.flist, c, d) <==> Before(h.flist, c, d))))
            && (n > 0 && (forall c :: c in h.flist ==> !Fits(h, c, n)) ==>
                  r == (if grows then Some(|h.chunks|) else None) && h'.flist == h.flist &&
                  h'.chunks == (if grows then h.chunks + [n] else h.chunks))
  {
    hide Recorded, Before;
    var k := FirstFit(h, 0, n);
    if n > 0 && k < |h.flist| {
      assert FirstFitting(h, n, h.flist[k]);
      WithoutMembers(h.flist, k);
      forall c, d | c != h.flist[k] && d != h.flist[k]
        ensures Before(Without(h.flist, k), c, d) <==> Before(h.flist, c, d)
      {
        RemovalOrder(h.flist, k, c, d);
      }
    }
  }

  /** `free` puts the chunk before all others on the list, which keep their order. */
  lemma FreeResult(h: Heap, c: nat)
    requires WellFormed(h) && c !in h.flist
    ensures var h' := FreeSpec(h, c);
            && h'.chunks == h.chunks
            && (forall d :: d in h'.flist <==> d == c || d in h.flist)
            && (forall d :: d in h.flist ==> Before(h'.flist, c, d))
            && (forall d, e :: d != c && e != c ==> (Before(h'.flist, d, e) <==> Before(h.flist, d, e)))
  {
    hide Before;
    forall d | d in h.flist ensures Before(FreeSpec(h, c).flist, c, d) { PushOrder(h.flist, c, d, d); }
    forall d, e | d != c && e != c ensures Before(FreeSpec(h, c).flist, d, e) <==> Before(h.flist, d, e) {
      PushOrder(h.flist, c, d, e);
    }
  }

  /** A chunk that is freed and fits the next request is handed out again, and the heap is as before the `free`. */
  lemma FreedIsReused(h: Heap, c: nat, n: nat, grows: bool)
    requires n > 0 && Fits(h, c, n)
    ensures MallocSpec(FreeSpec(h, c), n, grows) == (h, Some(c))
  {
    assert Without(FreeSpec(h, c).flist, 0) == h.flist;
  }

  /** Sizes at which the `int` field keeps the size, or a smaller number, or wraps back to it. */
  predicate SafeSize(n: nat) {
    n < SIZES && (n % 0x1_0000_0000 <= INT_MAX || n >= SIZES - 0x8000_0000)
  }

  /** A chunk never passes for bigger than it is exactly at those sizes. */
  lemma RecordedSize(n: nat)
    requires n < SIZES
    ensures Recorded(n) <= n <==> SafeSize(n)
  {
  }

  ghost predicate SafeRequests(ops: seq<Op>) {
    forall i :: 0 <= i < |ops| && ops[i].Malloc? ==> SafeSize(ops[i].n)
  }

  lemma {:induction false} SafeChunks(ops: seq<Op>)
    requires SafeRequests(ops)
    ensures forall c :: 0 <= c < |Run(ops).h.chunks| ==> SafeSize(Run(ops).h.chunks[c])
  {
    hide SafeSize;
    if ops != [] { SafeChunks(ops[..|ops| - 1]); }
  }

  /** If a request is served, the chunk handed out has room for it. */
  predicate HasRoom(h: Heap, n: nat, grows: bool) {
    var (h', c) := MallocSpec(h, n, grows);
    c.Some? ==> c.value < |h'.chunks| && n <= h'.chunks[c.value]
  }

  /** As long as earlier requests were of safe sizes, every chunk handed out has room for what is asked. */
  lemma RoomEnough(ops: seq<Op>, n: nat, grows: bool)
    requires LegalRun(ops) && SafeRequests(ops)
    ensures HasRoom(Run(ops).h, n, grows)
  {
    hide Recorded, SafeSize;
    RunPartition(ops);
    SafeChunks(ops);
    var h, k := Run(ops).h, FirstFit(Run(ops).h, 0, n);
    if k < |h.flist| {
      SafeBound(h.chunks[h.flist[k]]);
    }
  }

  lemma SafeBound(n: nat)
    requires SafeSize(n)
    ensures Recorded(n) <= n
  {
  }

  /** A chunk of `n` bytes that has been freed is all there is. */
  lemma OneFreed(n: nat)
    requires n > 0
    ensures var ops := [Malloc(n, true), Free(Some(0))];
            LegalRun(ops) && Run(ops) == World(Heap([n], [0]), {})
    ensures var ops := [Malloc(n, true), Free(Some(0))];
            ops[..1] == [Malloc(n, true)] && Run([Malloc(n, true)]) == World(Heap([n], []), {0})
  {
    var a := Malloc(n, true);
    assert [a, Free(Some(0))][..1] == [a] && [a][..0] == [];
    assert Run([]) == World(Heap([], []), {});
    assert Run([a]) == World(Heap([n], []), {0});
  }

  ghost predicate Requests(ops: seq<Op>, n: nat) {
    forall i :: 0 <= i < |ops| && ops[i].Malloc? ==> ops[i].n == n
  }

  /** Requests of one size leave room in every run, whatever is asked next, exactly if the size is safe. */
  lemma RoomExactly(n: nat)
    requires 0 < n < SIZES
    ensures (forall ops: seq<Op>, m: nat, grows: bool ::
               LegalRun(ops) && Requests(ops, n) && m < SIZES ==> HasRoom(Run(ops).h, m, grows))
            <==> SafeSize(n)
  {
    hide LegalRun, Run, SafeSize, Recorded, HasRoom;
    if SafeSize(n) {
      forall ops: seq<Op>, m: nat, grows: bool | LegalRun(ops) && Requests(ops, n) && m < SIZES
        ensures HasRoom(Run(ops).h, m, grows)
      {
        RoomEnough(ops, m, grows);
      }
    } else {
      var ops := [Malloc(n, true), Free(Some(0))];
      OneFreed(n);
      OneByteMore(n);
      assert Requests(ops, n);
      assert !HasRoom(Run(ops).h, n + 1, false);
    }
  }

  /** A freed chunk of an unsafe size serves a request for one byte more. */
  lemma OneByteMore(n: nat)
    requires 0 < n < SIZES && !SafeSize(n)
    ensures n + 1 < SIZES && !HasRoom(Heap([n], [0]), n + 1, false)
  {
    RecordedSize(n);
  }

  /** A chunk of 2 GiB passes for one of nearly 2^64 bytes and serves a request twice its size. */
  lemma TooSmall()
    ensures var ops := [Malloc(0x8000_0000, true), Free(Some(0))];
            LegalRun(ops) && MallocSpec(Run(ops).h, 0x1_0000_0000, true) == (Heap([0x8000_0000], []), Some(0))
  {
    OneFreed(0x8000_0000);
    assert Without([0], 0) == [];
  }

  // ---------------------------------------------------------------- growth of the heap

  /** The greatest number of chunks the client has had at a time. */
  function Peak(ops: seq<Op>): nat {
    if ops == [] then 0
    else
      var before, now := Peak(ops[..|ops| - 1]), |Run(ops).live|;
      if now > before then now else before
  }

  predicate Uniform(ops: seq<Op>, n: nat) {
    forall i :: 0 <= i < |ops| && ops[i].Malloc? ==> ops[i].n == n && ops[i].grows
  }

  /** The numbers below `n`. */
  function Numbers(n: nat): (s: set<nat>)
    ensures |s| == n && forall x: nat :: x in s <==> x < n
  {
    if n == 0 then {} else Numbers(n - 1) + {n - 1}
  }

  /** Live chunks never outnumber the chunks there are, and with an empty list there are just as many. */
  lemma LiveCount(w: World)
    requires Partition(w)
    ensures |w.live| <= |w.h.chunks|
    ensures w.h.flist == [] ==> |w.live| == |w.h.chunks|
  {
    var all := Numbers(|w.h.chunks|);
    assert w.live <= all;
    SubsetSize(w.live, all);
    if w.h.flist == [] { assert w.live == all; }
  }

  lemma {:induction false} UniformChunks(ops: seq<Op>, n: nat)
    requires Uniform(ops, n)
    ensures forall c :: 0 <= c < |Run(ops).h.chunks| ==> Run(ops).h.chunks[c] == n
  {
    if ops != [] { UniformChunks(ops[..|ops| - 1], n); }
  }

  lemma {:induction false} UniformBase(chunks: seq<nat>, n: nat, k: nat)
    requires k <= |chunks| && forall c :: 0 <= c < |chunks| ==> chunks[c] == n
    ensures Base(chunks, k) == k * (n + HEADER)
  {
    if k > 0 {
      UniformBase(chunks, n, k - 1);
      assert (k - 1) * (n + HEADER) + n + HEADER == k * (n + HEADER);
    }
  }

  /** Sizes at which a freed chunk is seen to fit a request of the same size. */
  predicate ReusableSize(n: nat) {
    n <= INT_MAX || INT_MAX < n % 0x1_0000_0000
  }

  lemma ReusableRecorded(n: nat)
    requires n < SIZES
    ensures Recorded(n) >= n <==> ReusableSize(n)
  {
  }

  /** With chunks of one size, a new one is made only when all are live. */
  lemma UniformStep(w: World, op: Op, n: nat)
    requires Partition(w) && Legal(w, op) && (op.Malloc? ==> op.n == n && op.grows) && n > 0 && Recorded(n) >= n
    requires forall c :: 0 <= c < |w.h.chunks| ==> w.h.chunks[c] == n
    ensures var w' := Step(w, op);
            |w'.h.chunks| == |w.h.chunks| || (|w'.h.chunks| == |w.h.chunks| + 1 == |w'.live|)
  {
    hide Recorded;
    LiveCount(w);
    if op.Malloc? && w.h.flist != [] {
      assert Fits(w.h, w.h.flist[0], n);
    }
  }

  /** A chunk is made only when all are live: there are as many chunks as were ever live at a time. */
  lemma {:induction false} ChunksArePeak(ops: seq<Op>, n: nat)
    requires LegalRun(ops) && Uniform(ops, n) && 0 < n < SIZES && ReusableSize(n)
    ensures |Run(ops).h.chunks| == Peak(ops)
  {
    hide Step, Partition, ReusableSize;
    if ops != [] {
      var before, op := ops[..|ops| - 1], ops[|ops| - 1];
      ChunksArePeak(before, n);
      UniformChunks(before, n);
      RunPartition(before);
      RunPartition(ops);
      ReusableRecorded(n);
      UniformStep(Run(before), op, n);
      LiveCount(Run(ops));
    }
  }

  /**
   With requests of one size the heap is, in every run, exactly as long as the peak number of
   live chunks needs, if and only if freed chunks of that size are seen to fit.
   */
  lemma HeapLength(n: nat)
    requires 0 < n < SIZES
    ensures (forall ops :: LegalRun(ops) && Uniform(ops, n) ==> Top(Run(ops).h) == Peak(ops) * (n + HEADER))
            <==> ReusableSize(n)
  {
    hide LegalRun, Run, Uniform, Peak, Top, ReusableSize;
    if ReusableSize(n) {
      forall ops | LegalRun(ops) && Uniform(ops, n) ensures Top(Run(ops).h) == Peak(ops) * (n + HEADER) {
        PeakLength(ops, n);
      }
    } else {
      var ops := [Malloc(n, true), Free(Some(0)), Malloc(n, true)];
      NotReused(n);
      assert 2 * (n + HEADER) != 1 * (n + HEADER);
      assert !(LegalRun(ops) && Uniform(ops, n) ==> Top(Run(ops).h) == Peak(ops) * (n + HEADER));
    }
  }

  lemma PeakLength(ops: seq<Op>, n: nat)
    requires LegalRun(ops) && Uniform(ops, n) && 0 < n < SIZES && ReusableSize(n)
    ensures Top(Run(ops).h) == Peak(ops) * (n + HEADER)
  {
    hide ReusableSize;
    ChunksArePeak(ops, n);
    UniformChunks(ops, n);
    UniformBase(Run(ops).h.chunks, n, |Run(ops).h.chunks|);
  }

  /** At any other size a chunk that is freed and asked for again is not found. */
  lemma NotReused(n: nat)
    requires 0 < n < SIZES && !ReusableSize(n)
    ensures var ops := [Malloc(n, true), Free(Some(0)), Malloc(n, true)];
            LegalRun(ops) && Uniform(ops, n) && Peak(ops) == 1 && Top(Run(ops).h) == 2 * (n + HEADER)
  {
    hide ReusableSize, Recorded;
    var o1, o2 := [Malloc(n, true)], [Malloc(n, true), Free(Some(0))];
    var ops := [Malloc(n, true), Free(Some(0)), Malloc(n, true)];
    assert ops[..2] == o2 && o1[..0] == [];
    OneFreed(n);
    ReusableRecorded(n);
    assert Run(ops) == World(Heap([n, n], [0]), {1});
    UniformBase([n, n], n, 2);
    assert Peak([]) == 0 && Peak(o1) == 1 && Peak(o2) == 1;
  }

  // ---------------------------------------------------------------- links by chunk number

  lemma WithoutAt(f: seq<nat>, k: nat, i: nat)
    requires k < |f| && i < |f| - 1
    ensures var g, o := Without(f, k), if i < k then i else i + 1;
            |g| == |f| - 1 && g[i] == f[o] && At(g, i + 1) == At(f, if o + 1 == k then k + 1 else o + 1)
  {
  }

  lemma Distinct(h: Heap, i: nat, j: nat)
    requires WellFormed(h) && i < |h.flist| && j < |h.flist| && i != j
    ensures h.flist[i] != h.flist[j]
  {
  }

  /** The link of the `i`-th chunk that stays on the list. */
  lemma UnlinkedNext(h: Heap, next: seq<Option<nat>>, first: Option<nat>, k: nat, next': seq<Option<nat>>, i: nat)
    requires WellFormed(h) && ListOf(next, first, h.flist) && k < |h.flist| && i < |h.flist| - 1
    requires h.flist[k] < |next| && (k > 0 ==> h.flist[k - 1] < |next|)
    requires next' == if k == 0 then next else next[h.flist[k - 1] := next[h.flist[k]]]
    ensures var g := Without(h.flist, k);
            |g| == |h.flist| - 1 && g[i] < |next'| && next'[g[i]] == At(g, i + 1)
  {
    hide WellFormed, Without, ListOf;
    var f := h.flist;
    WithoutAt(f, k, i);
    var o := if i < k then i else i + 1;
    ListAt(next, first, f, o);
    ListAt(next, first, f, k);
    if k > 0 && o != k - 1 { Distinct(h, o, k - 1); }
  }

  /** The stores that take chunk `f[k]` off the list. */
  lemma UnlinkList(h: Heap, next: seq<Option<nat>>, first: Option<nat>, k: nat)
    requires WellFormed(h) && ListOf(next, first, h.flist) && k < |h.flist|
    ensures var f := h.flist;
            && f[k] < |next|
            && if k == 0 then ListOf(next, next[f[0]], Without(f, 0))
               else f[k - 1] < |next| && ListOf(next[f[k - 1] := next[f[k]]], first, Without(f, k))
  {
    hide WellFormed, Without;
    var f, g := h.flist, Without(h.flist, k);
    ListAt(next, first, f, k);
    if k > 0 { ListAt(next, first, f, k - 1); }
    var next' := if k == 0 then next else next[f[k - 1] := next[f[k]]];
    if |f| > 1 { WithoutAt(f, k, 0); } else { assert Without(f, k) == [] by { WithoutLength(f, k); } }
    assert |g| == |f| - 1 by { WithoutLength(f, k); }
    forall i | 0 <= i < |g| ensures g[i] < |next'| && next'[g[i]] == At(g, i + 1) {
      UnlinkedNext(h, next, first, k, next', i);
    }
  }

  lemma WithoutLength(f: seq<nat>, k: nat)
    requires k < |f|
    ensures |Without(f, k)| == |f| - 1
  {
  }

  /** The stores that put chunk `c` on the list. */
  lemma PushList(h: Heap, next: seq<Option<nat>>, first: Option<nat>, c: nat)
    requires WellFormed(h) && ListOf(next, first, h.flist) && c < |next| && c < |h.chunks| && c !in h.flist
    ensures WellFormed(FreeSpec(h, c)) && ListOf(next[c := first], Some(c), [c] + h.flist)
  {
  }

  lemma GrowList(h: Heap, next: seq<Option<nat>>, first: Option<nat>, n: nat)
    requires WellFormed(h) && ListOf(next, first, h.flist)
    ensures WellFormed(h.(chunks := h.chunks + [n])) && ListOf(next + [None], first, h.flist)
  {
  }

  lemma {:induction false} BasePrefix(chunks: seq<nat>, n: nat, k: nat)
    requires k <= |chunks|
    ensures Base(chunks + [n], k) == Base(chunks, k)
  {
    if k > 0 { BasePrefix(chunks, n, k - 1); }
  }

  lemma BaseExtends(chunks: seq<nat>, n: nat)
    ensures forall k :: 0 <= k <= |chunks| ==> Base(chunks + [n], k) == Base(chunks, k)
    ensures Base(chunks + [n], |chunks| + 1) == Base(chunks, |chunks|) + HEADER + n
  {
    forall k | 0 <= k <= |chunks| ensures Base(chunks + [n], k) == Base(chunks, k) { BasePrefix(chunks, n, k); }
  }

  // ---------------------------------------------------------------- the allocator in memory

  /** `struct chunk`, with the address it lies at. */
  class Chunk {
    const base: nat
    var size: int
    var next: Chunk?

    constructor (base: nat, size: int)
      ensures this.base == base && this.size == size && next == null
    {
      this.base, this.size, next := base, size, null;
    }
  }

  class Allocator {
    var flist: Chunk?
    /** The address at which `sbrk` extends the heap. */
    var brk: nat
    ghost var chunks: seq<Chunk>
    ghost var h: Heap
    /** The links, as chunk numbers. */
    ghost var first: Option<nat>
    ghost var next: seq<Option<nat>>

    ghost predicate InRange(c: Option<nat>)
      reads `chunks
    {
      c.Some? ==> c.value < |chunks|
    }

    ghost function Ref(c: Option<nat>): Chunk?
      reads `chunks
    {
      if c.Some? && c.value < |chunks| then chunks[c.value] else null
    }

    /** Every chunk has its address and its recorded size. */
    ghost predicate Laid()
      reads `chunks, `h, `brk, chunks`size
    {
      && |chunks| == |h.chunks| && brk == Top(h)
      && forall c :: 0 <= c < |chunks| ==> chunks[c].base == Base(h.chunks, c) && chunks[c].size == ToInt(h.chunks[c])
    }

    ghost predicate Pointers()
      reads `chunks, `flist, `first, `next, chunks`next
    {
      && |next| == |chunks| && InRange(first) && flist == Ref(first)
      && (forall i, j :: 0 <= i < j < |chunks| ==> chunks[i] != chunks[j])
      && forall c :: 0 <= c < |chunks| ==> InRange(next[c]) && chunks[c].next == Ref(next[c])
    }

    ghost predicate Valid()
      reads this, chunks
    {
      WellFormed(h) && Laid() && Pointers() && ListOf(next, first, h.flist)
    }

    constructor ()
      ensures Valid() && h == Heap([], []) && chunks == []
    {
      flist, brk, chunks, h, first, next := null, 0, [], Heap([], []), None, [];
    }

    /** The store `chunk->next = to`. */
    method SetNext(chunk: Chunk, to: Chunk?, ghost c: nat, ghost d: Option<nat>)
      requires Pointers() && c < |chunks| && chunks[c] == chunk && InRange(d) && to == Ref(d)
      modifies `next, chunk`next
      ensures Pointers() && next == old(next)[c := d]
    {
      chunk.next := to;
      next := next[c := d];
    }

    lemma FieldsOf(c: nat)
      requires Laid() && Pointers() && c < |chunks|
      ensures |chunks| == |h.chunks| == |next| && chunks[c].base == Base(h.chunks, c)
      ensures chunks[c].size == ToInt(h.chunks[c]) && chunks[c].next == Ref(next[c]) && InRange(next[c])
    {
    }

    lemma Ends()
      requires Laid() && Pointers()
      ensures |chunks| == |h.chunks| && brk == Top(h) && flist == Ref(first) && InRange(first)
    {
    }

    /** `malloc`; the pointer returned is one header past the chunk `got`. */
    method Malloc(size: nat, grows: bool) returns (memory: Option<nat>, got: Chunk?, ghost c: Option<nat>)
      requires Valid()
      modifies this, chunks`next
      ensures Valid() && (h, c) == MallocSpec(old(h), size, grows)
      ensures c.Some? ==> c.value < |h.chunks| && memory == Some(Base(h.chunks, c.value) + HEADER)
      ensures c.None? ==> memory == None
      ensures InRange(c) && got == Ref(c)
      ensures chunks == old(chunks) || (got != null && fresh(got) && chunks == old(chunks) + [got])
    {
      hide ToInt, Base, WellFormed, ListOf, Laid, Pointers, Without;
      if size == 0 {
        return None, null, None;
      }
      var chunk, prev := flist, null;
      ghost var k := 0;
      ListHead(next, first, h.flist);
      Ends();
      while chunk != null && ToSize(chunk.size) < size
        invariant k <= |h.flist| && chunk == Ref(At(h.flist, k)) && InRange(At(h.flist, k))
        invariant if k == 0 then prev == null else prev == Ref(At(h.flist, k - 1)) && prev != null
        invariant FirstFit(h, 0, size) == FirstFit(h, k, size)
        modifies {}
        decreases |h.flist| - k
      {
        ListAt(next, first, h.flist, k);
        FieldsOf(h.flist[k]);
        prev := chunk;
        chunk := chunk.next;
        k := k + 1;
      }
      if chunk != null {
        FieldsOf(h.flist[k]);
        c := Some(h.flist[k]);
        memory, got := Some(chunk.base + HEADER), chunk;
        Unlink(prev, chunk, k);
      } else if grows {
        memory := Some(brk + HEADER);
        c := Some(|h.chunks|);
        got := Grow(size);
      } else {
        memory, got, c := None, null, None;
      }
    }

    /** The stores that take a chunk off the list. */
    method Unlink(prev: Chunk?, chunk: Chunk, ghost k: nat)
      requires Valid() && k < |h.flist| && chunk == Ref(At(h.flist, k)) && InRange(At(h.flist, k))
      requires if k == 0 then prev == null else prev == Ref(At(h.flist, k - 1)) && prev != null
      modifies `flist, `h, `first, `next, chunks`next
      ensures Valid() && h == old(h).(flist := Without(old(h).flist, k))
    {
      hide ToInt, Base, WellFormed, ListOf;
      UnlinkList(h, next, first, k);
      WithoutOk(h, k);
      ghost var f := h.flist;
      if prev != null {
        SetNext(prev, chunk.next, f[k - 1], next[f[k]]);
      } else {
        flist := chunk.next;
        first := next[f[0]];
      }
      h := h.(flist := Without(f, k));
    }

    /** The chunk made out of what `sbrk` returns. */
    method Grow(size: nat) returns (cnk: Chunk)
      requires Valid()
      modifies `brk, `chunks, `h, `next
      ensures Valid() && h == old(h).(chunks := old(h).chunks + [size])
      ensures Base(h.chunks, |old(h).chunks|) == old(brk)
      ensures fresh(cnk) && chunks == old(chunks) + [cnk] && |old(chunks)| == |old(h).chunks|
    {
      hide ToInt, Base, WellFormed, ListOf;
      cnk := new Chunk(brk, ToInt(size));
      BaseExtends(h.chunks, size);
      GrowList(h, next, first, size);
      brk := brk + size + HEADER;
      chunks := chunks + [cnk];
      next := next + [None];
      h := h.(chunks := h.chunks + [size]);
    }

    /** `free` of the chunk `cnk`, which is one header before the pointer passed. */
    method Free(cnk: Chunk?, ghost c: nat)
      requires Valid() && (cnk != null ==> c < |chunks| && chunks[c] == cnk && c !in h.flist)
      modifies `flist, `h, `first, `next, chunks`next
      ensures Valid() && h == (if cnk == null then old(h) else FreeSpec(old(h), c)) && chunks == old(chunks)
    {
      hide ToInt, Base, WellFormed, ListOf;
      if cnk != null {
        PushList(h, next, first, c);
        SetNext(cnk, flist, c, first);
        flist := cnk;
        first := Some(c);
        h := FreeSpec(h, c);
      }
    }

    /** One call; `all` are the chunks there are, in address order, and `live` those the client has. */
    method Call(op: Op, all: seq<Chunk>, ghost live: set<nat>) returns (all': seq<Chunk>)
      requires Valid() && all == chunks && Partition(World(h, live)) && Legal(World(h, live), op)
      modifies this, chunks`next
      ensures Valid() && all' == chunks && h == Step(World(old(h), live), op).h
      ensures all <= all' && forall c :: |all| <= c < |all'| ==> fresh(all'[c])
    {
      hide WellFormed, ListOf, Laid, Without, FirstFit;
      all' := all;
      match op {
        case Malloc(n, grows) =>
          var memory, got, c := Malloc(n, grows);
          if got != null && got !in all {
            all' := all + [got];
          }
        case Free(c) =>
          if c.Some? {
            LiveChunk(World(h, live), c.value);
            Sizes();
            Free(all[c.value], c.value);
          }
      }
    }

    lemma Sizes()
      requires Valid()
      ensures |chunks| == |h.chunks|
    {
    }
  }

  /** The calls of a legal run are legal one after the other. */
  lemma {:induction false} LegalPrefix(ops: seq<Op>, i: nat)
    requires LegalRun(ops) && i < |ops|
    ensures LegalRun(ops[..i]) && Legal(Run(ops[..i]), ops[i])
    ensures Run(ops[..i + 1]) == Step(Run(ops[..i]), ops[i])
  {
    var before := ops[..|ops| - 1];
    assert ops[..i + 1][..i] == ops[..i];
    if i < |ops| - 1 {
      LegalPrefix(before, i);
      assert before[..i] == ops[..i] && before[..i + 1] == ops[..i + 1];
    }
  }

  lemma LiveChunk(w: World, c: nat)
    requires Partition(w) && c in w.live
    ensures c < |w.h.chunks| && c !in w.h.flist
  {
  }

  /** Any legal sequence of calls, made on linked chunks, ends in the heap that `Run` computes. */
  method Execute(ops: seq<Op>) returns (allocator: Allocator)
    requires LegalRun(ops)
    ensures fresh(allocator) && allocator.Valid() && allocator.h == Run(ops).h
  {
    hide Allocator.Valid, Partition, Legal, Step;
    allocator := new Allocator();
    var all: seq<Chunk> := [];
    var i := 0;
    assert ops[..0] == [];
    while i < |ops|
      invariant i <= |ops| && fresh(allocator) && forall c :: 0 <= c < |all| ==> fresh(all[c])
      invariant allocator.Valid() && allocator.h == Run(ops[..i]).h && allocator.chunks == all
    {
      LegalPrefix(ops, i);
      RunPartition(ops[..i]);
      ghost var w := Run(ops[..i]);
      assert World(allocator.h, w.live) == w;
      all := allocator.Call(ops[i], all, w.live);
      i := i + 1;
    }
    assert ops[..i] == ops;
  }
}
