/**
 swapping-assignment/bench.c: a page table with a limited number of frames, and eviction
 of an arbitrary present page. (The source never assigns `evict`; that its random choice
 is meant to select a present page is clear from the loop it stands in.)
 */
module Swapping {
  import opened Sets

  ghost function Present(table: seq<bool>): set<nat> {
    set p: nat | p < |table| && table[p]
  }

  ghost function Pages(refs: seq<nat>): set<nat> {
    set r | r in refs
  }

  lemma PagesAppend(refs: seq<nat>, i: nat)
    requires i < |refs|
    ensures Pages(refs[..i + 1]) == Pages(refs[..i]) + {refs[i]}
  {
  }

  /** Setting one entry of the table. */
  lemma SetEntry(table: seq<bool>, p: nat, present: bool)
    requires p < |table|
    ensures Present(table[p := present]) == if present then Present(table) + {p} else Present(table) - {p}
  {
  }

  /** `clear_page_table`. */
  method ClearPageTable(table: array<bool>, pages: nat)
    requires pages <= table.Length
    modifies table
    ensures forall p :: 0 <= p < pages ==> !table[p]
    ensures forall p :: pages <= p < table.Length ==> table[p] == old(table[p])
  {
    for i := 0 to pages
      invariant forall p :: 0 <= p < i ==> !table[p]
      invariant forall p :: i <= p < table.Length ==> table[p] == old(table[p])
    {
      table[i] := false;
    }
  }

  /** The state of `simulate` after its first `i` references. */
  ghost predicate After(refs: seq<nat>, i: nat, table: seq<bool>, hits: nat, inUse: nat, frames: nat)
    requires i <= |refs|
  {
    && hits + |Pages(refs[..i])| <= i
    && Present(table) <= Pages(refs[..i])
    && |Present(table)| == inUse == (if i - hits < frames then i - hits else frames)
    && (frames >= |Pages(refs)| ==> Present(table) == Pages(refs[..i]) && hits + |Pages(refs[..i])| == i)
    && (i > 0 ==> refs[i - 1] in Present(table))
  }

  lemma Hit(refs: seq<nat>, i: nat, table: seq<bool>, hits: nat, inUse: nat, frames: nat)
    requires i < |refs| && refs[i] < |table| && table[refs[i]] && After(refs, i, table, hits, inUse, frames)
    ensures After(refs, i + 1, table, hits + 1, inUse, frames)
  {
    PagesAppend(refs, i);
    assert refs[i] in Present(table);
    assert Pages(refs[..i]) + {refs[i]} == Pages(refs[..i]);
  }

  lemma Fill(refs: seq<nat>, i: nat, table: seq<bool>, hits: nat, inUse: nat, frames: nat)
    requires i < |refs| && refs[i] < |table| && !table[refs[i]] && inUse < frames
    requires After(refs, i, table, hits, inUse, frames)
    ensures After(refs, i + 1, table[refs[i] := true], hits, inUse + 1, frames)
  {
    PagesAppend(refs, i);
    SetEntry(table, refs[i], true);
    assert refs[i] !in Present(table);
  }

  lemma Replace(refs: seq<nat>, i: nat, table: seq<bool>, hits: nat, frames: nat, evict: nat)
    requires i < |refs| && refs[i] < |table| && !table[refs[i]] && evict < |table| && table[evict]
    requires After(refs, i, table, hits, frames, frames)
    ensures After(refs, i + 1, table[evict := false][refs[i] := true], hits, frames, frames)
  {
    PagesAppend(refs, i);
    FramesFull(refs, i, table, frames);
    SetEntry(table, evict, false);
    SetEntry(table[evict := false], refs[i], true);
    assert evict in Present(table) && refs[i] !in Present(table);
  }

  /** A miss with all frames taken means fewer frames than pages. */
  lemma FramesFull(refs: seq<nat>, i: nat, table: seq<bool>, frames: nat)
    requires i < |refs| && |Present(table)| >= frames && refs[i] !in Present(table)
    requires frames >= |Pages(refs)| ==> Present(table) == Pages(refs[..i])
    ensures frames < |Pages(refs)|
  {
    assert forall r :: r in refs[..i] ==> r in refs;
    assert refs[i] in refs;
    SubsetSize(Pages(refs[..i]), Pages(refs));
  }

  // ---------------------------------------------------------------- what happens at each reference

  /** A hit changes nothing; a miss fills a free frame, or takes that of one present page. */
  ghost predicate TableStep(t: seq<bool>, t': seq<bool>, page: nat, frames: nat) {
    && page < |t| == |t'|
    && if t[page] then t' == t
       else if |Present(t)| < frames then t' == t[page := true]
       else exists evict :: 0 <= evict < |t| && t[evict] && t' == t[evict := false][page := true]
  }

  /** The tables before each reference and after the last one. */
  ghost predicate History(refs: seq<nat>, tables: seq<seq<bool>>, frames: nat) {
    |tables| == |refs| + 1 &&
    forall i, j :: 0 <= i && j == i + 1 && j < |tables| ==> TableStep(tables[i], tables[j], refs[i], frames)
  }

  /** How many of the first `n` references are to pages that are present. */
  ghost function HitCount(refs: seq<nat>, tables: seq<seq<bool>>, n: nat): nat
    requires n <= |refs| && n <= |tables|
  {
    if n == 0 then 0
    else HitCount(refs, tables, n - 1) +
         if refs[n - 1] < |tables[n - 1]| && tables[n - 1][refs[n - 1]] then 1 else 0
  }

  /** How many references are to the page of the reference before. */
  function Repeats(refs: seq<nat>, n: nat): nat
    requires n <= |refs|
  {
    if n < 2 then 0 else Repeats(refs, n - 1) + if refs[n - 1] == refs[n - 2] then 1 else 0
  }

  /** Referring to the same page again is a hit, whatever has been evicted. */
  lemma {:induction false} RepeatsHit(refs: seq<nat>, tables: seq<seq<bool>>, frames: nat, n: nat)
    requires History(refs, tables, frames) && n <= |refs|
    ensures Repeats(refs, n) <= HitCount(refs, tables, n)
  {
    if n > 0 { RepeatsHit(refs, tables, frames, n - 1); }
    if n > 1 { assert TableStep(tables[n - 2], tables[n - 2 + 1], refs[n - 2], frames); }
  }

  lemma {:induction false} HitCountExtends(refs: seq<nat>, tables: seq<seq<bool>>, t: seq<bool>, n: nat)
    requires n <= |refs| && n <= |tables|
    ensures HitCount(refs, tables + [t], n) == HitCount(refs, tables, n)
  {
    if n > 0 { HitCountExtends(refs, tables, t, n - 1); }
  }

  lemma HistoryExtends(refs: seq<nat>, i: nat, tables: seq<seq<bool>>, t: seq<bool>, frames: nat)
    requires i < |refs| && History(refs[..i], tables, frames) && TableStep(tables[i], t, refs[i], frames)
    ensures History(refs[..i + 1], tables + [t], frames)
    ensures HitCount(refs, tables + [t], i + 1) == HitCount(refs, tables, i) + if tables[i][refs[i]] then 1 else 0
  {
    assert refs[i] < |tables[i]|;
    hide TableStep;
    var us := tables + [t];
    forall k, j | 0 <= k && j == k + 1 && j < |us| ensures TableStep(us[k], us[j], refs[..i + 1][k], frames) {
      if k < i { assert TableStep(tables[k], tables[j], refs[..i][k], frames); }
    }
    HitCountExtends(refs, tables, t, i);
  }

  /**
   `simulate`: every page misses at least once, whichever pages are evicted; with a frame
   for each page referenced, at most once. The pages left in the table are pages referenced,
   as many as there were misses, up to the number of frames. `tables` tells what happens at
   each reference, and the hits are exactly the references to a page that is present.
   */
  method Simulate(refs: seq<nat>, table: array<bool>, frames: nat) returns (hits: nat, ghost tables: seq<seq<bool>>)
    requires frames > 0 && forall i :: 0 <= i < |refs| ==> refs[i] < table.Length
    requires forall p :: 0 <= p < table.Length ==> !table[p]
    modifies table
    ensures hits <= |refs| - |Pages(refs)|
    ensures frames >= |Pages(refs)| ==> hits == |refs| - |Pages(refs)| && Present(table[..]) == Pages(refs)
    ensures Present(table[..]) <= Pages(refs)
    ensures |Present(table[..])| == if |refs| - hits < frames then |refs| - hits else frames
    ensures refs != [] ==> refs[|refs| - 1] in Present(table[..])
    ensures History(refs, tables, frames) && tables[0] == old(table[..]) && tables[|refs|] == table[..]
    ensures hits == HitCount(refs, tables, |refs|) >= Repeats(refs, |refs|)
  {
    hits, tables := 0, [table[..]];
    var inUse := 0;
    assert Present(table[..]) == {} && refs[..0] == [];
    for i := 0 to |refs|
      invariant After(refs, i, table[..], hits, inUse, frames)
      invariant History(refs[..i], tables, frames) && tables[0] == old(table[..]) && tables[i] == table[..]
      invariant hits == HitCount(refs, tables, i)
    {
      FramesUsed(refs, i, table[..], hits, inUse, frames);
      hide After, History, HitCount;
      var next := refs[i];
      ghost var t := table[..];
      if table[next] {
        Hit(refs, i, t, hits, inUse, frames);
        hits := hits + 1;
      } else if inUse < frames {
        Fill(refs, i, t, hits, inUse, frames);
        inUse := inUse + 1;
        table[next] := true;
        assert table[..] == t[next := true];
      } else {
        SomePresent(refs, i, t, hits, inUse, frames);
        var evict :| 0 <= evict < table.Length && table[evict];
        Replace(refs, i, t, hits, frames, evict);
        table[evict] := false;
        table[next] := true;
        assert table[..] == t[evict := false][next := true];
      }
      HistoryExtends(refs, i, tables, table[..], frames);
      tables := tables + [table[..]];
    }
    assert refs[..|refs|] == refs;
    RepeatsHit(refs, tables, frames, |refs|);
  }

  lemma FramesUsed(refs: seq<nat>, i: nat, table: seq<bool>, hits: nat, inUse: nat, frames: nat)
    requires i <= |refs| && After(refs, i, table, hits, inUse, frames)
    ensures |Present(table)| == inUse <= frames
  {
  }

  lemma SomePresent(refs: seq<nat>, i: nat, table: seq<bool>, hits: nat, inUse: nat, frames: nat)
    requires i <= |refs| && After(refs, i, table, hits, inUse, frames) && 0 < frames <= inUse
    ensures inUse == frames && exists p :: 0 <= p < |table| && table[p]
  {
  }
}
