/** Queues threaded through `next` fields, with threads and list heads named by number. */
module GreenLists {
  import opened LinkedLists
  import opened Options

  /** No thread is at two positions of the queues. */
  ghost predicate Separate(qs: seq<seq<nat>>) {
    forall k, i, l, j ::
      0 <= k < |qs| && 0 <= i < |qs[k]| && 0 <= l < |qs| && 0 <= j < |qs[l]| && qs[k][i] == qs[l][j] ==>
      k == l && i == j
  }

  ghost predicate Unqueued(qs: seq<seq<nat>>, t: nat) {
    forall k :: 0 <= k < |qs| ==> t !in qs[k]
  }

  /** No thread that is in a queue is lost. */
  ghost predicate Kept(qs: seq<seq<nat>>, lost: multiset<nat>) {
    forall k, t :: 0 <= k < |qs| && t in qs[k] ==> t !in lost
  }

  /** A thread neither queued nor lost has a NULL `next`. */
  ghost predicate NullOff(next: seq<Option<nat>>, qs: seq<seq<nat>>, lost: multiset<nat>) {
    forall t :: 0 <= t < |next| && t !in lost && Unqueued(qs, t) ==> next[t] == None
  }

  ghost predicate Linked(next: seq<Option<nat>>, first: seq<Option<nat>>, qs: seq<seq<nat>>) {
    |first| == |qs| && forall k :: 0 <= k < |qs| ==> ListOf(next, first[k], qs[k])
  }

  /** Every queue is linked from its head, and only threads that are queued or lost have a `next`. */
  ghost predicate Chains(next: seq<Option<nat>>, first: seq<Option<nat>>, qs: seq<seq<nat>>, lost: multiset<nat>) {
    Separate(qs) && Kept(qs, lost) && Linked(next, first, qs) && NullOff(next, qs, lost)
  }

  lemma SeparateTail(qs: seq<seq<nat>>, k: nat)
    requires Separate(qs) && k < |qs| && qs[k] != []
    ensures Separate(qs[k := qs[k][1..]])
  {
  }

  lemma SeparatePush(qs: seq<seq<nat>>, k: nat, x: nat)
    requires Separate(qs) && k < |qs| && Unqueued(qs, x)
    ensures Separate(qs[k := qs[k] + [x]])
  {
  }

  /** A thread unqueued after the head of queue `k` has left was unqueued before, or is that head. */
  lemma UnqueuedTail(qs: seq<seq<nat>>, k: nat, t: nat)
    requires k < |qs| && qs[k] != [] && Unqueued(qs[k := qs[k][1..]], t)
    ensures t == qs[k][0] || Unqueued(qs, t)
  {
    var qs' := qs[k := qs[k][1..]];
    if t != qs[k][0] {
      forall l | 0 <= l < |qs| ensures t !in qs[l] {
        assert t !in qs'[l];
        assert l == k ==> qs[k] == [qs[k][0]] + qs'[k];
      }
    }
  }

  lemma HeadLeaves(qs: seq<seq<nat>>, k: nat)
    requires Separate(qs) && k < |qs| && qs[k] != []
    ensures Unqueued(qs[k := qs[k][1..]], qs[k][0])
  {
  }

  lemma LinkedTail(next: seq<Option<nat>>, first: seq<Option<nat>>, qs: seq<seq<nat>>, k: nat)
    requires Separate(qs) && Linked(next, first, qs) && k < |qs| && qs[k] != [] && qs[k][0] < |next|
    ensures var x := qs[k][0]; Linked(next[x := None], first[k := next[x]], qs[k := qs[k][1..]])
  {
    hide Separate;
    var x, q := qs[k][0], qs[k];
    var next', first', qs' := next[x := None], first[k := next[x]], qs[k := q[1..]];
    HeadLeaves(qs, k);
    assert ListOf(next, first[k], q);
    forall l | 0 <= l < |qs'| ensures ListOf(next', first'[l], qs'[l]) {
      assert ListOf(next, first[l], qs[l]);
      assert x !in qs'[l];
    }
  }

  /** The stores of `dequeue`. */
  lemma DequeueChains(next: seq<Option<nat>>, first: seq<Option<nat>>, qs: seq<seq<nat>>, lost: multiset<nat>, k: nat)
    requires Chains(next, first, qs, lost) && k < |qs| && qs[k] != []
    ensures var x := qs[k][0];
            && x < |next| && k < |first| && x !in lost
            && Chains(next[x := None], first[k := next[x]], qs[k := qs[k][1..]], lost)
            && Unqueued(qs[k := qs[k][1..]], x)
  {
    hide Separate, ListOf;
    var x, qs' := qs[k][0], qs[k := qs[k][1..]];
    assert x in qs[k];
    ChainAt(next, first, qs, lost, k, 0);
    SeparateTail(qs, k);
    HeadLeaves(qs, k);
    LinkedTail(next, first, qs, k);
    hide Unqueued, Linked;
    forall t | 0 <= t < |next| && t !in lost && Unqueued(qs', t) ensures next[x := None][t] == None {
      UnqueuedTail(qs, k, t);
    }
  }

  lemma LinkedPush(next: seq<Option<nat>>, first: seq<Option<nat>>, qs: seq<seq<nat>>, k: nat, x: nat)
    requires Separate(qs) && Linked(next, first, qs) && k < |qs| && x < |next| && Unqueued(qs, x) && next[x] == None
    ensures var q := qs[k];
            if q == [] then Linked(next, first[k := Some(x)], qs[k := q + [x]])
            else q[|q| - 1] < |next| && Linked(next[q[|q| - 1] := Some(x)], first, qs[k := q + [x]])
  {
    hide Separate;
    var q, qs' := qs[k], qs[k := qs[k] + [x]];
    assert ListOf(next, first[k], q);
    var next' := if q == [] then next else next[q[|q| - 1] := Some(x)];
    var first' := if q == [] then first[k := Some(x)] else first;
    forall l | 0 <= l < |qs'| ensures ListOf(next', first'[l], qs'[l]) {
      assert ListOf(next, first[l], qs[l]);
      if l != k && q != [] { LastElsewhere(qs, k, l); }
      if l == k && q != [] { LastOnce(qs, k); }
    }
  }

  lemma LastElsewhere(qs: seq<seq<nat>>, k: nat, l: nat)
    requires Separate(qs) && k < |qs| && l < |qs| && k != l && qs[k] != []
    ensures qs[k][|qs[k]| - 1] !in qs[l]
  {
  }

  lemma LastOnce(qs: seq<seq<nat>>, k: nat)
    requires Separate(qs) && k < |qs| && qs[k] != []
    ensures forall i :: 0 <= i < |qs[k]| - 1 ==> qs[k][i] != qs[k][|qs[k]| - 1]
  {
  }

  /** A thread that is not queued after `x` has been pushed was not queued before. */
  lemma UnqueuedPush(qs: seq<seq<nat>>, k: nat, x: nat, t: nat)
    requires k < |qs| && Unqueued(qs[k := qs[k] + [x]], t)
    ensures Unqueued(qs, t) && t != x && (qs[k] != [] ==> t != qs[k][|qs[k]| - 1])
  {
    var qs' := qs[k := qs[k] + [x]];
    forall l | 0 <= l < |qs| ensures t !in qs[l] { assert t !in qs'[l]; }
    assert t !in qs'[k] && x in qs'[k];
  }

  /** The stores of `enqueue`: the last thread, or the head of an empty queue, is linked to `x`. */
  lemma EnqueueChains(next: seq<Option<nat>>, first: seq<Option<nat>>, qs: seq<seq<nat>>, lost: multiset<nat>,
                      k: nat, x: nat)
    requires Chains(next, first, qs, lost) && k < |qs| && x < |next| && x !in lost && Unqueued(qs, x)
    ensures |first| == |qs|
    ensures var q := qs[k];
            if q == [] then Chains(next, first[k := Some(x)], qs[k := q + [x]], lost)
            else q[|q| - 1] < |next| && Chains(next[q[|q| - 1] := Some(x)], first, qs[k := q + [x]], lost)
  {
    hide Separate, ListOf;
    var q, qs' := qs[k], qs[k := qs[k] + [x]];
    SeparatePush(qs, k, x);
    LinkedPush(next, first, qs, k, x);
    hide Unqueued, Linked;
    var next' := if q == [] then next else next[q[|q| - 1] := Some(x)];
    forall t | 0 <= t < |next'| && t !in lost && Unqueued(qs', t) ensures next'[t] == None {
      UnqueuedPush(qs, k, x, t);
    }
  }

  /** Clearing the head of a list loses the threads that were on it. */
  lemma DropChains(next: seq<Option<nat>>, first: seq<Option<nat>>, qs: seq<seq<nat>>, lost: multiset<nat>, k: nat)
    requires Chains(next, first, qs, lost) && k < |qs|
    ensures |first| == |qs| && Chains(next, first[k := None], qs[k := []], lost + multiset(qs[k]))
  {
    hide ListOf;
    var first', qs', lost' := first[k := None], qs[k := []], lost + multiset(qs[k]);
    assert ListOf(next, None, []) by { EmptyList(next); }
    forall l | 0 <= l < |qs'| ensures ListOf(next, first'[l], qs'[l]) { assert ListOf(next, first[l], qs[l]); }
    DropKept(qs, lost, k);
    hide Separate, Kept, Linked;
    forall t | 0 <= t < |next| && t !in lost' && Unqueued(qs', t) ensures next[t] == None {
      forall l | 0 <= l < |qs| ensures t !in qs[l] { assert l != k ==> t !in qs'[l]; }
    }
  }

  lemma EmptyList(next: seq<Option<nat>>)
    ensures ListOf(next, None, [])
  {
  }

  lemma DropKept(qs: seq<seq<nat>>, lost: multiset<nat>, k: nat)
    requires Separate(qs) && Kept(qs, lost) && k < |qs|
    ensures Separate(qs[k := []]) && Kept(qs[k := []], lost + multiset(qs[k]))
  {
    var qs' := qs[k := []];
    forall l, t | 0 <= l < |qs'| && t in qs'[l] ensures t !in lost + multiset(qs[k]) {
      assert t in qs[l] && l != k && t !in qs[k];
    }
  }

  /** A thread in queue `k` at position `i` is followed by the next one of that queue. */
  lemma ChainAt(next: seq<Option<nat>>, first: seq<Option<nat>>, qs: seq<seq<nat>>, lost: multiset<nat>, k: nat, i: nat)
    requires Chains(next, first, qs, lost) && k < |qs| && i < |qs[k]|
    ensures qs[k][i] < |next| && next[qs[k][i]] == At(qs[k], i + 1)
    ensures k < |first| && first[k] == At(qs[k], 0)
  {
    assert ListOf(next, first[k], qs[k]);
  }

  lemma HeadAt(next: seq<Option<nat>>, first: seq<Option<nat>>, qs: seq<seq<nat>>, lost: multiset<nat>, k: nat)
    requires Chains(next, first, qs, lost) && k < |qs|
    ensures k < |first| && first[k] == At(qs[k], 0)
  {
    assert ListOf(next, first[k], qs[k]);
  }

  /** A new thread is in no queue. */
  lemma NewChains(next: seq<Option<nat>>, first: seq<Option<nat>>, qs: seq<seq<nat>>, lost: multiset<nat>)
    requires Chains(next, first, qs, lost)
    ensures Chains(next + [None], first, qs, lost) && Unqueued(qs, |next|)
  {
    forall k | 0 <= k < |qs| ensures ListOf(next + [None], first[k], qs[k]) && |next| !in qs[k] {
      assert ListOf(next, first[k], qs[k]);
    }
  }
}
