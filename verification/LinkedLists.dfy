/** Linked lists whose nodes are named by number: the `next` field of each node, and where a list starts. */
module LinkedLists {
  import opened Options

  /** The node at position `i` of a list, if there is one. */
  function At(q: seq<nat>, i: int): Option<nat> {
    if 0 <= i < |q| then Some(q[i]) else None
  }

  /** The links from `first` go through the nodes of `q` in order and end in NULL. */
  ghost predicate ListOf(next: seq<Option<nat>>, first: Option<nat>, q: seq<nat>) {
    && first == At(q, 0)
    && forall i :: 0 <= i < |q| ==> q[i] < |next| && next[q[i]] == At(q, i + 1)
  }

  lemma ListAt(next: seq<Option<nat>>, first: Option<nat>, q: seq<nat>, i: nat)
    requires ListOf(next, first, q) && i < |q|
    ensures q[i] < |next| && next[q[i]] == At(q, i + 1)
  {
  }

  lemma ListHead(next: seq<Option<nat>>, first: Option<nat>, q: seq<nat>)
    requires ListOf(next, first, q)
    ensures first == At(q, 0)
  {
  }

  // ---------------------------------------------------------------- order

  /** An entry `c` comes before an entry `d`. */
  ghost predicate Before(q: seq<nat>, c: nat, d: nat) {
    exists i, j :: 0 <= i < j < |q| && q[i] == c && q[j] == d
  }

  /** Taking out one entry leaves the others in order. */
  lemma RemovalOrder(q: seq<nat>, k: nat, c: nat, d: nat)
    requires k < |q| && c != q[k] && d != q[k]
    ensures Before(q[..k] + q[k + 1..], c, d) <==> Before(q, c, d)
  {
    var g := q[..k] + q[k + 1..];
    if Before(g, c, d) {
      var i, j :| 0 <= i < j < |g| && g[i] == c && g[j] == d;
      var i', j' := if i < k then i else i + 1, if j < k then j else j + 1;
      assert q[i'] == c && q[j'] == d;
    }
    if Before(q, c, d) {
      var i, j :| 0 <= i < j < |q| && q[i] == c && q[j] == d;
      var i', j' := if i < k then i else i - 1, if j < k then j else j - 1;
      assert g[i'] == c && g[j'] == d;
    }
  }

  /** So does putting one in front, which then comes before the others. */
  lemma PushOrder(q: seq<nat>, a: nat, c: nat, d: nat)
    ensures c != a && d != a ==> (Before([a] + q, c, d) <==> Before(q, c, d))
    ensures d in q ==> Before([a] + q, a, d)
  {
    var g := [a] + q;
    if c != a && d != a {
      RemovalOrder(g, 0, c, d);
      assert g[..0] + g[1..] == q;
    }
    if d in q {
      var j :| 0 <= j < |q| && q[j] == d;
      assert g[0] == a && g[j + 1] == d;
    }
  }
}
