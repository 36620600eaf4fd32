/** The list of buffers of kernel/bio.c through prev and next, and what taking one out and putting it first do. */
module BufferList {
  import opened Kernel

  type Links = seq<nat>

  /** The i-th node of the ring: the head, the buffers of l in order, and the head again. */
  function Node(head: nat, l: seq<nat>, i: nat): nat {
    if 0 < i <= |l| then l[i - 1] else head
  }

  /** l is linked into a ring with the head, both ways. */
  ghost predicate Linked(head: nat, l: seq<nat>, next: Links, prev: Links) {
    && |next| == |prev| == head + 1
    && (forall i: nat :: i <= |l| ==> LinkAt(head, l, next, prev, i))
  }

  ghost predicate LinkAt(head: nat, l: seq<nat>, next: Links, prev: Links, i: nat) {
    var a, b := Node(head, l, i), Node(head, l, i + 1);
    a < |next| && b < |prev| && next[a] == b && prev[b] == a
  }

  /** Each buffer is on the list at most once. */
  ghost predicate Distinct(head: nat, l: seq<nat>) {
    && (forall i :: 0 <= i < |l| ==> l[i] < head)
    && (forall i, j :: 0 <= i < j < |l| ==> l[i] != l[j])
  }

  function Without(l: seq<nat>, k: nat): (r: seq<nat>)
    requires k < |l|
    ensures |r| == |l| - 1 && forall i :: 0 <= i < |r| ==> r[i] == if i < k then l[i] else l[i + 1]
  {
    l[..k] + l[k + 1..]
  }

  lemma Different(head: nat, l: seq<nat>, i: nat, j: nat)
    requires Distinct(head, l) && i <= |l| && j <= |l| && i != j
    ensures Node(head, l, i) != Node(head, l, j)
  {
  }

  /** The neighbours of a buffer are linked to each other, and it is out of the ring. */
  lemma Unlink(head: nat, l: seq<nat>, next: Links, prev: Links, k: nat)
    requires Linked(head, l, next, prev) && Distinct(head, l) && k < |l|
    ensures l[k] <= head && next[l[k]] <= head && prev[l[k]] <= head
    ensures Linked(head, Without(l, k), SetAt(next, prev[l[k]], next[l[k]]), SetAt(prev, next[l[k]], prev[l[k]]))
    ensures Distinct(head, Without(l, k))
  {
    assert LinkAt(head, l, next, prev, k) && LinkAt(head, l, next, prev, k + 1);
    var r := Without(l, k);
    var n, p := SetAt(next, prev[l[k]], next[l[k]]), SetAt(prev, next[l[k]], prev[l[k]]);
    forall i: nat | i <= |r|
      ensures LinkAt(head, r, n, p, i)
    {
      var j := if i <= k then i else i + 1;
      assert LinkAt(head, l, next, prev, j);
      if i < k {
        Different(head, l, i, k);
        Different(head, l, i + 1, if k + 2 <= |l| then k + 2 else 0);
      } else if i > k {
        Different(head, l, i + 1, k);
      }
    }
  }

  /** A buffer is linked in between the head and the first of the ring. */
  lemma PushFront(head: nat, l: seq<nat>, next: Links, prev: Links, b: nat)
    requires Linked(head, l, next, prev) && Distinct(head, l) && b < head && b !in l
    ensures next[head] <= head
    ensures Linked(head, [b] + l, SetAt(SetAt(next, b, next[head]), head, b), SetAt(SetAt(prev, b, head), next[head], b))
    ensures Distinct(head, [b] + l)
  {
    assert LinkAt(head, l, next, prev, 0);
    var r := [b] + l;
    var n, p := SetAt(SetAt(next, b, next[head]), head, b), SetAt(SetAt(prev, b, head), next[head], b);
    forall i: nat | i <= |r|
      ensures LinkAt(head, r, n, p, i)
    {
      if i > 1 {
        assert LinkAt(head, l, next, prev, i - 1);
        assert Node(head, r, i) == Node(head, l, i - 1) && Node(head, r, i + 1) == Node(head, l, i);
        Different(head, l, i - 1, 0);
        Different(head, l, if i <= |l| then i else 0, 1);
      }
    }
  }
}
