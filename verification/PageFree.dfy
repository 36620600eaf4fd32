/**
 The part of a page-table tree that freewalk gives back: the tables below a position, once no leaf is
 mapped any more.
 */
module PageFree {
  import opened RiscV
  import opened PageTree

  predicate Below(k: Key, top: Key) {
    top.Root? || k == top || (top.Mid? && k.Low? && k.q / 512 == top.i)
  }

  function Child(top: Key, i: nat): Key {
    match top
    case Root => Mid(i)
    case Mid(j) => Low(j * 512 + i)
    case Low(_) => top
  }

  /** The entry of top from which k hangs, directly or not. */
  function Branch(top: Key, k: Key): nat {
    match k
    case Root => 0
    case Mid(i) => i
    case Low(q) => if top.Root? then q / 512 else q % 512
  }

  /** The positions of a tree: one page each, and every table below one that is there. */
  ghost predicate Skeleton(t: Nodes) {
    && (forall k :: k in t ==> t[k] % PGSIZE == 0)
    && (forall k, l :: k in t && l in t && t[k] == t[l] ==> k == l)
    && (forall i: nat :: Mid(i) in t ==> i < 512)
    && (forall q: nat :: Low(q) in t ==> q < 0x4_0000 && Mid(q / 512) in t)
  }

  /** A table that points at the tables below it and maps no page. */
  ghost predicate Bare(m: Tables, t: Nodes, k: Key)
    requires Skeleton(t) && k in t
  {
    t[k] in m && |m[t[k]]| == 512 &&
    forall i :: 0 <= i < 512 ==> if k.Low? then !IsV(m[t[k]][i]) else Points(m[t[k]][i], t, Child(k, i))
  }

  ghost predicate BareBelow(m: Tables, t: Nodes, top: Key) {
    Skeleton(t) && forall k :: k in t && Below(k, top) ==> Bare(m, t, k)
  }

  /** A tree without mapped pages. */
  lemma EmptyIsBare(m: Tables, t: Nodes)
    requires Tree(m, t) && forall v: nat :: !IsV(Leaf(m, t, v))
    ensures BareBelow(m, t, Root)
  {
    assert TreeParts(true, m, t);
    forall k | k in t
      ensures Bare(m, t, k)
    {
      match k
      case Root =>
      case Mid(j) =>
        forall i | 0 <= i < 512
          ensures Points(m[t[k]][i], t, Child(k, i))
        {
          var q := j * 512 + i;
          assert q / 512 == j && q % 512 == i;
        }
      case Low(q) =>
        forall i | 0 <= i < 512
          ensures !IsV(m[t[k]][i])
        {
          var v := q * 512 + i;
          assert v / 512 == q && v % 512 == i;
          assert !IsV(Leaf(m, t, v));
        }
    }
  }

  /** The pages of the tables below top, top included. */
  ghost function Gone(t: Nodes, top: Key): set<nat> {
    set k | k in t && Below(k, top) :: t[k]
  }

  /** The pages of the tables that hang from the first n entries of top. */
  ghost function GoneTo(t: Nodes, top: Key, n: nat): set<nat> {
    set k | k in t && Below(k, top) && k != top && Branch(top, k) < n :: t[k]
  }

  lemma GoneNone(t: Nodes, top: Key)
    ensures GoneTo(t, top, 0) == {}
  {
  }

  lemma GoneStep(t: Nodes, top: Key, i: nat)
    requires Skeleton(t) && top in t && i < 512
    ensures Child(top, i) in t && !top.Low? ==> GoneTo(t, top, i + 1) == GoneTo(t, top, i) + Gone(t, Child(top, i))
    ensures Child(top, i) !in t || top.Low? ==> GoneTo(t, top, i + 1) == GoneTo(t, top, i)
  {
    forall k | k in t && Below(k, top) && k != top && Branch(top, k) == i
      ensures !top.Low? && Below(k, Child(top, i)) && Child(top, i) in t
    {
    }
    if !top.Low? {
      forall k | k in t && Below(k, Child(top, i))
        ensures Below(k, top) && k != top && Branch(top, k) == i
      {
      }
    }
  }

  lemma GoneAll(t: Nodes, top: Key)
    requires Skeleton(t) && top in t
    ensures Gone(t, top) == GoneTo(t, top, 512) + {t[top]}
  {
    forall k | k in t && Below(k, top) && k != top
      ensures Branch(top, k) < 512
    {
    }
  }

  /** The subtree of entry i is still whole when the earlier ones are gone. */
  lemma ChildIsBare(m: Tables, r: Tables, t: Nodes, top: Key, i: nat)
    requires BareBelow(m, t, top) && top in t && !top.Low? && i < 512 && Child(top, i) in t
    requires forall pa :: pa in m && pa != t[top] && pa !in GoneTo(t, top, i) ==> pa in r && r[pa] == m[pa]
    ensures BareBelow(r, t, Child(top, i)) && t[top] !in Gone(t, Child(top, i))
  {
    var c := Child(top, i);
    forall k | k in t && Below(k, c)
      ensures Bare(r, t, k) && t[k] != t[top]
    {
      assert Below(k, top) && k != top && Branch(top, k) == i;
      assert Bare(m, t, k);
      assert t[k] !in GoneTo(t, top, i);
    }
  }

  /** Freewalk on top has finished with the first i entries. */
  ghost predicate Pruned(m: Tables, r: Tables, t: Nodes, top: Key, i: nat) {
    && BareBelow(m, t, top) && top in t && i <= 512
    && t[top] in r && |r[t[top]]| == 512 && (forall j :: i <= j < 512 ==> r[t[top]][j] == m[t[top]][j])
    && (forall pa :: pa != t[top] ==> (pa in r <==> pa in m && pa !in GoneTo(t, top, i)))
    && (forall pa :: pa != t[top] && pa in r ==> r[pa] == m[pa])
  }

  /** A valid entry is a pointer to a table, and the subtree below it is still whole. */
  lemma PrunedChild(m: Tables, r: Tables, t: Nodes, top: Key, i: nat)
    requires Pruned(m, r, t, top, i) && i < 512 && IsV(r[t[top]][i])
    ensures !top.Low? && Child(top, i) in t && PTE2PA(r[t[top]][i]) == t[Child(top, i)]
    ensures !IsR(r[t[top]][i]) && !IsW(r[t[top]][i]) && !IsX(r[t[top]][i])
    ensures BareBelow(r, t, Child(top, i)) && t[top] !in Gone(t, Child(top, i))
  {
    assert Bare(m, t, top);
    ChildIsBare(m, r, t, top, i);
  }

  lemma PrunedStep(m: Tables, r: Tables, s: Tables, t: Nodes, top: Key, i: nat)
    requires Pruned(m, r, t, top, i) && i < 512 && !top.Low? && Child(top, i) in t
    requires t[top] !in Gone(t, Child(top, i))
    requires s == (r - Gone(t, Child(top, i)))[t[top] := SetEntry(r[t[top]], i, 0)]
    ensures Pruned(m, s, t, top, i + 1)
  {
    GoneStep(t, top, i);
  }
}
