/** Ordering playable nodes left to right. The source sorts
    `{node, absoluteX}` pairs with `Array.prototype.sort` and the comparator
    `a.absoluteX - b.absoluteX`; that sort is stable, so nodes at the same
    absolute X keep their list order. The sort is modelled as a stable
    insertion sort and proved sorted, a permutation, and stable. */
module TimelineSort {
  import opened StoryTypes
  import Seqs

  datatype Placed = Placed(node: CanvasNode, absoluteX: real)

  predicate SortedByX(s: seq<Placed>)
  {
    forall i, j :: 0 <= i < j < |s| ==> s[i].absoluteX <= s[j].absoluteX
  }

  /** Places `p` before the first element that is not to its left. */
  function Insert(p: Placed, s: seq<Placed>): (r: seq<Placed>)
    ensures multiset(r) == multiset(s) + multiset{p}
    ensures |r| == |s| + 1
  {
    if s == [] || p.absoluteX <= s[0].absoluteX then [p] + s
    else
      assert s == [s[0]] + s[1..];
      [s[0]] + Insert(p, s[1..])
  }

  /** Every element of `Insert(p, s)` lies at or right of `x` when `p` and all of `s` do. */
  lemma {:induction false} InsertBounded(p: Placed, s: seq<Placed>, x: real)
    requires x <= p.absoluteX && forall i :: 0 <= i < |s| ==> x <= s[i].absoluteX
    ensures forall i :: 0 <= i < |Insert(p, s)| ==> x <= Insert(p, s)[i].absoluteX
  {
    if !(s == [] || p.absoluteX <= s[0].absoluteX) {
      InsertBounded(p, s[1..], x);
    }
  }

  lemma {:induction false} InsertSorted(p: Placed, s: seq<Placed>)
    requires SortedByX(s)
    ensures SortedByX(Insert(p, s))
  {
    if !(s == [] || p.absoluteX <= s[0].absoluteX) {
      InsertSorted(p, s[1..]);
      InsertBounded(p, s[1..], s[0].absoluteX);
    }
  }

  /** The nodes of `s` in ascending absolute X; ties keep their input order. */
  function SortByX(s: seq<Placed>): (r: seq<Placed>)
    ensures SortedByX(r)
    ensures multiset(r) == multiset(s)
    ensures |r| == |s|
  {
    if s == [] then []
    else
      assert s == [s[0]] + s[1..];
      InsertSorted(s[0], SortByX(s[1..]));
      Insert(s[0], SortByX(s[1..]))
  }

  /** Selects the nodes placed at absolute X `x`. */
  function AtX(x: real): Placed -> bool
  {
    (p: Placed) => p.absoluteX == x
  }

  lemma {:induction false} InsertKeepsTies(p: Placed, s: seq<Placed>, x: real)
    requires SortedByX(s)
    ensures Seqs.Filter(Insert(p, s), AtX(x)) ==
              (if p.absoluteX == x then [p] else []) + Seqs.Filter(s, AtX(x))
  {
    if s == [] || p.absoluteX <= s[0].absoluteX {
      assert ([p] + s)[1..] == s;
    } else {
      InsertKeepsTies(p, s[1..], x);
      var r := [s[0]] + Insert(p, s[1..]);
      assert r[1..] == Insert(p, s[1..]);
    }
  }

  /** Stability: the nodes at any one absolute X come out in the order they went in. */
  lemma {:induction false} SortIsStable(s: seq<Placed>, x: real)
    ensures Seqs.Filter(SortByX(s), AtX(x)) == Seqs.Filter(s, AtX(x))
  {
    if s != [] {
      SortIsStable(s[1..], x);
      InsertKeepsTies(s[0], SortByX(s[1..]), x);
    }
  }
}
