/** The compile-time instance graph as far as the range arithmetic needs it:
    every reactor, port or reaction instance (NamedInstance) has a width, a parent
    and a depth. The graph is an arena: a parent is an index into the same sequence. */
module InstanceGraph {
  import opened Seqs
  import opened MixedRadix

  /** One node: its bank or multiport width (1 if neither), its parent's index and its
      depth (0 for the top-level reactor, whose parent field is meaningless). */
  datatype Node = Node(width: int, parent: nat, depth: nat)

  type Arena = seq<Node>

  /** Widths are at least 1, and every node below the top level has a parent one level up. */
  ghost predicate WellFormed(a: Arena)
  {
    forall i {:trigger a[i].width} {:trigger a[i].parent} :: 0 <= i < |a| ==>
      a[i].width >= 1 && (a[i].depth > 0 ==> a[i].parent < |a| && a[a[i].parent].depth == a[i].depth - 1)
  }

  /** A node that has a parent, as every port, reaction and contained reactor does. */
  ghost predicate IsInstance(a: Arena, i: nat)
  {
    i < |a| && a[i].depth >= 1
  }

  /** p and its ancestors, deepest first, stopping before the top-level reactor. */
  function Ancestors(a: Arena, p: nat): (s: seq<nat>)
    requires WellFormed(a) && p < |a|
    ensures |s| == a[p].depth
    ensures forall j :: 0 <= j < |s| ==> s[j] < |a| && a[s[j]].depth == a[p].depth - j
    decreases a[p].depth
  {
    if a[p].depth == 0 then [] else [p] + Ancestors(a, a[p].parent)
  }

  /** The instance followed by its ancestors below the top level: the hierarchy ("natural") order. */
  function Chain(a: Arena, i: nat): (s: seq<nat>)
    requires WellFormed(a) && IsInstance(a, i)
    ensures |s| == a[i].depth && s[0] == i
    ensures forall j :: 0 <= j < |s| ==> s[j] < |a| && a[s[j]].depth == a[i].depth - j
  {
    [i] + Ancestors(a, a[i].parent)
  }

  function Widths(a: Arena, ids: seq<nat>): (ws: seq<int>)
    requires forall k :: 0 <= k < |ids| ==> ids[k] < |a|
    ensures |ws| == |ids|
    ensures WellFormed(a) ==> IsRadixes(ws)
  {
    seq(|ids|, k requires 0 <= k < |ids| => a[ids[k]].width)
  }

  /** The instance's width times the widths of all its ancestors below the top level. */
  function MaxWidth(a: Arena, i: nat): (m: int)
    requires WellFormed(a) && IsInstance(a, i)
    ensures m >= 1
  {
    Prod(Widths(a, Chain(a, i)))
  }

  lemma WidthsConcat(a: Arena, x: seq<nat>, y: seq<nat>)
    requires forall k :: 0 <= k < |x| ==> x[k] < |a|
    requires forall k :: 0 <= k < |y| ==> y[k] < |a|
    ensures Widths(a, x + y) == Widths(a, x) + Widths(a, y)
  {
  }

  /** The chain holds each node at the position given by its depth, so it has no duplicates. */
  lemma ChainByDepth(a: Arena, i: nat)
    requires WellFormed(a) && IsInstance(a, i)
    ensures Distinct(Chain(a, i))
    ensures forall x :: x in Chain(a, i) ==>
      x < |a| && 1 <= a[x].depth <= a[i].depth && Chain(a, i)[a[i].depth - a[x].depth] == x
  {
  }

  /** One step up the parent chain in the product of widths. */
  lemma AncestorsProd(a: Arena, p: nat)
    requires WellFormed(a) && p < |a| && a[p].depth > 0
    ensures Prod(Widths(a, Ancestors(a, p))) == a[p].width * Prod(Widths(a, Ancestors(a, a[p].parent)))
  {
    assert Widths(a, Ancestors(a, p))[1..] == Widths(a, Ancestors(a, a[p].parent));
  }

  lemma MaxWidthProd(a: Arena, i: nat)
    requires WellFormed(a) && IsInstance(a, i)
    ensures MaxWidth(a, i) == a[i].width * Prod(Widths(a, Ancestors(a, a[i].parent)))
  {
    assert Widths(a, Chain(a, i))[1..] == Widths(a, Ancestors(a, a[i].parent));
  }

  /** Appending one node multiplies the product of widths by its width. */
  lemma ProdWidthsSnoc(a: Arena, s: seq<nat>, x: nat)
    requires forall k :: 0 <= k < |s| ==> s[k] < |a|
    requires x < |a|
    ensures Prod(Widths(a, s + [x])) == Prod(Widths(a, s)) * a[x].width
  {
    assert Widths(a, s + [x]) == Widths(a, s) + [a[x].width];
    ProdConcat(Widths(a, s), [a[x].width]);
  }

  /** Prepending one node multiplies the product of widths by its width. */
  lemma ProdWidthsCons(a: Arena, x: nat, s: seq<nat>)
    requires forall k :: 0 <= k < |s| ==> s[k] < |a|
    requires x < |a|
    ensures Prod(Widths(a, [x] + s)) == a[x].width * Prod(Widths(a, s))
  {
    assert Widths(a, [x] + s)[1..] == Widths(a, s);
  }

  lemma {:induction false} ReverseInArena(a: Arena, s: seq<nat>)
    requires forall k :: 0 <= k < |s| ==> s[k] < |a|
    ensures forall k :: 0 <= k < |Reverse<nat>(s)| ==> Reverse<nat>(s)[k] < |a|
  {
    forall k | 0 <= k < |Reverse<nat>(s)| ensures Reverse<nat>(s)[k] < |a| {
      ReverseAt(s, k);
    }
  }

  lemma {:induction false} ProdWidthsReverse(a: Arena, s: seq<nat>)
    requires forall k :: 0 <= k < |s| ==> s[k] < |a|
    ensures forall k :: 0 <= k < |Reverse<nat>(s)| ==> Reverse<nat>(s)[k] < |a|
    ensures Prod(Widths(a, Reverse<nat>(s))) == Prod(Widths(a, s))
  {
    ReverseInArena(a, s);
    if s != [] {
      var init, x := s[..|s| - 1], s[|s| - 1];
      ProdWidthsReverse(a, init);
      assert Reverse<nat>(s) == [x] + Reverse<nat>(init);
      ProdWidthsCons(a, x, Reverse<nat>(init));
      assert s == init + [x];
      ProdWidthsSnoc(a, init, x);
    }
  }

  lemma FilterInArena(a: Arena, s: seq<nat>, I: set<nat>, keep: bool)
    requires forall k :: 0 <= k < |s| ==> s[k] < |a|
    ensures forall k :: 0 <= k < |Filter<nat>(s, I, keep)| ==> Filter<nat>(s, I, keep)[k] < |a|
  {
    FilterMembers(s, I, keep);
    forall k | 0 <= k < |Filter<nat>(s, I, keep)| ensures Filter<nat>(s, I, keep)[k] < |a| {
      assert Filter<nat>(s, I, keep)[k] in Filter<nat>(s, I, keep);
      var j :| 0 <= j < |s| && s[j] == Filter<nat>(s, I, keep)[k];
    }
  }

  /** Splitting the ancestors by a set splits the product of their widths. */
  lemma {:induction false} ProdWidthsFilter(a: Arena, s: seq<nat>, I: set<nat>)
    requires forall k :: 0 <= k < |s| ==> s[k] < |a|
    ensures forall k :: 0 <= k < |Filter<nat>(s, I, true)| ==> Filter<nat>(s, I, true)[k] < |a|
    ensures forall k :: 0 <= k < |Filter<nat>(s, I, false)| ==> Filter<nat>(s, I, false)[k] < |a|
    ensures Prod(Widths(a, s)) == Prod(Widths(a, Filter<nat>(s, I, true))) * Prod(Widths(a, Filter<nat>(s, I, false)))
  {
    FilterInArena(a, s, I, true);
    FilterInArena(a, s, I, false);
    if s != [] {
      var init, x := s[..|s| - 1], s[|s| - 1];
      ProdWidthsFilter(a, init, I);
      var ft, ff := Filter<nat>(init, I, true), Filter<nat>(init, I, false);
      var pt, pf := Prod(Widths(a, ft)), Prod(Widths(a, ff));
      assert s == init + [x];
      ProdWidthsSnoc(a, init, x);
      var w := a[x].width;
      if x in I {
        assert Filter<nat>(s, I, true) == ft + [x];
        assert Filter<nat>(s, I, false) == ff;
        ProdWidthsSnoc(a, ft, x);
        MulAssoc(pt, pf, w);
        MulAssoc(pt, w, pf);
        assert pf * w == w * pf;
      } else {
        assert Filter<nat>(s, I, true) == ft;
        assert Filter<nat>(s, I, false) == ff + [x];
        ProdWidthsSnoc(a, ff, x);
        MulAssoc(pt, pf, w);
      }
    }
  }

  /** The ancestor n levels up has, as its own chain, the rest of the chain from n. */
  lemma {:induction false} ChainSuffix(a: Arena, i: nat, n: nat)
    requires WellFormed(a) && IsInstance(a, i) && n < a[i].depth
    ensures IsInstance(a, Chain(a, i)[n])
    ensures Chain(a, Chain(a, i)[n]) == Chain(a, i)[n..]
    decreases n
  {
    if n > 0 {
      var p := a[i].parent;
      assert Chain(a, i)[1..] == Ancestors(a, p) == Chain(a, p);
      ChainSuffix(a, p, n - 1);
      assert Chain(a, i)[n..] == Chain(a, p)[n - 1..];
    }
  }
}
