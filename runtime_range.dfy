/** RuntimeRange: an immutable interval [start, start + width) of the runtime instances of
    one compile-time node, with the set of ancestors whose iteration is interleaved. */
module RuntimeRanges {
  import opened Wrappers
  import opened Seqs
  import opened MixedRadix
  import opened InstanceGraph

  /** The syntactic connection that established a range; only its identity matters here. */
  datatype Connection = Connection(id: nat)

  datatype Range = Range(instance: nat, start: int, width: int, maxWidth: int,
                         interleaved: set<nat>, connection: Option<Connection>)
  {
    function End(): int { start + width }
  }

  /** A range over an instance of a well-formed graph whose interval lies within [0, maxWidth). */
  ghost predicate Valid(a: Arena, r: Range)
  {
    WellFormed(a) && IsInstance(a, r.instance) && r.maxWidth == MaxWidth(a, r.instance) &&
    0 <= r.start && 1 <= r.width && r.start + r.width <= r.maxWidth
  }

  /** The constructor RuntimeRange(instance, start, width, connection): no interleaving,
      and a width of 0 (or one reaching maxWidth) is replaced by maxWidth - start. */
  function Make(a: Arena, inst: nat, start: int, width: int, conn: Option<Connection>): (r: Range)
    requires WellFormed(a) && IsInstance(a, inst)
    ensures r.instance == inst && r.start == start && r.connection == conn && r.interleaved == {}
    ensures r.maxWidth == MaxWidth(a, inst) && r.start + r.width <= r.maxWidth
    ensures 0 < width && start + width <= r.maxWidth ==> r.width == width
    ensures !(0 < width && start + width <= r.maxWidth) ==> r.start + r.width == r.maxWidth
    ensures 0 <= start < r.maxWidth ==> Valid(a, r)
  {
    var maxWidth := MaxWidth(a, inst);
    Range(inst, start, if width > 0 && width + start < maxWidth then width else maxWidth - start,
          maxWidth, {}, conn)
  }

  /** The constructor with its loop up the parent chain computing maxWidth. */
  method NewRange(a: Arena, inst: nat, start: int, width: int, conn: Option<Connection>) returns (r: Range)
    requires WellFormed(a) && IsInstance(a, inst)
    ensures r == Make(a, inst, start, width, conn)
  {
    var maxWidth := a[inst].width;
    var parent: nat := a[inst].parent;
    MaxWidthProd(a, inst);
    while a[parent].depth > 0
      invariant parent < |a|
      invariant maxWidth * Prod(Widths(a, Ancestors(a, parent))) == MaxWidth(a, inst)
      decreases a[parent].depth
    {
      AncestorsProd(a, parent);
      MulAssoc(maxWidth, a[parent].width, Prod(Widths(a, Ancestors(a, a[parent].parent))));
      maxWidth := maxWidth * a[parent].width;
      parent := a[parent].parent;
    }
    if width > 0 && width + start < maxWidth {
      r := Range(inst, start, width, maxWidth, {}, conn);
    } else {
      r := Range(inst, start, maxWidth - start, maxWidth, {}, conn);
    }
  }

  /** compareTo: lexicographic on (start, width). */
  function CompareTo(x: Range, y: Range): (c: int)
    ensures c == -1 || c == 0 || c == 1
    ensures c == 0 <==> x.start == y.start && x.width == y.width
    ensures c < 0 <==> x.start < y.start || (x.start == y.start && x.width < y.width)
  {
    if x.start < y.start then -1
    else if x.start == y.start then
      (if x.width < y.width then -1 else if x.width == y.width then 0 else 1)
    else 1
  }

  lemma CompareToAntisymmetric(x: Range, y: Range)
    ensures CompareTo(x, y) == -CompareTo(y, x)
  {
  }

  lemma CompareToTransitive(x: Range, y: Range, z: Range)
    requires CompareTo(x, y) <= 0 && CompareTo(y, z) <= 0
    ensures CompareTo(x, z) <= 0
  {
  }

  /** head(n): the first n instances of r, r itself if n >= width, None (null) if n <= 0. */
  function Head(a: Arena, r: Range, n: int): (h: Option<Range>)
    requires Valid(a, r)
    ensures n >= r.width ==> h == Some(r)
    ensures n <= 0 <==> h.None?
    ensures h.Some? ==> Valid(a, h.value) && h.value.instance == r.instance &&
                        h.value.start == r.start && h.value.connection == r.connection
    ensures 0 < n < r.width ==> h.Some? && h.value.width == n && h.value.interleaved == {}
  {
    if n >= r.width then Some(r)
    else if n <= 0 then None
    else Some(Make(a, r.instance, r.start, n, r.connection))
  }

  /** tail(k): the instances of r after the first k, r itself if k == 0, None (null) if k >= width. */
  function Tail(a: Arena, r: Range, k: int): (t: Option<Range>)
    requires Valid(a, r)
    ensures k == 0 ==> t == Some(r)
    ensures k >= r.width <==> t.None?
    ensures t.Some? && k != 0 ==> t.value.start == r.start + k && t.value.width == r.width - k &&
                                  t.value.interleaved == {}
    ensures t.Some? ==> t.value.instance == r.instance && t.value.connection == r.connection &&
                        t.value.End() == r.End() && (0 <= k ==> Valid(a, t.value))
  {
    if k == 0 then Some(r)
    else if k >= r.width then None
    else Some(Make(a, r.instance, r.start + k, r.width - k, r.connection))
  }

  /** toggleInterleaved(reactor): a new range with reactor's interleaving flag flipped. */
  function ToggleInterleaved(a: Arena, r: Range, reactor: nat): (t: Range)
    requires Valid(a, r)
    ensures Valid(a, t)
    ensures t.instance == r.instance && t.start == r.start && t.width == r.width &&
            t.maxWidth == r.maxWidth && t.connection == r.connection
    ensures reactor in t.interleaved <==> reactor !in r.interleaved
    ensures t.interleaved - {reactor} == r.interleaved - {reactor}
  {
    var flipped := if reactor in r.interleaved then r.interleaved - {reactor} else r.interleaved + {reactor};
    Make(a, r.instance, r.start, r.width, r.connection).(interleaved := flipped)
  }

  lemma ToggleInterleavedTwice(a: Arena, r: Range, reactor: nat)
    requires Valid(a, r)
    ensures ToggleInterleaved(a, ToggleInterleaved(a, r, reactor), reactor) == r
  {
    var t := ToggleInterleaved(a, ToggleInterleaved(a, r, reactor), reactor);
    assert t.interleaved == r.interleaved;
  }

  // Iteration order

  /** The order in which the digits of the range's instances vary, fastest first:
      the interleaved ancestors shallowest first, then the instance, then the other
      ancestors deepest first. The top-level reactor is never included. */
  function IterationOrderOf(a: Arena, inst: nat, I: set<nat>): seq<nat>
    requires WellFormed(a) && IsInstance(a, inst)
  {
    var ancestors := Ancestors(a, a[inst].parent);
    Reverse(Filter(ancestors, I, true)) + [inst] + Filter(ancestors, I, false)
  }

  /** iterationOrder(): the parent chain walked upward, an interleaved parent put at the
      head of the list, any other appended. */
  method IterationOrder(a: Arena, r: Range) returns (order: seq<nat>)
    requires WellFormed(a) && IsInstance(a, r.instance)
    ensures order == IterationOrderOf(a, r.instance, r.interleaved)
  {
    order := [r.instance];
    var parent: nat := a[r.instance].parent;
    ghost var ancestors := Ancestors(a, parent);
    ghost var k := 0;
    while a[parent].depth > 0
      invariant parent < |a| && k <= |ancestors| && Ancestors(a, parent) == ancestors[k..]
      invariant order == Reverse(Filter(ancestors[..k], r.interleaved, true)) + [r.instance] +
                         Filter(ancestors[..k], r.interleaved, false)
      decreases a[parent].depth
    {
      assert ancestors[k] == parent && Ancestors(a, a[parent].parent) == ancestors[k + 1..];
      IterationOrderStep(ancestors, k, r.instance, r.interleaved, order);
      if parent in r.interleaved {
        order := [parent] + order;
      } else {
        order := order + [parent];
      }
      parent := a[parent].parent;
      k := k + 1;
    }
    assert ancestors[..k] == ancestors;
  }

  lemma IterationOrderStep(ancestors: seq<nat>, k: nat, inst: nat, I: set<nat>, order: seq<nat>)
    requires k < |ancestors|
    requires order == Reverse(Filter(ancestors[..k], I, true)) + [inst] + Filter(ancestors[..k], I, false)
    ensures (if ancestors[k] in I then [ancestors[k]] + order else order + [ancestors[k]]) ==
            Reverse(Filter(ancestors[..k + 1], I, true)) + [inst] + Filter(ancestors[..k + 1], I, false)
  {
    assert ancestors[..k + 1] == ancestors[..k] + [ancestors[k]];
    OrderSnoc(ancestors[..k], ancestors[k], inst, I);
  }

  /** One more ancestor goes to the front of the order if interleaved, to the back otherwise. */
  lemma OrderSnoc(s: seq<nat>, x: nat, inst: nat, I: set<nat>)
    ensures Reverse(Filter(s + [x], I, true)) + [inst] + Filter(s + [x], I, false) ==
            if x in I then [x] + (Reverse(Filter(s, I, true)) + [inst] + Filter(s, I, false))
            else (Reverse(Filter(s, I, true)) + [inst] + Filter(s, I, false)) + [x]
  {
    var before, after := Filter<nat>(s, I, true), Filter<nat>(s, I, false);
    FilterAppend<nat>(s, x, I, true);
    FilterAppend<nat>(s, x, I, false);
    if x in I {
      assert Filter(s + [x], I, true) == before + [x];
      assert Filter(s + [x], I, false) == after;
      ReverseAppend<nat>(before, x);
      assert [x] + (Reverse(before) + [inst] + after) == ([x] + Reverse(before)) + [inst] + after;
    } else {
      assert Filter(s + [x], I, true) == before;
      assert Filter(s + [x], I, false) == after + [x];
      assert (Reverse(before) + [inst] + after) + [x] == Reverse(before) + [inst] + (after + [x]);
    }
  }

  /** The iteration order lists the instance and each of its ancestors below the top level
      exactly once. */
  lemma IterationOrderIsPermutation(a: Arena, inst: nat, I: set<nat>)
    requires WellFormed(a) && IsInstance(a, inst)
    ensures multiset(IterationOrderOf(a, inst, I)) == multiset(Chain(a, inst))
    ensures |IterationOrderOf(a, inst, I)| == a[inst].depth
    ensures Distinct(IterationOrderOf(a, inst, I))
    ensures forall x :: x in IterationOrderOf(a, inst, I) <==> x in Chain(a, inst)
  {
    var ancestors := Ancestors(a, a[inst].parent);
    ReversePreservesMultiset(Filter(ancestors, I, true));
    FilterSplitsMultiset(ancestors, I);
    var order := IterationOrderOf(a, inst, I);
    assert multiset(order) == multiset(Chain(a, inst));
    ChainByDepth(a, inst);
    DistinctByMultiset(order, Chain(a, inst));
    forall x ensures x in order <==> x in Chain(a, inst) {
      assert x in order <==> x in multiset(order);
      assert x in Chain(a, inst) <==> x in multiset(Chain(a, inst));
    }
  }

  /** Filtering keeps an order that strictly decreases in depth. */
  lemma {:induction false} FilterKeepsDepthOrder(a: Arena, s: seq<nat>, I: set<nat>, keep: bool)
    requires forall k :: 0 <= k < |s| ==> s[k] < |a|
    requires forall i, j :: 0 <= i < j < |s| ==> a[s[i]].depth > a[s[j]].depth
    ensures forall k :: 0 <= k < |Filter(s, I, keep)| ==> Filter(s, I, keep)[k] in s
    ensures forall i, j :: 0 <= i < j < |Filter(s, I, keep)| ==>
      a[Filter(s, I, keep)[i]].depth > a[Filter(s, I, keep)[j]].depth
  {
    if s != [] {
      var init := s[..|s| - 1];
      FilterKeepsDepthOrder(a, init, I, keep);
      assert s == init + [s[|s| - 1]];
      forall x | x in init ensures a[x].depth > a[s[|s| - 1]].depth {
        var i :| 0 <= i < |init| && init[i] == x;
      }
    }
  }

  /** The position of the instance in its iteration order: the number of interleaved ancestors. */
  function InstancePosition(a: Arena, inst: nat, I: set<nat>): nat
    requires WellFormed(a) && IsInstance(a, inst)
  {
    |Filter(Ancestors(a, a[inst].parent), I, true)|
  }

  /** The instance sits right after the interleaved ancestors. */
  lemma IterationOrderInstance(a: Arena, inst: nat, I: set<nat>)
    requires WellFormed(a) && IsInstance(a, inst)
    ensures InstancePosition(a, inst, I) < |IterationOrderOf(a, inst, I)|
    ensures IterationOrderOf(a, inst, I)[InstancePosition(a, inst, I)] == inst
  {
  }

  /** Before the instance: only interleaved ancestors, from shallower to deeper. */
  lemma IterationOrderBefore(a: Arena, inst: nat, I: set<nat>)
    requires WellFormed(a) && IsInstance(a, inst)
    ensures var order, pos := IterationOrderOf(a, inst, I), InstancePosition(a, inst, I);
            pos <= |order| &&
            (forall k :: 0 <= k < pos ==> order[k] < |a| && order[k] in I && a[order[k]].depth < a[inst].depth) &&
            (forall k :: 0 <= k < pos - 1 ==> a[order[k]].depth < a[order[k + 1]].depth)
  {
    var ancestors := Ancestors(a, a[inst].parent);
    var before := Filter(ancestors, I, true);
    FilterMembers(ancestors, I, true);
    FilterKeepsDepthOrder(a, ancestors, I, true);
    var order := IterationOrderOf(a, inst, I);
    forall k | 0 <= k < |before| ensures order[k] == before[|before| - 1 - k] {
      ReverseAt(before, k);
      assert order[k] == Reverse(before)[k];
    }
  }

  /** After the instance: only non-interleaved ancestors, from deeper to shallower. */
  lemma IterationOrderAfter(a: Arena, inst: nat, I: set<nat>)
    requires WellFormed(a) && IsInstance(a, inst)
    ensures var order, pos := IterationOrderOf(a, inst, I), InstancePosition(a, inst, I);
            pos < |order| &&
            (forall k :: pos < k < |order| ==> order[k] < |a| && order[k] !in I && a[order[k]].depth < a[inst].depth) &&
            (forall k :: pos < k < |order| - 1 ==> a[order[k]].depth > a[order[k + 1]].depth)
  {
    var ancestors := Ancestors(a, a[inst].parent);
    var after := Filter(ancestors, I, false);
    FilterMembers(ancestors, I, false);
    FilterKeepsDepthOrder(a, ancestors, I, false);
    var order := IterationOrderOf(a, inst, I);
    var pos := InstancePosition(a, inst, I);
    assert forall k :: pos < k < |order| ==> order[k] == after[k - pos - 1];
  }

  // Natural order and the permutation between the two orders

  /** Where node x sits in the hierarchy ("natural") order of inst's digits:
      the instance at 0, its parent at 1, and so on upward. */
  function NaturalPosition(a: Arena, inst: nat, x: nat): int
    requires x < |a| && inst < |a|
  {
    a[inst].depth - a[x].depth
  }

  /** Every entry of the iteration order is the chain entry at its natural position. */
  lemma IterationOrderInChain(a: Arena, inst: nat, I: set<nat>)
    requires WellFormed(a) && IsInstance(a, inst)
    ensures forall k :: 0 <= k < |IterationOrderOf(a, inst, I)| ==>
      IterationOrderOf(a, inst, I)[k] < |a| &&
      0 <= NaturalPosition(a, inst, IterationOrderOf(a, inst, I)[k]) < a[inst].depth &&
      Chain(a, inst)[NaturalPosition(a, inst, IterationOrderOf(a, inst, I)[k])] == IterationOrderOf(a, inst, I)[k]
  {
    var order := IterationOrderOf(a, inst, I);
    IterationOrderIsPermutation(a, inst, I);
    ChainByDepth(a, inst);
    forall k | 0 <= k < |order|
      ensures order[k] < |a| && 0 <= NaturalPosition(a, inst, order[k]) < a[inst].depth &&
              Chain(a, inst)[NaturalPosition(a, inst, order[k])] == order[k]
    {
      assert order[k] in order;
    }
  }

  /** The permutation taking digits in iteration order to natural order: entry j is the
      position in the iteration order of the node at natural position j. */
  function NaturalPermutation(a: Arena, inst: nat, I: set<nat>): (p: seq<nat>)
    requires WellFormed(a) && IsInstance(a, inst)
    ensures |p| == a[inst].depth == |IterationOrderOf(a, inst, I)|
    ensures forall j :: 0 <= j < |p| ==>
      p[j] < |p| && IterationOrderOf(a, inst, I)[p[j]] == Chain(a, inst)[j]
  {
    IterationOrderIsPermutation(a, inst, I);
    var order, chain := IterationOrderOf(a, inst, I), Chain(a, inst);
    seq(|chain|, j requires 0 <= j < |chain| => IndexOf(order, chain[j]))
  }

  lemma IterationOrderInArena(a: Arena, inst: nat, I: set<nat>)
    requires WellFormed(a) && IsInstance(a, inst)
    ensures |IterationOrderOf(a, inst, I)| == a[inst].depth
    ensures forall k :: 0 <= k < |IterationOrderOf(a, inst, I)| ==> IterationOrderOf(a, inst, I)[k] < |a|
  {
    IterationOrderInChain(a, inst, I);
    IterationOrderIsPermutation(a, inst, I);
  }

  /** The natural permutation is a bijection on [0, depth): it sends the natural position
      of each iteration-order entry back to that entry's index. */
  lemma NaturalPermutationInverse(a: Arena, inst: nat, I: set<nat>)
    requires WellFormed(a) && IsInstance(a, inst)
    ensures Distinct(NaturalPermutation(a, inst, I))
    ensures forall k :: 0 <= k < |IterationOrderOf(a, inst, I)| ==>
      IterationOrderOf(a, inst, I)[k] < |a| &&
      0 <= NaturalPosition(a, inst, IterationOrderOf(a, inst, I)[k]) < |NaturalPermutation(a, inst, I)| &&
      NaturalPermutation(a, inst, I)[NaturalPosition(a, inst, IterationOrderOf(a, inst, I)[k])] == k
  {
    var order, chain, p := IterationOrderOf(a, inst, I), Chain(a, inst), NaturalPermutation(a, inst, I);
    IterationOrderIsPermutation(a, inst, I);
    IterationOrderInChain(a, inst, I);
    ChainByDepth(a, inst);
    forall i, j | 0 <= i < j < |p| ensures p[i] != p[j] {
      assert chain[i] != chain[j];
    }
    forall k | 0 <= k < |order| ensures p[NaturalPosition(a, inst, order[k])] == k {
      var j := NaturalPosition(a, inst, order[k]);
      var q := p[j];
      assert order[q] == order[k];
    }
  }

  /** p holds, at the natural position of each of the first n iteration-order entries,
      that entry's index. */
  ghost predicate RecordsPositions(a: Arena, inst: nat, I: set<nat>, p: seq<nat>, n: nat)
    requires WellFormed(a) && IsInstance(a, inst)
  {
    n <= |IterationOrderOf(a, inst, I)| &&
    forall k :: 0 <= k < n ==>
      IterationOrderOf(a, inst, I)[k] < |a| &&
      0 <= NaturalPosition(a, inst, IterationOrderOf(a, inst, I)[k]) < |p| &&
      p[NaturalPosition(a, inst, IterationOrderOf(a, inst, I)[k])] == k
  }

  /** A sequence that records the position of every iteration-order entry is the natural permutation. */
  lemma NaturalPermutationUnique(a: Arena, inst: nat, I: set<nat>, p: seq<nat>)
    requires WellFormed(a) && IsInstance(a, inst) && |p| == a[inst].depth
    requires RecordsPositions(a, inst, I, p, a[inst].depth)
    ensures p == NaturalPermutation(a, inst, I)
  {
    var order, spec := IterationOrderOf(a, inst, I), NaturalPermutation(a, inst, I);
    NaturalPermutationInverse(a, inst, I);
    forall j | 0 <= j < |p| ensures p[j] == spec[j] {
      var k := spec[j];
      assert NaturalPosition(a, inst, order[k]) == j;
    }
  }

  /** Recording entry n keeps the positions recorded for the entries before it. */
  lemma RecordPosition(a: Arena, inst: nat, I: set<nat>, p: seq<nat>, n: nat)
    requires WellFormed(a) && IsInstance(a, inst) && |p| == a[inst].depth
    requires n < |IterationOrderOf(a, inst, I)| && RecordsPositions(a, inst, I, p, n)
    ensures IterationOrderOf(a, inst, I)[n] < |a|
    ensures 0 <= NaturalPosition(a, inst, IterationOrderOf(a, inst, I)[n]) < |p|
    ensures RecordsPositions(a, inst, I, p[NaturalPosition(a, inst, IterationOrderOf(a, inst, I)[n]) := n], n + 1)
  {
    IterationOrderInChain(a, inst, I);
    PositionsDistinct(a, inst, I, n);
  }

  /** permutation(): for each entry of the iteration order, in turn, record its index at
      the entry's natural position. */
  method Permutation(a: Arena, r: Range) returns (p: seq<nat>)
    requires WellFormed(a) && IsInstance(a, r.instance)
    ensures p == NaturalPermutation(a, r.instance, r.interleaved)
  {
    var depth := a[r.instance].depth;
    p := seq(depth, _ => 0);
    var order := IterationOrder(a, r);
    IterationOrderIsPermutation(a, r.instance, r.interleaved);
    var count := 0;
    while count < |order|
      invariant |p| == depth && RecordsPositions(a, r.instance, r.interleaved, p, count)
    {
      RecordPosition(a, r.instance, r.interleaved, p, count);
      p := p[depth - a[order[count]].depth := count];
      count := count + 1;
    }
    NaturalPermutationUnique(a, r.instance, r.interleaved, p);
  }

  lemma PositionsDistinct(a: Arena, inst: nat, I: set<nat>, n: nat)
    requires WellFormed(a) && IsInstance(a, inst) && n < |IterationOrderOf(a, inst, I)|
    ensures IterationOrderOf(a, inst, I)[n] < |a|
    ensures forall k :: 0 <= k < n ==>
      IterationOrderOf(a, inst, I)[k] < |a| &&
      NaturalPosition(a, inst, IterationOrderOf(a, inst, I)[k]) != NaturalPosition(a, inst, IterationOrderOf(a, inst, I)[n])
  {
    IterationOrderIsPermutation(a, inst, I);
    IterationOrderInChain(a, inst, I);
    var order := IterationOrderOf(a, inst, I);
    forall k | 0 <= k < n ensures NaturalPosition(a, inst, order[k]) != NaturalPosition(a, inst, order[n]) {
      assert order[k] != order[n];
    }
  }

  // Natural identifiers

  /** The widths of the iteration order multiply to maxWidth: iterating in any order
      covers the same number of runtime instances. */
  lemma IterationOrderProd(a: Arena, inst: nat, I: set<nat>)
    requires WellFormed(a) && IsInstance(a, inst)
    ensures forall k :: 0 <= k < |IterationOrderOf(a, inst, I)| ==> IterationOrderOf(a, inst, I)[k] < |a|
    ensures Prod(Widths(a, IterationOrderOf(a, inst, I))) == MaxWidth(a, inst)
  {
    IterationOrderInChain(a, inst, I);
    var anc := Ancestors(a, a[inst].parent);
    var t, f := Filter<nat>(anc, I, true), Filter<nat>(anc, I, false);
    ProdWidthsFilter(a, anc, I);
    ProdWidthsReverse(a, t);
    var rt := Reverse<nat>(t);
    assert IterationOrderOf(a, inst, I) == (rt + [inst]) + f;
    WidthsConcat(a, rt + [inst], f);
    ProdConcat(Widths(a, rt + [inst]), Widths(a, f));
    ProdWidthsSnoc(a, rt, inst);
    MaxWidthProd(a, inst);
    var w, pt, pf := a[inst].width, Prod(Widths(a, t)), Prod(Widths(a, f));
    MulAssoc(w, pt, pf);
    assert pt * w == w * pt;
  }

  /** The radixes of a range's digits in iteration order. */
  function IterationRadixes(a: Arena, inst: nat, I: set<nat>): (rs: seq<int>)
    requires WellFormed(a) && IsInstance(a, inst)
    ensures |rs| == a[inst].depth && IsRadixes(rs)
    ensures Prod(rs) == MaxWidth(a, inst)
  {
    IterationOrderProd(a, inst, I);
    IterationOrderIsPermutation(a, inst, I);
    Widths(a, IterationOrderOf(a, inst, I))
  }

  /** The runtime instance c steps along the iteration order, as a mixed-radix number
      whose digits and radixes are in natural order. */
  function NaturalMR(a: Arena, inst: nat, I: set<nat>, c: nat): MixedRadixInt
    requires WellFormed(a) && IsInstance(a, inst)
  {
    var rs := IterationRadixes(a, inst, I);
    MixedRadixInt(Decode(c, rs), rs).Permute(NaturalPermutation(a, inst, I))
  }

  /** The natural mixed-radix number is well formed, with the widths of the chain as radixes. */
  lemma NaturalMRValid(a: Arena, inst: nat, I: set<nat>, c: nat)
    requires WellFormed(a) && IsInstance(a, inst)
    ensures NaturalMR(a, inst, I, c).Valid()
    ensures NaturalMR(a, inst, I, c).radixes == Widths(a, Chain(a, inst))
  {
    IterationOrderProd(a, inst, I);
    DecodeIsDigits(c, IterationRadixes(a, inst, I));
    assert NaturalMR(a, inst, I, c).radixes == Widths(a, Chain(a, inst));
  }

  lemma NaturalMRByDecode(a: Arena, inst: nat, I: set<nat>, c: nat)
    requires WellFormed(a) && IsInstance(a, inst)
    ensures NaturalMR(a, inst, I, c) ==
      MixedRadixInt(Decode(c, IterationRadixes(a, inst, I)), IterationRadixes(a, inst, I)).Permute(NaturalPermutation(a, inst, I))
  {
  }

  /** The natural identifier of the runtime instance c steps along the iteration order. */
  function NaturalId(a: Arena, inst: nat, I: set<nat>, c: nat): (id: int)
    requires WellFormed(a) && IsInstance(a, inst)
    ensures 0 <= id < MaxWidth(a, inst)
  {
    var m := NaturalMR(a, inst, I, c);
    NaturalMRValid(a, inst, I, c);
    ValueBound(m.digits, m.radixes);
    m.Get()
  }

  /** Distinct steps below maxWidth name distinct runtime instances. */
  lemma NaturalIdInjective(a: Arena, inst: nat, I: set<nat>, c1: nat, c2: nat)
    requires WellFormed(a) && IsInstance(a, inst)
    requires c1 < MaxWidth(a, inst) && c2 < MaxWidth(a, inst)
    requires NaturalId(a, inst, I, c1) == NaturalId(a, inst, I, c2)
    ensures c1 == c2
  {
    var rs := IterationRadixes(a, inst, I);
    var m1, m2 := NaturalMR(a, inst, I, c1), NaturalMR(a, inst, I, c2);
    NaturalMRValid(a, inst, I, c1);
    NaturalMRValid(a, inst, I, c2);
    ValueInjective(m1.digits, m2.digits, m1.radixes);
    var d1, d2 := Decode(c1, rs), Decode(c2, rs);
    var order, p := IterationOrderOf(a, inst, I), NaturalPermutation(a, inst, I);
    NaturalPermutationInverse(a, inst, I);
    forall k | 0 <= k < |rs| ensures d1[k] == d2[k] {
      var j := NaturalPosition(a, inst, order[k]);
      assert m1.digits[j] == d1[p[j]] && m2.digits[j] == d2[p[j]];
    }
    assert d1 == d2;
    DecodeInjective(c1, c2, rs);
  }

  /** instances(): the natural identifiers of the range's runtime instances, in iteration order. */
  function InstancesOf(a: Arena, r: Range): (ids: seq<int>)
    requires Valid(a, r)
    ensures |ids| == r.width
  {
    seq(r.width, k requires 0 <= k < r.width => NaturalId(a, r.instance, r.interleaved, r.start + k))
  }

  lemma InstancesAt(a: Arena, r: Range, k: nat)
    requires Valid(a, r) && k < r.width
    ensures InstancesOf(a, r)[k] == NaturalId(a, r.instance, r.interleaved, r.start + k)
  {
  }

  /** Every identifier a range names is below maxWidth. */
  lemma InstancesBound(a: Arena, r: Range)
    requires Valid(a, r)
    ensures forall k :: 0 <= k < r.width ==> 0 <= InstancesOf(a, r)[k] < r.maxWidth
  {
    forall k | 0 <= k < r.width ensures 0 <= InstancesOf(a, r)[k] < r.maxWidth {
      InstancesAt(a, r, k);
    }
  }

  /** A range names each of its runtime instances once. */
  lemma InstancesDistinct(a: Arena, r: Range)
    requires Valid(a, r)
    ensures Distinct(InstancesOf(a, r))
  {
    var ids := InstancesOf(a, r);
    forall i, j | 0 <= i < j < |ids| ensures ids[i] != ids[j] {
      InstancesDiffer(a, r, i, j);
    }
  }

  lemma InstancesDiffer(a: Arena, r: Range, i: nat, j: nat)
    requires Valid(a, r) && i < j < r.width
    ensures InstancesOf(a, r)[i] != InstancesOf(a, r)[j]
  {
    InstancesAt(a, r, i);
    InstancesAt(a, r, j);
    if InstancesOf(a, r)[i] == InstancesOf(a, r)[j] {
      NaturalIdInjective(a, r.instance, r.interleaved, r.start + i, r.start + j);
    }
  }

  /** Radixes read off the iteration order entry by entry are the iteration radixes. */
  lemma IterationRadixesByEntry(a: Arena, inst: nat, I: set<nat>, radixes: seq<int>)
    requires WellFormed(a) && IsInstance(a, inst)
    requires |radixes| == |IterationOrderOf(a, inst, I)|
    requires forall k :: 0 <= k < |radixes| ==>
      IterationOrderOf(a, inst, I)[k] < |a| && radixes[k] == a[IterationOrderOf(a, inst, I)[k]].width
    ensures radixes == IterationRadixes(a, inst, I)
  {
  }

  /** The first phase of instancesMR(): the radixes in iteration order, the natural
      permutation (pre-filled with the identity) and the all-zero digits. */
  method ZeroInIterationOrder(a: Arena, r: Range) returns (radixes: seq<int>, digits: seq<int>, permutation: seq<nat>)
    requires WellFormed(a) && IsInstance(a, r.instance)
    ensures radixes == IterationRadixes(a, r.instance, r.interleaved)
    ensures digits == Decode(0, radixes)
    ensures permutation == NaturalPermutation(a, r.instance, r.interleaved)
  {
    var depth := a[r.instance].depth;
    radixes, digits := [], [];
    permutation := seq(depth, j => j);
    var order := IterationOrder(a, r);
    IterationOrderInArena(a, r.instance, r.interleaved);
    var count := 0;
    while count < |order|
      invariant |permutation| == depth && RecordsPositions(a, r.instance, r.interleaved, permutation, count)
      invariant |radixes| == count && forall k :: 0 <= k < count ==> radixes[k] == a[order[k]].width
      invariant digits == seq(count, _ => 0)
    {
      RecordPosition(a, r.instance, r.interleaved, permutation, count);
      radixes := radixes + [a[order[count]].width];
      permutation := permutation[depth - a[order[count]].depth := count];
      digits := digits + [0];
      count := count + 1;
    }
    NaturalPermutationUnique(a, r.instance, r.interleaved, permutation);
    IterationRadixesByEntry(a, r.instance, r.interleaved, radixes);
    DecodeZero(radixes);
  }

  /** The numbers start, ..., start + n - 1 decoded in the radixes rs and permuted by p. */
  function PermutedRun(rs: seq<int>, p: seq<nat>, start: nat, n: nat): (ms: seq<MixedRadixInt>)
    requires IsRadixes(rs) && forall j :: 0 <= j < |p| ==> p[j] < |rs|
    ensures |ms| == n
  {
    if n == 0 then [] else PermutedRun(rs, p, start, n - 1) + [MixedRadixInt(Decode(start + n - 1, rs), rs).Permute(p)]
  }

  lemma {:induction false} PermutedRunAt(rs: seq<int>, p: seq<nat>, start: nat, n: nat, k: nat)
    requires IsRadixes(rs) && (forall j :: 0 <= j < |p| ==> p[j] < |rs|) && k < n
    ensures PermutedRun(rs, p, start, n)[k] == MixedRadixInt(Decode(start + k, rs), rs).Permute(p)
  {
    if k < n - 1 {
      PermutedRunAt(rs, p, start, n - 1, k);
    }
  }

  /** Counting up in the iteration radixes and permuting by the natural permutation yields
      the natural numbers of the range's instances. */
  lemma PermutedRunNatural(a: Arena, r: Range, res: seq<MixedRadixInt>)
    requires Valid(a, r)
    requires res == PermutedRun(IterationRadixes(a, r.instance, r.interleaved),
                                NaturalPermutation(a, r.instance, r.interleaved), r.start, r.width)
    ensures forall k :: 0 <= k < |res| ==> res[k] == NaturalMR(a, r.instance, r.interleaved, r.start + k)
  {
    forall k | 0 <= k < |res| ensures res[k] == NaturalMR(a, r.instance, r.interleaved, r.start + k) {
      PermutedRunAt(IterationRadixes(a, r.instance, r.interleaved), NaturalPermutation(a, r.instance, r.interleaved),
                    r.start, r.width, k);
    }
  }

  /** One round of the counting loop of instancesMR(). */
  lemma CountUpStep(radixes: seq<int>, permutation: seq<nat>, start: nat, count: nat,
                    indices: MixedRadixInt, res: seq<MixedRadixInt>)
    requires IsRadixes(radixes) && |permutation| == |radixes|
    requires forall j :: 0 <= j < |permutation| ==> permutation[j] < |radixes|
    requires indices == MixedRadixInt(Decode(count, radixes), radixes)
    requires count <= start ==> res == []
    requires count > start ==> res == PermutedRun(radixes, permutation, start, count - start)
    ensures indices.Valid() && |indices.digits| == |indices.radixes| == |radixes|
    ensures indices.Increment() == MixedRadixInt(Decode(count + 1, radixes), radixes)
    ensures count < start ==> res == []
    ensures count >= start ==>
      res + [indices.Permute(permutation)] == PermutedRun(radixes, permutation, start, count + 1 - start)
  {
    IncrementDecode(count, radixes);
    DecodeIsDigits(count, radixes);
  }

  /** The second phase of instancesMR(): count up from zero to start + width, keeping the
      numbers from start on, each permuted. */
  method CountUp(radixes: seq<int>, permutation: seq<nat>, start: nat, width: nat) returns (res: seq<MixedRadixInt>)
    requires IsRadixes(radixes) && |permutation| == |radixes|
    requires forall j :: 0 <= j < |permutation| ==> permutation[j] < |radixes|
    ensures res == PermutedRun(radixes, permutation, start, width)
  {
    var count := 0;
    var indices := MixedRadixInt(Decode(0, radixes), radixes);
    res := [];
    while count < start + width
      invariant 0 <= count <= start + width
      invariant indices == MixedRadixInt(Decode(count, radixes), radixes)
      invariant count <= start ==> res == []
      invariant count > start ==> res == PermutedRun(radixes, permutation, start, count - start)
    {
      CountUpStep(radixes, permutation, start, count, indices, res);
      if count >= start {
        res := res + [indices.Permute(permutation)];
      }
      indices := indices.Increment();
      count := count + 1;
    }
  }

  /** instancesMR(): step the zero number up to start + width in iteration order and keep
      the values from start on, each permuted into natural order. */
  method InstancesMR(a: Arena, r: Range) returns (res: seq<MixedRadixInt>)
    requires Valid(a, r)
    ensures |res| == r.width
    ensures forall k :: 0 <= k < |res| ==> res[k] == NaturalMR(a, r.instance, r.interleaved, r.start + k)
  {
    var radixes, digits, permutation := ZeroInIterationOrder(a, r);
    res := CountUp(radixes, permutation, r.start, r.width);
    PermutedRunNatural(a, r, res);
  }

  /** instances(): the values of instancesMR(). */
  method Instances(a: Arena, r: Range) returns (ids: seq<int>)
    requires Valid(a, r)
    ensures ids == InstancesOf(a, r)
  {
    var mr := InstancesMR(a, r);
    ids := [];
    for i := 0 to |mr|
      invariant ids == InstancesOf(a, r)[..i]
    {
      InstancesAt(a, r, i);
      assert InstancesOf(a, r)[..i + 1] == InstancesOf(a, r)[..i] + [InstancesOf(a, r)[i]];
      ids := ids + [mr[i].Get()];
    }
  }

  // Parent instances

  /** The number of runtime instances of the n levels below an ancestor, per instance of
      that ancestor: the product of the lowest n widths of the chain. */
  function LevelsBelow(a: Arena, inst: nat, n: nat): (d: int)
    requires WellFormed(a) && IsInstance(a, inst) && n <= a[inst].depth
    ensures d >= 1
  {
    Prod(Widths(a, Chain(a, inst))[..n])
  }

  /** Dropping the n low-order digits of a natural mixed-radix number divides its identifier
      by the widths below, leaving an identifier of the ancestor n levels up. */
  lemma DropIsQuotient(a: Arena, inst: nat, I: set<nat>, c: nat, n: nat)
    requires WellFormed(a) && IsInstance(a, inst) && n < a[inst].depth
    ensures NaturalMR(a, inst, I, c).Drop(n).Get() == NaturalId(a, inst, I, c) / LevelsBelow(a, inst, n)
    ensures IsInstance(a, Chain(a, inst)[n])
    ensures 0 <= NaturalId(a, inst, I, c) / LevelsBelow(a, inst, n) < MaxWidth(a, Chain(a, inst)[n])
  {
    var m := NaturalMR(a, inst, I, c);
    NaturalMRValid(a, inst, I, c);
    DropValue(m.digits, m.radixes, n);
    ValueBound(m.digits[n..], m.radixes[n..]);
    ChainSuffix(a, inst, n);
    var chain := Chain(a, inst);
    assert Widths(a, chain)[n..] == Widths(a, chain[n..]);
  }

  /** The identifiers of the ancestor n levels up of the range's runtime instances, in iteration order. */
  function ParentIdsOf(a: Arena, r: Range, n: nat): (ids: seq<int>)
    requires Valid(a, r) && n < a[r.instance].depth
    ensures |ids| == r.width
  {
    var d := LevelsBelow(a, r.instance, n);
    seq(r.width, k requires 0 <= k < r.width => InstancesOf(a, r)[k] / d)
  }

  lemma ParentIdsAt(a: Arena, r: Range, n: nat, k: nat)
    requires Valid(a, r) && n < a[r.instance].depth && k < r.width
    ensures ParentIdsOf(a, r, n)[k] == InstancesOf(a, r)[k] / LevelsBelow(a, r.instance, n)
  {
  }

  /** The parent identifier of the k-th runtime instance is the one the drop computes. */
  lemma ParentIdByDrop(a: Arena, r: Range, n: nat, k: nat)
    requires Valid(a, r) && n < a[r.instance].depth && k < r.width
    ensures IsInstance(a, Chain(a, r.instance)[n])
    ensures ParentIdsOf(a, r, n)[k] == NaturalMR(a, r.instance, r.interleaved, r.start + k).Drop(n).Get()
    ensures 0 <= ParentIdsOf(a, r, n)[k] < MaxWidth(a, Chain(a, r.instance)[n])
  {
    var c, d := r.start + k, LevelsBelow(a, r.instance, n);
    var id := NaturalId(a, r.instance, r.interleaved, c);
    assert ParentIdsOf(a, r, n)[k] == id / d by {
      ParentIdsAt(a, r, n, k);
      InstancesAt(a, r, k);
    }
    DropIsQuotient(a, r.instance, r.interleaved, c, n);
  }

  /** parentInstances(n): the parent identifiers in iteration order, each kept once
      (a LinkedHashSet); None when n is not less than the depth of the range's instance, where
      the documented contract throws an exception. */
  method ParentInstances(a: Arena, r: Range, n: nat) returns (ids: Option<seq<int>>)
    requires Valid(a, r)
    ensures n >= a[r.instance].depth <==> ids.None?
    ensures ids.Some? ==> n < a[r.instance].depth && ids.value == Dedup(ParentIdsOf(a, r, n))
  {
    if n >= a[r.instance].depth {
      return None;
    }
    var mr := InstancesMR(a, r);
    var result := [];
    for i := 0 to |mr|
      invariant result == Dedup(ParentIdsOf(a, r, n)[..i])
    {
      ghost var all := ParentIdsOf(a, r, n);
      ParentIdByDrop(a, r, n, i);
      assert all[..i + 1][..i] == all[..i];
      var id := mr[i].Drop(n).Get();
      if id !in result {
        result := result + [id];
      }
    }
    assert ParentIdsOf(a, r, n)[..|mr|] == ParentIdsOf(a, r, n);
    ids := Some(result);
  }

  /** The parent identifiers hold no duplicates, are no more than the range's width, come from
      the range's own identifiers, and are identifiers of the ancestor n levels up. */
  lemma ParentInstancesFacts(a: Arena, r: Range, n: nat)
    requires Valid(a, r) && n < a[r.instance].depth
    ensures Distinct(Dedup(ParentIdsOf(a, r, n))) && |Dedup(ParentIdsOf(a, r, n))| <= r.width
    ensures forall x :: x in Dedup(ParentIdsOf(a, r, n)) <==>
      exists k :: 0 <= k < r.width && x == InstancesOf(a, r)[k] / LevelsBelow(a, r.instance, n)
    ensures IsInstance(a, Chain(a, r.instance)[n])
    ensures forall x :: x in Dedup(ParentIdsOf(a, r, n)) ==> 0 <= x < MaxWidth(a, Chain(a, r.instance)[n])
  {
    var ps := ParentIdsOf(a, r, n);
    DedupFacts(ps);
    ParentIdByDrop(a, r, n, 0);
    forall k | 0 <= k < r.width
      ensures ps[k] == InstancesOf(a, r)[k] / LevelsBelow(a, r.instance, n)
      ensures 0 <= ps[k] < MaxWidth(a, Chain(a, r.instance)[n])
    {
      ParentIdsAt(a, r, n, k);
      ParentIdByDrop(a, r, n, k);
    }
  }

  // The start as a mixed-radix number

  /** Entry k of the iteration radixes is the width of entry k of the iteration order. */
  lemma IterationRadixesAt(a: Arena, inst: nat, I: set<nat>, k: nat)
    requires WellFormed(a) && IsInstance(a, inst) && k < a[inst].depth
    ensures |IterationOrderOf(a, inst, I)| == a[inst].depth && IterationOrderOf(a, inst, I)[k] < |a|
    ensures IterationRadixes(a, inst, I)[k] == a[IterationOrderOf(a, inst, I)[k]].width
  {
    IterationOrderInArena(a, inst, I);
  }

  /** The start of a valid range, decoded in the iteration radixes, is a well-formed number
      whose value is the start. */
  lemma StartDecodes(a: Arena, r: Range)
    requires Valid(a, r)
    ensures MixedRadixInt(Decode(r.start, IterationRadixes(a, r.instance, r.interleaved)),
                          IterationRadixes(a, r.instance, r.interleaved)).Valid()
    ensures MixedRadixInt(Decode(r.start, IterationRadixes(a, r.instance, r.interleaved)),
                          IterationRadixes(a, r.instance, r.interleaved)).Get() == r.start
  {
    var rs := IterationRadixes(a, r.instance, r.interleaved);
    DecodeIsDigits(r.start, rs);
    DecodeValue(r.start, rs);
    DivModUnique(r.start, Prod(rs), 0, r.start);
  }

  /** One round of the loop of startMR(): the next digit, radix and factor extend the decoding. */
  lemma DecodeAlongStep(a: Arena, order: seq<nat>, start: nat, k: nat, factor: int, digits: seq<int>, radixes: seq<int>)
    requires WellFormed(a) && (forall j :: 0 <= j < |order| ==> order[j] < |a|) && k < |order|
    requires digits == Decode(start, Widths(a, order))[..k] && radixes == Widths(a, order)[..k]
    requires factor == Prod(Widths(a, order)[..k])
    ensures factor >= 1 && a[order[k]].width >= 1
    ensures digits + [(start / factor) % a[order[k]].width] == Decode(start, Widths(a, order))[..k + 1]
    ensures radixes + [a[order[k]].width] == Widths(a, order)[..k + 1]
    ensures factor * a[order[k]].width == Prod(Widths(a, order)[..k + 1])
  {
    var rs := Widths(a, order);
    DecodePrefixStep(start, rs, k, factor, digits);
    assert rs[..k + 1] == radixes + [rs[k]];
  }

  /** The loop of startMR(): digit k is (start / (product of the earlier widths)) % width k,
      over the given order: the decoding of start in the order's widths. */
  method DecodeAlong(a: Arena, order: seq<nat>, start: nat) returns (digits: seq<int>, radixes: seq<int>)
    requires WellFormed(a) && forall k :: 0 <= k < |order| ==> order[k] < |a|
    ensures radixes == Widths(a, order) && digits == Decode(start, radixes)
  {
    digits, radixes := [], [];
    var factor := 1;
    for k := 0 to |order|
      invariant digits == Decode(start, Widths(a, order))[..k] && radixes == Widths(a, order)[..k]
      invariant factor == Prod(Widths(a, order)[..k])
    {
      DecodeAlongStep(a, order, start, k, factor, digits, radixes);
      var iStart := (start / factor) % a[order[k]].width;
      factor := factor * a[order[k]].width;
      digits := digits + [iStart];
      radixes := radixes + [a[order[k]].width];
    }
    assert Widths(a, order)[..|order|] == Widths(a, order);
    assert Decode(start, Widths(a, order))[..|order|] == Decode(start, Widths(a, order));
  }

  /** startMR(): the start decoded in the iteration radixes, digits in iteration order. */
  method StartMR(a: Arena, r: Range) returns (m: MixedRadixInt)
    requires Valid(a, r)
    ensures m == MixedRadixInt(Decode(r.start, IterationRadixes(a, r.instance, r.interleaved)),
                               IterationRadixes(a, r.instance, r.interleaved))
    ensures m.Valid() && m.Get() == r.start
  {
    var order := IterationOrder(a, r);
    IterationOrderInArena(a, r.instance, r.interleaved);
    var digits, radixes := DecodeAlong(a, order, r.start);
    m := MixedRadixInt(digits, radixes);
    StartDecodes(a, r);
  }

  /** startMRNatural(): startMR() permuted into natural order, the first of the range's instances. */
  method StartMRNatural(a: Arena, r: Range) returns (m: MixedRadixInt)
    requires Valid(a, r)
    ensures m == NaturalMR(a, r.instance, r.interleaved, r.start)
    ensures m.Get() == InstancesOf(a, r)[0]
  {
    var start := StartMR(a, r);
    var p := Permutation(a, r);
    m := start.Permute(p);
    NaturalMRByDecode(a, r.instance, r.interleaved, r.start);
    InstancesAt(a, r, 0);
  }

  // Ranges without interleaving

  /** Without interleaving, iteration follows the hierarchy: the iteration order is the chain. */
  lemma NoInterleavingChain(a: Arena, inst: nat)
    requires WellFormed(a) && IsInstance(a, inst)
    ensures IterationOrderOf(a, inst, {}) == Chain(a, inst)
  {
    FilterEmptySet(Ancestors(a, a[inst].parent));
  }

  /** Without interleaving the natural permutation is the identity. */
  lemma NoInterleavingOrder(a: Arena, inst: nat)
    requires WellFormed(a) && IsInstance(a, inst)
    ensures IterationOrderOf(a, inst, {}) == Chain(a, inst)
    ensures NaturalPermutation(a, inst, {}) == seq(a[inst].depth, j => j)
  {
    NoInterleavingChain(a, inst);
    var id: seq<nat> := seq(a[inst].depth, j => j);
    assert RecordsPositions(a, inst, {}, id, a[inst].depth) by {
      ChainByDepth(a, inst);
    }
    NaturalPermutationUnique(a, inst, {}, id);
  }

  /** Without interleaving, the instance c steps along is the one with natural identifier c
      (modulo maxWidth). */
  lemma NoInterleavingIds(a: Arena, inst: nat, c: nat)
    requires WellFormed(a) && IsInstance(a, inst)
    ensures NaturalId(a, inst, {}, c) == c % MaxWidth(a, inst)
  {
    NoInterleavingOrder(a, inst);
    var rs := IterationRadixes(a, inst, {});
    var m := MixedRadixInt(Decode(c, rs), rs);
    PermuteIdentity(m);
    NaturalMRByDecode(a, inst, {}, c);
    DecodeValue(c, rs);
  }

  /** A range without interleaving names the consecutive identifiers start, ..., start + width - 1. */
  lemma InstancesWithoutInterleaving(a: Arena, r: Range)
    requires Valid(a, r) && r.interleaved == {}
    ensures forall k :: 0 <= k < r.width ==> InstancesOf(a, r)[k] == r.start + k
  {
    forall k | 0 <= k < r.width ensures InstancesOf(a, r)[k] == r.start + k {
      InstancesAt(a, r, k);
      NoInterleavingIds(a, r.instance, r.start + k);
      DivModUnique(r.start + k, r.maxWidth, 0, r.start + k);
    }
  }

  /** Splitting a range without interleaving by head(n) and tail(n) splits its instances. */
  lemma HeadTailInstances(a: Arena, r: Range, n: int)
    requires Valid(a, r) && r.interleaved == {} && 0 < n < r.width
    ensures Head(a, r, n).Some? && Tail(a, r, n).Some?
    ensures InstancesOf(a, Head(a, r, n).value) + InstancesOf(a, Tail(a, r, n).value) == InstancesOf(a, r)
  {
    var h, t := Head(a, r, n).value, Tail(a, r, n).value;
    InstancesWithoutInterleaving(a, r);
    InstancesWithoutInterleaving(a, h);
    InstancesWithoutInterleaving(a, t);
  }
}
