/** The connectivity graph of port instances: for every port, the ranges of the ports it sends
    to directly (dependentPorts) and receives from directly (dependsOnPorts), and whether
    reactions read it or write it. The priority queue of SendRanges used by the destination
    walk is a sequence kept sorted by compareTo. */
module PortGraphs {
  import opened Wrappers
  import opened MixedRadix
  import opened InstanceGraph
  import opened RuntimeRanges
  import opened SendRanges

  /** What the compiler records about one port instance. downRank and upRank are not fields
      of the compiled program: they witness that the connection graph has no cycles (every
      port a port sends to has a lower downRank, every port it receives from a lower upRank). */
  datatype PortInfo = PortInfo(
    dependentPorts: seq<Range>,
    dependsOnPorts: seq<Range>,
    hasDependentReactions: bool,
    hasDependsOnReactions: bool,
    downRank: nat,
    upRank: nat)

  /** The instance tree and the ports in it, keyed by their node in the tree. */
  datatype PortGraph = PortGraph(arena: Arena, ports: map<nat, PortInfo>)

  /** A port node: it lies inside a reactor that is itself contained in a reactor. */
  ghost predicate IsPort(g: PortGraph, p: nat)
  {
    p in g.ports && IsInstance(g.arena, p) && g.arena[p].depth >= 2
  }

  /** A valid range of a port of the graph. */
  ghost predicate RangeOf(g: PortGraph, r: Range)
  {
    Valid(g.arena, r) && IsPort(g, r.instance)
  }

  /** The connections recorded for p are ranges of ports, and they go down in rank. */
  ghost predicate PortOk(g: PortGraph, p: nat)
    requires p in g.ports
  {
    var info := g.ports[p];
    IsPort(g, p) &&
    (forall i :: 0 <= i < |info.dependentPorts| ==>
       RangeOf(g, info.dependentPorts[i]) && g.ports[info.dependentPorts[i].instance].downRank < info.downRank) &&
    (forall i :: 0 <= i < |info.dependsOnPorts| ==>
       RangeOf(g, info.dependsOnPorts[i]) && g.ports[info.dependsOnPorts[i].instance].upRank < info.upRank)
  }

  ghost predicate ValidGraph(g: PortGraph)
  {
    WellFormed(g.arena) && forall p {:trigger PortOk(g, p)} :: p in g.ports ==> PortOk(g, p)
  }

  /** new RuntimeRange.Port(port): all channels of all bank instances of the port. */
  function FullRange(g: PortGraph, p: nat): (r: Range)
    requires ValidGraph(g) && p in g.ports
    ensures RangeOf(g, r) && r.start == 0 && r.width == MaxWidth(g.arena, p) && r.interleaved == {}
  {
    assert PortOk(g, p);
    MaxWidthPositive(g.arena, p);
    Make(g.arena, p, 0, 0, None)
  }

  lemma MaxWidthPositive(a: Arena, p: nat)
    requires WellFormed(a) && IsInstance(a, p)
    ensures MaxWidth(a, p) >= 1
  {
    MaxWidthProd(a, p);
  }

  /** A destination as listed in a SendRange: a range of a port that has dependent reactions. */
  ghost predicate DestOk(g: PortGraph, d: Range)
  {
    RangeOf(g, d) && g.ports[d.instance].hasDependentReactions
  }

  ghost predicate DestsOk(g: PortGraph, s: SendRange)
  {
    forall i :: 0 <= i < |s.destinations| ==> DestOk(g, s.destinations[i])
  }

  /** s sends from channels of src's port inside src to destinations that have reactions. */
  ghost predicate SendOver(g: PortGraph, s: SendRange, src: Range)
  {
    WellFormedSend(g.arena, s) && DestsOk(g, s) && s.range.instance == src.instance &&
    src.start <= s.Start() && s.End() <= src.End()
  }

  ghost predicate AllSendOver(g: PortGraph, q: seq<SendRange>, src: Range)
  {
    forall s :: s in q ==> SendOver(g, s, src)
  }

  /** The sum of the widths of ranges[k..]. */
  function RemainingWidth(ranges: seq<Range>, k: nat): (w: nat)
    requires forall i :: 0 <= i < |ranges| ==> ranges[i].width >= 1
    decreases |ranges| - k
  {
    if k >= |ranges| then 0 else ranges[k].width + RemainingWidth(ranges, k + 1)
  }

  // The priority queue

  /** The queue order: compareTo never decreases from front to back. */
  ghost predicate Sorted(q: seq<SendRange>)
  {
    forall i, j :: 0 <= i < j < |q| ==> CompareTo(q[i].range, q[j].range) <= 0
  }

  /** PriorityQueue.add: x goes after every element that does not compare greater. */
  function Insert(q: seq<SendRange>, x: SendRange): (r: seq<SendRange>)
    ensures multiset(r) == multiset(q) + multiset{x} && |r| == |q| + 1
  {
    if q == [] then [x]
    else if CompareTo(x.range, q[0].range) < 0 then [x] + q
    else
      assert q == [q[0]] + q[1..];
      [q[0]] + Insert(q[1..], x)
  }

  /** A lower bound of the queue and of x is a lower bound of the queue with x added. */
  lemma {:induction false} InsertBound(q: seq<SendRange>, x: SendRange, b: Range)
    requires forall i :: 0 <= i < |q| ==> CompareTo(b, q[i].range) <= 0
    requires CompareTo(b, x.range) <= 0
    ensures forall i :: 0 <= i < |Insert(q, x)| ==> CompareTo(b, Insert(q, x)[i].range) <= 0
  {
    if q != [] && CompareTo(x.range, q[0].range) >= 0 {
      InsertBound(q[1..], x, b);
      assert forall i :: 1 <= i < |Insert(q, x)| ==> Insert(q, x)[i] == Insert(q[1..], x)[i - 1];
    }
  }

  /** Adding to a sorted queue keeps it sorted. */
  lemma {:induction false} InsertSorted(q: seq<SendRange>, x: SendRange)
    requires Sorted(q)
    ensures Sorted(Insert(q, x))
  {
    var r := Insert(q, x);
    if q == [] {
    } else if CompareTo(x.range, q[0].range) < 0 {
      forall i, j | 0 <= i < j < |r| ensures CompareTo(r[i].range, r[j].range) <= 0 {
        if i == 0 {
          CompareToTransitive(x.range, q[0].range, q[j - 1].range);
        }
      }
    } else {
      var rest := Insert(q[1..], x);
      InsertSorted(q[1..], x);
      CompareToAntisymmetric(x.range, q[0].range);
      InsertBound(q[1..], x, q[0].range);
      assert r == [q[0]] + rest;
      forall i, j | 0 <= i < j < |r| ensures CompareTo(r[i].range, r[j].range) <= 0 {
        if i == 0 {
          assert r[j] == rest[j - 1];
        } else {
          assert r[i] == rest[i - 1] && r[j] == rest[j - 1];
        }
      }
    }
  }

  lemma InsertMembers(q: seq<SendRange>, x: SendRange)
    ensures forall y :: y in Insert(q, x) <==> y in q || y == x
  {
    var r := Insert(q, x);
    forall y ensures y in r <==> y in q || y == x {
      assert y in r <==> y in multiset(r);
      assert y in q <==> y in multiset(q);
    }
  }

  /** Adding x to the queue adds x's channels to those covered, and x's width to the total. */
  lemma {:induction false} InsertCovers(q: seq<SendRange>, x: SendRange)
    ensures forall c :: Covers(Insert(q, x), c) <==> Covers(q, c) || InSpan(x, c)
    ensures SumWidths(Insert(q, x)) == SumWidths(q) + x.Width()
  {
    if q != [] && CompareTo(x.range, q[0].range) >= 0 {
      InsertCovers(q[1..], x);
      assert Insert(q, x)[1..] == Insert(q[1..], x);
    }
  }

  /** The head of a sorted queue starts no later than any element of it. */
  lemma SortedHeadFirst(q: seq<SendRange>)
    requires Sorted(q) && q != []
    ensures forall s :: s in q ==> q[0].Start() <= s.Start()
  {
    forall s | s in q ensures q[0].Start() <= s.Start() {
      var j :| 0 <= j < |q| && q[j] == s;
      if j > 0 {
        assert CompareTo(q[0].range, q[j].range) <= 0;
      }
    }
  }
}
