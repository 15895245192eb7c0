/** SendRange: a range of a source port paired with the ranges of the destination ports
    that receive data from it. Every destination spans as many channels as the sender. */
module SendRanges {
  import opened Wrappers
  import opened Seqs
  import opened MixedRadix
  import opened InstanceGraph
  import opened RuntimeRanges

  datatype SendRange = SendRange(range: Range, destinations: seq<Range>)
  {
    function Start(): int { range.start }
    function Width(): int { range.width }
    function End(): int { range.start + range.width }
  }

  /** A valid range whose destinations are valid ranges of the same width. */
  ghost predicate WellFormedSend(a: Arena, s: SendRange)
  {
    Valid(a, s.range) &&
    forall i :: 0 <= i < |s.destinations| ==> Valid(a, s.destinations[i]) && s.destinations[i].width == s.range.width
  }

  /** Each destination cut down to its first n channels. */
  function HeadAll(a: Arena, ds: seq<Range>, n: int): (hs: seq<Range>)
    requires n > 0 && forall i :: 0 <= i < |ds| ==> Valid(a, ds[i])
    ensures |hs| == |ds|
    ensures forall i :: 0 <= i < |ds| ==> Head(a, ds[i], n) == Some(hs[i])
  {
    seq(|ds|, i requires 0 <= i < |ds| && Valid(a, ds[i]) => Head(a, ds[i], n).value)
  }

  /** Each destination without its first k channels. */
  function TailAll(a: Arena, ds: seq<Range>, k: int): (ts: seq<Range>)
    requires forall i :: 0 <= i < |ds| ==> Valid(a, ds[i]) && k < ds[i].width
    ensures |ts| == |ds|
    ensures forall i :: 0 <= i < |ds| ==> Tail(a, ds[i], k) == Some(ts[i])
  {
    seq(|ds|, i requires 0 <= i < |ds| && Valid(a, ds[i]) && k < ds[i].width => Tail(a, ds[i], k).value)
  }

  /** head(n) of a SendRange: the first n channels, each destination cut down alike;
      the receiver itself if n >= width, None (null) if n <= 0. */
  function SendHead(a: Arena, s: SendRange, n: int): (h: Option<SendRange>)
    requires WellFormedSend(a, s)
    ensures n >= s.Width() ==> h == Some(s)
    ensures n <= 0 <==> h.None?
    ensures 0 < n < s.Width() ==> h.Some? && h.value.Start() == s.Start() && h.value.Width() == n
    ensures h.Some? ==> WellFormedSend(a, h.value) && h.value.range.instance == s.range.instance
    ensures h.Some? ==> (|h.value.destinations| == |s.destinations| &&
      forall i :: 0 <= i < |s.destinations| ==>
        h.value.destinations[i].instance == s.destinations[i].instance &&
        h.value.destinations[i].start == s.destinations[i].start)
  {
    if n >= s.Width() then Some(s)
    else if n <= 0 then None
    else Some(SendRange(Head(a, s.range, n).value, HeadAll(a, s.destinations, n)))
  }

  /** tail(k) of a SendRange: the channels after the first k, each destination shifted alike;
      the receiver itself if k == 0, None (null) if k >= width. */
  function SendTail(a: Arena, s: SendRange, k: int): (t: Option<SendRange>)
    requires WellFormedSend(a, s) && k >= 0
    ensures k == 0 ==> t == Some(s)
    ensures k >= s.Width() <==> t.None?
    ensures 0 < k < s.Width() ==> t.Some? && t.value.Start() == s.Start() + k && t.value.Width() == s.Width() - k
    ensures t.Some? ==> WellFormedSend(a, t.value) && t.value.range.instance == s.range.instance
    ensures t.Some? ==> (t.value.End() == s.End() && |t.value.destinations| == |s.destinations| &&
      forall i :: 0 <= i < |s.destinations| ==>
        t.value.destinations[i].instance == s.destinations[i].instance &&
        t.value.destinations[i].End() == s.destinations[i].End())
  {
    if k == 0 then Some(s)
    else if k >= s.Width() then None
    else Some(SendRange(Tail(a, s.range, k).value, TailAll(a, s.destinations, k)))
  }

  /** newSendRange(r): the same destinations, sent from r instead; when r is narrower, the
      destinations are cut down to r's width. */
  function NewSendRange(a: Arena, s: SendRange, r: Range): (n: SendRange)
    requires WellFormedSend(a, s) && Valid(a, r) && r.width <= s.Width()
    ensures WellFormedSend(a, n) && n.range == r && |n.destinations| == |s.destinations|
    ensures forall i :: 0 <= i < |s.destinations| ==>
      n.destinations[i].instance == s.destinations[i].instance &&
      n.destinations[i].start == s.destinations[i].start
    ensures r.width == s.Width() ==> n.destinations == s.destinations
  {
    var reference := SendHead(a, s, r.width).value;
    SendRange(r, reference.destinations)
  }

  // Channels covered

  /** Channel c lies in [start, start + width) of s. */
  ghost predicate InSpan(s: SendRange, c: int)
  {
    s.Start() <= c < s.End()
  }

  /** Channel c is covered by one of the SendRanges in q. */
  ghost predicate Covers(q: seq<SendRange>, c: int)
  {
    q != [] && (InSpan(q[0], c) || Covers(q[1..], c))
  }

  lemma {:induction false} CoversConcat(x: seq<SendRange>, y: seq<SendRange>, c: int)
    ensures Covers(x + y, c) <==> Covers(x, c) || Covers(y, c)
  {
    if x == [] {
      assert x + y == y;
    } else {
      assert (x + y)[1..] == x[1..] + y;
      CoversConcat(x[1..], y, c);
    }
  }

  /** Every range of q starts no earlier than lo and ends no later than hi. */
  ghost predicate AllWithin(q: seq<SendRange>, lo: int, hi: int)
  {
    forall i :: 0 <= i < |q| ==> lo <= q[i].Start() && q[i].End() <= hi
  }

  /** The ranges of q are in start order and pairwise disjoint. */
  ghost predicate Ordered(q: seq<SendRange>)
  {
    forall i, j :: 0 <= i < j < |q| ==> q[i].End() <= q[j].Start()
  }

  /** The ranges of q lie back to back from lo to hi, without gap or overlap. */
  ghost predicate Tiles(q: seq<SendRange>, lo: int, hi: int)
  {
    if q == [] then lo == hi else q[0].Start() == lo && q[0].Width() >= 1 && Tiles(q[1..], q[0].End(), hi)
  }

  /** The sum of the widths of the ranges of q. */
  function SumWidths(q: seq<SendRange>): int
  {
    if q == [] then 0 else q[0].Width() + SumWidths(q[1..])
  }

  lemma {:induction false} SumWidthsConcat(x: seq<SendRange>, y: seq<SendRange>)
    ensures SumWidths(x + y) == SumWidths(x) + SumWidths(y)
  {
    if x == [] {
      assert x + y == y;
    } else {
      assert (x + y)[1..] == x[1..] + y;
      SumWidthsConcat(x[1..], y);
    }
  }

  /** Ranges that tile [lo, hi) are in order, stay inside [lo, hi), cover it, and their
      widths add up to hi - lo. */
  lemma {:induction false} TilesFacts(q: seq<SendRange>, lo: int, hi: int)
    requires Tiles(q, lo, hi)
    ensures SumWidths(q) == hi - lo && lo <= hi
    ensures Ordered(q) && AllWithin(q, lo, hi)
    ensures forall c :: Covers(q, c) <==> lo <= c < hi
  {
    if q != [] {
      TilesFacts(q[1..], q[0].End(), hi);
    }
  }

  /** Ranges in order, each at least one channel wide, covering exactly [lo, hi), tile it. */
  lemma {:induction false} TilesFromCover(q: seq<SendRange>, lo: int, hi: int)
    requires Ordered(q) && lo <= hi
    requires forall c :: Covers(q, c) <==> lo <= c < hi
    requires forall i :: 0 <= i < |q| ==> q[i].Width() >= 1
    ensures Tiles(q, lo, hi)
  {
    if q == [] {
      assert !Covers(q, lo);
    } else {
      var s := q[0];
      assert Covers(q, s.Start());
      OrderedCovered(q[1..], s.End());
      OrderedCovered(q, s.Start());
      assert s.Start() == lo by {
        assert Covers(q, lo);
      }
      assert s.End() <= hi by {
        assert Covers(q, s.End() - 1);
      }
      forall c ensures Covers(q[1..], c) <==> s.End() <= c < hi {
        if Covers(q[1..], c) {
          assert Covers(q, c);
        }
        if s.End() <= c < hi {
          assert Covers(q, c) && !InSpan(s, c);
        }
      }
      TilesFromCover(q[1..], s.End(), hi);
    }
  }

  /** Ranges that all start at or after lo cover only channels at or after lo. */
  lemma {:induction false} OrderedCovered(q: seq<SendRange>, lo: int)
    requires forall i :: 0 <= i < |q| ==> lo <= q[i].Start()
    ensures forall c :: Covers(q, c) ==> lo <= c
  {
    if q != [] {
      OrderedCovered(q[1..], lo);
    }
  }

  /** Ranges in order inside [lo, hi) have widths adding up to at most hi - lo. */
  lemma {:induction false} OrderedSumBound(q: seq<SendRange>, lo: int, hi: int)
    requires Ordered(q) && AllWithin(q, lo, hi) && lo <= hi
    ensures SumWidths(q) <= hi - lo
  {
    if q != [] {
      OrderedSumBound(q[1..], q[0].End(), hi);
    }
  }

  // Destination reactors

  /** The runtime instances of the reactors containing the destination ranges, each as a pair
      (containing reactor node, natural identifier of its runtime instance). */
  function DestinationReactors(a: Arena, ds: seq<Range>): set<(nat, int)>
    requires forall i :: 0 <= i < |ds| ==> Valid(a, ds[i]) && 1 < a[ds[i].instance].depth
  {
    if ds == [] then {}
    else
      var d := ds[|ds| - 1];
      assert Valid(a, d);
      DestinationReactors(a, ds[..|ds| - 1]) + Keyed(a[d.instance].parent, ParentIdsOf(a, d, 1))
  }

  /** getNumberOfDestinationReactors(): the number of distinct runtime reactor instances that
      contain the destination channels (several destination ports may share a reactor). */
  function NumberOfDestinationReactors(a: Arena, s: SendRange): nat
    requires forall i :: 0 <= i < |s.destinations| ==> Valid(a, s.destinations[i]) && 1 < a[s.destinations[i].instance].depth
  {
    |DestinationReactors(a, s.destinations)|
  }

  /** Each destination contributes at least one and at most its width of reactor instances. */
  lemma {:induction false} DestinationReactorsBounds(a: Arena, ds: seq<Range>)
    requires forall i :: 0 <= i < |ds| ==> Valid(a, ds[i]) && 1 < a[ds[i].instance].depth
    ensures ds != [] ==> |DestinationReactors(a, ds)| >= 1
    ensures |DestinationReactors(a, ds)| <= SumRangeWidths(ds)
  {
    if ds != [] {
      var init, d := ds[..|ds| - 1], ds[|ds| - 1];
      DestinationReactorsBounds(a, init);
      var own := Keyed(a[d.instance].parent, ParentIdsOf(a, d, 1));
      ParentIdsAt(a, d, 1, 0);
      KeyedMembers(a[d.instance].parent, ParentIdsOf(a, d, 1), a[d.instance].parent, ParentIdsOf(a, d, 1)[0]);
      assert |DestinationReactors(a, init) + own| <= |DestinationReactors(a, init)| + |own|;
      SumRangeWidthsSnoc(init, d);
      assert ds == init + [d];
    }
  }

  /** The elements of s, each paired with the fixed key. */
  function Keyed(key: nat, s: seq<int>): (r: set<(nat, int)>)
    ensures |r| <= |s|
  {
    if s == [] then {} else Keyed(key, s[..|s| - 1]) + {(key, s[|s| - 1])}
  }

  lemma {:induction false} KeyedMembers(key: nat, s: seq<int>, k: nat, x: int)
    ensures (k, x) in Keyed(key, s) <==> k == key && x in s
  {
    if s != [] {
      var init := s[..|s| - 1];
      KeyedMembers(key, init, k, x);
      assert s == init + [s[|s| - 1]];
    }
  }

  function SumRangeWidths(ds: seq<Range>): int
  {
    if ds == [] then 0 else SumRangeWidths(ds[..|ds| - 1]) + ds[|ds| - 1].width
  }

  lemma SumRangeWidthsSnoc(ds: seq<Range>, d: Range)
    ensures SumRangeWidths(ds + [d]) == SumRangeWidths(ds) + d.width
  {
    assert (ds + [d])[..|ds|] == ds;
  }
}
