/** eventualDestinations(srcRange): the walk over the direct downstream connections of a port,
    which fills a priority queue of SendRanges, and the drain of that queue, which merges
    ranges that start together and splits ranges that overlap. The functions are the
    specification; EventualDestinations is the imperative algorithm, proved equal to them. */
module Destinations {
  import opened Wrappers
  import opened InstanceGraph
  import opened RuntimeRanges
  import opened SendRanges
  import opened PortGraphs

  function Min(x: int, y: int): (m: int)
    ensures m <= x && m <= y && (m == x || m == y)
  {
    if x <= y then x else y
  }

  /** The rank that bounds the depth of the recursion through downstream ports. */
  function Rank(g: PortGraph, p: nat): nat
    requires p in g.ports
  {
    g.ports[p].downRank
  }

  /** A SendRange whose destinations are ranges of ports with dependent reactions. */
  ghost predicate Carries(g: PortGraph, s: SendRange)
  {
    WellFormedSend(g.arena, s) && DestsOk(g, s)
  }

  /** The first element of the result when the source port itself has dependent reactions:
      the channels of srcRange, sent to srcRange. */
  function Seed(g: PortGraph, src: Range): (s: SendRange)
    requires ValidGraph(g) && RangeOf(g, src) && g.ports[src.instance].hasDependentReactions
    ensures SendOver(g, s, src) && s.Start() == src.start && s.Width() == src.width && s.destinations == [src]
  {
    SendRange(Make(g.arena, src.instance, src.start, src.width, None), [src])
  }

  /** dstSend.newSendRange(wSrcRange.tail(offset).head(dstSend.width)): the destinations of d,
      sent from the channels of wSrc that begin offset channels in. */
  function Rebased(a: Arena, d: SendRange, wSrc: Range, offset: int): (n: SendRange)
    requires Valid(a, wSrc) && 0 <= offset < wSrc.width && WellFormedSend(a, d)
    ensures WellFormedSend(a, n) && n.range.instance == wSrc.instance
    ensures n.Start() == wSrc.start + offset && n.Width() == Min(d.Width(), wSrc.width - offset)
    ensures |n.destinations| == |d.destinations|
    ensures forall i :: 0 <= i < |d.destinations| ==>
      n.destinations[i].instance == d.destinations[i].instance && n.destinations[i].start == d.destinations[i].start
  {
    var piece := Head(a, Tail(a, wSrc, offset).value, d.Width()).value;
    NewSendRange(a, d, piece)
  }

  /** The re-basing loop: each SendRange of the sub-destination goes on the queue, sent from
      wSrc at a running offset that returns to 0 once it reaches subWidth. */
  function Rebase(g: PortGraph, dsts: seq<SendRange>, wSrc: Range, subWidth: int, offset: int,
                  queue: seq<SendRange>): (r: seq<SendRange>)
    requires Valid(g.arena, wSrc) && 0 <= offset < subWidth <= wSrc.width
    requires forall j :: 0 <= j < |dsts| ==> Carries(g, dsts[j])
    requires Sorted(queue)
    ensures Sorted(r) && |r| == |queue| + |dsts|
    ensures forall s :: s in r ==> (s in queue ||
      (Carries(g, s) && s.range.instance == wSrc.instance &&
       wSrc.start <= s.Start() < wSrc.start + subWidth && s.End() <= wSrc.End()))
    decreases |dsts|
  {
    if dsts == [] then queue
    else
      var d := dsts[0];
      RebaseStep(g, dsts, wSrc, offset, queue);
      var sent := offset + d.Width();
      Rebase(g, dsts[1..], wSrc, subWidth, if sent >= subWidth then 0 else sent,
             Insert(queue, Rebased(g.arena, d, wSrc, offset)))
  }

  /** Adding the first re-based SendRange to the queue. */
  lemma RebaseStep(g: PortGraph, dsts: seq<SendRange>, wSrc: Range, offset: int, queue: seq<SendRange>)
    requires Valid(g.arena, wSrc) && 0 <= offset < wSrc.width
    requires dsts != [] && (forall j :: 0 <= j < |dsts| ==> Carries(g, dsts[j])) && Sorted(queue)
    ensures WellFormedSend(g.arena, dsts[0]) && dsts[0].Width() >= 1
    ensures Carries(g, Rebased(g.arena, dsts[0], wSrc, offset))
    ensures Sorted(Insert(queue, Rebased(g.arena, dsts[0], wSrc, offset)))
    ensures forall y :: y in Insert(queue, Rebased(g.arena, dsts[0], wSrc, offset)) <==>
      y in queue || y == Rebased(g.arena, dsts[0], wSrc, offset)
  {
    var d := dsts[0];
    var n := Rebased(g.arena, d, wSrc, offset);
    InsertSorted(queue, n);
    InsertMembers(queue, n);
    forall i | 0 <= i < |n.destinations| ensures DestOk(g, n.destinations[i]) {
      assert DestOk(g, d.destinations[i]);
    }
  }

  /** wSrc is srcRange or one of its tails. */
  ghost predicate TailOf(a: Arena, w: Range, src: Range)
  {
    Valid(a, w) && w.instance == src.instance && src.start <= w.start && w.End() == src.End()
  }

  /** The state of the walk: working source and destination ranges (None for null), the
      number k of dependent ports taken from the iterator, and the queue. */
  ghost predicate WalkReady(g: PortGraph, src: Range, wSrc: Option<Range>, wDst: Option<Range>, k: nat,
                            queue: seq<SendRange>)
  {
    ValidGraph(g) && RangeOf(g, src) && k <= |g.ports[src.instance].dependentPorts| &&
    (wSrc.Some? ==> TailOf(g.arena, wSrc.value, src)) &&
    (wDst.Some? ==> RangeOf(g, wDst.value) && Rank(g, wDst.value.instance) < Rank(g, src.instance)) &&
    Sorted(queue) && AllSendOver(g, queue, src)
  }

  /** The destination channels the walk has still to consume. */
  function WalkMeasure(g: PortGraph, src: Range, wDst: Option<Range>, k: nat): nat
    requires ValidGraph(g) && RangeOf(g, src) && (wDst.Some? ==> Valid(g.arena, wDst.value))
  {
    assert PortOk(g, src.instance);
    (if wDst.Some? then wDst.value.width else 0) + RemainingWidth(g.ports[src.instance].dependentPorts, k)
  }

  /** The source range of the current step: wSrcRange, or srcRange again once it is null. */
  function WorkingSource(src: Range, wSrc: Option<Range>): Range
  {
    if wSrc.None? then src else wSrc.value
  }

  /** The destination range of the current step: wDstRange, or the next dependent port once it
      is null. */
  function WorkingDestination(g: PortGraph, src: Range, wDst: Option<Range>, k: nat): Range
    requires src.instance in g.ports && (wDst.None? ==> k < |g.ports[src.instance].dependentPorts|)
  {
    if wDst.Some? then wDst.value else g.ports[src.instance].dependentPorts[k]
  }

  function NextIndex(wDst: Option<Range>, k: nat): nat
  {
    if wDst.Some? then k else k + 1
  }

  /** The walk is over: wDstRange is null and the iterator has no next dependent port. */
  predicate WalkDone(g: PortGraph, src: Range, wDst: Option<Range>, k: nat)
    requires src.instance in g.ports
  {
    wDst.None? && k == |g.ports[src.instance].dependentPorts|
  }

  /** A step covers min(wSrc.width, wDst.width) channels of a destination of lower rank, and
      moves to a state of the walk with fewer destination channels left. */
  lemma WalkStepFacts(g: PortGraph, src: Range, wSrc: Option<Range>, wDst: Option<Range>, k: nat,
                      queue: seq<SendRange>, q: seq<SendRange>)
    requires WalkReady(g, src, wSrc, wDst, k, queue) && !WalkDone(g, src, wDst, k)
    requires Sorted(q) && AllSendOver(g, q, src)
    ensures var s, d := WorkingSource(src, wSrc), WorkingDestination(g, src, wDst, k);
      var width := Min(s.width, d.width);
      TailOf(g.arena, s, src) && RangeOf(g, d) && Rank(g, d.instance) < Rank(g, src.instance) && width >= 1 &&
      Head(g.arena, d, width).value.width == width && RangeOf(g, Head(g.arena, d, width).value) &&
      WalkReady(g, src, Tail(g.arena, s, width), Tail(g.arena, d, width), NextIndex(wDst, k), q) &&
      WalkMeasure(g, src, Tail(g.arena, d, width), NextIndex(wDst, k)) < WalkMeasure(g, src, wDst, k)
  {
    assert PortOk(g, src.instance);
    assert Valid(g.arena, src);
  }

  /** One step of the walk, as the loop body takes it. */
  lemma WalkUnfold(g: PortGraph, src: Range, wSrc: Option<Range>, wDst: Option<Range>, k: nat, queue: seq<SendRange>)
    requires WalkReady(g, src, wSrc, wDst, k, queue) && !WalkDone(g, src, wDst, k)
    ensures var s, d := WorkingSource(src, wSrc), WorkingDestination(g, src, wDst, k);
      var width := Min(s.width, d.width);
      Valid(g.arena, d) && 0 < width <= d.width &&
      var subDst := Head(g.arena, d, width).value;
      RangeOf(g, subDst) && Rank(g, subDst.instance) < Rank(g, src.instance) &&
      Valid(g.arena, s) && subDst.width == width && width <= s.width &&
      (forall j :: 0 <= j < |EventualDestinationsOf(g, subDst)| ==> Carries(g, EventualDestinationsOf(g, subDst)[j])) &&
      var q := Rebase(g, EventualDestinationsOf(g, subDst), s, width, 0, queue);
      WalkReady(g, src, Tail(g.arena, s, width), Tail(g.arena, d, width), NextIndex(wDst, k), q) &&
      WalkMeasure(g, src, Tail(g.arena, d, width), NextIndex(wDst, k)) < WalkMeasure(g, src, wDst, k) &&
      WalkOf(g, src, wSrc, wDst, k, queue) == WalkOf(g, src, Tail(g.arena, s, width), Tail(g.arena, d, width), NextIndex(wDst, k), q)
  {
    var s, d := WorkingSource(src, wSrc), WorkingDestination(g, src, wDst, k);
    var width := Min(s.width, d.width);
    WalkStepFacts(g, src, wSrc, wDst, k, queue, queue);
    var subDst := Head(g.arena, d, width).value;
    var dsts := EventualDestinationsOf(g, subDst);
    OverCarries(g, dsts, subDst);
    var q := Rebase(g, dsts, s, width, 0, queue);
    RebaseOver(g, dsts, s, width, queue, src);
    WalkStepFacts(g, src, wSrc, wDst, k, queue, q);
    var r0 := WalkOf(g, src, wSrc, wDst, k, queue);
    var r1 := WalkOf(g, src, Tail(g.arena, s, width), Tail(g.arena, d, width), NextIndex(wDst, k), q);
    assert r0 == r1;
  }

  /** Every SendRange of srcRange carries its destinations. */
  lemma OverCarries(g: PortGraph, q: seq<SendRange>, src: Range)
    requires AllSendOver(g, q, src)
    ensures forall j :: 0 <= j < |q| ==> Carries(g, q[j])
  {
    forall j | 0 <= j < |q| ensures Carries(g, q[j]) {
      assert q[j] in q;
    }
  }

  /** Re-based SendRanges stay within srcRange. */
  lemma RebaseOver(g: PortGraph, dsts: seq<SendRange>, s: Range, subWidth: int, queue: seq<SendRange>, src: Range)
    requires ValidGraph(g) && TailOf(g.arena, s, src) && 0 < subWidth <= s.width
    requires forall j :: 0 <= j < |dsts| ==> Carries(g, dsts[j])
    requires Sorted(queue) && AllSendOver(g, queue, src)
    ensures AllSendOver(g, Rebase(g, dsts, s, subWidth, 0, queue), src)
  {
  }

  /** The while(true) loop of the walk: cover min(wSrc.width, wDst.width) channels, collect the
      eventual destinations of that part of the destination, re-base them onto the source, and
      advance both working ranges; restart the source when it is used up (multicast), and stop
      once the last dependent port is used up. */
  function WalkOf(g: PortGraph, src: Range, wSrc: Option<Range>, wDst: Option<Range>, k: nat,
                  queue: seq<SendRange>): (r: seq<SendRange>)
    requires WalkReady(g, src, wSrc, wDst, k, queue)
    ensures Sorted(r) && AllSendOver(g, r, src)
    decreases Rank(g, src.instance), 0, WalkMeasure(g, src, wDst, k)
  {
    if WalkDone(g, src, wDst, k) then queue
    else
      var s := WorkingSource(src, wSrc);
      var d := WorkingDestination(g, src, wDst, k);
      var width := Min(s.width, d.width);
      WalkStepFacts(g, src, wSrc, wDst, k, queue, queue);
      var subDst := Head(g.arena, d, width).value;
      OverCarries(g, EventualDestinationsOf(g, subDst), subDst);
      var q := Rebase(g, EventualDestinationsOf(g, subDst), s, subDst.width, 0, queue);
      RebaseOver(g, EventualDestinationsOf(g, subDst), s, subDst.width, queue, src);
      WalkStepFacts(g, src, wSrc, wDst, k, queue, q);
      WalkOf(g, src, Tail(g.arena, s, width), Tail(g.arena, d, width), NextIndex(wDst, k), q)
  }

  /** eventualDestinations(srcRange): the seed when the port has dependent reactions, then the
      drained queue. */
  function EventualDestinationsOf(g: PortGraph, src: Range): (r: seq<SendRange>)
    requires ValidGraph(g) && RangeOf(g, src)
    ensures AllSendOver(g, r, src)
    decreases Rank(g, src.instance), 2, 0
  {
    (if g.ports[src.instance].hasDependentReactions then [Seed(g, src)] else []) + Drained(g, src)
  }

  /** The two shapes of the result: the seed then the drained queue, or the drained queue. */
  lemma ResultShape(g: PortGraph, src: Range)
    requires ValidGraph(g) && RangeOf(g, src)
    ensures g.ports[src.instance].hasDependentReactions ==>
      EventualDestinationsOf(g, src) == [Seed(g, src)] + Drained(g, src)
    ensures !g.ports[src.instance].hasDependentReactions ==> EventualDestinationsOf(g, src) == Drained(g, src)
  {
    if !g.ports[src.instance].hasDependentReactions {
      assert [] + Drained(g, src) == Drained(g, src);
    }
  }

  /** The part of the result produced by draining the queue that the walk fills. */
  function Drained(g: PortGraph, src: Range): (r: seq<SendRange>)
    requires ValidGraph(g) && RangeOf(g, src)
    ensures AllSendOver(g, r, src) && Ordered(r)
    decreases Rank(g, src.instance), 1, 0
  {
    DrainAll(g, src, WalkOf(g, src, Some(src), None, 0, []))
  }

  /** Drain a queue: poll candidate and next, then step until there is no candidate. */
  function DrainAll(g: PortGraph, src: Range, q: seq<SendRange>): (r: seq<SendRange>)
    requires Sorted(q) && AllSendOver(g, q, src)
    ensures AllSendOver(g, r, src) && Ordered(r)
  {
    InitialDrainInv(g, src, q);
    RunDrain(g, src, InitialDrain(q))
  }

  // The drain

  /** The variables of the drain loop: candidate, next (None for null), the queue and the
      ranges added to the result so far. */
  datatype DrainState = DrainState(candidate: Option<SendRange>, next: Option<SendRange>,
                                   queue: seq<SendRange>, result: seq<SendRange>)

  /** queue.poll(): the head of the queue and the rest. */
  function PollHead(q: seq<SendRange>): Option<SendRange>
  {
    if q == [] then None else Some(q[0])
  }

  function PollRest(q: seq<SendRange>): seq<SendRange>
  {
    if q == [] then [] else q[1..]
  }

  /** candidate = queue.poll(); next = queue.poll(); */
  function InitialDrain(q: seq<SendRange>): DrainState
  {
    DrainState(PollHead(q), PollHead(PollRest(q)), PollRest(PollRest(q)), [])
  }

  /** What holds at the top of every iteration of the drain loop. */
  ghost predicate DrainInv(g: PortGraph, src: Range, st: DrainState)
  {
    AllSendOver(g, st.queue, src) && Sorted(st.queue) && AllSendOver(g, st.result, src) && Ordered(st.result) &&
    (st.candidate.None? ==> st.next.None?) &&
    (st.next.None? ==> st.queue == []) &&
    (st.candidate.Some? ==>
       SendOver(g, st.candidate.value, src) && forall s :: s in st.result ==> s.End() <= st.candidate.value.Start()) &&
    (st.next.Some? ==>
       SendOver(g, st.next.value, src) && st.candidate.value.Start() <= st.next.value.Start() &&
       forall s :: s in st.queue ==> st.next.value.Start() <= s.Start())
  }

  lemma InitialDrainInv(g: PortGraph, src: Range, q: seq<SendRange>)
    requires Sorted(q) && AllSendOver(g, q, src)
    ensures DrainInv(g, src, InitialDrain(q))
  {
    if |q| >= 2 {
      SortedHeadFirst(q);
      SortedHeadFirst(q[1..]);
      assert q[1] in q;
    }
  }

  /** The narrower candidate takes every destination of next, cut down to its own width. */
  function Merge(a: Arena, c: SendRange, n: SendRange): (m: SendRange)
    requires WellFormedSend(a, c) && WellFormedSend(a, n) && c.Width() <= n.Width()
    ensures WellFormedSend(a, m) && m.range == c.range
    ensures |m.destinations| == |c.destinations| + |n.destinations|
    ensures m.destinations[..|c.destinations|] == c.destinations
    ensures forall i :: 0 <= i < |n.destinations| ==>
      Head(a, n.destinations[i], c.Width()) == Some(m.destinations[|c.destinations| + i]) &&
      m.destinations[|c.destinations| + i].width == c.Width()
  {
    SendRange(c.range, c.destinations + HeadAll(a, n.destinations, c.Width()))
  }

  /** The overlap branch as it should read: the part of the candidate before next starts, and
      the part from there on, split at the offset of next.start within the candidate. */
  function OverlapSplit(a: Arena, c: SendRange, n: SendRange): (parts: (SendRange, SendRange))
    requires WellFormedSend(a, c) && c.Start() < n.Start() < c.End()
    ensures WellFormedSend(a, parts.0) && WellFormedSend(a, parts.1)
    ensures parts.0.Start() == c.Start() && parts.0.End() == n.Start()
    ensures parts.1.Start() == n.Start() && parts.1.End() == c.End()
    ensures parts.0.range.instance == c.range.instance && parts.1.range.instance == c.range.instance
    ensures |parts.0.destinations| == |c.destinations| == |parts.1.destinations|
    ensures forall i :: 0 <= i < |c.destinations| ==>
      parts.0.destinations[i].instance == c.destinations[i].instance &&
      parts.1.destinations[i].instance == c.destinations[i].instance
  {
    var k := n.Start() - c.Start();
    (SendHead(a, c, k).value, SendTail(a, c, k).value)
  }

  /** One iteration of the drain loop. */
  function DrainStep(g: PortGraph, src: Range, st: DrainState): DrainState
    requires DrainInv(g, src, st) && st.candidate.Some?
  {
    var c := st.candidate.value;
    if st.next.None? then DrainState(None, None, [], st.result + [c])
    else
      var n := st.next.value;
      if c.Start() == n.Start() then
        if c.Width() <= n.Width() then
          var merged := Merge(g.arena, c, n);
          if c.Width() < n.Width() then
            var q := Insert(st.queue, SendTail(g.arena, n, c.Width()).value);
            DrainState(Some(merged), PollHead(q), PollRest(q), st.result)
          else
            DrainState(Some(merged), PollHead(st.queue), PollRest(st.queue), st.result)
        else
          DrainState(Some(n), Some(c), st.queue, st.result)
      else if c.End() <= n.Start() then
        DrainState(Some(n), PollHead(st.queue), PollRest(st.queue), st.result + [c])
      else
        var parts := OverlapSplit(g.arena, c, n);
        DrainState(Some(parts.1), st.next, st.queue, st.result + [parts.0])
  }

  function OptWidth(s: Option<SendRange>): int
  {
    if s.Some? then s.value.Width() else 0
  }

  /** The channels still held by candidate, next and the queue. */
  ghost function DrainWeight(g: PortGraph, src: Range, st: DrainState): nat
    requires DrainInv(g, src, st)
  {
    SumWidthsPositive(g, src, st.queue);
    OptWidth(st.candidate) + OptWidth(st.next) + SumWidths(st.queue)
  }

  /** 1 just before a swap: candidate and next start together and candidate is wider. */
  function SwapPending(st: DrainState): nat
  {
    if st.candidate.Some? && st.next.Some? && st.candidate.value.Start() == st.next.value.Start() &&
       st.candidate.value.Width() > st.next.value.Width() then 1 else 0
  }

  lemma {:induction false} SumWidthsPositive(g: PortGraph, src: Range, q: seq<SendRange>)
    requires AllSendOver(g, q, src)
    ensures SumWidths(q) >= |q|
  {
    if q != [] {
      assert q[0] in q;
      assert AllSendOver(g, q[1..], src) by {
        forall s | s in q[1..] ensures SendOver(g, s, src) {
          assert s in q;
        }
      }
      SumWidthsPositive(g, src, q[1..]);
    }
  }

  lemma OrderedSnoc(q: seq<SendRange>, x: SendRange)
    requires Ordered(q) && forall s :: s in q ==> s.End() <= x.Start()
    ensures Ordered(q + [x])
  {
    forall i, j | 0 <= i < j < |q + [x]| ensures (q + [x])[i].End() <= (q + [x])[j].Start() {
      if j == |q| {
        assert (q + [x])[i] in q;
      }
    }
  }

  /** A step keeps the invariant and uses up channels, or else performs a swap. */
  lemma DrainStepInv(g: PortGraph, src: Range, st: DrainState)
    requires DrainInv(g, src, st) && st.candidate.Some?
    ensures DrainInv(g, src, DrainStep(g, src, st))
    ensures DrainWeight(g, src, DrainStep(g, src, st)) < DrainWeight(g, src, st) ||
      (DrainWeight(g, src, DrainStep(g, src, st)) == DrainWeight(g, src, st) &&
       SwapPending(DrainStep(g, src, st)) < SwapPending(st))
  {
    var c := st.candidate.value;
    var r := DrainStep(g, src, st);
    if st.next.None? {
      OrderedSnoc(st.result, c);
    } else {
      var n := st.next.value;
      if c.Start() == n.Start() {
        if c.Width() <= n.Width() {
          DrainMergeInv(g, src, st);
        }
      } else if c.End() <= n.Start() {
        OrderedSnoc(st.result, c);
        PollInv(g, src, st.queue, n.Start());
      } else {
        var parts := OverlapSplit(g.arena, c, n);
        OrderedSnoc(st.result, parts.0);
        assert Carries(g, parts.0) && Carries(g, parts.1) by {
          forall i | 0 <= i < |parts.0.destinations| ensures DestOk(g, parts.0.destinations[i]) && DestOk(g, parts.1.destinations[i]) {
            assert DestOk(g, c.destinations[i]);
          }
        }
      }
    }
  }

  /** Polling a sorted queue whose elements start at or after lo. */
  lemma PollInv(g: PortGraph, src: Range, q: seq<SendRange>, lo: int)
    requires Sorted(q) && AllSendOver(g, q, src) && forall s :: s in q ==> lo <= s.Start()
    ensures PollHead(q).Some? ==> (SendOver(g, PollHead(q).value, src) && lo <= PollHead(q).value.Start() &&
      forall s :: s in PollRest(q) ==> PollHead(q).value.Start() <= s.Start())
    ensures PollHead(q).None? ==> PollRest(q) == []
    ensures Sorted(PollRest(q)) && AllSendOver(g, PollRest(q), src)
    ensures forall s :: s in PollRest(q) ==> lo <= s.Start()
    ensures SumWidths(q) == OptWidth(PollHead(q)) + SumWidths(PollRest(q))
  {
    if q != [] {
      assert q[0] in q;
      SortedHeadFirst(q);
    }
  }

  lemma DrainMergeInv(g: PortGraph, src: Range, st: DrainState)
    requires DrainInv(g, src, st) && st.candidate.Some? && st.next.Some?
    requires st.candidate.value.Start() == st.next.value.Start()
    requires st.candidate.value.Width() <= st.next.value.Width()
    ensures DrainInv(g, src, DrainStep(g, src, st))
    ensures DrainWeight(g, src, DrainStep(g, src, st)) < DrainWeight(g, src, st)
  {
    var c, n := st.candidate.value, st.next.value;
    var merged := Merge(g.arena, c, n);
    assert SendOver(g, merged, src) by {
      forall i | 0 <= i < |merged.destinations| ensures DestOk(g, merged.destinations[i]) {
        if i < |c.destinations| {
          assert merged.destinations[i] == merged.destinations[..|c.destinations|][i];
          assert DestOk(g, c.destinations[i]);
        } else {
          assert DestOk(g, n.destinations[i - |c.destinations|]);
        }
      }
    }
    if c.Width() < n.Width() {
      var t := SendTail(g.arena, n, c.Width()).value;
      assert SendOver(g, t, src) by {
        forall i | 0 <= i < |t.destinations| ensures DestOk(g, t.destinations[i]) {
          assert DestOk(g, n.destinations[i]);
        }
      }
      var q := Insert(st.queue, t);
      InsertSorted(st.queue, t);
      InsertMembers(st.queue, t);
      InsertCovers(st.queue, t);
      PollInv(g, src, q, c.Start());
    } else {
      PollInv(g, src, st.queue, c.Start());
    }
  }

  /** Repeat the step until there is no candidate. */
  function RunDrain(g: PortGraph, src: Range, st: DrainState): (r: seq<SendRange>)
    requires DrainInv(g, src, st)
    ensures AllSendOver(g, r, src) && Ordered(r)
    decreases DrainWeight(g, src, st), SwapPending(st)
  {
    if st.candidate.None? then st.result
    else
      DrainStepInv(g, src, st);
      RunDrain(g, src, DrainStep(g, src, st))
  }

  // The algorithm

  /** eventualDestinations(srcRange), step by step as the compiler runs it: the seed, the
      walk that fills the queue, and the drain. */
  method EventualDestinations(g: PortGraph, src: Range) returns (result: seq<SendRange>)
    requires ValidGraph(g) && RangeOf(g, src)
    ensures result == EventualDestinationsOf(g, src)
    decreases Rank(g, src.instance), 1
  {
    result := [];
    if g.ports[src.instance].hasDependentReactions {
      var seed := NewRange(g.arena, src.instance, src.start, src.width, None);
      result := result + [SendRange(seed, [src])];
      assert result == [Seed(g, src)];
    }
    var queue := Walk(g, src);
    var drained := Drain(g, src, queue);
    assert drained == Drained(g, src);
    ResultShape(g, src);
    result := result + drained;
  }

  /** The while(true) loop over the dependent ports. */
  method Walk(g: PortGraph, src: Range) returns (queue: seq<SendRange>)
    requires ValidGraph(g) && RangeOf(g, src)
    ensures queue == WalkOf(g, src, Some(src), None, 0, [])
    decreases Rank(g, src.instance), 0, 1
  {
    queue := [];
    var wSrc: Option<Range> := Some(src);
    var deps := g.ports[src.instance].dependentPorts;
    if |deps| == 0 {
      assert WalkDone(g, src, None, 0);
      return;
    }
    assert PortOk(g, src.instance);
    var wDst: Option<Range> := Some(deps[0]);
    var k: nat := 1;
    WalkUnfold(g, src, Some(src), None, 0, []);
    WalkUnfold(g, src, wSrc, wDst, k, queue);
    while true
      invariant WalkReady(g, src, wSrc, wDst, k, queue)
      invariant WalkOf(g, src, wSrc, wDst, k, queue) == WalkOf(g, src, Some(src), None, 0, [])
      decreases WalkMeasure(g, src, wDst, k)
    {
      if wDst.None? && k == |deps| {
        break;
      }
      wSrc, wDst, k, queue := WalkStep(g, src, wSrc, wDst, k, queue);
    }
  }

  /** One pass of the loop body: take the next dependent port when wDstRange is null, restart
      srcRange when wSrcRange is null, and re-base the eventual destinations of the covered part
      of the destination. */
  method WalkStep(g: PortGraph, src: Range, wSrc: Option<Range>, wDst: Option<Range>, k: nat, queue: seq<SendRange>)
    returns (wSrc': Option<Range>, wDst': Option<Range>, k': nat, queue': seq<SendRange>)
    requires WalkReady(g, src, wSrc, wDst, k, queue) && !WalkDone(g, src, wDst, k)
    ensures WalkReady(g, src, wSrc', wDst', k', queue')
    ensures WalkMeasure(g, src, wDst', k') < WalkMeasure(g, src, wDst, k)
    ensures WalkOf(g, src, wSrc', wDst', k', queue') == WalkOf(g, src, wSrc, wDst, k, queue)
    decreases Rank(g, src.instance), 0, 0
  {
    WalkUnfold(g, src, wSrc, wDst, k, queue);
    var s := if wSrc.None? then src else wSrc.value;
    var d: Range;
    if wDst.None? {
      d := g.ports[src.instance].dependentPorts[k];
      k' := k + 1;
    } else {
      d := wDst.value;
      k' := k;
    }
    var width := Min(s.width, d.width);
    var subDst := Head(g.arena, d, width).value;
    var dstSendRanges := EventualDestinations(g, subDst);
    queue' := RebaseAll(g, dstSendRanges, s, subDst.width, queue);
    wSrc' := Tail(g.arena, s, width);
    wDst' := Tail(g.arena, d, width);
  }

  /** The for loop that re-bases the SendRanges of one sub-destination onto the source. */
  method RebaseAll(g: PortGraph, dstSendRanges: seq<SendRange>, wSrc: Range, subWidth: int, queue0: seq<SendRange>)
    returns (queue: seq<SendRange>)
    requires Valid(g.arena, wSrc) && 0 < subWidth <= wSrc.width
    requires forall j :: 0 <= j < |dstSendRanges| ==> Carries(g, dstSendRanges[j])
    requires Sorted(queue0)
    ensures queue == Rebase(g, dstSendRanges, wSrc, subWidth, 0, queue0)
  {
    queue := queue0;
    var sendOffset := 0;
    assert dstSendRanges[0..] == dstSendRanges;
    for i := 0 to |dstSendRanges|
      invariant 0 <= sendOffset < subWidth && Sorted(queue)
      invariant Rebase(g, dstSendRanges[i..], wSrc, subWidth, sendOffset, queue) ==
                Rebase(g, dstSendRanges, wSrc, subWidth, 0, queue0)
    {
      var dstSend := dstSendRanges[i];
      ghost var rest := dstSendRanges[i..];
      assert rest[0] == dstSend && rest[1..] == dstSendRanges[i + 1..];
      assert forall j :: 0 <= j < |rest| ==> Carries(g, rest[j]);
      var offset := sendOffset;
      sendOffset := sendOffset + dstSend.Width();
      if sendOffset >= subWidth {
        sendOffset := 0;
      }
      RebaseCons(g, rest, wSrc, subWidth, offset, queue, sendOffset);
      queue := Insert(queue, Rebased(g.arena, dstSend, wSrc, offset));
    }
  }

  lemma RestCarries(g: PortGraph, dsts: seq<SendRange>)
    requires dsts != [] && forall j :: 0 <= j < |dsts| ==> Carries(g, dsts[j])
    ensures forall j :: 0 <= j < |dsts[1..]| ==> Carries(g, dsts[1..][j])
  {
    forall j | 0 <= j < |dsts[1..]| ensures Carries(g, dsts[1..][j]) {
      assert dsts[1..][j] == dsts[j + 1];
    }
  }

  /** The re-basing loop, one SendRange at a time. */
  lemma RebaseCons(g: PortGraph, dsts: seq<SendRange>, wSrc: Range, subWidth: int, offset: int,
                   queue: seq<SendRange>, next: int)
    requires Valid(g.arena, wSrc) && 0 <= offset < subWidth <= wSrc.width
    requires forall j :: 0 <= j < |dsts| ==> Carries(g, dsts[j])
    requires Sorted(queue) && dsts != []
    requires next == if offset + dsts[0].Width() >= subWidth then 0 else offset + dsts[0].Width()
    ensures forall j :: 0 <= j < |dsts[1..]| ==> Carries(g, dsts[1..][j])
    ensures WellFormedSend(g.arena, dsts[0]) && dsts[0].Width() >= 1
    ensures Sorted(Insert(queue, Rebased(g.arena, dsts[0], wSrc, offset)))
    ensures forall y :: y in Insert(queue, Rebased(g.arena, dsts[0], wSrc, offset)) <==>
      y in queue || y == Rebased(g.arena, dsts[0], wSrc, offset)
    ensures 0 <= next < subWidth
    ensures Rebase(g, dsts, wSrc, subWidth, offset, queue) ==
      Rebase(g, dsts[1..], wSrc, subWidth, next, Insert(queue, Rebased(g.arena, dsts[0], wSrc, offset)))
  {
    RestCarries(g, dsts);
    RebaseStep(g, dsts, wSrc, offset, queue);
    var q := Insert(queue, Rebased(g.arena, dsts[0], wSrc, offset));
    var r0 := Rebase(g, dsts, wSrc, subWidth, offset, queue);
    var r1 := Rebase(g, dsts[1..], wSrc, subWidth, next, q);
    assert r0 == r1;
  }

  /** The loop that drains the queue into non-overlapping SendRanges. */
  method Drain(g: PortGraph, src: Range, queue0: seq<SendRange>) returns (drained: seq<SendRange>)
    requires Sorted(queue0) && AllSendOver(g, queue0, src)
    ensures drained == DrainAll(g, src, queue0)
  {
    InitialDrainInv(g, src, queue0);
    var queue := queue0;
    var candidate := PollHead(queue);
    queue := PollRest(queue);
    var next := PollHead(queue);
    queue := PollRest(queue);
    drained := [];
    while candidate.Some?
      invariant DrainInv(g, src, DrainState(candidate, next, queue, drained))
      invariant RunDrain(g, src, DrainState(candidate, next, queue, drained)) == DrainAll(g, src, queue0)
      decreases DrainWeight(g, src, DrainState(candidate, next, queue, drained)),
                SwapPending(DrainState(candidate, next, queue, drained))
    {
      ghost var st := DrainState(candidate, next, queue, drained);
      DrainStepInv(g, src, st);
      var c := candidate.value;
      if next.None? {
        drained := drained + [c];
        assert DrainStep(g, src, st) == DrainState(None, None, [], drained);
        break;
      }
      var n := next.value;
      if c.Start() == n.Start() {
        if c.Width() <= n.Width() {
          candidate := MergeInto(g.arena, c, n);
          if c.Width() < n.Width() {
            queue := Insert(queue, SendTail(g.arena, n, c.Width()).value);
          }
          next := PollHead(queue);
          queue := PollRest(queue);
        } else {
          candidate, next := next, candidate;
        }
      } else {
        if c.End() <= n.Start() {
          drained := drained + [c];
          candidate := next;
          next := PollHead(queue);
          queue := PollRest(queue);
        } else {
          var parts := OverlapSplit(g.arena, c, n);
          drained := drained + [parts.0];
          candidate := Some(parts.1);
        }
      }
      assert DrainState(candidate, next, queue, drained) == DrainStep(g, src, st);
    }
  }

  /** The loop that adds next's destinations, cut down to the candidate's width, to the
      candidate. */
  method MergeInto(a: Arena, c: SendRange, n: SendRange) returns (m: Option<SendRange>)
    requires WellFormedSend(a, c) && WellFormedSend(a, n) && c.Width() <= n.Width()
    ensures m == Some(Merge(a, c, n))
  {
    var destinations := c.destinations;
    for i := 0 to |n.destinations|
      invariant destinations == c.destinations + HeadAll(a, n.destinations[..i], c.Width())
    {
      assert n.destinations[..i + 1] == n.destinations[..i] + [n.destinations[i]];
      destinations := destinations + [Head(a, n.destinations[i], c.Width()).value];
    }
    assert n.destinations[..|n.destinations|] == n.destinations;
    m := Some(SendRange(c.range, destinations));
  }
}
