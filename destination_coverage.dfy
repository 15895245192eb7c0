/** What eventualDestinations(srcRange) promises about the channels it returns: the drained
    ranges never overlap, come in channel order and stay inside srcRange; when every channel
    of the port eventually reaches a reaction they cover srcRange exactly, so their widths add
    up to srcRange.width; and the SendRange for the port's own reactions comes on top. */
module DestinationCoverage {
  import opened Wrappers
  import opened InstanceGraph
  import opened RuntimeRanges
  import opened SendRanges
  import opened PortGraphs
  import opened Destinations

  // The drain keeps the channels it is given

  /** Channel x is held by the drain state, in the result or still to be processed. */
  ghost predicate StateCovers(st: DrainState, x: int)
  {
    Covers(st.result, x) || (st.candidate.Some? && InSpan(st.candidate.value, x)) ||
    (st.next.Some? && InSpan(st.next.value, x)) || Covers(st.queue, x)
  }

  lemma CoversSnoc(q: seq<SendRange>, s: SendRange, x: int)
    ensures Covers(q + [s], x) <==> Covers(q, x) || InSpan(s, x)
  {
    CoversConcat(q, [s], x);
    assert [s][1..] == [];
  }

  lemma PollCovers(q: seq<SendRange>, x: int)
    ensures Covers(q, x) <==> (PollHead(q).Some? && InSpan(PollHead(q).value, x)) || Covers(PollRest(q), x)
  {
  }

  /** A step of the drain neither loses nor invents a channel. */
  lemma DrainStepCovers(g: PortGraph, src: Range, st: DrainState, x: int)
    requires DrainInv(g, src, st) && st.candidate.Some?
    ensures StateCovers(DrainStep(g, src, st), x) <==> StateCovers(st, x)
  {
    var c := st.candidate.value;
    if st.next.None? {
      CoversSnoc(st.result, c, x);
    } else {
      var n := st.next.value;
      if c.Start() == n.Start() {
        if c.Width() < n.Width() {
          var t := SendTail(g.arena, n, c.Width()).value;
          InsertCovers(st.queue, t);
          PollCovers(Insert(st.queue, t), x);
        } else if c.Width() == n.Width() {
          PollCovers(st.queue, x);
        }
      } else if c.End() <= n.Start() {
        CoversSnoc(st.result, c, x);
        PollCovers(st.queue, x);
      } else {
        CoversSnoc(st.result, OverlapSplit(g.arena, c, n).0, x);
      }
    }
  }

  /** The drained ranges cover exactly the channels the drain state holds. */
  lemma RunDrainCovers(g: PortGraph, src: Range, st: DrainState, x: int)
    requires DrainInv(g, src, st)
    ensures Covers(RunDrain(g, src, st), x) <==> StateCovers(st, x)
    decreases DrainWeight(g, src, st), SwapPending(st)
  {
    if st.candidate.Some? {
      DrainStepInv(g, src, st);
      DrainStepCovers(g, src, st, x);
      RunDrainCovers(g, src, DrainStep(g, src, st), x);
    }
  }

  /** Draining a queue covers exactly the channels of the queue. */
  lemma DrainAllCovers(g: PortGraph, src: Range, q: seq<SendRange>, x: int)
    requires Sorted(q) && AllSendOver(g, q, src)
    ensures Covers(DrainAll(g, src, q), x) <==> Covers(q, x)
  {
    InitialDrainInv(g, src, q);
    RunDrainCovers(g, src, InitialDrain(q), x);
    PollCovers(q, x);
    PollCovers(PollRest(q), x);
  }

  /** SendRanges of srcRange cover only channels of srcRange. */
  lemma {:induction false} CoversWithin(g: PortGraph, q: seq<SendRange>, src: Range, x: int)
    requires AllSendOver(g, q, src) && Covers(q, x)
    ensures src.start <= x < src.End()
  {
    assert q[0] in q;
    if !InSpan(q[0], x) {
      assert AllSendOver(g, q[1..], src) by {
        forall s | s in q[1..] ensures SendOver(g, s, src) {
          assert s in q;
        }
      }
      CoversWithin(g, q[1..], src, x);
    }
  }

  /** Whatever the connections, the drained part of the result is in channel order, without
      overlap, inside srcRange, and so its widths add up to at most srcRange.width. */
  lemma DrainedInsideSource(g: PortGraph, src: Range)
    requires ValidGraph(g) && RangeOf(g, src)
    ensures var r := Drained(g, src);
      Ordered(r) && AllWithin(r, src.start, src.End()) && SumWidths(r) <= src.width
  {
    var r := Drained(g, src);
    forall i | 0 <= i < |r| ensures src.start <= r[i].Start() && r[i].End() <= src.End() {
      assert r[i] in r;
    }
    OrderedSumBound(r, src.start, src.End());
  }

  // Ranges that reach far enough

  /** The first ranges of q, taken one after another, reach need channels past their start. */
  ghost predicate FillsFrom(q: seq<SendRange>, need: int)
  {
    need <= 0 || (q != [] && (q[0].Width() >= need || FillsFrom(q[1..], need - q[0].Width())))
  }

  lemma {:induction false} TilesFills(q: seq<SendRange>, lo: int, hi: int, need: int)
    requires Tiles(q, lo, hi) && need == hi - lo
    ensures FillsFrom(q, need)
  {
    if q != [] {
      TilesFills(q[1..], q[0].End(), hi, need - q[0].Width());
    }
  }

  /** A covered channel lies in some element of the sequence, and conversely. */
  lemma {:induction false} CoversWitness(q: seq<SendRange>, x: int) returns (s: SendRange)
    requires Covers(q, x)
    ensures s in q && InSpan(s, x)
  {
    if InSpan(q[0], x) {
      s := q[0];
    } else {
      s := CoversWitness(q[1..], x);
    }
  }

  lemma {:induction false} MemberCovers(q: seq<SendRange>, s: SendRange, x: int)
    requires s in q && InSpan(s, x)
    ensures Covers(q, x)
  {
    if q[0] != s {
      assert s in q[1..];
      MemberCovers(q[1..], s, x);
    }
  }

  /** Re-basing only adds to the queue. */
  lemma {:induction false} RebaseKeeps(g: PortGraph, dsts: seq<SendRange>, wSrc: Range, subWidth: int, offset: int,
                                       queue: seq<SendRange>, s: SendRange)
    requires Valid(g.arena, wSrc) && 0 <= offset < subWidth <= wSrc.width
    requires forall j :: 0 <= j < |dsts| ==> Carries(g, dsts[j])
    requires Sorted(queue) && s in queue
    ensures s in Rebase(g, dsts, wSrc, subWidth, offset, queue)
    decreases |dsts|
  {
    if dsts != [] {
      var sent := offset + dsts[0].Width();
      var next := if sent >= subWidth then 0 else sent;
      RebaseCons(g, dsts, wSrc, subWidth, offset, queue, next);
      RebaseKeeps(g, dsts[1..], wSrc, subWidth, next, Insert(queue, Rebased(g.arena, dsts[0], wSrc, offset)), s);
    } else {
      assert Rebase(g, dsts, wSrc, subWidth, offset, queue) == queue;
    }
  }

  /** A re-based SendRange that misses a channel x before subWidth ends before x: its full
      width was re-based, the running offset moves past it without returning to 0, and the
      remaining SendRanges still reach subWidth from there. */
  lemma RebasedMisses(a: Arena, dsts: seq<SendRange>, wSrc: Range, offset: int, subWidth: int, x: int)
    requires Valid(a, wSrc) && 0 <= offset < subWidth <= wSrc.width && dsts != [] && WellFormedSend(a, dsts[0])
    requires wSrc.start + offset <= x < wSrc.start + subWidth
    requires FillsFrom(dsts, subWidth - offset)
    requires !InSpan(Rebased(a, dsts[0], wSrc, offset), x)
    ensures offset + dsts[0].Width() < subWidth && x >= wSrc.start + offset + dsts[0].Width()
    ensures FillsFrom(dsts[1..], subWidth - (offset + dsts[0].Width()))
  {
  }

  /** The re-based copy of the first SendRange is in the queue after re-basing them all. */
  lemma RebaseHead(g: PortGraph, dsts: seq<SendRange>, wSrc: Range, subWidth: int, offset: int,
                   queue: seq<SendRange>)
    requires Valid(g.arena, wSrc) && 0 <= offset < subWidth <= wSrc.width
    requires forall j :: 0 <= j < |dsts| ==> Carries(g, dsts[j])
    requires Sorted(queue) && dsts != []
    ensures WellFormedSend(g.arena, dsts[0])
    ensures Rebased(g.arena, dsts[0], wSrc, offset) in Rebase(g, dsts, wSrc, subWidth, offset, queue)
  {
    var sent := offset + dsts[0].Width();
    var next := if sent >= subWidth then 0 else sent;
    RebaseCons(g, dsts, wSrc, subWidth, offset, queue, next);
    var n := Rebased(g.arena, dsts[0], wSrc, offset);
    RebaseKeeps(g, dsts[1..], wSrc, subWidth, next, Insert(queue, n), n);
  }

  /** A member of the queue after re-basing the rest is a member after re-basing them all. */
  lemma RebaseMember(g: PortGraph, dsts: seq<SendRange>, wSrc: Range, subWidth: int, offset: int,
                     queue: seq<SendRange>, next: int, s: SendRange)
    requires Valid(g.arena, wSrc) && 0 <= offset < subWidth <= wSrc.width
    requires forall j :: 0 <= j < |dsts| ==> Carries(g, dsts[j])
    requires Sorted(queue) && dsts != []
    requires next == if offset + dsts[0].Width() >= subWidth then 0 else offset + dsts[0].Width()
    requires forall j :: 0 <= j < |dsts[1..]| ==> Carries(g, dsts[1..][j])
    requires WellFormedSend(g.arena, dsts[0]) && Sorted(Insert(queue, Rebased(g.arena, dsts[0], wSrc, offset)))
    requires s in Rebase(g, dsts[1..], wSrc, subWidth, next, Insert(queue, Rebased(g.arena, dsts[0], wSrc, offset)))
    ensures s in Rebase(g, dsts, wSrc, subWidth, offset, queue)
  {
    RebaseCons(g, dsts, wSrc, subWidth, offset, queue, next);
  }

  /** When the SendRanges of the sub-destination reach its full width from the running offset,
      their re-based copies cover the source channels from that offset to subWidth. */
  lemma {:induction false} RebaseFills(g: PortGraph, dsts: seq<SendRange>, wSrc: Range, subWidth: int, offset: int,
                                       queue: seq<SendRange>, x: int) returns (s: SendRange)
    requires Valid(g.arena, wSrc) && 0 <= offset < subWidth <= wSrc.width
    requires forall j :: 0 <= j < |dsts| ==> Carries(g, dsts[j])
    requires Sorted(queue) && FillsFrom(dsts, subWidth - offset)
    requires wSrc.start + offset <= x < wSrc.start + subWidth
    ensures s in Rebase(g, dsts, wSrc, subWidth, offset, queue) && InSpan(s, x)
    decreases |dsts|
  {
    assert dsts != [];
    var n := Rebased(g.arena, dsts[0], wSrc, offset);
    if InSpan(n, x) {
      s := n;
      RebaseHead(g, dsts, wSrc, subWidth, offset, queue);
    } else {
      var sent := offset + dsts[0].Width();
      var next := if sent >= subWidth then 0 else sent;
      var q := Insert(queue, n);
      assert next == sent && wSrc.start + next <= x && FillsFrom(dsts[1..], subWidth - next) by {
        RebasedMisses(g.arena, dsts, wSrc, offset, subWidth, x);
      }
      assert (forall j :: 0 <= j < |dsts[1..]| ==> Carries(g, dsts[1..][j])) && Sorted(q) by {
        RestCarries(g, dsts);
        InsertSorted(queue, n);
      }
      s := RebaseFills(g, dsts[1..], wSrc, subWidth, next, q, x);
      RebaseMember(g, dsts, wSrc, subWidth, offset, queue, next, s);
    }
  }

  // Ports whose every channel reaches a reaction

  /** Every channel of port p reaches a reaction: p has dependent reactions, or it feeds
      through to dependent ports that cover it. */
  ghost predicate Complete(g: PortGraph, p: nat)
    requires ValidGraph(g) && p in g.ports
    decreases Rank(g, p), 1
  {
    g.ports[p].hasDependentReactions || FeedsThrough(g, p)
  }

  /** The dependent ports of p are at least as wide together as p (with its banks), and every
      one of them is complete. */
  ghost predicate FeedsThrough(g: PortGraph, p: nat)
    requires ValidGraph(g) && p in g.ports
    decreases Rank(g, p), 0
  {
    var deps := g.ports[p].dependentPorts;
    assert PortOk(g, p);
    MaxWidth(g.arena, p) <= RemainingWidth(deps, 0) &&
    forall i :: 0 <= i < |deps| ==> Complete(g, deps[i].instance)
  }

  /** What the walk must still cover: x is covered, or x lies ahead of the working source and
      the dependent ports left are wide enough to reach it on the first pass. */
  ghost predicate Pending(g: PortGraph, src: Range, wSrc: Option<Range>, wDst: Option<Range>, k: nat,
                          queue: seq<SendRange>, x: int)
    requires WalkReady(g, src, wSrc, wDst, k, queue)
  {
    Covers(queue, x) ||
    (wSrc.Some? && wSrc.value.start <= x < src.End() && WalkMeasure(g, src, wDst, k) >= wSrc.value.width)
  }

  /** Every dependent port of src and the working destination are complete. */
  ghost predicate DependentsComplete(g: PortGraph, src: Range, wDst: Option<Range>)
    requires ValidGraph(g) && IsPort(g, src.instance) && (wDst.Some? ==> RangeOf(g, wDst.value))
  {
    var deps := g.ports[src.instance].dependentPorts;
    assert PortOk(g, src.instance);
    (forall i :: 0 <= i < |deps| ==> Complete(g, deps[i].instance)) &&
    (wDst.Some? ==> Complete(g, wDst.value.instance))
  }

  /** After one step of the walk: the sub-destination is a complete port of lower rank, and the
      walk moves on to a ready state with complete dependents and fewer destination channels left. */
  ghost predicate StepOk(g: PortGraph, src: Range, wSrc: Option<Range>, wDst: Option<Range>, k: nat,
                         queue: seq<SendRange>)
    requires WalkReady(g, src, wSrc, wDst, k, queue) && !WalkDone(g, src, wDst, k)
  {
    var s, d := WorkingSource(src, wSrc), WorkingDestination(g, src, wDst, k);
    var width := Min(s.width, d.width);
    Valid(g.arena, d) && 0 < width <= d.width &&
    var subDst := Head(g.arena, d, width).value;
    RangeOf(g, subDst) && ValidGraph(g) && Complete(g, subDst.instance) && Rank(g, subDst.instance) < Rank(g, src.instance) &&
    Valid(g.arena, s) && subDst.width == width && 0 < width <= s.width &&
    (forall j :: 0 <= j < |EventualDestinationsOf(g, subDst)| ==> Carries(g, EventualDestinationsOf(g, subDst)[j])) &&
    var q := Rebase(g, EventualDestinationsOf(g, subDst), s, width, 0, queue);
    WalkReady(g, src, Tail(g.arena, s, width), Tail(g.arena, d, width), NextIndex(wDst, k), q) &&
    DependentsComplete(g, src, Tail(g.arena, d, width)) &&
    WalkMeasure(g, src, Tail(g.arena, d, width), NextIndex(wDst, k)) < WalkMeasure(g, src, wDst, k)
  }

  lemma StepReady(g: PortGraph, src: Range, wSrc: Option<Range>, wDst: Option<Range>, k: nat,
                  queue: seq<SendRange>)
    requires WalkReady(g, src, wSrc, wDst, k, queue) && !WalkDone(g, src, wDst, k)
    requires DependentsComplete(g, src, wDst)
    ensures StepOk(g, src, wSrc, wDst, k, queue)
  {
    var s := WorkingSource(src, wSrc);
    var d := WorkingDestination(g, src, wDst, k);
    var width := Min(s.width, d.width);
    WalkStepFacts(g, src, wSrc, wDst, k, queue, queue);
    var subDst := Head(g.arena, d, width).value;
    var dsts := EventualDestinationsOf(g, subDst);
    OverCarries(g, dsts, subDst);
    var q := Rebase(g, dsts, s, width, 0, queue);
    RebaseOver(g, dsts, s, width, queue, src);
    WalkStepFacts(g, src, wSrc, wDst, k, queue, q);
    assert Complete(g, d.instance);
  }

  /** The queue after one step of the walk. */
  ghost function StepQueue(g: PortGraph, src: Range, wSrc: Option<Range>, wDst: Option<Range>, k: nat,
                           queue: seq<SendRange>): seq<SendRange>
    requires WalkReady(g, src, wSrc, wDst, k, queue) && !WalkDone(g, src, wDst, k)
    requires StepOk(g, src, wSrc, wDst, k, queue)
  {
    var s, d := WorkingSource(src, wSrc), WorkingDestination(g, src, wDst, k);
    var width := Min(s.width, d.width);
    Rebase(g, EventualDestinationsOf(g, Head(g.arena, d, width).value), s, width, 0, queue)
  }

  /** A channel already covered stays covered. */
  lemma StepKeeps(g: PortGraph, src: Range, wSrc: Option<Range>, wDst: Option<Range>, k: nat,
                  queue: seq<SendRange>, x: int)
    requires WalkReady(g, src, wSrc, wDst, k, queue) && !WalkDone(g, src, wDst, k)
    requires StepOk(g, src, wSrc, wDst, k, queue) && Covers(queue, x)
    ensures Covers(StepQueue(g, src, wSrc, wDst, k, queue), x)
  {
    var s, d := WorkingSource(src, wSrc), WorkingDestination(g, src, wDst, k);
    var width := Min(s.width, d.width);
    var dsts := EventualDestinationsOf(g, Head(g.arena, d, width).value);
    var t := CoversWitness(queue, x);
    RebaseKeeps(g, dsts, s, width, 0, queue, t);
    MemberCovers(StepQueue(g, src, wSrc, wDst, k, queue), t, x);
  }

  /** A channel among those of the step gets covered. */
  lemma StepFills(g: PortGraph, src: Range, wSrc: Option<Range>, wDst: Option<Range>, k: nat,
                  queue: seq<SendRange>, x: int)
    requires WalkReady(g, src, wSrc, wDst, k, queue) && !WalkDone(g, src, wDst, k)
    requires StepOk(g, src, wSrc, wDst, k, queue)
    requires var s, d := WorkingSource(src, wSrc), WorkingDestination(g, src, wDst, k);
      s.start <= x < s.start + Min(s.width, d.width)
    ensures Covers(StepQueue(g, src, wSrc, wDst, k, queue), x)
    decreases Rank(g, src.instance), 0, WalkMeasure(g, src, wDst, k), 0
  {
    var s, d := WorkingSource(src, wSrc), WorkingDestination(g, src, wDst, k);
    var width := Min(s.width, d.width);
    var subDst := Head(g.arena, d, width).value;
    var dsts := EventualDestinationsOf(g, subDst);
    Fills(g, subDst);
    var t := RebaseFills(g, dsts, s, width, 0, queue, x);
    MemberCovers(StepQueue(g, src, wSrc, wDst, k, queue), t, x);
  }

  /** A channel past those of the step stays ahead of the new working source. */
  lemma StepAhead(g: PortGraph, src: Range, wSrc: Option<Range>, wDst: Option<Range>, k: nat,
                  queue: seq<SendRange>, x: int)
    requires WalkReady(g, src, wSrc, wDst, k, queue) && !WalkDone(g, src, wDst, k)
    requires StepOk(g, src, wSrc, wDst, k, queue) && Pending(g, src, wSrc, wDst, k, queue, x)
    requires var s, d := WorkingSource(src, wSrc), WorkingDestination(g, src, wDst, k);
      !Covers(queue, x) && s.start + Min(s.width, d.width) <= x
    ensures var s, d := WorkingSource(src, wSrc), WorkingDestination(g, src, wDst, k);
      var width := Min(s.width, d.width);
      Pending(g, src, Tail(g.arena, s, width), Tail(g.arena, d, width), NextIndex(wDst, k),
              StepQueue(g, src, wSrc, wDst, k, queue), x)
  {
    var s, d := WorkingSource(src, wSrc), WorkingDestination(g, src, wDst, k);
    var width := Min(s.width, d.width);
    assert Tail(g.arena, d, width).None?;
  }

  /** One step of the walk keeps x pending: the re-based eventual destinations of the
      sub-destination cover the channels of the step. */
  lemma StepPending(g: PortGraph, src: Range, wSrc: Option<Range>, wDst: Option<Range>, k: nat,
                    queue: seq<SendRange>, x: int)
    requires WalkReady(g, src, wSrc, wDst, k, queue) && !WalkDone(g, src, wDst, k)
    requires Pending(g, src, wSrc, wDst, k, queue, x) && StepOk(g, src, wSrc, wDst, k, queue)
    ensures var s, d := WorkingSource(src, wSrc), WorkingDestination(g, src, wDst, k);
      var width := Min(s.width, d.width);
      Pending(g, src, Tail(g.arena, s, width), Tail(g.arena, d, width), NextIndex(wDst, k),
              StepQueue(g, src, wSrc, wDst, k, queue), x)
    decreases Rank(g, src.instance), 0, WalkMeasure(g, src, wDst, k), 1
  {
    var s, d := WorkingSource(src, wSrc), WorkingDestination(g, src, wDst, k);
    if Covers(queue, x) {
      StepKeeps(g, src, wSrc, wDst, k, queue, x);
    } else if x < s.start + Min(s.width, d.width) {
      StepFills(g, src, wSrc, wDst, k, queue, x);
    } else {
      StepAhead(g, src, wSrc, wDst, k, queue, x);
    }
  }

  /** The walk covers every channel still pending. */
  lemma WalkCovers(g: PortGraph, src: Range, wSrc: Option<Range>, wDst: Option<Range>, k: nat,
                   queue: seq<SendRange>, x: int)
    requires WalkReady(g, src, wSrc, wDst, k, queue)
    requires DependentsComplete(g, src, wDst) && Pending(g, src, wSrc, wDst, k, queue, x)
    ensures Covers(WalkOf(g, src, wSrc, wDst, k, queue), x)
    decreases Rank(g, src.instance), 0, WalkMeasure(g, src, wDst, k), 2
  {
    if !WalkDone(g, src, wDst, k) {
      var s := WorkingSource(src, wSrc);
      var d := WorkingDestination(g, src, wDst, k);
      var width := Min(s.width, d.width);
      StepReady(g, src, wSrc, wDst, k, queue);
      StepPending(g, src, wSrc, wDst, k, queue, x);
      var q := Rebase(g, EventualDestinationsOf(g, Head(g.arena, d, width).value), s, width, 0, queue);
      WalkCovers(g, src, Tail(g.arena, s, width), Tail(g.arena, d, width), NextIndex(wDst, k), q, x);
    }
  }

  /** The result for a range of a complete port reaches its full width. */
  lemma Fills(g: PortGraph, src: Range)
    requires ValidGraph(g) && RangeOf(g, src) && Complete(g, src.instance)
    ensures FillsFrom(EventualDestinationsOf(g, src), src.width)
    decreases Rank(g, src.instance), 2
  {
    var r := EventualDestinationsOf(g, src);
    var d := Drained(g, src);
    ResultShape(g, src);
    if g.ports[src.instance].hasDependentReactions {
      assert r[0] == Seed(g, src);
    } else {
      DrainedFills(g, src);
    }
  }

  lemma DrainedFills(g: PortGraph, src: Range)
    requires ValidGraph(g) && RangeOf(g, src) && FeedsThrough(g, src.instance)
    ensures FillsFrom(Drained(g, src), src.width)
    decreases Rank(g, src.instance), 1, 1
  {
    DrainedTiles(g, src);
    TilesFills(Drained(g, src), src.start, src.End(), src.width);
  }

  /** When a port feeds through, the drained ranges tile srcRange: back to back, in channel
      order, from its first channel to its last. */
  lemma DrainedTiles(g: PortGraph, src: Range)
    requires ValidGraph(g) && RangeOf(g, src) && FeedsThrough(g, src.instance)
    ensures Tiles(Drained(g, src), src.start, src.End())
    decreases Rank(g, src.instance), 1, 0
  {
    var q := WalkOf(g, src, Some(src), None, 0, []);
    var r := Drained(g, src);
    assert PortOk(g, src.instance);
    assert DependentsComplete(g, src, None);
    assert WalkMeasure(g, src, None, 0) >= src.width;
    forall x ensures Covers(r, x) <==> src.start <= x < src.End() {
      DrainAllCovers(g, src, q, x);
      if src.start <= x < src.End() {
        WalkCovers(g, src, Some(src), None, 0, [], x);
      }
      if Covers(r, x) {
        CoversWithin(g, r, src, x);
      }
    }
    forall i | 0 <= i < |r| ensures r[i].Width() >= 1 {
      assert r[i] in r;
    }
    TilesFromCover(r, src.start, src.End());
  }

  // The documented promise, and where it needs a precondition

  /** For a port without dependent reactions whose channels all reach reactions, the result is
      what the documentation promises: non-overlapping ranges in channel order whose widths
      add up to srcRange.width. */
  lemma EventualDestinationsTiles(g: PortGraph, src: Range)
    requires ValidGraph(g) && RangeOf(g, src)
    requires !g.ports[src.instance].hasDependentReactions && FeedsThrough(g, src.instance)
    ensures var r := EventualDestinationsOf(g, src);
      Tiles(r, src.start, src.End()) && Ordered(r) && AllWithin(r, src.start, src.End()) &&
      SumWidths(r) == src.width
  {
    var r := EventualDestinationsOf(g, src);
    ResultShape(g, src);
    DrainedTiles(g, src);
    TilesFacts(r, src.start, src.End());
  }

  /** A port with dependent reactions that also feeds through gets its channels twice: once in
      the seed and once in the drained ranges, so the widths add up to twice srcRange.width and
      the seed overlaps the drained ranges. */
  lemma SeededCountsTwice(g: PortGraph, src: Range)
    requires ValidGraph(g) && RangeOf(g, src)
    requires g.ports[src.instance].hasDependentReactions && FeedsThrough(g, src.instance)
    ensures var r := EventualDestinationsOf(g, src);
      |r| >= 2 && SumWidths(r) == 2 * src.width && r[0].Start() == r[1].Start() == src.start
  {
    var r := EventualDestinationsOf(g, src);
    var d := Drained(g, src);
    ResultShape(g, src);
    DrainedTiles(g, src);
    TilesFacts(d, src.start, src.End());
    assert r[1..] == d;
  }

  /** The seed: with dependent reactions the first SendRange spans exactly srcRange and sends
      to srcRange; with no dependent ports it is the whole result; with neither, the result is
      empty. */
  lemma SeedFacts(g: PortGraph, src: Range)
    requires ValidGraph(g) && RangeOf(g, src)
    ensures var r := EventualDestinationsOf(g, src);
      g.ports[src.instance].hasDependentReactions ==>
        r != [] && r[0].Start() == src.start && r[0].Width() == src.width && r[0].destinations == [src]
    ensures var r := EventualDestinationsOf(g, src);
      g.ports[src.instance].dependentPorts == [] ==>
        r == if g.ports[src.instance].hasDependentReactions then [Seed(g, src)] else []
  {
    ResultShape(g, src);
    if g.ports[src.instance].dependentPorts == [] {
      assert WalkDone(g, src, None, 0);
      assert WalkOf(g, src, Some(src), None, 0, []) == [];
      assert Drained(g, src) == [];
    }
  }

  /** The equal-start merge: the narrower candidate keeps its destinations and gains every
      destination of next cut down to its width; if next is wider, its remainder goes back on
      the queue, otherwise next is dropped. */
  lemma MergeStep(g: PortGraph, src: Range, st: DrainState)
    requires DrainInv(g, src, st) && st.candidate.Some? && st.next.Some?
    requires st.candidate.value.Start() == st.next.value.Start()
    requires st.candidate.value.Width() <= st.next.value.Width()
    ensures var c, n, r := st.candidate.value, st.next.value, DrainStep(g, src, st);
      r.candidate.Some? && r.candidate.value.range == c.range &&
      r.candidate.value.destinations[..|c.destinations|] == c.destinations &&
      |r.candidate.value.destinations| == |c.destinations| + |n.destinations| &&
      (forall i :: 0 <= i < |n.destinations| ==>
        Head(g.arena, n.destinations[i], c.Width()) == Some(r.candidate.value.destinations[|c.destinations| + i])) &&
      r.result == st.result &&
      (c.Width() < n.Width() ==>
        multiset([r.next.value] + r.queue) == multiset(st.queue) + multiset{SendTail(g.arena, n, c.Width()).value}) &&
      (c.Width() == n.Width() ==> r.next == PollHead(st.queue) && r.queue == PollRest(st.queue))
  {
    var c, n := st.candidate.value, st.next.value;
    if c.Width() < n.Width() {
      var q := Insert(st.queue, SendTail(g.arena, n, c.Width()).value);
      assert q == [q[0]] + q[1..];
      assert multiset(q) == multiset([q[0]] + q[1..]);
    }
  }

  // Lines 381-382 of PortInstance.java

  /** The overlap branch as written: candidate.head(next.start) and candidate.tail(next.start)
      pass the absolute start of next where a width and an offset within the candidate are
      expected. */
  function OverlapAsWritten(a: Arena, c: SendRange, n: SendRange): (parts: (Option<SendRange>, Option<SendRange>))
    requires WellFormedSend(a, c) && c.Start() < n.Start() < c.End()
    ensures c.Start() == 0 ==> parts == (Some(OverlapSplit(a, c, n).0), Some(OverlapSplit(a, c, n).1))
    ensures parts.0.Some? && parts.0.value.Start() == c.Start()
  {
    (SendHead(a, c, n.Start()), SendTail(a, c, n.Start()))
  }

  /** A port of width 4 in a reactor of width 1: channels 1..3 of it, and channels 2..3. */
  function SampleArena(): Arena
  {
    [Node(1, 0, 0), Node(1, 0, 1), Node(4, 1, 2)]
  }

  lemma SampleArenaFacts()
    ensures WellFormed(SampleArena()) && IsInstance(SampleArena(), 2) && MaxWidth(SampleArena(), 2) == 4
  {
    var a := SampleArena();
    MaxWidthProd(a, 2);
    MaxWidthProd(a, 1);
    assert Ancestors(a, 1) == [1];
    assert Ancestors(a, 0) == [];
  }

  /** As written, a candidate starting at channel 1 that overlaps a next starting at channel 2
      is cut into a head that still overlaps next, and a tail that skips past next's start. With
      a candidate of width 2 the tail is null instead, which ends the loop and drops next. The
      corrected split ends the head exactly where next starts. */
  lemma OverlapAsWrittenCounterexample()
    ensures var a := SampleArena();
      var c := SendRange(Range(2, 1, 3, 4, {}, None), []);
      var n := SendRange(Range(2, 2, 2, 4, {}, None), []);
      WellFormedSend(a, c) && WellFormedSend(a, n) &&
      OverlapAsWritten(a, c, n).0.value.End() > n.Start() &&
      OverlapAsWritten(a, c, n).1.value.Start() > n.Start() &&
      OverlapSplit(a, c, n).0.End() == n.Start() && OverlapSplit(a, c, n).1.Start() == n.Start()
    ensures var a := SampleArena();
      var c := SendRange(Range(2, 1, 2, 4, {}, None), []);
      var n := SendRange(Range(2, 2, 2, 4, {}, None), []);
      WellFormedSend(a, c) && OverlapAsWritten(a, c, n).1.None? && OverlapSplit(a, c, n).1.Width() == 1
  {
    SampleArenaFacts();
  }
}
