/** The connectivity caches of PortInstance: eventualDestinations() and eventualSources()
    remember the lists they compute in fields of the port, clearCaches() forgets them, and
    numDestinationReactors() sums over the remembered destinations. One PortCaches object holds
    the cache fields of every port of the graph, keyed by the port's node; a port without an
    entry has a null cache field. */
module Connectivity {
  import opened Wrappers
  import opened InstanceGraph
  import opened RuntimeRanges
  import opened SendRanges
  import opened PortGraphs
  import Destinations

  /** An element of an eventualSources list: the full range of a port written by reactions. */
  ghost predicate SourceOk(g: PortGraph, r: Range)
  {
    ValidGraph(g) && r.instance in g.ports && g.ports[r.instance].hasDependsOnReactions &&
    r == FullRange(g, r.instance)
  }

  /** Every cached source list belongs to a port of the graph and lists only writers. */
  ghost predicate SourceCacheOk(g: PortGraph, sc: map<nat, seq<Range>>)
  {
    ValidGraph(g) &&
    forall p :: p in sc ==> p in g.ports && forall i :: 0 <= i < |sc[p]| ==> SourceOk(g, sc[p][i])
  }

  /** The channels [covered, covered + w) of a port and the channels of range share one. */
  predicate Shares(covered: int, w: int, range: Range)
  {
    covered < range.start + range.width && range.start < covered + w
  }

  /** The test eventualSources applies to the upstream range that occupies channels
      [covered, covered + w) of the port: it follows every range sharing a channel with range,
      and also the range that ends exactly where range starts. */
  function Passes(covered: int, w: int, range: Range): (b: bool)
    ensures w >= 1 && range.width >= 1 ==> (b <==> Shares(covered, w, range) || covered + w == range.start)
  {
    covered + w >= range.start && covered < range.start + range.width
  }

  /** eventualSources(range) of port p on the source caches sc: the list returned and the caches
      afterwards. The list of p is created empty before the upstream ports are visited, and the
      lists found upstream are appended to it in dependsOnPorts order. */
  function SourcesOf(g: PortGraph, p: nat, range: Range, sc: map<nat, seq<Range>>): (res: (seq<Range>, map<nat, seq<Range>>))
    requires ValidGraph(g) && p in g.ports
    ensures sc.Keys <= res.1.Keys && p in res.1 && res.0 == res.1[p]
    decreases g.ports[p].upRank, 1
  {
    if p in sc then (sc[p], sc)
    else if g.ports[p].hasDependsOnReactions then
      var full := FullRange(g, p);
      ([full], sc[p := [full]])
    else
      var sc' := Upstream(g, p, range, 0, 0, sc[p := []]);
      (sc'[p], sc')
  }

  /** The loop of eventualSources over dependsOnPorts[k..], with covered channels before k. */
  function Upstream(g: PortGraph, p: nat, range: Range, k: nat, covered: int, sc: map<nat, seq<Range>>): (sc': map<nat, seq<Range>>)
    requires ValidGraph(g) && p in g.ports && k <= |g.ports[p].dependsOnPorts| && p in sc
    ensures sc.Keys <= sc'.Keys
    decreases g.ports[p].upRank, 0, |g.ports[p].dependsOnPorts| - k
  {
    var ups := g.ports[p].dependsOnPorts;
    if k == |ups| then sc
    else
      assert PortOk(g, p);
      var sourceRange := ups[k];
      if Passes(covered, sourceRange.width, range) then
        var res := SourcesOf(g, sourceRange.instance, sourceRange, sc);
        Upstream(g, p, range, k + 1, covered + sourceRange.width, res.1[p := res.1[p] + res.0])
      else
        Upstream(g, p, range, k + 1, covered + sourceRange.width, sc)
  }

  /** eventualSources lists only the full ranges of ports written by reactions, and it never
      changes a list that was already cached. */
  lemma {:induction false} SourcesFacts(g: PortGraph, p: nat, range: Range, sc: map<nat, seq<Range>>)
    requires ValidGraph(g) && p in g.ports && SourceCacheOk(g, sc)
    ensures SourceCacheOk(g, SourcesOf(g, p, range, sc).1)
    ensures forall i :: 0 <= i < |SourcesOf(g, p, range, sc).0| ==> SourceOk(g, SourcesOf(g, p, range, sc).0[i])
    ensures forall q :: q in sc ==> SourcesOf(g, p, range, sc).1[q] == sc[q]
    decreases g.ports[p].upRank, 1
  {
    if p !in sc && !g.ports[p].hasDependsOnReactions {
      UpstreamFacts(g, p, range, 0, 0, sc[p := []]);
    }
  }

  lemma {:induction false} UpstreamFacts(g: PortGraph, p: nat, range: Range, k: nat, covered: int, sc: map<nat, seq<Range>>)
    requires ValidGraph(g) && p in g.ports && k <= |g.ports[p].dependsOnPorts| && p in sc
    requires SourceCacheOk(g, sc)
    ensures SourceCacheOk(g, Upstream(g, p, range, k, covered, sc))
    ensures forall q :: q in sc && q != p ==> Upstream(g, p, range, k, covered, sc)[q] == sc[q]
    decreases g.ports[p].upRank, 0, |g.ports[p].dependsOnPorts| - k, 1
  {
    var ups := g.ports[p].dependsOnPorts;
    if k < |ups| {
      if Passes(covered, ups[k].width, range) {
        UpstreamFollows(g, p, range, k, covered, sc);
      } else {
        UpstreamFacts(g, p, range, k + 1, covered + ups[k].width, sc);
      }
    }
  }

  /** The turn of the loop that follows dependsOnPorts[k]. */
  lemma {:induction false} UpstreamFollows(g: PortGraph, p: nat, range: Range, k: nat, covered: int, sc: map<nat, seq<Range>>)
    requires ValidGraph(g) && p in g.ports && k < |g.ports[p].dependsOnPorts| && p in sc
    requires SourceCacheOk(g, sc)
    requires Passes(covered, g.ports[p].dependsOnPorts[k].width, range)
    ensures SourceCacheOk(g, Upstream(g, p, range, k, covered, sc))
    ensures forall q :: q in sc && q != p ==> Upstream(g, p, range, k, covered, sc)[q] == sc[q]
    decreases g.ports[p].upRank, 0, |g.ports[p].dependsOnPorts| - k, 0
  {
    assert PortOk(g, p);
    var sourceRange := g.ports[p].dependsOnPorts[k];
    var res := SourcesOf(g, sourceRange.instance, sourceRange, sc);
    SourcesFacts(g, sourceRange.instance, sourceRange, sc);
    var next := res.1[p := res.1[p] + res.0];
    AppendSources(g, res.1, p, res.0);
    UpstreamFacts(g, p, range, k + 1, covered + sourceRange.width, next);
  }

  /** Appending writers to a cached source list keeps the caches well formed. */
  lemma AppendSources(g: PortGraph, sc: map<nat, seq<Range>>, p: nat, sub: seq<Range>)
    requires SourceCacheOk(g, sc) && p in sc
    requires forall i :: 0 <= i < |sub| ==> SourceOk(g, sub[i])
    ensures SourceCacheOk(g, sc[p := sc[p] + sub])
  {
    var list := sc[p] + sub;
    assert forall i :: 0 <= i < |list| ==> SourceOk(g, list[i]) by {
      forall i | 0 <= i < |list| ensures SourceOk(g, list[i]) {
        if i < |sc[p]| {
          assert list[i] == sc[p][i];
        } else {
          assert list[i] == sub[i - |sc[p]|];
        }
      }
    }
  }

  /** Removing cached source lists keeps the others well formed. */
  lemma SourceCacheShrinks(g: PortGraph, sc: map<nat, seq<Range>>, sc': map<nat, seq<Range>>)
    requires SourceCacheOk(g, sc) && Shrinks(sc, sc')
    ensures SourceCacheOk(g, sc')
  {
  }

  /** m' keeps some of the entries of m, unchanged, and adds none. */
  ghost predicate Shrinks<V>(m: map<nat, V>, m': map<nat, V>)
  {
    forall q :: q in m' ==> q in m && m'[q] == m[q]
  }

  /** m' keeps every entry of m whose key is in keep. */
  ghost predicate Keeps<V>(m: map<nat, V>, m': map<nat, V>, keep: set<nat>)
  {
    forall q :: q in m && q in keep ==> q in m'
  }

  /** The destinations of s are ranges of ports, so its reactor count is defined. */
  ghost predicate CountDefined(a: Arena, s: SendRange)
  {
    forall j :: 0 <= j < |s.destinations| ==> Valid(a, s.destinations[j]) && 1 < a[s.destinations[j].instance].depth
  }

  ghost predicate CountsDefined(a: Arena, q: seq<SendRange>)
  {
    forall i :: 0 <= i < |q| ==> CountDefined(a, q[i])
  }

  /** The sum of getNumberOfDestinationReactors() over q. */
  function SumReactors(a: Arena, q: seq<SendRange>): nat
    requires CountsDefined(a, q)
  {
    if q == [] then 0
    else NumberOfDestinationReactors(a, q[0]) + SumReactors(a, q[1..])
  }

  /** The total width of the destinations of every element of q. */
  function SumDestinationWidths(q: seq<SendRange>): int
  {
    if q == [] then 0
    else SumRangeWidths(q[0].destinations) + SumDestinationWidths(q[1..])
  }

  /** Each send range with destinations counts at least one reactor, and no send range counts
      more reactors than it has destination channels. */
  lemma {:induction false} SumReactorsBounds(a: Arena, q: seq<SendRange>)
    requires CountsDefined(a, q)
    ensures (forall i :: 0 <= i < |q| ==> q[i].destinations != []) ==> |q| <= SumReactors(a, q)
    ensures SumReactors(a, q) <= SumDestinationWidths(q)
  {
    if q != [] {
      SumReactorsBounds(a, q[1..]);
      DestinationReactorsBounds(a, q[0].destinations);
    }
  }

  /** The send ranges from a source port count their destination reactors. */
  lemma SendsCounted(g: PortGraph, q: seq<SendRange>, src: Range)
    requires AllSendOver(g, q, src)
    ensures CountsDefined(g.arena, q)
  {
    forall i | 0 <= i < |q| ensures CountDefined(g.arena, q[i]) {
      assert SendOver(g, q[i], src);
      forall j | 0 <= j < |q[i].destinations|
        ensures Valid(g.arena, q[i].destinations[j]) && 1 < g.arena[q[i].destinations[j].instance].depth
      {
        assert DestOk(g, q[i].destinations[j]);
      }
    }
  }

  /** The destinations of the send ranges from a source port are ports of the graph. */
  lemma SendsToPorts(g: PortGraph, q: seq<SendRange>, src: Range)
    requires AllSendOver(g, q, src)
    ensures TargetsPorts(g, q)
  {
    forall i | 0 <= i < |q| ensures OnPorts(g, q[i].destinations) {
      assert SendOver(g, q[i], src);
      forall j | 0 <= j < |q[i].destinations| ensures q[i].destinations[j].instance in g.ports {
        assert DestOk(g, q[i].destinations[j]);
      }
    }
  }

  /** A port read by reactions has at least one destination reactor: its own container. */
  lemma ListenerHasReactor(g: PortGraph, p: nat)
    requires ValidGraph(g) && p in g.ports && g.ports[p].hasDependentReactions
    ensures CountsDefined(g.arena, Destinations.EventualDestinationsOf(g, FullRange(g, p)))
    ensures SumReactors(g.arena, Destinations.EventualDestinationsOf(g, FullRange(g, p))) >= 1
  {
    var src := FullRange(g, p);
    var r := Destinations.EventualDestinationsOf(g, src);
    SendsCounted(g, r, src);
    var seed := Destinations.Seed(g, src);
    assert r == [seed] + Destinations.Drained(g, src);
    assert r[0] == seed && seed.destinations == [src];
    DestinationReactorsBounds(g.arena, seed.destinations);
  }

  /** Every cached destination list is the one eventualDestinations computes for the full range
      of its port. */
  ghost predicate DestinationsCached(g: PortGraph, dc: map<nat, seq<SendRange>>)
  {
    ValidGraph(g) &&
    forall p :: p in dc ==> p in g.ports && dc[p] == Destinations.EventualDestinationsOf(g, FullRange(g, p))
  }

  /** Removing entries from the destination caches keeps the others correct. */
  lemma DestinationsCachedShrinks(g: PortGraph, dc: map<nat, seq<SendRange>>, dc': map<nat, seq<SendRange>>)
    requires DestinationsCached(g, dc) && Shrinks(dc, dc')
    ensures DestinationsCached(g, dc')
  {
  }

  /** The ranges in ds are ranges of ports of the graph. */
  ghost predicate OnPorts(g: PortGraph, ds: seq<Range>)
  {
    forall j :: 0 <= j < |ds| ==> ds[j].instance in g.ports
  }

  /** The destinations listed in q are ports of the graph. */
  ghost predicate TargetsPorts(g: PortGraph, q: seq<SendRange>)
  {
    forall i :: 0 <= i < |q| ==> OnPorts(g, q[i].destinations)
  }

  class PortCaches {
    /** The ports and their connections. */
    const g: PortGraph
    /** eventualDestinationRanges of the ports whose field is not null. */
    var destinationCache: map<nat, seq<SendRange>>
    /** eventualSourceRanges of the ports whose field is not null. */
    var sourceCache: map<nat, seq<Range>>
    /** The ports whose clearingCaches flag is set. */
    var clearing: set<nat>

    /** The cached lists name ports of the graph, and only ports of the graph are being
        cleared. That the graph itself is well formed and acyclic is ValidGraph(g), fixed at
        construction; that the cached destination lists are the computed ones is
        DestinationsCached(g, destinationCache); that the cached source lists list writers is
        SourceCacheOk(g, sourceCache). */
    ghost predicate Valid()
      reads this
    {
      (forall p :: p in destinationCache ==> p in g.ports && TargetsPorts(g, destinationCache[p])) &&
      (forall p :: p in sourceCache ==> p in g.ports && OnPorts(g, sourceCache[p])) &&
      clearing <= g.ports.Keys
    }

    /** Compared with the caches dc and sc, entries have only been removed, and none of a port
        in keep. */
    ghost predicate Trimmed(dc: map<nat, seq<SendRange>>, sc: map<nat, seq<Range>>, keep: set<nat>)
      reads this
    {
      Shrinks(dc, destinationCache) && Shrinks(sc, sourceCache) &&
      Keeps(dc, destinationCache, keep) && Keeps(sc, sourceCache, keep)
    }

    /** Both cache fields of q are null. */
    ghost predicate Cleared(q: nat)
      reads this
    {
      q !in destinationCache && q !in sourceCache
    }

    /** The ports as constructed: every cache null and no clearing in progress. */
    constructor (graph: PortGraph)
      requires ValidGraph(graph)
      ensures ValidGraph(g) && Valid() && g == graph
      ensures destinationCache == map[] && sourceCache == map[] && clearing == {}
    {
      g := graph;
      destinationCache := map[];
      sourceCache := map[];
      clearing := {};
    }

    /** eventualDestinations(): the cached list if there is one, otherwise the list computed for
        the full range of the port, which is then cached. */
    method EventualDestinations(p: nat) returns (r: seq<SendRange>)
      requires ValidGraph(g) && Valid() && DestinationsCached(g, destinationCache) && p in g.ports
      modifies this
      ensures Valid() && DestinationsCached(g, destinationCache)
      ensures r == Destinations.EventualDestinationsOf(g, FullRange(g, p))
      ensures p in old(destinationCache) ==> destinationCache == old(destinationCache)
      ensures destinationCache == old(destinationCache)[p := r]
      ensures sourceCache == old(sourceCache) && clearing == old(clearing)
    {
      if p in destinationCache {
        r := destinationCache[p];
        assert destinationCache == destinationCache[p := r];
        return;
      }
      assert PortOk(g, p);
      var range := FullRange(g, p);
      r := Destinations.EventualDestinations(g, range);
      SendsToPorts(g, r, range);
      destinationCache := destinationCache[p := r];
    }

    /** numDestinationReactors(): the reactor counts of the eventual destinations, summed. */
    method NumDestinationReactors(p: nat) returns (n: int)
      requires ValidGraph(g) && Valid() && DestinationsCached(g, destinationCache) && p in g.ports
      modifies this
      ensures Valid() && DestinationsCached(g, destinationCache)
      ensures CountsDefined(g.arena, Destinations.EventualDestinationsOf(g, FullRange(g, p)))
      ensures n == SumReactors(g.arena, Destinations.EventualDestinationsOf(g, FullRange(g, p)))
      ensures destinationCache == old(destinationCache)[p := Destinations.EventualDestinationsOf(g, FullRange(g, p))]
      ensures sourceCache == old(sourceCache) && clearing == old(clearing)
    {
      var sourceChannelRanges := EventualDestinations(p);
      SendsCounted(g, sourceChannelRanges, FullRange(g, p));
      n := SumNumberOfDestinationReactors(g.arena, sourceChannelRanges);
    }

    /** eventualSources(): the sources of the full range of the port. */
    method EventualSources(p: nat) returns (r: seq<Range>)
      requires ValidGraph(g) && Valid() && p in g.ports
      modifies this
      ensures Valid()
      ensures (r, sourceCache) == SourcesOf(g, p, FullRange(g, p), old(sourceCache))
      ensures destinationCache == old(destinationCache) && clearing == old(clearing)
    {
      assert PortOk(g, p);
      var range := FullRange(g, p);
      r := EventualSourcesIn(p, range);
    }

    /** eventualSources(range): computed once per port, whatever the range; a port written by
        reactions is its own only source, and otherwise the sources of the upstream ranges that
        pass the overlap test are appended to the port's cached list. */
    method EventualSourcesIn(p: nat, range: Range) returns (r: seq<Range>)
      requires ValidGraph(g) && Valid() && p in g.ports
      modifies this
      ensures Valid()
      ensures (r, sourceCache) == SourcesOf(g, p, range, old(sourceCache))
      ensures p in old(sourceCache) ==> r == old(sourceCache)[p] && sourceCache == old(sourceCache)
      ensures p !in old(sourceCache) && g.ports[p].hasDependsOnReactions ==> r == [FullRange(g, p)]
      ensures destinationCache == old(destinationCache) && clearing == old(clearing)
      decreases g.ports[p].upRank, 1
    {
      if p !in sourceCache {
        assert PortOk(g, p);
        sourceCache := sourceCache[p := []];
        if g.ports[p].hasDependsOnReactions {
          var full := FullRange(g, p);
          assert sourceCache[p] + [full] == [full];
          sourceCache := sourceCache[p := sourceCache[p] + [full]];
          assert sourceCache == old(sourceCache)[p := [full]];
        } else {
          var ups := g.ports[p].dependsOnPorts;
          var channelsCovered := 0;
          for k := 0 to |ups|
            invariant p in sourceCache
            invariant Valid() && destinationCache == old(destinationCache) && clearing == old(clearing)
            invariant Upstream(g, p, range, k, channelsCovered, sourceCache) ==
                      Upstream(g, p, range, 0, 0, old(sourceCache)[p := []])
          {
            channelsCovered := UpstreamStep(p, range, k, channelsCovered);
          }
          assert sourceCache == Upstream(g, p, range, 0, 0, old(sourceCache)[p := []]);
        }
      }
      r := sourceCache[p];
    }

    /** One turn of the loop of eventualSources: follow dependsOnPorts[k] if it passes the
        overlap test, and count its channels. */
    method UpstreamStep(p: nat, range: Range, k: nat, channelsCovered: int) returns (covered: int)
      requires ValidGraph(g) && Valid() && p in g.ports && p in sourceCache && k < |g.ports[p].dependsOnPorts|
      modifies this
      ensures Valid() && p in sourceCache
      ensures destinationCache == old(destinationCache) && clearing == old(clearing)
      ensures covered == channelsCovered + g.ports[p].dependsOnPorts[k].width
      ensures Upstream(g, p, range, k + 1, covered, sourceCache) ==
              Upstream(g, p, range, k, channelsCovered, old(sourceCache))
      decreases g.ports[p].upRank, 0
    {
      assert PortOk(g, p);
      var sourceRange := g.ports[p].dependsOnPorts[k];
      if channelsCovered + sourceRange.width >= range.start && channelsCovered < range.start + range.width {
        var sub := EventualSourcesIn(sourceRange.instance, sourceRange);
        assert sub == sourceCache[sourceRange.instance];
        sourceCache := sourceCache[p := sourceCache[p] + sub];
      }
      covered := channelsCovered + sourceRange.width;
    }

    /** clearCaches(): unless p is already being cleared, clear the caches of the ports linked
        to p through its cached lists, then p's own. Caches are only ever removed, and those of
        ports being cleared further up the call chain are kept. */
    method ClearCaches(p: nat)
      requires Valid() && p in g.ports
      modifies this
      ensures Valid() && clearing == old(clearing)
      ensures Trimmed(old(destinationCache), old(sourceCache), old(clearing))
      ensures p in old(clearing) ==> destinationCache == old(destinationCache) && sourceCache == old(sourceCache)
      ensures p !in old(clearing) ==> Cleared(p)
      ensures p !in old(clearing) && p in old(sourceCache) ==>
                forall i :: 0 <= i < |old(sourceCache)[p]| && old(sourceCache)[p][i].instance !in old(clearing) ==>
                  Cleared(old(sourceCache)[p][i].instance)
      ensures p !in old(clearing) && p in old(destinationCache) ==>
                forall i, j :: 0 <= i < |old(destinationCache)[p]| && 0 <= j < |old(destinationCache)[p][i].destinations| ==>
                  old(destinationCache)[p][i].destinations[j].instance !in old(clearing) ==>
                  Cleared(old(destinationCache)[p][i].destinations[j].instance)
      decreases g.ports.Keys - clearing, 0
    {
      if p in clearing {
        return;
      }
      clearing := clearing + {p};
      if p in sourceCache {
        ClearSources(sourceCache[p], clearing);
      }
      if p in destinationCache {
        ClearSends(destinationCache[p], clearing);
      }
      destinationCache := destinationCache - {p};
      sourceCache := sourceCache - {p};
      clearing := clearing - {p};
    }

    /** The first loop of clearCaches: clear the caches of the ports of the cached sources. */
    method ClearSources(sources: seq<Range>, ghost flags: set<nat>)
      requires Valid() && clearing == flags
      requires OnPorts(g, sources)
      modifies this
      ensures Valid() && clearing == old(clearing)
      ensures Trimmed(old(destinationCache), old(sourceCache), old(clearing))
      ensures forall i :: 0 <= i < |sources| && sources[i].instance !in old(clearing) ==> Cleared(sources[i].instance)
      decreases g.ports.Keys - clearing, 1
    {
      for i := 0 to |sources|
        invariant Valid() && clearing == flags
        invariant Trimmed(old(destinationCache), old(sourceCache), flags)
        invariant forall j :: 0 <= j < i && sources[j].instance !in flags ==> Cleared(sources[j].instance)
      {
        ClearCaches(sources[i].instance);
      }
    }

    /** The second loop of clearCaches: clear the caches of the destination ports of the cached
        send ranges. */
    method ClearSends(sends: seq<SendRange>, ghost flags: set<nat>)
      requires Valid() && clearing == flags
      requires TargetsPorts(g, sends)
      modifies this
      ensures Valid() && clearing == old(clearing)
      ensures Trimmed(old(destinationCache), old(sourceCache), old(clearing))
      ensures forall i, j :: 0 <= i < |sends| && 0 <= j < |sends[i].destinations| ==>
                sends[i].destinations[j].instance !in old(clearing) ==> Cleared(sends[i].destinations[j].instance)
      decreases g.ports.Keys - clearing, 2
    {
      for i := 0 to |sends|
        invariant Valid() && clearing == flags
        invariant Trimmed(old(destinationCache), old(sourceCache), flags)
        invariant forall k, j :: 0 <= k < i && 0 <= j < |sends[k].destinations| ==>
                    sends[k].destinations[j].instance !in flags ==> Cleared(sends[k].destinations[j].instance)
      {
        ClearDestinations(sends[i].destinations, flags);
      }
    }

    /** The innermost loop of clearCaches: clear the caches of the ports of ds. */
    method ClearDestinations(ds: seq<Range>, ghost flags: set<nat>)
      requires Valid() && clearing == flags
      requires OnPorts(g, ds)
      modifies this
      ensures Valid() && clearing == old(clearing)
      ensures Trimmed(old(destinationCache), old(sourceCache), old(clearing))
      ensures forall j :: 0 <= j < |ds| && ds[j].instance !in old(clearing) ==> Cleared(ds[j].instance)
      decreases g.ports.Keys - clearing, 1
    {
      for j := 0 to |ds|
        invariant Valid() && clearing == flags
        invariant Trimmed(old(destinationCache), old(sourceCache), flags)
        invariant forall k :: 0 <= k < j && ds[k].instance !in flags ==> Cleared(ds[k].instance)
      {
        ClearCaches(ds[j].instance);
      }
    }
  }

  /** The loop of numDestinationReactors over a list of send ranges. */
  method SumNumberOfDestinationReactors(a: Arena, ranges: seq<SendRange>) returns (n: int)
    requires CountsDefined(a, ranges)
    ensures n == SumReactors(a, ranges)
  {
    n := 0;
    for i := 0 to |ranges|
      invariant CountsDefined(a, ranges[i..])
      invariant n + SumReactors(a, ranges[i..]) == SumReactors(a, ranges)
    {
      assert ranges[i..][1..] == ranges[i + 1..];
      n := n + NumberOfDestinationReactors(a, ranges[i]);
    }
  }
}
