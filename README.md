# Runtime ranges and port connectivity of the Lingua Franca instance graph

This project is a Dafny model of two parts of the Lingua Franca compiler's instance graph:

- **RuntimeRange**, an immutable interval `[start, start + width)` over the runtime instances
  of one compile-time node (a port, reactor or reaction). Some parts of the graph are banks
  of reactors or multiports. Each runtime instance is then named by a mixed-radix number.
  It has one digit per level of the hierarchy below the top-level reactor, and the widths
  along that chain are the radixes. A range carries a set of *interleaved* ancestors. That
  set decides which digit varies fastest when the range is enumerated
  (`iterationOrder`). The range is walked by counting in that order and permuting every
  count back into hierarchy ("natural") order (`instancesMR`, `instances`,
  `parentInstances`, `permutation`, `startMR`, `startMRNatural`). `head` and `tail` split a
  range, and `toggleInterleaved` flips one ancestor.
- **PortInstance connectivity**:
  - `eventualDestinations(srcRange)` walks the direct downstream connections with two
    working ranges, recurses into each destination port, and re-bases the results onto the
    source. It then drains a priority queue of `SendRange`s into a list, merging ranges that
    start together and splitting ranges that overlap.
  - `eventualSources` is the upstream walk.
  - Both results are cached in fields of the port. `clearCaches` forgets them, recursively,
    behind a re-entrancy flag.
  - `numDestinationReactors` sums reactor counts over the eventual destinations.
  - `setInitialWidth` computes a multiport's width from its width specification.

Layout, one module per file:

| file | module | what it holds |
|---|---|---|
| `wrappers.dfy` | `Wrappers` | `Option` (Java's `null`) |
| `seqs.dfy` | `Seqs` | reverse, filter, de-duplication and distinctness of sequences |
| `mixed_radix.dfy` | `MixedRadix` | mixed-radix numbers (`MixedRadixInt`): decode, value, increment, drop, permute |
| `instance_graph.dfy` | `InstanceGraph` | the instance graph as an arena of nodes (width, parent, depth); `maxWidth` |
| `runtime_range.dfy` | `RuntimeRanges` | `RuntimeRange` and its operations; iteration order, permutation, instances |
| `bank_example.dfy` | `BankExample` | the documented two-level bank example and its four iteration orders |
| `send_range.dfy` | `SendRanges` | `SendRange`: a range with destination ranges; head, tail, newSendRange, reactor count |
| `port_graph.dfy` | `PortGraphs` | ports and their connections; the full range of a port; the priority queue |
| `destinations.dfy` | `Destinations` | the static `eventualDestinations(srcRange)`: walk and drain, as functions and as loops |
| `destination_coverage.dfy` | `DestinationCoverage` | what the result covers, the tiling promise and where it fails |
| `connectivity.dfy` | `Connectivity` | the cache fields of the ports, `eventualSources`, `clearCaches`, `numDestinationReactors` |
| `multiport_width.dfy` | `MultiportWidth` | `setInitialWidth` |

Model decisions:

- The operations with loops are methods. Each method is proved equal to a specification
  function, and the source's promises are lemmas about that function.
- A Java `null` is `None`.
- The priority queue is a sequence kept sorted by `compareTo`.
- A `LinkedHashSet` is a sequence without duplicates.
- The connection graph is acyclic. This is witnessed by two ranks per port: a dependent
  port has a lower rank downstream, and an upstream port a lower rank upstream.
- The cache fields of all ports live in one object, as maps keyed by port. A missing key
  is a null field.
- Digits are least significant first, and the least significant digit belongs to the
  deepest level (the instance itself). `MixedRadixInt.Permute(p)` puts digit `p[j]` at
  position j, and `MixedRadixInt.Drop(n)` removes the n least significant digits, those of
  the n deepest levels. The `BankExample.InstancesListed*` lemmas confirm this convention
  against the four documented instance lists of the bank example.
- A documented exception is a `None` result.

## Model

| member | source | states |
|---|---|---|
| `InstanceGraph.MaxWidth` | org.lflang/src/org/lflang/generator/RuntimeRange.java:197-203 | maxWidth is at least 1: every width in the chain is at least 1 |
| `InstanceGraph.MaxWidthProd` | org.lflang/src/org/lflang/generator/RuntimeRange.java:197-203 | maxWidth is the instance's width times the widths of its ancestors below the top level |
| `RuntimeRanges.Make` | org.lflang/src/org/lflang/generator/RuntimeRange.java:187-209 | the constructor keeps a positive width that fits. Otherwise it extends the range to end at maxWidth, so start + width <= maxWidth. The result has no interleaving, and it is a valid range whenever start < maxWidth |
| `RuntimeRanges.NewRange` | org.lflang/src/org/lflang/generator/RuntimeRange.java:197-208 | the constructor's loop up the parent chain computes maxWidth, and its result is `Make` |
| `RuntimeRanges.CompareTo` | org.lflang/src/org/lflang/generator/RuntimeRange.java:240-254 | the result is -1, 0 or 1. It is 0 exactly when start and width are both equal, and negative exactly when (start, width) is lexicographically smaller |
| `RuntimeRanges.CompareToAntisymmetric` | org.lflang/src/org/lflang/generator/RuntimeRange.java:240-254 | compareTo(x, y) == -compareTo(y, x) |
| `RuntimeRanges.CompareToTransitive` | org.lflang/src/org/lflang/generator/RuntimeRange.java:240-254 | compareTo is a transitive preorder, as the priority queue needs |
| `RuntimeRanges.Head` | org.lflang/src/org/lflang/generator/RuntimeRange.java:264-268 | head(n) returns the receiver if n >= width, and null exactly when n <= 0. Otherwise it returns a valid range with the same start, width n, the same instance and connection, and no interleaving |
| `RuntimeRanges.Tail` | org.lflang/src/org/lflang/generator/RuntimeRange.java:429-433 | tail(k) returns the receiver if k == 0, and null exactly when k >= width. Otherwise it returns start + k and width - k, with the same end, instance and connection, and no interleaving |
| `RuntimeRanges.ToggleInterleaved` | org.lflang/src/org/lflang/generator/RuntimeRange.java:442-452 | only the reactor's membership flips. Start, width, maxWidth, instance and connection are unchanged |
| `RuntimeRanges.ToggleInterleavedTwice` | org.lflang/src/org/lflang/generator/RuntimeRange.java:442-452 | toggling the same reactor twice gives back the original range |
| `RuntimeRanges.IterationOrder` | org.lflang/src/org/lflang/generator/RuntimeRange.java:299-313 | the loop builds the interleaved ancestors shallowest first, then the instance, then the other ancestors deepest first |
| `RuntimeRanges.IterationOrderIsPermutation` | org.lflang/src/org/lflang/generator/RuntimeRange.java:289-298 | the iteration order has depth entries, with no duplicates. They are exactly the instance and its ancestors below the top level |
| `RuntimeRanges.IterationOrderBefore` | org.lflang/src/org/lflang/generator/RuntimeRange.java:293-295 | before the instance come only interleaved ancestors, in strictly increasing depth |
| `RuntimeRanges.IterationOrderAfter` | org.lflang/src/org/lflang/generator/RuntimeRange.java:296-298 | after the instance come only non-interleaved ancestors, in strictly decreasing depth |
| `BankExample.OrderWithoutInterleaving` | org.lflang/src/org/lflang/generator/RuntimeRange.java:108-110 | in the documented bank example without interleaving, the order is [P, B, A] |
| `BankExample.OrderInterleavedAtB` | org.lflang/src/org/lflang/generator/RuntimeRange.java:112-113 | with the connection within B to P interleaved, the order is [B, P, A] |
| `BankExample.OrderInterleavedAtBoth` | org.lflang/src/org/lflang/generator/RuntimeRange.java:124-125 | with the connection within A to B also interleaved, the order is [A, B, P] |
| `BankExample.OrderInterleavedAtA` | org.lflang/src/org/lflang/generator/RuntimeRange.java:136-138 | with only the connection within A to B interleaved, the order is [A, P, B] |
| `BankExample.InstancesListedWithoutInterleaving` | org.lflang/src/org/lflang/generator/RuntimeRange.java:95-110 | without interleaving, the eight instances of P are listed as 0, 1, 2, 3, 4, 5, 6, 7 |
| `BankExample.InstancesListedInterleavedAtB` | org.lflang/src/org/lflang/generator/RuntimeRange.java:112-122 | with B interleaved, the instances are listed as 0, 2, 1, 3, 4, 6, 5, 7 |
| `BankExample.InstancesListedInterleavedAtBoth` | org.lflang/src/org/lflang/generator/RuntimeRange.java:124-134 | with A and B interleaved, the instances are listed as 0, 4, 2, 6, 1, 5, 3, 7 |
| `BankExample.InstancesListedInterleavedAtA` | org.lflang/src/org/lflang/generator/RuntimeRange.java:136-147 | with only A interleaved, the instances are listed as 0, 4, 1, 5, 2, 6, 3, 7 |
| `RuntimeRanges.Permutation` | org.lflang/src/org/lflang/generator/RuntimeRange.java:380-392 | the loop records each iteration-order index at its entry's natural position, which is the natural permutation |
| `RuntimeRanges.NaturalPermutationInverse` | org.lflang/src/org/lflang/generator/RuntimeRange.java:374-379 | permutation() is a bijection on [0, depth): no duplicates, and each entry's natural position maps back to its iteration-order index |
| `RuntimeRanges.StartMR` | org.lflang/src/org/lflang/generator/RuntimeRange.java:399-410 | startMR() has the iteration-order widths as radixes and every digit below its radix, and its value is start |
| `RuntimeRanges.StartMRNatural` | org.lflang/src/org/lflang/generator/RuntimeRange.java:418-420 | startMRNatural() is start permuted into natural order, and its value is the first identifier of instances() |
| `RuntimeRanges.ZeroInIterationOrder` | org.lflang/src/org/lflang/generator/RuntimeRange.java:479-496 | the first phase of instancesMR() yields the radixes in iteration order, the all-zero digits and the natural permutation |
| `RuntimeRanges.CountUp` | org.lflang/src/org/lflang/generator/RuntimeRange.java:498-510 | the counting loop keeps the permuted counter values for the counts start .. start + width - 1 |
| `RuntimeRanges.InstancesMR` | org.lflang/src/org/lflang/generator/RuntimeRange.java:478-511 | instancesMR() has width elements. Element k is the count start + k, decoded in iteration order and permuted into natural order |
| `RuntimeRanges.Instances` | org.lflang/src/org/lflang/generator/RuntimeRange.java:280-287 | instances() holds the values of instancesMR(), one natural identifier per instance of the range |
| `RuntimeRanges.InstancesOf` | org.lflang/src/org/lflang/generator/RuntimeRange.java:270-279 | instances() has exactly width elements |
| `RuntimeRanges.InstancesBound` | org.lflang/src/org/lflang/generator/RuntimeRange.java:270-279 | every natural identifier lies in [0, maxWidth) |
| `RuntimeRanges.InstancesDistinct` | org.lflang/src/org/lflang/generator/RuntimeRange.java:478-511 | instances() has no duplicates |
| `RuntimeRanges.InstancesWithoutInterleaving` | org.lflang/src/org/lflang/generator/RuntimeRange.java:499-509 | without interleaving, the identifiers are start, start + 1, ..., start + width - 1 |
| `RuntimeRanges.HeadTailInstances` | org.lflang/src/org/lflang/generator/RuntimeRange.java:429-433 | without interleaving and with 0 < n < width, instances() of head(n) followed by instances() of tail(n) is instances() of the whole range |
| `RuntimeRanges.ParentInstances` | org.lflang/src/org/lflang/generator/RuntimeRange.java:349-359 | the result is null (the documented exception) exactly when n is not less than the depth of the range's instance. Otherwise the loop keeps each parent identifier (an instance with n digits dropped) once, in first-occurrence order |
| `RuntimeRanges.ParentInstancesFacts` | org.lflang/src/org/lflang/generator/RuntimeRange.java:315-351 | parentInstances(n) has no duplicates and at most width elements. It holds exactly the identifiers of the range divided by the widths of the n levels below. Each is an identifier of the ancestor n levels up |
| `MixedRadix.MixedRadixInt.Increment` | org.lflang/src/org/lflang/generator/RuntimeRange.java:503-506 | increment keeps a well-formed number well formed, over the same radixes |
| `MixedRadix.IncrementValue` | org.lflang/src/org/lflang/generator/RuntimeRange.java:498-510 | increment adds one to the value, modulo the product of the radixes |
| `MixedRadix.MixedRadixInt.Drop` | org.lflang/src/org/lflang/generator/RuntimeRange.java:355-357 | drop(n) removes n digits and keeps the number well formed |
| `MixedRadix.DropValue` | org.lflang/src/org/lflang/generator/RuntimeRange.java:328-345 | dropping the n low-order digits divides the value by the product of their radixes |
| `MixedRadix.MixedRadixInt.Permute` | org.lflang/src/org/lflang/generator/RuntimeRange.java:503-505 | permute(p) has one digit per entry of p, and a well-formed number stays well formed |
| `MixedRadix.DecodeValue` | org.lflang/src/org/lflang/generator/RuntimeRange.java:270-279 | decoding a count and taking its value gives the count modulo the product of the radixes |
| `MixedRadix.ValueDecode` | org.lflang/src/org/lflang/generator/RuntimeRange.java:270-279 | taking the value of well-formed digits and decoding it gives the digits back |
| `MixedRadix.SuccessorValue` | org.lflang/src/org/lflang/generator/RuntimeRange.java:498-510 | the digit successor has value (value + 1) modulo the product of the radixes |
| `SendRanges.SendHead` | org.lflang/src/org/lflang/generator/PortInstance.java:381 | a SendRange's head(n) returns the receiver if n >= width, and null exactly when n <= 0. Otherwise it has width n with the same start, and every destination is cut down alike |
| `SendRanges.SendTail` | org.lflang/src/org/lflang/generator/PortInstance.java:358 | a SendRange's tail(k) returns the receiver if k == 0, and null exactly when k >= width. Otherwise it starts k later with the same end, and every destination is shifted alike |
| `SendRanges.NewSendRange` | org.lflang/src/org/lflang/generator/PortInstance.java:327 | newSendRange(r) sends from r to the same destination ports. They are cut down to r's width, and unchanged when the widths agree |
| `SendRanges.DestinationReactorsBounds` | org.lflang/src/org/lflang/generator/PortInstance.java:203-208 | a SendRange with destinations counts at least one destination reactor, and never more than its destinations' total width |
| `PortGraphs.FullRange` | org.lflang/src/org/lflang/generator/PortInstance.java:141 | `new RuntimeRange.Port(this)` starts at 0, spans maxWidth, and has no interleaving |
| `PortGraphs.Insert` | org.lflang/src/org/lflang/generator/PortInstance.java:327 | queue.add adds exactly one element: the multiset grows by x |
| `PortGraphs.InsertSorted` | org.lflang/src/org/lflang/generator/PortInstance.java:358 | adding to the queue keeps it sorted by compareTo |
| `PortGraphs.InsertCovers` | org.lflang/src/org/lflang/generator/PortInstance.java:326-332 | adding x to the queue adds exactly x's channels to those covered, and x's width to the total |
| `Destinations.Seed` | org.lflang/src/org/lflang/generator/PortInstance.java:285-294 | with dependent reactions, the first element spans exactly srcRange and sends to srcRange |
| `Destinations.Rebase` | org.lflang/src/org/lflang/generator/PortInstance.java:325-332 | re-basing adds one element per send range of the sub-destination and keeps the queue sorted. Each new element sends from the source, starting within its first subWidth channels, to ports with dependent reactions |
| `Destinations.WalkOf` | org.lflang/src/org/lflang/generator/PortInstance.java:297-335 | the queue the walk fills is sorted, and every element is sent from channels of srcRange |
| `Destinations.WalkStepFacts` | org.lflang/src/org/lflang/generator/PortInstance.java:312-334 | a step covers min(wSrcRange.width, wDstRange.width) channels of a lower-ranked destination, and strictly fewer destination channels are left |
| `Destinations.EventualDestinationsOf` | org.lflang/src/org/lflang/generator/PortInstance.java:268-388 | every element of the result is sent from channels of srcRange to ports with dependent reactions |
| `Destinations.ResultShape` | org.lflang/src/org/lflang/generator/PortInstance.java:279-294 | the result is the seed followed by the drained queue when the port has dependent reactions, and the drained queue otherwise |
| `Destinations.Drained` | org.lflang/src/org/lflang/generator/PortInstance.java:338-387 | the drained part is in channel order without overlap, and sent from channels of srcRange |
| `Destinations.DrainAll` | org.lflang/src/org/lflang/generator/PortInstance.java:339-385 | draining any sorted queue over srcRange yields ordered, non-overlapping ranges over srcRange |
| `Destinations.Merge` | org.lflang/src/org/lflang/generator/PortInstance.java:349-354 | the candidate keeps its range and destinations, and gains every destination of next cut down to its own width |
| `Destinations.OverlapSplit` | org.lflang/src/org/lflang/generator/PortInstance.java:378-383 | the corrected split gives a head from candidate.start to next.start and a tail from next.start to candidate's end, with the same destination ports |
| `Destinations.DrainStepInv` | org.lflang/src/org/lflang/generator/PortInstance.java:341-385 | each turn of the drain loop keeps its invariant. It uses up channels, or else performs a swap that cannot repeat, so the loop ends |
| `Destinations.RunDrain` | org.lflang/src/org/lflang/generator/PortInstance.java:341-385 | repeating the step to the end yields ordered ranges over srcRange |
| `Destinations.EventualDestinations` | org.lflang/src/org/lflang/generator/PortInstance.java:268-388 | the imperative method (seed, walk, drain) returns exactly `EventualDestinationsOf` |
| `Destinations.Walk` | org.lflang/src/org/lflang/generator/PortInstance.java:297-336 | the while(true) loop fills exactly the queue `WalkOf` describes |
| `Destinations.WalkStep` | org.lflang/src/org/lflang/generator/PortInstance.java:302-334 | one pass of the loop body keeps the walk's invariant and strictly decreases the destination channels left, without changing what the walk produces |
| `Destinations.RebaseAll` | org.lflang/src/org/lflang/generator/PortInstance.java:325-332 | the re-basing loop, with its running offset reset at subDst.width, adds exactly `Rebase` |
| `Destinations.Drain` | org.lflang/src/org/lflang/generator/PortInstance.java:338-385 | the drain loop returns exactly `DrainAll` of the queue |
| `Destinations.MergeInto` | org.lflang/src/org/lflang/generator/PortInstance.java:352-354 | the loop over next.destinations builds exactly `Merge` |
| `DestinationCoverage.DrainAllCovers` | org.lflang/src/org/lflang/generator/PortInstance.java:338-385 | draining neither loses nor invents channels: a channel is covered by the result exactly when the queue covers it |
| `DestinationCoverage.DrainedInsideSource` | org.lflang/src/org/lflang/generator/PortInstance.java:254-265 | whatever the connections, the drained part is ordered, lies within srcRange, and its widths add up to at most srcRange.width |
| `DestinationCoverage.RebaseFills` | org.lflang/src/org/lflang/generator/PortInstance.java:325-332 | when the sub-destination's ranges reach its full width, their re-based copies cover every source channel from the offset to subWidth |
| `DestinationCoverage.WalkCovers` | org.lflang/src/org/lflang/generator/PortInstance.java:297-335 | when every dependent port reaches reactions, the walk covers every source channel still pending |
| `DestinationCoverage.EventualDestinationsTiles` | org.lflang/src/org/lflang/generator/PortInstance.java:255-265 | for a port without dependent reactions whose channels all reach reactions, the result tiles srcRange. It is in channel order, without overlap, and its widths sum to srcRange.width |
| `DestinationCoverage.SeededCountsTwice` | org.lflang/src/org/lflang/generator/PortInstance.java:283-294 | a port with dependent reactions that also feeds through gets its channels twice. The widths sum to 2 * srcRange.width, and the first two elements both start at srcRange.start |
| `DestinationCoverage.SeedFacts` | org.lflang/src/org/lflang/generator/PortInstance.java:285-299 | the seed spans srcRange and sends to srcRange. With no dependent ports it is the whole result, and with no dependent reactions either the result is empty |
| `DestinationCoverage.MergeStep` | org.lflang/src/org/lflang/generator/PortInstance.java:347-363 | in the equal-start merge, the narrower candidate gains next's destinations cut to its width. A wider next's remainder next.tail(candidate.width) goes back on the queue; otherwise next is discarded |
| `DestinationCoverage.OverlapAsWritten` | org.lflang/src/org/lflang/generator/PortInstance.java:381-382 | the overlap branch as written agrees with the corrected split only when the candidate starts at channel 0 |
| `DestinationCoverage.OverlapAsWrittenCounterexample` | org.lflang/src/org/lflang/generator/PortInstance.java:381-382 | for a candidate starting at channel 1, the head as written still overlaps next and the tail skips past next.start. With width 2 the tail is null, and the corrected split is exact |
| `Connectivity.PortCaches.constructor` | org.lflang/src/org/lflang/generator/PortInstance.java:469-476 | a port starts with both cache fields null and clearingCaches false |
| `Connectivity.PortCaches.EventualDestinations` | org.lflang/src/org/lflang/generator/PortInstance.java:134-143 | eventualDestinations() returns the list computed for the full range of the port. A cached list is returned without change, and otherwise the new list is cached. Cached lists stay equal to the computed ones |
| `Connectivity.PortCaches.NumDestinationReactors` | org.lflang/src/org/lflang/generator/PortInstance.java:209-216 | numDestinationReactors() is the sum of getNumberOfDestinationReactors() over the eventualDestinations() list |
| `Connectivity.SumNumberOfDestinationReactors` | org.lflang/src/org/lflang/generator/PortInstance.java:211-214 | the summing loop returns the sum of the per-range reactor counts |
| `Connectivity.SumReactorsBounds` | org.lflang/src/org/lflang/generator/PortInstance.java:209-216 | the count is at least the number of send ranges when each has destinations, and at most their total destination width |
| `Connectivity.ListenerHasReactor` | org.lflang/src/org/lflang/generator/PortInstance.java:285-293 | a port with dependent reactions has at least one destination reactor |
| `Connectivity.PortCaches.EventualSources` | org.lflang/src/org/lflang/generator/PortInstance.java:159-161 | eventualSources() is eventualSources(range) for the full range of the port |
| `Connectivity.PortCaches.EventualSourcesIn` | org.lflang/src/org/lflang/generator/PortInstance.java:404-424 | eventualSources(range) returns `SourcesOf` and leaves the caches as it describes. A cached list is returned unchanged, whatever the range. A port written by reactions gets exactly its full range |
| `Connectivity.PortCaches.UpstreamStep` | org.lflang/src/org/lflang/generator/PortInstance.java:412-421 | one turn of the loop counts the upstream range's channels, and follows it exactly when it passes the overlap test |
| `Connectivity.SourcesOf` | org.lflang/src/org/lflang/generator/PortInstance.java:404-424 | the port's own list is the result, and no cached entry is removed |
| `Connectivity.Passes` | org.lflang/src/org/lflang/generator/PortInstance.java:415-416 | the `>=` test follows every upstream range sharing a channel with range, and also the one ending exactly where range starts |
| `Connectivity.SourcesFacts` | org.lflang/src/org/lflang/generator/PortInstance.java:404-424 | eventualSources lists only full ranges of ports written by reactions, and never changes a list already cached |
| `Connectivity.UpstreamFacts` | org.lflang/src/org/lflang/generator/PortInstance.java:413-421 | the upstream loop keeps every cached list a list of writers, and changes no other port's list |
| `Connectivity.UpstreamFollows` | org.lflang/src/org/lflang/generator/PortInstance.java:415-418 | following one upstream range appends only writers to the port's list |
| `Connectivity.PortCaches.ClearCaches` | org.lflang/src/org/lflang/generator/PortInstance.java:87-108 | a re-entrant call changes nothing. Otherwise both of the port's caches end null, and so do those of every port in its cached source and destination lists not already being cleared. Caches are only removed, clearingCaches is restored, and the caches of ports being cleared further up are kept |
| `Connectivity.PortCaches.ClearSources` | org.lflang/src/org/lflang/generator/PortInstance.java:91-95 | the first loop clears the caches of every cached source port not already being cleared |
| `Connectivity.PortCaches.ClearSends` | org.lflang/src/org/lflang/generator/PortInstance.java:96-102 | the second loop clears the caches of every destination port of the cached send ranges not already being cleared |
| `Connectivity.PortCaches.ClearDestinations` | org.lflang/src/org/lflang/generator/PortInstance.java:98-100 | the inner loop clears the caches of every port in one destination list not already being cleared |
| `Connectivity.DestinationsCachedShrinks` | org.lflang/src/org/lflang/generator/PortInstance.java:103-104 | removing cached destination lists, as clearCaches does, keeps every remaining list equal to the computed one |
| `Connectivity.SourceCacheShrinks` | org.lflang/src/org/lflang/generator/PortInstance.java:103-104 | removing cached source lists keeps the remaining ones lists of writers |
| `MultiportWidth.PortWidth.constructor` | org.lflang/src/org/lflang/generator/PortInstance.java:67-75 | a port starts with its given width, not a multiport, with nothing reported |
| `MultiportWidth.PortWidth.SetInitialWidth` | org.lflang/src/org/lflang/generator/PortInstance.java:431-464 | without a spec, nothing changes. A variable-length spec reports one error and leaves width and isMultiport unchanged. Otherwise the port is a multiport whose width is the sum of the terms: each undetermined parameter counts 1 and reports one warning |
| `MultiportWidth.SumTermsSplit` | org.lflang/src/org/lflang/generator/PortInstance.java:444-461 | the width is the sum of the known widths plus one per undetermined parameter |
| `MultiportWidth.SumTermsAtLeastCount` | org.lflang/src/org/lflang/generator/PortInstance.java:444-461 | with every literal and parameter value at least 1, the width is at least the number of terms |
| `MultiportWidth.CountUnresolved` | org.lflang/src/org/lflang/generator/PortInstance.java:450-457 | there are no more warnings than terms |

## Left out

- The AST is not modelled. A port's width specification is a list of terms, and a
  parameter's initial value (`initialIntParameterValue`) is an `Option<int>` input.
- `ErrorReporter` is modelled as error and warning counters, without message texts.
- `toString`, `getFullName` and `parentReactor` are left out: they involve string formatting
  and `instanceof` dispatch only.
- `Connection` is an opaque token, and only its identity matters.
- `MixedRadixInt.java` and `SendRange.java` are not part of this model. Both are modelled
  from their use in `RuntimeRange.java` and `PortInstance.java`.
- `getNumberOfDestinationReactors()` counts the distinct reactors that hold the destination
  ports.
- Java `int` overflow is not modelled: integers are unbounded. A `maxWidth` product or a
  width sum beyond 2^31 - 1 would wrap in the source.
- `PriorityQueue` order among elements that compare equal is unspecified in Java. Here an
  element is added after the elements equal to it.
- Cyclic connection graphs are not modelled. Java would recurse without end or throw
  `StackOverflowError` there. The model requires rank witnesses that make the graph
  acyclic.
- Each port is its own object in Java. Here, one object holds the cache fields of every
  port. Aliasing between the cached lists of different ports, and in-place mutation of a
  returned list by a caller, are not modelled.
- Concurrency is not modelled: the compiler calls these methods from one thread.
- `Destinations.Rebase`: the re-basing loop assumes that the sub-destination's send ranges,
  in order, reach subDst.width from the running offset. The source states this in a comment.
  `DestinationCoverage.RebaseFills` takes it as a precondition instead of proving it for
  every graph.
- `DestinationCoverage.EventualDestinationsTiles` states the documented promise that the
  widths sum to srcRange.width only for ports without dependent reactions whose channels all
  reach reactions. `DestinationCoverage.SeededCountsTwice` shows that a port with dependent
  reactions that also feeds through breaks it. `DestinationCoverage.DrainedInsideSource` is
  the bound that holds for every graph.
- `Connectivity.PortCaches.ClearCaches` names the ports directly linked through the port's
  cached lists. It does not name the whole transitive closure. Deeper ports are cleared by
  the recursive calls, and they stay cleared because caches are only ever removed.
- `Connectivity.PortCaches.EventualSourcesIn` does not state that the widths of the sources
  add up to the port's width, as the documentation suggests. Because of the `>=` test
  (`Connectivity.Passes`), an upstream range that ends where the requested range starts is
  also followed.
- `Destinations.Drain`, `Destinations.DrainAll`, `Destinations.DrainStepInv`,
  `Destinations.RunDrain`, `Destinations.Drained`, `Destinations.EventualDestinationsOf`,
  `Destinations.EventualDestinations` and `DestinationCoverage.DrainAllCovers` model the
  drain with the corrected overlap split (`Destinations.OverlapSplit`, at
  next.start - candidate.start), not with `head(next.start)` and `tail(next.start)` as
  PortInstance.java:381-382 are written (see "## Findings"). Their ordering, no-overlap and
  coverage guarantees hold for the corrected drain only. The drain as written is captured
  for one step only, by `DestinationCoverage.OverlapAsWritten` and
  `DestinationCoverage.OverlapAsWrittenCounterexample`. There is no lemma about a whole run
  of the drain as written, whose head can still overlap next, whose tail can skip channels,
  and whose null tail ends the loop and drops next and the rest of the queue.
  For instance, a queue [0, 1) to D1, [1, 4) to D2, [2, 4) to D4 drains as written to
  [0, 1), [1, 3), [3, 4) and loses D4; the model drains it to [0, 1) to D1, [1, 2) to D2,
  [2, 4) to D2 and D4.
- `Connectivity.PortCaches.EventualDestinations`: the connection graph is a constant field
  of the cache object, so connections never change while lists are cached, and a cached
  list always equals the recomputed one. In the source, connections can be added after a
  list is cached, and the port then returns the stale list until `clearCaches` is called
  (PortInstance.java:81-85). That staleness is not modelled.
- `Connectivity.PortCaches.ClearCaches` does not itself ensure that the remaining cached
  destination lists equal the computed ones. `Connectivity.DestinationsCachedShrinks` and
  `Connectivity.SourceCacheShrinks` derive that from its `Trimmed` postcondition.

## Findings

| source | as written | input that shows it | evidently intended | confidence | as-written member | corrected member |
|---|---|---|---|---|---|---|
| org.lflang/src/org/lflang/generator/PortInstance.java:381-382 | In the overlap branch of the drain, `candidate.head(next.start)` and `candidate.tail(next.start)` pass next's absolute start channel, where a width and an offset within the candidate are meant | Candidate channels [1, 4) and next channels [2, 4): the head keeps channels [1, 3), which still overlaps next, and the tail starts at channel 3, skipping channel 2. With a candidate [1, 3), the tail is null, which ends the loop and drops next | Split at `next.start - candidate.start`. The head is then [candidate.start, next.start) and the tail starts at next.start | not executed | `DestinationCoverage.OverlapAsWrittenCounterexample` | `Destinations.OverlapSplit` |
