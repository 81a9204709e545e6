# fbmeshd verification

A Dafny model of the routing core of fbmeshd, a daemon for wireless 802.11s meshes, with proofs about it.
`dafny verify dfyconfig.toml` checks everything.

## What is modelled

**The a12s path-announcement protocol.** Every node keeps a table of mesh paths. A root announces itself
with a PANN (path announcement), which neighbours store, answer and pass on. `MeshNode` gives one node's
transitions, `Reception` says what they come to, and `RoutingDaemon` is the object that performs them in
place. `MeshNetwork` is the whole mesh:
nodes, one first-in first-out channel per directed link, timers, losses. `MeshRefinement` shows that, seen
from one originator, every event is a step of `OriginProtocol`, a small distance-vector protocol with
sequence numbers. There the invariants are proved: ranks never get worse, so next hops never form a loop in
a benign run (`MeshTheorems`). `LoopCondition` says of every run, benign or not, exactly which events close a
loop, and `ExpiryLoop` is a run from new daemons whose fifth event does. `FloodTermination` bounds every flood.
A quiet mesh with one root holds shortest paths (`Convergence`, `MeshConvergence`), and becomes quiet after
its last announcement as long as receptions go on (`EventualConvergence`). With several gates nodes refuse the
announcements of all but the nearest. Still, once a broadcast of a gate has gone through, every node near it
holds its exact distance for good (`NearConvergence`, `GateConvergence`), so every node ends up with all its
nearest gates (`AllGates`). `ReplyOvertakes` is a run in which a reply of the gate disturbs its broadcast and a
neighbour keeps twice its distance. `TopGates` is the gate ranking, `RootLifecycle` the root and gate timers.

**Link metrics.** `LinkMetrics` and `MetricManager`: airtime from bitrate and signal strength, an integer
moving average in wrapping 32-bit arithmetic, and reports with hysteresis. They supply the positive, bounded
link metric that the routing proofs ask for; `AirtimeMesh` draws the conclusion for a mesh of airtimes.

**Route messages.** `NetlinkBytes`, `RouteCodec`, `RouteMessage` and `RouteParser`: the rtnetlink new-route
request, written into a fixed buffer and read back by loops over nested, aligned attributes; labels are
entries of section 2.1 of RFC 3032, the header is that of section 2.3.2 of RFC 3549. `RouteRoundTrip` shows
that reading undoes writing, and when the one unchecked write stays in the buffer; `RouteWire` gives the bytes
themselves, and `SingleHop` what is read of a route that was not written this way.

**Requests and routes.** `NetlinkQueue` is the request queue: batches, sequence numbers, acknowledgements, a
timer, promises. `RouteCache`, `RouteSocket`, `LinkSync` and `NetlinkSocket` are the caches of kernel routes
and the operations on them, against a kernel that may refuse any request, and whose ignored errors the
program takes for success. `MeshAddress`, `GateSelection` and
`SyncRoutes` are the periodic synchronisation of the kernel with the path table, its choice of a gate, and
the addresses of Appendix A of RFC 4291.

**Gateway monitoring.** `RouteDampener` and `GatewayMonitor`: a flap penalty with hysteresis, half-life and
maximum-suppression timers, composed with the advertisement of the gateway route.

The methods with state are proved equal to transition functions, and the theorems are about all runs of
those functions.

## Assumptions

- Event-loop callbacks are atomic steps; clock readings, link metrics and kernel answers are inputs.
- Mesh links are first-in first-out and may lose announcements. This, and that the clock does not go back
  during a reception, is all that `LoopCondition` and `FloodTermination` assume.
- Loop freedom assumes a benign run (`MeshNetwork.Benign`): the metric of a link is fixed for one originator and
  sequence number, positive and at most 16843009; the clock moves during a reception
  (`MeshNode.FirstAnnouncementNeedsTick` shows what happens otherwise); no announcement is stored only because
  the entry it replaces has expired, and no filled entry is erased; no 64-bit sequence number wraps.
- Convergence also assumes no loss, metrics that never change and a TTL of at least the number of nodes, and
  either one root (`MeshConvergence.CalmRun`) or a fixed set of gates (`GateConvergence.GateRun`).
- A kernel request that is refused, or times out, changes nothing. An error the program ignores (the route
  exists on add; it exists, is missing or is invalid on delete) changes nothing and counts as success. A
  request touches routes of its own protocol and prefix only. `Kernel.honest` says that every ignored error so
  far was harmless; agreement of caches and kernel is proved exactly while it holds. Every table after every
  request is recorded, so that statements about intermediate states can be made.
- Route synchronisation starts from a kernel without routes of its protocol. A failed synchronisation throws
  out of a `noexcept` timer callback, so it ends the process.

Where code and comment disagree, the code is followed: the comment at the IPv4 default route asks for an MTU
and a maximum segment size, but `buildLinkRoute` drops both, and so does `SyncRoutes.LinkRoute`.

## Model

| member | source | states |
|---|---|---|
| `MeshTheorems.LoopFreedom` | fbmeshd/routing/Routing.cpp:277-356 | in every state of every benign run, for every originator, no chain of next hops returns to where it started |
| `LoopCondition.LoopStep` | fbmeshd/routing/Routing.cpp:294-322 | with none of the assumptions of a benign run: from a state without a loop, an event leaves a loop if and only if it stores an announcement whose sender's next hops lead to the receiver |
| `LoopCondition.LoopFreeIff` | fbmeshd/routing/Routing.cpp:218-357 | a run, benign or not, is free of loops throughout if and only if no event of it stores such an announcement |
| `LoopCondition.OnlyExpiryCloses` | fbmeshd/routing/Routing.cpp:294-296 | after a benign past, an announcement that closes a loop gets in by the expiry of the entry it replaces and no other way |
| `LoopCondition.CycleIff` | fbmeshd/routing/Routing.cpp:316-322 | redirecting one next hop of an acyclic graph makes a cycle if and only if the new next hop leads back |
| `MeshTheorems.NextHopImproves` | fbmeshd/routing/Routing.cpp:277-322 | along a next hop the sequence number goes up, or stays and the metric goes strictly down |
| `MeshTheorems.NextHopsReachOrigin` | fbmeshd/routing/Routing.cpp:277-322 | from every filled entry next hops lead to the originator in fewer hops than there are nodes |
| `MeshTheorems.NetInvNext` | fbmeshd/routing/Routing.cpp:218-357 | every event of the mesh keeps the invariant for every originator |
| `MeshTheorems.RunInv` | fbmeshd/routing/Routing.cpp:218-357 | the invariant holds in every state of every benign run from an empty mesh |
| `MeshTheorems.StoredMetricBound` | fbmeshd/routing/Routing.cpp:277-322 | a stored metric is at most the largest link metric times its hop count, and the hop count fits 8 bits |
| `MeshTheorems.InFlightBound` | fbmeshd/routing/Routing.cpp:244-282 | for every PANN in flight hop count plus TTL is conserved, its receiver's hop count does not wrap and its metric does not saturate |
| `ExpiryLoop.ExpiryMakesALoop` | fbmeshd/routing/Routing.cpp:294-300 | loop freedom fails without the expiry assumption: a run from new daemons, all of whose events but the last are benign, and which leaves two nodes pointing at each other |
| `MeshRefinement.Refines` | fbmeshd/routing/Routing.cpp:218-357 | seen from one originator every event of the mesh is a step of the abstract protocol |
| `MeshRefinement.ReceiveShape` | fbmeshd/routing/Routing.cpp:247-356 | a reception changes one entry at most, sends at most a reply and a forward, and leaves the rest of the node alone |
| `OriginProtocol.TakeImproves` | fbmeshd/routing/Routing.cpp:294-322 | an accepted announcement never makes a node's knowledge worse, also when the same next hop reports again |
| `OriginProtocol.NextInv` | fbmeshd/routing/Routing.cpp:277-356 | every protocol step keeps the invariant and makes no node's knowledge worse |
| `OriginProtocol.NextHopBetter` | fbmeshd/routing/Routing.cpp:277-322 | the rank strictly improves along every next hop |
| `OriginProtocol.NoForwardingLoop` | fbmeshd/routing/Routing.cpp:277-322 | no chain of next hops is a cycle |
| `OriginProtocol.ForwardingReachesOrigin` | fbmeshd/routing/Routing.cpp:277-322 | following next hops ends at the originator |
| `Convergence.ConvergenceNext` | fbmeshd/routing/Routing.cpp:277-356 | every lossless step keeps the invariant that announcements come from simple paths and every link is either settled or about to be |
| `Convergence.TakenTraced` | fbmeshd/routing/Routing.cpp:277-322 | an accepted announcement travelled a simple path, so its hop count stays below the number of nodes |
| `Convergence.QuietShortest` | fbmeshd/routing/Routing.cpp:277-356 | in a quiet mesh no walk from the root is shorter than the stored metric |
| `Convergence.QuietMeansShortestPaths` | fbmeshd/routing/Routing.cpp:277-356 | in a quiet mesh a node has an entry exactly when the root reaches it, up to date and with the shortest distance |
| `MeshConvergence.CalmIsLossless` | fbmeshd/routing/Routing.cpp:294-356 | with one root and no loss, the concrete mesh passes on every announcement it stores and stores every acceptable one |
| `MeshConvergence.ConvergesToShortestPaths` | fbmeshd/routing/Routing.cpp:113-129 | in every calm run, once no PANN of the root is in flight, each node has a path to the root exactly when it is reachable, with the latest sequence number and the shortest-path metric |
| `EventualConvergence.ConvergesAfterLastAnnouncement` | fbmeshd/routing/Routing.cpp:113-129 | from the last announcement of a calm run on, cut what follows into rounds that each receive something if anything is in flight: after as many rounds as there was work in flight, each node has a path to the root exactly when it is reachable, up to date and shortest |
| `EventualConvergence.Drained` | fbmeshd/routing/Routing.cpp:324-356 | any stretch without announcements, calm or not, leaves every link empty after that many rounds |
| `AllGates.AllNearestGates` | fbmeshd/routing/Routing.cpp:302-314 | with any number of gates coming and going: once a broadcast of each gate has gone through, each at its own time, every node holds every gate that has fewer than two others as close to it, with the shortest-path metric, although announcements are refused on the way |
| `AllGates.HeldForGood` | fbmeshd/routing/Routing.cpp:277-356 | once a broadcast of a gate has gone through, the nodes near it hold its exact distance from then on, with a number between that of the broadcast and the latest, whatever is announced, answered or refused later |
| `AllGates.NotBothAtOnce` | fbmeshd/routing/Routing.cpp:324-335 | why each gate has a time of its own: for two gates near each other it is never true at the same moment that nothing of them is in flight and their latest announcements were broadcasts |
| `AllGates.NotBoth` | fbmeshd/routing/Routing.cpp:324-335 | two gates never hold each other's latest broadcast, since taking one is answered with a newer number |
| `GateConvergence.NearestGatesConverge` | fbmeshd/routing/Routing.cpp:302-314 | at a moment when nothing of a gate is in flight and its latest announcement was a broadcast, every node with fewer than two other gates as close holds that announcement with the shortest-path metric |
| `GateConvergence.RoomForNear` | fbmeshd/routing/Routing.cpp:302-314 | the redundancy count never refuses the exact announcement of such a gate |
| `GateConvergence.NearClosed` | fbmeshd/routing/Routing.cpp:302-314 | a gate near to a node is near to all nodes before it on a shortest path |
| `GateConvergence.GateNext` | fbmeshd/routing/Routing.cpp:218-357 | every event without loss keeps the invariant behind this |
| `NearConvergence.NearNext` | fbmeshd/routing/Routing.cpp:277-356 | if only the near nodes store and pass on, and only exact announcements, every step still keeps them informed of the latest broadcast |
| `NearConvergence.QuietNear` | fbmeshd/routing/Routing.cpp:277-356 | with nothing in flight the near nodes then hold their exact distances |
| `ReplyOvertakes.BroadcastOvertaken` | fbmeshd/routing/Routing.cpp:294-356 | for a reply as latest announcement this is false: a run of three nodes from new daemons in which a reply overtakes the broadcast before it, nothing of the gate is left in flight, and a node one hop away stores 2 |
| `FloodTermination.ReceptionConsumesWork` | fbmeshd/routing/Routing.cpp:324-356 | the reply and the forward of a reception, on every link, are less work than what was received |
| `FloodTermination.EventWork` | fbmeshd/routing/Routing.cpp:324-356 | receptions and losses consume work, announcements add a bounded amount, other events none |
| `FloodTermination.FloodsTerminate` | fbmeshd/routing/Routing.cpp:218-357 | in any stretch of any run the PANNs received or lost, and the work then in flight, are bounded by the work in flight before plus a fixed amount per announcement |
| `FloodTermination.QuietAfterLastAnnouncement` | fbmeshd/routing/Routing.cpp:324-356 | while nothing announces, whatever else happens, receptions and losses are bounded by the work in flight |
| `MeshNode.FirstAnnouncementNeedsTick` | fbmeshd/routing/Routing.h:51-80 | a fresh placeholder accepts an announcement if and only if the clock has moved since it was made |
| `TopGates.GatherGates` | fbmeshd/routing/Routing.cpp:195-206 | the collected pairs are the live gates, each once |
| `TopGates.SortGates` | fbmeshd/routing/Routing.cpp:207-209 | the result is sorted by metric, then address, and a permutation of the input |
| `TopGates.PositionIsRank` | fbmeshd/routing/Routing.cpp:195-216 | the position in the sorted list is the number of live gates ranked before |
| `TopGates.IsStationInTopKGates` | fbmeshd/routing/Routing.cpp:195-216 | for a gate the answer is yes exactly for the one live gate that no other beats, for any other node for the live gates that at most one other beats, by metric and then by address |
| `TopGates.TopGateAdmission` | fbmeshd/routing/Routing.cpp:302-322 | a gate PANN that passes the redundancy count is in the top K once stored, for every table and tie pattern |
| `TopGates.ForwardingGuard` | fbmeshd/routing/Routing.cpp:337-345 | past the TTL check a stored PANN is forwarded if and only if it is not addressed to this node |
| `RoutingDaemon.CountRivals` | fbmeshd/routing/Routing.cpp:302-314 | the loop counts the other live gates that are at least as close |
| `RoutingDaemon.Routing.constructor` | fbmeshd/routing/Routing.cpp:45-68 | a new daemon is neither root nor gate, knows no path and has no announcement or withdrawal timer armed |
| `RoutingDaemon.Routing.GetMeshPaths` | fbmeshd/routing/Routing.cpp:75-88 | the live paths whose next hop has a link metric |
| `RoutingDaemon.Routing.GetMeshPath` | fbmeshd/routing/Routing.cpp:94-101 | the entry of an address, created as an expired-now placeholder if there was none |
| `RoutingDaemon.Routing.DoMeshHousekeeping` | fbmeshd/routing/Routing.cpp:31-41 | exactly the entries expired for more than 60000 ms are forgotten |
| `RoutingDaemon.Routing.DoMeshPathRoot` | fbmeshd/routing/Routing.cpp:113-129 | the announcement transition of the protocol and of the timers |
| `RoutingDaemon.Routing.NoLongerAGate` | fbmeshd/routing/Routing.cpp:56-58 | the withdrawal transition of the protocol and of the timers |
| `RoutingDaemon.Routing.SetGatewayStatus` | fbmeshd/routing/Routing.cpp:370-387 | the status transition of the protocol and of the timers, and when it announces |
| `RoutingDaemon.Routing.FindRelay` | fbmeshd/routing/Routing.cpp:262-275 | whom a PANN for a target is passed to, if anyone |
| `RoutingDaemon.Routing.HwmpPannFrameProcess` | fbmeshd/routing/Routing.cpp:218-357 | the object, step by step, performs the reception transition the protocol theorems are about |
| `Reception.ReceptionDecides` | fbmeshd/routing/Routing.cpp:243-356 | exactly when a PANN is stored, told from the table alone: its target reachable, not stale, and not one gate too many; then the entry, the reply and the forward field by field, otherwise nothing sent and nothing learned |
| `Reception.GateDroppedIff` | fbmeshd/routing/Routing.cpp:302-314 | an otherwise acceptable gate announcement is dropped if and only if, at a gate, one other live gate is at least as close, and at any other node two are |
| `Reception.ReceptionIgnored` | fbmeshd/routing/Routing.cpp:243-260 | a PANN of the node itself or from somebody without a link metric changes nothing |
| `RoutingDaemon.Routing.StorePann` | fbmeshd/routing/Routing.cpp:302-356 | redundancy count, update, reply and forward |
| `RootLifecycle.Lifecycle` | fbmeshd/routing/Routing.cpp:370-387 | over every run gate implies root, a root announces next one interval after its latest announcement, and the withdrawal timer is armed exactly while root but no longer gate, for the active-path timeout after the fall |
| `RootLifecycle.StaysRoot` | fbmeshd/routing/Routing.cpp:370-387 | after losing the gate status a node stays root until the active-path timeout has passed |
| `RootLifecycle.FormerGateKeepsAnnouncing` | fbmeshd/routing/Routing.cpp:113-129 | a former gate announces at least once per interval for the whole active-path timeout, and never as a gate |
| `LinkMetrics.AirtimeRange` | fbmeshd/routing/MetricManager80211s.cpp:37-52 | the airtime of a nonzero rate is between 1 and 40961, and 16385 for rates up to 100, where the 32-bit product wraps |
| `LinkMetrics.AirtimeNonIncreasingIff` | fbmeshd/routing/MetricManager80211s.cpp:37-52 | exactly when a faster link has no larger airtime: always, except from a rate of at most 100 to one of 101 to 400 |
| `LinkMetrics.AirtimeWrapExample` | fbmeshd/routing/MetricManager80211s.cpp:47-50 | a rate of 101 has more airtime than one of 100 |
| `LinkMetrics.SampleRange` | fbmeshd/routing/MetricManager80211s.cpp:97-121 | every sample, whatever the signal-strength weight, is between 1 and 40961 |
| `LinkMetrics.RssiSteps` | fbmeshd/routing/MetricManager80211s.cpp:54-89 | the airtime on both sides of every step of the signal strength |
| `LinkMetrics.RssiMonotone` | fbmeshd/routing/MetricManager80211s.cpp:54-89 | a weaker signal never has the smaller airtime, and all are between 9 and 126 |
| `LinkMetrics.BlendIsMean` | fbmeshd/routing/MetricManager80211s.cpp:120-121 | a sample is the whole number nearest to the weighted mean, and the weight is that of the signal strength |
| `LinkMetrics.EwmaExact` | fbmeshd/routing/MetricManager80211s.cpp:123-142 | the wrapping update equals integer arithmetic and stays in the scaled range of the samples |
| `LinkMetrics.EwmaApproaches` | fbmeshd/routing/MetricManager80211s.cpp:123-142 | under a constant sample the average moves towards it strictly, never past it, and stops there |
| `LinkMetrics.EwmaSettles` | fbmeshd/routing/MetricManager80211s.cpp:123-142 | after finitely many equal samples the average shows the sample for good |
| `LinkMetrics.SampleBounded` | fbmeshd/routing/MetricManager80211s.cpp:123-142 | a sample, with the warm-up repetitions, keeps a peer's values in range |
| `LinkMetrics.FirstSample` | fbmeshd/routing/MetricManager80211s.cpp:123-142 | the first sample is taken over as it is |
| `LinkMetrics.AbsorbSteps` | fbmeshd/routing/MetricManager80211s.cpp:129-142 | a sample moves the average by so many steps of the exact integer update: eleven less the samples counted while the peer is new, later one |
| `LinkMetrics.ReportBounded` | fbmeshd/routing/MetricManager80211s.cpp:149-173 | a query leaves a reported value in range, never 0, within its hysteresis of the average |
| `LinkMetrics.ReportChanges` | fbmeshd/routing/MetricManager80211s.cpp:158-169 | the reported value stays if and only if the average is in the band and the band's edge does not wrap below it |
| `LinkMetrics.PeerBounded` | fbmeshd/routing/MetricManager80211s.cpp:91-173 | over every history of samples and queries a peer's values stay in the range of its samples |
| `LinkMetrics.QueryAnswer` | fbmeshd/routing/MetricManager80211s.cpp:149-173 | over every history the answer of a query is in the range of the samples and within the hysteresis of the average |
| `MetricManager.SampleOf` | fbmeshd/routing/MetricManager80211s.cpp:97-121 | there is a sample exactly for stations with a usable rate, and it is an airtime |
| `MetricManager.SampleIsMean` | fbmeshd/routing/MetricManager80211s.cpp:97-121 | the sample is the rounded mean of the airtimes of throughput and signal strength, the latter replaced where it is out of range |
| `MetricManager.ComputeSample` | fbmeshd/routing/MetricManager80211s.cpp:97-121 | the statements compute that sample |
| `MetricManager.AbsorbSample` | fbmeshd/routing/MetricManager80211s.cpp:123-142 | the update and its warm-up loop compute the specified average |
| `MetricManager.NoteStation` | fbmeshd/routing/MetricManager80211s.cpp:97-146 | one station changes its own metric only, as specified |
| `MetricManager.NotedIs` | fbmeshd/routing/MetricManager80211s.cpp:97-146 | a report changes its own station only, and that only if it gives a sample: a new station starts from it, a known one moves towards it |
| `MetricManager.SamplesCounted` | fbmeshd/routing/MetricManager80211s.cpp:91-147 | a peer is known exactly if a report of it gave a sample, and its samples are counted up to ten |
| `MetricManager.MetricManager80211s.constructor` | fbmeshd/routing/MetricManager80211s.cpp:14-35 | a new manager knows no peer; with sound settings all that follows applies to it |
| `MetricManager.MetricManager80211s.UpdateMetrics` | fbmeshd/routing/MetricManager80211s.cpp:91-147 | all stations in order, keeping every peer in range |
| `MetricManager.MetricManager80211s.GetLinkMetric` | fbmeshd/routing/MetricManager80211s.cpp:149-173 | the answer for known and unknown stations, an airtime unless the rate is 0, and the new reported value |
| `MetricManager.MetricManager80211s.GetLinkMetrics` | fbmeshd/routing/MetricManager80211s.cpp:175-185 | exactly the stations with a nonzero rate have a link metric, each between 1 and 40961: the reported value of a known peer, the airtime of the throughput of another |
| `MetricManager.SoundFactors` | fbmeshd/routing/MetricManager80211s.cpp:123-142 | settings are sound exactly for averaging factors up to 2^16 and weights between 0 and 1 |
| `AirtimeMesh.StoredAirtime` | fbmeshd/routing/Routing.cpp:277-322 | in a mesh whose link metrics are airtimes a stored metric is at most 40961 times its hop count, far below saturation |
| `AirtimeMesh.AirtimesNeverSaturate` | fbmeshd/routing/Routing.cpp:277-282 | there no addition of a link metric saturates and no hop count wraps, for any PANN in flight |
| `RouteRoundTrip.RoundTrip` | fbmeshd/rnl/NetlinkRoute.cpp:489-642 | parsing an encoded route gives back destination, prefix length, priority, protocol, type and the set of next hops, in whatever order they were written |
| `RouteRoundTrip.EncodeSucceedsIff` | fbmeshd/rnl/NetlinkRoute.cpp:605-642 | encoding, also of no next hop, succeeds if and only if every next hop is complete and the message fits the buffer |
| `RouteRoundTrip.WritesInsideIff` | fbmeshd/rnl/NetlinkRoute.cpp:299-348 | the unchecked writes of next-hop headers stay in the buffer if and only if 8 bytes are left whenever some next hops have been written and another one follows |
| `RouteRoundTrip.HeaderOverrun` | fbmeshd/rnl/NetlinkRoute.cpp:313-316 | with 512 next hops of link scope one is written outside |
| `RouteRoundTrip.HopRoundTrip` | fbmeshd/rnl/NetlinkRoute.cpp:410-466 | parsing an encoded next hop, with whatever follows it, gives it back |
| `RouteRoundTrip.HopsRoundTrip` | fbmeshd/rnl/NetlinkRoute.cpp:568-603 | parsing encoded next hops gives them back in order |
| `RouteRoundTrip.LabelsRoundTrip` | fbmeshd/rnl/NetlinkRoute.cpp:384-408 | decoding an encoded label stack gives back the labels |
| `RouteRoundTrip.EncodedBytes` | fbmeshd/rnl/NetlinkRoute.cpp:605-642 | a successful encoding is headers with the right length, then destination, priority and multipath attributes |
| `RouteWire.HeaderWire` | fbmeshd/rnl/NetlinkRoute.cpp:19-60 | the 28 header bytes of a new-route request, octet by octet |
| `RouteWire.HopWire` | fbmeshd/rnl/NetlinkRoute.cpp:96-127 | the bytes of a next hop: length, interface, encapsulation and gateway |
| `RouteWire.EncapWire` | fbmeshd/rnl/NetlinkRoute.cpp:206-276 | the bytes around a label stack |
| `RouteWire.PlainWire` | fbmeshd/rnl/NetlinkRoute.cpp:605-642 | all 80 bytes of the request for an IPv6 route with one plain next hop |
| `RouteCodec.StackBytes` | fbmeshd/rnl/NetlinkRoute.cpp:83-94 | every label of a stack is an entry of four bytes with its 20 bits, and exactly the last has the bottom-of-stack bit |
| `RouteRoundTrip.HopErrors` | fbmeshd/rnl/NetlinkRoute.cpp:96-127 | which error a next hop meets, and when |
| `RouteRoundTrip.FirstError` | fbmeshd/rnl/NetlinkRoute.cpp:299-348 | next hops are written one after the other, and the first error ends it |
| `NetlinkBytes.WalkCons` | fbmeshd/rnl/NetlinkRoute.cpp:508-556 | walking an attribute and its padding goes on exactly where the next one starts |
| `NetlinkBytes.WalkStops` | fbmeshd/rnl/NetlinkRoute.cpp:508-556 | fewer bytes than an attribute header end the walk |
| `RouteMessage.AddSubAttributes` | fbmeshd/rnl/NetlinkMessage.cpp:54-78 | a subattribute is written if and only if it fits, behind what was there |
| `RouteMessage.EncodeLabels` | fbmeshd/rnl/NetlinkRoute.cpp:83-94 | the loop writes the label stack: four bytes per label, exactly the last marked as bottom |
| `RouteMessage.AddStack` | fbmeshd/rnl/NetlinkRoute.cpp:206-276 | the label stack ends up nested in an encapsulation attribute whose length covers it |
| `RouteMessage.AddEncap` | fbmeshd/rnl/NetlinkRoute.cpp:206-276 | both encapsulation attributes are written if and only if they fit |
| `RouteMessage.AddGateway` | fbmeshd/rnl/NetlinkRoute.cpp:96-127 | the gateway attribute, or the error of a missing gateway or a full buffer |
| `RouteMessage.AddNexthop` | fbmeshd/rnl/NetlinkRoute.cpp:96-127 | writing a next hop in place, with its length patched last, gives the specified bytes and code |
| `RouteMessage.AddMultiPathNexthop` | fbmeshd/rnl/NetlinkRoute.cpp:299-348 | the loop over next hops gives the specified bytes, or the first error |
| `RouteMessage.NetlinkRouteMessage.constructor` | fbmeshd/rnl/NetlinkRoute.cpp:19-60 | the buffer holds the headers of a new-route request and zeros |
| `RouteMessage.NetlinkRouteMessage.AddAttributes` | fbmeshd/rnl/NetlinkMessage.cpp:80-107 | an attribute is appended and the message length updated, or nothing changes |
| `RouteMessage.NetlinkRouteMessage.AddNextHops` | fbmeshd/rnl/NetlinkRoute.cpp:278-297 | the next hops are appended as one multipath attribute |
| `RouteMessage.NetlinkRouteMessage.AddRoute` | fbmeshd/rnl/NetlinkRoute.cpp:605-642 | the in-place encoder produces exactly the specified message and code |
| `RouteParser.ParseMplsLabelsLoop` | fbmeshd/rnl/NetlinkRoute.cpp:384-408 | the loop computes the specified label stack |
| `RouteRoundTrip.ParseTlvs` | fbmeshd/rnl/NetlinkRoute.cpp:410-466 | the attributes written for a next hop, parsed one after the other, rebuild it |
| `RouteParser.ParseHopsLoop` | fbmeshd/rnl/NetlinkRoute.cpp:568-603 | the loop computes the specified next hops |
| `RouteParser.ParseMessage` | fbmeshd/rnl/NetlinkRoute.cpp:489-566 | the loop computes the specified route |
| `SingleHop.SingleHopMessage` | fbmeshd/rnl/NetlinkRoute.cpp:489-566 | a message without a multipath attribute parses exactly if its attributes are whole; it has one next hop, and every field of it and of the route comes from the last attribute that sets it, or from the header |
| `SingleHop.PlainSingleHop` | fbmeshd/rnl/NetlinkRoute.cpp:557-561 | an IP message with one interface and one gateway attribute, in any order and among others, has exactly that next hop |
| `RouteRoundTrip.SkipsOthers` | fbmeshd/rnl/NetlinkRoute.cpp:384-408 | subattributes of an encapsulation other than a label stack are skipped |
| `NetlinkQueue.QueueDiscipline` | fbmeshd/rnl/NetlinkMessage.cpp:198-281 | over every run requests are sent in order under consecutive numbers, each is in exactly one place, the queue stays within 126000 and a waiting one has the timer armed |
| `NetlinkQueue.PromiseSetOnce` | fbmeshd/rnl/NetlinkMessage.cpp:271-281 | no promise is completed twice |
| `NetlinkQueue.StatusFromAcknowledgement` | fbmeshd/rnl/NetlinkMessage.cpp:271-281 | over every run a completed promise has the status of an acknowledgement that carried the sequence number of its own request |
| `NetlinkQueue.AcknowledgementCompletes` | fbmeshd/rnl/NetlinkMessage.cpp:376-399 | conversely an acknowledgement of a number in flight completes its request, with its status |
| `NetlinkQueue.FlowControl` | fbmeshd/rnl/NetlinkMessage.cpp:211-269 | after every run exactly the timer, the acknowledgement of the latest number and a submission while no timer is armed send the next batch, of at most 500; what is accepted, what waits and when the timer is armed |
| `NetlinkQueue.NoRequestStranded` | fbmeshd/rnl/NetlinkMessage.cpp:211-269 | a request with w before it is sent once the timer has fired w/500 + 1 times, whatever acknowledgements are lost |
| `NetlinkQueue.NumberIsMod` | fbmeshd/rnl/NetlinkMessage.cpp:211-269 | sequence numbers are counted modulo 2^32 |
| `NetlinkQueue.ProtocolSocket.constructor` | fbmeshd/rnl/NetlinkMessage.cpp:131-138 | an empty queue, with an arbitrary last sequence number |
| `NetlinkQueue.ProtocolSocket.SendNetlinkMessage` | fbmeshd/rnl/NetlinkMessage.cpp:211-269 | sends a batch and arms the timer, as the transition says |
| `NetlinkQueue.ProtocolSocket.FillBatch` | fbmeshd/rnl/NetlinkMessage.cpp:225-246 | the loop sends the given number of requests |
| `NetlinkQueue.ProtocolSocket.AddNetlinkMessage` | fbmeshd/rnl/NetlinkMessage.cpp:442-463 | accepts requests up to the limit and sends if the timer is not armed |
| `NetlinkQueue.ProtocolSocket.SetReturnStatusValue` | fbmeshd/rnl/NetlinkMessage.cpp:271-281 | completes the promise under a number, once, with the status given |
| `NetlinkQueue.ProtocolSocket.ProcessAck` | fbmeshd/rnl/NetlinkMessage.cpp:198-209 | the acknowledgement of the last number sends the next batch |
| `NetlinkQueue.ProtocolSocket.OnErrorMessage` | fbmeshd/rnl/NetlinkMessage.cpp:376-390 | completes with the status of the message, then acknowledges |
| `NetlinkQueue.ProtocolSocket.OnDoneMessage` | fbmeshd/rnl/NetlinkMessage.cpp:395-399 | acknowledges, then completes with success |
| `NetlinkQueue.ProtocolSocket.OnTimer` | fbmeshd/rnl/NetlinkMessage.cpp:133-136 | sends the next batch |
| `RouteCache.SameRoute` | fbmeshd/rnl/NetlinkTypes.cpp:430-458 | equal sizes and one-sided inclusion of next hops decide equality of routes |
| `RouteCache.UnroutableIff` | fbmeshd/rnl/NetlinkSocket.cpp:532-538 | the destinations refused are ff00::/8, fe80::/10, 224.0.0.0/4 and 169.254.0.0/16 |
| `RouteCache.FilledIs` | fbmeshd/rnl/NetlinkSocket.cpp:441-454 | a route keeps its priority; without one it gets that of its protocol |
| `RouteCache.Kernel.AddRoute` | fbmeshd/rnl/NetlinkMessage.cpp:499-513 | the assumed kernel: refuses and changes nothing, has the route and has touched nothing but its prefix and protocol, or answers an error that is taken for success and may be wrong |
| `RouteCache.Kernel.DeleteRoute` | fbmeshd/rnl/NetlinkMessage.cpp:542-557 | the assumed kernel: removes one route of the prefix and protocol, whichever, or refuses, or answers one of the three errors taken for success |
| `RouteCache.IgnoredDeleteIff` | fbmeshd/rnl/NetlinkMessage.cpp:554-556 | forgetting a route after an ignored error keeps the agreement if and only if the kernel had none left (of IPv6; IPv4 agreement does not forbid further routes) |
| `RouteCache.IgnoredAddIff` | fbmeshd/rnl/NetlinkMessage.cpp:511-511 | remembering a route after an ignored error keeps the agreement if and only if the kernel had it |
| `RouteCache.IgnoredErrorBreaksAgreement` | fbmeshd/rnl/NetlinkMessage.cpp:554-556 | one deletion refused as invalid leaves the kernel with a route the cache has forgotten |
| `RouteSocket.Replace` | fbmeshd/rnl/NetlinkSocket.cpp:459-493 | delete, forget, add, remember: cache and kernel agree after every possible refusal, and after an ignored error exactly if it was harmless |
| `RouteSocket.AddUpdate` | fbmeshd/rnl/NetlinkSocket.cpp:432-493 | agreement after every outcome unless an ignored error was harmful, and then not; the cache each outcome leaves; no request for a route already there |
| `RouteSocket.Delete` | fbmeshd/rnl/NetlinkSocket.cpp:591-615 | the same for deletion, and no request for a prefix that is not cached |
| `RouteSocket.DeleteUnwanted` | fbmeshd/rnl/NetlinkSocket.cpp:727-743 | the first pass removes exactly the unwanted prefixes, agreeing with the kernel throughout |
| `RouteSocket.AddWanted` | fbmeshd/rnl/NetlinkSocket.cpp:745-749 | the second pass leaves the wanted table with default priorities, agreeing with the kernel throughout |
| `RouteSocket.SyncUnicast` | fbmeshd/rnl/NetlinkSocket.cpp:723-750 | success means the cache is the requested table with priorities filled in; failure keeps agreement; repeating sends nothing; no other route is ever touched |
| `LinkSync.DeleteLinks` | fbmeshd/rnl/NetlinkSocket.cpp:775-799 | after the loop the kernel has link routes for the kept keys only |
| `LinkSync.AddLinks` | fbmeshd/rnl/NetlinkSocket.cpp:801-817 | after the loop the kernel has one link route for every wanted key |
| `LinkSync.SyncLinks` | fbmeshd/rnl/NetlinkSocket.cpp:773-819 | success means exactly one link route per requested key; repeating sends nothing; no other route is ever touched |
| `NetlinkSocket.KeptElsewhere` | fbmeshd/rnl/NetlinkSocket.cpp:432-493 | requests for one protocol and kind of route leave every other cache in agreement |
| `NetlinkSocket.NetlinkSocket.constructor` | fbmeshd/rnl/NetlinkSocket.cpp:14-24 | empty caches agree with a kernel that has no routes |
| `NetlinkSocket.NetlinkSocket.DoAddUpdateUnicastRoute` | fbmeshd/rnl/NetlinkSocket.cpp:432-493 | all caches agree with the kernel after every outcome; only this protocol's cache changes, as stated per outcome |
| `NetlinkSocket.NetlinkSocket.DoDeleteUnicastRoute` | fbmeshd/rnl/NetlinkSocket.cpp:591-615 | the same for deletion |
| `NetlinkSocket.NetlinkSocket.DoSyncUnicastRoutes` | fbmeshd/rnl/NetlinkSocket.cpp:723-750 | the same for a synchronisation, which on success leaves the requested table and is idempotent |
| `NetlinkSocket.NetlinkSocket.DoSyncLinkRoutes` | fbmeshd/rnl/NetlinkSocket.cpp:773-819 | the link cache is replaced only on full success, the unicast caches stay in agreement |
| `MeshAddress.FromMacInjective` | fbmeshd/routing/SyncRoutes80211s.cpp:24-39 | two derived addresses are equal if and only if prefix and MAC address are |
| `MeshAddress.MeshOctets` | fbmeshd/routing/SyncRoutes80211s.cpp:47-49 | the mesh prefix of a node is fc00:: and its EUI-64 identifier, octet by octet |
| `MeshAddress.TaygaOctets` | fbmeshd/routing/SyncRoutes80211s.cpp:41-44 | its tayga prefix is fd00:: and the same identifier |
| `MeshAddress.GatewayOctets` | fbmeshd/routing/SyncRoutes80211s.cpp:132-135 | its link-local address is fe80:: and the same identifier |
| `MeshAddress.NetsDiffer` | fbmeshd/routing/SyncRoutes80211s.cpp:41-49 | the prefixes of different nodes, and the two of one node, differ |
| `MeshAddress.AddressingApart` | fbmeshd/routing/SyncRoutes80211s.cpp:24-49 | the addressing gives every node and family its own single-address prefix |
| `GateSelection.Emplace` | fbmeshd/routing/SyncRoutes80211s.cpp:122-152 | inserting a path's route never finds its prefix taken |
| `GateSelection.ScanPaths` | fbmeshd/routing/SyncRoutes80211s.cpp:113-176 | whatever the order, the routes are one per filled path and family, and the gate chosen is a closest live gate |
| `GateSelection.Settle` | fbmeshd/routing/SyncRoutes80211s.cpp:170-176 | a live incumbent goes only for a strictly closer gate |
| `GateSelection.ChoiceSound` | fbmeshd/routing/SyncRoutes80211s.cpp:164-176 | if some live gate exists a gate is chosen, it is in the table, and its metric is least |
| `GateSelection.ChoiceStable` | fbmeshd/routing/SyncRoutes80211s.cpp:164-176 | reading the same state again chooses the same gate |
| `SyncRoutes.NetsDisjoint` | fbmeshd/routing/SyncRoutes80211s.cpp:184-270 | the prefixes allowed in the two tables do not meet unless both are allowed the gate prefix |
| `SyncRoutes.WantedUnique` | fbmeshd/routing/SyncRoutes80211s.cpp:115-163 | the wanted unicast table is determined by what is read |
| `SyncRoutes.WantedFollows` | fbmeshd/routing/SyncRoutes80211s.cpp:115-163 | the wanted routes send traffic for every known node to the link-local address of the next hop of its path, in each family in use, traffic for the gate prefix to the next hop of the path to the gate, and nothing else anywhere |
| `SyncRoutes.LinksHandToTayga` | fbmeshd/routing/SyncRoutes80211s.cpp:184-251 | exactly which prefixes go out on the tayga interface: the own one, its IPv4 network, and the gate prefix of a gate or all of IPv4 for another node with a gate |
| `SyncRoutes.AddGateRoute` | fbmeshd/routing/SyncRoutes80211s.cpp:253-264 | the gate prefix is added exactly for a non-gate with a gate, through a path that is in the table |
| `SyncRoutes.SyncFirst` | fbmeshd/routing/SyncRoutes80211s.cpp:269-269 | the unicast half keeps the tables disjoint after every request |
| `SyncRoutes.SyncSecond` | fbmeshd/routing/SyncRoutes80211s.cpp:270-270 | the link half keeps the tables disjoint after every request |
| `SyncRoutes.SyncRoutes80211s.constructor` | fbmeshd/routing/SyncRoutes80211s.cpp:79-95 | the invariant holds at the start, with no gate chosen |
| `SyncRoutes.Plan` | fbmeshd/routing/SyncRoutes80211s.cpp:113-264 | the gate chosen and the unicast table wanted, which is the only one meeting its description |
| `SyncRoutes.SyncRoutes80211s.SyncBoth` | fbmeshd/routing/SyncRoutes80211s.cpp:218-221 | unicast, then link; on success both tables are the requested ones |
| `SyncRoutes.SyncRoutes80211s.PreSync` | fbmeshd/routing/SyncRoutes80211s.cpp:218-221 | when the gate status has changed, the gate prefix leaves both tables before it enters one |
| `SyncRoutes.SyncRoutes80211s.DoSyncRoutes` | fbmeshd/routing/SyncRoutes80211s.cpp:97-271 | after every single request no prefix is in both tables, also across gate flips; success leaves exactly the wanted tables, whose routes follow the next hops of the paths; if they are there already nothing is sent |
| `SyncRoutes.SyncRoutes80211s.OnTimer` | fbmeshd/routing/SyncRoutes80211s.cpp:97-112 | one tick reading a routing daemon: on success the cached routes follow the next hops of its live paths |
| `SyncRoutes.SyncRoutes80211s.RunTimer` | fbmeshd/routing/SyncRoutes80211s.cpp:90-94 | the tables are disjoint at every intermediate kernel state of every run |
| `RouteDampener.Hysteresis` | fbmeshd/gateway-connectivity-monitor/RouteDampener.cpp:61-121 | over every run of every configuration, also with a wrapping counter, the maximum timer is armed exactly in a suppression, the callbacks alternate and no suppression outlasts the maximum; with limits in order an unsuppressed route is below the suppress limit |
| `RouteDampener.AboveReuseIff` | fbmeshd/gateway-connectivity-monitor/RouteDampener.cpp:61-77 | in every configuration, a suppressed route stays above the reuse limit throughout a run if and only if no flap of it wraps the counter to the limit or below and none starts a suppression there |
| `RouteDampener.AboveNext` | fbmeshd/gateway-connectivity-monitor/RouteDampener.cpp:61-110 | the same for one event |
| `RouteDampener.FlapsWrap` | fbmeshd/gateway-connectivity-monitor/RouteDampener.cpp:61-77 | the wrap happens: in a valid configuration two flaps leave a suppressed route with history 0 |
| `RouteDampener.ValidPenaltyDecays` | fbmeshd/gateway-connectivity-monitor/RouteDampener.cpp:42-47 | in a valid configuration one penalty decays to the reuse limit within the maximum suppression time |
| `RouteDampener.SuppressionLasts` | fbmeshd/gateway-connectivity-monitor/RouteDampener.cpp:61-110 | from the flap that starts it a suppression lasts exactly the half-lives it takes to halve the history down to the reuse limit, if no other flap follows and the maximum is not shorter |
| `RouteDampener.ReleasedByDecay` | fbmeshd/gateway-connectivity-monitor/RouteDampener.cpp:94-110 | the history left when it ends: halved that often, or 0 from half the reuse limit down |
| `RouteDampener.StillSuppressed` | fbmeshd/gateway-connectivity-monitor/RouteDampener.cpp:94-110 | it goes on through every half-life that leaves the history above the reuse limit |
| `RouteDampener.EndsOnlyThus` | fbmeshd/gateway-connectivity-monitor/RouteDampener.cpp:84-121 | after every run only the half-life timer, with the history down to the reuse limit, or the maximum timer at its time, with the history forgotten, ends a suppression |
| `RouteDampener.Dampener.constructor` | fbmeshd/gateway-connectivity-monitor/RouteDampener.cpp:14-40 | starts unsuppressed, with no history |
| `RouteDampener.Dampener.Create` | fbmeshd/gateway-connectivity-monitor/RouteDampener.cpp:35-47 | construction is refused exactly for inconsistent values |
| `RouteDampener.Dampener.DoFlap` | fbmeshd/gateway-connectivity-monitor/RouteDampener.cpp:61-77 | the flap transition and its callback |
| `RouteDampener.Dampener.UndampenImpl` | fbmeshd/gateway-connectivity-monitor/RouteDampener.cpp:84-92 | ends the suppression and stops the maximum timer |
| `RouteDampener.Dampener.HalfLifeTimerExpired` | fbmeshd/gateway-connectivity-monitor/RouteDampener.cpp:94-110 | the half-life transition, which re-arms its timer |
| `RouteDampener.Dampener.MaxSuppressLimitTimerExpired` | fbmeshd/gateway-connectivity-monitor/RouteDampener.cpp:112-121 | the maximum-suppression transition |
| `GatewayMonitor.GatewayStatus` | fbmeshd/gateway-connectivity-monitor/GatewayConnectivityMonitor.cpp:124-179 | over every run of every configuration an inactive gateway is withdrawn, an active unsuppressed one advertised, and a suppressed one advertised exactly if no probe has failed since |
| `GatewayMonitor.ActiveIsLatestProbe` | fbmeshd/gateway-connectivity-monitor/GatewayConnectivityMonitor.cpp:140-179 | over every run the gateway is active exactly if the latest probe succeeded |
| `GatewayMonitor.FlapIff` | fbmeshd/gateway-connectivity-monitor/GatewayConnectivityMonitor.cpp:140-179 | a probe counts as a flap exactly if it succeeds while the gateway is not active |
| `GatewayMonitor.NoEarlyReturn` | fbmeshd/gateway-connectivity-monitor/GatewayConnectivityMonitor.cpp:124-179 | while a suppression lasts a withdrawn route does not come back |
| `GatewayMonitor.DampenedButAdvertised` | fbmeshd/gateway-connectivity-monitor/GatewayConnectivityMonitor.cpp:140-159 | "suppressed implies withdrawn" is false, also for the default limits: wherever the suppress limit can be reached without a wrap, alternating probes end in a suppression that leaves the advertisement in place |
| `GatewayMonitor.Monitor.constructor` | fbmeshd/gateway-connectivity-monitor/GatewayConnectivityMonitor.cpp:34-75 | starts inactive and withdrawn |
| `GatewayMonitor.Monitor.HandleCalls` | fbmeshd/gateway-connectivity-monitor/GatewayConnectivityMonitor.cpp:124-138 | the dampener's callbacks withdraw or advertise |
| `GatewayMonitor.Monitor.CheckRoutesAndAdvertise` | fbmeshd/gateway-connectivity-monitor/GatewayConnectivityMonitor.cpp:140-179 | the probe transition |
| `GatewayMonitor.Monitor.OnHalfLifeTimer` | fbmeshd/gateway-connectivity-monitor/GatewayConnectivityMonitor.cpp:132-138 | the half-life transition of dampener and monitor together |
| `GatewayMonitor.Monitor.OnMaxSuppressTimer` | fbmeshd/gateway-connectivity-monitor/GatewayConnectivityMonitor.cpp:132-138 | the maximum-suppression transition of dampener and monitor together |

## Left out

- The 802.11s, nl80211 and authsae wrappers, sockets, UDP transport, pinger, signal handlers, the thrift service and the main program: calls into the system.
- linkstatsd: text scraping and metric export.
- Thrift serialisation of PANNs: taken to be the identity.
- Netlink socket start-up (`updateRouteCache`), interface addresses (`syncIfAddress`), multicast and MPLS route caches, libnl object conversion, getters and setters: bookkeeping around the operations modelled here, without a law of its own.
- MPLS next hops that swap, pop or leave through `RTA_VIA`: their payload is not a multiple of 4, and the parser's unsigned remaining length then wraps.
- The round trip of a route without next hops: the parser always adds one empty next hop.
- RouteRoundTrip.RoundTrip: assumes next hops with an interface index, weight 0, a gateway of the route's family, and labels exactly for a push, because the format does not carry anything else.
- RouteMessage.StartNexthop: reports a full buffer when not even the 8-byte next-hop header fits, where the program writes past the end; `RouteRoundTrip.WritesInsideIff` says when that happens.
- NetlinkBytes.Le16: a little-endian host.
- LinkMetrics.SampleRange: the weighted mean is taken over real numbers; floating-point rounding of the mean is not modelled.
- RouteDampener.ValidPenaltyDecays: a half-life of 0, by which the program divides, is excluded.
- LinkSync.SyncLinks: speaks of keys, not of route contents, because a kept key is not programmed again even if its route would differ; one prefix on two interfaces is excluded.
- NetlinkSocket.NetlinkSocket.constructor: a kernel that already has routes, which the program would read at start-up, is not modelled.
- SyncRoutes.SyncRoutes80211s.constructor: a restart that finds routes of its own protocol in the kernel is not modelled.
- MetricManager.MetricManager80211s.UpdateMetrics: averaging factors above 2^16 and weights outside [0, 1], which the program accepts, make the 32-bit average wrap and are excluded.
- MetricManager.MetricManager80211s.GetLinkMetric: the same.
- MetricManager.MetricManager80211s.GetLinkMetrics: the same.
- RouteMessage.AddNexthop: next hops that swap, pop, or push more than 16 labels are excluded, as said above.
- RouteMessage.AddMultiPathNexthop: the same.
- RouteMessage.NetlinkRouteMessage.AddNextHops: the same.
- RouteMessage.NetlinkRouteMessage.AddRoute: the same.
- RouteSocket.Replace: a prefix that also has a link route of the same protocol is excluded, because a deletion might then remove either; `SyncRoutes` shows that its two tables never share one.
- RouteSocket.AddUpdate: the same.
- RouteSocket.Delete: the same; for IPv4 the agreement tolerates a route left behind, so only IPv6 shows a harmful error.
- RouteSocket.SyncUnicast: the same.
- NetlinkSocket.NetlinkSocket.DoAddUpdateUnicastRoute: the same.
- NetlinkSocket.NetlinkSocket.DoDeleteUnicastRoute: the same.
- NetlinkSocket.NetlinkSocket.DoSyncUnicastRoutes: the same.
- NetlinkSocket.NetlinkSocket.DoSyncLinkRoutes: the same, from the side of the link routes; and one prefix on two interfaces is excluded.
- LinkSync.DeleteLinks: one prefix on two interfaces is excluded, because a deletion does not name the interface.
- LinkSync.AddLinks: the same.
- MeshTheorems.LoopFreedom: assumes a benign run; `LoopCondition.LoopFreeIff` is the exact condition for all runs.
- GateConvergence.NearestGatesConverge: assumes that the latest announcement of the gate was a broadcast; `ReplyOvertakes.BroadcastOvertaken` shows that this cannot be dropped, `AllGates.HeldForGood` that it need have been so only once. It is not a necessary condition: a reply in between need not overtake anything. Nodes with two other gates as close may or may not hold the gate.
