# Verified models of the ns-2.35 fork's protocol cores

A Dafny project that models the algorithms below the scripting layer of this ns-2.35 fork and proves what they keep.
`dafny verify dfyconfig.toml` checks all of it.

**Form.** Code that changes things in place is imperative here: `class` objects with the original's fields, the
original's loops, linked lists and arrays, each method proved equal to a function of the old state. Those functions
form the second layer, on which the properties of whole runs are proved. The pairs are `AodvAgent` over `AodvSpec`,
`AomdvAgent` over `AomdvSpec`, `RouteBuffer.Queue` over `BufferSpec`, `Asim.Allocator` over `MaxMin`, `Tbf.Filter` over the functions beside it, `Reassembly` over `ReassemblySpec`, `SaLink` over `Reservation`,
`Classifier.MultiPathForwarder` and `Red.RedRouter` over theirs. Both agents hold a `RouteBuffer.Queue`, whose linked
packets they add and take out, and the AOMDV agent works on an `AomdvPaths.PathList` for the entry at hand. `TcpSender` states its invariant on the class itself,
with a ghost log of what was sent.

**Numbers.** Doubles are exact reals. Sequence numbers are unbounded. The sentinel INFINITY2 is a separate value
`Infinity`; real hop counts are taken to stay below it. `INFINITY` in `aomdv.cc` has no definition in the repository
(its line in `aomdv.h` is commented out) and is read as the same sentinel, as the entry's constructor uses it.

**What is modelled.**

- *AODV* (`Routing`, `RingSearch`, `RouteList`, `AodvSpec`, `AodvSafety`, `AodvNetwork`, `AodvSetup`, `AodvDelivery`,
  `AodvLifetimes`, `AodvAsserts`, `AodvRepair`, `AodvDiscovery`, `AodvSearch`, `AodvAgent`). Nodes and a medium that keeps every message ever sent, so that it may be lost,
  delayed, repeated, reordered, or come to any node. The update rule, request, reply, error and expiry handling follow
  RFC 3561 sections 6.2, 6.5, 6.6, 6.7 and 6.11; the parity of sequence numbers is the code's own. The code compiles
  local repair in, and its timer takes a route down without raising the number (the increment is commented out). Loop
  freedom is therefore proved of the runs in which no repair timer finds its route still under repair, and a seven-step
  run shows that one such timer closes a loop. The protocol is shown to do its work as well: along any path discovery leaves
  the routes it is meant to, the packets that waited get to the other end, and when a link of the path breaks, the errors
  leave no node before the break with a route into it; and while no answer comes, at most seven requests for a destination enter the medium before
  the node gives up. The assertions of the handlers hold in every run without local repair, and with it exactly when the
  handler meets no route under repair.
- *AOMDV* (`AomdvPaths`, `AomdvSpec`, `AomdvSafety`, `AomdvNetwork`, `AomdvMultipath`, `AomdvSetup`, `AomdvTwoPaths`,
  `AomdvDelivery`, `AomdvFailover`, `AomdvLifetimes`, `AomdvSearch`, `AomdvAgent`) in its node-disjoint configuration, over
  the same medium. Here nothing is excluded: link-layer detection is off, so local repair cannot be reached. Discovery finds
  its paths, two disjoint ones where there are two, and asks no more often than AODV's; packets get to the other end, over
  the second path when the neighbour on the first falls silent; and without a second path errors reach every node before.
- *The packet buffer* of both (`BufferSpec`, `RouteBuffer`).
- *newupdate* of the analytic simulator (`MaxMin`, `Asim`): weighted max-min fairness, reached by filling bottlenecks.
- *The token bucket filter* (`Tbf`): conformance in every window and the greedy-shaper property.
- *The TCP receiver and sender variables* (`ReassemblySpec`, `Reassembly`, `TcpSender`; section 3.9 of RFC 793).
- *Hop-by-hop reservation* (`Reservation`, `SaLink`), *the RED operating point* (`Red`), *the round-robin forwarder and
  its slot table* (`Classifier`).

**Findings.** Where the code does not keep what it is meant to keep, one member gives a state or run in which it does
not, and another says exactly when it does.

- The repair timer: `AodvRepair.RepairTimerClosesLoop`, `AodvSafety.RepairTimeoutLosesFreshness`.
- Assertions on live routes: `AodvAsserts.RepairTripsAssertion`, `AodvAsserts.AssertsHoldIff`.
- Partly overlapping segments: `ReassemblySpec.PartialOverlapStalls`, `TrimmedOverlapOverruns`, `ArrivalIsRightIff`.
- A fast retransmission adds the length of the repeated segment to `maxseq_`, which then passes everything sent:
  `TcpSender.RepeatOvershoots`, `TcpSender.Sender.FastRetransmit`. Data sent again after sending has reached its end always
  does that.
- With simulated overhead the delayed-send timer, not pending while it goes off, only sets itself again and sends nothing:
  `TcpSender.Sender.TimeoutDelsnd`.
- Listening on a used connection: `TcpSender.ListeningAgainBreaksOrder`, `TcpSender.Sender.RecvListen`.
- A packet larger than the bucket: `Tbf.OversizedOverdraws`, `Tbf.TimerFindsPacket`.
- A teardown of a rejected flow: `Reservation.TeardownOversells`, `Reservation.TeardownOfNothing`.
- An empty object installed last: `Classifier.Table.EmptyInstallSpoils`, `Classifier.Table.Install`.

## Model

| member | source | states |
|---|---|---|
| AodvNetwork.LoopFreedom | ns-2.35/aodv/aodv.cc:653-993 | in every state of every run without a careless repair timer, for every destination, following live next hops never visits a node twice |
| AodvNetwork.RunKeepsInv | ns-2.35/aodv/aodv.cc:653-993 | all tables and all messages ever sent together: every live route and every request or reply is backed by a strictly fresher route of its sender, or sent by the destination |
| AodvNetwork.StepKeepsInv | ns-2.35/aodv/aodv.cc:617-650 | any one event at any node keeps that invariant |
| AodvNetwork.WalkIsDistinct | ns-2.35/aodv/aodv.cc:347-430 | under the invariant, a walk along live next hops has no repetition and is no longer than the number of nodes |
| AodvNetwork.FreshnessIsMonotone | ns-2.35/aodv/aodv.cc:402-430 | between any two moments of a run, a node's sequence number and hop count for a destination never get staler |
| AodvSafety.RecvAdvances | ns-2.35/aodv/aodv.cc:617-650 | handling any message keeps freshness and parity, learns routes only from what was heard, and sends only what the new table backs |
| AodvSafety.RecvRequestAdvances | ns-2.35/aodv/aodv.cc:653-820 | the same for a route request: reverse route, reply as destination or from the table, or forwarding |
| AodvSafety.RecvReplyAdvances | ns-2.35/aodv/aodv.cc:823-935 | the same for a route reply: forward route, release of buffered packets, forwarding |
| AodvSafety.RecvErrorAdvances | ns-2.35/aodv/aodv.cc:938-993 | the same for a route error: routes go down with a number no smaller, and the errors passed on carry dead numbers |
| AodvSafety.HandleLinkFailureAdvances | ns-2.35/aodv/aodv.cc:347-383 | the same for a lost neighbour: every route through it goes down with the next, odd number |
| AodvSafety.RtPurgeAdvances | ns-2.35/aodv/aodv.cc:503-550 | the same for a whole pass of rt_purge: expiry, release of buffers, new requests |
| AodvSafety.RepairTimeoutAdvances | ns-2.35/aodv/aodv.cc:186-212 | the repair timer keeps freshness when the route is not under repair |
| AodvSafety.RepairTimeoutLosesFreshness | ns-2.35/aodv/aodv.cc:186-212 | it keeps freshness if and only if the route is not under repair |
| AodvRepair.RepairTimerClosesLoop | ns-2.35/aodv/aodv.cc:186-212 | a concrete run of four nodes in which one repair timer, started by a packet that came over two hops, leads to two nodes routing to each other |
| AodvRepair.RoutesBecomeKnown | ns-2.35/aodv/aodv.cc:653-820 | the first three steps of that run, from nodes that know nothing |
| AodvAsserts.AssertsNeverFail | ns-2.35/aodv/aodv.cc:357-531 | in every run without local repair none of the route-state assertions fails, in any handler |
| AodvAsserts.StateDiscipline | ns-2.35/aodv/aodv.cc:402-430 | up if and only if the hop count is finite, up only with an even positive number, down only with an odd number or none |
| AodvAsserts.AssertsHoldIff | ns-2.35/aodv/aodv.cc:347-993 | for any event at any well-formed node the assertions of its handler hold if and only if the handler does not meet a route under repair: one back to the asker of a reply it passes on, one an error reports, or one through a lost neighbour |
| AodvAsserts.AssertsInRuns | ns-2.35/aodv/aodv.cc:347-993 | so in every state of every run, local repair included, whose repair timer is careful |
| AodvAsserts.FailureAssertsIff | ns-2.35/aodv/aodv.cc:354-369 | the assertions of handle_link_failure hold if and only if no route under repair uses the lost neighbour |
| AodvAsserts.RepairTripsAssertion | ns-2.35/aodv/aodv.cc:354-369 | a reachable state in which they fail: a second packet, one hop old, is lost on the same link while the route is under repair |
| AodvSetup.FirstPacketFindsRoute | ns-2.35/aodv/aodv.cc:437-935 | from a network where nobody knows anything, for every path of up to NETWORK_DIAMETER hops, the first packet and one delivery per hop and direction lead to live routes along the path both ways, with its length as hop count, and the packet leaves along it |
| AodvSetup.RouteIsFound | ns-2.35/aodv/aodv.cc:653-935 | the same from any state in which a request has left its source, no node of the path has heard it, and the path ends at the first node that can answer |
| AodvSetup.RelayPasses | ns-2.35/aodv/aodv.cc:653-820 | a node that cannot answer installs the reverse route and sends the request on, one hop longer and with the largest number known |
| AodvSetup.TargetAnswers | ns-2.35/aodv/aodv.cc:748-807 | a node that can answer does, back to where the request came from, with its distance plus one and a number no smaller than asked |
| AodvSetup.RelayReturns | ns-2.35/aodv/aodv.cc:823-935 | a node on the way back installs the forward route and passes the reply on along the reverse route, one hop longer |
| AodvSetup.SourceSends | ns-2.35/aodv/aodv.cc:853-900 | the source installs the route and sends every live packet that waited |
| AodvSetup.FreshNodeAsks | ns-2.35/aodv/aodv.cc:1109-1127 | the first request for a destination goes to the whole network: a new entry's last hop count is the sentinel, so the ring search does not start small |
| AodvDelivery.FirstPacketArrives | ns-2.35/aodv/aodv.cc:437-1060 | from a network where nobody knows anything, the first packet from one end of any path of up to NETWORK_DIAMETER hops gets to the other, in one step per hop for the request, for the reply and for itself, with its TTL less by the hops taken |
| AodvDelivery.WaitingPacketArrives | ns-2.35/aodv/aodv.cc:556-1060 | so does whatever waited at the source, from any state in which a request has left it and the path ends at the first node that can answer |
| AodvDelivery.PacketArrives | ns-2.35/aodv/aodv.cc:556-615 | on a connected path one delivery per node in between takes a packet from any node of it to the end, and the path stays connected |
| AodvDelivery.RelayForwards | ns-2.35/aodv/aodv.cc:556-615 | a packet on its way, with hops left, goes to the next hop of a live route and nowhere else, its TTL one less; the route lives on and nothing else changes |
| AodvDelivery.StrandedIsReported | ns-2.35/aodv/aodv.cc:475-499 | without a route it is answered by an error under the last number known for its destination |
| AodvDelivery.RepairHolds | ns-2.35/aodv/aodv.cc:468-473 | while its route is under repair it is held |
| AodvDelivery.SpentIsDropped | ns-2.35/aodv/aodv.cc:589-608 | with its TTL used up, or back at its source, it is dropped and nothing changes |
| AodvDelivery.OwnPacketLeaves | ns-2.35/aodv/aodv.cc:437-467 | a node's own packet leaves through a live route, and otherwise waits, with a new request out unless one is due later or the search has been given up |
| AodvDelivery.BreakIsKnownUpstream | ns-2.35/aodv/aodv.cc:294-383 | on a connected path, whichever link breaks under a packet not worth a repair: the failure and one delivery of each error leave no node from the source to the break with a live route to the destination |
| AodvDelivery.LostNeighbourIsReported | ns-2.35/aodv/aodv.cc:347-383 | every route through a lost neighbour is severed under the next number, every other keeps all but its lost user, and one error goes out if and only if some route is severed, listing exactly those with their numbers |
| AodvDelivery.ErrorIsPassedOn | ns-2.35/aodv/aodv.cc:938-993 | an error severs exactly the routes through its sender that it names under a number no older, and is passed on for exactly those that had users, under the numbers received |
| AodvDelivery.LostPacketIsRepairedOrReported | ns-2.35/aodv/aodv.cc:294-345 | a packet lost on a link makes the node repair its route, and wait, if and only if it has come further than it had to go; otherwise the neighbour is lost |
| AodvLifetimes.PurgeLeavesNoneExpired | ns-2.35/aodv/aodv.cc:503-550 | after one purge pass no route that has expired is up |
| AodvLifetimes.ExpiredGoesDown | ns-2.35/aodv/aodv.cc:512-526 | an expired route goes down under the next number and nothing is held for it |
| AodvLifetimes.LiveIsUsed | ns-2.35/aodv/aodv.cc:527-537 | a live one stays, and every live packet held for it leaves along it |
| AodvLifetimes.WantedIsAskedFor | ns-2.35/aodv/aodv.cc:538-548 | where packets wait for a route that is not up, a due request goes out |
| AodvLifetimes.RequestIsAwaited | ns-2.35/aodv/aodv.cc:1078-1183 | a due request goes out under a new id and number, past the reach of the last and the length of the last route, or everywhere; it is repeated, or the search given up, no sooner than the round trips over its reach or the cap, and not later |
| AodvLifetimes.GivingUpSparesOthers | ns-2.35/aodv/aodv.cc:1093-1102 | giving up drops what waits for that destination and nothing else, and starts the count again after the cap |
| AodvLifetimes.LostLengthCounts | ns-2.35/aodv/aodv.cc:414-428 | the length of a lost or expired route is where the next search for it starts |
| AodvLifetimes.AnswerNotesUsers | ns-2.35/aodv/aodv.cc:770-807 | a node that answers from its table notes, for either route, the next hop of the other as a user, and changes nothing else in it |
| AodvLifetimes.PassingNotesUsers | ns-2.35/aodv/aodv.cc:913-925 | a node that passes a reply on notes the next hop back as a user of the route told of, and the route back lives on |
| AodvLifetimes.NewsEndsSearch | ns-2.35/aodv/aodv.cc:697-736 | a better route back ends a search that was on |
| AodvLifetimes.AnswersUnderNewNumber | ns-2.35/aodv/aodv.cc:748-768 | a destination answers under a number that it has not used before, and keeps it |
| AodvLifetimes.ReplyReleases | ns-2.35/aodv/aodv.cc:853-900 | whatever node a better reply comes to, it sends exactly the live packets held for that destination, to the reply's sender |
| AodvLifetimes.RequestReleases | ns-2.35/aodv/aodv.cc:697-736 | so does a better route back learned from a request |
| AodvLifetimes.ReverseRouteLives | ns-2.35/aodv/aodv.cc:683-736 | a reverse route lives for REV_ROUTE_LIFE at least, new or not |
| AodvLifetimes.ForwardRouteLives | ns-2.35/aodv/aodv.cc:853-900 | a forward route lives as long as the reply says or as one in use does, and its search is over |
| AodvLifetimes.StaleReplyIsIgnored | ns-2.35/aodv/aodv.cc:853-935 | a reply that is no news changes no route and goes no further |
| AodvLifetimes.ReplyStatesLifetime | ns-2.35/aodv/aodv.cc:748-807 | a reply states the destination's constant, or what is left of the route told of, in whole seconds |
| AodvLifetimes.ReplySeqnoIsNext | ns-2.35/aodv/aodv.cc:756-759 | a destination answers under the least even number past its own and past the one asked for |
| AodvLifetimes.CopiesAreDropped | ns-2.35/aodv/aodv.cc:242-258 | the copies of a request are dropped, until its id is forgotten, which no purge does before BCAST_ID_SAVE has passed |
| AodvSearch.MediumSeesSeven | ns-2.35/aodv/aodv.cc:1062-1183 | in every run, while a node has no live route to a destination and does not give up, at most seven of its requests for it enter the medium, whatever else reaches the node meanwhile |
| AodvSearch.SevenRequestsInRun | ns-2.35/aodv/aodv.cc:1078-1145 | the same of the requests sent, each counted; and of eight attempts that are due, one gives up |
| AodvSearch.RequestsPerGiveUp | ns-2.35/aodv/aodv.cc:1078-1145 | over any stretch of a run without a live route: at most seven requests for each time the node gives up and seven more, and every attempt that is due either asks or gives up |
| AodvSearch.EventAccounts | ns-2.35/aodv/aodv.cc:617-650 | what no handler does: unless the route comes up, whatever is received, lost, purged or timed out leaves retry count, last TTL and request timeout alone except through sendRequest, and no other request of the node for that destination goes out |
| AodvSearch.RunIsUnanswered | ns-2.35/aodv/aodv.cc:1062-1183 | while the route stays plainly down, the attempts of a run form a search whose state nothing touches in between, so that the exact counts below are those of runs |
| AodvDiscovery.DiscoveryIsBounded | ns-2.35/aodv/aodv.cc:1078-1145 | with no answer, at most seven requests for a destination leave before the node gives up; between attempts only the flags, the three request fields and the last hop count need stay |
| AodvDiscovery.RequestsAreCounted | ns-2.35/aodv/aodv.cc:1078-1145 | in such a search the requests sent and those still allowed always add up to the allowance at its start |
| AodvDiscovery.AttemptCosts | ns-2.35/aodv/aodv.cc:1078-1130 | a request uses up exactly one of the allowance; giving up happens only at none left; a due attempt asks if and only if some are left |
| AodvDiscovery.GivesUpInTime | ns-2.35/aodv/aodv.cc:1093-1102 | after the allowance the next due attempt of such a search sends nothing, drops every packet held for the destination and starts the count again |
| AodvDiscovery.RequestsAreModest | ns-2.35/aodv/aodv.cc:1109-1145 | the TTL never exceeds the network diameter, and the timeout is never beyond now plus its cap |
| RingSearch.DeadlineIsCapped | ns-2.35/aodv/aodv.cc:1137-1144 | a request is repeated no earlier than now and no later than the cap, which is met if and only if the round trips take that long; a wider ring or a further network-wide try never shortens the wait |
| RingSearch.DeadlineIsRoundTrips | ns-2.35/aodv/aodv.cc:1132-1144 | below the cap it is repeated after exactly the round trips |
| RingSearch.RingsWiden | ns-2.35/aodv/aodv.cc:1112-1127 | a search that begins with neither a TTL nor a hop count known looks within 5 hops, then within 7, then everywhere |
| AodvAgent.Agent.RecvRequest | ns-2.35/aodv/aodv.cc:653-820 | the handler over mutable fields changes the state and sends the messages that the specification says |
| AodvAgent.Agent.InstallReverseRoute | ns-2.35/aodv/aodv.cc:683-736 | its reverse-route half |
| AodvSafety.AnswerAdvances | ns-2.35/aodv/aodv.cc:739-820 | the answering half keeps freshness and parity, and what it sends, as destination, from the table or onwards, is backed by the table after it |
| AodvAgent.Agent.RecvReply | ns-2.35/aodv/aodv.cc:823-935 | the reply handler equals its specification |
| AodvAgent.Agent.RecvError | ns-2.35/aodv/aodv.cc:938-993 | the loop over the destinations of an error equals the change of every table entry at once; what that sends is said by AodvDelivery.ErrorIsPassedOn |
| AodvAgent.Agent.HandleLinkFailure | ns-2.35/aodv/aodv.cc:347-383 | the loop over the table equals the change of every entry at once; what that sends is said by AodvDelivery.LostNeighbourIsReported |
| AodvAgent.Agent.RtPurge | ns-2.35/aodv/aodv.cc:503-550 | the purge loop equals its specification in list order |
| AodvAgent.Agent.SendRequest | ns-2.35/aodv/aodv.cc:1062-1183 | equals its specification: silent, giving up, or asking |
| AodvAgent.Agent.ForwardBuffered | ns-2.35/aodv/aodv.cc:723-734 | draining the buffer through deque sends exactly the live packets of the destination, oldest first |
| AodvSafety.LinkLayerFailedAdvances | ns-2.35/aodv/aodv.cc:294-345 | a failed transmission keeps them too, whether it starts a local repair or fails the link |
| AodvSafety.RecvDataAdvances | ns-2.35/aodv/aodv.cc:556-615 | a data packet keeps freshness and parity, and causes only messages that the table backs |
| AodvAgent.Agent.IdPurge | ns-2.35/aodv/aodv.cc:242-258 | removal of expired broadcast ids, in order |
| RouteList.RouteTable.LookupOrAdd | ns-2.35/aodv/aodv_rtable.cc:176-212 | rt_lookup and rt_add on the list are one map update |
| AomdvNetwork.LoopFreedom | ns-2.35/aomdv/aomdv.cc:784-1270 | in every run, for every destination, whichever stored paths are chosen along the way, a walk never visits a node twice |
| AomdvNetwork.RunKeepsInv | ns-2.35/aomdv/aomdv.cc:784-1324 | every stored path repeats an advertisement of its next hop under the entry's number; every advertisement ever made is still backed; a node advertises one hop count per destination and number |
| AomdvNetwork.StepKeepsInv | ns-2.35/aomdv/aomdv.cc:746-780 | any one event keeps that invariant |
| AomdvNetwork.NextHopIsFresher | ns-2.35/aomdv/aomdv.cc:833-907 | a stored path through a node other than the destination leads to an entry with a later number, or the same number and fewer advertised hops |
| AomdvNetwork.PathSets | ns-2.35/aomdv/aomdv_rtable.cc:180-320 | in every reachable entry no two paths share a next hop or a last hop, their number is limited, the entry is up if and only if it has a path, no path is longer than advertised, and deleting by next hop removes every path through it |
| AomdvNetwork.StateDiscipline | ns-2.35/aomdv/aomdv.cc:473-566 | in every run an entry is up if and only if its number is even and positive, down if and only if it is odd or none |
| AomdvNetwork.AdvertisedIsFixed | ns-2.35/aomdv/aomdv.cc:967-978 | between any two moments of a run a node's number never goes back, and the hop count it advertises under one number, once fixed, never changes |
| AomdvNetwork.AssertsNeverFail | ns-2.35/aomdv/aomdv.cc:851-1301 | in every run, whatever the event, no assertion fails: on stored path lengths and live entries, on even numbers before a reply, in an error and in handle_link_failure, on the node's own even number, and on the live route along which a reply is passed on |
| AomdvSetup.FirstPacketFindsRoute | ns-2.35/aomdv/aomdv.cc:568-1269 | from a network where nobody knows anything, for every path of up to NETWORK_DIAMETER hops, the first packet and one delivery per hop and direction leave a single live path from every node of it to both its ends, with the right next hop, length and last hop, and the packet leaves along it |
| AomdvSetup.RelayPasses | ns-2.35/aomdv/aomdv.cc:784-1054 | a node that knows nothing installs the reverse path, signs a request straight from its source as first hop, and passes it on one hop longer |
| AomdvSetup.TargetAnswers | ns-2.35/aomdv/aomdv.cc:784-957 | the destination installs the reverse path and replies to the node it heard the request from |
| AomdvSetup.RelayReturns | ns-2.35/aomdv/aomdv.cc:1058-1269 | a node on the way back installs the forward path, keeps the reverse one, and passes the reply along it one hop longer |
| AomdvSetup.SourceSends | ns-2.35/aomdv/aomdv.cc:1058-1180 | the source installs the path and sends every live packet that waited |
| AomdvTwoPaths.FirstPacketFindsBoth | ns-2.35/aomdv/aomdv.cc:568-1269 | from a network where nobody knows anything, along any two disjoint paths with the same ends: one discovery can leave both stored at each end, in the order found, with live paths from every inner node, if the ends keep two paths and the second is within the length difference |
| AomdvMultipath.RequestAddsPath | ns-2.35/aomdv/aomdv.cc:849-888 | a request under the entry's number and below its advertised hop count adds exactly the path it tells of, behind all old ones, if that shares no next or last hop, is within the length difference of each, and there is room; otherwise all stay as they are |
| AomdvMultipath.ReplyAddsPath | ns-2.35/aomdv/aomdv.cc:1109-1137 | the same of a reply |
| AomdvMultipath.HeardAgainLivesLonger | ns-2.35/aomdv/aomdv.cc:858-864 | a path heard of again lives on, and no other path changes |
| AomdvMultipath.TargetKeepsRoute | ns-2.35/aomdv/aomdv.cc:865-953 | a destination that gains a path keeps its route's standing and answers that copy too |
| AomdvMultipath.AddedPathReaches | ns-2.35/aomdv/aomdv.cc:871-882 | after a path is added, the length from which a later search starts is that of the longest stored |
| AomdvTwoPaths.TargetTakesBoth | ns-2.35/aomdv/aomdv.cc:849-953 | a destination with one path, not yet vouched for, then has two, in order |
| AomdvTwoPaths.SourceTakesBoth | ns-2.35/aomdv/aomdv.cc:1109-1180 | and so has the source |
| AomdvDelivery.FirstPacketArrives | ns-2.35/aomdv/aomdv.cc:568-1410 | from a network where nobody knows anything, the first packet gets from one end of any path to the other in one step per hop for the request, for the reply and for itself |
| AomdvDelivery.PacketArrives | ns-2.35/aomdv/aomdv.cc:688-742 | over inner nodes with live paths, one delivery each takes a packet from any of them to the end |
| AomdvDelivery.RelayForwards | ns-2.35/aomdv/aomdv.cc:1346-1409 | a packet on its way, with hops left, goes to the first path's next hop and nowhere else, its TTL one less; only that path's life and the note that its loss is worth an error change |
| AomdvDelivery.StrandedIsReported | ns-2.35/aomdv/aomdv.cc:606-630 | without a route it is answered by an error under the last number known for its destination |
| AomdvDelivery.SpentIsDropped | ns-2.35/aomdv/aomdv.cc:717-736 | with its TTL used up, or back at its source, it is dropped and nothing changes |
| AomdvDelivery.OwnPacketLeaves | ns-2.35/aomdv/aomdv.cc:568-598 | a node's own packet leaves along the first path of a live route, and otherwise waits, with a new request out unless one is due later or the search has been given up |
| AomdvFailover.PacketArrivesAnyway | ns-2.35/aomdv/aomdv.cc:1728-1795 | with two disjoint paths stored, when the neighbour on the first falls silent, a packet that waited for it gets to the destination over the second, in one step per hop |
| AomdvFailover.SecondPathTakesOver | ns-2.35/aomdv/aomdv.cc:1728-1775 | at the node itself: the route stays up on the second path, no error names it, and every packet stuck for the first goes along the second |
| AomdvFailover.BreakIsKnownUpstream | ns-2.35/aomdv/aomdv.cc:1273-1343 | on a path a discovery has connected, whichever node's next hop falls silent: its purge of neighbours and one delivery of each error leave no node from the source to the break with a route to the destination |
| AomdvDelivery.LostNeighbourIsReported | ns-2.35/aomdv/aomdv.cc:473-519 | every route loses exactly its path through a lost neighbour; where that was the last it is severed, past its own number and none older than heard; one error goes out if and only if some such loss is worth it, listing exactly those with their numbers |
| AomdvDelivery.ErrorIsPassedOn | ns-2.35/aomdv/aomdv.cc:1273-1343 | exactly the routes through its sender that an error names under a number no older lose that path; where it was the last the route is severed, and the error is passed on for exactly those whose loss is worth it |
| AomdvDelivery.SalvageIs | ns-2.35/aomdv/aomdv.cc:1745-1762 | of the stuck packets exactly those that another path is left for, with hops left and not salvaged too often, are sent, along the first such path |
| AomdvLifetimes.NewRequestIsRelayed | ns-2.35/aomdv/aomdv.cc:1027-1053 | a request with news of its source, not seen before, is passed on by a node that cannot answer, one hop longer and asking for the largest number known |
| AomdvLifetimes.NewRequestIsAnswered | ns-2.35/aomdv/aomdv.cc:954-983 | a node that knows a route answers instead, with the hop count it vouches for, the route's number, and the life and last hop of its first path, and notes that it has answered |
| AomdvLifetimes.CopyIsNotRelayed | ns-2.35/aomdv/aomdv.cc:954-1053 | a copy is never passed on, and answered from the table once at most |
| AomdvLifetimes.SpareCopyIsNotAnswered | ns-2.35/aomdv/aomdv.cc:858-983 | a copy that brings no further path and was not heard over a stored one gets no answer from the table |
| AomdvLifetimes.TargetAnswersIff | ns-2.35/aomdv/aomdv.cc:849-953 | the destination answers a further copy if and only if it came over a stored path, over a disjoint one within the length difference, or over one that shares its last hop with a stored path and is no longer |
| AomdvLifetimes.AnswersUnderOwnNumber | ns-2.35/aomdv/aomdv.cc:931-953 | it answers under its own number, kept unless the one asked for is greater, and even |
| AomdvLifetimes.StaleRequestIsIgnored | ns-2.35/aomdv/aomdv.cc:833-907 | a request that is no news changes no route and goes no further |
| AomdvLifetimes.NewReplyIsPassedOn | ns-2.35/aomdv/aomdv.cc:1096-1214 | a reply with news becomes the only path and ends the search, goes on along the first path back one hop longer, which lives on, and lets everything go that waited |
| AomdvLifetimes.RepliedIsNotPassedOn | ns-2.35/aomdv/aomdv.cc:1182-1194 | one reply to a request is passed on, however many come |
| AomdvLifetimes.ExpiredGoesDown | ns-2.35/aomdv/aomdv.cc:645-657 | a route that has expired with all its paths goes down under the least odd number past its own and none older than heard, and nothing is held for it |
| AomdvLifetimes.ExpiredPathsGo | ns-2.35/aomdv/aomdv.cc:645-657 | if some paths have not expired, exactly those stay |
| AomdvLifetimes.LiveIsUsed | ns-2.35/aomdv/aomdv.cc:658-668 | a live route stays, and exactly the live packets held for it leave along its first path |
| AomdvLifetimes.WantedIsAskedFor | ns-2.35/aomdv/aomdv.cc:669-678 | where packets wait for a route that is down, a due request goes out |
| AomdvLifetimes.RequestIsAwaited | ns-2.35/aomdv/aomdv.cc:1413-1533 | a due request goes out under a new id and number, past the reach of the last and the longest path last stored, or everywhere; it is repeated, or the search given up, no sooner than the round trips over its reach or the cap, and not later |
| AomdvLifetimes.GivingUpSparesOthers | ns-2.35/aomdv/aomdv.cc:1442-1451 | giving up drops what waits for that destination and nothing else, and starts the count again after the cap |
| AomdvLifetimes.HeardIsKept | ns-2.35/aomdv/aomdv.cc:1667-1709 | a neighbour heard from is listed once, with the deadline due to a new or a known one, and no other changes |
| AomdvLifetimes.ExpiredAre | ns-2.35/aomdv/aomdv.cc:1783-1795 | a purge loses exactly the neighbours whose deadline has passed |
| AomdvLifetimes.LostIsDelisted | ns-2.35/aomdv/aomdv.cc:1728-1741 | a lost neighbour, and no other, is taken off the list |
| AomdvLifetimes.HelloMakesNeighbour | ns-2.35/aomdv/aomdv.cc:1667-1690 | a hello makes its sender a neighbour, and with news a destination one hop away |
| AomdvLifetimes.ForgottenAre | ns-2.35/aomdv/aomdv.cc:333-349 | a purge forgets exactly the requests whose time has passed |
| AomdvSearch.MediumSeesSeven | ns-2.35/aomdv/aomdv.cc:1413-1533 | in every run, while a node has no live route to a destination, at most seven of its requests for it enter the medium for each time the node gives up, and seven more; without giving up at most seven |
| AomdvSearch.EventSpends | ns-2.35/aomdv/aomdv.cc:688-742 | whatever the event, unless the route comes up: the requests sent and those still allowed are within what was allowed and what giving up restored |
| AomdvSearch.CallCosts | ns-2.35/aomdv/aomdv.cc:1413-1533 | a call of sendRequest that is due either asks, once and with an allowance used up, or gives up, drops everything held and starts the count again; no other call changes anything |
| AomdvSafety.RecvAdvances | ns-2.35/aomdv/aomdv.cc:746-780 | what every handler keeps: entries evolve forwards, paths are learned only from what was heard, messages repeat what the table says |
| AomdvSafety.RecvRequestAdvances | ns-2.35/aomdv/aomdv.cc:784-1055 | the same for a request |
| AomdvSafety.RecvReplyAdvances | ns-2.35/aomdv/aomdv.cc:1058-1270 | the same for a reply |
| AomdvSafety.RecvErrorAdvances | ns-2.35/aomdv/aomdv.cc:1273-1343 | the same for an error |
| AomdvSafety.HandleLinkFailureAdvances | ns-2.35/aomdv/aomdv.cc:473-519 | the same for a lost neighbour |
| AomdvSafety.RtPurgeAdvances | ns-2.35/aomdv/aomdv.cc:635-685 | the same for a purge pass |
| AomdvPaths.WithoutRemovesAll | ns-2.35/aomdv/aomdv_rtable.cc:261-274 | on disjoint paths, stopping at the first match removes every path through a neighbour and no other |
| AomdvPaths.LivePathsAre | ns-2.35/aomdv/aomdv_rtable.cc:388-406 | purging keeps exactly the live paths, and keeps them disjoint |
| AomdvPaths.LongestBounds | ns-2.35/aomdv/aomdv_rtable.cc:346-359 | the longest hop count bounds every path and belongs to one |
| AomdvPaths.PathList.Insert | ns-2.35/aomdv/aomdv_rtable.cc:180-204 | the path is added at the end, the count follows, and a disjoint one leaves the list disjoint |
| AomdvPaths.PathList.NewDisjointPath | ns-2.35/aomdv/aomdv_rtable.cc:232-244 | true if and only if no stored path shares the next hop or the last hop |
| AomdvPaths.PathList.Delete | ns-2.35/aomdv/aomdv_rtable.cc:261-274 | the list less its first match; on disjoint paths exactly the paths through the neighbour are gone |
| AomdvPaths.PathList.Purge | ns-2.35/aomdv/aomdv_rtable.cc:388-406 | the restarting loop removes exactly the expired paths, in order |
| AomdvPaths.PathList.GetMaxHopcount | ns-2.35/aomdv/aomdv_rtable.cc:346-359 | the loop finds the longest |
| AomdvPaths.PathList.GetMinHopcount | ns-2.35/aomdv/aomdv_rtable.cc:361-373 | the loop finds the shortest |
| AomdvPaths.PathList.Empty | ns-2.35/aomdv/aomdv_rtable.cc:308-320 | its two assertions on the count hold |
| AomdvAgent.Agent.RecvRequest | ns-2.35/aomdv/aomdv.cc:784-1055 | the handler over mutable fields equals its specification; which paths that stores is said by AomdvMultipath.RequestAddsPath |
| AomdvSafety.ReverseRouteSteps | ns-2.35/aomdv/aomdv.cc:833-907 | the update of the reverse paths keeps the entry well-formed and moves it forwards, stores no path but the one the request told of, and goes on only with a live entry under the request's number |
| AomdvSafety.AnswerAdvances | ns-2.35/aomdv/aomdv.cc:909-1055 | the answering half keeps all that, and the reply or request it sends repeats the hop count that the table advertises |
| AomdvAgent.Agent.RecvReply | ns-2.35/aomdv/aomdv.cc:1058-1270 | the reply handler equals its specification |
| AomdvAgent.Agent.RecvError | ns-2.35/aomdv/aomdv.cc:1273-1343 | the error handler equals its specification |
| AomdvAgent.Agent.HandleLinkFailure | ns-2.35/aomdv/aomdv.cc:473-519 | the loss of a neighbour equals its specification |
| AomdvAgent.Agent.RtPurge | ns-2.35/aomdv/aomdv.cc:635-685 | the purge loop equals its specification |
| AomdvAgent.Agent.NbPurge | ns-2.35/aomdv/aomdv.cc:1783-1797 | expired neighbours are lost one after the other, each with the packets the interface queue holds for it sent on along another live path or dropped |
| AomdvAgent.Agent.SalvageStuck | ns-2.35/aomdv/aomdv.cc:1743-1763 | the loop that does so equals its specification, packet after packet |
| AomdvSafety.NeighboursLostAdvances | ns-2.35/aomdv/aomdv.cc:1727-1797 | a whole purge of neighbours, salvaged packets included, keeps what every handler keeps |
| RouteBuffer.NothingIsLost | ns-2.35/aodv/aodv_rqueue.cc:50-138 | with a clock that does not run back, each packet that entered is exactly one of held, handed out, dropped for overflow, or aged out; the buffer holds at most 64, deadlines in order |
| RouteBuffer.DeliveryIsFifo | ns-2.35/aodv/aodv_rqueue.cc:106-138 | packets for one destination are handed out in the order of entry, whatever overflows or ages out in between |
| RouteBuffer.RescanningFindsNoMore | ns-2.35/aodv/aodv_rqueue.cc:205-260 | on a sorted queue the rescanning purge equals the head-only one |
| RouteBuffer.HeadPurgeSuffices | ns-2.35/aodv/aodv_rqueue.cc:205-260 | so it does in every state of every run |
| RouteBuffer.Queue.Enque | ns-2.35/aodv/aodv_rqueue.cc:50-83 | purge, drop of the oldest when full, append, on the linked list |
| RouteBuffer.Queue.DequeFor | ns-2.35/aodv/aodv_rqueue.cc:106-138 | takes out exactly the oldest live packet of the destination |
| RouteBuffer.Queue.DrainFor | ns-2.35/aodv/aodv.cc:723-734 | repeated until nothing is left, it hands out every live packet of the destination, oldest first, and leaves the others as they were |
| RouteBuffer.Queue.Purge | ns-2.35/aodv/aodv_rqueue.cc:232-243 | the rescanning loop leaves exactly the packets that have not aged, in order |
| RouteBuffer.Queue.FindAgedPacket | ns-2.35/aodv/aodv_rqueue.cc:219-230 | finds the first aged packet and the one before it, or that there is none |
| RouteBuffer.Queue.RemoveHead | ns-2.35/aodv/aodv_rqueue.cc:159-173 | takes the first packet off the list |
| RouteBuffer.Queue.VerifyQueue | ns-2.35/aodv/aodv_rqueue.cc:190-204 | counting along the links gives the length kept and ends at the tail, as it asserts |
| BufferSpec.DequeueOutcome | ns-2.35/aodv/aodv_rqueue.cc:106-138 | one deque takes the first packet held for the destination and leaves the others as they were |
| BufferSpec.HeldUntilTimeout | ns-2.35/aodv/aodv_rqueue.cc:50-83 | a packet that has entered is held for its destination for exactly BUFFER_TIMEOUT |
| BufferSpec.EnteringKeeps | ns-2.35/aodv/aodv_rqueue.cc:50-83 | what is live stays when another enters, but for the oldest when the queue was full |
| MaxMin.BottleneckedIsFair | ns-2.35/asim/asim.cc:905-958 | an allocation in which every flow has a full link on which nobody does better is weighted max-min fair |
| MaxMin.FairIsUnique | ns-2.35/asim/asim.cc:845-958 | there is only one such allocation |
| Asim.Allocator.NewUpdate | ns-2.35/asim/asim.cc:845-958 | with positive rates and room, the rates of all flows on each link a bulk flow uses, short ones included and once per crossing, sum to at most 105 per cent of the link's rate, and each bulk flow crosses a link where the sum is exactly that and nobody's ratio of rate to weight is larger; that is the fair allocation, congestion falls from round to round, and without that room some link in use is overfull; the books always balance |
| Asim.BottleneckIsFilled | ns-2.35/asim/asim.cc:849-958 | a link that is full once short flows are taken off carries all flows together up to exactly 105 per cent of its rate, and ratios of rates to weights are compared there as shares are |
| Asim.SettledIsFilled | ns-2.35/asim/asim.cc:849-958 | so the fair allocation fills the links so far and no further |
| Asim.Allocator.Converge | ns-2.35/asim/asim.cc:905-956 | the main loop terminates, as every round scales a flow that was not scaled |
| Asim.Allocator.Fill | ns-2.35/asim/asim.cc:909-932 | one round, in which setting the bottleneck's remaining capacity to zero changes nothing |
| Asim.Allocator.ScaleFlow | ns-2.35/asim/asim.cc:915-927 | one flow moves from unscaled load to used capacity on every link of its route, once per crossing |
| Asim.Allocator.SelectBottleneck | ns-2.35/asim/asim.cc:879-889 | finds the largest congestion among links with something left, or that none has load |
| Asim.Allocator.Start | ns-2.35/asim/asim.cc:849-869 | on every link, what is left and the load of short flows make 105 per cent of its rate, and the unscaled load is that of its bulk flows |
| Asim.BottleneckEmpties | ns-2.35/asim/asim.cc:932-932 | after a round the bottleneck has neither load nor capacity left |
| Asim.BottleneckHasWork | ns-2.35/asim/asim.cc:905-920 | a bottleneck always has a flow that is not scaled |
| Asim.CongestionFalls | ns-2.35/asim/asim.cc:934-944 | the next bottleneck is no more congested than the last |
| Asim.RoundKeepsHeadroom | ns-2.35/asim/asim.cc:909-931 | no link in use is overbooked, and a full one has no unscaled flows |
| Asim.RoundKeepsHeld | ns-2.35/asim/asim.cc:909-931 | each scaled flow keeps a full link on which its factor is the largest share |
| Asim.FinalIsFair | ns-2.35/asim/asim.cc:845-958 | the state at the end is the fair allocation |
| Asim.NoRoomNoFit | ns-2.35/asim/asim.cc:849-869 | if short flows leave no room on a link in use, positive rates overbook it |
| Asim.IndexIsInverse | ns-2.35/asim/asim.cc:490-525 | the list of a link has a flow if and only if the flow's route has the link |
| Asim.BuildIndex | ns-2.35/asim/asim.cc:505-521 | the nested loops build that list |
| Tbf.GreedyShaper | ns-2.35/adc/tbf.cc:74-149 | what was sent is a schedule of the accepted packets, and no schedule that respects order, arrivals and the contract sends any of them earlier |
| Tbf.OutputConforms | ns-2.35/adc/tbf.cc:97-148 | with packets no larger than the bucket, every closed window carries at most the bucket and rate times length, and the tokens stay between zero and the bucket |
| Tbf.TimerFindsPacket | ns-2.35/adc/tbf.cc:126-149 | the timer never finds an empty queue, and finds enough tokens if and only if the packet is no larger than the bucket |
| Tbf.OversizedOverdraws | ns-2.35/adc/tbf.cc:97-148 | any packet larger than the bucket, arriving first, is sent, leaves a debt of the difference and breaks the contract within the moment it leaves |
| Tbf.ServiceIsFifo | ns-2.35/adc/tbf.cc:74-149 | accepted packets are those sent, in order, and then those queued; with the dropped ones they are all that came |
| Tbf.DroppedIffFull | ns-2.35/adc/tbf.cc:86-112 | a packet is dropped if and only if it must wait and the queue is full |
| Tbf.RunIsPrompt | ns-2.35/adc/tbf.cc:74-149 | every packet left as it came, or when a bucket that was full at an earlier such packet had been used up exactly |
| Tbf.Filter.Recv | ns-2.35/adc/tbf.cc:74-112 | the method equals the arrival function |
| Tbf.Filter.OnTimeout | ns-2.35/adc/tbf.cc:126-149 | the method equals the timeout function, without a check of the tokens |
| Tbf.RefreshesCompose | ns-2.35/adc/tbf.cc:115-124 | bringing the tokens up to date in between makes no difference later, and in time they only grow, up to the bucket |
| ReassemblySpec.StreamReassembles | ns-2.35/baytcp/tcp-full-bay.cc:1054-1104 | for segments that are equal or disjoint, in any order and with repetitions, rcv_nxt_ is the first byte that no arrival covers, and the queue holds, sorted, exactly the arrivals beyond it, each as often as it came |
| ReassemblySpec.ArrivalReassembles | ns-2.35/baytcp/tcp-full-bay.cc:801-829 | one arrival keeps that |
| ReassemblySpec.OrderIsIrrelevant | ns-2.35/baytcp/tcp-full-bay.cc:1314-1404 | the outcome depends on which segments came and how often, not on their order |
| ReassemblySpec.RepetitionIsIrrelevant | ns-2.35/baytcp/tcp-full-bay.cc:1314-1404 | rcv_nxt_ depends only on the set of segments |
| ReassemblySpec.CompleteStreamIsDelivered | ns-2.35/baytcp/tcp-full-bay.cc:1054-1104 | once all bytes have come, all are handed on and nothing is queued |
| ReassemblySpec.DirectIsAdd | ns-2.35/baytcp/tcp-full-bay.cc:1057-1103 | the direct path does what add would have done |
| ReassemblySpec.HoleFills | ns-2.35/baytcp/tcp-full-bay.cc:1372-1404 | the segment that fills the hole releases exactly what follows without a gap |
| ReassemblySpec.AddedFlags | ns-2.35/baytcp/tcp-full-bay.cc:1372-1404 | add loses no segment, and returns exactly the flags of those it releases |
| ReassemblySpec.ArrivalIsRightIff | ns-2.35/baytcp/tcp-full-bay.cc:801-829 | for any one further segment, whole or not: rcv_nxt_ is then the first byte missing if and only if the segment is old, nothing is queued, it starts beyond rcv_nxt_, or it starts there and ends before the queue |
| ReassemblySpec.OverlapStallsIff | ns-2.35/baytcp/tcp-full-bay.cc:1343-1378 | a segment that brings the next byte leaves it waiting if and only if, with its length counted from rcv_nxt_, it reaches into the queue |
| ReassemblySpec.OverlapOverrunsIff | ns-2.35/baytcp/tcp-full-bay.cc:827-829 | rcv_nxt_ runs past a byte that never came if and only if the segment is old in part and, its length counted from rcv_nxt_, ends before the queue, since add does not see the trimmed length |
| Reassembly.ReassemblyQueue.Add | ns-2.35/baytcp/tcp-full-bay.cc:1314-1404 | on the doubly linked list, the new queue, rcv_nxt_ and the flags are what the function says, for any segments |
| Reassembly.ReassemblyQueue.Insert | ns-2.35/baytcp/tcp-full-bay.cc:1324-1372 | a segment goes to the place the search finds |
| Reassembly.ReassemblyQueue.LinkAfter | ns-2.35/baytcp/tcp-full-bay.cc:1362-1371 | both directions of the links are right after an insertion |
| Reassembly.ReassemblyQueue.Unlink | ns-2.35/baytcp/tcp-full-bay.cc:1387-1394 | both directions of the links are right after a removal |
| Reassembly.ReassemblyQueue.Release | ns-2.35/baytcp/tcp-full-bay.cc:1381-1402 | the loop removes exactly the segments in sequence at the front and collects their flags |
| Reassembly.ReassemblyQueue.Clear | ns-2.35/baytcp/tcp-full-bay.cc:1297-1307 | the queue is empty and rcv_nxt_ unchanged |
| Reassembly.Receiver.RecvData | ns-2.35/baytcp/tcp-full-bay.cc:801-829 | trimming, and the direct path or the queue |
| TcpSender.Sender.Recv | ns-2.35/baytcp/tcp-full-bay.cc:691-1176 | whatever comes, highest_ack_, t_seqno_ and maxseq_ stay in order, and highest_ack_ only moves to an acknowledged number that was sent, unless the agent starts again from reinit. On an open connection: an acknowledgement of new data, when all data had been sent, is answered by the segment at the old maxseq_ that window and data allow, one of what was never sent by an acknowledgement; data in order is acknowledged now, if enough has come, and otherwise later; data out of order, and a FIN with data, at once |
| TcpSender.Sender.Output | ns-2.35/baytcp/tcp-full-bay.cc:367-485 | one segment at most, and exactly the one due from what is on hand, the window and the segment size, sent if and only if there is one of the reasons to; SYN and FIN each take one number once; the order is kept and nothing sent lies beyond maxseq_; the retransmission timer is then pending if anything is outstanding, and a round trip is timed from the first new number |
| TcpSender.Sender.SendMuch | ns-2.35/baytcp/tcp-full-bay.cc:491-521 | unless held back by overhead or its pending timer, the loop sends the segment due first, each where the last ended, until window or data is used up, the burst limit is reached, or what is left is held back by the conditions of output; it keeps the order and only adds to what was sent |
| TcpSender.Sender.NewAck | ns-2.35/baytcp/tcp-full-bay.cc:543-575 | the order survives if and only if the acknowledgement is of something sent; the timer is then pending exactly while something is outstanding, and the round trip goes on until its number is acknowledged |
| TcpSender.Sender.FastRetransmit | ns-2.35/baytcp/tcp-full-bay.cc:592-601 | t_seqno_ is put back, and maxseq_ passes everything sent if and only if the segment due takes more new numbers than lie between the two and ends short of where it would if sent from t_seqno_; it does so whenever data is sent again after sending has reached its end |
| TcpSender.RepeatOvershoots | ns-2.35/baytcp/tcp-full-bay.cc:592-601 | a connection in which it does |
| TcpSender.Sender.TimeoutRtx | ns-2.35/baytcp/tcp-full-bay.cc:638-657 | sending goes back to highest_ack_, what is due there is sent again, the order is kept, recovery is noted as of the timeout and the timer is set |
| TcpSender.Sender.TimeoutDelsnd | ns-2.35/baytcp/tcp-full-bay.cc:658-663 | the segment due is sent now; with overhead simulated nothing is, and the timer is set again |
| TcpSender.Sender.TimeoutDelack | ns-2.35/baytcp/tcp-full-bay.cc:664-671 | a delayed acknowledgement goes out, of the next byte expected |
| TcpSender.Sender.Advance | ns-2.35/baytcp/tcp-full-bay.cc:249-278 | the data on hand grows by the packets given, and an open connection sends all of it that window and output allow |
| TcpSender.Sender.UserClosed | ns-2.35/baytcp/tcp-full-bay.cc:1224-1240 | which state follows which, and the FIN goes out at once if all data has been sent |
| TcpSender.Sender.Trim | ns-2.35/baytcp/tcp-full-bay.cc:801-847 | what is left of a segment ends where it ended and starts no earlier than the next byte expected, unless all of it is old, which is exactly when it counts as a duplicate |
| TcpSender.Sender.Reinit | ns-2.35/baytcp/tcp-full-bay.cc:185-209 | the invariant holds afterwards if and only if the initial number is not negative |
| TcpSender.Sender.StartListening | ns-2.35/baytcp/tcp-full-bay.cc:1213-1219 | the invariant survives if and only if nothing above the initial number has been acknowledged |
| TcpSender.Sender.RecvAck | ns-2.35/baytcp/tcp-full-bay.cc:854-1043 | an acknowledgement is accepted if and only if it is new and of something sent; it forgets the duplicates and moves a closing connection on exactly if it covers all data on hand; any other is counted, or starts the count again |
| TcpSender.Sender.DuplicateAck | ns-2.35/baytcp/tcp-full-bay.cc:879-938 | which duplicates count, and how; the one at the threshold sends the segment acknowledged, if there is reason to, and goes back, and from then on they are dropped |
| TcpSender.Sender.RecvSynSent | ns-2.35/baytcp/tcp-full-bay.cc:758-787 | a SYN is taken unless it acknowledges what was never sent |
| TcpSender.Sender.RecvListen | ns-2.35/baytcp/tcp-full-bay.cc:730-757 | only a SYN without ACK opens the connection; it puts t_seqno_ to the initial number, which keeps the order if and only if nothing above that has been acknowledged |
| TcpSender.ListeningAgainBreaksOrder | ns-2.35/baytcp/tcp-full-bay.cc:1213-1219 | a connection in which it does not |
| TcpSender.Sender.Connect | ns-2.35/baytcp/tcp-full-bay.cc:1192-1206 | exactly one SYN goes out, at the initial number, without data |
| TcpSender.Sender.AdvanceBytes | ns-2.35/baytcp/tcp-full-bay.cc:283-306 | a closed agent starts over in order; an open one only takes more data |
| Reservation.AllOrNothing | ns-2.35/adc/salink.cc:86-132 | however flows interleave, once a flow's CONFIRM has passed, every link of its route holds its rate, or none does, and no table lists it |
| Reservation.RatesAddUp | ns-2.35/adc/param-adc.cc:78-96 | in every run the reserved rate of a link is the sum of the rates it holds, within its limit, and the count is theirs |
| Reservation.QuietNetwork | ns-2.35/adc/salink.cc:86-132 | with no message on its way, a link has reserved exactly the rates of accepted flows routed over it, and its table is empty |
| Reservation.TableSuffices | ns-2.35/adc/salink.cc:194-205 | with no more flows than slots the program never exits for want of a slot |
| Reservation.StepKeepsInv | ns-2.35/adc/salink.cc:86-132 | any one message at any link keeps all accounts; only a request can end the program |
| Reservation.FlowThatFitsIsAccepted | ns-2.35/adc/salink.cc:74-141 | a flow for which every link of its route has room, and whose message nothing overtakes, is accepted once the message has gone along the route and back as a CONFIRM, and then exactly the links of the route hold its rate |
| Reservation.MessagePassed | ns-2.35/adc/salink.cc:74-141 | a link passes a message on with its kind, flow and rate; a request is left undenied if and only if it was and the rate fits, which is then reserved |
| Reservation.TeardownOfNothing | ns-2.35/adc/sa.cc:136-143 | a teardown at a link that does not hold the flow keeps the account if and only if the rate is zero |
| Reservation.TeardownOversells | ns-2.35/adc/sa.cc:136-143 | a rejected flow that is torn down can then be admitted above the limit |
| SaLink.SALink.Recv | ns-2.35/adc/salink.cc:74-141 | the switch over the pending array and the controller equals the function |
| SaLink.SALink.Lookup | ns-2.35/adc/salink.cc:185-205 | the first slot with a flow, or none; a free one likewise |
| SaLink.ParamAdc.AdmitFlow | ns-2.35/adc/param-adc.cc:89-96 | admitted if and only if the sum stays within utilization times bandwidth |
| Red.RedRouter.ComputeProbability | ns-2.35/asim/asim.h:89-112 | probability and delay are an operating point: the queue's delay under the load that is left equals the RED curve's; zero drop if and only if the load is low, above the maximum if and only if it is high |
| Red.OperatingPointIsUnique | ns-2.35/asim/asim.h:89-112 | no load has two operating points |
| Red.LoadRaisesBoth | ns-2.35/asim/asim.h:89-112 | a heavier load is dropped no less and delayed no less, across all branches |
| Red.ThresholdsMeet | ns-2.35/asim/asim.h:79-112 | the branches agree at both thresholds |
| Red.MiddleOperates | ns-2.35/asim/asim.h:102-112 | the root taken lies in (0, MaxP], and the delay is MinTh + p(MaxTh - MinTh)/MaxP |
| Red.HighOperates | ns-2.35/asim/asim.h:97-101 | above the upper threshold the delay stays at its maximum and the probability is above MaxP and below one |
| Red.LowOperates | ns-2.35/asim/asim.h:92-95 | below the lower threshold nothing is dropped and the delay is at most MinTh |
| Classifier.RoundRobin | ns-2.35/classifier/classifier-mpath.cc:57-65 | as many calls in a row as there are occupied slots return each of them exactly once |
| Classifier.OnlyOccupied | ns-2.35/classifier/classifier-mpath.cc:57-65 | and no empty one |
| Classifier.CallAdvances | ns-2.35/classifier/classifier-mpath.cc:57-65 | a call returns the occupied slot at the current rank and moves to the next rank, the first after the last |
| Classifier.MultiPathForwarder.Classify | ns-2.35/classifier/classifier-mpath.cc:57-65 | the loop ends at the first occupied slot from the current one on, even if the table has shrunk below it |
| Classifier.Table.Install | ns-2.35/classifier/classifier.cc:104-110 | one slot changes, the table grows if it must, and the last occupied slot stays known if and only if the object is not empty or lies below it |
| Classifier.Table.EmptyInstallSpoils | ns-2.35/classifier/classifier.cc:104-110 | a new table in which the first install makes an empty slot pass for the last occupied one |
| Classifier.Table.Clear | ns-2.35/classifier/classifier.cc:113-120 | one slot is emptied and the last occupied one found again |
| Classifier.Table.GetNxt | ns-2.35/classifier/classifier.cc:127-137 | the first slot that is empty or holds the null agent, in a larger table if there is none |
| Classifier.Table.Alloc | ns-2.35/classifier/classifier.cc:79-101 | doubling until the slot fits; the old slots are kept and the new ones empty |
| Classifier.Table.InstallNext | ns-2.35/classifier/classifier.cc:185-189 | the object goes right behind the last occupied slot |

## Left out

- Script bindings, `command` methods, tracing, logging, header plumbing, jitter and random delays: no property of their own.
- Sequence-number wrap-around, rounding of doubles, and hop or forward counts that reach the sentinel 255.
- AODV: hello messages and the neighbour timer, which its configuration (link-layer detection) never starts; the latency history, which is a parameter here; the conversion of a negative remaining lifetime to an unsigned field, taken as zero; errors with more destinations than fit one message, or with a destination twice; broadcast data packets; the filtering of the interface queue.
- AodvNetwork.LoopFreedom: stated of the runs in which no repair timer finds its route under repair; with such a timer it is false (AodvRepair.RepairTimerClosesLoop).
- AodvAsserts.AssertsNeverFail: stated of the runs without local repair; with it the assertions of three handlers fail exactly when they meet a route under repair (AodvAsserts.AssertsInRuns), and one such state is reached by AodvAsserts.RepairTripsAssertion.
- AodvDiscovery.DiscoveryIsBounded: stated of any list of attempts whose search nothing touches in between; AodvSearch.MediumSeesSeven needs no such thing of a run. A route that comes up and breaks again starts the count anew and ends the stretch it speaks of.
- AOMDV: `rt_hops` is never assigned in this version, so the assertions that read it are not modelled; local repair and the salvaging that follows a link-layer failure cannot be reached, as link-layer detection is off; what the interface queue holds for a lost neighbour is an argument of the loop that salvages it; the oldest path of an entry with none has an arbitrary value that is never used; precursor lists, which it does not use.
- AomdvSetup.FirstPacketFindsRoute: stated from a network where nobody knows anything, as AomdvTwoPaths.FirstPacketFindsBoth is; AodvSetup.RouteIsFound has no such start. That any further paths are stored is said step by step (AomdvMultipath.RequestAddsPath), not of runs with three or more.
- AomdvFailover.PacketArrivesAnyway: stated of the neighbour on the first path of the source; AomdvDelivery.LostNeighbourIsReported has no such bound.
- AodvDelivery.BreakIsKnownUpstream: stated of a packet that has not come further than it had to go, since another starts a local repair instead (AodvDelivery.LostPacketIsRepairedOrReported).
- The precursor list of AODV is a set, its order and repetitions being of no effect.
- `aomdv_rqueue.cc` is the same queue as `aodv_rqueue.cc` and shares its model.
- `asimstd.cc`, the standalone twin of newupdate, and `Update`, `Update2`, `Update3` and the throughput formulas of the analytic simulator; the recomputation of arrival rates that newupdate calls last.
- Asim.Allocator.NewUpdate: the fair allocation is claimed for positive rates, routed bulk flows and room on every link in use; the reverse index includes each flow as often as it crosses the link, as the original does.
- Red.RedRouter.ComputeProbability: the square root is an argument, since exact reals have no such operation; Red.MiddleSigns shows that it exists.
- Tbf.GreedyShaper: the timer is taken to fire on time, and packets to be no larger than the bucket; Tbf.TimerFindsPacket says what happens otherwise.
- ReassemblySpec.StreamReassembles: whole streams are of segments that are equal or disjoint; of one that overlaps in part it depends on the state it meets, exactly as ReassemblySpec.ArrivalIsRightIff says, and streams of several such segments are not followed further; the FIN inside the reassembly queue, which the release does not count, is not modelled.
- TcpSender.Sender.SendMuch: at most `budget` turns of the loop, for any `budget`; the original's loop can stall when a send is suppressed, and its termination is not claimed.
- The TcpAgent base class is not part of this model: window, round-trip estimate and congestion control are arguments or left open; `reset`, which relies on it, is left out, and so is the bare ACK sent directly in LISTEN.
- Reservation.AllOrNothing: a teardown is sent only for accepted flows; SA_Agent sends one in any case (Reservation.TeardownOfNothing). The receiver that returns the decision is not part of the repository; it is taken to return it unchanged. Lost signalling messages are not modelled.
- Classifier.MultiPathForwarder.Classify: a table with no occupied slot is excluded, on which the original divides by zero. The forwarder holds its table instead of inheriting it.
- Freed memory is left to the collector; the timers' scheduling is an argument `now` or a due time.
- Applications, estimators, the other admission controllers, `common/`, worm, ping, UDP, RTP, the Java and Python code.
