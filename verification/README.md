# zatat: a verified model

zatat is a Pusher-compatible websocket server. Several nodes share one set of
channels: each node owns its local subscribers and signed-in users, tells its
peers about them on a message bus, and tells its own clients about fleet-wide
changes only. This project models the parts of it where order, loss and
redundant state make correctness hard, and proves what they are for.

- **Replication.** A node's state reaches a peer through numbered live events
  and periodic snapshots, whose number is taken before their contents are read.
  `Replication` is one origin and one peer with every step separate: change,
  take a number, enqueue; take a snapshot number, capture, enqueue; deliver,
  lose, reap, forget. `CountReplication` is the instance for subscriber counts,
  `SessionReplication` the one for signed-in users; `SessionForgetting` adds time,
  to show when a number may be forgotten, and `ChannelReplacement` channel objects
  that come and go, to show when changes are published in the order they are made.
- **Client views.** `PresenceRoom` is one presence channel on one node: every
  handler, every frame to every client, frames an unsubscribe leaves queued, and
  the roster a client computes from its frames. `PresenceCaches` and
  `PresenceHandlers` are the imperative cache and handlers, proved against it.
  `Fleet` joins rooms and links: all nodes, all links, all clients;
  `FleetHandlers` shows that the handlers are its steps. `Watchlist` is the same
  argument for online and offline notifications. `PeerLiveness` is how long a
  peer's roster lives.
- **Webhook hand-off.** `HandOff` is the withheld-report protocol.
- **State of one node.** `Channels`, `ChannelRuns` and `ConcurrentLeave` are the
  reference counts; `CacheReplay` is the cached payload against a map that
  never forgets; `Indexes` is the agreement of the redundant indexes.
- **Queues and limits.** `Staging`, `Retry`, `RateLimiters`.
- **Wire text.** `Envelope` (JSON printing), `HttpSign` (the signed string),
  `SignedText` (a reader of that string, written apart from the printer),
  `HttpQuery` (percent decoding and query parsing).

`dafny verify dfyconfig.toml` verifies everything.

Time is an explicit nondecreasing parameter, in seconds (`Retry`: nanoseconds).
A read of a concurrent map is one atomic step, and so is an iteration, except
that count and session snapshots read their entries one at a time. What happens
inside a channel's or a user's transition lock is not interleaved with anything
else under the same lock; the snapshot publisher does not take it and interleaves
freely.

## Findings

Properties that do not hold of the code as it stands. Each has a concrete run
and the exact condition under which the property does hold.

- A snapshot that is accepted after a live event with a higher number was lost
  does not repair the roster, because it was captured before that event
  (`Replication.StaleSnapshotFails`; exactly when: `Replication.SnapshotHealsIff`).
- Forgetting a peer's sequence number while one of its older snapshots is still
  under way lets that snapshot undo a change, with no loss at all
  (`Replication.ForgettingFails`; exactly when: `Replication.ForgettingIff`). The
  clocks allow it for signed-in users: one entry per peer, refreshed by any user's
  event, but one number per user (`SessionForgetting.ForgottenInTime`). It takes a
  snapshot sent more than a minute after its number was taken.
- The transition lock belongs to a channel object, and an empty object may be
  taken out of the map by another leaver or by GC while the leave that emptied it
  has not published yet. A join on the new object can then be published first, and
  the peer is left without the member (`ChannelReplacement.LeftForGood`; exactly
  when: `ChannelReplacement.AlwaysRightIff`). A user's lock has no such gap.
- The answer to a subscribe is written ahead of the connection's queue, and an
  unsubscribe purges nothing from that queue. A client that subscribes again while
  frames of its earlier subscription are queued gets them after the new roster and
  can stay wrong for good (`PresenceRoom.RejoinFails`).
- Live handlers ignore rosters past their TTL while snapshot diffs do not, so a
  removal handled in that gap leaves clients without a member that is still
  stored (`PresenceRoom.StaleRosterFails`).
- A handler looks its channel up before it takes the transition lock. If the
  channel it found has since been replaced, its frame reaches nobody
  (`PresenceRoom.MissedChannelFails`). For this and the two before, exactly when:
  `PresenceRoom.StepAgreesIff`.
- The same TTL gap makes a user be announced offline who is still stored for a
  peer (`Watchlist.SignedOutWhileStored`; exactly when: `Watchlist.StepTruthfulIff`).
- A publisher that obtained a cache channel which GC then removed stores into
  an orphan, and the payload is never replayed (`CacheReplay.OrphanedStoreFails`;
  exactly when: `CacheReplay.StepRefinesIff`).
- Three or more nodes letting go of a user at once can report its removal twice
  (`HandOff.ManyHoldersMayReportTwice`; exactly when: `HandOff.ExactlyOnceIff`).
- Re-registering a socket id in use breaks the indexes unless that connection had
  done nothing (`Indexes.AppIndexes.Register`, both ways); ids are drawn at random.
- The canonical string does not determine what was signed: `a=1&b=2` may be one
  parameter or two (`HttpSign.AmbiguousFails`). Exactly when it does, over all
  requests the code signs: `HttpSign.SignsUniquelyIff`. Among requests without
  separators in keys and values it always does (`HttpSign.CanonicalDetermines`).

## Model

| member | source | states |
|---|---|---|
| `Replication.NextKeeps` | crates/zatat-scaling/src/dispatcher.rs:314-336 | every step of origin and peer, losses included, keeps the invariant: for each captured snapshot and each intact replica, replaying the live events it has not covered gives the origin's present state |
| `Replication.RunKeepsInv` | crates/zatat-ws/src/tasks.rs:33-66 | the invariant holds at every point of every run from an empty start |
| `Replication.Convergence` | crates/zatat-scaling/src/dispatcher.rs:314-336 | over every interleaving of changes and snapshots, with no live event lost, a drained peer equals the origin |
| `Replication.RefusedIsCovered` | crates/zatat-scaling/src/dispatcher.rs:321-336 | a live event refused because a snapshot outran it is already covered, and applying it again would be harmless |
| `Replication.AppliedOnce` | crates/zatat-scaling/src/dispatcher.rs:321-336 | a live event delivered twice is applied once, and none numbered below it is applied after it |
| `Replication.NewerIsApplied` | crates/zatat-scaling/src/dispatcher.rs:321-336 | an event numbered above everything applied changes exactly its key and becomes the last number |
| `Replication.Healing` | crates/zatat-scaling/src/dispatcher.rs:1322-1374 | from any damaged replica, one accepted snapshot numbered above every live event passed, and no loss after it, makes the drained peer equal to the origin |
| `Replication.FoldsAgreeIff` | crates/zatat-scaling/src/dispatcher.rs:1330-1350 | two states become equal under the same changes if and only if these write every key on which they differ |
| `Replication.RecoversIff` | crates/zatat-scaling/src/dispatcher.rs:1330-1350 | replaying what is still ahead repairs arbitrary contents if and only if every wrong key is written again by it |
| `Replication.HealsIff` | crates/zatat-scaling/src/dispatcher.rs:1330-1350 | for any peer whatever, damaged or not and whatever number it last accepted: exactly when it is right once the remaining live events are handled |
| `Replication.OldSnapshotHealsIff` | crates/zatat-scaling/src/dispatcher.rs:1330-1350 | a snapshot numbered below live events already passed leads to the present exactly if those events change nothing it has, except on keys written again later |
| `Replication.SnapshotHealsIff` | crates/zatat-scaling/src/dispatcher.rs:1322-1374 | over every run: after any losses and one accepted snapshot, with no live event lost after it, the drained peer equals the origin if and only if the live events passed above the snapshot's number are harmless in that sense |
| `Replication.DrainIsFold` | crates/zatat-scaling/src/dispatcher.rs:321-336 | handling the rest of a log event by event, some refused by the sequence filter, equals applying exactly the changes above the larger of the last number and what was passed |
| `Replication.StaleSnapshotFails` | crates/zatat-scaling/src/dispatcher.rs:1330-1350 | a run in which an accepted snapshot with no later loss leaves the drained peer wrong |
| `Replication.ForgettingFails` | crates/zatat-scaling/src/dispatcher.rs:340-345 | a run without any loss in which forgetting a number leaves the drained peer wrong |
| `Replication.ForgettingIff` | crates/zatat-scaling/src/dispatcher.rs:340-345 | over every run whose only damage is forgotten numbers, the drained peer equals the origin if and only if the last snapshot it took over was harmless; if it took none, always |
| `Replication.ForgettingIsSafe` | crates/zatat-scaling/src/dispatcher.rs:340-345 | so it always does if no snapshot arrives numbered below a live event already passed |
| `ChannelReplacement.StepKeepsSynced` | crates/zatat-channels/src/manager.rs:219-237 | while an object is taken out of the map only with its lock free, every step is one of the replication protocol: at most one lock is in use and the link's invariant is kept |
| `ChannelReplacement.LeftForGood` | crates/zatat-channels/src/manager.rs:228-235 | a run without loss: a member leaves, its empty object is replaced before the leave is published, the member returns, and the peer ends without it |
| `ChannelReplacement.AlwaysRightIff` | crates/zatat-channels/src/manager.rs:154-197 | the peer equals the channel at rest in every run if and only if no object is replaced while a change under its lock is unpublished |
| `SessionForgetting.OldSnapshotRefused` | crates/zatat-scaling/src/dispatcher.rs:1427-1449 | whatever happens in between, a snapshot arriving within sixty seconds of a user's event decides nothing about that user if it is numbered below it |
| `SessionForgetting.ForgottenAfterAMinute` | crates/zatat-scaling/src/dispatcher.rs:340-345 | a number not raised again is forgotten by the first tick a minute later and by none before |
| `SessionForgetting.SilentPeerIsReaped` | crates/zatat-scaling/src/peer_state.rs:292-322 | a tick drops the users of a peer silent for more than fifteen seconds, and no others |
| `SessionForgetting.ForgottenInTime` | crates/zatat-ws/src/tasks.rs:194-238 | with the real intervals: the peer is never silent long enough to be reaped, yet the tick forgets a signed-in user's number and a late snapshot signs the user out |
| `PeerTable.AddLiveAnnounces` | crates/zatat-scaling/src/presence_cache.rs:87-106 | a live addition adds exactly that user to the users stored for peers |
| `PeerTable.RemoveLiveAnnounces` | crates/zatat-scaling/src/presence_cache.rs:107-121 | a live removal removes the user exactly if no other peer has it |
| `PeerTable.TouchAnnounces` | crates/zatat-scaling/src/presence_cache.rs:76-86 | refreshing a peer changes no membership |
| `PeerTable.FreshIsPresent` | crates/zatat-scaling/src/presence_cache.rs:122-150 | the TTL-filtered query and the TTL-filtered roster name the same users |
| `PeerTable.ExcludedIsIgnored` | crates/zatat-scaling/src/presence_cache.rs:122-150 | the excluded peer counts for nothing, as if it had no roster |
| `PeerLiveness.KeptForFifteenSeconds` | crates/zatat-scaling/src/presence_cache.rs:28-121 | after a snapshot, a refused snapshot or a live event, sweeps keep that peer's roster for fifteen seconds exactly; till then each of its users is found present, after that each is stale |
| `PeerLiveness.NeverReaped` | crates/zatat-scaling/src/presence_cache.rs:196-240 | over every run: a peer heard at least every fifteen seconds is never reaped, and its roster is what its own words make of it |
| `PeerLiveness.StoredIff` | crates/zatat-scaling/src/presence_cache.rs:196-240 | from an empty table, the peers stored after any run are exactly those |
| `PeerLiveness.RoomStoresIff` | crates/zatat-ws/src/tasks.rs:100-127 | so over every run of a presence channel |
| `PeerLiveness.WatchHears` | crates/zatat-scaling/src/peer_state.rs:200-260 | the signed-in users stored for peers change by the same steps |
| `PresenceRoom.AddedAgreesIff` | crates/zatat-scaling/src/dispatcher.rs:1138-1183 | exactly when a remote addition leaves every client's roster equal to the stored membership |
| `PresenceRoom.RemovedAgreesIff` | crates/zatat-scaling/src/dispatcher.rs:1185-1242 | the same for a remote removal |
| `PresenceRoom.SnapshotAgreesIff` | crates/zatat-scaling/src/dispatcher.rs:1322-1374 | the same for an accepted snapshot: the diff it announces is right in any order, at any time |
| `PresenceRoom.JoinAgreesIff` | crates/zatat-ws/src/handler.rs:331-430 | exactly when a join leaves every client right, the joiner included, who is written the roster first and then whatever an earlier subscription left in its queue |
| `PresenceRoom.FirstJoinRightIff` | crates/zatat-ws/src/handler.rs:331-430 | with an empty queue the joiner is right exactly if no roster past its TTL is the only one to name someone |
| `PresenceRoom.JoinWithinCap` | crates/zatat-ws/src/handler.rs:331-354 | a join never takes the known membership past the member limit |
| `PresenceRoom.AdmittedIff` | crates/zatat-ws/src/handler.rs:331-354 | a new socket gets in if and only if its user is known already or the known users are fewer than the limit; refused, nothing changes |
| `PresenceRoom.KnownIff` | crates/zatat-ws/src/handler.rs:334-352 | known are the users with a socket here and those some peer named in the last fifteen seconds |
| `PresenceRoom.ResubscribeAgreesIff` | crates/zatat-ws/src/handler.rs:413-430 | exactly when a repeated subscribe, answered ahead of frames still queued, leaves that client right |
| `PresenceRoom.LeaveAgreesIff` | crates/zatat-ws/src/handler.rs:535-587 | exactly when a leave keeps the remaining clients right |
| `PresenceRoom.SweepAgrees` | crates/zatat-ws/src/tasks.rs:100-127 | reaping expired rosters at any time keeps clients right up to the removals still to be announced |
| `PresenceRoom.AnnounceAgreesIff` | crates/zatat-ws/src/tasks.rs:100-127 | exactly when announcing a reaped user, or staying silent because it is back, pays off that debt |
| `PresenceRoom.StepAgreesIff` | crates/zatat-scaling/src/dispatcher.rs:1138-1218 | from agreement, any step whatever keeps agreement if and only if it is faithful, a condition on the state before it |
| `PresenceRoom.ClientViewAgreement` | crates/zatat-scaling/src/dispatcher.rs:1337-1369 | over every run of faithful joins, re-joins, leaves, live events, snapshots and sweeps, the roster each client computes from its frames is local users united with all users stored for peers |
| `PresenceRoom.SentIsNews` | crates/zatat-scaling/src/dispatcher.rs:1138-1218 | whatever happens, a client that neither joins nor is answered is sent news only: additions nobody else had announced, removals of users nobody names any more |
| `PresenceRoom.KickedForGood` | crates/zatat-ws/src/handler.rs:125-132 | over every run, a kicked socket is written nothing ever again |
| `PresenceRoom.DrainsInOrder` | crates/zatat-ws/src/handler.rs:133-170 | frames left queued are written in order, none skipped |
| `PresenceRoom.StaleRosterFails` | crates/zatat-scaling/src/presence_cache.rs:139-167 | a removal handled while another peer's roster is past its TTL and not yet reaped breaks agreement |
| `PresenceRoom.MissedChannelFails` | crates/zatat-scaling/src/dispatcher.rs:1138-1183 | a handler whose channel lookup missed the current channel breaks agreement |
| `PresenceRoom.RejoinFails` | crates/zatat-ws/src/handler.rs:133-201 | a client that unsubscribes with a frame still queued and subscribes again receives the new roster first and the old frame after it, and stays wrong |
| `PresenceCaches.PresenceCache.InsertSnapshot` | crates/zatat-scaling/src/presence_cache.rs:61-75 | replaces exactly that peer's roster, and its time, which `PeerLiveness.KeptForFifteenSeconds` pins down |
| `PresenceCaches.CollectIs` | crates/zatat-scaling/src/presence_cache.rs:61-75 | the roster has exactly the users listed, each with what its last entry says |
| `PresenceCaches.PresenceCache.Touch` | crates/zatat-scaling/src/presence_cache.rs:76-86 | refreshes a stored roster and creates none |
| `PresenceCaches.PresenceCache.AddLive` | crates/zatat-scaling/src/presence_cache.rs:87-106 | adds the user to that peer's roster and says whether it was new there |
| `PresenceCaches.PresenceCache.RemoveLive` | crates/zatat-scaling/src/presence_cache.rs:107-121 | removes the user and says whether it was there |
| `PresenceCaches.PresenceCache.IsPresentExcluding` | crates/zatat-scaling/src/presence_cache.rs:122-150 | the search over peers finds the user exactly if a fresh roster other than the excluded one has it |
| `PresenceCaches.PresenceCache.RemoteMembersFor` | crates/zatat-scaling/src/presence_cache.rs:169-195 | the merged list names exactly the users of fresh rosters, each once |
| `PresenceCaches.PresenceCache.GcExpired` | crates/zatat-scaling/src/presence_cache.rs:196-240 | the nested sweep removes exactly the expired rosters, drops emptied channels, and returns exactly their users |
| `PresenceHandlers.Handlers.AcceptSeq` | crates/zatat-scaling/src/dispatcher.rs:321-336 | accepts a number only above the last one of that stream, and remembers it |
| `PresenceHandlers.Handlers.HandleMemberAdded` | crates/zatat-scaling/src/dispatcher.rs:1138-1183 | does to cache and client queues what the room's step does, raises the origin's number and no other |
| `PresenceHandlers.Handlers.HandleMemberRemoved` | crates/zatat-scaling/src/dispatcher.rs:1185-1218 | the same for a removal |
| `PresenceHandlers.Handlers.HandleSnapshot` | crates/zatat-scaling/src/dispatcher.rs:1322-1374 | an accepted snapshot is the room's snapshot step, a refused one only refreshes; the numbers follow |
| `PresenceHandlers.Handlers.ApplySnapshot` | crates/zatat-scaling/src/dispatcher.rs:1337-1369 | the before/after loops announce exactly the difference |
| `PresenceHandlers.Handlers.Admit` | crates/zatat-ws/src/handler.rs:331-354 | the admission test is the room's: known users pass, others only below the limit |
| `PresenceHandlers.Handlers.Join` | crates/zatat-ws/src/handler.rs:331-430 | the subscribe path is the room's join, or for a member that subscribes again the room's answer ahead of its queue; says when the user is new here |
| `PresenceHandlers.Handlers.Leave` | crates/zatat-ws/src/handler.rs:530-587 | the leave path is the room's leave; frames not yet written stay queued |
| `PresenceHandlers.Handlers.Drain` | crates/zatat-ws/src/handler.rs:133-170 | writing queued frames of a socket that left is the room's step |
| `PresenceHandlers.Handlers.Kick` | crates/zatat-ws/src/handler.rs:125-132 | a slow subscriber is cut off for good |
| `PresenceHandlers.Handlers.Sweep` | crates/zatat-ws/src/tasks.rs:100-127 | the GC tick is the room's sweep |
| `PresenceHandlers.Handlers.AnnounceNext` | crates/zatat-ws/src/tasks.rs:100-127 | announcing one reaped user is the room's step |
| `FleetHandlers.MemberAddedIsFleetStep` | crates/zatat-scaling/src/dispatcher.rs:1047-1059 | what the handler ensures about room and numbers, member information forgotten, is the fleet's step for that message |
| `FleetHandlers.MemberRemovedIsFleetStep` | crates/zatat-scaling/src/dispatcher.rs:1060-1079 | the same for a removal |
| `FleetHandlers.SnapshotIsFleetStep` | crates/zatat-scaling/src/dispatcher.rs:1322-1374 | the same for an accepted snapshot |
| `FleetHandlers.StaleSnapshotIsFleetStep` | crates/zatat-scaling/src/dispatcher.rs:1322-1374 | the same for a refused one |
| `FleetHandlers.SubscribeIsFleetStep` | crates/zatat-ws/src/handler.rs:359-409 | what the subscribe path ensures is the fleet's local step, and it publishes exactly when the user is new on this node |
| `FleetHandlers.LeaveIsFleetStep` | crates/zatat-ws/src/handler.rs:535-587 | the same for a leave, which publishes exactly with the user's last socket |
| `Fleet.NextKeeps` | crates/zatat-scaling/src/dispatcher.rs:909-1136 | every faithful fleet step, at any node, keeps every link's and every room's invariant |
| `Fleet.RunInv` | crates/zatat-scaling/src/dispatcher.rs:909-1136 | they hold at every point of every run of such steps |
| `Fleet.CaughtUpKnowsEveryone` | crates/zatat-scaling/src/dispatcher.rs:1322-1374 | a node whose links are drained and undamaged knows exactly the users of the whole fleet |
| `Fleet.EveryClientSeesEveryone` | crates/zatat-ws/src/handler.rs:331-430 | over every fleet run of faithful steps, every client of a caught-up node shows exactly the users subscribed anywhere in the fleet |
| `Fleet.DependableFleetConverges` | crates/zatat-scaling/src/dispatcher.rs:314-336 | over such runs, without lost live events and reaping, draining the bus is enough for that, at every node |
| `HandOff.WithheldReports.Note` | crates/zatat-scaling/src/dispatcher.rs:365-377 | makes that record claimable for the window; dropping old records takes away nothing that could still be claimed |
| `HandOff.WithheldReports.Claim` | crates/zatat-scaling/src/dispatcher.rs:379-388 | succeeds exactly if claimable, once, and touches no other record |
| `HandOff.Reporter.Leave` | crates/zatat-ws/src/handler.rs:561-586 | a leave over the real records is the protocol's leave: report, or withhold and say so |
| `HandOff.Reporter.Receive` | crates/zatat-scaling/src/dispatcher.rs:1185-1242 | a receive over the real records is the protocol's receive |
| `HandOff.SomeNodeReports` | crates/zatat-scaling/src/dispatcher.rs:1185-1242 | any number of nodes, any interleaving: once every holder let go and the mail is delivered, some node has reported |
| `HandOff.TwoHoldersReportOnce` | crates/zatat-scaling/src/dispatcher.rs:1185-1242 | with at most two holders, in a fleet of any size, exactly one report is made |
| `HandOff.LowerIdReports` | crates/zatat-scaling/src/dispatcher.rs:1220-1236 | when the higher of two holders withholds its report, the lower one makes it |
| `HandOff.ClaimedWithinAMinute` | crates/zatat-scaling/src/dispatcher.rs:1220-1236 | a message leads to a report exactly if it is flagged, the receiver has the lower id, nobody else is left, and the receiver withheld less than sixty seconds ago |
| `HandOff.ManyHoldersMayReportTwice` | crates/zatat-scaling/src/dispatcher.rs:1220-1242 | from every agreeing state with three holders or more there is a complete run with two reports |
| `HandOff.ExactlyOnceIff` | crates/zatat-scaling/src/dispatcher.rs:1185-1242 | every complete run makes exactly one report if and only if one or two nodes hold the user |
| `PeerCounts.PeerChannelCounts.Sum` | crates/zatat-scaling/src/peer_state.rs:66-81 | the loop adds exactly the fresh counts of that channel |
| `PeerCounts.OnlyFreshCount` | crates/zatat-scaling/src/peer_state.rs:66-81 | that is the sum of the counts heard in the last fifteen seconds; older ones add nothing |
| `PeerCounts.ReportedCounts` | crates/zatat-scaling/src/dispatcher.rs:1244-1286 | a count that is news is summed for fifteen seconds exactly |
| `PeerCounts.OldCountRefreshes` | crates/zatat-scaling/src/dispatcher.rs:1376-1402 | a listed count that is not news keeps the stored one for another fifteen seconds; a live one changes nothing |
| `PeerCounts.PeerChannelCounts.HandleCount` | crates/zatat-scaling/src/dispatcher.rs:1244-1286 | stores an accepted count, ignores an outrun one, leaves other peers and channels alone |
| `PeerCounts.PeerChannelCounts.HandleSnapshot` | crates/zatat-scaling/src/dispatcher.rs:1376-1422 | each listed channel follows its own number, and channels the snapshot omits are dropped |
| `PeerCounts.PeerChannelCounts.DropOmitted` | crates/zatat-scaling/src/peer_state.rs:130-152 | drops exactly the omitted channels of that peer that the number allows |
| `CountReplication.OriginStepsFor` | crates/zatat-ws/src/tasks.rs:29-82 | seen from one channel, every step of a node's counts is a step of the replication protocol or none |
| `CountReplication.HandleStepsFor` | crates/zatat-scaling/src/dispatcher.rs:1376-1422 | the same for handling a count or a count snapshot, omission included |
| `CountReplication.ListIsMap` | crates/zatat-scaling/src/dispatcher.rs:1376-1422 | the list on the wire, walked entry by entry with omission after it, has the effect of the map it lists |
| `CountReplication.HandleSnapshotMessage` | crates/zatat-scaling/src/dispatcher.rs:1376-1422 | the cache handling a count snapshot is the protocol's step, so the convergence theorem is about the cache |
| `CountReplication.HandleCountMessage` | crates/zatat-scaling/src/dispatcher.rs:1244-1286 | the same for a live count |
| `CountReplication.CountsConverge` | crates/zatat-scaling/src/dispatcher.rs:1244-1286 | at drain a peer's stored count for every channel is the origin's length |
| `CountReplication.TotalIsFleetTotal` | crates/zatat-scaling/src/peer_state.rs:66-81 | with every stream drained, local length plus the peer sum is the true number of subscribers here and on the peers whose stored counts are not older than fifteen seconds; with none older, in the fleet |
| `CountReplication.FleetCount` | crates/zatat-ws/src/handler.rs:482-495 | the number the program computes, local length plus `Sum` over a cache that holds what the streams put there, is that total |
| `Watchlist.StepTruthfulIff` | crates/zatat-ws/src/handler.rs:663-712 | a step keeps the notifications in line with who is online if and only if it decides about nobody stored only in entries past their TTL |
| `Watchlist.SignedOutWhileStored` | crates/zatat-scaling/src/dispatcher.rs:1304-1316 | a remote sign-out handled while another peer's entry is past its TTL and not yet reaped announces offline a user who is still stored |
| `Watchlist.WatchlistTruth` | crates/zatat-ws/src/handler.rs:832-851 | over every run of such steps the last notification about a user agrees with whether it has a local socket or is stored for a peer |
| `Watchlist.EveryChangeIsAnnounced` | crates/zatat-scaling/src/dispatcher.rs:1288-1316 | a step after which a user's state differs emitted the matching notification; when GC made the change, the user is in line to be announced |
| `Watchlist.OnlyChangesAreAnnounced` | crates/zatat-scaling/src/dispatcher.rs:1288-1316 | and nothing else is: an online notification names a user nobody else had, an offline one a user nobody has any more |
| `Watchlist.ExpiryIsAnnounced` | crates/zatat-ws/src/tasks.rs:194-236 | whoever is next in that line is announced offline unless back online |
| `Watchlist.Sessions.UserOnline` | crates/zatat-scaling/src/dispatcher.rs:1288-1302 | stores the user for that peer and announces it exactly when nobody else had it: the step of the truth theorem |
| `Watchlist.Sessions.UserOffline` | crates/zatat-scaling/src/dispatcher.rs:1304-1316 | removes the user from that peer and announces it exactly when nobody has it any more: the step of the truth theorem |
| `Watchlist.Sessions.HandleSnapshot` | crates/zatat-scaling/src/dispatcher.rs:1427-1449 | a session snapshot is a refresh, then the online steps, then the offline steps of exactly its difference, each user once and only where the snapshot is news; its number is recorded for exactly those users |
| `SessionReplication.OriginStepsFor` | crates/zatat-ws/src/tasks.rs:84-91 | seen from one user, every step of a node's sign-ins and session snapshots is a step of the replication protocol or none |
| `SessionReplication.HandleStepsFor` | crates/zatat-scaling/src/dispatcher.rs:1427-1449 | the same for handling a live event or a session snapshot, which records its number only for the users it changes |
| `SessionReplication.SessionsConverge` | crates/zatat-scaling/src/dispatcher.rs:1101-1134 | at drain a peer has a user stored if and only if the user has a socket at the origin |
| `SessionReplication.HandleSessionMessage` | crates/zatat-scaling/src/dispatcher.rs:1101-1124 | handling a live event over the real records is the protocol's step, so the convergence theorem is about them |
| `SessionReplication.HandleSnapshotMessage` | crates/zatat-scaling/src/dispatcher.rs:1427-1449 | the same for a session snapshot |
| `SessionReplication.OnlineIsFleetwide` | crates/zatat-ws/src/handler.rs:663-712 | when every peer's stream is drained, the last notification about a user says online if and only if it has a socket on some node of the fleet |
| `Channels.Channel.Subscribe` | crates/zatat-channels/src/channel.rs:201-231 | counts stay the number of member sockets of each user; a user is added exactly on its first |
| `Channels.Channel.Unsubscribe` | crates/zatat-channels/src/channel.rs:233-262 | the same for leaving; a user is removed exactly with its last socket, and no zero count stays |
| `Channels.Channel.UserCount` | crates/zatat-channels/src/channel.rs:98-106 | the number of distinct users, or of sockets off presence channels |
| `Channels.Channel.HasUserId` | crates/zatat-channels/src/channel.rs:107-112 | true exactly for users with a member socket |
| `Channels.Channel.CachedPayload` | crates/zatat-channels/src/channel.rs:125-148 | the payload if it was stored no longer ago than the TTL, or there is none; otherwise nothing, and the slot is cleared |
| `Channels.Channel.SetCachedPayload` | crates/zatat-channels/src/channel.rs:161-169 | stores on cache channels only, and re-arms the cache-miss webhook |
| `Channels.Channel.ClaimCacheMiss` | crates/zatat-channels/src/channel.rs:175-183 | is the claim step of the run below |
| `Channels.NotifiedApart` | crates/zatat-channels/src/channel.rs:161-183 | over every run, two cache-miss webhooks without a publish between them are a whole interval apart |
| `Channels.NotifiedIff` | crates/zatat-channels/src/channel.rs:161-183 | a miss notifies if and only if no webhook since the last publish is less than a minute old |
| `Channels.CountedJoin` | crates/zatat-channels/src/channel.rs:201-231 | incrementing one entry restores the count invariant, from zero exactly for a new user |
| `Channels.CountedLeave` | crates/zatat-channels/src/channel.rs:233-262 | decrementing, and dropping at zero, restores it |
| `ChannelRuns.RunOp` | crates/zatat-channels/src/channel.rs:201-262 | the class does one operation of the abstract run |
| `ChannelRuns.TransitionsAlternate` | crates/zatat-channels/src/channel.rs:201-262 | over every sequence of operations, added and removed alternate for each user and end where membership says |
| `ConcurrentLeave.StepKeeps` | crates/zatat-channels/src/channel.rs:233-262 | each of the three atomic parts of an unsubscribe, by any thread, keeps the tally |
| `ConcurrentLeave.ExactlyOneReports` | crates/zatat-channels/src/channel.rs:233-262 | any number of threads removing all sockets of a user, any interleaving: exactly one reports the user removed |
| `CacheReplay.StepRefinesIff` | crates/zatat-channels/src/manager.rs:154-294 | a step keeps replay equal to the reference if and only if it is not a store into a removed channel, or the name replays the same anyway |
| `CacheReplay.ReplayIsLastPublished` | crates/zatat-channels/src/channel.rs:125-169 | over every run, a new subscriber is sent the last server-published payload not older than the TTL |
| `CacheReplay.ReplayFromStores` | crates/zatat-channels/src/channel.rs:125-169 | the same from the publishes alone: a payload is sent if and only if it is the last one published, no longer ago than the TTL if there is one |
| `CacheReplay.SubscriberStays` | crates/zatat-channels/src/manager.rs:213-294 | no step but its own leave takes a subscriber's channel away |
| `CacheReplay.OrphanedStoreFails` | crates/zatat-channels/src/manager.rs:247-294 | GC between obtaining the channel and storing into it loses the payload |
| `Indexes.AppIndexes.Register` | crates/zatat-channels/src/manager.rs:79-94 | admits below the limit, compared in 32 bits; for an id already registered, the indexes agree after exactly if that connection had neither subscribed nor signed in |
| `Indexes.AppIndexes.Subscribe` | crates/zatat-ws/src/handler.rs:286-294 | a repeated subscribe ignores the limit; a refused one changes neither index; all indexes agree after |
| `Indexes.AppIndexes.Unsubscribe` | crates/zatat-ws/src/handler.rs:514-525 | leaves both indexes without the pair and no empty channel |
| `Indexes.AppIndexes.SignIn` | crates/zatat-ws/src/handler.rs:629-712 | an identity is bound once; the user index gains the socket; a user is watched if and only if one of the first hundred entries names it |
| `Indexes.AppIndexes.RemoveAllWatchesFor` | crates/zatat-channels/src/manager.rs:427-448 | removes the watcher everywhere and drops emptied sets, or nothing if it is online again |
| `Indexes.AppIndexes.UnbindUser` | crates/zatat-channels/src/manager.rs:368-382 | removes the socket, drops an emptied entry, and says whether it was the last |
| `Indexes.AppIndexes.Cleanup` | crates/zatat-ws/src/handler.rs:823-853 | afterwards no index refers to the socket, every other entry is as it was, and all indexes agree |
| `Indexes.UsersAfterUnbind` | crates/zatat-channels/src/manager.rs:368-382 | the user index still lists exactly the bound sockets |
| `Staging.StepKeeps` | crates/zatat-scaling/src/dispatcher.rs:844-883 | every atomic step of producers and forwarder, closing included, keeps the accounting |
| `Staging.CounterIsBounded` | crates/zatat-scaling/src/dispatcher.rs:258-285 | the byte counter is exactly reserved plus staged plus held bytes plus bytes lost with a closed receiver, within the limit, and never underflows |
| `Staging.ForwardedInOrder` | crates/zatat-webhooks/src/lib.rs:291-361 | while the receiver is open, items are forwarded exactly in enqueue order, each once |
| `Staging.DroppedOrForwarded` | crates/zatat-webhooks/src/lib.rs:291-361 | at rest every attempt was either counted as dropped or forwarded, and the budget is whole |
| `Staging.DroppedIffOver` | crates/zatat-scaling/src/dispatcher.rs:864-883 | an attempt is dropped if and only if its bytes do not fit beside those accounted for; otherwise the producer holds exactly that item |
| `Staging.WithinLimitAllForwarded` | crates/zatat-scaling/src/dispatcher.rs:864-883 | over every run: if all attempts together fit, nothing is dropped, and at rest each has been forwarded |
| `RateLimiters.RateLimiter.Prune` | crates/zatat-connection/src/rate_limit.rs:21-32 | what pruning leaves is exactly the accepted calls in the window, also when the cutoff is not representable |
| `RateLimiters.RateLimiter.Check` | crates/zatat-connection/src/rate_limit.rs:21-39 | the pruned deque answers as the full history would |
| `RateLimiters.CheckAll` | crates/zatat-connection/src/rate_limit.rs:21-39 | so does a whole sequence of calls |
| `RateLimiters.WindowNeverOverfull` | crates/zatat-connection/src/rate_limit.rs:21-39 | no closed interval as long as the window holds more accepted calls than the limit |
| `RateLimiters.RefusedIffFull` | crates/zatat-connection/src/rate_limit.rs:33-36 | a call is refused exactly when the window ending now holds the limit |
| `RateLimiters.AnswersIff` | crates/zatat-connection/src/rate_limit.rs:21-39 | from the answers alone: a call is let through if and only if fewer than the limit were, in the window ending with it |
| `RateLimiters.CountInIsCount` | crates/zatat-connection/src/rate_limit.rs:21-39 | the count used above is the number of calls in the interval |
| `Retry.Deliver` | crates/zatat-webhooks/src/lib.rs:450-498 | at most ten attempts; every sleep has its backoff and is due to end inside the window; the pending count is restored on every exit; which exit is taken when |
| `Retry.RunAttempts` | crates/zatat-webhooks/src/lib.rs:455-494 | the loop ends after at most ten attempts for a good reason, with the pending count raised exactly if the delivery was counted |
| `Retry.MayRetry` | crates/zatat-webhooks/src/lib.rs:482-492 | gives up past the window or over the pending limit, and leaves the count as it was then |
| `Retry.BackoffDoubles` | crates/zatat-webhooks/src/lib.rs:494 | the backoff after attempt i is the smaller of 2^i and sixty seconds |
| `Retry.ClockIsEverything` | crates/zatat-webhooks/src/lib.rs:482 | the time compared with the window holds every request, slot wait, sleep and overrun so far |
| `Retry.TurnedAwayIff` | crates/zatat-webhooks/src/lib.rs:485-490 | a delivery is turned away if and only if ten thousand others are counted or being turned away at that moment |
| `Retry.TenthBackoffEndsLate` | crates/zatat-webhooks/src/lib.rs:174-179 | nine backoffs fit in the window, the tenth does not |
| `Retry.SleepInWindow` | crates/zatat-webhooks/src/lib.rs:482-484 | no request times make a tenth sleep fit |
| `Retry.TenAttemptsAreReached` | crates/zatat-webhooks/src/lib.rs:450-498 | the bound is tight: prompt failures pass the window test after each of the first nine attempts |
| `Retry.PendingIsRestored` | crates/zatat-webhooks/src/lib.rs:485-498 | with any number of deliveries interleaved, the counter is exactly the deliveries counted in, at most the limit of them sleep at once, and it returns to zero |
| `Envelope.WriteJsonString` | crates/zatat-protocol/src/envelope.rs:69-85 | appends the quoted, escaped string |
| `Envelope.EncodeEnvelopeRawData` | crates/zatat-protocol/src/envelope.rs:29-49 | an RFC 8259 decoder recovers exactly the event, data and channel, and the text has no control character |
| `Envelope.EncodeClientEvent` | crates/zatat-protocol/src/envelope.rs:53-66 | the same with the user id added by popping the closing brace |
| `Envelope.EscapeCharDecodes` | crates/zatat-protocol/src/envelope.rs:69-85 | every character decodes from its escape |
| `Envelope.EscapedDecodes` | crates/zatat-protocol/src/envelope.rs:69-85 | every string decodes from its escaped form, whatever follows |
| `Envelope.PrintedDecodes` | crates/zatat-protocol/src/envelope.rs:29-49 | any list of fields decodes from its printed form |
| `HttpSign.CanonicalHttpString` | crates/zatat-protocol/src/http_sign.rs:66-100 | filter, append, lower-case, sort and join compute the canonical string |
| `SignedText.CanonicalReads` | crates/zatat-protocol/src/http_sign.rs:66-100 | a reader that cuts at the first two newlines, at ampersands and at equals signs gets back the verb, the path, and the pairs in byte order of their keys, under each key exactly the signed pairs in order (no separators inside) |
| `SignedText.NotSignedIsIgnored` | crates/zatat-protocol/src/http_sign.rs:72-84 | an `auth_signature` or other excluded parameter, anywhere and with any value, leaves the string unchanged |
| `SignedText.LowerIff` | crates/zatat-protocol/src/http_sign.rs:88-91 | lower-casing changes the letters A to Z by 32 and nothing else |
| `SignedText.AtMostIff` | crates/zatat-protocol/src/http_sign.rs:93 | the key order is byte order: a prefix first, otherwise the first difference |
| `HttpSign.SortIsStable` | crates/zatat-protocol/src/http_sign.rs:93 | the sort orders by key and keeps entries with equal keys in order |
| `HttpSign.StableSortIsUnique` | crates/zatat-protocol/src/http_sign.rs:93 | any stable sort gives the same list, so the algorithm does not matter |
| `HttpSign.PermutationInvariant` | crates/zatat-protocol/src/http_sign.rs:66-100 | without two keys equal ignoring ASCII case, every permutation has the same canonical string |
| `HttpSign.MixedCaseTie` | crates/zatat-protocol/src/http_sign.rs:73-93 | a mixed-case `body_md5` key is signed, and always before the computed digest |
| `HttpSign.AllDistinct` | crates/zatat-http/src/sign.rs:78-86 | the verifier's duplicate check passes exactly the lists without such a pair |
| `HttpSign.CanonicalDetermines` | crates/zatat-protocol/src/http_sign.rs:66-100 | the string determines verb, path and the signed values of each key, if no key holds a separator and no value an ampersand |
| `HttpSign.AmbiguousFails` | crates/zatat-protocol/src/http_sign.rs:66-100 | without that it does not: one parameter with value `1&b=2` has the canonical string of two |
| `HttpSign.PrintsUniquelyIff` | crates/zatat-protocol/src/http_sign.rs:94-99 | among lists the code can sign (keys lower-case and in order), a printed query belongs to one only, if and only if that one is empty or a single parameter that can be cut in no other way |
| `HttpSign.SignsUniquelyIff` | crates/zatat-protocol/src/http_sign.rs:66-100 | among all requests with the same verb and path, whatever their parameters and digest, the canonical string belongs to this signed list only, if and only if the list is of that kind |
| `HttpQuery.PctDecode` | crates/zatat-http/src/sign.rs:48-68 | the index loop stays in bounds, terminates and computes the decoding |
| `HttpQuery.DecodeUndoesEncode` | crates/zatat-http/src/sign.rs:48-68 | every percent encoding of a UTF-8 string, each digit from a table of its own in either case, spaces possibly as plus, decodes to it; an encoding of bytes that are no UTF-8 decodes to nothing |
| `HttpQuery.ValidUtf8Iff` | crates/zatat-http/src/sign.rs:67 | well-formed means: the UTF-8 encoding of some characters |
| `HttpQuery.EncodeEncodes` | crates/zatat-http/src/sign.rs:48-68 | escaping all bytes outside the unreserved set is such an encoding |
| `HttpQuery.UnchangedIff` | crates/zatat-http/src/sign.rs:48-68 | a string is left alone exactly when it has no plus sign and nowhere the escape of a byte, so malformed escapes pass through |
| `HttpQuery.UnescapeKeepsIff` | crates/zatat-http/src/sign.rs:48-68 | decoding shortens a text exactly when it holds an escape |
| `HttpQuery.ParseQuery` | crates/zatat-http/src/sign.rs:33-46 | the loop over pieces computes the parameter list |
| `HttpQuery.PrintedQueryParses` | crates/zatat-http/src/sign.rs:33-46 | parsing a printed query gives back every parameter in order, empty names and values included |
| `HttpQuery.AnyQueryParses` | crates/zatat-http/src/sign.rs:33-46 | so does any query a client may print, whatever the encoding: a bare name has an empty value, an empty piece is skipped, the first equals sign ends the name |

## Left out

- HMAC-SHA256, MD5, secretbox, base64: library calls; the body digest is a parameter of the canonical string and signatures are not modelled.
- The Redis client, subscriber watchdog, websocket transport, HTTP routing, TLS and task scheduling: I/O; the bus is a log with explicit delivery and loss.
- Configuration, environment overrides, command line, supervisor, metrics and reload of apps: they read settings, count events and start tasks.
- Serde parsing and generic JSON values: payloads are opaque strings, `user_info` is opaque; `encode_envelope` for a JSON value differs from the modelled printer only by the library's serialisation of that value.
- `user_info` convergence across nodes: the fleet theorem is about user ids.
- Shard-level weak consistency of concurrent maps: each read and each iteration is atomic.
- `PresenceData::from_members` and `merge_presence`: they turn local and remote members into a count, a sorted id list and a map from id to information; rosters are sets of ids here.
- `strip_path_prefix`, `matches_filters`, `validate_publish`, `approx_size`: they cut a mount prefix off a path, select webhook targets, check a publish against limits and estimate an event's size.
- Sorting in place: `HttpSign.SortByKey` is a function on lists; `StableSortIsUnique` shows that any stable library sort agrees with it.
- Exactly-once webhooks with three or more holders, and reporting by the fleet leader after a crash: not guaranteed by the code.
- `channel_occupied`, `channel_vacated` and subscription-count webhooks: the same hand-off as for members, over counts.
- Session replication after a loss or a reaped peer: `SessionReplication` is about streams without them; what repairs a link is `Replication.SnapshotHealsIff`, not restated per user.
- Drain counters, fleet metrics queries, connection maintenance and timeouts.
- HttpQuery.UnchangedIff: assumes UTF-8 input, as do the round trips of whole queries; the argument's string type guarantees it.
- SignedText.CanonicalReads: assumes no separator in signed keys and no ampersand in signed values, because the string is ambiguous otherwise (`HttpSign.SignsUniquelyIff`).
- PeerLiveness.NeverReaped: assumes that steps come in time order.
- Retry.Deliver: takes the shared counter as a value in and out, so it shows one delivery alone; interleaving with other deliveries is `Retry.PendingIsRestored`.
- Replication.Healing: asks that the snapshot be numbered above every live event passed; `Replication.SnapshotHealsIff` is the exact condition for any accepted snapshot.
- SessionForgetting.ForgottenInTime: lists the one GC tick that matters; ticks before it find the peer recent and the number young.
- PresenceRoom.ClientViewAgreement: assumes that steps are faithful, because each step that is not breaks agreement (`PresenceRoom.StepAgreesIff`).
- CacheReplay.ReplayIsLastPublished: assumes that no store reaches an orphaned channel, because replay fails otherwise (`CacheReplay.OrphanedStoreFails`); `CacheReplay.StepRefinesIff` is the exact condition.
- Replication.Convergence: assumes that changes of one channel are published one at a time, in the order made, as `CountReplication.CountsConverge` and `Fleet` do; `ChannelReplacement.AlwaysRightIff` is exactly when channel objects ensure it.
- SessionReplication.SessionsConverge: leaves out GC ticks, because forgetting a number can break it (`SessionForgetting.ForgottenInTime`).
- Watchlist.WatchlistTruth: assumes that steps are faithful, because each step that is not breaks it (`Watchlist.StepTruthfulIff`).
- Fleet.EveryClientSeesEveryone: assumes faithful steps at every node, like `PresenceRoom.ClientViewAgreement`.
- FleetHandlers.SubscribeIsFleetStep: assumes that the step is faithful and that no change of the channel is unpublished, which the lock ensures as long as the object is not replaced.
