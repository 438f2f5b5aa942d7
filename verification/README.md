# A verified model of the feed network

Agents on many machines turn their work into short story capsules. Peers publish capsules on
feeds, other peers follow feeds and drain what reaches them, a directory tells who publishes
what, an edge service keeps a bounded public snapshot, and the command line tails transcripts
and posts stories to the edge. This project models those parts and proves what they promise,
mostly as statements about every run: any sequence of operations, by any peers, at any clock
readings, with any outcome of the checks the model leaves open.

## How it is built

- Code that changes state is a class (`InMemoryNetwork`, `P2pRuntime`, `DirectoryStore`,
  `SnapshotStore`, `Watcher`, `ServePublisher`, `TranscriptMemory`) whose fields stand for those
  of the source. Each method is proved to take `View()` or `State()`, the fields as one value, to
  the value a plain function gives. The theorems are about those functions, so they hold of the
  classes. What a watcher posts and what the publisher sends leaves the program; two ghost
  fields, `Watcher.posted` and `ServePublisher.posts`, record it.
- A run is a sequence of acts. `Runs` holds the induction over runs once: conservation,
  windows that are the end of an untrimmed log, facts that latch, facts that persist. The
  other logs (accepted capsules, drained capsules, taken events, indexed records) are rebuilt
  from the run; nothing in the state records them.
- Signatures, topic names, text similarity, JSON, the transcript adapter, the summariser and
  the clock are parameters. Every theorem holds for all of them; similarity is not assumed to
  be symmetric, transitive or bounded. The edge's answers to the publisher are parameters in
  `Publisher` and the publish endpoint's own in `EdgeLoop`.

Modules: `NetworkModel`, `Network`, `NetworkRuns`, `NetworkIndexes`, `NetworkDiscovery`,
`NetworkMembers`, `NetworkReference`, `Runtime`, `RuntimeRuns`, `RuntimeEvents` (the
peer-to-peer network); `Directory`, `DirectoryReference`, `Grouping`, `Routes`, `RouteRules`
(the directory); `Policy`, `Snapshot`, `EdgeReads`, `EdgeListing`, `EdgePublish`, `EdgeUpdates`,
`EdgeErasure`, `EdgeHiding` (the edge); `Tailing`, `Publisher`, `PublisherReference`, `EdgeLoop`,
`Messages`, `MessageRules`, `Sentences`, `SentenceRules` (command line and adapters); `Codec`
(the sign-in callback); `Prelude`, `Runs`, `Text`, `Proto` (shared vocabulary).

The model's functions say how a step is computed. The modules named Reference, Rules, Listing,
Updates and Events say a second time, without those functions, what the answer must be, mostly
from the history alone: who is admitted from the profiles, records, certificates and grants of
the run, which capsule is a repeat from the stories that went through, what a text spells from
how it is written. The bounds of the source (24, 64, 88, 82, 100, 90, 48, 16, 75, 45 and 15
minutes) and its word lists stand there as literals. The two are proved to agree on every input
and in every run.

## Where a promise has a limit

Each of these is false of the code as it stands. The members named give the exact condition,
and runs or inputs that fail.

- Directory convergence. Publishing the same records in any order and with any repetition gives
  one store if and only if no feed has two different admissible records of its highest sequence
  number (`Convergence`); `TiedPairDiverges` is the failing pair. Ties below the top do no harm.
- Tailing from an offset. What is in the file and what is tailed later are together the lines
  of the whole file if and only if nothing but whitespace stands between the last newline and
  the offset, or between the offset and a newline that follows (`HistoryThenTailExactly`,
  `RecorderTellsSplits`); `LinesWithNewline` and `LinesWithoutNewline` say what is seen instead,
  `MidLineStartSplitsLine` is a failing file.
- Polling a file that grows. A poll asks for the length first and reads afterwards. The text
  fed to the watcher is the text of the file, once, if and only if nothing is appended between
  the two (`FedOnceIff`); `LinesInBetweenComeTwice` is a run in which lines are imported twice.
  The other results on tailing are about polls during which the file does not change.
- The public snapshot and private publishing. Erasing the private updates from a run changes
  the public snapshot when a private feed takes a public feed's place (`SameIdReplaced`), when
  a private story makes the edge refuse the same public one (`SameStoryRefused`), when private
  records fill a buffer (`PublicFeedEvicted`), and when a private update prunes what an earlier
  clock reading would still show (`ClockStepsBack`). The public records of the store are at
  every moment the store of the erased run if and only if no update loses anything public in
  the store it meets (`ErasureExactlyAnyClock`, and `PrivateUpdatesInvisibleExactly` for the
  snapshots at all readings). Readers whose clock does not step back notice only what is hidden
  (`ErasureExactly`, `PrivateUpdatesUnnoticedInOrder`); separate feed ids and no evictions hide
  nothing (`SeparateFeedsHideNothing`).
- Draining the publisher's queue. The edge refuses more than 16 capsules at once on every retry,
  and requests or answers can be lost. A turn that publishes empties the queue if and only if
  its attempt gets through (`TurnDrainsIffDelivers`), and the queue holds every story ever
  received if and only if no attempt did (`StuckIffNothingDelivered`,
  `OversizeBatchesStayQueued`).
- Listing a story once. A story whose first answer is lost is sent again; it is listed once if
  and only if the retry says the same (`RetriedStoryListedAgain`). Only headlines are never
  listed twice (`NoHeadlineListedTwice`).
- Replays. The source's default window is 24, and replays go out in one request. Once more than
  16 capsules were acknowledged under a window above 16, and only then, the replay is too large
  (`ReplayTooLargeIff`), and none is taken for the rest of the run (`ReplaysRefusedForGood`);
  `TwoBatchesOutgrowReplays` is such a run.
- The subscriber role. A participant has it if and only if it follows something or asked for
  the role in a join (`SubscriberRoleTells`); `RoleWithoutFollowing` is a run of one join.
- Screening of agent sentences holds for words without a space. For a phrase such as
  "api key" it does not, since whitespace is collapsed after the screening:
  `ApiKeyCanAppear` gives an input, `PhraseAppearsIffAcross` the exact condition.
- A printed route keeps login and selection. It keeps the stream filter exactly when that is
  not a list of two or more labels, and network and score exactly when they are the defaults
  (`WhatPrintingKeeps`).
- A joined claim list splits back exactly when every claim is non-empty, trimmed and free of
  the separator (`ClaimsRoundTrip`).
- Discovery by organisation lists the records (not the stories) of its teams to members outside
  the team, which discovery by user and caching refuse: `DiscoveredIsAdmitted` is the exact
  condition, `OrgListsTeamRecords` a run.

## Model

| member | source | states |
|---|---|---|
| NetworkRuns.ExactDelivery | crates/agent_feed_p2p/src/lib.rs:1279-1455 | In every run, for every peer: all it drained followed by its inbox is, in order and once each, the log of accepted capsules published while it was subscribed and admitted |
| NetworkRuns.DeliveryOfStep | crates/agent_feed_p2p/src/lib.rs:1335-1351 | One operation neither loses, invents, repeats nor reorders a capsule for any peer |
| NetworkRuns.DeliveryBalance | crates/agent_feed_p2p/src/lib.rs:1335-1363 | In every run the delivered counts returned to publishers add up to the copies drained plus the copies waiting in all inboxes |
| NetworkRuns.CompleteDelivery | crates/agent_feed_p2p/src/lib.rs:1245-1277 | Once a peer has a grant and a follow on a feed, what it gets on that feed grows by exactly the capsules accepted from then on, in order, whatever else happens |
| NetworkRuns.ReceivedImpliesFollowed | crates/agent_feed_p2p/src/lib.rs:1198-1243 | Any capsule a peer ever got was accepted while the peer was admitted, and the peer had successfully followed the feed before that |
| NetworkRuns.SubscribedIffFollowed | crates/agent_feed_p2p/src/lib.rs:1221-1225 | A peer is subscribed exactly when it followed the feed itself earlier, being admitted then; no other operation subscribes or unsubscribes anyone |
| NetworkRuns.RingIsEndOfLog | crates/agent_feed_p2p/src/lib.rs:1318-1334 | Each feed's history is exactly the last 64 of all capsules ever accepted on it |
| NetworkRuns.RingVerdictIsLogVerdict | crates/agent_feed_p2p/src/lib.rs:1504-1518 | The duplicate check on the ring gives the verdict of the same check on the whole log |
| NetworkRuns.SnapshotIsEndOfLog | crates/agent_feed_p2p/src/lib.rs:1397-1435 | A served snapshot is the last min(limit, 64) capsules of the whole log in order; otherwise the request fails |
| NetworkRuns.DuplicateSpacing | crates/agent_feed_p2p/src/lib.rs:1318-1334 | Of two capsules of a feed at most 24 positions apart in the log, the later scores at least 90 or does not repeat the earlier |
| NetworkRuns.StepShape | crates/agent_feed_p2p/src/lib.rs:869-1455 | A failed operation leaves the whole state as it was; any other leaves it alone or has its full effect |
| NetworkIndexes.IndexHoldsLastRecord | crates/agent_feed_p2p/src/lib.rs:1594-1614 | Every directory index holds exactly the last record accepted under its key for the feed, and the access the gates read is that of the last record accepted for the feed |
| NetworkIndexes.FiledRecordBelongs | crates/agent_feed_p2p/src/lib.rs:973-1072 | A record found under a user, organisation or team has that owner, organisation or team and its own feed id, and passed every check when it was indexed |
| NetworkIndexes.TeamFeedsAreOrgFeeds | crates/agent_feed_p2p/src/lib.rs:1601-1613 | Feeds listed under a team are listed under its organisation, in every reachable state |
| NetworkIndexes.AccessKnownIffListed | crates/agent_feed_p2p/src/lib.rs:1594-1600 | The gates have a policy for a feed exactly when some user lists the feed |
| NetworkIndexes.ProfilesAndRoles | crates/agent_feed_p2p/src/lib.rs:933-971 | In every reachable state topics and profiles have the same feeds, each topic is the one derived from the stored profile, and every subscriber has the subscriber role and an inbox |
| NetworkDiscovery.DiscoveryListsLastRecords | crates/agent_feed_p2p/src/lib.rs:1102-1196 | After any run, an authorised discovery lists a feed exactly when a record of it was accepted under what was asked for, and lists the last one; by user, only what the caller may hold |
| NetworkDiscovery.DiscoveredIsAdmitted | crates/agent_feed_p2p/src/lib.rs:1132-1161 | In every reachable state a discovered record is one the caller may hold itself, unless it is a team's record found by organisation by a caller outside the team |
| NetworkDiscovery.OrgListsTeamRecords | crates/agent_feed_p2p/src/lib.rs:1132-1161 | A run in which that exception occurs |
| NetworkMembers.RolesAreEarned | crates/agent_feed_p2p/src/lib.rs:869-931 | A participant has a role exactly when one of its own successful operations gave it |
| NetworkMembers.SubscriberRoleTells | crates/agent_feed_p2p/src/lib.rs:1221-1232 | A participant has the subscriber role if and only if it follows something or asked for the role in a join |
| NetworkMembers.RoleWithoutFollowing | crates/agent_feed_p2p/src/lib.rs:869-900 | A run of one join that gives the role to a peer that follows nothing |
| NetworkMembers.GrantsAreIssued | crates/agent_feed_p2p/src/lib.rs:1245-1277 | A grant exists exactly when the peer that then owned the feed issued it, both sides compatible; grants are never withdrawn |
| NetworkMembers.LastOneCounts | crates/agent_feed_p2p/src/lib.rs:1074-1100 | The organisation access that gates a peer is the last one it certified, and the profile that gates a feed the last one announced |
| NetworkReference.PublishOutcome | crates/agent_feed_p2p/src/lib.rs:1279-1364 | In every run, a publish is refused in the stated order; one that passes is dropped if and only if it scores below 90 and one of the last 24 stories of the feed has its kind, a headline similarity of at least 88, and either headline similarity 100 or deck similarity of at least 82; otherwise history and every admitted inbox grow by it |
| NetworkReference.StoriesFromHistory | crates/agent_feed_p2p/src/lib.rs:1318-1334 | The log of a feed is the stories that the history says went through, and the ring their last 64 |
| NetworkReference.RepeatedExactly | crates/agent_feed_p2p/src/lib.rs:1504-1518 | The duplicate check finds a repeat exactly by those literal bounds, by position among the last 24 |
| NetworkReference.TopicOutcome | crates/agent_feed_p2p/src/lib.rs:1366-1395 | Publishing on a topic is refused unless it is the story topic of the last profile, and a publish otherwise |
| NetworkReference.FollowOutcome | crates/agent_feed_p2p/src/lib.rs:1198-1243 | In every run, a follow succeeds if and only if the caller is compatible, the last profile is known and compatible, and the caller is admitted by the history; otherwise the first reason in order |
| NetworkReference.AdmittedExactly | crates/agent_feed_p2p/src/lib.rs:1616-1689 | The gate of follows and deliveries admits exactly: everybody to a public feed, holders of a grant, for an organisation feed the peers whose last certificate names the organisation of the last accepted record, for a team feed those whose certificate also lists its team, nobody else |
| NetworkReference.FollowedFromHistory | crates/agent_feed_p2p/src/lib.rs:1221-1225 | A peer is subscribed exactly when the history holds a follow that was admitted at its moment |
| NetworkReference.ArrivalsFromHistory | crates/agent_feed_p2p/src/lib.rs:1279-1455 | What a peer drained, then its inbox, is the stories that went through on feeds it followed and that admitted it at that moment, all told from the history |
| NetworkReference.GrantOutcome | crates/agent_feed_p2p/src/lib.rs:1245-1277 | A grant succeeds exactly for two compatible peers when the granting one owns the feed by its last profile |
| NetworkReference.RecordOutcome | crates/agent_feed_p2p/src/lib.rs:973-1072 | Caching a record succeeds exactly when caller, network, protocol, signature, shape and holding are right by the history; announcing also needs the named peer; errors in order |
| NetworkReference.SnapshotOutcome | crates/agent_feed_p2p/src/lib.rs:1397-1435 | Who is served a snapshot, by the history, and what: the end of the stories, at most the limit and 64 |
| NetworkReference.DrainOutcome | crates/agent_feed_p2p/src/lib.rs:1437-1455 | A compatible peer drains exactly what waits for it; nobody else drains |
| NetworkReference.DiscoverUserOutcome | crates/agent_feed_p2p/src/lib.rs:1102-1130 | Discovery by user lists the last records of the user that the caller may hold by the history |
| NetworkReference.DiscoverOrgOutcome | crates/agent_feed_p2p/src/lib.rs:1132-1161 | Discovery by organisation is for those last certified for it, and lists its last records |
| NetworkReference.DiscoverTeamOutcome | crates/agent_feed_p2p/src/lib.rs:1163-1196 | Discovery by team likewise |
| NetworkReference.RolesFromHistory | crates/agent_feed_p2p/src/lib.rs:869-1072 | A participant has exactly the roles that its own admitted operations gave it |
| NetworkReference.AddrsFromHistory | crates/agent_feed_p2p/src/lib.rs:902-931 | A participant lists the addresses of its last handoff, whatever else happens |
| Network.InMemoryNetwork.constructor | crates/agent_feed_p2p/src/lib.rs:1543-1560 | A new network is empty |
| Network.InMemoryNetwork.JoinFabric | crates/agent_feed_p2p/src/lib.rs:869-900 | Enrols the caller with the fabric role and those it asks for and opens its inbox, or fails and changes nothing |
| Network.InMemoryNetwork.RegisterBrowserHandoff | crates/agent_feed_p2p/src/lib.rs:902-931 | The whole new state: roles, the listed addresses, the inbox |
| Network.InMemoryNetwork.Announce | crates/agent_feed_p2p/src/lib.rs:933-971 | Profile and topic are replaced together, the caller becomes publisher; errors in the source's order |
| Network.InMemoryNetwork.IndexDirectoryEntry | crates/agent_feed_p2p/src/lib.rs:1594-1614 | The record is filed under its user, its organisation if named, its team if both are, and its access replaces the feed's |
| Network.InMemoryNetwork.AnnounceDirectoryEntry | crates/agent_feed_p2p/src/lib.rs:973-1025 | Checks in order, own records only, then indexing and the provider role |
| Network.InMemoryNetwork.CacheDirectoryEntry | crates/agent_feed_p2p/src/lib.rs:1027-1072 | The same checks without ownership, then indexing, roles and inbox |
| Network.InMemoryNetwork.CertifyGithubOrgAccess | crates/agent_feed_p2p/src/lib.rs:1074-1100 | The caller's organisation access is replaced |
| Network.InMemoryNetwork.FollowFeed | crates/agent_feed_p2p/src/lib.rs:1198-1243 | Subscribes an admitted caller to a known, compatible feed; errors in order |
| Network.InMemoryNetwork.GrantSubscription | crates/agent_feed_p2p/src/lib.rs:1245-1277 | Adds the pair when the caller owns the feed; errors in order |
| Network.InMemoryNetwork.Remember | crates/agent_feed_p2p/src/lib.rs:1331-1334 | The trimming loop leaves the last 64 of the ring with the capsule appended |
| Network.InMemoryNetwork.FanOut | crates/agent_feed_p2p/src/lib.rs:1335-1351 | The loop over subscribers, in any order and checking each against the state as it is then, appends one copy to exactly the inboxes of the subscribers admitted and counts them |
| Network.InMemoryNetwork.PublishCapsule | crates/agent_feed_p2p/src/lib.rs:1279-1364 | Checks in order; a repeat is dropped with count 0; otherwise history and inboxes both take the capsule |
| Network.InMemoryNetwork.PublishCapsuleOnTopic | crates/agent_feed_p2p/src/lib.rs:1366-1395 | Publishing when the topic is the feed's story topic, an error otherwise |
| Network.InMemoryNetwork.DrainInbox | crates/agent_feed_p2p/src/lib.rs:1437-1455 | Hands over the whole inbox in order and empties it |
| Network.InMemoryNetwork.CheckRecord | crates/agent_feed_p2p/src/lib.rs:973-992 | The checks of a record in the source's order: caller, network, compatibility, signature, policy, access |
| Network.InMemoryNetwork.CheckCapsule | crates/agent_feed_p2p/src/lib.rs:1279-1310 | The checks of a capsule in the source's order: caller, compatibility, signature, feed, owner |
| Network.InMemoryNetwork.DiscoverGithubUser | crates/agent_feed_p2p/src/lib.rs:1102-1130 | Lists the user's records that the caller may hold, changing nothing |
| Network.InMemoryNetwork.DiscoverGithubOrg | crates/agent_feed_p2p/src/lib.rs:1132-1161 | Lists the organisation's records for its members |
| Network.InMemoryNetwork.DiscoverGithubTeam | crates/agent_feed_p2p/src/lib.rs:1163-1196 | Lists the team's records for its members |
| Network.InMemoryNetwork.FeedSnapshot | crates/agent_feed_p2p/src/lib.rs:1397-1435 | Serves the end of the ring, cut to the limit, to those the feed admits |
| Network.InMemoryNetwork.Perform | crates/agent_feed_p2p/src/lib.rs:869-1455 | Whatever the operation, the object moves as the model says, so every theorem on runs is one on this class |
| Runtime.P2pRuntime.PerformCommand | crates/agent_feed_p2p/src/lib.rs:681-857 | Registers on join, looks peers up, performs the operation and appends the event that reports it |
| Runtime.P2pRuntime.HandleCommand | crates/agent_feed_p2p/src/lib.rs:654-670 | Shutdown, refusal after shutdown, and the error event that ends a failed command |
| Runtime.P2pRuntime.DrainEvents | crates/agent_feed_p2p/src/lib.rs:672-675 | Hands over all events in order and clears them |
| RuntimeRuns.FailureIsAtomic | crates/agent_feed_p2p/src/lib.rs:654-670 | A command that returns an error leaves the network unchanged and ends by appending that error as an event; events are only appended |
| RuntimeRuns.ShutdownIsFinal | crates/agent_feed_p2p/src/lib.rs:654-661 | After a shutdown no command of any later run changes network or peers |
| RuntimeRuns.HandlesAreFixed | crates/agent_feed_p2p/src/lib.rs:837-849 | A peer once registered keeps its handle and metadata for the rest of the run |
| RuntimeRuns.IncompatiblePeersStayOut | crates/agent_feed_p2p/src/lib.rs:1492-1501 | A peer first registered with incompatible metadata never enters participants, inboxes, organisation access, subscriptions or grants |
| RuntimeRuns.RuntimeRunsAreNetworkRuns | crates/agent_feed_p2p/src/lib.rs:654-835 | Every runtime run, with events taken at any moments, ends in the network of a run of operations, and its story events, taken or not, carry exactly what that run drained |
| RuntimeRuns.RuntimeExactDelivery | crates/agent_feed_p2p/src/lib.rs:654-835 | Exact delivery seen from outside: the stories in the events taken from time to time, then in those not taken yet, then the inbox, are the restricted log |
| RuntimeEvents.CommandStandsFor | crates/agent_feed_p2p/src/lib.rs:681-857 | Which operation a command is, with which registered peers in which role, and when it is refused for an unknown one, the publisher of a grant before its subscriber |
| RuntimeEvents.CommandRaises | crates/agent_feed_p2p/src/lib.rs:654-835 | Which events a command raises: an error when a peer is unknown or the operation fails, after a rejection if it was a publish; otherwise the event that tells its result |
| RuntimeEvents.FollowEventsTell | crates/agent_feed_p2p/src/lib.rs:747-753 | In every runtime run a peer is subscribed exactly when some event, taken or not, said that it followed the feed |
| RuntimeEvents.CountEventsTell | crates/agent_feed_p2p/src/lib.rs:783-829 | In every runtime run the deliveries that publish events counted are the copies that story events handed over plus those waiting in inboxes |
| Directory.DirectoryStore.PublishRecord | crates/agent_feed_directory/src/lib.rs:1009-1031 | Errors in order; otherwise record and sequence are stored together |
| Directory.DirectoryStore.PublishForNetwork | crates/agent_feed_directory/src/lib.rs:1033-1041 | A record of another network is refused before anything else |
| Directory.AlwaysConsistent | crates/agent_feed_directory/src/lib.rs:997-1031 | After any publishes at any clock readings both maps have the same feeds and the stored sequence is that of the stored record |
| Directory.StoreHoldsNewest | crates/agent_feed_directory/src/lib.rs:1009-1031 | Each feed holds an admissible record of maximum sequence, and every feed with an admissible record is there |
| Directory.Convergence | crates/agent_feed_directory/src/lib.rs:1009-1031 | The same records in any order and with any repetition give the same store if and only if no feed has two different admissible records of its highest sequence |
| Directory.TiedPairDiverges | crates/agent_feed_directory/src/lib.rs:1020-1027 | Two different admissible records of one feed with one sequence give a different store for each order |
| DirectoryReference.PublishOutcome | crates/agent_feed_directory/src/lib.rs:1009-1031 | After any publishes at any clock readings, the next is taken if and only if the record is of the current protocol, authentic, well shaped, not yet expired and numbered above the one taken last for its feed; otherwise the first reason in order |
| DirectoryReference.TakenFromHistory | crates/agent_feed_directory/src/lib.rs:1009-1031 | The store holds, for every feed, the record taken last and its number |
| Grouping.LogicalFeedSummary | crates/agent_feed_directory/src/lib.rs:1249-1286 | The summary loop collects exactly the ids, peers and kinds of the group, its size and its newest last-seen time |
| Grouping.VisibleEntriesForRoute | crates/agent_feed_directory/src/lib.rs:1073-1095 | The loop returns the public records of the user on the route's network that the filter permits, narrowed; its owner error never arises |
| Grouping.GroupLogicalFeeds | crates/agent_feed_directory/src/lib.rs:1139-1156 | The grouping loops return one summary per label, of exactly the records with that label |
| Grouping.Earliest | crates/agent_feed_directory/src/lib.rs:1253-1258 | The owner shown is that of the record first by last-seen time and then feed id |
| Grouping.SummaryIgnoresOrder | crates/agent_feed_directory/src/lib.rs:1249-1286 | A summary does not depend on the order of the records |
| Grouping.GroupingIsPartition | crates/agent_feed_directory/src/lib.rs:1139-1156 | Labels are those of the records, feed ids are disjoint and complete, each summary counts its records and the counts of all summaries add up to them, last-seen is the group maximum |
| Grouping.FeedsIgnoreOrder | crates/agent_feed_directory/src/lib.rs:1139-1156 | The logical feeds do not depend on the order in which records are read |
| Grouping.RouteFeedsArePartition | crates/agent_feed_directory/src/lib.rs:1073-1156 | From any consistent store, the logical feeds of a route partition exactly the records it may show, with counts that add up, for every iteration order |
| Grouping.ShownExactly | crates/agent_feed_directory/src/lib.rs:1073-1095 | A record is in a route's result exactly when it is a stored public record of the user on the route's network with a wanted label, narrowed to its streams that fit, in order |
| Grouping.NarrowedExactly | crates/agent_feed_directory/src/lib.rs:1288-1301 | The streams kept are those of a wanted label, of settled stories without raw events, and of one of the agents and story kinds asked for |
| Routes.LoginParsesExactly | crates/agent_feed_identity/src/lib.rs:20-28 | A text parses as a login if and only if it is that valid login behind whitespace and at-signs and before whitespace |
| Routes.ParsedRouteIsSound | crates/agent_feed_directory/src/lib.rs:65-141 | A parsed route has a valid login and a printable selection that agrees with its stream filter |
| Routes.PrintParses | crates/agent_feed_directory/src/lib.rs:214-221 | Every valid login and printable selection prints to a path that parses to exactly that |
| Routes.RoutePrintsAndParses | crates/agent_feed_directory/src/lib.rs:65-141 | Every route parsed from any path and query prints to a path that parses back to the same login and selection |
| Routes.WhatPrintingKeeps | crates/agent_feed_directory/src/lib.rs:191-221 | Parsing the print back keeps the stream filter exactly when that is not a list of two or more labels, network and score exactly when they are the defaults |
| RouteRules.ParsesExactly | crates/agent_feed_directory/src/lib.rs:65-141 | A path and a query parse to a route if and only if they name it: one or two pieces between slashes, the login spelled, the selection by path, then the flag `all`, then `streams`, the network, and the score written as a byte or 75 |
| RouteRules.PathExactly | crates/agent_feed_directory/src/lib.rs:66-81 | The path is one or two non-empty pieces, not hidden, without percent signs, within slashes |
| RouteRules.StreamsExactly | crates/agent_feed_directory/src/lib.rs:280-289 | What a `streams` value selects: everything, its one label, or those labels |
| RouteRules.ByteExactly | crates/agent_feed_directory/src/lib.rs:104-112 | A score is read exactly from a byte in decimal, behind an optional plus sign and zeros |
| RouteRules.AsksExactly | crates/agent_feed_directory/src/lib.rs:1405-1424 | A parameter has the value of the first part that names it |
| Policy.OrgRouteWithinPolicy | crates/agent_feed_edge/src/lib.rs:1950-1961 | After the session checks of an organisation or team route, whatever its own rule shows is within the session policy |
| EdgeReads.OrgRouteOmitsExactly | crates/agent_feed_edge/src/lib.rs:759-803 | Of the fresh stored records an admitted session may see, an organisation or team route omits exactly those for everybody, for single users, of other organisations or of teams it does not name, and those its filters reject |
| Policy.PublishedIsReadable | crates/agent_feed_edge/src/lib.rs:1703-1807 | What a session is granted to publish under, the same session may read, and access and visibility fit |
| Snapshot.SnapshotStore.Upsert | crates/agent_feed_edge/src/lib.rs:647-663 | Stale feeds go, the feed is replaced in place or appended, the oldest beyond 48 go |
| Snapshot.SnapshotStore.PushHeadline | crates/agent_feed_edge/src/lib.rs:665-705 | Stale headlines are refused; the feed view is upserted; a repeated story is refused; the oldest beyond 48 go |
| Snapshot.UpsertFeedView | crates/agent_feed_edge/src/lib.rs:930-939 | The search loop replaces the first feed of that id in place, or appends |
| Snapshot.MergeResolveFeedViews | crates/agent_feed_edge/src/lib.rs:465-475 | The loop appends the feeds whose id is not listed yet |
| Snapshot.FeedViewsFromHeadlines | crates/agent_feed_edge/src/lib.rs:448-463 | One view per feed id, from its first headline |
| Snapshot.StoreIsWellFormed | crates/agent_feed_edge/src/lib.rs:647-705 | From an empty store, after any updates at any clock readings: distinct feed ids, distinct stories, at most 48 of each |
| EdgeReads.ReadsCoverHeadlines | crates/agent_feed_edge/src/lib.rs:707-872 | Every read lists each feed once, lists a feed for every headline it returns, and lists nothing else |
| EdgeReads.DiscoveryIsNeverCut | crates/agent_feed_edge/src/lib.rs:722-739 | The cut of the discovery read never removes anything |
| EdgeReads.OrgRouteReadsWithinPolicy | crates/agent_feed_edge/src/lib.rs:759-803 | All feeds and headlines read for an admitted organisation or team route are within the session policy |
| EdgeReads.UserRouteReadsWithinPolicy | crates/agent_feed_edge/src/lib.rs:805-872 | All feeds and headlines read for a user route are within the policy for the session, or for none |
| EdgeReads.OrgResponseIsFit | crates/agent_feed_edge/src/lib.rs:1397-1472 | The assembled response of an admitted organisation or team route lists each feed once, covers its headlines and stays within the policy |
| EdgeReads.UserResponseIsFit | crates/agent_feed_edge/src/lib.rs:1316-1377 | The same for the assembled response of a user route |
| EdgeReads.FallbackIsFit | crates/agent_feed_edge/src/lib.rs:2105-2229 | The same for the response built from the snapshot alone when the login cannot be resolved |
| EdgeReads.PublicSnapshotIgnoresPrivate | crates/agent_feed_edge/src/lib.rs:2231-2261 | Erasing every non-public record from any one store leaves the public snapshot unchanged |
| EdgeListing.UserHeadlinesExactly | crates/agent_feed_edge/src/lib.rs:1838-1852 | The headlines of a user's response are, in stored order, exactly the stored ones that are fresh, readable for the session, permitted by filter, reel and screen, and told by the user: by id, or without an id by login ignoring case |
| EdgeListing.UserFeedsExactly | crates/agent_feed_edge/src/lib.rs:1854-1866 | The feeds read for a user: the stored ones that are fresh, readable, of a wanted name and the user's by id or by login, and those of the headlines |
| EdgeListing.OrgHeadlinesExactly | crates/agent_feed_edge/src/lib.rs:1934-1961 | The headlines of an organisation or team response, exactly, under its own rule |
| EdgeListing.OrgFeedsExactly | crates/agent_feed_edge/src/lib.rs:1923-1961 | The feeds read for an organisation or team, exactly |
| EdgeListing.PublicHeadlinesExactly | crates/agent_feed_edge/src/lib.rs:2231-2261 | The headlines of the public snapshot, exactly |
| EdgeListing.PublicFeedsExactly | crates/agent_feed_edge/src/lib.rs:2231-2261 | The feeds of the public snapshot, exactly |
| EdgeListing.MayReadExactly | crates/agent_feed_edge/src/lib.rs:1868-1913 | What a session may read: public records, and those whose users, organisation or team it belongs to |
| EdgeListing.FallbackExactly | crates/agent_feed_edge/src/lib.rs:2105-2229 | Whom the fallback answers for, when it answers nothing, and which headlines it lists |
| EdgeErasure.UpsertHidesNothingIffKept | crates/agent_feed_edge/src/lib.rs:653-658 | One upsert leaves the public feeds as they would be without private ones exactly when it takes no public place, moves no public feed and has room |
| EdgeErasure.AddHidesNothingIffKept | crates/agent_feed_edge/src/lib.rs:686-697 | The same for one headline: no public story refused for a private one, and room |
| EdgeErasure.ErasureExactlyAnyClock | crates/agent_feed_edge/src/lib.rs:647-705 | Over every run, whatever the clock does: after every update the public records of the store are the store of the run without private updates, if and only if no update loses anything public in the store it meets |
| EdgeErasure.StepErasesExactly | crates/agent_feed_edge/src/lib.rs:647-705 | One update and erasing the private records commute if and only if the update loses nothing public: it hides nothing and, if private, prunes nothing public |
| EdgeErasure.SnapshotIgnoresLosslessUpdates | crates/agent_feed_edge/src/lib.rs:2231-2261 | For a run that loses nothing, every public snapshot, at any reading past or future, is that of the run without private updates |
| EdgeErasure.ErasureExactly | crates/agent_feed_edge/src/lib.rs:647-705 | With a clock that does not step back, the fresh public records are at every moment those of the run without private updates if and only if no update hides anything public; what is pruned is stale for every reader |
| EdgeErasure.SnapshotIgnoresPrivateUpdates | crates/agent_feed_edge/src/lib.rs:2231-2261 | With a clock that does not step back, for a run that hides nothing every later public snapshot is that of the run without private updates |
| EdgeHiding.SeparateFeedsHideNothing | crates/agent_feed_edge/src/lib.rs:647-705 | No feed id used both publicly and privately, and no eviction: nothing is hidden |
| EdgeHiding.PrivateUpdatesInvisibleExactly | crates/agent_feed_edge/src/lib.rs:2231-2261 | For every run whose public acts are not local and whose public headlines the screen accepts: after every update the snapshots at all readings are those of the erased run, if and only if nothing is lost |
| EdgeHiding.PrivateUpdatesUnnoticedInOrder | crates/agent_feed_edge/src/lib.rs:2231-2261 | With a clock that does not step back and readers at the moment of each update: the same, if and only if nothing is hidden |
| EdgeHiding.SameIdReplaced | crates/agent_feed_edge/src/lib.rs:930-939 | A run in which a private feed takes the place of a public one |
| EdgeHiding.SameStoryRefused | crates/agent_feed_edge/src/lib.rs:686-693 | A run in which a private story makes the edge refuse the same public story |
| EdgeHiding.PublicFeedEvicted | crates/agent_feed_edge/src/lib.rs:656-658 | A run in which private feeds push a public one out |
| EdgeHiding.ClockStepsBack | crates/agent_feed_edge/src/lib.rs:653-655 | A run in which a private update at a later reading prunes a public feed that an earlier reading would still show |
| EdgePublish.PublishCapsules | crates/agent_feed_edge/src/lib.rs:1640-1686 | The loop pushes capsules in order until one is refused; those before it stay |
| EdgePublish.NetworkPublishVerified | crates/agent_feed_edge/src/lib.rs:1570-1701 | Checks in order; the feed is registered before the batch size is looked at |
| EdgePublish.PublishedRecordsAreReadable | crates/agent_feed_edge/src/lib.rs:1570-1701 | Whatever a request leaves in the store, accepted or refused part-way, was there before or is readable by the session that sent it |
| EdgePublish.ServedStoreIsUpdated | crates/agent_feed_edge/src/lib.rs:1570-1701 | Any run of publish requests, whatever is refused, is a run of updates of the store, so what is proved of those holds |
| EdgePublish.ServedStoreIsWellFormed | crates/agent_feed_edge/src/lib.rs:1570-1701 | After any requests by any sessions: distinct feed ids, distinct stories, both bounds |
| EdgeUpdates.PushedExactly | crates/agent_feed_edge/src/lib.rs:665-705 | A push takes a headline exactly when it is not older than 45 minutes and no stored fresh one has its feed, headline and deck; what is stored afterwards, in order |
| EdgeUpdates.PushedFeed | crates/agent_feed_edge/src/lib.rs:665-684 | A push of a fresh headline registers its feed under the headline's own name, visibility, access and publisher |
| EdgeUpdates.UpsertedExactly | crates/agent_feed_edge/src/lib.rs:647-663 | An upsert prunes what was not seen for 15 minutes, replaces the feed where it stands or appends it, and keeps the last 48 |
| EdgeUpdates.RequestOutcome | crates/agent_feed_edge/src/lib.rs:1570-1701 | A request is accepted exactly when network, protocol, policy and publisher are right, it brings at most 16 capsules and each is acceptable; otherwise the first reason in order |
| EdgeUpdates.NewHeadlinesComeFromUploads | crates/agent_feed_edge/src/lib.rs:1640-1686 | Every headline a request adds has the feed, headline, deck, score, time and publisher of one of its uploads, before the first that is not acceptable, under the name and policy of the request |
| EdgeUpdates.CountIsTaken | crates/agent_feed_edge/src/lib.rs:1640-1686 | The count a request reports is the number of uploads whose push was taken |
| EdgeUpdates.PolicyGrantsExactly | crates/agent_feed_edge/src/lib.rs:1703-1807 | What a session may publish under: everybody publicly; with the organisation scope, an organisation or team it belongs to, as spelled in the request; nothing else |
| EdgeUpdates.TeamRefusedExactly | crates/agent_feed_edge/src/lib.rs:1744-1807 | Why a session may not publish under a team: the first of scope, missing texts, texts that name nothing, membership |
| Codec.EdgePercentEncode | crates/agent_feed_edge/src/lib.rs:2781-2791 | The encoding loop produces the byte-wise encoding |
| Codec.CliUrlDecode | crates/agent_feed_auth_github/src/lib.rs:364-381 | The index loop decodes as the recursive decoder does, with the same failures |
| Codec.EncodersAgree | crates/agent_feed_auth_github/src/lib.rs:351-362 | The edge's and the command line's encoders are the same function on all byte strings |
| Codec.EncodedIsPlain | crates/agent_feed_edge/src/lib.rs:2781-2791 | Encoded text contains no separator and no plus sign |
| Codec.DecodeEncoded | crates/agent_feed_auth_github/src/lib.rs:364-381 | Decoding an encoded text gives the text back, whatever bytes it holds |
| Codec.QueryRoundTrip | crates/agent_feed_edge/src/lib.rs:2773-2779 | For every parameter list, the command line reads from the edge's query exactly the parameters written, the last of a repeated key winning |
| Codec.DistinctParamsAllSurvive | crates/agent_feed_auth_github/src/lib.rs:340-349 | With distinct keys nothing is overwritten and nothing is added |
| Codec.ClaimsRoundTrip | crates/agent_feed_auth_github/src/lib.rs:281-288 | A joined claim list splits back to itself exactly when every claim is non-empty, trimmed and free of the separator |
| Codec.DecodesExactly | crates/agent_feed_auth_github/src/lib.rs:364-381 | The decoder returns bytes exactly for the texts that spell them: percent and a pair of digits in either case (or a plus sign and a digit), plus for a space, anything else for itself |
| Codec.EncodesExactly | crates/agent_feed_edge/src/lib.rs:2781-2791 | The encoders write exactly a plain byte for itself and any other as percent and two upper-case digits |
| Codec.QueryExactly | crates/agent_feed_auth_github/src/lib.rs:340-349 | A query gives a key the value of the last part that spells both; parts that spell nothing are skipped |
| Tailing.SplitCompleteJsonl | crates/agent_feed_cli/src/main.rs:7812-7824 | The buffer is cut just after its last newline |
| Tailing.CutIsUnique | crates/agent_feed_cli/src/main.rs:7812-7824 | That cut is the only one into whole lines and a newline-free rest |
| Tailing.CutContinues | crates/agent_feed_cli/src/main.rs:6563-6569 | Cutting pending text with a new chunk continues the cut of all text read so far |
| Tailing.Watcher.ImportChunk | crates/agent_feed_cli/src/main.rs:6648-6754 | The line loop imports the trimmed, non-empty lines once each and in order |
| Tailing.Watcher.PollFile | crates/agent_feed_cli/src/main.rs:6510-6646 | One poll, told a length first and reading the content afterwards: a shrunken file restarts, a processor-owned chunk is skipped, otherwise finished lines are imported and the rest is pending |
| Tailing.TailingIsExact | crates/agent_feed_cli/src/main.rs:6510-6646 | However growth is cut into polls, the watcher stands where one import of the text up to its offset would put it |
| Tailing.DecodedPollReachesEnd | crates/agent_feed_cli/src/main.rs:6563-6569 | A last poll that can decode what it reads reaches the end of the file |
| Tailing.ChunkIndependence | crates/agent_feed_cli/src/main.rs:7483-7576 | Two ways of polling the same file to its end leave the same watcher: same events, adapter state and pending text |
| Tailing.FedIsImported | crates/agent_feed_cli/src/main.rs:6519-6569 | Whatever is appended between the length and the content of polls, the watcher has imported the finished lines of the text fed to it, once and in order |
| Tailing.FedOnceIff | crates/agent_feed_cli/src/main.rs:6519-6569 | That text is the text of the file up to the offset if and only if no poll that reads finds more than the length it was told |
| Tailing.LinesInBetweenComeTwice | crates/agent_feed_cli/src/main.rs:6519-6569 | Whole lines appended in between are imported twice, which shows unless they are blank |
| Tailing.HistoryThenTailExactly | crates/agent_feed_cli/src/main.rs:6756-6815 | From any offset, lines in the file and lines tailed later are those of the whole file if and only if the offset splits no line |
| Tailing.HistoryThenTail | crates/agent_feed_cli/src/main.rs:6756-6815 | From such an offset, importing the history and tailing is one import of the whole file, for every adapter |
| Tailing.RecorderTellsSplits | crates/agent_feed_cli/src/main.rs:6756-6815 | From every other offset an adapter that reports lines as they come sees something else |
| Tailing.LinesWithNewline | crates/agent_feed_cli/src/main.rs:6756-6815 | What is seen when the cut line is finished: its two parts, each trimmed, in place of the one |
| Tailing.LinesWithoutNewline | crates/agent_feed_cli/src/main.rs:6756-6815 | What is seen while the cut line is unfinished: its first part, early |
| Tailing.HistoryThenPolls | crates/agent_feed_cli/src/main.rs:6510-6646 | A watcher that imported a file and then polled it while it grew has imported the finished lines of the final file once each, provided its start split no line |
| Tailing.MidLineStartSplitsLine | crates/agent_feed_cli/src/main.rs:6756-6815 | A file and an offset inside its first line for which the line is seen as two |
| Tailing.PollsFollowTale | crates/agent_feed_cli/src/main.rs:6519-6608 | For runs with processor-owned chunks, told from the readings alone: offset and pending line follow all text read; imported are the finished lines of exactly the chunks not owned, up to the first owned chunk that is confirmed; internal exactly from then on |
| Tailing.OwnedChunksAreSkipped | crates/agent_feed_cli/src/main.rs:6570-6608 | The same poll by poll: the chunks imported are those that met a watcher not yet internal and were not owned |
| Tailing.InternalImportsNothing | crates/agent_feed_cli/src/main.rs:6570-6608 | Once internal, nothing more is imported however the file grows |
| Tailing.ShrunkFileRestarts | crates/agent_feed_cli/src/main.rs:6519-6531 | A file shorter than the offset is taken up from its start, no longer internal, with events and adapter state kept |
| Publisher.ServePublisher.PublishStoryBatch | crates/agent_feed_cli/src/main.rs:2674-2765 | Summaries are remembered before signing; numbers advance before the post; a failure at any stage is reported |
| Publisher.ServePublisher.RememberCapsules | crates/agent_feed_cli/src/main.rs:2506-2512 | The loops leave the newest capsules first, cut to the window |
| Publisher.ServePublisher.TakeTurn | crates/agent_feed_cli/src/main.rs:2343-2568 | One turn of the loop: receive, presence and replay, publish, requeue on failure |
| Publisher.SignAll | crates/agent_feed_cli/src/main.rs:5777-5808 | Capsules of a batch carry consecutive numbers from the start, in order; one failure fails the batch |
| Publisher.NoStoryLostOrReordered | crates/agent_feed_cli/src/main.rs:2335-2568 | With batches failing at any stage, stories received are, in order, those of the batches that came back Ok, then those pending |
| Publisher.SequenceNumbersAreFresh | crates/agent_feed_cli/src/main.rs:2731-2738 | Capsules posted for the first time are numbered 1, 2, 3, and so on across failures and retries; the next number is unused |
| Publisher.ReplayBufferIsNewestAcknowledged | crates/agent_feed_cli/src/main.rs:2502-2512 | The replay buffer is exactly the newest acknowledged capsules, cut to its bound |
| Publisher.ReplayBufferSize | crates/agent_feed_cli/src/main.rs:2509-2512 | It holds all capsules ever acknowledged, up to the larger of the window and 8 |
| Publisher.RecentSummariesAreNewest | crates/agent_feed_cli/src/main.rs:2724-2729 | The recent summaries are exactly the newest ones, then the seed, cut to the window |
| Publisher.ReplaysWereAcknowledged | crates/agent_feed_cli/src/main.rs:2379-2403 | Every replay sends only capsules the edge had accepted in an earlier batch |
| Publisher.UrgentSinceFailing | crates/agent_feed_cli/src/main.rs:2470-2567 | If the queue is urgent after a run, every turn from the one that made it urgent to the last one tried to publish it and failed |
| PublisherReference.RunExactly | crates/agent_feed_cli/src/main.rs:2335-2568 | After any turns, queue, remembered summaries, replay buffer, next number and everything sent are what the history says: when a batch is due (interval, eight stories, or a score of 90), when it succeeds, which numbers it carries, and what a replay repeats |
| PublisherReference.TurnExactly | crates/agent_feed_cli/src/main.rs:2343-2568 | One more turn takes that history to the next |
| EdgeLoop.LoopRunsAlone | crates/agent_feed_cli/src/main.rs:2335-2568 | With the endpoint's own answers, as far as they arrive, the loop makes a run of the loop alone, so what is proved of those holds |
| EdgeLoop.AcceptedIffTakes | crates/agent_feed_edge/src/lib.rs:1570-1701 | Whether the edge accepts a request depends on the request alone: network, compatibility, policy, publisher, at most 16 capsules, all of which pass |
| EdgeLoop.NoHeadlineListedTwice | crates/agent_feed_edge/src/lib.rs:686-693 | Over every run of loop and edge, also after requests refused part-way, lost answers and retries, no headline and deck of a feed is listed twice |
| EdgeLoop.LostAnswerKeepsBoth | crates/agent_feed_cli/src/main.rs:2784-2786 | A batch whose answer is lost is at the edge and still in the queue |
| EdgeLoop.RetriedStoryListedAgain | crates/agent_feed_cli/src/main.rs:2674-2765 | One story retried after a lost answer is listed once if the retry has the same headline and deck, and twice otherwise |
| EdgeLoop.TurnDrainsIffDelivers | crates/agent_feed_cli/src/main.rs:2470-2567 | A turn that publishes empties the queue if and only if its attempt is summarised, signed and, unless empty, taken by the edge with an answer that arrives; it keeps the queue whole otherwise |
| EdgeLoop.StuckIffNothingDelivered | crates/agent_feed_cli/src/main.rs:2335-2568 | The queue holds all stories received, in order, if and only if no attempt of the run got through |
| EdgeLoop.OversizeBatchesStayQueued | crates/agent_feed_edge/src/lib.rs:1634-1639 | While every summary batch exceeds 16, nothing ever leaves the queue |
| EdgeLoop.ReplayTakenIff | crates/agent_feed_cli/src/main.rs:2379-2403 | A replay is acknowledged exactly when it is answered and the edge takes the buffer, which it does for at most 16 capsules |
| EdgeLoop.ReplayTooLargeIff | crates/agent_feed_cli/src/main.rs:2509-2512 | After any run the buffer exceeds 16 if and only if the window does and more than 16 capsules were ever acknowledged |
| EdgeLoop.ReplaysRefusedForGood | crates/agent_feed_cli/src/main.rs:2379-2403 | From then on no replay of any later turn is taken |
| EdgeLoop.TwoBatchesOutgrowReplays | crates/agent_feed_cli/src/main.rs:2504-2512 | A run of two accepted batches, of 16 and 1, after which the buffer is too large |
| Messages.TranscriptMemory.RememberMessage | crates/agent_feed_adapters/src/lib.rs:271-288 | Reported exactly when the fingerprint is empty or not remembered; the memory keeps the last 64 |
| Messages.FingerprintIsStable | crates/agent_feed_adapters/src/lib.rs:1072-1086 | A fingerprint is its own fingerprint |
| Messages.MemoryIsEndOfLog | crates/agent_feed_adapters/src/lib.rs:271-288 | The memory is exactly the last 64 fingerprints ever remembered |
| Messages.RepeatsAreFarApart | crates/agent_feed_adapters/src/lib.rs:271-288 | Two remembered messages with one fingerprint are more than 64 remembered messages apart |
| MessageRules.ReportedExactly | crates/agent_feed_adapters/src/lib.rs:271-288 | After any messages, the next is reported exactly when it has no words, or other words than each of the last 64 kept |
| MessageRules.FingerprintsExactly | crates/agent_feed_adapters/src/lib.rs:1072-1086 | Two messages have one fingerprint exactly when they have the same words, ignoring ASCII case and punctuation |
| Sentences.ClampWords | crates/agent_feed_adapters/src/lib.rs:204-223 | The word loop returns the first words joined, with the ellipsis or full stop that is due |
| Sentences.ClampAddsNoNeedle | crates/agent_feed_adapters/src/lib.rs:204-223 | A whitespace-free needle in the clamped sentence was in the text already |
| Sentences.PlainSentenceIsSafe | crates/agent_feed_adapters/src/lib.rs:140-163 | A returned sentence is non-empty, has at most 24 words, ends in a stop and mentions no whitespace-free unsafe word |
| Sentences.SummarySentenceIsSafe | crates/agent_feed_adapters/src/lib.rs:117-138 | The same for sentences built from processor summaries, whatever the JSON says |
| Sentences.AgentSentenceIsSafe | crates/agent_feed_adapters/src/lib.rs:74-115 | The same for every agent text |
| Sentences.PhraseAppearsIffAcross | crates/agent_feed_adapters/src/lib.rs:74-115 | A two-word phrase appears in a clamped sentence exactly when two neighbouring kept words carry its halves at their facing ends |
| Sentences.ApiKeyCanAppear | crates/agent_feed_adapters/src/lib.rs:140-163 | An input that passes the screening although its sentence contains a screened phrase |
| SentenceRules.SummaryExactly | crates/agent_feed_adapters/src/lib.rs:117-138 | A summary gives a sentence if and only if an object is found in it and parses to a headline that is not blank, publish is not false, headline and deck are not low-signal, and the assembled text is neither blank nor sensitive; and which sentence it is |
| SentenceRules.SummaryWords | crates/agent_feed_adapters/src/lib.rs:117-138 | Its words are those of the headline, and after a full stop those of the deck when it is shown |
| SentenceRules.AgentExactly | crates/agent_feed_adapters/src/lib.rs:74-115 | An agent's text displays exactly what its first line of prose does: the summary in it, or itself when it does not look like a summary and mentions nothing sensitive |
| SentenceRules.WithheldSummaryIsSilent | crates/agent_feed_adapters/src/lib.rs:87-92 | A line that looks like a summary but tells no story, or is withheld, displays nothing |
| SentenceRules.UnsafeExactly | crates/agent_feed_adapters/src/lib.rs:101-114 | The screening withholds exactly texts that mention one of nine listed phrases in any ASCII case |
| SentenceRules.LowSignalExactly | crates/agent_feed_adapters/src/lib.rs:181-202 | Low-signal are exactly headline and deck that mention one of eleven listed phrases |
| SentenceRules.ObjectExactly | crates/agent_feed_adapters/src/lib.rs:165-169 | The object is the text from the first opening to the last closing brace |
| SentenceRules.ClampExactly | crates/agent_feed_adapters/src/lib.rs:204-223 | A text reads as all its words and a full stop if needed, or as its first 24 and an ellipsis |
| SentenceRules.WordsExactly | crates/agent_feed_adapters/src/lib.rs:204-223 | Its words are exactly those that lie between runs of whitespace |

## Left out

- Network, process and file access, HTTP shells and status codes, logging and status posts: only the decisions and state changes behind them are modelled.
- Persistence of the edge snapshot: the source writes public headlines only when a feed is upserted, so no equality of disk and memory is claimed.
- Cryptography, serialisation, topic derivation and text similarity: uninterpreted parameters.
- Wall clocks: readings are parameters, not assumed to increase. Within one read of the edge the views of headlines share one reading; the source takes one per headline.
- Threads and poisoned locks: each peer operation is one step; the check and the indexing of a directory record, which take the lock twice, are one step.
- Integer widths: sequence numbers and scores are unbounded naturals; the 8-bit bound of `min_score` is modelled.
- Texts of error messages, and ordered maps and sets: ordered containers appear as maps and sets, and an order of iteration as an arbitrary enumeration.
- `can_follow` and `can_receive_peer` (crates/agent_feed_p2p/src/lib.rs:1616-1689) have one text in the source and are one predicate here.
- Known peers, participation and handoff listings, transport and bootstrap configuration: reads without branching.
- Route parameters that play no part in printing (layout, reel filters, agent and story kinds, privacy notices) are not parsed; kind filters and reel filters enter reads as arbitrary predicates.
- Grouping.VisibleEntriesForRoute: the organisation variant (crates/agent_feed_directory/src/lib.rs:1097-1177) groups the same way and is left out.
- Organisation and user responses start from an empty directory, as the edge's handlers do; resolving a login at GitHub is not part of this model.
- EdgeErasure.ErasureExactly: the converse needs feeds that are registered with a time still fresh, which the source always does; without it a stale feed is hidden from both runs.
- EdgeLoop.NoHeadlineListedTwice: the edge starts empty and serves this publisher only; other sessions are covered by EdgePublish.ServedStoreIsWellFormed.
- RuntimeRuns.RuntimeExactDelivery: peers made directly from the runtime's network, beside its commands, are not part of the run.
- EdgeReads.FallbackIsFit: covers feeds and headlines of the response; its profile fields are left out.
- Tailing.Watcher.PollFile: a file is a sequence of characters and offsets count them; bytes that do not decode are the `decodable` parameter. The Claude watcher is the Codex watcher without the processor flag.
- Tailing.Watcher.ImportOne: the results of posting an event to the server are left out; the events posted are those attempted.
- Publisher.ServePublisher.TakeTurn: the publishing interval and the presence interval are inputs of a turn; a disconnected channel is the end of a run; status reports are left out.
- Transcript normalisation beyond message memory and display sentences (call contexts, working directories, project names), startup recap, keyword tables and capability tables: finite tables and heuristics.
- Unicode case folding plays no part: the source folds ASCII case only; whitespace is the Unicode set.
