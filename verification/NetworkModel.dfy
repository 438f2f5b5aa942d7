/** The in-memory feed network as a value: its state, the access predicates that read it,
    and what each peer operation does to it. `Network.dfy` holds the mutable network whose
    methods are proved to follow these functions. */
module NetworkModel {
  import opened Prelude
  import opened Proto

  const HISTORY_CAPACITY: nat := 64
  const DUPLICATE_WINDOW: nat := 24

  datatype Role = Fabric | Publisher | Subscriber | Bootstrap | Relay | BrowserHandoff | Rendezvous | KadProvider

  /** A peer handle. Its identity and compatibility metadata never change. */
  datatype Peer = Peer(networkId: NetworkId, id: PeerId, principal: string, compatibility: Compatibility)

  datatype Participation = Participation(peer: Peer, roles: set<Role>, handoffAddrs: seq<string>)

  datatype OrgAccess = OrgAccess(org: string, teams: set<string>)

  datatype State = State(
    feeds: map<FeedId, Profile>,
    topics: map<FeedId, string>,
    directory: map<UserId, map<FeedId, Entry>>,
    orgDirectory: map<string, map<FeedId, Entry>>,
    teamDirectory: map<(string, string), map<FeedId, Entry>>,
    feedAccess: map<FeedId, AccessPolicy>,
    participants: map<PeerId, Participation>,
    orgAccess: map<PeerId, OrgAccess>,
    subscriptions: map<FeedId, set<PeerId>>,
    grants: set<(FeedId, PeerId)>,
    inboxes: map<PeerId, seq<Capsule>>,
    history: map<FeedId, seq<Capsule>>)

  const EMPTY := State(map[], map[], map[], map[], map[], map[], map[], map[], map[], {}, map[], map[])

  datatype P2pError =
    | PeerNotFound(peer: PeerId)
    | FeedNotFound(feed: FeedId)
    | SubscriptionDenied(what: string)
    | InvalidSignature
    | InvalidStoryTopic(topic: string)
    | IncompatibleProtocol
    | Proto
    | Directory(error: DirectoryError)

  datatype Output =
    | Done
    | Delivered(count: nat)
    | Capsules(capsules: seq<Capsule>)
    | Records(entries: map<FeedId, Entry>)
    | Failed(error: P2pError)

  datatype Op =
    | Join(peer: Peer, roles: set<Role>)
    | Handoff(peer: Peer, addrs: seq<string>)
    | AnnounceFeed(peer: Peer, profile: Profile)
    | AnnounceEntry(peer: Peer, entry: Entry)
    | CacheEntry(peer: Peer, entry: Entry)
    | Certify(peer: Peer, org: string, teams: set<string>)
    | DiscoverUser(peer: Peer, user: UserId)
    | DiscoverOrg(peer: Peer, org: string)
    | DiscoverTeam(peer: Peer, org: string, team: string)
    | Follow(peer: Peer, feed: FeedId)
    | Grant(peer: Peer, feed: FeedId, subscriber: Peer)
    | Publish(peer: Peer, capsule: Capsule)
    | PublishOnTopic(peer: Peer, topic: string, capsule: Capsule)
    | Snapshot(peer: Peer, feed: FeedId, limit: nat)
    | Drain(peer: Peer)

  datatype Step = Step(state: State, output: Output)

  function Lookup<K, V>(m: map<K, V>, k: K, default: V): V {
    if k in m then m[k] else default
  }

  // ---- access predicates ----

  predicate HoldsOrg(s: State, peer: PeerId, org: string) {
    peer in s.orgAccess && s.orgAccess[peer].org == org
  }

  predicate HoldsTeam(s: State, peer: PeerId, org: string, team: string) {
    HoldsOrg(s, peer, org) && team in s.orgAccess[peer].teams
  }

  predicate CanCacheEntry(s: State, peer: PeerId, entry: Entry) {
    match entry.visibility
    case Public => true
    case GithubOrg => entry.access.org.Some? && HoldsOrg(s, peer, entry.access.org.value)
    case GithubTeam =>
      && entry.access.org.Some? && entry.access.team.Some?
      && HoldsTeam(s, peer, entry.access.org.value, entry.access.team.value)
    case _ => false
  }

  /** Both the follow gate and the delivery gate: the two are written out twice in the source
      with one text. A grant is consulted before the visibility, and `GithubUser`,
      `GithubRepo` and `Private` feeds admit grant holders only. */
  predicate CanReceive(s: State, feed: FeedId, peer: PeerId, visibility: Visibility) {
    if visibility == Public then true
    else if (feed, peer) in s.grants then true
    else if feed !in s.feedAccess then false
    else
      var access := s.feedAccess[feed];
      match visibility
      case GithubOrg => access.org.Some? && HoldsOrg(s, peer, access.org.value)
      case GithubTeam =>
        && access.org.Some? && access.team.Some?
        && HoldsTeam(s, peer, access.org.value, access.team.value)
      case _ => false
  }

  function Subscribers(s: State, feed: FeedId): set<PeerId> {
    Lookup(s.subscriptions, feed, {})
  }

  /** The peers a capsule published now on `feed` is delivered to. */
  function Recipients(s: State, feed: FeedId, visibility: Visibility): set<PeerId> {
    set p | p in Subscribers(s, feed) && CanReceive(s, feed, p, visibility)
  }

  // ---- duplicate suppression ----

  predicate Repeats(oracle: Oracle, recent: Capsule, capsule: Capsule) {
    && recent.kind == capsule.kind
    && oracle.similarity(recent.headline, capsule.headline) >= 88
    && (|| oracle.similarity(recent.headline, capsule.headline) == 100
        || oracle.similarity(recent.deck, capsule.deck) >= 82)
  }

  predicate IsDuplicate(oracle: Oracle, history: seq<Capsule>, capsule: Capsule) {
    && capsule.score < 90
    && exists recent :: recent in LastN(history, DUPLICATE_WINDOW) && Repeats(oracle, recent, capsule)
  }

  // ---- building blocks of the operations ----

  function Enrol(s: State, peer: Peer, roles: set<Role>): State {
    s.(participants := s.participants[peer.id := WithRoles(Lookup(s.participants, peer.id, Participation(peer, {}, [])), roles)])
  }

  function WithRoles(current: Participation, roles: set<Role>): Participation {
    current.(roles := current.roles + roles)
  }

  function ListAddrs(s: State, peer: PeerId, addrs: seq<string>): State
    requires peer in s.participants
  {
    s.(participants := s.participants[peer := s.participants[peer].(handoffAddrs := addrs)])
  }

  function AddFeed(oracle: Oracle, s: State, profile: Profile): State {
    s.(topics := s.topics[profile.feedId := oracle.feedTopic(profile.networkId, profile.feedId)],
       feeds := s.feeds[profile.feedId := profile])
  }

  function Subscribe(s: State, feed: FeedId, peer: PeerId): State {
    s.(subscriptions := s.subscriptions[feed := Subscribers(s, feed) + {peer}])
  }

  function OpenInbox(s: State, peer: PeerId): State {
    s.(inboxes := s.inboxes[peer := Lookup(s.inboxes, peer, [])])
  }

  function IndexUnder<K>(index: map<K, map<FeedId, Entry>>, key: K, entry: Entry): map<K, map<FeedId, Entry>> {
    index[key := Lookup(index, key, map[])[entry.feedId := entry]]
  }

  /** The record is filed under its owner always, under its organisation when it names one,
      and under its team when it names both. */
  function IndexEntry(s: State, entry: Entry): State {
    s.(feedAccess := s.feedAccess[entry.feedId := entry.access],
       directory := IndexUnder(s.directory, entry.owner.userId, entry),
       orgDirectory :=
         if entry.access.org.Some? then IndexUnder(s.orgDirectory, entry.access.org.value, entry)
         else s.orgDirectory,
       teamDirectory :=
         if entry.access.org.Some? && entry.access.team.Some?
         then IndexUnder(s.teamDirectory, (entry.access.org.value, entry.access.team.value), entry)
         else s.teamDirectory)
  }

  /** One copy of the capsule at the end of each recipient's inbox; nobody else's inbox moves. */
  function Deliver(inboxes: map<PeerId, seq<Capsule>>, recipients: set<PeerId>, capsule: Capsule): map<PeerId, seq<Capsule>> {
    map p | p in inboxes.Keys + recipients ::
      Lookup(inboxes, p, []) + (if p in recipients then [capsule] else [])
  }

  lemma DeliverOneMore(inboxes: map<PeerId, seq<Capsule>>, served: set<PeerId>, capsule: Capsule, peer: PeerId)
    requires peer !in served
    ensures
      var sofar := Deliver(inboxes, served, capsule);
      sofar[peer := Lookup(sofar, peer, []) + [capsule]] == Deliver(inboxes, served + {peer}, capsule)
  {
    var sofar, next := Deliver(inboxes, served, capsule), Deliver(inboxes, served + {peer}, capsule);
    var bumped := sofar[peer := Lookup(sofar, peer, []) + [capsule]];
    assert bumped.Keys == next.Keys;
    forall p | p in next
      ensures bumped[p] == next[p]
    {
    }
  }

  lemma DeliverNobody(inboxes: map<PeerId, seq<Capsule>>, capsule: Capsule)
    ensures Deliver(inboxes, {}, capsule) == inboxes
  {
    var same := Deliver(inboxes, {}, capsule);
    assert same.Keys == inboxes.Keys;
    assert forall p | p in same :: same[p] == inboxes[p];
  }

  function HistoryOf(s: State, feed: FeedId): seq<Capsule> {
    Lookup(s.history, feed, [])
  }

  // ---- what each operation is refused for ----

  function Gate(peer: Peer): Option<P2pError> {
    if IsCompatible(peer.compatibility) then None else Some(IncompatibleProtocol)
  }

  function RecordError(oracle: Oracle, s: State, peer: Peer, entry: Entry): Option<P2pError> {
    if Gate(peer).Some? then Gate(peer)
    else if peer.networkId != entry.networkId then Some(Directory(NetworkMismatch(peer.networkId, entry.networkId)))
    else if EntryError(oracle, entry).Some? then Some(Directory(EntryError(oracle, entry).value))
    else if !CanCacheEntry(s, peer.id, entry) then Some(SubscriptionDenied(entry.feedId))
    else None
  }

  /** The feed must be known and its profile compatible. */
  function FeedError(s: State, feed: FeedId): Option<P2pError> {
    if feed !in s.feeds then Some(FeedNotFound(feed))
    else if !IsCompatible(s.feeds[feed].compatibility) then Some(Directory(Incompatible))
    else None
  }

  function AnnounceError(peer: Peer, profile: Profile): Option<P2pError> {
    if Gate(peer).Some? then Gate(peer)
    else if peer.networkId != profile.networkId then Some(Directory(NetworkMismatch(peer.networkId, profile.networkId)))
    else if !IsCompatible(profile.compatibility) then Some(Directory(Incompatible))
    else None
  }

  function FollowError(s: State, peer: Peer, feed: FeedId): Option<P2pError> {
    if Gate(peer).Some? then Gate(peer)
    else if FeedError(s, feed).Some? then FeedError(s, feed)
    else if !CanReceive(s, feed, peer.id, s.feeds[feed].visibility) then Some(SubscriptionDenied(feed))
    else None
  }

  function GrantError(s: State, peer: Peer, feed: FeedId, subscriber: Peer): Option<P2pError> {
    if Gate(peer).Some? then Gate(peer)
    else if Gate(subscriber).Some? then Gate(subscriber)
    else if FeedError(s, feed).Some? then FeedError(s, feed)
    else if s.feeds[feed].peerId != peer.id then Some(SubscriptionDenied(feed))
    else None
  }

  function PublishError(oracle: Oracle, s: State, peer: Peer, capsule: Capsule): Option<P2pError> {
    if Gate(peer).Some? then Gate(peer)
    else if !IsCompatible(capsule.compatibility) then Some(Directory(Incompatible))
    else if oracle.checkCapsule(capsule).Unserialisable? then Some(Proto)
    else if oracle.checkCapsule(capsule).Forged? then Some(InvalidSignature)
    else if FeedError(s, capsule.feedId).Some? then FeedError(s, capsule.feedId)
    else if s.feeds[capsule.feedId].peerId != peer.id then Some(SubscriptionDenied(capsule.feedId))
    else None
  }

  function TopicError(oracle: Oracle, s: State, peer: Peer, topic: string, capsule: Capsule): Option<P2pError> {
    if Gate(peer).Some? then Gate(peer)
    else if capsule.feedId !in s.feeds then Some(FeedNotFound(capsule.feedId))
    else if topic != oracle.feedTopic(s.feeds[capsule.feedId].networkId, capsule.feedId) then Some(InvalidStoryTopic(topic))
    else PublishError(oracle, s, peer, capsule)
  }

  /** Snapshots are served without a check of the reader's own compatibility. */
  function SnapshotError(s: State, peer: Peer, feed: FeedId): Option<P2pError> {
    if FeedError(s, feed).Some? then FeedError(s, feed)
    else
      var profile := s.feeds[feed];
      if && profile.visibility != Public
         && profile.peerId != peer.id
         && (peer.id !in Subscribers(s, feed) || !CanReceive(s, feed, peer.id, profile.visibility))
      then Some(SubscriptionDenied(feed))
      else None
  }

  // ---- operations ----

  function Accept(s: State, capsule: Capsule): (r: Step)
    requires capsule.feedId in s.feeds
  {
    var feed := capsule.feedId;
    var recipients := Recipients(s, feed, s.feeds[feed].visibility);
    Step(s.(history := s.history[feed := LastN(HistoryOf(s, feed) + [capsule], HISTORY_CAPACITY)],
            inboxes := Deliver(s.inboxes, recipients, capsule)),
         Delivered(|recipients|))
  }

  function PublishCapsule(oracle: Oracle, s: State, peer: Peer, capsule: Capsule): Step {
    var error := PublishError(oracle, s, peer, capsule);
    if error.Some? then Step(s, Failed(error.value))
    else if IsDuplicate(oracle, HistoryOf(s, capsule.feedId), capsule) then Step(s, Delivered(0))
    else Accept(s, capsule)
  }

  function JoinFabric(s: State, peer: Peer, roles: set<Role>): Step {
    if Gate(peer).Some? then Step(s, Failed(Gate(peer).value))
    else Step(OpenInbox(Enrol(s, peer, {Fabric} + roles), peer.id), Done)
  }

  function RegisterHandoff(s: State, peer: Peer, addrs: seq<string>): Step {
    if Gate(peer).Some? then Step(s, Failed(Gate(peer).value))
    else Step(OpenInbox(ListAddrs(Enrol(s, peer, {Fabric, BrowserHandoff}), peer.id, addrs), peer.id), Done)
  }

  function AnnounceProfile(oracle: Oracle, s: State, peer: Peer, profile: Profile): Step {
    var error := AnnounceError(peer, profile);
    if error.Some? then Step(s, Failed(error.value))
    else Step(OpenInbox(Enrol(AddFeed(oracle, s, profile), peer, {Publisher}), peer.id), Done)
  }

  function AnnounceRecord(oracle: Oracle, s: State, peer: Peer, entry: Entry): Step {
    var error := RecordError(oracle, s, peer, entry);
    if error.Some? then Step(s, Failed(error.value))
    else if entry.peerId != peer.id then Step(s, Failed(SubscriptionDenied(entry.feedId)))
    else Step(Enrol(IndexEntry(s, entry), peer, {KadProvider}), Done)
  }

  function CacheRecord(oracle: Oracle, s: State, peer: Peer, entry: Entry): Step {
    var error := RecordError(oracle, s, peer, entry);
    if error.Some? then Step(s, Failed(error.value))
    else Step(OpenInbox(Enrol(IndexEntry(s, entry), peer, {Fabric, KadProvider}), peer.id), Done)
  }

  function CertifyAccess(s: State, peer: Peer, org: string, teams: set<string>): Step {
    if Gate(peer).Some? then Step(s, Failed(Gate(peer).value))
    else Step(s.(orgAccess := s.orgAccess[peer.id := OrgAccess(org, teams)]), Done)
  }

  function FindByUser(s: State, peer: Peer, user: UserId): Output {
    if Gate(peer).Some? then Failed(Gate(peer).value)
    else
      var entries := Lookup(s.directory, user, map[]);
      Records(map f | f in entries && CanCacheEntry(s, peer.id, entries[f]) :: entries[f])
  }

  function FindByOrg(s: State, peer: Peer, org: string): Output {
    if Gate(peer).Some? then Failed(Gate(peer).value)
    else if !HoldsOrg(s, peer.id, org) then Failed(SubscriptionDenied("github-org:" + org))
    else Records(Lookup(s.orgDirectory, org, map[]))
  }

  function FindByTeam(s: State, peer: Peer, org: string, team: string): Output {
    if Gate(peer).Some? then Failed(Gate(peer).value)
    else if !HoldsTeam(s, peer.id, org, team) then Failed(SubscriptionDenied("github-team:" + org + "/" + team))
    else Records(Lookup(s.teamDirectory, (org, team), map[]))
  }

  function FollowFeed(s: State, peer: Peer, feed: FeedId): Step {
    var error := FollowError(s, peer, feed);
    if error.Some? then Step(s, Failed(error.value))
    else Step(OpenInbox(Enrol(Subscribe(s, feed, peer.id), peer, {Subscriber}), peer.id), Done)
  }

  function GrantSubscription(s: State, peer: Peer, feed: FeedId, subscriber: Peer): Step {
    var error := GrantError(s, peer, feed, subscriber);
    if error.Some? then Step(s, Failed(error.value))
    else Step(s.(grants := s.grants + {(feed, subscriber.id)}), Done)
  }

  function PublishTopic(oracle: Oracle, s: State, peer: Peer, topic: string, capsule: Capsule): Step {
    var error := TopicError(oracle, s, peer, topic, capsule);
    if error.Some? then Step(s, Failed(error.value))
    else PublishCapsule(oracle, s, peer, capsule)
  }

  function FeedSnapshot(s: State, peer: Peer, feed: FeedId, limit: nat): Output {
    var error := SnapshotError(s, peer, feed);
    if error.Some? then Failed(error.value)
    else Capsules(LastN(HistoryOf(s, feed), limit))
  }

  function DrainInbox(s: State, peer: Peer): Step {
    if Gate(peer).Some? then Step(s, Failed(Gate(peer).value))
    else Step(s.(inboxes := s.inboxes[peer.id := []]), Capsules(Lookup(s.inboxes, peer.id, [])))
  }

  function Apply(oracle: Oracle, s: State, op: Op): Step {
    match op
    case Join(peer, roles) => JoinFabric(s, peer, roles)
    case Handoff(peer, addrs) => RegisterHandoff(s, peer, addrs)
    case AnnounceFeed(peer, profile) => AnnounceProfile(oracle, s, peer, profile)
    case AnnounceEntry(peer, entry) => AnnounceRecord(oracle, s, peer, entry)
    case CacheEntry(peer, entry) => CacheRecord(oracle, s, peer, entry)
    case Certify(peer, org, teams) => CertifyAccess(s, peer, org, teams)
    case DiscoverUser(peer, user) => Step(s, FindByUser(s, peer, user))
    case DiscoverOrg(peer, org) => Step(s, FindByOrg(s, peer, org))
    case DiscoverTeam(peer, org, team) => Step(s, FindByTeam(s, peer, org, team))
    case Follow(peer, feed) => FollowFeed(s, peer, feed)
    case Grant(peer, feed, subscriber) => GrantSubscription(s, peer, feed, subscriber)
    case Publish(peer, capsule) => PublishCapsule(oracle, s, peer, capsule)
    case PublishOnTopic(peer, topic, capsule) => PublishTopic(oracle, s, peer, topic, capsule)
    case Snapshot(peer, feed, limit) => Step(s, FeedSnapshot(s, peer, feed, limit))
    case Drain(peer) => DrainInbox(s, peer)
  }
}
