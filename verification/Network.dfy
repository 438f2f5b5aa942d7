/** The mutable in-memory network. Every method changes the maps in place, step by step,
    and is proved to leave exactly the state `NetworkModel.Apply` describes. */
module Network {
  import opened Prelude
  import opened Proto
  import opened NetworkModel
  import Model = NetworkModel

  class InMemoryNetwork {
    const oracle: Oracle
    var feeds: map<FeedId, Profile>
    var topics: map<FeedId, string>
    var directory: map<UserId, map<FeedId, Entry>>
    var orgDirectory: map<string, map<FeedId, Entry>>
    var teamDirectory: map<(string, string), map<FeedId, Entry>>
    var feedAccess: map<FeedId, AccessPolicy>
    var participants: map<PeerId, Participation>
    var orgAccess: map<PeerId, OrgAccess>
    var subscriptions: map<FeedId, set<PeerId>>
    var grants: set<(FeedId, PeerId)>
    var inboxes: map<PeerId, seq<Capsule>>
    var history: map<FeedId, seq<Capsule>>

    function View(): State
      reads this
    {
      State(feeds, topics, directory, orgDirectory, teamDirectory, feedAccess, participants,
            orgAccess, subscriptions, grants, inboxes, history)
    }

    constructor (oracle: Oracle)
      ensures this.oracle == oracle
      ensures View() == EMPTY
    {
      this.oracle := oracle;
      feeds, topics, directory, orgDirectory, teamDirectory := map[], map[], map[], map[], map[];
      feedAccess, participants, orgAccess, subscriptions, grants := map[], map[], map[], map[], {};
      inboxes, history := map[], map[];
    }

    /** Inserts the participant on first contact, then adds roles. */
    method EnrolPeer(peer: Peer, roles: set<Role>)
      modifies this`participants
      ensures View() == Enrol(old(View()), peer, roles)
    {
      if peer.id !in participants {
        participants := participants[peer.id := Participation(peer, {}, [])];
      }
      var current := participants[peer.id];
      participants := participants[peer.id := WithRoles(current, roles)];
    }

    method EnsureInbox(peer: PeerId)
      modifies this`inboxes
      ensures View() == OpenInbox(old(View()), peer)
    {
      if peer !in inboxes {
        inboxes := inboxes[peer := []];
      }
    }

    method JoinFabric(peer: Peer, roles: set<Role>) returns (output: Output)
      modifies this
      ensures Step(View(), output) == Model.JoinFabric(old(View()), peer, roles)
    {
      if !IsCompatible(peer.compatibility) {
        return Failed(IncompatibleProtocol);
      }
      EnrolPeer(peer, {Fabric} + roles);
      EnsureInbox(peer.id);
      return Done;
    }

    method RegisterBrowserHandoff(peer: Peer, addrs: seq<string>) returns (output: Output)
      modifies this
      ensures Step(View(), output) == RegisterHandoff(old(View()), peer, addrs)
    {
      if !IsCompatible(peer.compatibility) {
        return Failed(IncompatibleProtocol);
      }
      EnrolPeer(peer, {Fabric, BrowserHandoff});
      participants := participants[peer.id := participants[peer.id].(handoffAddrs := addrs)];
      EnsureInbox(peer.id);
      return Done;
    }

    method Announce(peer: Peer, profile: Profile) returns (output: Output)
      modifies this
      ensures Step(View(), output) == AnnounceProfile(oracle, old(View()), peer, profile)
    {
      if !IsCompatible(peer.compatibility) {
        return Failed(IncompatibleProtocol);
      }
      if peer.networkId != profile.networkId {
        return Failed(Directory(NetworkMismatch(peer.networkId, profile.networkId)));
      }
      if !IsCompatible(profile.compatibility) {
        return Failed(Directory(Incompatible));
      }
      topics := topics[profile.feedId := oracle.feedTopic(profile.networkId, profile.feedId)];
      feeds := feeds[profile.feedId := profile];
      EnrolPeer(peer, {Publisher});
      EnsureInbox(peer.id);
      return Done;
    }

    /** The checks that announcing and caching a record share, in order. */
    method CheckRecord(peer: Peer, entry: Entry) returns (error: Option<P2pError>)
      ensures error == RecordError(oracle, View(), peer, entry)
    {
      if !IsCompatible(peer.compatibility) {
        return Some(IncompatibleProtocol);
      }
      if peer.networkId != entry.networkId {
        return Some(Directory(NetworkMismatch(peer.networkId, entry.networkId)));
      }
      if !IsCompatible(entry.compatibility) {
        return Some(Directory(Incompatible));
      }
      match oracle.checkEntry(entry)
      case Unserialisable => return Some(Directory(ProtoFailure));
      case Forged => return Some(Directory(BadSignature));
      case Authentic =>
      if !entry.AccessMatchesVisibility() {
        return Some(Directory(AccessPolicyMismatch));
      }
      if !CanCacheEntry(View(), peer.id, entry) {
        return Some(SubscriptionDenied(entry.feedId));
      }
      return None;
    }

    method IndexDirectoryEntry(entry: Entry)
      modifies this`feedAccess, this`directory, this`orgDirectory, this`teamDirectory
      ensures View() == IndexEntry(old(View()), entry)
    {
      feedAccess := feedAccess[entry.feedId := entry.access];
      directory := IndexUnder(directory, entry.owner.userId, entry);
      if entry.access.org.Some? {
        IndexForOrg(entry.access.org.value, entry);
      }
    }

    method IndexForOrg(org: string, entry: Entry)
      modifies this`orgDirectory, this`teamDirectory
      ensures orgDirectory == IndexUnder(old(orgDirectory), org, entry)
      ensures teamDirectory ==
        if entry.access.team.Some? then IndexUnder(old(teamDirectory), (org, entry.access.team.value), entry) else old(teamDirectory)
    {
      orgDirectory := IndexUnder(orgDirectory, org, entry);
      if entry.access.team.Some? {
        teamDirectory := IndexUnder(teamDirectory, (org, entry.access.team.value), entry);
      }
    }

    method AnnounceDirectoryEntry(peer: Peer, entry: Entry) returns (output: Output)
      modifies this
      ensures Step(View(), output) == AnnounceRecord(oracle, old(View()), peer, entry)
    {
      var error := CheckRecord(peer, entry);
      if error.Some? {
        return Failed(error.value);
      }
      if entry.peerId != peer.id {
        return Failed(SubscriptionDenied(entry.feedId));
      }
      IndexDirectoryEntry(entry);
      EnrolPeer(peer, {KadProvider});
      return Done;
    }

    method CacheDirectoryEntry(peer: Peer, entry: Entry) returns (output: Output)
      modifies this
      ensures Step(View(), output) == CacheRecord(oracle, old(View()), peer, entry)
    {
      var error := CheckRecord(peer, entry);
      if error.Some? {
        return Failed(error.value);
      }
      IndexDirectoryEntry(entry);
      EnrolPeer(peer, {Fabric, KadProvider});
      EnsureInbox(peer.id);
      return Done;
    }

    method CertifyGithubOrgAccess(peer: Peer, org: string, teams: set<string>) returns (output: Output)
      modifies this
      ensures Step(View(), output) == CertifyAccess(old(View()), peer, org, teams)
    {
      if !IsCompatible(peer.compatibility) {
        return Failed(IncompatibleProtocol);
      }
      orgAccess := orgAccess[peer.id := OrgAccess(org, teams)];
      return Done;
    }

    method FollowFeed(peer: Peer, feed: FeedId) returns (output: Output)
      modifies this
      ensures Step(View(), output) == Model.FollowFeed(old(View()), peer, feed)
    {
      if !IsCompatible(peer.compatibility) {
        return Failed(IncompatibleProtocol);
      }
      if feed !in feeds {
        return Failed(FeedNotFound(feed));
      }
      if !IsCompatible(feeds[feed].compatibility) {
        return Failed(Directory(Incompatible));
      }
      if !CanReceive(View(), feed, peer.id, feeds[feed].visibility) {
        return Failed(SubscriptionDenied(feed));
      }
      subscriptions := subscriptions[feed := Lookup(subscriptions, feed, {}) + {peer.id}];
      EnrolPeer(peer, {Subscriber});
      EnsureInbox(peer.id);
      return Done;
    }

    method GrantSubscription(peer: Peer, feed: FeedId, subscriber: Peer) returns (output: Output)
      modifies this
      ensures Step(View(), output) == Model.GrantSubscription(old(View()), peer, feed, subscriber)
    {
      if !IsCompatible(peer.compatibility) || !IsCompatible(subscriber.compatibility) {
        return Failed(IncompatibleProtocol);
      }
      if feed !in feeds {
        return Failed(FeedNotFound(feed));
      }
      if !IsCompatible(feeds[feed].compatibility) {
        return Failed(Directory(Incompatible));
      }
      if feeds[feed].peerId != peer.id {
        return Failed(SubscriptionDenied(feed));
      }
      grants := grants + {(feed, subscriber.id)};
      return Done;
    }

    /** Appends to the ring and drops from its front until it fits. */
    method Remember(capsule: Capsule)
      modifies this`history
      ensures history == old(history)[capsule.feedId := LastN(old(HistoryOf(View(), capsule.feedId)) + [capsule], HISTORY_CAPACITY)]
    {
      var ring := PopFront(HistoryOf(View(), capsule.feedId) + [capsule], HISTORY_CAPACITY);
      history := history[capsule.feedId := ring];
    }

    /** The state once every recipient outside `waiting` has its copy. */
    static ghost function Served(before: State, capsule: Capsule, visibility: Visibility, waiting: set<PeerId>): State {
      before.(inboxes := Deliver(before.inboxes, Recipients(before, capsule.feedId, visibility) - waiting, capsule))
    }

    /** The fan-out so far: everybody but those waiting is served, and counted. */
    static ghost predicate FannedOut(before: State, now: State, capsule: Capsule, visibility: Visibility, waiting: set<PeerId>, delivered: nat) {
      && waiting <= Subscribers(before, capsule.feedId)
      && now == Served(before, capsule, visibility, waiting)
      && delivered == |Recipients(before, capsule.feedId, visibility) - waiting|
    }

    static lemma NobodyServed(before: State, capsule: Capsule, visibility: Visibility)
      ensures FannedOut(before, before, capsule, visibility, Subscribers(before, capsule.feedId), 0)
    {
      assert Recipients(before, capsule.feedId, visibility) - Subscribers(before, capsule.feedId) == {};
      DeliverNobody(before.inboxes, capsule);
    }

    static lemma EverybodyServed(before: State, now: State, capsule: Capsule, visibility: Visibility, delivered: nat)
      requires FannedOut(before, now, capsule, visibility, {}, delivered)
      ensures now == before.(inboxes := Deliver(before.inboxes, Recipients(before, capsule.feedId, visibility), capsule))
      ensures delivered == |Recipients(before, capsule.feedId, visibility)|
    {
      assert Recipients(before, capsule.feedId, visibility) - {} == Recipients(before, capsule.feedId, visibility);
    }

    /** One subscriber's turn: it is checked against the state as it is then. */
    static function Offered(now: State, capsule: Capsule, visibility: Visibility, peer: PeerId): State {
      if CanReceive(now, capsule.feedId, peer, visibility)
      then now.(inboxes := now.inboxes[peer := Lookup(now.inboxes, peer, []) + [capsule]])
      else now
    }

    static lemma TurnTaken(before: State, now: State, capsule: Capsule, visibility: Visibility, waiting: set<PeerId>, delivered: nat, peer: PeerId)
      requires FannedOut(before, now, capsule, visibility, waiting, delivered) && peer in waiting
      ensures FannedOut(before, Offered(now, capsule, visibility, peer), capsule, visibility, waiting - {peer},
                        delivered + if CanReceive(now, capsule.feedId, peer, visibility) then 1 else 0)
    {
      var all := Recipients(before, capsule.feedId, visibility);
      SameAccess(before, now, capsule.feedId, peer, visibility);
      assert peer in all <==> CanReceive(before, capsule.feedId, peer, visibility);
      OneFewerWaiting(all, waiting, peer);
      if peer in all {
        DeliverOneMore(before.inboxes, all - waiting, capsule, peer);
      }
    }

    /** Access does not depend on the inboxes. */
    static lemma SameAccess(before: State, now: State, feed: FeedId, peer: PeerId, visibility: Visibility)
      requires now == before.(inboxes := now.inboxes)
      ensures CanReceive(now, feed, peer, visibility) <==> CanReceive(before, feed, peer, visibility)
    {
    }

    static lemma OneFewerWaiting<T>(all: set<T>, waiting: set<T>, x: T)
      requires x in waiting
      ensures all - (waiting - {x}) == if x in all then (all - waiting) + {x} else all - waiting
      ensures |all - (waiting - {x})| == |all - waiting| + if x in all then 1 else 0
    {
      var more := all - (waiting - {x});
      assert more == if x in all then (all - waiting) + {x} else all - waiting;
    }

    method Offer(capsule: Capsule, visibility: Visibility, peer: PeerId) returns (delivered: nat)
      modifies this`inboxes
      ensures delivered == if CanReceive(old(View()), capsule.feedId, peer, visibility) then 1 else 0
      ensures View() == Offered(old(View()), capsule, visibility, peer)
    {
      if !CanReceive(View(), capsule.feedId, peer, visibility) {
        return 0;
      }
      inboxes := inboxes[peer := Lookup(inboxes, peer, []) + [capsule]];
      return 1;
    }

    /** The fan-out loop over the subscribers, in any order, counting those served. */
    method FanOut(capsule: Capsule, visibility: Visibility) returns (delivered: nat)
      modifies this`inboxes
      ensures View() == old(View()).(inboxes := Deliver(old(inboxes), Recipients(old(View()), capsule.feedId, visibility), capsule))
      ensures delivered == |Recipients(old(View()), capsule.feedId, visibility)|
    {
      var waiting := Subscribers(View(), capsule.feedId);
      ghost var before := View();
      delivered := 0;
      NobodyServed(before, capsule, visibility);
      while waiting != {}
        invariant FannedOut(before, View(), capsule, visibility, waiting, delivered)
        decreases |waiting|
      {
        var peer :| peer in waiting;
        TurnTaken(before, View(), capsule, visibility, waiting, delivered, peer);
        var served := Offer(capsule, visibility, peer);
        delivered := delivered + served;
        waiting := waiting - {peer};
      }
      EverybodyServed(before, View(), capsule, visibility, delivered);
    }

    method AcceptCapsule(capsule: Capsule) returns (output: Output)
      requires capsule.feedId in feeds
      modifies this`history, this`inboxes
      ensures Step(View(), output) == Accept(old(View()), capsule)
    {
      var visibility := feeds[capsule.feedId].visibility;
      ghost var before := View();
      Remember(capsule);
      assert Recipients(View(), capsule.feedId, visibility) == Recipients(before, capsule.feedId, visibility);
      var delivered := FanOut(capsule, visibility);
      return Delivered(delivered);
    }

    /** The checks on a capsule and its publisher, in order. */
    method CheckCapsule(peer: Peer, capsule: Capsule) returns (error: Option<P2pError>)
      ensures error == PublishError(oracle, View(), peer, capsule)
    {
      if !IsCompatible(peer.compatibility) {
        return Some(IncompatibleProtocol);
      }
      if !IsCompatible(capsule.compatibility) {
        return Some(Directory(Incompatible));
      }
      match oracle.checkCapsule(capsule)
      case Unserialisable => return Some(Proto);
      case Forged => return Some(InvalidSignature);
      case Authentic =>
      if capsule.feedId !in feeds {
        return Some(FeedNotFound(capsule.feedId));
      }
      if !IsCompatible(feeds[capsule.feedId].compatibility) {
        return Some(Directory(Incompatible));
      }
      if feeds[capsule.feedId].peerId != peer.id {
        return Some(SubscriptionDenied(capsule.feedId));
      }
      return None;
    }

    method PublishCapsule(peer: Peer, capsule: Capsule) returns (output: Output)
      modifies this
      ensures Step(View(), output) == Model.PublishCapsule(oracle, old(View()), peer, capsule)
    {
      var error := CheckCapsule(peer, capsule);
      if error.Some? {
        return Failed(error.value);
      }
      if IsDuplicate(oracle, HistoryOf(View(), capsule.feedId), capsule) {
        return Delivered(0);
      }
      output := AcceptCapsule(capsule);
    }

    method PublishCapsuleOnTopic(peer: Peer, topic: string, capsule: Capsule) returns (output: Output)
      modifies this
      ensures Step(View(), output) == PublishTopic(oracle, old(View()), peer, topic, capsule)
    {
      if !IsCompatible(peer.compatibility) {
        return Failed(IncompatibleProtocol);
      }
      if capsule.feedId !in feeds {
        return Failed(FeedNotFound(capsule.feedId));
      }
      if topic != oracle.feedTopic(feeds[capsule.feedId].networkId, capsule.feedId) {
        return Failed(InvalidStoryTopic(topic));
      }
      output := PublishCapsule(peer, capsule);
    }

    method DrainInbox(peer: Peer) returns (output: Output)
      modifies this
      ensures Step(View(), output) == Model.DrainInbox(old(View()), peer)
    {
      if !IsCompatible(peer.compatibility) {
        return Failed(IncompatibleProtocol);
      }
      EnsureInbox(peer.id);
      var drained := inboxes[peer.id];
      inboxes := inboxes[peer.id := []];
      return Capsules(drained);
    }

    method DiscoverGithubUser(peer: Peer, user: UserId) returns (output: Output)
      ensures Step(View(), output) == Apply(oracle, View(), DiscoverUser(peer, user))
    {
      if !IsCompatible(peer.compatibility) {
        return Failed(IncompatibleProtocol);
      }
      var entries := Lookup(directory, user, map[]);
      return Records(map f | f in entries && CanCacheEntry(View(), peer.id, entries[f]) :: entries[f]);
    }

    method DiscoverGithubOrg(peer: Peer, org: string) returns (output: Output)
      ensures Step(View(), output) == Apply(oracle, View(), DiscoverOrg(peer, org))
    {
      if !IsCompatible(peer.compatibility) {
        return Failed(IncompatibleProtocol);
      }
      if !HoldsOrg(View(), peer.id, org) {
        return Failed(SubscriptionDenied("github-org:" + org));
      }
      return Records(Lookup(orgDirectory, org, map[]));
    }

    method DiscoverGithubTeam(peer: Peer, org: string, team: string) returns (output: Output)
      ensures Step(View(), output) == Apply(oracle, View(), DiscoverTeam(peer, org, team))
    {
      if !IsCompatible(peer.compatibility) {
        return Failed(IncompatibleProtocol);
      }
      if !HoldsTeam(View(), peer.id, org, team) {
        return Failed(SubscriptionDenied("github-team:" + org + "/" + team));
      }
      return Records(Lookup(teamDirectory, (org, team), map[]));
    }

    method FeedSnapshot(peer: Peer, feed: FeedId, limit: nat) returns (output: Output)
      ensures Step(View(), output) == Apply(oracle, View(), Snapshot(peer, feed, limit))
    {
      if feed !in feeds {
        return Failed(FeedNotFound(feed));
      }
      var profile := feeds[feed];
      if !IsCompatible(profile.compatibility) {
        return Failed(Directory(Incompatible));
      }
      if profile.visibility != Public {
        var subscribed := peer.id in Lookup(subscriptions, feed, {});
        if profile.peerId != peer.id && (!subscribed || !CanReceive(View(), feed, peer.id, profile.visibility)) {
          return Failed(SubscriptionDenied(feed));
        }
      }
      var ring := Lookup(history, feed, []);
      var keep := if limit < |ring| then limit else |ring|;
      assert ring[|ring| - keep..] == LastN(ring, limit);
      return Capsules(ring[|ring| - keep..]);
    }

    method Register(op: Op) returns (output: Output)
      requires op.Join? || op.Handoff? || op.AnnounceFeed? || op.AnnounceEntry? || op.CacheEntry? || op.Certify?
      modifies this
      ensures Step(View(), output) == Apply(oracle, old(View()), op)
    {
      match op
      case Join(peer, roles) => output := JoinFabric(peer, roles);
      case Handoff(peer, addrs) => output := RegisterBrowserHandoff(peer, addrs);
      case AnnounceFeed(peer, profile) => output := Announce(peer, profile);
      case AnnounceEntry(peer, entry) => output := AnnounceDirectoryEntry(peer, entry);
      case CacheEntry(peer, entry) => output := CacheDirectoryEntry(peer, entry);
      case Certify(peer, org, teams) => output := CertifyGithubOrgAccess(peer, org, teams);
    }

    method Read(op: Op) returns (output: Output)
      requires op.DiscoverUser? || op.DiscoverOrg? || op.DiscoverTeam? || op.Snapshot?
      ensures Step(View(), output) == Apply(oracle, View(), op)
    {
      match op
      case DiscoverUser(peer, user) => output := DiscoverGithubUser(peer, user);
      case DiscoverOrg(peer, org) => output := DiscoverGithubOrg(peer, org);
      case DiscoverTeam(peer, org, team) => output := DiscoverGithubTeam(peer, org, team);
      case Snapshot(peer, feed, limit) => output := FeedSnapshot(peer, feed, limit);
    }

    /** Any one operation. */
    method Perform(op: Op) returns (output: Output)
      modifies this
      ensures Step(View(), output) == Apply(oracle, old(View()), op)
    {
      if op.Follow? {
        output := FollowFeed(op.peer, op.feed);
      } else if op.Grant? {
        output := GrantSubscription(op.peer, op.feed, op.subscriber);
      } else if op.Publish? {
        output := PublishCapsule(op.peer, op.capsule);
      } else if op.PublishOnTopic? {
        output := PublishCapsuleOnTopic(op.peer, op.topic, op.capsule);
      } else if op.Drain? {
        output := DrainInbox(op.peer);
      } else if op.DiscoverUser? || op.DiscoverOrg? || op.DiscoverTeam? || op.Snapshot? {
        output := Read(op);
      } else {
        output := Register(op);
      }
    }
  }
}
