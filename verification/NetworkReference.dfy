/** The feed network told from its history alone. Who owns a feed, whom its gate admits, which
    capsules it carries and who follows it are read off the sequence of operations, without a
    state, an index or a ring; the network is then proved to answer every operation, in every
    run, exactly as its history says. */
module NetworkReference {
  import opened Prelude
  import opened Proto
  import opened NetworkModel
  import opened NetworkRuns
  import opened NetworkIndexes
  import opened NetworkMembers
  import opened Runs

  // ---- what the history says ----

  /** The released product speaks protocol 1 and model 3. */
  predicate Current(c: Compatibility) {
    c.product == "feed" && c.protocolVersion == 1 && c.minModelVersion <= 3 <= c.modelVersion
  }

  function Front<T>(s: seq<T>): seq<T>
    requires s != []
  {
    s[..|s| - 1]
  }

  function Last<T>(s: seq<T>): T
    requires s != []
  {
    s[|s| - 1]
  }

  /** The profile announced last for the feed, by a compatible peer of its network. */
  function LastProfile(ops: seq<Op>, feed: FeedId): Option<Profile> {
    if ops == [] then None
    else
      var op := Last(ops);
      if && op.AnnounceFeed? && op.profile.feedId == feed
         && Current(op.peer.compatibility) && Current(op.profile.compatibility)
         && op.peer.networkId == op.profile.networkId
      then Some(op.profile)
      else LastProfile(Front(ops), feed)
  }

  /** The organisation access the peer certified last. */
  function LastCertificate(ops: seq<Op>, peer: PeerId): Option<OrgAccess> {
    if ops == [] then None
    else
      var op := Last(ops);
      if op.Certify? && op.peer.id == peer && Current(op.peer.compatibility) then Some(OrgAccess(op.org, op.teams))
      else LastCertificate(Front(ops), peer)
  }

  predicate CertifiedFor(ops: seq<Op>, peer: PeerId, org: Option<string>) {
    org.Some? && LastCertificate(ops, peer).Some? && LastCertificate(ops, peer).value.org == org.value
  }

  predicate CertifiedForTeam(ops: seq<Op>, peer: PeerId, org: Option<string>, team: Option<string>) {
    CertifiedFor(ops, peer, org) && team.Some? && team.value in LastCertificate(ops, peer).value.teams
  }

  /** Only public, organisation and team records can be shared, the latter with members. */
  predicate MayHold(ops: seq<Op>, peer: PeerId, entry: Entry) {
    || entry.visibility == Public
    || (entry.visibility == GithubOrg && CertifiedFor(ops, peer, entry.access.org))
    || (entry.visibility == GithubTeam && CertifiedForTeam(ops, peer, entry.access.org, entry.access.team))
  }

  predicate Suits(visibility: Visibility, access: AccessPolicy) {
    && (visibility == GithubOrg ==> access.org.Some? && access.team.None?)
    && (visibility == GithubTeam ==> access.org.Some? && access.team.Some?)
  }

  predicate RecordPasses(oracle: Oracle, ops: seq<Op>, peer: Peer, entry: Entry) {
    && Current(peer.compatibility)
    && peer.networkId == entry.networkId
    && Current(entry.compatibility)
    && oracle.checkEntry(entry) == Authentic
    && WellShaped(entry)
    && MayHold(ops, peer.id, entry)
  }

  /** The access of a record and of each of its streams suits the one visibility they share. */
  predicate WellShaped(entry: Entry) {
    && Suits(entry.visibility, entry.access)
    && (forall k :: 0 <= k < |entry.streams| ==>
         entry.streams[k].visibility == entry.visibility && Suits(entry.visibility, entry.streams[k].access))
  }

  /** The operation hands in a record and is taken: anybody may cache, only the peer a record
      names may announce it. */
  predicate BringsRecord(oracle: Oracle, ops: seq<Op>, op: Op) {
    || (op.AnnounceEntry? && RecordPasses(oracle, ops, op.peer, op.entry) && op.entry.peerId == op.peer.id)
    || (op.CacheEntry? && RecordPasses(oracle, ops, op.peer, op.entry))
  }

  /** The access policy of the record taken last for the feed. */
  function LastAccess(oracle: Oracle, ops: seq<Op>, feed: FeedId): Option<AccessPolicy> {
    if ops == [] then None
    else
      var op := Last(ops);
      if BringsRecord(oracle, Front(ops), op) && op.entry.feedId == feed then Some(op.entry.access)
      else LastAccess(oracle, Front(ops), feed)
  }

  /** The feed is known, its profile compatible, and the peer its owner. */
  predicate Owns(ops: seq<Op>, peer: PeerId, feed: FeedId) {
    && LastProfile(ops, feed).Some? && Current(LastProfile(ops, feed).value.compatibility)
    && LastProfile(ops, feed).value.peerId == peer
  }

  /** The owner of that moment granted the feed to the subscriber. */
  predicate Granted(ops: seq<Op>, feed: FeedId, subscriber: PeerId) {
    ops != [] &&
    var op := Last(ops);
    || Granted(Front(ops), feed, subscriber)
    || (&& op.Grant? && op.feed == feed && op.subscriber.id == subscriber
        && Current(op.peer.compatibility) && Current(op.subscriber.compatibility)
        && Owns(Front(ops), op.peer.id, feed))
  }

  /** Whom the feed admits: everybody if it is public, whoever has a grant, and for feeds of an
      organisation or a team the peers whose last certificate names the organisation, or lists
      the team, of the last record of the feed. User, repository and private feeds admit grant
      holders only. */
  predicate Admitted(oracle: Oracle, ops: seq<Op>, feed: FeedId, peer: PeerId)
    requires LastProfile(ops, feed).Some?
  {
    var visibility := LastProfile(ops, feed).value.visibility;
    var access := LastAccess(oracle, ops, feed);
    || visibility == Public
    || Granted(ops, feed, peer)
    || (visibility == GithubOrg && access.Some? && CertifiedFor(ops, peer, access.value.org))
    || (visibility == GithubTeam && access.Some? && CertifiedForTeam(ops, peer, access.value.org, access.value.team))
  }

  predicate MayFollow(oracle: Oracle, ops: seq<Op>, peer: Peer, feed: FeedId) {
    && Current(peer.compatibility)
    && LastProfile(ops, feed).Some? && Current(LastProfile(ops, feed).value.compatibility)
    && Admitted(oracle, ops, feed, peer.id)
  }

  predicate Followed(oracle: Oracle, ops: seq<Op>, feed: FeedId, peer: PeerId) {
    ops != [] &&
    var op := Last(ops);
    || Followed(oracle, Front(ops), feed, peer)
    || (op.Follow? && op.feed == feed && op.peer.id == peer && MayFollow(oracle, Front(ops), op.peer, feed))
  }

  /** The capsule passes all checks of a publish by the peer. */
  predicate MayPublish(oracle: Oracle, ops: seq<Op>, peer: Peer, capsule: Capsule) {
    && Current(peer.compatibility) && Current(capsule.compatibility)
    && oracle.checkCapsule(capsule) == Authentic
    && Owns(ops, peer.id, capsule.feedId)
  }

  /** The capsule scores below 90, and one of the last 24 stories has its kind, a headline
      similar to 88 and either the same headline or a deck similar to 82. */
  predicate Repeated(oracle: Oracle, stories: seq<Capsule>, capsule: Capsule) {
    && capsule.score < 90
    && (exists k ::
         && 0 <= k < |stories| && |stories| - 24 <= k
         && stories[k].kind == capsule.kind
         && oracle.similarity(stories[k].headline, capsule.headline) >= 88
         && (|| oracle.similarity(stories[k].headline, capsule.headline) == 100
             || oracle.similarity(stories[k].deck, capsule.deck) >= 82))
  }

  /** The operation publishes on the feed and passes the checks, directly or on its topic. */
  predicate Publishes(oracle: Oracle, ops: seq<Op>, op: Op, feed: FeedId) {
    && (op.Publish? || op.PublishOnTopic?)
    && op.capsule.feedId == feed
    && MayPublish(oracle, ops, op.peer, op.capsule)
    && (op.PublishOnTopic? ==> op.topic == oracle.feedTopic(LastProfile(ops, feed).value.networkId, feed))
  }

  /** All stories the feed ever carried, in order. */
  function Stories(oracle: Oracle, ops: seq<Op>, feed: FeedId): seq<Capsule> {
    if ops == [] then []
    else
      var sofar, op := Stories(oracle, Front(ops), feed), Last(ops);
      if Publishes(oracle, Front(ops), op, feed) && !Repeated(oracle, sofar, op.capsule) then sofar + [op.capsule] else sofar
  }

  // ---- the state holds what the history says ----

  lemma CurrentExactly(c: Compatibility)
    ensures IsCompatible(c) <==> Current(c)
  {
  }

  function Listed<T>(option: Option<T>): seq<T> {
    if option.Some? then [option.value] else []
  }

  lemma {:induction false} ProfileFromHistory(oracle: Oracle, ops: seq<Op>, feed: FeedId)
    ensures ProfileOf(StateAfter(oracle, ops), feed) == Listed(LastProfile(ops, feed))
  {
    if ops != [] {
      var past, op := Front(ops), Last(ops);
      ProfileFromHistory(oracle, past, feed);
      AnnounceStep(oracle, Visit(|past|, StateAfter(oracle, past), op), feed);
      if op.AnnounceFeed? {
        CurrentExactly(op.peer.compatibility);
        CurrentExactly(op.profile.compatibility);
      }
    }
  }

  lemma {:induction false} CertificateFromHistory(oracle: Oracle, ops: seq<Op>, peer: PeerId)
    ensures CertificateOf(StateAfter(oracle, ops), peer) == Listed(LastCertificate(ops, peer))
  {
    if ops != [] {
      var past, op := Front(ops), Last(ops);
      CertificateFromHistory(oracle, past, peer);
      CertifyStep(oracle, Visit(|past|, StateAfter(oracle, past), op), peer);
      CurrentExactly(op.peer.compatibility);
    }
  }

  lemma HoldsFromHistory(oracle: Oracle, ops: seq<Op>, peer: PeerId, org: string, team: string)
    ensures HoldsOrg(StateAfter(oracle, ops), peer, org) <==> CertifiedFor(ops, peer, Some(org))
    ensures HoldsTeam(StateAfter(oracle, ops), peer, org, team) <==> CertifiedForTeam(ops, peer, Some(org), Some(team))
  {
    CertificateFromHistory(oracle, ops, peer);
  }

  lemma MayHoldFromHistory(oracle: Oracle, ops: seq<Op>, peer: PeerId, entry: Entry)
    ensures CanCacheEntry(StateAfter(oracle, ops), peer, entry) <==> MayHold(ops, peer, entry)
  {
    var org, team := entry.access.org, entry.access.team;
    HoldsFromHistory(oracle, ops, peer, if org.Some? then org.value else "", if team.Some? then team.value else "");
  }

  lemma SuitsExactly(entry: Entry)
    ensures entry.AccessMatchesVisibility() <==> WellShaped(entry)
  {
    FitsExactly(entry.visibility, entry.access);
    forall k | 0 <= k < |entry.streams|
      ensures entry.streams[k].access.Fits(entry.streams[k].visibility) <==> Suits(entry.streams[k].visibility, entry.streams[k].access)
    {
      FitsExactly(entry.streams[k].visibility, entry.streams[k].access);
    }
  }

  lemma FitsExactly(visibility: Visibility, access: AccessPolicy)
    ensures access.Fits(visibility) <==> Suits(visibility, access)
  {
  }

  lemma RecordPassesExactly(oracle: Oracle, ops: seq<Op>, peer: Peer, entry: Entry)
    ensures RecordError(oracle, StateAfter(oracle, ops), peer, entry).None? <==> RecordPasses(oracle, ops, peer, entry)
  {
    CurrentExactly(peer.compatibility);
    CurrentExactly(entry.compatibility);
    SuitsExactly(entry);
    MayHoldFromHistory(oracle, ops, peer.id, entry);
  }

  lemma BringsExactly(oracle: Oracle, ops: seq<Op>, op: Op)
    ensures Indexes(oracle, StateAfter(oracle, ops), op) <==> BringsRecord(oracle, ops, op)
  {
    if op.AnnounceEntry? || op.CacheEntry? {
      RecordPassesExactly(oracle, ops, op.peer, op.entry);
    }
  }

  lemma {:induction false} AccessFromHistory(oracle: Oracle, ops: seq<Op>, feed: FeedId)
    ensures AccessFiled(StateAfter(oracle, ops), feed) == Listed(LastAccess(oracle, ops, feed))
  {
    if ops != [] {
      var past, op := Front(ops), Last(ops);
      AccessFromHistory(oracle, past, feed);
      BringsExactly(oracle, past, op);
      StepAccessFiled(oracle, Visit(|past|, StateAfter(oracle, past), op), feed);
    }
  }

  lemma OwnsExactly(oracle: Oracle, ops: seq<Op>, peer: PeerId, feed: FeedId)
    ensures
      var s := StateAfter(oracle, ops);
      FeedError(s, feed).None? && s.feeds[feed].peerId == peer <==> Owns(ops, peer, feed)
  {
    ProfileFromHistory(oracle, ops, feed);
    if LastProfile(ops, feed).Some? {
      CurrentExactly(LastProfile(ops, feed).value.compatibility);
    }
  }

  lemma {:induction false} GrantFromHistory(oracle: Oracle, ops: seq<Op>, feed: FeedId, subscriber: PeerId)
    ensures (feed, subscriber) in StateAfter(oracle, ops).grants <==> Granted(ops, feed, subscriber)
  {
    if ops != [] {
      var past, op := Front(ops), Last(ops);
      GrantFromHistory(oracle, past, feed, subscriber);
      IssueStep(oracle, StateAfter(oracle, past), op, feed, subscriber);
      if op.Grant? {
        CurrentExactly(op.peer.compatibility);
        CurrentExactly(op.subscriber.compatibility);
        OwnsExactly(oracle, past, op.peer.id, feed);
      }
    }
  }

  lemma AdmittedExactly(oracle: Oracle, ops: seq<Op>, feed: FeedId, peer: PeerId)
    requires LastProfile(ops, feed).Some?
    ensures
      CanReceive(StateAfter(oracle, ops), feed, peer, LastProfile(ops, feed).value.visibility) <==> Admitted(oracle, ops, feed, peer)
  {
    var access := LastAccess(oracle, ops, feed);
    AccessFromHistory(oracle, ops, feed);
    GrantFromHistory(oracle, ops, feed, peer);
    if access.Some? {
      var org, team := access.value.org, access.value.team;
      HoldsFromHistory(oracle, ops, peer, if org.Some? then org.value else "", if team.Some? then team.value else "");
    }
  }

  lemma MayFollowExactly(oracle: Oracle, ops: seq<Op>, peer: Peer, feed: FeedId)
    ensures FollowError(StateAfter(oracle, ops), peer, feed).None? <==> MayFollow(oracle, ops, peer, feed)
  {
    CurrentExactly(peer.compatibility);
    ProfileFromHistory(oracle, ops, feed);
    if LastProfile(ops, feed).Some? {
      CurrentExactly(LastProfile(ops, feed).value.compatibility);
      AdmittedExactly(oracle, ops, feed, peer.id);
    }
  }

  lemma {:induction false} FollowedFromHistory(oracle: Oracle, ops: seq<Op>, feed: FeedId, peer: PeerId)
    ensures peer in Subscribers(StateAfter(oracle, ops), feed) <==> Followed(oracle, ops, feed, peer)
  {
    if ops != [] {
      var past, op := Front(ops), Last(ops);
      FollowedFromHistory(oracle, past, feed, peer);
      FollowStep(oracle, StateAfter(oracle, past), op, peer, feed);
      if op.Follow? {
        MayFollowExactly(oracle, past, op.peer, feed);
      }
    }
  }

  lemma MayPublishExactly(oracle: Oracle, ops: seq<Op>, peer: Peer, capsule: Capsule)
    ensures PublishError(oracle, StateAfter(oracle, ops), peer, capsule).None? <==> MayPublish(oracle, ops, peer, capsule)
  {
    CurrentExactly(peer.compatibility);
    CurrentExactly(capsule.compatibility);
    OwnsExactly(oracle, ops, peer.id, capsule.feedId);
  }

  /** The last 24 stories, by position. */
  lemma RecentByPosition(stories: seq<Capsule>, c: Capsule)
    ensures c in LastN(stories, 24) <==> exists k :: 0 <= k < |stories| && |stories| - 24 <= k && stories[k] == c
  {
    var recent := LastN(stories, 24);
    if c in recent {
      var j :| 0 <= j < |recent| && recent[j] == c;
      assert stories[|stories| - |recent| + j] == c;
    }
    if k :| 0 <= k < |stories| && |stories| - 24 <= k && stories[k] == c {
      assert recent[k - (|stories| - |recent|)] == c;
    }
  }

  lemma RepeatedExactly(oracle: Oracle, stories: seq<Capsule>, capsule: Capsule)
    ensures IsDuplicate(oracle, stories, capsule) <==> Repeated(oracle, stories, capsule)
  {
    if IsDuplicate(oracle, stories, capsule) {
      var r :| r in LastN(stories, DUPLICATE_WINDOW) && Repeats(oracle, r, capsule);
      RecentByPosition(stories, r);
    }
    if Repeated(oracle, stories, capsule) {
      var k :|
        && 0 <= k < |stories| && |stories| - 24 <= k && stories[k].kind == capsule.kind
        && oracle.similarity(stories[k].headline, capsule.headline) >= 88
        && (|| oracle.similarity(stories[k].headline, capsule.headline) == 100
            || oracle.similarity(stories[k].deck, capsule.deck) >= 82);
      RecentByPosition(stories, stories[k]);
      assert Repeats(oracle, stories[k], capsule);
    }
  }

  lemma PublishesExactly(oracle: Oracle, ops: seq<Op>, op: Op, feed: FeedId)
    ensures
      && (op.Publish? || op.PublishOnTopic?) && op.capsule.feedId == feed
      && (op.Publish? ==> PublishError(oracle, StateAfter(oracle, ops), op.peer, op.capsule).None?)
      && (op.PublishOnTopic? ==> TopicError(oracle, StateAfter(oracle, ops), op.peer, op.topic, op.capsule).None?)
      <==> Publishes(oracle, ops, op, feed)
  {
    if (op.Publish? || op.PublishOnTopic?) && op.capsule.feedId == feed {
      ProfileFromHistory(oracle, ops, feed);
      MayPublishExactly(oracle, ops, op.peer, op.capsule);
    }
  }

  lemma {:induction false} StoriesFromHistory(oracle: Oracle, ops: seq<Op>, feed: FeedId)
    ensures Log(oracle, ops, On(feed)) == Stories(oracle, ops, feed)
  {
    if ops != [] {
      var past, op := Front(ops), Last(ops);
      StoriesFromHistory(oracle, past, feed);
      CollectStep(Stepper(oracle), EMPTY, ops, Accepted(oracle, On(feed)));
      StoryAccepted(oracle, past, op, feed);
    }
  }

  lemma StoryAccepted(oracle: Oracle, ops: seq<Op>, op: Op, feed: FeedId)
    requires Log(oracle, ops, On(feed)) == Stories(oracle, ops, feed)
    ensures
      Accepts(oracle, StateAfter(oracle, ops), op) && op.capsule.feedId == feed <==>
      Publishes(oracle, ops, op, feed) && !Repeated(oracle, Stories(oracle, ops, feed), op.capsule)
  {
    PublishesExactly(oracle, ops, op, feed);
    if (op.Publish? || op.PublishOnTopic?) && op.capsule.feedId == feed {
      RingVerdictIsLogVerdict(oracle, ops, op.capsule);
      RepeatedExactly(oracle, Stories(oracle, ops, feed), op.capsule);
    }
  }

  // ---- what every operation answers ----

  /** Whether a follow succeeds, and what it is refused for otherwise. */
  lemma FollowOutcome(oracle: Oracle, ops: seq<Op>, peer: Peer, feed: FeedId)
    ensures
      Apply(oracle, StateAfter(oracle, ops), Follow(peer, feed)).output ==
        if !Current(peer.compatibility) then Failed(IncompatibleProtocol)
        else if LastProfile(ops, feed).None? then Failed(FeedNotFound(feed))
        else if !Current(LastProfile(ops, feed).value.compatibility) then Failed(Directory(Incompatible))
        else if !Admitted(oracle, ops, feed, peer.id) then Failed(SubscriptionDenied(feed))
        else Done
  {
    var s := StateAfter(oracle, ops);
    assert Apply(oracle, s, Follow(peer, feed)) == FollowFeed(s, peer, feed);
    MayFollowExactly(oracle, ops, peer, feed);
    CurrentExactly(peer.compatibility);
    ProfileFromHistory(oracle, ops, feed);
    if LastProfile(ops, feed).Some? {
      CurrentExactly(LastProfile(ops, feed).value.compatibility);
    }
  }

  lemma GrantOutcome(oracle: Oracle, ops: seq<Op>, peer: Peer, feed: FeedId, subscriber: Peer)
    ensures
      Apply(oracle, StateAfter(oracle, ops), Grant(peer, feed, subscriber)).output ==
        if !Current(peer.compatibility) || !Current(subscriber.compatibility) then Failed(IncompatibleProtocol)
        else if LastProfile(ops, feed).None? then Failed(FeedNotFound(feed))
        else if !Current(LastProfile(ops, feed).value.compatibility) then Failed(Directory(Incompatible))
        else if LastProfile(ops, feed).value.peerId != peer.id then Failed(SubscriptionDenied(feed))
        else Done
  {
    var s := StateAfter(oracle, ops);
    assert Apply(oracle, s, Grant(peer, feed, subscriber)) == GrantSubscription(s, peer, feed, subscriber);
    CurrentExactly(peer.compatibility);
    CurrentExactly(subscriber.compatibility);
    ProfileFromHistory(oracle, ops, feed);
    if LastProfile(ops, feed).Some? {
      CurrentExactly(LastProfile(ops, feed).value.compatibility);
    }
  }

  /** What a record is refused for, in order; `None` when it is taken. */
  function RecordRefusal(oracle: Oracle, ops: seq<Op>, peer: Peer, entry: Entry): Option<P2pError> {
    if !Current(peer.compatibility) then Some(IncompatibleProtocol)
    else if peer.networkId != entry.networkId then Some(Directory(NetworkMismatch(peer.networkId, entry.networkId)))
    else if !Current(entry.compatibility) then Some(Directory(Incompatible))
    else if oracle.checkEntry(entry) == Unserialisable then Some(Directory(ProtoFailure))
    else if oracle.checkEntry(entry) == Forged then Some(Directory(BadSignature))
    else if !WellShaped(entry) then Some(Directory(AccessPolicyMismatch))
    else if !MayHold(ops, peer.id, entry) then Some(SubscriptionDenied(entry.feedId))
    else None
  }

  lemma RecordOutcome(oracle: Oracle, ops: seq<Op>, peer: Peer, entry: Entry)
    ensures
      var s, refusal := StateAfter(oracle, ops), RecordRefusal(oracle, ops, peer, entry);
      && (refusal.None? <==> RecordPasses(oracle, ops, peer, entry))
      && Apply(oracle, s, CacheEntry(peer, entry)).output == (if refusal.Some? then Failed(refusal.value) else Done)
      && Apply(oracle, s, AnnounceEntry(peer, entry)).output ==
         (if refusal.Some? then Failed(refusal.value)
          else if entry.peerId != peer.id then Failed(SubscriptionDenied(entry.feedId)) else Done)
  {
    var s := StateAfter(oracle, ops);
    assert Apply(oracle, s, CacheEntry(peer, entry)) == CacheRecord(oracle, s, peer, entry);
    assert Apply(oracle, s, AnnounceEntry(peer, entry)) == AnnounceRecord(oracle, s, peer, entry);
    RecordPassesExactly(oracle, ops, peer, entry);
    CurrentExactly(peer.compatibility);
    CurrentExactly(entry.compatibility);
    SuitsExactly(entry);
    MayHoldFromHistory(oracle, ops, peer.id, entry);
  }

  /** What a publish is refused for, in order. */
  function PublishRefusal(oracle: Oracle, ops: seq<Op>, peer: Peer, capsule: Capsule): Option<P2pError> {
    var profile := LastProfile(ops, capsule.feedId);
    if !Current(peer.compatibility) then Some(IncompatibleProtocol)
    else if !Current(capsule.compatibility) then Some(Directory(Incompatible))
    else if oracle.checkCapsule(capsule) == Unserialisable then Some(NetworkModel.Proto)
    else if oracle.checkCapsule(capsule) == Forged then Some(InvalidSignature)
    else if profile.None? then Some(FeedNotFound(capsule.feedId))
    else if !Current(profile.value.compatibility) then Some(Directory(Incompatible))
    else if profile.value.peerId != peer.id then Some(SubscriptionDenied(capsule.feedId))
    else None
  }

  lemma PublishRefusalExactly(oracle: Oracle, ops: seq<Op>, peer: Peer, capsule: Capsule)
    ensures PublishError(oracle, StateAfter(oracle, ops), peer, capsule) == PublishRefusal(oracle, ops, peer, capsule)
    ensures PublishRefusal(oracle, ops, peer, capsule).None? <==> MayPublish(oracle, ops, peer, capsule)
  {
    CurrentExactly(peer.compatibility);
    CurrentExactly(capsule.compatibility);
    ProfileFromHistory(oracle, ops, capsule.feedId);
    if LastProfile(ops, capsule.feedId).Some? {
      CurrentExactly(LastProfile(ops, capsule.feedId).value.compatibility);
    }
  }

  /** A capsule that goes through reaches exactly the peers that followed the feed and are
      admitted now, one copy at the end of each inbox, and is remembered. */
  ghost predicate GoesThrough(oracle: Oracle, ops: seq<Op>, capsule: Capsule, step: NetworkModel.Step)
    requires LastProfile(ops, capsule.feedId).Some?
  {
    && HistoryOf(step.state, capsule.feedId) == LastN(Stories(oracle, ops, capsule.feedId) + [capsule], 64)
    && (exists reached: set<PeerId> ::
         && step.output == Delivered(|reached|)
         && AreReached(oracle, ops, capsule.feedId, reached)
         && GotOneMore(StateAfter(oracle, ops), step.state, reached, capsule))
  }

  ghost predicate AreReached(oracle: Oracle, ops: seq<Op>, feed: FeedId, reached: set<PeerId>)
    requires LastProfile(ops, feed).Some?
  {
    forall peer :: peer in reached <==> Followed(oracle, ops, feed, peer) && Admitted(oracle, ops, feed, peer)
  }

  ghost predicate GotOneMore(s: State, after: State, reached: set<PeerId>, capsule: Capsule) {
    forall peer :: InboxOf(after, peer) == InboxOf(s, peer) + if peer in reached then [capsule] else []
  }

  lemma ReachedExactly(oracle: Oracle, ops: seq<Op>, feed: FeedId, peer: PeerId)
    requires LastProfile(ops, feed).Some?
    ensures
      peer in Recipients(StateAfter(oracle, ops), feed, LastProfile(ops, feed).value.visibility) <==>
      Followed(oracle, ops, feed, peer) && Admitted(oracle, ops, feed, peer)
  {
    FollowedFromHistory(oracle, ops, feed, peer);
    AdmittedExactly(oracle, ops, feed, peer);
  }

  lemma RecipientsAreReached(oracle: Oracle, ops: seq<Op>, feed: FeedId)
    requires LastProfile(ops, feed).Some?
    ensures AreReached(oracle, ops, feed, Recipients(StateAfter(oracle, ops), feed, LastProfile(ops, feed).value.visibility))
  {
    forall peer
      ensures
        peer in Recipients(StateAfter(oracle, ops), feed, LastProfile(ops, feed).value.visibility) <==>
        Followed(oracle, ops, feed, peer) && Admitted(oracle, ops, feed, peer)
    {
      ReachedExactly(oracle, ops, feed, peer);
    }
  }

  lemma AcceptedDelivery(s: State, capsule: Capsule)
    requires capsule.feedId in s.feeds
    ensures
      var reached := Recipients(s, capsule.feedId, s.feeds[capsule.feedId].visibility);
      Accept(s, capsule).output == Delivered(|reached|) && GotOneMore(s, Accept(s, capsule).state, reached, capsule)
  {
    var reached := Recipients(s, capsule.feedId, s.feeds[capsule.feedId].visibility);
    forall peer
      ensures InboxOf(Accept(s, capsule).state, peer) == InboxOf(s, peer) + if peer in reached then [capsule] else []
    {
      InboxOfAccepted(s, capsule, peer);
    }
  }

  lemma AcceptGoesThrough(oracle: Oracle, ops: seq<Op>, capsule: Capsule)
    requires LastProfile(ops, capsule.feedId).Some? && capsule.feedId in StateAfter(oracle, ops).feeds
    ensures GoesThrough(oracle, ops, capsule, Accept(StateAfter(oracle, ops), capsule))
  {
    ProfileFromHistory(oracle, ops, capsule.feedId);
    RememberedStories(oracle, ops, capsule);
    RecipientsAreReached(oracle, ops, capsule.feedId);
    AcceptedDelivery(StateAfter(oracle, ops), capsule);
  }

  lemma RememberedStories(oracle: Oracle, ops: seq<Op>, capsule: Capsule)
    requires capsule.feedId in StateAfter(oracle, ops).feeds
    ensures
      HistoryOf(Accept(StateAfter(oracle, ops), capsule).state, capsule.feedId) ==
      LastN(Stories(oracle, ops, capsule.feedId) + [capsule], 64)
  {
    StoriesFromHistory(oracle, ops, capsule.feedId);
    RingIsEndOfLog(oracle, ops, capsule.feedId);
    LastNAbsorbs(Stories(oracle, ops, capsule.feedId), [capsule], 64);
    HistoryOfAccepted(StateAfter(oracle, ops), capsule);
  }

  lemma HistoryOfAccepted(s: State, capsule: Capsule)
    requires capsule.feedId in s.feeds
    ensures HistoryOf(Accept(s, capsule).state, capsule.feedId) == LastN(HistoryOf(s, capsule.feedId) + [capsule], 64)
  {
  }

  lemma InboxOfAccepted(s: State, capsule: Capsule, peer: PeerId)
    requires capsule.feedId in s.feeds
    ensures
      InboxOf(Accept(s, capsule).state, peer) ==
      InboxOf(s, peer) + if peer in Recipients(s, capsule.feedId, s.feeds[capsule.feedId].visibility) then [capsule] else []
  {
  }

  /** Exactly, for every run: a publish is refused in the stated order; one that passes is
      dropped if and only if its score is below 90 and it repeats one of the last 24 stories of
      the feed; otherwise it goes through. */
  lemma PublishOutcome(oracle: Oracle, ops: seq<Op>, peer: Peer, capsule: Capsule)
    ensures
      var s := StateAfter(oracle, ops);
      var step := Apply(oracle, s, Publish(peer, capsule));
      var refusal := PublishRefusal(oracle, ops, peer, capsule);
      if refusal.Some? then step == NetworkModel.Step(s, Failed(refusal.value))
      else if Repeated(oracle, Stories(oracle, ops, capsule.feedId), capsule) then step == NetworkModel.Step(s, Delivered(0))
      else GoesThrough(oracle, ops, capsule, step)
  {
    PublishRefusalExactly(oracle, ops, peer, capsule);
    StoriesFromHistory(oracle, ops, capsule.feedId);
    RingVerdictIsLogVerdict(oracle, ops, capsule);
    RepeatedExactly(oracle, Stories(oracle, ops, capsule.feedId), capsule);
    PublishSteps(oracle, StateAfter(oracle, ops), peer, capsule);
    if PublishRefusal(oracle, ops, peer, capsule).None? {
      AcceptGoesThrough(oracle, ops, capsule);
    }
  }

  lemma PublishSteps(oracle: Oracle, s: State, peer: Peer, capsule: Capsule)
    ensures
      var error := PublishError(oracle, s, peer, capsule);
      && (error.None? ==> capsule.feedId in s.feeds)
      && Apply(oracle, s, Publish(peer, capsule)) ==
         if error.Some? then NetworkModel.Step(s, Failed(error.value))
         else if IsDuplicate(oracle, HistoryOf(s, capsule.feedId), capsule) then NetworkModel.Step(s, Delivered(0))
         else Accept(s, capsule)
  {
  }

  /** Publishing on a topic: refused unless it is the story topic of the feed, and a publish
      otherwise. */
  lemma TopicOutcome(oracle: Oracle, ops: seq<Op>, peer: Peer, topic: string, capsule: Capsule)
    ensures
      var s, profile := StateAfter(oracle, ops), LastProfile(ops, capsule.feedId);
      Apply(oracle, s, PublishOnTopic(peer, topic, capsule)) ==
        if !Current(peer.compatibility) then NetworkModel.Step(s, Failed(IncompatibleProtocol))
        else if profile.None? then NetworkModel.Step(s, Failed(FeedNotFound(capsule.feedId)))
        else if topic != oracle.feedTopic(profile.value.networkId, capsule.feedId) then NetworkModel.Step(s, Failed(InvalidStoryTopic(topic)))
        else Apply(oracle, s, Publish(peer, capsule))
  {
    var s := StateAfter(oracle, ops);
    assert Apply(oracle, s, PublishOnTopic(peer, topic, capsule)) == PublishTopic(oracle, s, peer, topic, capsule);
    assert Apply(oracle, s, Publish(peer, capsule)) == PublishCapsule(oracle, s, peer, capsule);
    CurrentExactly(peer.compatibility);
    ProfileFromHistory(oracle, ops, capsule.feedId);
  }

  /** Who is served a snapshot: everybody for a public feed, its owner, and followers whom the
      feed still admits. What is served is the end of the stories, at most 64. */
  lemma SnapshotOutcome(oracle: Oracle, ops: seq<Op>, peer: Peer, feed: FeedId, limit: nat)
    ensures
      var s, profile := StateAfter(oracle, ops), LastProfile(ops, feed);
      Apply(oracle, s, Snapshot(peer, feed, limit)) == NetworkModel.Step(s,
        if profile.None? then Failed(FeedNotFound(feed))
        else if !Current(profile.value.compatibility) then Failed(Directory(Incompatible))
        else if || profile.value.visibility == Public
                || profile.value.peerId == peer.id
                || (Followed(oracle, ops, feed, peer.id) && Admitted(oracle, ops, feed, peer.id))
        then Capsules(LastN(Stories(oracle, ops, feed), if limit < 64 then limit else 64))
        else Failed(SubscriptionDenied(feed)))
  {
    var s := StateAfter(oracle, ops);
    assert Apply(oracle, s, Snapshot(peer, feed, limit)) == NetworkModel.Step(s, FeedSnapshot(s, peer, feed, limit));
    SnapshotIsEndOfLog(oracle, ops, peer, feed, limit);
    StoriesFromHistory(oracle, ops, feed);
    ProfileFromHistory(oracle, ops, feed);
    if LastProfile(ops, feed).Some? {
      CurrentExactly(LastProfile(ops, feed).value.compatibility);
      FollowedFromHistory(oracle, ops, feed, peer.id);
      AdmittedExactly(oracle, ops, feed, peer.id);
    }
  }

  /** What a peer ever got, drained or waiting. */
  function Arrivals(oracle: Oracle, ops: seq<Op>, peer: PeerId): seq<Capsule> {
    if ops == [] then []
    else
      var past, op := Front(ops), Last(ops);
      var sofar := Arrivals(oracle, past, peer);
      if && (op.Publish? || op.PublishOnTopic?) && Publishes(oracle, past, op, op.capsule.feedId)
         && !Repeated(oracle, Stories(oracle, past, op.capsule.feedId), op.capsule)
         && Followed(oracle, past, op.capsule.feedId, peer) && Admitted(oracle, past, op.capsule.feedId, peer)
      then sofar + [op.capsule]
      else sofar
  }

  lemma AcceptsExactly(oracle: Oracle, ops: seq<Op>, op: Op)
    ensures Accepts(oracle, StateAfter(oracle, ops), op) <==>
      && (op.Publish? || op.PublishOnTopic?) && Publishes(oracle, ops, op, op.capsule.feedId)
      && !Repeated(oracle, Stories(oracle, ops, op.capsule.feedId), op.capsule)
  {
    if op.Publish? || op.PublishOnTopic? {
      StoriesFromHistory(oracle, ops, op.capsule.feedId);
      StoryAccepted(oracle, ops, op, op.capsule.feedId);
    }
  }

  /** Exact delivery, from the history alone: what a peer drained followed by its inbox is what
      its history says arrived. */
  lemma {:induction false} ArrivalsFromHistory(oracle: Oracle, ops: seq<Op>, peer: PeerId)
    ensures Received(oracle, ops, peer) == Arrivals(oracle, ops, peer)
  {
    ExactDelivery(oracle, ops, peer);
    if ops != [] {
      var past, op := Front(ops), Last(ops);
      ExactDelivery(oracle, past, peer);
      ArrivalsFromHistory(oracle, past, peer);
      CollectStep(Stepper(oracle), EMPTY, ops, Accepted(oracle, Reaching(peer)));
      AcceptsExactly(oracle, past, op);
      if Accepts(oracle, StateAfter(oracle, past), op) {
        ProfileFromHistory(oracle, past, op.capsule.feedId);
        ReachedExactly(oracle, past, op.capsule.feedId, peer);
      }
    }
  }

  // ---- discovery ----

  /** The record taken last under the key for the feed. */
  function LastRecord(oracle: Oracle, ops: seq<Op>, key: Key, feed: FeedId): Option<Entry> {
    if ops == [] then None
    else
      var op := Last(ops);
      if && BringsRecord(oracle, Front(ops), op) && op.entry.feedId == feed
         && match key
            case ByUser(user) => op.entry.owner.userId == user
            case ByOrg(org) => op.entry.access.org == Some(org)
            case ByTeam(org, team) => op.entry.access.org == Some(org) && op.entry.access.team == Some(team)
      then Some(op.entry)
      else LastRecord(oracle, Front(ops), key, feed)
  }

  lemma {:induction false} RecordFromHistory(oracle: Oracle, ops: seq<Op>, key: Key, feed: FeedId)
    ensures Filed(StateAfter(oracle, ops), key, feed) == Listed(LastRecord(oracle, ops, key, feed))
  {
    if ops != [] {
      var past, op := Front(ops), Last(ops);
      RecordFromHistory(oracle, past, key, feed);
      BringsExactly(oracle, past, op);
      StepFiled(oracle, Visit(|past|, StateAfter(oracle, past), op), key, feed);
    }
  }

  /** The answer lists exactly these records. */
  ghost predicate Lists(output: Output, record: FeedId -> Option<Entry>) {
    && output.Records?
    && forall feed ::
         && (feed in output.entries <==> record(feed).Some?)
         && (feed in output.entries ==> Some(output.entries[feed]) == record(feed))
  }

  function LastOf(oracle: Oracle, ops: seq<Op>, key: Key): FeedId -> Option<Entry> {
    (feed: FeedId) => LastRecord(oracle, ops, key, feed)
  }

  function LastHeldOf(oracle: Oracle, ops: seq<Op>, user: UserId, peer: PeerId): FeedId -> Option<Entry> {
    (feed: FeedId) =>
      var record := LastRecord(oracle, ops, ByUser(user), feed);
      if record.Some? && MayHold(ops, peer, record.value) then record else None
  }

  /** Discovery by user lists the user's last records that the caller may hold itself. */
  lemma DiscoverUserOutcome(oracle: Oracle, ops: seq<Op>, peer: Peer, user: UserId)
    ensures
      var output := Apply(oracle, StateAfter(oracle, ops), DiscoverUser(peer, user)).output;
      if !Current(peer.compatibility) then output == Failed(IncompatibleProtocol)
      else Lists(output, LastHeldOf(oracle, ops, user, peer.id))
  {
    var s := StateAfter(oracle, ops);
    assert Apply(oracle, s, DiscoverUser(peer, user)).output == FindByUser(s, peer, user);
    CurrentExactly(peer.compatibility);
    forall feed
      ensures Filed(s, ByUser(user), feed) == Listed(LastRecord(oracle, ops, ByUser(user), feed))
      ensures LastRecord(oracle, ops, ByUser(user), feed).Some? ==>
        (CanCacheEntry(s, peer.id, LastRecord(oracle, ops, ByUser(user), feed).value) <==>
         MayHold(ops, peer.id, LastRecord(oracle, ops, ByUser(user), feed).value))
    {
      RecordFromHistory(oracle, ops, ByUser(user), feed);
      if LastRecord(oracle, ops, ByUser(user), feed).Some? {
        MayHoldFromHistory(oracle, ops, peer.id, LastRecord(oracle, ops, ByUser(user), feed).value);
      }
    }
    if Current(peer.compatibility) {
      ListsEach(FindByUser(s, peer, user), LastHeldOf(oracle, ops, user, peer.id), s, ByUser(user));
    }
  }

  lemma ListsEach(output: Output, record: FeedId -> Option<Entry>, s: State, key: Key)
    requires output.Records?
    requires forall feed :: feed in output.entries <==> record(feed).Some?
    requires forall feed :: feed in output.entries ==> [output.entries[feed]] == Filed(s, key, feed)
    requires forall feed :: record(feed).Some? ==> [record(feed).value] == Filed(s, key, feed)
    ensures Lists(output, record)
  {
    forall feed | feed in output.entries
      ensures Some(output.entries[feed]) == record(feed)
    {
      assert [output.entries[feed]][0] == [record(feed).value][0];
    }
  }

  /** Discovery by organisation or team is for those certified, and lists all last records. */
  lemma DiscoverOrgOutcome(oracle: Oracle, ops: seq<Op>, peer: Peer, org: string)
    ensures
      var output := Apply(oracle, StateAfter(oracle, ops), DiscoverOrg(peer, org)).output;
      if !Current(peer.compatibility) then output == Failed(IncompatibleProtocol)
      else if !CertifiedFor(ops, peer.id, Some(org)) then output == Failed(SubscriptionDenied("github-org:" + org))
      else Lists(output, LastOf(oracle, ops, ByOrg(org)))
  {
    var s := StateAfter(oracle, ops);
    assert Apply(oracle, s, DiscoverOrg(peer, org)).output == FindByOrg(s, peer, org);
    CurrentExactly(peer.compatibility);
    HoldsFromHistory(oracle, ops, peer.id, org, "");
    forall feed
      ensures Filed(s, ByOrg(org), feed) == Listed(LastRecord(oracle, ops, ByOrg(org), feed))
    {
      RecordFromHistory(oracle, ops, ByOrg(org), feed);
    }
    if Current(peer.compatibility) && CertifiedFor(ops, peer.id, Some(org)) {
      ListsEach(FindByOrg(s, peer, org), LastOf(oracle, ops, ByOrg(org)), s, ByOrg(org));
    }
  }

  lemma DiscoverTeamOutcome(oracle: Oracle, ops: seq<Op>, peer: Peer, org: string, team: string)
    ensures
      var output := Apply(oracle, StateAfter(oracle, ops), DiscoverTeam(peer, org, team)).output;
      if !Current(peer.compatibility) then output == Failed(IncompatibleProtocol)
      else if !CertifiedForTeam(ops, peer.id, Some(org), Some(team)) then output == Failed(SubscriptionDenied("github-team:" + org + "/" + team))
      else Lists(output, LastOf(oracle, ops, ByTeam(org, team)))
  {
    var s := StateAfter(oracle, ops);
    assert Apply(oracle, s, DiscoverTeam(peer, org, team)).output == FindByTeam(s, peer, org, team);
    CurrentExactly(peer.compatibility);
    HoldsFromHistory(oracle, ops, peer.id, org, team);
    forall feed
      ensures Filed(s, ByTeam(org, team), feed) == Listed(LastRecord(oracle, ops, ByTeam(org, team), feed))
    {
      RecordFromHistory(oracle, ops, ByTeam(org, team), feed);
    }
    if Current(peer.compatibility) && CertifiedForTeam(ops, peer.id, Some(org), Some(team)) {
      ListsEach(FindByTeam(s, peer, org, team), LastOf(oracle, ops, ByTeam(org, team)), s, ByTeam(org, team));
    }
  }

  // ---- participants ----

  /** The operation gives the role: joining, handing off, announcing a feed or a record, caching
      and following each give their own, when they succeed. */
  predicate GivesRole(oracle: Oracle, ops: seq<Op>, op: Op, role: Role) {
    match op
    case Join(peer, roles) => Current(peer.compatibility) && (role == Fabric || role in roles)
    case Handoff(peer, _) => Current(peer.compatibility) && (role == Fabric || role == BrowserHandoff)
    case AnnounceFeed(peer, profile) =>
      && Current(peer.compatibility) && Current(profile.compatibility) && peer.networkId == profile.networkId
      && role == Publisher
    case AnnounceEntry(_, _) => BringsRecord(oracle, ops, op) && role == KadProvider
    case CacheEntry(_, _) => BringsRecord(oracle, ops, op) && (role == Fabric || role == KadProvider)
    case Follow(peer, feed) => MayFollow(oracle, ops, peer, feed) && role == Subscriber
    case _ => false
  }

  predicate HasRole(oracle: Oracle, ops: seq<Op>, peer: PeerId, role: Role) {
    ops != [] && (HasRole(oracle, Front(ops), peer, role) || (Last(ops).peer.id == peer && GivesRole(oracle, Front(ops), Last(ops), role)))
  }

  lemma JoinOutcome(oracle: Oracle, s: State, peer: Peer, roles: set<Role>, addrs: seq<string>)
    ensures Apply(oracle, s, Join(peer, roles)).output == if Current(peer.compatibility) then Done else Failed(IncompatibleProtocol)
    ensures Apply(oracle, s, Handoff(peer, addrs)).output == if Current(peer.compatibility) then Done else Failed(IncompatibleProtocol)
  {
    CurrentExactly(peer.compatibility);
    assert Apply(oracle, s, Join(peer, roles)) == JoinFabric(s, peer, roles);
    assert Apply(oracle, s, Handoff(peer, addrs)) == RegisterHandoff(s, peer, addrs);
  }

  lemma AnnounceOutcome(oracle: Oracle, s: State, peer: Peer, profile: Profile)
    ensures Apply(oracle, s, AnnounceFeed(peer, profile)).output ==
      if !Current(peer.compatibility) then Failed(IncompatibleProtocol)
      else if peer.networkId != profile.networkId then Failed(Directory(NetworkMismatch(peer.networkId, profile.networkId)))
      else if !Current(profile.compatibility) then Failed(Directory(Incompatible))
      else Done
  {
    CurrentExactly(peer.compatibility);
    CurrentExactly(profile.compatibility);
    assert Apply(oracle, s, AnnounceFeed(peer, profile)) == AnnounceProfile(oracle, s, peer, profile);
  }

  lemma CertifyOutcome(oracle: Oracle, s: State, peer: Peer, org: string, teams: set<string>)
    ensures Apply(oracle, s, Certify(peer, org, teams)).output == if Current(peer.compatibility) then Done else Failed(IncompatibleProtocol)
  {
    CurrentExactly(peer.compatibility);
    assert Apply(oracle, s, Certify(peer, org, teams)) == CertifyAccess(s, peer, org, teams);
  }

  lemma EarnsByRegistering(oracle: Oracle, ops: seq<Op>, op: Op, role: Role)
    requires op.Join? || op.Handoff? || op.AnnounceFeed?
    ensures role in RolesGiven(op) && !Apply(oracle, StateAfter(oracle, ops), op).output.Failed? <==> GivesRole(oracle, ops, op, role)
  {
    var s := StateAfter(oracle, ops);
    match op
    case Join(caller, roles) => JoinOutcome(oracle, s, caller, roles, []);
    case Handoff(caller, addrs) => JoinOutcome(oracle, s, caller, {}, addrs);
    case AnnounceFeed(caller, profile) => AnnounceOutcome(oracle, s, caller, profile);
  }

  lemma EarnsByRecordOrFollow(oracle: Oracle, ops: seq<Op>, op: Op, role: Role)
    requires op.AnnounceEntry? || op.CacheEntry? || op.Follow?
    ensures role in RolesGiven(op) && !Apply(oracle, StateAfter(oracle, ops), op).output.Failed? <==> GivesRole(oracle, ops, op, role)
  {
    match op
    case AnnounceEntry(caller, entry) => RecordOutcome(oracle, ops, caller, entry);
    case CacheEntry(caller, entry) => RecordOutcome(oracle, ops, caller, entry);
    case Follow(caller, feed) => FollowOutcome(oracle, ops, caller, feed);
  }

  lemma EarnsExactly(oracle: Oracle, ops: seq<Op>, op: Op, peer: PeerId, role: Role)
    ensures Earns(oracle, StateAfter(oracle, ops), op, peer, role) <==> op.peer.id == peer && GivesRole(oracle, ops, op, role)
  {
    if op.Join? || op.Handoff? || op.AnnounceFeed? {
      EarnsByRegistering(oracle, ops, op, role);
    } else if op.AnnounceEntry? || op.CacheEntry? || op.Follow? {
      EarnsByRecordOrFollow(oracle, ops, op, role);
    }
  }

  /** A participant has exactly the roles its history gave it. */
  lemma {:induction false} RolesFromHistory(oracle: Oracle, ops: seq<Op>, peer: PeerId, role: Role)
    ensures role in RolesIn(StateAfter(oracle, ops), peer) <==> HasRole(oracle, ops, peer, role)
  {
    if ops != [] {
      var past, op := Front(ops), Last(ops);
      RolesFromHistory(oracle, past, peer, role);
      RoleStep(oracle, StateAfter(oracle, past), op, peer, role);
      EarnsExactly(oracle, past, op, peer, role);
    }
  }

  /** The addresses of the peer's last handoff. */
  function LastAddrs(ops: seq<Op>, peer: PeerId): seq<string> {
    if ops == [] then []
    else
      var op := Last(ops);
      if op.Handoff? && op.peer.id == peer && Current(op.peer.compatibility) then op.addrs else LastAddrs(Front(ops), peer)
  }

  function AddrsIn(s: State, peer: PeerId): seq<string> {
    if peer in s.participants then s.participants[peer].handoffAddrs else []
  }

  lemma EnrolKeepsAddrs(s: State, caller: Peer, roles: set<Role>, peer: PeerId)
    ensures AddrsIn(Enrol(s, caller, roles), peer) == AddrsIn(s, peer)
  {
  }

  lemma SuccessAddrs(oracle: Oracle, s: State, op: Op, peer: PeerId)
    ensures AddrsIn(Success(oracle, s, op), peer) == if op.Handoff? && op.peer.id == peer then op.addrs else AddrsIn(s, peer)
  {
    if op.Handoff? {
      HandoffAddrs(oracle, s, op, peer);
    } else if op.Join? {
      JoinedAddrs(oracle, s, op, peer);
    } else if op.AnnounceFeed? {
      AnnouncedAddrs(oracle, s, op, peer);
    } else if op.Follow? {
      FollowedAddrs(oracle, s, op, peer);
    } else if op.AnnounceEntry? || op.CacheEntry? {
      RecordAddrs(oracle, s, op, peer);
    } else if op.Publish? || op.PublishOnTopic? {
      PublishingGivesNoRoles(oracle, s, op);
    } else {
      RestGivesNoRoles(oracle, s, op);
    }
  }

  lemma JoinedAddrs(oracle: Oracle, s: State, op: Op, peer: PeerId)
    requires op.Join?
    ensures AddrsIn(Success(oracle, s, op), peer) == AddrsIn(s, peer)
  {
    EnrolKeepsAddrs(s, op.peer, {Fabric} + op.roles, peer);
  }

  lemma AnnouncedAddrs(oracle: Oracle, s: State, op: Op, peer: PeerId)
    requires op.AnnounceFeed?
    ensures AddrsIn(Success(oracle, s, op), peer) == AddrsIn(s, peer)
  {
    EnrolKeepsAddrs(AddFeed(oracle, s, op.profile), op.peer, {Publisher}, peer);
  }

  lemma FollowedAddrs(oracle: Oracle, s: State, op: Op, peer: PeerId)
    requires op.Follow?
    ensures AddrsIn(Success(oracle, s, op), peer) == AddrsIn(s, peer)
  {
    var subscribed := Subscribe(s, op.feed, op.peer.id);
    var enrolled := Enrol(subscribed, op.peer, {Subscriber});
    EnrolKeepsAddrs(subscribed, op.peer, {Subscriber}, peer);
    assert Success(oracle, s, op) == OpenInbox(enrolled, op.peer.id);
    OpenInboxKeepsAddrs(enrolled, op.peer.id, peer);
  }

  lemma OpenInboxKeepsAddrs(s: State, caller: PeerId, peer: PeerId)
    ensures AddrsIn(OpenInbox(s, caller), peer) == AddrsIn(s, peer)
  {
  }

  lemma HandoffAddrs(oracle: Oracle, s: State, op: Op, peer: PeerId)
    requires op.Handoff?
    ensures AddrsIn(Success(oracle, s, op), peer) == if op.peer.id == peer then op.addrs else AddrsIn(s, peer)
  {
    EnrolKeepsAddrs(s, op.peer, {Fabric, BrowserHandoff}, peer);
  }

  lemma RecordAddrs(oracle: Oracle, s: State, op: Op, peer: PeerId)
    requires op.AnnounceEntry? || op.CacheEntry?
    ensures AddrsIn(Success(oracle, s, op), peer) == AddrsIn(s, peer)
  {
    var roles := if op.CacheEntry? then {Fabric, KadProvider} else {KadProvider};
    var indexed := IndexEntry(s, op.entry);
    assert AddrsIn(indexed, peer) == AddrsIn(s, peer);
    EnrolKeepsAddrs(indexed, op.peer, roles, peer);
  }

  /** A participant lists the addresses of its last handoff, whatever else it does. */
  lemma {:induction false} AddrsFromHistory(oracle: Oracle, ops: seq<Op>, peer: PeerId)
    ensures AddrsIn(StateAfter(oracle, ops), peer) == LastAddrs(ops, peer)
  {
    if ops != [] {
      var past, op := Front(ops), Last(ops);
      var s := StateAfter(oracle, past);
      AddrsFromHistory(oracle, past, peer);
      StepShape(oracle, s, op);
      SuccessAddrs(oracle, s, op, peer);
      if op.Handoff? {
        RegistrationShape(oracle, s, op);
        CurrentExactly(op.peer.compatibility);
      }
    }
  }

  /** A compatible peer drains what waits for it; nobody else drains. */
  lemma DrainOutcome(oracle: Oracle, ops: seq<Op>, peer: Peer)
    ensures
      var s := StateAfter(oracle, ops);
      var step := Apply(oracle, s, Drain(peer));
      && step.output == (if Current(peer.compatibility) then Capsules(InboxOf(s, peer.id)) else Failed(IncompatibleProtocol))
      && InboxOf(step.state, peer.id) == if Current(peer.compatibility) then [] else InboxOf(s, peer.id)
  {
    var s := StateAfter(oracle, ops);
    assert Apply(oracle, s, Drain(peer)) == DrainInbox(s, peer);
    CurrentExactly(peer.compatibility);
  }
}
