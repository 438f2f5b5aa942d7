/** Who may do what in the feed network, over every run: roles, grants, certificates and
    feed profiles are exactly what the run's own operations put there. */
module NetworkMembers {
  import opened Prelude
  import opened Proto
  import opened NetworkModel
  import opened NetworkRuns
  import opened Runs

  // ---- who touches grants, certificates and profiles ----

  /** Grants move by grants only, certificates by certification, profiles by announcement. */
  predicate KeepsTheRest(s: State, op: Op, after: State) {
    && (!op.Grant? ==> after.grants == s.grants)
    && (!op.Certify? ==> after.orgAccess == s.orgAccess)
    && (!op.AnnounceFeed? ==> after.feeds == s.feeds)
  }

  lemma RegistrationsKeepTheRest(oracle: Oracle, s: State, op: Op)
    requires op.Join? || op.Handoff? || op.AnnounceFeed?
    ensures KeepsTheRest(s, op, Success(oracle, s, op))
  {
  }

  lemma RecordsKeepTheRest(oracle: Oracle, s: State, op: Op)
    requires op.AnnounceEntry? || op.CacheEntry?
    ensures KeepsTheRest(s, op, Success(oracle, s, op))
  {
  }

  lemma FollowingKeepsTheRest(oracle: Oracle, s: State, op: Op)
    requires op.Follow?
    ensures KeepsTheRest(s, op, Success(oracle, s, op))
  {
    var enrolled := Enrol(Subscribe(s, op.feed, op.peer.id), op.peer, {Subscriber});
    assert Success(oracle, s, op) == OpenInbox(enrolled, op.peer.id);
  }

  lemma PublishingKeepsTheRest(oracle: Oracle, s: State, op: Op)
    requires op.Publish? || op.PublishOnTopic?
    ensures KeepsTheRest(s, op, Success(oracle, s, op))
  {
    if op.capsule.feedId in s.feeds {
      AcceptKeepsTheRest(s, op.capsule);
    }
  }

  lemma AcceptKeepsTheRest(s: State, capsule: Capsule)
    requires capsule.feedId in s.feeds
    ensures
      var after := Accept(s, capsule).state;
      after.grants == s.grants && after.orgAccess == s.orgAccess && after.feeds == s.feeds
  {
  }

  lemma OthersKeepTheRest(oracle: Oracle, s: State, op: Op)
    ensures KeepsTheRest(s, op, Success(oracle, s, op))
  {
    if op.Join? || op.Handoff? || op.AnnounceFeed? {
      RegistrationsKeepTheRest(oracle, s, op);
    } else if op.AnnounceEntry? || op.CacheEntry? {
      RecordsKeepTheRest(oracle, s, op);
    } else if op.Follow? {
      FollowingKeepsTheRest(oracle, s, op);
    } else if op.Publish? || op.PublishOnTopic? {
      PublishingKeepsTheRest(oracle, s, op);
    }
  }

  // ---- roles ----

  function RolesIn(s: State, peer: PeerId): set<Role> {
    if peer in s.participants then s.participants[peer].roles else {}
  }

  function RolesGiven(op: Op): set<Role> {
    match op
    case Join(_, roles) => {Fabric} + roles
    case Handoff(_, _) => {Fabric, BrowserHandoff}
    case AnnounceFeed(_, _) => {Publisher}
    case AnnounceEntry(_, _) => {KadProvider}
    case CacheEntry(_, _) => {Fabric, KadProvider}
    case Follow(_, _) => {Subscriber}
    case _ => {}
  }

  predicate Earns(oracle: Oracle, s: State, op: Op, peer: PeerId, role: Role) {
    op.peer.id == peer && role in RolesGiven(op) && !Apply(oracle, s, op).output.Failed?
  }

  lemma EnrolRoles(s: State, caller: Peer, roles: set<Role>, peer: PeerId)
    ensures RolesIn(Enrol(s, caller, roles), peer) == RolesIn(s, peer) + if caller.id == peer then roles else {}
  {
  }

  lemma InboxKeepsRoles(s: State, caller: PeerId, peer: PeerId)
    ensures RolesIn(OpenInbox(s, caller), peer) == RolesIn(s, peer)
  {
  }

  lemma RegistrationRoles(oracle: Oracle, s: State, op: Op, peer: PeerId)
    requires op.Join? || op.Handoff? || op.AnnounceFeed?
    ensures RolesIn(Success(oracle, s, op), peer) == RolesIn(s, peer) + if op.peer.id == peer then RolesGiven(op) else {}
  {
    match op
    case Join(caller, roles) => EnrolRoles(s, caller, {Fabric} + roles, peer);
    case Handoff(caller, addrs) => EnrolRoles(s, caller, {Fabric, BrowserHandoff}, peer);
    case AnnounceFeed(caller, profile) => EnrolRoles(AddFeed(oracle, s, profile), caller, {Publisher}, peer);
  }

  lemma RecordRoles(oracle: Oracle, s: State, op: Op, peer: PeerId)
    requires op.AnnounceEntry? || op.CacheEntry?
    ensures RolesIn(Success(oracle, s, op), peer) == RolesIn(s, peer) + if op.peer.id == peer then RolesGiven(op) else {}
  {
    var roles := if op.CacheEntry? then {Fabric, KadProvider} else {KadProvider};
    var indexed := IndexEntry(s, op.entry);
    assert RolesIn(indexed, peer) == RolesIn(s, peer);
    EnrolRoles(indexed, op.peer, roles, peer);
    InboxKeepsRoles(Enrol(indexed, op.peer, roles), op.peer.id, peer);
  }

  lemma FollowRoles(oracle: Oracle, s: State, op: Op, peer: PeerId)
    requires op.Follow?
    ensures RolesIn(Success(oracle, s, op), peer) == RolesIn(s, peer) + if op.peer.id == peer then RolesGiven(op) else {}
  {
    EnrolRoles(Subscribe(s, op.feed, op.peer.id), op.peer, {Subscriber}, peer);
  }

  lemma OthersGiveNoRoles(oracle: Oracle, s: State, op: Op, peer: PeerId)
    requires RolesGiven(op) == {}
    ensures RolesIn(Success(oracle, s, op), peer) == RolesIn(s, peer)
  {
    if op.Publish? || op.PublishOnTopic? {
      PublishingGivesNoRoles(oracle, s, op);
    } else {
      RestGivesNoRoles(oracle, s, op);
    }
  }

  lemma RestGivesNoRoles(oracle: Oracle, s: State, op: Op)
    requires RolesGiven(op) == {} && !op.Publish? && !op.PublishOnTopic?
    ensures Success(oracle, s, op).participants == s.participants
  {
  }

  lemma PublishingGivesNoRoles(oracle: Oracle, s: State, op: Op)
    requires op.Publish? || op.PublishOnTopic?
    ensures Success(oracle, s, op).participants == s.participants
  {
  }

  /** A refused operation changes nothing; one that succeeds and gives roles has its effect. */
  lemma RoleStep(oracle: Oracle, s: State, op: Op, peer: PeerId, role: Role)
    ensures role in RolesIn(Stepper(oracle)(s, op), peer) <==> role in RolesIn(s, peer) || Earns(oracle, s, op, peer, role)
  {
    if RolesGiven(op) == {} {
      OthersGiveNoRoles(oracle, s, op, peer);
      StepShape(oracle, s, op);
    } else if op.Join? || op.Handoff? || op.AnnounceFeed? {
      RegistrationRoles(oracle, s, op, peer);
      RegistrationShape(oracle, s, op);
    } else if op.Follow? {
      FollowRoles(oracle, s, op, peer);
      MembershipShape(oracle, s, op);
    } else {
      RecordRoles(oracle, s, op, peer);
      RecordShape(oracle, s, op);
    }
  }

  /** A participant has a role exactly when one of its own successful operations gave it. */
  lemma RolesAreEarned(oracle: Oracle, ops: seq<Op>, peer: PeerId, role: Role)
    ensures
      role in RolesIn(StateAfter(oracle, ops), peer) <==>
      exists k :: 0 <= k < |ops| && Earns(oracle, StateAfter(oracle, ops[..k]), ops[k], peer, role)
  {
    var sets := (s: State, op: Op) => Earns(oracle, s, op, peer, role);
    forall s: State, op: Op
      ensures role in RolesIn(Stepper(oracle)(s, op), peer) <==> role in RolesIn(s, peer) || sets(s, op)
    {
      RoleStep(oracle, s, op, peer, role);
    }
    Latch(Stepper(oracle), EMPTY, ops, (s: State) => role in RolesIn(s, peer), sets);
    assert forall k | 0 <= k < |ops| ::
      sets(Run(Stepper(oracle), EMPTY, ops[..k]), ops[k]) == Earns(oracle, StateAfter(oracle, ops[..k]), ops[k], peer, role);
  }

  // ---- what the subscriber role tells ----

  predicate JoinsAsSubscriber(op: Op, peer: PeerId) {
    op.Join? && op.peer.id == peer && Subscriber in op.roles && Gate(op.peer).None?
  }

  lemma SubscriberIsEarned(oracle: Oracle, s: State, op: Op, peer: PeerId)
    ensures Earns(oracle, s, op, peer, Subscriber) <==>
      JoinsAsSubscriber(op, peer) || (op.Follow? && Follows(s, op, peer, op.feed))
  {
    match op
    case Join(caller, roles) => assert Apply(oracle, s, op) == JoinFabric(s, caller, roles);
    case Follow(caller, feed) => assert Apply(oracle, s, op) == FollowFeed(s, caller, feed);
    case _ =>
  }

  ghost predicate JoinedAsSubscriber(ops: seq<Op>, peer: PeerId) {
    exists k :: 0 <= k < |ops| && JoinsAsSubscriber(ops[k], peer)
  }

  ghost predicate FollowsSomething(s: State, peer: PeerId) {
    exists feed :: peer in Subscribers(s, feed)
  }

  /** A participant has the subscriber role exactly when it follows something now or asked for
      the role in a join. */
  lemma SubscriberRoleTells(oracle: Oracle, ops: seq<Op>, peer: PeerId)
    ensures
      Subscriber in RolesIn(StateAfter(oracle, ops), peer) <==>
      JoinedAsSubscriber(ops, peer) || FollowsSomething(StateAfter(oracle, ops), peer)
  {
    RolesAreEarned(oracle, ops, peer, Subscriber);
    if k :| 0 <= k < |ops| && Earns(oracle, StateAfter(oracle, ops[..k]), ops[k], peer, Subscriber) {
      SubscriberIsEarned(oracle, StateAfter(oracle, ops[..k]), ops[k], peer);
      if !JoinsAsSubscriber(ops[k], peer) {
        SubscribedIffFollowed(oracle, ops, peer, ops[k].feed);
      }
    }
    if k :| 0 <= k < |ops| && JoinsAsSubscriber(ops[k], peer) {
      SubscriberIsEarned(oracle, StateAfter(oracle, ops[..k]), ops[k], peer);
    }
    if feed :| peer in Subscribers(StateAfter(oracle, ops), feed) {
      SubscribedIffFollowed(oracle, ops, peer, feed);
      var k :| 0 <= k < |ops| && Follows(StateAfter(oracle, ops[..k]), ops[k], peer, feed);
      SubscriberIsEarned(oracle, StateAfter(oracle, ops[..k]), ops[k], peer);
    }
  }

  /** The role alone tells nothing about following: one join gives it to a peer that follows
      nothing. */
  lemma RoleWithoutFollowing(oracle: Oracle, peer: Peer)
    requires Gate(peer).None?
    ensures
      var after := StateAfter(oracle, [Join(peer, {Subscriber})]);
      Subscriber in RolesIn(after, peer.id) && !FollowsSomething(after, peer.id)
  {
    RunLast(Stepper(oracle), EMPTY, [], Join(peer, {Subscriber}));
    assert [] + [Join(peer, {Subscriber})] == [Join(peer, {Subscriber})];
    assert Apply(oracle, EMPTY, Join(peer, {Subscriber})) == JoinFabric(EMPTY, peer, {Subscriber});
  }

  // ---- grants ----

  predicate Issues(s: State, op: Op, feed: FeedId, subscriber: PeerId) {
    op.Grant? && op.feed == feed && op.subscriber.id == subscriber && GrantError(s, op.peer, feed, op.subscriber).None?
  }

  lemma IssueStep(oracle: Oracle, s: State, op: Op, feed: FeedId, subscriber: PeerId)
    ensures (feed, subscriber) in Stepper(oracle)(s, op).grants <==> (feed, subscriber) in s.grants || Issues(s, op, feed, subscriber)
  {
    if op.Grant? {
      if GrantError(s, op.peer, op.feed, op.subscriber).None? {
        assert Apply(oracle, s, op).state == s.(grants := s.grants + {(op.feed, op.subscriber.id)});
      }
    } else {
      StepShape(oracle, s, op);
      OthersKeepTheRest(oracle, s, op);
    }
  }

  /** A grant exists exactly when, earlier in the run, the peer that then owned the feed
      issued it, both sides being compatible. */
  lemma GrantsAreIssued(oracle: Oracle, ops: seq<Op>, feed: FeedId, subscriber: PeerId)
    ensures
      (feed, subscriber) in StateAfter(oracle, ops).grants <==>
      exists k :: 0 <= k < |ops| && Issues(StateAfter(oracle, ops[..k]), ops[k], feed, subscriber)
  {
    var sets := (s: State, op: Op) => Issues(s, op, feed, subscriber);
    forall s: State, op: Op
      ensures (feed, subscriber) in Stepper(oracle)(s, op).grants <==> (feed, subscriber) in s.grants || sets(s, op)
    {
      IssueStep(oracle, s, op, feed, subscriber);
    }
    Latch(Stepper(oracle), EMPTY, ops, (s: State) => (feed, subscriber) in s.grants, sets);
    assert forall k | 0 <= k < |ops| ::
      sets(Run(Stepper(oracle), EMPTY, ops[..k]), ops[k]) == Issues(StateAfter(oracle, ops[..k]), ops[k], feed, subscriber);
  }

  // ---- certificates and profiles: the last one counts ----

  function CertificateOf(s: State, peer: PeerId): seq<OrgAccess> {
    if peer in s.orgAccess then [s.orgAccess[peer]] else []
  }

  function Certified(peer: PeerId): Visit<State, Op> -> seq<OrgAccess> {
    (v: Visit<State, Op>) =>
      if v.act.Certify? && v.act.peer.id == peer && Gate(v.act.peer).None? then [OrgAccess(v.act.org, v.act.teams)] else []
  }

  function ProfileOf(s: State, feed: FeedId): seq<Profile> {
    if feed in s.feeds then [s.feeds[feed]] else []
  }

  function Announced(feed: FeedId): Visit<State, Op> -> seq<Profile> {
    (v: Visit<State, Op>) =>
      if v.act.AnnounceFeed? && v.act.profile.feedId == feed && AnnounceError(v.act.peer, v.act.profile).None?
      then [v.act.profile] else []
  }

  lemma CertifyStep(oracle: Oracle, v: Visit<State, Op>, peer: PeerId)
    ensures CertificateOf(Stepper(oracle)(v.before, v.act), peer) == LastN(CertificateOf(v.before, peer) + Certified(peer)(v), 1)
  {
    StepShape(oracle, v.before, v.act);
    if v.act.Certify? {
      RegistrationShape(oracle, v.before, v.act);
    } else {
      OthersKeepTheRest(oracle, v.before, v.act);
    }
  }

  lemma AnnounceStep(oracle: Oracle, v: Visit<State, Op>, feed: FeedId)
    ensures ProfileOf(Stepper(oracle)(v.before, v.act), feed) == LastN(ProfileOf(v.before, feed) + Announced(feed)(v), 1)
  {
    if v.act.AnnounceFeed? {
      RegistrationShape(oracle, v.before, v.act);
      assert Success(oracle, v.before, v.act).feeds == AddFeed(oracle, v.before, v.act.profile).feeds;
    } else {
      StepShape(oracle, v.before, v.act);
      OthersKeepTheRest(oracle, v.before, v.act);
    }
  }

  /** The organisation access that gates a peer is the last one it certified, and the profile
      that gates a feed is the last one announced for it. */
  lemma LastOneCounts(oracle: Oracle, ops: seq<Op>, peer: PeerId, feed: FeedId)
    ensures CertificateOf(StateAfter(oracle, ops), peer) == LastN(Collect(Visits(Stepper(oracle), EMPTY, ops), Certified(peer)), 1)
    ensures ProfileOf(StateAfter(oracle, ops), feed) == LastN(Collect(Visits(Stepper(oracle), EMPTY, ops), Announced(feed)), 1)
  {
    forall v: Visit<State, Op>
      ensures CertificateOf(Stepper(oracle)(v.before, v.act), peer) == LastN(CertificateOf(v.before, peer) + Certified(peer)(v), 1)
      ensures ProfileOf(Stepper(oracle)(v.before, v.act), feed) == LastN(ProfileOf(v.before, feed) + Announced(feed)(v), 1)
    {
      CertifyStep(oracle, v, peer);
      AnnounceStep(oracle, v, feed);
    }
    Window(Stepper(oracle), EMPTY, ops, 1, (s: State) => CertificateOf(s, peer), Certified(peer));
    Window(Stepper(oracle), EMPTY, ops, 1, (s: State) => ProfileOf(s, feed), Announced(feed));
  }
}
