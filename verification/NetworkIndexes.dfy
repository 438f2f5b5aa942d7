/** The directory indexes of the feed network over every run: each holds, per key and feed,
    exactly the last record accepted under that key, so the indexes agree with each other. */
module NetworkIndexes {
  import opened Prelude
  import opened Proto
  import opened NetworkModel
  import opened NetworkRuns
  import opened Runs

  datatype Key = ByUser(user: UserId) | ByOrg(org: string) | ByTeam(teamOrg: string, team: string)

  predicate FilesUnder(entry: Entry, key: Key) {
    match key
    case ByUser(user) => entry.owner.userId == user
    case ByOrg(org) => entry.access.PermitsOrg(org)
    case ByTeam(org, team) => entry.access.PermitsTeam(org, team)
  }

  /** The record an index holds for the feed under the key, as a sequence of at most one. */
  function Filed(s: State, key: Key, feed: FeedId): (r: seq<Entry>)
    ensures |r| <= 1
  {
    var entries := match key
      case ByUser(user) => Lookup(s.directory, user, map[])
      case ByOrg(org) => Lookup(s.orgDirectory, org, map[])
      case ByTeam(org, team) => Lookup(s.teamDirectory, (org, team), map[]);
    if feed in entries then [entries[feed]] else []
  }

  function AccessFiled(s: State, feed: FeedId): seq<AccessPolicy> {
    if feed in s.feedAccess then [s.feedAccess[feed]] else []
  }

  /** The operation puts its record into the indexes. */
  predicate Indexes(oracle: Oracle, s: State, op: Op) {
    || (op.AnnounceEntry? && RecordError(oracle, s, op.peer, op.entry).None? && op.entry.peerId == op.peer.id)
    || (op.CacheEntry? && RecordError(oracle, s, op.peer, op.entry).None?)
  }

  function Indexed(oracle: Oracle, key: Key, feed: FeedId): Visit<State, Op> -> seq<Entry> {
    (v: Visit<State, Op>) =>
      if Indexes(oracle, v.before, v.act) && v.act.entry.feedId == feed && FilesUnder(v.act.entry, key)
      then [v.act.entry] else []
  }

  function IndexedAccess(oracle: Oracle, feed: FeedId): Visit<State, Op> -> seq<AccessPolicy> {
    (v: Visit<State, Op>) =>
      if Indexes(oracle, v.before, v.act) && v.act.entry.feedId == feed then [v.act.entry.access] else []
  }

  /** All records accepted under the key for the feed, in order. */
  ghost function Records(oracle: Oracle, ops: seq<Op>, key: Key, feed: FeedId): seq<Entry> {
    Collect(Visits(Stepper(oracle), EMPTY, ops), Indexed(oracle, key, feed))
  }

  // ---- one step ----

  predicate SameIndexes(s: State, after: State) {
    && after.directory == s.directory
    && after.orgDirectory == s.orgDirectory
    && after.teamDirectory == s.teamDirectory
    && after.feedAccess == s.feedAccess
  }

  lemma RecordIndexes(oracle: Oracle, s: State, op: Op)
    requires op.AnnounceEntry? || op.CacheEntry?
    ensures
      var after := Apply(oracle, s, op).state;
      if Indexes(oracle, s, op) then SameIndexes(IndexEntry(s, op.entry), after) else after == s
  {
    if Indexes(oracle, s, op) {
      match op
      case AnnounceEntry(peer, entry) =>
        assert Apply(oracle, s, op).state == Enrol(IndexEntry(s, entry), peer, {KadProvider});
      case CacheEntry(peer, entry) =>
        assert Apply(oracle, s, op).state == OpenInbox(Enrol(IndexEntry(s, entry), peer, {Fabric, KadProvider}), peer.id);
    }
  }

  predicate Enrols(op: Op) {
    op.Join? || op.Handoff? || op.AnnounceFeed? || op.Follow?
  }

  lemma EnrolmentIndexes(oracle: Oracle, s: State, op: Op)
    requires Enrols(op)
    ensures SameIndexes(s, Success(oracle, s, op))
  {
    if op.AnnounceFeed? {
      ProfileIndexes(oracle, s, op);
    }
  }

  lemma ProfileIndexes(oracle: Oracle, s: State, op: Op)
    requires op.AnnounceFeed?
    ensures SameIndexes(s, Success(oracle, s, op))
  {
  }

  lemma OtherIndexes(oracle: Oracle, s: State, op: Op)
    requires !Enrols(op) && !op.AnnounceEntry? && !op.CacheEntry? && !op.Publish? && !op.PublishOnTopic?
    ensures SameIndexes(s, Success(oracle, s, op))
  {
  }

  lemma PublishIndexes(oracle: Oracle, s: State, op: Op)
    requires op.Publish? || op.PublishOnTopic?
    ensures SameIndexes(s, Success(oracle, s, op))
  {
    if op.capsule.feedId in s.feeds {
      assert Success(oracle, s, op) == Accept(s, op.capsule).state;
    }
  }

  lemma UnrelatedIndexes(oracle: Oracle, s: State, op: Op)
    requires !op.AnnounceEntry? && !op.CacheEntry?
    ensures SameIndexes(s, Apply(oracle, s, op).state)
  {
    StepShape(oracle, s, op);
    if Enrols(op) {
      EnrolmentIndexes(oracle, s, op);
    } else if op.Publish? || op.PublishOnTopic? {
      PublishIndexes(oracle, s, op);
    } else {
      OtherIndexes(oracle, s, op);
    }
  }

  lemma EntryFiled(s: State, entry: Entry, key: Key, feed: FeedId)
    ensures Filed(IndexEntry(s, entry), key, feed) ==
      if entry.feedId == feed && FilesUnder(entry, key) then [entry] else Filed(s, key, feed)
  {
  }

  lemma StepFiled(oracle: Oracle, v: Visit<State, Op>, key: Key, feed: FeedId)
    ensures
      Filed(Stepper(oracle)(v.before, v.act), key, feed) ==
      LastN(Filed(v.before, key, feed) + Indexed(oracle, key, feed)(v), 1)
  {
    if v.act.AnnounceEntry? || v.act.CacheEntry? {
      RecordIndexes(oracle, v.before, v.act);
      if Indexes(oracle, v.before, v.act) {
        EntryFiled(v.before, v.act.entry, key, feed);
      }
    } else {
      UnrelatedIndexes(oracle, v.before, v.act);
    }
  }

  lemma StepAccessFiled(oracle: Oracle, v: Visit<State, Op>, feed: FeedId)
    ensures
      AccessFiled(Stepper(oracle)(v.before, v.act), feed) ==
      LastN(AccessFiled(v.before, feed) + IndexedAccess(oracle, feed)(v), 1)
  {
    if v.act.AnnounceEntry? || v.act.CacheEntry? {
      RecordIndexes(oracle, v.before, v.act);
    } else {
      UnrelatedIndexes(oracle, v.before, v.act);
    }
  }

  // ---- every run ----

  /** Every index holds exactly the last record accepted under the key for the feed; the
      access policy the gates read is that of the last record accepted for the feed. */
  lemma IndexHoldsLastRecord(oracle: Oracle, ops: seq<Op>, key: Key, feed: FeedId)
    ensures Filed(StateAfter(oracle, ops), key, feed) == LastN(Records(oracle, ops, key, feed), 1)
    ensures AccessFiled(StateAfter(oracle, ops), feed) ==
      LastN(Collect(Visits(Stepper(oracle), EMPTY, ops), IndexedAccess(oracle, feed)), 1)
  {
    forall v: Visit<State, Op>
      ensures Filed(Stepper(oracle)(v.before, v.act), key, feed) == LastN(Filed(v.before, key, feed) + Indexed(oracle, key, feed)(v), 1)
      ensures AccessFiled(Stepper(oracle)(v.before, v.act), feed) == LastN(AccessFiled(v.before, feed) + IndexedAccess(oracle, feed)(v), 1)
    {
      StepFiled(oracle, v, key, feed);
      StepAccessFiled(oracle, v, feed);
    }
    Window(Stepper(oracle), EMPTY, ops, 1, (s: State) => Filed(s, key, feed), Indexed(oracle, key, feed));
    Window(Stepper(oracle), EMPTY, ops, 1, (s: State) => AccessFiled(s, feed), IndexedAccess(oracle, feed));
  }

  /** A record found under a key belongs there, was admitted by every check when it was
      indexed, and is the newest of its kind. */
  lemma FiledRecordBelongs(oracle: Oracle, ops: seq<Op>, key: Key, feed: FeedId) returns (k: nat)
    requires Filed(StateAfter(oracle, ops), key, feed) != []
    ensures
      var entry := Filed(StateAfter(oracle, ops), key, feed)[0];
      && k < |ops| && Indexes(oracle, StateAfter(oracle, ops[..k]), ops[k]) && ops[k].entry == entry
      && entry.feedId == feed && FilesUnder(entry, key)
      && EntryError(oracle, entry).None?
  {
    IndexHoldsLastRecord(oracle, ops, key, feed);
    var log := Records(oracle, ops, key, feed);
    k := CollectMember(Stepper(oracle), EMPTY, ops, Indexed(oracle, key, feed), log[|log| - 1]);
  }

  lemma {:induction false} RecordsNested(oracle: Oracle, ops: seq<Op>, narrow: Key, wide: Key, feed: FeedId)
    requires forall entry: Entry :: FilesUnder(entry, narrow) ==> FilesUnder(entry, wide)
    requires Records(oracle, ops, narrow, feed) != []
    ensures Records(oracle, ops, wide, feed) != []
  {
    CollectStep(Stepper(oracle), EMPTY, ops, Indexed(oracle, narrow, feed));
    CollectStep(Stepper(oracle), EMPTY, ops, Indexed(oracle, wide, feed));
    if Records(oracle, ops[..|ops| - 1], narrow, feed) != [] {
      RecordsNested(oracle, ops[..|ops| - 1], narrow, wide, feed);
    }
  }

  /** Whatever is listed for a team of an organisation is listed for the organisation. */
  lemma TeamFeedsAreOrgFeeds(oracle: Oracle, ops: seq<Op>, org: string, team: string, feed: FeedId)
    requires Filed(StateAfter(oracle, ops), ByTeam(org, team), feed) != []
    ensures Filed(StateAfter(oracle, ops), ByOrg(org), feed) != []
  {
    IndexHoldsLastRecord(oracle, ops, ByTeam(org, team), feed);
    IndexHoldsLastRecord(oracle, ops, ByOrg(org), feed);
    RecordsNested(oracle, ops, ByTeam(org, team), ByOrg(org), feed);
  }

  ghost predicate AccessMatchesListing(s: State, feed: FeedId) {
    AccessFiled(s, feed) != [] <==> exists user :: Filed(s, ByUser(user), feed) != []
  }

  lemma StepAccessMatches(oracle: Oracle, s: State, op: Op, feed: FeedId)
    requires AccessMatchesListing(s, feed)
    ensures AccessMatchesListing(Stepper(oracle)(s, op), feed)
  {
    if op.AnnounceEntry? || op.CacheEntry? {
      RecordIndexes(oracle, s, op);
      if Indexes(oracle, s, op) {
        IndexingKeepsMatch(s, op.entry, feed);
        SameIndexesSameMatch(IndexEntry(s, op.entry), Stepper(oracle)(s, op), feed);
      }
    } else {
      UnrelatedIndexes(oracle, s, op);
      SameIndexesSameMatch(s, Stepper(oracle)(s, op), feed);
    }
  }

  lemma SameIndexesSameMatch(s: State, after: State, feed: FeedId)
    requires SameIndexes(s, after)
    ensures AccessMatchesListing(s, feed) <==> AccessMatchesListing(after, feed)
  {
    assert forall user :: Filed(s, ByUser(user), feed) == Filed(after, ByUser(user), feed);
  }

  lemma IndexingKeepsMatch(s: State, entry: Entry, feed: FeedId)
    requires AccessMatchesListing(s, feed)
    ensures AccessMatchesListing(IndexEntry(s, entry), feed)
  {
    var after := IndexEntry(s, entry);
    if entry.feedId == feed {
      EntryFiled(s, entry, ByUser(entry.owner.userId), feed);
      assert Filed(after, ByUser(entry.owner.userId), feed) != [];
    } else {
      forall user
        ensures Filed(after, ByUser(user), feed) == Filed(s, ByUser(user), feed)
      {
        EntryFiled(s, entry, ByUser(user), feed);
      }
    }
  }

  /** The gates have a policy for a feed exactly when some user lists the feed. */
  lemma AccessKnownIffListed(oracle: Oracle, ops: seq<Op>, feed: FeedId)
    ensures AccessMatchesListing(StateAfter(oracle, ops), feed)
  {
    forall s: State, op: Op | AccessMatchesListing(s, feed)
      ensures AccessMatchesListing(Stepper(oracle)(s, op), feed)
    {
      StepAccessMatches(oracle, s, op, feed);
    }
    Invariant(Stepper(oracle), EMPTY, ops, (s: State) => AccessMatchesListing(s, feed));
  }

  // ---- profiles, topics and roles ----

  predicate TopicsMatch(oracle: Oracle, s: State) {
    && s.topics.Keys == s.feeds.Keys
    && forall feed :: feed in s.feeds ==>
      && s.feeds[feed].feedId == feed
      && s.topics[feed] == oracle.feedTopic(s.feeds[feed].networkId, feed)
  }

  predicate EnrolledSubscriber(s: State, peer: PeerId) {
    peer in s.participants && Subscriber in s.participants[peer].roles && peer in s.inboxes
  }

  predicate SubscribersEnrolled(s: State) {
    forall feed :: feed in s.subscriptions ==> forall peer :: peer in s.subscriptions[feed] ==> EnrolledSubscriber(s, peer)
  }

  lemma SuccessFeeds(oracle: Oracle, s: State, op: Op)
    requires !op.AnnounceFeed?
    ensures Success(oracle, s, op).feeds == s.feeds && Success(oracle, s, op).topics == s.topics
  {
    if op.Publish? || op.PublishOnTopic? {
      PublishingKeepsFeeds(oracle, s, op);
    } else if op.AnnounceEntry? || op.CacheEntry? {
      RecordsKeepFeeds(oracle, s, op);
    } else if op.Join? || op.Handoff? || op.Follow? {
      EnrolmentKeepsFeeds(oracle, s, op);
    }
  }

  lemma EnrolmentKeepsFeeds(oracle: Oracle, s: State, op: Op)
    requires op.Join? || op.Handoff? || op.Follow?
    ensures Success(oracle, s, op).feeds == s.feeds && Success(oracle, s, op).topics == s.topics
  {
  }

  lemma PublishingKeepsFeeds(oracle: Oracle, s: State, op: Op)
    requires op.Publish? || op.PublishOnTopic?
    ensures Success(oracle, s, op).feeds == s.feeds && Success(oracle, s, op).topics == s.topics
  {
  }

  lemma RecordsKeepFeeds(oracle: Oracle, s: State, op: Op)
    requires op.AnnounceEntry? || op.CacheEntry?
    ensures Success(oracle, s, op).feeds == s.feeds && Success(oracle, s, op).topics == s.topics
  {
  }

  lemma AddFeedKeepsTopics(oracle: Oracle, s: State, profile: Profile)
    requires TopicsMatch(oracle, s)
    ensures TopicsMatch(oracle, AddFeed(oracle, s, profile))
  {
  }

  lemma SuccessKeepsTopics(oracle: Oracle, s: State, op: Op)
    requires TopicsMatch(oracle, s)
    ensures TopicsMatch(oracle, Success(oracle, s, op))
  {
    if op.AnnounceFeed? {
      AddFeedKeepsTopics(oracle, s, op.profile);
      assert Success(oracle, s, op).feeds == AddFeed(oracle, s, op.profile).feeds;
      assert Success(oracle, s, op).topics == AddFeed(oracle, s, op.profile).topics;
    } else {
      SuccessFeeds(oracle, s, op);
    }
  }

  ghost predicate KeepsEnrolment(s: State, op: Op, after: State) {
    && (forall peer :: EnrolledSubscriber(s, peer) ==> EnrolledSubscriber(after, peer))
    && (if op.Follow? then
          && after.subscriptions == Subscribe(s, op.feed, op.peer.id).subscriptions
          && EnrolledSubscriber(after, op.peer.id)
        else after.subscriptions == s.subscriptions)
  }

  lemma PublishingKeepsEnrolment(oracle: Oracle, s: State, op: Op)
    requires op.Publish? || op.PublishOnTopic?
    ensures KeepsEnrolment(s, op, Success(oracle, s, op))
  {
  }

  lemma RecordsKeepEnrolment(oracle: Oracle, s: State, op: Op)
    requires op.AnnounceEntry? || op.CacheEntry?
    ensures KeepsEnrolment(s, op, Success(oracle, s, op))
  {
  }

  /** Enrolled subscribers stay enrolled, and only a follow adds a subscriber. */
  lemma SuccessKeepsEnrolment(oracle: Oracle, s: State, op: Op)
    ensures KeepsEnrolment(s, op, Success(oracle, s, op))
  {
    if op.Publish? || op.PublishOnTopic? {
      PublishingKeepsEnrolment(oracle, s, op);
    } else if op.AnnounceEntry? || op.CacheEntry? {
      RecordsKeepEnrolment(oracle, s, op);
    }
  }

  /** In every reachable state feed profiles and topics have the same feeds, every topic is
      the one derived from the stored profile, and every subscriber is an enrolled
      participant with the subscriber role and an inbox. */
  lemma ProfilesAndRoles(oracle: Oracle, ops: seq<Op>)
    ensures TopicsMatch(oracle, StateAfter(oracle, ops))
    ensures SubscribersEnrolled(StateAfter(oracle, ops))
  {
    var holds := (s: State) => TopicsMatch(oracle, s) && SubscribersEnrolled(s);
    forall s: State, op: Op | holds(s)
      ensures holds(Stepper(oracle)(s, op))
    {
      StepShape(oracle, s, op);
      SuccessKeepsTopics(oracle, s, op);
      SuccessKeepsEnrolment(oracle, s, op);
    }
    Invariant(Stepper(oracle), EMPTY, ops, holds);
  }
}
