/** What every run of the feed network keeps. A run is any sequence of operations by any
    peers, from the empty network; the ghost logs below are rebuilt from the run alone. */
module NetworkRuns {
  import opened Prelude
  import opened Proto
  import opened NetworkModel
  import opened Runs

  // ---- runs and their logs ----

  function Stepper(oracle: Oracle): (State, Op) -> State {
    (s: State, op: Op) => Apply(oracle, s, op).state
  }

  ghost function StateAfter(oracle: Oracle, ops: seq<Op>): State {
    Run(Stepper(oracle), EMPTY, ops)
  }

  /** A publish attempt that passes every check and is not suppressed as a repeat. */
  predicate Accepts(oracle: Oracle, s: State, op: Op) {
    && (|| (op.Publish? && PublishError(oracle, s, op.peer, op.capsule).None?)
        || (op.PublishOnTopic? && TopicError(oracle, s, op.peer, op.topic, op.capsule).None?))
    && !IsDuplicate(oracle, HistoryOf(s, op.capsule.feedId), op.capsule)
  }

  /** Picks the accepted capsules that satisfy `keep` in the state their publish met. */
  function Accepted(oracle: Oracle, keep: (State, Capsule) -> bool): Visit<State, Op> -> seq<Capsule> {
    (v: Visit<State, Op>) =>
      if Accepts(oracle, v.before, v.act) && keep(v.before, v.act.capsule) then [v.act.capsule] else []
  }

  /** The global log of accepted capsules, restricted by `keep`. */
  ghost function Log(oracle: Oracle, ops: seq<Op>, keep: (State, Capsule) -> bool): seq<Capsule> {
    Collect(Visits(Stepper(oracle), EMPTY, ops), Accepted(oracle, keep))
  }

  /** The peer is subscribed to the capsule's feed, and the access rules admit it, right now. */
  predicate Reaches(s: State, capsule: Capsule, peer: PeerId) {
    var feed := capsule.feedId;
    && feed in s.feeds
    && peer in Subscribers(s, feed)
    && CanReceive(s, feed, peer, s.feeds[feed].visibility)
  }

  function Reaching(peer: PeerId): (State, Capsule) -> bool {
    (s: State, capsule: Capsule) => Reaches(s, capsule, peer)
  }

  function On(feed: FeedId): (State, Capsule) -> bool {
    (s: State, capsule: Capsule) => capsule.feedId == feed
  }

  function InboxOf(s: State, peer: PeerId): seq<Capsule> {
    Lookup(s.inboxes, peer, [])
  }

  /** What one operation hands over to the peer. */
  function HandedOver(oracle: Oracle, s: State, op: Op, peer: PeerId): seq<Capsule> {
    var output := Apply(oracle, s, op).output;
    if op.Drain? && op.peer.id == peer && output.Capsules? then output.capsules else []
  }

  function HandsOver(oracle: Oracle, peer: PeerId): Visit<State, Op> -> seq<Capsule> {
    (v: Visit<State, Op>) => HandedOver(oracle, v.before, v.act, peer)
  }

  ghost function Drained(oracle: Oracle, ops: seq<Op>, peer: PeerId): seq<Capsule> {
    Collect(Visits(Stepper(oracle), EMPTY, ops), HandsOver(oracle, peer))
  }

  /** Everything the peer ever got: what it drained, then what waits in its inbox. */
  ghost function Received(oracle: Oracle, ops: seq<Op>, peer: PeerId): seq<Capsule> {
    Drained(oracle, ops, peer) + InboxOf(StateAfter(oracle, ops), peer)
  }

  lemma AcceptsStep(oracle: Oracle, s: State, op: Op)
    requires Accepts(oracle, s, op)
    ensures op.capsule.feedId in s.feeds
    ensures Apply(oracle, s, op) == Accept(s, op.capsule)
  {
  }

  lemma RefusedPublishStep(oracle: Oracle, s: State, op: Op)
    requires op.Publish? || op.PublishOnTopic?
    requires !Accepts(oracle, s, op)
    ensures Apply(oracle, s, op).state == s
    ensures Apply(oracle, s, op).output.Failed? || Apply(oracle, s, op).output == Delivered(0)
  {
  }

  // ---- the shape of a step ----

  /** The state a successful operation leaves; reads leave it alone. */
  function Success(oracle: Oracle, s: State, op: Op): State {
    match op
    case Join(peer, roles) => OpenInbox(Enrol(s, peer, {Fabric} + roles), peer.id)
    case Handoff(peer, addrs) => OpenInbox(ListAddrs(Enrol(s, peer, {Fabric, BrowserHandoff}), peer.id, addrs), peer.id)
    case AnnounceFeed(peer, profile) => OpenInbox(Enrol(AddFeed(oracle, s, profile), peer, {Publisher}), peer.id)
    case AnnounceEntry(peer, entry) => Enrol(IndexEntry(s, entry), peer, {KadProvider})
    case CacheEntry(peer, entry) => OpenInbox(Enrol(IndexEntry(s, entry), peer, {Fabric, KadProvider}), peer.id)
    case Certify(peer, org, teams) => s.(orgAccess := s.orgAccess[peer.id := OrgAccess(org, teams)])
    case Follow(peer, feed) => OpenInbox(Enrol(Subscribe(s, feed, peer.id), peer, {Subscriber}), peer.id)
    case Grant(peer, feed, subscriber) => s.(grants := s.grants + {(feed, subscriber.id)})
    case Drain(peer) => s.(inboxes := s.inboxes[peer.id := []])
    case Publish(_, capsule) => if capsule.feedId in s.feeds then Accept(s, capsule).state else s
    case PublishOnTopic(_, _, capsule) => if capsule.feedId in s.feeds then Accept(s, capsule).state else s
    case _ => s
  }

  lemma RegistrationShape(oracle: Oracle, s: State, op: Op)
    requires op.Join? || op.Handoff? || op.AnnounceFeed? || op.Certify?
    ensures Apply(oracle, s, op).state == if Apply(oracle, s, op).output.Failed? then s else Success(oracle, s, op)
  {
  }

  lemma RecordShape(oracle: Oracle, s: State, op: Op)
    requires op.AnnounceEntry? || op.CacheEntry?
    ensures Apply(oracle, s, op).state == if Apply(oracle, s, op).output.Failed? then s else Success(oracle, s, op)
  {
  }

  lemma MembershipShape(oracle: Oracle, s: State, op: Op)
    requires op.Follow? || op.Grant? || op.Drain?
    ensures Apply(oracle, s, op).state == if Apply(oracle, s, op).output.Failed? then s else Success(oracle, s, op)
  {
  }

  /** A refused operation, and a suppressed publish, leave the network as it was. */
  lemma StepShape(oracle: Oracle, s: State, op: Op)
    ensures Apply(oracle, s, op).output.Failed? ==> Apply(oracle, s, op).state == s
    ensures Apply(oracle, s, op).state == s || Apply(oracle, s, op).state == Success(oracle, s, op)
  {
    if op.Publish? || op.PublishOnTopic? {
      PublishShape(oracle, s, op);
    } else if op.Follow? || op.Grant? || op.Drain? {
      MembershipShape(oracle, s, op);
    } else if op.AnnounceEntry? || op.CacheEntry? {
      RecordShape(oracle, s, op);
    } else if op.Join? || op.Handoff? || op.AnnounceFeed? || op.Certify? {
      RegistrationShape(oracle, s, op);
    } else {
      ReadShape(oracle, s, op);
    }
  }

  lemma PublishShape(oracle: Oracle, s: State, op: Op)
    requires op.Publish? || op.PublishOnTopic?
    ensures Apply(oracle, s, op).output.Failed? ==> Apply(oracle, s, op).state == s
    ensures Apply(oracle, s, op).state == s || Apply(oracle, s, op).state == Success(oracle, s, op)
  {
    if Accepts(oracle, s, op) {
      AcceptsStep(oracle, s, op);
    } else {
      RefusedPublishStep(oracle, s, op);
    }
  }

  lemma ReadShape(oracle: Oracle, s: State, op: Op)
    requires op.DiscoverUser? || op.DiscoverOrg? || op.DiscoverTeam? || op.Snapshot?
    ensures Apply(oracle, s, op).state == s
  {
  }

  // ---- what one step does to the parts of the state that delivery depends on ----

  predicate Drains(s: State, op: Op, peer: PeerId) {
    op.Drain? && op.peer.id == peer && Gate(op.peer).None?
  }

  predicate Follows(s: State, op: Op, peer: PeerId, feed: FeedId) {
    op.Follow? && op.peer.id == peer && op.feed == feed && FollowError(s, op.peer, feed).None?
  }

  predicate Effects(oracle: Oracle, s: State, op: Op, after: State) {
    && s.grants <= after.grants
    && after.history == (
      if Accepts(oracle, s, op)
      then s.history[op.capsule.feedId := LastN(HistoryOf(s, op.capsule.feedId) + [op.capsule], HISTORY_CAPACITY)]
      else s.history)
    && after.subscriptions == (
      if op.Follow? && FollowError(s, op.peer, op.feed).None?
      then s.subscriptions[op.feed := Subscribers(s, op.feed) + {op.peer.id}]
      else s.subscriptions)
    && (if Accepts(oracle, s, op) then
          && op.capsule.feedId in s.feeds
          && after.inboxes == Deliver(s.inboxes, Recipients(s, op.capsule.feedId, s.feeds[op.capsule.feedId].visibility), op.capsule)
        else if op.Drain? && Gate(op.peer).None? then
          after.inboxes == s.inboxes[op.peer.id := []]
        else
          after.inboxes == s.inboxes || after.inboxes == OpenInbox(s, op.peer.id).inboxes)
  }

  /** Nothing moves but, at most, an empty inbox opened for the caller. */
  predicate Quiet(s: State, after: State, peer: PeerId) {
    && after.history == s.history
    && after.subscriptions == s.subscriptions
    && after.grants == s.grants
    && (after.inboxes == s.inboxes || after.inboxes == OpenInbox(s, peer).inboxes)
  }

  predicate Housekeeping(op: Op) {
    !op.Follow? && !op.Grant? && !op.Publish? && !op.PublishOnTopic? && !op.Drain?
  }

  lemma HousekeepingIsQuiet(oracle: Oracle, s: State, op: Op)
    requires Housekeeping(op)
    ensures Quiet(s, Success(oracle, s, op), op.peer.id)
  {
  }

  lemma QuietEffects(oracle: Oracle, s: State, op: Op, after: State)
    requires Housekeeping(op)
    requires Quiet(s, after, op.peer.id)
    ensures Effects(oracle, s, op, after)
  {
  }

  /** For an operation that is not a publish, the effects are those of the other fields. */
  lemma UnpublishedEffects(oracle: Oracle, s: State, op: Op, after: State)
    requires !op.Publish? && !op.PublishOnTopic?
    requires s.grants <= after.grants && after.history == s.history
    requires after.subscriptions ==
      if op.Follow? && FollowError(s, op.peer, op.feed).None?
      then s.subscriptions[op.feed := Subscribers(s, op.feed) + {op.peer.id}]
      else s.subscriptions
    requires
      if op.Drain? && Gate(op.peer).None? then after.inboxes == s.inboxes[op.peer.id := []]
      else after.inboxes == s.inboxes || after.inboxes == OpenInbox(s, op.peer.id).inboxes
    ensures Effects(oracle, s, op, after)
  {
  }

  lemma FollowEffects(oracle: Oracle, s: State, peer: Peer, feed: FeedId)
    ensures Effects(oracle, s, Follow(peer, feed), FollowFeed(s, peer, feed).state)
  {
    var after := FollowFeed(s, peer, feed).state;
    if FollowError(s, peer, feed).None? {
      assert after == OpenInbox(Enrol(Subscribe(s, feed, peer.id), peer, {Subscriber}), peer.id);
    }
    UnpublishedEffects(oracle, s, Follow(peer, feed), after);
  }

  lemma GrantEffects(oracle: Oracle, s: State, peer: Peer, feed: FeedId, subscriber: Peer)
    ensures Effects(oracle, s, Grant(peer, feed, subscriber), GrantSubscription(s, peer, feed, subscriber).state)
  {
    if GrantError(s, peer, feed, subscriber).None? {
      var after := s.(grants := s.grants + {(feed, subscriber.id)});
      assert GrantSubscription(s, peer, feed, subscriber).state == after;
      UnpublishedEffects(oracle, s, Grant(peer, feed, subscriber), after);
    } else {
      UnpublishedEffects(oracle, s, Grant(peer, feed, subscriber), s);
    }
  }

  lemma DrainEffects(oracle: Oracle, s: State, peer: Peer)
    ensures Effects(oracle, s, Drain(peer), DrainInbox(s, peer).state)
  {
    if Gate(peer).None? {
      var after := s.(inboxes := s.inboxes[peer.id := []]);
      assert DrainInbox(s, peer).state == after;
      UnpublishedEffects(oracle, s, Drain(peer), after);
    } else {
      UnpublishedEffects(oracle, s, Drain(peer), s);
    }
  }

  lemma MembershipEffects(oracle: Oracle, s: State, op: Op)
    requires op.Follow? || op.Grant? || op.Drain?
    ensures Effects(oracle, s, op, Apply(oracle, s, op).state)
  {
    match op
    case Follow(peer, feed) => FollowEffects(oracle, s, peer, feed);
    case Grant(peer, feed, subscriber) => GrantEffects(oracle, s, peer, feed, subscriber);
    case Drain(peer) => DrainEffects(oracle, s, peer);
  }

  lemma PublishEffects(oracle: Oracle, s: State, op: Op)
    requires op.Publish? || op.PublishOnTopic?
    ensures Effects(oracle, s, op, Apply(oracle, s, op).state)
  {
    if Accepts(oracle, s, op) {
      AcceptsStep(oracle, s, op);
    } else {
      RefusedPublishStep(oracle, s, op);
    }
  }

  lemma StepEffects(oracle: Oracle, s: State, op: Op)
    ensures Effects(oracle, s, op, Apply(oracle, s, op).state)
  {
    if Housekeeping(op) {
      StepShape(oracle, s, op);
      HousekeepingIsQuiet(oracle, s, op);
      QuietEffects(oracle, s, op, Apply(oracle, s, op).state);
    } else if op.Publish? || op.PublishOnTopic? {
      PublishEffects(oracle, s, op);
    } else {
      MembershipEffects(oracle, s, op);
    }
  }

  lemma InboxEffect(oracle: Oracle, s: State, op: Op, after: State, peer: PeerId)
    requires Effects(oracle, s, op, after)
    ensures
      InboxOf(after, peer) ==
        if Drains(s, op, peer) then []
        else if Accepts(oracle, s, op) && Reaches(s, op.capsule, peer) then InboxOf(s, peer) + [op.capsule]
        else InboxOf(s, peer)
  {
  }

  // ---- exact delivery ----

  lemma DrainedByStep(oracle: Oracle, s: State, op: Op, peer: PeerId)
    ensures HandedOver(oracle, s, op, peer) == if Drains(s, op, peer) then InboxOf(s, peer) else []
  {
    if op.Drain? {
      assert Apply(oracle, s, op) == DrainInbox(s, op.peer);
    }
  }

  /** One step neither loses, invents, repeats nor reorders a capsule for any peer. */
  lemma DeliveryOfStep(oracle: Oracle, s: State, op: Op, peer: PeerId)
    ensures
      HandedOver(oracle, s, op, peer) + InboxOf(Apply(oracle, s, op).state, peer) ==
      InboxOf(s, peer) + if Accepts(oracle, s, op) && Reaches(s, op.capsule, peer) then [op.capsule] else []
  {
    StepEffects(oracle, s, op);
    InboxEffect(oracle, s, op, Apply(oracle, s, op).state, peer);
    DrainedByStep(oracle, s, op, peer);
  }

  lemma StepDelivery(oracle: Oracle, v: Visit<State, Op>, peer: PeerId)
    ensures
      HandsOver(oracle, peer)(v) + InboxOf(Stepper(oracle)(v.before, v.act), peer) ==
      InboxOf(v.before, peer) + Accepted(oracle, Reaching(peer))(v)
  {
    DeliveryOfStep(oracle, v.before, v.act, peer);
  }

  /** For every peer and every run: what it drained followed by its inbox is, in order and
      exactly once each, the log of accepted capsules restricted to those published while it
      was subscribed and admitted. */
  lemma ExactDelivery(oracle: Oracle, ops: seq<Op>, peer: PeerId)
    ensures Received(oracle, ops, peer) == Log(oracle, ops, Reaching(peer))
  {
    forall v: Visit<State, Op>
      ensures HandsOver(oracle, peer)(v) + InboxOf(Stepper(oracle)(v.before, v.act), peer) ==
              InboxOf(v.before, peer) + Accepted(oracle, Reaching(peer))(v)
    {
      StepDelivery(oracle, v, peer);
    }
    Conservation(Stepper(oracle), EMPTY, ops, (s: State) => InboxOf(s, peer), HandsOver(oracle, peer), Accepted(oracle, Reaching(peer)));
  }

  // ---- conservation of copies ----

  function CountDelivered(oracle: Oracle): Visit<State, Op> -> nat {
    (v: Visit<State, Op>) =>
      var output := Apply(oracle, v.before, v.act).output;
      if output.Delivered? then output.count else 0
  }

  function CountDrained(oracle: Oracle): Visit<State, Op> -> nat {
    (v: Visit<State, Op>) =>
      var output := Apply(oracle, v.before, v.act).output;
      if v.act.Drain? && output.Capsules? then |output.capsules| else 0
  }

  lemma {:induction false} DeliverTotal(inboxes: map<PeerId, seq<Capsule>>, recipients: set<PeerId>, capsule: Capsule)
    ensures TotalLength(Deliver(inboxes, recipients, capsule)) == TotalLength(inboxes) + |recipients|
    decreases |recipients|
  {
    if recipients == {} {
      DeliverNobody(inboxes, capsule);
    } else {
      var peer :| peer in recipients;
      var others := recipients - {peer};
      DeliverTotal(inboxes, others, capsule);
      DeliverOneMore(inboxes, others, capsule, peer);
      assert others + {peer} == recipients;
      var sofar := Deliver(inboxes, others, capsule);
      TotalLengthUpdate(sofar, peer, Lookup(sofar, peer, []) + [capsule]);
    }
  }

  lemma OutputOfStep(oracle: Oracle, s: State, op: Op)
    ensures
      var output := Apply(oracle, s, op).output;
      if Accepts(oracle, s, op) then
        op.capsule.feedId in s.feeds
        && output == Delivered(|Recipients(s, op.capsule.feedId, s.feeds[op.capsule.feedId].visibility)|)
      else if op.Drain? && Gate(op.peer).None? then
        output == Capsules(InboxOf(s, op.peer.id))
      else
        (output.Delivered? ==> output.count == 0) && (op.Drain? ==> output.Failed?)
  {
    if Accepts(oracle, s, op) {
      AcceptsStep(oracle, s, op);
    } else if op.Publish? || op.PublishOnTopic? {
      RefusedPublishStep(oracle, s, op);
    } else if op.Drain? {
      assert Apply(oracle, s, op) == DrainInbox(s, op.peer);
    } else {
      SilentOutput(oracle, s, op);
    }
  }

  lemma SilentOutput(oracle: Oracle, s: State, op: Op)
    requires !op.Publish? && !op.PublishOnTopic? && !op.Drain?
    ensures !Apply(oracle, s, op).output.Delivered?
  {
  }

  lemma StepBalance(oracle: Oracle, v: Visit<State, Op>)
    ensures
      CountDrained(oracle)(v) + TotalLength(Stepper(oracle)(v.before, v.act).inboxes) ==
      TotalLength(v.before.inboxes) + CountDelivered(oracle)(v)
  {
    var s, op := v.before, v.act;
    StepEffects(oracle, s, op);
    OutputOfStep(oracle, s, op);
    if Accepts(oracle, s, op) {
      DeliverTotal(s.inboxes, Recipients(s, op.capsule.feedId, s.feeds[op.capsule.feedId].visibility), op.capsule);
    } else {
      TotalLengthUpdate(s.inboxes, op.peer.id, []);
      TotalLengthUpdate(s.inboxes, op.peer.id, InboxOf(s, op.peer.id));
    }
  }

  /** Over every run, the delivery counts that publishers were told add up to the copies
      drained so far plus the copies still waiting in all inboxes. */
  lemma DeliveryBalance(oracle: Oracle, ops: seq<Op>)
    ensures
      Sum(Visits(Stepper(oracle), EMPTY, ops), CountDelivered(oracle)) ==
      Sum(Visits(Stepper(oracle), EMPTY, ops), CountDrained(oracle)) + TotalLength(StateAfter(oracle, ops).inboxes)
  {
    forall v: Visit<State, Op>
      ensures CountDrained(oracle)(v) + TotalLength(Stepper(oracle)(v.before, v.act).inboxes) ==
              TotalLength(v.before.inboxes) + CountDelivered(oracle)(v)
    {
      StepBalance(oracle, v);
    }
    Balance(Stepper(oracle), EMPTY, ops, (s: State) => TotalLength(s.inboxes), CountDrained(oracle), CountDelivered(oracle));
  }

  // ---- the history ring ----

  lemma StepHistory(oracle: Oracle, v: Visit<State, Op>, feed: FeedId)
    ensures
      var after := Stepper(oracle)(v.before, v.act);
      || (HistoryOf(after, feed) == HistoryOf(v.before, feed) && Accepted(oracle, On(feed))(v) == [])
      || HistoryOf(after, feed) == LastN(HistoryOf(v.before, feed) + Accepted(oracle, On(feed))(v), HISTORY_CAPACITY)
  {
    StepEffects(oracle, v.before, v.act);
  }

  /** Each feed's ring is exactly the last 64 of all capsules ever accepted on the feed. */
  lemma RingIsEndOfLog(oracle: Oracle, ops: seq<Op>, feed: FeedId)
    ensures HistoryOf(StateAfter(oracle, ops), feed) == LastN(Log(oracle, ops, On(feed)), HISTORY_CAPACITY)
  {
    forall v: Visit<State, Op>
      ensures
        var after := Stepper(oracle)(v.before, v.act);
        || (HistoryOf(after, feed) == HistoryOf(v.before, feed) && Accepted(oracle, On(feed))(v) == [])
        || HistoryOf(after, feed) == LastN(HistoryOf(v.before, feed) + Accepted(oracle, On(feed))(v), HISTORY_CAPACITY)
    {
      StepHistory(oracle, v, feed);
    }
    Window(Stepper(oracle), EMPTY, ops, HISTORY_CAPACITY, (s: State) => HistoryOf(s, feed), Accepted(oracle, On(feed)));
  }

  /** The duplicate check on the ring gives the verdict of the same check on the whole log. */
  lemma RingVerdictIsLogVerdict(oracle: Oracle, ops: seq<Op>, capsule: Capsule)
    ensures
      IsDuplicate(oracle, HistoryOf(StateAfter(oracle, ops), capsule.feedId), capsule) <==>
      IsDuplicate(oracle, Log(oracle, ops, On(capsule.feedId)), capsule)
  {
    RingIsEndOfLog(oracle, ops, capsule.feedId);
    LastNNests(Log(oracle, ops, On(capsule.feedId)), HISTORY_CAPACITY, DUPLICATE_WINDOW);
  }

  /** A snapshot that is served is the end of the whole log, in order, cut to the request and
      to the ring. */
  lemma SnapshotIsEndOfLog(oracle: Oracle, ops: seq<Op>, peer: Peer, feed: FeedId, limit: nat)
    ensures
      var output := Apply(oracle, StateAfter(oracle, ops), Snapshot(peer, feed, limit)).output;
      if SnapshotError(StateAfter(oracle, ops), peer, feed).Some? then output.Failed?
      else output == Capsules(LastN(Log(oracle, ops, On(feed)), if limit < HISTORY_CAPACITY then limit else HISTORY_CAPACITY))
  {
    var s := StateAfter(oracle, ops);
    assert Apply(oracle, s, Snapshot(peer, feed, limit)).output == FeedSnapshot(s, peer, feed, limit);
    RingIsEndOfLog(oracle, ops, feed);
    if limit < HISTORY_CAPACITY {
      LastNNests(Log(oracle, ops, On(feed)), HISTORY_CAPACITY, limit);
    }
  }

  /** In every feed's log, of two capsules at most 24 positions apart the later one scores at
      least 90 or does not repeat the earlier one. */
  ghost predicate Spaced(oracle: Oracle, log: seq<Capsule>) {
    forall i, j :: 0 <= i < j < |log| && j - i <= DUPLICATE_WINDOW ==>
      log[j].score >= 90 || !Repeats(oracle, log[i], log[j])
  }

  lemma NoRepeatOfRecent(oracle: Oracle, log: seq<Capsule>, capsule: Capsule, i: nat)
    requires i < |log| && |log| - i <= DUPLICATE_WINDOW
    requires !IsDuplicate(oracle, log, capsule)
    ensures capsule.score >= 90 || !Repeats(oracle, log[i], capsule)
  {
    var recent := LastN(log, DUPLICATE_WINDOW);
    assert log[i] == recent[i - (|log| - |recent|)];
    assert log[i] in recent;
  }

  lemma SpacedAppend(oracle: Oracle, log: seq<Capsule>, capsule: Capsule)
    requires Spaced(oracle, log)
    requires !IsDuplicate(oracle, log, capsule)
    ensures Spaced(oracle, log + [capsule])
  {
    var longer := log + [capsule];
    forall i, j | 0 <= i < j < |longer| && j - i <= DUPLICATE_WINDOW
      ensures longer[j].score >= 90 || !Repeats(oracle, longer[i], longer[j])
    {
      if j == |log| {
        NoRepeatOfRecent(oracle, log, capsule, i);
      } else {
        assert longer[i] == log[i] && longer[j] == log[j];
      }
    }
  }

  lemma {:induction false} DuplicateSpacing(oracle: Oracle, ops: seq<Op>, feed: FeedId)
    ensures Spaced(oracle, Log(oracle, ops, On(feed)))
  {
    if ops != [] {
      var past, op := ops[..|ops| - 1], ops[|ops| - 1];
      DuplicateSpacing(oracle, past, feed);
      CollectStep(Stepper(oracle), EMPTY, ops, Accepted(oracle, On(feed)));
      if Accepts(oracle, StateAfter(oracle, past), op) && op.capsule.feedId == feed {
        RingVerdictIsLogVerdict(oracle, past, op.capsule);
        SpacedAppend(oracle, Log(oracle, past, On(feed)), op.capsule);
      }
    }
  }

  // ---- following ----

  lemma FollowStep(oracle: Oracle, s: State, op: Op, peer: PeerId, feed: FeedId)
    ensures peer in Subscribers(Stepper(oracle)(s, op), feed) <==> peer in Subscribers(s, feed) || Follows(s, op, peer, feed)
  {
    StepEffects(oracle, s, op);
  }

  /** A peer is subscribed to a feed exactly when, earlier in the run, it followed that feed
      itself and was admitted at that moment: nothing else subscribes anyone, and nothing
      unsubscribes. */
  lemma SubscribedIffFollowed(oracle: Oracle, ops: seq<Op>, peer: PeerId, feed: FeedId)
    ensures
      peer in Subscribers(StateAfter(oracle, ops), feed) <==>
      exists k :: 0 <= k < |ops| && Follows(StateAfter(oracle, ops[..k]), ops[k], peer, feed)
  {
    var sets := (s: State, op: Op) => Follows(s, op, peer, feed);
    forall s: State, op: Op
      ensures peer in Subscribers(Stepper(oracle)(s, op), feed) <==> peer in Subscribers(s, feed) || sets(s, op)
    {
      FollowStep(oracle, s, op, peer, feed);
    }
    Latch(Stepper(oracle), EMPTY, ops, (s: State) => peer in Subscribers(s, feed), sets);
    assert forall k | 0 <= k < |ops| ::
      sets(Run(Stepper(oracle), EMPTY, ops[..k]), ops[k]) == Follows(StateAfter(oracle, ops[..k]), ops[k], peer, feed);
  }

  /** No capsule without an explicit follow: a capsule a peer ever got was accepted at some
      point of the run when the access rules admitted the peer, and the peer had followed its
      feed before that. */
  lemma ReceivedImpliesFollowed(oracle: Oracle, ops: seq<Op>, peer: PeerId, capsule: Capsule)
      returns (followed: nat, published: nat)
    requires capsule in Received(oracle, ops, peer)
    ensures followed < published < |ops|
    ensures Follows(StateAfter(oracle, ops[..followed]), ops[followed], peer, capsule.feedId)
    ensures Accepts(oracle, StateAfter(oracle, ops[..published]), ops[published]) && ops[published].capsule == capsule
    ensures Reaches(StateAfter(oracle, ops[..published]), capsule, peer)
  {
    ExactDelivery(oracle, ops, peer);
    published := CollectMember(Stepper(oracle), EMPTY, ops, Accepted(oracle, Reaching(peer)), capsule);
    followed := FollowedBefore(oracle, ops, published, peer, capsule.feedId);
  }

  lemma FollowedBefore(oracle: Oracle, ops: seq<Op>, now: nat, peer: PeerId, feed: FeedId) returns (followed: nat)
    requires now <= |ops|
    requires peer in Subscribers(StateAfter(oracle, ops[..now]), feed)
    ensures followed < now
    ensures Follows(StateAfter(oracle, ops[..followed]), ops[followed], peer, feed)
  {
    var past := ops[..now];
    SubscribedIffFollowed(oracle, past, peer, feed);
    followed :| 0 <= followed < now && Follows(StateAfter(oracle, past[..followed]), past[followed], peer, feed);
    assert past[..followed] == ops[..followed];
  }

  // ---- grants ----

  predicate Secured(s: State, peer: PeerId, feed: FeedId) {
    (feed, peer) in s.grants && peer in Subscribers(s, feed)
  }

  function Only(feed: FeedId): Capsule -> bool {
    (capsule: Capsule) => capsule.feedId == feed
  }

  /** Once a peer holds a grant and a follow on a feed, every later capsule accepted on the
      feed reaches it, in order and exactly once, whatever else happens in between. */
  lemma CompleteDelivery(oracle: Oracle, ops: seq<Op>, since: nat, peer: PeerId, feed: FeedId)
    requires since <= |ops|
    requires Secured(StateAfter(oracle, ops[..since]), peer, feed)
    ensures Log(oracle, ops[..since], On(feed)) <= Log(oracle, ops, On(feed))
    ensures
      Filter(Received(oracle, ops, peer), Only(feed)) ==
      Filter(Received(oracle, ops[..since], peer), Only(feed)) +
      Log(oracle, ops, On(feed))[|Log(oracle, ops[..since], On(feed))|..]
  {
    var fact := (s: State) => Secured(s, peer, feed);
    forall s: State, op: Op | fact(s)
      ensures fact(Stepper(oracle)(s, op))
    {
      StepEffects(oracle, s, op);
    }
    forall v: Visit<State, Op> | fact(v.before)
      ensures ReachedOn(oracle, peer, feed)(v) == Accepted(oracle, On(feed))(v)
    {
      SecuredReached(oracle, v, peer, feed);
    }
    ReceivedOnFeed(oracle, ops, peer, feed);
    ReceivedOnFeed(oracle, ops[..since], peer, feed);
    Agreement(Stepper(oracle), EMPTY, ops, since, fact, ReachedOn(oracle, peer, feed), Accepted(oracle, On(feed)));
  }

  /** The capsules of one feed that an operation puts into the peer's inbox. */
  function ReachedOn(oracle: Oracle, peer: PeerId, feed: FeedId): Visit<State, Op> -> seq<Capsule> {
    (v: Visit<State, Op>) => Filter(Accepted(oracle, Reaching(peer))(v), Only(feed))
  }

  lemma SecuredReached(oracle: Oracle, v: Visit<State, Op>, peer: PeerId, feed: FeedId)
    requires Secured(v.before, peer, feed)
    ensures ReachedOn(oracle, peer, feed)(v) == Accepted(oracle, On(feed))(v)
  {
    var reached, onFeed := Accepted(oracle, Reaching(peer))(v), Accepted(oracle, On(feed))(v);
    assert ReachedOn(oracle, peer, feed)(v) == Filter(reached, Only(feed));
    if Accepts(oracle, v.before, v.act) {
      var capsule := v.act.capsule;
      AcceptsStep(oracle, v.before, v.act);
      FilterOne(capsule, Only(feed));
      assert capsule.feedId == feed ==> Reaches(v.before, capsule, peer);
    } else {
      assert reached == [] && onFeed == [];
    }
  }

  lemma ReceivedOnFeed(oracle: Oracle, ops: seq<Op>, peer: PeerId, feed: FeedId)
    ensures
      Filter(Received(oracle, ops, peer), Only(feed)) ==
      Collect(Visits(Stepper(oracle), EMPTY, ops), ReachedOn(oracle, peer, feed))
  {
    ExactDelivery(oracle, ops, peer);
    FilterCollect(Visits(Stepper(oracle), EMPTY, ops), Accepted(oracle, Reaching(peer)), ReachedOn(oracle, peer, feed), Only(feed));
  }
}
