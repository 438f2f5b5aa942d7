/** What every run of the command runtime keeps: failures change nothing, shutdown is final,
    an incompatible peer never gets in, and the network underneath is always one that a run
    of network operations reaches, so the results about those runs apply to it. */
module RuntimeRuns {
  import opened Prelude
  import opened Proto
  import opened NetworkModel
  import opened NetworkRuns
  import opened Runtime
  import opened Runs

  function Actor(oracle: Oracle): (View, Act) -> View {
    (v: View, act: Act) => ActOn(oracle, v, act)
  }

  ghost function ViewAfter(oracle: Oracle, acts: seq<Act>): View {
    Run(Actor(oracle), START, acts)
  }

  /** The events taken at a visit. */
  function Taken(): Visit<View, Act> -> seq<Event> {
    (visit: Visit<View, Act>) => if visit.act.TakesEvents? then visit.before.events else []
  }

  /** All events of a run, in order: those taken by the user, then those not taken yet. */
  ghost function EventsOf(oracle: Oracle, acts: seq<Act>): seq<Event> {
    Collect(Visits(Actor(oracle), START, acts), Taken()) + ViewAfter(oracle, acts).events
  }

  lemma PerformShape(oracle: Oracle, v: View, command: Command)
    requires !command.Shutdown?
    ensures
      var turn := Perform(oracle, v, command);
      var found := Resolve(Register(v.peers, command), command);
      && turn.view.peers == Register(v.peers, command)
      && turn.view.shutdown == v.shutdown
      && v.events <= turn.view.events
      && (turn.reply.Err? ==> turn.view.net == v.net)
      && (turn.view.net == v.net || (found.Ok? && turn.view.net == Apply(oracle, v.net, found.value).state))
  {
    var found := Resolve(Register(v.peers, command), command);
    if found.Ok? {
      StepShape(oracle, v.net, found.value);
    }
  }

  /** A command that returns an error leaves the whole network state as it was and ends by
      appending that error as an event; every command reports something. */
  lemma FailureIsAtomic(oracle: Oracle, v: View, command: Command)
    ensures
      var turn := Handle(oracle, v, command);
      && v.events <= turn.view.events
      && (turn.reply.Err? ==>
           && turn.view.net == v.net
           && turn.view.shutdown == v.shutdown
           && |v.events| < |turn.view.events|
           && turn.view.events[|turn.view.events| - 1] == ErrorRaised(turn.reply.error))
  {
    if !command.Shutdown? && !v.shutdown {
      PerformShape(oracle, v, command);
    }
  }

  /** After a shutdown nothing in any later run changes the network or the peers. */
  lemma ShutdownIsFinal(oracle: Oracle, acts: seq<Act>, since: nat)
    requires since <= |acts|
    requires ViewAfter(oracle, acts[..since]).shutdown
    ensures ViewAfter(oracle, acts).shutdown
    ensures ViewAfter(oracle, acts).net == ViewAfter(oracle, acts[..since]).net
    ensures ViewAfter(oracle, acts).peers == ViewAfter(oracle, acts[..since]).peers
  {
    var stopped := ViewAfter(oracle, acts[..since]);
    Persists(Actor(oracle), START, acts, since,
      (v: View) => v.shutdown && v.net == stopped.net && v.peers == stopped.peers);
  }

  // ---- gating by compatibility ----

  /** Every peer id the network state mentions is among `ids`. */
  predicate Within(s: State, ids: set<PeerId>) {
    && s.participants.Keys <= ids
    && s.inboxes.Keys <= ids
    && s.orgAccess.Keys <= ids
    && (forall feed :: feed in s.subscriptions ==> s.subscriptions[feed] <= ids)
    && (forall grant :: grant in s.grants ==> grant.1 in ids)
  }

  function Callers(op: Op): set<PeerId> {
    if op.Grant? then {op.peer.id, op.subscriber.id} else {op.peer.id}
  }

  lemma EnrolStaysWithin(s: State, peer: Peer, roles: set<Role>, ids: set<PeerId>)
    requires Within(s, ids) && peer.id in ids
    ensures Within(Enrol(s, peer, roles), ids)
  {
  }

  lemma InboxStaysWithin(s: State, peer: PeerId, ids: set<PeerId>)
    requires Within(s, ids) && peer in ids
    ensures Within(OpenInbox(s, peer), ids)
  {
  }

  lemma SubscribeStaysWithin(s: State, feed: FeedId, peer: PeerId, ids: set<PeerId>)
    requires Within(s, ids) && peer in ids
    ensures Within(Subscribe(s, feed, peer), ids)
  {
  }

  lemma AcceptStaysWithin(s: State, capsule: Capsule, ids: set<PeerId>)
    requires Within(s, ids) && capsule.feedId in s.feeds
    ensures Within(Accept(s, capsule).state, ids)
  {
  }

  lemma RegistrationStaysWithin(oracle: Oracle, s: State, op: Op, ids: set<PeerId>)
    requires op.Join? || op.Handoff? || op.AnnounceFeed?
    requires Within(s, ids) && op.peer.id in ids
    ensures Within(Success(oracle, s, op), ids)
  {
    match op
    case Join(peer, roles) =>
      EnrolStaysWithin(s, peer, {Fabric} + roles, ids);
      InboxStaysWithin(Enrol(s, peer, {Fabric} + roles), peer.id, ids);
    case Handoff(peer, addrs) =>
      EnrolStaysWithin(s, peer, {Fabric, BrowserHandoff}, ids);
      InboxStaysWithin(ListAddrs(Enrol(s, peer, {Fabric, BrowserHandoff}), peer.id, addrs), peer.id, ids);
    case AnnounceFeed(peer, profile) =>
      EnrolStaysWithin(AddFeed(oracle, s, profile), peer, {Publisher}, ids);
      InboxStaysWithin(Enrol(AddFeed(oracle, s, profile), peer, {Publisher}), peer.id, ids);
  }

  lemma RecordStaysWithin(oracle: Oracle, s: State, op: Op, ids: set<PeerId>)
    requires op.AnnounceEntry? || op.CacheEntry? || op.Follow?
    requires Within(s, ids) && op.peer.id in ids
    ensures Within(Success(oracle, s, op), ids)
  {
    match op
    case AnnounceEntry(peer, entry) =>
      EnrolStaysWithin(IndexEntry(s, entry), peer, {KadProvider}, ids);
    case CacheEntry(peer, entry) =>
      EnrolStaysWithin(IndexEntry(s, entry), peer, {Fabric, KadProvider}, ids);
      InboxStaysWithin(Enrol(IndexEntry(s, entry), peer, {Fabric, KadProvider}), peer.id, ids);
    case Follow(peer, feed) =>
      SubscribeStaysWithin(s, feed, peer.id, ids);
      EnrolStaysWithin(Subscribe(s, feed, peer.id), peer, {Subscriber}, ids);
      InboxStaysWithin(Enrol(Subscribe(s, feed, peer.id), peer, {Subscriber}), peer.id, ids);
  }

  lemma SuccessStaysWithin(oracle: Oracle, s: State, op: Op, ids: set<PeerId>)
    requires Within(s, ids) && Callers(op) <= ids
    ensures Within(Success(oracle, s, op), ids)
  {
    if op.Join? || op.Handoff? || op.AnnounceFeed? {
      RegistrationStaysWithin(oracle, s, op, ids);
    } else if op.AnnounceEntry? || op.CacheEntry? || op.Follow? {
      RecordStaysWithin(oracle, s, op, ids);
    } else if op.Publish? || op.PublishOnTopic? {
      if op.capsule.feedId in s.feeds {
        AcceptStaysWithin(s, op.capsule, ids);
      }
    }
  }

  /** Only compatible callers can change the network; a grant needs both sides compatible. */
  lemma ChangeNeedsCompatibility(oracle: Oracle, s: State, op: Op)
    requires Apply(oracle, s, op).state != s
    ensures IsCompatible(op.peer.compatibility)
    ensures op.Grant? ==> IsCompatible(op.subscriber.compatibility)
  {
    if op.Publish? || op.PublishOnTopic? {
      if !Accepts(oracle, s, op) {
        RefusedPublishStep(oracle, s, op);
      }
    }
  }

  function CompatibleIds(v: View): set<PeerId> {
    set id | id in v.peers && IsCompatible(v.peers[id].compatibility)
  }

  predicate Vetted(v: View) {
    && (forall id :: id in v.peers ==> v.peers[id].id == id)
    && Within(v.net, CompatibleIds(v))
  }

  lemma WithinGrows(s: State, ids: set<PeerId>, more: set<PeerId>)
    requires Within(s, ids) && ids <= more
    ensures Within(s, more)
  {
  }

  lemma OpCallers(peers: map<PeerId, Peer>, command: Command)
    requires !command.Shutdown?
    requires forall id :: id in peers ==> peers[id].id == id
    requires Resolve(peers, command).Ok?
    ensures
      var op := Resolve(peers, command).value;
      && op.peer.id in peers && op.peer == peers[op.peer.id]
      && (op.Grant? ==> op.subscriber.id in peers && op.subscriber == peers[op.subscriber.id])
  {
  }

  lemma PerformStaysVetted(oracle: Oracle, v: View, command: Command)
    requires Vetted(v) && !command.Shutdown?
    ensures Vetted(Perform(oracle, v, command).view)
  {
    var after := Perform(oracle, v, command).view;
    PerformShape(oracle, v, command);
    RegisteredIsNamed(v.peers, command);
    WithinGrows(v.net, CompatibleIds(v), CompatibleIds(after));
    if after.net != v.net {
      ChangeStaysWithin(oracle, v.net, after.peers, command, CompatibleIds(after));
    }
  }

  lemma RegisteredIsNamed(peers: map<PeerId, Peer>, command: Command)
    requires forall id :: id in peers ==> peers[id].id == id
    ensures forall id :: id in Register(peers, command) ==> Register(peers, command)[id].id == id
    ensures forall id :: id in peers ==> id in Register(peers, command) && Register(peers, command)[id] == peers[id]
  {
  }

  lemma ChangeStaysWithin(oracle: Oracle, s: State, peers: map<PeerId, Peer>, command: Command, ids: set<PeerId>)
    requires !command.Shutdown? && Resolve(peers, command).Ok?
    requires forall id :: id in peers ==> peers[id].id == id
    requires forall id :: id in peers && IsCompatible(peers[id].compatibility) ==> id in ids
    requires Within(s, ids) && Apply(oracle, s, Resolve(peers, command).value).state != s
    ensures Within(Apply(oracle, s, Resolve(peers, command).value).state, ids)
  {
    var op := Resolve(peers, command).value;
    OpCallers(peers, command);
    ChangeNeedsCompatibility(oracle, s, op);
    StepShape(oracle, s, op);
    SuccessStaysWithin(oracle, s, op, ids);
  }

  lemma ActStaysVetted(oracle: Oracle, v: View, act: Act)
    requires Vetted(v)
    ensures Vetted(ActOn(oracle, v, act))
  {
    if act.Handles? && !act.command.Shutdown? && !v.shutdown {
      PerformStaysVetted(oracle, v, act.command);
    }
  }

  lemma PeersOnlyGrow(oracle: Oracle, v: View, act: Act, id: PeerId)
    requires id in v.peers
    ensures id in ActOn(oracle, v, act).peers && ActOn(oracle, v, act).peers[id] == v.peers[id]
  {
    if act.Handles? && !act.command.Shutdown? && !v.shutdown {
      PerformShape(oracle, v, act.command);
    }
  }

  /** Handles never change once registered. */
  lemma HandlesAreFixed(oracle: Oracle, acts: seq<Act>, since: nat, id: PeerId)
    requires since <= |acts|
    requires id in ViewAfter(oracle, acts[..since]).peers
    ensures id in ViewAfter(oracle, acts).peers
    ensures ViewAfter(oracle, acts).peers[id] == ViewAfter(oracle, acts[..since]).peers[id]
  {
    var handle := ViewAfter(oracle, acts[..since]).peers[id];
    var fact := (v: View) => id in v.peers && v.peers[id] == handle;
    forall v: View, act: Act | fact(v)
      ensures fact(Actor(oracle)(v, act))
    {
      PeersOnlyGrow(oracle, v, act, id);
    }
    Persists(Actor(oracle), START, acts, since, fact);
  }

  /** A peer first registered with incompatible metadata never becomes a participant, never
      gets an inbox, organisation access, a subscription or a grant, whatever follows. */
  lemma IncompatiblePeersStayOut(oracle: Oracle, acts: seq<Act>, since: nat, id: PeerId)
    requires since <= |acts|
    requires id in ViewAfter(oracle, acts[..since]).peers
    requires !IsCompatible(ViewAfter(oracle, acts[..since]).peers[id].compatibility)
    ensures
      var net := ViewAfter(oracle, acts).net;
      && id !in net.participants && id !in net.inboxes && id !in net.orgAccess
      && (forall feed :: id !in Subscribers(net, feed))
      && (forall feed :: (feed, id) !in net.grants)
  {
    forall v: View, act: Act | Vetted(v)
      ensures Vetted(Actor(oracle)(v, act))
    {
      ActStaysVetted(oracle, v, act);
    }
    Invariant(Actor(oracle), START, acts, (v: View) => Vetted(v));
    HandlesAreFixed(oracle, acts, since, id);
  }

  // ---- every runtime run is a network run ----

  /** The network operation a command leads to, if it gets that far. */
  function Performs(v: View, command: Command): seq<Op> {
    if command.Shutdown? || v.shutdown then []
    else
      var found := Resolve(Register(v.peers, command), command);
      if found.Ok? then [found.value] else []
  }

  function PerformsIn(): Visit<View, Act> -> seq<Op> {
    (visit: Visit<View, Act>) => if visit.act.Handles? then Performs(visit.before, visit.act.command) else []
  }

  ghost function Performed(oracle: Oracle, acts: seq<Act>): seq<Op> {
    Collect(Visits(Actor(oracle), START, acts), PerformsIn())
  }

  /** The capsules that story events handed to the peer. */
  function StoriesTo(peer: PeerId): Event -> seq<Capsule> {
    (event: Event) => if event.StoryReceived? && event.peer == peer then event.capsules else []
  }

  /** What the operation of a command hands over to the peer. */
  function HandedBy(oracle: Oracle, v: View, command: Command, peer: PeerId): seq<Capsule> {
    var op := Performs(v, command);
    if op == [] then [] else HandedOver(oracle, v.net, op[0], peer)
  }

  predicate NamedByKey(v: View) {
    forall id :: id in v.peers ==> v.peers[id].id == id
  }

  lemma ActKeepsNames(oracle: Oracle, v: View, act: Act)
    requires NamedByKey(v)
    ensures NamedByKey(ActOn(oracle, v, act))
  {
    if act.Handles? && !act.command.Shutdown? && !v.shutdown {
      PerformShape(oracle, v, act.command);
    }
  }

  /** The state reached by one more command, as a step of the network. */
  lemma HandleStep(oracle: Oracle, v: View, command: Command)
    ensures
      var op := Performs(v, command);
      Handle(oracle, v, command).view.net == if op == [] then v.net else Apply(oracle, v.net, op[0]).state
  {
  }

  /** A successful drain is reported by exactly one story event; nothing else reports stories. */
  lemma ReportedStories(command: Command, net: State, output: Output, peer: PeerId)
    requires !command.Shutdown?
    ensures Collect(Report(command, net, output), StoriesTo(peer)) ==
      if command.Drain? && command.peer == peer && output.Capsules? then output.capsules else []
  {
    var report := Report(command, net, output);
    if report != [] {
      assert report[..0] == [];
    }
  }

  lemma NoStories(event: Event, peer: PeerId)
    requires !event.StoryReceived?
    ensures Collect([event], StoriesTo(peer)) == []
  {
    assert [event][..0] == [];
  }

  lemma HandleStories(oracle: Oracle, v: View, command: Command, peer: PeerId)
    requires NamedByKey(v)
    ensures
      Collect(Handle(oracle, v, command).view.events, StoriesTo(peer)) ==
      Collect(v.events, StoriesTo(peer)) + HandedBy(oracle, v, command, peer)
  {
    if command.Shutdown? || v.shutdown {
      var last := if command.Shutdown? then Degraded("p2p runtime shut down") else Degraded("p2p runtime is shut down");
      CollectAppend(v.events, [last], StoriesTo(peer));
      NoStories(last, peer);
    } else {
      PerformStories(oracle, v, command, peer);
      var turn := Perform(oracle, v, command);
      if turn.reply.Err? {
        CollectAppend(turn.view.events, [ErrorRaised(turn.reply.error)], StoriesTo(peer));
        NoStories(ErrorRaised(turn.reply.error), peer);
      }
    }
  }

  /** What an operation looked up for a command hands over is what the command's report of it
      says was handed over. */
  lemma HandedOverOnSuccess(oracle: Oracle, net: State, peers: map<PeerId, Peer>, command: Command, peer: PeerId)
    requires !command.Shutdown? && Resolve(peers, command).Ok?
    requires forall id :: id in peers ==> peers[id].id == id
    ensures
      var op := Resolve(peers, command).value;
      var output := Apply(oracle, net, op).output;
      HandedOver(oracle, net, op, peer) ==
      if command.Drain? && command.peer == peer && output.Capsules? then output.capsules else []
  {
    OpCallers(peers, command);
  }

  lemma ComplaintsTellNoStory(command: Command, error: P2pError, peer: PeerId)
    ensures Collect(Complain(command, error), StoriesTo(peer)) == []
  {
    if command.Publish? {
      NoStories(PublishRejected(command.peer, command.capsule.feedId, error), peer);
    }
  }

  lemma PerformStories(oracle: Oracle, v: View, command: Command, peer: PeerId)
    requires NamedByKey(v) && !command.Shutdown? && !v.shutdown
    ensures
      Collect(Perform(oracle, v, command).view.events, StoriesTo(peer)) ==
      Collect(v.events, StoriesTo(peer)) + HandedBy(oracle, v, command, peer)
  {
    var peers := Register(v.peers, command);
    var found := Resolve(peers, command);
    if found.Ok? {
      var step := Apply(oracle, v.net, found.value);
      HandedOverOnSuccess(oracle, v.net, peers, command, peer);
      if step.output.Failed? {
        CollectAppend(v.events, Complain(command, step.output.error), StoriesTo(peer));
        ComplaintsTellNoStory(command, step.output.error, peer);
      } else {
        CollectAppend(v.events, Report(command, step.state, step.output), StoriesTo(peer));
        ReportedStories(command, step.state, step.output, peer);
      }
    }
  }

  /** The events a command adds carry the stories that its operation handed over. */
  lemma RaisedStories(oracle: Oracle, v: View, command: Command, peer: PeerId) returns (raised: seq<Event>)
    requires NamedByKey(v)
    ensures Handle(oracle, v, command).view.events == v.events + raised
    ensures Collect(raised, StoriesTo(peer)) == HandedBy(oracle, v, command, peer)
  {
    FailureIsAtomic(oracle, v, command);
    HandleStories(oracle, v, command, peer);
    raised := StoriesSince(v.events, Handle(oracle, v, command).view.events, HandedBy(oracle, v, command, peer), peer);
  }

  lemma StoriesSince(events: seq<Event>, longer: seq<Event>, stories: seq<Capsule>, peer: PeerId) returns (raised: seq<Event>)
    requires events <= longer
    requires Collect(longer, StoriesTo(peer)) == Collect(events, StoriesTo(peer)) + stories
    ensures longer == events + raised
    ensures Collect(raised, StoriesTo(peer)) == stories
  {
    raised := longer[|events|..];
    CollectAppend(events, raised, StoriesTo(peer));
    CancelFront(Collect(events, StoriesTo(peer)), Collect(raised, StoriesTo(peer)), stories);
  }

  ghost predicate Agrees(oracle: Oracle, acts: seq<Act>, peer: PeerId) {
    && NamedByKey(ViewAfter(oracle, acts))
    && ViewAfter(oracle, acts).net == StateAfter(oracle, Performed(oracle, acts))
    && Collect(EventsOf(oracle, acts), StoriesTo(peer)) == Drained(oracle, Performed(oracle, acts), peer)
  }

  lemma AfterTaking(oracle: Oracle, past: seq<Act>, peer: PeerId)
    requires Agrees(oracle, past, peer)
    ensures Agrees(oracle, past + [TakesEvents], peer)
  {
    var acts := past + [TakesEvents];
    assert acts[..|past|] == past;
    CollectStep(Actor(oracle), START, acts, Taken());
    CollectStep(Actor(oracle), START, acts, PerformsIn());
    assert EventsOf(oracle, acts) == EventsOf(oracle, past);
    assert Performed(oracle, acts) == Performed(oracle, past);
  }

  lemma AfterHandling(oracle: Oracle, past: seq<Act>, command: Command, peer: PeerId)
    requires Agrees(oracle, past, peer)
    ensures Agrees(oracle, past + [Handles(command)], peer)
  {
    var acts, v, ops := past + [Handles(command)], ViewAfter(oracle, past), Performed(oracle, past);
    assert acts[..|past|] == past;
    RunLast(Actor(oracle), START, past, Handles(command));
    ActKeepsNames(oracle, v, Handles(command));
    CollectStep(Actor(oracle), START, acts, Taken());
    CollectStep(Actor(oracle), START, acts, PerformsIn());
    var raised := RaisedStories(oracle, v, command, peer);
    var taken := Collect(Visits(Actor(oracle), START, past), Taken());
    Regroup(taken, v.events, raised);
    EmptyAfter(taken);
    assert EventsOf(oracle, acts) == EventsOf(oracle, past) + raised;
    CollectAppend(EventsOf(oracle, past), raised, StoriesTo(peer));
    OneMoreOperation(oracle, v, command, ops, peer);
  }

  lemma OneMoreOperation(oracle: Oracle, v: View, command: Command, ops: seq<Op>, peer: PeerId)
    requires v.net == StateAfter(oracle, ops)
    ensures
      var op := Performs(v, command);
      && Handle(oracle, v, command).view.net == StateAfter(oracle, ops + op)
      && Drained(oracle, ops + op, peer) ==
         Drained(oracle, ops, peer) + HandedBy(oracle, v, command, peer)
  {
    var op := Performs(v, command);
    HandleStep(oracle, v, command);
    if op == [] {
      EmptyAfter(ops);
    } else {
      assert op == [op[0]];
      RunLast(Stepper(oracle), EMPTY, ops, op[0]);
      assert (ops + op)[..|ops|] == ops;
      CollectStep(Stepper(oracle), EMPTY, ops + op, HandsOver(oracle, peer));
    }
  }

  /** Every runtime run is a network run, with events taken at any moments: same network, and
      the story events a peer was sent, taken or not, carry exactly what that run drained for
      it. */
  lemma {:induction false} RuntimeRunsAreNetworkRuns(oracle: Oracle, acts: seq<Act>, peer: PeerId)
    ensures Agrees(oracle, acts, peer)
  {
    if acts == [] {
      NoStories(Ready, peer);
      assert EventsOf(oracle, acts) == [Ready];
    } else {
      var past, act := acts[..|acts| - 1], acts[|acts| - 1];
      RuntimeRunsAreNetworkRuns(oracle, past, peer);
      assert past + [act] == acts;
      match act
      case Handles(command) => AfterHandling(oracle, past, command, peer);
      case TakesEvents => AfterTaking(oracle, past, peer);
    }
  }

  /** Exact delivery as a user of the runtime sees it: the stories in the events it took from
      time to time, then in the events not taken yet, then what waits in the peer's inbox, are
      the log of accepted capsules restricted to those published while the peer was subscribed
      and admitted. */
  lemma RuntimeExactDelivery(oracle: Oracle, acts: seq<Act>, peer: PeerId)
    ensures
      Collect(Collect(Visits(Actor(oracle), START, acts), Taken()), StoriesTo(peer)) +
      Collect(ViewAfter(oracle, acts).events, StoriesTo(peer)) +
      InboxOf(ViewAfter(oracle, acts).net, peer) ==
      Log(oracle, Performed(oracle, acts), Reaching(peer))
  {
    RuntimeRunsAreNetworkRuns(oracle, acts, peer);
    CollectAppend(Collect(Visits(Actor(oracle), START, acts), Taken()), ViewAfter(oracle, acts).events, StoriesTo(peer));
    ExactDelivery(oracle, Performed(oracle, acts), peer);
  }
}
