/** What the events of the runtime tell: which operation a command stands for, which events it
    raises, and that the follow and publish events of a whole run agree with the network. */
module RuntimeEvents {
  import opened Prelude
  import opened Proto
  import opened NetworkModel
  import opened NetworkRuns
  import opened Runtime
  import opened RuntimeRuns
  import opened Runs

  // ---- one command ----

  /** Looking up: the peers a command names must be registered, the publisher of a grant before
      its subscriber; a join registers its peer unless the id is taken. */
  lemma CommandStandsFor(peers: map<PeerId, Peer>, command: Command)
    requires !command.Shutdown?
    ensures
      var found := Resolve(Register(peers, command), command);
      match command
      case Join(spec, roles) => found == Ok(Op.Join(if spec.id in peers then peers[spec.id] else spec, roles))
      case Handoff(p, addrs) => found == if p in peers then Ok(Op.Handoff(peers[p], addrs)) else Err(PeerNotFound(p))
      case AnnounceFeed(p, profile) => found == if p in peers then Ok(Op.AnnounceFeed(peers[p], profile)) else Err(PeerNotFound(p))
      case AnnounceEntry(p, entry) => found == if p in peers then Ok(Op.AnnounceEntry(peers[p], entry)) else Err(PeerNotFound(p))
      case CacheEntry(p, entry) => found == if p in peers then Ok(Op.CacheEntry(peers[p], entry)) else Err(PeerNotFound(p))
      case Certify(p, org, teams) => found == if p in peers then Ok(Op.Certify(peers[p], org, teams)) else Err(PeerNotFound(p))
      case DiscoverUser(p, user) => found == if p in peers then Ok(Op.DiscoverUser(peers[p], user)) else Err(PeerNotFound(p))
      case DiscoverOrg(p, org) => found == if p in peers then Ok(Op.DiscoverOrg(peers[p], org)) else Err(PeerNotFound(p))
      case DiscoverTeam(p, org, team) => found == if p in peers then Ok(Op.DiscoverTeam(peers[p], org, team)) else Err(PeerNotFound(p))
      case Follow(p, feed) => found == if p in peers then Ok(Op.Follow(peers[p], feed)) else Err(PeerNotFound(p))
      case Grant(publisher, subscriber, feed) =>
        found ==
          if publisher !in peers then Err(PeerNotFound(publisher))
          else if subscriber !in peers then Err(PeerNotFound(subscriber))
          else Ok(Op.Grant(peers[publisher], feed, peers[subscriber]))
      case Publish(p, capsule) => found == if p in peers then Ok(Op.Publish(peers[p], capsule)) else Err(PeerNotFound(p))
      case Snapshot(p, feed, limit) => found == if p in peers then Ok(Op.Snapshot(peers[p], feed, limit)) else Err(PeerNotFound(p))
      case Drain(p) => found == if p in peers then Ok(Op.Drain(peers[p])) else Err(PeerNotFound(p))
  {
  }

  /** The events that a command raises when its operation answers `output` and leaves `net`. */
  predicate Tells(command: Command, net: State, output: Output, raised: seq<Event>) {
    match command
    case Join(spec, _) => spec.id in net.participants ==> raised == [NetworkJoined(net.participants[spec.id])]
    case Handoff(p, _) => p in net.participants ==> raised == [HandoffRegistered(net.participants[p])]
    case AnnounceFeed(p, profile) => raised == [PublishAccepted(p, profile.feedId, 0)]
    case AnnounceEntry(_, entry) => raised == [DirectoryEntryReceived(entry)]
    case CacheEntry(_, entry) => raised == [DirectoryEntryReceived(entry)]
    case Certify(p, _, _) => raised == [PublishAccepted(p, "github-org-access", 0)]
    case DiscoverUser(_, _) => output.Records? ==> raised == [FeedDiscovered(output.entries)]
    case DiscoverOrg(_, _) => output.Records? ==> raised == [FeedDiscovered(output.entries)]
    case DiscoverTeam(_, _, _) => output.Records? ==> raised == [FeedDiscovered(output.entries)]
    case Follow(p, feed) => raised == [FeedFollowed(p, feed)]
    case Grant(publisher, _, feed) => raised == [PublishAccepted(publisher, feed, 0)]
    case Publish(p, capsule) => output.Delivered? ==> raised == [PublishAccepted(p, capsule.feedId, output.count)]
    case Snapshot(p, feed, _) => output.Capsules? ==> raised == [SnapshotReceived(p, feed, output.capsules)]
    case Drain(p) => output.Capsules? ==> raised == [StoryReceived(p, output.capsules)]
    case Shutdown => false
  }

  lemma ReportTells(command: Command, net: State, output: Output)
    requires !command.Shutdown?
    ensures Tells(command, net, output, Report(command, net, output))
  {
  }

  /** What one command raises: an error event when a peer is unknown or the operation fails,
      after a rejection if it was a publish; the report of its operation otherwise. */
  lemma CommandRaises(oracle: Oracle, v: View, command: Command) returns (raised: seq<Event>)
    requires !command.Shutdown? && !v.shutdown
    ensures Handle(oracle, v, command).view.events == v.events + raised
    ensures
      var found := Resolve(Register(v.peers, command), command);
      if found.Err? then raised == [ErrorRaised(found.error)]
      else
        var step := Apply(oracle, v.net, found.value);
        if !step.output.Failed? then
          raised == Report(command, step.state, step.output) && Tells(command, step.state, step.output, raised)
        else if command.Publish? then
          raised == [PublishRejected(command.peer, command.capsule.feedId, step.output.error), ErrorRaised(step.output.error)]
        else raised == [ErrorRaised(step.output.error)]
  {
    var found := Resolve(Register(v.peers, command), command);
    if found.Err? {
      raised := [ErrorRaised(found.error)];
    } else {
      var step := Apply(oracle, v.net, found.value);
      if step.output.Failed? {
        var complaint := Complain(command, step.output.error);
        raised := complaint + [ErrorRaised(step.output.error)];
        Regroup(v.events, complaint, [ErrorRaised(step.output.error)]);
      } else {
        raised := Report(command, step.state, step.output);
        ReportTells(command, step.state, step.output);
      }
    }
  }

  // ---- follow events ----

  lemma EventsOneMore(oracle: Oracle, past: seq<Act>, act: Act, raised: seq<Event>)
    requires act.Handles? ==> Handle(oracle, ViewAfter(oracle, past), act.command).view.events == ViewAfter(oracle, past).events + raised
    requires act.TakesEvents? ==> raised == []
    ensures EventsOf(oracle, past + [act]) == EventsOf(oracle, past) + raised
  {
    var acts, v := past + [act], ViewAfter(oracle, past);
    var taken := Collect(Visits(Actor(oracle), START, past), Taken());
    assert acts[..|past|] == past;
    RunLast(Actor(oracle), START, past, act);
    CollectStep(Actor(oracle), START, acts, Taken());
    if act.Handles? {
      EmptyAfter(taken);
      Regroup(taken, v.events, raised);
    } else {
      EmptyAfter(taken + v.events);
    }
  }

  predicate Subscribed(v: View, peer: PeerId, feed: FeedId) {
    peer in Subscribers(v.net, feed)
  }

  /** A command that follows and succeeds. */
  predicate FollowsNow(oracle: Oracle, v: View, command: Command, peer: PeerId, feed: FeedId) {
    && command.Follow? && command.peer == peer && command.feed == feed && !v.shutdown
    && peer in v.peers && FollowError(v.net, v.peers[peer], feed).None?
  }

  lemma FollowCommand(oracle: Oracle, v: View, command: Command, peer: PeerId, feed: FeedId)
    requires NamedByKey(v)
    ensures Subscribed(Handle(oracle, v, command).view, peer, feed) <==> Subscribed(v, peer, feed) || FollowsNow(oracle, v, command, peer, feed)
  {
    HandleStep(oracle, v, command);
    var op := Performs(v, command);
    if op != [] {
      CommandStandsFor(v.peers, command);
      NamedRegister(v.peers, command);
      FollowStep(oracle, v.net, op[0], peer, feed);
    }
  }

  lemma NamedRegister(peers: map<PeerId, Peer>, command: Command)
    requires forall id :: id in peers ==> peers[id].id == id
    requires !command.Shutdown? && Resolve(Register(peers, command), command).Ok?
    ensures
      var op := Resolve(Register(peers, command), command).value;
      (command.Follow? <==> op.Follow?) && (command.Follow? ==> op.peer.id == command.peer)
  {
  }

  lemma FollowOutput(oracle: Oracle, s: State, caller: Peer, feed: FeedId)
    ensures Apply(oracle, s, Op.Follow(caller, feed)).output.Failed? <==> FollowError(s, caller, feed).Some?
  {
    assert Apply(oracle, s, Op.Follow(caller, feed)) == FollowFeed(s, caller, feed);
  }

  lemma OnlyFollowsReportFollows(command: Command, net: State, output: Output, peer: PeerId, feed: FeedId)
    requires !command.Shutdown?
    ensures FeedFollowed(peer, feed) in Report(command, net, output) <==> command.Follow? && command.peer == peer && command.feed == feed
  {
  }

  lemma FollowEvent(oracle: Oracle, v: View, command: Command, peer: PeerId, feed: FeedId) returns (raised: seq<Event>)
    ensures Handle(oracle, v, command).view.events == v.events + raised
    ensures FeedFollowed(peer, feed) in raised <==> FollowsNow(oracle, v, command, peer, feed)
  {
    if command.Shutdown? {
      raised := [Degraded("p2p runtime shut down")];
    } else if v.shutdown {
      raised := [Degraded("p2p runtime is shut down")];
    } else {
      raised := CommandRaises(oracle, v, command);
      CommandStandsFor(v.peers, command);
      var found := Resolve(Register(v.peers, command), command);
      if found.Ok? {
        OnlyFollowsReportFollows(command, Apply(oracle, v.net, found.value).state, Apply(oracle, v.net, found.value).output, peer, feed);
      }
      if command.Follow? && command.peer in v.peers {
        FollowOutput(oracle, v.net, v.peers[command.peer], command.feed);
      }
    }
  }

  ghost predicate FollowsTold(oracle: Oracle, acts: seq<Act>, peer: PeerId, feed: FeedId) {
    Subscribed(ViewAfter(oracle, acts), peer, feed) <==> FeedFollowed(peer, feed) in EventsOf(oracle, acts)
  }

  lemma FollowsToldOneMore(oracle: Oracle, past: seq<Act>, act: Act, peer: PeerId, feed: FeedId)
    requires FollowsTold(oracle, past, peer, feed) && NamedByKey(ViewAfter(oracle, past))
    ensures FollowsTold(oracle, past + [act], peer, feed)
  {
    var v := ViewAfter(oracle, past);
    RunLast(Actor(oracle), START, past, act);
    match act
    case TakesEvents =>
      EventsOneMore(oracle, past, act, []);
      EmptyAfter(EventsOf(oracle, past));
    case Handles(command) =>
      var raised := FollowEvent(oracle, v, command, peer, feed);
      EventsOneMore(oracle, past, act, raised);
      FollowCommand(oracle, v, command, peer, feed);
  }

  /** In every runtime run a peer is subscribed to a feed exactly when an event, taken or not,
      said that it followed it. */
  lemma {:induction false} FollowEventsTell(oracle: Oracle, acts: seq<Act>, peer: PeerId, feed: FeedId)
    ensures FollowsTold(oracle, acts, peer, feed)
  {
    if acts != [] {
      var past, act := acts[..|acts| - 1], acts[|acts| - 1];
      assert past + [act] == acts;
      FollowEventsTell(oracle, past, peer, feed);
      RuntimeRunsAreNetworkRuns(oracle, past, peer);
      FollowsToldOneMore(oracle, past, act, peer, feed);
    } else {
      assert EventsOf(oracle, acts) == [Ready];
    }
  }

  // ---- counts ----

  /** The copies a publish event counts, and the copies a story event hands over. */
  function Counted(event: Event): nat {
    if event.PublishAccepted? then event.delivered else 0
  }

  function Handed(event: Event): nat {
    if event.StoryReceived? then |event.capsules| else 0
  }

  function Counting(): Event -> nat {
    (event: Event) => Counted(event)
  }

  function Handing(): Event -> nat {
    (event: Event) => Handed(event)
  }

  function Total(events: seq<Event>, weigh: Event -> nat): nat {
    if events == [] then 0 else Total(events[..|events| - 1], weigh) + weigh(events[|events| - 1])
  }

  lemma {:induction false} TotalAppend(events: seq<Event>, more: seq<Event>, weigh: Event -> nat)
    ensures Total(events + more, weigh) == Total(events, weigh) + Total(more, weigh)
  {
    if more == [] {
      EmptyAfter(events);
    } else {
      FrontOfAppend(events, more);
      TotalAppend(events, more[..|more| - 1], weigh);
    }
  }

  lemma TotalOfOne(event: Event, weigh: Event -> nat)
    ensures Total([event], weigh) == weigh(event)
  {
    assert [event][..0] == [];
  }

  /** One report: what it counts and hands over is what its operation did. */
  lemma ReportCounts(command: Command, net: State, output: Output)
    requires !command.Shutdown?
    ensures Total(Report(command, net, output), Counting()) == if command.Publish? && output.Delivered? then output.count else 0
    ensures Total(Report(command, net, output), Handing()) == if command.Drain? && output.Capsules? then |output.capsules| else 0
  {
    var report := Report(command, net, output);
    if report != [] {
      assert report == [report[0]];
      TotalOfOne(report[0], Counting());
      TotalOfOne(report[0], Handing());
    }
  }

  /** One operation that a command stands for: what it delivers and drains. */
  lemma CommandBalance(oracle: Oracle, s: State, command: Command, op: Op)
    requires command.Publish? <==> op.Publish?
    requires command.Drain? <==> op.Drain?
    requires !op.PublishOnTopic?
    ensures
      var step := Apply(oracle, s, op);
      var drained := if command.Drain? && step.output.Capsules? then |step.output.capsules| else 0;
      var delivered := if command.Publish? && step.output.Delivered? then step.output.count else 0;
      drained + TotalLength(step.state.inboxes) == TotalLength(s.inboxes) + delivered
  {
    StepBalance(oracle, Visit(0, s, op));
    if !op.Publish? && !op.Drain? {
      SilentOutput(oracle, s, op);
    }
  }

  lemma CommandKind(peers: map<PeerId, Peer>, command: Command)
    requires !command.Shutdown? && Resolve(Register(peers, command), command).Ok?
    ensures
      var op := Resolve(Register(peers, command), command).value;
      (command.Publish? <==> op.Publish?) && (command.Drain? <==> op.Drain?) && !op.PublishOnTopic?
  {
  }

  ghost predicate Balanced(before: State, after: State, raised: seq<Event>) {
    Total(raised, Handing()) + TotalLength(after.inboxes) == TotalLength(before.inboxes) + Total(raised, Counting())
  }

  lemma FailureCounts(raised: seq<Event>, error: P2pError, rejected: Event)
    requires rejected.PublishRejected?
    requires raised == [ErrorRaised(error)] || raised == [rejected, ErrorRaised(error)]
    ensures Total(raised, Handing()) == 0 && Total(raised, Counting()) == 0
  {
    TotalOfOne(ErrorRaised(error), Handing());
    TotalOfOne(ErrorRaised(error), Counting());
    TotalOfOne(rejected, Handing());
    TotalOfOne(rejected, Counting());
    TotalAppend([rejected], [ErrorRaised(error)], Handing());
    TotalAppend([rejected], [ErrorRaised(error)], Counting());
    assert [rejected] + [ErrorRaised(error)] == [rejected, ErrorRaised(error)];
  }

  lemma CommandIsBalanced(oracle: Oracle, v: View, command: Command) returns (raised: seq<Event>)
    ensures Handle(oracle, v, command).view.events == v.events + raised
    ensures Balanced(v.net, Handle(oracle, v, command).view.net, raised)
  {
    if command.Shutdown? || v.shutdown {
      raised := [if command.Shutdown? then Degraded("p2p runtime shut down") else Degraded("p2p runtime is shut down")];
      TotalOfOne(raised[0], Handing());
      TotalOfOne(raised[0], Counting());
    } else {
      raised := CommandRaises(oracle, v, command);
      HandleStep(oracle, v, command);
      var found := Resolve(Register(v.peers, command), command);
      if found.Err? {
        FailureCounts(raised, found.error, PublishRejected("", "", found.error));
      } else {
        OperationIsBalanced(oracle, v.net, v.peers, command, raised);
      }
    }
  }

  lemma OperationIsBalanced(oracle: Oracle, s: State, peers: map<PeerId, Peer>, command: Command, raised: seq<Event>)
    requires !command.Shutdown? && Resolve(Register(peers, command), command).Ok?
    requires
      var step := Apply(oracle, s, Resolve(Register(peers, command), command).value);
      if !step.output.Failed? then raised == Report(command, step.state, step.output)
      else if command.Publish? then
        raised == [PublishRejected(command.peer, command.capsule.feedId, step.output.error), ErrorRaised(step.output.error)]
      else raised == [ErrorRaised(step.output.error)]
    ensures Balanced(s, Apply(oracle, s, Resolve(Register(peers, command), command).value).state, raised)
  {
    var op := Resolve(Register(peers, command), command).value;
    var step := Apply(oracle, s, op);
    CommandKind(peers, command);
    CommandBalance(oracle, s, command, op);
    if step.output.Failed? {
      FailureCounts(raised, step.output.error,
        if command.Publish? then PublishRejected(command.peer, command.capsule.feedId, step.output.error) else PublishRejected("", "", step.output.error));
    } else {
      ReportCounts(command, step.state, step.output);
    }
  }

  ghost predicate CountsTold(oracle: Oracle, acts: seq<Act>) {
    Total(EventsOf(oracle, acts), Counting()) ==
    Total(EventsOf(oracle, acts), Handing()) + TotalLength(ViewAfter(oracle, acts).net.inboxes)
  }

  lemma CountsToldOneMore(oracle: Oracle, past: seq<Act>, act: Act)
    requires CountsTold(oracle, past)
    ensures CountsTold(oracle, past + [act])
  {
    RunLast(Actor(oracle), START, past, act);
    match act
    case TakesEvents =>
      EventsOneMore(oracle, past, act, []);
      EmptyAfter(EventsOf(oracle, past));
    case Handles(command) =>
      var raised := CommandIsBalanced(oracle, ViewAfter(oracle, past), command);
      EventsOneMore(oracle, past, act, raised);
      TotalAppend(EventsOf(oracle, past), raised, Counting());
      TotalAppend(EventsOf(oracle, past), raised, Handing());
  }

  /** In every runtime run the deliveries that publish events counted are the copies that story
      events handed over plus the copies still waiting in all inboxes. */
  lemma {:induction false} CountEventsTell(oracle: Oracle, acts: seq<Act>)
    ensures CountsTold(oracle, acts)
  {
    if acts == [] {
      TotalOfOne(Ready, Counting());
      TotalOfOne(Ready, Handing());
      assert EventsOf(oracle, acts) == [Ready];
    } else {
      var past, act := acts[..|acts| - 1], acts[|acts| - 1];
      assert past + [act] == acts;
      CountEventsTell(oracle, past);
      CountsToldOneMore(oracle, past, act);
    }
  }
}
