/** The command runtime over the in-memory network: peers are registered on first join,
    commands are looked up and performed, and every outcome is reported as an event. */
module Runtime {
  import opened Prelude
  import opened Proto
  import opened NetworkModel
  import opened Network

  datatype Command =
    | Join(spec: Peer, roles: set<Role>)
    | Handoff(peer: PeerId, addrs: seq<string>)
    | AnnounceFeed(peer: PeerId, profile: Profile)
    | AnnounceEntry(peer: PeerId, entry: Entry)
    | CacheEntry(peer: PeerId, entry: Entry)
    | Certify(peer: PeerId, org: string, teams: set<string>)
    | DiscoverUser(peer: PeerId, user: UserId)
    | DiscoverOrg(peer: PeerId, org: string)
    | DiscoverTeam(peer: PeerId, org: string, team: string)
    | Follow(peer: PeerId, feed: FeedId)
    | Grant(publisher: PeerId, subscriber: PeerId, feed: FeedId)
    | Publish(peer: PeerId, capsule: Capsule)
    | Snapshot(peer: PeerId, feed: FeedId, limit: nat)
    | Drain(peer: PeerId)
    | Shutdown

  datatype Event =
    | Ready
    | NetworkJoined(participation: Participation)
    | HandoffRegistered(participation: Participation)
    | DirectoryEntryReceived(entry: Entry)
    | FeedDiscovered(entries: map<FeedId, Entry>)
    | FeedFollowed(peer: PeerId, feed: FeedId)
    | SnapshotReceived(peer: PeerId, feed: FeedId, capsules: seq<Capsule>)
    | StoryReceived(peer: PeerId, capsules: seq<Capsule>)
    | PublishAccepted(peer: PeerId, feed: FeedId, delivered: nat)
    | PublishRejected(peer: PeerId, feed: FeedId, error: P2pError)
    | Degraded(reason: string)
    | ErrorRaised(error: P2pError)

  datatype View = View(net: State, peers: map<PeerId, Peer>, events: seq<Event>, shutdown: bool)

  const START := View(EMPTY, map[], [Ready], false)

  datatype Turn = Turn(view: View, reply: Result<(), P2pError>)

  /** The first join under an id fixes the handle every later command uses. */
  function Register(peers: map<PeerId, Peer>, command: Command): map<PeerId, Peer> {
    if command.Join? && command.spec.id !in peers then peers[command.spec.id := command.spec] else peers
  }

  /** The network operation a command stands for, once its peers are looked up. */
  function Resolve(peers: map<PeerId, Peer>, command: Command): Result<Op, P2pError>
    requires !command.Shutdown?
  {
    var id :=
      if command.Join? then command.spec.id
      else if command.Grant? then command.publisher
      else command.peer;
    if id !in peers then Err(PeerNotFound(id))
    else if command.Grant? && command.subscriber !in peers then Err(PeerNotFound(command.subscriber))
    else Ok(OpFor(peers[id], if command.Grant? then peers[command.subscriber] else peers[id], command))
  }

  function OpFor(peer: Peer, subscriber: Peer, command: Command): Op
    requires !command.Shutdown?
  {
    match command
    case Join(_, roles) => Op.Join(peer, roles)
    case Handoff(_, addrs) => Op.Handoff(peer, addrs)
    case AnnounceFeed(_, profile) => Op.AnnounceFeed(peer, profile)
    case AnnounceEntry(_, entry) => Op.AnnounceEntry(peer, entry)
    case CacheEntry(_, entry) => Op.CacheEntry(peer, entry)
    case Certify(_, org, teams) => Op.Certify(peer, org, teams)
    case DiscoverUser(_, user) => Op.DiscoverUser(peer, user)
    case DiscoverOrg(_, org) => Op.DiscoverOrg(peer, org)
    case DiscoverTeam(_, org, team) => Op.DiscoverTeam(peer, org, team)
    case Follow(_, feed) => Op.Follow(peer, feed)
    case Grant(_, _, feed) => Op.Grant(peer, feed, subscriber)
    case Publish(_, capsule) => Op.Publish(peer, capsule)
    case Snapshot(_, feed, limit) => Op.Snapshot(peer, feed, limit)
    case Drain(_) => Op.Drain(peer)
  }

  /** The event that reports a successful operation. */
  function Report(command: Command, net: State, output: Output): seq<Event>
    requires !command.Shutdown?
  {
    match command
    case Join(spec, _) => if spec.id in net.participants then [NetworkJoined(net.participants[spec.id])] else []
    case Handoff(peer, _) => if peer in net.participants then [HandoffRegistered(net.participants[peer])] else []
    case AnnounceFeed(peer, profile) => [PublishAccepted(peer, profile.feedId, 0)]
    case AnnounceEntry(_, entry) => [DirectoryEntryReceived(entry)]
    case CacheEntry(_, entry) => [DirectoryEntryReceived(entry)]
    case Certify(peer, _, _) => [PublishAccepted(peer, "github-org-access", 0)]
    case Follow(peer, feed) => [FeedFollowed(peer, feed)]
    case Grant(publisher, _, feed) => [PublishAccepted(publisher, feed, 0)]
    case Publish(peer, capsule) => [PublishAccepted(peer, capsule.feedId, if output.Delivered? then output.count else 0)]
    case Snapshot(peer, feed, _) => [SnapshotReceived(peer, feed, if output.Capsules? then output.capsules else [])]
    case Drain(peer) => [StoryReceived(peer, if output.Capsules? then output.capsules else [])]
    case _ => [FeedDiscovered(if output.Records? then output.entries else map[])]
  }

  /** A refused publish is reported before the error is. */
  function Complain(command: Command, error: P2pError): seq<Event> {
    if command.Publish? then [PublishRejected(command.peer, command.capsule.feedId, error)] else []
  }

  function Perform(oracle: Oracle, v: View, command: Command): Turn
    requires !command.Shutdown?
  {
    var peers := Register(v.peers, command);
    var found := Resolve(peers, command);
    if found.Err? then
      Turn(View(v.net, peers, v.events, v.shutdown), Err(found.error))
    else
      var step := Apply(oracle, v.net, found.value);
      if step.output.Failed? then
        Turn(View(step.state, peers, v.events + Complain(command, step.output.error), v.shutdown), Err(step.output.error))
      else
        Turn(View(step.state, peers, v.events + Report(command, step.state, step.output), v.shutdown), Ok(()))
  }

  function Handle(oracle: Oracle, v: View, command: Command): Turn {
    if command.Shutdown? then
      Turn(v.(shutdown := true, events := v.events + [Degraded("p2p runtime shut down")]), Ok(()))
    else if v.shutdown then
      Turn(v.(events := v.events + [Degraded("p2p runtime is shut down")]), Ok(()))
    else
      var turn := Perform(oracle, v, command);
      if turn.reply.Err? then turn.(view := turn.view.(events := turn.view.events + [ErrorRaised(turn.reply.error)]))
      else turn
  }

  /** What a user of the runtime does: give it a command, or take the events. */
  datatype Act = Handles(command: Command) | TakesEvents

  function ActOn(oracle: Oracle, v: View, act: Act): View {
    match act
    case Handles(command) => Handle(oracle, v, command).view
    case TakesEvents => v.(events := [])
  }

  class P2pRuntime {
    const network: InMemoryNetwork
    var peers: map<PeerId, Peer>
    var events: seq<Event>
    var shutdown: bool

    function State(): View
      reads this, network
    {
      View(network.View(), peers, events, shutdown)
    }

    constructor (oracle: Oracle)
      ensures State() == START
      ensures network.oracle == oracle
      ensures fresh(network)
    {
      network := new InMemoryNetwork(oracle);
      peers, events, shutdown := map[], [Ready], false;
    }

    method PerformCommand(command: Command) returns (reply: Result<(), P2pError>)
      requires !command.Shutdown?
      modifies this, network
      ensures Turn(State(), reply) == Perform(network.oracle, old(State()), command)
    {
      if command.Join? && command.spec.id !in peers {
        peers := peers[command.spec.id := command.spec];
      }
      var found := Resolve(peers, command);
      if found.Err? {
        return Err(found.error);
      }
      reply := CarryOut(command, found.value);
    }

    method CarryOut(command: Command, op: Op) returns (reply: Result<(), P2pError>)
      requires !command.Shutdown?
      modifies this`events, network
      ensures
        var step := Apply(network.oracle, old(network.View()), op);
        && network.View() == step.state
        && (if step.output.Failed? then
              reply == Err(step.output.error) && events == old(events) + Complain(command, step.output.error)
            else
              reply == Ok(()) && events == old(events) + Report(command, step.state, step.output))
    {
      var output := network.Perform(op);
      if output.Failed? {
        events := events + Complain(command, output.error);
        return Err(output.error);
      }
      events := events + Report(command, network.View(), output);
      return Ok(());
    }

    method HandleCommand(command: Command) returns (reply: Result<(), P2pError>)
      modifies this, network
      ensures Turn(State(), reply) == Handle(network.oracle, old(State()), command)
    {
      if command.Shutdown? {
        shutdown := true;
        events := events + [Degraded("p2p runtime shut down")];
        return Ok(());
      }
      if shutdown {
        events := events + [Degraded("p2p runtime is shut down")];
        return Ok(());
      }
      reply := PerformCommand(command);
      if reply.Err? {
        events := events + [ErrorRaised(reply.error)];
      }
    }

    method DrainEvents() returns (drained: seq<Event>)
      modifies this
      ensures drained == old(events)
      ensures State() == ActOn(network.oracle, old(State()), TakesEvents)
    {
      drained := events;
      events := [];
    }
  }
}
