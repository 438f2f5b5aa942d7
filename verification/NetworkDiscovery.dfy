/** What discovery returns over every run, and how that compares with the rule that decides
    which records a peer may hold. */
module NetworkDiscovery {
  import opened Proto
  import opened NetworkModel
  import opened NetworkRuns
  import opened NetworkIndexes
  import opened Runs

  predicate Discovers(op: Op) {
    op.DiscoverUser? || op.DiscoverOrg? || op.DiscoverTeam?
  }

  function KeyOf(op: Op): Key
    requires Discovers(op)
  {
    match op
    case DiscoverUser(_, user) => ByUser(user)
    case DiscoverOrg(_, org) => ByOrg(org)
    case DiscoverTeam(_, org, team) => ByTeam(org, team)
  }

  /** The records an answer lists, none when it is a refusal. */
  function Found(oracle: Oracle, s: State, op: Op): map<FeedId, Entry> {
    var output := Apply(oracle, s, op).output;
    if output.Records? then output.entries else map[]
  }

  /** The checks of a discovery on the caller itself. */
  predicate Authorised(s: State, op: Op)
    requires Discovers(op)
  {
    && Gate(op.peer).None?
    && match op
       case DiscoverUser(_, _) => true
       case DiscoverOrg(_, org) => HoldsOrg(s, op.peer.id, org)
       case DiscoverTeam(_, org, team) => HoldsTeam(s, op.peer.id, org, team)
  }

  lemma FoundIsFiled(oracle: Oracle, s: State, op: Op, feed: FeedId)
    requires Discovers(op)
    ensures feed in Found(oracle, s, op) <==>
      && Authorised(s, op) && Filed(s, KeyOf(op), feed) != []
      && (op.DiscoverUser? ==> CanCacheEntry(s, op.peer.id, Filed(s, KeyOf(op), feed)[0]))
    ensures feed in Found(oracle, s, op) ==> [Found(oracle, s, op)[feed]] == Filed(s, KeyOf(op), feed)
  {
    match op
    case DiscoverUser(peer, user) => assert Apply(oracle, s, op).output == FindByUser(s, peer, user);
    case DiscoverOrg(peer, org) => assert Apply(oracle, s, op).output == FindByOrg(s, peer, org);
    case DiscoverTeam(peer, org, team) => assert Apply(oracle, s, op).output == FindByTeam(s, peer, org, team);
  }

  /** After any run, an authorised discovery lists a feed exactly when some record of it was
      accepted under what was asked for, and then it lists the last one; a discovery by user
      also leaves out what the caller may not hold. */
  lemma DiscoveryListsLastRecords(oracle: Oracle, ops: seq<Op>, op: Op, feed: FeedId)
    requires Discovers(op) && Authorised(StateAfter(oracle, ops), op)
    ensures
      var s := StateAfter(oracle, ops);
      var log := NetworkIndexes.Records(oracle, ops, KeyOf(op), feed);
      if log == [] then feed !in Found(oracle, s, op)
      else
        var last := log[|log| - 1];
        && (feed in Found(oracle, s, op) <==> (op.DiscoverUser? ==> CanCacheEntry(s, op.peer.id, last)))
        && (feed in Found(oracle, s, op) ==> Found(oracle, s, op)[feed] == last)
  {
    IndexHoldsLastRecord(oracle, ops, KeyOf(op), feed);
    FoundIsFiled(oracle, StateAfter(oracle, ops), op, feed);
  }

  /** A record that got into an index is public, or an organisation's, or a team's, and names
      what its visibility needs. */
  lemma FiledIsShared(oracle: Oracle, ops: seq<Op>, key: Key, feed: FeedId)
    requires Filed(StateAfter(oracle, ops), key, feed) != []
    ensures
      var entry := Filed(StateAfter(oracle, ops), key, feed)[0];
      && FilesUnder(entry, key)
      && entry.access.Fits(entry.visibility)
      && (entry.visibility == Public || entry.visibility == GithubOrg || entry.visibility == GithubTeam)
  {
    var k := FiledRecordBelongs(oracle, ops, key, feed);
    var before := StateAfter(oracle, ops[..k]);
    AdmittedIsShared(oracle, before, ops[k].peer, ops[k].entry);
  }

  lemma AdmittedIsShared(oracle: Oracle, s: State, peer: Peer, entry: Entry)
    requires RecordError(oracle, s, peer, entry).None?
    ensures entry.access.Fits(entry.visibility)
    ensures entry.visibility == Public || entry.visibility == GithubOrg || entry.visibility == GithubTeam
  {
  }

  predicate OnTeam(s: State, peer: PeerId, access: AccessPolicy) {
    access.org.Some? && access.team.Some? && HoldsTeam(s, peer, access.org.value, access.team.value)
  }

  /** In every reachable state a discovered record is one the caller could also hold itself,
      with one exception: a discovery by organisation lists the records of teams of that
      organisation to members who are not in the team. */
  lemma DiscoveredIsAdmitted(oracle: Oracle, ops: seq<Op>, op: Op, feed: FeedId)
    requires Discovers(op) && feed in Found(oracle, StateAfter(oracle, ops), op)
    ensures
      var s := StateAfter(oracle, ops);
      var entry := Found(oracle, s, op)[feed];
      CanCacheEntry(s, op.peer.id, entry) <==>
      !(op.DiscoverOrg? && entry.visibility == GithubTeam && !OnTeam(s, op.peer.id, entry.access))
  {
    FoundIsFiled(oracle, StateAfter(oracle, ops), op, feed);
    FiledIsShared(oracle, ops, KeyOf(op), feed);
  }

  /** The exception is real: a team member announces a team record, a plain member of the
      organisation discovers it, though it could not hold it. */
  lemma OrgListsTeamRecords(oracle: Oracle, member: Peer, other: Peer, entry: Entry, org: string, team: string)
    requires Gate(member).None? && Gate(other).None? && member.id != other.id
    requires EntryError(oracle, entry).None? && entry.peerId == member.id && entry.networkId == member.networkId
    requires entry.visibility == GithubTeam && entry.access.PermitsTeam(org, team)
    ensures
      var ops := [Certify(member, org, {team}), AnnounceEntry(member, entry), Certify(other, org, {})];
      var s := StateAfter(oracle, ops);
      entry.feedId in Found(oracle, s, DiscoverOrg(other, org)) && !CanCacheEntry(s, other.id, entry)
  {
    var certify, announce, admit := Certify(member, org, {team}), AnnounceEntry(member, entry), Certify(other, org, {});
    RunOfThree(Stepper(oracle), EMPTY, certify, announce, admit);
    var first := Stepper(oracle)(EMPTY, certify);
    var second := Stepper(oracle)(first, announce);
    var third := Stepper(oracle)(second, admit);
    Certifies(oracle, EMPTY, member, org, {team});
    AnnouncesTeamRecord(oracle, first, member, entry, org, team);
    Certifies(oracle, second, other, org, {});
    assert Filed(third, ByOrg(org), entry.feedId) == Filed(second, ByOrg(org), entry.feedId);
    FoundIsFiled(oracle, third, DiscoverOrg(other, org), entry.feedId);
  }

  lemma Certifies(oracle: Oracle, s: State, peer: Peer, org: string, teams: set<string>)
    requires Gate(peer).None?
    ensures Apply(oracle, s, Certify(peer, org, teams)).state == s.(orgAccess := s.orgAccess[peer.id := OrgAccess(org, teams)])
  {
  }

  lemma AnnouncesTeamRecord(oracle: Oracle, s: State, peer: Peer, entry: Entry, org: string, team: string)
    requires Gate(peer).None? && HoldsTeam(s, peer.id, org, team)
    requires EntryError(oracle, entry).None? && entry.peerId == peer.id && entry.networkId == peer.networkId
    requires entry.visibility == GithubTeam && entry.access.PermitsTeam(org, team)
    ensures Filed(Apply(oracle, s, AnnounceEntry(peer, entry)).state, ByOrg(org), entry.feedId) == [entry]
  {
    var op := AnnounceEntry(peer, entry);
    assert Indexes(oracle, s, op);
    RecordIndexes(oracle, s, op);
    EntryFiled(s, entry, ByOrg(org), entry.feedId);
    assert Filed(IndexEntry(s, entry), ByOrg(org), entry.feedId) == Filed(Apply(oracle, s, op).state, ByOrg(org), entry.feedId);
  }
}
