/** Reading the directory by user route: the visible records, and the logical feeds that
    group them by label. The store's ordered iteration appears as an enumeration of its
    keys; the summaries are proved not to depend on it. */
module Grouping {
  import opened Prelude
  import opened Proto
  import opened Directory
  import opened Routes
  import opened Runs
  import NetworkModel

  // ---- ordering of records ----

  /** Lexicographic order on strings. */
  predicate AtMost(a: string, b: string) {
    a == "" || (b != "" && (a[0] < b[0] || (a[0] == b[0] && AtMost(a[1..], b[1..]))))
  }

  lemma {:induction false} AtMostTotal(a: string, b: string)
    ensures AtMost(a, b) || AtMost(b, a)
  {
    if a != "" && b != "" && a[0] == b[0] {
      AtMostTotal(a[1..], b[1..]);
    }
  }

  lemma {:induction false} AtMostAntisymmetric(a: string, b: string)
    requires AtMost(a, b) && AtMost(b, a)
    ensures a == b
  {
    if a != "" {
      AtMostAntisymmetric(a[1..], b[1..]);
      assert a == [a[0]] + a[1..] && b == [b[0]] + b[1..];
    }
  }

  lemma {:induction false} AtMostTransitive(a: string, b: string, c: string)
    requires AtMost(a, b) && AtMost(b, c)
    ensures AtMost(a, c)
  {
    if a != "" && a[0] == b[0] == c[0] {
      AtMostTransitive(a[1..], b[1..], c[1..]);
    }
  }

  /** By last-seen time, then by feed id. */
  predicate Before(a: Entry, b: Entry) {
    a.lastSeenAt < b.lastSeenAt || (a.lastSeenAt == b.lastSeenAt && AtMost(a.feedId, b.feedId))
  }

  lemma BeforeIsOrder(a: Entry, b: Entry, c: Entry)
    ensures Before(a, b) || Before(b, a)
    ensures Before(a, b) && Before(b, c) ==> Before(a, c)
    ensures Before(a, b) && Before(b, a) ==> a.feedId == b.feedId
  {
    AtMostTotal(a.feedId, b.feedId);
    if AtMost(a.feedId, b.feedId) && AtMost(b.feedId, c.feedId) {
      AtMostTransitive(a.feedId, b.feedId, c.feedId);
    }
    if AtMost(a.feedId, b.feedId) && AtMost(b.feedId, a.feedId) {
      AtMostAntisymmetric(a.feedId, b.feedId);
    }
  }

  /** The record a stable sort by `Before` puts first. */
  function Earliest(entries: seq<Entry>): (r: Entry)
    requires entries != []
    ensures r in entries
    ensures forall e :: e in entries ==> Before(r, e)
  {
    var last := entries[|entries| - 1];
    BeforeIsOrder(last, last, last);
    if |entries| == 1 then last
    else
      var rest := entries[..|entries| - 1];
      var first := Earliest(rest);
      BeforeIsOrder(first, last, last);
      assert forall e :: e in entries ==> e in rest || e == last;
      if Before(first, last) then first
      else
        assert forall e :: e in rest ==> Before(last, e) by {
          forall e | e in rest
            ensures Before(last, e)
          {
            BeforeIsOrder(last, first, e);
          }
        }
        last
  }

  // ---- summaries ----

  datatype Summary = Summary(
    owner: Owner, name: string, syntax: string, feedIds: set<FeedId>, peerIds: set<PeerId>,
    agentKinds: set<string>, storyKinds: set<string>, visibleEntries: nat, lastSeenAt: int)

  function LatestSeen(entries: seq<Entry>): (r: int)
    requires entries != []
    ensures forall e :: e in entries ==> e.lastSeenAt <= r
    ensures exists e :: e in entries && e.lastSeenAt == r
  {
    var last := entries[|entries| - 1];
    if |entries| == 1 then last.lastSeenAt
    else
      var rest := LatestSeen(entries[..|entries| - 1]);
      assert forall e :: e in entries ==> e in entries[..|entries| - 1] || e == last;
      if rest < last.lastSeenAt then last.lastSeenAt else rest
  }

  function FeedIds(entries: seq<Entry>): set<FeedId> {
    set e | e in entries :: e.feedId
  }

  function AgentKindsOf(entry: Entry): set<string> {
    set stream, kind | stream in entry.streams && kind in stream.agentKinds :: kind
  }

  function StoryKindsOf(entry: Entry): set<string> {
    set stream, kind | stream in entry.streams && kind in stream.storyKinds :: kind
  }

  function AgentKinds(entries: seq<Entry>): set<string> {
    set e, kind | e in entries && kind in AgentKindsOf(e) :: kind
  }

  function StoryKinds(entries: seq<Entry>): set<string> {
    set e, kind | e in entries && kind in StoryKindsOf(e) :: kind
  }

  function Summarise(name: string, entries: seq<Entry>): Summary
    requires entries != []
  {
    var owner := Earliest(entries).owner;
    Summary(owner, name, owner.login + "/" + name,
      FeedIds(entries),
      set e | e in entries :: e.peerId,
      AgentKinds(entries),
      StoryKinds(entries),
      |entries|,
      LatestSeen(entries))
  }

  predicate DistinctFeeds(entries: seq<Entry>) {
    forall i, j :: 0 <= i < j < |entries| ==> entries[i].feedId != entries[j].feedId
  }

  /** The summary of records of different feeds does not depend on their order. */
  lemma SummaryIgnoresOrder(name: string, entries: seq<Entry>, others: seq<Entry>)
    requires entries != [] && multiset(entries) == multiset(others)
    requires DistinctFeeds(entries)
    ensures others != [] && Summarise(name, entries) == Summarise(name, others)
  {
    assert |multiset(entries)| == |multiset(others)|;
    forall e
      ensures e in entries <==> e in others
    {
      assert e in entries <==> e in multiset(entries);
      assert e in others <==> e in multiset(others);
    }
    var a, b := Earliest(entries), Earliest(others);
    BeforeIsOrder(a, b, b);
    assert a == b by {
      var i :| 0 <= i < |entries| && entries[i] == a;
      var j :| 0 <= j < |entries| && entries[j] == b;
    }
    assert LatestSeen(entries) == LatestSeen(others);
  }

  lemma TallyStep(entries: seq<Entry>, entry: Entry)
    ensures
      var more := entries + [entry];
      && FeedIds(more) == FeedIds(entries) + {entry.feedId}
      && (set e | e in more :: e.peerId) == (set e | e in entries :: e.peerId) + {entry.peerId}
      && AgentKinds(more) == AgentKinds(entries) + AgentKindsOf(entry)
      && StoryKinds(more) == StoryKinds(entries) + StoryKindsOf(entry)
  {
    assert forall e :: e in entries + [entry] <==> e in entries || e == entry;
  }

  /** Sets are filled record by record, and the newest last-seen time is kept. */
  method LogicalFeedSummary(name: string, entries: seq<Entry>) returns (r: Option<Summary>)
    ensures r == if entries == [] then None else Some(Summarise(name, entries))
  {
    if entries == [] {
      return None;
    }
    var feedIds, peerIds, agentKinds, storyKinds := {}, {}, {}, {};
    for i := 0 to |entries|
      invariant feedIds == FeedIds(entries[..i])
      invariant peerIds == set e | e in entries[..i] :: e.peerId
      invariant agentKinds == AgentKinds(entries[..i])
      invariant storyKinds == StoryKinds(entries[..i])
    {
      TallyStep(entries[..i], entries[i]);
      assert entries[..i + 1] == entries[..i] + [entries[i]];
      feedIds, peerIds := feedIds + {entries[i].feedId}, peerIds + {entries[i].peerId};
      agentKinds := agentKinds + AgentKindsOf(entries[i]);
      storyKinds := storyKinds + StoryKindsOf(entries[i]);
    }
    assert entries[..|entries|] == entries;
    var owner := Earliest(entries).owner;
    var lastSeenAt := NewestSeen(entries);
    r := Some(Summary(owner, name, owner.login + "/" + name, feedIds, peerIds, agentKinds, storyKinds, |entries|, lastSeenAt));
  }

  lemma LatestOfMore(entries: seq<Entry>, more: Entry)
    requires entries != []
    ensures LatestSeen(entries + [more]) == if LatestSeen(entries) < more.lastSeenAt then more.lastSeenAt else LatestSeen(entries)
  {
    assert (entries + [more])[..|entries|] == entries;
  }

  method NewestSeen(entries: seq<Entry>) returns (r: int)
    requires entries != []
    ensures r == LatestSeen(entries)
  {
    r := entries[0].lastSeenAt;
    for i := 1 to |entries|
      invariant r == LatestSeen(entries[..i])
    {
      assert entries[..i + 1] == entries[..i] + [entries[i]];
      LatestOfMore(entries[..i], entries[i]);
      if entries[i].lastSeenAt > r {
        r := entries[i].lastSeenAt;
      }
    }
    assert entries[..|entries|] == entries;
  }

  // ---- what a user route shows ----

  datatype RouteView = RouteView(
    networkId: NetworkId, filter: StreamFilter, agentKinds: set<string>, storyKinds: set<string>,
    kindMatches: (string, string) -> bool)

  predicate ShowsStream(view: RouteView, stream: Stream) {
    && view.filter.Permits(stream.name)
    && stream.storyOnly && stream.settledOnly && !stream.rawEvents
    && (view.agentKinds == {} || view.agentKinds * stream.agentKinds != {})
    && (view.storyKinds == {} || exists want, kind :: want in view.storyKinds && kind in stream.storyKinds && view.kindMatches(kind, want))
  }

  function NarrowStreams(view: RouteView, entry: Entry): Entry {
    entry.(streams := Filter(entry.streams, (stream: Stream) => ShowsStream(view, stream)))
  }

  predicate Shows(view: RouteView, user: UserId, entry: Entry) {
    && entry.owner.userId == user
    && entry.networkId == view.networkId
    && view.filter.Permits(entry.feedLabel)
    && entry.visibility == Public
  }

  /** The keys of the store in some order, each once. */
  ghost predicate Enumerates(order: seq<FeedId>, s: Store) {
    && (forall feed :: feed in order <==> feed in s.entries)
    && forall i, j :: 0 <= i < j < |order| ==> order[i] != order[j]
  }

  function ShownAt(s: Store, view: RouteView, user: UserId): FeedId -> seq<Entry> {
    (feed: FeedId) =>
      if feed in s.entries && Shows(view, user, s.entries[feed]) then [NarrowStreams(view, s.entries[feed])] else []
  }

  function VisibleEntries(s: Store, order: seq<FeedId>, view: RouteView, user: UserId): seq<Entry> {
    Collect(order, ShownAt(s, view, user))
  }

  /** The owner mismatch the loop guards against cannot occur: the records were picked by owner. */
  method VisibleEntriesForRoute(s: Store, order: seq<FeedId>, view: RouteView, user: UserId)
      returns (r: Result<seq<Entry>, DirectoryError>)
    requires forall k :: 0 <= k < |order| ==> order[k] in s.entries
    ensures r == Ok(VisibleEntries(s, order, view, user))
  {
    var shown := [];
    for i := 0 to |order|
      invariant shown == VisibleEntries(s, order[..i], view, user)
    {
      assert order[..i + 1][..i] == order[..i];
      var entry := s.entries[order[i]];
      if entry.owner.userId == user {
        if entry.networkId == view.networkId {
          if entry.owner.userId != user {
            return Err(GithubIdMismatch);
          }
          if view.filter.Permits(entry.feedLabel) && entry.visibility == Public {
            shown := shown + [NarrowStreams(view, entry)];
          }
        }
      }
    }
    assert order[..|order|] == order;
    r := Ok(shown);
  }

  // ---- grouping by label ----

  function AddToGroup(groups: map<string, seq<Entry>>, entry: Entry): map<string, seq<Entry>> {
    groups[entry.feedLabel := NetworkModel.Lookup(groups, entry.feedLabel, []) + [entry]]
  }

  function GroupByLabel(entries: seq<Entry>): map<string, seq<Entry>> {
    if entries == [] then map[]
    else AddToGroup(GroupByLabel(entries[..|entries| - 1]), entries[|entries| - 1])
  }

  function Labelled(name: string): Entry -> bool {
    (entry: Entry) => entry.feedLabel == name
  }

  /** A group holds exactly the records of its label, in order; there are no other groups. */
  lemma {:induction false} GroupIsFilter(entries: seq<Entry>, name: string)
    ensures name in GroupByLabel(entries) <==> Filter(entries, Labelled(name)) != []
    ensures name in GroupByLabel(entries) ==> GroupByLabel(entries)[name] == Filter(entries, Labelled(name))
  {
    if entries != [] {
      GroupIsFilter(entries[..|entries| - 1], name);
    }
  }

  lemma {:induction false} GroupsCoverEntries(entries: seq<Entry>)
    ensures TotalLength(GroupByLabel(entries)) == |entries|
  {
    if entries != [] {
      var past, entry := entries[..|entries| - 1], entries[|entries| - 1];
      GroupsCoverEntries(past);
      var groups := GroupByLabel(past);
      TotalLengthUpdate(groups, entry.feedLabel, NetworkModel.Lookup(groups, entry.feedLabel, []) + [entry]);
    }
  }

  function LogicalFeeds(groups: map<string, seq<Entry>>): map<string, Summary>
    requires forall name :: name in groups ==> groups[name] != []
  {
    map name | name in groups :: Summarise(name, groups[name])
  }

  function FeedsOf(entries: seq<Entry>): map<string, Summary> {
    assert forall name :: name in GroupByLabel(entries) ==> GroupByLabel(entries)[name] != [] by {
      forall name | name in GroupByLabel(entries)
        ensures GroupByLabel(entries)[name] != []
      {
        GroupIsFilter(entries, name);
      }
    }
    LogicalFeeds(GroupByLabel(entries))
  }

  method GroupLogicalFeeds(entries: seq<Entry>) returns (feeds: map<string, Summary>)
    ensures feeds == FeedsOf(entries)
  {
    var groups: map<string, seq<Entry>> := map[];
    for i := 0 to |entries|
      invariant groups == GroupByLabel(entries[..i])
    {
      assert entries[..i + 1][..i] == entries[..i];
      groups := AddToGroup(groups, entries[i]);
    }
    assert entries[..|entries|] == entries;
    forall name | name in groups
      ensures groups[name] != []
    {
      GroupIsFilter(entries, name);
    }
    feeds := SummariseGroups(groups);
  }

  method SummariseGroups(groups: map<string, seq<Entry>>) returns (feeds: map<string, Summary>)
    requires forall name :: name in groups ==> groups[name] != []
    ensures feeds == LogicalFeeds(groups)
  {
    feeds := map[];
    var names := groups.Keys;
    while names != {}
      invariant names <= groups.Keys
      invariant feeds.Keys == groups.Keys - names
      invariant forall name :: name in feeds ==> feeds[name] == Summarise(name, groups[name])
      decreases |names|
    {
      var name :| name in names;
      var summary := LogicalFeedSummary(name, groups[name]);
      feeds := feeds[name := summary.value];
      names := names - {name};
    }
  }

  // ---- the partition ----

  lemma LastIsNew(entries: seq<Entry>)
    requires DistinctFeeds(entries) && entries != []
    ensures entries[|entries| - 1].feedId !in FeedIds(entries[..|entries| - 1])
  {
  }

  lemma FeedIdsOfLast(entries: seq<Entry>)
    requires entries != []
    ensures FeedIds(entries) == FeedIds(entries[..|entries| - 1]) + {entries[|entries| - 1].feedId}
  {
    TallyStep(entries[..|entries| - 1], entries[|entries| - 1]);
    assert entries == entries[..|entries| - 1] + [entries[|entries| - 1]];
  }

  lemma {:induction false} DistinctCount(entries: seq<Entry>)
    requires DistinctFeeds(entries)
    ensures |FeedIds(entries)| == |entries|
  {
    if entries != [] {
      var past, entry := entries[..|entries| - 1], entries[|entries| - 1];
      DistinctCount(past);
      LastIsNew(entries);
      FeedIdsOfLast(entries);
    }
  }

  lemma {:induction false} FilterKeepsDistinct(entries: seq<Entry>, keep: Entry -> bool)
    requires DistinctFeeds(entries)
    ensures DistinctFeeds(Filter(entries, keep))
  {
    if entries != [] {
      var past := entries[..|entries| - 1];
      FilterKeepsDistinct(past, keep);
      forall e | e in Filter(past, keep)
        ensures e.feedId != entries[|entries| - 1].feedId
      {
        assert e in past;
      }
    }
  }

  function IdsLabelled(entries: seq<Entry>, name: string): set<FeedId> {
    set e | e in entries && e.feedLabel == name :: e.feedId
  }

  predicate InGroup(entries: seq<Entry>, name: string, e: Entry) {
    e in entries && e.feedLabel == name
  }

  /** The group's owner is that of the record seen first, the smaller feed id before the larger
      at the same time, and the summary is printed under that owner's login. */
  ghost predicate OwnerFits(entries: seq<Entry>, name: string, feed: Summary) {
    && feed.syntax == feed.owner.login + "/" + name
    && exists first ::
         && InGroup(entries, name, first) && first.owner == feed.owner
         && forall e :: InGroup(entries, name, e) && e != first ==>
              first.lastSeenAt < e.lastSeenAt || (first.lastSeenAt == e.lastSeenAt && AtMost(first.feedId, e.feedId))
  }

  /** The peers of the group's records, and the kinds that any of their streams has. */
  ghost predicate KindsFit(entries: seq<Entry>, name: string, feed: Summary) {
    && (forall peer :: peer in feed.peerIds <==> exists e :: InGroup(entries, name, e) && e.peerId == peer)
    && (forall kind :: kind in feed.agentKinds <==>
          exists e, stream :: InGroup(entries, name, e) && stream in e.streams && kind in stream.agentKinds)
    && (forall kind :: kind in feed.storyKinds <==>
          exists e, stream :: InGroup(entries, name, e) && stream in e.streams && kind in stream.storyKinds)
  }

  /** The summary names its group, lists exactly its feed ids, counts them, and carries the
      newest last-seen time, the owner seen first, and the peers and kinds of the group. */
  ghost predicate GroupFits(entries: seq<Entry>, name: string, feed: Summary) {
    && feed.name == name
    && feed.feedIds == IdsLabelled(entries, name)
    && feed.visibleEntries == |feed.feedIds|
    && (forall e :: e in entries && e.feedLabel == name ==> e.lastSeenAt <= feed.lastSeenAt)
    && (exists e :: e in entries && e.feedLabel == name && e.lastSeenAt == feed.lastSeenAt)
    && OwnerFits(entries, name, feed)
    && KindsFit(entries, name, feed)
  }

  ghost predicate IsPartition(entries: seq<Entry>, feeds: map<string, Summary>) {
    && (forall name :: name in feeds <==> exists e :: e in entries && e.feedLabel == name)
    && (forall name :: name in feeds ==> GroupFits(entries, name, feeds[name]))
    && (forall a, b :: a in feeds && b in feeds && a != b ==> feeds[a].feedIds !! feeds[b].feedIds)
  }

  lemma GroupSummary(entries: seq<Entry>, name: string)
    requires DistinctFeeds(entries) && name in FeedsOf(entries)
    ensures Filter(entries, Labelled(name)) != []
    ensures FeedsOf(entries)[name] == Summarise(name, Filter(entries, Labelled(name)))
    ensures FeedsOf(entries)[name].feedIds == IdsLabelled(entries, name)
    ensures FeedsOf(entries)[name].visibleEntries == |IdsLabelled(entries, name)|
  {
    GroupIsFilter(entries, name);
    LabelledIds(entries, name);
  }

  lemma LabelledIds(entries: seq<Entry>, name: string)
    requires DistinctFeeds(entries)
    ensures FeedIds(Filter(entries, Labelled(name))) == IdsLabelled(entries, name)
    ensures |Filter(entries, Labelled(name))| == |IdsLabelled(entries, name)|
  {
    FilterKeepsDistinct(entries, Labelled(name));
    DistinctCount(Filter(entries, Labelled(name)));
    assert FeedIds(Filter(entries, Labelled(name))) == IdsLabelled(entries, name);
  }

  lemma SameFeedSameEntry(entries: seq<Entry>, a: Entry, b: Entry)
    requires DistinctFeeds(entries) && a in entries && b in entries && a.feedId == b.feedId
    ensures a == b
  {
  }

  lemma LabelsHaveGroups(entries: seq<Entry>, name: string)
    ensures name in FeedsOf(entries) <==> exists e :: e in entries && e.feedLabel == name
  {
    GroupIsFilter(entries, name);
    var group := Filter(entries, Labelled(name));
    if e :| e in entries && e.feedLabel == name {
      assert e in group;
    }
    if group != [] {
      assert group[0] in group;
    }
  }

  lemma LabelsAreDisjoint(entries: seq<Entry>, a: string, b: string)
    requires DistinctFeeds(entries) && a != b
    ensures IdsLabelled(entries, a) !! IdsLabelled(entries, b)
  {
    forall x, y | x in entries && y in entries && x.feedLabel == a && y.feedLabel == b
      ensures x.feedId != y.feedId
    {
      if x.feedId == y.feedId {
        SameFeedSameEntry(entries, x, y);
      }
    }
  }

  lemma GroupLastSeen(entries: seq<Entry>, name: string)
    requires DistinctFeeds(entries) && name in FeedsOf(entries)
    ensures
      var seen := FeedsOf(entries)[name].lastSeenAt;
      && (forall e :: e in entries && e.feedLabel == name ==> e.lastSeenAt <= seen)
      && (exists e :: e in entries && e.feedLabel == name && e.lastSeenAt == seen)
  {
    GroupSummary(entries, name);
    var group := Filter(entries, Labelled(name));
    assert forall e :: e in group <==> e in entries && e.feedLabel == name;
  }

  lemma GroupMembers(entries: seq<Entry>, name: string)
    ensures forall e :: e in Filter(entries, Labelled(name)) <==> InGroup(entries, name, e)
  {
  }

  lemma GroupOwner(entries: seq<Entry>, name: string)
    requires DistinctFeeds(entries) && name in FeedsOf(entries)
    ensures OwnerFits(entries, name, FeedsOf(entries)[name])
  {
    GroupSummary(entries, name);
    GroupMembers(entries, name);
    var first := Earliest(Filter(entries, Labelled(name)));
    forall e | InGroup(entries, name, e)
      ensures Before(first, e)
    {
    }
    assert InGroup(entries, name, first) && first.owner == FeedsOf(entries)[name].owner;
  }

  lemma GroupKinds(entries: seq<Entry>, name: string)
    requires DistinctFeeds(entries) && name in FeedsOf(entries)
    ensures KindsFit(entries, name, FeedsOf(entries)[name])
  {
    GroupSummary(entries, name);
    GroupMembers(entries, name);
    KindsOfMembers(Filter(entries, Labelled(name)));
  }

  lemma KindsOfMembers(group: seq<Entry>)
    ensures forall kind :: kind in AgentKinds(group) <==> exists e, stream :: e in group && stream in e.streams && kind in stream.agentKinds
    ensures forall kind :: kind in StoryKinds(group) <==> exists e, stream :: e in group && stream in e.streams && kind in stream.storyKinds
  {
    forall e, stream, kind | e in group && stream in e.streams && kind in stream.agentKinds
      ensures kind in AgentKinds(group)
    {
      assert kind in AgentKindsOf(e);
    }
    forall e, stream, kind | e in group && stream in e.streams && kind in stream.storyKinds
      ensures kind in StoryKinds(group)
    {
      assert kind in StoryKindsOf(e);
    }
  }

  /** The sum of the counts that the summaries report. */
  ghost function TotalEntries(feeds: map<string, Summary>): nat
    decreases |feeds|
  {
    if feeds == map[] then 0
    else
      var name :| name in feeds;
      feeds[name].visibleEntries + TotalEntries(feeds - {name})
  }

  /** Summaries of groups report the sizes of the groups. */
  lemma {:induction false} CountsAddUp(groups: map<string, seq<Entry>>, feeds: map<string, Summary>)
    requires feeds.Keys == groups.Keys
    requires forall name :: name in groups ==> feeds[name].visibleEntries == |groups[name]|
    ensures TotalEntries(feeds) == TotalLength(groups)
    decreases |feeds|
  {
    if feeds == map[] {
      assert groups == map[];
    } else {
      var name :| name in feeds && TotalEntries(feeds) == feeds[name].visibleEntries + TotalEntries(feeds - {name});
      TotalLengthSplit(groups, name);
      CountsAddUp(groups - {name}, feeds - {name});
    }
  }

  /** The logical feeds of records of different feeds are a partition of them: one summary per
      label, disjoint feed ids covering every record, exact counts, and the newest last-seen
      time of each group; the counts add up to the number of records. */
  lemma GroupingIsPartition(entries: seq<Entry>)
    requires DistinctFeeds(entries)
    ensures IsPartition(entries, FeedsOf(entries))
    ensures TotalEntries(FeedsOf(entries)) == |entries|
  {
    GroupsCoverEntries(entries);
    forall name | name in GroupByLabel(entries)
      ensures FeedsOf(entries)[name].visibleEntries == |GroupByLabel(entries)[name]|
    {
      GroupIsFilter(entries, name);
    }
    CountsAddUp(GroupByLabel(entries), FeedsOf(entries));
    forall name
      ensures name in FeedsOf(entries) <==> exists e :: e in entries && e.feedLabel == name
    {
      LabelsHaveGroups(entries, name);
    }
    forall name | name in FeedsOf(entries)
      ensures GroupFits(entries, name, FeedsOf(entries)[name])
    {
      GroupSummary(entries, name);
      GroupLastSeen(entries, name);
      GroupOwner(entries, name);
      GroupKinds(entries, name);
    }
    forall a, b | a in FeedsOf(entries) && b in FeedsOf(entries) && a != b
      ensures FeedsOf(entries)[a].feedIds !! FeedsOf(entries)[b].feedIds
    {
      GroupSummary(entries, a);
      GroupSummary(entries, b);
      LabelsAreDisjoint(entries, a, b);
    }
  }

  // ---- independence of the iteration order ----

  lemma {:induction false} DistinctMultiplicity(entries: seq<Entry>, e: Entry)
    requires DistinctFeeds(entries)
    ensures multiset(entries)[e] == if e in entries then 1 else 0
  {
    if entries != [] {
      var past, last := entries[..|entries| - 1], entries[|entries| - 1];
      assert entries == past + [last];
      DistinctMultiplicity(past, e);
    }
  }

  lemma SameMembersSameMultiset(entries: seq<Entry>, others: seq<Entry>)
    requires DistinctFeeds(entries) && DistinctFeeds(others)
    requires forall e :: e in entries <==> e in others
    ensures multiset(entries) == multiset(others)
  {
    forall e
      ensures multiset(entries)[e] == multiset(others)[e]
    {
      DistinctMultiplicity(entries, e);
      DistinctMultiplicity(others, e);
    }
  }

  lemma FeedsIgnoreOrder(entries: seq<Entry>, others: seq<Entry>)
    requires DistinctFeeds(entries) && DistinctFeeds(others)
    requires forall e :: e in entries <==> e in others
    ensures FeedsOf(entries) == FeedsOf(others)
  {
    forall name
      ensures name in FeedsOf(entries) <==> name in FeedsOf(others)
      ensures name in FeedsOf(entries) ==> FeedsOf(entries)[name] == FeedsOf(others)[name]
    {
      var mine, theirs := Filter(entries, Labelled(name)), Filter(others, Labelled(name));
      GroupIsFilter(entries, name);
      GroupIsFilter(others, name);
      FilterKeepsDistinct(entries, Labelled(name));
      FilterKeepsDistinct(others, Labelled(name));
      SameMembersSameMultiset(mine, theirs);
      assert |multiset(mine)| == |multiset(theirs)|;
      if mine != [] {
        SummaryIgnoresOrder(name, mine, theirs);
      }
    }
  }

  // ---- the store behind the route ----

  lemma {:induction false} VisibleMembers(s: Store, order: seq<FeedId>, view: RouteView, user: UserId, e: Entry)
    requires Consistent(s)
    ensures e in VisibleEntries(s, order, view, user) <==>
      e.feedId in order && e.feedId in s.entries && Shows(view, user, s.entries[e.feedId]) && e == NarrowStreams(view, s.entries[e.feedId])
  {
    if order != [] {
      var past, feed := order[..|order| - 1], order[|order| - 1];
      VisibleMembers(s, past, view, user, e);
      assert order == past + [feed];
    }
  }

  lemma {:induction false} VisibleDistinct(s: Store, order: seq<FeedId>, view: RouteView, user: UserId)
    requires Consistent(s)
    requires forall i, j :: 0 <= i < j < |order| ==> order[i] != order[j]
    ensures DistinctFeeds(VisibleEntries(s, order, view, user))
  {
    if order != [] {
      var past, feed := order[..|order| - 1], order[|order| - 1];
      VisibleDistinct(s, past, view, user);
      forall e | e in VisibleEntries(s, past, view, user)
        ensures e.feedId != feed
      {
        VisibleMembers(s, past, view, user, e);
      }
    }
  }

  /** From any store that publishes can build, the logical feeds a route shows are the same
      for every iteration order, and partition exactly the records the route may show. */
  lemma RouteFeedsArePartition(s: Store, order: seq<FeedId>, other: seq<FeedId>, view: RouteView, user: UserId)
    requires Consistent(s) && Enumerates(order, s) && Enumerates(other, s)
    ensures FeedsOf(VisibleEntries(s, order, view, user)) == FeedsOf(VisibleEntries(s, other, view, user))
    ensures IsPartition(VisibleEntries(s, order, view, user), FeedsOf(VisibleEntries(s, order, view, user)))
    ensures TotalEntries(FeedsOf(VisibleEntries(s, order, view, user))) == |VisibleEntries(s, order, view, user)|
    ensures forall feed :: feed in s.entries && Shows(view, user, s.entries[feed]) <==>
      exists e :: e in VisibleEntries(s, order, view, user) && e.feedId == feed
  {
    VisibleDistinct(s, order, view, user);
    VisibleDistinct(s, other, view, user);
    forall e
      ensures e in VisibleEntries(s, order, view, user) <==> e in VisibleEntries(s, other, view, user)
    {
      VisibleMembers(s, order, view, user, e);
      VisibleMembers(s, other, view, user, e);
    }
    FeedsIgnoreOrder(VisibleEntries(s, order, view, user), VisibleEntries(s, other, view, user));
    GroupingIsPartition(VisibleEntries(s, order, view, user));
    forall feed
      ensures feed in s.entries && Shows(view, user, s.entries[feed]) <==>
        exists e :: e in VisibleEntries(s, order, view, user) && e.feedId == feed
    {
      if feed in s.entries {
        VisibleMembers(s, order, view, user, NarrowStreams(view, s.entries[feed]));
      }
      if e :| e in VisibleEntries(s, order, view, user) && e.feedId == feed {
        VisibleMembers(s, order, view, user, e);
      }
    }
  }

  // ---- which records and streams a route shows ----

  /** Any label, or one of those the filter names. */
  predicate Wanted(filter: StreamFilter, name: string) {
    match filter
    case ShowDefault => true
    case ShowAll => true
    case ShowNamed(labels) => exists k :: 0 <= k < |labels| && labels[k] == name
  }

  /** A settled stream of stories without raw events, of a wanted label, and, when the route
      asks for agents or story kinds, with one of them. */
  predicate StreamFits(view: RouteView, stream: Stream) {
    && Wanted(view.filter, stream.name)
    && stream.storyOnly && stream.settledOnly && !stream.rawEvents
    && (view.agentKinds != {} ==> exists agent :: agent in view.agentKinds && agent in stream.agentKinds)
    && (view.storyKinds != {} ==>
          exists asked, kind :: asked in view.storyKinds && kind in stream.storyKinds && view.kindMatches(kind, asked))
  }

  lemma StreamFitsExactly(view: RouteView, stream: Stream)
    ensures ShowsStream(view, stream) <==> StreamFits(view, stream)
  {
    var shared := view.agentKinds * stream.agentKinds;
    assert forall agent :: agent in shared <==> agent in view.agentKinds && agent in stream.agentKinds;
    assert shared != {} ==> exists agent :: agent in shared;
  }

  /** The streams that fit, in order. */
  predicate Narrowed(view: RouteView, streams: seq<Stream>, kept: seq<Stream>) {
    if streams == [] then kept == []
    else if StreamFits(view, streams[0]) then kept != [] && kept[0] == streams[0] && Narrowed(view, streams[1..], kept[1..])
    else Narrowed(view, streams[1..], kept)
  }

  lemma {:induction false} NarrowedExactly(view: RouteView, streams: seq<Stream>, kept: seq<Stream>)
    ensures Filter(streams, (stream: Stream) => ShowsStream(view, stream)) == kept <==> Narrowed(view, streams, kept)
  {
    if streams != [] {
      var fits := (stream: Stream) => ShowsStream(view, stream);
      FilterFirst(streams, fits);
      StreamFitsExactly(view, streams[0]);
      NarrowedExactly(view, streams[1..], if fits(streams[0]) && kept != [] then kept[1..] else kept);
      if kept != [] {
        assert kept == [kept[0]] + kept[1..];
      }
    }
  }

  /** A record is shown exactly when it is what is left, with the streams that fit, of a stored
      public record of the user's, on the route's network and with a wanted label. */
  lemma ShownExactly(s: Store, order: seq<FeedId>, view: RouteView, user: UserId, e: Entry)
    requires Consistent(s) && Enumerates(order, s)
    ensures e in VisibleEntries(s, order, view, user) <==>
      && e.feedId in s.entries
      && var full := s.entries[e.feedId];
         && full.owner.userId == user && full.networkId == view.networkId && full.visibility == Public
         && Wanted(view.filter, full.feedLabel)
         && e == full.(streams := e.streams) && Narrowed(view, full.streams, e.streams)
  {
    VisibleMembers(s, order, view, user, e);
    if e.feedId in s.entries {
      NarrowedExactly(view, s.entries[e.feedId].streams, e.streams);
    }
  }
}
