/** The edge snapshot store: bounded, deduplicated buffers of feeds and headlines, the reads
    that filter them, and the publish request that fills them. */
module Snapshot {
  import opened Prelude
  import opened Proto
  import opened Runs
  import opened Routes
  import opened Policy

  const LIMIT: nat := 48
  const MAX_PUBLISH: nat := 16
  const HEADLINE_TTL := 45 * 60
  const FEED_TTL := 15 * 60

  datatype FeedView = FeedView(
    feedId: FeedId, name: string, visibility: string, access: AccessPolicy,
    publisherId: Option<UserId>, publisherLogin: string, lastSeenAt: int)

  datatype Headline = Headline(
    feedId: FeedId, name: string, visibility: string, access: AccessPolicy, createdAt: Option<int>,
    publisherId: Option<UserId>, publisherLogin: string, headline: string, deck: string, score: nat)

  datatype Store = Store(feeds: seq<FeedView>, headlines: seq<Headline>)

  const EMPTY := Store([], [])

  /** The keyword screen on public copy, left abstract. */
  datatype Screen = Screen(hasIssue: string -> bool)

  function ViewOf(h: Headline, seenAt: int): FeedView {
    FeedView(h.feedId, h.name, h.visibility, h.access, h.publisherId, h.publisherLogin, seenAt)
  }

  predicate FeedIsFresh(feed: FeedView, now: int) {
    now - feed.lastSeenAt <= FEED_TTL
  }

  predicate HeadlineIsFresh(h: Headline, now: int) {
    h.createdAt.Some? ==> now - h.createdAt.value <= HEADLINE_TTL
  }

  function FreshFeeds(now: int): FeedView -> bool {
    (feed: FeedView) => FeedIsFresh(feed, now)
  }

  function FreshHeadlines(now: int): Headline -> bool {
    (h: Headline) => HeadlineIsFresh(h, now)
  }

  // ---- updates ----

  /** Replaces the first feed of that id in place, or appends. */
  function UpsertView(feeds: seq<FeedView>, feed: FeedView): seq<FeedView> {
    if feeds == [] then [feed]
    else if feeds[0].feedId == feed.feedId then [feed] + feeds[1..]
    else [feeds[0]] + UpsertView(feeds[1..], feed)
  }

  function UpsertFeed(s: Store, now: int, feed: FeedView): Store {
    s.(feeds := LastN(UpsertView(Filter(s.feeds, FreshFeeds(now)), feed), LIMIT))
  }

  predicate SameStory(a: Headline, b: Headline) {
    a.feedId == b.feedId && a.headline == b.headline && a.deck == b.deck
  }

  /** The clock is read three times during a push. */
  datatype Clock = Clock(now: int, seenAt: int, upsertNow: int)

  datatype Pushed = Pushed(store: Store, accepted: bool)

  predicate Repeats(headlines: seq<Headline>, now: int, h: Headline) {
    var kept := Filter(headlines, FreshHeadlines(now));
    exists k :: 0 <= k < |kept| && SameStory(kept[k], h)
  }

  function AddStory(headlines: seq<Headline>, now: int, h: Headline): seq<Headline> {
    var kept := Filter(headlines, FreshHeadlines(now));
    if Repeats(headlines, now, h) then kept else LastN(kept + [h], LIMIT)
  }

  function Push(s: Store, clock: Clock, h: Headline): Pushed {
    if !HeadlineIsFresh(h, clock.now) then Pushed(s, false)
    else
      Pushed(Store(UpsertFeed(s, clock.upsertNow, ViewOf(h, clock.seenAt)).feeds,
                   AddStory(s.headlines, clock.now, h)),
             !Repeats(s.headlines, clock.now, h))
  }

  // ---- reads ----

  predicate IsLocal(feedId: FeedId) {
    "local:" <= feedId
  }

  predicate FeedVisible(feed: FeedView, session: Option<Session>) {
    !IsLocal(feed.feedId) && SessionCanAccess(session, feed.visibility, feed.access)
  }

  predicate HeadlineVisible(screen: Screen, h: Headline, session: Option<Session>) {
    && SessionCanAccess(session, h.visibility, h.access)
    && !IsLocal(h.feedId)
    && !screen.hasIssue(h.headline + " " + h.deck)
  }

  function HasFeed(feeds: seq<FeedView>, feedId: FeedId): bool {
    exists k :: 0 <= k < |feeds| && feeds[k].feedId == feedId
  }

  /** Appends the feeds whose id is not there yet. */
  function Merge(feeds: seq<FeedView>, extra: seq<FeedView>): seq<FeedView> {
    if extra == [] then feeds
    else
      var merged := Merge(feeds, extra[..|extra| - 1]);
      if HasFeed(merged, extra[|extra| - 1].feedId) then merged else merged + [extra[|extra| - 1]]
  }

  function ViewsOf(headlines: seq<Headline>, seenAt: int): seq<FeedView> {
    if headlines == [] then []
    else
      var views := ViewsOf(headlines[..|headlines| - 1], seenAt);
      var h := headlines[|headlines| - 1];
      if HasFeed(views, h.feedId) then views else views + [ViewOf(h, seenAt)]
  }

  function ReadHeadlines(s: Store, now: int, shows: Headline -> bool): seq<Headline> {
    Filter(s.headlines, (h: Headline) => HeadlineIsFresh(h, now) && shows(h))
  }

  /** Stored feeds that pass, then a view for every headline whose feed is not listed yet. */
  function ReadFeeds(s: Store, now: int, seenAt: int, showsFeed: FeedView -> bool, shows: Headline -> bool): seq<FeedView> {
    Merge(Filter(s.feeds, (feed: FeedView) => FeedIsFresh(feed, now) && showsFeed(feed)),
          ViewsOf(ReadHeadlines(s, now, shows), seenAt))
  }

  function PublicHeadlines(screen: Screen): Headline -> bool {
    (h: Headline) => HeadlineVisible(screen, h, None)
  }

  function PublicFeeds(): FeedView -> bool {
    (feed: FeedView) => FeedVisible(feed, None)
  }

  datatype OrgQuery = OrgQuery(org: string, team: Option<string>, filter: StreamFilter, reel: Headline -> bool)

  function OrgHeadlines(screen: Screen, q: OrgQuery): Headline -> bool {
    (h: Headline) =>
      && !IsLocal(h.feedId)
      && OrgRouteShows(h.access, h.visibility, q.org, q.team)
      && q.filter.Permits(h.name)
      && q.reel(h)
      && !screen.hasIssue(h.headline + " " + h.deck)
  }

  function OrgFeeds(q: OrgQuery): FeedView -> bool {
    (feed: FeedView) =>
      && !IsLocal(feed.feedId)
      && OrgRouteShows(feed.access, feed.visibility, q.org, q.team)
      && q.filter.Permits(feed.name)
  }

  datatype UserQuery = UserQuery(userId: UserId, login: string, filter: StreamFilter, reel: Headline -> bool)

  function UserHeadlines(screen: Screen, q: UserQuery, session: Option<Session>): Headline -> bool {
    (h: Headline) =>
      && (h.publisherId == Some(q.userId) || (h.publisherId.None? && ToLower(h.publisherLogin) == ToLower(q.login)))
      && HeadlineVisible(screen, h, session)
      && q.filter.Permits(h.name)
      && q.reel(h)
  }

  function UserFeeds(q: UserQuery, session: Option<Session>): FeedView -> bool {
    (feed: FeedView) =>
      && (feed.publisherId == Some(q.userId) || ToLower(feed.publisherLogin) == ToLower(q.login))
      && FeedVisible(feed, session)
      && q.filter.Permits(feed.name)
  }

  // ---- the mutable store ----

  class SnapshotStore {
    var feeds: seq<FeedView>
    var headlines: seq<Headline>

    function View(): Store
      reads this
    {
      Store(feeds, headlines)
    }

    constructor ()
      ensures View() == EMPTY
    {
      feeds, headlines := [], [];
    }

    method Upsert(now: int, feed: FeedView)
      modifies this`feeds
      ensures View() == UpsertFeed(old(View()), now, feed)
    {
      var updated := UpsertFeedView(Filter(feeds, FreshFeeds(now)), feed);
      feeds := PopFront(updated, LIMIT);
    }

    /** Stale headlines go first; a repeat of a kept story is refused. */
    method AddHeadline(now: int, h: Headline) returns (accepted: bool)
      modifies this`headlines
      ensures headlines == AddStory(old(headlines), now, h) && accepted == !Repeats(old(headlines), now, h)
    {
      headlines := Filter(headlines, FreshHeadlines(now));
      if exists k :: 0 <= k < |headlines| && SameStory(headlines[k], h) {
        return false;
      }
      headlines := PopFront(headlines + [h], LIMIT);
      return true;
    }

    method PushHeadline(clock: Clock, h: Headline) returns (accepted: bool)
      modifies this
      ensures Pushed(View(), accepted) == Push(old(View()), clock, h)
    {
      if !HeadlineIsFresh(h, clock.now) {
        return false;
      }
      Upsert(clock.upsertNow, ViewOf(h, clock.seenAt));
      accepted := AddHeadline(clock.now, h);
    }
  }

  method UpsertFeedView(feeds: seq<FeedView>, feed: FeedView) returns (r: seq<FeedView>)
    ensures r == UpsertView(feeds, feed)
  {
    var i := 0;
    while i < |feeds| && feeds[i].feedId != feed.feedId
      invariant 0 <= i <= |feeds|
      invariant UpsertView(feeds, feed) == feeds[..i] + UpsertView(feeds[i..], feed)
    {
      assert feeds[..i + 1] == feeds[..i] + [feeds[i]] && feeds[i..][1..] == feeds[i + 1..];
      i := i + 1;
    }
    if i < |feeds| {
      r := feeds[i := feed];
      assert r == feeds[..i] + ([feed] + feeds[i..][1..]);
    } else {
      r := feeds + [feed];
      assert feeds[..i] == feeds;
    }
  }

  method MergeResolveFeedViews(feeds: seq<FeedView>, extra: seq<FeedView>) returns (merged: seq<FeedView>)
    ensures merged == Merge(feeds, extra)
  {
    merged := feeds;
    for i := 0 to |extra|
      invariant merged == Merge(feeds, extra[..i])
    {
      assert extra[..i + 1][..i] == extra[..i];
      if !HasFeed(merged, extra[i].feedId) {
        merged := merged + [extra[i]];
      }
    }
    assert extra[..|extra|] == extra;
  }

  method FeedViewsFromHeadlines(headlines: seq<Headline>, seenAt: int) returns (views: seq<FeedView>)
    ensures views == ViewsOf(headlines, seenAt)
  {
    views := [];
    for i := 0 to |headlines|
      invariant views == ViewsOf(headlines[..i], seenAt)
    {
      assert headlines[..i + 1][..i] == headlines[..i];
      if !HasFeed(views, headlines[i].feedId) {
        views := views + [ViewOf(headlines[i], seenAt)];
      }
    }
    assert headlines[..|headlines|] == headlines;
  }

  // ---- the store over every run ----

  datatype Act = Upserts(now: int, feed: FeedView) | Pushes(clock: Clock, h: Headline)

  function Acting(): (Store, Act) -> Store {
    (s: Store, act: Act) =>
      match act
      case Upserts(now, feed) => UpsertFeed(s, now, feed)
      case Pushes(clock, h) => Push(s, clock, h).store
  }

  ghost function StoreAfter(acts: seq<Act>): Store {
    Run(Acting(), EMPTY, acts)
  }

  predicate DistinctFeeds(feeds: seq<FeedView>) {
    forall i, j :: 0 <= i < j < |feeds| ==> feeds[i].feedId != feeds[j].feedId
  }

  predicate DistinctStories(headlines: seq<Headline>) {
    forall i, j :: 0 <= i < j < |headlines| ==> !SameStory(headlines[i], headlines[j])
  }

  predicate WellFormed(s: Store) {
    && |s.feeds| <= LIMIT && DistinctFeeds(s.feeds)
    && |s.headlines| <= LIMIT && DistinctStories(s.headlines)
  }

  /** Any property of pairs that every later element satisfies against every earlier one
      survives filtering. */
  lemma {:induction false} FilterKeepsPairs<T(!new)>(s: seq<T>, keep: T -> bool, pair: (T, T) -> bool)
    requires forall i, j :: 0 <= i < j < |s| ==> pair(s[i], s[j])
    ensures forall i, j :: 0 <= i < j < |Filter(s, keep)| ==> pair(Filter(s, keep)[i], Filter(s, keep)[j])
  {
    if s != [] {
      var front := Filter(s[..|s| - 1], keep);
      FilterKeepsPairs(s[..|s| - 1], keep, pair);
      forall i | 0 <= i < |front|
        ensures pair(front[i], s[|s| - 1])
      {
        assert front[i] in s[..|s| - 1];
      }
    }
  }

  lemma {:induction false} UpsertKeepsDistinct(feeds: seq<FeedView>, feed: FeedView)
    requires DistinctFeeds(feeds)
    ensures DistinctFeeds(UpsertView(feeds, feed))
    ensures forall x :: x in UpsertView(feeds, feed) ==> x == feed || x in feeds
    ensures feed in UpsertView(feeds, feed)
  {
    if feeds != [] && feeds[0].feedId != feed.feedId {
      var rest := UpsertView(feeds[1..], feed);
      UpsertKeepsDistinct(feeds[1..], feed);
      forall k | 0 <= k < |rest|
        ensures rest[k].feedId != feeds[0].feedId
      {
        assert rest[k] in rest;
      }
    }
  }

  lemma UpsertKeepsWellFormed(feeds: seq<FeedView>, now: int, feed: FeedView)
    requires DistinctFeeds(feeds)
    ensures DistinctFeeds(LastN(UpsertView(Filter(feeds, FreshFeeds(now)), feed), LIMIT))
  {
    FilterKeepsPairs(feeds, FreshFeeds(now), (a: FeedView, b: FeedView) => a.feedId != b.feedId);
    UpsertKeepsDistinct(Filter(feeds, FreshFeeds(now)), feed);
  }

  lemma AddKeepsDistinct(headlines: seq<Headline>, now: int, h: Headline)
    requires |headlines| <= LIMIT && DistinctStories(headlines)
    ensures |AddStory(headlines, now, h)| <= LIMIT && DistinctStories(AddStory(headlines, now, h))
  {
    FilterKeepsPairs(headlines, FreshHeadlines(now), (a: Headline, b: Headline) => !SameStory(a, b));
    var kept := Filter(headlines, FreshHeadlines(now));
    assert DistinctStories(kept);
    if !Repeats(headlines, now, h) {
      assert DistinctStories(kept + [h]);
      LastNKeepsDistinct(kept + [h]);
    }
  }

  lemma LastNKeepsDistinct(headlines: seq<Headline>)
    requires DistinctStories(headlines)
    ensures DistinctStories(LastN(headlines, LIMIT))
  {
  }

  lemma UpdatesKeepWellFormed(s: Store, acts: seq<Act>)
    requires WellFormed(s)
    ensures WellFormed(Run(Acting(), s, acts))
  {
    forall s: Store, act: Act | WellFormed(s)
      ensures WellFormed(Acting()(s, act))
    {
      match act
      case Upserts(now, feed) => UpsertKeepsWellFormed(s.feeds, now, feed);
      case Pushes(clock, h) =>
        UpsertKeepsWellFormed(s.feeds, clock.upsertNow, ViewOf(h, clock.seenAt));
        AddKeepsDistinct(s.headlines, clock.now, h);
    }
    Invariant(Acting(), s, acts, (s: Store) => WellFormed(s));
  }

  /** From an empty store, after any sequence of updates at any clock readings, feeds have
      distinct ids, headlines are distinct stories, and both buffers stay within 48. */
  lemma StoreIsWellFormed(acts: seq<Act>)
    ensures WellFormed(StoreAfter(acts))
  {
    UpdatesKeepWellFormed(EMPTY, acts);
  }

  // ---- what the reads return ----

  lemma {:induction false} MergeProperties(feeds: seq<FeedView>, extra: seq<FeedView>)
    requires DistinctFeeds(feeds)
    ensures DistinctFeeds(Merge(feeds, extra))
    ensures forall x :: x in Merge(feeds, extra) ==> x in feeds || x in extra
    ensures forall x :: x in feeds ==> x in Merge(feeds, extra)
    ensures forall x :: x in extra ==> HasFeed(Merge(feeds, extra), x.feedId)
  {
    if extra != [] {
      var front, last := extra[..|extra| - 1], extra[|extra| - 1];
      var merged := Merge(feeds, front);
      MergeProperties(feeds, front);
      assert forall x :: x in extra ==> x in front || x == last;
      forall x | x in extra
        ensures HasFeed(Merge(feeds, extra), x.feedId)
      {
        if HasFeed(merged, x.feedId) {
          var k :| 0 <= k < |merged| && merged[k].feedId == x.feedId;
          assert Merge(feeds, extra)[k].feedId == x.feedId;
        } else {
          assert Merge(feeds, extra)[|merged|].feedId == x.feedId;
        }
      }
    }
  }

  lemma {:induction false} ViewsProperties(headlines: seq<Headline>, seenAt: int)
    ensures forall h :: h in headlines ==> HasFeed(ViewsOf(headlines, seenAt), h.feedId)
    ensures forall v :: v in ViewsOf(headlines, seenAt) ==> exists h :: h in headlines && v == ViewOf(h, seenAt)
  {
    if headlines != [] {
      var front, last := headlines[..|headlines| - 1], headlines[|headlines| - 1];
      var views := ViewsOf(front, seenAt);
      ViewsProperties(front, seenAt);
      assert forall h :: h in headlines ==> h in front || h == last;
      forall h | h in headlines
        ensures HasFeed(ViewsOf(headlines, seenAt), h.feedId)
      {
        if HasFeed(views, h.feedId) {
          var k :| 0 <= k < |views| && views[k].feedId == h.feedId;
          assert ViewsOf(headlines, seenAt)[k].feedId == h.feedId;
        } else {
          assert ViewsOf(headlines, seenAt)[|views|].feedId == h.feedId;
        }
      }
      forall v | v in ViewsOf(headlines, seenAt)
        ensures exists h :: h in headlines && v == ViewOf(h, seenAt)
      {
        if v !in views {
          assert last in headlines && v == ViewOf(last, seenAt);
        }
      }
    }
  }
}
