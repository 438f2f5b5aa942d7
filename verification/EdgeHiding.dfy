/** When private updates hide something public, and when they cannot: four runs that fail, a
    condition on the acts alone that is enough, and the exact condition seen through the
    public snapshot itself. */
module EdgeHiding {
  import opened Prelude
  import opened Proto
  import opened Runs
  import opened Snapshot
  import opened EdgeReads
  import opened EdgeErasure

  /** A reel filter that passes all. */
  function Everything(): Headline -> bool {
    (_: Headline) => true
  }

  // ---- runs that fail ----

  lemma OneFeed(now: int, f: FeedView)
    ensures StoreAfter([Upserts(now, f)]) == Store([f], [])
  {
    RunOfTwo(Acting(), EMPTY, Upserts(now, f), Upserts(now, f));
  }

  lemma ErasedPair(a: Act, b: Act)
    requires PublicAct(a) && !PublicAct(b)
    ensures Erased([a, b]) == [a] && Erased([b, a]) == [a]
  {
    assert [a, b] == [a] + [b] && [b, a] == [b] + [a];
    FilterPush([a], b, (act: Act) => PublicAct(act));
    FilterPush([b], a, (act: Act) => PublicAct(act));
    FilterOne(a, (act: Act) => PublicAct(act));
    FilterOne(b, (act: Act) => PublicAct(act));
  }

  lemma SnapshotOfOneFeed(screen: Screen, f: FeedView, now: int, seenAt: int, reel: Headline -> bool)
    requires FeedIsFresh(f, now)
    ensures PublicSnapshot(screen, Store([f], []), now, seenAt, reel).feeds == if FeedVisible(f, None) then [f] else []
  {
    FilterOne(f, (feed: FeedView) => FeedIsFresh(feed, now) && PublicFeeds()(feed));
  }

  /** A private feed takes the place of the public feed of the same id. */
  lemma SameIdReplaced(screen: Screen, f: FeedView, g: FeedView, now: int, seenAt: int, reel: Headline -> bool)
    requires f.feedId == g.feedId && !IsLocal(f.feedId) && IsPublic(f.visibility) && !IsPublic(g.visibility)
    requires FeedIsFresh(f, now) && FeedIsFresh(g, now)
    ensures
      var acts := [Upserts(now, f), Upserts(now, g)];
      && PublicSnapshot(screen, StoreAfter(acts), now, seenAt, reel).feeds == []
      && PublicSnapshot(screen, StoreAfter(Erased(acts)), now, seenAt, reel).feeds == [f]
  {
    OneFeed(now, f);
    RunOfTwo(Acting(), EMPTY, Upserts(now, f), Upserts(now, g));
    ReplaceOneFeed(f, g, now);
    PublicFeedLost(screen, f, g, now, Upserts(now, g), seenAt, reel);
  }

  lemma ReplaceOneFeed(f: FeedView, g: FeedView, now: int)
    requires f.feedId == g.feedId && FeedIsFresh(f, now)
    ensures Acting()(Store([f], []), Upserts(now, g)) == Store([g], [])
  {
    FilterOne(f, FreshFeeds(now));
    assert UpsertView([f], g) == [g];
  }

  /** A public feed is there without the private update, and gone with it. */
  lemma PublicFeedLost(screen: Screen, f: FeedView, g: FeedView, now: int, b: Act, seenAt: int, reel: Headline -> bool)
    requires !IsLocal(f.feedId) && IsPublic(f.visibility) && !IsPublic(g.visibility) && !PublicAct(b)
    requires FeedIsFresh(f, now) && FeedIsFresh(g, now)
    requires StoreAfter([Upserts(now, f), b]) == Store([g], [])
    ensures
      var acts := [Upserts(now, f), b];
      && PublicSnapshot(screen, StoreAfter(acts), now, seenAt, reel).feeds == []
      && PublicSnapshot(screen, StoreAfter(Erased(acts)), now, seenAt, reel).feeds == [f]
  {
    OneFeed(now, f);
    ErasedPair(Upserts(now, f), b);
    SnapshotOfOneFeed(screen, f, now, seenAt, reel);
    SnapshotOfOneFeed(screen, g, now, seenAt, reel);
    PrivateIsInvisible(g);
  }

  lemma PrivateIsInvisible(g: FeedView)
    requires !IsPublic(g.visibility)
    ensures !FeedVisible(g, None)
  {
  }

  /** A private story makes the edge refuse the same public story. */
  lemma SameStoryRefused(screen: Screen, p: Headline, h: Headline, clock: Clock, seenAt: int)
    requires SameStory(p, h) && !IsPublic(p.visibility) && HeadlineVisible(screen, h, None)
    requires HeadlineIsFresh(p, clock.now) && HeadlineIsFresh(h, clock.now)
    ensures
      var acts := [Pushes(clock, p), Pushes(clock, h)];
      && PublicSnapshot(screen, StoreAfter(acts), clock.now, seenAt, Everything()).headlines == []
      && PublicSnapshot(screen, StoreAfter(Erased(acts)), clock.now, seenAt, Everything()).headlines == [h]
  {
    var acts := [Pushes(clock, p), Pushes(clock, h)];
    VisibleToNobodyIsPublic(h.visibility, h.access);
    ErasedPair(Pushes(clock, h), Pushes(clock, p));
    RunOfTwo(Acting(), EMPTY, Pushes(clock, p), Pushes(clock, h));
    RunOfTwo(Acting(), EMPTY, Pushes(clock, h), Pushes(clock, h));
    FirstStory(EMPTY, clock, p);
    FirstStory(EMPTY, clock, h);
    SecondStory(StoreAfter([Pushes(clock, p)]), clock, p, h);
    OneHeadlineRead(screen, StoreAfter(acts), p, clock.now);
    OneHeadlineRead(screen, StoreAfter(Erased(acts)), h, clock.now);
    assert !HeadlineVisible(screen, p, None);
  }

  lemma FirstStory(s: Store, clock: Clock, h: Headline)
    requires s.headlines == [] && HeadlineIsFresh(h, clock.now)
    ensures Acting()(s, Pushes(clock, h)).headlines == [h]
  {
    assert AddStory([], clock.now, h) == [h];
  }

  lemma SecondStory(s: Store, clock: Clock, p: Headline, h: Headline)
    requires s.headlines == [p] && SameStory(p, h) && HeadlineIsFresh(p, clock.now) && HeadlineIsFresh(h, clock.now)
    ensures Acting()(s, Pushes(clock, h)).headlines == [p]
  {
    FilterOne(p, FreshHeadlines(clock.now));
    assert SameStory([p][0], h);
    assert AddStory([p], clock.now, h) == [p];
  }

  lemma OneHeadlineRead(screen: Screen, s: Store, h: Headline, now: int)
    requires s.headlines == [h] && HeadlineIsFresh(h, now)
    ensures Discovery(screen, s, now, Everything()) == if HeadlineVisible(screen, h, None) then [h] else []
  {
    FilterOne(h, (h: Headline) => HeadlineIsFresh(h, now) && PublicHeadlines(screen)(h));
    FilterOne(h, Everything());
  }

  /** Private feeds fill the buffer and push the public one out. */
  lemma PublicFeedEvicted(screen: Screen, f: FeedView, others: seq<FeedView>, now: int, seenAt: int, reel: Headline -> bool)
    requires |others| == LIMIT && Snapshot.DistinctFeeds([f] + others)
    requires !IsLocal(f.feedId) && IsPublic(f.visibility) && FeedIsFresh(f, now)
    requires forall k :: 0 <= k < |others| ==> !IsPublic(others[k].visibility) && FeedIsFresh(others[k], now)
    ensures
      var acts := UpsertAll(now, [f] + others);
      && PublicSnapshot(screen, StoreAfter(acts), now, seenAt, reel).feeds == []
      && PublicSnapshot(screen, StoreAfter(Erased(acts)), now, seenAt, reel).feeds == [f]
  {
    var all := [f] + others;
    assert forall k :: 0 <= k < |all| ==> FeedIsFresh(all[k], now);
    FilledFeeds(now, all);
    assert LastN(all, LIMIT) == others;
    FilterNone(others, (feed: FeedView) => FeedIsFresh(feed, now) && PublicFeeds()(feed));
    OnlyFirstIsPublic(now, f, others);
    OneFeed(now, f);
    SnapshotOfOneFeed(screen, f, now, seenAt, reel);
  }

  function UpsertAll(now: int, feeds: seq<FeedView>): seq<Act> {
    if feeds == [] then [] else UpsertAll(now, feeds[..|feeds| - 1]) + [Upserts(now, feeds[|feeds| - 1])]
  }

  lemma {:induction false} FilledFeeds(now: int, feeds: seq<FeedView>)
    requires Snapshot.DistinctFeeds(feeds)
    requires forall k :: 0 <= k < |feeds| ==> FeedIsFresh(feeds[k], now)
    ensures StoreAfter(UpsertAll(now, feeds)) == Store(LastN(feeds, LIMIT), [])
  {
    if feeds != [] {
      var front, last := feeds[..|feeds| - 1], feeds[|feeds| - 1];
      FilledFeeds(now, front);
      RunLast(Acting(), EMPTY, UpsertAll(now, front), Upserts(now, last));
      FillOneMore(now, front, last);
      assert front + [last] == feeds;
    }
  }

  lemma FillOneMore(now: int, front: seq<FeedView>, last: FeedView)
    requires forall k :: 0 <= k < |front| ==> front[k].feedId != last.feedId
    requires forall k :: 0 <= k < |front| ==> FeedIsFresh(front[k], now)
    ensures UpsertInto(LastN(front, LIMIT), now, last) == LastN(front + [last], LIMIT)
  {
    var held := LastN(front, LIMIT);
    FilterAll(held, FreshFeeds(now));
    UpsertNew(held, last);
    LastNAbsorbs(front, [last], LIMIT);
  }

  lemma {:induction false} OnlyFirstIsPublic(now: int, f: FeedView, others: seq<FeedView>)
    requires IsPublic(f.visibility) && forall k :: 0 <= k < |others| ==> !IsPublic(others[k].visibility)
    ensures Erased(UpsertAll(now, [f] + others)) == [Upserts(now, f)]
  {
    if others == [] {
      assert [f] + others == [] + [f];
      UpsertOneMore(now, [], f);
    } else {
      var front, last := others[..|others| - 1], others[|others| - 1];
      OnlyFirstIsPublic(now, f, front);
      assert [f] + others == ([f] + front) + [last];
      UpsertOneMore(now, [f] + front, last);
    }
  }

  lemma UpsertOneMore(now: int, feeds: seq<FeedView>, last: FeedView)
    ensures Erased(UpsertAll(now, feeds + [last])) ==
      Erased(UpsertAll(now, feeds)) + if IsPublic(last.visibility) then [Upserts(now, last)] else []
  {
    assert (feeds + [last])[..|feeds|] == feeds;
    FilterPush(UpsertAll(now, feeds), Upserts(now, last), (act: Act) => PublicAct(act));
  }

  /** An update at a later clock reading prunes a public feed; a read after the clock stepped
      back misses it. */
  lemma ClockStepsBack(screen: Screen, f: FeedView, g: FeedView, now: int, later: int, seenAt: int, reel: Headline -> bool)
    requires !IsLocal(f.feedId) && IsPublic(f.visibility) && !IsPublic(g.visibility)
    requires FeedIsFresh(f, now) && FeedIsFresh(g, now) && !FeedIsFresh(f, later)
    ensures
      var acts := [Upserts(now, f), Upserts(later, g)];
      && PublicSnapshot(screen, StoreAfter(acts), now, seenAt, reel).feeds == []
      && PublicSnapshot(screen, StoreAfter(Erased(acts)), now, seenAt, reel).feeds == [f]
  {
    OneFeed(now, f);
    RunOfTwo(Acting(), EMPTY, Upserts(now, f), Upserts(later, g));
    FilterOne(f, FreshFeeds(later));
    assert Acting()(Store([f], []), Upserts(later, g)) == Store([g], []);
    PublicFeedLost(screen, f, g, now, Upserts(later, g), seenAt, reel);
  }

  // ---- a condition on the acts ----

  /** Some act brought the record. */
  predicate FeedOrigin(acts: seq<Act>, feed: FeedView) {
    exists k :: 0 <= k < |acts| && FeedIn(acts[k]) == feed
  }

  predicate StoryOrigin(acts: seq<Act>, h: Headline) {
    exists k :: 0 <= k < |acts| && acts[k].Pushes? && acts[k].h == h
  }

  ghost predicate HaveOrigins(acts: seq<Act>, s: Store) {
    && (forall feed :: feed in s.feeds ==> FeedOrigin(acts, feed))
    && (forall h :: h in s.headlines ==> StoryOrigin(acts, h))
  }

  lemma FeedOriginStays(past: seq<Act>, last: Act, feed: FeedView)
    requires FeedOrigin(past, feed) || FeedIn(last) == feed
    ensures FeedOrigin(past + [last], feed)
  {
    var acts := past + [last];
    if FeedOrigin(past, feed) {
      var k :| 0 <= k < |past| && FeedIn(past[k]) == feed;
      assert FeedIn(acts[k]) == feed;
    } else {
      assert FeedIn(acts[|past|]) == feed;
    }
  }

  lemma StoryOriginStays(past: seq<Act>, last: Act, h: Headline)
    requires StoryOrigin(past, h) || (last.Pushes? && last.h == h)
    ensures StoryOrigin(past + [last], h)
  {
    var acts := past + [last];
    if StoryOrigin(past, h) {
      var k :| 0 <= k < |past| && past[k].Pushes? && past[k].h == h;
      assert acts[k].Pushes? && acts[k].h == h;
    } else {
      assert acts[|past|].Pushes? && acts[|past|].h == h;
    }
  }

  lemma StepBringsOnly(s: Store, act: Act)
    requires WellFormed(s)
    ensures forall feed :: feed in Acting()(s, act).feeds ==> feed in s.feeds || feed == FeedIn(act)
    ensures forall h :: h in Acting()(s, act).headlines ==> h in s.headlines || (act.Pushes? && h == act.h)
  {
    UpsertBringsOnly(s.feeds, FeedTime(act), FeedIn(act));
    if act.Pushes? {
      AddBringsOnly(s.headlines, act.clock.now, act.h);
    }
  }

  lemma UpsertBringsOnly(feeds: seq<FeedView>, now: int, x: FeedView)
    requires Snapshot.DistinctFeeds(feeds)
    ensures forall feed :: feed in UpsertInto(feeds, now, x) ==> feed in feeds || feed == x
  {
    FilteredStaysDistinct(feeds, FreshFeeds(now));
    UpsertKeepsDistinct(Filter(feeds, FreshFeeds(now)), x);
  }

  lemma AddBringsOnly(headlines: seq<Headline>, now: int, h: Headline)
    ensures forall told :: told in AddStory(headlines, now, h) ==> told in headlines || told == h
  {
  }

  lemma {:induction false} RecordsHaveOrigins(acts: seq<Act>)
    ensures HaveOrigins(acts, StoreAfter(acts))
  {
    if acts != [] {
      var past, last := acts[..|acts| - 1], acts[|acts| - 1];
      var s := StoreAfter(past);
      RecordsHaveOrigins(past);
      StoreIsWellFormed(past);
      StepBringsOnly(s, last);
      assert past + [last] == acts;
      forall feed | feed in StoreAfter(acts).feeds
        ensures FeedOrigin(acts, feed)
      {
        FeedOriginStays(past, last, feed);
      }
      forall h | h in StoreAfter(acts).headlines
        ensures StoryOrigin(acts, h)
      {
        StoryOriginStays(past, last, h);
      }
    }
  }

  /** No feed id is used both publicly and privately. */
  predicate SeparateFeeds(acts: seq<Act>) {
    forall i, j :: 0 <= i < |acts| && 0 <= j < |acts| && FeedIn(acts[i]).feedId == FeedIn(acts[j]).feedId ==>
      PublicAct(acts[i]) == PublicAct(acts[j])
  }

  /** The update drops something to make room. */
  predicate Evicts(s: Store, act: Act) {
    && Lands(act)
    && (|| |UpsertView(Filter(s.feeds, FreshFeeds(FeedTime(act))), FeedIn(act))| > LIMIT
        || (act.Pushes? && !Told(Filter(s.headlines, FreshHeadlines(act.clock.now)), act.h)
            && |Filter(s.headlines, FreshHeadlines(act.clock.now))| >= LIMIT))
  }

  ghost predicate NeverEvicts(acts: seq<Act>) {
    acts != [] ==>
      var n := |acts| - 1;
      NeverEvicts(acts[..n]) && !Evicts(StoreAfter(acts[..n]), acts[n])
  }

  lemma SameFeedSameSide(acts: seq<Act>, n: nat, feed: FeedView)
    requires n < |acts| && SeparateFeeds(acts) && FeedOrigin(acts[..n], feed) && FeedIn(acts[n]).feedId == feed.feedId
    ensures PublicAct(acts[n]) == IsPublic(feed.visibility)
  {
    var k :| 0 <= k < |acts[..n]| && FeedIn(acts[..n][k]) == feed;
    assert FeedIn(acts[k]).feedId == FeedIn(acts[n]).feedId;
  }

  lemma SameStorySameSide(acts: seq<Act>, n: nat, h: Headline)
    requires n < |acts| && SeparateFeeds(acts) && StoryOrigin(acts[..n], h) && FeedIn(acts[n]).feedId == h.feedId
    ensures PublicAct(acts[n]) == IsPublic(h.visibility)
  {
    var k :| 0 <= k < |acts[..n]| && acts[..n][k].Pushes? && acts[..n][k].h == h;
    assert FeedIn(acts[k]).feedId == FeedIn(acts[n]).feedId;
  }

  lemma SeparateFeedKept(acts: seq<Act>, n: nat, s: Store)
    requires n < |acts| && SeparateFeeds(acts) && HaveOrigins(acts[..n], s)
    requires Lands(acts[n]) && !Evicts(s, acts[n])
    ensures FeedKept(Filter(s.feeds, FreshFeeds(FeedTime(acts[n]))), FeedIn(acts[n]))
  {
    var kept, x := Filter(s.feeds, FreshFeeds(FeedTime(acts[n]))), FeedIn(acts[n]);
    if HasFeed(kept, x.feedId) {
      forall i | 0 <= i < |kept| && kept[i].feedId == x.feedId
        ensures IsPublic(kept[i].visibility) == IsPublic(x.visibility)
      {
        assert kept[i] in s.feeds;
        SameFeedSameSide(acts, n, kept[i]);
      }
    } else {
      UpsertNew(kept, x);
    }
  }

  lemma SeparateStoryKept(acts: seq<Act>, n: nat, s: Store)
    requires n < |acts| && SeparateFeeds(acts) && HaveOrigins(acts[..n], s)
    requires acts[n].Pushes? && Lands(acts[n]) && !Evicts(s, acts[n])
    ensures StoryKept(Filter(s.headlines, FreshHeadlines(acts[n].clock.now)), acts[n].h)
  {
    var kept, h := Filter(s.headlines, FreshHeadlines(acts[n].clock.now)), acts[n].h;
    if Told(kept, h) {
      var k :| 0 <= k < |kept| && SameStory(kept[k], h);
      assert kept[k] in s.headlines;
      SameStorySameSide(acts, n, kept[k]);
      if IsPublic(h.visibility) {
        var shown := Filter(kept, PublicStory());
        assert kept[k] in shown;
        var j :| 0 <= j < |shown| && shown[j] == kept[k];
        assert SameStory(shown[j], h);
      }
    }
  }

  /** Enough for a caller to know: no feed id is used both publicly and privately, and no update
      has to make room. */
  lemma {:induction false} SeparateFeedsHideNothing(acts: seq<Act>)
    requires SeparateFeeds(acts) && NeverEvicts(acts)
    ensures NothingHidden(acts)
  {
    if acts != [] {
      var n := |acts| - 1;
      assert SeparateFeeds(acts[..n]);
      SeparateFeedsHideNothing(acts[..n]);
      RecordsHaveOrigins(acts[..n]);
      if Lands(acts[n]) {
        SeparateFeedKept(acts, n, StoreAfter(acts[..n]));
        if acts[n].Pushes? {
          SeparateStoryKept(acts, n, StoreAfter(acts[..n]));
        }
      }
    }
  }

  // ---- seen through the snapshot ----

  function Snap(screen: Screen, s: Store, now: int, seenAt: int): PublicView {
    PublicSnapshot(screen, s, now, seenAt, Everything())
  }

  /** The public snapshot of the two stores is one, whatever the reading for derived feeds. */
  ghost predicate ReadAlike(screen: Screen, s: Store, erased: Store, now: int) {
    forall seenAt :: Snap(screen, s, now, seenAt) == Snap(screen, erased, now, seenAt)
  }

  /** Nothing public is withheld for other reasons: no public record is local, and the screen
      accepts the copy of every public headline. */
  predicate AllShown(screen: Screen, s: Store) {
    && (forall k :: 0 <= k < |s.feeds| && IsPublic(s.feeds[k].visibility) ==> !IsLocal(s.feeds[k].feedId))
    && (forall k :: 0 <= k < |s.headlines| && IsPublic(s.headlines[k].visibility) ==> StoryShown(screen, s.headlines[k]))
  }

  predicate StoryShown(screen: Screen, h: Headline) {
    !IsLocal(h.feedId) && !screen.hasIssue(h.headline + " " + h.deck)
  }

  function ShownFeeds(s: Store, now: int): seq<FeedView> {
    Filter(s.feeds, (feed: FeedView) => FeedIsFresh(feed, now) && PublicFeeds()(feed))
  }

  lemma PublicFeedIsShown(feed: FeedView)
    requires IsPublic(feed.visibility) ==> !IsLocal(feed.feedId)
    ensures FeedVisible(feed, None) <==> IsPublic(feed.visibility)
  {
  }

  lemma PublicStoryIsShown(screen: Screen, h: Headline)
    requires IsPublic(h.visibility) ==> StoryShown(screen, h)
    ensures HeadlineVisible(screen, h, None) <==> IsPublic(h.visibility)
  {
  }

  lemma ShownFeedsAreFreshPublic(screen: Screen, s: Store, now: int)
    requires AllShown(screen, s)
    ensures ShownFeeds(s, now) == Filter(Filter(s.feeds, FreshFeeds(now)), PublicFeed())
  {
    var both := (feed: FeedView) => FeedIsFresh(feed, now) && IsPublic(feed.visibility);
    var shown := (feed: FeedView) => FeedIsFresh(feed, now) && PublicFeeds()(feed);
    forall k | 0 <= k < |s.feeds|
      ensures both(s.feeds[k]) <==> shown(s.feeds[k])
    {
      var feed := s.feeds[k];
      PublicFeedIsShown(feed);
      assert PublicFeeds()(feed) == FeedVisible(feed, None);
    }
    FilterSame(s.feeds, shown, both);
    FilterTwice(s.feeds, FreshFeeds(now), PublicFeed(), both);
  }

  lemma ShownStoriesAreFreshPublic(screen: Screen, s: Store, now: int)
    requires AllShown(screen, s)
    ensures ReadHeadlines(s, now, PublicHeadlines(screen)) == Filter(Filter(s.headlines, FreshHeadlines(now)), PublicStory())
  {
    var both := (h: Headline) => HeadlineIsFresh(h, now) && IsPublic(h.visibility);
    var shown := (h: Headline) => HeadlineIsFresh(h, now) && PublicHeadlines(screen)(h);
    forall k | 0 <= k < |s.headlines|
      ensures both(s.headlines[k]) <==> shown(s.headlines[k])
    {
      var h := s.headlines[k];
      PublicStoryIsShown(screen, h);
      assert PublicHeadlines(screen)(h) == HeadlineVisible(screen, h, None);
    }
    FilterSame(s.headlines, shown, both);
    FilterTwice(s.headlines, FreshHeadlines(now), PublicStory(), both);
  }

  function Above(feeds: seq<FeedView>): (time: int)
    ensures forall k :: 0 <= k < |feeds| ==> feeds[k].lastSeenAt < time
  {
    if feeds == [] then 0
    else
      var rest := Above(feeds[..|feeds| - 1]);
      if feeds[|feeds| - 1].lastSeenAt < rest then rest else feeds[|feeds| - 1].lastSeenAt + 1
  }

  function NotSeenAt(time: int): FeedView -> bool {
    (feed: FeedView) => feed.lastSeenAt != time
  }

  /** The stored feeds are what a read lists apart from the views it derives. */
  lemma {:induction false} DerivedDropped(feeds: seq<FeedView>, views: seq<FeedView>, time: int)
    requires forall k :: 0 <= k < |feeds| ==> feeds[k].lastSeenAt != time
    requires forall k :: 0 <= k < |views| ==> views[k].lastSeenAt == time
    ensures Filter(Merge(feeds, views), NotSeenAt(time)) == feeds
  {
    if views == [] {
      FilterAll(feeds, NotSeenAt(time));
    } else {
      var front, last := views[..|views| - 1], views[|views| - 1];
      DerivedDropped(feeds, front, time);
      FilterPush(Merge(feeds, front), last, NotSeenAt(time));
    }
  }

  lemma ViewsAreSeenAt(headlines: seq<Headline>, time: int)
    ensures forall k :: 0 <= k < |ViewsOf(headlines, time)| ==> ViewsOf(headlines, time)[k].lastSeenAt == time
  {
    var views := ViewsOf(headlines, time);
    ViewsProperties(headlines, time);
    forall k | 0 <= k < |views|
      ensures views[k].lastSeenAt == time
    {
      assert views[k] in views;
    }
  }

  lemma StoredFeedsOfSnapshot(screen: Screen, s: Store, now: int, time: int)
    requires Above(ShownFeeds(s, now)) <= time
    ensures Filter(Snap(screen, s, now, time).feeds, NotSeenAt(time)) == ShownFeeds(s, now)
  {
    var headlines := ReadHeadlines(s, now, PublicHeadlines(screen));
    ViewsAreSeenAt(headlines, time);
    DerivedDropped(ShownFeeds(s, now), ViewsOf(headlines, time), time);
  }

  lemma HeadlinesOfSnapshot(screen: Screen, s: Store, now: int, seenAt: int)
    requires WellFormed(s)
    ensures Snap(screen, s, now, seenAt).headlines == ReadHeadlines(s, now, PublicHeadlines(screen))
  {
    DiscoveryIsNeverCut(screen, s, now, Everything());
    FilterAll(ReadHeadlines(s, now, PublicHeadlines(screen)), Everything());
  }

  predicate OnlyPublic(s: Store) {
    && (forall k :: 0 <= k < |s.feeds| ==> IsPublic(s.feeds[k].visibility))
    && (forall k :: 0 <= k < |s.headlines| ==> IsPublic(s.headlines[k].visibility))
  }

  lemma FreshPublicOfPublic(s: Store, now: int)
    requires OnlyPublic(s)
    ensures Filter(Filter(s.feeds, FreshFeeds(now)), PublicFeed()) == Filter(s.feeds, FreshFeeds(now))
    ensures Filter(Filter(s.headlines, FreshHeadlines(now)), PublicStory()) == Filter(s.headlines, FreshHeadlines(now))
  {
    FilterSwap(s.feeds, FreshFeeds(now), PublicFeed());
    FilterSwap(s.headlines, FreshHeadlines(now), PublicStory());
    FilterAll(s.feeds, PublicFeed());
    FilterAll(s.headlines, PublicStory());
  }

  lemma SnapshotTellsFeeds(screen: Screen, s: Store, erased: Store, now: int)
    requires AllShown(screen, s) && AllShown(screen, erased) && OnlyPublic(erased)
    requires ReadAlike(screen, s, erased, now)
    ensures FeedsMatch(s.feeds, erased.feeds, now)
  {
    var left, right := Above(ShownFeeds(s, now)), Above(ShownFeeds(erased, now));
    var time := if left < right then right else left;
    assert Snap(screen, s, now, time) == Snap(screen, erased, now, time);
    StoredFeedsOfSnapshot(screen, s, now, time);
    StoredFeedsOfSnapshot(screen, erased, now, time);
    ShownFeedsAreFreshPublic(screen, s, now);
    ShownFeedsAreFreshPublic(screen, erased, now);
    FreshPublicOfPublic(erased, now);
  }

  lemma SnapshotTellsStories(screen: Screen, s: Store, erased: Store, now: int)
    requires WellFormed(s) && WellFormed(erased)
    requires AllShown(screen, s) && AllShown(screen, erased) && OnlyPublic(erased)
    requires ReadAlike(screen, s, erased, now)
    ensures StoriesMatch(s.headlines, erased.headlines, now)
  {
    assert Snap(screen, s, now, 0) == Snap(screen, erased, now, 0);
    HeadlinesOfSnapshot(screen, s, now, 0);
    HeadlinesOfSnapshot(screen, erased, now, 0);
    ShownStoriesAreFreshPublic(screen, s, now);
    ShownStoriesAreFreshPublic(screen, erased, now);
    FreshPublicOfPublic(erased, now);
  }

  /** The snapshot tells: stores with nothing withheld read alike exactly when their fresh
      public records match. */
  lemma ReadAlikeIffMatches(screen: Screen, s: Store, erased: Store, now: int)
    requires WellFormed(s) && WellFormed(erased) && AllShown(screen, s) && AllShown(screen, erased) && OnlyPublic(erased)
    ensures ReadAlike(screen, s, erased, now) <==> Matches(s, erased, now, now)
  {
    if ReadAlike(screen, s, erased, now) {
      SnapshotTellsFeeds(screen, s, erased, now);
      SnapshotTellsStories(screen, s, erased, now);
    }
    if Matches(s, erased, now, now) {
      forall seenAt
        ensures Snap(screen, s, now, seenAt) == Snap(screen, erased, now, seenAt)
      {
        MatchingStoresReadAlike(screen, s, erased, now, seenAt, Everything());
      }
    }
  }

  // ---- runs seen through the snapshot ----

  /** No public act of the run is local, and the screen accepts what its public headlines say. */
  predicate RunShown(screen: Screen, acts: seq<Act>) {
    forall k :: 0 <= k < |acts| && PublicAct(acts[k]) ==>
      && !IsLocal(FeedIn(acts[k]).feedId)
      && (acts[k].Pushes? ==> StoryShown(screen, acts[k].h))
  }

  lemma RunShownStoreShown(screen: Screen, acts: seq<Act>, s: Store)
    requires RunShown(screen, acts) && HaveOrigins(acts, s)
    ensures AllShown(screen, s)
  {
    forall k | 0 <= k < |s.feeds| && IsPublic(s.feeds[k].visibility)
      ensures !IsLocal(s.feeds[k].feedId)
    {
      assert FeedOrigin(acts, s.feeds[k]);
      var j :| 0 <= j < |acts| && FeedIn(acts[j]) == s.feeds[k];
      assert PublicAct(acts[j]);
    }
    forall k | 0 <= k < |s.headlines| && IsPublic(s.headlines[k].visibility)
      ensures StoryShown(screen, s.headlines[k])
    {
      assert StoryOrigin(acts, s.headlines[k]);
      var j :| 0 <= j < |acts| && acts[j].Pushes? && acts[j].h == s.headlines[k];
      assert PublicAct(acts[j]);
    }
  }

  lemma ErasedActs(acts: seq<Act>)
    ensures forall k :: 0 <= k < |Erased(acts)| ==> PublicAct(Erased(acts)[k]) && Erased(acts)[k] in acts
  {
    var erased := Erased(acts);
    forall k | 0 <= k < |erased|
      ensures PublicAct(erased[k]) && erased[k] in acts
    {
      assert erased[k] in erased;
    }
  }

  lemma ErasedIsShown(screen: Screen, acts: seq<Act>)
    requires RunShown(screen, acts)
    ensures RunShown(screen, Erased(acts))
  {
    ErasedActs(acts);
  }

  lemma ErasedIsPublic(acts: seq<Act>)
    ensures OnlyPublic(StoreAfter(Erased(acts)))
  {
    var s, erased := StoreAfter(Erased(acts)), Erased(acts);
    RecordsHaveOrigins(erased);
    ErasedActs(acts);
    forall k | 0 <= k < |s.feeds|
      ensures IsPublic(s.feeds[k].visibility)
    {
      assert FeedOrigin(erased, s.feeds[k]);
    }
    forall k | 0 <= k < |s.headlines|
      ensures IsPublic(s.headlines[k].visibility)
    {
      assert StoryOrigin(erased, s.headlines[k]);
    }
  }

  /** What the two runs leave is fit for comparison by snapshot. */
  lemma BothShown(screen: Screen, acts: seq<Act>)
    requires RunShown(screen, acts)
    ensures WellFormed(StoreAfter(acts)) && AllShown(screen, StoreAfter(acts))
    ensures WellFormed(StoreAfter(Erased(acts))) && AllShown(screen, StoreAfter(Erased(acts))) && OnlyPublic(StoreAfter(Erased(acts)))
  {
    StoreIsWellFormed(acts);
    StoreIsWellFormed(Erased(acts));
    RecordsHaveOrigins(acts);
    RecordsHaveOrigins(Erased(acts));
    ErasedIsShown(screen, acts);
    RunShownStoreShown(screen, acts, StoreAfter(acts));
    RunShownStoreShown(screen, Erased(acts), StoreAfter(Erased(acts)));
    ErasedIsPublic(acts);
  }

  /** One public snapshot, at every reading of the clock, past or future. */
  ghost predicate AlikeAtAllReadings(screen: Screen, s: Store, erased: Store) {
    forall now, seenAt :: Snap(screen, s, now, seenAt) == Snap(screen, erased, now, seenAt)
  }

  function FeedsBefore(feeds: seq<FeedView>): (time: int)
    ensures forall k :: 0 <= k < |feeds| ==> time <= feeds[k].lastSeenAt
  {
    if feeds == [] then 0
    else
      var rest := FeedsBefore(feeds[..|feeds| - 1]);
      if rest < feeds[|feeds| - 1].lastSeenAt then rest else feeds[|feeds| - 1].lastSeenAt
  }

  function StoriesBefore(headlines: seq<Headline>): (time: int)
    ensures forall k :: 0 <= k < |headlines| && headlines[k].createdAt.Some? ==> time <= headlines[k].createdAt.value
  {
    if headlines == [] then 0
    else
      var rest, last := StoriesBefore(headlines[..|headlines| - 1]), headlines[|headlines| - 1].createdAt;
      if last.None? || rest < last.value then rest else last.value
  }

  /** A reading before every timestamp of the store. */
  function BeforeAll(s: Store): int {
    Least(FeedsBefore(s.feeds), StoriesBefore(s.headlines))
  }

  function Least(a: int, b: int): int {
    if a < b then a else b
  }

  /** At such a reading every record is fresh. */
  lemma AllFreshBefore(s: Store, now: int)
    requires now <= BeforeAll(s)
    ensures Filter(s.feeds, FreshFeeds(now)) == s.feeds
    ensures Filter(s.headlines, FreshHeadlines(now)) == s.headlines
  {
    FilterAll(s.feeds, FreshFeeds(now));
    FilterAll(s.headlines, FreshHeadlines(now));
  }

  lemma AlikeIffErased(screen: Screen, s: Store, erased: Store)
    requires WellFormed(s) && WellFormed(erased) && AllShown(screen, s) && AllShown(screen, erased) && OnlyPublic(erased)
    ensures AlikeAtAllReadings(screen, s, erased) <==> Erase(s) == erased
  {
    if AlikeAtAllReadings(screen, s, erased) {
      var now := Least(BeforeAll(s), BeforeAll(erased));
      assert ReadAlike(screen, s, erased, now);
      ReadAlikeIffMatches(screen, s, erased, now);
      AllFreshBefore(s, now);
      AllFreshBefore(erased, now);
    }
    if Erase(s) == erased {
      forall now, seenAt
        ensures Snap(screen, s, now, seenAt) == Snap(screen, erased, now, seenAt)
      {
        PublicSnapshotIgnoresPrivate(screen, s, now, seenAt, Everything());
      }
    }
  }

  ghost predicate AlwaysAlike(screen: Screen, acts: seq<Act>) {
    acts != [] ==> AlwaysAlike(screen, acts[..|acts| - 1]) && AlikeAtAllReadings(screen, StoreAfter(acts), StoreAfter(Erased(acts)))
  }

  lemma {:induction false} AlwaysAlikeIffErases(screen: Screen, acts: seq<Act>)
    requires RunShown(screen, acts)
    ensures AlwaysAlike(screen, acts) <==> AlwaysErases(acts)
  {
    if acts != [] {
      AlwaysAlikeIffErases(screen, acts[..|acts| - 1]);
      BothShown(screen, acts);
      AlikeIffErased(screen, StoreAfter(acts), StoreAfter(Erased(acts)));
    }
  }

  /** Exactly, for every run whose public records are all shown, whatever the clock does: after
      every update the public snapshot, at every reading, is that of the run without private
      updates, if and only if no update, in the store it meets, loses anything public. */
  lemma PrivateUpdatesInvisibleExactly(screen: Screen, acts: seq<Act>)
    requires RunShown(screen, acts)
    ensures AlwaysAlike(screen, acts) <==> NothingLost(acts)
  {
    AlwaysAlikeIffErases(screen, acts);
    ErasureExactlyAnyClock(acts);
  }

  // ---- read at the moment of each update ----

  /** After every update of the run the public snapshot, read at that moment, is that of the
      run without private updates. */
  ghost predicate AlwaysReadAlike(screen: Screen, acts: seq<Act>) {
    acts != [] ==>
      var n := |acts| - 1;
      AlwaysReadAlike(screen, acts[..n]) && ReadAlike(screen, StoreAfter(acts), StoreAfter(Erased(acts)), FeedTime(acts[n]))
  }

  /** Each update meets one clock reading. */
  predicate OneReading(acts: seq<Act>) {
    forall k :: 0 <= k < |acts| ==> FeedTime(acts[k]) == StoryTime(acts[k])
  }

  lemma {:induction false} AlwaysReadAlikeIffMatches(screen: Screen, acts: seq<Act>)
    requires OneReading(acts) && RunShown(screen, acts)
    ensures AlwaysReadAlike(screen, acts) <==> AlwaysMatches(acts)
  {
    if acts != [] {
      AlwaysReadAlikeIffMatches(screen, acts[..|acts| - 1]);
      BothShown(screen, acts);
      ReadAlikeIffMatches(screen, StoreAfter(acts), StoreAfter(Erased(acts)), FeedTime(acts[|acts| - 1]));
    }
  }

  /** With a clock that does not step back, and readers that look at the moment of each update,
      hiding is all that can be noticed: what a private update prunes is stale for them too. */
  lemma PrivateUpdatesUnnoticedInOrder(screen: Screen, acts: seq<Act>)
    requires InOrder(acts) && Timely(acts) && OneReading(acts) && RunShown(screen, acts)
    ensures AlwaysReadAlike(screen, acts) <==> NothingHidden(acts)
  {
    AlwaysReadAlikeIffMatches(screen, acts);
    ErasureExactly(acts);
  }
}
