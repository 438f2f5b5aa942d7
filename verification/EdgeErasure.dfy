/** What private publishing does to the public snapshot over whole runs. Erasing the private
    updates from a run leaves the public snapshot alone exactly when no update hides anything
    public, a condition on the store an update meets; four runs show what hiding looks like. */
module EdgeErasure {
  import opened Prelude
  import opened Proto
  import opened Runs
  import opened Snapshot
  import opened EdgeReads

  predicate PublicAct(act: Act) {
    IsPublic(if act.Upserts? then act.feed.visibility else act.h.visibility)
  }

  /** The run without its private updates. */
  function Erased(acts: seq<Act>): seq<Act> {
    Filter(acts, (act: Act) => PublicAct(act))
  }

  // ---- a bounded buffer that appends ----

  /** Appending hides nothing: there is room, or what is dropped is private, or all is public. */
  predicate RoomFor<T>(kept: seq<T>, x: T, isPublic: T -> bool, n: nat)
    requires n > 0
  {
    || |kept| < n
    || !isPublic(kept[0])
    || (isPublic(x) && forall k :: 0 <= k < |kept| ==> isPublic(kept[k]))
  }

  /** What the public part would become without private items. */
  function PublicAppend<T(!new)>(kept: seq<T>, x: T, isPublic: T -> bool, n: nat): seq<T> {
    if isPublic(x) then LastN(Filter(kept, isPublic) + [x], n) else Filter(kept, isPublic)
  }

  lemma AppendWithRoom<T(!new)>(kept: seq<T>, x: T, isPublic: T -> bool, n: nat)
    requires |kept| < n
    ensures Filter(LastN(kept + [x], n), isPublic) == PublicAppend(kept, x, isPublic, n)
  {
    FilterPush(kept, x, isPublic);
    EmptyAfter(Filter(kept, isPublic));
  }

  lemma DropOldest<T>(kept: seq<T>, x: T)
    requires kept != []
    ensures LastN(kept + [x], |kept|) == kept[1..] + [x]
  {
  }

  /** A full buffer drops its first item: what that does to the public part. */
  lemma FullComparison<T>(first: T, rest: seq<T>, x: T, publicFirst: bool, publicX: bool, n: nat)
    requires |rest| < n
    ensures
      var shown := (if publicFirst then [first] else []) + rest;
      rest + (if publicX then [x] else []) == (if publicX then LastN(shown + [x], n) else shown) <==>
      !publicFirst || (publicX && |rest| == n - 1)
  {
    var shown := (if publicFirst then [first] else []) + rest;
    assert |shown| == |rest| + if publicFirst then 1 else 0;
    if publicFirst {
      assert (shown + [x])[1..] == rest + [x];
    } else {
      assert shown == rest;
    }
  }

  lemma AppendHidesNothingIffRoom<T(!new)>(kept: seq<T>, x: T, isPublic: T -> bool, n: nat)
    requires 0 < n && |kept| <= n
    ensures Filter(LastN(kept + [x], n), isPublic) == PublicAppend(kept, x, isPublic, n) <==> RoomFor(kept, x, isPublic, n)
  {
    if |kept| < n {
      AppendWithRoom(kept, x, isPublic, n);
    } else {
      DropOldest(kept, x);
      FilterPush(kept[1..], x, isPublic);
      FilterFirst(kept, isPublic);
      FilterAll(kept, isPublic);
      FullComparison(kept[0], Filter(kept[1..], isPublic), x, isPublic(kept[0]), isPublic(x), n);
    }
  }

  // ---- one feed ----

  /** The upsert hides nothing public: a private feed takes no public place, and a public one
      takes the place of a private one only when no public feed comes after it. */
  predicate FeedKept(kept: seq<FeedView>, x: FeedView) {
    if HasFeed(kept, x.feedId) then
      forall i | 0 <= i < |kept| && kept[i].feedId == x.feedId ::
        if IsPublic(x.visibility) then IsPublic(kept[i].visibility) || forall j | i < j < |kept| :: !IsPublic(kept[j].visibility)
        else !IsPublic(kept[i].visibility)
    else RoomFor(kept, x, PublicFeed(), LIMIT)
  }

  function PublicUpsert(kept: seq<FeedView>, x: FeedView): seq<FeedView> {
    var shown := Filter(kept, PublicFeed());
    if IsPublic(x.visibility) then LastN(UpsertView(shown, x), LIMIT) else shown
  }

  lemma {:induction false} UpsertNew(feeds: seq<FeedView>, x: FeedView)
    requires forall k :: 0 <= k < |feeds| ==> feeds[k].feedId != x.feedId
    ensures UpsertView(feeds, x) == feeds + [x]
  {
    if feeds != [] {
      UpsertNew(feeds[1..], x);
      assert feeds == [feeds[0]] + feeds[1..];
    }
  }

  lemma {:induction false} UpsertAt(before: seq<FeedView>, place: FeedView, after: seq<FeedView>, x: FeedView)
    requires forall k :: 0 <= k < |before| ==> before[k].feedId != x.feedId
    requires place.feedId == x.feedId
    ensures UpsertView(before + [place] + after, x) == before + [x] + after
  {
    var feeds := before + [place] + after;
    if before == [] {
      assert feeds[1..] == after;
    } else {
      UpsertAt(before[1..], place, after, x);
      assert feeds[1..] == before[1..] + [place] + after;
      assert before + [x] + after == [before[0]] + (before[1..] + [x] + after);
    }
  }

  lemma FilterAround(before: seq<FeedView>, x: FeedView, after: seq<FeedView>)
    ensures Filter(before + [x] + after, PublicFeed()) ==
      Filter(before, PublicFeed()) + (if IsPublic(x.visibility) then [x] else []) + Filter(after, PublicFeed())
  {
    FilterAppend(before + [x], after, PublicFeed());
    FilterPush(before, x, PublicFeed());
  }

  predicate NoneNamed(feeds: seq<FeedView>, feedId: FeedId) {
    forall k :: 0 <= k < |feeds| ==> feeds[k].feedId != feedId
  }

  lemma NoneShownNamed(feeds: seq<FeedView>, feedId: FeedId)
    requires NoneNamed(feeds, feedId)
    ensures NoneNamed(Filter(feeds, PublicFeed()), feedId)
  {
    var shown := Filter(feeds, PublicFeed());
    assert forall k :: 0 <= k < |shown| ==> shown[k] in feeds;
  }

  /** Replacing the feed between two runs of feeds with other ids: the public parts compared. */
  lemma ReplaceComparison(front: seq<FeedView>, place: FeedView, back: seq<FeedView>, x: FeedView)
    requires place.feedId == x.feedId
    requires NoneNamed(front, x.feedId) && NoneNamed(back, x.feedId)
    requires |front| + 1 + |back| <= LIMIT
    ensures
      var shown := front + (if IsPublic(place.visibility) then [place] else []) + back;
      front + (if IsPublic(x.visibility) then [x] else []) + back ==
      (if IsPublic(x.visibility) then LastN(UpsertView(shown, x), LIMIT) else shown) <==>
      (if IsPublic(x.visibility) then IsPublic(place.visibility) || back == [] else !IsPublic(place.visibility))
  {
    EmptyBetween(front, back);
    if IsPublic(x.visibility) {
      if IsPublic(place.visibility) {
        UpsertAt(front, place, back, x);
      } else {
        UpsertNew(front + back, x);
        MovedToEnd(front, x, back);
      }
    } else if IsPublic(place.visibility) {
      assert |front + [place] + back| == |front + back| + 1;
    }
  }

  lemma EmptyBetween<T>(front: seq<T>, back: seq<T>)
    ensures front + [] + back == front + back
  {
  }

  lemma MovedToEnd(front: seq<FeedView>, x: FeedView, back: seq<FeedView>)
    requires NoneNamed(back, x.feedId)
    ensures front + [x] + back == front + back + [x] <==> back == []
  {
    if back != [] {
      assert (front + [x] + back)[|front|] == x;
      assert (front + back + [x])[|front|] == back[0];
    }
  }

  lemma ReplaceHidesNothing(before: seq<FeedView>, place: FeedView, after: seq<FeedView>, x: FeedView)
    requires place.feedId == x.feedId
    requires NoneNamed(before, x.feedId) && NoneNamed(after, x.feedId)
    requires |before| + 1 + |after| <= LIMIT
    ensures
      Filter(LastN(UpsertView(before + [place] + after, x), LIMIT), PublicFeed()) == PublicUpsert(before + [place] + after, x) <==>
      (if IsPublic(x.visibility) then IsPublic(place.visibility) || Filter(after, PublicFeed()) == []
       else !IsPublic(place.visibility))
  {
    UpsertAt(before, place, after, x);
    FilterAround(before, x, after);
    FilterAround(before, place, after);
    NoneShownNamed(before, x.feedId);
    NoneShownNamed(after, x.feedId);
    ReplaceComparison(Filter(before, PublicFeed()), place, Filter(after, PublicFeed()), x);
  }

  lemma AtPlace(kept: seq<FeedView>, i: nat)
    requires i < |kept| && Snapshot.DistinctFeeds(kept)
    ensures kept == kept[..i] + [kept[i]] + kept[i + 1..]
    ensures NoneNamed(kept[..i], kept[i].feedId) && NoneNamed(kept[i + 1..], kept[i].feedId)
  {
  }

  lemma KeptAt(kept: seq<FeedView>, x: FeedView, i: nat)
    requires i < |kept| && kept[i].feedId == x.feedId && Snapshot.DistinctFeeds(kept)
    ensures FeedKept(kept, x) <==>
      (if IsPublic(x.visibility) then IsPublic(kept[i].visibility) || Filter(kept[i + 1..], PublicFeed()) == []
       else !IsPublic(kept[i].visibility))
  {
    AfterIsPrivate(kept, i);
    assert forall j :: 0 <= j < |kept| && kept[j].feedId == x.feedId ==> j == i;
  }

  lemma ReplacedAt(kept: seq<FeedView>, x: FeedView, i: nat)
    requires |kept| <= LIMIT && i < |kept| && kept[i].feedId == x.feedId && Snapshot.DistinctFeeds(kept)
    ensures Filter(LastN(UpsertView(kept, x), LIMIT), PublicFeed()) == PublicUpsert(kept, x) <==>
      (if IsPublic(x.visibility) then IsPublic(kept[i].visibility) || Filter(kept[i + 1..], PublicFeed()) == []
       else !IsPublic(kept[i].visibility))
  {
    AtPlace(kept, i);
    ReplaceHidesNothing(kept[..i], kept[i], kept[i + 1..], x);
  }

  lemma UpsertHidesNothingIffKept(kept: seq<FeedView>, x: FeedView)
    requires |kept| <= LIMIT && Snapshot.DistinctFeeds(kept)
    ensures Filter(LastN(UpsertView(kept, x), LIMIT), PublicFeed()) == PublicUpsert(kept, x) <==> FeedKept(kept, x)
  {
    if HasFeed(kept, x.feedId) {
      var i :| 0 <= i < |kept| && kept[i].feedId == x.feedId;
      KeptAt(kept, x, i);
      ReplacedAt(kept, x, i);
    } else {
      NewFeedHidesNothing(kept, x);
    }
  }

  lemma NewFeedHidesNothing(kept: seq<FeedView>, x: FeedView)
    requires |kept| <= LIMIT && NoneNamed(kept, x.feedId)
    ensures Filter(LastN(UpsertView(kept, x), LIMIT), PublicFeed()) == PublicUpsert(kept, x) <==> RoomFor(kept, x, PublicFeed(), LIMIT)
  {
    NoneShownNamed(kept, x.feedId);
    UpsertNew(kept, x);
    UpsertNew(Filter(kept, PublicFeed()), x);
    AppendHidesNothingIffRoom(kept, x, PublicFeed(), LIMIT);
  }

  lemma AfterIsPrivate(kept: seq<FeedView>, i: nat)
    requires i < |kept|
    ensures Filter(kept[i + 1..], PublicFeed()) == [] <==> forall j | i < j < |kept| :: !IsPublic(kept[j].visibility)
  {
    var after := kept[i + 1..];
    FilterNone(after, PublicFeed());
    assert forall k :: 0 <= k < |after| ==> after[k] == kept[i + 1 + k];
    assert forall j | i < j < |kept| :: kept[j] == after[j - i - 1];
  }

  // ---- one story ----

  predicate Told(kept: seq<Headline>, h: Headline) {
    exists k :: 0 <= k < |kept| && SameStory(kept[k], h)
  }

  function AddTo(kept: seq<Headline>, h: Headline): seq<Headline> {
    if Told(kept, h) then kept else LastN(kept + [h], LIMIT)
  }

  /** The headline hides nothing public: a public one is not refused for a private one, and an
      accepted one has room. */
  predicate StoryKept(kept: seq<Headline>, h: Headline) {
    if Told(kept, h) then IsPublic(h.visibility) ==> Told(Filter(kept, PublicStory()), h)
    else RoomFor(kept, h, PublicStory(), LIMIT)
  }

  function PublicAdd(kept: seq<Headline>, h: Headline): seq<Headline> {
    var shown := Filter(kept, PublicStory());
    if IsPublic(h.visibility) then AddTo(shown, h) else shown
  }

  lemma AddHidesNothingIffKept(kept: seq<Headline>, h: Headline)
    requires |kept| <= LIMIT
    ensures Filter(AddTo(kept, h), PublicStory()) == PublicAdd(kept, h) <==> StoryKept(kept, h)
  {
    var shown := Filter(kept, PublicStory());
    if Told(shown, h) {
      var k :| 0 <= k < |shown| && SameStory(shown[k], h);
      assert shown[k] in kept;
    } else if Told(kept, h) {
      FilterAll(kept, PublicStory());
      assert IsPublic(h.visibility) ==> |shown| < |kept|;
    } else {
      AppendHidesNothingIffRoom(kept, h, PublicStory(), LIMIT);
    }
  }

  // ---- one update of the store ----

  function FeedTime(act: Act): int {
    if act.Upserts? then act.now else act.clock.upsertNow
  }

  function StoryTime(act: Act): int {
    if act.Upserts? then act.now else act.clock.now
  }

  function FeedIn(act: Act): FeedView {
    if act.Upserts? then act.feed else ViewOf(act.h, act.clock.seenAt)
  }

  /** A stale headline is turned away before anything is touched. */
  predicate Lands(act: Act) {
    act.Pushes? ==> HeadlineIsFresh(act.h, act.clock.now)
  }

  /** The update, in the store it meets, hides nothing public. */
  predicate HidesNothing(s: Store, act: Act) {
    Lands(act) ==>
      && FeedKept(Filter(s.feeds, FreshFeeds(FeedTime(act))), FeedIn(act))
      && (act.Pushes? ==> StoryKept(Filter(s.headlines, FreshHeadlines(act.clock.now)), act.h))
  }

  /** At a moment, the fresh public feeds of the one are the fresh feeds of the other. */
  predicate FeedsMatch(feeds: seq<FeedView>, erased: seq<FeedView>, now: int) {
    Filter(Filter(feeds, FreshFeeds(now)), PublicFeed()) == Filter(erased, FreshFeeds(now))
  }

  predicate StoriesMatch(headlines: seq<Headline>, erased: seq<Headline>, now: int) {
    Filter(Filter(headlines, FreshHeadlines(now)), PublicStory()) == Filter(erased, FreshHeadlines(now))
  }

  lemma FeedsMatchLater(feeds: seq<FeedView>, erased: seq<FeedView>, now: int, later: int)
    requires FeedsMatch(feeds, erased, now) && now <= later
    ensures FeedsMatch(feeds, erased, later)
  {
    FilterNarrow(feeds, FreshFeeds(now), FreshFeeds(later));
    FilterNarrow(erased, FreshFeeds(now), FreshFeeds(later));
    FilterSwap(Filter(feeds, FreshFeeds(now)), FreshFeeds(later), PublicFeed());
  }

  lemma StoriesMatchLater(headlines: seq<Headline>, erased: seq<Headline>, now: int, later: int)
    requires StoriesMatch(headlines, erased, now) && now <= later
    ensures StoriesMatch(headlines, erased, later)
  {
    FilterNarrow(headlines, FreshHeadlines(now), FreshHeadlines(later));
    FilterNarrow(erased, FreshHeadlines(now), FreshHeadlines(later));
    FilterSwap(Filter(headlines, FreshHeadlines(now)), FreshHeadlines(later), PublicStory());
  }

  function UpsertInto(feeds: seq<FeedView>, now: int, x: FeedView): seq<FeedView> {
    LastN(UpsertView(Filter(feeds, FreshFeeds(now)), x), LIMIT)
  }

  lemma UpsertIntoFresh(feeds: seq<FeedView>, now: int, x: FeedView)
    requires Snapshot.DistinctFeeds(feeds) && FeedIsFresh(x, now)
    ensures Filter(UpsertInto(feeds, now, x), FreshFeeds(now)) == UpsertInto(feeds, now, x)
  {
    var kept := Filter(feeds, FreshFeeds(now));
    FilteredStaysDistinct(feeds, FreshFeeds(now));
    UpsertKeepsDistinct(kept, x);
    FilterAll(UpsertInto(feeds, now, x), FreshFeeds(now));
    forall k | 0 <= k < |UpsertInto(feeds, now, x)|
      ensures FreshFeeds(now)(UpsertInto(feeds, now, x)[k])
    {
      assert UpsertInto(feeds, now, x)[k] in UpsertView(kept, x);
    }
  }

  /** Both stores take a public feed, only the first a private one; they go on matching exactly
      when the upsert hides nothing (for a feed that is fresh, as the source's always are). */
  lemma UpsertStep(feeds: seq<FeedView>, erased: seq<FeedView>, now: int, x: FeedView)
    requires |feeds| <= LIMIT && Snapshot.DistinctFeeds(feeds) && Snapshot.DistinctFeeds(erased)
    requires FeedsMatch(feeds, erased, now)
    ensures
      var after := if IsPublic(x.visibility) then UpsertInto(erased, now, x) else erased;
      && (FeedKept(Filter(feeds, FreshFeeds(now)), x) ==> FeedsMatch(UpsertInto(feeds, now, x), after, now))
      && (FeedIsFresh(x, now) && FeedsMatch(UpsertInto(feeds, now, x), after, now) ==> FeedKept(Filter(feeds, FreshFeeds(now)), x))
  {
    var kept := Filter(feeds, FreshFeeds(now));
    var after := if IsPublic(x.visibility) then UpsertInto(erased, now, x) else erased;
    FilteredStaysDistinct(feeds, FreshFeeds(now));
    UpsertHidesNothingIffKept(kept, x);
    FilterNarrow(erased, FreshFeeds(now), FreshFeeds(now));
    if FeedKept(kept, x) {
      FilterSwap(UpsertInto(feeds, now, x), FreshFeeds(now), PublicFeed());
    }
    if FeedIsFresh(x, now) {
      UpsertIntoFresh(feeds, now, x);
      UpsertIntoFresh(erased, now, x);
    }
  }

  lemma AddedIsFresh(headlines: seq<Headline>, now: int, h: Headline)
    requires HeadlineIsFresh(h, now)
    ensures AddStory(headlines, now, h) == AddTo(Filter(headlines, FreshHeadlines(now)), h)
    ensures Filter(AddStory(headlines, now, h), FreshHeadlines(now)) == AddStory(headlines, now, h)
  {
    var kept, after := Filter(headlines, FreshHeadlines(now)), AddStory(headlines, now, h);
    assert Repeats(headlines, now, h) <==> Told(kept, h);
    forall k | 0 <= k < |after|
      ensures HeadlineIsFresh(after[k], now)
    {
      assert after[k] == h || after[k] in kept;
    }
    FilterAll(after, FreshHeadlines(now));
  }

  lemma AddStep(headlines: seq<Headline>, erased: seq<Headline>, now: int, h: Headline)
    requires |headlines| <= LIMIT && StoriesMatch(headlines, erased, now) && HeadlineIsFresh(h, now)
    ensures
      var after := if IsPublic(h.visibility) then AddStory(erased, now, h) else erased;
      StoriesMatch(AddStory(headlines, now, h), after, now) <==> StoryKept(Filter(headlines, FreshHeadlines(now)), h)
  {
    AddHidesNothingIffKept(Filter(headlines, FreshHeadlines(now)), h);
    AddedIsFresh(headlines, now, h);
    AddedIsFresh(erased, now, h);
  }

  predicate Matches(s: Store, erased: Store, feedsNow: int, storiesNow: int) {
    FeedsMatch(s.feeds, erased.feeds, feedsNow) && StoriesMatch(s.headlines, erased.headlines, storiesNow)
  }

  function ErasedStep(erased: Store, act: Act): Store {
    if PublicAct(act) then Acting()(erased, act) else erased
  }

  lemma StepMatches(s: Store, erased: Store, act: Act)
    requires WellFormed(s) && WellFormed(erased)
    requires Matches(s, erased, FeedTime(act), StoryTime(act))
    ensures
      var after, erasedAfter := Acting()(s, act), ErasedStep(erased, act);
      && (HidesNothing(s, act) ==> Matches(after, erasedAfter, FeedTime(act), StoryTime(act)))
      && (FeedIsFresh(FeedIn(act), FeedTime(act)) && Matches(after, erasedAfter, FeedTime(act), StoryTime(act)) ==>
          HidesNothing(s, act))
  {
    UpsertStep(s.feeds, erased.feeds, FeedTime(act), FeedIn(act));
    if act.Pushes? && Lands(act) {
      AddStep(s.headlines, erased.headlines, act.clock.now, act.h);
    }
  }

  // ---- every run ----

  /** The clock does not step back between updates. */
  predicate InOrder(acts: seq<Act>) {
    |acts| > 1 ==>
      var n := |acts| - 1;
      && InOrder(acts[..n])
      && FeedTime(acts[n - 1]) <= FeedTime(acts[n]) && StoryTime(acts[n - 1]) <= StoryTime(acts[n])
  }

  /** No update of the run, in the store it meets, hides anything public. */
  ghost predicate NothingHidden(acts: seq<Act>) {
    acts != [] ==>
      var n := |acts| - 1;
      NothingHidden(acts[..n]) && HidesNothing(StoreAfter(acts[..n]), acts[n])
  }

  /** After every update, the fresh public records are those of the erased run. */
  ghost predicate AlwaysMatches(acts: seq<Act>) {
    acts != [] ==>
      var n := |acts| - 1;
      && AlwaysMatches(acts[..n])
      && Matches(StoreAfter(acts), StoreAfter(Erased(acts)), FeedTime(acts[n]), StoryTime(acts[n]))
  }

  /** Feeds are registered with a time that is still fresh, as the source does. */
  predicate Timely(acts: seq<Act>) {
    forall k :: 0 <= k < |acts| ==> FeedIsFresh(FeedIn(acts[k]), FeedTime(acts[k]))
  }

  lemma ErasedOneMore(acts: seq<Act>)
    requires acts != []
    ensures
      var n := |acts| - 1;
      StoreAfter(Erased(acts)) == ErasedStep(StoreAfter(Erased(acts[..n])), acts[n])
  {
    var n := |acts| - 1;
    if PublicAct(acts[n]) {
      RunLast(Acting(), EMPTY, Erased(acts[..n]), acts[n]);
    }
  }

  /** What matched after one update still matches when a later one comes. */
  lemma MatchesLater(s: Store, erased: Store, act: Act, next: Act)
    requires Matches(s, erased, FeedTime(act), StoryTime(act))
    requires FeedTime(act) <= FeedTime(next) && StoryTime(act) <= StoryTime(next)
    ensures Matches(s, erased, FeedTime(next), StoryTime(next))
  {
    FeedsMatchLater(s.feeds, erased.feeds, FeedTime(act), FeedTime(next));
    StoriesMatchLater(s.headlines, erased.headlines, StoryTime(act), StoryTime(next));
  }

  lemma MatchesNow(acts: seq<Act>)
    requires acts != [] && AlwaysMatches(acts)
    ensures Matches(StoreAfter(acts), StoreAfter(Erased(acts)), FeedTime(acts[|acts| - 1]), StoryTime(acts[|acts| - 1]))
  {
  }

  lemma OrderAtEnd(past: seq<Act>, last: Act)
    requires past != [] && InOrder(past + [last])
    ensures FeedTime(past[|past| - 1]) <= FeedTime(last) && StoryTime(past[|past| - 1]) <= StoryTime(last)
  {
    assert (past + [last])[|past| - 1] == past[|past| - 1];
  }

  /** The two stores match when the last update of the run comes. */
  lemma MatchedBefore(past: seq<Act>, last: Act)
    requires InOrder(past + [last]) && AlwaysMatches(past)
    ensures Matches(StoreAfter(past), StoreAfter(Erased(past)), FeedTime(last), StoryTime(last))
  {
    if past != [] {
      MatchesNow(past);
      OrderAtEnd(past, last);
      MatchesLater(StoreAfter(past), StoreAfter(Erased(past)), past[|past| - 1], last);
    }
  }

  lemma MatchesOneMore(past: seq<Act>, last: Act)
    requires AlwaysMatches(past)
    ensures AlwaysMatches(past + [last]) <==>
      Matches(Acting()(StoreAfter(past), last), ErasedStep(StoreAfter(Erased(past)), last), FeedTime(last), StoryTime(last))
  {
    var acts := past + [last];
    assert acts[..|past|] == past;
    ErasedOneMore(acts);
  }

  lemma LastStepMatches(past: seq<Act>, last: Act)
    requires InOrder(past + [last]) && AlwaysMatches(past)
    ensures HidesNothing(StoreAfter(past), last) ==> AlwaysMatches(past + [last])
    ensures FeedIsFresh(FeedIn(last), FeedTime(last)) && AlwaysMatches(past + [last]) ==> HidesNothing(StoreAfter(past), last)
  {
    MatchedBefore(past, last);
    MatchesOneMore(past, last);
    StoreIsWellFormed(past);
    StoreIsWellFormed(Erased(past));
    StepMatches(StoreAfter(past), StoreAfter(Erased(past)), last);
  }

  lemma HiddenOneMore(past: seq<Act>, last: Act)
    ensures NothingHidden(past + [last]) <==> NothingHidden(past) && HidesNothing(StoreAfter(past), last)
  {
    assert (past + [last])[..|past|] == past;
  }

  lemma MatchesFront(past: seq<Act>, last: Act)
    ensures AlwaysMatches(past + [last]) ==> AlwaysMatches(past)
    ensures InOrder(past + [last]) ==> InOrder(past)
  {
    assert (past + [last])[..|past|] == past;
  }

  lemma MatchesIfHiddenNothing(past: seq<Act>, last: Act)
    requires InOrder(past + [last]) && NothingHidden(past + [last])
    requires NothingHidden(past) ==> AlwaysMatches(past)
    ensures AlwaysMatches(past + [last])
  {
    HiddenOneMore(past, last);
    LastStepMatches(past, last);
  }

  lemma {:induction false} NothingHiddenMatches(acts: seq<Act>)
    requires InOrder(acts) && NothingHidden(acts)
    ensures AlwaysMatches(acts)
  {
    if acts != [] {
      var past, last := acts[..|acts| - 1], acts[|acts| - 1];
      assert past + [last] == acts;
      MatchesFront(past, last);
      HiddenOneMore(past, last);
      NothingHiddenMatches(past);
      MatchesIfHiddenNothing(past, last);
    }
  }

  lemma ExactlyOneMore(past: seq<Act>, last: Act)
    requires InOrder(past + [last]) && FeedIsFresh(FeedIn(last), FeedTime(last))
    requires AlwaysMatches(past) <==> NothingHidden(past)
    ensures AlwaysMatches(past + [last]) <==> NothingHidden(past + [last])
  {
    MatchesFront(past, last);
    HiddenOneMore(past, last);
    if AlwaysMatches(past) {
      LastStepMatches(past, last);
    }
  }

  /** Exactly: with a clock that does not step back, the public part of the store is at every
      moment that of the run without private updates if and only if no update hides anything
      public. */
  lemma {:induction false} ErasureExactly(acts: seq<Act>)
    requires InOrder(acts) && Timely(acts)
    ensures AlwaysMatches(acts) <==> NothingHidden(acts)
  {
    if acts != [] {
      var past, last := acts[..|acts| - 1], acts[|acts| - 1];
      assert past + [last] == acts;
      MatchesFront(past, last);
      ErasureExactly(past);
      ExactlyOneMore(past, last);
    }
  }

  // ---- whatever the clock ----

  /** The update prunes no public record: all of them are fresh at its readings. */
  ghost predicate PrunesNothingPublic(s: Store, act: Act) {
    && AllPublicFresh(s.feeds, FreshFeeds(FeedTime(act)), PublicFeed())
    && (act.Pushes? ==> AllPublicFresh(s.headlines, FreshHeadlines(act.clock.now), PublicStory()))
  }

  /** The update hides nothing public and, if it is private, prunes nothing public either. */
  ghost predicate LosesNothing(s: Store, act: Act) {
    && HidesNothing(s, act)
    && (Lands(act) && !PublicAct(act) ==> PrunesNothingPublic(s, act))
  }

  lemma CutIsNoLonger<T(!new)>(s: seq<T>, n: nat, keep: T -> bool)
    ensures |Filter(LastN(s, n), keep)| <= |Filter(s, keep)|
  {
    var cut := |s| - |LastN(s, n)|;
    assert s == s[..cut] + LastN(s, n);
    FilterAppend(s[..cut], LastN(s, n), keep);
  }

  /** A private upsert never enlarges the public part. */
  lemma {:induction false} PrivateUpsertAddsNothing(feeds: seq<FeedView>, x: FeedView)
    requires !IsPublic(x.visibility)
    ensures |Filter(UpsertView(feeds, x), PublicFeed())| <= |Filter(feeds, PublicFeed())|
  {
    if feeds == [] {
      FilterOne(x, PublicFeed());
    } else {
      var after := UpsertView(feeds, x);
      FilterFirst(feeds, PublicFeed());
      FilterFirst(after, PublicFeed());
      if feeds[0].feedId != x.feedId {
        PrivateUpsertAddsNothing(feeds[1..], x);
      }
    }
  }

  ghost predicate AllPublicFresh<T(!new)>(s: seq<T>, isFresh: T -> bool, isPublic: T -> bool) {
    forall x :: x in s && isPublic(x) ==> isFresh(x)
  }

  lemma FreshAmongPublic<T(!new)>(s: seq<T>, isFresh: T -> bool, isPublic: T -> bool)
    ensures AllPublicFresh(s, isFresh, isPublic) <==>
      forall k :: 0 <= k < |Filter(s, isPublic)| ==> isFresh(Filter(s, isPublic)[k])
  {
    var shown := Filter(s, isPublic);
    if AllPublicFresh(s, isFresh, isPublic) {
      forall k | 0 <= k < |shown|
        ensures isFresh(shown[k])
      {
        assert shown[k] in shown;
      }
    } else {
      var x :| x in s && isPublic(x) && !isFresh(x);
      assert x in shown;
      var k :| 0 <= k < |shown| && shown[k] == x;
      assert !isFresh(Filter(s, isPublic)[k]);
    }
  }

  /** Pruning shortens the public part exactly when a public item is stale. */
  lemma PrunedPublic<T(!new)>(s: seq<T>, isFresh: T -> bool, isPublic: T -> bool)
    ensures AllPublicFresh(s, isFresh, isPublic) ==> Filter(Filter(s, isFresh), isPublic) == Filter(s, isPublic)
    ensures !AllPublicFresh(s, isFresh, isPublic) ==> |Filter(Filter(s, isFresh), isPublic)| < |Filter(s, isPublic)|
  {
    FilterSwap(s, isFresh, isPublic);
    FreshAmongPublic(s, isFresh, isPublic);
    FilterAll(Filter(s, isPublic), isFresh);
  }

  lemma ErasedPublicUpsert(feeds: seq<FeedView>, now: int, x: FeedView)
    requires |feeds| <= LIMIT && Snapshot.DistinctFeeds(feeds) && IsPublic(x.visibility)
    ensures Filter(UpsertInto(feeds, now, x), PublicFeed()) == UpsertInto(Filter(feeds, PublicFeed()), now, x) <==>
      FeedKept(Filter(feeds, FreshFeeds(now)), x)
  {
    FilteredStaysDistinct(feeds, FreshFeeds(now));
    UpsertHidesNothingIffKept(Filter(feeds, FreshFeeds(now)), x);
    FilterSwap(feeds, FreshFeeds(now), PublicFeed());
  }

  lemma ErasedPrivateUpsert(feeds: seq<FeedView>, now: int, x: FeedView)
    requires |feeds| <= LIMIT && Snapshot.DistinctFeeds(feeds) && !IsPublic(x.visibility)
    ensures Filter(UpsertInto(feeds, now, x), PublicFeed()) == Filter(feeds, PublicFeed()) <==>
      FeedKept(Filter(feeds, FreshFeeds(now)), x) && AllPublicFresh(feeds, FreshFeeds(now), PublicFeed())
  {
    var kept := Filter(feeds, FreshFeeds(now));
    FilteredStaysDistinct(feeds, FreshFeeds(now));
    UpsertHidesNothingIffKept(kept, x);
    PrunedPublic(feeds, FreshFeeds(now), PublicFeed());
    PrivateUpsertAddsNothing(kept, x);
    CutIsNoLonger(UpsertView(kept, x), LIMIT, PublicFeed());
  }

  lemma PrivateStoryAddsNothing(kept: seq<Headline>, h: Headline)
    requires !IsPublic(h.visibility)
    ensures |Filter(AddTo(kept, h), PublicStory())| <= |Filter(kept, PublicStory())|
  {
    CutIsNoLonger(kept + [h], LIMIT, PublicStory());
    FilterPush(kept, h, PublicStory());
    EmptyAfter(Filter(kept, PublicStory()));
  }

  lemma ErasedPublicAdd(headlines: seq<Headline>, now: int, h: Headline)
    requires |headlines| <= LIMIT && HeadlineIsFresh(h, now) && IsPublic(h.visibility)
    ensures Filter(AddStory(headlines, now, h), PublicStory()) == AddStory(Filter(headlines, PublicStory()), now, h) <==>
      StoryKept(Filter(headlines, FreshHeadlines(now)), h)
  {
    AddedIsFresh(headlines, now, h);
    AddedIsFresh(Filter(headlines, PublicStory()), now, h);
    AddHidesNothingIffKept(Filter(headlines, FreshHeadlines(now)), h);
    FilterSwap(headlines, FreshHeadlines(now), PublicStory());
  }

  lemma ErasedPrivateAdd(headlines: seq<Headline>, now: int, h: Headline)
    requires |headlines| <= LIMIT && HeadlineIsFresh(h, now) && !IsPublic(h.visibility)
    ensures Filter(AddStory(headlines, now, h), PublicStory()) == Filter(headlines, PublicStory()) <==>
      StoryKept(Filter(headlines, FreshHeadlines(now)), h) && AllPublicFresh(headlines, FreshHeadlines(now), PublicStory())
  {
    var kept := Filter(headlines, FreshHeadlines(now));
    AddedIsFresh(headlines, now, h);
    AddHidesNothingIffKept(kept, h);
    PrunedPublic(headlines, FreshHeadlines(now), PublicStory());
    PrivateStoryAddsNothing(kept, h);
  }

  /** Updating and erasing commute exactly when the update loses nothing public. */
  lemma StepErasesExactly(s: Store, act: Act)
    requires WellFormed(s)
    ensures Erase(Acting()(s, act)) == ErasedStep(Erase(s), act) <==> LosesNothing(s, act)
  {
    if Lands(act) {
      if PublicAct(act) {
        PublicStepErases(s, act);
      } else {
        PrivateStepErases(s, act);
      }
    }
  }

  lemma PublicStepErases(s: Store, act: Act)
    requires WellFormed(s) && Lands(act) && PublicAct(act)
    ensures Erase(Acting()(s, act)) == Acting()(Erase(s), act) <==> HidesNothing(s, act)
  {
    ErasedPublicUpsert(s.feeds, FeedTime(act), FeedIn(act));
    if act.Pushes? {
      ErasedPublicAdd(s.headlines, act.clock.now, act.h);
    }
  }

  lemma PrivateStepErases(s: Store, act: Act)
    requires WellFormed(s) && Lands(act) && !PublicAct(act)
    ensures Erase(Acting()(s, act)) == Erase(s) <==> HidesNothing(s, act) && PrunesNothingPublic(s, act)
  {
    ErasedPrivateUpsert(s.feeds, FeedTime(act), FeedIn(act));
    if act.Pushes? {
      ErasedPrivateAdd(s.headlines, act.clock.now, act.h);
    }
  }

  ghost predicate NothingLost(acts: seq<Act>) {
    acts != [] ==>
      var n := |acts| - 1;
      NothingLost(acts[..n]) && LosesNothing(StoreAfter(acts[..n]), acts[n])
  }

  /** After every update, erasing the private records gives the store of the erased run. */
  ghost predicate AlwaysErases(acts: seq<Act>) {
    acts != [] ==> AlwaysErases(acts[..|acts| - 1]) && Erase(StoreAfter(acts)) == StoreAfter(Erased(acts))
  }

  lemma {:induction false} AlwaysErasesNow(acts: seq<Act>)
    requires AlwaysErases(acts)
    ensures Erase(StoreAfter(acts)) == StoreAfter(Erased(acts))
  {
  }

  /** Exactly, whatever the clock does: after every update of a run the public records of the
      store are the store of the run without private updates, if and only if no update, in the
      store it meets, loses anything public. */
  lemma {:induction false} ErasureExactlyAnyClock(acts: seq<Act>)
    ensures AlwaysErases(acts) <==> NothingLost(acts)
  {
    if acts != [] {
      var past, last := acts[..|acts| - 1], acts[|acts| - 1];
      ErasureExactlyAnyClock(past);
      if AlwaysErases(past) {
        AlwaysErasesNow(past);
        ErasedOneMore(acts);
        StoreIsWellFormed(past);
        StepErasesExactly(StoreAfter(past), last);
      }
    }
  }

  /** Then every public snapshot, at any reading past or future, is that of the erased run. */
  lemma SnapshotIgnoresLosslessUpdates(screen: Screen, acts: seq<Act>, now: int, seenAt: int, reel: Headline -> bool)
    requires NothingLost(acts)
    ensures
      PublicSnapshot(screen, StoreAfter(acts), now, seenAt, reel) ==
      PublicSnapshot(screen, StoreAfter(Erased(acts)), now, seenAt, reel)
  {
    ErasureExactlyAnyClock(acts);
    AlwaysErasesNow(acts);
    PublicSnapshotIgnoresPrivate(screen, StoreAfter(acts), now, seenAt, reel);
  }

  // ---- the public snapshot ----

  lemma MatchingStoresReadAlike(screen: Screen, s: Store, erased: Store, now: int, seenAt: int, reel: Headline -> bool)
    requires Matches(s, erased, now, now)
    ensures PublicSnapshot(screen, s, now, seenAt, reel) == PublicSnapshot(screen, erased, now, seenAt, reel)
  {
    var feeds := (feed: FeedView) => FeedIsFresh(feed, now) && PublicFeeds()(feed);
    var stories := (h: Headline) => HeadlineIsFresh(h, now) && PublicHeadlines(screen)(h);
    VisibleIsPublic(screen);
    FilterNarrow(Filter(s.feeds, FreshFeeds(now)), PublicFeed(), feeds);
    FilterNarrow(s.feeds, FreshFeeds(now), feeds);
    FilterNarrow(erased.feeds, FreshFeeds(now), feeds);
    FilterNarrow(Filter(s.headlines, FreshHeadlines(now)), PublicStory(), stories);
    FilterNarrow(s.headlines, FreshHeadlines(now), stories);
    FilterNarrow(erased.headlines, FreshHeadlines(now), stories);
  }

  lemma VisibleIsPublic(screen: Screen)
    ensures forall feed :: PublicFeeds()(feed) ==> PublicFeed()(feed)
    ensures forall h :: PublicHeadlines(screen)(h) ==> PublicStory()(h)
  {
    forall feed | PublicFeeds()(feed)
      ensures PublicFeed()(feed)
    {
      assert FeedVisible(feed, None);
      VisibleToNobodyIsPublic(feed.visibility, feed.access);
    }
    forall h | PublicHeadlines(screen)(h)
      ensures PublicStory()(h)
    {
      assert HeadlineVisible(screen, h, None);
      VisibleToNobodyIsPublic(h.visibility, h.access);
    }
  }

  /** Erasing all private updates from a run that hides nothing public leaves every later
      public snapshot as it is. */
  lemma SnapshotIgnoresPrivateUpdates(screen: Screen, acts: seq<Act>, now: int, seenAt: int, reel: Headline -> bool)
    requires InOrder(acts) && NothingHidden(acts)
    requires acts != [] ==> FeedTime(acts[|acts| - 1]) <= now && StoryTime(acts[|acts| - 1]) <= now
    ensures
      PublicSnapshot(screen, StoreAfter(acts), now, seenAt, reel) ==
      PublicSnapshot(screen, StoreAfter(Erased(acts)), now, seenAt, reel)
  {
    var s, erased := StoreAfter(acts), StoreAfter(Erased(acts));
    if acts != [] {
      var last := acts[|acts| - 1];
      NothingHiddenMatches(acts);
      FeedsMatchLater(s.feeds, erased.feeds, FeedTime(last), now);
      StoriesMatchLater(s.headlines, erased.headlines, StoryTime(last), now);
    }
    MatchingStoresReadAlike(screen, s, erased, now, seenAt, reel);
  }
}
