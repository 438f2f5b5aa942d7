/** What the edge routes return from the snapshot store, and that each of them stays within
    the one access policy. */
module EdgeReads {
  import opened Prelude
  import opened Proto
  import opened Policy
  import opened Snapshot

  predicate IsPublic(visibility: string) {
    visibility == "public"
  }

  function PublicFeed(): FeedView -> bool {
    (feed: FeedView) => IsPublic(feed.visibility)
  }

  function PublicStory(): Headline -> bool {
    (h: Headline) => IsPublic(h.visibility)
  }

  /** The store with every non-public record erased. */
  function Erase(s: Store): Store {
    Store(Filter(s.feeds, PublicFeed()), Filter(s.headlines, PublicStory()))
  }

  /** What the public snapshot endpoint returns. */
  datatype PublicView = PublicView(feeds: seq<FeedView>, headlines: seq<Headline>)

  function Discovery(screen: Screen, s: Store, now: int, reel: Headline -> bool): seq<Headline> {
    LastN(Filter(ReadHeadlines(s, now, PublicHeadlines(screen)), reel), LIMIT)
  }

  function PublicSnapshot(screen: Screen, s: Store, now: int, seenAt: int, reel: Headline -> bool): PublicView {
    PublicView(ReadFeeds(s, now, seenAt, PublicFeeds(), PublicHeadlines(screen)), Discovery(screen, s, now, reel))
  }

  // ---- shape of every read ----

  /** Every read lists each feed once, lists a feed for every headline it returns, and lists
      nothing but stored feeds that pass and views of returned headlines. */
  lemma ReadsCoverHeadlines(s: Store, now: int, seenAt: int, showsFeed: FeedView -> bool, shows: Headline -> bool)
    requires WellFormed(s)
    ensures
      var feeds, headlines := ReadFeeds(s, now, seenAt, showsFeed, shows), ReadHeadlines(s, now, shows);
      && Snapshot.DistinctFeeds(feeds)
      && (forall h :: h in headlines ==> HasFeed(feeds, h.feedId))
      && (forall feed :: feed in feeds ==>
           || (feed in s.feeds && FeedIsFresh(feed, now) && showsFeed(feed))
           || exists h :: h in headlines && feed == ViewOf(h, seenAt))
  {
    var passes := (feed: FeedView) => FeedIsFresh(feed, now) && showsFeed(feed);
    var stored, headlines := Filter(s.feeds, passes), ReadHeadlines(s, now, shows);
    var views := ViewsOf(headlines, seenAt);
    FilterKeepsPairs(s.feeds, passes, (a: FeedView, b: FeedView) => a.feedId != b.feedId);
    MergeProperties(stored, views);
    ViewsProperties(headlines, seenAt);
    forall h | h in headlines
      ensures HasFeed(Merge(stored, views), h.feedId)
    {
      var k :| 0 <= k < |views| && views[k].feedId == h.feedId;
      assert views[k] in views;
    }
  }

  /** The cut of the discovery read never removes anything from a store within its bounds. */
  lemma DiscoveryIsNeverCut(screen: Screen, s: Store, now: int, reel: Headline -> bool)
    requires WellFormed(s)
    ensures Discovery(screen, s, now, reel) == Filter(ReadHeadlines(s, now, PublicHeadlines(screen)), reel)
  {
  }

  // ---- every route stays within the policy ----

  /** Everything an organisation or team route returns after its session checks is within
      the policy for that session. */
  lemma OrgRouteReadsWithinPolicy(screen: Screen, s: Store, now: int, seenAt: int, q: OrgQuery, session: Session)
    requires WellFormed(s) && OrgRouteAdmits(session, q.org, q.team)
    ensures forall h :: h in ReadHeadlines(s, now, OrgHeadlines(screen, q)) ==> HeadlineVisible(screen, h, Some(session))
    ensures forall feed :: feed in ReadFeeds(s, now, seenAt, OrgFeeds(q), OrgHeadlines(screen, q)) ==> FeedVisible(feed, Some(session))
  {
    ReadsCoverHeadlines(s, now, seenAt, OrgFeeds(q), OrgHeadlines(screen, q));
    forall h | h in ReadHeadlines(s, now, OrgHeadlines(screen, q))
      ensures HeadlineVisible(screen, h, Some(session))
    {
      OrgRouteWithinPolicy(session, q.org, q.team, h.access, h.visibility);
    }
    forall feed | feed in ReadFeeds(s, now, seenAt, OrgFeeds(q), OrgHeadlines(screen, q))
      ensures FeedVisible(feed, Some(session))
    {
      OrgRouteWithinPolicy(session, q.org, q.team, feed.access, feed.visibility);
    }
  }

  /** Everything a user route returns is within the policy for the session, or the absence of
      one, that asked. */
  lemma UserRouteReadsWithinPolicy(screen: Screen, s: Store, now: int, seenAt: int, q: UserQuery, session: Option<Session>)
    requires WellFormed(s)
    ensures forall h :: h in ReadHeadlines(s, now, UserHeadlines(screen, q, session)) ==> HeadlineVisible(screen, h, session)
    ensures forall feed :: feed in ReadFeeds(s, now, seenAt, UserFeeds(q, session), UserHeadlines(screen, q, session)) ==>
      FeedVisible(feed, session)
  {
    ReadsCoverHeadlines(s, now, seenAt, UserFeeds(q, session), UserHeadlines(screen, q, session));
  }

  /** Of the fresh stored records that an admitted session may see, an organisation or team
      route omits exactly those outside it and those its own filters reject. */
  lemma OrgRouteOmitsExactly(screen: Screen, s: Store, now: int, seenAt: int, q: OrgQuery, session: Session)
    requires WellFormed(s) && OrgRouteAdmits(session, q.org, q.team)
    ensures forall h :: h in s.headlines && HeadlineIsFresh(h, now) && HeadlineVisible(screen, h, Some(session)) ==>
      (h !in ReadHeadlines(s, now, OrgHeadlines(screen, q)) <==>
       OutsideOrgRoute(h.access, h.visibility, q.org, q.team) || !q.filter.Permits(h.name) || !q.reel(h))
    ensures forall feed :: feed in s.feeds && FeedIsFresh(feed, now) && FeedVisible(feed, Some(session)) ==>
      (feed !in ReadFeeds(s, now, seenAt, OrgFeeds(q), OrgHeadlines(screen, q)) <==>
       OutsideOrgRoute(feed.access, feed.visibility, q.org, q.team) || !q.filter.Permits(feed.name))
  {
    forall h | h in s.headlines && HeadlineIsFresh(h, now) && HeadlineVisible(screen, h, Some(session))
      ensures h !in ReadHeadlines(s, now, OrgHeadlines(screen, q)) <==>
        OutsideOrgRoute(h.access, h.visibility, q.org, q.team) || !q.filter.Permits(h.name) || !q.reel(h)
    {
      OrgRouteOmission(session, q.org, q.team, h.access, h.visibility);
    }
    forall feed | feed in s.feeds && FeedIsFresh(feed, now) && FeedVisible(feed, Some(session))
      ensures feed !in ReadFeeds(s, now, seenAt, OrgFeeds(q), OrgHeadlines(screen, q)) <==>
        OutsideOrgRoute(feed.access, feed.visibility, q.org, q.team) || !q.filter.Permits(feed.name)
    {
      OrgRouteOmission(session, q.org, q.team, feed.access, feed.visibility);
      ListedFeedPasses(screen, s, now, seenAt, q, feed);
    }
  }

  /** A stored feed is listed exactly when it passes: a view of a headline that equals it would
      have passed as well. */
  lemma ListedFeedPasses(screen: Screen, s: Store, now: int, seenAt: int, q: OrgQuery, feed: FeedView)
    requires WellFormed(s) && feed in s.feeds && FeedIsFresh(feed, now)
    ensures feed in ReadFeeds(s, now, seenAt, OrgFeeds(q), OrgHeadlines(screen, q)) <==> OrgFeeds(q)(feed)
  {
    var passes := (feed: FeedView) => FeedIsFresh(feed, now) && OrgFeeds(q)(feed);
    ReadsCoverHeadlines(s, now, seenAt, OrgFeeds(q), OrgHeadlines(screen, q));
    FilterKeepsPairs(s.feeds, passes, (a: FeedView, b: FeedView) => a.feedId != b.feedId);
    MergeProperties(Filter(s.feeds, passes), ViewsOf(ReadHeadlines(s, now, OrgHeadlines(screen, q)), seenAt));
  }

  // ---- whole responses ----

  datatype Response = Response(feeds: seq<FeedView>, headlines: seq<Headline>)

  /** A route's response: views of the headlines it read, then the feeds it read, each feed id
      listed once. The two reads may meet the clock at different times. */
  function Respond(headlines: seq<Headline>, feeds: seq<FeedView>, seenAt: int): Response {
    Response(Merge(Merge([], ViewsOf(headlines, seenAt)), feeds), headlines)
  }

  function OrgResponse(screen: Screen, s: Store, early: int, late: int, seenAt: int, q: OrgQuery): Response {
    Respond(ReadHeadlines(s, early, OrgHeadlines(screen, q)), ReadFeeds(s, late, seenAt, OrgFeeds(q), OrgHeadlines(screen, q)), seenAt)
  }

  function UserResponse(screen: Screen, s: Store, early: int, late: int, seenAt: int, q: UserQuery, session: Option<Session>): Response {
    Respond(ReadHeadlines(s, early, UserHeadlines(screen, q, session)),
            ReadFeeds(s, late, seenAt, UserFeeds(q, session), UserHeadlines(screen, q, session)), seenAt)
  }

  /** Every feed is listed once, every headline has its feed, and the session may see all of it. */
  ghost predicate FitFor(screen: Screen, r: Response, session: Option<Session>) {
    && Snapshot.DistinctFeeds(r.feeds)
    && (forall h :: h in r.headlines ==> HasFeed(r.feeds, h.feedId) && HeadlineVisible(screen, h, session))
    && (forall feed :: feed in r.feeds ==> FeedVisible(feed, session))
  }

  lemma ViewIsVisible(screen: Screen, h: Headline, seenAt: int, session: Option<Session>)
    requires HeadlineVisible(screen, h, session)
    ensures FeedVisible(ViewOf(h, seenAt), session)
  {
  }

  lemma ViewsAreVisible(screen: Screen, headlines: seq<Headline>, seenAt: int, session: Option<Session>)
    requires forall h :: h in headlines ==> HeadlineVisible(screen, h, session)
    ensures forall view :: view in ViewsOf(headlines, seenAt) ==> FeedVisible(view, session)
  {
    ViewsProperties(headlines, seenAt);
    forall view | view in ViewsOf(headlines, seenAt)
      ensures FeedVisible(view, session)
    {
      var h :| h in headlines && view == ViewOf(h, seenAt);
      ViewIsVisible(screen, h, seenAt, session);
    }
  }

  lemma MergedStaysCovered(feeds: seq<FeedView>, extra: seq<FeedView>, feedId: FeedId)
    requires Snapshot.DistinctFeeds(feeds) && HasFeed(feeds, feedId)
    ensures HasFeed(Merge(feeds, extra), feedId)
  {
    MergeProperties(feeds, extra);
    var k :| 0 <= k < |feeds| && feeds[k].feedId == feedId;
    assert feeds[k] in Merge(feeds, extra);
  }

  lemma RespondIsFit(screen: Screen, headlines: seq<Headline>, feeds: seq<FeedView>, seenAt: int, session: Option<Session>)
    requires forall h :: h in headlines ==> HeadlineVisible(screen, h, session)
    requires forall feed :: feed in feeds ==> FeedVisible(feed, session)
    ensures FitFor(screen, Respond(headlines, feeds, seenAt), session)
  {
    var views := ViewsOf(headlines, seenAt);
    ViewsAreVisible(screen, headlines, seenAt, session);
    ViewsProperties(headlines, seenAt);
    MergeProperties([], views);
    MergeProperties(Merge([], views), feeds);
    forall h | h in headlines
      ensures HasFeed(Respond(headlines, feeds, seenAt).feeds, h.feedId)
    {
      var k :| 0 <= k < |views| && views[k].feedId == h.feedId;
      assert views[k] in views;
      MergedStaysCovered(Merge([], views), feeds, h.feedId);
    }
  }

  /** The whole response of an organisation or team route is within the policy for the session
      it admitted. */
  lemma OrgResponseIsFit(screen: Screen, s: Store, early: int, late: int, seenAt: int, q: OrgQuery, session: Session)
    requires WellFormed(s) && OrgRouteAdmits(session, q.org, q.team)
    ensures FitFor(screen, OrgResponse(screen, s, early, late, seenAt, q), Some(session))
  {
    OrgRouteReadsWithinPolicy(screen, s, early, seenAt, q, session);
    OrgRouteReadsWithinPolicy(screen, s, late, seenAt, q, session);
    RespondIsFit(screen, ReadHeadlines(s, early, OrgHeadlines(screen, q)),
      ReadFeeds(s, late, seenAt, OrgFeeds(q), OrgHeadlines(screen, q)), seenAt, Some(session));
  }

  lemma UserResponseIsFit(screen: Screen, s: Store, early: int, late: int, seenAt: int, q: UserQuery, session: Option<Session>)
    requires WellFormed(s)
    ensures FitFor(screen, UserResponse(screen, s, early, late, seenAt, q, session), session)
  {
    UserRouteReadsWithinPolicy(screen, s, early, seenAt, q, session);
    UserRouteReadsWithinPolicy(screen, s, late, seenAt, q, session);
    RespondIsFit(screen, ReadHeadlines(s, early, UserHeadlines(screen, q, session)),
      ReadFeeds(s, late, seenAt, UserFeeds(q, session), UserHeadlines(screen, q, session)), seenAt, session);
  }

  // ---- the fallback when the login cannot be resolved ----

  function KnownFeeds(login: string, session: Option<Session>): FeedView -> bool {
    (feed: FeedView) => ToLower(feed.publisherLogin) == ToLower(login) && FeedVisible(feed, session)
  }

  function KnownHeadlines(screen: Screen, login: string, session: Option<Session>): Headline -> bool {
    (h: Headline) => ToLower(h.publisherLogin) == ToLower(login) && HeadlineVisible(screen, h, session)
  }

  function FeedLogins(feeds: seq<FeedView>, user: UserId): Option<string> {
    if feeds == [] then None
    else if feeds[0].publisherId == Some(user) then Some(feeds[0].publisherLogin)
    else FeedLogins(feeds[1..], user)
  }

  function HeadlineLogins(headlines: seq<Headline>, user: UserId): Option<string> {
    if headlines == [] then None
    else if headlines[0].publisherId == Some(user) then Some(headlines[0].publisherLogin)
    else HeadlineLogins(headlines[1..], user)
  }

  /** The identity of the first known feed, or else of the first known headline. */
  function KnownId(feeds: seq<FeedView>, headlines: seq<Headline>): Option<UserId> {
    if feeds != [] && feeds[0].publisherId.Some? then feeds[0].publisherId
    else if headlines != [] then headlines[0].publisherId
    else None
  }

  function KnownLogin(feeds: seq<FeedView>, headlines: seq<Headline>, user: UserId, login: string): string {
    if FeedLogins(feeds, user).Some? then FeedLogins(feeds, user).value
    else if HeadlineLogins(headlines, user).Some? then HeadlineLogins(headlines, user).value
    else login
  }

  /** The identity is read off what the store already shows for the login; `q.userId` plays no
      part until then. */
  function Fallback(screen: Screen, s: Store, now: int, seenAt: int, q: UserQuery, session: Option<Session>): Option<Response> {
    var feeds := Filter(s.feeds, (feed: FeedView) => FeedIsFresh(feed, now) && KnownFeeds(q.login, session)(feed));
    var headlines := ReadHeadlines(s, now, KnownHeadlines(screen, q.login, session));
    if KnownId(feeds, headlines).None? then None
    else
      var user := KnownId(feeds, headlines).value;
      var found := q.(userId := user, login := KnownLogin(feeds, headlines, user, q.login));
      var shownFeeds := Filter(feeds, UserFeeds(found, session));
      var shown := Filter(headlines, UserHeadlines(screen, found, session));
      if shownFeeds == [] && shown == [] then None
      else Some(Response(Merge(shownFeeds, ViewsOf(shown, seenAt)), shown))
  }

  lemma FilteredStaysDistinct(feeds: seq<FeedView>, keep: FeedView -> bool)
    requires Snapshot.DistinctFeeds(feeds)
    ensures Snapshot.DistinctFeeds(Filter(feeds, keep))
  {
    FilterKeepsPairs(feeds, keep, (a: FeedView, b: FeedView) => a.feedId != b.feedId);
  }

  lemma AppendedIsFit(screen: Screen, feeds: seq<FeedView>, headlines: seq<Headline>, seenAt: int, session: Option<Session>)
    requires Snapshot.DistinctFeeds(feeds)
    requires forall h :: h in headlines ==> HeadlineVisible(screen, h, session)
    requires forall feed :: feed in feeds ==> FeedVisible(feed, session)
    ensures FitFor(screen, Response(Merge(feeds, ViewsOf(headlines, seenAt)), headlines), session)
  {
    var views := ViewsOf(headlines, seenAt);
    ViewsAreVisible(screen, headlines, seenAt, session);
    ViewsProperties(headlines, seenAt);
    MergeProperties(feeds, views);
    forall h | h in headlines
      ensures HasFeed(Merge(feeds, views), h.feedId)
    {
      var k :| 0 <= k < |views| && views[k].feedId == h.feedId;
      assert views[k] in views;
    }
  }

  /** The fallback response is within the policy too, for every session and for none. */
  lemma FallbackIsFit(screen: Screen, s: Store, now: int, seenAt: int, q: UserQuery, session: Option<Session>)
    requires WellFormed(s) && Fallback(screen, s, now, seenAt, q, session).Some?
    ensures FitFor(screen, Fallback(screen, s, now, seenAt, q, session).value, session)
  {
    var known := (feed: FeedView) => FeedIsFresh(feed, now) && KnownFeeds(q.login, session)(feed);
    var feeds := Filter(s.feeds, known);
    var headlines := ReadHeadlines(s, now, KnownHeadlines(screen, q.login, session));
    var user := KnownId(feeds, headlines).value;
    var found := q.(userId := user, login := KnownLogin(feeds, headlines, user, q.login));
    FilteredStaysDistinct(s.feeds, known);
    FilteredStaysDistinct(feeds, UserFeeds(found, session));
    AppendedIsFit(screen, Filter(feeds, UserFeeds(found, session)), Filter(headlines, UserHeadlines(screen, found, session)), seenAt, session);
  }

  // ---- the public snapshot does not depend on private records ----

  lemma VisibleToNobodyIsPublic(visibility: string, access: AccessPolicy)
    requires SessionCanAccess(None, visibility, access)
    ensures IsPublic(visibility)
  {
  }

  /** Erasing every non-public record from the store leaves the public snapshot unchanged. */
  lemma PublicSnapshotIgnoresPrivate(screen: Screen, s: Store, now: int, seenAt: int, reel: Headline -> bool)
    ensures PublicSnapshot(screen, Erase(s), now, seenAt, reel) == PublicSnapshot(screen, s, now, seenAt, reel)
  {
    var keepFeed := (feed: FeedView) => FeedIsFresh(feed, now) && PublicFeeds()(feed);
    var keep := (h: Headline) => HeadlineIsFresh(h, now) && PublicHeadlines(screen)(h);
    forall feed | keepFeed(feed)
      ensures IsPublic(feed.visibility)
    {
      assert PublicFeeds()(feed) == FeedVisible(feed, None);
      VisibleToNobodyIsPublic(feed.visibility, feed.access);
    }
    forall h | keep(h)
      ensures IsPublic(h.visibility)
    {
      assert PublicHeadlines(screen)(h) == HeadlineVisible(screen, h, None);
      VisibleToNobodyIsPublic(h.visibility, h.access);
    }
    FilterNarrow(s.feeds, PublicFeed(), keepFeed);
    FilterNarrow(s.headlines, PublicStory(), keep);
  }
}
