/** What the edge lists, exactly: for every read which stored records are in it, told by their
    own fields, the session and the clock. */
module EdgeListing {
  import opened Prelude
  import opened Proto
  import opened Policy
  import opened Routes
  import opened Snapshot
  import opened EdgeReads

  // ---- the rules, field by field ----

  /** Headlines last 45 minutes, undated ones for ever; feeds last 15 minutes. */
  predicate StillTold(h: Headline, now: int) {
    h.createdAt.None? || now - h.createdAt.value <= 2700
  }

  predicate StillSeen(feed: FeedView, now: int) {
    now - feed.lastSeenAt <= 900
  }

  /** Public records are for everybody; the others need a session: a user's for the users
      listed, an organisation's or a team's for its members, by lower-cased name. */
  predicate MayRead(session: Option<Session>, visibility: string, access: AccessPolicy) {
    || visibility == "public"
    || (session.Some? &&
        (|| (visibility == "github_user" && session.value.userId in access.users)
         || (visibility == "github_org" && access.org.Some? && ToLower(access.org.value) in session.value.orgs)
         || (&& visibility == "github_team" && access.org.Some? && access.team.Some?
             && ToLower(access.org.value) + "/" + ToLower(access.team.value) in session.value.teams)))
  }

  predicate NotLocal(feedId: FeedId) {
    !("local:" <= feedId)
  }

  predicate NamedBy(filter: StreamFilter, name: string) {
    filter.ShowNamed? ==> name in filter.labels
  }

  predicate CleanCopy(screen: Screen, h: Headline) {
    !screen.hasIssue(h.headline + " " + h.deck)
  }

  /** A headline is a user's by its publisher id; by the login, in any case, only without one. */
  predicate ToldBy(h: Headline, user: UserId, login: string) {
    if h.publisherId.Some? then h.publisherId.value == user else ToLower(h.publisherLogin) == ToLower(login)
  }

  /** A feed is a user's by its publisher id or by the login. */
  predicate SeenFrom(feed: FeedView, user: UserId, login: string) {
    (feed.publisherId.Some? && feed.publisherId.value == user) || ToLower(feed.publisherLogin) == ToLower(login)
  }

  /** Records an organisation or team route shows. */
  predicate OfOrg(visibility: string, access: AccessPolicy, org: string, team: Option<string>) {
    && access.org.Some? && access.org.value == org
    && (|| visibility == "github_org"
        || (visibility == "github_team" && team.Some? && access.team.Some? && access.team.value == team.value))
  }

  lemma MayReadExactly(session: Option<Session>, visibility: string, access: AccessPolicy)
    ensures SessionCanAccess(session, visibility, access) <==> MayRead(session, visibility, access)
  {
  }

  lemma OfOrgExactly(visibility: string, access: AccessPolicy, org: string, team: Option<string>)
    ensures OrgRouteShows(access, visibility, org, team) <==> OfOrg(visibility, access, org, team)
  {
  }

  // ---- headlines ----

  function UserListing(screen: Screen, now: int, q: UserQuery, session: Option<Session>): Headline -> bool {
    (h: Headline) =>
      && StillTold(h, now) && NotLocal(h.feedId) && MayRead(session, h.visibility, h.access) && CleanCopy(screen, h)
      && ToldBy(h, q.userId, q.login) && NamedBy(q.filter, h.name) && q.reel(h)
  }

  function OrgListing(screen: Screen, now: int, q: OrgQuery): Headline -> bool {
    (h: Headline) =>
      && StillTold(h, now) && NotLocal(h.feedId) && OfOrg(h.visibility, h.access, q.org, q.team) && CleanCopy(screen, h)
      && NamedBy(q.filter, h.name) && q.reel(h)
  }

  function PublicListing(screen: Screen, now: int, reel: Headline -> bool): Headline -> bool {
    (h: Headline) => StillTold(h, now) && NotLocal(h.feedId) && h.visibility == "public" && CleanCopy(screen, h) && reel(h)
  }

  lemma UserListed(screen: Screen, now: int, q: UserQuery, session: Option<Session>, h: Headline)
    ensures UserListing(screen, now, q, session)(h) <==> HeadlineIsFresh(h, now) && UserHeadlines(screen, q, session)(h)
  {
    MayReadExactly(session, h.visibility, h.access);
    assert HeadlineVisible(screen, h, session) <==>
      NotLocal(h.feedId) && MayRead(session, h.visibility, h.access) && CleanCopy(screen, h);
    assert HeadlineIsFresh(h, now) <==> StillTold(h, now);
    assert q.filter.Permits(h.name) <==> NamedBy(q.filter, h.name);
  }

  lemma OrgListed(screen: Screen, now: int, q: OrgQuery, h: Headline)
    ensures OrgListing(screen, now, q)(h) <==> HeadlineIsFresh(h, now) && OrgHeadlines(screen, q)(h)
  {
    OfOrgExactly(h.visibility, h.access, q.org, q.team);
    assert HeadlineIsFresh(h, now) <==> StillTold(h, now);
    assert q.filter.Permits(h.name) <==> NamedBy(q.filter, h.name);
    assert OrgHeadlines(screen, q)(h) <==>
      NotLocal(h.feedId) && OfOrg(h.visibility, h.access, q.org, q.team) && NamedBy(q.filter, h.name) && q.reel(h) && CleanCopy(screen, h);
    assert OrgListing(screen, now, q)(h) <==>
      && StillTold(h, now) && NotLocal(h.feedId) && OfOrg(h.visibility, h.access, q.org, q.team) && CleanCopy(screen, h)
      && NamedBy(q.filter, h.name) && q.reel(h);
  }

  lemma PublicListed(screen: Screen, now: int, reel: Headline -> bool, h: Headline)
    ensures PublicListing(screen, now, reel)(h) <==> HeadlineIsFresh(h, now) && PublicHeadlines(screen)(h) && reel(h)
  {
    MayReadExactly(None, h.visibility, h.access);
    assert PublicHeadlines(screen)(h) == HeadlineVisible(screen, h, None);
    assert HeadlineVisible(screen, h, None) <==> h.visibility == "public" && NotLocal(h.feedId) && CleanCopy(screen, h);
    assert HeadlineIsFresh(h, now) <==> StillTold(h, now);
    assert PublicListing(screen, now, reel)(h) <==>
      StillTold(h, now) && NotLocal(h.feedId) && h.visibility == "public" && CleanCopy(screen, h) && reel(h);
  }

  /** The headlines of a user's response are, in stored order, exactly the fresh, readable and
      clean ones that the user told, of the feeds and of the kind asked for. */
  lemma UserHeadlinesExactly(screen: Screen, s: Store, early: int, late: int, seenAt: int, q: UserQuery, session: Option<Session>)
    ensures UserResponse(screen, s, early, late, seenAt, q, session).headlines ==
      Filter(s.headlines, UserListing(screen, early, q, session))
  {
    forall k | 0 <= k < |s.headlines|
      ensures UserListing(screen, early, q, session)(s.headlines[k]) <==>
        HeadlineIsFresh(s.headlines[k], early) && UserHeadlines(screen, q, session)(s.headlines[k])
    {
      UserListed(screen, early, q, session, s.headlines[k]);
    }
    FilterSame(s.headlines, UserListing(screen, early, q, session),
      (h: Headline) => HeadlineIsFresh(h, early) && UserHeadlines(screen, q, session)(h));
  }

  /** The headlines of an organisation's or team's response, likewise. */
  lemma OrgHeadlinesExactly(screen: Screen, s: Store, early: int, late: int, seenAt: int, q: OrgQuery)
    ensures OrgResponse(screen, s, early, late, seenAt, q).headlines == Filter(s.headlines, OrgListing(screen, early, q))
  {
    forall k | 0 <= k < |s.headlines|
      ensures OrgListing(screen, early, q)(s.headlines[k]) <==>
        HeadlineIsFresh(s.headlines[k], early) && OrgHeadlines(screen, q)(s.headlines[k])
    {
      OrgListed(screen, early, q, s.headlines[k]);
    }
    FilterSame(s.headlines, OrgListing(screen, early, q), (h: Headline) => HeadlineIsFresh(h, early) && OrgHeadlines(screen, q)(h));
  }

  /** The headlines of the public snapshot of a store within its bounds, likewise. */
  lemma PublicHeadlinesExactly(screen: Screen, s: Store, now: int, seenAt: int, reel: Headline -> bool)
    requires WellFormed(s)
    ensures PublicSnapshot(screen, s, now, seenAt, reel).headlines == Filter(s.headlines, PublicListing(screen, now, reel))
  {
    var shown := (h: Headline) => HeadlineIsFresh(h, now) && PublicHeadlines(screen)(h);
    DiscoveryIsNeverCut(screen, s, now, reel);
    forall h
      ensures PublicListing(screen, now, reel)(h) <==> shown(h) && reel(h)
    {
      PublicListed(screen, now, reel, h);
    }
    FilterTwice(s.headlines, shown, reel, PublicListing(screen, now, reel));
  }

  // ---- feeds ----

  predicate UserFeedListed(now: int, q: UserQuery, session: Option<Session>, feed: FeedView) {
    && StillSeen(feed, now) && NotLocal(feed.feedId) && MayRead(session, feed.visibility, feed.access)
    && SeenFrom(feed, q.userId, q.login) && NamedBy(q.filter, feed.name)
  }

  predicate OrgFeedListed(now: int, q: OrgQuery, feed: FeedView) {
    && StillSeen(feed, now) && NotLocal(feed.feedId) && OfOrg(feed.visibility, feed.access, q.org, q.team)
    && NamedBy(q.filter, feed.name)
  }

  predicate PublicFeedListed(now: int, feed: FeedView) {
    StillSeen(feed, now) && NotLocal(feed.feedId) && feed.visibility == "public"
  }

  /** A read lists a feed id exactly when a stored feed of that id passes or a headline it
      returns is of that feed. */
  lemma FeedIdsOfRead(s: Store, now: int, seenAt: int, showsFeed: FeedView -> bool, shows: Headline -> bool, feedId: FeedId)
    requires WellFormed(s)
    ensures
      HasFeed(ReadFeeds(s, now, seenAt, showsFeed, shows), feedId) <==>
      || (exists feed :: feed in s.feeds && feed.feedId == feedId && FeedIsFresh(feed, now) && showsFeed(feed))
      || (exists h :: h in ReadHeadlines(s, now, shows) && h.feedId == feedId)
  {
    var passes := (feed: FeedView) => FeedIsFresh(feed, now) && showsFeed(feed);
    var stored, headlines := Filter(s.feeds, passes), ReadHeadlines(s, now, shows);
    var feeds := ReadFeeds(s, now, seenAt, showsFeed, shows);
    ReadsCoverHeadlines(s, now, seenAt, showsFeed, shows);
    FilterKeepsPairs(s.feeds, passes, (a: FeedView, b: FeedView) => a.feedId != b.feedId);
    MergeProperties(stored, ViewsOf(headlines, seenAt));
    if HasFeed(feeds, feedId) {
      var k :| 0 <= k < |feeds| && feeds[k].feedId == feedId;
      assert feeds[k] in feeds;
    }
    if feed :| feed in s.feeds && feed.feedId == feedId && FeedIsFresh(feed, now) && showsFeed(feed) {
      assert feed in stored;
      var k :| 0 <= k < |feeds| && feeds[k] == feed;
    }
  }

  lemma UserFeedPasses(now: int, q: UserQuery, session: Option<Session>, feed: FeedView)
    ensures UserFeedListed(now, q, session, feed) <==> FeedIsFresh(feed, now) && UserFeeds(q, session)(feed)
  {
    MayReadExactly(session, feed.visibility, feed.access);
  }

  lemma OrgFeedPasses(now: int, q: OrgQuery, feed: FeedView)
    ensures OrgFeedListed(now, q, feed) <==> FeedIsFresh(feed, now) && OrgFeeds(q)(feed)
  {
    OfOrgExactly(feed.visibility, feed.access, q.org, q.team);
  }

  lemma PublicFeedPasses(now: int, feed: FeedView)
    ensures PublicFeedListed(now, feed) <==> FeedIsFresh(feed, now) && PublicFeeds()(feed)
  {
    MayReadExactly(None, feed.visibility, feed.access);
    assert PublicFeeds()(feed) == FeedVisible(feed, None);
  }

  /** The feeds of a user's response: those stored that are fresh, readable and the user's, of
      the names asked for, and those of the headlines it returns. */
  lemma UserFeedsExactly(screen: Screen, s: Store, early: int, late: int, seenAt: int, q: UserQuery, session: Option<Session>, feedId: FeedId)
    requires WellFormed(s)
    ensures
      HasFeed(UserResponse(screen, s, early, late, seenAt, q, session).feeds, feedId) <==>
      || (exists feed :: feed in s.feeds && feed.feedId == feedId && UserFeedListed(late, q, session, feed))
      || (exists h :: h in s.headlines && h.feedId == feedId
            && (UserListing(screen, early, q, session)(h) || UserListing(screen, late, q, session)(h)))
  {
    FeedIdsOfRead(s, late, seenAt, UserFeeds(q, session), UserHeadlines(screen, q, session), feedId);
    var early', late' := ReadHeadlines(s, early, UserHeadlines(screen, q, session)), ReadHeadlines(s, late, UserHeadlines(screen, q, session));
    var feeds := ReadFeeds(s, late, seenAt, UserFeeds(q, session), UserHeadlines(screen, q, session));
    RespondedIds(early', feeds, seenAt, feedId);
    forall feed | feed in s.feeds
      ensures UserFeedListed(late, q, session, feed) <==> FeedIsFresh(feed, late) && UserFeeds(q, session)(feed)
    {
      UserFeedPasses(late, q, session, feed);
    }
    forall h
      ensures h in early' <==> h in s.headlines && UserListing(screen, early, q, session)(h)
      ensures h in late' <==> h in s.headlines && UserListing(screen, late, q, session)(h)
    {
      UserListed(screen, early, q, session, h);
      UserListed(screen, late, q, session, h);
    }
  }

  lemma OrgFeedsExactly(screen: Screen, s: Store, early: int, late: int, seenAt: int, q: OrgQuery, feedId: FeedId)
    requires WellFormed(s)
    ensures
      HasFeed(OrgResponse(screen, s, early, late, seenAt, q).feeds, feedId) <==>
      || (exists feed :: feed in s.feeds && feed.feedId == feedId && OrgFeedListed(late, q, feed))
      || (exists h :: h in s.headlines && h.feedId == feedId
            && (OrgListing(screen, early, q)(h) || OrgListing(screen, late, q)(h)))
  {
    FeedIdsOfRead(s, late, seenAt, OrgFeeds(q), OrgHeadlines(screen, q), feedId);
    var early', late' := ReadHeadlines(s, early, OrgHeadlines(screen, q)), ReadHeadlines(s, late, OrgHeadlines(screen, q));
    RespondedIds(early', ReadFeeds(s, late, seenAt, OrgFeeds(q), OrgHeadlines(screen, q)), seenAt, feedId);
    forall feed | feed in s.feeds
      ensures OrgFeedListed(late, q, feed) <==> FeedIsFresh(feed, late) && OrgFeeds(q)(feed)
    {
      OrgFeedPasses(late, q, feed);
    }
    forall h
      ensures h in early' <==> h in s.headlines && OrgListing(screen, early, q)(h)
      ensures h in late' <==> h in s.headlines && OrgListing(screen, late, q)(h)
    {
      OrgListed(screen, early, q, h);
      OrgListed(screen, late, q, h);
    }
  }

  lemma PublicFeedsExactly(screen: Screen, s: Store, now: int, seenAt: int, reel: Headline -> bool, feedId: FeedId)
    requires WellFormed(s)
    ensures
      HasFeed(PublicSnapshot(screen, s, now, seenAt, reel).feeds, feedId) <==>
      || (exists feed :: feed in s.feeds && feed.feedId == feedId && PublicFeedListed(now, feed))
      || (exists h :: h in s.headlines && h.feedId == feedId && PublicListing(screen, now, (_: Headline) => true)(h))
  {
    var all := (_: Headline) => true;
    FeedIdsOfRead(s, now, seenAt, PublicFeeds(), PublicHeadlines(screen), feedId);
    forall feed | feed in s.feeds
      ensures PublicFeedListed(now, feed) <==> FeedIsFresh(feed, now) && PublicFeeds()(feed)
    {
      PublicFeedPasses(now, feed);
    }
    forall h
      ensures h in ReadHeadlines(s, now, PublicHeadlines(screen)) <==> h in s.headlines && PublicListing(screen, now, all)(h)
    {
      PublicListed(screen, now, all, h);
    }
  }

  /** The ids of an assembled response: those of its headlines and those of the feeds read. */
  lemma RespondedIds(headlines: seq<Headline>, feeds: seq<FeedView>, seenAt: int, feedId: FeedId)
    ensures HasFeed(Respond(headlines, feeds, seenAt).feeds, feedId) <==>
      (exists h :: h in headlines && h.feedId == feedId) || HasFeed(feeds, feedId)
  {
    var views := ViewsOf(headlines, seenAt);
    ViewsProperties(headlines, seenAt);
    MergeProperties([], views);
    var first := Merge([], views);
    MergeProperties(first, feeds);
    var all := Merge(first, feeds);
    if HasFeed(all, feedId) {
      var k :| 0 <= k < |all| && all[k].feedId == feedId;
      assert all[k] in all;
      if all[k] in feeds {
        var j :| 0 <= j < |feeds| && feeds[j] == all[k];
      } else {
        assert all[k] in views;
      }
    }
    if h :| h in headlines && h.feedId == feedId {
      assert HasFeed(views, feedId);
      var k :| 0 <= k < |views| && views[k].feedId == feedId;
      assert views[k] in views;
      assert HasFeed(first, feedId);
      MergedStaysCovered(first, feeds, feedId);
    }
    if HasFeed(feeds, feedId) {
      var k :| 0 <= k < |feeds| && feeds[k].feedId == feedId;
      assert feeds[k] in feeds;
    }
  }

  // ---- the fallback ----

  function KnownFeedListing(now: int, login: string, session: Option<Session>): FeedView -> bool {
    (feed: FeedView) =>
      && StillSeen(feed, now) && NotLocal(feed.feedId) && MayRead(session, feed.visibility, feed.access)
      && ToLower(feed.publisherLogin) == ToLower(login)
  }

  function KnownListing(screen: Screen, now: int, login: string, session: Option<Session>): Headline -> bool {
    (h: Headline) =>
      && StillTold(h, now) && NotLocal(h.feedId) && MayRead(session, h.visibility, h.access) && CleanCopy(screen, h)
      && ToLower(h.publisherLogin) == ToLower(login)
  }

  lemma KnownFeed(now: int, login: string, session: Option<Session>, feed: FeedView)
    ensures KnownFeedListing(now, login, session)(feed) <==> FeedIsFresh(feed, now) && KnownFeeds(login, session)(feed)
  {
    MayReadExactly(session, feed.visibility, feed.access);
    assert KnownFeeds(login, session)(feed) <==> ToLower(feed.publisherLogin) == ToLower(login) && FeedVisible(feed, session);
    assert FeedVisible(feed, session) <==> NotLocal(feed.feedId) && MayRead(session, feed.visibility, feed.access);
  }

  lemma KnownHeadline(screen: Screen, now: int, login: string, session: Option<Session>, h: Headline)
    ensures KnownListing(screen, now, login, session)(h) <==> HeadlineIsFresh(h, now) && KnownHeadlines(screen, login, session)(h)
  {
    MayReadExactly(session, h.visibility, h.access);
    assert KnownHeadlines(screen, login, session)(h) <==> ToLower(h.publisherLogin) == ToLower(login) && HeadlineVisible(screen, h, session);
    assert HeadlineVisible(screen, h, session) <==>
      NotLocal(h.feedId) && MayRead(session, h.visibility, h.access) && CleanCopy(screen, h);
  }

  lemma KnownExactly(screen: Screen, s: Store, now: int, login: string, session: Option<Session>)
    ensures
      Filter(s.feeds, (feed: FeedView) => FeedIsFresh(feed, now) && KnownFeeds(login, session)(feed)) ==
      Filter(s.feeds, KnownFeedListing(now, login, session))
    ensures ReadHeadlines(s, now, KnownHeadlines(screen, login, session)) == Filter(s.headlines, KnownListing(screen, now, login, session))
  {
    var feeds := (feed: FeedView) => FeedIsFresh(feed, now) && KnownFeeds(login, session)(feed);
    var headlines := (h: Headline) => HeadlineIsFresh(h, now) && KnownHeadlines(screen, login, session)(h);
    forall k | 0 <= k < |s.feeds|
      ensures feeds(s.feeds[k]) <==> KnownFeedListing(now, login, session)(s.feeds[k])
    {
      KnownFeed(now, login, session, s.feeds[k]);
    }
    forall k | 0 <= k < |s.headlines|
      ensures headlines(s.headlines[k]) <==> KnownListing(screen, now, login, session)(s.headlines[k])
    {
      KnownHeadline(screen, now, login, session, s.headlines[k]);
    }
    FilterSame(s.feeds, feeds, KnownFeedListing(now, login, session));
    FilterSame(s.headlines, headlines, KnownListing(screen, now, login, session));
  }

  /** The user a fallback answers for: the publisher of the first readable feed of the login
      that names one, or else of the first headline. Nobody, no response. What it lists is what
      the login's own readable headlines hold of that user. */
  lemma FallbackExactly(screen: Screen, s: Store, now: int, seenAt: int, q: UserQuery, session: Option<Session>)
    ensures
      var feeds, told := Filter(s.feeds, KnownFeedListing(now, q.login, session)), Filter(s.headlines, KnownListing(screen, now, q.login, session));
      var user :=
        if feeds != [] && feeds[0].publisherId.Some? then feeds[0].publisherId
        else if told != [] then told[0].publisherId else None;
      var response := Fallback(screen, s, now, seenAt, q, session);
      && (user.None? ==> response.None?)
      && (response.Some? ==> forall h :: h in response.value.headlines ==>
           h in told && (h.publisherId == user || h.publisherId.None?) && NamedBy(q.filter, h.name) && q.reel(h))
      && (user.Some? ==> forall h :: h in told && h.publisherId == user && NamedBy(q.filter, h.name) && q.reel(h) ==>
           response.Some? && h in response.value.headlines)
  {
    KnownExactly(screen, s, now, q.login, session);
    var feeds, told := Filter(s.feeds, KnownFeedListing(now, q.login, session)), Filter(s.headlines, KnownListing(screen, now, q.login, session));
    if KnownId(feeds, told).Some? {
      FallbackShows(screen, now, q, session, feeds, told);
    }
  }

  /** Of the login's headlines, those of the user found and those without a publisher id. */
  lemma FallbackShows(screen: Screen, now: int, q: UserQuery, session: Option<Session>, feeds: seq<FeedView>, told: seq<Headline>)
    requires KnownId(feeds, told).Some?
    requires forall h :: h in told ==> KnownListing(screen, now, q.login, session)(h)
    ensures
      var user := KnownId(feeds, told).value;
      var found := q.(userId := user, login := KnownLogin(feeds, told, user, q.login));
      && (forall h :: h in Filter(told, UserHeadlines(screen, found, session)) ==>
           (h.publisherId == Some(user) || h.publisherId.None?) && NamedBy(q.filter, h.name) && q.reel(h))
      && (forall h :: h in told && h.publisherId == Some(user) && NamedBy(q.filter, h.name) && q.reel(h) ==>
           h in Filter(told, UserHeadlines(screen, found, session)))
  {
    var user := KnownId(feeds, told).value;
    var found := q.(userId := user, login := KnownLogin(feeds, told, user, q.login));
    forall h | h in told
      ensures UserHeadlines(screen, found, session)(h) ==>
        (h.publisherId == Some(user) || h.publisherId.None?) && NamedBy(q.filter, h.name) && q.reel(h)
      ensures h.publisherId == Some(user) && NamedBy(q.filter, h.name) && q.reel(h) ==> UserHeadlines(screen, found, session)(h)
    {
      UserListed(screen, now, found, session, h);
    }
  }
}
