/** What the edge stores, exactly: which pushes and publish requests are taken, what is refused
    and why, and what they leave, told by the fields of the request and the clock. */
module EdgeUpdates {
  import opened Prelude
  import opened Proto
  import opened Text
  import opened Routes
  import opened Policy
  import opened Snapshot
  import opened EdgeReads
  import opened EdgeListing
  import opened EdgeErasure
  import Edge = EdgePublish

  // ---- one update of the store ----

  predicate SameTelling(a: Headline, b: Headline) {
    a.feedId == b.feedId && a.headline == b.headline && a.deck == b.deck
  }

  function TellingAt(now: int): Headline -> bool {
    (h: Headline) => StillTold(h, now)
  }

  function SeeingAt(now: int): FeedView -> bool {
    (feed: FeedView) => StillSeen(feed, now)
  }

  lemma FreshExactly(s: Store, now: int)
    ensures Filter(s.headlines, FreshHeadlines(now)) == Filter(s.headlines, TellingAt(now))
    ensures Filter(s.feeds, FreshFeeds(now)) == Filter(s.feeds, SeeingAt(now))
  {
    FilterSame(s.headlines, FreshHeadlines(now), TellingAt(now));
    FilterSame(s.feeds, FreshFeeds(now), SeeingAt(now));
  }

  predicate ToldAlready(kept: seq<Headline>, h: Headline) {
    exists k :: 0 <= k < |kept| && SameTelling(kept[k], h)
  }

  /** A push takes a headline that is still told, unless a stored one that is still told has the
      same feed, headline and deck; the last 48 stay. A refused push of a fresh headline still
      prunes; a stale one touches nothing. */
  lemma PushedExactly(s: Store, clock: Clock, h: Headline)
    ensures
      var kept := Filter(s.headlines, TellingAt(clock.now));
      var pushed := Push(s, clock, h);
      && (pushed.accepted <==> StillTold(h, clock.now) && !ToldAlready(kept, h))
      && pushed.store.headlines ==
         (if !StillTold(h, clock.now) then s.headlines else if ToldAlready(kept, h) then kept else LastN(kept + [h], 48))
      && (!StillTold(h, clock.now) ==> pushed.store.feeds == s.feeds)
  {
    FreshExactly(s, clock.now);
    var kept := Filter(s.headlines, TellingAt(clock.now));
    assert Repeats(s.headlines, clock.now, h) <==> ToldAlready(kept, h);
  }

  /** An upsert prunes what is no longer seen, then replaces the feed of that id where it
      stands, or appends; the last 48 stay. */
  lemma UpsertedExactly(s: Store, now: int, feed: FeedView)
    requires WellFormed(s)
    ensures
      var kept := Filter(s.feeds, SeeingAt(now));
      var after := UpsertFeed(s, now, feed).feeds;
      && (forall k :: 0 <= k < |kept| && kept[k].feedId == feed.feedId ==> after == kept[k := feed])
      && ((forall k :: 0 <= k < |kept| ==> kept[k].feedId != feed.feedId) ==> after == LastN(kept + [feed], 48))
      && UpsertFeed(s, now, feed).headlines == s.headlines
  {
    FreshExactly(s, now);
    var kept := Filter(s.feeds, SeeingAt(now));
    FilteredStaysDistinct(s.feeds, FreshFeeds(now));
    forall k | 0 <= k < |kept| && kept[k].feedId == feed.feedId
      ensures UpsertView(kept, feed) == kept[k := feed]
    {
      UpsertedInPlace(kept, feed, k);
    }
    if forall k :: 0 <= k < |kept| ==> kept[k].feedId != feed.feedId {
      UpsertNew(kept, feed);
    }
  }

  lemma UpsertedInPlace(kept: seq<FeedView>, feed: FeedView, k: nat)
    requires DistinctFeeds(kept) && k < |kept| && kept[k].feedId == feed.feedId
    ensures UpsertView(kept, feed) == kept[k := feed]
  {
    var before, after := kept[..k], kept[k + 1..];
    AtPlace(kept, k);
    UpsertAt(before, kept[k], after, feed);
    assert before + [feed] + after == kept[k := feed];
  }

  /** A push of a fresh headline registers its feed under the headline's own name, visibility,
      access and publisher. */
  lemma PushedFeed(s: Store, clock: Clock, h: Headline)
    requires StillTold(h, clock.now)
    ensures Push(s, clock, h).store.feeds ==
      UpsertFeed(s, clock.upsertNow,
        FeedView(h.feedId, h.name, h.visibility, h.access, h.publisherId, h.publisherLogin, clock.seenAt)).feeds
  {
  }

  // ---- the policy of a request ----

  /** An organisation's login behind at-signs and whitespace, in lower case. */
  predicate NamesOrg(text: Option<string>, org: string) {
    text.Some? && Trim(text.value) != "" && ParseLogin(Trim(text.value)).Ok? && ToLower(ParseLogin(Trim(text.value)).value) == org
  }

  predicate SlugChar(c: char) {
    '0' <= c <= '9' || 'A' <= c <= 'Z' || 'a' <= c <= 'z' || c == '-' || c == '_'
  }

  /** At most 100 letters, digits, dashes and underscores. */
  predicate IsSlug(s: string) {
    0 < |s| <= 100 && forall k :: 0 <= k < |s| ==> SlugChar(s[k])
  }

  /** A team's slug, in lower case. */
  predicate NamesTeam(text: Option<string>, team: string) {
    text.Some? && IsSlug(Trim(text.value)) && ToLower(Trim(text.value)) == team
  }

  /** What a session may publish under: everybody publicly; with the organisation scope, an
      organisation or a team it belongs to; nothing else. */
  lemma PolicyGrantsExactly(request: Request, session: Session, granted: Granted)
    ensures
      PublishPolicy(request, session) == Ok(granted) <==>
      match if request.visibility.Some? then request.visibility.value else Public
      case Public => granted == Granted(Public, AccessPolicy(None, None, []))
      case GithubOrg =>
        && "read:org" in session.scopes
        && granted == Granted(GithubOrg, AccessPolicy(Some(OrgIn(granted.access)), None, []))
        && NamesOrg(request.org, OrgIn(granted.access)) && ToLower(OrgIn(granted.access)) in session.orgs
      case GithubTeam =>
        && "read:org" in session.scopes
        && granted == Granted(GithubTeam, AccessPolicy(Some(OrgIn(granted.access)), Some(TeamIn(granted.access)), []))
        && NamesOrg(request.org, OrgIn(granted.access)) && NamesTeam(request.team, TeamIn(granted.access))
        && ToLower(OrgIn(granted.access)) + "/" + ToLower(TeamIn(granted.access)) in session.teams
      case _ => false
  {
    match if request.visibility.Some? then request.visibility.value else Public
    case GithubOrg => OrgGrantedExactly(request, session, granted);
    case GithubTeam => TeamGrantedExactly(request, session, granted);
    case _ =>
  }

  lemma TrimmedTwice(s: string)
    ensures Trim(Trim(s)) == Trim(s)
  {
  }

  lemma OrgNamed(text: Option<string>, org: string)
    ensures !Blank(text) && ParseOrg(Trim(text.value)) == Some(org) <==> NamesOrg(text, org)
  {
    if text.Some? {
      TrimmedTwice(text.value);
    }
  }

  lemma SlugExactly(s: string)
    ensures ValidTeamSlug(s) <==> IsSlug(s)
  {
  }

  lemma TeamNamed(text: Option<string>, team: string)
    ensures !Blank(text) && ParseTeam(Trim(text.value)) == Some(team) <==> NamesTeam(text, team)
  {
    if text.Some? {
      TrimmedTwice(text.value);
      SlugExactly(Trim(text.value));
    }
  }

  /** The organisation and the team of an access policy, or "" where it has none. */
  function OrgIn(access: AccessPolicy): string {
    if access.org.Some? then access.org.value else ""
  }

  function TeamIn(access: AccessPolicy): string {
    if access.team.Some? then access.team.value else ""
  }

  lemma OrgGrantedExactly(request: Request, session: Session, granted: Granted)
    ensures
      OrgPolicy(request, session) == Ok(granted) <==>
      && "read:org" in session.scopes
      && granted == Granted(GithubOrg, AccessPolicy(Some(OrgIn(granted.access)), None, []))
      && NamesOrg(request.org, OrgIn(granted.access)) && ToLower(OrgIn(granted.access)) in session.orgs
  {
    OrgNamed(request.org, OrgIn(granted.access));
  }

  /** A team's policy by the texts that are missing, or else by what they parse to. */
  lemma TeamWithBlank(request: Request, session: Session)
    requires Blank(request.org) || Blank(request.team)
    ensures
      TeamPolicy(request, session) ==
      Err(if !session.HasScope("read:org") then MissingScope else if Blank(request.org) then MissingOrg else MissingTeam)
  {
  }

  lemma TeamWithTexts(request: Request, session: Session, org: Option<string>, team: Option<string>)
    requires !Blank(request.org) && org == ParseOrg(Trim(request.org.value))
    requires !Blank(request.team) && team == ParseTeam(Trim(request.team.value))
    ensures TeamPolicy(request, session) == if !session.HasScope("read:org") then Err(MissingScope) else GrantTeam(session, org, team)
  {
  }

  lemma GrantTeamExactly(session: Session, org: Option<string>, team: Option<string>, granted: Granted)
    ensures
      GrantTeam(session, org, team) == Ok(granted) <==>
      && granted == Granted(GithubTeam, AccessPolicy(Some(OrgIn(granted.access)), Some(TeamIn(granted.access)), []))
      && org == Some(OrgIn(granted.access)) && team == Some(TeamIn(granted.access))
      && ToLower(OrgIn(granted.access)) + "/" + ToLower(TeamIn(granted.access)) in session.teams
  {
  }

  lemma TeamGrantedExactly(request: Request, session: Session, granted: Granted)
    ensures
      TeamPolicy(request, session) == Ok(granted) <==>
      && "read:org" in session.scopes
      && granted == Granted(GithubTeam, AccessPolicy(Some(OrgIn(granted.access)), Some(TeamIn(granted.access)), []))
      && NamesOrg(request.org, OrgIn(granted.access)) && NamesTeam(request.team, TeamIn(granted.access))
      && ToLower(OrgIn(granted.access)) + "/" + ToLower(TeamIn(granted.access)) in session.teams
  {
    OrgNamed(request.org, OrgIn(granted.access));
    TeamNamed(request.team, TeamIn(granted.access));
    if Blank(request.org) || Blank(request.team) {
      TeamWithBlank(request, session);
    } else {
      var org, team := ParseOrg(Trim(request.org.value)), ParseTeam(Trim(request.team.value));
      TeamWithTexts(request, session, org, team);
      GrantTeamExactly(session, org, team, granted);
    }
  }

  predicate IsBlank(text: Option<string>) {
    text.None? || Trim(text.value) == ""
  }

  ghost predicate NamesSomeOrg(text: Option<string>) {
    exists org :: NamesOrg(text, org)
  }

  ghost predicate NamesSomeTeam(text: Option<string>) {
    exists team :: NamesTeam(text, team)
  }

  /** Why a session may not publish under an organisation: the first of these, in order. */
  lemma OrgRefusedExactly(request: Request, session: Session)
    requires OrgPolicy(request, session).Err?
    ensures
      OrgPolicy(request, session).error ==
        if "read:org" !in session.scopes then MissingScope
        else if IsBlank(request.org) then MissingOrg
        else if !NamesSomeOrg(request.org) then BadOrg
        else NotMember
  {
    OrgIsNamed(request.org);
  }

  /** Why it may not publish under a team. */
  lemma TeamRefusedExactly(request: Request, session: Session)
    requires TeamPolicy(request, session).Err?
    ensures
      TeamPolicy(request, session).error ==
        if "read:org" !in session.scopes then MissingScope
        else if IsBlank(request.org) then MissingOrg
        else if IsBlank(request.team) then MissingTeam
        else if !NamesSomeOrg(request.org) then BadOrg
        else if !NamesSomeTeam(request.team) then BadTeam
        else NotMember
  {
    if Blank(request.org) || Blank(request.team) {
      TeamWithBlank(request, session);
    } else {
      var org, team := ParseOrg(Trim(request.org.value)), ParseTeam(Trim(request.team.value));
      TeamWithTexts(request, session, org, team);
      if session.HasScope("read:org") {
        GrantTeamRefused(session, org, team);
        OrgIsNamed(request.org);
        TeamIsNamed(request.team);
      }
    }
  }

  lemma GrantTeamRefused(session: Session, org: Option<string>, team: Option<string>)
    requires GrantTeam(session, org, team).Err?
    ensures GrantTeam(session, org, team).error == if org.None? then BadOrg else if team.None? then BadTeam else NotMember
  {
  }

  lemma OrgIsNamed(text: Option<string>)
    ensures NamesSomeOrg(text) <==> !Blank(text) && ParseOrg(Trim(text.value)).Some?
  {
    if !Blank(text) && ParseOrg(Trim(text.value)).Some? {
      OrgNamed(text, ParseOrg(Trim(text.value)).value);
    }
    forall org | NamesOrg(text, org)
      ensures !Blank(text) && ParseOrg(Trim(text.value)).Some?
    {
      OrgNamed(text, org);
    }
  }

  lemma TeamIsNamed(text: Option<string>)
    ensures NamesSomeTeam(text) <==> !Blank(text) && ParseTeam(Trim(text.value)).Some?
  {
    if !Blank(text) && ParseTeam(Trim(text.value)).Some? {
      TeamNamed(text, ParseTeam(Trim(text.value)).value);
    }
    forall team | NamesTeam(text, team)
      ensures !Blank(text) && ParseTeam(Trim(text.value)).Some?
    {
      TeamNamed(text, team);
    }
  }

  // ---- requests ----

  /** An upload that the edge takes: of a current protocol, signed, redacted, and published by
      the session's own verified user. */
  predicate Acceptable(session: Session, upload: Edge.Upload) {
    upload.compatible && upload.signed && upload.redacted && upload.publisherId == Some(session.userId) && upload.publisherVerified
  }

  lemma AcceptableExactly(session: Session, upload: Edge.Upload)
    ensures Edge.UploadError(session, upload).None? <==> Acceptable(session, upload)
    ensures Edge.UploadError(session, upload).Some? ==>
      Edge.UploadError(session, upload).value ==
        if !upload.compatible then Edge.Outdated
        else if !upload.signed then Edge.UnsignedCapsule
        else if !upload.redacted then Edge.NotRedacted
        else if upload.publisherId.None? then Edge.NoPublisher
        else Edge.WrongPublisher
  {
  }

  /** Everything a request is asked before its capsules. */
  predicate Entitled(session: Session, request: Edge.PublishRequest) {
    && request.sameNetwork && request.compatible && PublishPolicy(request.policy, session).Ok?
    && (request.publisher.Some? ==> request.publisher.value.id == Some(session.userId) && request.publisher.value.verified)
  }

  /** A request is accepted exactly when it is entitled, brings at most 16 capsules and all of
      them are acceptable; otherwise the first reason, in order, is the answer. */
  lemma RequestOutcome(s: Store, session: Session, request: Edge.PublishRequest, clocks: Edge.Clocks)
    ensures
      var outcome := Edge.NetworkPublish(s, session, request, clocks).outcome;
      && (outcome.Accepted? <==>
           && Entitled(session, request) && |request.uploads| <= 16
           && forall k :: 0 <= k < |request.uploads| ==> Acceptable(session, request.uploads[k]))
      && (outcome.Refused? ==>
           if !request.sameNetwork then outcome.reason == Edge.WrongNetwork
           else if !request.compatible then outcome.reason == Edge.Outdated
           else if PublishPolicy(request.policy, session).Err? then outcome.reason == Edge.Denied(PublishPolicy(request.policy, session).error)
           else if !Entitled(session, request) then outcome.reason == Edge.WrongPublisher
           else if |request.uploads| > 16 then outcome.reason == Edge.TooMany
           else (exists k :: 0 <= k < |request.uploads| && !Acceptable(session, request.uploads[k])
                   && (forall j :: 0 <= j < k ==> Acceptable(session, request.uploads[j]))
                   && Some(outcome.reason) == Edge.UploadError(session, request.uploads[k])))
  {
    var k := Edge.FirstRefused(session, request.uploads);
    forall j | 0 <= j < |request.uploads|
      ensures Edge.UploadError(session, request.uploads[j]).None? <==> Acceptable(session, request.uploads[j])
    {
      AcceptableExactly(session, request.uploads[j]);
    }
  }

  /** The headline an upload becomes: its own feed, words, time and publisher, the request's
      name, and the visibility and access that were granted. */
  predicate ComesFrom(h: Headline, upload: Edge.Upload, name: string, granted: Granted) {
    && h.feedId == upload.feedId && h.headline == upload.headline && h.deck == upload.deck && h.score == upload.score
    && h.createdAt == Some(upload.createdAt) && h.publisherId == upload.publisherId && h.publisherLogin == upload.publisherLogin
    && h.name == name && h.visibility == granted.visibility.Label() && h.access == granted.access
  }

  /** The uploads before position `n` brought the headline. */
  predicate Uploaded(uploads: seq<Edge.Upload>, n: nat, name: string, granted: Granted, h: Headline)
    requires n <= |uploads|
  {
    exists k :: 0 <= k < n && ComesFrom(h, uploads[k], name, granted)
  }

  lemma {:induction false} PushedHeadlinesComeFrom(s: Store, batch: Edge.Batch, uploads: seq<Edge.Upload>, n: nat, h: Headline)
    requires n <= |uploads|
    requires h in Edge.PushedUpTo(s, batch, uploads, n).0.headlines
    ensures h in s.headlines || Uploaded(uploads, n, batch.name, batch.granted, h)
  {
    if n > 0 {
      var past := Edge.PushedUpTo(s, batch, uploads, n - 1).0;
      var pushed := Edge.HeadlineOf(batch, uploads[n - 1]);
      PushedExactly(past, batch.clock(n - 1), pushed);
      if h == pushed {
        assert ComesFrom(h, uploads[n - 1], batch.name, batch.granted);
      } else {
        PushedHeadlinesComeFrom(s, batch, uploads, n - 1, h);
        if Uploaded(uploads, n - 1, batch.name, batch.granted, h) {
          var k :| 0 <= k < n - 1 && ComesFrom(h, uploads[k], batch.name, batch.granted);
        }
      }
    }
  }

  /** Every headline that a request adds is that of one of its uploads before the first that is
      not acceptable. */
  lemma NewHeadlinesComeFromUploads(s: Store, session: Session, request: Edge.PublishRequest, clocks: Edge.Clocks, h: Headline)
    requires h in Edge.NetworkPublish(s, session, request, clocks).store.headlines && h !in s.headlines
    ensures Entitled(session, request) && |request.uploads| <= 16
    ensures exists k :: (
      && 0 <= k < |request.uploads|
      && (forall j :: 0 <= j <= k ==> Acceptable(session, request.uploads[j]))
      && ComesFrom(h, request.uploads[k], request.name, PublishPolicy(request.policy, session).value))
  {
    var granted := PublishPolicy(request.policy, session).value;
    var registered := Edge.Register(s, request, granted, clocks);
    assert registered.headlines == s.headlines;
    var n := Edge.FirstRefused(session, request.uploads);
    var batch := Edge.Batch(session, granted, request.name, clocks.capsule);
    PushedHeadlinesComeFrom(registered, batch, request.uploads, n, h);
    var k :| 0 <= k < n && ComesFrom(h, request.uploads[k], request.name, granted);
    forall j | 0 <= j <= k
      ensures Acceptable(session, request.uploads[j])
    {
      AcceptableExactly(session, request.uploads[j]);
    }
  }

  /** The count of an accepted request: the uploads whose push was taken. */
  function TakenUpTo(s: Store, batch: Edge.Batch, uploads: seq<Edge.Upload>, n: nat): nat
    requires n <= |uploads|
  {
    if n == 0 then 0
    else
      var past := Edge.PushedUpTo(s, batch, uploads, n - 1).0;
      var h := Edge.HeadlineOf(batch, uploads[n - 1]);
      var now := batch.clock(n - 1).now;
      TakenUpTo(s, batch, uploads, n - 1) + if TakesPush(past, now, h) then 1 else 0
  }

  predicate TakesPush(s: Store, now: int, h: Headline) {
    StillTold(h, now) && !ToldAlready(Filter(s.headlines, TellingAt(now)), h)
  }

  lemma PushTaken(s: Store, clock: Clock, h: Headline)
    ensures Push(s, clock, h).accepted <==> TakesPush(s, clock.now, h)
  {
    PushedExactly(s, clock, h);
  }

  lemma {:induction false} CountIsTaken(s: Store, batch: Edge.Batch, uploads: seq<Edge.Upload>, n: nat)
    requires n <= |uploads|
    ensures Edge.PushedUpTo(s, batch, uploads, n).1 == TakenUpTo(s, batch, uploads, n)
  {
    if n > 0 {
      CountIsTaken(s, batch, uploads, n - 1);
      PushTaken(Edge.PushedUpTo(s, batch, uploads, n - 1).0, batch.clock(n - 1), Edge.HeadlineOf(batch, uploads[n - 1]));
    }
  }

  /** The feed that a request with a publisher registers. */
  lemma RegisteredExactly(s: Store, session: Session, request: Edge.PublishRequest, clocks: Edge.Clocks)
    requires Entitled(session, request) && request.uploads == []
    ensures
      var granted := PublishPolicy(request.policy, session).value;
      Edge.NetworkPublish(s, session, request, clocks).store ==
        if request.publisher.None? then s
        else UpsertFeed(s, clocks.registerAt,
               FeedView(request.feedId, request.name, granted.visibility.Label(), granted.access,
                        request.publisher.value.id, request.publisher.value.login, clocks.seenAt))
  {
  }

  /** The label a visibility is stored under. */
  lemma LabelsExactly(visibility: Visibility)
    ensures visibility.Label() ==
      if visibility.Public? then "public"
      else if visibility.GithubOrg? then "github_org"
      else if visibility.GithubTeam? then "github_team"
      else if visibility.GithubUser? then "github_user"
      else if visibility.GithubRepo? then "github_repo"
      else "private"
  {
  }
}
