/** Access at the edge: the one policy a session is checked against when it reads, the
    separate rules of organisation routes, and the policy a publish request is given. */
module Policy {
  import opened Prelude
  import opened Proto
  import opened Text
  import opened Routes

  datatype Session = Session(userId: UserId, scopes: set<string>, orgs: set<string>, teams: set<string>)
  {
    predicate PermitsOrg(org: string) {
      ToLower(org) in orgs
    }

    predicate PermitsTeam(org: string, team: string) {
      ToLower(org) + "/" + ToLower(team) in teams
    }

    predicate HasScope(scope: string) {
      scope in scopes
    }
  }

  function ToLower(s: string): (r: string)
    ensures |r| == |s|
    ensures forall k :: 0 <= k < |s| ==> r[k] == LowerChar(s[k])
  {
    seq(|s|, k requires 0 <= k < |s| => LowerChar(s[k]))
  }

  /** The policy every session-based read is checked against. */
  predicate SessionCanAccess(session: Option<Session>, visibility: string, access: AccessPolicy) {
    if visibility == "public" then true
    else if session.None? then false
    else if visibility == "github_user" then session.value.userId in access.users
    else if visibility == "github_org" then access.org.Some? && session.value.PermitsOrg(access.org.value)
    else if visibility == "github_team" then
      access.org.Some? && access.team.Some? && session.value.PermitsTeam(access.org.value, access.team.value)
    else false
  }

  /** What an organisation or team route shows. */
  predicate OrgRouteShows(access: AccessPolicy, visibility: string, org: string, team: Option<string>) {
    if visibility == "github_org" then access.PermitsOrg(org)
    else if visibility == "github_team" && team.Some? then access.PermitsTeam(org, team.value)
    else false
  }

  /** The checks an organisation or team route makes before it reads anything. */
  predicate OrgRouteAdmits(session: Session, org: string, team: Option<string>) {
    && session.HasScope("read:org")
    && session.PermitsOrg(org)
    && (team.Some? ==> session.PermitsTeam(org, team.value))
  }

  /** After those checks, whatever the route shows the session may see under the policy. */
  lemma OrgRouteWithinPolicy(session: Session, org: string, team: Option<string>, access: AccessPolicy, visibility: string)
    requires OrgRouteAdmits(session, org, team)
    requires OrgRouteShows(access, visibility, org, team)
    ensures SessionCanAccess(Some(session), visibility, access)
  {
  }

  /** What an organisation or team route leaves to other routes: records for everybody, for
      single users, of other organisations, and of teams it does not name. */
  predicate OutsideOrgRoute(access: AccessPolicy, visibility: string, org: string, team: Option<string>) {
    || visibility == "public"
    || visibility == "github_user"
    || !access.PermitsOrg(org)
    || (visibility == "github_team" && access.team != team)
  }

  /** After the checks the route shows exactly what the session may see and no other route is
      for. */
  lemma OrgRouteOmission(session: Session, org: string, team: Option<string>, access: AccessPolicy, visibility: string)
    requires OrgRouteAdmits(session, org, team)
    ensures OrgRouteShows(access, visibility, org, team) <==>
      SessionCanAccess(Some(session), visibility, access) && !OutsideOrgRoute(access, visibility, org, team)
  {
  }

  // ---- the policy of a publish request ----

  datatype Refusal = MissingScope | MissingOrg | MissingTeam | BadOrg | BadTeam | NotMember | Unsupported

  datatype Request = Request(visibility: Option<Visibility>, org: Option<string>, team: Option<string>)

  datatype Granted = Granted(visibility: Visibility, access: AccessPolicy)

  predicate ValidTeamSlug(s: string) {
    && 0 < |s| <= 100
    && forall k :: 0 <= k < |s| ==> Alphanumeric(s[k]) || s[k] == '-' || s[k] == '_'
  }

  function ParseOrg(s: string): Option<string> {
    var org := TrimStartOf(Trim(s), '@');
    if ValidLogin(org) then Some(ToLower(org)) else None
  }

  function ParseTeam(s: string): Option<string> {
    var team := Trim(s);
    if ValidTeamSlug(team) then Some(ToLower(team)) else None
  }

  predicate Blank(s: Option<string>) {
    s.None? || Trim(s.value) == ""
  }

  function OrgPolicy(request: Request, session: Session): Result<Granted, Refusal> {
    if !session.HasScope("read:org") then Err(MissingScope)
    else if Blank(request.org) then Err(MissingOrg)
    else if ParseOrg(Trim(request.org.value)).None? then Err(BadOrg)
    else
      var org := ParseOrg(Trim(request.org.value)).value;
      if !session.PermitsOrg(org) then Err(NotMember)
      else Ok(Granted(GithubOrg, AccessPolicy(Some(org), None, [])))
  }

  function TeamPolicy(request: Request, session: Session): Result<Granted, Refusal> {
    if !session.HasScope("read:org") then Err(MissingScope)
    else if Blank(request.org) then Err(MissingOrg)
    else if Blank(request.team) then Err(MissingTeam)
    else GrantTeam(session, ParseOrg(Trim(request.org.value)), ParseTeam(Trim(request.team.value)))
  }

  function GrantTeam(session: Session, org: Option<string>, team: Option<string>): Result<Granted, Refusal> {
    if org.None? then Err(BadOrg)
    else if team.None? then Err(BadTeam)
    else if !session.PermitsTeam(org.value, team.value) then Err(NotMember)
    else Ok(Granted(GithubTeam, AccessPolicy(org, team, [])))
  }

  function PublishPolicy(request: Request, session: Session): Result<Granted, Refusal> {
    match if request.visibility.Some? then request.visibility.value else Public
    case Public => Ok(Granted(Public, AccessPolicy(None, None, [])))
    case GithubOrg => OrgPolicy(request, session)
    case GithubTeam => TeamPolicy(request, session)
    case _ => Err(Unsupported)
  }

  /** Whatever a session is granted to publish under, the same session may read, and the
      access policy fits the visibility. */
  lemma PublishedIsReadable(request: Request, session: Session)
    requires PublishPolicy(request, session).Ok?
    ensures
      var granted := PublishPolicy(request, session).value;
      && SessionCanAccess(Some(session), granted.visibility.Label(), granted.access)
      && granted.access.Fits(granted.visibility)
  {
    var granted := PublishPolicy(request, session).value;
    LabelsAreDistinct(granted.visibility);
    if OrgPolicy(request, session) == Ok(granted) {
      OrgGrant(request, session);
    } else if TeamPolicy(request, session) == Ok(granted) {
      TeamGrant(request, session);
    }
  }

  lemma OrgGrant(request: Request, session: Session)
    requires OrgPolicy(request, session).Ok?
    ensures
      var granted := OrgPolicy(request, session).value;
      && granted.visibility == GithubOrg && granted.access.Fits(GithubOrg) && session.PermitsOrg(granted.access.org.value)
  {
  }

  lemma TeamGrant(request: Request, session: Session)
    requires TeamPolicy(request, session).Ok?
    ensures
      var granted := TeamPolicy(request, session).value;
      && granted.visibility == GithubTeam && granted.access.Fits(GithubTeam)
      && session.PermitsTeam(granted.access.org.value, granted.access.team.value)
  {
    var org, team := ParseOrg(Trim(request.org.value)), ParseTeam(Trim(request.team.value));
    assert TeamPolicy(request, session) == GrantTeam(session, org, team);
    TeamGranted(session, org, team);
  }

  lemma TeamGranted(session: Session, org: Option<string>, team: Option<string>)
    requires GrantTeam(session, org, team).Ok?
    ensures
      var granted := GrantTeam(session, org, team).value;
      && granted.visibility == GithubTeam && granted.access.Fits(GithubTeam)
      && session.PermitsTeam(granted.access.org.value, granted.access.team.value)
  {
  }

  lemma LabelsAreDistinct(visibility: Visibility)
    ensures visibility.Label() == "public" <==> visibility == Public
    ensures visibility.Label() == "github_user" <==> visibility == GithubUser
    ensures visibility.Label() == "github_org" <==> visibility == GithubOrg
    ensures visibility.Label() == "github_team" <==> visibility == GithubTeam
  {
  }
}
