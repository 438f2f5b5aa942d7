/** The wire-level values the feed network exchanges: compatibility metadata, feed
    visibility, access policies, feed profiles, directory records and story capsules.
    Signatures, digests and text similarity stay uninterpreted: they are fields of an
    `Oracle`, so every result holds for all of them. */
module Proto {
  import opened Prelude

  type FeedId = string
  type PeerId = string
  type NetworkId = string
  type UserId = nat

  /** Remote compatibility metadata; the release version plays no part in the check. */
  datatype Compatibility = Compatibility(product: string, protocolVersion: nat, modelVersion: nat, minModelVersion: nat)
  {
    predicate Accepts(remote: Compatibility) {
      && product == remote.product
      && protocolVersion == remote.protocolVersion
      && modelVersion >= remote.minModelVersion
      && remote.modelVersion >= minModelVersion
    }
  }

  const CURRENT := Compatibility("feed", 1, 3, 3)

  predicate IsCompatible(remote: Compatibility) {
    CURRENT.Accepts(remote)
  }

  datatype Visibility = Private | GithubUser | GithubOrg | GithubTeam | GithubRepo | Public
  {
    function Label(): string {
      match this
      case Private => "private"
      case GithubUser => "github_user"
      case GithubOrg => "github_org"
      case GithubTeam => "github_team"
      case GithubRepo => "github_repo"
      case Public => "public"
    }
  }

  datatype AccessPolicy = AccessPolicy(org: Option<string>, team: Option<string>, users: seq<UserId>)
  {
    predicate PermitsOrg(wanted: string) {
      org == Some(wanted)
    }

    predicate PermitsTeam(wantedOrg: string, wantedTeam: string) {
      org == Some(wantedOrg) && team == Some(wantedTeam)
    }

    /** An organisation record names an organisation and no team; a team record names both. */
    predicate Fits(visibility: Visibility) {
      match visibility
      case GithubOrg => org.Some? && team.None?
      case GithubTeam => org.Some? && team.Some?
      case _ => true
    }
  }

  datatype Profile = Profile(feedId: FeedId, networkId: NetworkId, peerId: PeerId, visibility: Visibility, compatibility: Compatibility)

  datatype Owner = Owner(userId: UserId, login: string)

  datatype Stream = Stream(
    name: string, agentKinds: set<string>, storyKinds: set<string>, visibility: Visibility, access: AccessPolicy,
    storyOnly: bool, settledOnly: bool, rawEvents: bool)

  datatype Entry = Entry(
    feedId: FeedId, networkId: NetworkId, compatibility: Compatibility, owner: Owner, peerId: PeerId,
    feedLabel: string, visibility: Visibility, access: AccessPolicy, streams: seq<Stream>,
    lastSeenAt: int, expiresAt: int, sequence: nat, signature: string)
  {
    predicate AccessMatchesVisibility() {
      && access.Fits(visibility)
      && forall k :: 0 <= k < |streams| ==>
        streams[k].visibility == visibility && streams[k].access.Fits(streams[k].visibility)
    }
  }

  datatype Capsule = Capsule(
    capsuleId: string, feedId: FeedId, compatibility: Compatibility, seqNo: nat,
    headline: string, deck: string, kind: string, score: nat, signature: string)

  /** Outcome of a signature check: serialisation itself may fail before the comparison. */
  datatype Verdict = Authentic | Forged | Unserialisable

  datatype Oracle = Oracle(
    similarity: (string, string) -> nat,
    checkCapsule: Capsule -> Verdict,
    checkEntry: Entry -> Verdict,
    feedTopic: (NetworkId, FeedId) -> string)

  datatype DirectoryError =
    | ProtoFailure
    | BadSignature
    | ExpiredRecord
    | ReplayedSequence
    | GithubIdMismatch
    | AccessPolicyMismatch
    | Incompatible
    | NetworkMismatch(expected: NetworkId, actual: NetworkId)

  /** The checks every directory record passes before it is stored or indexed, in order. */
  function EntryError(oracle: Oracle, entry: Entry): Option<DirectoryError> {
    if !IsCompatible(entry.compatibility) then Some(Incompatible)
    else if oracle.checkEntry(entry).Unserialisable? then Some(ProtoFailure)
    else if oracle.checkEntry(entry).Forged? then Some(BadSignature)
    else if !entry.AccessMatchesVisibility() then Some(AccessPolicyMismatch)
    else None
  }
}
