/** A verified publish request at the edge: the access policy it is granted, the feed it
    registers, and the capsules it pushes one by one until one is refused. */
module EdgePublish {
  import opened Prelude
  import opened Proto
  import opened Runs
  import opened Policy
  import opened Snapshot

  /** A capsule with the outcomes of the checks made on it. */
  datatype Upload = Upload(
    feedId: FeedId, createdAt: int, headline: string, deck: string, score: nat, publisherLogin: string,
    compatible: bool, signed: bool, redacted: bool, publisherId: Option<UserId>, publisherVerified: bool)

  datatype Reason =
    | WrongNetwork | Outdated | Denied(refusal: Refusal) | WrongPublisher | TooMany
    | UnsignedCapsule | NotRedacted | NoPublisher

  datatype Outcome = Accepted(count: nat) | Refused(reason: Reason)

  datatype Batch = Batch(session: Session, granted: Granted, name: string, clock: nat -> Clock)

  datatype Result = Result(store: Store, outcome: Outcome)

  function UploadError(session: Session, upload: Upload): Option<Reason> {
    if !upload.compatible then Some(Outdated)
    else if !upload.signed then Some(UnsignedCapsule)
    else if !upload.redacted then Some(NotRedacted)
    else if upload.publisherId.None? then Some(NoPublisher)
    else if upload.publisherId != Some(session.userId) || !upload.publisherVerified then Some(WrongPublisher)
    else None
  }

  function HeadlineOf(batch: Batch, upload: Upload): Headline {
    Headline(upload.feedId, batch.name, batch.granted.visibility.Label(), batch.granted.access, Some(upload.createdAt),
             upload.publisherId, upload.publisherLogin, upload.headline, upload.deck, upload.score)
  }

  /** The store after the first `k` uploads, each pushed in turn. */
  function PushedUpTo(s: Store, batch: Batch, uploads: seq<Upload>, k: nat): (r: (Store, nat))
    requires k <= |uploads|
  {
    if k == 0 then (s, 0)
    else
      var past := PushedUpTo(s, batch, uploads, k - 1);
      var pushed := Push(past.0, batch.clock(k - 1), HeadlineOf(batch, uploads[k - 1]));
      (pushed.store, past.1 + if pushed.accepted then 1 else 0)
  }

  /** Index of the first upload that is refused, or the length. */
  function FirstRefused(session: Session, uploads: seq<Upload>): (k: nat)
    ensures k <= |uploads|
    ensures forall j :: 0 <= j < k ==> UploadError(session, uploads[j]).None?
    ensures k < |uploads| ==> UploadError(session, uploads[k]).Some?
  {
    if uploads == [] || UploadError(session, uploads[0]).Some? then 0
    else 1 + FirstRefused(session, uploads[1..])
  }

  /** A refused upload ends the request; the uploads before it stay in the store. */
  function PublishUploads(s: Store, batch: Batch, uploads: seq<Upload>): Result {
    var k := FirstRefused(batch.session, uploads);
    var pushed := PushedUpTo(s, batch, uploads, k);
    Result(pushed.0, if k < |uploads| then Refused(UploadError(batch.session, uploads[k]).value) else Accepted(pushed.1))
  }

  lemma FirstRefusedAt(session: Session, uploads: seq<Upload>, i: nat)
    requires i <= |uploads| && forall j :: 0 <= j < i ==> UploadError(session, uploads[j]).None?
    requires i < |uploads| ==> UploadError(session, uploads[i]).Some?
    ensures FirstRefused(session, uploads) == i
  {
  }

  lemma PushedOneMore(s: Store, batch: Batch, uploads: seq<Upload>, i: nat, before: Store, accepted: nat)
    requires i < |uploads| && (before, accepted) == PushedUpTo(s, batch, uploads, i)
    ensures
      var pushed := Push(before, batch.clock(i), HeadlineOf(batch, uploads[i]));
      PushedUpTo(s, batch, uploads, i + 1) == (pushed.store, accepted + if pushed.accepted then 1 else 0)
  {
  }

  method PublishCapsules(store: SnapshotStore, batch: Batch, uploads: seq<Upload>) returns (outcome: Outcome)
    modifies store
    ensures Result(store.View(), outcome) == PublishUploads(old(store.View()), batch, uploads)
  {
    var accepted, i := 0, 0;
    while i < |uploads|
      invariant 0 <= i <= |uploads|
      invariant forall j :: 0 <= j < i ==> UploadError(batch.session, uploads[j]).None?
      invariant (store.View(), accepted) == PushedUpTo(old(store.View()), batch, uploads, i)
    {
      var error := UploadError(batch.session, uploads[i]);
      if error.Some? {
        FirstRefusedAt(batch.session, uploads, i);
        return Refused(error.value);
      }
      ghost var before := store.View();
      var added := store.PushHeadline(batch.clock(i), HeadlineOf(batch, uploads[i]));
      PushedOneMore(old(store.View()), batch, uploads, i, before, accepted);
      if added {
        accepted := accepted + 1;
      }
      i := i + 1;
    }
    FirstRefusedAt(batch.session, uploads, i);
    return Accepted(accepted);
  }

  // ---- the whole request ----

  datatype Publisher = Publisher(id: Option<UserId>, login: string, verified: bool)

  datatype PublishRequest = PublishRequest(
    sameNetwork: bool, compatible: bool, policy: Request, feedId: FeedId, name: string,
    publisher: Option<Publisher>, uploads: seq<Upload>)

  /** Clock readings: for the feed's last-seen time, for its registration, for each capsule. */
  datatype Clocks = Clocks(seenAt: int, registerAt: int, capsule: nat -> Clock)

  function FeedOf(request: PublishRequest, granted: Granted, publisher: Publisher, seenAt: int): FeedView {
    FeedView(request.feedId, request.name, granted.visibility.Label(), granted.access, publisher.id, publisher.login, seenAt)
  }

  predicate Speaks(session: Session, publisher: Publisher) {
    publisher.id == Some(session.userId) && publisher.verified
  }

  function Register(s: Store, request: PublishRequest, granted: Granted, clocks: Clocks): Store {
    if request.publisher.None? then s
    else UpsertFeed(s, clocks.registerAt, FeedOf(request, granted, request.publisher.value, clocks.seenAt))
  }

  function NetworkPublish(s: Store, session: Session, request: PublishRequest, clocks: Clocks): Result {
    var policy := PublishPolicy(request.policy, session);
    if !request.sameNetwork then Result(s, Refused(WrongNetwork))
    else if !request.compatible then Result(s, Refused(Outdated))
    else if policy.Err? then Result(s, Refused(Denied(policy.error)))
    else if request.publisher.Some? && !Speaks(session, request.publisher.value) then Result(s, Refused(WrongPublisher))
    else
      var registered := Register(s, request, policy.value, clocks);
      if |request.uploads| > MAX_PUBLISH then Result(registered, Refused(TooMany))
      else PublishUploads(registered, Batch(session, policy.value, request.name, clocks.capsule), request.uploads)
  }

  method NetworkPublishVerified(store: SnapshotStore, session: Session, request: PublishRequest, clocks: Clocks)
      returns (outcome: Outcome)
    modifies store
    ensures Result(store.View(), outcome) == NetworkPublish(old(store.View()), session, request, clocks)
  {
    if !request.sameNetwork {
      return Refused(WrongNetwork);
    }
    if !request.compatible {
      return Refused(Outdated);
    }
    var policy := PublishPolicy(request.policy, session);
    if policy.Err? {
      return Refused(Denied(policy.error));
    }
    if request.publisher.Some? {
      if !Speaks(session, request.publisher.value) {
        return Refused(WrongPublisher);
      }
      store.Upsert(clocks.registerAt, FeedOf(request, policy.value, request.publisher.value, clocks.seenAt));
    }
    if |request.uploads| > MAX_PUBLISH {
      return Refused(TooMany);
    }
    outcome := PublishCapsules(store, Batch(session, policy.value, request.name, clocks.capsule), request.uploads);
  }

  // ---- what a request can leave in the store ----

  predicate Readable(session: Session, visibility: string, access: AccessPolicy) {
    SessionCanAccess(Some(session), visibility, access)
  }

  /** Every record of the new store was there before or is readable by the session. */
  ghost predicate OnlyAddsReadable(before: Store, after: Store, session: Session) {
    && (forall feed :: feed in after.feeds ==> feed in before.feeds || Readable(session, feed.visibility, feed.access))
    && (forall h :: h in after.headlines ==> h in before.headlines || Readable(session, h.visibility, h.access))
  }

  lemma UpsertAddsReadable(s: Store, now: int, feed: FeedView, session: Session)
    requires Readable(session, feed.visibility, feed.access) && Snapshot.DistinctFeeds(s.feeds)
    ensures OnlyAddsReadable(s, UpsertFeed(s, now, feed), session)
    ensures Snapshot.DistinctFeeds(UpsertFeed(s, now, feed).feeds)
  {
    FilterKeepsPairs(s.feeds, FreshFeeds(now), (a: FeedView, b: FeedView) => a.feedId != b.feedId);
    UpsertKeepsDistinct(Filter(s.feeds, FreshFeeds(now)), feed);
    UpsertKeepsWellFormed(s.feeds, now, feed);
  }

  lemma PushAddsReadable(s: Store, clock: Clock, h: Headline, session: Session)
    requires Readable(session, h.visibility, h.access) && Snapshot.DistinctFeeds(s.feeds)
    ensures OnlyAddsReadable(s, Push(s, clock, h).store, session)
    ensures Snapshot.DistinctFeeds(Push(s, clock, h).store.feeds)
  {
    UpsertAddsReadable(s, clock.upsertNow, ViewOf(h, clock.seenAt), session);
  }

  lemma {:induction false} UploadsAddReadable(s: Store, batch: Batch, uploads: seq<Upload>, k: nat)
    requires k <= |uploads|
    requires Readable(batch.session, batch.granted.visibility.Label(), batch.granted.access)
    requires Snapshot.DistinctFeeds(s.feeds)
    ensures OnlyAddsReadable(s, PushedUpTo(s, batch, uploads, k).0, batch.session)
    ensures Snapshot.DistinctFeeds(PushedUpTo(s, batch, uploads, k).0.feeds)
  {
    if k > 0 {
      UploadsAddReadable(s, batch, uploads, k - 1);
      PushAddsReadable(PushedUpTo(s, batch, uploads, k - 1).0, batch.clock(k - 1), HeadlineOf(batch, uploads[k - 1]), batch.session);
    }
  }

  /** Whatever a publish request leaves in the store, accepted in full or refused part-way,
      was there before or is readable under the policy by the session that published it. */
  lemma PublishedRecordsAreReadable(s: Store, session: Session, request: PublishRequest, clocks: Clocks)
    requires WellFormed(s)
    ensures OnlyAddsReadable(s, NetworkPublish(s, session, request, clocks).store, session)
  {
    if PublishPolicy(request.policy, session).Ok? {
      PublishedIsReadable(request.policy, session);
      var granted := PublishPolicy(request.policy, session).value;
      if request.publisher.Some? {
        UpsertAddsReadable(s, clocks.registerAt, FeedOf(request, granted, request.publisher.value, clocks.seenAt), session);
      }
      UploadsAddReadable(Register(s, request, granted, clocks), Batch(session, granted, request.name, clocks.capsule),
        request.uploads, FirstRefused(session, request.uploads));
    }
  }

  // ---- every run of requests ----

  /** The pushes of the first `k` uploads. */
  function PushActs(batch: Batch, uploads: seq<Upload>, k: nat): seq<Act>
    requires k <= |uploads|
  {
    if k == 0 then []
    else PushActs(batch, uploads, k - 1) + [Pushes(batch.clock(k - 1), HeadlineOf(batch, uploads[k - 1]))]
  }

  lemma {:induction false} PushesAreActs(s: Store, batch: Batch, uploads: seq<Upload>, k: nat)
    requires k <= |uploads|
    ensures PushedUpTo(s, batch, uploads, k).0 == Run(Acting(), s, PushActs(batch, uploads, k))
  {
    if k > 0 {
      PushesAreActs(s, batch, uploads, k - 1);
      RunLast(Acting(), s, PushActs(batch, uploads, k - 1), Pushes(batch.clock(k - 1), HeadlineOf(batch, uploads[k - 1])));
    }
  }

  /** The updates of the store that a request leads to. */
  function RequestActs(session: Session, request: PublishRequest, clocks: Clocks): seq<Act> {
    var policy := PublishPolicy(request.policy, session);
    if !request.sameNetwork || !request.compatible || policy.Err? then []
    else if request.publisher.Some? && !Speaks(session, request.publisher.value) then []
    else
      RegisterActs(request, policy.value, clocks) +
      if |request.uploads| > MAX_PUBLISH then []
      else PushActs(Batch(session, policy.value, request.name, clocks.capsule), request.uploads, FirstRefused(session, request.uploads))
  }

  function RegisterActs(request: PublishRequest, granted: Granted, clocks: Clocks): seq<Act> {
    if request.publisher.None? then []
    else [Upserts(clocks.registerAt, FeedOf(request, granted, request.publisher.value, clocks.seenAt))]
  }

  lemma RegisterIsActs(s: Store, request: PublishRequest, granted: Granted, clocks: Clocks)
    ensures Register(s, request, granted, clocks) == Run(Acting(), s, RegisterActs(request, granted, clocks))
  {
    if request.publisher.Some? {
      var act := Upserts(clocks.registerAt, FeedOf(request, granted, request.publisher.value, clocks.seenAt));
      RunLast(Acting(), s, [], act);
      assert [] + [act] == [act];
    }
  }

  /** A request moves the store as its updates do, one by one. */
  lemma RequestIsActs(s: Store, session: Session, request: PublishRequest, clocks: Clocks)
    ensures NetworkPublish(s, session, request, clocks).store == Run(Acting(), s, RequestActs(session, request, clocks))
  {
    if PublishPolicy(request.policy, session).Ok? {
      var granted := PublishPolicy(request.policy, session).value;
      var batch := Batch(session, granted, request.name, clocks.capsule);
      var k := FirstRefused(session, request.uploads);
      RegisterIsActs(s, request, granted, clocks);
      PushesAreActs(Register(s, request, granted, clocks), batch, request.uploads, k);
      RunAppend(Acting(), s, RegisterActs(request, granted, clocks), PushActs(batch, request.uploads, k));
      RunAppend(Acting(), s, RegisterActs(request, granted, clocks), []);
    }
  }

  /** One request, by whom, and the clock readings it meets. */
  datatype Call = Call(session: Session, request: PublishRequest, clocks: Clocks)

  function Serving(): (Store, Call) -> Store {
    (s: Store, call: Call) => NetworkPublish(s, call.session, call.request, call.clocks).store
  }

  ghost function ServedStore(calls: seq<Call>): Store {
    Run(Serving(), EMPTY, calls)
  }

  function CallActs(): Call -> seq<Act> {
    (call: Call) => RequestActs(call.session, call.request, call.clocks)
  }

  /** A run of publish requests, by any sessions and whatever is refused, is a run of updates
      of the store: all that is proved of those runs holds of it. */
  lemma {:induction false} ServedStoreIsUpdated(calls: seq<Call>)
    ensures ServedStore(calls) == StoreAfter(Collect(calls, CallActs()))
  {
    if calls != [] {
      var past, call := calls[..|calls| - 1], calls[|calls| - 1];
      ServedStoreIsUpdated(past);
      RequestIsActs(ServedStore(past), call.session, call.request, call.clocks);
      RunAppend(Acting(), EMPTY, Collect(past, CallActs()), CallActs()(call));
    }
  }

  /** After any requests, by any sessions, feeds are listed once, no story is held twice, and
      both buffers keep their bounds. In particular a story that is sent again, because the
      request that brought it was refused part-way, is not listed again. */
  lemma ServedStoreIsWellFormed(calls: seq<Call>)
    ensures WellFormed(ServedStore(calls))
  {
    ServedStoreIsUpdated(calls);
    StoreIsWellFormed(Collect(calls, CallActs()));
  }
}
