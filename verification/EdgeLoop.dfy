/** The publisher loop against the edge itself: the edge's answers to presence, replays and
    batches are those of the publish endpoint on the store that earlier requests left, as far
    as requests and answers arrive. */
module EdgeLoop {
  import opened Prelude
  import opened Runs
  import opened Policy
  import opened Snapshot
  import Loop = Publisher
  import Edge = EdgePublish

  /** What stays the same from request to request, and how a signed summary becomes an upload. */
  datatype Setup = Setup(
    window: nat, session: Session, sameNetwork: bool, compatible: bool, policy: Request, feedId: string, name: string,
    publisher: Option<Edge.Publisher>, screen: Screen, upload: Loop.Signed -> Edge.Upload)

  function Uploads(setup: Setup, capsules: seq<Loop.Signed>): (uploads: seq<Edge.Upload>)
    ensures |uploads| == |capsules|
    ensures forall k :: 0 <= k < |capsules| ==> uploads[k] == setup.upload(capsules[k])
  {
    seq(|capsules|, k requires 0 <= k < |capsules| => setup.upload(capsules[k]))
  }

  function RequestFor(setup: Setup, capsules: seq<Loop.Signed>): Edge.PublishRequest {
    Edge.PublishRequest(setup.sameNetwork, setup.compatible, setup.policy, setup.feedId, setup.name, setup.publisher, Uploads(setup, capsules))
  }

  function Answer(setup: Setup, store: Store, capsules: seq<Loop.Signed>, clocks: Edge.Clocks): Edge.Result {
    Edge.NetworkPublish(store, setup.session, RequestFor(setup, capsules), clocks)
  }

  /** What the edge asks of a request, whatever it holds already. */
  predicate Welcome(setup: Setup) {
    && setup.sameNetwork && setup.compatible && PublishPolicy(setup.policy, setup.session).Ok?
    && (setup.publisher.Some? ==> Edge.Speaks(setup.session, setup.publisher.value))
  }

  predicate Takes(setup: Setup, capsules: seq<Loop.Signed>) {
    && Welcome(setup)
    && |capsules| <= MAX_PUBLISH
    && forall k :: 0 <= k < |capsules| ==> Edge.UploadError(setup.session, setup.upload(capsules[k])).None?
  }

  /** The edge's verdict does not depend on what it holds or on the clock. */
  lemma AcceptedIffTakes(setup: Setup, store: Store, capsules: seq<Loop.Signed>, clocks: Edge.Clocks)
    ensures Answer(setup, store, capsules, clocks).outcome.Accepted? <==> Takes(setup, capsules)
  {
    var uploads := Uploads(setup, capsules);
    var k := Edge.FirstRefused(setup.session, uploads);
    assert k < |uploads| ==> uploads[k] == setup.upload(capsules[k]);
  }

  // ---- the two together ----

  /** What becomes of a request: lost on its way, served but its answer lost, or answered. */
  datatype Trip = Lost | Unanswered | Answered

  /** What a request leaves at the edge. */
  function Left(setup: Setup, store: Store, capsules: seq<Loop.Signed>, clocks: Edge.Clocks, trip: Trip): Store {
    if trip.Lost? then store else Answer(setup, store, capsules, clocks).store
  }

  /** The loop sees Ok: the edge took the request and its answer arrived. */
  predicate SeesOk(setup: Setup, store: Store, capsules: seq<Loop.Signed>, clocks: Edge.Clocks, trip: Trip) {
    trip.Answered? && Answer(setup, store, capsules, clocks).outcome.Accepted?
  }

  datatype Joint = Joint(loop: Loop.State, store: Store)

  /** One turn: what arrives, which timers are due, what the summariser and the signer do, what
      becomes of the requests, and the clock readings of the edge. */
  datatype Tick = Tick(
    story: Option<Loop.Story>, presenceDue: bool, intervalElapsed: bool,
    summaries: Option<seq<Loop.Summary>>, signFailsAt: Option<nat>,
    presence: Trip, replay: Trip, batch: Trip,
    presenceClocks: Edge.Clocks, readAt: int, replayClocks: Edge.Clocks, batchClocks: Edge.Clocks)

  /** The public headlines the edge counts in its acknowledgement. */
  predicate ShowsNothing(setup: Setup, store: Store, now: int) {
    ReadHeadlines(store, now, PublicHeadlines(setup.screen)) == []
  }

  function AfterPresence(setup: Setup, j: Joint, tick: Tick): Store {
    if tick.presenceDue then Left(setup, j.store, [], tick.presenceClocks, tick.presence) else j.store
  }

  function PresenceOf(setup: Setup, j: Joint, tick: Tick): Loop.Presence {
    Loop.Presence(
      tick.presenceDue && SeesOk(setup, j.store, [], tick.presenceClocks, tick.presence),
      ShowsNothing(setup, AfterPresence(setup, j, tick), tick.readAt),
      SeesOk(setup, AfterPresence(setup, j, tick), j.loop.recentCapsules, tick.replayClocks, tick.replay))
  }

  predicate Replays(setup: Setup, j: Joint, tick: Tick) {
    PresenceOf(setup, j, tick).registered && PresenceOf(setup, j, tick).edgeEmpty && j.loop.recentCapsules != []
  }

  function AfterReplay(setup: Setup, j: Joint, tick: Tick): Store {
    if Replays(setup, j, tick)
    then Left(setup, AfterPresence(setup, j, tick), j.loop.recentCapsules, tick.replayClocks, tick.replay)
    else AfterPresence(setup, j, tick)
  }

  /** The capsules of a batch that gets as far as being posted. */
  function Signs(j: Joint, tick: Tick): seq<Loop.Signed> {
    if tick.summaries.None? then []
    else
      var signed := Loop.SignAll(tick.summaries.value, j.loop.nextSeq, tick.signFailsAt);
      if signed.None? then [] else signed.value
  }

  function TickOf(setup: Setup, j: Joint, tick: Tick): Loop.Tick {
    var accepts := SeesOk(setup, AfterReplay(setup, j, tick), Signs(j, tick), tick.batchClocks, tick.batch);
    Loop.Tick(tick.story, PresenceOf(setup, j, tick), tick.intervalElapsed, Loop.Attempt(tick.summaries, tick.signFailsAt, accepts))
  }

  function StoreStep(setup: Setup, j: Joint, tick: Tick): Store {
    if Loop.Publishes(j.loop, TickOf(setup, j, tick)) && Signs(j, tick) != []
    then Left(setup, AfterReplay(setup, j, tick), Signs(j, tick), tick.batchClocks, tick.batch)
    else AfterReplay(setup, j, tick)
  }

  function Step(setup: Setup, j: Joint, tick: Tick): Joint {
    Joint(Loop.Turn(setup.window, j.loop, TickOf(setup, j, tick)), StoreStep(setup, j, tick))
  }

  function Stepper(setup: Setup): (Joint, Tick) -> Joint {
    (j: Joint, tick: Tick) => Step(setup, j, tick)
  }

  function Start(seed: seq<Loop.Summary>): Joint {
    Joint(Loop.Started(seed), EMPTY)
  }

  ghost function After(setup: Setup, seed: seq<Loop.Summary>, ticks: seq<Tick>): Joint {
    Run(Stepper(setup), Start(seed), ticks)
  }

  /** The run as the loop alone sees it. */
  function Seen(setup: Setup): Visit<Joint, Tick> -> seq<Loop.Tick> {
    (v: Visit<Joint, Tick>) => [TickOf(setup, v.before, v.act)]
  }

  ghost function LoopTicks(setup: Setup, seed: seq<Loop.Summary>, ticks: seq<Tick>): seq<Loop.Tick> {
    Collect(Visits(Stepper(setup), Start(seed), ticks), Seen(setup))
  }

  /** Everything proved of the loop for all answers of the edge holds with the real answers. */
  lemma {:induction false} LoopRunsAlone(setup: Setup, seed: seq<Loop.Summary>, ticks: seq<Tick>)
    ensures After(setup, seed, ticks).loop == Loop.After(setup.window, seed, LoopTicks(setup, seed, ticks))
  {
    if ticks != [] {
      var past, last := ticks[..|ticks| - 1], ticks[|ticks| - 1];
      LoopRunsAlone(setup, seed, past);
      CollectStep(Stepper(setup), Start(seed), ticks, Seen(setup));
      RunLast(Loop.Turner(setup.window), Loop.Started(seed), LoopTicks(setup, seed, past), TickOf(setup, After(setup, seed, past), last));
    }
  }

  // ---- no headline is listed twice ----

  lemma AnswerKeepsWellFormed(setup: Setup, store: Store, capsules: seq<Loop.Signed>, clocks: Edge.Clocks)
    requires WellFormed(store)
    ensures WellFormed(Answer(setup, store, capsules, clocks).store)
  {
    Edge.RequestIsActs(store, setup.session, RequestFor(setup, capsules), clocks);
    UpdatesKeepWellFormed(store, Edge.RequestActs(setup.session, RequestFor(setup, capsules), clocks));
  }

  lemma StepKeepsWellFormed(setup: Setup, j: Joint, tick: Tick)
    requires WellFormed(j.store)
    ensures WellFormed(Step(setup, j, tick).store)
  {
    AnswerKeepsWellFormed(setup, j.store, [], tick.presenceClocks);
    AnswerKeepsWellFormed(setup, AfterPresence(setup, j, tick), j.loop.recentCapsules, tick.replayClocks);
    AnswerKeepsWellFormed(setup, AfterReplay(setup, j, tick), Signs(j, tick), tick.batchClocks);
  }

  /** Whatever is retried or replayed, also after a request that was refused part-way or whose
      answer was lost, the edge never lists one headline and deck of a feed twice. */
  lemma NoHeadlineListedTwice(setup: Setup, seed: seq<Loop.Summary>, ticks: seq<Tick>)
    ensures WellFormed(After(setup, seed, ticks).store)
  {
    forall j: Joint, tick: Tick | WellFormed(j.store)
      ensures WellFormed(Stepper(setup)(j, tick).store)
    {
      StepKeepsWellFormed(setup, j, tick);
    }
    Invariant(Stepper(setup), Start(seed), ticks, (j: Joint) => WellFormed(j.store));
  }

  // ---- when the queue drains ----

  /** The attempt of this turn gets through: summarised, signed and, unless there is nothing to
      send, taken by the edge with an answer that arrives. */
  predicate Delivers(setup: Setup, j: Joint, tick: Tick) {
    && tick.summaries.Some?
    && Loop.SignAll(tick.summaries.value, j.loop.nextSeq, tick.signFailsAt).Some?
    && (tick.summaries.value == [] || (tick.batch.Answered? && Takes(setup, Signs(j, tick))))
  }

  predicate Attempts(setup: Setup, j: Joint, tick: Tick) {
    Loop.Publishes(j.loop, TickOf(setup, j, tick))
  }

  lemma OkIffDelivers(setup: Setup, j: Joint, tick: Tick)
    ensures Loop.ResultOf(setup.window, j.loop, TickOf(setup, j, tick)).ok <==> Delivers(setup, j, tick)
  {
    AcceptedIffTakes(setup, AfterReplay(setup, j, tick), Signs(j, tick), tick.batchClocks);
  }

  /** A turn that publishes empties the queue exactly when its attempt gets through, and leaves
      it as it is otherwise. */
  lemma TurnDrainsIffDelivers(setup: Setup, j: Joint, tick: Tick)
    requires Attempts(setup, j, tick)
    ensures Step(setup, j, tick).loop.pending == [] <==> Delivers(setup, j, tick)
    ensures !Delivers(setup, j, tick) ==>
      Step(setup, j, tick).loop.pending == j.loop.pending + Arrived(tick)
  {
    OkIffDelivers(setup, j, tick);
  }

  /** A turn of the run whose attempt gets through. */
  ghost predicate SomeDelivery(setup: Setup, seed: seq<Loop.Summary>, ticks: seq<Tick>) {
    exists k :: 0 <= k < |ticks| && Attempts(setup, After(setup, seed, ticks[..k]), ticks[k]) && Delivers(setup, After(setup, seed, ticks[..k]), ticks[k])
  }

  function Arrived(tick: Tick): seq<Loop.Story> {
    if tick.story.Some? then [tick.story.value] else []
  }

  function StoriesIn(ticks: seq<Tick>): seq<Loop.Story> {
    if ticks == [] then [] else StoriesIn(ticks[..|ticks| - 1]) + Arrived(ticks[|ticks| - 1])
  }

  ghost predicate KeepsAll(setup: Setup, seed: seq<Loop.Summary>, ticks: seq<Tick>) {
    if SomeDelivery(setup, seed, ticks) then |After(setup, seed, ticks).loop.pending| < |StoriesIn(ticks)|
    else After(setup, seed, ticks).loop.pending == StoriesIn(ticks)
  }

  lemma KeepsAllOneMore(setup: Setup, seed: seq<Loop.Summary>, past: seq<Tick>, last: Tick)
    requires KeepsAll(setup, seed, past)
    ensures KeepsAll(setup, seed, past + [last])
  {
    var ticks := past + [last];
    assert ticks[..|past|] == past;
    DeliverySoFar(setup, seed, past, last);
    RunLast(Stepper(setup), Start(seed), past, last);
    PendingStep(setup, After(setup, seed, past), last);
    assert StoriesIn(ticks) == StoriesIn(past) + Arrived(last);
  }

  lemma NothingKept(setup: Setup, seed: seq<Loop.Summary>)
    ensures KeepsAll(setup, seed, [])
  {
  }

  lemma {:induction false} NoDeliveryKeepsAll(setup: Setup, seed: seq<Loop.Summary>, ticks: seq<Tick>)
    ensures KeepsAll(setup, seed, ticks)
  {
    if ticks == [] {
      NothingKept(setup, seed);
    } else {
      var past, last := ticks[..|ticks| - 1], ticks[|ticks| - 1];
      assert past + [last] == ticks;
      NoDeliveryKeepsAll(setup, seed, past);
      KeepsAllOneMore(setup, seed, past, last);
    }
  }

  lemma DeliverySoFar(setup: Setup, seed: seq<Loop.Summary>, past: seq<Tick>, last: Tick)
    ensures SomeDelivery(setup, seed, past + [last]) <==>
      || SomeDelivery(setup, seed, past)
      || (Attempts(setup, After(setup, seed, past), last) && Delivers(setup, After(setup, seed, past), last))
  {
    var gets := (j: Joint, tick: Tick) => Attempts(setup, j, tick) && Delivers(setup, j, tick);
    SetByLast(Stepper(setup), Start(seed), past, last, gets);
    SomeDeliveryIsSet(setup, seed, past);
    SomeDeliveryIsSet(setup, seed, past + [last]);
  }

  lemma SomeDeliveryIsSet(setup: Setup, seed: seq<Loop.Summary>, ticks: seq<Tick>)
    ensures SomeDelivery(setup, seed, ticks) <==>
      SetBy(Stepper(setup), Start(seed), ticks, (j: Joint, tick: Tick) => Attempts(setup, j, tick) && Delivers(setup, j, tick))
  {
    var gets := (j: Joint, tick: Tick) => Attempts(setup, j, tick) && Delivers(setup, j, tick);
    assert forall k | 0 <= k < |ticks| ::
      gets(Run(Stepper(setup), Start(seed), ticks[..k]), ticks[k]) ==
      (Attempts(setup, After(setup, seed, ticks[..k]), ticks[k]) && Delivers(setup, After(setup, seed, ticks[..k]), ticks[k]));
  }

  lemma PendingStep(setup: Setup, j: Joint, tick: Tick)
    ensures Step(setup, j, tick).loop.pending ==
      if Attempts(setup, j, tick) && Delivers(setup, j, tick) then [] else j.loop.pending + Arrived(tick)
    ensures Attempts(setup, j, tick) ==> j.loop.pending + Arrived(tick) != []
  {
    OkIffDelivers(setup, j, tick);
    assert Loop.Ready(j.loop, TickOf(setup, j, tick)).pending == j.loop.pending + Arrived(tick);
  }

  /** Exactly when nothing ever leaves the queue: it holds all stories received, in order, if
      and only if no attempt of the run got through. */
  lemma StuckIffNothingDelivered(setup: Setup, seed: seq<Loop.Summary>, ticks: seq<Tick>)
    ensures After(setup, seed, ticks).loop.pending == StoriesIn(ticks) <==> !SomeDelivery(setup, seed, ticks)
  {
    NoDeliveryKeepsAll(setup, seed, ticks);
  }

  /** Batches of more than 16 capsules are never taken: as long as the summariser makes more
      than that of the queue, nothing leaves it, however often it is retried. */
  lemma OversizeBatchesStayQueued(setup: Setup, seed: seq<Loop.Summary>, ticks: seq<Tick>)
    requires forall k :: 0 <= k < |ticks| && ticks[k].summaries.Some? ==> |ticks[k].summaries.value| > MAX_PUBLISH
    ensures After(setup, seed, ticks).loop.pending == StoriesIn(ticks)
  {
    NoDeliveryKeepsAll(setup, seed, ticks);
  }

  // ---- lost answers ----

  /** A batch whose answer is lost is at the edge and still in the queue. */
  lemma LostAnswerKeepsBoth(setup: Setup, j: Joint, tick: Tick)
    requires Attempts(setup, j, tick) && tick.batch.Unanswered? && Signs(j, tick) != []
    ensures Step(setup, j, tick).store == Answer(setup, AfterReplay(setup, j, tick), Signs(j, tick), tick.batchClocks).store
    ensures Step(setup, j, tick).loop.pending == j.loop.pending + Arrived(tick)
  {
    PendingStep(setup, j, tick);
  }

  /** The headline an upload becomes. */
  function HeadlineFrom(setup: Setup, capsule: Loop.Signed): Headline
    requires Welcome(setup)
  {
    var granted := PublishPolicy(setup.policy, setup.session).value;
    Edge.HeadlineOf(Edge.Batch(setup.session, granted, setup.name, (_: nat) => Clock(0, 0, 0)), setup.upload(capsule))
  }

  lemma OneCapsuleTaken(setup: Setup, store: Store, capsule: Loop.Signed, clocks: Edge.Clocks)
    requires Takes(setup, [capsule])
    requires HeadlineIsFresh(HeadlineFrom(setup, capsule), clocks.capsule(0).now)
    ensures Answer(setup, store, [capsule], clocks).store.headlines ==
      AddStory(store.headlines, clocks.capsule(0).now, HeadlineFrom(setup, capsule))
  {
    var granted := PublishPolicy(setup.policy, setup.session).value;
    var request := RequestFor(setup, [capsule]);
    var batch := Edge.Batch(setup.session, granted, setup.name, clocks.capsule);
    var uploads := Uploads(setup, [capsule]);
    assert [capsule][0] == capsule && uploads[0] == setup.upload(capsule);
    Edge.FirstRefusedAt(setup.session, uploads, 1);
    var registered := Edge.Register(store, request, granted, clocks);
    assert registered.headlines == store.headlines;
    assert Edge.PushedUpTo(registered, batch, uploads, 0) == (registered, 0);
    assert Edge.PushedUpTo(registered, batch, uploads, 1).0 == Push(registered, clocks.capsule(0), Edge.HeadlineOf(batch, uploads[0])).store;
  }

  /** A turn without presence that tries one summary. */
  function OneSummary(story: Option<Loop.Story>, summary: Loop.Summary, batch: Trip, clocks: Edge.Clocks): Tick {
    Tick(story, false, true, Some([summary]), None, Lost, Lost, batch, clocks, 0, clocks, clocks)
  }

  lemma OneSummaryPosted(setup: Setup, j: Joint, tick: Tick, summary: Loop.Summary)
    requires tick == OneSummary(tick.story, summary, tick.batch, tick.batchClocks) && !tick.batch.Lost?
    requires j.loop.pending + Arrived(tick) != []
    requires Takes(setup, [Loop.Signed(j.loop.nextSeq, summary)])
    requires HeadlineIsFresh(HeadlineFrom(setup, Loop.Signed(j.loop.nextSeq, summary)), tick.batchClocks.capsule(0).now)
    ensures
      var after := Step(setup, j, tick);
      && after.loop.pending == (if tick.batch.Answered? then [] else j.loop.pending + Arrived(tick))
      && after.loop.nextSeq == j.loop.nextSeq + 1
      && after.store.headlines ==
         AddStory(j.store.headlines, tick.batchClocks.capsule(0).now, HeadlineFrom(setup, Loop.Signed(j.loop.nextSeq, summary)))
  {
    assert Signs(j, tick) == [Loop.Signed(j.loop.nextSeq, summary)];
    PendingStep(setup, j, tick);
    assert Loop.Ready(j.loop, TickOf(setup, j, tick)).pending == j.loop.pending + Arrived(tick);
    OneCapsuleTaken(setup, j.store, Loop.Signed(j.loop.nextSeq, summary), tick.batchClocks);
  }

  /** One story, retried because the answer to its first batch was lost: afterwards the edge
      lists it once if the retry came out with the same headline and deck, and twice if the
      summariser found other words. */
  lemma RetriedStoryListedAgain(
      setup: Setup, story: Loop.Story, first: Loop.Summary, second: Loop.Summary, clocks: Edge.Clocks)
    requires Takes(setup, [Loop.Signed(1, first)]) && Takes(setup, [Loop.Signed(2, second)])
    requires HeadlineIsFresh(HeadlineFrom(setup, Loop.Signed(1, first)), clocks.capsule(0).now)
    requires HeadlineIsFresh(HeadlineFrom(setup, Loop.Signed(2, second)), clocks.capsule(0).now)
    ensures
      var ticks := [OneSummary(Some(story), first, Unanswered, clocks), OneSummary(None, second, Answered, clocks)];
      var a, b := HeadlineFrom(setup, Loop.Signed(1, first)), HeadlineFrom(setup, Loop.Signed(2, second));
      && After(setup, [], ticks).loop.pending == []
      && After(setup, [], ticks).store.headlines == if SameStory(a, b) then [a] else [a, b]
  {
    var t1, t2 := OneSummary(Some(story), first, Unanswered, clocks), OneSummary(None, second, Answered, clocks);
    var a, b := HeadlineFrom(setup, Loop.Signed(1, first)), HeadlineFrom(setup, Loop.Signed(2, second));
    RunOfTwo(Stepper(setup), Start([]), t1, t2);
    OneSummaryPosted(setup, Start([]), t1, first);
    assert AddStory([], clocks.capsule(0).now, a) == [a];
    OneSummaryPosted(setup, After(setup, [], [t1]), t2, second);
    SecondHeadline(a, b, clocks.capsule(0).now);
  }

  lemma SecondHeadline(a: Headline, b: Headline, now: int)
    requires HeadlineIsFresh(a, now)
    ensures AddStory([a], now, b) == if SameStory(a, b) then [a] else [a, b]
  {
    FilterOne(a, FreshHeadlines(now));
    assert SameStory([a][0], b) == SameStory(a, b);
    assert [a] + [b] == [a, b];
  }

  // ---- replays ----

  /** A replay is acknowledged exactly when it is answered and the edge takes the buffer. */
  lemma ReplayTakenIff(setup: Setup, j: Joint, tick: Tick)
    ensures PresenceOf(setup, j, tick).replayAccepted <==> tick.replay.Answered? && Takes(setup, j.loop.recentCapsules)
  {
    AcceptedIffTakes(setup, AfterPresence(setup, j, tick), j.loop.recentCapsules, tick.replayClocks);
  }

  predicate ReplayTooLarge(j: Joint) {
    |j.loop.recentCapsules| > MAX_PUBLISH
  }

  /** The replay buffer is too large for the edge exactly when the window exceeds 16 and more
      than 16 capsules were ever acknowledged. */
  lemma ReplayTooLargeIff(setup: Setup, seed: seq<Loop.Summary>, ticks: seq<Tick>)
    ensures ReplayTooLarge(After(setup, seed, ticks)) <==>
      setup.window > MAX_PUBLISH && |Loop.AllAcknowledged(setup.window, seed, LoopTicks(setup, seed, ticks))| > MAX_PUBLISH
  {
    LoopRunsAlone(setup, seed, ticks);
    Loop.ReplayBufferSize(setup.window, seed, LoopTicks(setup, seed, ticks));
  }

  /** From then on it stays so: no replay of any later turn is ever taken. */
  lemma ReplaysRefusedForGood(setup: Setup, seed: seq<Loop.Summary>, ticks: seq<Tick>, since: nat, tick: Tick)
    requires since <= |ticks| && ReplayTooLarge(After(setup, seed, ticks[..since]))
    ensures ReplayTooLarge(After(setup, seed, ticks))
    ensures !PresenceOf(setup, After(setup, seed, ticks), tick).replayAccepted
  {
    ReplayTooLargeIff(setup, seed, ticks[..since]);
    forall j: Joint, tick: Tick | ReplayTooLarge(j)
      ensures ReplayTooLarge(Stepper(setup)(j, tick))
    {
      Loop.BufferNeverShrinks(setup.window, j.loop, TickOf(setup, j, tick), MAX_PUBLISH + 1);
    }
    Persists(Stepper(setup), Start(seed), ticks, since, (j: Joint) => ReplayTooLarge(j));
    ReplayTakenIff(setup, After(setup, seed, ticks), tick);
  }

  /** A turn that tries the summaries and gets through. */
  function GoodTurn(story: Loop.Story, summaries: seq<Loop.Summary>, clocks: Edge.Clocks): Tick {
    Tick(Some(story), false, true, Some(summaries), None, Lost, Lost, Answered, clocks, 0, clocks, clocks)
  }

  lemma GoodTurnBuffers(setup: Setup, j: Joint, story: Loop.Story, summaries: seq<Loop.Summary>, clocks: Edge.Clocks)
    requires summaries != [] && Takes(setup, Loop.SignAll(summaries, j.loop.nextSeq, None).value)
    ensures Step(setup, j, GoodTurn(story, summaries, clocks)).loop.nextSeq == j.loop.nextSeq + |summaries|
    ensures
      var size := |summaries| + |j.loop.recentCapsules|;
      var bound := Loop.AtLeast(setup.window, 8);
      |Step(setup, j, GoodTurn(story, summaries, clocks)).loop.recentCapsules| == if size < bound then size else bound
  {
    var tick := GoodTurn(story, summaries, clocks);
    assert Signs(j, tick) == Loop.SignAll(summaries, j.loop.nextSeq, None).value;
    OkIffDelivers(setup, j, tick);
    assert Loop.Ready(j.loop, TickOf(setup, j, tick)).pending == j.loop.pending + [story];
    assert j.loop.pending + [story] != [];
  }

  /** With a window above 16, as the source's default of 24 is, two batches that are taken are
      enough: the buffer then holds 17 capsules. */
  lemma TwoBatchesOutgrowReplays(
      setup: Setup, story: Loop.Story, first: seq<Loop.Summary>, second: seq<Loop.Summary>, clocks: Edge.Clocks)
    requires setup.window > MAX_PUBLISH && |first| == MAX_PUBLISH && |second| == 1
    requires Takes(setup, Loop.SignAll(first, 1, None).value)
    requires Takes(setup, Loop.SignAll(second, MAX_PUBLISH + 1, None).value)
    ensures
      var ticks := [GoodTurn(story, first, clocks), GoodTurn(story, second, clocks)];
      |After(setup, [], ticks).loop.recentCapsules| == MAX_PUBLISH + 1 && ReplayTooLarge(After(setup, [], ticks))
  {
    var t1, t2 := GoodTurn(story, first, clocks), GoodTurn(story, second, clocks);
    RunOfTwo(Stepper(setup), Start([]), t1, t2);
    GoodTurnBuffers(setup, Start([]), story, first, clocks);
    GoodTurnBuffers(setup, After(setup, [], [t1]), story, second, clocks);
  }
}
