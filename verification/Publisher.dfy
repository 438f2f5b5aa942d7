/** The publisher loop: settled stories queue up, are summarised and signed in batches, and
    are posted to the edge; a batch that fails at any stage is queued again. The summariser,
    the signer, the edge and the clock are inputs of each turn. */
module Publisher {
  import opened Prelude
  import opened Runs

  datatype Story = Story(id: string, score: nat)

  datatype Summary = Summary(headline: string, deck: string, score: nat)

  datatype Signed = Signed(seqNo: nat, summary: Summary)

  /** What the world does to a batch: the summaries (or the summariser's failure), the index
      at which signing fails, and whether the edge takes the post. */
  datatype Attempt = Attempt(summaries: Option<seq<Summary>>, signFailsAt: Option<nat>, edgeAccepts: bool)

  /** The presence exchange of a turn: whether it took place and succeeded, whether the edge
      reported no headlines, and whether it takes the replay that then follows. */
  datatype Presence = Presence(registered: bool, edgeEmpty: bool, replayAccepted: bool)

  datatype Tick = Tick(story: Option<Story>, presence: Presence, intervalElapsed: bool, attempt: Attempt)

  datatype Post = Batch(capsules: seq<Signed>, accepted: bool) | Replay(capsules: seq<Signed>, accepted: bool)

  datatype State = State(
    pending: seq<Story>, recent: seq<Summary>, recentCapsules: seq<Signed>, nextSeq: nat, posts: seq<Post>)

  function AtLeast(n: nat, least: nat): (r: nat)
    ensures r >= least
  {
    if n < least then least else n
  }

  function Reverse<T>(s: seq<T>): (r: seq<T>)
    ensures |r| == |s|
    ensures forall k :: 0 <= k < |s| ==> r[k] == s[|s| - 1 - k]
  {
    if s == [] then [] else [s[|s| - 1]] + Reverse(s[..|s| - 1])
  }

  predicate Urgent(pending: seq<Story>) {
    (exists k :: 0 <= k < |pending| && pending[k].score >= 90) || |pending| >= 8
  }

  predicate ShouldPublish(pending: seq<Story>, intervalElapsed: bool) {
    pending != [] && (intervalElapsed || Urgent(pending))
  }

  /** Capsules are numbered from `start` in the order of their summaries; one failure fails
      the whole batch. */
  function SignAll(summaries: seq<Summary>, start: nat, failsAt: Option<nat>): (r: Option<seq<Signed>>)
    ensures r.Some? ==>
      && |r.value| == |summaries|
      && forall k :: 0 <= k < |summaries| ==> r.value[k] == Signed(start + k, summaries[k])
  {
    if failsAt.Some? && failsAt.value < |summaries| then None
    else Some(seq(|summaries|, k requires 0 <= k < |summaries| => Signed(start + k, summaries[k])))
  }

  datatype BatchResult = BatchResult(recent: seq<Summary>, nextSeq: nat, capsules: seq<Signed>, posted: seq<Post>, ok: bool)

  function RunBatch(window: nat, s: State, attempt: Attempt): BatchResult {
    if attempt.summaries.None? then BatchResult(s.recent, s.nextSeq, [], [], false)
    else
      var summaries := attempt.summaries.value;
      var recent := FirstN(Reverse(summaries) + s.recent, AtLeast(window, 1));
      var signed := SignAll(summaries, s.nextSeq, attempt.signFailsAt);
      if signed.None? then BatchResult(recent, s.nextSeq, [], [], false)
      else if signed.value == [] then BatchResult(recent, s.nextSeq, [], [], true)
      else
        BatchResult(recent, s.nextSeq + |signed.value|, signed.value,
                    [Batch(signed.value, attempt.edgeAccepts)], attempt.edgeAccepts)
  }

  function Receive(s: State, story: Option<Story>): State {
    if story.Some? then s.(pending := s.pending + [story.value]) else s
  }

  function Greet(s: State, presence: Presence): State {
    if presence.registered && presence.edgeEmpty && s.recentCapsules != []
    then s.(posts := s.posts + [Replay(s.recentCapsules, presence.replayAccepted)])
    else s
  }

  function Settle(window: nat, s: State, result: BatchResult): State {
    s.(pending := if result.ok then [] else s.pending,
       recent := result.recent,
       recentCapsules :=
         if result.ok && result.capsules != [] then FirstN(result.capsules + s.recentCapsules, AtLeast(window, 8))
         else s.recentCapsules,
       nextSeq := result.nextSeq,
       posts := s.posts + result.posted)
  }

  function Ready(s: State, tick: Tick): State {
    Greet(Receive(s, tick.story), tick.presence)
  }

  function Turn(window: nat, s: State, tick: Tick): State {
    var ready := Ready(s, tick);
    if ShouldPublish(ready.pending, tick.intervalElapsed) then Settle(window, ready, RunBatch(window, ready, tick.attempt)) else ready
  }

  class ServePublisher {
    const window: nat
    var pending: seq<Story>
    var recent: seq<Summary>
    var recentCapsules: seq<Signed>
    var nextSeq: nat
    ghost var posts: seq<Post>

    /** The variables of the loop and the log of what was sent to the edge. */
    ghost function View(): State
      reads this
    {
      State(pending, recent, recentCapsules, nextSeq, posts)
    }

    constructor (window: nat, seed: seq<Summary>)
      ensures View() == State([], seed, [], 1, [])
    {
      this.window := window;
      pending, recent, recentCapsules, nextSeq, posts := [], seed, [], 1, [];
    }

    /** Each summary is pushed to the front, then the back is dropped until the window fits. */
    method RememberSummaries(summaries: seq<Summary>)
      modifies this`recent
      ensures recent == FirstN(Reverse(summaries) + old(recent), AtLeast(window, 1))
    {
      for i := 0 to |summaries|
        invariant recent == Reverse(summaries[..i]) + old(recent)
      {
        assert summaries[..i + 1][..i] == summaries[..i];
        recent := [summaries[i]] + recent;
      }
      assert summaries[..|summaries|] == summaries;
      recent := PopBack(recent, AtLeast(window, 1));
    }

    method RememberCapsules(capsules: seq<Signed>)
      modifies this`recentCapsules
      ensures recentCapsules == FirstN(capsules + old(recentCapsules), AtLeast(window, 8))
    {
      var i := |capsules|;
      while 0 < i
        invariant 0 <= i <= |capsules|
        invariant recentCapsules == capsules[i..] + old(recentCapsules)
      {
        i := i - 1;
        recentCapsules := [capsules[i]] + recentCapsules;
      }
      recentCapsules := PopBack(recentCapsules, AtLeast(window, 8));
    }

    method PublishStoryBatch(attempt: Attempt) returns (capsules: seq<Signed>, ok: bool)
      modifies this`recent, this`nextSeq, this`posts
      ensures
        var result := RunBatch(window, old(View()), attempt);
        && capsules == result.capsules && ok == result.ok
        && recent == result.recent && nextSeq == result.nextSeq && posts == old(posts) + result.posted
    {
      if attempt.summaries.None? {
        return [], false;
      }
      RememberSummaries(attempt.summaries.value);
      var signed := SignAll(attempt.summaries.value, nextSeq, attempt.signFailsAt);
      if signed.None? {
        return [], false;
      }
      capsules := signed.value;
      nextSeq := nextSeq + |capsules|;
      if capsules == [] {
        return [], true;
      }
      posts := posts + [Batch(capsules, attempt.edgeAccepts)];
      ok := attempt.edgeAccepts;
    }

    /** Takes the queue, tries to publish it, and puts it back if that fails. */
    method TryPublish(attempt: Attempt)
      modifies this
      ensures View() == Settle(window, old(View()), RunBatch(window, old(View()), attempt))
    {
      var stories := pending;
      pending := [];
      var capsules, ok := PublishStoryBatch(attempt);
      if ok {
        if capsules != [] {
          RememberCapsules(capsules);
        }
      } else {
        pending := pending + stories;
      }
    }

    method TakeTurn(tick: Tick)
      modifies this
      ensures View() == Turn(window, old(View()), tick)
    {
      if tick.story.Some? {
        pending := pending + [tick.story.value];
      }
      if tick.presence.registered && tick.presence.edgeEmpty && recentCapsules != [] {
        posts := posts + [Replay(recentCapsules, tick.presence.replayAccepted)];
      }
      assert View() == Ready(old(View()), tick);
      if ShouldPublish(pending, tick.intervalElapsed) {
        TryPublish(tick.attempt);
      }
    }
  }

  // ---- runs ----

  function Turner(window: nat): (State, Tick) -> State {
    (s: State, tick: Tick) => Turn(window, s, tick)
  }

  function Started(seed: seq<Summary>): State {
    State([], seed, [], 1, [])
  }

  ghost function After(window: nat, seed: seq<Summary>, ticks: seq<Tick>): State {
    Run(Turner(window), Started(seed), ticks)
  }

  ghost function Turns(window: nat, seed: seq<Summary>, ticks: seq<Tick>): seq<Visit<State, Tick>> {
    Visits(Turner(window), Started(seed), ticks)
  }

  predicate Publishes(s: State, tick: Tick) {
    ShouldPublish(Ready(s, tick).pending, tick.intervalElapsed)
  }

  function ResultOf(window: nat, s: State, tick: Tick): BatchResult {
    RunBatch(window, Ready(s, tick), tick.attempt)
  }

  function Received(): Visit<State, Tick> -> seq<Story> {
    (v: Visit<State, Tick>) => if v.act.story.Some? then [v.act.story.value] else []
  }

  /** The stories of a batch that came back Ok. */
  function Published(window: nat): Visit<State, Tick> -> seq<Story> {
    (v: Visit<State, Tick>) =>
      if Publishes(v.before, v.act) && ResultOf(window, v.before, v.act).ok then Ready(v.before, v.act).pending else []
  }

  function Acknowledged(window: nat): Visit<State, Tick> -> seq<Signed> {
    (v: Visit<State, Tick>) =>
      if Publishes(v.before, v.act) && ResultOf(window, v.before, v.act).ok then ResultOf(window, v.before, v.act).capsules else []
  }

  function Summarised(): Visit<State, Tick> -> seq<Summary> {
    (v: Visit<State, Tick>) =>
      if Publishes(v.before, v.act) && v.act.attempt.summaries.Some? then Reverse(v.act.attempt.summaries.value) else []
  }

  /** Whatever fails and whenever, the stories received are, in order, those of the batches
      that came back Ok followed by those still pending. */
  lemma NoStoryLostOrReordered(window: nat, seed: seq<Summary>, ticks: seq<Tick>)
    ensures
      Collect(Turns(window, seed, ticks), Published(window)) + After(window, seed, ticks).pending ==
      Collect(Turns(window, seed, ticks), Received())
  {
    forall v: Visit<State, Tick>
      ensures Published(window)(v) + Turner(window)(v.before, v.act).pending == v.before.pending + Received()(v)
    {
      assert Ready(v.before, v.act).pending == v.before.pending + Received()(v);
    }
    Conservation(Turner(window), Started(seed), ticks, (s: State) => s.pending, Published(window), Received());
  }

  function InBatch(): Post -> seq<Signed> {
    (post: Post) => if post.Batch? then post.capsules else []
  }

  /** The capsules sent for the first time, in the order they were posted. */
  ghost function FirstSent(posts: seq<Post>): seq<Signed> {
    Collect(posts, InBatch())
  }

  lemma FirstSentAppend(posts: seq<Post>, post: Post)
    ensures FirstSent(posts + [post]) == FirstSent(posts) + InBatch()(post)
  {
    CollectAppend(posts, [post], InBatch());
    assert [post][..0] == [];
    assert FirstSent([post]) == FirstSent([]) + InBatch()(post);
  }

  ghost predicate Numbered(s: State) {
    var sent := FirstSent(s.posts);
    && s.nextSeq == 1 + |sent|
    && forall k :: 0 <= k < |sent| ==> sent[k].seqNo == 1 + k
  }

  lemma ReadyStaysNumbered(s: State, tick: Tick)
    requires Numbered(s)
    ensures Numbered(Ready(s, tick))
  {
    FirstSentAppend(s.posts, Replay(s.recentCapsules, tick.presence.replayAccepted));
  }

  lemma SettleStaysNumbered(window: nat, s: State, attempt: Attempt)
    requires Numbered(s)
    ensures Numbered(Settle(window, s, RunBatch(window, s, attempt)))
  {
    var result := RunBatch(window, s, attempt);
    if result.posted == [] {
      assert s.posts + result.posted == s.posts;
    } else {
      FirstSentAppend(s.posts, result.posted[0]);
    }
  }

  /** Over every run, with failures at any stage, the capsules posted for the first time are
      numbered 1, 2, 3, ... in posting order: no number is used twice or skipped, and the next
      one is always unused. */
  lemma SequenceNumbersAreFresh(window: nat, seed: seq<Summary>, ticks: seq<Tick>)
    ensures Numbered(After(window, seed, ticks))
  {
    forall s: State, tick: Tick | Numbered(s)
      ensures Numbered(Turner(window)(s, tick))
    {
      ReadyStaysNumbered(s, tick);
      SettleStaysNumbered(window, Ready(s, tick), tick.attempt);
    }
    Invariant(Turner(window), Started(seed), ticks, (s: State) => Numbered(s));
  }

  lemma CapsuleBufferStep(window: nat, v: Visit<State, Tick>)
    ensures
      var after := Turn(window, v.before, v.act).recentCapsules;
      || (after == v.before.recentCapsules && Acknowledged(window)(v) == [])
      || after == FirstN(Acknowledged(window)(v) + v.before.recentCapsules, AtLeast(window, 8))
  {
  }

  lemma SummaryBufferStep(window: nat, v: Visit<State, Tick>)
    ensures
      var after := Turn(window, v.before, v.act).recent;
      || (after == v.before.recent && Summarised()(v) == [])
      || after == FirstN(Summarised()(v) + v.before.recent, AtLeast(window, 1))
  {
  }

  /** The replay buffer is exactly the newest acknowledged capsules, cut to its bound. */
  lemma ReplayBufferIsNewestAcknowledged(window: nat, seed: seq<Summary>, ticks: seq<Tick>)
    ensures
      After(window, seed, ticks).recentCapsules ==
      FirstN(NewestFirst(Turns(window, seed, ticks), Acknowledged(window)), AtLeast(window, 8))
  {
    forall v: Visit<State, Tick>
      ensures
        var after := Turner(window)(v.before, v.act).recentCapsules;
        || (after == v.before.recentCapsules && Acknowledged(window)(v) == [])
        || after == FirstN(Acknowledged(window)(v) + v.before.recentCapsules, AtLeast(window, 8))
    {
      CapsuleBufferStep(window, v);
    }
    FrontWindow(Turner(window), Started(seed), ticks, AtLeast(window, 8), (s: State) => s.recentCapsules, Acknowledged(window));
    var newest := NewestFirst(Turns(window, seed, ticks), Acknowledged(window));
    assert newest + [] == newest;
  }

  /** All capsules acknowledged so far, oldest first. */
  ghost function AllAcknowledged(window: nat, seed: seq<Summary>, ticks: seq<Tick>): seq<Signed> {
    Collect(Turns(window, seed, ticks), Acknowledged(window))
  }

  /** The size of the replay buffer: all acknowledged capsules, up to the bound. */
  lemma ReplayBufferSize(window: nat, seed: seq<Summary>, ticks: seq<Tick>)
    ensures
      var all := |AllAcknowledged(window, seed, ticks)|;
      |After(window, seed, ticks).recentCapsules| == if all < AtLeast(window, 8) then all else AtLeast(window, 8)
  {
    ReplayBufferIsNewestAcknowledged(window, seed, ticks);
    NewestFirstLength(Turns(window, seed, ticks), Acknowledged(window));
  }

  /** A buffer within its bound never shrinks. */
  lemma BufferNeverShrinks(window: nat, s: State, tick: Tick, size: nat)
    requires size <= |s.recentCapsules| && size <= AtLeast(window, 8)
    ensures size <= |Turn(window, s, tick).recentCapsules|
  {
    CapsuleBufferStep(window, Visit(0, s, tick));
  }

  /** The recent summaries are exactly the newest ones, then the seed, cut to the bound. */
  lemma RecentSummariesAreNewest(window: nat, seed: seq<Summary>, ticks: seq<Tick>)
    requires |seed| <= AtLeast(window, 1)
    ensures
      After(window, seed, ticks).recent ==
      FirstN(NewestFirst(Turns(window, seed, ticks), Summarised()) + seed, AtLeast(window, 1))
  {
    forall v: Visit<State, Tick>
      ensures
        var after := Turner(window)(v.before, v.act).recent;
        || (after == v.before.recent && Summarised()(v) == [])
        || after == FirstN(Summarised()(v) + v.before.recent, AtLeast(window, 1))
    {
      SummaryBufferStep(window, v);
    }
    FrontWindow(Turner(window), Started(seed), ticks, AtLeast(window, 1), (s: State) => s.recent, Summarised());
  }

  function InAcceptedBatch(): Post -> seq<Signed> {
    (post: Post) => if post.Batch? && post.accepted then post.capsules else []
  }

  ghost function AcceptedBatches(posts: seq<Post>): seq<Signed> {
    Collect(posts, InAcceptedBatch())
  }

  lemma AcceptedBatchesAppend(posts: seq<Post>, post: Post)
    ensures AcceptedBatches(posts + [post]) == AcceptedBatches(posts) + InAcceptedBatch()(post)
  {
    CollectAppend(posts, [post], InAcceptedBatch());
    assert [post][..0] == [];
    assert AcceptedBatches([post]) == AcceptedBatches([]) + InAcceptedBatch()(post);
  }

  ghost predicate ReplaysAcknowledged(posts: seq<Post>) {
    posts != [] ==>
      var earlier, last := posts[..|posts| - 1], posts[|posts| - 1];
      && ReplaysAcknowledged(earlier)
      && (last.Replay? ==> forall capsule :: capsule in last.capsules ==> capsule in AcceptedBatches(earlier))
  }

  ghost predicate ReplaysSafely(s: State) {
    && ReplaysAcknowledged(s.posts)
    && forall capsule :: capsule in s.recentCapsules ==> capsule in AcceptedBatches(s.posts)
  }

  lemma ReadyReplaysSafely(s: State, tick: Tick)
    requires ReplaysSafely(s)
    ensures ReplaysSafely(Ready(s, tick))
  {
    var replay := Replay(s.recentCapsules, tick.presence.replayAccepted);
    AcceptedBatchesAppend(s.posts, replay);
    assert (s.posts + [replay])[..|s.posts|] == s.posts;
  }

  lemma SettleReplaysSafely(window: nat, s: State, attempt: Attempt)
    requires ReplaysSafely(s)
    ensures ReplaysSafely(Settle(window, s, RunBatch(window, s, attempt)))
  {
    var result := RunBatch(window, s, attempt);
    if result.posted == [] {
      assert s.posts + result.posted == s.posts;
    } else {
      AcceptedBatchesAppend(s.posts, result.posted[0]);
      assert (s.posts + result.posted)[..|s.posts|] == s.posts;
    }
  }

  /** Every replay of every run sends only capsules that the edge had accepted in a batch
      posted before it. */
  lemma ReplaysWereAcknowledged(window: nat, seed: seq<Summary>, ticks: seq<Tick>)
    ensures ReplaysAcknowledged(After(window, seed, ticks).posts)
  {
    forall s: State, tick: Tick | ReplaysSafely(s)
      ensures ReplaysSafely(Turner(window)(s, tick))
    {
      ReadyReplaysSafely(s, tick);
      SettleReplaysSafely(window, Ready(s, tick), tick.attempt);
    }
    Invariant(Turner(window), Started(seed), ticks, (s: State) => ReplaysSafely(s));
  }

  /** If the queue is urgent after a turn, the batch of that very turn was tried and failed. */
  lemma UrgentOnlyAfterFailure(window: nat, s: State, tick: Tick)
    requires Urgent(Turn(window, s, tick).pending)
    ensures Publishes(s, tick) && !ResultOf(window, s, tick).ok
  {
  }

  /** The turn at `k` of the run tried to publish and failed. */
  ghost predicate FailedAt(window: nat, seed: seq<Summary>, ticks: seq<Tick>, k: nat)
    requires k < |ticks|
  {
    var s := After(window, seed, ticks[..k]);
    Publishes(s, ticks[k]) && !ResultOf(window, s, ticks[k]).ok
  }

  ghost predicate FailingSince(window: nat, seed: seq<Summary>, ticks: seq<Tick>, since: nat) {
    forall k :: since <= k < |ticks| ==> FailedAt(window, seed, ticks, k)
  }

  lemma FailingOneMore(window: nat, seed: seq<Summary>, past: seq<Tick>, last: Tick, since: nat)
    requires FailingSince(window, seed, past, since)
    requires Publishes(After(window, seed, past), last) && !ResultOf(window, After(window, seed, past), last).ok
    ensures FailingSince(window, seed, past + [last], since)
  {
    var ticks := past + [last];
    forall k | since <= k < |ticks|
      ensures FailedAt(window, seed, ticks, k)
    {
      if k < |past| {
        assert FailedAt(window, seed, past, k);
        assert past[..k] == ticks[..k];
      } else {
        assert ticks[..k] == past;
      }
    }
  }

  /** Nothing urgent ever waits for a timer: if the queue is urgent after a run, then every turn
      from the one that made it urgent to the last one tried to publish it and failed. */
  lemma {:induction false} UrgentSinceFailing(window: nat, seed: seq<Summary>, ticks: seq<Tick>) returns (since: nat)
    requires Urgent(After(window, seed, ticks).pending)
    ensures since < |ticks| && !Urgent(After(window, seed, ticks[..since]).pending)
    ensures FailingSince(window, seed, ticks, since)
  {
    var past, last := ticks[..|ticks| - 1], ticks[|ticks| - 1];
    assert past + [last] == ticks;
    UrgentOnlyAfterFailure(window, After(window, seed, past), last);
    if Urgent(After(window, seed, past).pending) {
      since := UrgentSinceFailing(window, seed, past);
      assert past[..since] == ticks[..since];
    } else {
      since := |past|;
    }
    FailingOneMore(window, seed, past, last, since);
  }
}
