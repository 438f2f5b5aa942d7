/** What the publisher loop has sent and still holds, told from its turns alone: when a batch is
    due, when it succeeds, which numbers its capsules carry, and what a replay repeats. */
module PublisherReference {
  import opened Prelude
  import opened Publisher

  function Front(ticks: seq<Tick>): seq<Tick>
    requires ticks != []
  {
    ticks[..|ticks| - 1]
  }

  function Last(ticks: seq<Tick>): Tick
    requires ticks != []
  {
    ticks[|ticks| - 1]
  }

  /** A queue is published when the interval has elapsed, at eight stories, or at a story of
      score 90. */
  predicate Due(queue: seq<Story>, tick: Tick) {
    && 0 < |queue|
    && (tick.intervalElapsed || |queue| >= 8 || exists story :: story in queue && story.score >= 90)
  }

  /** The summariser answers and every summary is signed. */
  predicate Signs(attempt: Attempt) {
    attempt.summaries.Some? && (attempt.signFailsAt.Some? ==> |attempt.summaries.value| <= attempt.signFailsAt.value)
  }

  /** A signed batch succeeds when the edge takes it, or when there is nothing to send. */
  predicate Succeeds(attempt: Attempt) {
    Signs(attempt) && (attempt.edgeAccepts || |attempt.summaries.value| == 0)
  }

  /** The queue of the last turn, with the story it received. */
  function Queue(ticks: seq<Tick>): seq<Story>
    requires ticks != []
    decreases |ticks|, 0
  {
    match Last(ticks).story
    case None => Waiting(Front(ticks))
    case Some(story) => Waiting(Front(ticks)) + [story]
  }

  /** The stories received since the last batch that succeeded. */
  function Waiting(ticks: seq<Tick>): seq<Story>
    decreases |ticks|, 1
  {
    if ticks == [] || (Due(Queue(ticks), Last(ticks)) && Succeeds(Last(ticks).attempt)) then [] else Queue(ticks)
  }

  predicate TriesLast(ticks: seq<Tick>)
    requires ticks != []
  {
    Due(Queue(ticks), Last(ticks))
  }

  /** How many numbers the signed batches have used. */
  function Used(ticks: seq<Tick>): nat {
    if ticks == [] then 0
    else if TriesLast(ticks) && Signs(Last(ticks).attempt) then Used(Front(ticks)) + |Last(ticks).attempt.summaries.value|
    else Used(Front(ticks))
  }

  /** The capsules signed in the last turn: the next numbers, in the order of the summaries. */
  function Capsules(ticks: seq<Tick>): seq<Signed>
    requires ticks != [] && Signs(Last(ticks).attempt)
  {
    var summaries := Last(ticks).attempt.summaries.value;
    seq(|summaries|, k requires 0 <= k < |summaries| => Signed(Used(Front(ticks)) + 1 + k, summaries[k]))
  }

  function Larger(a: nat, b: nat): nat {
    if a > b then a else b
  }

  /** What a replay would repeat: the batches that succeeded, newest first, cut to the window
      or to eight. */
  function Replayable(window: nat, ticks: seq<Tick>): (buffer: seq<Signed>)
    ensures |buffer| <= Larger(window, 8)
  {
    if ticks == [] then []
    else if TriesLast(ticks) && Succeeds(Last(ticks).attempt) then
      FirstN(Capsules(ticks) + Replayable(window, Front(ticks)), Larger(window, 8))
    else Replayable(window, Front(ticks))
  }

  /** The summaries shown to the next summarising: those of every answered batch, newest first,
      then the seed, cut to the window or to one. */
  function Recalled(window: nat, seed: seq<Summary>, ticks: seq<Tick>): seq<Summary> {
    if ticks == [] then seed
    else if TriesLast(ticks) && Last(ticks).attempt.summaries.Some? then
      FirstN(Reverse(Last(ticks).attempt.summaries.value) + Recalled(window, seed, Front(ticks)), Larger(window, 1))
    else Recalled(window, seed, Front(ticks))
  }

  /** The replay of a turn: all that is replayable, when presence is registered and the edge
      shows nothing. */
  function Replays(window: nat, past: seq<Tick>, tick: Tick): seq<Post> {
    if tick.presence.registered && tick.presence.edgeEmpty && |Replayable(window, past)| > 0
    then [Replay(Replayable(window, past), tick.presence.replayAccepted)] else []
  }

  /** Everything sent to the edge: in each turn the replay, then the signed batch unless it is
      empty. */
  function Sent(window: nat, ticks: seq<Tick>): seq<Post> {
    if ticks == [] then []
    else
      var earlier := Sent(window, Front(ticks)) + Replays(window, Front(ticks), Last(ticks));
      if TriesLast(ticks) && Signs(Last(ticks).attempt) && |Last(ticks).attempt.summaries.value| > 0
      then earlier + [Batch(Capsules(ticks), Last(ticks).attempt.edgeAccepts)] else earlier
  }

  ghost function History(window: nat, seed: seq<Summary>, ticks: seq<Tick>): State {
    State(Waiting(ticks), Recalled(window, seed, ticks), Replayable(window, ticks), 1 + Used(ticks), Sent(window, ticks))
  }

  lemma DueExactly(queue: seq<Story>, tick: Tick)
    ensures ShouldPublish(queue, tick.intervalElapsed) <==> Due(queue, tick)
  {
    if story :| story in queue && story.score >= 90 {
      assert exists k :: 0 <= k < |queue| && queue[k] == story;
    }
  }

  lemma BatchExactly(window: nat, seed: seq<Summary>, ticks: seq<Tick>, s: State)
    requires ticks != []
    requires s.nextSeq == 1 + Used(Front(ticks)) && s.recent == Recalled(window, seed, Front(ticks))
    ensures
      var attempt, result := Last(ticks).attempt, RunBatch(window, s, Last(ticks).attempt);
      && (result.ok <==> Succeeds(attempt))
      && result.recent == (if attempt.summaries.Some? then FirstN(Reverse(attempt.summaries.value) + s.recent, Larger(window, 1)) else s.recent)
      && result.nextSeq == s.nextSeq + (if Signs(attempt) then |attempt.summaries.value| else 0)
      && (Signs(attempt) ==> result.capsules == Capsules(ticks))
      && result.posted ==
         if Signs(attempt) && |attempt.summaries.value| > 0 then [Batch(Capsules(ticks), attempt.edgeAccepts)] else []
  {
    var attempt := Last(ticks).attempt;
    if Signs(attempt) {
      assert SignAll(attempt.summaries.value, s.nextSeq, attempt.signFailsAt).value == Capsules(ticks);
    }
  }

  /** The turn that ends a history takes what the earlier turns left to what all of them do. */
  lemma TurnExactly(window: nat, seed: seq<Summary>, ticks: seq<Tick>)
    requires ticks != []
    ensures Turn(window, History(window, seed, Front(ticks)), Last(ticks)) == History(window, seed, ticks)
  {
    var s := Ready(History(window, seed, Front(ticks)), Last(ticks));
    ReadyExactly(window, seed, ticks);
    DueExactly(Queue(ticks), Last(ticks));
    if TriesLast(ticks) {
      SettleExactly(window, seed, ticks, s);
    }
  }

  /** The loop after the story and the presence exchange of the last turn. */
  ghost function Arrived(window: nat, seed: seq<Summary>, ticks: seq<Tick>): State
    requires ticks != []
  {
    var past := Front(ticks);
    State(Queue(ticks), Recalled(window, seed, past), Replayable(window, past), 1 + Used(past),
          Sent(window, past) + Replays(window, past, Last(ticks)))
  }

  lemma ReadyExactly(window: nat, seed: seq<Summary>, ticks: seq<Tick>)
    requires ticks != []
    ensures Ready(History(window, seed, Front(ticks)), Last(ticks)) == Arrived(window, seed, ticks)
  {
    assert Sent(window, Front(ticks)) + [] == Sent(window, Front(ticks));
  }

  lemma SettleExactly(window: nat, seed: seq<Summary>, ticks: seq<Tick>, s: State)
    requires ticks != [] && TriesLast(ticks) && s == Arrived(window, seed, ticks)
    ensures Settle(window, s, RunBatch(window, s, Last(ticks).attempt)) == History(window, seed, ticks)
  {
    var result := RunBatch(window, s, Last(ticks).attempt);
    BatchExactly(window, seed, ticks, s);
    assert s.posts + [] == s.posts;
    if result.ok && result.capsules == [] {
      assert [] + s.recentCapsules == s.recentCapsules;
    }
  }

  /** After any turns, with whatever failures, the loop has sent and holds exactly what the
      history says. */
  lemma {:induction false} RunExactly(window: nat, seed: seq<Summary>, ticks: seq<Tick>)
    ensures After(window, seed, ticks) == History(window, seed, ticks)
  {
    if ticks != [] {
      RunExactly(window, seed, Front(ticks));
      TurnExactly(window, seed, ticks);
    }
  }
}
