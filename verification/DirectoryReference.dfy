/** Which publishes the directory takes, told from the earlier publishes alone: the checks of a
    record are written out, and the number to exceed is that of the record taken last. */
module DirectoryReference {
  import opened Prelude
  import opened Proto
  import opened Runs
  import opened Directory
  import NetworkReference

  /** A record and the clock reading of its publish. */
  datatype Attempt = Attempt(now: int, entry: Entry)

  function Attempts(oracle: Oracle): (Store, Attempt) -> Store {
    (s: Store, attempt: Attempt) => Publish(oracle, attempt.now, s, attempt.entry)
  }

  ghost function After(oracle: Oracle, attempts: seq<Attempt>): Store {
    Run(Attempts(oracle), EMPTY, attempts)
  }

  function Front(attempts: seq<Attempt>): seq<Attempt>
    requires attempts != []
  {
    attempts[..|attempts| - 1]
  }

  /** The record of the feed taken last. */
  function LastTaken(oracle: Oracle, attempts: seq<Attempt>, feed: FeedId): Option<Entry>
    decreases |attempts|, 0
  {
    if attempts == [] then None
    else
      var last := attempts[|attempts| - 1];
      if last.entry.feedId == feed && IsTaken(oracle, Front(attempts), last) then Some(last.entry)
      else LastTaken(oracle, Front(attempts), feed)
  }

  /** A record of the current protocol, authentic, of one visibility that its access suits, not
      yet expired, and numbered above the one taken last for its feed. */
  predicate IsTaken(oracle: Oracle, past: seq<Attempt>, attempt: Attempt)
    decreases |past|, 1
  {
    && NetworkReference.Current(attempt.entry.compatibility)
    && oracle.checkEntry(attempt.entry) == Authentic
    && NetworkReference.WellShaped(attempt.entry)
    && attempt.now < attempt.entry.expiresAt
    && (LastTaken(oracle, past, attempt.entry.feedId).Some? ==>
          LastTaken(oracle, past, attempt.entry.feedId).value.sequence < attempt.entry.sequence)
  }

  /** Why a record is refused: the first check that fails, in this order. */
  function Refusal(oracle: Oracle, past: seq<Attempt>, attempt: Attempt): Option<DirectoryError> {
    if !NetworkReference.Current(attempt.entry.compatibility) then Some(Incompatible)
    else if oracle.checkEntry(attempt.entry) == Unserialisable then Some(ProtoFailure)
    else if oracle.checkEntry(attempt.entry) == Forged then Some(BadSignature)
    else if !NetworkReference.WellShaped(attempt.entry) then Some(AccessPolicyMismatch)
    else if !(attempt.now < attempt.entry.expiresAt) then Some(ExpiredRecord)
    else if !IsTaken(oracle, past, attempt) then Some(ReplayedSequence)
    else None
  }

  function EntryIn(s: Store, feed: FeedId): Option<Entry> {
    if feed in s.entries then Some(s.entries[feed]) else None
  }

  /** The store holds, for every feed, the record taken last and its number. */
  lemma {:induction false} TakenFromHistory(oracle: Oracle, attempts: seq<Attempt>, feed: FeedId)
    ensures EntryIn(After(oracle, attempts), feed) == LastTaken(oracle, attempts, feed)
    ensures feed in After(oracle, attempts).highest <==> LastTaken(oracle, attempts, feed).Some?
    ensures feed in After(oracle, attempts).highest ==>
      After(oracle, attempts).highest[feed] == LastTaken(oracle, attempts, feed).value.sequence
    decreases |attempts|, 0
  {
    if attempts != [] {
      var past, last := Front(attempts), attempts[|attempts| - 1];
      TakenFromHistory(oracle, past, feed);
      PublishOutcome(oracle, past, last);
    }
  }

  /** A publish is taken exactly when the earlier publishes and the written-out checks allow
      it, and is otherwise answered with the first reason. */
  lemma {:induction false} PublishOutcome(oracle: Oracle, past: seq<Attempt>, attempt: Attempt)
    ensures PublishError(oracle, attempt.now, After(oracle, past), attempt.entry) == Refusal(oracle, past, attempt)
    ensures Refusal(oracle, past, attempt).None? <==> IsTaken(oracle, past, attempt)
    decreases |past|, 1
  {
    TakenFromHistory(oracle, past, attempt.entry.feedId);
    NetworkReference.CurrentExactly(attempt.entry.compatibility);
    NetworkReference.SuitsExactly(attempt.entry);
  }
}
