/** The feed directory: a last-writer-wins store keyed by feed and ordered by sequence
    number. */
module Directory {
  import opened Prelude
  import opened Proto
  import opened Runs

  datatype Store = Store(entries: map<FeedId, Entry>, highest: map<FeedId, nat>)

  const EMPTY := Store(map[], map[])

  /** Passes every check that does not look at the store. */
  predicate Admissible(oracle: Oracle, now: int, entry: Entry) {
    EntryError(oracle, entry).None? && now < entry.expiresAt
  }

  function PublishError(oracle: Oracle, now: int, s: Store, entry: Entry): Option<DirectoryError> {
    if EntryError(oracle, entry).Some? then EntryError(oracle, entry)
    else if entry.expiresAt <= now then Some(ExpiredRecord)
    else if entry.feedId in s.highest && s.highest[entry.feedId] >= entry.sequence then Some(ReplayedSequence)
    else None
  }

  function Publish(oracle: Oracle, now: int, s: Store, entry: Entry): Store {
    if PublishError(oracle, now, s, entry).Some? then s
    else Store(s.entries[entry.feedId := entry], s.highest[entry.feedId := entry.sequence])
  }

  class DirectoryStore {
    const oracle: Oracle
    var entries: map<FeedId, Entry>
    var highest: map<FeedId, nat>

    function View(): Store
      reads this
    {
      Store(entries, highest)
    }

    constructor (oracle: Oracle)
      ensures this.oracle == oracle && View() == EMPTY
    {
      this.oracle := oracle;
      entries, highest := map[], map[];
    }

    method PublishRecord(now: int, entry: Entry) returns (error: Option<DirectoryError>)
      modifies this
      ensures error == PublishError(oracle, now, old(View()), entry)
      ensures View() == Publish(oracle, now, old(View()), entry)
    {
      error := EntryError(oracle, entry);
      if error.Some? {
        return;
      }
      if entry.expiresAt <= now {
        return Some(ExpiredRecord);
      }
      if entry.feedId in highest && highest[entry.feedId] >= entry.sequence {
        return Some(ReplayedSequence);
      }
      highest := highest[entry.feedId := entry.sequence];
      entries := entries[entry.feedId := entry];
    }

    method PublishForNetwork(expected: NetworkId, now: int, entry: Entry) returns (error: Option<DirectoryError>)
      modifies this
      ensures
        if expected != entry.networkId then
          error == Some(NetworkMismatch(expected, entry.networkId)) && View() == old(View())
        else
          error == PublishError(oracle, now, old(View()), entry) && View() == Publish(oracle, now, old(View()), entry)
    {
      if expected != entry.networkId {
        return Some(NetworkMismatch(expected, entry.networkId));
      }
      error := PublishRecord(now, entry);
    }
  }

  // ---- folding records into a store ----

  function Publisher(oracle: Oracle, now: int): (Store, Entry) -> Store {
    (s: Store, entry: Entry) => Publish(oracle, now, s, entry)
  }

  ghost function StoreAfter(oracle: Oracle, now: int, records: seq<Entry>): Store {
    Run(Publisher(oracle, now), EMPTY, records)
  }

  /** The two maps describe the same feeds, and agree on each. */
  predicate Consistent(s: Store) {
    && s.highest.Keys == s.entries.Keys
    && forall feed :: feed in s.entries ==> s.entries[feed].feedId == feed && s.highest[feed] == s.entries[feed].sequence
  }

  /** After any sequence of publishes, at any clock readings, the store is consistent. */
  lemma AlwaysConsistent(oracle: Oracle, publishes: seq<(int, Entry)>)
    ensures Consistent(Run((s: Store, p: (int, Entry)) => Publish(oracle, p.0, s, p.1), EMPTY, publishes))
  {
    Invariant((s: Store, p: (int, Entry)) => Publish(oracle, p.0, s, p.1), EMPTY, publishes, (s: Store) => Consistent(s));
  }

  /** `entry` is an admissible record of its feed with the highest sequence among `records`. */
  ghost predicate Newest(oracle: Oracle, now: int, records: seq<Entry>, entry: Entry) {
    && entry in records
    && Admissible(oracle, now, entry)
    && forall other :: other in records && Admissible(oracle, now, other) && other.feedId == entry.feedId ==>
      other.sequence <= entry.sequence
  }

  ghost predicate HoldsNewest(oracle: Oracle, now: int, records: seq<Entry>, s: Store) {
    && Consistent(s)
    && (forall feed :: feed in s.entries ==> Newest(oracle, now, records, s.entries[feed]))
    && (forall entry :: entry in records && Admissible(oracle, now, entry) ==> entry.feedId in s.entries)
  }

  /** Each feed holds a record of maximum sequence among the admissible ones published. */
  lemma {:induction false} StoreHoldsNewest(oracle: Oracle, now: int, records: seq<Entry>)
    ensures HoldsNewest(oracle, now, records, StoreAfter(oracle, now, records))
  {
    if records != [] {
      var past, entry := records[..|records| - 1], records[|records| - 1];
      StoreHoldsNewest(oracle, now, past);
      assert records == past + [entry];
      PublishKeepsNewest(oracle, now, past, StoreAfter(oracle, now, past), entry);
    }
  }

  lemma PublishKeepsNewest(oracle: Oracle, now: int, past: seq<Entry>, s: Store, entry: Entry)
    requires HoldsNewest(oracle, now, past, s)
    ensures HoldsNewest(oracle, now, past + [entry], Publish(oracle, now, s, entry))
  {
    var records, after := past + [entry], Publish(oracle, now, s, entry);
    assert forall other :: other in records <==> other in past || other == entry;
    forall feed | feed in after.entries
      ensures Newest(oracle, now, records, after.entries[feed])
    {
      if feed == entry.feedId {
        PublishedIsNewest(oracle, now, past, s, entry);
      } else {
        assert Newest(oracle, now, past, s.entries[feed]);
      }
    }
  }

  lemma PublishedIsNewest(oracle: Oracle, now: int, past: seq<Entry>, s: Store, entry: Entry)
    requires HoldsNewest(oracle, now, past, s)
    requires entry.feedId in Publish(oracle, now, s, entry).entries
    ensures Newest(oracle, now, past + [entry], Publish(oracle, now, s, entry).entries[entry.feedId])
  {
    assert forall other :: other in past + [entry] <==> other in past || other == entry;
    if entry.feedId in s.entries {
      assert Newest(oracle, now, past, s.entries[entry.feedId]);
    }
  }

  ghost predicate SameMembers(records: seq<Entry>, others: seq<Entry>) {
    forall entry :: entry in records <==> entry in others
  }

  /** No feed has two different admissible records of its highest sequence number. Records that
      share a lower number, or that are not admissible, are no obstacle. */
  ghost predicate TopUnique(oracle: Oracle, now: int, records: seq<Entry>) {
    forall a, b :: (Newest(oracle, now, records, a) && Newest(oracle, now, records, b) && a.feedId == b.feedId) ==> a == b
  }

  /** Every publication of the same records, in any order and with any repetition, gives the
      same store. */
  ghost predicate Converges(oracle: Oracle, now: int, records: seq<Entry>) {
    forall others :: SameMembers(records, others) ==> StoreAfter(oracle, now, others) == StoreAfter(oracle, now, records)
  }

  lemma NewestDependsOnMembers(oracle: Oracle, now: int, records: seq<Entry>, others: seq<Entry>, s: Store)
    requires SameMembers(records, others)
    requires HoldsNewest(oracle, now, others, s)
    ensures HoldsNewest(oracle, now, records, s)
  {
    forall feed | feed in s.entries
      ensures Newest(oracle, now, records, s.entries[feed])
    {
      assert Newest(oracle, now, others, s.entries[feed]);
    }
  }

  lemma NewestIsWithin(oracle: Oracle, now: int, records: seq<Entry>, left: Store, right: Store)
    requires TopUnique(oracle, now, records)
    requires HoldsNewest(oracle, now, records, left) && HoldsNewest(oracle, now, records, right)
    ensures forall feed :: feed in left.entries ==> feed in right.entries && left.entries[feed] == right.entries[feed]
  {
    forall feed | feed in left.entries
      ensures feed in right.entries && left.entries[feed] == right.entries[feed]
    {
      assert Newest(oracle, now, records, left.entries[feed]);
      assert Newest(oracle, now, records, right.entries[feed]);
    }
  }

  lemma ConsistentStoresAgree(left: Store, right: Store)
    requires Consistent(left) && Consistent(right) && left.entries == right.entries
    ensures left == right
  {
  }

  lemma UniqueTopsConverge(oracle: Oracle, now: int, records: seq<Entry>, others: seq<Entry>)
    requires SameMembers(records, others) && TopUnique(oracle, now, records)
    ensures StoreAfter(oracle, now, others) == StoreAfter(oracle, now, records)
  {
    var left, right := StoreAfter(oracle, now, records), StoreAfter(oracle, now, others);
    StoreHoldsNewest(oracle, now, records);
    StoreHoldsNewest(oracle, now, others);
    NewestDependsOnMembers(oracle, now, records, others, right);
    NewestIsWithin(oracle, now, records, left, right);
    NewestIsWithin(oracle, now, records, right, left);
    assert left.entries == right.entries;
    ConsistentStoresAgree(left, right);
  }

  predicate Holds(s: Store, entry: Entry) {
    entry.feedId in s.entries && s.entries[entry.feedId] == entry
  }

  /** A newest record that is published first stays: nothing after it exceeds it. */
  lemma {:induction false} FirstNewestStays(oracle: Oracle, now: int, records: seq<Entry>, entry: Entry, rest: seq<Entry>)
    requires Newest(oracle, now, records, entry)
    requires forall other :: other in rest ==> other in records
    ensures Holds(StoreAfter(oracle, now, [entry] + rest), entry)
  {
    if rest == [] {
      RunLast(Publisher(oracle, now), EMPTY, [], entry);
      assert [entry] + rest == [] + [entry];
      PublishToEmpty(oracle, now, entry);
    } else {
      var front, last := rest[..|rest| - 1], rest[|rest| - 1];
      FirstNewestStays(oracle, now, records, entry, front);
      assert [entry] + rest == [entry] + front + [last];
      RunLast(Publisher(oracle, now), EMPTY, [entry] + front, last);
      StoreHoldsNewest(oracle, now, [entry] + front);
      NewerOrRefused(oracle, now, StoreAfter(oracle, now, [entry] + front), entry, last);
    }
  }

  lemma PublishToEmpty(oracle: Oracle, now: int, entry: Entry)
    requires Admissible(oracle, now, entry)
    ensures Holds(Publish(oracle, now, EMPTY, entry), entry)
  {
  }

  lemma NewerOrRefused(oracle: Oracle, now: int, s: Store, entry: Entry, last: Entry)
    requires Consistent(s) && Holds(s, entry)
    requires Admissible(oracle, now, last) && last.feedId == entry.feedId ==> last.sequence <= entry.sequence
    ensures Holds(Publish(oracle, now, s, last), entry)
  {
  }

  /** Two records at the top of one feed: each can be made the one that stays. */
  lemma ConvergenceMakesTopsUnique(oracle: Oracle, now: int, records: seq<Entry>, a: Entry, b: Entry)
    requires Converges(oracle, now, records)
    requires Newest(oracle, now, records, a) && Newest(oracle, now, records, b) && a.feedId == b.feedId
    ensures a == b
  {
    FirstNewestStays(oracle, now, records, a, records);
    FirstNewestStays(oracle, now, records, b, records);
    assert SameMembers(records, [a] + records) && SameMembers(records, [b] + records);
    assert StoreAfter(oracle, now, [a] + records) == StoreAfter(oracle, now, [b] + records);
  }

  /** Convergence, exactly: the same records give the same store whatever the order and the
      repetition if and only if no feed has a tie at its top. */
  lemma Convergence(oracle: Oracle, now: int, records: seq<Entry>)
    ensures Converges(oracle, now, records) <==> TopUnique(oracle, now, records)
  {
    if Converges(oracle, now, records) {
      forall a, b | Newest(oracle, now, records, a) && Newest(oracle, now, records, b) && a.feedId == b.feedId
        ensures a == b
      {
        ConvergenceMakesTopsUnique(oracle, now, records, a, b);
      }
    }
    if TopUnique(oracle, now, records) {
      forall others | SameMembers(records, others)
        ensures StoreAfter(oracle, now, others) == StoreAfter(oracle, now, records)
      {
        UniqueTopsConverge(oracle, now, records, others);
      }
    }
  }

  /** A tie at the top is a failure for real: two different admissible records of one feed with
      one sequence number give two stores, one for each order. */
  lemma TiedPairDiverges(oracle: Oracle, now: int, a: Entry, b: Entry)
    requires Admissible(oracle, now, a) && Admissible(oracle, now, b)
    requires a.feedId == b.feedId && a.sequence == b.sequence && a != b
    ensures StoreAfter(oracle, now, [a, b]) != StoreAfter(oracle, now, [b, a])
  {
    FirstNewestStays(oracle, now, [a, b], a, [b]);
    FirstNewestStays(oracle, now, [a, b], b, [a]);
    assert [a] + [b] == [a, b] && [b] + [a] == [b, a];
  }
}
