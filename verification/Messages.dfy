/** The transcript adapter's memory of recent messages: a message whose fingerprint was
    remembered recently is not reported again. */
module Messages {
  import opened Prelude
  import opened Runs
  import opened Text
  import opened Sentences

  const MEMORY: nat := 64

  predicate AsciiAlphanumeric(c: char) {
    '0' <= c <= '9' || 'A' <= c <= 'Z' || 'a' <= c <= 'z'
  }

  function FingerprintChar(c: char): char {
    if AsciiAlphanumeric(c) || IsSpace(c) then LowerChar(c) else ' '
  }

  function Normalise(s: string): (r: string)
    ensures |r| == |s|
    ensures forall k :: 0 <= k < |s| ==> r[k] == FingerprintChar(s[k])
  {
    seq(|s|, k requires 0 <= k < |s| => FingerprintChar(s[k]))
  }

  /** Lower-cased words, punctuation dropped, single spaces between. */
  function Fingerprint(s: string): string {
    Join(Words(Normalise(s)), ' ')
  }

  function Remember(recent: seq<string>, fingerprint: string): seq<string> {
    if fingerprint == "" || fingerprint in recent then recent else LastN(recent + [fingerprint], MEMORY)
  }

  class TranscriptMemory {
    var recent: seq<string>

    constructor ()
      ensures recent == []
    {
      recent := [];
    }

    /** True when the message is to be reported. */
    method RememberMessage(summary: string) returns (report: bool)
      modifies this
      ensures recent == Remember(old(recent), Fingerprint(summary))
      ensures report == (Fingerprint(summary) == "" || Fingerprint(summary) !in old(recent))
    {
      var fingerprint := Fingerprint(summary);
      if fingerprint == "" {
        return true;
      }
      if fingerprint in recent {
        return false;
      }
      recent := PopFront(recent + [fingerprint], MEMORY);
      return true;
    }
  }

  // ---- fingerprints ----

  predicate PlainWord(w: string) {
    forall k :: 0 <= k < |w| ==> FingerprintChar(w[k]) == w[k]
  }

  lemma NormalisedChar(c: char)
    ensures FingerprintChar(FingerprintChar(c)) == FingerprintChar(c)
  {
  }

  lemma {:induction false} PlainJoin(words: seq<string>)
    requires forall k :: 0 <= k < |words| ==> PlainWord(words[k])
    ensures PlainWord(Join(words, ' '))
  {
    if |words| > 1 {
      PlainJoin(words[1..]);
    }
  }

  lemma PlainWords(s: string, k: nat)
    requires PlainWord(s) && k < |Words(s)|
    ensures PlainWord(Words(s)[k])
  {
    var at := WordIsWithin(s, k);
    var w := Words(s)[k];
    assert forall j :: 0 <= j < |w| ==> w[j] == s[at + j];
  }

  /** A fingerprint is its own fingerprint, so comparing fingerprints compares the words. */
  lemma FingerprintIsStable(s: string)
    ensures Fingerprint(Fingerprint(s)) == Fingerprint(s)
  {
    var words := Words(Normalise(s));
    forall k | 0 <= k < |Normalise(s)|
      ensures FingerprintChar(Normalise(s)[k]) == Normalise(s)[k]
    {
      NormalisedChar(s[k]);
    }
    forall k | 0 <= k < |words|
      ensures PlainWord(words[k])
    {
      PlainWords(Normalise(s), k);
    }
    PlainJoin(words);
    assert Normalise(Fingerprint(s)) == Fingerprint(s);
    WordsJoin(words);
  }

  // ---- every run ----

  function Rememberer(): (seq<string>, string) -> seq<string> {
    (recent: seq<string>, summary: string) => Remember(recent, Fingerprint(summary))
  }

  ghost function After(messages: seq<string>): seq<string> {
    Run(Rememberer(), [], messages)
  }

  /** The fingerprints newly remembered, in order. */
  function Remembered(): Visit<seq<string>, string> -> seq<string> {
    (v: Visit<seq<string>, string>) =>
      if Fingerprint(v.act) == "" || Fingerprint(v.act) in v.before then [] else [Fingerprint(v.act)]
  }

  ghost function Log(messages: seq<string>): seq<string> {
    Collect(Visits(Rememberer(), [], messages), Remembered())
  }

  lemma LogGrows(past: seq<string>, last: string)
    ensures Log(past + [last]) ==
      Log(past) + if Fingerprint(last) == "" || Fingerprint(last) in After(past) then [] else [Fingerprint(last)]
  {
    assert (past + [last])[..|past|] == past;
    CollectStep(Rememberer(), [], past + [last], Remembered());
  }

  /** The memory is exactly the last 64 fingerprints remembered. */
  lemma MemoryIsEndOfLog(messages: seq<string>)
    ensures After(messages) == LastN(Log(messages), MEMORY)
  {
    Window(Rememberer(), [], messages, MEMORY, (recent: seq<string>) => recent, Remembered());
  }

  ghost predicate FarApart(log: seq<string>) {
    forall i, j :: 0 <= i < j < |log| && log[i] == log[j] ==> j - i > MEMORY
  }

  lemma RecentlyLogged(log: seq<string>, i: nat)
    requires i < |log| && |log| - i <= MEMORY
    ensures log[i] in LastN(log, MEMORY)
  {
    var recent := LastN(log, MEMORY);
    assert log[i] == recent[i - (|log| - |recent|)];
  }

  lemma FarApartAppend(log: seq<string>, fingerprint: string)
    requires FarApart(log) && fingerprint !in LastN(log, MEMORY)
    ensures FarApart(log + [fingerprint])
  {
    forall i | 0 <= i < |log| && |log| - i <= MEMORY
      ensures log[i] != fingerprint
    {
      RecentlyLogged(log, i);
    }
  }

  /** Two remembered messages with the same fingerprint are more than 64 remembered messages
      apart. */
  lemma {:induction false} RepeatsAreFarApart(messages: seq<string>)
    ensures FarApart(Log(messages))
  {
    if messages != [] {
      var past, last := messages[..|messages| - 1], messages[|messages| - 1];
      RepeatsAreFarApart(past);
      MemoryIsEndOfLog(past);
      CollectStep(Rememberer(), [], messages, Remembered());
      if Fingerprint(last) != "" && Fingerprint(last) !in After(past) {
        FarApartAppend(Log(past), Fingerprint(last));
      }
    }
  }
}
