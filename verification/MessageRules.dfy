/** Which messages the transcript adapter reports, told from the earlier messages alone: a
    message is compared by its words with the last 64 that were kept. */
module MessageRules {
  import opened Prelude
  import opened Text
  import opened Sentences
  import opened SentenceRules
  import opened Messages

  /** A letter in lower case, a digit or whitespace for itself, anything else as a space. */
  predicate FoldsTo(c: char, folded: char) {
    if 'A' <= c <= 'Z' then folded as int == c as int + 32
    else if 'a' <= c <= 'z' || '0' <= c <= '9' || IsSpace(c) then folded == c
    else folded == ' '
  }

  predicate Folded(s: string, text: string) {
    |text| == |s| && forall k :: 0 <= k < |s| ==> FoldsTo(s[k], text[k])
  }

  /** The message has these words once letter case and punctuation are ignored. */
  ghost predicate SpokenAs(s: string, words: seq<string>) {
    exists text :: Folded(s, text) && HasWords(text, words)
  }

  ghost predicate SameWords(a: string, b: string) {
    exists words :: SpokenAs(a, words) && SpokenAs(b, words)
  }

  lemma FoldedExactly(s: string, text: string)
    ensures Folded(s, text) <==> text == Normalise(s)
  {
    if Folded(s, text) {
      forall k | 0 <= k < |s|
        ensures text[k] == Normalise(s)[k]
      {
      }
    }
  }

  lemma SpokenExactly(s: string, words: seq<string>)
    ensures SpokenAs(s, words) <==> words == Words(Normalise(s))
  {
    FoldedExactly(s, Normalise(s));
    WordsExactly(Normalise(s), words);
    forall text | Folded(s, text) && HasWords(text, words)
      ensures words == Words(Normalise(s))
    {
      FoldedExactly(s, text);
    }
  }

  lemma JoinedWords(a: seq<string>, b: seq<string>)
    requires forall k :: 0 <= k < |a| ==> IsWord(a[k])
    requires forall k :: 0 <= k < |b| ==> IsWord(b[k])
    ensures Join(a, ' ') == Join(b, ' ') <==> a == b
  {
    WordsJoin(a);
    WordsJoin(b);
  }

  /** Two messages have the same fingerprint exactly when they have the same words, and an
      empty one exactly when they have none. */
  lemma FingerprintsExactly(a: string, b: string)
    ensures Fingerprint(a) == Fingerprint(b) <==> SameWords(a, b)
    ensures Fingerprint(a) == "" <==> SpokenAs(a, [])
  {
    var mine, theirs := Words(Normalise(a)), Words(Normalise(b));
    JoinedWords(mine, theirs);
    JoinedWords(mine, []);
    SpokenExactly(a, mine);
    SpokenExactly(b, mine);
    SpokenExactly(a, []);
    forall words | SpokenAs(a, words) && SpokenAs(b, words)
      ensures mine == theirs
    {
      SpokenExactly(a, words);
      SpokenExactly(b, words);
    }
  }

  /** The message has words, and other words than each of the last 64 kept. */
  ghost predicate IsFresh(kept: seq<string>, message: string) {
    && !SpokenAs(message, [])
    && forall k :: 0 <= k < |kept| && |kept| - k <= 64 ==> !SameWords(kept[k], message)
  }

  /** The messages kept for comparison, in order. */
  ghost function Kept(messages: seq<string>): seq<string> {
    if messages == [] then []
    else
      var past, last := messages[..|messages| - 1], messages[|messages| - 1];
      if IsFresh(Kept(past), last) then Kept(past) + [last] else Kept(past)
  }

  function Fingerprints(messages: seq<string>): (r: seq<string>)
    ensures |r| == |messages|
    ensures forall k :: 0 <= k < |messages| ==> r[k] == Fingerprint(messages[k])
  {
    seq(|messages|, k requires 0 <= k < |messages| => Fingerprint(messages[k]))
  }

  lemma FreshExactly(kept: seq<string>, message: string)
    ensures IsFresh(kept, message) <==> Fingerprint(message) != "" && Fingerprint(message) !in LastN(Fingerprints(kept), MEMORY)
  {
    var recent := LastN(Fingerprints(kept), MEMORY);
    FingerprintsExactly(message, message);
    forall k | 0 <= k < |kept|
      ensures Fingerprint(kept[k]) == Fingerprint(message) <==> SameWords(kept[k], message)
    {
      FingerprintsExactly(kept[k], message);
    }
    forall k | 0 <= k < |recent|
      ensures recent[k] == Fingerprint(kept[|kept| - |recent| + k])
    {
    }
    forall k | 0 <= k < |kept| && |kept| - k <= 64
      ensures Fingerprint(kept[k]) in recent
    {
      assert recent[k - (|kept| - |recent|)] == Fingerprint(kept[k]);
    }
  }

  lemma {:induction false} LogFromHistory(messages: seq<string>)
    ensures Log(messages) == Fingerprints(Kept(messages))
  {
    if messages != [] {
      var past, last := messages[..|messages| - 1], messages[|messages| - 1];
      assert past + [last] == messages;
      LogFromHistory(past);
      LogGrows(past, last);
      FreshAfter(past, last);
      OneMore(Kept(past), last);
    }
  }

  lemma FreshAfter(past: seq<string>, last: string)
    requires Log(past) == Fingerprints(Kept(past))
    ensures IsFresh(Kept(past), last) <==> Fingerprint(last) != "" && Fingerprint(last) !in After(past)
  {
    MemoryIsEndOfLog(past);
    FreshExactly(Kept(past), last);
  }

  lemma OneMore(kept: seq<string>, message: string)
    ensures Fingerprints(kept + [message]) == Fingerprints(kept) + [Fingerprint(message)]
  {
  }

  /** After any messages, the next one is reported exactly when it has no words or other words
      than each of the last 64 kept. */
  lemma ReportedExactly(messages: seq<string>, message: string)
    ensures (Fingerprint(message) == "" || Fingerprint(message) !in After(messages)) <==>
      SpokenAs(message, []) || IsFresh(Kept(messages), message)
  {
    LogFromHistory(messages);
    FreshAfter(messages, message);
    FingerprintsExactly(message, message);
  }
}
