/** When the adapters display a sentence and which one, said without their algorithms: what is
    cut off a text and what is left, which words it has, which phrases withhold it, and which
    parts of a processor summary are told. */
module SentenceRules {
  import opened Prelude
  import opened Text
  import opened Sentences

  // ---- phrases ----

  /** The text is `before`, then the phrase in any ASCII case, then `after`. */
  predicate SaysBetween(s: string, before: string, said: string, after: string, phrase: string) {
    && s == before + said + after
    && |said| == |phrase|
    && forall k :: 0 <= k < |said| ==> if 'A' <= said[k] <= 'Z' then phrase[k] as int == said[k] as int + 32 else phrase[k] == said[k]
  }

  ghost predicate Says(s: string, phrase: string) {
    exists before, said, after :: SaysBetween(s, before, said, after, phrase)
  }

  lemma MentionsExactly(s: string, phrase: string)
    ensures Mentions(s, phrase) <==> Says(s, phrase)
  {
    if Mentions(s, phrase) {
      var i :| 0 <= i <= |s| && OccursAt(s, i, phrase);
      SaidAt(s, i, phrase);
    }
    if Says(s, phrase) {
      var before, said, after :| SaysBetween(s, before, said, after, phrase);
      SaidBetween(before, said, after, phrase);
    }
  }

  lemma SaidAt(s: string, i: nat, phrase: string)
    requires OccursAt(s, i, phrase)
    ensures SaysBetween(s, s[..i], s[i..i + |phrase|], s[i + |phrase|..], phrase)
  {
    var said := s[i..i + |phrase|];
    assert forall k :: 0 <= k < |said| ==> LowerChar(s[i + k]) == phrase[k] && said[k] == s[i + k];
  }

  lemma SaidBetween(before: string, said: string, after: string, phrase: string)
    requires SaysBetween(before + said + after, before, said, after, phrase)
    ensures OccursAt(before + said + after, |before|, phrase)
  {
    var s := before + said + after;
    assert forall k :: 0 <= k < |said| ==> s[|before| + k] == said[k];
  }

  /** The text mentions something that is not to be displayed. */
  ghost predicate Sensitive(s: string) {
    exists phrase :: Says(s, phrase) && phrase in [
      "secret", "token", "password", "api key", "stdout", "stderr", "diff --git", "/home/", "\\home\\"]
  }

  lemma UnsafeExactly(s: string)
    ensures Unsafe(s) <==> Sensitive(s)
  {
    forall phrase
      ensures Mentions(s, phrase) <==> Says(s, phrase)
    {
      MentionsExactly(s, phrase);
    }
  }

  /** A headline and a deck about the run rather than the work. */
  ghost predicate TellsNothing(headline: string, deck: string) {
    exists phrase :: Says(headline + " " + deck, phrase) && phrase in [
      "ci status", "command events", "confirms pass state", "file change", "files changed", "matches prior", "raw output",
      "run state", "settled around", "tests passed", "two-file"]
  }

  lemma LowSignalExactly(headline: string, deck: string)
    ensures LowSignal(headline, deck) <==> TellsNothing(headline, deck)
  {
    forall phrase
      ensures Mentions(headline + " " + deck, phrase) <==> Says(headline + " " + deck, phrase)
    {
      MentionsExactly(headline + " " + deck, phrase);
    }
  }

  // ---- words ----

  /** Words with a gap before each and one after the last. */
  function Lay(words: seq<string>, gaps: seq<string>): string
    requires |gaps| == |words| + 1
  {
    if words == [] then gaps[0] else gaps[0] + words[0] + Lay(words[1..], gaps[1..])
  }

  predicate AreGaps(words: seq<string>, gaps: seq<string>) {
    && |gaps| == |words| + 1
    && (forall k :: 0 <= k < |gaps| ==> AllSpace(gaps[k]))
    && forall k :: 0 < k < |words| ==> gaps[k] != ""
  }

  predicate LaidOut(s: string, words: seq<string>, gaps: seq<string>) {
    AreGaps(words, gaps) && s == Lay(words, gaps)
  }

  /** The text is these words between runs of whitespace. */
  ghost predicate HasWords(s: string, words: seq<string>) {
    (forall k :: 0 <= k < |words| ==> IsWord(words[k])) && exists gaps :: LaidOut(s, words, gaps)
  }

  lemma {:induction false} SpacesBefore(gap: string, rest: string)
    requires AllSpace(gap)
    ensures Words(gap + rest) == Words(rest)
  {
    if gap == "" {
      assert gap + rest == rest;
    } else {
      SpaceFirst(gap);
      SpacesBefore(gap[1..], rest);
      assert (gap + rest)[1..] == gap[1..] + rest;
    }
  }

  lemma {:induction false} WordsOfLay(words: seq<string>, gaps: seq<string>)
    requires AreGaps(words, gaps) && forall k :: 0 <= k < |words| ==> IsWord(words[k])
    ensures Words(Lay(words, gaps)) == words
  {
    if words == [] {
      SpacesBefore(gaps[0], "");
      assert gaps[0] + "" == gaps[0];
    } else {
      var rest := Lay(words[1..], gaps[1..]);
      WordsOfLay(words[1..], gaps[1..]);
      SpacesBefore(gaps[0], words[0] + rest);
      assert gaps[0] + words[0] + rest == gaps[0] + (words[0] + rest);
      assert rest != "" ==> IsSpace(rest[0]);
      WordThen(words[0], rest);
    }
  }

  lemma {:induction false} LayWord(w: string, rest: string, words: seq<string>, gaps: seq<string>)
    requires IsWord(w) && (rest != "" ==> IsSpace(rest[0]))
    requires LaidOut(rest, words, gaps) && (words != [] ==> IsWord(words[0]))
    ensures LaidOut(w + rest, [w] + words, [""] + gaps)
  {
    assert ([w] + words)[1..] == words && ([""] + gaps)[1..] == gaps;
    assert "" + w + rest == w + rest;
    assert words != [] ==> !IsSpace(words[0][0]);
  }

  lemma {:induction false} LaySpace(c: char, rest: string, words: seq<string>, gaps: seq<string>)
    requires IsSpace(c) && LaidOut(rest, words, gaps)
    ensures LaidOut([c] + rest, words, [[c] + gaps[0]] + gaps[1..])
  {
    assert ([[c] + gaps[0]] + gaps[1..])[1..] == gaps[1..];
    if words != [] {
      Regroup([c], gaps[0], words[0]);
      Regroup([c], gaps[0] + words[0], Lay(words[1..], gaps[1..]));
    }
  }

  lemma {:induction false} LayWords(s: string) returns (gaps: seq<string>)
    ensures LaidOut(s, Words(s), gaps)
    decreases |s|
  {
    if s == "" {
      gaps := [""];
    } else if IsSpace(s[0]) {
      gaps := LayWords(s[1..]);
      LaySpace(s[0], s[1..], Words(s[1..]), gaps);
      gaps := [[s[0]] + gaps[0]] + gaps[1..];
      assert s == [s[0]] + s[1..];
    } else {
      var n := WordLength(s);
      gaps := LayWords(s[n..]);
      LayWord(s[..n], s[n..], Words(s[n..]), gaps);
      gaps := [""] + gaps;
      assert s == s[..n] + s[n..];
    }
  }

  lemma WordsExactly(s: string, words: seq<string>)
    ensures Words(s) == words <==> HasWords(s, words)
  {
    var gaps := LayWords(s);
    assert LaidOut(s, Words(s), gaps);
    if HasWords(s, words) {
      var others :| LaidOut(s, words, others);
      WordsOfLay(words, others);
    }
  }

  lemma {:induction false} WordAndBoth(a: string, b: string)
    requires a != "" && !IsSpace(a[0]) && (b != "" ==> IsSpace(b[0]))
    requires Words(a[WordLength(a)..] + b) == Words(a[WordLength(a)..]) + Words(b)
    ensures Words(a + b) == Words(a) + Words(b)
  {
    var w, rest := a[..WordLength(a)], a[WordLength(a)..];
    WordJoined(w, rest, b);
    assert a == w + rest;
  }

  lemma {:induction false} WordJoined(w: string, rest: string, b: string)
    requires IsWord(w) && (rest + b != "" ==> IsSpace((rest + b)[0]))
    requires Words(rest + b) == Words(rest) + Words(b)
    ensures Words(w + rest + b) == [w] + Words(rest) + Words(b)
  {
    WordThen(w, rest + b);
    Regroup(w, rest, b);
    Regroup([w], Words(rest), Words(b));
  }

  lemma {:induction false} SpaceAndBoth(a: string, b: string)
    requires a != "" && IsSpace(a[0])
    requires Words(a[1..] + b) == Words(a[1..]) + Words(b)
    ensures Words(a + b) == Words(a) + Words(b)
  {
    assert (a + b)[1..] == a[1..] + b;
  }

  lemma {:induction false} WordsOfBoth(a: string, b: string)
    requires b != "" ==> IsSpace(b[0])
    ensures Words(a + b) == Words(a) + Words(b)
    decreases |a|
  {
    if a == "" {
      assert a + b == b;
    } else if IsSpace(a[0]) {
      WordsOfBoth(a[1..], b);
      SpaceAndBoth(a, b);
    } else {
      WordsOfBoth(a[WordLength(a)..], b);
      WordAndBoth(a, b);
    }
  }

  // ---- what is cut off ----

  /** Whitespace on both sides of the rest, which has none at its ends. */
  predicate Stripped(s: string, left: string, rest: string, right: string) {
    s == left + rest + right && AllSpace(left) && AllSpace(right) && Trimmed(rest)
  }

  lemma {:induction false} TrimExactly(s: string, rest: string)
    ensures Trim(s) == rest <==> exists left, right :: Stripped(s, left, rest, right)
  {
    var front, back := TrimmedParts(s);
    assert Stripped(s, front, Trim(s), back);
    forall left, right | Stripped(s, left, rest, right)
      ensures Trim(s) == rest
    {
      TrimsToMiddle(left, rest, right);
    }
  }

  lemma WordsOfTrimmed(s: string)
    ensures Words(Trim(s)) == Words(s)
  {
    TrimExactly(s, Trim(s));
    var left, right :| Stripped(s, left, Trim(s), right);
    WordsOfBoth(left + Trim(s), right);
    SpacesBefore(left, Trim(s));
    SpacesBefore(right, "");
    assert right + "" == right;
  }

  predicate AllStops(s: string) {
    forall k :: 0 <= k < |s| ==> s[k] == '.' || s[k] == '!' || s[k] == '?'
  }

  /** The text is the rest, which does not end in a stop, and stops. */
  predicate Unstopped(s: string, rest: string) {
    rest <= s && AllStops(s[|rest|..]) && (rest != "" ==> !AllStops(rest[|rest| - 1..]))
  }

  lemma StopAfter(s: string, stop: char)
    requires IsStop(stop)
    ensures AllStops(s + [stop]) <==> AllStops(s)
  {
    assert forall k :: 0 <= k < |s| ==> (s + [stop])[k] == s[k];
  }

  lemma {:induction false} StopsExactly(s: string, rest: string)
    ensures TrimStops(s) == rest <==> Unstopped(s, rest)
  {
    if Stopped(s) {
      var n := |s| - 1;
      StopsExactly(s[..n], rest);
      if rest <= s[..n] {
        StopAfter(s[..n][|rest|..], s[n]);
        assert s[|rest|..] == s[..n][|rest|..] + [s[n]];
      } else if rest == s {
        assert rest[|rest| - 1..] == [s[n]];
      }
    } else if s != "" {
      assert s[|s| - 1..] == [s[|s| - 1]];
      assert rest < s ==> s[|rest|..][|s| - |rest| - 1] == s[|s| - 1];
    }
  }

  predicate AllQuotes(s: string) {
    forall k :: 0 <= k < |s| ==> s[k] == '`' || s[k] == '"' || s[k] == '\''
  }

  predicate Unquoted(s: string, left: string, rest: string, right: string) {
    && s == left + rest + right && AllQuotes(left) && AllQuotes(right)
    && (rest != "" ==> !AllQuotes(rest[..1]) && !AllQuotes(rest[|rest| - 1..]))
  }

  lemma {:induction false} Unquote(s: string) returns (left: string, right: string)
    ensures Unquoted(s, left, TrimQuotes(s), right)
  {
    if s != "" && IsQuote(s[0]) {
      left, right := Unquote(s[1..]);
      QuoteBefore(s[0], s[1..], left, TrimQuotes(s[1..]), right);
      left := [s[0]] + left;
      assert s == [s[0]] + s[1..];
    } else if s != "" && IsQuote(s[|s| - 1]) {
      left, right := Unquote(s[..|s| - 1]);
      QuoteAfter(s[|s| - 1], s[..|s| - 1], left, TrimQuotes(s[..|s| - 1]), right);
      right := right + [s[|s| - 1]];
      assert s == s[..|s| - 1] + [s[|s| - 1]];
    } else {
      left, right := "", "";
      assert "" + s + "" == s;
      assert s != "" ==> s[..1] == [s[0]] && s[|s| - 1..] == [s[|s| - 1]];
    }
  }

  lemma QuoteBefore(c: char, s: string, left: string, rest: string, right: string)
    requires IsQuote(c) && Unquoted(s, left, rest, right)
    ensures Unquoted([c] + s, [c] + left, rest, right)
  {
    Regroup([c], left, rest);
    Regroup([c], left + rest, right);
  }

  lemma QuoteAfter(c: char, s: string, left: string, rest: string, right: string)
    requires IsQuote(c) && Unquoted(s, left, rest, right)
    ensures Unquoted(s + [c], left, rest, right + [c])
  {
    Regroup(left + rest, right, [c]);
  }

  /** A rest without quotes at its ends is found in one way only. */
  lemma UnquotedOnce(s: string, a: string, rest: string, b: string, c: string, other: string, d: string)
    requires Unquoted(s, a, rest, b) && Unquoted(s, c, other, d)
    ensures rest == other
  {
    if other != "" {
      RestWithin(s, a, rest, b, c, other, d);
    }
    if rest != "" {
      RestWithin(s, c, other, d, a, rest, b);
    }
  }

  lemma RestWithin(s: string, a: string, rest: string, b: string, c: string, other: string, d: string)
    requires Unquoted(s, a, rest, b) && Unquoted(s, c, other, d) && other != ""
    ensures |a| <= |c| && |b| <= |d|
    ensures rest == s[|a|..|s| - |b|] && other == s[|c|..|s| - |d|]
  {
    assert other[..1] == [s[|c|]] && other[|other| - 1..] == [s[|s| - |d| - 1]];
    assert forall k :: 0 <= k < |a| ==> s[k] == a[k];
    assert forall k :: |s| - |b| <= k < |s| ==> s[k] == b[k - (|s| - |b|)];
  }

  // ---- sentences ----

  /** The words of the text with single spaces between: all of them and, unless they end in a
      stop, a full stop; or the first 24 and an ellipsis when there are more. */
  ghost predicate Reads(s: string, sentence: string) {
    exists words :: HasWords(s, words) && words != [] && ReadsAs(words, sentence)
  }

  predicate ReadsAs(words: seq<string>, sentence: string) {
    if |words| > 24 then sentence == Join(words[..24], ' ') + "..."
    else
      var all := Join(words, ' ');
      sentence == if all != "" && AllStops(all[|all| - 1..]) then all else all + "."
  }

  lemma ClampExactly(s: string, sentence: string)
    requires Trim(s) != ""
    ensures Clamp(s, 24) == sentence <==> Reads(s, sentence)
  {
    TextHasWords(s);
    ClampReads(s, sentence);
    WordsExactly(s, Words(s));
    if Reads(s, sentence) {
      var words :| HasWords(s, words) && words != [] && ReadsAs(words, sentence);
      WordsExactly(s, words);
    }
  }

  lemma {:induction false} ClampReads(s: string, sentence: string)
    requires Words(s) != []
    ensures Clamp(s, 24) == sentence <==> ReadsAs(Words(s), sentence)
  {
    var all := Join(FirstN(Words(s), 24), ' ');
    assert all != "" ==> all[|all| - 1..] == [all[|all| - 1]];
  }

  /** A text is displayed exactly when something is left of it after trimming that mentions
      nothing sensitive, and then as its words. */
  ghost predicate Displays(s: string, sentence: string) {
    Trim(s) != "" && !Sensitive(Trim(s)) && Reads(Trim(s), sentence)
  }

  lemma PlainExactly(s: string, sentence: string)
    ensures PlainSentence(s) == Some(sentence) <==> Displays(s, sentence)
  {
    UnsafeExactly(Trim(s));
    if Trim(s) != "" {
      ClampExactly(Trim(s), sentence);
    }
  }

  // ---- processor summaries ----

  /** From the first opening brace to the last closing one. */
  predicate ObjectBetween(s: string, before: string, json: string, after: string) {
    && s == before + json + after
    && '{' !in before && '}' !in after
    && |json| >= 2 && json[0] == '{' && json[|json| - 1] == '}'
  }

  ghost predicate ObjectIn(s: string, json: string) {
    exists before, after :: ObjectBetween(s, before, json, after)
  }

  lemma {:induction false} FirstIs(s: string, c: char, i: nat)
    requires i <= |s| && c !in s[..i] && (i < |s| ==> s[i] == c)
    ensures FirstOf(s, c) == i
  {
    if i > 0 {
      assert s[0] in s[..i];
      assert s[1..][..i - 1] == s[..i][1..];
      FirstIs(s[1..], c, i - 1);
    }
  }

  lemma {:induction false} NoneBefore(s: string, c: char)
    ensures c !in s[..FirstOf(s, c)]
  {
    if s != "" && s[0] != c {
      NoneBefore(s[1..], c);
      assert s[..FirstOf(s, c)] == [s[0]] + s[1..][..FirstOf(s[1..], c)];
    }
  }

  lemma {:induction false} PastLastIs(s: string, c: char, i: nat)
    requires i <= |s| && c !in s[i..] && (i > 0 ==> s[i - 1] == c)
    ensures PastLastOf(s, c) == i
  {
    if i < |s| {
      var n := |s| - 1;
      assert s[n] == s[i..][n - i];
      assert s[..n][i..] == s[i..][..n - i];
      PastLastIs(s[..n], c, i);
    }
  }

  lemma {:induction false} NoneAfter(s: string, c: char)
    ensures c !in s[PastLastOf(s, c)..]
  {
    var n := |s| - 1;
    if s != "" && s[n] != c {
      NoneAfter(s[..n], c);
      assert s[PastLastOf(s, c)..] == s[..n][PastLastOf(s[..n], c)..] + [s[n]];
    }
  }

  lemma ObjectExactly(s: string, json: string)
    ensures ExtractObject(s) == Some(json) <==> ObjectIn(s, json)
  {
    if ExtractObject(s).Some? {
      ObjectFound(s);
    }
    forall before, after | ObjectBetween(s, before, json, after)
      ensures ExtractObject(s) == Some(json)
    {
      ObjectIsFound(s, before, json, after);
    }
  }

  lemma {:induction false} ObjectFound(s: string)
    requires ExtractObject(s).Some?
    ensures ObjectIn(s, ExtractObject(s).value)
  {
    var start, end := FirstOf(s, '{'), PastLastOf(s, '}');
    NoneBefore(s, '{');
    NoneAfter(s, '}');
    var before, json, after := s[..start], s[start..end], s[end..];
    assert s == before + json + after;
    assert ObjectBetween(s, before, json, after);
  }

  lemma {:induction false} ObjectIsFound(s: string, before: string, json: string, after: string)
    requires ObjectBetween(s, before, json, after)
    ensures ExtractObject(s) == Some(json)
  {
    var i, j := |before|, |before| + |json|;
    assert s[..i] == before && s[j..] == after && s[i..j] == json;
    assert s[i] == json[0] && s[j - 1] == json[|json| - 1];
    FirstIs(s, '{', i);
    PastLastIs(s, '}', j);
  }

  function DeckOf(parsed: Parsed): string {
    if parsed.deck.Some? then parsed.deck.value else ""
  }

  /** The deck is shown when it is not blank and tells something. */
  ghost predicate ShowsDeck(parsed: Parsed) {
    Trim(DeckOf(parsed)) != "" && !TellsNothing(Trim(DeckOf(parsed)), "")
  }

  /** The fields give a story: a headline that is not blank, not withheld by the processor,
      and telling something together with the deck. */
  ghost predicate HasStory(parsed: Parsed) {
    && parsed.headline.Some? && Trim(parsed.headline.value) != ""
    && parsed.publish != Some(false)
    && !TellsNothing(Trim(parsed.headline.value), DeckOf(parsed))
  }

  /** The story is the headline without its closing stops and, when the deck is shown, a full
      stop and the deck without its own. */
  ghost predicate Story(parsed: Parsed, headline: string, deck: string, text: string)
    requires HasStory(parsed)
  {
    && Unstopped(Trim(parsed.headline.value), headline)
    && Unstopped(Trim(DeckOf(parsed)), deck)
    && text == if ShowsDeck(parsed) then headline + ". " + deck else headline
  }

  /** The value contains an object whose fields give a story with this text. */
  ghost predicate Summarises(parse: Parser, value: string, json: string, headline: string, deck: string, text: string) {
    ObjectIn(value, json) && parse(json).Some? && HasStory(parse(json).value) && Story(parse(json).value, headline, deck, text)
  }

  ghost predicate GivesSummary(parse: Parser, value: string, sentence: string) {
    exists json, headline, deck, text :: Summarises(parse, value, json, headline, deck, text) && Displays(text, sentence)
  }

  /** The text that a summary is read as, if any. */
  function SummaryText(parsed: Parsed): string
    requires parsed.headline.Some?
  {
    var headline, deck := Trim(parsed.headline.value), Trim(DeckOf(parsed));
    if deck != "" && !LowSignal(deck, "") then TrimStops(headline) + ". " + TrimStops(deck) else TrimStops(headline)
  }

  lemma StoryExactly(parsed: Parsed, headline: string, deck: string, text: string)
    requires HasStory(parsed)
    ensures Story(parsed, headline, deck, text) <==>
      && headline == TrimStops(Trim(parsed.headline.value)) && deck == TrimStops(Trim(DeckOf(parsed)))
      && text == SummaryText(parsed)
  {
    StopsExactly(Trim(parsed.headline.value), headline);
    StopsExactly(Trim(DeckOf(parsed)), deck);
    LowSignalExactly(Trim(DeckOf(parsed)), "");
  }

  lemma SummaryBySteps(parse: Parser, value: string)
    ensures
      var json := ExtractObject(value);
      SummarySentence(parse, value) ==
        if json.None? || parse(json.value).None? || !HasStory(parse(json.value).value) then None
        else PlainSentence(SummaryText(parse(json.value).value))
  {
    var json := ExtractObject(value);
    if json.Some? && parse(json.value).Some? && parse(json.value).value.headline.Some? {
      var parsed := parse(json.value).value;
      LowSignalExactly(Trim(parsed.headline.value), DeckOf(parsed));
    }
  }

  /** A summary gives a sentence exactly when an object is found in it that parses, its fields
      give a story, and the text of the story may be displayed; the sentence is that text's. */
  lemma SummaryExactly(parse: Parser, value: string, sentence: string)
    ensures SummarySentence(parse, value) == Some(sentence) <==> GivesSummary(parse, value, sentence)
  {
    SummaryBySteps(parse, value);
    if SummarySentence(parse, value) == Some(sentence) {
      var json := ExtractObject(value).value;
      var parsed := parse(json).value;
      ObjectExactly(value, json);
      PlainExactly(SummaryText(parsed), sentence);
      StoryExactly(parsed, TrimStops(Trim(parsed.headline.value)), TrimStops(Trim(DeckOf(parsed))), SummaryText(parsed));
      assert Summarises(parse, value, json, TrimStops(Trim(parsed.headline.value)), TrimStops(Trim(DeckOf(parsed))), SummaryText(parsed));
    }
    forall json, headline, deck, text | Summarises(parse, value, json, headline, deck, text) && Displays(text, sentence)
      ensures SummarySentence(parse, value) == Some(sentence)
    {
      ObjectExactly(value, json);
      StoryExactly(parse(json).value, headline, deck, text);
      PlainExactly(text, sentence);
    }
  }

  /** The words of a story: the headline's, and after a full stop the deck's when it is
      shown. */
  ghost function StoryWords(parsed: Parsed, headline: string, deck: string): seq<string> {
    if ShowsDeck(parsed) then Words(headline + ".") + Words(deck) else Words(headline)
  }

  lemma WordsOfStory(parsed: Parsed, headline: string, deck: string, text: string)
    requires HasStory(parsed) && Story(parsed, headline, deck, text)
    ensures Words(text) == StoryWords(parsed, headline, deck)
  {
    WordsOfTwo(headline, deck);
  }

  lemma WordsOfTwo(first: string, second: string)
    ensures Words(first + ". " + second) == Words(first + ".") + Words(second)
  {
    WordsOfBoth(first + ".", [' '] + second);
    SpaceThenWords(second);
    assert first + ". " + second == (first + ".") + ([' '] + second);
  }

  lemma WordsDisplayed(text: string, sentence: string)
    requires Displays(text, sentence)
    ensures ReadsAs(Words(text), sentence)
  {
    var words :| HasWords(Trim(text), words) && ReadsAs(words, sentence);
    WordsExactly(Trim(text), words);
    WordsOfTrimmed(text);
  }

  /** The sentence of a summary reads as the words of its story. */
  lemma SummaryWords(parse: Parser, value: string, json: string, headline: string, deck: string, text: string, sentence: string)
    requires Summarises(parse, value, json, headline, deck, text) && Displays(text, sentence)
    ensures SummarySentence(parse, value) == Some(sentence)
    ensures ReadsAs(StoryWords(parse(json).value, headline, deck), sentence)
  {
    SummaryExactly(parse, value, sentence);
    WordsOfStory(parse(json).value, headline, deck, text);
    WordsDisplayed(text, sentence);
  }

  // ---- agent text ----

  /** Not a fence, a heading or a list item. */
  predicate Prose(line: string) {
    line != "" && !("```" <= line) && !("#" <= line) && !("- " <= line) && !("* " <= line)
  }

  /** The first line of prose among the trimmed lines. */
  ghost predicate FirstProseLine(value: string, line: string) {
    exists k :: FirstProseIs(CleanLines(value), k, line)
  }

  predicate FirstProseIs(lines: seq<string>, k: nat, line: string) {
    k < |lines| && lines[k] == line && Prose(line) && forall j :: 0 <= j < k ==> !Prose(lines[j])
  }

  lemma {:induction false} FirstProseAt(lines: seq<string>)
    ensures FirstProse(lines).None? ==> forall k :: 0 <= k < |lines| ==> !Prose(lines[k])
    ensures FirstProse(lines).Some? ==> exists k :: FirstProseIs(lines, k, FirstProse(lines).value)
  {
    if lines != [] && !Prose(lines[0]) {
      FirstProseAt(lines[1..]);
      if FirstProse(lines).Some? {
        var k: nat :| FirstProseIs(lines[1..], k, FirstProse(lines).value);
        assert FirstProseIs(lines, k + 1, FirstProse(lines).value);
      }
    } else if lines != [] {
      assert FirstProseIs(lines, 0, lines[0]);
    }
  }

  lemma FirstProseExactly(value: string, line: string)
    ensures FirstProse(CleanLines(value)) == Some(line) <==> FirstProseLine(value, line)
  {
    FirstProseAt(CleanLines(value));
  }

  /** What an agent's text is read as: its first line of prose without the quotes around it. */
  ghost predicate ReadAs(value: string, core: string) {
    exists line, left, right :: FirstProseLine(value, line) && Unquoted(line, left, core, right)
  }

  lemma ReadAsExactly(value: string, core: string)
    ensures ReadAs(value, core) <==>
      FirstProse(CleanLines(value)).Some? && core == TrimQuotes(FirstProse(CleanLines(value)).value)
  {
    forall line, left, right | FirstProseLine(value, line) && Unquoted(line, left, core, right)
      ensures FirstProse(CleanLines(value)) == Some(line) && core == TrimQuotes(line)
    {
      FirstProseExactly(value, line);
      var a, b := Unquote(line);
      UnquotedOnce(line, left, core, right, a, TrimQuotes(line), b);
    }
    if FirstProse(CleanLines(value)).Some? {
      var line := FirstProse(CleanLines(value)).value;
      FirstProseExactly(value, line);
      var left, right := Unquote(line);
    }
  }

  predicate PartAt(s: string, before: string, part: string, after: string) {
    s == before + part + after
  }

  ghost predicate Holds(s: string, part: string) {
    exists before, after :: PartAt(s, before, part, after)
  }

  lemma HasTextExactly(s: string, part: string)
    ensures HasText(s, part) <==> Holds(s, part)
  {
    if HasText(s, part) {
      var i :| 0 <= i <= |s| && StartsWith(s[i..], part);
      assert PartAt(s, s[..i], part, s[i..][|part|..]);
    }
    forall before, after | PartAt(s, before, part, after)
      ensures HasText(s, part)
    {
      assert s[|before|..] == part + after;
    }
  }

  /** A brace after leading whitespace, and the quoted name of a summary's field. */
  ghost predicate SeemsSummary(s: string) {
    && "{" <= TrimStart(s)
    && (|| Holds(TrimStart(s), "\"headline\"") || Holds(TrimStart(s), "\"deck\"") || Holds(TrimStart(s), "\"publish\"")
        || Holds(TrimStart(s), "\"memory_digest\"") || Holds(TrimStart(s), "\"semantic_fingerprint\""))
  }

  lemma SeemsExactly(s: string)
    ensures LooksLikeSummaryJson(s) <==> SeemsSummary(s)
  {
    var trimmed := TrimStart(s);
    HasTextExactly(trimmed, "\"headline\"");
    HasTextExactly(trimmed, "\"deck\"");
    HasTextExactly(trimmed, "\"publish\"");
    HasTextExactly(trimmed, "\"memory_digest\"");
    HasTextExactly(trimmed, "\"semantic_fingerprint\"");
  }

  /** What an agent's line displays: the sentence of the summary in it; without one, and when
      it does not look like a summary, its own. */
  ghost predicate LineDisplays(parse: Parser, line: string, sentence: string) {
    || GivesSummary(parse, line, sentence)
    || ((forall other :: !GivesSummary(parse, line, other)) && !SeemsSummary(line) && Displays(line, sentence))
  }

  /** An agent's text displays exactly what its first line of prose does. */
  lemma AgentExactly(parse: Parser, value: string, sentence: string)
    ensures AgentSentence(parse, value) == Some(sentence) <==>
      exists core :: ReadAs(value, core) && LineDisplays(parse, Trim(core), sentence)
  {
    if FirstProse(CleanLines(value)).Some? {
      var core := TrimQuotes(FirstProse(CleanLines(value)).value);
      ReadAsExactly(value, core);
      LineExactly(parse, Trim(core), sentence);
    }
    if exists core :: ReadAs(value, core) && LineDisplays(parse, Trim(core), sentence) {
      var core :| ReadAs(value, core) && LineDisplays(parse, Trim(core), sentence);
      ReadAsExactly(value, core);
    }
  }

  lemma LineExactly(parse: Parser, line: string, sentence: string)
    requires Trimmed(line)
    ensures LineSentence(parse, line) == Some(sentence) <==> LineDisplays(parse, line, sentence)
  {
    forall other
      ensures GivesSummary(parse, line, other) <==> SummarySentence(parse, line) == Some(other)
    {
      SummaryExactly(parse, line, other);
    }
    SeemsExactly(line);
    PlainExactly(line, sentence);
    if SummarySentence(parse, line).Some? {
      assert GivesSummary(parse, line, SummarySentence(parse, line).value);
    }
  }

  /** A summary that the processor withheld, or that has no story to tell, is not displayed as
      the agent's own words. */
  lemma WithheldSummaryIsSilent(parse: Parser, value: string, core: string, json: string)
    requires ReadAs(value, core) && SeemsSummary(Trim(core)) && ObjectIn(Trim(core), json)
    requires parse(json).Some? ==> !HasStory(parse(json).value)
    ensures AgentSentence(parse, value) == None
  {
    ReadAsExactly(value, core);
    ObjectExactly(Trim(core), json);
    SummaryBySteps(parse, Trim(core));
    SeemsExactly(Trim(core));
  }
}
