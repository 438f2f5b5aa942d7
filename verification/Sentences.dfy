/** Display-safe sentences: agent text is screened for unsafe words, cut to 24 words and
    closed with a full stop. JSON parsing stays uninterpreted. */
module Sentences {
  import opened Prelude
  import opened Text

  // ---- words ----

  /** Length of the run of non-space characters at the front. */
  function WordLength(s: string): (n: nat)
    ensures n <= |s|
    ensures forall k :: 0 <= k < n ==> !IsSpace(s[k])
    ensures n < |s| ==> IsSpace(s[n])
  {
    if s == "" || IsSpace(s[0]) then 0 else 1 + WordLength(s[1..])
  }

  predicate IsWord(w: string) {
    w != "" && forall k :: 0 <= k < |w| ==> !IsSpace(w[k])
  }

  /** The words between runs of whitespace. */
  function Words(s: string): (words: seq<string>)
    ensures forall k :: 0 <= k < |words| ==> IsWord(words[k])
    decreases |s|
  {
    if s == "" then []
    else if IsSpace(s[0]) then Words(s[1..])
    else [s[..WordLength(s)]] + Words(s[WordLength(s)..])
  }

  predicate IsStop(c: char) {
    c == '.' || c == '!' || c == '?'
  }

  predicate Stopped(s: string) {
    s != "" && IsStop(s[|s| - 1])
  }

  /** The ellipsis of a cut sentence and the closing full stop, when they are needed. */
  function Ending(words: seq<string>, max: nat): string {
    var kept := Join(FirstN(words, max), ' ');
    if |words| > max then "..." else if Stopped(kept) then "" else "."
  }

  function Clamp(s: string, max: nat): string {
    var words := Words(s);
    if FirstN(words, max) == [] then "" else Join(FirstN(words, max), ' ') + Ending(words, max)
  }

  method ClampWords(input: string, max: nat) returns (value: string)
    ensures value == Clamp(input, max)
  {
    var words := Words(input);
    var output, next := [], 0;
    for i := 0 to max
      invariant next == if i < |words| then i else |words|
      invariant output == words[..next]
    {
      if next < |words| {
        output := output + [words[next]];
        next := next + 1;
      }
    }
    assert output == FirstN(words, max);
    if output == [] {
      return "";
    }
    value := Join(output, ' ');
    if next < |words| {
      value := value + "...";
    }
    if !Stopped(value) {
      value := value + ".";
    }
  }

  // ---- screening ----

  /** The needle occurs at position `i`, ignoring ASCII case. */
  predicate OccursAt(s: string, i: nat, needle: string) {
    i + |needle| <= |s| && forall k :: 0 <= k < |needle| ==> LowerChar(s[i + k]) == needle[k]
  }

  predicate Mentions(s: string, needle: string) {
    exists i :: 0 <= i <= |s| && OccursAt(s, i, needle)
  }

  const SOLID_NEEDLES := ["secret", "token", "password", "stdout", "stderr", "/home/", "\\home\\"]
  const SPACED_NEEDLES := ["api key", "diff --git"]

  predicate Unsafe(s: string) {
    exists needle :: needle in SOLID_NEEDLES + SPACED_NEEDLES && Mentions(s, needle)
  }

  function PlainSentence(value: string): Option<string> {
    var sentence := Trim(value);
    if sentence == "" || Unsafe(sentence) then None else Some(Clamp(sentence, 24))
  }

  // ---- processor summaries ----

  datatype Parsed = Parsed(headline: Option<string>, publish: Option<bool>, deck: Option<string>)

  /** The JSON parser: the fields read from an object, or nothing when it does not parse. */
  type Parser = string -> Option<Parsed>

  const LOW_SIGNALS := [
    "ci status", "command events", "confirms pass state", "file change", "files changed", "matches prior", "raw output",
    "run state", "settled around", "tests passed", "two-file"]

  /** The headline and the deck, with a space between, mention a phrase that tells nothing. */
  predicate LowSignal(headline: string, deck: string) {
    exists phrase :: phrase in LOW_SIGNALS && Mentions(headline + " " + deck, phrase)
  }

  function FirstOf(s: string, c: char): (i: nat)
    ensures i <= |s|
    ensures i < |s| ==> s[i] == c
  {
    if s == "" || s[0] == c then 0 else 1 + FirstOf(s[1..], c)
  }

  /** One past the last occurrence, or 0. */
  function PastLastOf(s: string, c: char): (i: nat)
    ensures i <= |s|
    ensures 0 < i ==> s[i - 1] == c
  {
    if s == "" then 0
    else if s[|s| - 1] == c then |s|
    else PastLastOf(s[..|s| - 1], c)
  }

  function ExtractObject(s: string): Option<string> {
    var start, end := FirstOf(s, '{'), PastLastOf(s, '}');
    if start + 1 < end then Some(s[start..end]) else None
  }

  function TrimStops(s: string): string {
    if Stopped(s) then TrimStops(s[..|s| - 1]) else s
  }

  function SummarySentence(parse: Parser, value: string): Option<string> {
    var json := ExtractObject(value);
    if json.None? || parse(json.value).None? then None
    else
      var parsed := parse(json.value).value;
      if parsed.headline.None? then None
      else
        var headline := Trim(parsed.headline.value);
        var rawDeck := if parsed.deck.Some? then parsed.deck.value else "";
        if headline == "" || parsed.publish == Some(false) || LowSignal(headline, rawDeck) then None
        else
          var deck := Trim(rawDeck);
          var sentence :=
            if deck != "" && !LowSignal(deck, "") then TrimStops(headline) + ". " + TrimStops(deck)
            else TrimStops(headline);
          PlainSentence(sentence)
  }

  // ---- agent text ----

  predicate StartsWith(s: string, prefix: string) {
    prefix <= s
  }

  predicate IsProse(line: string) {
    && line != ""
    && !StartsWith(line, "```") && !StartsWith(line, "#") && !StartsWith(line, "- ") && !StartsWith(line, "* ")
  }

  function FirstProse(lines: seq<string>): Option<string> {
    if lines == [] then None
    else if IsProse(lines[0]) then Some(lines[0])
    else FirstProse(lines[1..])
  }

  predicate IsQuote(c: char) {
    c == '`' || c == '"' || c == '\''
  }

  function TrimQuotes(s: string): string {
    if s != "" && IsQuote(s[0]) then TrimQuotes(s[1..])
    else if s != "" && IsQuote(s[|s| - 1]) then TrimQuotes(s[..|s| - 1])
    else s
  }

  predicate HasText(s: string, part: string) {
    exists i :: 0 <= i <= |s| && StartsWith(s[i..], part)
  }

  predicate LooksLikeSummaryJson(s: string) {
    var trimmed := TrimStart(s);
    && StartsWith(trimmed, "{")
    && (|| HasText(trimmed, "\"headline\"") || HasText(trimmed, "\"deck\"") || HasText(trimmed, "\"publish\"")
        || HasText(trimmed, "\"memory_digest\"") || HasText(trimmed, "\"semantic_fingerprint\""))
  }

  function AgentSentence(parse: Parser, value: string): Option<string> {
    var line := FirstProse(CleanLines(value));
    if line.None? then None else LineSentence(parse, Trim(TrimQuotes(line.value)))
  }

  function LineSentence(parse: Parser, line: string): Option<string> {
    if SummarySentence(parse, line).Some? then SummarySentence(parse, line)
    else if LooksLikeSummaryJson(line) then None
    else if line == "" || Unsafe(line) then None
    else Some(Clamp(line, 24))
  }

  // ---- what the words of a clamped sentence are ----

  lemma {:induction false} WordsJoin(words: seq<string>)
    requires forall k :: 0 <= k < |words| ==> IsWord(words[k])
    ensures Words(Join(words, ' ')) == words
  {
    if |words| == 1 {
      WordThen(words[0], "");
      assert words[0] + "" == words[0] && [words[0]] + [] == words;
    } else if words != [] {
      var rest := Join(words[1..], ' ');
      WordsJoin(words[1..]);
      Regroup(words[0], [' '], rest);
      WordThen(words[0], [' '] + rest);
      SpaceThenWords(rest);
      assert [words[0]] + words[1..] == words;
    }
  }

  lemma SpaceThenWords(rest: string)
    ensures Words([' '] + rest) == Words(rest)
  {
    assert ([' '] + rest)[1..] == rest;
  }

  lemma WordLengthIs(s: string, n: nat)
    requires n <= |s| && (forall k :: 0 <= k < n ==> !IsSpace(s[k])) && (n < |s| ==> IsSpace(s[n]))
    ensures WordLength(s) == n
  {
  }

  lemma {:induction false} WordThen(w: string, rest: string)
    requires IsWord(w) && (rest != "" ==> IsSpace(rest[0]))
    ensures Words(w + rest) == [w] + Words(rest)
  {
    var s := w + rest;
    assert forall k :: 0 <= k < |w| ==> s[k] == w[k];
    WordLengthIs(s, |w|);
    assert s[..|w|] == w && s[|w|..] == rest;
  }

  lemma {:induction false} JoinEnding(words: seq<string>, ending: string)
    requires words != []
    ensures Join(words, ' ') + ending == Join(words[|words| - 1 := words[|words| - 1] + ending], ' ')
  {
    if |words| > 1 {
      var changed := words[|words| - 1 := words[|words| - 1] + ending];
      JoinEnding(words[1..], ending);
      assert changed[1..] == words[1..][|words| - 2 := words[1..][|words| - 2] + ending];
    }
  }

  /** The words of a clamped sentence: the kept words, the last one with the ending. */
  function Shown(words: seq<string>, max: nat): seq<string>
    requires FirstN(words, max) != []
  {
    var kept := FirstN(words, max);
    kept[|kept| - 1 := kept[|kept| - 1] + Ending(words, max)]
  }

  lemma ClampShown(s: string, max: nat)
    requires FirstN(Words(s), max) != []
    ensures Clamp(s, max) == Join(Shown(Words(s), max), ' ')
    ensures Words(Clamp(s, max)) == Shown(Words(s), max)
  {
    var words := Words(s);
    JoinEnding(FirstN(words, max), Ending(words, max));
    WordsJoin(Shown(words, max));
  }

  lemma {:induction false} TextHasWords(s: string)
    requires Trim(s) != ""
    ensures Words(s) != []
  {
    if IsSpace(s[0]) {
      TextHasWords(s[1..]);
    }
  }

  lemma ClampIsStopped(s: string, max: nat)
    requires FirstN(Words(s), max) != []
    ensures Stopped(Clamp(s, max))
  {
    var kept := Join(FirstN(Words(s), max), ' ');
    var value := Clamp(s, max);
    assert value == kept + Ending(Words(s), max);
  }

  // ---- no needle appears by joining ----

  predicate Solid(needle: string) {
    needle != "" && forall k :: 0 <= k < |needle| ==> !IsSpace(needle[k]) && needle[k] != '.'
  }

  /** A solid needle lies wholly before or wholly after a space or a full stop. */
  lemma SolidStaysOnOneSide(s: string, i: nat, needle: string, p: nat)
    requires Solid(needle) && OccursAt(s, i, needle)
    requires p < |s| && (IsSpace(s[p]) || s[p] == '.')
    ensures i + |needle| <= p || p < i
  {
    if i <= p < i + |needle| {
      SolidCharacters(s, i, needle, p);
    }
  }

  lemma {:induction false} NeedleInJoin(words: seq<string>, needle: string, i: nat) returns (k: nat)
    requires Solid(needle) && OccursAt(Join(words, ' '), i, needle)
    ensures k < |words| && Mentions(words[k], needle)
  {
    var s, w := Join(words, ' '), words[0];
    if |words| > 1 {
      SolidStaysOnOneSide(s, i, needle, |w|);
    }
    if |words| == 1 || i + |needle| <= |w| {
      assert OccursAt(w, i, needle);
      k := 0;
    } else {
      var rest := Join(words[1..], ' ');
      assert forall j :: 0 <= j < |rest| ==> rest[j] == s[|w| + 1 + j];
      assert OccursAt(rest, i - |w| - 1, needle);
      k := NeedleInJoin(words[1..], needle, i - |w| - 1);
      k := k + 1;
    }
  }

  lemma NeedleBeforeEnding(word: string, ending: string, needle: string)
    requires Solid(needle) && (forall k :: 0 <= k < |ending| ==> ending[k] == '.')
    requires Mentions(word + ending, needle)
    ensures Mentions(word, needle)
  {
    var s := word + ending;
    var i :| 0 <= i <= |s| && OccursAt(s, i, needle);
    SolidCharacters(s, i, needle, i + |needle| - 1);
    assert OccursAt(word, i, needle);
  }

  lemma SolidCharacters(s: string, i: nat, needle: string, p: nat)
    requires Solid(needle) && OccursAt(s, i, needle)
    requires i <= p < i + |needle|
    ensures !IsSpace(s[p]) && s[p] != '.'
  {
    assert LowerChar(s[i + (p - i)]) == needle[p - i];
  }

  lemma {:induction false} WordIsWithin(s: string, k: nat) returns (at: nat)
    requires k < |Words(s)|
    ensures at + |Words(s)[k]| <= |s| && s[at..at + |Words(s)[k]|] == Words(s)[k]
  {
    var size := |Words(s)[k]|;
    if IsSpace(s[0]) {
      var inner := WordIsWithin(s[1..], k);
      at := inner + 1;
      SliceOfTail(s, 1, inner, inner + size);
    } else if k == 0 {
      at := 0;
    } else {
      var inner := WordIsWithin(s[WordLength(s)..], k - 1);
      at := inner + WordLength(s);
      SliceOfTail(s, WordLength(s), inner, inner + size);
    }
  }

  lemma SliceOfTail(s: string, a: nat, i: nat, j: nat)
    requires i <= j && a + j <= |s|
    ensures s[a..][i..j] == s[a + i..a + j]
  {
  }

  lemma MentionWithin(s: string, at: nat, part: string, needle: string)
    requires at + |part| <= |s| && s[at..at + |part|] == part
    requires Mentions(part, needle)
    ensures Mentions(s, needle)
  {
    var j :| 0 <= j <= |part| && OccursAt(part, j, needle);
    assert forall k :: 0 <= k < |part| ==> part[k] == s[at + k];
    assert OccursAt(s, at + j, needle);
  }

  /** A whitespace-free needle that the clamped sentence mentions was in the text already. */
  lemma ClampAddsNoNeedle(s: string, max: nat, needle: string)
    requires Solid(needle) && Mentions(Clamp(s, max), needle)
    ensures Mentions(s, needle)
  {
    var words := Words(s);
    assert FirstN(words, max) != [];
    ClampShown(s, max);
    var k := MentionInShown(words, max, needle);
    var at := WordIsWithin(s, k);
    MentionWithin(s, at, words[k], needle);
  }

  lemma MentionInShown(words: seq<string>, max: nat, needle: string) returns (k: nat)
    requires Solid(needle) && FirstN(words, max) != []
    requires Mentions(Join(Shown(words, max), ' '), needle)
    ensures k < |words| && Mentions(words[k], needle)
  {
    var i :| 0 <= i <= |Join(Shown(words, max), ' ')| && OccursAt(Join(Shown(words, max), ' '), i, needle);
    k := NeedleInJoin(Shown(words, max), needle, i);
    if k == |FirstN(words, max)| - 1 {
      NeedleBeforeEnding(words[k], Ending(words, max), needle);
    }
  }

  /** What every returned sentence guarantees, whatever the input. */
  predicate DisplaySafe(sentence: string) {
    && sentence != ""
    && |Words(sentence)| <= 24
    && Stopped(sentence)
    && forall needle :: needle in SOLID_NEEDLES ==> !Mentions(sentence, needle)
  }

  lemma NeedlesAreSolid(needle: string)
    requires needle in SOLID_NEEDLES
    ensures Solid(needle)
  {
  }

  lemma ClampIsDisplaySafe(s: string)
    requires Trim(s) != "" && !Unsafe(s)
    ensures DisplaySafe(Clamp(s, 24))
  {
    TextHasWords(s);
    ClampShown(s, 24);
    ClampIsStopped(s, 24);
    forall needle | needle in SOLID_NEEDLES
      ensures !Mentions(Clamp(s, 24), needle)
    {
      NeedlesAreSolid(needle);
      assert needle in SOLID_NEEDLES + SPACED_NEEDLES;
      if Mentions(Clamp(s, 24), needle) {
        ClampAddsNoNeedle(s, 24, needle);
      }
    }
  }

  lemma PlainSentenceIsSafe(value: string)
    requires PlainSentence(value).Some?
    ensures DisplaySafe(PlainSentence(value).value)
  {
    ClampIsDisplaySafe(Trim(value));
  }

  lemma SummarySentenceIsSafe(parse: Parser, value: string)
    requires SummarySentence(parse, value).Some?
    ensures DisplaySafe(SummarySentence(parse, value).value)
  {
    var parsed := parse(ExtractObject(value).value).value;
    var headline := Trim(parsed.headline.value);
    var deck := Trim(if parsed.deck.Some? then parsed.deck.value else "");
    if deck != "" && !LowSignal(deck, "") {
      PlainSentenceIsSafe(TrimStops(headline) + ". " + TrimStops(deck));
    } else {
      PlainSentenceIsSafe(TrimStops(headline));
    }
  }

  /** Every sentence the adapters return for display, for every input and whatever the JSON
      parser says, is non-empty, has at most 24 words, ends in a stop
      and mentions no whitespace-free unsafe word. */
  lemma AgentSentenceIsSafe(parse: Parser, value: string)
    requires AgentSentence(parse, value).Some?
    ensures DisplaySafe(AgentSentence(parse, value).value)
  {
    var sentence := Trim(TrimQuotes(FirstProse(CleanLines(value)).value));
    if SummarySentence(parse, sentence).Some? {
      SummarySentenceIsSafe(parse, sentence);
    } else {
      ClampIsDisplaySafe(sentence);
    }
  }

  // ---- needles that contain a space ----

  predicate EndsWithFold(word: string, tail: string) {
    |tail| <= |word| && OccursAt(word, |word| - |tail|, tail)
  }

  /** Two neighbouring words carry the two halves of a phrase at their facing ends. */
  predicate Across(words: seq<string>, left: string, right: string) {
    exists k :: 0 <= k < |words| - 1 && EndsWithFold(words[k], left) && OccursAt(words[k + 1], 0, right)
  }

  function Phrase(left: string, right: string): string {
    left + [' '] + right
  }

  lemma PhraseSplits(s: string, i: nat, left: string, right: string)
    ensures OccursAt(s, i, Phrase(left, right)) <==>
      OccursAt(s, i, left) && i + |left| < |s| && s[i + |left|] == ' ' && OccursAt(s, i + |left| + 1, right)
  {
    var phrase := Phrase(left, right);
    assert phrase[|left|] == ' ';
    assert forall k :: 0 <= k < |left| ==> phrase[k] == left[k];
    assert forall k :: 0 <= k < |right| ==> phrase[|left| + 1 + k] == right[k];
    if OccursAt(s, i, phrase) {
      assert LowerChar(s[i + |left|]) == phrase[|left|];
      forall k | 0 <= k < |right|
        ensures LowerChar(s[i + |left| + 1 + k]) == right[k]
      {
        assert LowerChar(s[i + (|left| + 1 + k)]) == phrase[|left| + 1 + k];
      }
    }
    if OccursAt(s, i, left) && i + |left| < |s| && s[i + |left|] == ' ' && OccursAt(s, i + |left| + 1, right) {
      forall k | 0 <= k < |phrase|
        ensures LowerChar(s[i + k]) == phrase[k]
      {
        if k > |left| {
          assert LowerChar(s[(i + |left| + 1) + (k - |left| - 1)]) == right[k - |left| - 1];
        }
      }
    }
  }

  lemma OccursInPart(s: string, at: nat, part: string, i: nat, needle: string)
    requires at + |part| <= |s| && s[at..at + |part|] == part
    requires i + |needle| <= |part|
    ensures OccursAt(s, at + i, needle) <==> OccursAt(part, i, needle)
  {
    assert forall k :: 0 <= k < |part| ==> part[k] == s[at + k];
    assert OccursAt(s, at + i, needle) ==> forall k :: 0 <= k < |needle| ==> LowerChar(s[at + i + k]) == needle[k];
  }

  /** A join of two or more words: the first word, a space, the join of the rest, which
      starts with the second word. */
  lemma JoinParts(words: seq<string>)
    requires |words| > 1
    ensures
      var s, w, rest := Join(words, ' '), words[0], Join(words[1..], ' ');
      && |s| == |w| + 1 + |rest| && s[0..|w|] == w && s[|w|] == ' ' && s[|w| + 1..|w| + 1 + |rest|] == rest
      && |words[1]| <= |rest| && rest[0..|words[1]|] == words[1]
      && (|words| > 2 ==> |words[1]| < |rest| && rest[|words[1]|] == ' ')
  {
    assert Join(words, ' ') == words[0] + [' '] + Join(words[1..], ' ');
    assert |words| > 2 ==> Join(words[1..], ' ') == words[1] + [' '] + Join(words[1..][1..], ' ');
  }

  /** A phrase whose space is the first gap of a join lies across the first two words. */
  lemma PhraseAtFirstGap(words: seq<string>, left: string, right: string, i: nat)
    requires Solid(left) && Solid(right) && |words| > 1 && i + |left| == |words[0]|
    requires OccursAt(Join(words, ' '), i, left) && OccursAt(Join(words, ' '), |words[0]| + 1, right)
    ensures Across(words, left, right)
  {
    var s, w, rest := Join(words, ' '), words[0], Join(words[1..], ' ');
    JoinParts(words);
    OccursInPart(s, 0, w, i, left);
    OccursInPart(s, |w| + 1, rest, 0, right);
    if |words| > 2 {
      SolidStaysOnOneSide(rest, 0, right, |words[1]|);
    }
    OccursInPart(rest, 0, words[1], 0, right);
    assert EndsWithFold(words[0], left) && OccursAt(words[0 + 1], 0, right);
  }

  lemma AcrossTail(words: seq<string>, left: string, right: string)
    requires words != [] && Across(words[1..], left, right)
    ensures Across(words, left, right)
  {
    var k :| 0 <= k < |words[1..]| - 1 && EndsWithFold(words[1..][k], left) && OccursAt(words[1..][k + 1], 0, right);
    assert EndsWithFold(words[k + 1], left) && OccursAt(words[k + 1 + 1], 0, right);
  }

  lemma {:induction false} PhraseInJoin(words: seq<string>, left: string, right: string, i: nat)
    requires Solid(left) && Solid(right) && (forall k :: 0 <= k < |words| ==> IsWord(words[k]))
    requires OccursAt(Join(words, ' '), i, Phrase(left, right))
    ensures Across(words, left, right)
  {
    var s, size := Join(words, ' '), |words[0]|;
    PhraseSplits(s, i, left, right);
    PhraseAfterFirst(words, left, right, i);
    if i + |left| == size {
      PhraseAtFirstGap(words, left, right, i);
    } else {
      PhraseInJoin(words[1..], left, right, i - size - 1);
      AcrossTail(words, left, right);
    }
  }

  /** A phrase of a join lies at its first gap or in the join of the rest. */
  lemma PhraseAfterFirst(words: seq<string>, left: string, right: string, i: nat)
    requires Solid(left) && Solid(right) && words != [] && IsWord(words[0])
    requires OccursAt(Join(words, ' '), i, Phrase(left, right))
    ensures |words| > 1 && |words[0]| <= i + |left|
    ensures |words[0]| < i + |left| ==> |words[0]| < i && OccursAt(Join(words[1..], ' '), i - |words[0]| - 1, Phrase(left, right))
  {
    var s, w := Join(words, ' '), words[0];
    PhraseSplits(s, i, left, right);
    assert |words| > 1;
    JoinParts(words);
    assert forall k :: 0 <= k < |w| ==> s[0..|w|][k] == s[k];
    assert |w| <= i + |left|;
    SolidStaysOnOneSide(s, i, left, |w|);
    if |w| < i + |left| {
      OccursInPart(s, |w| + 1, Join(words[1..], ' '), i - |w| - 1, Phrase(left, right));
    }
  }

  lemma PhraseAtFront(words: seq<string>, left: string, right: string)
    requires |words| > 1 && EndsWithFold(words[0], left) && OccursAt(words[1], 0, right)
    ensures OccursAt(Join(words, ' '), |words[0]| - |left|, Phrase(left, right))
  {
    var s, w, rest := Join(words, ' '), words[0], Join(words[1..], ' ');
    JoinParts(words);
    OccursInPart(s, 0, w, |w| - |left|, left);
    OccursInPart(rest, 0, words[1], 0, right);
    OccursInPart(s, |w| + 1, rest, 0, right);
    PhraseSplits(s, |w| - |left|, left, right);
  }

  lemma {:induction false} JoinHasPhrase(words: seq<string>, left: string, right: string, k: nat) returns (i: nat)
    requires k + 1 < |words| && EndsWithFold(words[k], left) && OccursAt(words[k + 1], 0, right)
    ensures OccursAt(Join(words, ' '), i, Phrase(left, right))
  {
    var s, w, rest := Join(words, ' '), words[0], Join(words[1..], ' ');
    JoinParts(words);
    if k == 0 {
      i := |w| - |left|;
      PhraseAtFront(words, left, right);
    } else {
      var inner := JoinHasPhrase(words[1..], left, right, k - 1);
      OccursInPart(s, |w| + 1, rest, inner, Phrase(left, right));
      i := |w| + 1 + inner;
    }
  }

  lemma StartIgnoresEnding(word: string, ending: string, right: string)
    requires Solid(right) && (forall k :: 0 <= k < |ending| ==> ending[k] == '.')
    ensures OccursAt(word + ending, 0, right) <==> OccursAt(word, 0, right)
  {
    if OccursAt(word + ending, 0, right) && |word| < |right| {
      SolidCharacters(word + ending, 0, right, |word|);
    }
  }

  lemma AcrossIgnoresEnding(words: seq<string>, max: nat, left: string, right: string)
    requires Solid(right) && FirstN(words, max) != []
    ensures Across(Shown(words, max), left, right) <==> Across(FirstN(words, max), left, right)
  {
    var kept, shown := FirstN(words, max), Shown(words, max);
    StartIgnoresEnding(kept[|kept| - 1], Ending(words, max), right);
    forall k | 0 <= k < |kept| - 1
      ensures EndsWithFold(shown[k], left) && OccursAt(shown[k + 1], 0, right) <==>
              EndsWithFold(kept[k], left) && OccursAt(kept[k + 1], 0, right)
    {
    }
  }

  /** A phrase of two words can appear in a clamped sentence although it was screened for,
      because whitespace is collapsed after the screening. It appears exactly when two
      neighbouring words among the first 24 carry its halves at their facing ends. */
  lemma PhraseAppearsIffAcross(s: string, max: nat, left: string, right: string)
    requires Solid(left) && Solid(right) && FirstN(Words(s), max) != []
    ensures Mentions(Clamp(s, max), Phrase(left, right)) <==> Across(FirstN(Words(s), max), left, right)
  {
    var shown := Shown(Words(s), max);
    ClampShown(s, max);
    AcrossIgnoresEnding(Words(s), max, left, right);
    if Mentions(Clamp(s, max), Phrase(left, right)) {
      var i :| 0 <= i <= |Clamp(s, max)| && OccursAt(Clamp(s, max), i, Phrase(left, right));
      PhraseInJoin(shown, left, right, i);
    }
    if Across(shown, left, right) {
      var k :| 0 <= k < |shown| - 1 && EndsWithFold(shown[k], left) && OccursAt(shown[k + 1], 0, right);
      var i := JoinHasPhrase(shown, left, right, k);
    }
  }

  lemma NotMentioned(s: string, needle: string)
    requires needle != ""
    requires forall k :: 0 <= k < |s| ==> LowerChar(s[k]) != needle[0] || k + |needle| > |s|
    ensures !Mentions(s, needle)
  {
    forall i | 0 <= i <= |s|
      ensures !OccursAt(s, i, needle)
    {
      if i + |needle| <= |s| {
        assert LowerChar(s[i + 0]) != needle[0];
      }
    }
  }

  lemma TabbedKeyPassesScreening(s: string)
    requires s == "api" + ['\t'] + "key"
    ensures !Unsafe(s)
  {
    forall needle | needle in SOLID_NEEDLES + SPACED_NEEDLES
      ensures !Mentions(s, needle)
    {
      if needle == "api key" {
        forall i | 0 <= i <= |s|
          ensures !OccursAt(s, i, needle)
        {
          assert i == 0 ==> LowerChar(s[0 + 3]) != needle[3];
        }
      } else {
        assert needle[0] in "stp/\\d";
        NotMentioned(s, needle);
      }
    }
  }

  lemma TwoWords(u: string, gap: char, v: string)
    requires IsWord(u) && IsWord(v) && IsSpace(gap)
    ensures Words(u + [gap] + v) == [u, v]
  {
    assert u + [gap] + v == u + ([gap] + v) && v + [] == v && ([gap] + v)[1..] == v;
    WordThen(u, [gap] + v);
    WordThen(v, []);
  }

  /** Whatever whitespace separates the two halves in the text, one space does in the
      sentence. */
  lemma GapCollapses(left: string, gap: char, right: string, max: nat)
    requires IsWord(left) && IsWord(right) && Solid(left) && Solid(right) && IsSpace(gap) && max >= 2
    requires OccursAt(left, 0, left) && OccursAt(right, 0, right)
    ensures Mentions(Clamp(left + [gap] + right, max), Phrase(left, right))
  {
    TwoWords(left, gap, right);
    var words := [left, right];
    assert EndsWithFold(words[0], left) && OccursAt(words[0 + 1], 0, right);
    assert FirstN(Words(left + [gap] + right), max) == words;
    PhraseAppearsIffAcross(left + [gap] + right, max, left, right);
  }

  /** The screening for phrases is not a guarantee: this input passes it, and the sentence
      returned for it contains the phrase. */
  lemma ApiKeyCanAppear(left: string, right: string)
    requires left == "api" && right == "key"
    ensures PlainSentence(left + ['\t'] + right).Some?
    ensures Mentions(PlainSentence(left + ['\t'] + right).value, Phrase(left, right))
  {
    var s := left + ['\t'] + right;
    TabbedKeyPassesScreening(s);
    assert Trimmed(s);
    GapCollapses(left, '\t', right, 24);
  }
}
