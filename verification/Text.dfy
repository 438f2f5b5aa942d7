/** Splitting, joining and trimming text, as the string operations of the source do it. */
module Text {
  import opened Prelude
  import opened Runs

  // ---- splitting on a separator ----

  /** All pieces between separators: one more piece than there are separators. */
  function Split<T(==)>(s: seq<T>, sep: T): (pieces: seq<seq<T>>)
    ensures pieces != []
    ensures forall k :: 0 <= k < |pieces| ==> sep !in pieces[k]
  {
    if s == [] then [[]]
    else
      var rest := Split(s[1..], sep);
      if s[0] == sep then [[]] + rest else Prepend(s[0], rest)
  }

  function Prepend<T>(x: T, pieces: seq<seq<T>>): seq<seq<T>>
    requires pieces != []
  {
    [[x] + pieces[0]] + pieces[1..]
  }

  function Join<T>(pieces: seq<seq<T>>, sep: T): seq<T> {
    if pieces == [] then []
    else if |pieces| == 1 then pieces[0]
    else pieces[0] + [sep] + Join(pieces[1..], sep)
  }

  /** Splitting a concatenation around one separator splits the two sides apart. */
  lemma {:induction false} SplitAppend<T>(a: seq<T>, b: seq<T>, sep: T)
    ensures Split(a + [sep] + b, sep) == Split(a, sep) + Split(b, sep)
  {
    RestOfJoined(a, b, sep);
    if a != [] {
      var left, right := Split(a[1..], sep), Split(b, sep);
      SplitAppend(a[1..], b, sep);
      if a[0] == sep {
        Regroup([[]], left, right);
      } else {
        PrependAppend(a[0], left, right);
      }
    }
  }

  lemma RestOfJoined<T>(a: seq<T>, b: seq<T>, sep: T)
    ensures (a + [sep] + b)[0] == if a == [] then sep else a[0]
    ensures (a + [sep] + b)[1..] == if a == [] then b else a[1..] + [sep] + b
  {
  }

  lemma PrependAppend<T>(x: T, left: seq<seq<T>>, right: seq<seq<T>>)
    requires left != []
    ensures Prepend(x, left + right) == Prepend(x, left) + right
  {
  }

  lemma {:induction false} SplitPlain<T>(s: seq<T>, sep: T)
    requires sep !in s
    ensures Split(s, sep) == [s]
  {
    if s != [] {
      SplitPlain(s[1..], sep);
      assert [s[0]] + s[1..] == s;
    }
  }

  /** Splitting undoes joining when no piece contains the separator. */
  lemma {:induction false} SplitJoin<T>(pieces: seq<seq<T>>, sep: T)
    requires pieces != []
    requires forall k :: 0 <= k < |pieces| ==> sep !in pieces[k]
    ensures Split(Join(pieces, sep), sep) == pieces
  {
    SplitPlain(pieces[0], sep);
    if |pieces| > 1 {
      SplitJoin(pieces[1..], sep);
      SplitAppend(pieces[0], Join(pieces[1..], sep), sep);
    }
  }

  /** The parts before and after the first separator; without one, the whole and nothing. */
  function Cut<T(==)>(s: seq<T>, sep: T): (r: (seq<T>, seq<T>))
    ensures sep !in r.0
    ensures if sep in s then s == r.0 + [sep] + r.1 else r == (s, [])
  {
    if s == [] then ([], [])
    else if s[0] == sep then ([], s[1..])
    else
      var rest := Cut(s[1..], sep);
      assert s == [s[0]] + s[1..];
      ([s[0]] + rest.0, rest.1)
  }

  lemma {:induction false} CutJoined<T>(a: seq<T>, b: seq<T>, sep: T)
    requires sep !in a
    ensures Cut(a + [sep] + b, sep) == (a, b)
  {
    if a != [] {
      CutJoined(a[1..], b, sep);
      assert (a + [sep] + b)[1..] == a[1..] + [sep] + b;
      assert [a[0]] + a[1..] == a;
    }
  }

  // ---- characters ----

  /** ASCII case folding, one character at a time. */
  function LowerChar(c: char): char {
    if 'A' <= c <= 'Z' then (c as int + 32) as char else c
  }

  /** The characters with the Unicode White_Space property. */
  predicate IsSpace(c: char) {
    || '\t' <= c <= '\r' || c == ' ' || c == '\U{85}' || c == '\U{A0}' || c == '\U{1680}'
    || '\U{2000}' <= c <= '\U{200A}' || c == '\U{2028}' || c == '\U{2029}' || c == '\U{202F}'
    || c == '\U{205F}' || c == '\U{3000}'
  }

  predicate Trimmed(s: string) {
    s != "" ==> !IsSpace(s[0]) && !IsSpace(s[|s| - 1])
  }

  function TrimStart(s: string): (r: string)
    ensures r != "" ==> !IsSpace(r[0])
    ensures |r| <= |s| && r == s[|s| - |r|..]
    ensures forall k :: 0 <= k < |s| - |r| ==> IsSpace(s[k])
  {
    if s != "" && IsSpace(s[0]) then TrimStart(s[1..]) else s
  }

  function TrimEnd(s: string): (r: string)
    ensures r != "" ==> !IsSpace(r[|r| - 1])
    ensures r <= s
    ensures forall k :: |r| <= k < |s| ==> IsSpace(s[k])
  {
    if s != "" && IsSpace(s[|s| - 1]) then TrimEnd(s[..|s| - 1]) else s
  }

  function Trim(s: string): (r: string)
    ensures Trimmed(r)
    ensures Trimmed(s) ==> r == s
  {
    TrimEnd(TrimStart(s))
  }

  predicate AllSpace(s: string) {
    forall k :: 0 <= k < |s| ==> IsSpace(s[k])
  }

  lemma {:induction false} TrimStartAppend(s: string, t: string)
    ensures TrimStart(s + t) == if AllSpace(s) then TrimStart(t) else TrimStart(s) + t
  {
    if s == "" {
      assert s + t == t;
    } else {
      assert (s + t)[1..] == s[1..] + t && (s + t)[0] == s[0];
      if IsSpace(s[0]) {
        TrimStartAppend(s[1..], t);
        SpaceFirst(s);
      }
    }
  }

  lemma SpaceFirst(s: string)
    requires s != "" && IsSpace(s[0])
    ensures AllSpace(s) <==> AllSpace(s[1..])
  {
    if AllSpace(s[1..]) {
      forall k | 0 <= k < |s|
        ensures IsSpace(s[k])
      {
        assert k > 0 ==> s[k] == s[1..][k - 1];
      }
    }
  }

  lemma {:induction false} TrimEndAppend(s: string, t: string)
    requires AllSpace(t)
    ensures TrimEnd(s + t) == TrimEnd(s)
  {
    if t == "" {
      assert s + t == s;
    } else {
      TrimEndAppend(s, t[..|t| - 1]);
      assert (s + t)[..|s + t| - 1] == s + t[..|t| - 1];
    }
  }

  lemma BlankIsSpace(s: string)
    ensures Trim(s) == "" <==> AllSpace(s)
  {
    var start := TrimStart(s);
    assert start != "" ==> start[0] == s[|s| - |start|];
  }

  /** Whitespace before or after a piece does not change what trimming leaves of it. */
  lemma BlankBefore(s: string, t: string)
    requires Trim(s) == ""
    ensures Trim(s + t) == Trim(t)
  {
    BlankIsSpace(s);
    TrimStartAppend(s, t);
  }

  lemma BlankAfter(s: string, t: string)
    requires Trim(t) == ""
    ensures Trim(s + t) == Trim(s)
  {
    BlankIsSpace(t);
    if Trim(s) == "" {
      BlankIsSpace(s);
      TrimStartAppend(s, t);
    } else {
      BlankIsSpace(s);
      TrimStartAppend(s, t);
      TrimEndAppend(TrimStart(s), t);
    }
  }

  lemma {:induction false} TrimsToMiddle(front: string, middle: string, back: string)
    requires AllSpace(front) && AllSpace(back)
    ensures Trim(front + middle + back) == Trim(middle)
  {
    assert Trim(front + middle + back) == Trim(front + middle) by {
      BlankIsSpace(back);
      BlankAfter(front + middle, back);
    }
    assert Trim(front + middle) == Trim(middle) by {
      BlankIsSpace(front);
      BlankBefore(front, middle);
    }
  }

  lemma {:induction false} StartDropped(s: string) returns (front: string)
    ensures s == front + TrimStart(s) && AllSpace(front)
  {
    front := s[..|s| - |TrimStart(s)|];
    assert s == front + s[|front|..];
  }

  lemma {:induction false} EndDropped(s: string) returns (back: string)
    ensures s == TrimEnd(s) + back && AllSpace(back)
  {
    back := s[|TrimEnd(s)|..];
  }

  lemma {:induction false} TrimmedParts(s: string) returns (front: string, back: string)
    ensures AllSpace(front) && AllSpace(back) && s == front + Trim(s) + back
  {
    front := StartDropped(s);
    back := EndDropped(TrimStart(s));
    Regroup(front, Trim(s), back);
  }

  // ---- the non-blank pieces of a text ----

  /** A piece, trimmed; a blank one is dropped. */
  function Clean(): string -> seq<string> {
    (piece: string) => if Trim(piece) == "" then [] else [Trim(piece)]
  }

  /** Lines, trimmed, blank ones dropped. */
  function CleanLines(s: string): seq<string> {
    Collect(Split(s, '\n'), Clean())
  }

  predicate EndsLine(s: string) {
    s == "" || s[|s| - 1] == '\n'
  }

  lemma LineBreak(line: string, rest: string)
    ensures CleanLines(line + ['\n'] + rest) == CleanLines(line) + CleanLines(rest)
  {
    SplitAppend(line, rest, '\n');
    CollectAppend(Split(line, '\n'), Split(rest, '\n'), Clean());
  }

  lemma LineEnd(line: string)
    ensures CleanLines(line + ['\n']) == CleanLines(line)
  {
    NoCleanLines();
    LineBreak(line, "");
    assert line + ['\n'] + "" == line + ['\n'];
  }

  /** A text cut after a newline has the lines of the first part, then those of the second. */
  lemma CleanLinesAppend(a: string, b: string)
    requires EndsLine(a)
    ensures CleanLines(a + b) == CleanLines(a) + CleanLines(b)
  {
    if a == "" {
      NoCleanLines();
      assert a + b == b;
    } else {
      var line := a[..|a| - 1];
      assert a == line + ['\n'];
      LineEnd(line);
      LineBreak(line, b);
    }
  }

  lemma NoCleanLines()
    ensures CleanLines("") == []
  {
    assert Split("", '\n') == [""];
    assert [""][..0] == [];
  }
}
