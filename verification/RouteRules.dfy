/** Which paths and queries are user routes, and what route each is, said without the parser:
    the shape of the path, the first parameter of each name, and how numbers are written. */
module RouteRules {
  import opened Prelude
  import opened Runs
  import opened Text
  import opened Routes

  // ---- parameters ----

  /** A part of a query gives a name its value: the text after the first equals sign, or none. */
  predicate Says(part: string, name: string, value: string) {
    part != "" && '=' !in name && (part == name + ['='] + value || (part == name && value == ""))
  }

  lemma SaysExactly(part: string, name: string, value: string)
    ensures Says(part, name, value) <==> part != "" && ParamOf(part) == Param(name, value)
  {
    if Says(part, name, value) && part != name {
      CutJoined(name, value, '=');
    }
  }

  /** Part `k` gives the name this value and no earlier part names it. */
  ghost predicate SaysFirst(parts: seq<string>, k: nat, name: string, value: string) {
    && k < |parts| && Says(parts[k], name, value)
    && forall j, other :: 0 <= j < k ==> !Says(parts[j], name, other)
  }

  /** The value of a parameter: that of the first part that names it. */
  ghost predicate Asks(query: string, name: string, value: string) {
    exists k :: SaysFirst(Split(query, '&'), k, name, value)
  }

  ghost predicate Silent(query: string, name: string) {
    forall value :: !Asks(query, name, value)
  }

  /** Some part names the parameter without a value. */
  predicate Flags(query: string, name: string) {
    FlagAmong(Split(query, '&'), name)
  }

  function ParamsOf(parts: seq<string>): seq<Param> {
    if parts == [] then [] else KeepParam()(parts[0]) + ParamsOf(parts[1..])
  }

  lemma {:induction false} ParamsExactly(parts: seq<string>)
    ensures Collect(parts, KeepParam()) == ParamsOf(parts)
  {
    if parts != [] {
      ParamsExactly(parts[1..]);
      CollectFirst(parts, KeepParam());
    }
  }

  lemma PartFirst(part: string, rest: seq<Param>, name: string)
    ensures First(KeepParam()(part) + rest, name) ==
      if part != "" && ParamOf(part).key == name then Some(ParamOf(part).value) else First(rest, name)
  {
    if part == "" {
      assert KeepParam()(part) + rest == rest;
    } else {
      assert ([ParamOf(part)] + rest)[1..] == rest;
    }
  }

  /** What a part that names the parameter says, or nothing. */
  lemma PartSays(part: string, name: string)
    ensures part != "" && ParamOf(part).key == name ==> Says(part, name, ParamOf(part).value)
    ensures forall other :: Says(part, name, other) ==> part != "" && ParamOf(part) == Param(name, other)
  {
    SaysExactly(part, name, ParamOf(part).value);
    forall other
      ensures Says(part, name, other) ==> part != "" && ParamOf(part) == Param(name, other)
    {
      SaysExactly(part, name, other);
    }
  }

  lemma {:induction false} FirstOfParts(parts: seq<string>, name: string, value: string)
    ensures First(ParamsOf(parts), name) == Some(value) <==> exists k :: SaysFirst(parts, k, name, value)
  {
    if parts != [] {
      FirstOfParts(parts[1..], name, value);
      PartSays(parts[0], name);
      PartFirst(parts[0], ParamsOf(parts[1..]), name);
      FirstStep(parts, name, value);
    }
  }

  lemma FirstStep(parts: seq<string>, name: string, value: string)
    requires parts != []
    ensures
      (exists k :: SaysFirst(parts, k, name, value)) <==>
        Says(parts[0], name, value)
        || ((exists k :: SaysFirst(parts[1..], k, name, value)) && forall other :: !Says(parts[0], name, other))
  {
    var rest := parts[1..];
    if Says(parts[0], name, value) {
      assert SaysFirst(parts, 0, name, value);
    }
    forall k: nat | SaysFirst(parts, k, name, value) && k > 0
      ensures SaysFirst(rest, k - 1, name, value)
    {
    }
    forall k: nat | SaysFirst(rest, k, name, value) && forall other :: !Says(parts[0], name, other)
      ensures SaysFirst(parts, k + 1, name, value)
    {
      assert forall j :: 0 < j < k + 1 ==> parts[j] == rest[j - 1];
    }
  }

  lemma AsksExactly(query: string, name: string, value: string)
    ensures First(ParseParams(query), name) == Some(value) <==> Asks(query, name, value)
  {
    ParamsExactly(Split(query, '&'));
    FirstOfParts(Split(query, '&'), name, value);
  }

  lemma SilentExactly(query: string, name: string)
    ensures First(ParseParams(query), name).None? <==> Silent(query, name)
  {
    var first := First(ParseParams(query), name);
    if first.Some? {
      AsksExactly(query, name, first.value);
    } else {
      forall value
        ensures !Asks(query, name, value)
      {
        AsksExactly(query, name, value);
      }
    }
  }

  predicate FlagAmong(parts: seq<string>, name: string) {
    exists k :: 0 <= k < |parts| && Says(parts[k], name, "")
  }

  lemma {:induction false} FlagOfParts(parts: seq<string>, name: string)
    ensures HasFlag(ParamsOf(parts), name) <==> FlagAmong(parts, name)
  {
    if parts != [] {
      FlagOfParts(parts[1..], name);
      FlagStep(KeepParam()(parts[0]), ParamsOf(parts[1..]), name);
      PartFlag(parts[0], name);
      FlagAmongRest(parts, name);
    }
  }

  lemma PartFlag(part: string, name: string)
    ensures HasFlag(KeepParam()(part), name) <==> Says(part, name, "")
  {
    SaysExactly(part, name, "");
    assert part != "" ==> KeepParam()(part)[0] == ParamOf(part);
  }

  lemma FlagAmongRest(parts: seq<string>, name: string)
    requires parts != []
    ensures FlagAmong(parts, name) <==> Says(parts[0], name, "") || FlagAmong(parts[1..], name)
  {
    var rest := parts[1..];
    if FlagAmong(rest, name) {
      var k :| 0 <= k < |rest| && Says(rest[k], name, "");
      assert Says(parts[k + 1], name, "");
    }
    if FlagAmong(parts, name) {
      var k :| 0 <= k < |parts| && Says(parts[k], name, "");
      assert k > 0 ==> rest[k - 1] == parts[k];
    }
  }

  lemma FlagStep(a: seq<Param>, b: seq<Param>, name: string)
    ensures HasFlag(a + b, name) <==> HasFlag(a, name) || HasFlag(b, name)
  {
    if HasFlag(b, name) {
      var k :| 0 <= k < |b| && b[k] == Param(name, "");
      assert (a + b)[|a| + k] == Param(name, "");
    }
    if HasFlag(a, name) {
      var k :| 0 <= k < |a| && a[k] == Param(name, "");
      assert (a + b)[k] == Param(name, "");
    }
  }

  lemma FlagsExactly(query: string, name: string)
    ensures HasFlag(ParseParams(query), name) <==> Flags(query, name)
  {
    ParamsExactly(Split(query, '&'));
    FlagOfParts(Split(query, '&'), name);
  }

  // ---- numbers ----

  function DigitOf(n: nat): char
    requires n < 10
  {
    "0123456789"[n]
  }

  function Show(n: nat): string {
    if n < 10 then [DigitOf(n)] else Show(n / 10) + [DigitOf(n % 10)]
  }

  /** Zeros and then the shortest form. */
  predicate Padded(digits: string, zeros: string, n: nat) {
    AllAre(zeros, '0') && digits == zeros + Show(n)
  }

  predicate Numeral(s: string, plus: string, digits: string, zeros: string, n: nat) {
    (plus == "" || plus == "+") && Padded(digits, zeros, n) && s == plus + digits
  }

  /** A byte in decimal, perhaps behind a plus sign and zeros. */
  ghost predicate SpellsByte(s: string, n: nat) {
    n <= 255 && exists plus: string, digits: string, zeros: string :: Numeral(s, plus, digits, zeros, n)
  }

  lemma {:induction false} ShownIsDigits(n: nat)
    ensures AllDigits(Show(n)) && Show(n) != [] && Decimal(Show(n)) == n
  {
    if n >= 10 {
      ShownIsDigits(n / 10);
      assert Show(n)[..|Show(n)| - 1] == Show(n / 10);
    }
  }

  lemma {:induction false} ZerosAddNothing(zeros: string, digits: string)
    requires AllAre(zeros, '0')
    ensures Decimal(zeros + digits) == Decimal(digits)
    decreases |zeros| + |digits|
  {
    if digits != "" {
      var n := |digits| - 1;
      ZerosAddNothing(zeros, digits[..n]);
      assert (zeros + digits)[..|zeros| + n] == zeros + digits[..n];
    } else if zeros != "" {
      var n := |zeros| - 1;
      assert zeros + digits == zeros && zeros[..n] + "" == zeros[..n];
      ZerosAddNothing(zeros[..n], "");
    }
  }

  lemma ShowAppend(m: nat, c: char)
    requires m > 0 && '0' <= c <= '9'
    ensures Show(10 * m + (c as int - '0' as int)) == Show(m) + [c]
  {
    DigitIs(c);
  }

  lemma DigitIs(c: char)
    requires '0' <= c <= '9'
    ensures DigitOf(c as int - '0' as int) == c
  {
  }

  lemma ZerosLonger(zeros: string, front: string)
    requires AllAre(zeros, '0') && front == zeros + ['0']
    ensures AllAre(front, '0')
  {
  }

  lemma {:induction false} DigitsAreShown(digits: string) returns (zeros: string)
    requires AllDigits(digits) && digits != ""
    ensures Padded(digits, zeros, Decimal(digits))
  {
    if |digits| == 1 {
      zeros := "";
      OneDigit(digits[0]);
      assert digits == [digits[0]];
    } else {
      zeros := DigitsAreShown(digits[..|digits| - 1]);
      zeros := LongerDigits(digits, zeros);
    }
  }

  lemma {:induction false} LongerDigits(digits: string, inner: string) returns (zeros: string)
    requires AllDigits(digits) && |digits| > 1
    requires Padded(digits[..|digits| - 1], inner, Decimal(digits[..|digits| - 1]))
    ensures Padded(digits, zeros, Decimal(digits))
  {
    var front, c := digits[..|digits| - 1], digits[|digits| - 1];
    zeros := MoreDigits(front, inner, Decimal(front), c);
    assert digits == front + [c];
  }

  lemma OneDigit(c: char)
    requires '0' <= c <= '9'
    ensures Padded([c], "", Decimal([c]))
  {
    assert Decimal([c]) == c as int - '0' as int;
    ShowSmall(c);
  }

  lemma MoreDigits(front: string, inner: string, m: nat, c: char) returns (zeros: string)
    requires Padded(front, inner, m) && '0' <= c <= '9'
    ensures Padded(front + [c], zeros, 10 * m + (c as int - '0' as int))
  {
    if m == 0 {
      zeros := inner + ['0'];
      ZerosLonger(inner, zeros);
      ShowSmall(c);
    } else {
      zeros := inner;
      ShowAppend(m, c);
      Regroup(inner, Show(m), [c]);
    }
  }

  lemma ShowSmall(c: char)
    requires '0' <= c <= '9'
    ensures Show(0) == ['0'] && Show(c as int - '0' as int) == [c]
  {
    DigitIs(c);
  }

  lemma ParseDigits(digits: string)
    requires AllDigits(digits) && digits != "" && Decimal(digits) <= 255
    ensures ParseU8(digits) == Some(Decimal(digits))
    ensures ParseU8("+" + digits) == Some(Decimal(digits))
  {
    assert ("+" + digits)[1..] == digits;
  }

  lemma NumeralParses(s: string, plus: string, digits: string, zeros: string, n: nat)
    requires Numeral(s, plus, digits, zeros, n) && n <= 255
    ensures ParseU8(s) == Some(n)
  {
    ShownIsDigits(n);
    ZerosAddNothing(zeros, Show(n));
    DigitsBoth(zeros, Show(n));
    ParseDigits(digits);
    assert "" + digits == digits;
  }

  lemma DigitsBoth(zeros: string, digits: string)
    requires AllAre(zeros, '0') && AllDigits(digits)
    ensures AllDigits(zeros + digits)
  {
  }

  lemma ByteExactly(s: string, n: nat)
    ensures ParseU8(s) == Some(n) <==> SpellsByte(s, n)
  {
    if ParseU8(s) == Some(n) {
      var plus := if Unsigned(s) == s then "" else "+";
      var zeros := DigitsAreShown(Unsigned(s));
      assert s == plus + Unsigned(s);
      assert Numeral(s, plus, Unsigned(s), zeros, n);
    }
    forall plus: string, digits: string, zeros: string | Numeral(s, plus, digits, zeros, n) && n <= 255
      ensures ParseU8(s) == Some(n)
    {
      NumeralParses(s, plus, digits, zeros, n);
    }
  }

  // ---- paths ----

  /** A piece between slashes: not empty, not hidden, without a percent sign. */
  predicate Piece(s: string) {
    s != "" && s[0] != '.' && '/' !in s && '%' !in s
  }

  predicate PathIs(path: string, front: string, text: string, back: string) {
    AllAre(front, '/') && AllAre(back, '/') && path == front + text + back
  }

  function TextOf(pieces: seq<string>): string
    requires 1 <= |pieces| <= 2
  {
    if |pieces| == 1 then pieces[0] else pieces[0] + "/" + pieces[1]
  }

  /** The path, without the slashes around it, is these one or two pieces. */
  ghost predicate PathReads(path: string, pieces: seq<string>) {
    && 1 <= |pieces| <= 2
    && (forall k :: 0 <= k < |pieces| ==> Piece(pieces[k]))
    && exists front, back :: PathIs(path, front, TextOf(pieces), back)
  }

  lemma {:induction false} JoinSplit(s: string, sep: char)
    ensures Join(Split(s, sep), sep) == s
  {
    if s != "" {
      JoinSplit(s[1..], sep);
      var rest := Split(s[1..], sep);
      JoinFirst(s[0], rest, sep);
      assert s == [s[0]] + s[1..];
    }
  }

  lemma JoinFirst(c: char, rest: seq<string>, sep: char)
    requires rest != []
    ensures Join(if c == sep then [[]] + rest else Prepend(c, rest), sep) == [c] + Join(rest, sep)
  {
    if c == sep {
      assert ([[]] + rest)[1..] == rest;
    } else if |rest| > 1 {
      var pieces := Prepend(c, rest);
      assert pieces[0] == [c] + rest[0] && pieces[1..] == rest[1..];
      assert Join(pieces, sep) == [c] + rest[0] + [sep] + Join(rest[1..], sep);
    }
  }

  lemma {:induction false} EndDrops(text: string, back: string, c: char)
    requires AllAre(back, c) && (text != "" ==> text[|text| - 1] != c)
    ensures TrimEndOf(text + back, c) == text
  {
    var s := text + back;
    assert forall k :: 0 <= k < |text| ==> s[k] == text[k];
    assert forall k :: |text| <= k < |s| ==> s[k] == c;
  }

  lemma {:induction false} DroppedEnd(s: string, c: char) returns (back: string)
    ensures AllAre(back, c) && s == TrimEndOf(s, c) + back
  {
    back := s[|TrimEndOf(s, c)|..];
  }

  lemma PiecesOf(pieces: seq<string>)
    requires 1 <= |pieces| <= 2 && forall k :: 0 <= k < |pieces| ==> Piece(pieces[k])
    ensures Split(TextOf(pieces), '/') == pieces && '%' !in TextOf(pieces)
    ensures
      var text := TextOf(pieces);
      text != "" && text[0] != '/' && text[|text| - 1] != '/'
  {
    SplitJoin(pieces, '/');
    if |pieces| == 2 {
      assert Join(pieces[1..], '/') == pieces[1];
    }
    var last := pieces[|pieces| - 1];
    assert last[|last| - 1] in last && TextOf(pieces)[|TextOf(pieces)| - 1] == last[|last| - 1];
    assert pieces[0][0] in pieces[0];
  }

  lemma PathParses(path: string, front: string, pieces: seq<string>, back: string)
    requires 1 <= |pieces| <= 2 && forall k :: 0 <= k < |pieces| ==> Piece(pieces[k])
    requires PathIs(path, front, TextOf(pieces), back)
    ensures Segments(path) == Ok(pieces)
  {
    var text := TextOf(pieces);
    PiecesOf(pieces);
    Regroup(front, text, back);
    StartDrops(front, text + back, '/');
    EndDrops(text, back, '/');
  }

  lemma TextOfSplit(text: string)
    requires |Split(text, '/')| <= 2
    ensures text == TextOf(Split(text, '/'))
  {
    var pieces := Split(text, '/');
    JoinSplit(text, '/');
    if |pieces| == 2 {
      assert Join(pieces[1..], '/') == pieces[1];
    }
  }

  lemma ParsedPath(path: string)
    requires Segments(path).Ok?
    ensures PathReads(path, Segments(path).value)
  {
    var start := TrimStartOf(path, '/');
    var text := TrimEndOf(start, '/');
    var pieces := Segments(path).value;
    var front := DroppedStart(path, '/');
    var back := DroppedEnd(start, '/');
    Regroup(front, text, back);
    TextOfSplit(text);
    forall k | 0 <= k < |pieces|
      ensures Piece(pieces[k])
    {
      PieceWithin(pieces, k);
    }
    assert PathIs(path, front, TextOf(pieces), back);
  }

  lemma PieceWithin(pieces: seq<string>, k: nat)
    requires 1 <= |pieces| <= 2 && k < |pieces|
    ensures forall c :: c in pieces[k] ==> c in TextOf(pieces)
  {
  }

  lemma PathExactly(path: string, pieces: seq<string>)
    ensures Segments(path) == Ok(pieces) <==> PathReads(path, pieces)
  {
    if Segments(path) == Ok(pieces) {
      ParsedPath(path);
    }
    if PathReads(path, pieces) {
      var front, back :| PathIs(path, front, TextOf(pieces), back);
      PathParses(path, front, pieces, back);
    }
  }

  // ---- selections ----

  /** A feed's label: at most 64 letters, digits, dashes, underscores and dots, no dot first. */
  predicate IsLabel(s: string) {
    && 0 < |s| <= 64 && s[0] != '.'
    && forall k :: 0 <= k < |s| ==>
         'a' <= s[k] <= 'z' || 'A' <= s[k] <= 'Z' || '0' <= s[k] <= '9' || s[k] == '-' || s[k] == '_' || s[k] == '.'
  }

  /** The pieces that are not blank, trimmed, in order. */
  predicate Lists(pieces: seq<string>, labels: seq<string>) {
    if pieces == [] then labels == []
    else if Trim(pieces[0]) == "" then Lists(pieces[1..], labels)
    else labels != [] && labels[0] == Trim(pieces[0]) && Lists(pieces[1..], labels[1..])
  }

  lemma {:induction false} ListsExactly(pieces: seq<string>, labels: seq<string>)
    ensures Collect(pieces, Clean()) == labels <==> Lists(pieces, labels)
  {
    if pieces != [] {
      var rest := Collect(pieces[1..], Clean());
      CollectFirst(pieces, Clean());
      FirstListed(pieces[0], rest, labels);
      ListsExactly(pieces[1..], if Trim(pieces[0]) != "" && labels != [] then labels[1..] else labels);
    }
  }

  lemma FirstListed(piece: string, rest: seq<string>, labels: seq<string>)
    ensures Clean()(piece) + rest == labels <==>
      if Trim(piece) == "" then rest == labels else labels != [] && labels[0] == Trim(piece) && rest == labels[1..]
  {
    if Trim(piece) == "" {
      assert Clean()(piece) + rest == rest;
    } else if labels != [] {
      assert labels == [labels[0]] + labels[1..];
    }
  }

  /** What a list of labels selects: everything when it has a star, its one label, or, for
      more, no single selection but those labels. */
  predicate Picks(labels: seq<string>, selection: Selection, filter: StreamFilter) {
    && labels != []
    && (forall k :: 0 <= k < |labels| ==> labels[k] == "*" || IsLabel(labels[k]))
    && if exists k :: 0 <= k < |labels| && labels[k] == "*" then selection == Wildcard && filter == ShowAll
       else filter == ShowNamed(labels) && selection == if |labels| == 1 then Named(labels[0]) else DefaultVisible
  }

  /** The value of `streams`: everything, or a list of labels between commas. */
  ghost predicate StreamsRead(value: string, login: string, selection: Selection, filter: StreamFilter) {
    if value == "all" || value == "*" || value == login + "/*" then selection == Wildcard && filter == ShowAll
    else exists labels :: Lists(Split(value, ','), labels) && Picks(labels, selection, filter)
  }

  ghost predicate StreamsAsked(query: string, login: string, selection: Selection, filter: StreamFilter) {
    exists value :: Asks(query, "streams", value) && StreamsRead(value, login, selection, filter)
  }

  /** The second piece of a path: a star for everything, or a label. */
  predicate PieceChooses(piece: string, selection: Selection, filter: StreamFilter) {
    || (piece == "*" && selection == Wildcard && filter == ShowAll)
    || (IsLabel(piece) && selection == Named(piece) && filter == ShowNamed([piece]))
  }

  /** The flag `all` decides; without it, `streams`; without that, the default. */
  ghost predicate QueryChooses(query: string, login: string, selection: Selection, filter: StreamFilter) {
    if Flags(query, "all") then selection == Wildcard && filter == ShowAll
    else
      || (Silent(query, "streams") && selection == DefaultVisible && filter == ShowDefault)
      || StreamsAsked(query, login, selection, filter)
  }

  /** The second piece of the path decides; without one, the query. */
  ghost predicate Chooses(pieces: seq<string>, query: string, login: string, selection: Selection, filter: StreamFilter)
    requires pieces != []
  {
    if |pieces| > 1 then PieceChooses(pieces[1], selection, filter) else QueryChooses(query, login, selection, filter)
  }

  lemma LabelExactly(s: string)
    ensures ValidLabel(s) <==> IsLabel(s)
  {
  }

  lemma PicksExactly(value: string, labels: seq<string>, selection: Selection, filter: StreamFilter)
    requires labels == SplitCsv(value)
    ensures Picks(labels, selection, filter) <==>
      && SplitLabels(value).Ok?
      && filter == (if "*" in labels then ShowAll else ShowNamed(labels)) && selection == SelectionOf(filter)
  {
    SplitLabelsExactly(value);
    assert "*" in labels <==> exists k :: 0 <= k < |labels| && labels[k] == "*";
  }

  lemma SplitLabelsExactly(value: string)
    ensures
      var labels := SplitCsv(value);
      && (SplitLabels(value).Ok? ==> SplitLabels(value).value == labels)
      && (SplitLabels(value).Ok? <==>
           labels != [] && forall k :: 0 <= k < |labels| ==> labels[k] == "*" || IsLabel(labels[k]))
  {
    var labels := SplitCsv(value);
    forall k | 0 <= k < |labels|
      ensures ValidLabel(labels[k]) <==> IsLabel(labels[k])
    {
      LabelExactly(labels[k]);
    }
  }

  lemma StreamsExactly(value: string, login: string, selection: Selection, filter: StreamFilter)
    ensures StreamsRead(value, login, selection, filter) <==>
      FromStreams(value, login) == Ok(filter) && selection == SelectionOf(filter)
  {
    if value != "all" && value != "*" && value != login + "/*" {
      var labels := SplitCsv(value);
      ListsExactly(Split(value, ','), labels);
      PicksExactly(value, labels, selection, filter);
      forall others | Lists(Split(value, ','), others)
        ensures others == labels
      {
        ListsExactly(Split(value, ','), others);
      }
    }
  }

  function FromPath(pieces: seq<string>): Result<Selection, RouteError>
    requires pieces != []
  {
    if |pieces| > 1 then FromSegment(pieces[1]) else Ok(DefaultVisible)
  }

  lemma ChoosesExactly(pieces: seq<string>, query: string, login: string, selection: Selection, filter: StreamFilter)
    requires pieces != []
    ensures Chooses(pieces, query, login, selection, filter) <==>
      FromPath(pieces).Ok? && Select(FromPath(pieces).value, ParseParams(query), login) == Ok((selection, filter))
  {
    if |pieces| > 1 {
      PieceExactly(pieces[1], selection, filter);
    } else {
      QueryExactly(query, login, selection, filter);
    }
  }

  lemma PieceExactly(piece: string, selection: Selection, filter: StreamFilter)
    ensures PieceChooses(piece, selection, filter) <==> FromSegment(piece) == Ok(selection) && filter == FilterOf(selection)
  {
    LabelExactly(piece);
  }

  lemma QueryExactly(query: string, login: string, selection: Selection, filter: StreamFilter)
    ensures QueryChooses(query, login, selection, filter) <==>
      Select(DefaultVisible, ParseParams(query), login) == Ok((selection, filter))
  {
    FlagsExactly(query, "all");
    StreamsChoose(query, login, selection, filter);
  }

  lemma StreamsChoose(query: string, login: string, selection: Selection, filter: StreamFilter)
    ensures
      var streams := First(ParseParams(query), "streams");
      && (Silent(query, "streams") <==> streams.None?)
      && (StreamsAsked(query, login, selection, filter) <==>
           streams.Some? && FromStreams(streams.value, login) == Ok(filter) && selection == SelectionOf(filter))
  {
    SilentExactly(query, "streams");
    forall value
      ensures Asks(query, "streams", value) <==> First(ParseParams(query), "streams") == Some(value)
    {
      AsksExactly(query, "streams", value);
    }
    if First(ParseParams(query), "streams").Some? {
      StreamsExactly(First(ParseParams(query), "streams").value, login, selection, filter);
    }
  }

  // ---- routes ----

  ghost predicate NetworkRead(query: string, network: Network) {
    match network
    case Mainnet => Silent(query, "network") || Asks(query, "network", "") || Asks(query, "network", "mainnet")
    case Custom(id) => id != "" && id != "mainnet" && Asks(query, "network", id)
  }

  ghost predicate ScoreRead(query: string, score: nat) {
    || (Silent(query, "min_score") && score == 75)
    || exists value :: Asks(query, "min_score", value) && SpellsByte(value, score)
  }

  /** The route that a path and a query name. */
  ghost predicate Names(path: string, query: string, route: Route) {
    exists pieces ::
      && PathReads(path, pieces)
      && SpellsLogin(pieces[0], route.login)
      && Chooses(pieces, query, route.login, route.selection, route.filter)
      && NetworkRead(query, route.network)
      && ScoreRead(query, route.minScore)
  }

  lemma NetworkExactly(query: string, network: Network)
    ensures NetworkRead(query, network) <==> network == NetworkOf(First(ParseParams(query), "network"))
  {
    SilentExactly(query, "network");
    AsksExactly(query, "network", "");
    AsksExactly(query, "network", "mainnet");
    if network.Custom? {
      AsksExactly(query, "network", network.id);
    }
  }

  function ScoreOf(score: Option<string>): Option<nat> {
    if score.None? then Some(75) else ParseU8(score.value)
  }

  lemma ScoreExactly(query: string, score: nat)
    ensures ScoreRead(query, score) <==> ScoreOf(First(ParseParams(query), "min_score")) == Some(score)
  {
    SilentExactly(query, "min_score");
    forall value
      ensures Asks(query, "min_score", value) <==> First(ParseParams(query), "min_score") == Some(value)
      ensures SpellsByte(value, score) <==> ParseU8(value) == Some(score)
    {
      AsksExactly(query, "min_score", value);
      ByteExactly(value, score);
    }
  }

  lemma QueryBySteps(login: string, fromPath: Selection, params: seq<Param>, route: Route)
    ensures ParseQuery(login, fromPath, params) == Ok(route) <==>
      && login == route.login
      && Select(fromPath, params, route.login) == Ok((route.selection, route.filter))
      && route.network == NetworkOf(First(params, "network"))
      && ScoreOf(First(params, "min_score")) == Some(route.minScore)
  {
  }

  lemma ParseBySteps(path: string, query: string, route: Route)
    ensures Parse(path, query) == Ok(route) <==>
      && Segments(path).Ok?
      && var pieces, params := Segments(path).value, ParseParams(query);
         && ParseLogin(pieces[0]) == Ok(route.login)
         && FromPath(pieces).Ok?
         && Select(FromPath(pieces).value, params, route.login) == Ok((route.selection, route.filter))
         && route.network == NetworkOf(First(params, "network"))
         && ScoreOf(First(params, "min_score")) == Some(route.minScore)
  {
    if Segments(path).Ok? {
      var pieces := Segments(path).value;
      if ParseLogin(pieces[0]).Ok? && FromPath(pieces).Ok? {
        QueryBySteps(ParseLogin(pieces[0]).value, FromPath(pieces).value, ParseParams(query), route);
      }
    }
  }

  /** A path and a query parse to a route exactly when they name it. */
  lemma ParsesExactly(path: string, query: string, route: Route)
    ensures Parse(path, query) == Ok(route) <==> Names(path, query, route)
  {
    ParseBySteps(path, query, route);
    NetworkExactly(query, route.network);
    ScoreExactly(query, route.minScore);
    if Segments(path).Ok? {
      PiecesName(path, Segments(path).value, query, route);
    }
    forall pieces | PathReads(path, pieces)
      ensures Segments(path) == Ok(pieces)
    {
      PathExactly(path, pieces);
    }
  }

  lemma PiecesName(path: string, pieces: seq<string>, query: string, route: Route)
    requires Segments(path) == Ok(pieces)
    ensures PathReads(path, pieces)
    ensures SpellsLogin(pieces[0], route.login) <==> ParseLogin(pieces[0]) == Ok(route.login)
    ensures Chooses(pieces, query, route.login, route.selection, route.filter) <==>
      FromPath(pieces).Ok? && Select(FromPath(pieces).value, ParseParams(query), route.login) == Ok((route.selection, route.filter))
  {
    PathExactly(path, pieces);
    LoginParsesExactly(pieces[0], route.login);
    ChoosesExactly(pieces, query, route.login, route.selection, route.filter);
  }
}
