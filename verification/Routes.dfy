/** Remote user routes: a path and a query name a GitHub login and a selection of its feeds,
    and the selection prints back to a path. */
module Routes {
  import opened Prelude
  import opened Runs
  import opened Text

  datatype RouteError = InvalidRoute(what: string) | InvalidLogin(what: string) | InvalidMinScore(what: string)

  datatype Selection = DefaultVisible | Wildcard | Named(name: string)

  datatype StreamFilter = ShowDefault | ShowAll | ShowNamed(labels: seq<string>)
  {
    predicate Permits(wanted: string) {
      this.ShowNamed? ==> wanted in labels
    }
  }

  datatype Network = Mainnet | Custom(id: string)

  datatype Route = Route(login: string, network: Network, selection: Selection, filter: StreamFilter, minScore: nat)

  // ---- logins and labels ----

  predicate Alphanumeric(c: char) {
    '0' <= c <= '9' || 'A' <= c <= 'Z' || 'a' <= c <= 'z'
  }

  predicate ValidLogin(s: string) {
    && 0 < |s| <= 39
    && s[0] != '-' && s[|s| - 1] != '-'
    && forall k :: 0 <= k < |s| ==> Alphanumeric(s[k]) || s[k] == '-'
  }

  predicate ValidLabel(s: string) {
    && 0 < |s| <= 64
    && s[0] != '.'
    && forall k :: 0 <= k < |s| ==> Alphanumeric(s[k]) || s[k] == '-' || s[k] == '_' || s[k] == '.'
  }

  function TrimStartOf(s: string, c: char): (r: string)
    ensures r != "" ==> r[0] != c
  {
    if s != "" && s[0] == c then TrimStartOf(s[1..], c) else s
  }

  function TrimEndOf(s: string, c: char): (r: string)
    ensures r != "" ==> r[|r| - 1] != c
    ensures r <= s
    ensures forall k :: |r| <= k < |s| ==> s[k] == c
  {
    if s != "" && s[|s| - 1] == c then TrimEndOf(s[..|s| - 1], c) else s
  }

  function ParseLogin(s: string): (r: Result<string, RouteError>)
    ensures r.Ok? ==> ValidLogin(r.value)
  {
    var login := TrimStartOf(Trim(s), '@');
    if ValidLogin(login) then Ok(login) else Err(InvalidLogin(login))
  }

  // ---- which texts are logins ----

  predicate AllAre(s: string, c: char) {
    forall k :: 0 <= k < |s| ==> s[k] == c
  }

  /** Whitespace, at-signs, a valid login, whitespace. */
  ghost predicate SpellsLogin(s: string, login: string) {
    exists front: string, signs: string, back: string ::
      AllSpace(front) && AllAre(signs, '@') && AllSpace(back) && Spelled(s, front, signs, login, back) && ValidLogin(login)
  }

  predicate Spelled(s: string, front: string, signs: string, login: string, back: string) {
    s == front + (signs + login) + back
  }

  lemma {:induction false} StartDrops(front: string, rest: string, c: char)
    requires AllAre(front, c) && (rest != "" ==> rest[0] != c)
    ensures TrimStartOf(front + rest, c) == rest
  {
    if front == "" {
      assert front + rest == rest;
    } else {
      assert (front + rest)[1..] == front[1..] + rest;
      StartDrops(front[1..], rest, c);
    }
  }

  lemma {:induction false} DroppedStart(s: string, c: char) returns (front: string)
    ensures AllAre(front, c) && s == front + TrimStartOf(s, c)
  {
    if s != "" && s[0] == c {
      var rest := DroppedStart(s[1..], c);
      front := [c] + rest;
      assert s == [c] + s[1..];
      Regroup([c], rest, TrimStartOf(s, c));
    } else {
      front := "";
      assert front + s == s;
    }
  }

  lemma SpelledParses(s: string, front: string, signs: string, login: string, back: string)
    requires AllSpace(front) && AllAre(signs, '@') && AllSpace(back) && Spelled(s, front, signs, login, back) && ValidLogin(login)
    ensures ParseLogin(s) == Ok(login)
  {
    TrimsToMiddle(front, signs + login, back);
    SignedLoginIsTrimmed(signs, login);
    LoginIsPlain(login);
    StartDrops(signs, login, '@');
  }

  lemma SignedLoginIsTrimmed(signs: string, login: string)
    requires AllAre(signs, '@') && ValidLogin(login)
    ensures Trim(signs + login) == signs + login
  {
    LoginIsPlain(login);
    var text := signs + login;
    assert text[0] == if signs == "" then login[0] else signs[0];
    assert text[|text| - 1] == login[|login| - 1];
  }

  lemma ParsesAreSpelled(s: string)
    requires ParseLogin(s).Ok?
    ensures SpellsLogin(s, ParseLogin(s).value)
  {
    var login := ParseLogin(s).value;
    var front, back := TrimmedParts(s);
    var signs := DroppedStart(Trim(s), '@');
    assert Spelled(s, front, signs, login, back);
  }

  /** A text parses as a login exactly when it spells it: the login itself, behind whitespace
      and at-signs and before whitespace. */
  lemma LoginParsesExactly(s: string, login: string)
    ensures ParseLogin(s) == Ok(login) <==> SpellsLogin(s, login)
  {
    if ParseLogin(s).Ok? {
      ParsesAreSpelled(s);
    }
    if SpellsLogin(s, login) {
      var front: string, signs: string, back: string :|
        AllSpace(front) && AllAre(signs, '@') && AllSpace(back) && Spelled(s, front, signs, login, back) && ValidLogin(login);
      SpelledParses(s, front, signs, login, back);
    }
  }

  // ---- query parameters ----

  datatype Param = Param(key: string, value: string)

  function ParamOf(part: string): Param {
    var halves := Cut(part, '=');
    Param(halves.0, halves.1)
  }

  function KeepParam(): string -> seq<Param> {
    (part: string) => if part == "" then [] else [ParamOf(part)]
  }

  function ParseParams(query: string): seq<Param> {
    Collect(Split(query, '&'), KeepParam())
  }

  function First(params: seq<Param>, key: string): Option<string> {
    if params == [] then None
    else if params[0].key == key then Some(params[0].value)
    else First(params[1..], key)
  }

  predicate HasFlag(params: seq<Param>, key: string) {
    exists k :: 0 <= k < |params| && params[k] == Param(key, "")
  }

  // ---- stream filters ----

  function SplitCsv(value: string): seq<string> {
    Collect(Split(value, ','), Clean())
  }

  function SplitLabels(value: string): Result<seq<string>, RouteError> {
    var labels := SplitCsv(value);
    if labels == [] then Err(InvalidRoute("empty streams filter"))
    else if exists k :: 0 <= k < |labels| && labels[k] != "*" && !ValidLabel(labels[k]) then Err(InvalidRoute("invalid feed label"))
    else Ok(labels)
  }

  function FromStreams(value: string, login: string): Result<StreamFilter, RouteError> {
    if value == "all" || value == "*" || value == login + "/*" then Ok(ShowAll)
    else
      var labels := SplitLabels(value);
      if labels.Err? then Err(labels.error)
      else if "*" in labels.value then Ok(ShowAll)
      else Ok(ShowNamed(labels.value))
  }

  function SelectionOf(filter: StreamFilter): Selection {
    match filter
    case ShowAll => Wildcard
    case ShowNamed(labels) => if |labels| == 1 then Named(labels[0]) else DefaultVisible
    case ShowDefault => DefaultVisible
  }

  function FilterOf(selection: Selection): StreamFilter {
    match selection
    case DefaultVisible => ShowDefault
    case Wildcard => ShowAll
    case Named(name) => ShowNamed([name])
  }

  function FromSegment(segment: string): Result<Selection, RouteError> {
    if segment == "*" then Ok(Wildcard)
    else if ValidLabel(segment) then Ok(Named(segment))
    else Err(InvalidRoute("invalid feed label: " + segment))
  }

  // ---- routes ----

  function Segments(path: string): (r: Result<seq<string>, RouteError>)
    ensures r.Ok? ==> r.value != []
  {
    var trimmed := TrimEndOf(TrimStartOf(path, '/'), '/');
    var segments := Split(trimmed, '/');
    if trimmed == "" || '%' in trimmed then Err(InvalidRoute(trimmed))
    else if |segments| > 2 then Err(InvalidRoute(trimmed))
    else if exists k :: 0 <= k < |segments| && (segments[k] == "" || segments[k][0] == '.') then Err(InvalidRoute(trimmed))
    else Ok(segments)
  }

  /** The path decides unless it names the login only; then `all`, then `streams`. */
  function Select(fromPath: Selection, params: seq<Param>, login: string): Result<(Selection, StreamFilter), RouteError> {
    if fromPath != DefaultVisible then Ok((fromPath, FilterOf(fromPath)))
    else if HasFlag(params, "all") then Ok((Wildcard, ShowAll))
    else if First(params, "streams").Some? then
      var filter := FromStreams(First(params, "streams").value, login);
      if filter.Err? then Err(filter.error) else Ok((SelectionOf(filter.value), filter.value))
    else Ok((DefaultVisible, ShowDefault))
  }

  predicate AllDigits(s: string) {
    forall k :: 0 <= k < |s| ==> '0' <= s[k] <= '9'
  }

  function Unsigned(s: string): string {
    if s != "" && s[0] == '+' then s[1..] else s
  }

  /** Decimal digits with an optional plus sign, at most 255. */
  function ParseU8(s: string): Option<nat> {
    var digits := Unsigned(s);
    if digits == "" || !AllDigits(digits) then None
    else
      var n := Decimal(digits);
      if n <= 255 then Some(n) else None
  }

  function Decimal(digits: string): nat {
    if digits == "" then 0
    else
      var c := digits[|digits| - 1];
      10 * Decimal(digits[..|digits| - 1]) + if '0' <= c <= '9' then (c as int) - ('0' as int) else 0
  }

  function NetworkOf(param: Option<string>): Network {
    if param.None? || param.value == "" || param.value == "mainnet" then Mainnet else Custom(param.value)
  }

  function Parse(path: string, query: string): Result<Route, RouteError> {
    var segments := Segments(path);
    if segments.Err? then Err(segments.error) else ParseSegments(segments.value, ParseParams(query))
  }

  function ParseSegments(segments: seq<string>, params: seq<Param>): Result<Route, RouteError>
    requires segments != []
  {
    var login := ParseLogin(segments[0]);
    var fromPath := if |segments| > 1 then FromSegment(segments[1]) else Ok(DefaultVisible);
    if login.Err? then Err(login.error)
    else if fromPath.Err? then Err(fromPath.error)
    else ParseQuery(login.value, fromPath.value, params)
  }

  function ParseQuery(login: string, fromPath: Selection, params: seq<Param>): Result<Route, RouteError> {
    var selected := Select(fromPath, params, login);
    if selected.Err? then Err(selected.error)
    else
      var score := First(params, "min_score");
      if score.Some? && ParseU8(score.value).None? then Err(InvalidMinScore(score.value))
      else
        Ok(Route(login, NetworkOf(First(params, "network")), selected.value.0, selected.value.1,
                 if score.Some? then ParseU8(score.value).value else 75))
  }

  /** The printable form of a login and a selection. */
  function Syntax(login: string, selection: Selection): string {
    match selection
    case DefaultVisible => login
    case Wildcard => login + "/*"
    case Named(name) => login + "/" + name
  }

  // ---- what parsing guarantees ----

  predicate NamesSomething(filter: StreamFilter) {
    filter.ShowNamed? ==> filter.labels != []
  }

  predicate Printable(selection: Selection) {
    selection.Named? ==> ValidLabel(selection.name)
  }

  lemma LabelsAreValid(value: string, k: nat)
    requires SplitLabels(value).Ok? && k < |SplitLabels(value).value|
    ensures SplitLabels(value).value[k] == "*" || ValidLabel(SplitLabels(value).value[k])
  {
    var labels := SplitCsv(value);
    assert labels == SplitLabels(value).value;
  }

  lemma StreamsArePrintable(value: string, login: string)
    requires FromStreams(value, login).Ok?
    ensures Printable(SelectionOf(FromStreams(value, login).value))
    ensures NamesSomething(FromStreams(value, login).value)
  {
    var filter := FromStreams(value, login).value;
    if filter.ShowNamed? && |filter.labels| == 1 {
      assert filter.labels == SplitLabels(value).value;
      assert filter.labels[0] in filter.labels;
      LabelsAreValid(value, 0);
    }
  }

  lemma SelectIsSound(fromPath: Selection, params: seq<Param>, login: string)
    requires Printable(fromPath)
    requires Select(fromPath, params, login).Ok?
    ensures
      var selected := Select(fromPath, params, login).value;
      Printable(selected.0) && selected.0 == SelectionOf(selected.1) && NamesSomething(selected.1)
  {
    if fromPath == DefaultVisible && !HasFlag(params, "all") && First(params, "streams").Some? {
      StreamsArePrintable(First(params, "streams").value, login);
    }
  }

  predicate Sound(route: Route) {
    && ValidLogin(route.login)
    && Printable(route.selection)
    && route.selection == SelectionOf(route.filter)
    && NamesSomething(route.filter)
    && route.minScore <= 255
  }

  lemma ParsedQueryIsSound(login: string, fromPath: Selection, params: seq<Param>)
    requires ValidLogin(login) && Printable(fromPath)
    requires ParseQuery(login, fromPath, params).Ok?
    ensures Sound(ParseQuery(login, fromPath, params).value)
    ensures ParseQuery(login, fromPath, params).value.login == login
  {
    SelectIsSound(fromPath, params, login);
  }

  lemma ParsedSegmentsAreSound(segments: seq<string>, params: seq<Param>)
    requires segments != [] && ParseSegments(segments, params).Ok?
    ensures Sound(ParseSegments(segments, params).value)
  {
    var fromPath := if |segments| > 1 then FromSegment(segments[1]).value else DefaultVisible;
    ParsedQueryIsSound(ParseLogin(segments[0]).value, fromPath, params);
  }

  /** A parsed route has a valid login and a printable selection, and its selection is the one
      its stream filter stands for: a wildcard shows all, a name shows that label only, and
      only a list of two or more labels is narrower than its selection says. */
  lemma ParsedRouteIsSound(path: string, query: string)
    requires Parse(path, query).Ok?
    ensures Sound(Parse(path, query).value)
  {
    ParsedSegmentsAreSound(Segments(path).value, ParseParams(query));
  }

  predicate PlainSegment(s: string) {
    s != "" && '/' !in s && '%' !in s && s[0] != '.'
  }

  /** Slashes around a path that neither starts nor ends with one are dropped. */
  lemma SlashesDrop(path: string)
    requires path != "" && path[0] != '/' && path[|path| - 1] != '/'
    ensures TrimEndOf(TrimStartOf("/" + path, '/'), '/') == path
  {
    assert ("/" + path)[1..] == path;
  }

  /** A path whose pieces are one or two plain segments. */
  lemma SegmentsOf(path: string, pieces: seq<string>)
    requires path != "" && path[0] != '/' && path[|path| - 1] != '/' && '%' !in path
    requires Split(path, '/') == pieces && |pieces| <= 2
    requires forall k :: 0 <= k < |pieces| ==> PlainSegment(pieces[k])
    ensures Segments("/" + path) == Ok(pieces)
  {
    SlashesDrop(path);
    forall k | 0 <= k < |pieces|
      ensures pieces[k] != "" && pieces[k][0] != '.'
    {
      assert PlainSegment(pieces[k]);
    }
  }

  lemma LoginSegment(login: string)
    requires PlainSegment(login)
    ensures Segments("/" + login) == Ok([login])
  {
    assert login[|login| - 1] in login && login[0] in login;
    SplitPlain(login, '/');
    SegmentsOf(login, [login]);
  }

  lemma TwoSegments(login: string, rest: string)
    requires PlainSegment(login) && PlainSegment(rest)
    ensures Segments("/" + (login + ['/'] + rest)) == Ok([login, rest])
  {
    TwoPieces(login, rest);
    PathEnds(login, rest);
    SegmentsOf(login + ['/'] + rest, [login, rest]);
  }

  lemma PathEnds(login: string, rest: string)
    requires PlainSegment(login) && PlainSegment(rest)
    ensures
      var path := login + ['/'] + rest;
      path[0] != '/' && path[|path| - 1] != '/'
  {
    assert login[0] in login && rest[|rest| - 1] in rest;
  }

  lemma TwoPieces(login: string, rest: string)
    requires PlainSegment(login) && PlainSegment(rest)
    ensures Split(login + ['/'] + rest, '/') == [login, rest]
    ensures '%' !in login + ['/'] + rest
  {
    SplitAppend(login, rest, '/');
    SplitPlain(login, '/');
    SplitPlain(rest, '/');
  }

  lemma LoginIsPlain(login: string)
    requires ValidLogin(login)
    ensures PlainSegment(login) && Trimmed(login) && login[0] != '@'
  {
    assert Alphanumeric(login[0]) && Alphanumeric(login[|login| - 1]);
  }

  lemma LoginParsesToItself(login: string)
    requires ValidLogin(login)
    ensures ParseLogin(login) == Ok(login)
  {
    LoginIsPlain(login);
    assert Trim(login) == login;
    assert TrimStartOf(login, '@') == login;
  }

  lemma LabelIsPlain(s: string)
    requires ValidLabel(s)
    ensures PlainSegment(s) && s != "*"
  {
  }

  lemma NoParams()
    ensures ParseParams("") == []
  {
    assert Split("", '&') == [""];
    assert [""][..0] == [];
  }

  lemma NoQuery(login: string, selection: Selection)
    ensures ParseQuery(login, selection, []) == Ok(Route(login, Mainnet, selection, FilterOf(selection), 75))
  {
  }

  lemma ParseLoginPath(path: string, login: string)
    requires ValidLogin(login) && Segments(path) == Ok([login])
    ensures Parse(path, "") == ParseQuery(login, DefaultVisible, [])
  {
    NoParams();
    LoginParsesToItself(login);
  }

  lemma ParseTwoPath(path: string, login: string, segment: string, selection: Selection)
    requires ValidLogin(login) && Segments(path) == Ok([login, segment]) && FromSegment(segment) == Ok(selection)
    ensures Parse(path, "") == ParseQuery(login, selection, [])
  {
    NoParams();
    LoginParsesToItself(login);
  }

  /** Printing and parsing a valid login and selection. */
  lemma PrintParses(login: string, selection: Selection)
    requires ValidLogin(login) && Printable(selection)
    ensures Parse("/" + Syntax(login, selection), "") == Ok(Route(login, Mainnet, selection, FilterOf(selection), 75))
  {
    NoQuery(login, selection);
    LoginIsPlain(login);
    var path := "/" + Syntax(login, selection);
    match selection
    case DefaultVisible =>
      LoginSegment(login);
      ParseLoginPath(path, login);
    case Wildcard =>
      TwoSegments(login, "*");
      assert Syntax(login, selection) == login + ['/'] + "*";
      ParseTwoPath(path, login, "*", selection);
    case Named(name) =>
      LabelIsPlain(name);
      TwoSegments(login, name);
      assert Syntax(login, selection) == login + ['/'] + name;
      ParseTwoPath(path, login, name, selection);
  }

  /** Every route that parses, from any path and query, prints to a path that parses back to
      the same login and selection, with the filter that the selection stands for. */
  lemma RoutePrintsAndParses(path: string, query: string)
    requires Parse(path, query).Ok?
    ensures
      var route := Parse(path, query).value;
      Parse("/" + Syntax(route.login, route.selection), "") ==
      Ok(Route(route.login, Mainnet, route.selection, FilterOf(route.selection), 75))
  {
    ParsedRouteIsSound(path, query);
    var route := Parse(path, query).value;
    PrintParses(route.login, route.selection);
  }

  /** What the printed path parses back to has the stream filter of the route it was printed
      from exactly when that is not a list of two or more labels (a list of none cannot be
      parsed), the network exactly when it is the main one, and the score exactly when it is
      the default. */
  lemma WhatPrintingKeeps(path: string, query: string)
    requires Parse(path, query).Ok?
    ensures
      var route := Parse(path, query).value;
      var again := Parse("/" + Syntax(route.login, route.selection), "");
      && again.Ok?
      && (again.value.filter == route.filter <==> !(route.filter.ShowNamed? && |route.filter.labels| > 1))
      && (again.value.network == route.network <==> route.network == Mainnet)
      && (again.value.minScore == route.minScore <==> route.minScore == 75)
  {
    RoutePrintsAndParses(path, query);
    ParsedRouteIsSound(path, query);
    FilterOfSelection(Parse(path, query).value.filter);
  }

  lemma FilterOfSelection(filter: StreamFilter)
    ensures FilterOf(SelectionOf(filter)) == filter <==> !(filter.ShowNamed? && |filter.labels| != 1)
  {
  }
}
