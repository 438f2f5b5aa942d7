/** The sign-in callback codec: the edge percent-encodes query parameters (sections 2.1 and
    2.3 of RFC 3986), the command line encodes and decodes them, and claim lists are joined
    and split. Text is its UTF-8 bytes; validity of UTF-8 stays a parameter. */
module Codec {
  import opened Prelude
  import opened Runs
  import opened Text

  type Byte = b: int | 0 <= b < 256

  type Bytes = seq<Byte>

  const PERCENT: Byte := 37
  const AMPERSAND: Byte := 38
  const PLUS: Byte := 43
  const EQUALS: Byte := 61
  const SPACE: Byte := 32

  predicate Unreserved(b: Byte) {
    || 48 <= b <= 57 || 65 <= b <= 90 || 97 <= b <= 122
    || b == 45 || b == 46 || b == 95 || b == 126
  }

  /** Upper-case hexadecimal digit. */
  function HexDigit(n: int): Byte
    requires 0 <= n < 16
  {
    if n < 10 then 48 + n else 55 + n
  }

  function HexValue(b: Byte): Option<nat> {
    if 48 <= b <= 57 then Some(b - 48)
    else if 65 <= b <= 70 then Some(b - 55)
    else if 97 <= b <= 102 then Some(b - 87)
    else None
  }

  function Escape(b: Byte): Bytes {
    [PERCENT, HexDigit(b / 16), HexDigit(b % 16)]
  }

  // ---- the two encoders ----

  function EdgeEncodeByte(b: Byte): Bytes {
    if Unreserved(b) then [b] else Escape(b)
  }

  /** The command line spells the space out before the general case. */
  function CliEncodeByte(b: Byte): Bytes {
    if Unreserved(b) then [b]
    else if b == SPACE then [PERCENT, 50, 48]
    else Escape(b)
  }

  function EncodeWith(encode: Byte -> Bytes, s: Bytes): Bytes {
    if s == [] then [] else encode(s[0]) + EncodeWith(encode, s[1..])
  }

  function PercentEncode(s: Bytes): Bytes {
    EncodeWith(b => EdgeEncodeByte(b), s)
  }

  function UrlEncode(s: Bytes): Bytes {
    EncodeWith(b => CliEncodeByte(b), s)
  }

  method EdgePercentEncode(value: Bytes) returns (output: Bytes)
    ensures output == PercentEncode(value)
  {
    output := [];
    for i := 0 to |value|
      invariant output + PercentEncode(value[i..]) == PercentEncode(value)
    {
      assert value[i..][1..] == value[i + 1..];
      ghost var rest := PercentEncode(value[i + 1..]);
      if Unreserved(value[i]) {
        output := output + [value[i]];
      } else {
        output := output + Escape(value[i]);
      }
      assert PercentEncode(value[i..]) == EdgeEncodeByte(value[i]) + rest;
    }
    assert PercentEncode(value[|value|..]) == [];
  }

  // ---- the decoder ----

  /** A radix-16 parse of two bytes; the parser accepts a leading plus sign. */
  function ParseHexPair(hi: Byte, lo: Byte): Option<Byte> {
    if hi == PLUS then HexByte(0, HexValue(lo))
    else if HexValue(hi).None? then None
    else HexByte(HexValue(hi).value, HexValue(lo))
  }

  function HexByte(hi: nat, lo: Option<nat>): Option<Byte> {
    if lo.None? || 16 * hi + lo.value >= 256 then None else Some(16 * hi + lo.value)
  }

  function Cons(b: Byte, rest: Option<Bytes>): Option<Bytes> {
    if rest.None? then None else Some([b] + rest.value)
  }

  /** The bytes a text decodes to, before the check that they are UTF-8. */
  function DecodeBytes(s: Bytes): Option<Bytes> {
    if s == [] then Some([])
    else if s[0] == PERCENT then
      if |s| < 3 || ParseHexPair(s[1], s[2]).None? then None
      else Cons(ParseHexPair(s[1], s[2]).value, DecodeBytes(s[3..]))
    else Cons(if s[0] == PLUS then SPACE else s[0], DecodeBytes(s[1..]))
  }

  function UrlDecode(utf8: Bytes -> bool, s: Bytes): Option<Bytes> {
    var bytes := DecodeBytes(s);
    if bytes.None? || !utf8(bytes.value) then None else bytes
  }

  function Glue(sofar: Bytes, rest: Option<Bytes>): Option<Bytes> {
    if rest.None? then None else Some(sofar + rest.value)
  }

  lemma GlueNothing(rest: Option<Bytes>)
    ensures Glue([], rest) == rest
  {
    if rest.Some? {
      assert [] + rest.value == rest.value;
    }
  }

  lemma GlueStep(sofar: Bytes, s: Bytes)
    requires s != []
    ensures
      Glue(sofar, DecodeBytes(s)) ==
        if s[0] == PERCENT then
          if |s| < 3 || ParseHexPair(s[1], s[2]).None? then None
          else Glue(sofar + [ParseHexPair(s[1], s[2]).value], DecodeBytes(s[3..]))
        else Glue(sofar + [if s[0] == PLUS then SPACE else s[0]], DecodeBytes(s[1..]))
  {
    if s[0] != PERCENT {
      GlueCons(sofar, if s[0] == PLUS then SPACE else s[0], DecodeBytes(s[1..]));
    } else if |s| >= 3 && ParseHexPair(s[1], s[2]).Some? {
      GlueCons(sofar, ParseHexPair(s[1], s[2]).value, DecodeBytes(s[3..]));
    }
  }

  lemma GlueCons(sofar: Bytes, b: Byte, rest: Option<Bytes>)
    ensures Glue(sofar, Cons(b, rest)) == Glue(sofar + [b], rest)
  {
    if rest.Some? {
      assert sofar + ([b] + rest.value) == sofar + [b] + rest.value;
    }
  }

  method CliUrlDecode(utf8: Bytes -> bool, value: Bytes) returns (r: Option<Bytes>)
    ensures r == UrlDecode(utf8, value)
  {
    GlueNothing(DecodeBytes(value));
    assert value[0..] == value;
    var bytes: Bytes, i := [], 0;
    while i < |value|
      invariant 0 <= i <= |value|
      invariant DecodeBytes(value) == Glue(bytes, DecodeBytes(value[i..]))
    {
      GlueStep(bytes, value[i..]);
      if value[i] == PERCENT {
        if i + 3 > |value| || ParseHexPair(value[i + 1], value[i + 2]).None? {
          return None;
        }
        assert value[i..][3..] == value[i + 3..];
        assert value[i..][1] == value[i + 1] && value[i..][2] == value[i + 2];
        bytes := bytes + [ParseHexPair(value[i + 1], value[i + 2]).value];
        i := i + 3;
      } else {
        assert value[i..][1..] == value[i + 1..];
        bytes := bytes + [if value[i] == PLUS then SPACE else value[i]];
        i := i + 1;
      }
    }
    assert bytes + [] == bytes;
    r := if utf8(bytes) then Some(bytes) else None;
  }

  // ---- queries ----

  datatype Param = Param(key: Bytes, value: Bytes)

  function Pair(p: Param): Bytes {
    PercentEncode(p.key) + [EQUALS] + PercentEncode(p.value)
  }

  function Pairs(params: seq<Param>): (r: seq<Bytes>)
    ensures |r| == |params|
    ensures forall k :: 0 <= k < |params| ==> r[k] == Pair(params[k])
  {
    seq(|params|, k requires 0 <= k < |params| => Pair(params[k]))
  }

  function EncodeQuery(params: seq<Param>): Bytes {
    Join(Pairs(params), AMPERSAND)
  }

  function AddPart(utf8: Bytes -> bool, params: map<Bytes, Bytes>, part: Bytes): map<Bytes, Bytes> {
    var halves := Cut(part, EQUALS);
    var key, value := UrlDecode(utf8, halves.0), UrlDecode(utf8, halves.1);
    if part == [] || key.None? || value.None? then params else params[key.value := value.value]
  }

  /** Later parts win, as in collecting pairs into a map. */
  function ParseParts(utf8: Bytes -> bool, parts: seq<Bytes>): map<Bytes, Bytes> {
    if parts == [] then map[]
    else AddPart(utf8, ParseParts(utf8, parts[..|parts| - 1]), parts[|parts| - 1])
  }

  function QueryParts(query: Bytes): seq<Bytes> {
    Split(query, AMPERSAND)
  }

  function ParseQuery(utf8: Bytes -> bool, query: Bytes): map<Bytes, Bytes> {
    ParseParts(utf8, QueryParts(query))
  }

  function LastWins(params: seq<Param>): map<Bytes, Bytes> {
    if params == [] then map[]
    else LastWins(params[..|params| - 1])[params[|params| - 1].key := params[|params| - 1].value]
  }

  // ---- results ----

  /** The two encoders are one function. */
  lemma {:induction false} EncodersAgree(s: Bytes)
    ensures UrlEncode(s) == PercentEncode(s)
  {
    if s != [] {
      EncodersAgree(s[1..]);
      assert CliEncodeByte(s[0]) == EdgeEncodeByte(s[0]);
    }
  }

  lemma EncodedByte(b: Byte)
    ensures forall k :: 0 <= k < |EdgeEncodeByte(b)| ==>
      EdgeEncodeByte(b)[k] != AMPERSAND && EdgeEncodeByte(b)[k] != EQUALS && EdgeEncodeByte(b)[k] != PLUS
  {
  }

  /** Encoded text never contains a character the query syntax or the decoder reads specially,
      other than the escapes themselves. */
  lemma {:induction false} EncodedIsPlain(s: Bytes)
    ensures AMPERSAND !in PercentEncode(s) && EQUALS !in PercentEncode(s) && PLUS !in PercentEncode(s)
  {
    if s != [] {
      EncodedIsPlain(s[1..]);
      EncodedByte(s[0]);
    }
  }

  lemma DecodeEncodedByte(b: Byte, rest: Bytes)
    ensures DecodeBytes(EdgeEncodeByte(b) + rest) == Cons(b, DecodeBytes(rest))
  {
    var s := EdgeEncodeByte(b) + rest;
    if Unreserved(b) {
      assert s[1..] == rest;
    } else {
      assert s[3..] == rest;
      assert 16 * (b / 16) + b % 16 == b;
      assert HexValue(HexDigit(b / 16)) == Some(b / 16) && HexValue(HexDigit(b % 16)) == Some(b % 16);
    }
  }

  /** Decoding what either side encoded gives the bytes back. */
  lemma {:induction false} DecodeEncoded(s: Bytes)
    ensures DecodeBytes(PercentEncode(s)) == Some(s)
  {
    if s != [] {
      DecodeEncoded(s[1..]);
      DecodeEncodedByte(s[0], PercentEncode(s[1..]));
      assert s == [s[0]] + s[1..];
    }
  }

  lemma AddEncodedPart(utf8: Bytes -> bool, params: map<Bytes, Bytes>, p: Param)
    requires utf8(p.key) && utf8(p.value)
    ensures AddPart(utf8, params, Pair(p)) == params[p.key := p.value]
  {
    EncodedIsPlain(p.key);
    CutJoined(PercentEncode(p.key), PercentEncode(p.value), EQUALS);
    DecodeEncoded(p.key);
    DecodeEncoded(p.value);
  }

  predicate IsText(utf8: Bytes -> bool, params: seq<Param>) {
    forall k :: 0 <= k < |params| ==> utf8(params[k].key) && utf8(params[k].value)
  }

  lemma {:induction false} ParseEncodedParts(utf8: Bytes -> bool, params: seq<Param>)
    requires IsText(utf8, params)
    ensures ParseParts(utf8, Pairs(params)) == LastWins(params)
  {
    if params != [] {
      var n := |params| - 1;
      ParseEncodedParts(utf8, params[..n]);
      assert Pairs(params)[..n] == Pairs(params[..n]);
      AddEncodedPart(utf8, LastWins(params[..n]), params[n]);
    }
  }

  /** For every parameter list, the command line reads from the edge's query exactly the
      parameters the edge wrote, the last value of a repeated key winning. */
  lemma QueryRoundTrip(utf8: Bytes -> bool, params: seq<Param>)
    requires IsText(utf8, params)
    ensures ParseQuery(utf8, EncodeQuery(params)) == LastWins(params)
  {
    if params == [] {
      var nothing: Bytes := [];
      assert EncodeQuery(params) == nothing;
      assert Split(nothing, AMPERSAND) == [nothing];
      assert [nothing][..0] == [];
      assert ParseParts(utf8, [nothing]) == AddPart(utf8, map[], nothing);
    } else {
      forall k | 0 <= k < |params|
        ensures AMPERSAND !in Pairs(params)[k]
      {
        EncodedIsPlain(params[k].key);
        EncodedIsPlain(params[k].value);
      }
      SplitJoin(Pairs(params), AMPERSAND);
      ParseEncodedParts(utf8, params);
    }
  }

  /** With distinct keys, nothing is overwritten and nothing is added. */
  lemma {:induction false} DistinctParamsAllSurvive(params: seq<Param>)
    requires forall i, j :: 0 <= i < j < |params| ==> params[i].key != params[j].key
    ensures forall k :: 0 <= k < |params| ==> params[k].key in LastWins(params) && LastWins(params)[params[k].key] == params[k].value
    ensures forall key :: key in LastWins(params) ==> exists k :: 0 <= k < |params| && params[k].key == key
  {
    if params != [] {
      var n := |params| - 1;
      DistinctParamsAllSurvive(params[..n]);
      forall key | key in LastWins(params)
        ensures exists k :: 0 <= k < |params| && params[k].key == key
      {
        if key != params[n].key {
          var k :| 0 <= k < n && params[..n][k].key == key;
          assert params[k].key == key;
        }
      }
    }
  }

  // ---- what the decoder reads ----

  predicate IsUpperDigit(b: Byte, n: nat) {
    || ('0' as int <= b <= '9' as int && n == b - '0' as int)
    || ('A' as int <= b <= 'F' as int && n == b - 'A' as int + 10)
  }

  /** A hexadecimal digit, in either case. */
  predicate IsDigit(b: Byte, n: nat) {
    IsUpperDigit(b, n) || ('a' as int <= b <= 'f' as int && n == b - 'a' as int + 10)
  }

  /** Two digits, or a plus sign and one. */
  predicate IsHexPair(hi: Byte, lo: Byte, b: Byte) {
    IsDigit(lo, b % 16) && if hi == '+' as int then b < 16 else IsDigit(hi, b / 16)
  }

  /** The text spells the bytes: a percent sign and a pair of digits for any byte, a plus sign
      for a space, anything else for itself. */
  predicate Spells(s: Bytes, bytes: Bytes) {
    if bytes == [] then s == []
    else
      || (|s| >= 1 && s[0] == '+' as int && bytes[0] == ' ' as int && Spells(s[1..], bytes[1..]))
      || (|s| >= 1 && s[0] != '+' as int && s[0] != '%' as int && bytes[0] == s[0] && Spells(s[1..], bytes[1..]))
      || (|s| >= 3 && s[0] == '%' as int && IsHexPair(s[1], s[2], bytes[0]) && Spells(s[3..], bytes[1..]))
  }

  lemma DigitExactly(b: Byte, n: nat)
    ensures HexValue(b) == Some(n) <==> IsDigit(b, n)
  {
  }

  lemma HexPairExactly(hi: Byte, lo: Byte, b: Byte)
    ensures ParseHexPair(hi, lo) == Some(b) <==> IsHexPair(hi, lo, b)
  {
    DigitExactly(lo, b % 16);
    DigitExactly(hi, b / 16);
    if HexValue(lo).Some? {
      Nibbles(0, HexValue(lo).value, b);
      if HexValue(hi).Some? {
        Nibbles(HexValue(hi).value, HexValue(lo).value, b);
      }
    }
  }

  lemma Nibbles(hi: nat, lo: nat, b: Byte)
    requires hi < 16 && lo < 16
    ensures 16 * hi + lo == b <==> hi == b / 16 && lo == b % 16
  {
  }

  /** The decoder returns the bytes that a text spells, and fails on a text that spells none. */
  lemma {:induction false} DecodesExactly(s: Bytes, bytes: Bytes)
    ensures DecodeBytes(s) == Some(bytes) <==> Spells(s, bytes)
    decreases |s|
  {
    if s != [] && bytes != [] {
      var size := if s[0] == PERCENT then 3 else 1;
      if size <= |s| {
        DecodesExactly(s[size..], bytes[1..]);
        if size == 3 {
          HexPairExactly(s[1], s[2], bytes[0]);
        }
        FirstDecoded(s, bytes, size);
      }
    }
  }

  lemma {:induction false} FirstDecoded(s: Bytes, bytes: Bytes, size: nat)
    requires s != [] && bytes != [] && size == (if s[0] == PERCENT then 3 else 1) && size <= |s|
    ensures DecodeBytes(s) == Some(bytes) <==>
      && DecodeBytes(s[size..]) == Some(bytes[1..])
      && if size == 3 then ParseHexPair(s[1], s[2]) == Some(bytes[0]) else bytes[0] == if s[0] == PLUS then SPACE else s[0]
  {
    assert bytes == [bytes[0]] + bytes[1..];
  }

  // ---- what the encoders write ----

  predicate Plain(c: char) {
    'A' <= c <= 'Z' || 'a' <= c <= 'z' || '0' <= c <= '9' || c == '-' || c == '.' || c == '_' || c == '~'
  }

  /** A plain byte for itself, any other as a percent sign and two upper-case digits. */
  predicate Writes(bytes: Bytes, s: Bytes) {
    if bytes == [] then s == []
    else if Plain(bytes[0] as char) then |s| >= 1 && s[0] == bytes[0] && Writes(bytes[1..], s[1..])
    else
      && |s| >= 3 && s[0] == '%' as int
      && IsUpperDigit(s[1], bytes[0] / 16) && IsUpperDigit(s[2], bytes[0] % 16)
      && Writes(bytes[1..], s[3..])
  }

  lemma PlainExactly(b: Byte)
    ensures Unreserved(b) <==> Plain(b as char)
  {
  }

  lemma EscapeExactly(b: Byte, s: Bytes)
    requires |s| == 3
    ensures s == Escape(b) <==> s[0] == '%' as int && IsUpperDigit(s[1], b / 16) && IsUpperDigit(s[2], b % 16)
  {
  }

  /** The encoders write exactly that. */
  lemma {:induction false} EncodesExactly(bytes: Bytes, s: Bytes)
    ensures PercentEncode(bytes) == s <==> Writes(bytes, s)
  {
    if bytes != [] {
      var first := EdgeEncodeByte(bytes[0]);
      PlainExactly(bytes[0]);
      if |first| <= |s| {
        EncodesExactly(bytes[1..], s[|first|..]);
        if |first| == 3 {
          EscapeExactly(bytes[0], s[..3]);
        }
        assert s == s[..|first|] + s[|first|..];
      }
    }
  }

  // ---- what a query says ----

  /** The part gives the key this value: both spelled, with an equals sign between or, for an
      empty value, none. */
  ghost predicate Gives(utf8: Bytes -> bool, part: Bytes, key: Bytes, value: Bytes) {
    exists left: Bytes, right: Bytes :: Halves(part, left, right) && Spells(left, key) && Spells(right, value) && utf8(key) && utf8(value)
  }

  predicate Halves(part: Bytes, left: Bytes, right: Bytes) {
    && part != [] && '=' as int !in left
    && (part == left + ['=' as int] + right || (part == left && right == []))
  }

  lemma HalvesAreCut(part: Bytes, left: Bytes, right: Bytes)
    ensures Halves(part, left, right) <==> part != [] && Cut(part, EQUALS) == (left, right)
  {
    if Halves(part, left, right) {
      if part != left {
        CutJoined(left, right, EQUALS);
      }
    }
  }

  /** The part is added when it gives a key a value, and skipped when it does not. */
  lemma PartExactly(utf8: Bytes -> bool, params: map<Bytes, Bytes>, part: Bytes, key: Bytes, value: Bytes)
    ensures
      var after := AddPart(utf8, params, part);
      (key in after && after[key] == value) <==>
        Gives(utf8, part, key, value) || (key in params && params[key] == value && forall other :: !Gives(utf8, part, key, other))
  {
    var halves := Cut(part, EQUALS);
    GivesExactly(utf8, part, key, value);
    if part != [] && UrlDecode(utf8, halves.0) == Some(key) && UrlDecode(utf8, halves.1).Some? {
      GivesExactly(utf8, part, key, UrlDecode(utf8, halves.1).value);
    } else {
      forall other
        ensures !Gives(utf8, part, key, other)
      {
        GivesExactly(utf8, part, key, other);
      }
    }
  }

  lemma GivesExactly(utf8: Bytes -> bool, part: Bytes, key: Bytes, value: Bytes)
    ensures
      Gives(utf8, part, key, value) <==>
        part != [] && UrlDecode(utf8, Cut(part, EQUALS).0) == Some(key) && UrlDecode(utf8, Cut(part, EQUALS).1) == Some(value)
  {
    var left, right := Cut(part, EQUALS).0, Cut(part, EQUALS).1;
    HalvesAreCut(part, left, right);
    DecodesExactly(left, key);
    DecodesExactly(right, value);
    forall a, b | Halves(part, a, b)
      ensures a == left && b == right
    {
      HalvesAreCut(part, a, b);
    }
  }

  /** Part `k` gives the key this value and no later part gives it one. */
  ghost predicate GivesLast(utf8: Bytes -> bool, parts: seq<Bytes>, k: nat, key: Bytes, value: Bytes) {
    && k < |parts| && Gives(utf8, parts[k], key, value)
    && forall j, other :: k < j < |parts| ==> !Gives(utf8, parts[j], key, other)
  }

  /** A query gives a key the value of the last part that gives it one; parts that cannot be
      decoded give nothing. */
  lemma QueryExactly(utf8: Bytes -> bool, query: Bytes, key: Bytes, value: Bytes)
    ensures
      (key in ParseQuery(utf8, query) && ParseQuery(utf8, query)[key] == value) <==>
        exists k :: GivesLast(utf8, QueryParts(query), k, key, value)
  {
    PartsExactly(utf8, QueryParts(query), key, value);
  }

  lemma {:induction false} PartsExactly(utf8: Bytes -> bool, parts: seq<Bytes>, key: Bytes, value: Bytes)
    ensures
      (key in ParseParts(utf8, parts) && ParseParts(utf8, parts)[key] == value) <==>
        exists k :: GivesLast(utf8, parts, k, key, value)
  {
    if parts != [] {
      var n := |parts| - 1;
      PartsExactly(utf8, parts[..n], key, value);
      PartExactly(utf8, ParseParts(utf8, parts[..n]), parts[n], key, value);
      LastPart(utf8, parts, key, value);
    }
  }

  lemma LastPart(utf8: Bytes -> bool, parts: seq<Bytes>, key: Bytes, value: Bytes)
    requires parts != []
    ensures
      var n := |parts| - 1;
      (exists k :: GivesLast(utf8, parts, k, key, value)) <==>
        Gives(utf8, parts[n], key, value)
        || ((exists k :: GivesLast(utf8, parts[..n], k, key, value)) && forall other :: !Gives(utf8, parts[n], key, other))
  {
    var n := |parts| - 1;
    if Gives(utf8, parts[n], key, value) {
      assert GivesLast(utf8, parts, n, key, value);
    }
    forall k: nat | k < n
      ensures GivesLast(utf8, parts, k, key, value) <==>
        GivesLast(utf8, parts[..n], k, key, value) && forall other :: !Gives(utf8, parts[n], key, other)
    {
    }
  }

  // ---- claim lists ----

  function SplitClaims(value: string, separator: char): seq<string> {
    Collect(Split(value, separator), Clean())
  }

  predicate CleanClaim(claim: string, separator: char) {
    claim != "" && Trimmed(claim) && separator !in claim
  }

  lemma TrimmedPiece(piece: string, separator: char)
    requires separator !in piece && Trim(piece) != ""
    ensures CleanClaim(Trim(piece), separator)
  {
    var start := TrimStart(piece);
    assert forall k :: 0 <= k < |start| ==> start[k] in piece;
    assert forall k :: 0 <= k < |Trim(piece)| ==> Trim(piece)[k] == start[k];
  }

  lemma {:induction false} ClaimsAreClean(pieces: seq<string>, separator: char, k: nat)
    requires forall j :: 0 <= j < |pieces| ==> separator !in pieces[j]
    requires k < |Collect(pieces, Clean())|
    ensures CleanClaim(Collect(pieces, Clean())[k], separator)
  {
    var n := |pieces| - 1;
    var front := Collect(pieces[..n], Clean());
    if k < |front| {
      ClaimsAreClean(pieces[..n], separator, k);
    } else {
      TrimmedPiece(pieces[n], separator);
    }
  }

  lemma CleanClaimStays(claim: string, separator: char)
    requires CleanClaim(claim, separator)
    ensures Clean()(claim) == [claim]
  {
    assert Trim(claim) == claim;
  }

  lemma CleanClaimsStay(claims: seq<string>, separator: char)
    requires forall k :: 0 <= k < |claims| ==> CleanClaim(claims[k], separator)
    ensures Collect(claims, Clean()) == claims
  {
    forall k | 0 <= k < |claims|
      ensures Clean()(claims[k]) == [claims[k]]
    {
      CleanClaimStays(claims[k], separator);
    }
    CollectSingletons(claims, Clean());
  }

  /** A joined claim list splits back to itself exactly when every claim is non-empty, has no
      surrounding whitespace and does not contain the separator. */
  lemma ClaimsRoundTrip(claims: seq<string>, separator: char)
    ensures SplitClaims(Join(claims, separator), separator) == claims <==>
      forall k :: 0 <= k < |claims| ==> CleanClaim(claims[k], separator)
  {
    var pieces := Split(Join(claims, separator), separator);
    if forall k :: 0 <= k < |claims| ==> CleanClaim(claims[k], separator) {
      if claims == [] {
        assert pieces == [[]];
        assert pieces[..0] == [];
      } else {
        SplitJoin(claims, separator);
        CleanClaimsStay(claims, separator);
      }
    } else if SplitClaims(Join(claims, separator), separator) == claims {
      var k :| 0 <= k < |claims| && !CleanClaim(claims[k], separator);
      ClaimsAreClean(pieces, separator, k);
    }
  }
}
