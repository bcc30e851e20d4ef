/**
 * The text format of the configuration file: the escaping `escapeJson`
 * applies, the fixed-shape object `toJson` writes, and the substring scanner
 * `fromJson` reads it back with.  Each piece of the format is a function; the
 * loops of `escapeJson` and of the `fromJson` scanners are methods proved
 * equal to those functions.
 */
module Codec {
  import opened ArduinoText
  import opened Settings

  // ---------------------------------------------------------------------
  // Escaping
  // ---------------------------------------------------------------------

  /** The five characters `escapeJson` rewrites. */
  predicate Escapable(c: char) {
    c == '\\' || c == '"' || c == '\n' || c == '\r' || c == '\t'
  }

  /** The letter that follows the backslash in the escape of `c`. */
  function EscapeLetter(c: char): char
    requires Escapable(c)
  {
    match c
    case '\\' => '\\'
    case '"' => '"'
    case '\n' => 'n'
    case '\r' => 'r'
    case '\t' => 't'
  }

  /** What `escapeJson` emits for one character. */
  function EscapeChar(c: char): (r: string)
    ensures Escapable(c) ==> r == ['\\', EscapeLetter(c)]
    ensures !Escapable(c) ==> r == [c]
  {
    match c
    case '\\' => "\\\\"
    case '"' => "\\\""
    case '\n' => "\\n"
    case '\r' => "\\r"
    case '\t' => "\\t"
    case _ => [c]
  }

  /** The text `escapeJson` returns: every character replaced by its escape. */
  function Escaped(s: string): string {
    if s == [] then [] else EscapeChar(s[0]) + Escaped(s[1..])
  }

  lemma {:induction false} EscapedAppend(s: string, t: string)
    ensures Escaped(s + t) == Escaped(s) + Escaped(t)
  {
    if s == [] {
      assert s + t == t;
    } else {
      assert (s + t)[1..] == s[1..] + t;
      EscapedAppend(s[1..], t);
    }
  }

  /** `escapeJson`: the loop that appends the escape of each character. */
  method EscapeJson(str: string) returns (out: string)
    ensures out == Escaped(str)
  {
    out := "";
    for i := 0 to |str|
      invariant out == Escaped(str[..i])
    {
      var c := str[i];
      assert str[..i + 1] == str[..i] + [c];
      EscapedAppend(str[..i], [c]);
      assert Escaped([c]) == EscapeChar(c) by {
        assert [c][1..] == [];
      }
      match c
      case '\\' => out := out + "\\\\";
      case '"' => out := out + "\\\"";
      case '\n' => out := out + "\\n";
      case '\r' => out := out + "\\r";
      case '\t' => out := out + "\\t";
      case _ => out := out + [c];
    }
    assert str[..|str|] == str;
  }

  // ---------------------------------------------------------------------
  // Encoding
  // ---------------------------------------------------------------------

  /** One of the nine scalar members of the object `toJson` writes. */
  datatype Scalar = Text(key: string, text: string) | Number(key: string, number: nat)

  /** `"key":"escaped",` for a text member, `"key":digits,` for the interval. */
  function FieldText(f: Scalar): string {
    match f
    case Text(k, v) => "\"" + k + "\":\"" + Escaped(v) + "\","
    case Number(k, n) => "\"" + k + "\":" + Decimal(n) + ","
  }

  function FieldsText(fs: seq<Scalar>): string {
    if fs == [] then "" else FieldText(fs[0]) + FieldsText(fs[1..])
  }

  lemma {:induction false} FieldsTextAppend(a: seq<Scalar>, b: seq<Scalar>)
    ensures FieldsText(a + b) == FieldsText(a) + FieldsText(b)
  {
    if a == [] {
      assert a + b == b;
    } else {
      assert (a + b)[1..] == a[1..] + b;
      FieldsTextAppend(a[1..], b);
    }
  }

  /** The scalar members in the order `toJson` writes them. */
  function Scalars(r: DeviceSettings): seq<Scalar> {
    [ Text("locationName", r.locationName),
      Text("networkName", r.networkName),
      Text("mainSSID", r.mainSSID),
      Text("mainPass", r.mainPass),
      Text("altSSID", r.altSSID),
      Text("altPass", r.altPass),
      Text("devSSID", r.devSSID),
      Text("devPass", r.devPass),
      Number("checkInterval", r.checkInterval) ]
  }

  function Quoted(e: string): string {
    "\"" + Escaped(e) + "\""
  }

  /** The endpoints as quoted strings separated by commas, in list order. */
  function EndpointArray(eps: seq<string>): string {
    if eps == [] then "" else Quoted(eps[0]) + MoreEndpoints(eps[1..])
  }

  function MoreEndpoints(eps: seq<string>): string {
    if eps == [] then "" else "," + Quoted(eps[0]) + MoreEndpoints(eps[1..])
  }

  lemma {:induction false} MoreEndpointsSnoc(eps: seq<string>, e: string)
    ensures MoreEndpoints(eps + [e]) == MoreEndpoints(eps) + "," + Quoted(e)
  {
    if eps == [] {
      assert ([] + [e])[1..] == [];
    } else {
      assert (eps + [e])[1..] == eps[1..] + [e];
      MoreEndpointsSnoc(eps[1..], e);
    }
  }

  /** Appending an endpoint appends its quoted text, after a comma unless it
      is the first: the loop of `toJson` builds `EndpointArray`. */
  lemma EndpointArraySnoc(eps: seq<string>, e: string)
    ensures EndpointArray(eps + [e]) == EndpointArray(eps) + (if eps == [] then "" else ",") + Quoted(e)
  {
    if eps == [] {
      assert [] + [e] == [e];
      assert [e][1..] == [];
    } else {
      assert (eps + [e])[1..] == eps[1..] + [e];
      MoreEndpointsSnoc(eps[1..], e);
    }
  }

  /** The literal that opens the endpoint array; `fromJson` skips its 13 characters. */
  const ENDPOINTS_KEY: string := "\"endpoints\":["

  /** The whole text `toJson` produces for a record. */
  function Json(r: DeviceSettings): string {
    "{" + FieldsText(Scalars(r)) + ENDPOINTS_KEY + EndpointArray(r.endpoints) + "]}"
  }

  // ---------------------------------------------------------------------
  // Decoding
  // ---------------------------------------------------------------------

  /** A quote at `k` that the scanners take as closing: the character before
      it is not a backslash. */
  predicate ClosingQuoteAt(s: string, k: nat) {
    1 <= k < |s| && s[k] == '"' && s[k - 1] != '\\'
  }

  /** Where the scan for the end of a quoted value stops: the first closing
      quote at or after `from`, or the end of the text. */
  function ScanQuote(s: string, from: nat): (e: nat)
    requires 1 <= from <= |s|
    decreases |s| - from
    ensures from <= e <= |s|
    ensures e < |s| ==> ClosingQuoteAt(s, e)
    ensures forall k :: from <= k < e ==> !ClosingQuoteAt(s, k)
  {
    if from == |s| || ClosingQuoteAt(s, from) then from else ScanQuote(s, from + 1)
  }

  /** The first closing quote at or after `from` is where the scan stops. */
  lemma ScanQuoteAt(s: string, from: nat, k: nat)
    requires 1 <= from <= k && ClosingQuoteAt(s, k)
    requires forall j :: from <= j < k ==> !ClosingQuoteAt(s, j)
    ensures ScanQuote(s, from) == k
  {
    var e := ScanQuote(s, from);
    assert e < |s| ==> ClosingQuoteAt(s, e);
  }

  /** The five `String::replace` passes of `extractString`, in their order. */
  function TextUnescaped(raw: string): string {
    var a := ReplaceAll(raw, "\\\"", "\"");
    var b := ReplaceAll(a, "\\\\", "\\");
    var c := ReplaceAll(b, "\\n", "\n");
    var d := ReplaceAll(c, "\\r", "\r");
    ReplaceAll(d, "\\t", "\t")
  }

  /** The two passes the endpoint scanner applies. */
  function EndpointUnescaped(raw: string): string {
    ReplaceAll(ReplaceAll(raw, "\\\"", "\""), "\\\\", "\\")
  }

  /** The pattern `extractString` searches for. */
  function StringKey(key: string): string {
    "\"" + key + "\":\""
  }

  /** The pattern `extractNumber` searches for. */
  function NumberKey(key: string): string {
    "\"" + key + "\":"
  }

  /** `extractString(key)`: the unescaped text between the first `"key":"` and
      the next closing quote; empty when the pattern does not occur. */
  function StringField(json: string, key: string): string {
    match IndexOf(json, StringKey(key), 0)
    case None => ""
    case Some(at) =>
      var start := at + |StringKey(key)|;
      TextUnescaped(json[start..ScanQuote(json, start)])
  }

  /** The characters `extractNumber` consumes. */
  predicate NumberChar(c: char) {
    IsDigit(c) || c == '-'
  }

  /** Where the scan over digits and minus signs starting at `from` stops. */
  function ScanNumber(s: string, from: nat): (e: nat)
    requires from <= |s|
    decreases |s| - from
    ensures from <= e <= |s|
    ensures forall k :: from <= k < e ==> NumberChar(s[k])
    ensures e < |s| ==> !NumberChar(s[e])
  {
    if from == |s| || !NumberChar(s[from]) then from else ScanNumber(s, from + 1)
  }

  /** `extractNumber(key)`: -1 when `"key":` does not occur, otherwise `toInt`
      of the run of digits and minus signs after the first occurrence. */
  function NumberField(json: string, key: string): int {
    match IndexOf(json, NumberKey(key), 0)
    case None => -1
    case Some(at) =>
      var start := at + |NumberKey(key)|;
      ToLong(json[start..ScanNumber(json, start)])
  }

  /** The text between the first `"endpoints":[` and the first `]` after it,
      as a pair of indices; `None` when either is missing or the text between
      is empty. */
  function EndpointsRegion(json: string): (r: Option<(nat, nat)>)
    ensures r.Some? ==> 13 <= r.value.0 < r.value.1 < |json|
    ensures r.Some? ==> MatchAt(json, ENDPOINTS_KEY, r.value.0 - 13)
    ensures r.Some? ==> forall i :: 0 <= i < r.value.0 - 13 ==> !MatchAt(json, ENDPOINTS_KEY, i)
    ensures r.Some? ==> json[r.value.1] == ']' && ']' !in json[r.value.0..r.value.1]
  {
    match IndexOf(json, ENDPOINTS_KEY, 0)
    case None => None
    case Some(at) =>
      var epStart := at + 13;
      match IndexOf(json, "]", epStart)
      case None => None
      case Some(epEnd) =>
        if epEnd > epStart then
          assert ']' !in json[epStart..epEnd] by {
            forall i | epStart <= i < epEnd ensures json[i] != ']' {
              assert !MatchAt(json, "]", i);
              assert json[i..i + 1] == [json[i]];
            }
          }
          assert MatchAt(json, "]", epEnd);
          assert json[epEnd..epEnd + 1] == "]";
          Some((epStart, epEnd))
        else None
  }

  /** Where the endpoint scanner is: between entries, or inside the entry
      whose opening quote is at `open`. */
  datatype Cursor = Between | Inside(open: nat)

  /** The endpoint scanner of `fromJson`, read one character at a time.
      Between entries it looks for an opening quote; inside an entry it looks
      for the closing quote (a quote not preceded by a backslash) or the end
      of the text, and then decides about the entry.  `acc` holds what it
      has kept so far. */
  function Scan(a: string, pos: nat, c: Cursor, acc: seq<string>): seq<string>
    requires pos <= |a| + 1
    requires c.Inside? ==> c.open < pos <= |a|
    decreases |a| + 1 - pos
  {
    match c
    case Between =>
      if pos >= |a| then acc
      else if a[pos] == '"' then Scan(a, pos + 1, Inside(pos), acc)
      else Scan(a, pos + 1, Between, acc)
    case Inside(qs) =>
      if pos == |a| || ClosingQuoteAt(a, pos) then Scan(a, pos + 1, Between, Kept(a, qs, pos, acc))
      else Scan(a, pos + 1, c, acc)
  }

  /** The scanner between entries at `pos`. */
  function ScanEndpoints(a: string, pos: nat, acc: seq<string>): seq<string>
    requires pos <= |a| + 1
  {
    Scan(a, pos, Between, acc)
  }

  /** The scanner inside the entry opened at `qs`, looking at `e`. */
  function ScanEntry(a: string, qs: nat, e: nat, acc: seq<string>): seq<string>
    requires qs < e <= |a|
  {
    Scan(a, e, Inside(qs), acc)
  }

  /** The list after the entry between the quotes at `qs` and `qe`: the entry
      is kept when it is non-empty after unescaping and the list is not full. */
  function Kept(a: string, qs: nat, qe: nat, acc: seq<string>): seq<string>
    requires qs < qe <= |a|
  {
    if qe > qs + 1 then
      var ep := EndpointUnescaped(a[qs + 1..qe]);
      if |ep| > 0 && |acc| < MAX_ENDPOINTS then acc + [ep] else acc
    else acc
  }

  /** The endpoints `fromJson` decodes. */
  function EndpointList(json: string): seq<string> {
    match EndpointsRegion(json)
    case None => []
    case Some((epStart, epEnd)) => ScanEndpoints(json[epStart..epEnd], 0, [])
  }

  /** The location `fromJson` keeps: the `locationName` text, or "unset"
      when it is missing or empty. */
  function Location(json: string): (r: string)
    ensures r != ""
    ensures StringField(json, "locationName") != "" ==> r == StringField(json, "locationName")
    ensures StringField(json, "locationName") == "" ==> r == UNSET_LOCATION
  {
    var location := StringField(json, "locationName");
    if location == "" then UNSET_LOCATION else location
  }

  /** The interval `fromJson` keeps: the `checkInterval` number when it is
      positive, otherwise ten minutes. */
  function Interval(json: string): (r: ULong)
    ensures r > 0
    ensures NumberField(json, "checkInterval") > 0 ==> r == NumberField(json, "checkInterval")
    ensures NumberField(json, "checkInterval") <= 0 ==> r == DEFAULT_CHECK_INTERVAL
  {
    var interval := NumberField(json, "checkInterval");
    if interval > 0 then interval as ULong else DEFAULT_CHECK_INTERVAL
  }

  /** The record `fromJson` leaves behind.  It overwrites every field: a
      missing text key gives "", except for the location. */
  function Decoded(json: string): DeviceSettings {
    DeviceSettings(
      locationName := Location(json),
      networkName := StringField(json, "networkName"),
      mainSSID := StringField(json, "mainSSID"),
      mainPass := StringField(json, "mainPass"),
      altSSID := StringField(json, "altSSID"),
      altPass := StringField(json, "altPass"),
      devSSID := StringField(json, "devSSID"),
      devPass := StringField(json, "devPass"),
      checkInterval := Interval(json),
      endpoints := EndpointList(json))
  }

  // ---------------------------------------------------------------------
  // The scanning loops of fromJson
  // ---------------------------------------------------------------------

  /** The loop `extractString` and the endpoint scanner share: advance from
      `from` to the first quote whose previous character is not a backslash,
      or to the end of the text. */
  method FindClosingQuote(s: string, from: nat) returns (end: nat)
    requires 1 <= from <= |s|
    ensures end == ScanQuote(s, from)
  {
    end := from;
    while end < |s|
      invariant from <= end <= |s|
      invariant ScanQuote(s, end) == ScanQuote(s, from)
    {
      if s[end] == '"' && s[end - 1] != '\\' {
        break;
      }
      end := end + 1;
    }
  }

  /** `extractString`: the search, the scan for the closing quote, the five
      replace passes. */
  method ExtractString(json: string, key: string) returns (value: string)
    ensures value == StringField(json, key)
  {
    var searchKey := StringKey(key);
    var found := IndexOf(json, searchKey, 0);
    if found.None? {
      return "";
    }
    var start := found.value + |searchKey|;
    var end := FindClosingQuote(json, start);
    value := TextUnescaped(json[start..end]);
  }

  /** `extractNumber`: the search, the scan over digits and minus signs, `toInt`. */
  method ExtractNumber(json: string, key: string) returns (n: int)
    ensures n == NumberField(json, key)
  {
    var searchKey := NumberKey(key);
    var found := IndexOf(json, searchKey, 0);
    if found.None? {
      return -1;
    }
    var start := found.value + |searchKey|;
    var end := start;
    while end < |json| && (IsDigit(json[end]) || json[end] == '-')
      invariant start <= end <= |json|
      invariant ScanNumber(json, end) == ScanNumber(json, start)
    {
      end := end + 1;
    }
    n := ToLong(json[start..end]);
  }

  /** The endpoint scanner of `fromJson`: the region between `"endpoints":[`
      and the next `]`, then the loop over quoted entries. */
  method ParseEndpoints(json: string) returns (eps: seq<string>)
    ensures eps == EndpointList(json)
  {
    eps := [];
    var found := IndexOf(json, ENDPOINTS_KEY, 0);
    if found.None? {
      return;
    }
    var epStart := found.value + 13;
    var close := IndexOf(json, "]", epStart);
    if close.None? || close.value <= epStart {
      return;
    }
    eps := ScanArray(json[epStart..close.value]);
  }

  /** The loop over the quoted entries of the array text `a`. */
  method ScanArray(a: string) returns (eps: seq<string>)
    ensures eps == ScanEndpoints(a, 0, [])
  {
    eps := [];
    var pos := 0;
    while pos < |a|
      invariant pos <= |a| + 1
      invariant ScanEndpoints(a, pos, eps) == ScanEndpoints(a, 0, [])
      decreases |a| - pos
    {
      var quote := IndexOfChar(a, '"', pos);
      if quote.None? {
        NoQuote(a, pos, eps);
        break;
      }
      ghost var before := eps;
      var qStart := quote.value;
      var qEnd := FindClosingQuote(a, qStart + 1);
      if qEnd > qStart + 1 {
        var ep := EndpointUnescaped(a[qStart + 1..qEnd]);
        if |ep| > 0 && |eps| < MAX_ENDPOINTS {
          eps := eps + [ep];
        }
      }
      ScanStep(a, pos, before, qStart, qEnd);
      pos := qEnd + 1;
    }
  }

  /** Past the last quote the scanner keeps nothing more. */
  lemma {:induction false} NoQuote(a: string, pos: nat, acc: seq<string>)
    requires pos <= |a| && IndexOfChar(a, '"', pos) == None
    decreases |a| - pos
    ensures ScanEndpoints(a, pos, acc) == acc
  {
    if pos < |a| {
      NoQuote(a, pos + 1, acc);
    }
  }

  /** The characters before the next quote are skipped. */
  lemma {:induction false} SkipToQuote(a: string, pos: nat, acc: seq<string>, qs: nat)
    requires pos < |a| && IndexOfChar(a, '"', pos) == Some(qs)
    decreases qs - pos
    ensures ScanEndpoints(a, pos, acc) == ScanEntry(a, qs, qs + 1, acc)
  {
    if a[pos] != '"' {
      SkipToQuote(a, pos + 1, acc, qs);
    }
  }

  /** Inside an entry the scanner runs to the closing quote `ScanQuote` finds. */
  lemma {:induction false} SkipEntry(a: string, qs: nat, e: nat, acc: seq<string>)
    requires qs + 1 <= |a| && qs < e <= ScanQuote(a, qs + 1)
    requires forall k :: e <= k < ScanQuote(a, qs + 1) ==> !ClosingQuoteAt(a, k)
    decreases |a| - e
    ensures ScanEntry(a, qs, e, acc)
         == ScanEndpoints(a, ScanQuote(a, qs + 1) + 1, Kept(a, qs, ScanQuote(a, qs + 1), acc))
  {
    if e < ScanQuote(a, qs + 1) {
      SkipEntry(a, qs, e + 1, acc);
    }
  }

  /** One round of the loop of `fromJson`: `indexOf('"', pos)`, the scan to the
      closing quote, the entry, then the rest. */
  lemma ScanStep(a: string, pos: nat, acc: seq<string>, qs: nat, qe: nat)
    requires pos < |a| && IndexOfChar(a, '"', pos) == Some(qs)
    requires qs + 1 <= |a| && qe == ScanQuote(a, qs + 1)
    ensures ScanEndpoints(a, pos, acc) == ScanEndpoints(a, qe + 1, Kept(a, qs, qe, acc))
  {
    SkipToQuote(a, pos, acc, qs);
    SkipEntry(a, qs, qs + 1, acc);
  }
}
