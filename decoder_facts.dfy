/**
 * What `fromJson` guarantees of any text, well formed or not, and where its
 * reading of a value differs from what `escapeJson` wrote.
 */
module DecoderFacts {
  import opened ArduinoText
  import opened Settings
  import opened Codec
  import opened Readback
  import RoundTrip

  /** The scanner keeps the list within bounds. */
  lemma {:induction false} ScanBounded(a: string, pos: nat, c: Cursor, acc: seq<string>)
    requires pos <= |a| + 1
    requires c.Inside? ==> c.open < pos <= |a|
    requires EndpointsOk(acc)
    decreases |a| + 1 - pos
    ensures EndpointsOk(Scan(a, pos, c, acc))
  {
    match c
    case Between =>
      if pos < |a| {
        if a[pos] == '"' {
          ScanBounded(a, pos + 1, Inside(pos), acc);
        } else {
          ScanBounded(a, pos + 1, Between, acc);
        }
      }
    case Inside(qs) =>
      if pos == |a| || ClosingQuoteAt(a, pos) {
        var next := Kept(a, qs, pos, acc);
        assert EndpointsOk(next);
        ScanBounded(a, pos + 1, Between, next);
      } else {
        ScanBounded(a, pos + 1, c, acc);
      }
  }

  /** Whatever the text, the decoded endpoint list has at most five entries
      and none of them is empty. */
  lemma EndpointListBounded(json: string)
    ensures EndpointsOk(EndpointList(json))
  {
    match EndpointsRegion(json)
    case None =>
    case Some((s, e)) =>
      ScanBounded(json[s..e], 0, Between, []);
  }

  /** Every decoded record is one the device can hold. */
  lemma DecodedOk(json: string)
    ensures EndpointsOk(Decoded(json).endpoints)
    ensures Decoded(json).locationName != "" && Decoded(json).checkInterval > 0
  {
    EndpointListBounded(json);
  }

  /** Without a `"checkInterval":` member the interval is ten minutes. */
  lemma MissingInterval(json: string)
    requires IndexOf(json, NumberKey("checkInterval"), 0).None?
    ensures Interval(json) == DEFAULT_CHECK_INTERVAL
  {
  }

  /** A negative interval is replaced by ten minutes. */
  lemma NegativeInterval(json: string, at: nat)
    requires IndexOf(json, NumberKey("checkInterval"), 0) == Some(at)
    requires at + 16 < |json| && json[at + 16] == '-'
    ensures Interval(json) == DEFAULT_CHECK_INTERVAL
  {
    assert |NumberKey("checkInterval")| == 16;
    NegativeNumber(json, at + 16);
  }

  /** An interval whose value does not start with a digit or a minus sign
      (a letter, a quote as in `"600"`, a space, or the end of the text)
      reads as 0 and is replaced by ten minutes. */
  lemma NonNumericInterval(json: string, at: nat)
    requires IndexOf(json, NumberKey("checkInterval"), 0) == Some(at)
    requires at + 16 <= |json|
    requires at + 16 < |json| ==> !NumberChar(json[at + 16])
    ensures Interval(json) == DEFAULT_CHECK_INTERVAL
  {
    assert |NumberKey("checkInterval")| == 16;
    assert ScanNumber(json, at + 16) == at + 16;
    assert json[at + 16..at + 16] == [];
    ToIntWithoutDigits([]);
  }

  /** An interval written as `0` is replaced by ten minutes. */
  lemma ZeroInterval(json: string, at: nat)
    requires IndexOf(json, NumberKey("checkInterval"), 0) == Some(at)
    requires at + 16 < |json| && json[at + 16] == '0'
    requires at + 17 < |json| ==> !NumberChar(json[at + 17])
    ensures Interval(json) == DEFAULT_CHECK_INTERVAL
  {
    assert |NumberKey("checkInterval")| == 16;
    ZeroNumber(json, at + 16);
    assert NumberField(json, "checkInterval") == 0;
  }

  /** A lone `0` at `start` reads as 0. */
  lemma ZeroNumber(json: string, start: nat)
    requires start < |json| && json[start] == '0'
    requires start + 1 < |json| ==> !NumberChar(json[start + 1])
    ensures ToLong(json[start..ScanNumber(json, start)]) == 0
  {
    assert ScanNumber(json, start) == start + 1;
    assert json[start..start + 1] == ['0'];
    ToIntOfDigits(['0']);
  }

  /** A number that begins with a minus sign at `start` reads as at most 0. */
  lemma NegativeNumber(json: string, start: nat)
    requires start < |json| && json[start] == '-'
    ensures ToLong(json[start..ScanNumber(json, start)]) <= 0
  {
    var e := ScanNumber(json, start);
    assert NumberChar(json[start]);
    assert e > start;
    assert json[start..e][0] == '-';
    assert ToInt(json[start..e]) <= 0;
  }

  /** Without a `"locationName":"` member the location is `"unset"`. */
  lemma MissingLocation(json: string)
    requires IndexOf(json, StringKey("locationName"), 0).None?
    ensures Location(json) == UNSET_LOCATION
  {
  }

  /** A `"locationName":""` member found first gives `"unset"`: the closing
      quote follows the opening one at once. */
  lemma EmptyLocation(json: string, at: nat)
    requires IndexOf(json, StringKey("locationName"), 0) == Some(at)
    requires at + 16 < |json| && json[at + 16] == '"'
    ensures Location(json) == UNSET_LOCATION
  {
    assert |StringKey("locationName")| == 16;
    assert MatchAt(json, StringKey("locationName"), at);
    assert json[at + 15] == StringKey("locationName")[15] == '"';
    assert ClosingQuoteAt(json, at + 16);
    assert ScanQuote(json, at + 16) == at + 16;
    assert json[at + 16..at + 16] == [];
    assert TextUnescaped([]) == [];
  }

  /** The record an empty file decodes to: the location and the interval
      fall back, every other text is empty and there are no endpoints. */
  lemma EmptyDocument()
    ensures Decoded("") == DeviceSettings("unset", "", "", "", "", "", "", "", 600000, [])
    ensures Decoded("") != Defaults()
  {
    assert Decoded("").mainSSID != Defaults().mainSSID;
  }

  /** A backslash followed by `n` is written as an escaped backslash and an
      `n`, and the passes of the decoder turn that into a newline. */
  lemma BackslashLetterBecomesNewline()
    ensures Escaped(['\\', 'n']) == ['\\', '\\', 'n']
    ensures TextUnescaped(['\\', '\\', 'n']) == ['\n']
  {
    assert EscapeChar('\\') == ['\\', '\\'];
    assert Escaped(['\\', 'n']) == EscapeChar('\\') + Escaped(['n']);
    var s := ['\\', '\\', 'n'];
    ReplaceAbsent("n", "\\\"", "\"");
    assert s[1..] == "\\n" && s[1..][1..] == "n";
    assert !("\\\"" <= s[1..]) && !("\\\"" <= s);
    assert ReplaceAll(s[1..], "\\\"", "\"") == s[1..];
    assert ReplaceAll(s, "\\\"", "\"") == s;
    ReplaceAbsent("n", "\\\\", "\\");
    ReplaceHit("n", "\\\\", "\\");
    assert ['\\', 'n'] == "\\n";
    ReplaceHit("", "\\n", "\n");
    ReplaceAbsent("\n", "\\r", "\r");
    ReplaceAbsent("\n", "\\t", "\t");
  }

  /** A value that ends in a backslash is written with an escaped backslash
      just before its closing quote, and the scanners do not take that quote
      as closing: the value read runs on past it. */
  lemma TrailingBackslashHidesQuote(X: string, v: string, Y: string)
    requires |v| > 0 && v[|v| - 1] == '\\' && |Y| > 0 && Y[0] == '"'
    ensures !ClosingQuoteAt(X + Escaped(v) + Y, |X| + |Escaped(v)|)
  {
    var w := v[..|v| - 1];
    assert v == w + ['\\'];
    EscapedAppend(w, ['\\']);
    assert Escaped(['\\']) == EscapeChar('\\') == ['\\', '\\'];
    var s := X + Escaped(v) + Y;
    assert s[|X| + |Escaped(v)| - 1] == Escaped(v)[|Escaped(v)| - 1] == '\\';
  }

  /** In a saved text member, a backslash followed by `n` reads back as a
      newline. */
  lemma BackslashLetterMember(A: string, K: string, B: string)
    requires IndexOf(A + FieldText(Text(K, ['\\', 'n'])) + B, StringKey(K), 0) == Some(|A|)
    ensures StringField(A + FieldText(Text(K, ['\\', 'n'])) + B, K) == ['\n']
  {
    var J := A + FieldText(Text(K, ['\\', 'n'])) + B;
    var X := A + StringKey(K);
    var Y := "\"," + B;
    assert J == X + Escaped(['\\', 'n']) + Y;
    BackslashLetterBecomesNewline();
    NewlineBetween(J, K, |A|, X, Y);
  }

  lemma NewlineBetween(J: string, K: string, at: nat, X: string, Y: string)
    requires IndexOf(J, StringKey(K), 0) == Some(at) && |X| == at + |StringKey(K)|
    requires J == X + ['\\', '\\', 'n'] + Y && |Y| > 0 && Y[0] == '"'
    ensures StringField(J, K) == ['\n']
  {
    var e := |X| + 3;
    MiddleSlice(X, ['\\', '\\', 'n'], Y);
    forall j | |X| <= j < e ensures !ClosingQuoteAt(J, j) {
      assert J[j] == J[|X|..e][j - |X|];
    }
    assert J[e] == Y[0];
    assert J[e - 1] == 'n';
    ScanQuoteAt(J, |X|, e);
    StringFieldAt(J, K, at);
    BackslashLetterBecomesNewline();
  }

  /** In a saved text member, a value that is a single backslash does not
      read back: the decoder returns a backslash, a quote and more. */
  lemma TrailingBackslashMember(A: string, K: string, B: string)
    requires IndexOf(A + FieldText(Text(K, ['\\'])) + B, StringKey(K), 0) == Some(|A|)
    ensures |StringField(A + FieldText(Text(K, ['\\'])) + B, K)| >= 2
    ensures StringField(A + FieldText(Text(K, ['\\'])) + B, K)[..2] == ['\\', '"']
  {
    var J := A + FieldText(Text(K, ['\\'])) + B;
    var X := A + StringKey(K);
    var Y := "\"," + B;
    assert J == X + Escaped(['\\']) + Y;
    assert Escaped(['\\']) == ['\\', '\\'];
    MiddleSlice(X, ['\\', '\\'], Y);
    assert J[|X| + 2] == Y[0] && J[|X| + 3] == Y[1];
    HiddenQuoteAt(J, K, |A|, |X|);
  }

  lemma HiddenQuoteAt(J: string, K: string, at: nat, x: nat)
    requires IndexOf(J, StringKey(K), 0) == Some(at) && x == at + |StringKey(K)|
    requires x + 3 < |J| && J[x..x + 2] == ['\\', '\\'] && J[x + 2] == '"'
    ensures |StringField(J, K)| >= 2 && StringField(J, K)[..2] == ['\\', '"']
  {
    ScanPastHidden(J, x);
    StringFieldAt(J, K, at);
    HiddenRaw(J[x..ScanQuote(J, x)]);
  }

  /** The scan does not stop at a quote after an escaped backslash. */
  lemma ScanPastHidden(J: string, x: nat)
    requires 1 <= x && x + 3 < |J| && J[x..x + 2] == ['\\', '\\'] && J[x + 2] == '"'
    ensures x + 3 <= ScanQuote(J, x) && J[x..ScanQuote(J, x)][..3] == ['\\', '\\', '"']
  {
    assert J[x] == J[x..x + 2][0] && J[x + 1] == J[x..x + 2][1];
    var e := ScanQuote(J, x);
    assert !ClosingQuoteAt(J, x) && !ClosingQuoteAt(J, x + 1) && !ClosingQuoteAt(J, x + 2);
    assert e >= x + 3;
  }

  /** A raw value that starts with an escaped backslash and a quote
      decodes to a backslash and a quote, followed by the rest. */
  lemma HiddenRaw(raw: string)
    requires |raw| >= 3 && raw[..3] == ['\\', '\\', '"']
    ensures |TextUnescaped(raw)| >= 2 && TextUnescaped(raw)[..2] == ['\\', '"']
  {
    assert raw == ['\\', '\\', '"'] + raw[3..];
    UnescapeAfterBackslash(raw[3..]);
  }

  /** The five passes leave an escaped backslash followed by a quote as a
      backslash and a quote. */
  lemma UnescapeAfterBackslash(t: string)
    ensures TextUnescaped(['\\', '\\', '"'] + t) == ['\\', '"'] + TextUnescaped(t)
  {
    var a := ReplaceAll(t, "\\\"", "\"");
    var b := ReplaceAll(a, "\\\\", "\\");
    var c := ReplaceAll(b, "\\n", "\n");
    var d := ReplaceAll(c, "\\r", "\r");
    FirstPassAfterBackslash(t);
    LaterPassAfterBackslash(a, '\\', "\\");
    LaterPassAfterBackslash(b, 'n', "\n");
    LaterPassAfterBackslash(c, 'r', "\r");
    LaterPassAfterBackslash(d, 't', "\t");
  }

  lemma FirstPassAfterBackslash(t: string)
    ensures ReplaceAll(['\\', '\\', '"'] + t, "\\\"", "\"") == ['\\', '"'] + ReplaceAll(t, "\\\"", "\"")
  {
    var s := ['\\', '\\', '"'] + t;
    assert s[..2] != "\\\"" by {
      assert s[..2][1] == '\\';
    }
    assert s[1..] == "\\\"" + t;
    ReplaceHit(t, "\\\"", "\"");
  }

  lemma LaterPassAfterBackslash(t: string, x: char, repl: string)
    requires x != '"'
    ensures ReplaceAll(['\\', '"'] + t, ['\\', x], repl) == ['\\', '"'] + ReplaceAll(t, ['\\', x], repl)
  {
    var s := ['\\', '"'] + t;
    assert s[..2] != ['\\', x] by {
      assert s[..2][1] == '"';
    }
    assert s[1..] == ['"'] + t;
    ReplaceSkip('"', t, ['\\', x], repl);
  }

  /** Saving and loading is not idempotent on endpoints: `\]` is written as
      `"\\]"`, the array is cut at that `]`, and the scanner keeps a single
      backslash; saving that writes `"\\"`, whose closing quote follows a
      backslash, so the next load keeps a backslash and a quote. */
  lemma EndpointsNotIdempotent(r: DeviceSettings)
    requires r.endpoints == [['\\', ']']]
    ensures Decoded(Json(r)).endpoints == [['\\']]
    ensures Decoded(Json(Decoded(Json(r)))).endpoints == [['\\', '"']]
    ensures Decoded(Json(Decoded(Json(r)))) != Decoded(Json(r))
  {
    FirstLoad(r);
    SecondLoad(Decoded(Json(r)));
  }

  lemma FirstLoad(r: DeviceSettings)
    requires r.endpoints == [['\\', ']']]
    ensures EndpointList(Json(r)) == [['\\']]
  {
    var X := "{" + FieldsText(Scalars(r)) + ENDPOINTS_KEY;
    var EA := EndpointArray(r.endpoints);
    BracketEntryArray();
    ArrayKeyInJson(r);
    MiddleSlice(X, EA, "]}");
    var J := Json(r);
    var p := |X|;
    assert J[p..p + 3] == J[p..p + 5][..3];
    assert J[p + 3] == J[p..p + 5][3];
    CutRegion(J, p, ['"', '\\', '\\']);
    RegionList(J, p, p + 3);
    ScanCutEntry();
  }

  /** How the endpoint `\]` is written. */
  lemma BracketEntryArray()
    ensures EndpointArray([['\\', ']']]) == ['"', '\\', '\\', ']', '"']
  {
    assert Escaped(['\\', ']']) == EscapeChar('\\') + Escaped([']']);
  }

  /** The array key of a saved document is found right after the members. */
  lemma ArrayKeyInJson(r: DeviceSettings)
    ensures MatchAt(Json(r), ENDPOINTS_KEY, |"{" + FieldsText(Scalars(r))|)
    ensures forall i :: 0 <= i < |"{" + FieldsText(Scalars(r))| ==> !MatchAt(Json(r), ENDPOINTS_KEY, i)
    ensures |ENDPOINTS_KEY| == 13
  {
    RoundTrip.ScalarKeys(r);
    ArrayKeyFirst(Scalars(r), EndpointArray(r.endpoints));
  }

  /** The region of a text whose array key is first found at `p - 13`: the
      text from `p` up to the first `]`. */
  lemma CutRegion(J: string, p: nat, EA: string)
    requires 13 <= p && MatchAt(J, ENDPOINTS_KEY, p - 13)
    requires forall i :: 0 <= i < p - 13 ==> !MatchAt(J, ENDPOINTS_KEY, i)
    requires EA != [] && p + |EA| < |J| && J[p..p + |EA|] == EA && J[p + |EA|] == ']' && ']' !in EA
    ensures EndpointsRegion(J) == Some((p, p + |EA|))
  {
    RegionAt(J, p, EA);
  }

  lemma RegionList(J: string, s: nat, e: nat)
    requires EndpointsRegion(J) == Some((s, e))
    ensures EndpointList(J) == ScanEndpoints(J[s..e], 0, [])
  {
  }

  lemma SecondLoad(r: DeviceSettings)
    requires r.endpoints == [['\\']]
    ensures EndpointList(Json(r)) == [['\\', '"']]
  {
    var A := "{" + FieldsText(Scalars(r));
    var EA := EndpointArray(r.endpoints);
    assert Escaped(['\\']) == ['\\', '\\'];
    assert EA == ['"', '\\', '\\', '"'];
    RoundTrip.ScalarKeys(r);
    ArrayKeyFirst(Scalars(r), EA);
    ArrayAfterKey(A, EA);
    ScanHiddenQuote();
  }

  /** The array text up to the first `]`: an opening quote and an escaped
      backslash, read as a single backslash. */
  lemma ScanCutEntry()
    ensures ScanEndpoints(['"', '\\', '\\'], 0, []) == [['\\']]
  {
    var a: string := ['"', '\\', '\\'];
    assert Scan(a, 0, Between, []) == Scan(a, 1, Inside(0), []);
    assert Scan(a, 1, Inside(0), []) == Scan(a, 2, Inside(0), []);
    assert Scan(a, 2, Inside(0), []) == Scan(a, 3, Inside(0), []);
    assert Scan(a, 3, Inside(0), []) == Scan(a, 4, Between, Kept(a, 0, 3, []));
    assert a[1..3] == ['\\', '\\'];
    TwoBackslashes();
  }

  /** The endpoint passes turn an escaped backslash into a backslash. */
  lemma TwoBackslashes()
    ensures EndpointUnescaped(['\\', '\\']) == ['\\']
  {
    var s: string := ['\\', '\\'];
    assert s[..2] != "\\\"" by {
      assert s[..2][1] == '\\';
    }
    assert ReplaceAll(s[1..], "\\\"", "\"") == s[1..];
    assert ReplaceAll(s, "\\\"", "\"") == s;
    assert s == "\\\\" + "";
    ReplaceHit("", "\\\\", "\\");
  }

  /** An escaped backslash before the closing quote: the quote is not taken
      as closing, and the entry runs to the end. */
  lemma ScanHiddenQuote()
    ensures ScanEndpoints(['"', '\\', '\\', '"'], 0, []) == [['\\', '"']]
  {
    var a: string := ['"', '\\', '\\', '"'];
    assert Scan(a, 0, Between, []) == Scan(a, 1, Inside(0), []);
    assert Scan(a, 1, Inside(0), []) == Scan(a, 2, Inside(0), []);
    assert Scan(a, 2, Inside(0), []) == Scan(a, 3, Inside(0), []);
    assert !ClosingQuoteAt(a, 3);
    assert Scan(a, 3, Inside(0), []) == Scan(a, 4, Inside(0), []);
    assert Scan(a, 4, Inside(0), []) == Scan(a, 5, Between, Kept(a, 0, 4, []));
    assert a[1..4] == ['\\', '\\', '"'];
    BackslashQuoteEndpoint();
  }

  /** The endpoint passes turn an escaped backslash and a quote into a
      backslash and a quote. */
  lemma BackslashQuoteEndpoint()
    ensures EndpointUnescaped(['\\', '\\', '"']) == ['\\', '"']
  {
    FirstPassAfterBackslash([]);
    LaterPassAfterBackslash([], '\\', "\\");
    assert ['\\', '\\', '"'] + [] == ['\\', '\\', '"'];
    assert ['\\', '"'] + [] == ['\\', '"'];
  }
}
