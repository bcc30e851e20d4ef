/**
 * `fromJson` reads back what `toJson` writes: each member is found by its
 * key, each value is scanned to its end and unescaped, and the endpoint
 * array is split into its entries again.
 */
module Readback {
  import opened ArduinoText
  import opened Settings
  import opened Codec
  import opened EscapeFacts
  import opened KeySearch

  /** Members whose keys all differ from `K`. */
  predicate OtherKeys(fs: seq<Scalar>, K: string) {
    forall j :: 0 <= j < |fs| ==> KeyLike(fs[j].key) && fs[j].key != K
  }

  /** `"K":` does not occur inside members with other keys. */
  lemma {:induction false} NoKeyInFields(fs: seq<Scalar>, K: string, rest: string)
    requires KeyLike(K) && OtherKeys(fs, K)
    ensures forall i :: 0 <= i < |FieldsText(fs)| ==> !MatchAt(FieldsText(fs) + rest, NumberKey(K), i)
  {
    if fs != [] {
      assert OtherKeys(fs[1..], K) by {
        forall j | 0 <= j < |fs[1..]| ensures KeyLike(fs[1..][j].key) && fs[1..][j].key != K {
          assert fs[1..][j] == fs[j + 1];
        }
      }
      NoKeyInFields(fs[1..], K, rest);
      NoKeyInFront(fs[0], fs[1..], K, rest);
      assert fs == [fs[0]] + fs[1..];
    }
  }

  /** One induction step of `NoKeyInFields`. */
  lemma NoKeyInFront(f: Scalar, fs: seq<Scalar>, K: string, rest: string)
    requires KeyLike(K) && KeyLike(f.key) && f.key != K
    requires forall i :: 0 <= i < |FieldsText(fs)| ==> !MatchAt(FieldsText(fs) + rest, NumberKey(K), i)
    ensures forall i :: 0 <= i < |FieldsText([f] + fs)| ==> !MatchAt(FieldsText([f] + fs) + rest, NumberKey(K), i)
  {
    var h := FieldText(f);
    var t := FieldsText(fs);
    var u := t + rest;
    assert FieldsText([f] + fs) == h + t by {
      assert ([f] + fs)[1..] == fs;
    }
    assert h + t + rest == h + u;
    forall i | 0 <= i < |h| ensures !MatchAt(h + u, NumberKey(K), i) {
      NoKeyInField(f, K, u, i);
    }
    NoMatchAfter(h, u, NumberKey(K), |t|);
  }

  /** `"K":` first occurs where the member with key `K` begins, after `{` and
      the members written before it. */
  lemma FindKey(pre: seq<Scalar>, K: string, body: string)
    requires KeyLike(K) && OtherKeys(pre, K) && NumberKey(K) <= body
    ensures IndexOf("{" + FieldsText(pre) + body, NumberKey(K), 0) == Some(1 + |FieldsText(pre)|)
  {
    var A := FieldsText(pre);
    var J := "{" + A + body;
    NoKeyBefore(pre, K, body);
    PatternAt("{" + A, body, NumberKey(K));
    IndexOfFirst(J, NumberKey(K), 0, 1 + |A|);
  }

  /** A text that begins with `P` puts a match of `P` right after `A`. */
  lemma PatternAt(A: string, body: string, P: string)
    requires P <= body
    ensures MatchAt(A + body, P, |A|)
  {
    assert MatchAt(body, P, 0) by {
      assert body[..|P|] == P;
    }
    MatchShift(A, body, P, 0);
  }

  lemma PrefixTrans(p: string, q: string, s: string)
    requires p <= q && q <= s
    ensures p <= s
  {
    assert s[..|p|] == s[..|q|][..|p|];
  }

  /** `"K":` does not occur before the member with key `K`. */
  lemma NoKeyBefore(pre: seq<Scalar>, K: string, body: string)
    requires KeyLike(K) && OtherKeys(pre, K)
    ensures forall i :: 0 <= i < 1 + |FieldsText(pre)| ==> !MatchAt("{" + FieldsText(pre) + body, NumberKey(K), i)
  {
    var A := FieldsText(pre);
    var J := "{" + A + body;
    NoKeyInFields(pre, K, body);
    assert J == "{" + (A + body);
    forall i | 0 <= i < 1 + |A| ensures !MatchAt(J, NumberKey(K), i) {
      if i == 0 {
        assert J[0] == '{';
      } else {
        MatchShift("{", A + body, NumberKey(K), i - 1);
      }
    }
  }

  /** The same for a longer pattern that begins with `"K":`, such as the
      `"K":"` of a text member or the `"endpoints":[` of the array. */
  lemma FindPattern(pre: seq<Scalar>, K: string, P: string, body: string)
    requires KeyLike(K) && OtherKeys(pre, K) && NumberKey(K) <= P && P <= body
    ensures IndexOf("{" + FieldsText(pre) + body, P, 0) == Some(1 + |FieldsText(pre)|)
  {
    var J := "{" + FieldsText(pre) + body;
    var at := 1 + |FieldsText(pre)|;
    PrefixTrans(NumberKey(K), P, body);
    FindKey(pre, K, body);
    PatternAt("{" + FieldsText(pre), body, P);
    IndexOfLonger(J, NumberKey(K), P, at);
  }

  /** The scan from the first character of an escaped value stops at the
      quote that follows it. */
  lemma ScanQuoteOverEscaped(X: string, v: string, Y: string)
    requires |X| >= 1 && X[|X| - 1] != '\\' && '\\' !in v
    requires |Y| > 0 && Y[0] == '"'
    ensures ScanQuote(X + Escaped(v) + Y, |X|) == |X| + |Escaped(v)|
  {
    NoClosingInEscaped(X, v, Y);
    ClosingAfterEscaped(X, v, Y);
    ScanQuoteAt(X + Escaped(v) + Y, |X|, |X| + |Escaped(v)|);
  }

  lemma MiddleSlice(X: string, E: string, Y: string)
    ensures (X + E + Y)[|X|..|X| + |E|] == E
  {
  }

  lemma NoClosingInEscaped(X: string, v: string, Y: string)
    ensures forall k :: |X| <= k < |X| + |Escaped(v)| ==> !ClosingQuoteAt(X + Escaped(v) + Y, k)
  {
    var E := Escaped(v);
    var s := X + E + Y;
    QuotesAreEscaped(v);
    forall k | |X| <= k < |X| + |E| ensures !ClosingQuoteAt(s, k) {
      assert s[k] == E[k - |X|];
      if E[k - |X|] == '"' {
        assert s[k - 1] == E[k - 1 - |X|];
      }
    }
  }

  lemma ClosingAfterEscaped(X: string, v: string, Y: string)
    requires |X| >= 1 && X[|X| - 1] != '\\' && '\\' !in v
    requires |Y| > 0 && Y[0] == '"'
    ensures ClosingQuoteAt(X + Escaped(v) + Y, |X| + |Escaped(v)|)
  {
    var E := Escaped(v);
    var s := X + E + Y;
    var c := |X| + |E|;
    EscapedLastChar(v);
    assert s[c] == '"';
    if |E| > 0 {
      assert s[c - 1] == E[|E| - 1];
    } else {
      assert s[c - 1] == X[|X| - 1];
    }
  }

  /** A text member found at `|A|` decodes to its value. */
  lemma TextValueAt(A: string, K: string, v: string, B: string)
    requires '\\' !in v
    requires IndexOf(A + FieldText(Text(K, v)) + B, StringKey(K), 0) == Some(|A|)
    ensures StringField(A + FieldText(Text(K, v)) + B, K) == v
  {
    var J := A + FieldText(Text(K, v)) + B;
    var X := A + StringKey(K);
    var Y := "\"," + B;
    assert J == X + Escaped(v) + Y;
    assert X[|X| - 1] == '"';
    ValueBetween(J, K, |A|, X, v, Y);
  }

  /** The value of the text member whose key is found at `at` is the escaped
      text between `X`, which ends with the key pattern, and the quote that
      begins `Y`. */
  lemma ValueBetween(J: string, K: string, at: nat, X: string, v: string, Y: string)
    requires IndexOf(J, StringKey(K), 0) == Some(at) && |X| == at + |StringKey(K)|
    requires J == X + Escaped(v) + Y && X[|X| - 1] == '"' && '\\' !in v && |Y| > 0 && Y[0] == '"'
    ensures StringField(J, K) == v
  {
    var e := |X| + |Escaped(v)|;
    assert ScanQuote(J, |X|) == e by {
      ScanQuoteOverEscaped(X, v, Y);
    }
    assert J[|X|..e] == Escaped(v) by {
      MiddleSlice(X, Escaped(v), Y);
    }
    StringFieldAt(J, K, at);
    TextUnescapedOfEscaped(v);
  }

  /** What `extractString` returns once the key is found at `at`. */
  lemma StringFieldAt(J: string, K: string, at: nat)
    requires IndexOf(J, StringKey(K), 0) == Some(at)
    ensures StringField(J, K) == TextUnescaped(J[at + |StringKey(K)|..ScanQuote(J, at + |StringKey(K)|)])
  {
  }

  /** The interval member found at `|A|` decodes to its value. */
  lemma NumberValueAt(A: string, K: string, n: nat, B: string)
    requires IndexOf(A + FieldText(Number(K, n)) + B, NumberKey(K), 0) == Some(|A|)
    ensures NumberField(A + FieldText(Number(K, n)) + B, K) == if n > LONG_MAX then LONG_MAX else n
  {
    var J := A + FieldText(Number(K, n)) + B;
    var X := A + NumberKey(K);
    var D := Decimal(n);
    var Y := "," + B;
    assert J == X + D + Y;
    NumberBetween(J, K, |A|, X, D, Y);
    ToLongOfDecimal(n);
  }

  /** The interval whose key is found at `at` reads the digits between `X`,
      which ends with the key pattern, and the comma that begins `Y`. */
  lemma NumberBetween(J: string, K: string, at: nat, X: string, D: string, Y: string)
    requires IndexOf(J, NumberKey(K), 0) == Some(at) && |X| == at + |NumberKey(K)|
    requires J == X + D + Y && AllDigits(D) && |Y| > 0 && Y[0] == ','
    ensures NumberField(J, K) == ToLong(D)
  {
    ScanOverDigits(X, D, Y);
    MiddleSlice(X, D, Y);
  }

  /** The scan over the digits of the interval stops at the comma after them. */
  lemma ScanOverDigits(X: string, D: string, Y: string)
    requires AllDigits(D) && |Y| > 0 && Y[0] == ','
    ensures ScanNumber(X + D + Y, |X|) == |X| + |D|
  {
    var J := X + D + Y;
    var c := |X| + |D|;
    assert forall k :: |X| <= k < c ==> J[k] == D[k - |X|];
    assert J[c] == ',';
    ScanNumberAt(J, |X|, c);
  }

  /** The scan over digits stops at the first character that is neither a
      digit nor a minus sign. */
  lemma ScanNumberAt(s: string, from: nat, k: nat)
    requires from <= k < |s| && !NumberChar(s[k])
    requires forall j :: from <= j < k ==> NumberChar(s[j])
    ensures ScanNumber(s, from) == k
  {
    var e := ScanNumber(s, from);
    assert e < |s| ==> !NumberChar(s[e]);
  }

  /** Decoding the text member at index `i` of the members written. */
  lemma TextMemberDecodes(fs: seq<Scalar>, i: nat, Z: string)
    requires i < |fs| && fs[i].Text? && '\\' !in fs[i].text
    requires KeyLike(fs[i].key) && OtherKeys(fs[..i], fs[i].key)
    ensures StringField("{" + FieldsText(fs) + Z, fs[i].key) == fs[i].text
  {
    var K := fs[i].key;
    var A := "{" + FieldsText(fs[..i]);
    var M := FieldText(fs[i]);
    var B := FieldsText(fs[i + 1..]) + Z;
    SplitAt(fs, i, Z);
    PrefixOfAppend(StringKey(K), M, B);
    assert NumberKey(K) <= StringKey(K);
    FindPattern(fs[..i], K, StringKey(K), M + B);
    Assoc(A, M, B);
    TextValueAt(A, K, fs[i].text, B);
  }

  /** Decoding the interval member at index `i` of the members written. */
  lemma NumberMemberDecodes(fs: seq<Scalar>, i: nat, Z: string)
    requires i < |fs| && fs[i].Number?
    requires KeyLike(fs[i].key) && OtherKeys(fs[..i], fs[i].key)
    ensures NumberField("{" + FieldsText(fs) + Z, fs[i].key)
         == if fs[i].number > LONG_MAX then LONG_MAX else fs[i].number
  {
    var K := fs[i].key;
    var A := "{" + FieldsText(fs[..i]);
    var M := FieldText(fs[i]);
    var B := FieldsText(fs[i + 1..]) + Z;
    SplitAt(fs, i, Z);
    PrefixOfAppend(NumberKey(K), M, B);
    FindKey(fs[..i], K, M + B);
    Assoc(A, M, B);
    NumberValueAt(A, K, fs[i].number, B);
  }

  lemma PrefixOfAppend(p: string, a: string, b: string)
    requires p <= a
    ensures p <= a + b
  {
    assert (a + b)[..|p|] == a[..|p|];
  }

  /** The text of the members, split around member `i`. */
  lemma SplitAt(fs: seq<Scalar>, i: nat, Z: string)
    requires i < |fs|
    ensures "{" + FieldsText(fs) + Z
         == "{" + FieldsText(fs[..i]) + (FieldText(fs[i]) + (FieldsText(fs[i + 1..]) + Z))
    ensures NumberKey(fs[i].key) <= FieldText(fs[i])
    ensures fs[i].Text? ==> StringKey(fs[i].key) <= FieldText(fs[i])
  {
    var L := FieldsText(fs[..i]);
    var M := FieldText(fs[i]);
    var R := FieldsText(fs[i + 1..]);
    MembersAround(fs, i);
    Assoc("{", L, M + R);
    Assoc("{" + L, M + R, Z);
    Assoc(M, R, Z);
    Assoc("{" + L, M, R + Z);
    KeyPatternsLead(fs[i]);
  }

  lemma MembersAround(fs: seq<Scalar>, i: nat)
    requires i < |fs|
    ensures FieldsText(fs) == FieldsText(fs[..i]) + (FieldText(fs[i]) + FieldsText(fs[i + 1..]))
  {
    assert fs == fs[..i] + fs[i..];
    FieldsTextAppend(fs[..i], fs[i..]);
    assert fs[i..][0] == fs[i] && fs[i..][1..] == fs[i + 1..];
  }

  /** A member's text begins with the patterns the scanners search for. */
  lemma KeyPatternsLead(f: Scalar)
    ensures NumberKey(f.key) <= FieldText(f)
    ensures f.Text? ==> StringKey(f.key) <= FieldText(f)
  {
    match f
    case Text(k, v) =>
      TextFieldHead(k, v, "");
      assert FieldText(f) == NumberKey(k) + ("\"" + Escaped(v) + "\",");
      PrefixOfAppend(NumberKey(k), NumberKey(k), "\"" + Escaped(v) + "\",");
      assert FieldText(f) == StringKey(k) + (Escaped(v) + "\",");
      PrefixOfAppend(StringKey(k), StringKey(k), Escaped(v) + "\",");
    case Number(k, n) =>
      assert FieldText(f) == NumberKey(k) + (Decimal(n) + ",");
      PrefixOfAppend(NumberKey(k), NumberKey(k), Decimal(n) + ",");
  }

  // ---------------------------------------------------------------------
  // The endpoint array
  // ---------------------------------------------------------------------

  /** An endpoint of this form is read back unchanged.  This is a sufficient
      condition, not a necessary one: some other endpoints read back
      unchanged too. */
  predicate PlainEndpoint(e: string) {
    |e| > 0 && '\\' !in e && '\n' !in e && '\r' !in e && '\t' !in e && ']' !in e
  }

  predicate PlainEndpoints(eps: seq<string>) {
    forall i :: 0 <= i < |eps| ==> PlainEndpoint(eps[i])
  }

  /** The first `MAX_ENDPOINTS` entries of a list. */
  function Capped(l: seq<string>): (r: seq<string>)
    ensures |r| <= MAX_ENDPOINTS && r <= l
    ensures |l| <= MAX_ENDPOINTS ==> r == l
    ensures |r| == if |l| <= MAX_ENDPOINTS then |l| else MAX_ENDPOINTS
  {
    if |l| <= MAX_ENDPOINTS then l else l[..MAX_ENDPOINTS]
  }

  /** The scanner reads one quoted entry starting at `qs` and keeps it when
      there is room. */
  lemma EntryAt(a: string, qs: nat, e: string, acc: seq<string>)
    requires PlainEndpoint(e) && qs + |Quoted(e)| <= |a| && a[qs..qs + |Quoted(e)|] == Quoted(e)
    ensures ScanEndpoints(a, qs, acc)
         == ScanEndpoints(a, qs + |Quoted(e)|, if |acc| < MAX_ENDPOINTS then acc + [e] else acc)
  {
    EntryFactsAt(a, qs, e);
    EntryToClose(a, qs + 1, Escaped(e), e, acc);
  }

  /** What the scan of one written entry at `qs` finds: its raw text ends at
      the closing quote and unescapes to the entry. */
  lemma EntryFactsAt(a: string, qs: nat, e: string)
    requires PlainEndpoint(e) && qs + |Quoted(e)| <= |a| && a[qs..qs + |Quoted(e)|] == Quoted(e)
    ensures |Quoted(e)| == |Escaped(e)| + 2 && a[qs] == '"'
    ensures ScanQuote(a, qs + 1) == qs + 1 + |Escaped(e)|
    ensures a[qs + 1..qs + 1 + |Escaped(e)|] == Escaped(e)
    ensures Escaped(e) != [] && EndpointUnescaped(Escaped(e)) == e
  {
    var E := Escaped(e);
    var Q := Quoted(e);
    assert Q == "\"" + E + "\"";
    QuotedSlices(a, qs, E);
    Around(a, qs + 1, E);
    var X1 := a[..qs + 1];
    var Y := a[qs + 1 + |E|..];
    EntryFacts(X1, e, Y);
  }

  /** The slices of a quoted text found in `a` at `qs`. */
  lemma QuotedSlices(a: string, qs: nat, E: string)
    requires qs + |E| + 2 <= |a| && a[qs..qs + |E| + 2] == "\"" + E + "\""
    ensures a[qs] == '"' && a[qs + 1 + |E|] == '"' && a[qs + 1..qs + 1 + |E|] == E
  {
    var w := a[qs..qs + |E| + 2];
    assert w[0] == a[qs];
    assert w[|E| + 1] == a[qs + 1 + |E|];
    assert w[1..|E| + 1] == E;
    forall t | 0 <= t < |E| ensures a[qs + 1..qs + 1 + |E|][t] == E[t] {
      assert a[qs + 1..qs + 1 + |E|][t] == a[qs + 1 + t] == w[1 + t] == w[1..|E| + 1][t];
    }
  }

  /** A text is what comes before a slice, the slice, and what follows. */
  lemma Around(a: string, i: nat, E: string)
    requires i + |E| <= |a| && a[i..i + |E|] == E
    ensures a == a[..i] + E + a[i + |E|..]
  {
    assert a == a[..i] + a[i..];
    assert a[i..] == a[i..i + |E|] + a[i + |E|..];
  }

  /** The scanner between entries, at an opening quote. */
  lemma OpenQuote(a: string, pos: nat, acc: seq<string>)
    requires pos < |a| && a[pos] == '"'
    ensures ScanEndpoints(a, pos, acc) == ScanEntry(a, pos, pos + 1, acc)
  {
  }

  /** An entry whose raw text `E` runs from `o` to the closing quote and
      unescapes to `e`. */
  lemma EntryToClose(a: string, o: nat, E: string, e: string, acc: seq<string>)
    requires 1 <= o && o + |E| < |a| && a[o - 1] == '"' && ScanQuote(a, o) == o + |E|
    requires E != [] && a[o..o + |E|] == E && EndpointUnescaped(E) == e && |e| > 0
    ensures ScanEndpoints(a, o - 1, acc)
         == ScanEndpoints(a, o + |E| + 1, if |acc| < MAX_ENDPOINTS then acc + [e] else acc)
  {
    OpenQuote(a, o - 1, acc);
    SkipEntry(a, o - 1, o, acc);
  }

  /** What the scan of one written entry finds, stated on the parts around it. */
  lemma EntryFacts(X1: string, e: string, Y: string)
    requires |X1| > 0 && X1[|X1| - 1] == '"' && |Y| > 0 && Y[0] == '"'
    requires PlainEndpoint(e)
    ensures ScanQuote(X1 + Escaped(e) + Y, |X1|) == |X1| + |Escaped(e)|
    ensures Escaped(e) != [] && EndpointUnescaped(Escaped(e)) == e
  {
    assert Escaped(e) == EscapeChar(e[0]) + Escaped(e[1..]);
    ScanQuoteOverEscaped(X1, e, Y);
    EndpointUnescapedOfEscaped(e);
  }

  lemma PlainTail(eps: seq<string>)
    requires eps != [] && PlainEndpoints(eps)
    ensures PlainEndpoint(eps[0]) && PlainEndpoints(eps[1..])
  {
    forall i | 0 <= i < |eps[1..]| ensures PlainEndpoint(eps[1..][i]) {
      assert eps[1..][i] == eps[i + 1];
    }
  }

  /** The entries after the first: a comma, then a quoted entry, each time,
      up to the end of the array text. */
  lemma {:induction false} ScanMore(a: string, p: nat, es: seq<string>, acc: seq<string>)
    requires p <= |a| && a[p..] == MoreEndpoints(es)
    requires |acc| <= MAX_ENDPOINTS && PlainEndpoints(es)
    decreases |es|
    ensures ScanEndpoints(a, p, acc) == Capped(acc + es)
  {
    if es == [] {
      assert acc + es == acc;
    } else {
      var e := es[0];
      var next := if |acc| < MAX_ENDPOINTS then acc + [e] else acc;
      var q := p + 1 + |Quoted(e)|;
      PlainTail(es);
      assert q <= |a| && ScanEndpoints(a, p, acc) == ScanEndpoints(a, q, next)
             && a[q..] == MoreEndpoints(es[1..]) by {
        MoreParts(a, p, es);
        MoreStep(a, p, e, acc);
      }
      ScanMore(a, q, es[1..], next);
      assert Capped(next + es[1..]) == Capped(acc + es) by {
        CappedStep(acc, e, es[1..]);
        assert es == [e] + es[1..];
      }
    }
  }

  /** One step of `ScanMore`: the comma, then the entry. */
  lemma MoreStep(a: string, p: nat, e: string, acc: seq<string>)
    requires p < |a| && a[p] == ',' && PlainEndpoint(e)
    requires p + 1 + |Quoted(e)| <= |a| && a[p + 1..p + 1 + |Quoted(e)|] == Quoted(e)
    ensures ScanEndpoints(a, p, acc)
         == ScanEndpoints(a, p + 1 + |Quoted(e)|, if |acc| < MAX_ENDPOINTS then acc + [e] else acc)
  {
    CommaStep(a, p, acc);
    EntryAt(a, p + 1, e, acc);
  }

  /** The scanner steps over a comma between entries. */
  lemma CommaStep(a: string, p: nat, acc: seq<string>)
    requires p < |a| && a[p] == ','
    ensures ScanEndpoints(a, p, acc) == ScanEndpoints(a, p + 1, acc)
  {
  }

  /** The slices of the text of the entries after the first. */
  lemma MoreParts(a: string, p: nat, es: seq<string>)
    requires p <= |a| && a[p..] == MoreEndpoints(es) && es != []
    ensures p + 1 + |Quoted(es[0])| <= |a| && a[p] == ','
    ensures a[p + 1..p + 1 + |Quoted(es[0])|] == Quoted(es[0])
    ensures a[p + 1 + |Quoted(es[0])|..] == MoreEndpoints(es[1..])
  {
    var Rest := MoreEndpoints(es[1..]);
    assert a[p..] == "," + (Quoted(es[0]) + Rest);
    assert a[p] == a[p..][0];
    SliceParts(a, p + 1, Quoted(es[0]), Rest);
  }

  /** A suffix made of two parts gives the two slices. */
  lemma SliceParts(a: string, p: nat, U: string, V: string)
    requires 1 <= p <= |a| && a[p - 1..] == [a[p - 1]] + (U + V)
    ensures p + |U| <= |a| && a[p..p + |U|] == U && a[p + |U|..] == V
  {
    assert a[p..] == a[p - 1..][1..];
    assert a[p..] == U + V;
    assert a[p..p + |U|] == a[p..][..|U|];
    assert a[p + |U|..] == a[p..][|U|..];
  }

  lemma CappedStep(acc: seq<string>, e: string, es: seq<string>)
    requires |acc| <= MAX_ENDPOINTS
    ensures Capped((if |acc| < MAX_ENDPOINTS then acc + [e] else acc) + es) == Capped(acc + ([e] + es))
  {
    if |acc| < MAX_ENDPOINTS {
      assert acc + [e] + es == acc + ([e] + es);
    } else {
      assert (acc + es)[..MAX_ENDPOINTS] == acc;
      assert (acc + ([e] + es))[..MAX_ENDPOINTS] == acc;
    }
  }

  /** The whole array text decodes to the endpoint list, capped at five. */
  lemma ScanWholeArray(eps: seq<string>)
    requires eps != [] && PlainEndpoints(eps)
    ensures ScanEndpoints(EndpointArray(eps), 0, []) == Capped(eps)
  {
    var a := EndpointArray(eps);
    var Q := Quoted(eps[0]);
    var Rest := MoreEndpoints(eps[1..]);
    PlainTail(eps);
    assert a == Q + Rest;
    assert a[0..|Q|] == Q;
    assert a[|Q|..] == Rest;
    EntryAt(a, 0, eps[0], []);
    var none: seq<string> := [];
    assert (if |none| < MAX_ENDPOINTS then none + [eps[0]] else none) == [eps[0]];
    ScanMore(a, |Q|, eps[1..], [eps[0]]);
    assert [eps[0]] + eps[1..] == eps;
  }

  /** No closing bracket inside the written array. */
  lemma {:induction false} NoBracketInMore(eps: seq<string>)
    requires PlainEndpoints(eps)
    ensures ']' !in MoreEndpoints(eps)
  {
    if eps != [] {
      PlainTail(eps);
      EscapedKeeps(eps[0], ']');
      NoBracketInMore(eps[1..]);
    }
  }

  lemma NoBracketInArray(eps: seq<string>)
    requires PlainEndpoints(eps)
    ensures ']' !in EndpointArray(eps)
  {
    if eps != [] {
      PlainTail(eps);
      EscapedKeeps(eps[0], ']');
      NoBracketInMore(eps[1..]);
    }
  }

  /** The region between `"endpoints":[` and the next `]`, in any text where
      the key first occurs at `p - 13` and the array text `EA` follows it. */
  lemma RegionAt(J: string, p: nat, EA: string)
    requires 13 <= p && MatchAt(J, ENDPOINTS_KEY, p - 13)
    requires forall i :: 0 <= i < p - 13 ==> !MatchAt(J, ENDPOINTS_KEY, i)
    requires p + |EA| < |J| && J[p..p + |EA|] == EA && J[p + |EA|] == ']' && ']' !in EA
    ensures EA == [] ==> EndpointsRegion(J).None?
    ensures EA != [] ==> EndpointsRegion(J) == Some((p, (p + |EA|) as nat))
  {
    IndexOfFirst(J, ENDPOINTS_KEY, 0, p - 13);
    BracketAt(J, p, EA);
  }

  /** The first `]` from `p` on is the one right after `EA`. */
  lemma BracketAt(J: string, p: nat, EA: string)
    requires p + |EA| < |J| && J[p..p + |EA|] == EA && J[p + |EA|] == ']' && ']' !in EA
    ensures IndexOf(J, "]", p) == Some(p + |EA|)
  {
    forall i | p <= i < p + |EA| ensures !MatchAt(J, "]", i) {
      assert J[i] == J[p..p + |EA|][i - p];
      assert J[i..i + 1][0] == J[i];
    }
    assert J[p + |EA|..p + |EA| + 1] == "]";
    IndexOfFirst(J, "]", p, p + |EA|);
  }

  /** The array in the document `toJson` writes decodes to the endpoint list,
      capped at five. */
  lemma EndpointsDecode(fs: seq<Scalar>, eps: seq<string>)
    requires OtherKeys(fs, "endpoints") && PlainEndpoints(eps)
    ensures EndpointList("{" + FieldsText(fs) + ENDPOINTS_KEY + EndpointArray(eps) + "]}") == Capped(eps)
  {
    var A := "{" + FieldsText(fs);
    var EA := EndpointArray(eps);
    ArrayKeyFirst(fs, EA);
    NoBracketInArray(eps);
    ArrayAfterKey(A, EA);
    if eps != [] {
      ScanWholeArray(eps);
    }
  }

  /** `"endpoints":[` first occurs right after the scalar members. */
  lemma ArrayKeyFirst(fs: seq<Scalar>, EA: string)
    requires OtherKeys(fs, "endpoints")
    ensures IndexOf("{" + FieldsText(fs) + ENDPOINTS_KEY + EA + "]}", ENDPOINTS_KEY, 0)
         == Some(1 + |FieldsText(fs)|)
  {
    var body := ENDPOINTS_KEY + (EA + "]}");
    assert KeyLike("endpoints");
    assert ENDPOINTS_KEY == NumberKey("endpoints") + "[";
    PrefixOfAppend(NumberKey("endpoints"), NumberKey("endpoints"), "[");
    PrefixOfAppend(ENDPOINTS_KEY, ENDPOINTS_KEY, EA + "]}");
    Assoc("{" + FieldsText(fs) + ENDPOINTS_KEY, EA, "]}");
    Assoc("{" + FieldsText(fs), ENDPOINTS_KEY, EA + "]}");
    FindPattern(fs, "endpoints", ENDPOINTS_KEY, body);
  }

  /** Once the key is found at `|A|`, the region is the array text. */
  lemma ArrayAfterKey(A: string, EA: string)
    requires IndexOf(A + ENDPOINTS_KEY + EA + "]}", ENDPOINTS_KEY, 0) == Some(|A|)
    requires ']' !in EA
    ensures EA == [] ==> EndpointList(A + ENDPOINTS_KEY + EA + "]}") == []
    ensures EA != [] ==> EndpointList(A + ENDPOINTS_KEY + EA + "]}") == ScanEndpoints(EA, 0, [])
  {
    var J := A + ENDPOINTS_KEY + EA + "]}";
    var p := |A| + 13;
    MiddleSlice(A + ENDPOINTS_KEY, EA, "]}");
    assert J[p + |EA|] == ']';
    RegionAt(J, p, EA);
  }
}
