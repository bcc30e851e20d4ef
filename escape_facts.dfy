/**
 * What the escaping of `escapeJson` guarantees about the text it produces,
 * and how the `String::replace` passes of `fromJson` undo it.
 */
module EscapeFacts {
  import opened ArduinoText
  import opened Codec

  /** Every quote in an escaped text directly follows a backslash. */
  lemma {:induction false} QuotesAreEscaped(v: string)
    ensures forall j :: 0 <= j < |Escaped(v)| && Escaped(v)[j] == '"' ==> 0 < j && Escaped(v)[j - 1] == '\\'
  {
    if v != [] {
      QuotesAreEscaped(v[1..]);
      var h := EscapeChar(v[0]);
      var t := Escaped(v[1..]);
      assert Escaped(v) == h + t;
      forall j | 0 <= j < |h + t| && (h + t)[j] == '"' ensures 0 < j && (h + t)[j - 1] == '\\' {
        if j >= |h| {
          assert (h + t)[j] == t[j - |h|];
          if j - |h| == 0 {
            assert false;
          }
          assert (h + t)[j - 1] == t[j - 1 - |h|];
        }
      }
    }
  }

  /** Escaping text without a backslash never ends in a backslash. */
  lemma {:induction false} EscapedLastChar(v: string)
    requires '\\' !in v
    ensures |Escaped(v)| == 0 || Escaped(v)[|Escaped(v)| - 1] != '\\'
  {
    if v != [] {
      assert v[0] != '\\';
      assert forall c :: c in v[1..] ==> c in v;
      EscapedLastChar(v[1..]);
      var h := EscapeChar(v[0]);
      var t := Escaped(v[1..]);
      assert Escaped(v) == h + t;
      if |t| == 0 {
        assert (h + t)[|h + t| - 1] == h[|h| - 1];
      } else {
        assert (h + t)[|h + t| - 1] == t[|t| - 1];
      }
    }
  }

  /** A character that is neither escaped nor an escape letter appears in the
      escaped text only where it appears in the original. */
  lemma {:induction false} EscapedKeeps(v: string, c: char)
    requires c !in v && !Escapable(c) && c !in "nrt"
    ensures c !in Escaped(v)
  {
    if v != [] {
      assert c != v[0];
      assert forall x :: x in v[1..] ==> x in v;
      EscapedKeeps(v[1..], c);
      assert Escaped(v) == EscapeChar(v[0]) + Escaped(v[1..]);
    }
  }

  /** One character, escaped when it is in `S` and `escapeJson` escapes it. */
  function Piece(x: char, S: set<char>): string {
    if x in S && Escapable(x) then ['\\', EscapeLetter(x)] else [x]
  }

  /** `s` with only the characters of `S` still escaped. */
  function PartlyEscaped(s: string, S: set<char>): string {
    if s == [] then [] else Piece(s[0], S) + PartlyEscaped(s[1..], S)
  }

  const ALL_ESCAPED: set<char> := {'\\', '"', '\n', '\r', '\t'}

  lemma {:induction false} EscapedIsPartly(s: string)
    ensures Escaped(s) == PartlyEscaped(s, ALL_ESCAPED)
  {
    if s != [] {
      EscapedIsPartly(s[1..]);
    }
  }

  lemma {:induction false} PartlyEscapedNone(s: string, S: set<char>)
    requires forall i :: 0 <= i < |s| ==> s[i] !in S
    ensures PartlyEscaped(s, S) == s
  {
    if s != [] {
      PartlyEscapedNone(s[1..], S);
      assert [s[0]] + s[1..] == s;
    }
  }

  /** The pass `\L -> c` on one piece followed by already escaped text. */
  lemma PassPiece(x: char, rest: string, S: set<char>, c: char)
    requires x != '\\' && Escapable(c)
    ensures ReplaceAll(Piece(x, S) + rest, ['\\', EscapeLetter(c)], [c])
         == Piece(x, S - {c}) + ReplaceAll(rest, ['\\', EscapeLetter(c)], [c])
  {
    if x in S && Escapable(x) {
      if x == c {
        ReplaceHit(rest, ['\\', EscapeLetter(c)], [c]);
      } else {
        PassOtherEscape(EscapeLetter(x), rest, c);
      }
    } else {
      ReplaceSkip(x, rest, ['\\', EscapeLetter(c)], [c]);
    }
  }

  /** The pass `\L -> c` copies the escape of another character. */
  lemma PassOtherEscape(L: char, rest: string, c: char)
    requires Escapable(c) && L != EscapeLetter(c) && L != '\\'
    ensures ReplaceAll(['\\', L] + rest, ['\\', EscapeLetter(c)], [c])
         == ['\\', L] + ReplaceAll(rest, ['\\', EscapeLetter(c)], [c])
  {
    var find := ['\\', EscapeLetter(c)];
    var t := ['\\', L] + rest;
    assert t == [find[0]] + ([L] + rest);
    ReplaceSkip(L, rest, find, [c]);
    assert !(find <= t) by {
      assert t[1] == L;
    }
    assert t[1..] == [L] + rest;
  }

  /** One replace pass `\L -> c` turns the escape of `c` back into `c` and
      leaves every other character as it was, provided the original text has
      no backslash. */
  lemma {:induction false} UnescapePass(s: string, S: set<char>, c: char)
    requires '\\' !in s && Escapable(c)
    ensures ReplaceAll(PartlyEscaped(s, S), ['\\', EscapeLetter(c)], [c]) == PartlyEscaped(s, S - {c})
  {
    if s != [] {
      assert s[0] != '\\';
      assert forall x :: x in s[1..] ==> x in s;
      UnescapePass(s[1..], S, c);
      PassPiece(s[0], PartlyEscaped(s[1..], S), S, c);
    }
  }

  /** The five passes of `extractString` undo `escapeJson` on text without a
      backslash. */
  lemma TextUnescapedOfEscaped(v: string)
    requires '\\' !in v
    ensures TextUnescaped(Escaped(v)) == v
  {
    EscapedIsPartly(v);
    UnescapePass(v, ALL_ESCAPED, '"');
    assert ALL_ESCAPED - {'"'} == {'\\', '\n', '\r', '\t'};
    UnescapePass(v, {'\\', '\n', '\r', '\t'}, '\\');
    assert {'\\', '\n', '\r', '\t'} - {'\\'} == {'\n', '\r', '\t'};
    UnescapePass(v, {'\n', '\r', '\t'}, '\n');
    assert {'\n', '\r', '\t'} - {'\n'} == {'\r', '\t'};
    UnescapePass(v, {'\r', '\t'}, '\r');
    assert {'\r', '\t'} - {'\r'} == {'\t'};
    UnescapePass(v, {'\t'}, '\t');
    assert {'\t'} - {'\t'} == {};
    PartlyEscapedNone(v, {});
  }

  /** The two passes of the endpoint scanner undo `escapeJson` on text with no
      backslash, newline, carriage return or tab. */
  lemma EndpointUnescapedOfEscaped(e: string)
    requires '\\' !in e && '\n' !in e && '\r' !in e && '\t' !in e
    ensures EndpointUnescaped(Escaped(e)) == e
  {
    EscapedIsPartly(e);
    UnescapePass(e, ALL_ESCAPED, '"');
    assert ALL_ESCAPED - {'"'} == {'\\', '\n', '\r', '\t'};
    UnescapePass(e, {'\\', '\n', '\r', '\t'}, '\\');
    assert {'\\', '\n', '\r', '\t'} - {'\\'} == {'\n', '\r', '\t'};
    PartlyEscapedNone(e, {'\n', '\r', '\t'});
  }
}
