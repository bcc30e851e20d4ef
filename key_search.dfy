/**
 * Why the substring search of `fromJson` finds the member it looks for in
 * the text `toJson` writes: the pattern `"key":` cannot start inside any
 * member written before it, whatever that member's value.
 */
module KeySearch {
  import opened ArduinoText
  import opened Codec
  import opened EscapeFacts

  /** The keys of the format: non-empty, without quotes or commas, and not
      ending in a colon or a backslash. */
  predicate KeyLike(k: string) {
    |k| > 0 && '"' !in k && ',' !in k && k[|k| - 1] != ':' && k[|k| - 1] != '\\'
  }

  /** What an occurrence of `"key":` at `i`, with `n` the length of the key,
      says about the characters of `T`. */
  predicate KeyWindow(T: string, i: nat, n: nat) {
    1 <= n && i + n + 2 < |T| && T[i] == '"' && T[i + n + 1] == '"' && T[i + n + 2] == ':'
    && T[i + n] != ':' && T[i + n] != '\\'
    && forall j :: i < j <= i + n ==> T[j] != '"' && T[j] != ','
  }

  lemma MatchWindow(T: string, K: string, i: nat)
    requires KeyLike(K)
    ensures MatchAt(T, NumberKey(K), i) ==> KeyWindow(T, i, |K|) && T[i + 1..i + 1 + |K|] == K
  {
    if MatchAt(T, NumberKey(K), i) {
      var n := |K|;
      var P := NumberKey(K);
      MatchChars(T, P, i);
      assert forall t :: 0 <= t < n ==> P[1 + t] == K[t];
      assert P[0] == '"' && P[n + 1] == '"' && P[n + 2] == ':';
      assert T[i + n] == K[n - 1];
      forall j | i < j <= i + n ensures T[j] != '"' && T[j] != ',' {
        assert T[j] == K[j - i - 1];
      }
      assert T[i + 1..i + 1 + n] == K by {
        forall t | 0 <= t < n ensures T[i + 1..i + 1 + n][t] == K[t] {
          assert T[i + 1 + t] == P[1 + t];
        }
      }
    }
  }

  /** A window at the opening quote of a member `"K'":` covers exactly `K'`. */
  lemma WindowAtHead(K': string, U: string, n: nat)
    requires KeyLike(K')
    ensures KeyWindow(NumberKey(K') + U, 0, n) ==> n == |K'| && (NumberKey(K') + U)[1..n + 1] == K'
  {
    var T := NumberKey(K') + U;
    var m := |K'|;
    assert T[m + 1] == '"';
    assert forall j :: 1 <= j <= m ==> T[j] == K'[j - 1];
    assert n < m ==> T[n + 1] != '"';
    assert T[1..m + 1] == K';
  }

  /** No window starts inside a text member after its opening quote. */
  lemma NoWindowInText(K': string, v: string, rest: string, i: nat, n: nat)
    requires KeyLike(K')
    requires 1 <= i < |FieldText(Text(K', v))|
    ensures !KeyWindow(FieldText(Text(K', v)) + rest, i, n)
  {
    var E := Escaped(v);
    var m := |K'|;
    var P := "\"" + K' + "\":\"";
    var T := FieldText(Text(K', v)) + rest;
    assert T == P + E + ("\"," + rest);
    var c := |P| + |E|;
    assert |P| == m + 4;
    assert T[c] == '"' && T[c + 1] == ',';
    if i <= m {
      assert T[i] == K'[i - 1];
    } else if i == m + 1 {
      assert T[m + 2] == ':' && T[m + 3] == '"';
    } else if i == m + 2 {
      assert T[i] == ':';
    } else if i < c {
      var q := i + n + 1;
      if q < c && T[q] == '"' {
        QuotesAreEscaped(v);
        assert T[q] == E[q - |P|];
        assert T[q - 1] == E[q - 1 - |P|];
      }
    } else {
      assert i == c || i == c + 1;
    }
  }

  /** No window starts inside the interval member after its opening quote. */
  lemma NoWindowInNumber(K': string, d: nat, rest: string, i: nat, n: nat)
    requires KeyLike(K')
    requires 1 <= i < |FieldText(Number(K', d))|
    ensures !KeyWindow(FieldText(Number(K', d)) + rest, i, n)
  {
    var D := Decimal(d);
    var m := |K'|;
    var P := NumberKey(K');
    var T := FieldText(Number(K', d)) + rest;
    assert T == P + D + ("," + rest);
    var c := |P| + |D|;
    assert |P| == m + 3;
    assert T[c] == ',';
    assert forall j :: |P| <= j < c ==> T[j] == D[j - |P|];
    if i <= m {
      assert T[i] == K'[i - 1];
    } else if i == m + 1 {
      var q := i + n + 1;
      if q <= c {
        assert T[q] != '"';
      }
    } else if i == m + 2 {
      assert T[i] == ':';
    } else if i < c {
      assert IsDigit(T[i]);
    } else {
      assert T[i] == ',';
    }
  }

  lemma TextFieldHead(k: string, v: string, rest: string)
    ensures FieldText(Text(k, v)) + rest == NumberKey(k) + ("\"" + Escaped(v) + "\"," + rest)
  {
    assert "\":\"" == "\":" + "\"";
  }

  /** The pattern `"K":` does not occur inside a text member with another key. */
  lemma NoKeyInText(k: string, v: string, K: string, rest: string, i: nat)
    requires KeyLike(K) && KeyLike(k) && k != K
    requires i < |FieldText(Text(k, v))|
    ensures !MatchAt(FieldText(Text(k, v)) + rest, NumberKey(K), i)
  {
    var T := FieldText(Text(k, v)) + rest;
    MatchWindow(T, K, i);
    if i == 0 {
      var U := "\"" + Escaped(v) + "\"," + rest;
      TextFieldHead(k, v, rest);
      WindowAtHead(k, U, |K|);
    } else {
      NoWindowInText(k, v, rest, i, |K|);
    }
  }

  lemma NumberFieldHead(k: string, d: nat, rest: string)
    ensures FieldText(Number(k, d)) + rest == NumberKey(k) + (Decimal(d) + "," + rest)
  {
  }

  /** The pattern `"K":` does not occur inside the interval member when its key differs. */
  lemma NoKeyInNumber(k: string, d: nat, K: string, rest: string, i: nat)
    requires KeyLike(K) && KeyLike(k) && k != K
    requires i < |FieldText(Number(k, d))|
    ensures !MatchAt(FieldText(Number(k, d)) + rest, NumberKey(K), i)
  {
    var T := FieldText(Number(k, d)) + rest;
    MatchWindow(T, K, i);
    if i == 0 {
      var U := Decimal(d) + "," + rest;
      NumberFieldHead(k, d, rest);
      WindowAtHead(k, U, |K|);
    } else {
      NoWindowInNumber(k, d, rest, i, |K|);
    }
  }

  /** The pattern `"K":` does not occur inside a member with another key. */
  lemma NoKeyInField(f: Scalar, K: string, rest: string, i: nat)
    requires KeyLike(K) && KeyLike(f.key) && f.key != K
    requires i < |FieldText(f)|
    ensures !MatchAt(FieldText(f) + rest, NumberKey(K), i)
  {
    match f
    case Text(k, v) => NoKeyInText(k, v, K, rest, i);
    case Number(k, d) => NoKeyInNumber(k, d, K, rest, i);
  }
}
