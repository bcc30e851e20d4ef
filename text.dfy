/**
 * The pieces of the Arduino `String` class that the configuration codec
 * relies on: `indexOf`, `replace`, `toInt` (which is C's `atol`) and the
 * decimal conversion `String(unsigned long)`.  Text is `seq<char>`.
 */
module ArduinoText {

  datatype Option<T> = None | Some(value: T)

  /** `p` occurs in `s` starting at index `i`. */
  predicate MatchAt(s: string, p: string, i: nat) {
    i + |p| <= |s| && s[i..i + |p|] == p
  }

  /** `String::indexOf(p, from)`: the first index at or after `from` at which
      `p` occurs; `None` stands for the -1 the library returns. */
  function IndexOf(s: string, p: string, from: nat): (r: Option<nat>)
    decreases |s| - from
    ensures r.Some? ==> from <= r.value && MatchAt(s, p, r.value)
    ensures r.Some? ==> forall i :: from <= i < r.value ==> !MatchAt(s, p, i)
    ensures r.None? ==> forall i :: from <= i < |s| ==> !MatchAt(s, p, i)
  {
    if from >= |s| || from + |p| > |s| then None
    else if s[from..from + |p|] == p then Some(from)
    else IndexOf(s, p, from + 1)
  }

  /** `String::indexOf(c, from)`: the first index at or after `from` holding
      the character `c`; `None` stands for -1. */
  function IndexOfChar(s: string, c: char, from: nat): (r: Option<nat>)
    decreases |s| - from
    ensures r.Some? ==> from <= r.value < |s| && s[r.value] == c
    ensures r.Some? ==> forall i :: from <= i < r.value ==> s[i] != c
    ensures r.None? ==> forall i :: from <= i < |s| ==> s[i] != c
  {
    if from >= |s| then None
    else if s[from] == c then Some(from)
    else IndexOfChar(s, c, from + 1)
  }

  /** A non-empty pattern that occurs at `k`, and nowhere in `[from, k)`, is
      what `IndexOf` finds. */
  lemma IndexOfFirst(s: string, p: string, from: nat, k: nat)
    requires |p| > 0 && from <= k && MatchAt(s, p, k)
    requires forall i :: from <= i < k ==> !MatchAt(s, p, i)
    ensures IndexOf(s, p, from) == Some(k)
  {
  }

  /** A pattern that extends `q` and occurs where `q` first occurs is first
      found there too. */
  lemma IndexOfLonger(s: string, q: string, p: string, at: nat)
    requires |q| > 0 && q <= p && IndexOf(s, q, 0) == Some(at) && MatchAt(s, p, at)
    ensures IndexOf(s, p, 0) == Some(at)
  {
    forall i | 0 <= i < at ensures !MatchAt(s, p, i) {
      if MatchAt(s, p, i) {
        MatchPrefix(s, p, q, i);
      }
    }
    IndexOfFirst(s, p, 0, at);
  }

  /** Matches inside the second part of a concatenation are matches of that part. */
  lemma MatchShift(a: string, b: string, p: string, j: nat)
    ensures MatchAt(a + b, p, |a| + j) <==> MatchAt(b, p, j)
  {
    if j + |p| <= |b| {
      assert (a + b)[|a| + j..|a| + j + |p|] == b[j..j + |p|];
    }
  }

  /** The first `n` positions of `b` hold no match, so neither do the same
      positions after `a`. */
  lemma NoMatchAfter(a: string, b: string, p: string, n: nat)
    requires forall j :: 0 <= j < n ==> !MatchAt(b, p, j)
    ensures forall i :: |a| <= i < |a| + n ==> !MatchAt(a + b, p, i)
  {
    forall i | |a| <= i < |a| + n ensures !MatchAt(a + b, p, i) {
      MatchShift(a, b, p, i - |a|);
    }
  }

  /** Concatenation regrouped. */
  lemma Assoc(a: string, b: string, c: string)
    ensures a + (b + c) == a + b + c
  {
  }

  /** The characters of a match. */
  lemma MatchChars(s: string, p: string, i: nat)
    requires MatchAt(s, p, i)
    ensures forall t :: 0 <= t < |p| ==> s[i + t] == p[t]
  {
    forall t | 0 <= t < |p| ensures s[i + t] == p[t] {
      assert s[i..i + |p|][t] == s[i + t];
    }
  }

  /** A match of `p` is a match of each of its prefixes. */
  lemma MatchPrefix(s: string, p: string, q: string, i: nat)
    requires q <= p && MatchAt(s, p, i)
    ensures MatchAt(s, q, i)
  {
    assert s[i..i + |q|] == s[i..i + |p|][..|q|];
  }

  /** `String::replace(find, repl)`: every occurrence of `find`, taken left to
      right and without overlap, is replaced by `repl`; an empty `find`
      leaves the text alone. */
  function ReplaceAll(s: string, find: string, repl: string): (r: string)
    decreases |s|
    ensures |find| == 0 ==> r == s
  {
    if |find| == 0 || |s| == 0 then s
    else if find <= s then repl + ReplaceAll(s[|find|..], find, repl)
    else [s[0]] + ReplaceAll(s[1..], find, repl)
  }

  /** Replacing a pattern by a text no longer than it never lengthens the text. */
  lemma {:induction false} ReplaceNoLonger(s: string, find: string, repl: string)
    requires |repl| <= |find|
    ensures |ReplaceAll(s, find, repl)| <= |s|
    decreases |s|
  {
    if |find| > 0 && |s| > 0 {
      if find <= s {
        ReplaceNoLonger(s[|find|..], find, repl);
      } else {
        ReplaceNoLonger(s[1..], find, repl);
      }
    }
  }

  /** Text in which the first character of `find` does not occur is left alone. */
  lemma {:induction false} ReplaceAbsent(s: string, find: string, repl: string)
    requires |find| > 0 && find[0] !in s
    ensures ReplaceAll(s, find, repl) == s
  {
    if |s| > 0 {
      assert s[0] != find[0];
      assert !(find <= s);
      ReplaceAbsent(s[1..], find, repl);
      assert [s[0]] + s[1..] == s;
    }
  }

  /** A character that cannot start `find` is copied. */
  lemma ReplaceSkip(c: char, s: string, find: string, repl: string)
    requires |find| > 0 && find[0] != c
    ensures ReplaceAll([c] + s, find, repl) == [c] + ReplaceAll(s, find, repl)
  {
    assert ([c] + s)[1..] == s;
  }

  /** An occurrence of `find` at the front is replaced. */
  lemma ReplaceHit(s: string, find: string, repl: string)
    requires |find| > 0
    ensures ReplaceAll(find + s, find, repl) == repl + ReplaceAll(s, find, repl)
  {
    assert (find + s)[|find|..] == s;
  }

  predicate IsDigit(c: char) { '0' <= c <= '9' }

  predicate AllDigits(d: string) {
    forall i :: 0 <= i < |d| ==> IsDigit(d[i])
  }

  function DigitValue(c: char): nat
    requires IsDigit(c)
  {
    c as int - '0' as int
  }

  function DigitChar(d: nat): (c: char)
    requires d < 10
    ensures IsDigit(c) && DigitValue(c) == d
  {
    ('0' as int + d) as char
  }

  /** The number a run of decimal digits denotes. */
  function DigitsValue(d: string): nat
    requires AllDigits(d)
  {
    if d == [] then 0
    else DigitsValue(d[..|d| - 1]) * 10 + DigitValue(d[|d| - 1])
  }

  /** The longest prefix of `s` made of decimal digits. */
  function LeadingDigits(s: string): (d: string)
    ensures AllDigits(d)
  {
    if s == [] || !IsDigit(s[0]) then []
    else [s[0]] + LeadingDigits(s[1..])
  }

  /** The characters `isspace` accepts: space, tab, newline, vertical tab,
      form feed and carriage return. */
  predicate IsSpace(c: char) { c == ' ' || '\t' <= c <= '\r' }

  function SkipSpaces(s: string): string {
    if s != [] && IsSpace(s[0]) then SkipSpaces(s[1..]) else s
  }

  /** The value `atol` reads, before it is narrowed to `long`: leading white
      space, an optional sign, then as many digits as follow; 0 when there are
      none. */
  function ToInt(s: string): (r: int)
    ensures |s| > 0 && s[0] == '-' ==> r <= 0
    ensures |s| > 0 && IsDigit(s[0]) ==> r >= 0
  {
    var t := SkipSpaces(s);
    if |t| > 0 && t[0] == '-' then -(DigitsValue(LeadingDigits(t[1..])) as int)
    else if |t| > 0 && t[0] == '+' then DigitsValue(LeadingDigits(t[1..]))
    else DigitsValue(LeadingDigits(t))
  }

  /** The range of the 32-bit `long` that `String::toInt` returns. */
  const LONG_MIN: int := -0x8000_0000
  const LONG_MAX: int := 0x7FFF_FFFF

  /** `String::toInt`: `atol`, which narrows the value it reads to `long`
      the way `strtol` does, by saturating at the ends of the range. */
  function ToLong(s: string): (r: int)
    ensures LONG_MIN <= r <= LONG_MAX
    ensures LONG_MIN <= ToInt(s) <= LONG_MAX ==> r == ToInt(s)
    ensures ToInt(s) > LONG_MAX ==> r == LONG_MAX
    ensures ToInt(s) < LONG_MIN ==> r == LONG_MIN
  {
    var v := ToInt(s);
    if v > LONG_MAX then LONG_MAX else if v < LONG_MIN then LONG_MIN else v
  }

  /** `String(unsigned long)`: the decimal digits of `n`, without leading zeros. */
  function Decimal(n: nat): (r: string)
    decreases n
    ensures |r| > 0 && AllDigits(r) && DigitsValue(r) == n
  {
    if n < 10 then [DigitChar(n)] else Decimal(n / 10) + [DigitChar(n % 10)]
  }

  /** Text `atol` finds no digits in converts to 0. */
  lemma ToIntWithoutDigits(s: string)
    requires |s| == 0 || (!IsDigit(s[0]) && s[0] != '-' && s[0] != '+' && !IsSpace(s[0]))
    ensures ToInt(s) == 0
  {
  }

  /** A run of digits converts to the number it denotes. */
  lemma ToIntOfDigits(d: string)
    requires |d| > 0 && AllDigits(d)
    ensures ToInt(d) == DigitsValue(d)
  {
    LeadingDigitsOfDigits(d);
  }

  lemma {:induction false} LeadingDigitsOfDigits(d: string)
    requires AllDigits(d)
    ensures LeadingDigits(d) == d
  {
    if d != [] {
      LeadingDigitsOfDigits(d[1..]);
    }
  }

  /** `atol` reads back the value `String(unsigned long)` writes. */
  lemma ToIntOfDecimal(n: nat)
    ensures ToInt(Decimal(n)) == n
  {
    ToIntOfDigits(Decimal(n));
  }

  /** `toInt` reads back what `String(unsigned long)` writes, up to `LONG_MAX`. */
  lemma ToLongOfDecimal(n: nat)
    ensures ToLong(Decimal(n)) == if n > LONG_MAX then LONG_MAX else n
  {
    ToIntOfDecimal(n);
  }
}
