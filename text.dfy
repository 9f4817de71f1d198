/**
 * The handful of Python `str` operations the core relies on, over `seq<char>`:
 * `str.strip()`, the substring test `sub in s`, `s.split(sep)[-1]` and `str(n)`
 * for integers.
 */
module Text {

  /** Python's `str.isspace()` for one code point: the characters `str.strip()` removes. */
  predicate IsSpace(c: char) {
    || '\t' <= c <= '\r'
    || '\U{1C}' <= c <= ' '
    || c == '\U{85}' || c == '\U{A0}' || c == '\U{1680}'
    || '\U{2000}' <= c <= '\U{200A}'
    || c == '\U{2028}' || c == '\U{2029}' || c == '\U{202F}' || c == '\U{205F}' || c == '\U{3000}'
  }

  /** Leading whitespace removed (`str.lstrip()`). */
  function TrimStart(s: string): (r: string)
    ensures r == [] || !IsSpace(r[0])
  {
    if |s| > 0 && IsSpace(s[0]) then TrimStart(s[1..]) else s
  }

  /** What `lstrip()` removes is a whitespace prefix. */
  lemma {:induction false} TrimStartCuts(s: string)
    ensures var r := TrimStart(s);
      && |r| <= |s| && r == s[|s| - |r|..]
      && forall i :: 0 <= i < |s| - |r| ==> IsSpace(s[i])
  {
    if |s| > 0 && IsSpace(s[0]) {
      TrimStartCuts(s[1..]);
    }
  }

  /** Trailing whitespace removed (`str.rstrip()`). */
  function TrimEnd(s: string): (r: string)
    ensures r == [] || !IsSpace(r[|r| - 1])
  {
    if |s| > 0 && IsSpace(s[|s| - 1]) then TrimEnd(s[..|s| - 1]) else s
  }

  /** What `rstrip()` removes is a whitespace suffix. */
  lemma {:induction false} TrimEndCuts(s: string)
    ensures var r := TrimEnd(s);
      && |r| <= |s| && r == s[..|r|]
      && forall i :: |r| <= i < |s| ==> IsSpace(s[i])
  {
    if |s| > 0 && IsSpace(s[|s| - 1]) {
      TrimEndCuts(s[..|s| - 1]);
    }
  }

  /** True when `s` neither starts nor ends with whitespace. */
  predicate Trimmed(s: string) {
    s == [] || (!IsSpace(s[0]) && !IsSpace(s[|s| - 1]))
  }

  /** Python's `s.strip()`: whitespace removed from both ends. */
  function Strip(s: string): (r: string)
    ensures Trimmed(r)
  {
    var t := TrimStart(s);
    TrimEndCuts(t);
    TrimEnd(t)
  }

  /**
   * `strip()` keeps the longest middle part of `s` with no whitespace at either end: everything
   * cut off on either side is whitespace.
   */
  lemma StripCuts(s: string)
    ensures exists a, b :: 0 <= a <= b <= |s| && Strip(s) == s[a..b]
              && (forall i :: 0 <= i < a ==> IsSpace(s[i]))
              && (forall i :: b <= i < |s| ==> IsSpace(s[i]))
  {
    var t := TrimStart(s);
    var r := TrimEnd(t);
    var a := |s| - |t|;
    var b := a + |r|;
    assert r == s[a..b] && forall i :: 0 <= i < a ==> IsSpace(s[i]) by {
      TrimStartCuts(s);
      TrimEndCuts(t);
    }
    assert forall i :: b <= i < |s| ==> IsSpace(s[i]) by {
      TrimStartCuts(s);
      TrimEndCuts(t);
      forall i | b <= i < |s|
        ensures IsSpace(s[i])
      {
        assert s[i] == t[i - a];
      }
    }
  }

  /** A string with no surrounding whitespace is its own `strip()`. */
  lemma {:induction false} StripTrimmed(s: string)
    requires Trimmed(s)
    ensures Strip(s) == s
  {
    assert TrimStart(s) == s;
    assert TrimEnd(s) == s;
  }

  /** `strip()` is idempotent. */
  lemma StripIdempotent(s: string)
    ensures Strip(Strip(s)) == Strip(s)
  {
    StripTrimmed(Strip(s));
  }

  /** `sep` occurs in `s` starting at index `i`. */
  predicate OccursAt(s: string, sep: string, i: nat) {
    i + |sep| <= |s| && s[i..i + |sep|] == sep
  }

  /** Python's `sub in s`. */
  predicate Contains(s: string, sub: string) {
    exists i :: 0 <= i <= |s| - |sub| && OccursAt(s, sub, i)
  }

  /** Index of the first occurrence of `sep` in `s` at or after `from`, if any (`str.find`). */
  function FindFrom(s: string, sep: string, from: nat): (r: int)
    requires from <= |s|
    ensures r == -1 || (from <= r <= |s| && OccursAt(s, sep, r))
    ensures r == -1 ==> forall i :: from <= i <= |s| - |sep| ==> !OccursAt(s, sep, i)
    ensures r != -1 ==> forall i :: from <= i < r ==> !OccursAt(s, sep, i)
    decreases |s| - from
  {
    if from + |sep| > |s| then -1
    else if s[from..from + |sep|] == sep then from
    else if from == |s| then -1
    else FindFrom(s, sep, from + 1)
  }

  /** The substring test through `FindFrom`: `sub in s` holds iff a first occurrence exists. */
  lemma ContainsIffFound(s: string, sub: string)
    ensures Contains(s, sub) <==> FindFrom(s, sub, 0) != -1
  {
  }

  /**
   * Python's `s.split(sep)[-1]` for a non-empty `sep`: split scans left to right for
   * non-overlapping occurrences, and the last piece is what follows the last split point.
   */
  function LastField(s: string, sep: string): (r: string)
    requires |sep| > 0
    ensures |r| <= |s| && r == s[|s| - |r|..]
    ensures !Contains(r, sep)
    decreases |s|
  {
    var i := FindFrom(s, sep, 0);
    if i == -1 then s else LastField(s[i + |sep|..], sep)
  }

  /** With no occurrence of `sep`, `split(sep)[-1]` is the whole string. */
  lemma LastFieldNoSeparator(s: string, sep: string)
    requires |sep| > 0 && !Contains(s, sep)
    ensures LastField(s, sep) == s
  {
    ContainsIffFound(s, sep);
  }

  /** `s ++ sep ++ rest` with no `sep` in `rest` and no `sep` straddling the join: the last field is `rest`. */
  lemma {:induction false} LastFieldAfterSeparator(prefix: string, sep: string, rest: string)
    requires |sep| > 0
    requires !Contains(rest, sep)
    requires forall i :: 0 <= i < |prefix| ==> !OccursAt(prefix + sep + rest, sep, i)
    ensures LastField(prefix + sep + rest, sep) == rest
  {
    var s := prefix + sep + rest;
    assert OccursAt(s, sep, |prefix|) by { assert s[|prefix|..|prefix| + |sep|] == sep; }
    var i := FindFrom(s, sep, 0);
    assert i == |prefix|;
    assert s[i + |sep|..] == rest;
    LastFieldNoSeparator(rest, sep);
  }

  /** Decimal digit character for `d`. */
  function DigitChar(d: nat): (c: char)
    requires d < 10
    ensures IsDigit(c)
  {
    (('0' as int) + d) as char
  }

  predicate IsDigit(c: char) {
    '0' <= c <= '9'
  }

  predicate AllDigits(s: string) {
    forall i :: 0 <= i < |s| ==> IsDigit(s[i])
  }

  /** The number a string of decimal digits spells. */
  function DecimalValue(s: string): nat
    requires AllDigits(s)
  {
    if s == [] then 0 else DecimalValue(s[..|s| - 1]) * 10 + ((s[|s| - 1] as int) - ('0' as int))
  }

  /** Python's `str(n)` for `n >= 0`: decimal digits, no leading zero. */
  function NatToString(n: nat): (r: string)
    ensures |r| >= 1 && AllDigits(r)
    ensures |r| > 1 ==> r[0] != '0'
  {
    if n < 10 then [DigitChar(n)] else NatToString(n / 10) + [DigitChar(n % 10)]
  }

  /** Python's `str(i)` for any integer: a minus sign before the digits of a negative value. */
  function IntToString(i: int): (r: string)
    ensures |r| >= 1
  {
    if i < 0 then "-" + NatToString(-i) else NatToString(i)
  }

  /** `str(n)` and reading the digits back are inverse. */
  lemma {:induction false} NatToStringRoundTrip(n: nat)
    ensures DecimalValue(NatToString(n)) == n
  {
    var s := NatToString(n);
    if n >= 10 {
      NatToStringRoundTrip(n / 10);
      assert s[..|s| - 1] == NatToString(n / 10);
    }
  }

  /** Python's `s[2:]`: empty when `s` is shorter than two characters. */
  function DropTwo(s: string): (r: string)
    ensures |r| == if |s| >= 2 then |s| - 2 else 0
  {
    if |s| >= 2 then s[2..] else []
  }

  /** For a four-digit number, `str(n)[2:]` spells its last two digits, leading zero kept. */
  lemma FourDigitSuffix(n: nat)
    requires 1000 <= n <= 9999
    ensures |NatToString(n)| == 4
    ensures |DropTwo(NatToString(n))| == 2 && AllDigits(DropTwo(NatToString(n)))
    ensures DecimalValue(DropTwo(NatToString(n))) == n % 100
  {
    var s := NatToString(n);
    var hi := NatToString(n / 100);
    assert NatToString(n / 10) == hi + [DigitChar((n / 10) % 10)];
    assert |NatToString(n / 1000)| == 1;
    assert |hi| == 2;
    var t := DropTwo(s);
    assert t == [DigitChar((n / 10) % 10), DigitChar(n % 10)];
    assert t[..1] == [DigitChar((n / 10) % 10)];
    assert t[..1][..0] == [];
    assert DecimalValue(t[..1]) == (n / 10) % 10;
    assert DecimalValue(t) == ((n / 10) % 10) * 10 + n % 10;
    assert ((n / 10) % 10) * 10 + n % 10 == n % 100;
  }
}
