/**
 * The pieces of JavaScript's built-in semantics that the rest of the model
 * relies on: failure values, ASCII case mapping, the characters the regular
 * expression classes `\s` and `\d` accept, decimal formatting of numbers, and
 * which property keys count as array indices (they change `Object.keys` order
 * and how `args[index]` is looked up).
 */
module JsText {

  datatype Option<+T> = None | Some(value: T)

  /** The only exception the modelled code can raise. */
  datatype JsError = TypeError

  /** A computation that either returns a value or throws. */
  datatype Result<+T> = Ok(value: T) | Err(error: JsError) {
    predicate IsFailure() { Err? }

    function PropagateFailure<U>(): Result<U>
      requires Err?
    {
      Err(error)
    }

    function Extract(): T
      requires Ok?
    {
      value
    }
  }

  // ---------------------------------------------------------------------
  // ASCII character classes and case mapping

  predicate IsLower(c: char) { 'a' <= c <= 'z' }

  predicate IsUpper(c: char) { 'A' <= c <= 'Z' }

  predicate IsAsciiLetter(c: char) { IsLower(c) || IsUpper(c) }

  /** `String.prototype.toUpperCase` on one character, for ASCII. */
  function ToUpper(c: char): (r: char)
    ensures !IsLower(r)
    ensures IsAsciiLetter(r) <==> IsAsciiLetter(c)
    ensures !IsLower(c) ==> r == c
    ensures ToLower(r) == ToLower(c)
  {
    if IsLower(c) then (c as int - 32) as char else c
  }

  /** `String.prototype.toLowerCase` on one character, for ASCII. */
  function ToLower(c: char): (r: char)
    ensures !IsUpper(r)
    ensures IsAsciiLetter(r) <==> IsAsciiLetter(c)
    ensures !IsUpper(c) ==> r == c
  {
    if IsUpper(c) then (c as int + 32) as char else c
  }

  /** The class `\d` of a regular expression without the `u` flag. */
  predicate IsDigit(c: char) { '0' <= c <= '9' }

  /** The class `\s`: white space and line terminators of ECMAScript. */
  predicate IsJsSpace(c: char)
  {
    c == ' ' || c == '\t' || c == '\n' || c == '\r' || c == '\U{000B}' || c == '\U{000C}'
    || c == '\U{00A0}' || c == '\U{1680}' || ('\U{2000}' <= c <= '\U{200A}')
    || c == '\U{2028}' || c == '\U{2029}' || c == '\U{202F}' || c == '\U{205F}'
    || c == '\U{3000}' || c == '\U{FEFF}'
  }

  predicate AllDigits(s: string) { forall i :: 0 <= i < |s| ==> IsDigit(s[i]) }

  // ---------------------------------------------------------------------
  // Decimal numbers

  function DigitValue(c: char): (d: nat)
    requires IsDigit(c)
    ensures d < 10
  {
    c as int - '0' as int
  }

  function DigitChar(d: nat): (c: char)
    requires d < 10
    ensures IsDigit(c) && DigitValue(c) == d
  {
    ('0' as int + d) as char
  }

  /** The number a string of decimal digits denotes, read left to right. */
  function DecimalValue(s: string): nat
    requires AllDigits(s)
  {
    if s == [] then 0 else DecimalValue(s[..|s| - 1]) * 10 + DigitValue(s[|s| - 1])
  }

  /** `String(n)` for a natural number: decimal digits without leading zeros. */
  function NatToString(n: nat): (r: string)
    ensures |r| >= 1 && AllDigits(r)
    ensures r[0] == '0' ==> n == 0 && r == "0"
  {
    if n < 10 then [DigitChar(n)] else NatToString(n / 10) + [DigitChar(n % 10)]
  }

  /** Reading back what NatToString writes gives the number again. */
  lemma {:induction false} NatToStringRoundTrip(n: nat)
    ensures DecimalValue(NatToString(n)) == n
  {
    var r := NatToString(n);
    if n >= 10 {
      var prefix := NatToString(n / 10);
      assert r[..|r| - 1] == prefix;
      NatToStringRoundTrip(n / 10);
    }
  }

  /** Different numbers are written differently. */
  lemma NatToStringInjective(m: nat, n: nat)
    ensures NatToString(m) == NatToString(n) ==> m == n
  {
    NatToStringRoundTrip(m);
    NatToStringRoundTrip(n);
  }

  /** The largest array index plus one: indices are below 2^32 - 1. */
  const MaxArrayLength: nat := 0xFFFF_FFFF

  /**
   * An array index of ECMAScript: the canonical decimal string of an integer
   * in 0 .. 2^32 - 2. Such keys are enumerated first, in numeric order, by
   * `Object.keys`, and they are the only keys under which an array holds its
   * elements.
   */
  predicate IsArrayIndex(k: string)
  {
    |k| >= 1 && AllDigits(k) && (k[0] != '0' || |k| == 1) && DecimalValue(k) < MaxArrayLength
  }

  /** Every number below the bound is written as an array index. */
  lemma NatToStringIsArrayIndex(n: nat)
    requires n < MaxArrayLength
    ensures IsArrayIndex(NatToString(n)) && DecimalValue(NatToString(n)) == n
  {
    NatToStringRoundTrip(n);
  }

  /** The numeric value of an array index key. */
  function IndexValue(k: string): (v: nat)
    requires IsArrayIndex(k)
    ensures v < MaxArrayLength
  {
    DecimalValue(k)
  }

  // ---------------------------------------------------------------------
  // Small sequence helpers

  predicate StartsWith(s: string, prefix: string)
  {
    |prefix| <= |s| && s[..|prefix|] == prefix
  }

  predicate EndsWith(s: string, suffix: string)
  {
    |suffix| <= |s| && s[|s| - |suffix|..] == suffix
  }

  /** A non-empty sequence is its prefix followed by its last element. */
  lemma SnocSplit<T>(s: seq<T>)
    requires s != []
    ensures s[..|s| - 1] + [s[|s| - 1]] == s
  {
  }

  /** Writing a position twice keeps the second write. */
  lemma UpdateTwice<T>(s: seq<T>, i: nat, a: T, b: T)
    requires i < |s|
    ensures s[i := a][i := b] == s[i := b]
  {
  }

  /** Overwriting the element just appended is appending the new one. */
  lemma SnocUpdate<T>(s: seq<T>, a: T, b: T)
    ensures (s + [a])[|s| := b] == s + [b]
  {
  }

  /** Concatenation groups either way; stated once so that proofs need not rediscover it. */
  lemma AppendAssoc<T>(a: seq<T>, b: seq<T>, c: seq<T>)
    ensures (a + b) + c == a + (b + c)
  {
  }

  /** The strings of `parts` placed one after the other, `parts.join('')`. */
  function Concat(parts: seq<string>): string
  {
    if parts == [] then [] else parts[0] + Concat(parts[1..])
  }

  lemma {:induction false} ConcatAppend(a: seq<string>, b: seq<string>)
    ensures Concat(a + b) == Concat(a) + Concat(b)
  {
    if a != [] {
      assert (a + b)[1..] == a[1..] + b;
      ConcatAppend(a[1..], b);
    } else {
      assert a + b == b;
    }
  }
}
