/**
 * The string built-ins of PHP and JavaScript that the core relies on:
 * `str_replace`, `ltrim` with one character, suffix tests, and the decimal
 * rendering and parsing of integers.
 */
module Strings {
  import opened Wrappers

  /** True when `needle` occurs in `s` starting at index `i`. */
  predicate OccursAt(s: string, needle: string, i: nat)
  {
    i + |needle| <= |s| && s[i..i + |needle|] == needle
  }

  predicate Occurs(s: string, needle: string)
  {
    exists i: nat :: i <= |s| && OccursAt(s, needle, i)
  }

  /**
   * PHP `str_replace(search, replace, subject)` for one string search:
   * the subject is scanned from the left and every non-overlapping
   * occurrence of `search` is replaced; an empty search changes nothing.
   */
  function StrReplace(search: string, replace: string, subject: string): string
    decreases |subject|
  {
    if search == [] || |subject| < |search| then subject
    else if subject[..|search|] == search then replace + StrReplace(search, replace, subject[|search|..])
    else [subject[0]] + StrReplace(search, replace, subject[1..])
  }

  /** Removing a leading occurrence consumes it and resumes the scan after it. */
  lemma StrReplaceLeading(search: string, replace: string, rest: string)
    requires search != []
    ensures StrReplace(search, replace, search + rest) == replace + StrReplace(search, replace, rest)
  {
    assert (search + rest)[..|search|] == search;
    assert (search + rest)[|search|..] == rest;
  }

  /** A subject in which the search string does not occur comes back unchanged. */
  lemma {:induction false} StrReplaceAbsent(search: string, replace: string, subject: string)
    requires !Occurs(subject, search)
    ensures StrReplace(search, replace, subject) == subject
    decreases |subject|
  {
    if search == [] || |subject| < |search| {
    } else {
      assert !OccursAt(subject, search, 0);
      assert subject[..|search|] != search;
      forall i: nat | i <= |subject[1..]|
        ensures !OccursAt(subject[1..], search, i)
      {
        if OccursAt(subject[1..], search, i) {
          assert subject[1..][i..i + |search|] == subject[i + 1..i + 1 + |search|];
          assert OccursAt(subject, search, i + 1);
        }
      }
      StrReplaceAbsent(search, replace, subject[1..]);
      assert [subject[0]] + subject[1..] == subject;
    }
  }

  /**
   * Replacing one character by another keeps the length and changes exactly
   * the positions that held the searched character.
   */
  lemma {:induction false} StrReplaceChar(a: char, b: char, subject: string)
    ensures |StrReplace([a], [b], subject)| == |subject|
    ensures forall i :: 0 <= i < |subject| ==>
              StrReplace([a], [b], subject)[i] == (if subject[i] == a then b else subject[i])
    decreases |subject|
  {
    if subject != [] {
      StrReplaceChar(a, b, subject[1..]);
      assert subject[..1] == [subject[0]];
    }
  }

  /** After replacing `a` by a different `b`, no `a` is left. */
  lemma StrReplaceCharRemovesAll(a: char, b: char, subject: string)
    requires a != b
    ensures a !in StrReplace([a], [b], subject)
  {
    StrReplaceChar(a, b, subject);
    var r := StrReplace([a], [b], subject);
    assert forall i :: 0 <= i < |r| ==> r[i] != a;
  }

  /** PHP `ltrim(s, c)` for a single character `c`: strips every leading `c`. */
  function LTrim(s: string, c: char): (r: string)
    ensures |r| <= |s| && r == s[|s| - |r|..]
    ensures r == [] || r[0] != c
    ensures forall i :: 0 <= i < |s| - |r| ==> s[i] == c
  {
    if s != [] && s[0] == c then LTrim(s[1..], c) else s
  }

  predicate EndsWith(s: string, suffix: string)
  {
    |suffix| <= |s| && s[|s| - |suffix|..] == suffix
  }

  /** ASCII lower-casing, as PCRE's caseless matching sees Latin letters. */
  function AsciiLower(c: char): char
  {
    if 'A' <= c <= 'Z' then (c as int - 'A' as int + 'a' as int) as char else c
  }

  /** `s` ends with `suffix` when compared without regard to ASCII case. */
  predicate EndsWithCaseless(s: string, suffix: string)
  {
    |suffix| <= |s| &&
    forall i :: 0 <= i < |suffix| ==> AsciiLower(s[|s| - |suffix| + i]) == AsciiLower(suffix[i])
  }

  function DigitChar(d: nat): char
    requires d < 10
  {
    "0123456789"[d]
  }

  predicate IsDigit(c: char)
  {
    '0' <= c <= '9'
  }

  /** The decimal rendering of a natural number, as PHP and JavaScript print it. */
  function NatToString(n: nat): (s: string)
    ensures s != [] && forall i :: 0 <= i < |s| ==> IsDigit(s[i])
    decreases n
  {
    if n < 10 then [DigitChar(n)] else NatToString(n / 10) + [DigitChar(n % 10)]
  }

  function IntToString(i: int): string
  {
    if i < 0 then "-" + NatToString(-i) else NatToString(i)
  }

  /** The value of a string of decimal digits (the empty string is 0). */
  function DigitsValue(s: string): nat
    requires forall i :: 0 <= i < |s| ==> IsDigit(s[i])
  {
    if s == [] then 0
    else
      assert IsDigit(s[|s| - 1]);
      DigitsValue(s[..|s| - 1]) * 10 + (s[|s| - 1] as int - '0' as int)
  }

  /** Reading back a rendered natural number gives that number. */
  lemma {:induction false} NatToStringRoundTrip(n: nat)
    ensures DigitsValue(NatToString(n)) == n
    decreases n
  {
    var s := NatToString(n);
    if n >= 10 {
      NatToStringRoundTrip(n / 10);
      assert s[..|s| - 1] == NatToString(n / 10);
    }
  }

  /** A string of decimal digits read as a number, or None when it holds anything else. */
  function ParseNat(s: string): Option<nat>
  {
    if s != [] && forall i :: 0 <= i < |s| ==> IsDigit(s[i]) then Some(DigitsValue(s)) else None
  }
}
