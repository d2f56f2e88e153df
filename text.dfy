/**
 * Character classes of Go's regexp package (RE2 syntax) as used by the
 * patterns of this program, and the scanning helpers built on them.
 */
module Text {

  /** `\s` in RE2: exactly tab, newline, form feed, carriage return and space (no vertical tab). */
  predicate IsSpace(c: char) {
    c == ' ' || c == '\t' || c == '\n' || c == '\r' || c == '\U{000C}'
  }

  /** `\d` in RE2: an ASCII decimal digit. */
  predicate IsDigit(c: char) {
    '0' <= c <= '9'
  }

  /** `[\d.]`: a digit or a dot. */
  predicate IsNumeric(c: char) {
    IsDigit(c) || c == '.'
  }

  /** Every character of `s` is a space. */
  predicate Blank(s: string) {
    forall i :: 0 <= i < |s| ==> IsSpace(s[i])
  }

  /** `s` is a non-empty run of `[\d.]`. */
  predicate NumericToken(s: string) {
    |s| > 0 && forall i :: 0 <= i < |s| ==> IsNumeric(s[i])
  }

  /** The end of the run of spaces that starts at `i`. */
  function SkipSpaces(s: string, i: nat): (e: nat)
    requires i <= |s|
    ensures i <= e <= |s|
    ensures e < |s| ==> !IsSpace(s[e])
    decreases |s| - i
  {
    if i < |s| && IsSpace(s[i]) then SkipSpaces(s, i + 1) else i
  }

  /** Everything SkipSpaces passes over is spaces. */
  lemma {:induction false} SkipSpacesRun(s: string, i: nat)
    requires i <= |s|
    ensures forall j :: i <= j < SkipSpaces(s, i) ==> IsSpace(s[j])
    decreases |s| - i
  {
    if i < |s| && IsSpace(s[i]) {
      SkipSpacesRun(s, i + 1);
    }
  }

  /** The end of the run of `[\d.]` that starts at `i`. */
  function SkipNumeric(s: string, i: nat): (e: nat)
    requires i <= |s|
    ensures i <= e <= |s|
    ensures e < |s| ==> !IsNumeric(s[e])
    decreases |s| - i
  {
    if i < |s| && IsNumeric(s[i]) then SkipNumeric(s, i + 1) else i
  }

  /** Everything SkipNumeric passes over is `[\d.]`. */
  lemma {:induction false} SkipNumericRun(s: string, i: nat)
    requires i <= |s|
    ensures forall j :: i <= j < SkipNumeric(s, i) ==> IsNumeric(s[j])
    decreases |s| - i
  {
    if i < |s| && IsNumeric(s[i]) {
      SkipNumericRun(s, i + 1);
    }
  }

  /** A run of spaces ends at the first non-space: any end of a space-only stretch before a non-space is SkipSpaces. */
  lemma {:induction false} SkipSpacesExact(s: string, i: nat, j: nat)
    requires i <= j <= |s|
    requires forall k :: i <= k < j ==> IsSpace(s[k])
    requires j < |s| ==> !IsSpace(s[j])
    ensures SkipSpaces(s, i) == j
    decreases j - i
  {
    if i < j {
      SkipSpacesExact(s, i + 1, j);
    }
  }

  /** The same for runs of `[\d.]`. */
  lemma {:induction false} SkipNumericExact(s: string, i: nat, j: nat)
    requires i <= j <= |s|
    requires forall k :: i <= k < j ==> IsNumeric(s[k])
    requires j < |s| ==> !IsNumeric(s[j])
    ensures SkipNumeric(s, i) == j
    decreases j - i
  {
    if i < j {
      SkipNumericExact(s, i + 1, j);
    }
  }

  /** A suffix is a slice followed by the suffix after it. */
  lemma Peel(s: string, i: nat, j: nat)
    requires i <= j <= |s|
    ensures s[i..] == s[i..j] + s[j..]
  {
  }
}
