/** The `String` validators and formatters (Extensions/StringExtension.swift).
    A string is a sequence of Unicode scalars; Swift counts grapheme clusters,
    which coincide with scalars for the text these helpers are meant for. */
module Strings {

  // ---------------------------------------------------------------- character sets

  /** `CharacterSet.whitespaces`: tab and the space separators (category Zs). */
  predicate IsWhitespace(c: char) {
    || c == '\t' || c == ' ' || c == '\U{00A0}' || c == '\U{1680}'
    || ('\U{2000}' <= c <= '\U{200A}') || c == '\U{202F}' || c == '\U{205F}' || c == '\U{3000}'
  }

  /** `CharacterSet.whitespacesAndNewlines`: the above plus LF, VT, FF, CR,
      NEL and the line and paragraph separators. */
  predicate IsWhitespaceOrNewline(c: char) {
    || IsWhitespace(c) || ('\n' <= c <= '\r') || c == '\U{0085}' || c == '\U{2028}' || c == '\U{2029}'
  }

  predicate IsAsciiDigit(c: char) {
    '0' <= c <= '9'
  }

  predicate IsAsciiAlphanumeric(c: char) {
    ('A' <= c <= 'Z') || ('a' <= c <= 'z') || IsAsciiDigit(c)
  }

  // ---------------------------------------------------------------- trimming

  function TrimLeading(s: string, inSet: char -> bool): string {
    if s != [] && inSet(s[0]) then TrimLeading(s[1..], inSet) else s
  }

  function TrimTrailing(s: string, inSet: char -> bool): string {
    if s != [] && inSet(s[|s| - 1]) then TrimTrailing(s[..|s| - 1], inSet) else s
  }

  /** `trimmingCharacters(in:)`: drop the members of the set at both ends. */
  function Trimming(s: string, inSet: char -> bool): string {
    TrimTrailing(TrimLeading(s, inSet), inSet)
  }

  lemma {:induction false} TrimLeadingMeaning(s: string, inSet: char -> bool)
    ensures var r := TrimLeading(s, inSet);
            && |r| <= |s| && r == s[|s| - |r|..]
            && (forall i | 0 <= i < |s| - |r| :: inSet(s[i]))
            && (r != [] ==> !inSet(r[0]))
  {
    if s != [] && inSet(s[0]) {
      var t := s[1..];
      TrimLeadingMeaning(t, inSet);
      var r := TrimLeading(t, inSet);
      assert TrimLeading(s, inSet) == r;
      assert t[|t| - |r|..] == s[|s| - |r|..];
      forall i | 0 <= i < |s| - |r| ensures inSet(s[i]) {
        if i > 0 {
          assert s[i] == t[i - 1];
        }
      }
    } else {
      assert s[0..] == s;
    }
  }

  lemma {:induction false} TrimTrailingMeaning(s: string, inSet: char -> bool)
    ensures var r := TrimTrailing(s, inSet);
            && |r| <= |s| && r == s[..|r|]
            && (forall i | |r| <= i < |s| :: inSet(s[i]))
            && (r != [] ==> !inSet(r[|r| - 1]))
  {
    if s != [] && inSet(s[|s| - 1]) {
      var t := s[..|s| - 1];
      TrimTrailingMeaning(t, inSet);
      var r := TrimTrailing(t, inSet);
      assert TrimTrailing(s, inSet) == r;
      assert t[..|r|] == s[..|r|];
      forall i | |r| <= i < |s| ensures inSet(s[i]) {
        if i < |s| - 1 {
          assert s[i] == t[i];
        }
      }
    } else {
      assert s[..|s|] == s;
    }
  }

  /** The trimmed string is the part of `s` between the leading and the
      trailing run of set members: whenever `s[..i]` and `s[j..]` are all in
      the set and `s[i..j]` starts and ends outside it (or is empty), the
      result is `s[i..j]`. */
  lemma TrimmingIsCore(s: string, inSet: char -> bool, i: nat, j: nat)
    requires i <= j <= |s|
    requires forall k | 0 <= k < i :: inSet(s[k])
    requires forall k | j <= k < |s| :: inSet(s[k])
    requires i < j ==> !inSet(s[i]) && !inSet(s[j - 1])
    ensures Trimming(s, inSet) == s[i..j]
  {
    TrimLeadingMeaning(s, inSet);
    var l := TrimLeading(s, inSet);
    TrimTrailingMeaning(l, inSet);
    var r := TrimTrailing(l, inSet);
    var a := |s| - |l|;
    if i < j {
      assert a == i;
      assert a + |r| == j;
    } else {
      TrimmingEmpty(s, inSet);
      assert forall k | 0 <= k < |s| :: inSet(s[k]);
    }
  }

  /** Trimming leaves nothing exactly when every character is in the set. */
  lemma TrimmingEmpty(s: string, inSet: char -> bool)
    ensures Trimming(s, inSet) == [] <==> forall k | 0 <= k < |s| :: inSet(s[k])
  {
    TrimLeadingMeaning(s, inSet);
    var l := TrimLeading(s, inSet);
    TrimTrailingMeaning(l, inSet);
    if Trimming(s, inSet) == [] {
      assert l == [];
    }
  }

  // ---------------------------------------------------------------- the validators

  /** `isBlank`: nothing but horizontal whitespace is left after trimming it. */
  predicate IsBlank(s: string) {
    Trimming(s, IsWhitespace) == []
  }

  /** A string is blank exactly when every character is horizontal
      whitespace; a newline is not, so "\n" is not blank. */
  lemma IsBlankMeaning(s: string)
    ensures IsBlank(s) <==> forall k | 0 <= k < |s| :: IsWhitespace(s[k])
    ensures !IsBlank("\n") && IsBlank("") && IsBlank(" \t")
  {
    TrimmingEmpty(s, IsWhitespace);
    TrimmingEmpty("\n", IsWhitespace);
    TrimmingEmpty(" \t", IsWhitespace);
  }

  /** `isValidPassword(minimumCount:)`: long enough once whitespace and
      newlines are trimmed from both ends. */
  predicate IsValidPassword(s: string, minimumCount: int) {
    |Trimming(s, IsWhitespaceOrNewline)| >= minimumCount
  }

  /** Only the ends are trimmed: a password is valid when its core (from the
      first to the last visible character) is long enough; a positive
      minimum rejects an all-whitespace string. */
  lemma IsValidPasswordMeaning(s: string, minimumCount: int, i: nat, j: nat)
    requires i <= j <= |s|
    requires forall k | 0 <= k < i :: IsWhitespaceOrNewline(s[k])
    requires forall k | j <= k < |s| :: IsWhitespaceOrNewline(s[k])
    requires i < j ==> !IsWhitespaceOrNewline(s[i]) && !IsWhitespaceOrNewline(s[j - 1])
    ensures IsValidPassword(s, minimumCount) <==> j - i >= minimumCount
  {
    TrimmingIsCore(s, IsWhitespaceOrNewline, i, j);
  }

  /** `hasSpecialCharacters()`: the pattern `.*[^A-Za-z0-9].*` is found, that
      is, some character is not an ASCII letter or digit. */
  predicate HasSpecialCharacters(s: string) {
    exists k | 0 <= k < |s| :: !IsAsciiAlphanumeric(s[k])
  }

  /** A string has a special character exactly when one of its parts does; a
      single character is special exactly when it is not a letter or a digit. */
  lemma HasSpecialCharactersAppend(a: string, b: string, c: char)
    ensures HasSpecialCharacters(a + b) <==> HasSpecialCharacters(a) || HasSpecialCharacters(b)
    ensures HasSpecialCharacters([c]) <==> !IsAsciiAlphanumeric(c)
    ensures !HasSpecialCharacters("")
  {
    if HasSpecialCharacters(a + b) {
      var k :| 0 <= k < |a + b| && !IsAsciiAlphanumeric((a + b)[k]);
      if k < |a| { assert a[k] == (a + b)[k]; } else { assert b[k - |a|] == (a + b)[k]; }
    }
    if HasSpecialCharacters(a) {
      var k :| 0 <= k < |a| && !IsAsciiAlphanumeric(a[k]);
      assert (a + b)[k] == a[k];
    }
    if HasSpecialCharacters(b) {
      var k :| 0 <= k < |b| && !IsAsciiAlphanumeric(b[k]);
      assert (a + b)[|a| + k] == b[k];
    }
    if !IsAsciiAlphanumeric(c) { assert [c][0] == c; }
  }

  /** `components(separatedBy: <non-digits>).joined(separator: "")`: the digits of
      `s`, in order. */
  function DigitsOnly(s: string): (r: string)
    ensures |r| <= |s|
    ensures forall k | 0 <= k < |r| :: IsAsciiDigit(r[k])
  {
    if s == [] then ""
    else (if IsAsciiDigit(s[0]) then [s[0]] else "") + DigitsOnly(s[1..])
  }

  /** Removing the non-digits works character by character: a digit is kept,
      anything else is dropped, and the pieces stay in order. */
  lemma {:induction false} DigitsOnlyAppend(a: string, b: string, c: char)
    ensures DigitsOnly(a + b) == DigitsOnly(a) + DigitsOnly(b)
    ensures DigitsOnly([c]) == if IsAsciiDigit(c) then [c] else []
  {
    if a == [] {
      assert a + b == b;
    } else {
      assert (a + b)[0] == a[0];
      assert (a + b)[1..] == a[1..] + b;
      DigitsOnlyAppend(a[1..], b, c);
    }
    assert [c][1..] == [];
  }

  lemma {:induction false} DigitsOnlyIsIdentity(s: string)
    ensures DigitsOnly(s) == s <==> forall k | 0 <= k < |s| :: IsAsciiDigit(s[k])
  {
    if s != [] {
      DigitsOnlyIsIdentity(s[1..]);
      if !IsAsciiDigit(s[0]) {
        assert |DigitsOnly(s)| < |s|;
      } else if DigitsOnly(s) == s {
        assert DigitsOnly(s[1..]) == s[1..];
        forall k | 0 <= k < |s| ensures IsAsciiDigit(s[k]) {
          if k > 0 { assert s[k] == s[1..][k - 1]; }
        }
      }
    }
  }

  /** `isValidPhone`: no special character, 9 or 10 characters, and unchanged
      when the non-digits are removed. */
  predicate IsValidPhone(s: string) {
    if HasSpecialCharacters(s) then false
    else if !(|s| == 10 || |s| == 9) then false
    else s == DigitsOnly(s)
  }

  /** A valid phone number is exactly 9 or 10 ASCII digits. */
  lemma IsValidPhoneMeaning(s: string)
    ensures IsValidPhone(s) <==> (|s| == 9 || |s| == 10) && forall k | 0 <= k < |s| :: IsAsciiDigit(s[k])
  {
    DigitsOnlyIsIdentity(s);
  }

  // ---------------------------------------------------------------- the formatters

  /** `String.insert(_:at:)` at an offset from the start. */
  function InsertAt(s: string, c: char, offset: nat): (r: string)
    requires offset <= |s|
    ensures |r| == |s| + 1 && r[offset] == c
    ensures r[..offset] == s[..offset] && r[offset + 1..] == s[offset..]
  {
    s[..offset] + [c] + s[offset..]
  }

  /** `phoneFormat`: with seven or more characters, a space after the third
      and after the sixth original character; shorter strings are returned as
      they are. */
  method PhoneFormat(s: string) returns (r: string)
    ensures |s| < 7 ==> r == s
    ensures |s| >= 7 ==> |r| == |s| + 2 && r[3] == ' ' && r[7] == ' '
    ensures |s| >= 7 ==> r[..3] == s[..3] && r[4..7] == s[3..6] && r[8..] == s[6..]
  {
    if |s| >= 7 {
      var str := s;
      str := InsertAt(str, ' ', 3);
      str := InsertAt(str, ' ', 7);
      assert str[4..7] == s[3..6] by {
        forall k | 4 <= k < 7 ensures str[k] == s[k - 1] {}
      }
      return str;
    } else {
      return s;
    }
  }

  /** `duplicateWhiteSpace(_:)`: the loop runs over `0...spacing`, so it
      yields spacing + 1 spaces; a negative spacing is a range trap. */
  method DuplicateWhiteSpace(spacing: int) returns (str: string)
    requires spacing >= 0
    ensures |str| == spacing + 1
    ensures forall k | 0 <= k < |str| :: str[k] == ' '
  {
    str := "";
    for i := 0 to spacing + 1
      invariant |str| == i
      invariant forall k | 0 <= k < |str| :: str[k] == ' '
    {
      str := str + " ";
    }
  }
}
