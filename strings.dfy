/**
 * The Python string methods the cleaning code applies to column labels and to
 * categorical values: strip() without arguments, lower() and replace(' ', '_').
 */
module Strings {

  /** str.isspace(): exactly the characters str.strip() removes by default. */
  predicate IsSpace(ch: char)
  {
    || '\t' <= ch <= '\r'
    || '\U{1C}' <= ch <= ' '
    || ch == '\U{85}' || ch == '\U{A0}' || ch == '\U{1680}'
    || '\U{2000}' <= ch <= '\U{200A}'
    || ch == '\U{2028}' || ch == '\U{2029}' || ch == '\U{202F}' || ch == '\U{205F}' || ch == '\U{3000}'
  }

  predicate IsUpper(ch: char)
  {
    'A' <= ch <= 'Z'
  }

  /** str.lower() on one character; only the ASCII letters are mapped. */
  function LowerChar(ch: char): char
  {
    if IsUpper(ch) then (ch as int - 'A' as int + 'a' as int) as char else ch
  }

  function Lower(s: string): string
  {
    seq(|s|, i requires 0 <= i < |s| => LowerChar(s[i]))
  }

  /** str.replace(' ', '_') */
  function ReplaceSpaces(s: string): string
  {
    seq(|s|, i requires 0 <= i < |s| => if s[i] == ' ' then '_' else s[i])
  }

  function StripLeft(s: string): string
    decreases |s|
  {
    if s != [] && IsSpace(s[0]) then StripLeft(s[1..]) else s
  }

  function StripRight(s: string): string
    decreases |s|
  {
    if s != [] && IsSpace(s[|s| - 1]) then StripRight(s[..|s| - 1]) else s
  }

  /** str.strip() */
  function Strip(s: string): string
  {
    StripRight(StripLeft(s))
  }

  /** Neither the first nor the last character is whitespace. */
  predicate Trimmed(s: string)
  {
    s != [] ==> !IsSpace(s[0]) && !IsSpace(s[|s| - 1])
  }

  predicate NoUpper(s: string)
  {
    forall i :: 0 <= i < |s| ==> !IsUpper(s[i])
  }

  predicate NoBlank(s: string)
  {
    forall i :: 0 <= i < |s| ==> s[i] != ' '
  }

  /** The index where the leading run of whitespace ends. */
  lemma {:induction false} StripLeftIsSuffix(s: string) returns (i: nat)
    ensures i <= |s| && StripLeft(s) == s[i..]
    ensures forall k :: 0 <= k < i ==> IsSpace(s[k])
    ensures i < |s| ==> !IsSpace(s[i])
    decreases |s|
  {
    if s != [] && IsSpace(s[0]) {
      var i' := StripLeftIsSuffix(s[1..]);
      i := i' + 1;
      assert s[1..][i'..] == s[i..];
      forall k | 0 <= k < i ensures IsSpace(s[k]) {
        if k > 0 { assert s[k] == s[1..][k - 1]; }
      }
    } else {
      i := 0;
    }
  }

  /** The index where the trailing run of whitespace starts. */
  lemma {:induction false} StripRightIsPrefix(s: string) returns (j: nat)
    ensures j <= |s| && StripRight(s) == s[..j]
    ensures forall k :: j <= k < |s| ==> IsSpace(s[k])
    ensures j > 0 ==> !IsSpace(s[j - 1])
    decreases |s|
  {
    if s != [] && IsSpace(s[|s| - 1]) {
      var t := s[..|s| - 1];
      j := StripRightIsPrefix(t);
      assert t[..j] == s[..j];
    } else {
      j := |s|;
    }
  }

  /**
   * strip() keeps exactly the infix between the leading and the trailing run
   * of whitespace, and what it keeps neither starts nor ends with whitespace.
   */
  lemma StripIsTrimmedInfix(s: string)
    ensures exists i, j :: 0 <= i <= j <= |s| && Strip(s) == s[i..j]
                        && (forall k :: 0 <= k < i ==> IsSpace(s[k]))
                        && (forall k :: j <= k < |s| ==> IsSpace(s[k]))
    ensures Trimmed(Strip(s))
  {
    var i := StripLeftIsSuffix(s);
    var t := s[i..];
    var j := StripRightIsPrefix(t);
    assert Strip(s) == s[i..i + j];
    forall k | i + j <= k < |s| ensures IsSpace(s[k]) {
      assert s[k] == t[k - i];
    }
    if j > 0 {
      assert Strip(s)[0] == s[i] && Strip(s)[j - 1] == t[j - 1];
    }
  }

  /** strip() leaves a string that is already trimmed as it is. */
  lemma StripTrimmed(s: string)
    requires Trimmed(s)
    ensures Strip(s) == s
  {
    assert StripLeft(s) == s;
  }

  lemma LowerProperties(s: string)
    ensures |Lower(s)| == |s| && NoUpper(Lower(s))
    ensures Trimmed(s) ==> Trimmed(Lower(s))
    ensures NoBlank(s) ==> NoBlank(Lower(s))
    ensures NoUpper(s) ==> Lower(s) == s
  {
  }

  lemma ReplaceSpacesProperties(s: string)
    ensures |ReplaceSpaces(s)| == |s| && NoBlank(ReplaceSpaces(s))
    ensures Trimmed(s) ==> Trimmed(ReplaceSpaces(s))
    ensures NoUpper(s) ==> NoUpper(ReplaceSpaces(s))
    ensures NoBlank(s) ==> ReplaceSpaces(s) == s
  {
  }
}
