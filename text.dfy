/**
 * The string setters the schemas declare: `trim` (JavaScript String.prototype.trim)
 * and `lowercase` (String.prototype.toLowerCase, ASCII letters only).
 *
 * The functions carry only length facts; what they cut or map is stated by the lemmas
 * next to them, so that proofs about the documents do not pay for it.
 */
module Text {

  /** WhiteSpace and LineTerminator code points as ECMAScript's trim removes them. */
  predicate IsWhitespace(c: char) {
    || c == '\t' || c == '\n' || c == '\U{B}' || c == '\U{C}' || c == '\r' || c == ' '
    || c == '\U{A0}' || c == '\U{1680}' || ('\U{2000}' <= c <= '\U{200A}')
    || c == '\U{2028}' || c == '\U{2029}' || c == '\U{202F}' || c == '\U{205F}'
    || c == '\U{3000}' || c == '\U{FEFF}'
  }

  /** Number of whitespace characters at the front of `s`. */
  function LeadingSpace(s: string): (k: nat)
    ensures k <= |s|
  {
    if |s| > 0 && IsWhitespace(s[0]) then 1 + LeadingSpace(s[1..]) else 0
  }

  /** What LeadingSpace counts is whitespace, and the character after it is not. */
  lemma {:induction false} LeadingSpaceIsWhitespace(s: string)
    ensures forall i :: 0 <= i < LeadingSpace(s) ==> IsWhitespace(s[i])
    ensures LeadingSpace(s) == |s| || !IsWhitespace(s[LeadingSpace(s)])
  {
    if |s| > 0 && IsWhitespace(s[0]) {
      LeadingSpaceIsWhitespace(s[1..]);
      forall i | 1 <= i < LeadingSpace(s) ensures IsWhitespace(s[i]) {
        assert s[i] == s[1..][i - 1];
      }
      if LeadingSpace(s) < |s| {
        assert s[LeadingSpace(s)] == s[1..][LeadingSpace(s[1..])];
      }
    }
  }

  /** Number of whitespace characters at the back of `s`. */
  function TrailingSpace(s: string): (k: nat)
    ensures k <= |s|
  {
    if |s| > 0 && IsWhitespace(s[|s| - 1]) then 1 + TrailingSpace(s[..|s| - 1]) else 0
  }

  /** What TrailingSpace counts is whitespace, and the character before it is not. */
  lemma {:induction false} TrailingSpaceIsWhitespace(s: string)
    ensures forall i :: |s| - TrailingSpace(s) <= i < |s| ==> IsWhitespace(s[i])
    ensures TrailingSpace(s) == |s| || !IsWhitespace(s[|s| - 1 - TrailingSpace(s)])
  {
    if |s| > 0 && IsWhitespace(s[|s| - 1]) {
      var front := s[..|s| - 1];
      TrailingSpaceIsWhitespace(front);
      forall i | |s| - TrailingSpace(s) <= i < |s| - 1 ensures IsWhitespace(s[i]) {
        assert s[i] == front[i];
      }
      if TrailingSpace(s) < |s| {
        assert s[|s| - 1 - TrailingSpace(s)] == front[|front| - 1 - TrailingSpace(front)];
      }
    }
  }

  /** `s.trim()`: the slice of `s` between its leading and its trailing whitespace. */
  function Trim(s: string): (r: string)
    ensures |r| <= |s|
  {
    var k := LeadingSpace(s);
    s[k..|s| - TrailingSpace(s[k..])]
  }

  /**
   * Trim cuts whitespace only, and all of it at both ends: what it keeps is a slice of the
   * input, everything before and after that slice is whitespace, and the slice neither
   * starts nor ends with whitespace.
   */
  lemma {:induction false} TrimSpec(s: string)
    ensures LeadingSpace(s) + |Trim(s)| <= |s|
    ensures Trim(s) == s[LeadingSpace(s)..LeadingSpace(s) + |Trim(s)|]
    ensures forall i :: 0 <= i < LeadingSpace(s) ==> IsWhitespace(s[i])
    ensures forall i :: LeadingSpace(s) + |Trim(s)| <= i < |s| ==> IsWhitespace(s[i])
    ensures Trim(s) == [] || (!IsWhitespace(Trim(s)[0]) && !IsWhitespace(Trim(s)[|Trim(s)| - 1]))
  {
    var k := LeadingSpace(s);
    var t := s[k..];
    var j := TrailingSpace(t);
    LeadingSpaceIsWhitespace(s);
    TrailingSpaceIsWhitespace(t);
    forall i | k + |Trim(s)| <= i < |s| ensures IsWhitespace(s[i]) {
      assert s[i] == t[i - k];
    }
    if Trim(s) != [] {
      assert Trim(s)[0] == s[k];
      assert Trim(s)[|Trim(s)| - 1] == t[|t| - 1 - j];
    }
  }

  /** Trimming an already trimmed string changes nothing. */
  lemma {:induction false} TrimIdempotent(s: string)
    ensures Trim(Trim(s)) == Trim(s)
  {
    var r := Trim(s);
    TrimSpec(s);
    assert LeadingSpace(r) == 0;
    assert r[0..] == r;
    assert TrailingSpace(r) == 0;
  }

  /** A string holding a character that is not whitespace does not trim to empty. */
  lemma {:induction false} TrimKeepsNonWhitespace(s: string, i: nat)
    requires i < |s| && !IsWhitespace(s[i])
    ensures Trim(s) != []
  {
    TrimSpec(s);
  }

  /** ASCII case mapping of one character; other characters are kept. */
  function LowerChar(c: char): char {
    if 'A' <= c <= 'Z' then (c as int - 'A' as int + 'a' as int) as char else c
  }

  /** `s.toLowerCase()` restricted to ASCII letters, character by character. */
  function Lowercase(s: string): (r: string)
    ensures |r| == |s|
  {
    seq(|s|, i requires 0 <= i < |s| => LowerChar(s[i]))
  }

  /** Lower-casing maps each upper-case ASCII letter to its lower-case letter, 32 code points
      further on, leaves no upper-case ASCII letter and changes nothing else. */
  lemma LowercaseSpec(s: string)
    ensures forall i :: 0 <= i < |s| ==> !('A' <= Lowercase(s)[i] <= 'Z')
    ensures forall i :: 0 <= i < |s| && 'A' <= s[i] <= 'Z' ==> Lowercase(s)[i] as int == s[i] as int + 32
    ensures forall i :: 0 <= i < |s| ==> (Lowercase(s)[i] == s[i] || 'A' <= s[i] <= 'Z')
  {
  }

  /** A string without upper-case ASCII letters is its own lower case. */
  lemma LowercaseOfLower(s: string)
    requires forall i :: 0 <= i < |s| ==> !('A' <= s[i] <= 'Z')
    ensures Lowercase(s) == s
  {
  }

  /** Case mapping never creates nor removes whitespace. */
  lemma LowerCharKeepsWhitespace(c: char)
    ensures IsWhitespace(LowerChar(c)) == IsWhitespace(c)
  {
  }

  /** The order in which the `lowercase` and `trim` setters run does not matter. */
  lemma {:induction false} LowercaseTrimCommute(s: string)
    ensures Lowercase(Trim(s)) == Trim(Lowercase(s))
  {
    var k := LeadingSpace(s);
    var j := TrailingSpace(s[k..]);
    assert Trim(s) == s[k..|s| - j];
    TrimOfLowercase(s);
    LowercaseSlice(s, k, |s| - j);
  }

  /** Lower-casing first changes neither the leading nor the trailing whitespace that trim cuts. */
  lemma {:induction false} TrimOfLowercase(s: string)
    ensures LeadingSpace(s) + TrailingSpace(s[LeadingSpace(s)..]) <= |s|
    ensures Trim(Lowercase(s)) == Lowercase(s)[LeadingSpace(s)..|s| - TrailingSpace(s[LeadingSpace(s)..])]
  {
    LeadingSpaceOfLowercase(s);
    TrailingSpaceAfterLeadingOfLowercase(s);
  }

  lemma {:induction false} TrailingSpaceAfterLeadingOfLowercase(s: string)
    ensures TrailingSpace(Lowercase(s)[LeadingSpace(s)..]) == TrailingSpace(s[LeadingSpace(s)..])
  {
    var k := LeadingSpace(s);
    LowercaseSlice(s, k, |s|);
    assert Lowercase(s)[k..] == Lowercase(s)[k..|s|] && s[k..] == s[k..|s|];
    TrailingSpaceOfLowercase(s[k..]);
  }

  /** Case mapping works character by character, so it commutes with slicing. */
  lemma {:induction false} LowercaseSlice(s: string, a: nat, b: nat)
    requires a <= b <= |s|
    ensures Lowercase(s)[a..b] == Lowercase(s[a..b])
  {
  }

  lemma {:induction false} LeadingSpaceOfLowercase(s: string)
    ensures LeadingSpace(Lowercase(s)) == LeadingSpace(s)
  {
    if |s| > 0 {
      LowerCharKeepsWhitespace(s[0]);
      if IsWhitespace(s[0]) {
        assert Lowercase(s)[1..] == Lowercase(s[1..]);
        LeadingSpaceOfLowercase(s[1..]);
      }
    }
  }

  lemma {:induction false} TrailingSpaceOfLowercase(s: string)
    ensures TrailingSpace(Lowercase(s)) == TrailingSpace(s)
  {
    if |s| > 0 {
      LowerCharKeepsWhitespace(s[|s| - 1]);
      if IsWhitespace(s[|s| - 1]) {
        assert Lowercase(s)[..|s| - 1] == Lowercase(s[..|s| - 1]);
        TrailingSpaceOfLowercase(s[..|s| - 1]);
      }
    }
  }
}
