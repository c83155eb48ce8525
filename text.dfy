/**
 * Characters and strings as JavaScript sees them: the ASCII classes of its
 * regular expressions (`\d`, `\w`, `[a-f0-9]`), the whitespace set shared by
 * `\s` and `String.prototype.trim`, ASCII `toLowerCase`, `startsWith`,
 * `includes` and the decimal rendering of a tab id.
 */
module Text {

  predicate IsDigit(c: char) { '0' <= c <= '9' }

  predicate IsHexLower(c: char) { IsDigit(c) || 'a' <= c <= 'f' }

  predicate IsAsciiUpper(c: char) { 'A' <= c <= 'Z' }

  predicate IsAsciiLower(c: char) { 'a' <= c <= 'z' }

  predicate IsAsciiLetter(c: char) { IsAsciiUpper(c) || IsAsciiLower(c) }

  /** `\w` without the `u` flag: ASCII letters, digits and underscore only. */
  predicate IsWordChar(c: char) { IsAsciiLetter(c) || IsDigit(c) || c == '_' }

  /** ECMAScript WhiteSpace and LineTerminator: the set matched by `\s` and removed by `trim`. */
  predicate IsSpace(c: char) {
    || c == '\t' || c == '\n' || c == '\U{000B}' || c == '\U{000C}' || c == '\r' || c == ' '
    || c == '\U{00A0}' || c == '\U{1680}' || ('\U{2000}' <= c <= '\U{200A}')
    || c == '\U{2028}' || c == '\U{2029}' || c == '\U{202F}' || c == '\U{205F}'
    || c == '\U{3000}' || c == '\U{FEFF}'
  }

  predicate AllChars(s: string, cls: char -> bool) {
    forall i :: 0 <= i < |s| ==> cls(s[i])
  }

  predicate NoSpace(s: string) {
    forall i :: 0 <= i < |s| ==> !IsSpace(s[i])
  }

  function TrimStart(s: string): (r: string)
    ensures |r| <= |s|
  {
    if s != [] && IsSpace(s[0]) then TrimStart(s[1..]) else s
  }

  /** `TrimStart` drops the leading spaces and nothing else. */
  lemma {:induction false} TrimStartFacts(s: string)
    ensures var r := TrimStart(s);
      && r == s[|s| - |r|..]
      && (r == [] || !IsSpace(r[0]))
      && forall i :: 0 <= i < |s| - |r| ==> IsSpace(s[i])
  {
    if s != [] && IsSpace(s[0]) {
      TrimStartFacts(s[1..]);
    }
  }

  function TrimEnd(s: string): (r: string)
    ensures |r| <= |s|
  {
    if s != [] && IsSpace(s[|s| - 1]) then TrimEnd(s[..|s| - 1]) else s
  }

  /** `TrimEnd` drops the trailing spaces and nothing else. */
  lemma {:induction false} TrimEndFacts(s: string)
    ensures var r := TrimEnd(s);
      && r == s[..|r|]
      && (r == [] || !IsSpace(r[|r| - 1]))
      && forall i :: |r| <= i < |s| ==> IsSpace(s[i])
  {
    if s != [] && IsSpace(s[|s| - 1]) {
      TrimEndFacts(s[..|s| - 1]);
    }
  }

  /** `String.prototype.trim`. */
  function Trim(s: string): (r: string)
    ensures |r| <= |s|
  {
    TrimEnd(TrimStart(s))
  }

  /** How many leading spaces `Trim` removes. */
  function TrimOffset(s: string): nat {
    |s| - |TrimStart(s)|
  }

  /** `Trim` keeps a middle slice of `s` that starts and ends with a non-space; every removed character is a space. */
  lemma TrimFacts(s: string)
    ensures var r := Trim(s);
      && (r == [] || (!IsSpace(r[0]) && !IsSpace(r[|r| - 1])))
      && TrimOffset(s) + |r| <= |s| && r == s[TrimOffset(s)..TrimOffset(s) + |r|]
      && (forall i :: 0 <= i < TrimOffset(s) ==> IsSpace(s[i]))
      && (forall i :: TrimOffset(s) + |r| <= i < |s| ==> IsSpace(s[i]))
  {
    var t := TrimStart(s);
    TrimStartFacts(s);
    TrimEndFacts(t);
    var r := TrimEnd(t);
    assert r == s[TrimOffset(s)..TrimOffset(s) + |r|];
    forall i | TrimOffset(s) + |r| <= i < |s| ensures IsSpace(s[i]) {
      assert s[i] == t[i - TrimOffset(s)];
    }
  }

  lemma TrimNoSpace(s: string)
    requires NoSpace(s)
    ensures Trim(s) == s
  {
    TrimFacts(s);
  }

  /** Spaces around a word without spaces are exactly what `Trim` removes. */
  lemma TrimPadded(pre: string, x: string, post: string)
    requires x != [] && NoSpace(x)
    requires forall i :: 0 <= i < |pre| ==> IsSpace(pre[i])
    requires forall i :: 0 <= i < |post| ==> IsSpace(post[i])
    ensures Trim(pre + x + post) == x
  {
    var s := pre + x + post;
    TrimFacts(s);
    var r, off := Trim(s), TrimOffset(s);
    assert s[|pre|] == x[0];
    assert s[|pre| + |x| - 1] == x[|x| - 1];
    assert off == |pre|;
    assert off + |r| == |pre| + |x|;
    assert s[|pre|..|pre| + |x|] == x;
  }

  lemma TrimOfEmpty()
    ensures Trim("") == ""
  {
  }

  function LowerChar(c: char): char {
    if IsAsciiUpper(c) then (c as int + 32) as char else c
  }

  /** `String.prototype.toLowerCase` restricted to the ASCII letters. */
  function ToLower(s: string): (r: string)
    ensures |r| == |s|
    ensures forall i :: 0 <= i < |s| ==> r[i] == LowerChar(s[i])
  {
    seq(|s|, i requires 0 <= i < |s| => LowerChar(s[i]))
  }

  lemma ToLowerIdempotent(s: string)
    ensures ToLower(ToLower(s)) == ToLower(s)
  {
  }

  predicate StartsWith(s: string, prefix: string) {
    |prefix| <= |s| && s[..|prefix|] == prefix
  }

  /** `String.prototype.includes`. */
  function Contains(s: string, t: string): (b: bool)
    decreases |s|
  {
    |t| <= |s| && (s[..|t|] == t || Contains(s[1..], t))
  }

  predicate OccursAt(s: string, t: string, i: int) {
    0 <= i && i + |t| <= |s| && s[i..i + |t|] == t
  }

  lemma {:induction false} ContainsIff(s: string, t: string)
    ensures Contains(s, t) <==> exists i :: OccursAt(s, t, i)
    decreases |s|
  {
    if |t| <= |s| {
      if s[..|t|] == t {
        assert OccursAt(s, t, 0);
      } else {
        ContainsIff(s[1..], t);
        forall i | OccursAt(s, t, i) && i > 0 ensures OccursAt(s[1..], t, i - 1) {
          assert s[1..][i - 1..i - 1 + |t|] == s[i..i + |t|];
        }
        forall i | OccursAt(s[1..], t, i) ensures OccursAt(s, t, i + 1) {
          assert s[1..][i..i + |t|] == s[i + 1..i + 1 + |t|];
        }
      }
    }
  }

  /** A string in which the first character of `t` never occurs does not contain `t`. */
  lemma NotContainsWithoutFirstChar(s: string, t: string)
    requires |t| > 0 && forall i :: 0 <= i < |s| ==> s[i] != t[0]
    ensures !Contains(s, t)
  {
    ContainsIff(s, t);
    forall i | 0 <= i && i + |t| <= |s| ensures !OccursAt(s, t, i) {
      assert s[i..i + |t|][0] == s[i];
    }
  }

  function DigitChar(d: nat): char
    requires d < 10
  {
    ('0' as int + d) as char
  }

  /** The decimal text of `n`, as a template literal renders a tab id. */
  function NatToString(n: nat): (r: string)
    ensures |r| >= 1 && AllChars(r, IsDigit)
    ensures n >= 10 ==> |r| >= 2
  {
    if n < 10 then [DigitChar(n)] else NatToString(n / 10) + [DigitChar(n % 10)]
  }

  lemma {:induction false} NatToStringInjective(a: nat, b: nat)
    requires NatToString(a) == NatToString(b)
    ensures a == b
  {
    var sa, sb := NatToString(a), NatToString(b);
    if a < 10 || b < 10 {
      assert |sa| == 1 && |sb| == 1;
      assert sa[0] == sb[0];
    } else {
      assert sa[|sa| - 1] == sb[|sb| - 1];
      assert a % 10 == b % 10;
      assert NatToString(a / 10) == sa[..|sa| - 1] == sb[..|sb| - 1] == NatToString(b / 10);
      NatToStringInjective(a / 10, b / 10);
    }
  }
}
