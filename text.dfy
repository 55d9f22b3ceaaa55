/**
 * The string operations the import pipeline relies on, as JavaScript defines them:
 * String.prototype.trim, toLowerCase (on ASCII letters), split on one character,
 * Array.prototype.join, and the decimal rendering of integers in template literals.
 */
module Text {

  /** The WhiteSpace and LineTerminator code points of ECMAScript, which trim removes. */
  predicate IsWhite(c: char) {
    || '\U{0009}' <= c <= '\U{000D}' || c == '\U{0020}' || c == '\U{00A0}' || c == '\U{1680}'
    || '\U{2000}' <= c <= '\U{200A}' || c == '\U{2028}' || c == '\U{2029}' || c == '\U{202F}'
    || c == '\U{205F}' || c == '\U{3000}' || c == '\U{FEFF}'
  }

  predicate IsBlank(s: string) {
    forall i :: 0 <= i < |s| ==> IsWhite(s[i])
  }

  /** The number of white-space characters s begins with. */
  function LeadingWhite(s: string): (n: nat)
    ensures n <= |s|
    decreases |s|
  {
    if |s| > 0 && IsWhite(s[0]) then 1 + LeadingWhite(s[1..]) else 0
  }

  /** The number of white-space characters s ends with. */
  function TrailingWhite(s: string): (n: nat)
    ensures n <= |s|
    decreases |s|
  {
    if |s| > 0 && IsWhite(s[|s| - 1]) then 1 + TrailingWhite(s[..|s| - 1]) else 0
  }

  /** The leading count covers white space only and stops at the first other character. */
  lemma {:induction false} LeadingWhiteFacts(s: string)
    ensures forall i :: 0 <= i < LeadingWhite(s) ==> IsWhite(s[i])
    ensures LeadingWhite(s) < |s| ==> !IsWhite(s[LeadingWhite(s)])
    decreases |s|
  {
    if |s| > 0 && IsWhite(s[0]) {
      LeadingWhiteFacts(s[1..]);
    }
  }

  /** The trailing count covers white space only and stops at the last other character. */
  lemma {:induction false} TrailingWhiteFacts(s: string)
    ensures forall i :: |s| - TrailingWhite(s) <= i < |s| ==> IsWhite(s[i])
    ensures TrailingWhite(s) < |s| ==> !IsWhite(s[|s| - 1 - TrailingWhite(s)])
    decreases |s|
  {
    if |s| > 0 && IsWhite(s[|s| - 1]) {
      TrailingWhiteFacts(s[..|s| - 1]);
    }
  }

  /** String.prototype.trim: s from its first to its last character that is not white,
      or empty when there is none. */
  function Trim(s: string): (r: string)
    ensures |r| <= |s|
  {
    var a := LeadingWhite(s);
    var b := TrailingWhite(s);
    if a < |s| - b then s[a..|s| - b] else ""
  }

  /** What trim promises: the result is empty exactly when s is all white space, and
      otherwise begins and ends with a character that is not white. */
  lemma TrimShape(s: string)
    ensures |Trim(s)| == 0 <==> IsBlank(s)
    ensures |Trim(s)| > 0 ==> !IsWhite(Trim(s)[0]) && !IsWhite(Trim(s)[|Trim(s)| - 1])
  {
    var a, b := LeadingWhite(s), TrailingWhite(s);
    if a < |s| - b {
      TrimKept(s, a, b);
    } else {
      TrimDropped(s, a, b);
    }
  }

  /** What trim keeps: s is its leading white space, then the trimmed text, then its
      trailing white space; a string of white space only trims to the empty string. */
  lemma TrimContent(s: string)
    ensures IsBlank(s) ==> Trim(s) == ""
    ensures !IsBlank(s) ==>
      var a, b := LeadingWhite(s), TrailingWhite(s);
      && a + b < |s|
      && s == s[..a] + Trim(s) + s[|s| - b..]
      && IsBlank(s[..a]) && IsBlank(s[|s| - b..])
  {
    var a, b := LeadingWhite(s), TrailingWhite(s);
    if a < |s| - b {
      TrimKept(s, a, b);
      SliceParts(s, a, |s| - b);
      LeadingIsWhite(s);
      TrailingIsWhite(s);
    } else {
      TrimDropped(s, a, b);
    }
  }

  lemma SliceParts(s: string, i: nat, j: nat)
    requires i <= j <= |s|
    ensures s == s[..i] + s[i..j] + s[j..]
  {
  }

  lemma LeadingIsWhite(s: string)
    ensures IsBlank(s[..LeadingWhite(s)])
  {
    LeadingWhiteFacts(s);
    WhiteSlice(s, 0, LeadingWhite(s));
  }

  lemma TrailingIsWhite(s: string)
    ensures IsBlank(s[|s| - TrailingWhite(s)..])
  {
    TrailingWhiteFacts(s);
    WhiteSlice(s, |s| - TrailingWhite(s), |s|);
  }

  /** A stretch of white-space characters is blank text. */
  lemma WhiteSlice(s: string, i: nat, j: nat)
    requires i <= j <= |s|
    requires forall k :: i <= k < j ==> IsWhite(s[k])
    ensures IsBlank(s[i..j])
  {
    var q := s[i..j];
    forall k | 0 <= k < |q| ensures IsWhite(q[k]) {
      assert q[k] == s[i + k];
    }
  }

  lemma TrimKept(s: string, a: nat, b: nat)
    requires a == LeadingWhite(s) && b == TrailingWhite(s) && a < |s| - b
    ensures !IsBlank(s)
    ensures !IsWhite(s[a]) && !IsWhite(s[|s| - 1 - b])
  {
    LeadingWhiteFacts(s);
    TrailingWhiteFacts(s);
  }

  lemma TrimDropped(s: string, a: nat, b: nat)
    requires a == LeadingWhite(s) && b == TrailingWhite(s) && a >= |s| - b
    ensures IsBlank(s)
  {
    LeadingWhiteFacts(s);
    TrailingWhiteFacts(s);
    forall i | 0 <= i < |s| ensures IsWhite(s[i]) {
      assert i < a || |s| - b <= i;
    }
  }

  lemma TrimIdempotent(s: string)
    ensures Trim(Trim(s)) == Trim(s)
  {
    var r := Trim(s);
    TrimShape(s);
    if |r| > 0 {
      assert LeadingWhite(r) == 0;
      assert TrailingWhite(r) == 0;
      assert r[0..|r|] == r;
    }
  }

  /** String.prototype.toLowerCase on the letters A to Z. */
  function LowerChar(c: char): (d: char)
    ensures 'A' <= c <= 'Z' ==> d as int == c as int + 32
    ensures !('A' <= c <= 'Z') ==> d == c
  {
    if 'A' <= c <= 'Z' then (c as int + 32) as char else c
  }

  function Lower(s: string): (r: string)
    ensures |r| == |s| && forall i :: 0 <= i < |s| ==> r[i] == LowerChar(s[i])
  {
    if |s| == 0 then [] else [LowerChar(s[0])] + Lower(s[1..])
  }

  /** String.prototype.split with a one-character separator: one piece more than there
      are separators, and no piece contains the separator. */
  function Split(s: string, sep: char): (parts: seq<string>)
    ensures |parts| == 1 + multiset(s)[sep]
    ensures forall k :: 0 <= k < |parts| ==> sep !in parts[k]
    decreases |s|
  {
    if |s| == 0 then [""]
    else
      assert s == [s[0]] + s[1..];
      var rest := Split(s[1..], sep);
      if s[0] == sep then [""] + rest
      else [[s[0]] + rest[0]] + rest[1..]
  }

  /** Array.prototype.join. */
  function Join(parts: seq<string>, glue: string): string
    decreases |parts|
  {
    if |parts| == 0 then ""
    else if |parts| == 1 then parts[0]
    else parts[0] + glue + Join(parts[1..], glue)
  }

  /** Prefixing a character to the first piece prefixes it to the joined string. */
  lemma JoinConsFirst(c: char, parts: seq<string>, glue: string)
    requires |parts| >= 1
    ensures Join([[c] + parts[0]] + parts[1..], glue) == [c] + Join(parts, glue)
  {
    var moved := [[c] + parts[0]] + parts[1..];
    if |parts| > 1 {
      assert moved[1..] == parts[1..];
    }
  }

  /** Joining the pieces of a split with the separator gives back the original string. */
  lemma {:induction false} JoinSplit(s: string, sep: char)
    ensures Join(Split(s, sep), [sep]) == s
    decreases |s|
  {
    if |s| > 0 {
      JoinSplit(s[1..], sep);
      var rest := Split(s[1..], sep);
      assert s == [s[0]] + s[1..];
      if s[0] == sep {
        var parts := [""] + rest;
        assert Split(s, sep) == parts;
        assert parts[1..] == rest;
        assert Join(parts, [sep]) == "" + [sep] + Join(rest, [sep]);
      } else {
        assert Split(s, sep) == [[s[0]] + rest[0]] + rest[1..];
        JoinConsFirst(s[0], rest, [sep]);
      }
    }
  }

  /** Each piece trimmed, as `.map(url => url.trim())` does. */
  function TrimAll(parts: seq<string>): (r: seq<string>)
    ensures |r| == |parts| && forall k :: 0 <= k < |parts| ==> r[k] == Trim(parts[k])
  {
    seq(|parts|, k requires 0 <= k < |parts| => Trim(parts[k]))
  }

  function DigitChar(d: nat): char
    requires d < 10
  {
    (d + '0' as int) as char
  }

  predicate IsDigit(c: char) {
    '0' as int <= c as int <= '9' as int
  }

  /** The decimal rendering of a natural number, as a template literal writes it. */
  function NatText(n: nat): (r: string)
    ensures |r| >= 1
    decreases n
  {
    if n < 10 then [DigitChar(n)] else NatText(n / 10) + [DigitChar(n % 10)]
  }

  /** The rendering consists of digits and has no leading zero. */
  lemma {:induction false} NatTextDigits(n: nat)
    ensures forall i :: 0 <= i < |NatText(n)| ==> IsDigit(NatText(n)[i])
    ensures NatText(n)[0] == '0' ==> n == 0
    decreases n
  {
    if n >= 10 {
      NatTextDigits(n / 10);
      assert NatText(n)[0] == NatText(n / 10)[0];
    }
  }

  /** The decimal rendering of an integer, with a leading minus sign when negative. */
  function IntText(n: int): string {
    if n < 0 then "-" + NatText(-n) else NatText(n)
  }

  /** The number a string of decimal digits denotes. */
  function DigitsValue(s: string): nat
    requires forall i :: 0 <= i < |s| ==> IsDigit(s[i])
    decreases |s|
  {
    if |s| == 0 then 0
    else
      assert IsDigit(s[|s| - 1]);
      DigitsValue(s[..|s| - 1]) * 10 + (s[|s| - 1] as int - '0' as int)
  }

  /** Reading back the decimal rendering of n gives n, so distinct numbers render differently. */
  lemma {:induction false} NatTextRoundTrip(n: nat)
    ensures (NatTextDigits(n); DigitsValue(NatText(n))) == n
    decreases n
  {
    NatTextDigits(n);
    if n >= 10 {
      NatTextRoundTrip(n / 10);
      var s := NatText(n);
      assert s[..|s| - 1] == NatText(n / 10);
    }
  }

  lemma NatTextInjective(a: nat, b: nat)
    ensures NatText(a) == NatText(b) ==> a == b
  {
    NatTextRoundTrip(a);
    NatTextRoundTrip(b);
  }
}
