/** String helpers shared by every part of the kernel: the .NET string
    operations the C# code relies on (ordinal Replace, Contains, StartsWith,
    Join, TrimEnd, TrimStart), decimal rendering of integers, and the
    character classes of char.IsWhiteSpace and char.IsDigit. */
module Text {

  /** char.IsWhiteSpace: the Unicode space separators, the line and paragraph
      separators, and U+0009..U+000D, U+0085, U+00A0. */
  predicate IsWhiteSpace(c: char) {
    c == ' ' || ('\t' <= c <= '\r') || c == '\U{0085}' || c == '\U{00A0}'
    || c == '\U{1680}' || ('\U{2000}' <= c <= '\U{200A}') || c == '\U{2028}'
    || c == '\U{2029}' || c == '\U{202F}' || c == '\U{205F}' || c == '\U{3000}'
  }

  /** string.IsNullOrWhiteSpace of a non-null string. */
  predicate IsBlank(s: string) {
    forall k :: 0 <= k < |s| ==> IsWhiteSpace(s[k])
  }

  /** The ASCII letters A–Z in lower case; every other character is kept.
      This is the comparison the case-ignoring lookups make on ASCII
      names. */
  function LowerAscii(s: string): (r: string)
    ensures |r| == |s|
    ensures forall k :: 0 <= k < |r| ==> !('A' <= r[k] <= 'Z')
  {
    seq(|s|, k requires 0 <= k < |s| => if 'A' <= s[k] <= 'Z' then (s[k] as int + 32) as char else s[k])
  }

  /** Each uppercase ASCII letter becomes the letter at the same place of
      the lowercase alphabet, and every other character is kept. */
  lemma LowerAsciiLetters(s: string)
    ensures forall k :: 0 <= k < |s| && 'A' <= s[k] <= 'Z' ==>
              LowerAscii(s)[k] == "abcdefghijklmnopqrstuvwxyz"[s[k] as int - 'A' as int]
    ensures forall k :: 0 <= k < |s| && !('A' <= s[k] <= 'Z') ==> LowerAscii(s)[k] == s[k]
  {
    forall k | 0 <= k < |s| && 'A' <= s[k] <= 'Z'
      ensures LowerAscii(s)[k] == "abcdefghijklmnopqrstuvwxyz"[s[k] as int - 'A' as int]
    {
      var d := s[k] as int - 'A' as int;
      assert 0 <= d < 26;
    }
  }

  /** The ASCII digits '0'..'9', the only digits Int32.TryParse and
      integer formatting use. */
  predicate IsAsciiDigit(c: char) {
    '0' <= c <= '9'
  }

  /** char.IsDigit: the Unicode decimal digits (category Nd) that fit in
      one UTF-16 code unit: the ASCII digits and the non-ASCII blocks of
      `OtherDigit`. A character outside the Basic Multilingual Plane is a
      surrogate pair in a .NET string, and no surrogate is a digit. */
  predicate IsDigit(c: char) {
    if c < '\U{0080}' then IsAsciiDigit(c) else OtherDigit(c as int)
  }

  /** The non-ASCII blocks of ten decimal digits in the Basic Multilingual
      Plane, each given by its first code point. */
  predicate OtherDigit(n: int) {
    InBlock(n, 0x0660) || InBlock(n, 0x06F0) || InBlock(n, 0x07C0) || InBlock(n, 0x0966)
    || InBlock(n, 0x09E6) || InBlock(n, 0x0A66) || InBlock(n, 0x0AE6) || InBlock(n, 0x0B66)
    || InBlock(n, 0x0BE6) || InBlock(n, 0x0C66) || InBlock(n, 0x0CE6) || InBlock(n, 0x0D66)
    || InBlock(n, 0x0DE6) || InBlock(n, 0x0E50) || InBlock(n, 0x0ED0) || InBlock(n, 0x0F20)
    || InBlock(n, 0x1040) || InBlock(n, 0x1090) || InBlock(n, 0x17E0) || InBlock(n, 0x1810)
    || InBlock(n, 0x1946) || InBlock(n, 0x19D0) || InBlock(n, 0x1A80) || InBlock(n, 0x1A90)
    || InBlock(n, 0x1B50) || InBlock(n, 0x1BB0) || InBlock(n, 0x1C40) || InBlock(n, 0x1C50)
    || InBlock(n, 0xA620) || InBlock(n, 0xA8D0) || InBlock(n, 0xA900) || InBlock(n, 0xA9D0)
    || InBlock(n, 0xA9F0) || InBlock(n, 0xAA50) || InBlock(n, 0xABF0) || InBlock(n, 0xFF10)
  }

  /** `n` is one of the ten code points from `start`. */
  predicate InBlock(n: int, start: int) {
    start <= n < start + 10
  }

  /** Every ASCII digit is a digit and no other ASCII character is; the
      Arabic-Indic, Devanagari and fullwidth digits are digits too. */
  lemma DigitClass(c: char)
    ensures c < '\U{0080}' ==> (IsDigit(c) <==> IsAsciiDigit(c))
    ensures IsDigit('\U{0663}') && IsDigit('\U{096B}') && IsDigit('\U{FF15}')
  {
  }

  /** `pat` occurs in `s` starting at position `i`. */
  predicate OccursAt(s: string, pat: string, i: nat) {
    i + |pat| <= |s| && s[i..i + |pat|] == pat
  }

  /** String.Contains with ordinal comparison. */
  predicate Contains(s: string, pat: string) {
    exists i: nat :: i <= |s| && OccursAt(s, pat, i)
  }

  /** String.StartsWith. */
  predicate StartsWith(s: string, prefix: string) {
    |prefix| <= |s| && s[..|prefix|] == prefix
  }

  /** String.Replace(pat, rep) with ordinal comparison: every occurrence of
      the non-empty `pat`, found left to right without overlap, becomes `rep`. */
  function Replace(s: string, pat: string, rep: string): string
    requires |pat| > 0
    decreases |s|
  {
    if |s| < |pat| then s
    else if s[..|pat|] == pat then rep + Replace(s[|pat|..], pat, rep)
    else [s[0]] + Replace(s[1..], pat, rep)
  }

  /** Replacing a pattern that does not occur leaves the string unchanged. */
  lemma {:induction false} ReplaceAbsent(s: string, pat: string, rep: string)
    requires |pat| > 0
    requires !Contains(s, pat)
    ensures Replace(s, pat, rep) == s
    decreases |s|
  {
    if |s| >= |pat| {
      assert !OccursAt(s, pat, 0);
      assert s[..|pat|] != pat;
      if !Contains(s[1..], pat) {
        ReplaceAbsent(s[1..], pat, rep);
        assert [s[0]] + s[1..] == s;
      } else {
        var i: nat :| i <= |s[1..]| && OccursAt(s[1..], pat, i);
        assert s[1..][i..i + |pat|] == s[i + 1..i + 1 + |pat|];
        assert OccursAt(s, pat, i + 1);
        assert false;
      }
    }
  }

  /** A pattern whose first character does not occur in `s` cannot occur in `s`. */
  lemma AbsentChar(s: string, pat: string)
    requires |pat| > 0
    requires forall k :: 0 <= k < |s| ==> s[k] != pat[0]
    ensures !Contains(s, pat)
  {
    forall i: nat | i <= |s|
      ensures !OccursAt(s, pat, i)
    {
      if i + |pat| <= |s| {
        assert s[i..i + |pat|][0] == s[i];
      }
    }
  }

  /** A one-character pattern occurs iff the character does. */
  lemma ContainsChar(s: string, c: char)
    ensures Contains(s, [c]) <==> c in s
  {
    if c in s {
      var i :| 0 <= i < |s| && s[i] == c;
      assert OccursAt(s, [c], i);
    }
    if Contains(s, [c]) {
      var i: nat :| i <= |s| && OccursAt(s, [c], i);
      assert s[i..i + 1][0] == s[i];
    }
  }

  /** A two-character pattern that does not occur is never two adjacent characters. */
  lemma PairAbsent(s: string, a: char, b: char)
    requires !Contains(s, [a, b])
    ensures forall i :: 0 <= i < |s| - 1 ==> !(s[i] == a && s[i + 1] == b)
  {
    forall i | 0 <= i < |s| - 1
      ensures !(s[i] == a && s[i + 1] == b)
    {
      assert !OccursAt(s, [a, b], i);
      assert s[i..i + 2][0] == s[i] && s[i..i + 2][1] == s[i + 1];
    }
  }

  /** Conversely, no two adjacent characters form the pattern: it does not occur. */
  lemma PairNowhere(s: string, a: char, b: char)
    requires forall i :: 0 <= i < |s| - 1 ==> !(s[i] == a && s[i + 1] == b)
    ensures !Contains(s, [a, b])
  {
    forall i: nat | i <= |s|
      ensures !OccursAt(s, [a, b], i)
    {
      if i + 2 <= |s| {
        assert s[i..i + 2][0] == s[i] && s[i..i + 2][1] == s[i + 1];
      }
    }
  }

  /** One character replaced by a string, everywhere. */
  function Subst(s: string, a: char, r: string): string
    decreases |s|
  {
    if s == [] then [] else (if s[0] == a then r else [s[0]]) + Subst(s[1..], a, r)
  }

  lemma {:induction false} SubstAppend(x: string, y: string, a: char, r: string)
    ensures Subst(x + y, a, r) == Subst(x, a, r) + Subst(y, a, r)
    decreases |x|
  {
    if x != [] {
      assert (x + y)[1..] == x[1..] + y;
      SubstAppend(x[1..], y, a, r);
    } else {
      assert x + y == y;
    }
  }

  /** Replace with a one-character pattern is Subst. */
  lemma {:induction false} ReplaceOneChar(s: string, a: char, r: string)
    ensures Replace(s, [a], r) == Subst(s, a, r)
    decreases |s|
  {
    if s != [] {
      ReplaceOneChar(s[1..], a, r);
      assert s[..1] == [s[0]];
      assert s[1..] == s[|[a]|..];
    }
  }

  /** Subst on a single character. */
  lemma SubstOne(c: char, a: char, r: string)
    ensures Subst([c], a, r) == if c == a then r else [c]
  {
    assert [c][1..] == [];
  }

  /** A character that does not occur is left alone by Subst. */
  lemma {:induction false} SubstAbsent(s: string, a: char, r: string)
    requires a !in s
    ensures Subst(s, a, r) == s
    decreases |s|
  {
    if s != [] {
      SubstAbsent(s[1..], a, r);
      assert [s[0]] + s[1..] == s;
    }
  }

  /** Every character of Subst's output is a character of `s` other than
      `a`, or a character of `r`. */
  lemma {:induction false} SubstMembers(s: string, a: char, r: string, x: char)
    requires x in Subst(s, a, r)
    ensures (x in s && x != a) || x in r
    decreases |s|
  {
    assert s != [];
    var head := if s[0] == a then r else [s[0]];
    assert Subst(s, a, r) == head + Subst(s[1..], a, r);
    if x !in head {
      SubstMembers(s[1..], a, r, x);
      assert x in s[1..] ==> x in s;
    }
  }

  /** String.Replace(char, char): every `a` becomes `b`. */
  function ReplaceChar(s: string, a: char, b: char): (r: string)
    ensures |r| == |s|
    ensures forall k :: 0 <= k < |s| && s[k] != a ==> r[k] == s[k]
    ensures forall k :: 0 <= k < |s| && s[k] == a ==> r[k] == b
    ensures a != b ==> a !in r
    ensures a !in s ==> r == s
    decreases |s|
  {
    if s == [] then [] else [if s[0] == a then b else s[0]] + ReplaceChar(s[1..], a, b)
  }

  /** String.TrimStart(c): drop every leading `c`. */
  function TrimStart(s: string, c: char): (r: string)
    ensures |r| <= |s| && r == s[|s| - |r|..]
    ensures r == [] || r[0] != c
    ensures forall k :: 0 <= k < |s| - |r| ==> s[k] == c
    decreases |s|
  {
    if |s| > 0 && s[0] == c then TrimStart(s[1..], c) else s
  }

  /** String.TrimEnd(c): drop every trailing `c`. */
  function TrimEnd(s: string, c: char): (r: string)
    ensures |r| <= |s| && r == s[..|r|]
    ensures r == [] || r[|r| - 1] != c
    ensures forall k :: |r| <= k < |s| ==> s[k] == c
    decreases |s|
  {
    if |s| > 0 && s[|s| - 1] == c then TrimEnd(s[..|s| - 1], c) else s
  }

  /** string.Join(sep, parts). */
  function Join(sep: string, parts: seq<string>): string
    decreases |parts|
  {
    if |parts| == 0 then ""
    else if |parts| == 1 then parts[0]
    else parts[0] + sep + Join(sep, parts[1..])
  }

  /** Joining after appending one part adds the separator and that part. */
  lemma {:induction false} JoinSnoc(sep: string, parts: seq<string>, last: string)
    requires |parts| > 0
    ensures Join(sep, parts + [last]) == Join(sep, parts) + sep + last
    decreases |parts|
  {
    if |parts| == 1 {
      assert (parts + [last])[1..] == [last];
    } else {
      assert (parts + [last])[1..] == parts[1..] + [last];
      JoinSnoc(sep, parts[1..], last);
    }
  }

  /** One turn of a loop that writes a comma before every part but the first. */
  lemma JoinStep(head: string, parts: seq<string>, more: seq<string>, last: string, i: nat, sb: string)
    requires more == parts + [last] && |parts| == i
    requires sb == head + Join(",", parts)
    ensures (if i > 0 then sb + "," else sb) + last == head + Join(",", more)
  {
    if |parts| > 0 {
      JoinSnoc(",", parts, last);
      assert head + Join(",", parts) + "," + last == head + (Join(",", parts) + "," + last);
    } else {
      assert more == [last];
    }
  }

  /** One turn of a loop that writes a comma after every part but the last
      of `n`. */
  lemma CommaStep(head: string, parts: seq<string>, last: string, n: nat, sb: string)
    requires |parts| < n
    requires sb == head + Join(",", parts) + (if 0 < |parts| then "," else "")
    ensures sb + last + (if |parts| < n - 1 then "," else "")
            == head + Join(",", parts + [last]) + (if 0 < |parts| + 1 < n then "," else "")
  {
    JoinStep(head, parts, parts + [last], last, |parts|, head + Join(",", parts));
  }

  /** The pieces appended one after another, as a StringBuilder does. */
  function Concat(parts: seq<string>): string
    decreases |parts|
  {
    if |parts| == 0 then "" else Concat(parts[..|parts| - 1]) + parts[|parts| - 1]
  }

  /** Appending one more piece. */
  lemma ConcatPrefix(parts: seq<string>, k: nat)
    requires k < |parts|
    ensures Concat(parts[..k + 1]) == Concat(parts[..k]) + parts[k]
  {
    assert parts[..k + 1][..k] == parts[..k];
  }

  /** The text of the first `k` pieces, then that of the rest. */
  lemma {:induction false} ConcatSplit(parts: seq<string>, k: nat)
    requires k <= |parts|
    ensures Concat(parts) == Concat(parts[..k]) + Concat(parts[k..])
    decreases |parts|
  {
    if k == |parts| {
      assert parts[..k] == parts;
      assert parts[k..] == [];
    } else {
      var init := parts[..|parts| - 1];
      ConcatSplit(init, k);
      assert init[..k] == parts[..k];
      assert parts[k..][..|parts[k..]| - 1] == init[k..];
      assert Concat(parts[k..]) == Concat(init[k..]) + parts[|parts| - 1];
    }
  }

  /** Piece `k` sits right after the text of the pieces before it. */
  lemma ConcatAt(parts: seq<string>, k: nat)
    requires k < |parts|
    ensures |Concat(parts[..k])| + |parts[k]| <= |Concat(parts)|
    ensures Concat(parts)[|Concat(parts[..k])|..|Concat(parts[..k])| + |parts[k]|] == parts[k]
  {
    ConcatSplit(parts, k + 1);
    ConcatPrefix(parts, k);
    var a := Concat(parts[..k]);
    var b := Concat(parts[k + 1..]);
    assert Concat(parts) == a + parts[k] + b;
    assert (a + parts[k] + b)[|a|..|a| + |parts[k]|] == parts[k];
  }

  /** Regrouping a chain of concatenations. */
  lemma Regroup(x: string, a: string, b: string, c: string, d: string)
    ensures x + a + b + c + d == x + (a + b + c + d)
    ensures x + (a + b + c) + d == x + a + b + c + d
  {
  }

  /** The reverse of a sequence. */
  function Reverse<T>(s: seq<T>): (r: seq<T>)
    ensures |r| == |s|
    ensures forall k :: 0 <= k < |s| ==> r[k] == s[|s| - 1 - k]
    decreases |s|
  {
    if |s| == 0 then [] else Reverse(s[1..]) + [s[0]]
  }

  /** Decimal digits of a natural number. */
  function NatToString(n: nat): (r: string)
    ensures |r| > 0
    ensures forall k :: 0 <= k < |r| ==> IsAsciiDigit(r[k])
    decreases n
  {
    var d := ['0' + (n % 10) as char];
    if n < 10 then d else NatToString(n / 10) + d
  }

  /** Int32.ToString() / integer interpolation: an optional minus sign and the digits. */
  function IntToString(n: int): string {
    if n < 0 then "-" + NatToString(-n) else NatToString(n)
  }
}
