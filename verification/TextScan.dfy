/** The string operations the header code relies on: white space, ASCII case, digits. */
module TextScan {

  /** Python's str.isspace for one character. */
  predicate IsSpace(c: char) {
    var n := c as int;
    || 0x09 <= n <= 0x0D || 0x1C <= n <= 0x20 || n == 0x85 || n == 0xA0 || n == 0x1680
    || 0x2000 <= n <= 0x200A || n == 0x2028 || n == 0x2029 || n == 0x202F || n == 0x205F || n == 0x3000
  }

  /** They are twenty-nine. */
  lemma SpacesAre(c: char)
    ensures IsSpace(c) <==>
              c as int in {0x09, 0x0A, 0x0B, 0x0C, 0x0D, 0x1C, 0x1D, 0x1E, 0x1F, 0x20, 0x85, 0xA0, 0x1680,
                           0x2000, 0x2001, 0x2002, 0x2003, 0x2004, 0x2005, 0x2006, 0x2007, 0x2008, 0x2009, 0x200A,
                           0x2028, 0x2029, 0x202F, 0x205F, 0x3000}
  {
  }

  function LStrip(s: string): (r: string)
    ensures |r| <= |s|
  {
    if s != "" && IsSpace(s[0]) then LStrip(s[1..]) else s
  }

  function RStrip(s: string): (r: string)
    ensures |r| <= |s|
  {
    if s != "" && IsSpace(s[|s| - 1]) then RStrip(s[..|s| - 1]) else s
  }

  function Strip(s: string): string {
    RStrip(LStrip(s))
  }

  /** Case folding where only ASCII letters matter. */
  function Lower(c: char): char {
    if 'A' <= c <= 'Z' then (c as int + 32) as char else c
  }

  /** The letters of either alphabet have the same place in it; nothing else changes. */
  lemma LowerIs(c: char)
    ensures 0x41 <= c as int <= 0x5A ==> "abcdefghijklmnopqrstuvwxyz"[c as int - 0x41] == Lower(c)
    ensures !(0x41 <= c as int <= 0x5A) ==> Lower(c) == c
  {
  }

  function LowerAll(s: string): (r: string)
    ensures |r| == |s|
    ensures forall i :: 0 <= i < |s| ==> r[i] == Lower(s[i])
  {
    if s == "" then "" else [Lower(s[0])] + LowerAll(s[1..])
  }

  predicate AllSpace(s: string) {
    forall i :: 0 <= i < |s| ==> IsSpace(s[i])
  }

  lemma {:induction false} LStripPadded(before: string, s: string)
    requires AllSpace(before)
    ensures LStrip(before + s) == LStrip(s)
  {
    if before == "" {
      assert before + s == s;
    } else {
      LStripPadded(before[1..], s);
      assert (before + s)[1..] == before[1..] + s;
    }
  }

  lemma {:induction false} RStripPadded(s: string, after: string)
    requires AllSpace(after)
    ensures RStrip(s + after) == RStrip(s)
  {
    if after == "" {
      assert s + after == s;
    } else {
      RStripPadded(s, after[..|after| - 1]);
      assert (s + after)[..|s + after| - 1] == s + after[..|after| - 1];
    }
  }

  /** Stripping takes the white space around a text, and nothing of a text that has none at its ends. */
  lemma StripPadded(before: string, s: string, after: string)
    requires AllSpace(before) && AllSpace(after)
    requires s != "" ==> !IsSpace(s[0]) && !IsSpace(s[|s| - 1])
    ensures Strip(before + s + after) == s
  {
    Assoc(before, s, after);
    LStripPadded(before, s + after);
    if s == "" {
      assert s + after == after && after + "" == after;
      LStripPadded(after, "");
    } else {
      RStripPadded(s, after);
    }
  }

  predicate IsDigit(c: char) {
    '0' <= c <= '9'
  }

  predicate AllDigits(s: string) {
    forall i :: 0 <= i < |s| ==> IsDigit(s[i])
  }

  function HexDigit(n: nat): (c: char)
    requires n < 16
    ensures HexValue(c) == n && IsHex(c) && !('A' <= c <= 'F')
  {
    if n < 10 then ('0' as int + n) as char else ('a' as int + (n - 10)) as char
  }

  predicate IsHex(c: char) {
    '0' <= c <= '9' || 'a' <= c <= 'f' || 'A' <= c <= 'F'
  }

  function HexValue(c: char): (n: int)
    ensures IsHex(c) ==> 0 <= n < 16
  {
    if '0' <= c <= '9' then c as int - '0' as int
    else if 'a' <= c <= 'f' then c as int - 'a' as int + 10
    else c as int - 'A' as int + 10
  }

  /** A hex digit is one of the sixteen, in either case, and has its value. */
  lemma HexDigitsAre(c: char)
    ensures IsHex(c) <==> Lower(c) in "0123456789abcdef"
    ensures IsHex(c) ==> "0123456789abcdef"[HexValue(c)] == Lower(c)
  {
  }

  predicate AllHex(s: string) {
    forall i :: 0 <= i < |s| ==> IsHex(s[i])
  }

  function Hex4Value(s: string): (n: int)
    requires |s| == 4
    ensures AllHex(s) ==> 0 <= n < 0x10000
  {
    ((HexValue(s[0]) * 16 + HexValue(s[1])) * 16 + HexValue(s[2])) * 16 + HexValue(s[3])
  }

  /** A code unit as four lower-case hex digits. */
  function Hex4(n: nat): (s: string)
    requires n < 0x10000
    ensures |s| == 4 && AllHex(s) && Hex4Value(s) == n
  {
    hide HexDigit, HexValue, IsHex;
    var q, r, t := n / 16, n / 16 / 16, n / 16 / 16 / 16;
    [HexDigit(t), HexDigit(r % 16), HexDigit(q % 16), HexDigit(n % 16)]
  }

  /** Where `c` first occurs in `s`, or the length of `s`. */
  function IndexOf(s: string, c: char): (n: nat)
    ensures n <= |s| && (n < |s| ==> s[n] == c) && forall i :: 0 <= i < n ==> s[i] != c
  {
    if s == "" || s[0] == c then 0 else 1 + IndexOf(s[1..], c)
  }

  lemma Assoc(a: string, b: string, c: string)
    ensures a + b + c == a + (b + c)
  {
  }

  lemma TailOf(s: string, i: nat)
    requires i < |s|
    ensures s[i..] != "" && s[i..][0] == s[i] && s[i..][1..] == s[i + 1..]
  {
  }

  lemma SplitAt(s: string, i: nat, j: nat)
    requires i <= j <= |s|
    ensures s[i..][..j - i] == s[i..j] && s[i..][j - i..] == s[j..]
  {
  }

  lemma StripKeeps(s: string)
    requires s != "" && !IsSpace(s[0]) && !IsSpace(s[|s| - 1])
    ensures Strip(s) == s
  {
  }
}
