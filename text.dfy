/**
 * String helpers with the meaning JavaScript gives them: decimal rendering of
 * numbers, `join`, `startsWith`/`endsWith`, `toLowerCase` (ASCII letters only),
 * `trim` and `split(/ +/)`.
 */
module Text {
  import opened Wrappers

  predicate IsDigit(c: char) { '0' <= c <= '9' }

  predicate AllDigits(s: string) { forall i :: 0 <= i < |s| ==> IsDigit(s[i]) }

  function DigitChar(d: nat): (c: char)
    requires d < 10
    ensures IsDigit(c) && c as int - '0' as int == d
  {
    (d + '0' as int) as char
  }

  /** Decimal rendering of a natural number, as `String(n)` does. */
  function NatToString(n: nat): (s: string)
    ensures |s| > 0 && AllDigits(s)
    ensures n < 10 <==> |s| == 1
    decreases n
  {
    if n < 10 then [DigitChar(n)] else NatToString(n / 10) + [DigitChar(n % 10)]
  }

  /** The value of a string of decimal digits. */
  function ParseDigits(s: string): nat
    requires AllDigits(s)
  {
    if |s| == 0 then 0 else ParseDigits(s[..|s| - 1]) * 10 + (s[|s| - 1] as int - '0' as int)
  }

  lemma {:induction false} ParseNatToString(n: nat)
    ensures ParseDigits(NatToString(n)) == n
  {
    if n >= 10 {
      var s := NatToString(n);
      assert s[..|s| - 1] == NatToString(n / 10);
      ParseNatToString(n / 10);
    }
  }

  /** Decimal rendering of an integer, with a leading '-' when negative. */
  function IntToString(i: int): string {
    if i < 0 then "-" + NatToString(-i) else NatToString(i)
  }

  /** Reads back what IntToString writes. */
  function ParseInt(s: string): Option<int> {
    if |s| > 1 && s[0] == '-' && AllDigits(s[1..]) then Some(0 - ParseDigits(s[1..]) as int)
    else if |s| > 0 && AllDigits(s) then Some(ParseDigits(s))
    else None
  }

  lemma IntToStringRoundTrip(i: int)
    ensures ParseInt(IntToString(i)) == Some(i)
  {
    var s := IntToString(i);
    if i < 0 {
      assert s[1..] == NatToString(-i);
      assert |s| > 1 && s[0] == '-' && AllDigits(s[1..]);
      ParseNatToString(-i);
    } else {
      assert IsDigit(s[0]) && s == NatToString(i);
      ParseNatToString(i);
    }
  }

  lemma IntToStringInjective(a: int, b: int)
    requires IntToString(a) == IntToString(b)
    ensures a == b
  {
    IntToStringRoundTrip(a);
    IntToStringRoundTrip(b);
  }

  /** `parts.join(sep)` */
  function Join(parts: seq<string>, sep: string): string {
    if |parts| == 0 then ""
    else if |parts| == 1 then parts[0]
    else parts[0] + sep + Join(parts[1..], sep)
  }

  predicate StartsWith(s: string, prefix: string) {
    |prefix| <= |s| && s[..|prefix|] == prefix
  }

  predicate EndsWith(s: string, suffix: string) {
    |suffix| <= |s| && s[|s| - |suffix|..] == suffix
  }

  /** `t` occurs in `s` starting at index `i`. */
  predicate OccursAt(s: string, t: string, i: int) {
    0 <= i && i + |t| <= |s| && s[i..i + |t|] == t
  }

  predicate Contains(s: string, t: string) {
    exists i :: 0 <= i <= |s| && OccursAt(s, t, i)
  }

  lemma ContainsInConcat(a: string, t: string, b: string)
    ensures OccursAt(a + t + b, t, |a|)
  {
    assert (a + t + b)[|a|..|a| + |t|] == t;
  }

  /** Where each of three values lands in a template with three slots. */
  lemma ThreeSlots(a: string, x: string, b: string, y: string, c: string, z: string, d: string)
    ensures OccursAt(a + x + b + y + c + z + d, x, |a|)
    ensures OccursAt(a + x + b + y + c + z + d, y, |a| + |x| + |b|)
    ensures OccursAt(a + x + b + y + c + z + d, z, |a| + |x| + |b| + |y| + |c|)
  {
    var s := a + x + b + y + c + z + d;
    assert s == a + x + (b + y + c + z + d);
    ContainsInConcat(a, x, b + y + c + z + d);
    assert s == (a + x + b) + y + (c + z + d);
    ContainsInConcat(a + x + b, y, c + z + d);
    assert s == (a + x + b + y + c) + z + d;
    ContainsInConcat(a + x + b + y + c, z, d);
  }

  lemma PrefixOfConcat(a: string, b: string)
    ensures StartsWith(a + b, a)
  {
    assert (a + b)[..|a|] == a;
  }

  function LowerChar(c: char): char {
    if 'A' <= c <= 'Z' then (c as int - 'A' as int + 'a' as int) as char else c
  }

  /** `s.toLowerCase()` restricted to the ASCII letters. */
  function ToLower(s: string): (r: string)
    ensures |r| == |s|
  {
    seq(|s|, i requires 0 <= i < |s| => LowerChar(s[i]))
  }

  lemma {:induction false} ToLowerSlice(s: string, i: int, j: int)
    requires 0 <= i <= j <= |s|
    ensures ToLower(s)[i..j] == ToLower(s[i..j])
  {
    assert |ToLower(s)[i..j]| == |ToLower(s[i..j])|;
    forall k | 0 <= k < j - i ensures ToLower(s)[i..j][k] == ToLower(s[i..j])[k] {
      assert ToLower(s)[i..j][k] == ToLower(s)[i + k];
    }
  }

  /** Lower-casing twice is lower-casing once. */
  lemma ToLowerIdempotent(s: string)
    ensures ToLower(ToLower(s)) == ToLower(s)
  {
    assert |ToLower(ToLower(s))| == |ToLower(s)|;
    forall k | 0 <= k < |s| ensures ToLower(ToLower(s))[k] == ToLower(s)[k] {
      assert 'A' <= s[k] <= 'Z' ==> LowerChar(s[k]) as int == s[k] as int + 32;
    }
  }

  /** The characters `String.prototype.trim` removes (white space and line terminators). */
  predicate IsWhitespace(c: char) {
    var k := c as int;
    k == 9 || k == 10 || k == 11 || k == 12 || k == 13 || k == 32 || k == 0xA0 || k == 0x1680
    || (0x2000 <= k <= 0x200A) || k == 0x2028 || k == 0x2029 || k == 0x202F || k == 0x205F
    || k == 0x3000 || k == 0xFEFF
  }

  function TrimStart(s: string): (r: string)
    ensures |r| <= |s| && r == s[|s| - |r|..]
    ensures |r| > 0 ==> !IsWhitespace(r[0])
  {
    if |s| > 0 && IsWhitespace(s[0]) then TrimStart(s[1..]) else s
  }

  function TrimEnd(s: string): (r: string)
    ensures |r| <= |s| && r == s[..|r|]
    ensures |r| > 0 ==> !IsWhitespace(r[|r| - 1])
  {
    if |s| > 0 && IsWhitespace(s[|s| - 1]) then TrimEnd(s[..|s| - 1]) else s
  }

  /** `s.trim()` */
  function Trim(s: string): string {
    TrimEnd(TrimStart(s))
  }

  /** The index of the first `c` in `s`, or `|s|` when there is none. */
  function IndexOf(s: string, c: char): (r: nat)
    ensures r <= |s|
    ensures r < |s| ==> s[r] == c
    ensures forall j :: 0 <= j < r ==> s[j] != c
  {
    if |s| == 0 then 0 else if s[0] == c then 0 else 1 + IndexOf(s[1..], c)
  }

  function DropSpaces(s: string): (r: string)
    ensures |r| <= |s| && r == s[|s| - |r|..]
    ensures |s| > 0 && s[0] == ' ' ==> |r| < |s|
  {
    if |s| > 0 && s[0] == ' ' then DropSpaces(s[1..]) else s
  }

  /** Lower-casing keeps every character's class, so it commutes with trimming and with finding spaces. */
  lemma LowerCharClass(c: char)
    ensures IsWhitespace(LowerChar(c)) <==> IsWhitespace(c)
    ensures LowerChar(c) == ' ' <==> c == ' '
  {
  }

  lemma {:induction false} TrimStartLower(s: string)
    ensures TrimStart(ToLower(s)) == ToLower(TrimStart(s))
    decreases |s|
  {
    if |s| > 0 {
      var t := ToLower(s);
      assert t[0] == LowerChar(s[0]);
      LowerCharClass(s[0]);
      if IsWhitespace(s[0]) {
        ToLowerSlice(s, 1, |s|);
        assert s[1..|s|] == s[1..] && t[1..|s|] == t[1..];
        var rest := ToLower(s[1..]);
        assert t[1..] == rest;
        TrimStartLower(s[1..]);
        assert TrimStart(t) == TrimStart(rest);
      }
    }
  }

  lemma {:induction false} TrimEndLower(s: string)
    ensures TrimEnd(ToLower(s)) == ToLower(TrimEnd(s))
    decreases |s|
  {
    if |s| > 0 {
      var t := ToLower(s);
      assert t[|s| - 1] == LowerChar(s[|s| - 1]);
      LowerCharClass(s[|s| - 1]);
      if IsWhitespace(s[|s| - 1]) {
        ToLowerSlice(s, 0, |s| - 1);
        assert s[0..|s| - 1] == s[..|s| - 1] && t[0..|s| - 1] == t[..|s| - 1];
        var rest := ToLower(s[..|s| - 1]);
        assert t[..|s| - 1] == rest;
        TrimEndLower(s[..|s| - 1]);
        assert TrimEnd(t) == TrimEnd(rest);
      }
    }
  }

  lemma TrimLower(s: string)
    ensures Trim(ToLower(s)) == ToLower(Trim(s))
  {
    TrimStartLower(s);
    TrimEndLower(TrimStart(s));
  }

  lemma {:induction false} IndexOfSpaceLower(s: string)
    ensures IndexOf(ToLower(s), ' ') == IndexOf(s, ' ')
    decreases |s|
  {
    if |s| > 0 {
      var t := ToLower(s);
      assert t[0] == LowerChar(s[0]);
      LowerCharClass(s[0]);
      ToLowerSlice(s, 1, |s|);
      IndexOfSpaceLower(s[1..]);
      assert t[1..] == ToLower(s[1..]);
    }
  }

  /** `s.split(/ +/)`: the pieces between runs of spaces; never empty. */
  function SplitSpaces(s: string): (r: seq<string>)
    ensures |r| >= 1
    ensures r[0] == s[..IndexOf(s, ' ')]
    decreases |s|
  {
    var i := IndexOf(s, ' ');
    if i == |s| then [s] else [s[..i]] + SplitSpaces(DropSpaces(s[i..]))
  }
}
