/**
 * The string operations several files share: decimal numerals and trim().
 */
module Texts {

  function Digits(n: nat): string
    decreases n
  {
    if n < 10 then ['0' + n as char] else Digits(n / 10) + ['0' + (n % 10) as char]
  }

  function ShowInt(n: int): string {
    if n < 0 then "-" + Digits(-n) else Digits(n)
  }

  function ReadDigits(s: string): int {
    if s == [] then 0 else ReadDigits(s[..|s| - 1]) * 10 + (s[|s| - 1] as int - '0' as int)
  }

  function ReadInt(s: string): int {
    if s != [] && s[0] == '-' then -ReadDigits(s[1..]) else ReadDigits(s)
  }

  lemma {:induction false} DigitsReadBack(n: nat)
    ensures ReadDigits(Digits(n)) == n && Digits(n) != [] && Digits(n)[0] != '-'
  {
    if n < 10 {
      assert Digits(n)[..0] == [];
      assert ReadDigits(Digits(n)[..0]) == 0;
    } else {
      DigitsReadBack(n / 10);
      assert Digits(n)[..|Digits(n)| - 1] == Digits(n / 10);
    }
  }

  lemma IntReadsBack(n: int)
    ensures ReadInt(ShowInt(n)) == n && ShowInt(n) != []
  {
    if n < 0 {
      DigitsReadBack(-n);
      assert ("-" + Digits(-n))[1..] == Digits(-n);
    } else {
      DigitsReadBack(n);
    }
  }

  /** Decimal numerals: one digit below ten, and one more digit for every power of ten. */
  lemma NumeralsInPlainTerms(n: nat)
    ensures n < 10 ==> Digits(n) == ["0123456789"[n]] && ShowInt(n) == Digits(n)
    ensures 10 <= n ==> Digits(n) == Digits(n / 10) + Digits(n % 10) && ShowInt(n) == Digits(n)
    ensures 0 < n ==> ShowInt(0 - n) == "-" + Digits(n)
  {
    assert n == 0 || 0 < n;
  }

  /** What String.prototype.trim removes: white space and line ends. */
  predicate IsSpace(c: char) {
    var n := c as int;
    || 9 <= n <= 13 || n == 32 || n == 0xA0 || n == 0x1680 || 0x2000 <= n <= 0x200A
    || n == 0x2028 || n == 0x2029 || n == 0x202F || n == 0x205F || n == 0x3000 || n == 0xFEFF
  }

  function TrimStart(s: string): string {
    if s != [] && IsSpace(s[0]) then TrimStart(s[1..]) else s
  }

  function TrimEnd(s: string): string {
    if s != [] && IsSpace(s[|s| - 1]) then TrimEnd(s[..|s| - 1]) else s
  }

  function Trim(s: string): string {
    TrimEnd(TrimStart(s))
  }

  lemma {:induction false} TrimEndIsTight(s: string)
    ensures TrimEnd(s) == [] || !IsSpace(TrimEnd(s)[|TrimEnd(s)| - 1])
    ensures TrimEnd(s) <= s
  {
    if s != [] && IsSpace(s[|s| - 1]) { TrimEndIsTight(s[..|s| - 1]); }
  }

  lemma {:induction false} TrimStartIsTight(s: string)
    ensures TrimStart(s) == [] || !IsSpace(TrimStart(s)[0])
  {
    if s != [] && IsSpace(s[0]) { TrimStartIsTight(s[1..]); }
  }

  /** Trimming what is trimmed changes nothing. */
  lemma TrimIsIdempotent(s: string)
    ensures Trim(Trim(s)) == Trim(s)
  {
    TrimStartIsTight(s);
    TrimEndIsTight(TrimStart(s));
  }

  lemma SpacesInPlainTerms(c: char)
    ensures IsSpace(c) <==> c as int in {
      0x09, 0x0A, 0x0B, 0x0C, 0x0D, 0x20, 0xA0, 0x1680, 0x2000, 0x2001, 0x2002, 0x2003, 0x2004, 0x2005, 0x2006,
      0x2007, 0x2008, 0x2009, 0x200A, 0x2028, 0x2029, 0x202F, 0x205F, 0x3000, 0xFEFF}
  {
  }

  predicate AllSpace(s: string) {
    forall i :: 0 <= i < |s| ==> IsSpace(s[i])
  }

  lemma {:induction false} TrimStartSplits(s: string) returns (pre: string)
    ensures s == pre + TrimStart(s) && AllSpace(pre)
  {
    if s != [] && IsSpace(s[0]) {
      var rest := TrimStartSplits(s[1..]);
      pre := [s[0]] + rest;
      assert s == [s[0]] + s[1..];
    } else {
      pre := [];
    }
  }

  lemma {:induction false} TrimEndSplits(s: string) returns (post: string)
    ensures s == TrimEnd(s) + post && AllSpace(post)
  {
    if s != [] && IsSpace(s[|s| - 1]) {
      var rest := TrimEndSplits(s[..|s| - 1]);
      post := rest + [s[|s| - 1]];
      assert s == s[..|s| - 1] + [s[|s| - 1]];
    } else {
      post := [];
    }
  }

  /** Trimming takes away white space at both ends, all of it, and nothing else. */
  lemma TrimInPlainTerms(s: string) returns (pre: string, post: string)
    ensures s == pre + Trim(s) + post && AllSpace(pre) && AllSpace(post)
    ensures Trim(s) == [] || (!IsSpace(Trim(s)[0]) && !IsSpace(Trim(s)[|Trim(s)| - 1]))
  {
    pre := TrimStartSplits(s);
    post := TrimEndSplits(TrimStart(s));
    TrimStartIsTight(s);
    TrimEndIsTight(TrimStart(s));
  }
}
