/**
 * Spreadsheet column letters and 0-based indices (packages/shared/src/columns.ts):
 * bijective base 26. Letter case is ASCII.
 */
module Columns {
  import opened Options

  function Upper(c: char): char {
    if 'a' <= c <= 'z' then 'A' + (c - 'a') else c
  }

  function ToUpper(s: string): string {
    seq(|s|, i requires 0 <= i < |s| => Upper(s[i]))
  }

  predicate IsLetter(c: char) {
    'A' <= c <= 'Z'
  }

  /** One or more capital letters. */
  predicate IsColumn(s: string) {
    s != [] && forall i :: 0 <= i < |s| ==> IsLetter(s[i])
  }

  function Digit(c: char): nat
    requires IsLetter(c)
  {
    c as int - 64
  }

  function LetterOf(rem: nat): char
    requires rem < 26
  {
    'A' + rem as char
  }

  // ----- the two readings, as the recursions behind the loops -----

  /** The value of letters read left to right, counting from 1. */
  function Value(s: string): nat
    requires forall i :: 0 <= i < |s| ==> IsLetter(s[i])
  {
    if s == [] then 0 else Value(s[..|s| - 1]) * 26 + Digit(s[|s| - 1])
  }

  /** The letters of a value, counting from 1; 0 has none. */
  function Letters(n: nat): string
    decreases n
  {
    if n == 0 then [] else Letters((n - 1) / 26) + [LetterOf((n - 1) % 26)]
  }

  lemma {:induction false} LettersAreLetters(n: nat)
    ensures forall i :: 0 <= i < |Letters(n)| ==> IsLetter(Letters(n)[i])
    ensures n != 0 ==> Letters(n) != []
  {
    if n != 0 { LettersAreLetters((n - 1) / 26); }
  }

  lemma {:induction false} ValueOfLetters(n: nat)
    ensures forall i :: 0 <= i < |Letters(n)| ==> IsLetter(Letters(n)[i])
    ensures Value(Letters(n)) == n
  {
    LettersAreLetters(n);
    if n != 0 {
      ValueOfLetters((n - 1) / 26);
      assert Letters(n)[..|Letters(n)| - 1] == Letters((n - 1) / 26);
    }
  }

  lemma {:induction false} LettersOfValue(s: string)
    requires forall i :: 0 <= i < |s| ==> IsLetter(s[i])
    ensures Letters(Value(s)) == s
  {
    if s != [] {
      var init, last := s[..|s| - 1], s[|s| - 1];
      LettersOfValue(init);
      assert (Value(s) - 1) / 26 == Value(init) && (Value(s) - 1) % 26 == Digit(last) - 1;
      assert s == init + [last];
    }
  }

  // ----- the exported functions, with their errors -----

  /** The index of a column name of any case, or None where the source throws. */
  function Index(letter: string): Option<nat> {
    if IsColumn(ToUpper(letter)) then Some(Value(ToUpper(letter)) - 1) else None
  }

  function Name(index: int): Option<string> {
    if index < 0 then None else Some(Letters(index + 1))
  }

  function Offset(letter: string, delta: int): Option<string> {
    var i := Index(letter);
    if i.None? then None else Name(i.value + delta)
  }

  lemma UpperKeepsColumns(s: string)
    requires IsColumn(s)
    ensures ToUpper(s) == s
  {
  }

  /** Every index survives a trip through its name. */
  lemma IndexOfName(i: nat)
    ensures Name(i).Some? && IsColumn(Name(i).value) && Index(Name(i).value) == Some(i)
  {
    ValueOfLetters(i + 1);
    LettersAreLetters(i + 1);
    UpperKeepsColumns(Letters(i + 1));
  }

  /** Every name survives a trip through its index, up to case; exactly the non-names have none. */
  lemma NameOfIndex(s: string)
    ensures Index(s).Some? <==> IsColumn(ToUpper(s))
    ensures Index(s).Some? ==> Name(Index(s).value) == Some(ToUpper(s))
  {
    if IsColumn(ToUpper(s)) {
      LettersOfValue(ToUpper(s));
    }
  }

  /** Offsets add up as long as the first one stays on the sheet; otherwise it fails. */
  lemma OffsetsAdd(s: string, a: int, b: int)
    requires Index(s).Some?
    ensures Offset(s, a).Some? <==> 0 <= Index(s).value + a
    ensures Offset(s, a).Some? ==> Offset(Offset(s, a).value, b) == Offset(s, a + b)
    ensures Offset(s, 0) == Some(ToUpper(s))
  {
    NameOfIndex(s);
    if 0 <= Index(s).value + a { IndexOfName(Index(s).value + a); }
  }

  /** A letter, small or capital, stands for its place in the alphabet; nothing else does. */
  lemma LettersInPlainTerms(c: char)
    ensures Index([]).None?
    ensures Index([c]) == if 'A' <= c <= 'Z' then Some(c as int - 'A' as int)
                          else if 'a' <= c <= 'z' then Some(c as int - 'a' as int) else None
  {
    var one := [c];
    assert ToUpper(one) == [Upper(c)];
    if IsLetter(Upper(c)) { assert [Upper(c)][..0] == []; }
  }

  /** One more letter at the end is one more digit, in base 26 counting from 1. */
  lemma OneMoreLetter(s: string, c: char)
    requires s != []
    ensures Index(s + [c]) == if Index(s).Some? && Index([c]).Some?
                              then Some((Index(s).value + 1) * 26 + Index([c]).value) else None
  {
    var up := ToUpper(s);
    assert ToUpper(s + [c]) == up + [Upper(c)];
    assert (up + [Upper(c)])[..|up|] == up;
    LettersInPlainTerms(c);
    if IsColumn(up + [Upper(c)]) {
      assert forall i :: 0 <= i < |up| ==> up[i] == (up + [Upper(c)])[i];
      assert (up + [Upper(c)])[|up|] == Upper(c);
    }
  }

  // ----- order -----

  /** Shorter first, then alphabetical: the order of the columns on a sheet. */
  predicate Before(s: string, t: string) {
    |s| < |t| || (|s| == |t| && LexLess(s, t))
  }

  /** The first difference decides. */
  predicate LexLess(s: string, t: string)
    requires |s| == |t|
  {
    exists k :: 0 <= k < |s| && s[..k] == t[..k] && s[k] < t[k]
  }

  /** The smallest value with `n` letters: 1 + 26 + ... + 26^(n-1). */
  function Least(n: nat): nat {
    if n == 0 then 0 else 26 * Least(n - 1) + 1
  }

  lemma {:induction false} ValueBounds(s: string)
    requires forall i :: 0 <= i < |s| ==> IsLetter(s[i])
    ensures Least(|s|) <= Value(s) < Least(|s| + 1)
  {
    if s != [] { ValueBounds(s[..|s| - 1]); }
  }

  lemma {:induction false} LeastGrows(m: nat, n: nat)
    requires m <= n
    ensures Least(m) <= Least(n)
    decreases n
  {
    if m < n { LeastGrows(m, n - 1); }
  }

  lemma {:induction false} LexIsNumeric(s: string, t: string)
    requires |s| == |t|
    requires forall i :: 0 <= i < |s| ==> IsLetter(s[i])
    requires forall i :: 0 <= i < |t| ==> IsLetter(t[i])
    ensures LexLess(s, t) ==> Value(s) < Value(t)
    decreases |s|
  {
    if LexLess(s, t) {
      var k :| 0 <= k < |s| && s[..k] == t[..k] && s[k] < t[k];
      var n := |s| - 1;
      if k == n {
        assert s[..n] == t[..n];
      } else {
        assert s[..n][..k] == s[..k] && t[..n][..k] == t[..k];
        assert LexLess(s[..n], t[..n]);
        LexIsNumeric(s[..n], t[..n]);
      }
    }
  }

  lemma {:induction false} LexTotal(s: string, t: string)
    requires |s| == |t| && s != t
    ensures LexLess(s, t) || LexLess(t, s)
    decreases |s|
  {
    var n := |s| - 1;
    if s[..n] == t[..n] {
      assert s == s[..n] + [s[n]] && t == t[..n] + [t[n]];
      assert s[n] != t[n];
    } else {
      LexTotal(s[..n], t[..n]);
      if LexLess(s[..n], t[..n]) {
        var k :| 0 <= k < n && s[..n][..k] == t[..n][..k] && s[..n][k] < t[..n][k];
        assert s[..k] == s[..n][..k] && t[..k] == t[..n][..k];
      } else {
        var k :| 0 <= k < n && t[..n][..k] == s[..n][..k] && t[..n][k] < s[..n][k];
        assert s[..k] == s[..n][..k] && t[..k] == t[..n][..k];
      }
    }
  }

  lemma BeforeIsSmaller(s: string, t: string)
    requires IsColumn(s) && IsColumn(t) && Before(s, t)
    ensures Value(s) < Value(t)
  {
    if |s| < |t| {
      ValueBounds(s);
      ValueBounds(t);
      LeastGrows(|s| + 1, |t|);
    } else {
      LexIsNumeric(s, t);
    }
  }

  /** Column order on the sheet is index order, in both directions. */
  lemma SheetOrderIsIndexOrder(s: string, t: string)
    requires IsColumn(s) && IsColumn(t)
    ensures Before(s, t) <==> Index(s).value < Index(t).value
  {
    UpperKeepsColumns(s);
    UpperKeepsColumns(t);
    if Before(s, t) {
      BeforeIsSmaller(s, t);
    } else if s != t {
      if |s| == |t| { LexTotal(s, t); }
      BeforeIsSmaller(t, s);
    }
  }

  // ----- the loops -----

  method ColLetterToIndex(letter: string) returns (r: Option<nat>)
    ensures r == Index(letter)
  {
    var upper := ToUpper(letter);
    if !IsColumn(upper) { return None; }
    var index, i := 0, 0;
    while i < |upper|
      invariant 0 <= i <= |upper| && index == Value(upper[..i])
    {
      assert upper[..i + 1][..i] == upper[..i];
      index := index * 26 + (upper[i] as int - 64);
      i := i + 1;
    }
    assert upper[..|upper|] == upper;
    return Some(index - 1);
  }

  method IndexToColLetter(index: int) returns (r: Option<string>)
    ensures r == Name(index)
  {
    if index < 0 { return None; }
    var n, result := index + 1, [];
    while 0 < n
      invariant 0 <= n && Letters(n) + result == Letters(index + 1)
    {
      var rem := (n - 1) % 26;
      assert Letters((n - 1) / 26) + ([LetterOf(rem)] + result) == Letters(n) + result;
      result := [LetterOf(rem)] + result;
      n := (n - 1) / 26;
    }
    assert [] + result == result;
    return Some(result);
  }
}
