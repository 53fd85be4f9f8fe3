/**
 * Spreadsheet links: the parser (packages/shared/src/sheets-url.ts) and the printer the
 * edit dialog uses (apps/web/src/components/SheetsTaskDialog.tsx). Each regular
 * expression is written out as the leftmost match it finds.
 */
module SheetUrl {
  import opened Options
  import opened Texts

  datatype ParsedSheetUrl = ParsedSheetUrl(spreadsheetId: string, sheetGid: int)

  const LEAST_ID_LENGTH: nat := 20
  const ID_MARK: string := "/spreadsheets/d/"
  const GID_MARK: string := "gid="

  predicate IsIdChar(c: char) {
    'a' <= c <= 'z' || 'A' <= c <= 'Z' || '0' <= c <= '9' || c == '_' || c == '-'
  }

  predicate IsDigit(c: char) {
    '0' <= c <= '9'
  }

  /** The length of the longest run of `p` characters at the start. */
  function Span(s: string, p: char -> bool): (n: nat)
    ensures n <= |s|
    ensures forall i :: 0 <= i < n ==> p(s[i])
    ensures n < |s| ==> !p(s[n])
  {
    if s != [] && p(s[0]) then 1 + Span(s[1..], p) else 0
  }

  predicate IsSheetId(s: string) {
    LEAST_ID_LENGTH <= |s| && forall i :: 0 <= i < |s| ==> IsIdChar(s[i])
  }

  /** The leftmost id that follows the mark. */
  function FindId(s: string): (id: Option<string>)
    ensures id.Some? ==> IsSheetId(id.value)
  {
    if s == [] then None
    else if ID_MARK <= s && LEAST_ID_LENGTH <= Span(s[|ID_MARK|..], IsIdChar) then
      Some(s[|ID_MARK|..][..Span(s[|ID_MARK|..], IsIdChar)])
    else FindId(s[1..])
  }

  predicate IsGidLead(c: char) {
    c == '?' || c == '#' || c == '&'
  }

  /** The leftmost gid parameter of the query or the fragment. */
  function FindGid(s: string): Option<int> {
    if s == [] then None
    else if IsGidLead(s[0]) && GID_MARK <= s[1..] && 0 < Span(s[5..], IsDigit) then
      Some(ReadDigits(s[5..][..Span(s[5..], IsDigit)]))
    else FindGid(s[1..])
  }

  function Parse(input: string): Option<ParsedSheetUrl> {
    var trimmed := Trim(input);
    if trimmed == "" then None
    else if IsSheetId(trimmed) then Some(ParsedSheetUrl(trimmed, 0))
    else match FindId(trimmed)
         case None => None
         case Some(id) =>
           var gid := FindGid(trimmed);
           var sheetGid := if gid.Some? then gid.value else 0;
           if sheetGid < 0 then None else Some(ParsedSheetUrl(id, sheetGid))
  }

  const HOST: string := "https://docs.google.com"

  function Print(p: ParsedSheetUrl): string
    requires 0 <= p.sheetGid
  {
    HOST + (ID_MARK + (p.spreadsheetId + ("/edit" + ("#" + GID_MARK + Digits(p.sheetGid)))))
  }

  // ----- reading back -----

  lemma {:induction false} SpanStops(run: string, rest: string, p: char -> bool)
    requires forall i :: 0 <= i < |run| ==> p(run[i])
    requires rest == [] || !p(rest[0])
    ensures Span(run + rest, p) == |run|
  {
    if run == [] {
      assert run + rest == rest;
    } else {
      assert (run + rest)[1..] == run[1..] + rest;
      SpanStops(run[1..], rest, p);
    }
  }

  predicate CannotStartMark(s: string, i: nat)
    requires i < |s|
  {
    s[i] != '/' || (i + 1 < |s| && s[i + 1] != 's')
  }

  lemma DifferAt(mark: string, s: string, i: nat)
    requires i < |mark| && i < |s| && mark[i] != s[i]
    ensures !(mark <= s)
  {
  }

  /** No id can begin inside text where the mark cannot. */
  lemma {:induction false} FindIdSkips(pre: string, rest: string)
    requires forall i :: 0 <= i < |pre| ==> CannotStartMark(pre, i)
    ensures FindId(pre + rest) == FindId(rest)
  {
    if pre == [] {
      assert pre + rest == rest;
    } else {
      assert (pre + rest)[1..] == pre[1..] + rest;
      assert CannotStartMark(pre, 0);
      DifferAt(ID_MARK, pre + rest, if pre[0] != '/' then 0 else 1);
      forall i | 0 <= i < |pre[1..]| ensures CannotStartMark(pre[1..], i) {
        assert CannotStartMark(pre, i + 1);
      }
      FindIdSkips(pre[1..], rest);
    }
  }

  lemma {:induction false} FindGidSkips(pre: string, rest: string)
    requires forall i :: 0 <= i < |pre| ==> !IsGidLead(pre[i])
    ensures FindGid(pre + rest) == FindGid(rest)
  {
    if pre == [] {
      assert pre + rest == rest;
    } else {
      assert (pre + rest)[1..] == pre[1..] + rest;
      FindGidSkips(pre[1..], rest);
    }
  }

  lemma {:induction false} DigitsAreDigits(n: nat)
    ensures forall i :: 0 <= i < |Digits(n)| ==> IsDigit(Digits(n)[i])
  {
    if 10 <= n { DigitsAreDigits(n / 10); }
  }

  lemma TrimKeeps(s: string)
    requires s != [] && !IsSpace(s[0]) && !IsSpace(s[|s| - 1])
    ensures Trim(s) == s
  {
  }

  lemma FindsPrintedId(id: string, tail: string)
    requires IsSheetId(id) && tail != [] && !IsIdChar(tail[0])
    ensures FindId(HOST + (ID_MARK + (id + tail))) == Some(id)
  {
    FindIdSkips(HOST, ID_MARK + (id + tail));
    SpanStops(id, tail, IsIdChar);
    assert (ID_MARK + (id + tail))[|ID_MARK|..] == id + tail;
    assert (id + tail)[..|id|] == id;
  }

  lemma FindsPrintedGid(gid: nat)
    ensures FindGid("#" + GID_MARK + Digits(gid)) == Some(gid)
  {
    var s := "#" + GID_MARK + Digits(gid);
    DigitsReadBack(gid);
    DigitsAreDigits(gid);
    assert s[1..] == GID_MARK + Digits(gid);
    assert s[5..] == Digits(gid);
    SpanStops(Digits(gid), "", IsDigit);
    assert Digits(gid) + "" == Digits(gid);
    assert Digits(gid)[..|Digits(gid)|] == Digits(gid);
  }

  lemma PrintedIsNoBareId(p: ParsedSheetUrl)
    requires 0 <= p.sheetGid
    ensures Trim(Print(p)) == Print(p) && Print(p) != "" && !IsSheetId(Print(p))
  {
    var s, digits := Print(p), Digits(p.sheetGid);
    DigitsReadBack(p.sheetGid);
    DigitsAreDigits(p.sheetGid);
    assert s[|s| - 1] == digits[|digits| - 1] && IsDigit(digits[|digits| - 1]);
    TrimKeeps(s);
    assert s[5] == ':';
  }

  lemma PrintedGidIsFound(p: ParsedSheetUrl)
    requires IsSheetId(p.spreadsheetId) && 0 <= p.sheetGid
    ensures FindGid(Print(p)) == Some(p.sheetGid)
  {
    var fragment := "#" + GID_MARK + Digits(p.sheetGid);
    var pre := HOST + (ID_MARK + (p.spreadsheetId + "/edit"));
    assert Print(p) == pre + fragment;
    forall i | 0 <= i < |pre| ensures !IsGidLead(pre[i]) {
      var j := i - |HOST| - |ID_MARK|;
      if 0 <= j < |p.spreadsheetId| { assert pre[i] == p.spreadsheetId[j] && IsIdChar(p.spreadsheetId[j]); }
    }
    FindGidSkips(pre, fragment);
    FindsPrintedGid(p.sheetGid);
  }

  /** What the dialog prints for a task, it reads back as that task's spreadsheet and tab. */
  lemma PrintedUrlReadsBack(p: ParsedSheetUrl)
    requires IsSheetId(p.spreadsheetId) && 0 <= p.sheetGid
    ensures Parse(Print(p)) == Some(p)
  {
    PrintedIsNoBareId(p);
    PrintedGidIsFound(p);
    FindsPrintedId(p.spreadsheetId, "/edit" + ("#" + GID_MARK + Digits(p.sheetGid)));
  }

  /** A bare id stands for the first tab. Whatever is accepted has a proper id, so printing it is lossless. */
  lemma ParsingIsIdempotent(input: string)
    requires Parse(input).Some?
    ensures IsSheetId(Parse(input).value.spreadsheetId) && 0 <= Parse(input).value.sheetGid
    ensures Parse(Print(Parse(input).value)) == Parse(input)
    ensures IsSheetId(Trim(input)) ==> Parse(input).value == ParsedSheetUrl(Trim(input), 0)
  {
    PrintedUrlReadsBack(Parse(input).value);
  }

  // ----- what the two searches find -----

  /** The characters of an id, the digits, and what may stand before a gid parameter. */
  lemma CharsInPlainTerms(c: char)
    ensures IsIdChar(c) <==> c in {
      'a', 'b', 'c', 'd', 'e', 'f', 'g', 'h', 'i', 'j', 'k', 'l', 'm', 'n', 'o', 'p',
      'q', 'r', 's', 't', 'u', 'v', 'w', 'x', 'y', 'z',
      'A', 'B', 'C', 'D', 'E', 'F', 'G', 'H', 'I', 'J', 'K', 'L', 'M', 'N', 'O', 'P',
      'Q', 'R', 'S', 'T', 'U', 'V', 'W', 'X', 'Y', 'Z',
      '0', '1', '2', '3', '4', '5', '6', '7', '8', '9', '-', '_'}
    ensures IsDigit(c) <==> c in {'0', '1', '2', '3', '4', '5', '6', '7', '8', '9'}
    ensures IsGidLead(c) <==> c in {'?', '#', '&'}
  {
  }

  /** From `from` on stands a run of `p` characters, not short, that ends where the run of such characters ends. */
  predicate RunAt(s: string, from: nat, run: string, p: char -> bool, least: nat) {
    && least <= |run| && from + |run| <= |s| && s[from..from + |run|] == run
    && (forall k :: 0 <= k < |run| ==> p(run[k]))
    && (from + |run| < |s| ==> !p(s[from + |run|]))
  }

  lemma RunIsSpan(s: string, from: nat, run: string, p: char -> bool, least: nat)
    requires from <= |s|
    ensures RunAt(s, from, run, p, least) <==>
      least <= Span(s[from..], p) && run == s[from..][..Span(s[from..], p)]
  {
    var tail := s[from..];
    if RunAt(s, from, run, p, least) {
      assert tail == run + s[from + |run|..];
      SpanStops(run, s[from + |run|..], p);
    }
  }

  /** An id stands behind the mark at `i`. */
  predicate IdAt(s: string, i: nat, id: string) {
    i + 16 <= |s| && s[i..i + 16] == "/spreadsheets/d/" && RunAt(s, i + 16, id, IsIdChar, 20)
  }

  /** The number of a gid parameter stands at `i`. */
  predicate GidAt(s: string, i: nat, digits: string) {
    && i + 5 <= |s| && (s[i] == '?' || s[i] == '#' || s[i] == '&') && s[i + 1..i + 5] == "gid="
    && RunAt(s, i + 5, digits, IsDigit, 1)
  }

  lemma RunInTail(s: string, from: nat, run: string, p: char -> bool, least: nat)
    requires 0 < from <= |s|
    ensures RunAt(s, from, run, p, least) <==> RunAt(s[1..], from - 1, run, p, least)
  {
    assert from + |run| <= |s| ==> s[from..from + |run|] == s[1..][from - 1..from - 1 + |run|];
  }

  lemma IdInTail(s: string, i: nat, id: string)
    requires s != []
    ensures IdAt(s, i + 1, id) <==> IdAt(s[1..], i, id)
  {
    if i + 17 <= |s| {
      assert s[i + 1..i + 17] == s[1..][i..i + 16];
      RunInTail(s, i + 17, id, IsIdChar, 20);
    }
  }

  lemma GidInTail(s: string, i: nat, digits: string)
    requires s != []
    ensures GidAt(s, i + 1, digits) <==> GidAt(s[1..], i, digits)
  {
    if i + 6 <= |s| {
      assert s[i + 2..i + 6] == s[1..][i + 1..i + 5];
      RunInTail(s, i + 6, digits, IsDigit, 1);
    }
  }

  lemma IdAtHead(s: string, id: string)
    ensures IdAt(s, 0, id) <==>
      && ID_MARK <= s && LEAST_ID_LENGTH <= Span(s[|ID_MARK|..], IsIdChar)
      && id == s[|ID_MARK|..][..Span(s[|ID_MARK|..], IsIdChar)]
  {
    if 16 <= |s| { RunIsSpan(s, 16, id, IsIdChar, 20); }
  }

  lemma GidAtHead(s: string, digits: string)
    requires s != []
    ensures GidAt(s, 0, digits) <==>
      && IsGidLead(s[0]) && GID_MARK <= s[1..] && 0 < Span(s[5..], IsDigit)
      && digits == s[5..][..Span(s[5..], IsDigit)]
  {
    if 5 <= |s| {
      assert s[1..][..4] == s[1..5];
      RunIsSpan(s, 5, digits, IsDigit, 1);
    }
  }

  /** The search for the id finds the leftmost one, and nothing exactly if there is none. */
  lemma {:induction false} FindsLeftmostId(s: string) returns (i: nat)
    ensures FindId(s).Some? ==> IdAt(s, i, FindId(s).value)
    ensures forall j: nat, id :: IdAt(s, j, id) ==> FindId(s).Some? && i <= j
    decreases s
  {
    if s == [] { return 0; }
    IdAtHead(s, if FindId(s).Some? then FindId(s).value else []);
    i := 0;
    if !(ID_MARK <= s && LEAST_ID_LENGTH <= Span(s[|ID_MARK|..], IsIdChar)) {
      var k := FindsLeftmostId(s[1..]);
      i := k + 1;
      if FindId(s).Some? { IdInTail(s, k, FindId(s).value); }
      forall j: nat, id | IdAt(s, j, id) ensures FindId(s).Some? && i <= j {
        IdAtHead(s, id);
        if j != 0 { IdInTail(s, j - 1, id); }
      }
    }
  }

  /** The search for the tab reads the number of the leftmost gid parameter. */
  lemma {:induction false} FindsLeftmostGid(s: string) returns (i: nat, digits: string)
    ensures FindGid(s).Some? ==> GidAt(s, i, digits) && FindGid(s).value == ReadDigits(digits)
    ensures forall j: nat, other :: GidAt(s, j, other) ==> FindGid(s).Some? && i <= j
    decreases s
  {
    if s == [] { return 0, []; }
    i, digits := 0, if 5 <= |s| then s[5..][..Span(s[5..], IsDigit)] else [];
    GidAtHead(s, digits);
    if !GidAt(s, 0, digits) {
      var k, found := FindsLeftmostGid(s[1..]);
      i, digits := k + 1, found;
      GidInTail(s, k, found);
      forall j: nat, other | GidAt(s, j, other) ensures FindGid(s).Some? && i <= j {
        GidAtHead(s, other);
        if j != 0 { GidInTail(s, j - 1, other); }
      }
    }
  }

  /** A bare id is the first tab of its spreadsheet; otherwise a link must hold an id and may name a tab. */
  lemma ParseInPlainTerms(input: string)
    ensures var s := Trim(input);
      var bare := 20 <= |s| && forall i :: 0 <= i < |s| ==> IsIdChar(s[i]);
      Parse(input) == if bare then Some(ParsedSheetUrl(s, 0))
                      else if FindId(s).None? then None
                      else Some(ParsedSheetUrl(FindId(s).value, if FindGid(s).Some? then FindGid(s).value else 0))
  {
    GidIsNoNegative(Trim(input));
  }

  /** The link the dialog shows for a task, letter by letter. */
  lemma PrintInPlainTerms(p: ParsedSheetUrl)
    requires 0 <= p.sheetGid
    ensures Print(p) == "https://docs.google.com/spreadsheets/d/" + p.spreadsheetId + "/edit#gid=" + Digits(p.sheetGid)
  {
    assert "https://docs.google.com/spreadsheets/d/" == HOST + ID_MARK;
    assert "/edit#gid=" == "/edit" + ("#" + GID_MARK);
  }

  lemma GidIsNoNegative(s: string)
    ensures FindGid(s).Some? ==> 0 <= FindGid(s).value
  {
    var i, digits := FindsLeftmostGid(s);
    DigitsAreNoNegative(digits);
  }

  lemma {:induction false} DigitsAreNoNegative(digits: string)
    ensures (forall k :: 0 <= k < |digits| ==> IsDigit(digits[k])) ==> 0 <= ReadDigits(digits)
  {
    if digits != [] { DigitsAreNoNegative(digits[..|digits| - 1]); }
  }
}
