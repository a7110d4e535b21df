/** The regular expressions of `LegalAnalyzer` (app/core/legal_analyzer.py)
    for dates, amounts and clauses, written as matchers, and `re.finditer` as
    a scanner over them.

    Each pattern is matched at one position by a function that gives the end
    of the match there, if any. For these patterns backtracking never changes
    the outcome: every quantified part is followed by a character that it
    cannot consume, so the greedy choice is the only one that can succeed.
    `Scan` then tries positions from left to right and resumes after each
    match, as `finditer` does. */
module LegalPatterns {
  import opened Wrappers
  import opened Strings

  // ---------------------------------------------------------------------
  // Substrings and literal alternatives.

  /** Python's `t in s` on strings. */
  predicate Contains(s: string, t: string)
    decreases |s|
  {
    t <= s || (s != [] && Contains(s[1..], t))
  }

  /** `t` occurs in `s` at position `i`. */
  predicate OccursAt(s: string, t: string, i: nat) {
    i + |t| <= |s| && s[i..i + |t|] == t
  }

  /** An occurrence at any position is found by `Contains`. */
  lemma {:induction false} OccursContains(s: string, t: string, i: nat)
    requires OccursAt(s, t, i)
    ensures Contains(s, t)
    decreases i
  {
    if i == 0 {
      assert t <= s;
    } else {
      assert s[1..][i - 1..i - 1 + |t|] == s[i..i + |t|];
      OccursContains(s[1..], t, i - 1);
    }
  }

  /** `Contains` finds only real occurrences. */
  lemma {:induction false} ContainsOccurs(s: string, t: string) returns (i: nat)
    requires Contains(s, t)
    ensures OccursAt(s, t, i)
    decreases |s|
  {
    if t <= s {
      i := 0;
      assert s[..|t|] == t;
    } else {
      var j := ContainsOccurs(s[1..], t);
      i := j + 1;
      assert s[1..][j..j + |t|] == s[i..i + |t|];
    }
  }

  /** The first of `alts[j..]` that `t` begins with: how an alternation of
      fixed words chooses. */
  function FirstAlt(t: string, alts: seq<string>, j: nat): (r: Option<nat>)
    requires j <= |alts|
    ensures r.Some? ==> j <= r.value < |alts| && alts[r.value] <= t
    ensures r.Some? ==> forall k :: j <= k < r.value ==> !(alts[k] <= t)
    ensures r.None? ==> forall k :: j <= k < |alts| ==> !(alts[k] <= t)
    decreases |alts| - j
  {
    if j == |alts| then None
    else if alts[j] <= t then Some(j)
    else FirstAlt(t, alts, j + 1)
  }

  // ---------------------------------------------------------------------
  // Runs and boundaries.

  /** The number of digits starting at `i`. */
  function DigitsAt(s: string, i: nat): (n: nat)
    requires i <= |s|
    ensures i + n <= |s|
    ensures forall k :: i <= k < i + n ==> IsDigit(s[k])
    ensures i + n < |s| ==> !IsDigit(s[i + n])
    decreases |s| - i
  {
    if i < |s| && IsDigit(s[i]) then 1 + DigitsAt(s, i + 1) else 0
  }

  /** The number of white-space characters starting at `i`. */
  function SpacesAt(s: string, i: nat): (n: nat)
    requires i <= |s|
    ensures i + n <= |s|
    ensures forall k :: i <= k < i + n ==> IsSpace(s[k])
    ensures i + n < |s| ==> !IsSpace(s[i + n])
    decreases |s| - i
  {
    if i < |s| && IsSpace(s[i]) then 1 + SpacesAt(s, i + 1) else 0
  }

  /** `\b` in front of a word character at `i`. */
  predicate BoundaryBefore(s: string, i: nat)
    requires i <= |s|
  {
    i == 0 || !IsWordChar(s[i - 1])
  }

  /** `\b` after a word character that ends at `j`. */
  predicate BoundaryAfter(s: string, j: nat)
    requires j <= |s|
  {
    j == |s| || !IsWordChar(s[j])
  }

  /** `[/-]` at `j`. */
  predicate DateSeparatorAt(s: string, j: nat) {
    j < |s| && (s[j] == '/' || s[j] == '-')
  }

  // ---------------------------------------------------------------------
  // Dates.

  const Months: seq<string> := [
    "january", "february", "march", "april", "may", "june", "july",
    "august", "september", "october", "november", "december"
  ]

  /** `\b(\d{1,2})\s+(January|...|December)\s+(\d{4})\b`, ignoring case. */
  function DayMonthYearAt(s: string, i: nat): Option<nat>
    requires i <= |s|
  {
    var d := DigitsAt(s, i);
    if d == 0 || d > 2 || !BoundaryBefore(s, i) then None
    else
      var j := i + d + SpacesAt(s, i + d);
      if j == i + d then None
      else
        match FirstAlt(LowerStr(s)[j..], Months, 0)
        case None => None
        case Some(m) =>
          var k := j + |Months[m]|;
          var y := k + SpacesAt(s, k);
          if y == k || DigitsAt(s, y) < 4 || !BoundaryAfter(s, y + 4) then None else Some(y + 4)
  }

  /** `\b(\d{4})[/-](\d{1,2})[/-](\d{1,2})\b`. */
  function YearMonthDayAt(s: string, i: nat): Option<nat>
    requires i <= |s|
  {
    if DigitsAt(s, i) != 4 || !BoundaryBefore(s, i) || !DateSeparatorAt(s, i + 4) then None
    else
      var m := DigitsAt(s, i + 5);
      if m == 0 || m > 2 || !DateSeparatorAt(s, i + 5 + m) then None
      else
        var e := DigitsAt(s, i + 6 + m);
        if e == 0 || e > 2 || !BoundaryAfter(s, i + 6 + m + e) then None else Some(i + 6 + m + e)
  }

  /** `\b(\d{1,2})[/-](\d{1,2})[/-](\d{4})\b`. */
  function DayMonthYearNumericAt(s: string, i: nat): Option<nat>
    requires i <= |s|
  {
    var d := DigitsAt(s, i);
    if d == 0 || d > 2 || !BoundaryBefore(s, i) || !DateSeparatorAt(s, i + d) then None
    else
      var m := DigitsAt(s, i + d + 1);
      if m == 0 || m > 2 || !DateSeparatorAt(s, i + d + 1 + m) then None
      else
        var y := i + d + m + 2;
        if DigitsAt(s, y) < 4 || !BoundaryAfter(s, y + 4) then None else Some(y + 4)
  }

  // ---------------------------------------------------------------------
  // Amounts.

  /** `(?:[,\s]\d{3})*`, taken as often as it matches. */
  function GroupsEnd(s: string, p: nat): (q: nat)
    requires p <= |s|
    ensures p <= q <= |s|
    ensures p < q ==> IsDigit(s[q - 1])
    decreases |s| - p
  {
    if p + 4 <= |s| && (s[p] == ',' || IsSpace(s[p])) && IsDigit(s[p + 1]) && IsDigit(s[p + 2]) && IsDigit(s[p + 3])
    then GroupsEnd(s, p + 4)
    else p
  }

  /** `\d+(?:[,\s]\d{3})*(?:\.\d{2})?` from a digit at `j`. */
  function NumberEnd(s: string, j: nat): (q: nat)
    requires j <= |s|
    ensures j + DigitsAt(s, j) <= q <= |s|
    ensures DigitsAt(s, j) > 0 ==> IsDigit(s[q - 1])
  {
    var p := GroupsEnd(s, j + DigitsAt(s, j));
    if p + 3 <= |s| && s[p] == '.' && IsDigit(s[p + 1]) && IsDigit(s[p + 2]) then p + 3 else p
  }

  /** `R\s*(amount)`. */
  function RandPrefixAt(s: string, i: nat): Option<nat>
    requires i < |s|
  {
    if s[i] != 'R' then None
    else
      var j := i + 1 + SpacesAt(s, i + 1);
      if DigitsAt(s, j) == 0 then None else Some(NumberEnd(s, j))
  }

  /** `(amount)\s*Rands?`, ignoring case. */
  function RandSuffixAt(s: string, i: nat): Option<nat>
    requires i <= |s|
  {
    if DigitsAt(s, i) == 0 then None
    else
      var q := NumberEnd(s, i);
      var k := q + SpacesAt(s, q);
      if !("rand" <= LowerStr(s)[k..]) then None
      else if k + 4 < |s| && Lower(s[k + 4]) == 's' then Some(k + 5)
      else Some(k + 4)
  }

  /** `ZAR\s*(amount)`. */
  function ZarPrefixAt(s: string, i: nat): Option<nat>
    requires i <= |s|
  {
    if !("ZAR" <= s[i..]) then None
    else
      var j := i + 3 + SpacesAt(s, i + 3);
      if DigitsAt(s, j) == 0 then None else Some(NumberEnd(s, j))
  }

  // ---------------------------------------------------------------------
  // Patterns and the scanner.

  datatype Pattern =
    | Literals(alts: seq<string>)    // fixed words, tried in order
    | DayMonthYear
    | YearMonthDay
    | DayMonthYearNumeric
    | RandPrefix
    | RandSuffix
    | ZarPrefix

  /** No alternative is empty, so every match is non-empty. */
  predicate WellFormed(p: Pattern) {
    p.Literals? ==> forall k :: 0 <= k < |p.alts| ==> p.alts[k] != []
  }

  /** Where a match of `p` that starts at `i` ends. */
  function MatchEnd(p: Pattern, s: string, i: nat): (r: Option<nat>)
    requires i < |s| && WellFormed(p)
    ensures r.Some? ==> i < r.value <= |s|
  {
    match p
    case Literals(alts) =>
      (match FirstAlt(s[i..], alts, 0)
       case None => None
       case Some(k) => Some(i + |alts[k]|))
    case DayMonthYear => DayMonthYearAt(s, i)
    case YearMonthDay => YearMonthDayAt(s, i)
    case DayMonthYearNumeric => DayMonthYearNumericAt(s, i)
    case RandPrefix => RandPrefixAt(s, i)
    case RandSuffix => RandSuffixAt(s, i)
    case ZarPrefix => ZarPrefixAt(s, i)
  }

  /** Where the pattern matches: for each position, the end of the match
      that starts there. */
  function Ends(p: Pattern, s: string): (r: seq<Option<nat>>)
    requires WellFormed(p)
    ensures |r| == |s| && ValidEnds(r)
  {
    seq(|s|, i requires 0 <= i < |s| => MatchEnd(p, s, i))
  }

  /** Every match is non-empty and stays inside the text. */
  predicate ValidEnds(ends: seq<Option<nat>>) {
    forall i :: 0 <= i < |ends| && ends[i].Some? ==> i < ends[i].value <= |ends|
  }

  datatype Span = Span(start: nat, end: nat)

  /** `re.finditer` from position `i`: the leftmost match, then the leftmost
      match after it, and so on. */
  function ScanFrom(ends: seq<Option<nat>>, i: nat): (r: seq<Span>)
    requires ValidEnds(ends) && i <= |ends|
    ensures forall k :: 0 <= k < |r| ==>
      i <= r[k].start < r[k].end <= |ends| && ends[r[k].start] == Some(r[k].end)
    ensures forall k, l :: 0 <= k < l < |r| ==> r[k].end <= r[l].start
    decreases |ends| - i
  {
    if i == |ends| then []
    else
      match ends[i]
      case Some(e) => [Span(i, e)] + ScanFrom(ends, e)
      case None => ScanFrom(ends, i + 1)
  }

  /** `re.finditer(p, s)`. */
  function Scan(p: Pattern, s: string): (r: seq<Span>)
    requires WellFormed(p)
    ensures forall k :: 0 <= k < |r| ==>
      r[k].start < r[k].end <= |s| && MatchEnd(p, s, r[k].start) == Some(r[k].end)
    ensures forall k, l :: 0 <= k < l < |r| ==> r[k].end <= r[l].start
  {
    ScanFrom(Ends(p, s), 0)
  }

  /** No match is missed: every position where the pattern matches lies in
      one of the spans found. */
  lemma {:induction false} ScanCovers(ends: seq<Option<nat>>, i: nat, j: nat) returns (k: nat)
    requires ValidEnds(ends) && i <= j < |ends| && ends[j].Some?
    ensures k < |ScanFrom(ends, i)| && ScanFrom(ends, i)[k].start <= j < ScanFrom(ends, i)[k].end
    decreases |ends| - i
  {
    match ends[i]
    case Some(e) =>
      assert ScanFrom(ends, i) == [Span(i, e)] + ScanFrom(ends, e);
      if j < e {
        k := 0;
      } else {
        var l := ScanCovers(ends, e, j);
        k := l + 1;
      }
    case None =>
      k := ScanCovers(ends, i + 1, j);
  }

  /** A scan from `i` starts at the first position from `i` where the
      pattern matches. */
  lemma {:induction false} ScanLeftmost(ends: seq<Option<nat>>, i: nat)
    requires ValidEnds(ends) && i <= |ends| && ScanFrom(ends, i) != []
    ensures forall j :: i <= j < ScanFrom(ends, i)[0].start ==> ends[j].None?
    decreases |ends| - i
  {
    if ends[i].None? {
      ScanLeftmost(ends, i + 1);
    }
  }

  /** Every position where `p` matches is inside a span of `Scan(p, s)`, and
      the first span starts at the first such position. */
  lemma ScanComplete(p: Pattern, s: string, j: nat) returns (k: nat)
    requires WellFormed(p) && j < |s| && MatchEnd(p, s, j).Some?
    ensures k < |Scan(p, s)| && Scan(p, s)[k].start <= j < Scan(p, s)[k].end
    ensures forall m :: 0 <= m < Scan(p, s)[0].start ==> MatchEnd(p, s, m).None?
  {
    var ends := Ends(p, s);
    assert forall m :: 0 <= m < |s| ==> ends[m] == MatchEnd(p, s, m);
    k := ScanCovers(ends, 0, j);
    ScanLeftmost(ends, 0);
  }

  /** The pattern matches nowhere in `s`. */
  predicate NoMatch(p: Pattern, s: string)
    requires WellFormed(p)
  {
    forall i :: 0 <= i < |s| ==> MatchEnd(p, s, i).None?
  }

  /** `re.finditer` finds nothing exactly when the pattern matches nowhere. */
  lemma ScanEmptyIff(p: Pattern, s: string)
    requires WellFormed(p)
    ensures Scan(p, s) == [] <==> NoMatch(p, s)
  {
    if Scan(p, s) != [] {
      assert MatchEnd(p, s, Scan(p, s)[0].start).Some?;
    } else {
      forall i | 0 <= i < |s| ensures MatchEnd(p, s, i).None? {
        if MatchEnd(p, s, i).Some? {
          var k := ScanComplete(p, s, i);
        }
      }
    }
  }

  /** No alternative begins or ends with white space. */
  predicate Trimmed(p: Pattern) {
    p.Literals? ==> forall k :: 0 <= k < |p.alts| ==>
      p.alts[k] != [] && !IsSpace(p.alts[k][0]) && !IsSpace(p.alts[k][|p.alts[k]| - 1])
  }

  /** A literal match begins and ends like the alternative that matched. */
  lemma LiteralsTrimmed(alts: seq<string>, s: string, i: nat)
    requires Trimmed(Literals(alts)) && i < |s| && FirstAlt(s[i..], alts, 0).Some?
    ensures !IsSpace(s[i]) && !IsSpace(s[i + |alts[FirstAlt(s[i..], alts, 0).value]| - 1])
  {
    var t := alts[FirstAlt(s[i..], alts, 0).value];
    assert s[i..][0] == s[i] && s[i..][|t| - 1] == s[i + |t| - 1];
  }

  /** A date match begins and ends with a digit. */
  lemma DatesTrimmed(s: string, i: nat)
    requires i < |s|
    ensures DayMonthYearAt(s, i).Some? ==> IsDigit(s[i]) && IsDigit(s[DayMonthYearAt(s, i).value - 1])
    ensures YearMonthDayAt(s, i).Some? ==> IsDigit(s[i]) && IsDigit(s[YearMonthDayAt(s, i).value - 1])
    ensures DayMonthYearNumericAt(s, i).Some? ==> IsDigit(s[i]) && IsDigit(s[DayMonthYearNumericAt(s, i).value - 1])
  {
  }

  /** A match of `R\s*(amount)` or `ZAR\s*(amount)` begins with a letter
      and ends with a digit. */
  lemma PrefixAmountsTrimmed(s: string, i: nat)
    requires i < |s|
    ensures RandPrefixAt(s, i).Some? ==> s[i] == 'R' && IsDigit(s[RandPrefixAt(s, i).value - 1])
    ensures ZarPrefixAt(s, i).Some? ==> s[i] == 'Z' && IsDigit(s[ZarPrefixAt(s, i).value - 1])
  {
    if ZarPrefixAt(s, i).Some? {
      assert s[i..][0] == s[i];
    }
  }

  /** A match of `(amount)\s*Rands?` begins with a digit and ends with the
      `d` or the `s` of the currency word. */
  lemma SuffixAmountTrimmed(s: string, i: nat)
    requires i < |s| && RandSuffixAt(s, i).Some?
    ensures IsDigit(s[i]) && Lower(s[RandSuffixAt(s, i).value - 1]) in {'d', 's'}
  {
    var k := NumberEnd(s, i) + SpacesAt(s, NumberEnd(s, i));
    assert LowerStr(s)[k..][3] == LowerStr(s)[k + 3];
  }

  /** A match begins and ends with a character that is not white space. */
  lemma MatchTrimmed(p: Pattern, s: string, i: nat)
    requires WellFormed(p) && Trimmed(p) && i < |s| && MatchEnd(p, s, i).Some?
    ensures !IsSpace(s[i]) && !IsSpace(s[MatchEnd(p, s, i).value - 1])
  {
    if p.Literals? {
      LiteralMatchTrimmed(p, s, i);
    } else if p == RandSuffix {
      SuffixMatchTrimmed(p, s, i);
    } else if p == RandPrefix || p == ZarPrefix {
      PrefixMatchTrimmed(p, s, i);
    } else {
      DateMatchTrimmed(p, s, i);
    }
  }

  lemma LiteralMatchTrimmed(p: Pattern, s: string, i: nat)
    requires p.Literals? && WellFormed(p) && Trimmed(p) && i < |s| && MatchEnd(p, s, i).Some?
    ensures !IsSpace(s[i]) && !IsSpace(s[MatchEnd(p, s, i).value - 1])
  {
    LiteralsTrimmed(p.alts, s, i);
  }

  lemma DateMatchTrimmed(p: Pattern, s: string, i: nat)
    requires p == DayMonthYear || p == YearMonthDay || p == DayMonthYearNumeric
    requires i < |s| && MatchEnd(p, s, i).Some?
    ensures !IsSpace(s[i]) && !IsSpace(s[MatchEnd(p, s, i).value - 1])
  {
    DatesTrimmed(s, i);
  }

  lemma PrefixMatchTrimmed(p: Pattern, s: string, i: nat)
    requires p == RandPrefix || p == ZarPrefix
    requires i < |s| && MatchEnd(p, s, i).Some?
    ensures !IsSpace(s[i]) && !IsSpace(s[MatchEnd(p, s, i).value - 1])
  {
    PrefixAmountsTrimmed(s, i);
  }

  lemma SuffixMatchTrimmed(p: Pattern, s: string, i: nat)
    requires p == RandSuffix && i < |s| && MatchEnd(p, s, i).Some?
    ensures !IsSpace(s[i]) && !IsSpace(s[MatchEnd(p, s, i).value - 1])
  {
    SuffixAmountTrimmed(s, i);
    var c := s[RandSuffixAt(s, i).value - 1];
    assert !IsSpace(Lower(c));
  }

  // ---------------------------------------------------------------------
  // The clause patterns, over the lower-cased text, in declared order.
  // The optional parts of `end(?:ing)? (?:of )?(?:this )?agreement`,
  // `confidential(?:ity)?` and `indemnif(?:y|ication)` are written out.

  const ClausePatterns: seq<(string, Pattern)> := [
    ("confidentiality", Literals(["confidentiality", "confidential", "non-disclosure", "proprietary information"])),
    ("termination", Literals(["termination", "cancellation",
      "ending of this agreement", "ending of agreement", "ending this agreement", "ending agreement",
      "end of this agreement", "end of agreement", "end this agreement", "end agreement"])),
    ("payment", Literals(["payment", "compensation", "remuneration", "salary", "fee", "amount"])),
    ("liability", Literals(["liability", "responsible", "accountable", "liable"])),
    ("indemnity", Literals(["indemnify", "indemnification", "hold harmless"])),
    ("dispute_resolution", Literals(["dispute resolution", "arbitration", "mediation", "jurisdiction"])),
    ("force_majeure", Literals(["force majeure", "act of god", "unforeseen circumstances"])),
    ("amendment", Literals(["amendment", "modification", "change", "alteration"])),
    ("notice", Literals(["notice", "notification", "inform", "advise in writing"])),
    ("governing_law", Literals(["governing law", "applicable law", "south african law"]))
  ]

  lemma ClausePatternsWellFormed()
    ensures |ClausePatterns| == 10
    ensures forall k :: 0 <= k < |ClausePatterns| ==> WellFormed(ClausePatterns[k].1)
  {
  }

  lemma ClausePatternsTrimmed()
    ensures forall k :: 0 <= k < |ClausePatterns| ==> Trimmed(ClausePatterns[k].1)
  {
  }
}
