/** The parts of `LegalAnalyzer` (app/core/legal_analyzer.py) that look at the
    text as a whole: the context window around a match, the risk score and
    the document-type guess. */
module LegalText {
  import opened Strings
  import opened LegalPatterns

  // ---------------------------------------------------------------------
  // `_get_context`.

  /** `max(0, start - chars)`. */
  function WindowStart(start: nat, chars: nat): nat {
    if start >= chars then start - chars else 0
  }

  /** `min(len(text), end + chars)`. */
  function WindowEnd(end: nat, chars: nat, length: nat): nat {
    if end + chars <= length then end + chars else length
  }

  function Ellipsis(b: bool): string {
    if b then "..." else ""
  }

  /** The stripped text from `chars` before the match to `chars` after it,
      with "..." on each side where the window stops short of the text's
      end. */
  function Context(text: string, start: nat, end: nat, chars: nat): string
    requires start <= end <= |text|
  {
    var cs := WindowStart(start, chars);
    var ce := WindowEnd(end, chars, |text|);
    Ellipsis(cs > 0) + Strip(text[cs..ce]) + Ellipsis(ce < |text|)
  }

  /** The context starts with "..." where the window starts after the text
      does and ends with "..." where it stops before the text does; a window
      over the whole text gives the stripped text; the context is never
      more than six characters longer than its window; and a side where the
      window reaches the text's edge gets no "...". */
  lemma ContextEllipses(text: string, start: nat, end: nat, chars: nat)
    requires start <= end <= |text|
    ensures WindowStart(start, chars) > 0 ==> "..." <= Context(text, start, end, chars)
    ensures WindowEnd(end, chars, |text|) < |text| ==>
      var r := Context(text, start, end, chars); |r| >= 3 && r[|r| - 3..] == "..."
    ensures WindowStart(start, chars) == 0 && WindowEnd(end, chars, |text|) == |text| ==>
      Context(text, start, end, chars) == Strip(text)
    ensures |Context(text, start, end, chars)| <= WindowEnd(end, chars, |text|) - WindowStart(start, chars) + 6
    ensures WindowStart(start, chars) == 0 ==>
      Context(text, start, end, chars) == Strip(text[..WindowEnd(end, chars, |text|)]) + Ellipsis(WindowEnd(end, chars, |text|) < |text|)
    ensures WindowEnd(end, chars, |text|) == |text| ==>
      Context(text, start, end, chars) == Ellipsis(WindowStart(start, chars) > 0) + Strip(text[WindowStart(start, chars)..])
  {
    var cs := WindowStart(start, chars);
    var ce := WindowEnd(end, chars, |text|);
    StripSlice(text[cs..ce]);
    assert cs == 0 && ce == |text| ==> text[cs..ce] == text;
    assert cs == 0 ==> text[cs..ce] == text[..ce];
    assert ce == |text| ==> text[cs..ce] == text[cs..];
  }

  /** Strip keeps every stretch of `s` that begins and ends with a character
      that is not white space. */
  lemma StripKeepsInner(s: string, a: nat, b: nat) returns (i: nat)
    requires a < b <= |s| && !IsSpace(s[a]) && !IsSpace(s[b - 1])
    ensures OccursAt(Strip(s), s[a..b], i)
  {
    var l := RunLength(s, Space);
    StripSlice(s);
    var t := Strip(s);
    assert !In(s[a], Space) && !In(s[b - 1], Space);
    assert l <= a && b <= l + |t|;
    i := a - l;
    SliceOfSlice(s, l, l + |t|, a, b);
  }

  lemma SliceOfSlice(s: string, l: nat, h: nat, a: nat, b: nat)
    requires l <= a <= b <= h <= |s|
    ensures s[l..h][a - l..b - l] == s[a..b]
  {
    var x := s[l..h][a - l..b - l];
    assert |x| == b - a;
    assert forall k :: 0 <= k < b - a ==> x[k] == s[a + k];
  }

  /** The context of a match whose ends are not white space shows the match. */
  lemma ContextShowsMatch(text: string, start: nat, end: nat, chars: nat) returns (i: nat)
    requires start < end <= |text| && !IsSpace(text[start]) && !IsSpace(text[end - 1])
    ensures OccursAt(Context(text, start, end, chars), text[start..end], i)
  {
    var cs := WindowStart(start, chars);
    var ce := WindowEnd(end, chars, |text|);
    i := WindowShowsMatch(text, cs, ce, start, end, Ellipsis(cs > 0), Ellipsis(ce < |text|));
  }

  lemma WindowShowsMatch(text: string, cs: nat, ce: nat, start: nat, end: nat, pre: string, post: string) returns (i: nat)
    requires cs <= start < end <= ce <= |text| && !IsSpace(text[start]) && !IsSpace(text[end - 1])
    ensures OccursAt(pre + Strip(text[cs..ce]) + post, text[start..end], i)
  {
    SliceOfSlice(text, cs, ce, start, end);
    var j := StripKeepsInner(text[cs..ce], start - cs, end - cs);
    OccursWithin(pre, Strip(text[cs..ce]), post, text[start..end], j);
    i := |pre| + j;
  }

  lemma OccursWithin(pre: string, mid: string, post: string, t: string, j: nat)
    requires OccursAt(mid, t, j)
    ensures OccursAt(pre + mid + post, t, |pre| + j)
  {
    assert (pre + mid + post)[|pre| + j..|pre| + j + |t|] == mid[j..j + |t|];
  }

  // ---------------------------------------------------------------------
  // `calculate_risk_score`.

  const HighRiskTerms: seq<string> := [
    "penalty", "penalties", "termination", "breach", "default",
    "liability", "damages", "indemnify", "indemnification",
    "waiver", "forfeit", "forfeiture", "non-refundable",
    "irrevocable", "unconditional", "binding", "irreversible"
  ]

  const MediumRiskTerms: seq<string> := [
    "obligation", "obligations", "requirement", "requirements",
    "must", "shall", "mandatory", "compulsory", "necessary",
    "restricted", "prohibition", "prohibited", "forbidden"
  ]

  /** `sum(1 for term in terms if term in s)`: how many of the terms occur in
      `s`, each counted once however often it occurs. */
  function PresentCount(terms: seq<string>, s: string): (n: nat)
    ensures n <= |terms|
  {
    if terms == [] then 0
    else (if Contains(s, terms[0]) then 1 else 0) + PresentCount(terms[1..], s)
  }

  /** The positions from `j` on of the terms that occur in `s`. */
  function PresentFrom(terms: seq<string>, s: string, j: nat): (r: set<int>)
    ensures forall k :: k in r <==> j <= k < |terms| && Contains(s, terms[k])
  {
    set k: int | j <= k < |terms| && Contains(s, terms[k])
  }

  /** The count is the number of positions of `terms` whose term occurs in
      `s`. */
  lemma PresentCountIs(terms: seq<string>, s: string)
    ensures PresentCount(terms, s) == |PresentFrom(terms, s, 0)|
  {
    PresentCountFrom(terms, s, 0);
    assert terms[0..] == terms;
  }

  lemma {:induction false} PresentCountFrom(terms: seq<string>, s: string, j: nat)
    requires j <= |terms|
    ensures PresentCount(terms[j..], s) == |PresentFrom(terms, s, j)|
    decreases |terms| - j
  {
    var here := PresentFrom(terms, s, j);
    if j == |terms| {
      assert here == {};
    } else {
      PresentCountFrom(terms, s, j + 1);
      var later := PresentFrom(terms, s, j + 1);
      assert terms[j..][0] == terms[j];
      assert terms[j..][1..] == terms[j + 1..];
      assert PresentCount(terms[j..], s)
        == (if Contains(s, terms[j]) then 1 else 0) + PresentCount(terms[j + 1..], s);
      if Contains(s, terms[j]) {
        assert here == {j} + later;
        assert j !in later;
      } else {
        assert here == later;
      }
    }
  }

  /** A term that occurs counts. */
  lemma {:induction false} PresentCountHas(terms: seq<string>, s: string, a: nat)
    requires a < |terms| && Contains(s, terms[a])
    ensures PresentCount(terms, s) >= 1
  {
    if a > 0 {
      PresentCountHas(terms[1..], s, a - 1);
    }
  }

  /** Two different terms that occur count twice, even when one lies inside
      the other. */
  lemma {:induction false} PresentCountTwo(terms: seq<string>, s: string, a: nat, b: nat)
    requires a < b < |terms| && Contains(s, terms[a]) && Contains(s, terms[b])
    ensures PresentCount(terms, s) >= 2
  {
    if a > 0 {
      PresentCountTwo(terms[1..], s, a - 1, b - 1);
    } else {
      PresentCountHas(terms[1..], s, b - 1);
    }
  }

  /** A text that contains every term that another contains scores at least
      the same count. */
  lemma {:induction false} PresentCountMonotone(terms: seq<string>, s: string, t: string)
    requires forall k :: 0 <= k < |terms| && Contains(s, terms[k]) ==> Contains(t, terms[k])
    ensures PresentCount(terms, s) <= PresentCount(terms, t)
  {
    if terms != [] {
      assert Contains(s, terms[0]) ==> Contains(t, terms[0]);
      forall k | 0 <= k < |terms[1..]| && Contains(s, terms[1..][k]) ensures Contains(t, terms[1..][k]) {
        assert terms[1..][k] == terms[k + 1];
      }
      PresentCountMonotone(terms[1..], s, t);
    }
  }

  datatype RiskAssessment = RiskAssessment(
    riskScore: real,
    riskLevel: string,
    color: string,
    highRiskTermsFound: nat,
    mediumRiskTermsFound: nat,
    totalRiskTerms: nat)

  /** High terms weigh three points and medium ones one; fifty points or more
      is the full score of 100. */
  function RiskScore(high: nat, medium: nat): (r: real)
    ensures 0.0 <= r <= 100.0
    ensures 3 * high + medium >= 50 ==> r == 100.0
    ensures 3 * high + medium < 50 ==> r * 50.0 == ((3 * high + medium) * 100) as real
  {
    var raw := (3 * high + medium) as real;
    if raw / 50.0 * 100.0 < 100.0 then raw / 50.0 * 100.0 else 100.0
  }

  function RiskLevelOf(score: real): string {
    if score >= 70.0 then "High Risk" else if score >= 40.0 then "Medium Risk" else "Low Risk"
  }

  function RiskColorOf(score: real): string {
    if score >= 70.0 then "red" else if score >= 40.0 then "orange" else "green"
  }

  /** `calculate_risk_score` before rounding. */
  function RiskOf(text: string): (r: RiskAssessment)
    ensures r.highRiskTermsFound <= |HighRiskTerms| == 17
    ensures r.mediumRiskTermsFound <= |MediumRiskTerms| == 13
    ensures r.totalRiskTerms == r.highRiskTermsFound + r.mediumRiskTermsFound
    ensures r.riskScore == RiskScore(r.highRiskTermsFound, r.mediumRiskTermsFound)
    ensures r.riskLevel == "High Risk" <==> r.riskScore >= 70.0
    ensures r.riskLevel == "Medium Risk" <==> 40.0 <= r.riskScore < 70.0
    ensures r.riskLevel == "Low Risk" <==> r.riskScore < 40.0
    ensures (r.color == "red" <==> r.riskLevel == "High Risk")
      && (r.color == "orange" <==> r.riskLevel == "Medium Risk")
      && (r.color == "green" <==> r.riskLevel == "Low Risk")
  {
    var lower := LowerStr(text);
    var high := PresentCount(HighRiskTerms, lower);
    var medium := PresentCount(MediumRiskTerms, lower);
    var score := RiskScore(high, medium);
    RiskAssessment(score, RiskLevelOf(score), RiskColorOf(score), high, medium, high + medium)
  }

  /** A text holding every risk term another holds scores at least as high. */
  lemma RiskMonotone(a: string, b: string)
    requires forall k :: 0 <= k < |HighRiskTerms| && Contains(LowerStr(a), HighRiskTerms[k]) ==> Contains(LowerStr(b), HighRiskTerms[k])
    requires forall k :: 0 <= k < |MediumRiskTerms| && Contains(LowerStr(a), MediumRiskTerms[k]) ==> Contains(LowerStr(b), MediumRiskTerms[k])
    ensures RiskOf(a).riskScore <= RiskOf(b).riskScore
  {
    PresentCountMonotone(HighRiskTerms, LowerStr(a), LowerStr(b));
    PresentCountMonotone(MediumRiskTerms, LowerStr(a), LowerStr(b));
  }

  /** The word "obligations" hits two medium terms: itself and "obligation". */
  lemma ObligationsCountTwice(text: string)
    requires Contains(LowerStr(text), "obligations")
    ensures RiskOf(text).mediumRiskTermsFound >= 2
  {
    var s := LowerStr(text);
    var i := ContainsOccurs(s, "obligations");
    assert s[i..i + 10] == s[i..i + 11][..10];
    OccursContains(s, "obligation", i);
    PresentCountTwo(MediumRiskTerms, s, 0, 1);
  }

  // ---------------------------------------------------------------------
  // `identify_document_type`.

  const DocumentTypes: seq<(string, seq<string>)> := [
    ("Employment Contract", ["employment", "employee", "employer", "position", "duties"]),
    ("Lease Agreement", ["lease", "tenant", "landlord", "premises", "rent", "rental"]),
    ("NDA", ["non-disclosure", "confidential", "confidentiality agreement", "nda"]),
    ("Service Agreement", ["service", "services", "provider", "client", "deliverables"]),
    ("Sales Agreement", ["sale", "purchase", "buyer", "seller", "goods"]),
    ("Partnership Agreement", ["partner", "partnership", "joint venture"]),
    ("Loan Agreement", ["loan", "lender", "borrower", "principal", "interest"])
  ]

  const UnknownType := "Unknown Document Type"

  /** The score of each document type: how many of its keywords occur. */
  function TypeScores(lower: string): (r: seq<nat>)
    ensures |r| == |DocumentTypes|
  {
    seq(|DocumentTypes|, k requires 0 <= k < |DocumentTypes| => PresentCount(DocumentTypes[k].1, lower))
  }

  /** `max(scores, key=scores.get)`: the first index with the highest score. */
  function FirstMax(scores: seq<nat>): (k: nat)
    requires scores != []
    ensures k < |scores|
    ensures forall j :: 0 <= j < |scores| ==> scores[j] <= scores[k]
    ensures forall j :: 0 <= j < k ==> scores[j] < scores[k]
  {
    if |scores| == 1 then 0
    else
      var k := FirstMax(scores[..|scores| - 1]);
      if scores[|scores| - 1] > scores[k] then |scores| - 1 else k
  }

  /** The first type, in declared order, with the most keywords present, or
      "Unknown Document Type" when no keyword of any type occurs. */
  function DocumentTypeOf(text: string): (r: string)
    ensures (forall k :: 0 <= k < |DocumentTypes| ==> TypeScores(LowerStr(text))[k] == 0) ==> r == UnknownType
    ensures (exists k :: 0 <= k < |DocumentTypes| && TypeScores(LowerStr(text))[k] > 0) ==>
      r == DocumentTypes[FirstMax(TypeScores(LowerStr(text)))].0
  {
    var scores := TypeScores(LowerStr(text));
    var k := FirstMax(scores);
    if scores[k] > 0 then DocumentTypes[k].0 else UnknownType
  }

  /** "Unknown Document Type" is not a type name, so the fallback is told
      apart from every real guess. */
  lemma UnknownIsNoType(text: string)
    ensures DocumentTypeOf(text) == UnknownType <==>
      forall k :: 0 <= k < |DocumentTypes| ==> TypeScores(LowerStr(text))[k] == 0
  {
    var scores := TypeScores(LowerStr(text));
    if exists k :: 0 <= k < |DocumentTypes| && scores[k] > 0 {
      var k := FirstMax(scores);
      assert DocumentTypes[k].0 != UnknownType;
    }
  }
}
