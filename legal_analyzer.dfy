/** `LegalAnalyzer` (app/core/legal_analyzer.py): a `TextAnalyzer` over a
    legal document that also names the document type, the parties, the
    dates, the amounts in Rands, the standard clauses and a risk score, and
    remembers the four lists it extracts. */
module LegalAnalysis {
  import opened Wrappers
  import opened Strings
  import opened TextNormalizer
  import opened TextAnalysis
  import opened Analyzer
  import opened LegalPatterns
  import opened LegalText
  import opened Parties

  /** Every span lies inside a text of length `n`. */
  predicate Within(spans: seq<Span>, n: nat) {
    forall k :: 0 <= k < |spans| ==> spans[k].start <= spans[k].end <= n
  }

  /** A match shows up in its context, whatever the window. */
  lemma MatchShown(text: string, p: Pattern, start: nat, end: nat, chars: nat)
    requires WellFormed(p) && Trimmed(p) && start < |text| && MatchEnd(p, text, start) == Some(end)
    ensures end <= |text| && Contains(Context(text, start, end, chars), text[start..end])
  {
    MatchTrimmed(p, text, start);
    var i := ContextShowsMatch(text, start, end, chars);
    OccursContains(Context(text, start, end, chars), text[start..end], i);
  }

  /** The same for a match in the lower-cased text, whose context is cut
      from the text itself. */
  lemma LowerMatchShown(text: string, p: Pattern, start: nat, end: nat, chars: nat)
    requires WellFormed(p) && Trimmed(p) && start < |text| && MatchEnd(p, LowerStr(text), start) == Some(end)
    ensures end <= |text| && Contains(Context(text, start, end, chars), text[start..end])
  {
    MatchTrimmed(p, LowerStr(text), start);
    assert !IsSpace(text[start]) && !IsSpace(text[end - 1]);
    var i := ContextShowsMatch(text, start, end, chars);
    OccursContains(Context(text, start, end, chars), text[start..end], i);
  }

  // ---------------------------------------------------------------------
  // `extract_dates`.

  datatype DateEntry = DateEntry(date: string, format: string, context: string)

  const NoDates := DateEntry("No dates found", "N/A", "")

  /** The entry for one match: the matched text, the format's name and a
      context of 100 characters on each side. */
  function DateAt(text: string, m: Span, format: string): DateEntry
    requires m.start <= m.end <= |text|
  {
    DateEntry(text[m.start..m.end], format, Context(text, m.start, m.end, 100))
  }

  /** The entries of one pass, in the order of the matches. */
  function DateEntries(text: string, spans: seq<Span>, format: string): (r: seq<DateEntry>)
    requires Within(spans, |text|)
    ensures |r| == |spans|
  {
    if spans == [] then []
    else DateEntries(text, spans[..|spans| - 1], format) + [DateAt(text, spans[|spans| - 1], format)]
  }

  /** The `k`-th entry comes from the `k`-th match. */
  lemma {:induction false} DateEntriesAt(text: string, spans: seq<Span>, format: string, k: nat)
    requires Within(spans, |text|) && k < |spans|
    ensures DateEntries(text, spans, format)[k] == DateAt(text, spans[k], format)
  {
    if k < |spans| - 1 {
      DateEntriesAt(text, spans[..|spans| - 1], format, k);
    }
  }

  /** The three date patterns, one pass after the other. */
  function DatePasses(text: string): seq<DateEntry> {
    DateEntries(text, Scan(DayMonthYear, text), "DD Month YYYY")
    + DateEntries(text, Scan(YearMonthDay, text), "YYYY-MM-DD")
    + DateEntries(text, Scan(DayMonthYearNumeric, text), "DD/MM/YYYY")
  }

  function DatesOf(text: string): seq<DateEntry> {
    var ds := DatePasses(text);
    if ds == [] then [NoDates] else ds
  }

  /** Every entry of one pass carries its format and shows its date. */
  lemma DatePassShown(text: string, p: Pattern, format: string)
    requires p in {DayMonthYear, YearMonthDay, DayMonthYearNumeric}
    ensures forall x :: x in DateEntries(text, Scan(p, text), format) ==>
      x.format == format && Contains(x.context, x.date)
  {
    var es := DateEntries(text, Scan(p, text), format);
    forall x | x in es ensures x.format == format && Contains(x.context, x.date) {
      var k :| 0 <= k < |es| && es[k] == x;
      var m := Scan(p, text)[k];
      DateEntriesAt(text, Scan(p, text), format, k);
      MatchShown(text, p, m.start, m.end, 100);
    }
  }

  /** Each date found is shown inside its context and has one of the three
      formats; the only other entry is the "No dates found" placeholder. */
  lemma DatesShown(text: string)
    ensures forall x :: x in DatesOf(text) ==>
      x == NoDates || (x.format in {"DD Month YYYY", "YYYY-MM-DD", "DD/MM/YYYY"} && Contains(x.context, x.date))
  {
    DatePassShown(text, DayMonthYear, "DD Month YYYY");
    DatePassShown(text, YearMonthDay, "YYYY-MM-DD");
    DatePassShown(text, DayMonthYearNumeric, "DD/MM/YYYY");
  }

  /** The placeholder stands in exactly when the passes found nothing. */
  lemma DatesPlaceholder(text: string)
    ensures DatesOf(text) == [NoDates] <==> DatePasses(text) == []
  {
    DatePassShown(text, DayMonthYear, "DD Month YYYY");
    DatePassShown(text, YearMonthDay, "YYYY-MM-DD");
    DatePassShown(text, DayMonthYearNumeric, "DD/MM/YYYY");
    var ds := DatePasses(text);
    if ds != [] {
      assert ds[0] in ds;
    }
  }

  /** The placeholder is the answer exactly when no date pattern matches
      anywhere in the text. */
  lemma NoDatesIffNoMatch(text: string)
    ensures DatesOf(text) == [NoDates] <==>
      NoMatch(DayMonthYear, text) && NoMatch(YearMonthDay, text) && NoMatch(DayMonthYearNumeric, text)
  {
    DatesPlaceholder(text);
    assert DatePasses(text) == [] <==>
      Scan(DayMonthYear, text) == [] && Scan(YearMonthDay, text) == [] && Scan(DayMonthYearNumeric, text) == [];
    ScanEmptyIff(DayMonthYear, text);
    ScanEmptyIff(YearMonthDay, text);
    ScanEmptyIff(DayMonthYearNumeric, text);
  }

  /** One pass of `extract_dates`: append an entry per match. */
  method OfferDates(found: seq<DateEntry>, text: string, spans: seq<Span>, format: string) returns (r: seq<DateEntry>)
    requires Within(spans, |text|)
    ensures r == found + DateEntries(text, spans, format)
  {
    r := found;
    for k := 0 to |spans|
      invariant r == found + DateEntries(text, spans[..k], format)
    {
      assert spans[..k + 1][..k] == spans[..k];
      r := r + [DateAt(text, spans[k], format)];
    }
    assert spans[..|spans|] == spans;
  }

  // ---------------------------------------------------------------------
  // `extract_monetary_amounts`.

  datatype AmountEntry = AmountEntry(amount: string, currency: string, context: string)

  const NoAmounts := AmountEntry("No amounts found", "N/A", "")

  /** The entry for one match, in Rands, with a context of 100 characters
      on each side. */
  function AmountAt(text: string, m: Span): AmountEntry
    requires m.start <= m.end <= |text|
  {
    AmountEntry(text[m.start..m.end], "ZAR (Rands)", Context(text, m.start, m.end, 100))
  }

  /** The entries of one pass, in the order of the matches. */
  function AmountEntries(text: string, spans: seq<Span>): (r: seq<AmountEntry>)
    requires Within(spans, |text|)
    ensures |r| == |spans|
  {
    if spans == [] then []
    else AmountEntries(text, spans[..|spans| - 1]) + [AmountAt(text, spans[|spans| - 1])]
  }

  /** The `k`-th entry comes from the `k`-th match. */
  lemma {:induction false} AmountEntriesAt(text: string, spans: seq<Span>, k: nat)
    requires Within(spans, |text|) && k < |spans|
    ensures AmountEntries(text, spans)[k] == AmountAt(text, spans[k])
  {
    if k < |spans| - 1 {
      AmountEntriesAt(text, spans[..|spans| - 1], k);
    }
  }

  /** `R 1 000`, then `1 000 Rands`, then `ZAR 1 000`. */
  function AmountPasses(text: string): seq<AmountEntry> {
    AmountEntries(text, Scan(RandPrefix, text))
    + AmountEntries(text, Scan(RandSuffix, text))
    + AmountEntries(text, Scan(ZarPrefix, text))
  }

  function AmountsOf(text: string): seq<AmountEntry> {
    var as_ := AmountPasses(text);
    if as_ == [] then [NoAmounts] else as_
  }

  lemma AmountPassShown(text: string, p: Pattern)
    requires p in {RandPrefix, RandSuffix, ZarPrefix}
    ensures forall x :: x in AmountEntries(text, Scan(p, text)) ==>
      x.currency == "ZAR (Rands)" && Contains(x.context, x.amount)
  {
    var es := AmountEntries(text, Scan(p, text));
    forall x | x in es ensures x.currency == "ZAR (Rands)" && Contains(x.context, x.amount) {
      var k :| 0 <= k < |es| && es[k] == x;
      var m := Scan(p, text)[k];
      AmountEntriesAt(text, Scan(p, text), k);
      MatchShown(text, p, m.start, m.end, 100);
    }
  }

  /** Each amount found is in Rands and shown inside its context; the only
      other entry is the "No amounts found" placeholder. */
  lemma AmountsShown(text: string)
    ensures forall x :: x in AmountsOf(text) ==>
      x == NoAmounts || (x.currency == "ZAR (Rands)" && Contains(x.context, x.amount))
  {
    AmountPassShown(text, RandPrefix);
    AmountPassShown(text, RandSuffix);
    AmountPassShown(text, ZarPrefix);
  }

  /** The placeholder stands in exactly when the passes found nothing. */
  lemma AmountsPlaceholder(text: string)
    ensures AmountsOf(text) == [NoAmounts] <==> AmountPasses(text) == []
  {
    AmountPassShown(text, RandPrefix);
    AmountPassShown(text, RandSuffix);
    AmountPassShown(text, ZarPrefix);
    var as_ := AmountPasses(text);
    if as_ != [] {
      assert as_[0] in as_;
    }
  }

  /** The placeholder is the answer exactly when no amount pattern matches
      anywhere in the text. */
  lemma NoAmountsIffNoMatch(text: string)
    ensures AmountsOf(text) == [NoAmounts] <==>
      NoMatch(RandPrefix, text) && NoMatch(RandSuffix, text) && NoMatch(ZarPrefix, text)
  {
    AmountsPlaceholder(text);
    assert AmountPasses(text) == [] <==>
      Scan(RandPrefix, text) == [] && Scan(RandSuffix, text) == [] && Scan(ZarPrefix, text) == [];
    ScanEmptyIff(RandPrefix, text);
    ScanEmptyIff(RandSuffix, text);
    ScanEmptyIff(ZarPrefix, text);
  }

  /** One pass of `extract_monetary_amounts`: append an entry per match. */
  method OfferAmounts(found: seq<AmountEntry>, text: string, spans: seq<Span>) returns (r: seq<AmountEntry>)
    requires Within(spans, |text|)
    ensures r == found + AmountEntries(text, spans)
  {
    r := found;
    for k := 0 to |spans|
      invariant r == found + AmountEntries(text, spans[..k])
    {
      assert spans[..k + 1][..k] == spans[..k];
      r := r + [AmountAt(text, spans[k])];
    }
    assert spans[..|spans|] == spans;
  }

  // ---------------------------------------------------------------------
  // `identify_clauses`: a dictionary from clause type to the contexts of
  // its matches in the lower-cased text, holding only the types that occur,
  // in declared order.

  datatype ClauseHits = ClauseHits(clauseType: string, occurrences: seq<string>)

  /** The contexts, 150 characters on each side, cut from the text itself. */
  function Occurrences(text: string, spans: seq<Span>): (r: seq<string>)
    requires Within(spans, |text|)
    ensures |r| == |spans|
  {
    if spans == [] then []
    else
      var m := spans[|spans| - 1];
      Occurrences(text, spans[..|spans| - 1]) + [Context(text, m.start, m.end, 150)]
  }

  /** The `k`-th occurrence is the context of the `k`-th match. */
  lemma {:induction false} OccurrencesAt(text: string, spans: seq<Span>, k: nat)
    requires Within(spans, |text|) && k < |spans|
    ensures Occurrences(text, spans)[k] == Context(text, spans[k].start, spans[k].end, 150)
  {
    if k < |spans| - 1 {
      OccurrencesAt(text, spans[..|spans| - 1], k);
    }
  }

  predicate AllWellFormed(pats: seq<(string, Pattern)>) {
    forall k :: 0 <= k < |pats| ==> WellFormed(pats[k].1)
  }

  /** The occurrences of one clause pattern. */
  function ClauseOccurrences(text: string, p: Pattern): seq<string>
    requires WellFormed(p)
  {
    Occurrences(text, Scan(p, LowerStr(text)))
  }

  function ClausesFrom(text: string, pats: seq<(string, Pattern)>): seq<ClauseHits>
    requires AllWellFormed(pats)
  {
    if pats == [] then []
    else
      var rest := ClausesFrom(text, pats[..|pats| - 1]);
      var last := pats[|pats| - 1];
      var occ := ClauseOccurrences(text, last.1);
      if occ == [] then rest else rest + [ClauseHits(last.0, occ)]
  }

  function ClausesOf(text: string): seq<ClauseHits> {
    ClausePatternsWellFormed();
    ClausesFrom(text, ClausePatterns)
  }

  /** The dictionary lookup `clauses.get(name)`. */
  function Lookup(hits: seq<ClauseHits>, name: string): Option<seq<string>> {
    if hits == [] then None
    else if hits[|hits| - 1].clauseType == name then Some(hits[|hits| - 1].occurrences)
    else Lookup(hits[..|hits| - 1], name)
  }

  predicate DistinctTypes(pats: seq<(string, Pattern)>) {
    forall a, b :: 0 <= a < b < |pats| ==> pats[a].0 != pats[b].0
  }

  /** Looking a clause type up gives its occurrences when there are any and
      nothing otherwise. */
  lemma {:induction false} ClausesLookup(text: string, pats: seq<(string, Pattern)>, j: nat)
    requires AllWellFormed(pats) && DistinctTypes(pats) && j < |pats|
    ensures Lookup(ClausesFrom(text, pats), pats[j].0) ==
      if ClauseOccurrences(text, pats[j].1) == [] then None else Some(ClauseOccurrences(text, pats[j].1))
  {
    var init := pats[..|pats| - 1];
    assert AllWellFormed(init) && DistinctTypes(init);
    var rest := ClausesFrom(text, init);
    var last := pats[|pats| - 1];
    if j < |pats| - 1 {
      ClausesLookup(text, init, j);
      assert init[j] == pats[j];
      assert last.0 != pats[j].0;
      if ClauseOccurrences(text, last.1) != [] {
        assert (rest + [ClauseHits(last.0, ClauseOccurrences(text, last.1))])[..|rest|] == rest;
      }
    } else {
      ClausesTyped(text, init);
      if ClauseOccurrences(text, last.1) == [] {
        LookupAbsent(rest, last.0);
      }
    }
  }

  /** Every entry names one of the patterns and has occurrences. */
  lemma {:induction false} ClausesTyped(text: string, pats: seq<(string, Pattern)>)
    requires AllWellFormed(pats)
    ensures forall h :: h in ClausesFrom(text, pats) ==>
      h.occurrences != [] && exists j :: 0 <= j < |pats| && pats[j].0 == h.clauseType
  {
    if pats != [] {
      var init := pats[..|pats| - 1];
      ClausesTyped(text, init);
      forall h | h in ClausesFrom(text, init)
        ensures exists j :: 0 <= j < |pats| && pats[j].0 == h.clauseType
      {
        var j :| 0 <= j < |init| && init[j].0 == h.clauseType;
        assert pats[j].0 == h.clauseType;
      }
      assert pats[|pats| - 1].0 == pats[|pats| - 1].0;
    }
  }

  lemma {:induction false} LookupAbsent(hits: seq<ClauseHits>, name: string)
    requires forall h :: h in hits ==> h.clauseType != name
    ensures Lookup(hits, name) == None
  {
    if hits != [] {
      assert forall h :: h in hits[..|hits| - 1] ==> h in hits;
      LookupAbsent(hits[..|hits| - 1], name);
    }
  }

  /** `identify_clauses` as a dictionary: each of the ten clause types maps
      to the contexts of its matches when it occurs and is absent otherwise;
      every key is one of the ten and has at least one occurrence. */
  lemma ClausesSpec(text: string, j: nat)
    requires j < |ClausePatterns|
    ensures WellFormed(ClausePatterns[j].1)
    ensures Lookup(ClausesOf(text), ClausePatterns[j].0) ==
      if ClauseOccurrences(text, ClausePatterns[j].1) == [] then None
      else Some(ClauseOccurrences(text, ClausePatterns[j].1))
    ensures forall h :: h in ClausesOf(text) ==>
      h.occurrences != [] && exists k :: 0 <= k < |ClausePatterns| && ClausePatterns[k].0 == h.clauseType
  {
    ClausePatternsWellFormed();
    assert DistinctTypes(ClausePatterns);
    ClausesLookup(text, ClausePatterns, j);
    ClausesTyped(text, ClausePatterns);
  }

  /** Each occurrence of a clause shows, inside its context, the text the
      pattern matched, and there is one occurrence per match. */
  lemma ClauseOccurrencesShown(text: string, j: nat, k: nat)
    requires j < |ClausePatterns|
    ensures WellFormed(ClausePatterns[j].1)
    ensures |ClauseOccurrences(text, ClausePatterns[j].1)| == |Scan(ClausePatterns[j].1, LowerStr(text))|
    ensures k < |ClauseOccurrences(text, ClausePatterns[j].1)| ==>
      var m := Scan(ClausePatterns[j].1, LowerStr(text))[k];
      Contains(ClauseOccurrences(text, ClausePatterns[j].1)[k], text[m.start..m.end])
  {
    ClausePatternsWellFormed();
    ClausePatternsTrimmed();
    if k < |Scan(ClausePatterns[j].1, LowerStr(text))| {
      var m := Scan(ClausePatterns[j].1, LowerStr(text))[k];
      OccurrencesAt(text, Scan(ClausePatterns[j].1, LowerStr(text)), k);
      LowerMatchShown(text, ClausePatterns[j].1, m.start, m.end, 150);
    }
  }

  /** One clause type: the contexts of its matches. */
  method CollectOccurrences(text: string, spans: seq<Span>) returns (r: seq<string>)
    requires Within(spans, |text|)
    ensures r == Occurrences(text, spans)
  {
    r := [];
    for k := 0 to |spans|
      invariant r == Occurrences(text, spans[..k])
    {
      assert spans[..k + 1][..k] == spans[..k];
      r := r + [Context(text, spans[k].start, spans[k].end, 150)];
    }
    assert spans[..|spans|] == spans;
  }

  // ---------------------------------------------------------------------
  // `extract_parties`, pass by pass.

  /** Pass 1: for each suffix, the names captured before it. */
  method OfferCompanies(found: seq<Party>, groups: seq<seq<string>>) returns (r: seq<Party>)
    requires |groups| == |CompanySuffixes|
    ensures r == AddAll(found, SuffixPass(groups))
  {
    r := found;
    for s := 0 to |CompanySuffixes|
      invariant r == AddAll(found, SuffixPass(groups[..s]))
    {
      assert groups[..s + 1][..s] == groups[..s];
      AddAllAppend(found, SuffixPass(groups[..s]), CompanyCandidates(CompanySuffixes[s], groups[s]));
      r := OfferCompany(r, CompanySuffixes[s], groups[s]);
    }
    assert groups[..|CompanySuffixes|] == groups;
  }

  /** Pass 1 for one suffix: "<name> <suffix>" for each captured name. */
  method OfferCompany(found: seq<Party>, suffix: string, groups: seq<string>) returns (r: seq<Party>)
    ensures r == AddAll(found, CompanyCandidates(suffix, groups))
  {
    r := found;
    for k := 0 to |groups|
      invariant r == AddAll(found, CompanyCandidates(suffix, groups[..k]))
    {
      var candidate := Party(Strip(groups[k]) + " " + suffix, "Company", "Party");
      assert CompanyCandidates(suffix, groups[..k + 1]) == CompanyCandidates(suffix, groups[..k]) + [candidate];
      AddAllSnoc(found, CompanyCandidates(suffix, groups[..k]), candidate);
      if candidate.name !in Names(r) {
        r := r + [candidate];
      }
    }
    assert groups[..|groups|] == groups;
  }

  /** Pass 2: for each "between X and Y", X and then Y, each of at most ten
      words. */
  method OfferBetween(found: seq<Party>, pairs: seq<(string, string)>) returns (r: seq<Party>)
    ensures r == AddAll(found, BetweenPass(pairs))
  {
    r := found;
    for k := 0 to |pairs|
      invariant r == AddAll(found, BetweenPass(pairs[..k]))
    {
      ghost var before := r;
      var party1 := Strip(pairs[k].0);
      var party2 := Strip(pairs[k].1);
      OfferSide(r, pairs[k].0, "First Party", 10);
      if |Split(party1)| <= 10 && party1 !in Names(r) {
        r := r + [Party(party1, "Entity", "First Party")];
      }
      ghost var middle := r;
      OfferSide(r, pairs[k].1, "Second Party", 10);
      if |Split(party2)| <= 10 && party2 !in Names(r) {
        r := r + [Party(party2, "Entity", "Second Party")];
      }
      assert pairs[..k + 1][..k] == pairs[..k];
      var first := Side(pairs[k].0, "First Party", 10);
      var second := Side(pairs[k].1, "Second Party", 10);
      AddAllAppend(found, BetweenPass(pairs[..k]), first);
      AddAllAppend(found, BetweenPass(pairs[..k]) + first, second);
    }
    assert pairs[..|pairs|] == pairs;
  }

  /** Pass 3 for one role: names of at most eight words. */
  method OfferRole(found: seq<Party>, role: string, groups: seq<string>) returns (r: seq<Party>)
    ensures r == AddAll(found, RoleCandidates(role, groups))
  {
    r := found;
    for k := 0 to |groups|
      invariant r == AddAll(found, RoleCandidates(role, groups[..k]))
    {
      var name := Strip(groups[k]);
      assert groups[..k + 1][..k] == groups[..k];
      AddAllAppend(found, RoleCandidates(role, groups[..k]), Side(groups[k], role, 8));
      OfferSide(r, groups[k], role, 8);
      if |Split(name)| <= 8 && name !in Names(r) {
        r := r + [Party(name, "Entity", role)];
      }
    }
    assert groups[..|groups|] == groups;
  }

  /** Pass 3: the roles in order. */
  method OfferRoles(found: seq<Party>, groups: seq<seq<string>>) returns (r: seq<Party>)
    requires |groups| == |RoleNames|
    ensures r == AddAll(found, RolePass(groups))
  {
    r := found;
    for s := 0 to |RoleNames|
      invariant r == AddAll(found, RolePass(groups[..s]))
    {
      assert groups[..s + 1][..s] == groups[..s];
      AddAllAppend(found, RolePass(groups[..s]), RoleCandidates(RoleNames[s], groups[s]));
      r := OfferRole(r, RoleNames[s], groups[s]);
    }
    assert groups[..|RoleNames|] == groups;
  }

  // ---------------------------------------------------------------------
  // The extractions, computed once by the analyzer below.

  /** `extract_parties` without the memo: the three passes, then the
      placeholder when nothing was found. */
  method FindParties(m: PartyMatches) returns (r: seq<Party>)
    requires Shaped(m)
    ensures r == PartiesOf(m)
  {
    var found := OfferCompanies([], m.companies);
    found := OfferBetween(found, m.between);
    found := OfferRoles(found, m.roles);
    AddAllAppend([], SuffixPass(m.companies), BetweenPass(m.between));
    AddAllAppend([], SuffixPass(m.companies) + BetweenPass(m.between), RolePass(m.roles));
    r := if found == [] then [NotIdentified] else found;
  }

  /** `extract_dates` without the memo. */
  method FindDates(text: string) returns (r: seq<DateEntry>)
    ensures r == DatesOf(text)
  {
    ghost var e1 := DateEntries(text, Scan(DayMonthYear, text), "DD Month YYYY");
    ghost var e2 := DateEntries(text, Scan(YearMonthDay, text), "YYYY-MM-DD");
    var found := OfferDates([], text, Scan(DayMonthYear, text), "DD Month YYYY");
    assert found == e1;
    found := OfferDates(found, text, Scan(YearMonthDay, text), "YYYY-MM-DD");
    assert found == e1 + e2;
    found := OfferDates(found, text, Scan(DayMonthYearNumeric, text), "DD/MM/YYYY");
    assert found == DatePasses(text);
    r := if found == [] then [NoDates] else found;
  }

  /** `extract_monetary_amounts` without the memo. */
  method FindAmounts(text: string) returns (r: seq<AmountEntry>)
    ensures r == AmountsOf(text)
  {
    ghost var e1 := AmountEntries(text, Scan(RandPrefix, text));
    ghost var e2 := AmountEntries(text, Scan(RandSuffix, text));
    var found := OfferAmounts([], text, Scan(RandPrefix, text));
    assert found == e1;
    found := OfferAmounts(found, text, Scan(RandSuffix, text));
    assert found == e1 + e2;
    found := OfferAmounts(found, text, Scan(ZarPrefix, text));
    assert found == AmountPasses(text);
    r := if found == [] then [NoAmounts] else found;
  }

  /** `identify_clauses` without the memo: the clause types in the given
      order, each kept only when it occurs. */
  method CollectClauses(text: string, pats: seq<(string, Pattern)>) returns (r: seq<ClauseHits>)
    requires AllWellFormed(pats)
    ensures r == ClausesFrom(text, pats)
  {
    var lower := LowerStr(text);
    r := [];
    for c := 0 to |pats|
      invariant r == ClausesFrom(text, pats[..c])
    {
      var (name, pattern) := pats[c];
      var occurrences := CollectOccurrences(text, Scan(pattern, lower));
      ghost var done := pats[..c + 1];
      assert done[..c] == pats[..c] && done[c] == (name, pattern);
      if occurrences != [] {
        r := r + [ClauseHits(name, occurrences)];
      }
    }
    assert pats[..|pats|] == pats;
  }

  method FindClauses(text: string) returns (r: seq<ClauseHits>)
    ensures r == ClausesOf(text)
  {
    ClausePatternsWellFormed();
    r := CollectClauses(text, ClausePatterns);
  }

  // ---------------------------------------------------------------------
  // `get_legal_summary`.

  datatype DocumentInfo = DocumentInfo(documentType: string, analysisDate: string)

  datatype LegalSummary = LegalSummary(
    documentInfo: DocumentInfo,
    parties: seq<Party>,
    keyDates: seq<DateEntry>,
    monetaryAmounts: seq<AmountEntry>,
    identifiedClauses: seq<(string, nat)>,
    riskAssessment: RiskAssessment,
    textStatistics: SummaryStatistics)

  /** Each clause type with the number of its occurrences. */
  function ClauseCounts(hits: seq<ClauseHits>): seq<(string, nat)> {
    seq(|hits|, k requires 0 <= k < |hits| => (hits[k].clauseType, |hits[k].occurrences|))
  }

  /** The legal summary; `now` stands for the ISO time of the analysis. */
  function LegalSummaryOf(text: string, m: PartyMatches, outcome: SentimentOutcome, now: string): LegalSummary
    requires Shaped(m)
  {
    LegalSummary(
      DocumentInfo(DocumentTypeOf(text), now),
      PartiesOf(m),
      SlicePrefix(DatesOf(text), 5),
      SlicePrefix(AmountsOf(text), 5),
      ClauseCounts(ClausesOf(text)),
      RiskOf(text),
      Summary(text, outcome))
  }

  /** The summary keeps the first five dates and amounts, all of them when
      there are at most five, never an empty list, and it keeps every
      party. */
  lemma LegalSummaryLists(text: string, m: PartyMatches, outcome: SentimentOutcome, now: string)
    requires Shaped(m)
    ensures var r := LegalSummaryOf(text, m, outcome, now);
      && r.keyDates <= DatesOf(text) && 1 <= |r.keyDates| <= 5
      && (|DatesOf(text)| <= 5 ==> r.keyDates == DatesOf(text))
      && r.monetaryAmounts <= AmountsOf(text) && 1 <= |r.monetaryAmounts| <= 5
      && (|AmountsOf(text)| <= 5 ==> r.monetaryAmounts == AmountsOf(text))
      && r.parties == PartiesOf(m) && r.parties != []
  {
    var r := LegalSummaryOf(text, m, outcome, now);
    assert r.keyDates == SlicePrefix(DatesOf(text), 5);
    assert r.monetaryAmounts == SlicePrefix(AmountsOf(text), 5);
  }

  /** The clause counts of the summary: one per clause type found, in the
      same order, each the number of its occurrences and at least one. */
  lemma ClauseCountsSpec(text: string)
    ensures var c := ClauseCounts(ClausesOf(text));
      && |c| == |ClausesOf(text)| <= |ClausePatterns|
      && (forall k :: 0 <= k < |c| ==>
            c[k].0 == ClausesOf(text)[k].clauseType && c[k].1 == |ClausesOf(text)[k].occurrences| >= 1)
  {
    ClausePatternsWellFormed();
    ClausesCount(text, ClausePatterns);
    ClausesTyped(text, ClausePatterns);
    var hits := ClausesOf(text);
    forall k | 0 <= k < |hits| ensures |hits[k].occurrences| >= 1 {
      assert hits[k] in hits;
    }
  }

  lemma {:induction false} ClausesCount(text: string, pats: seq<(string, Pattern)>)
    requires AllWellFormed(pats)
    ensures |ClausesFrom(text, pats)| <= |pats|
  {
    if pats != [] {
      ClausesCount(text, pats[..|pats| - 1]);
    }
  }

  // ---------------------------------------------------------------------
  // The analyzer.

  /** The `text_analyzer` the legal analyzer extends is held in `base`.
      The regular-expression matches that find parties are given as
      `partyMatches`. */
  class LegalAnalyzer {
    const base: TextAnalyzer
    const text: string
    const documentType: Option<string>
    const partyMatches: PartyMatches
    var parties: Option<seq<Party>>
    var dates: Option<seq<DateEntry>>
    var amounts: Option<seq<AmountEntry>>
    var clauses: Option<seq<ClauseHits>>

    /** The base analyzes the same text, and a filled memo holds what its
        method computes. */
    ghost predicate Valid()
      reads this, base
    {
      && base.Valid() && base.text == text && Shaped(partyMatches)
      && (parties.Some? ==> parties.value == PartiesOf(partyMatches))
      && (dates.Some? ==> dates.value == DatesOf(text))
      && (amounts.Some? ==> amounts.value == AmountsOf(text))
      && (clauses.Some? ==> clauses.value == ClausesOf(text))
    }

    constructor (text: string, documentType: Option<string>, partyMatches: PartyMatches)
      requires Shaped(partyMatches)
      ensures Valid() && fresh(base)
      ensures this.text == text && this.documentType == documentType && this.partyMatches == partyMatches
      ensures parties == None && dates == None && amounts == None && clauses == None
      ensures base.wordList == None && base.sentenceList == None
    {
      base := new TextAnalyzer(text);
      this.text := text;
      this.documentType := documentType;
      this.partyMatches := partyMatches;
      parties := None;
      dates := None;
      amounts := None;
      clauses := None;
    }

    /** `identify_document_type`: score every type, then take the first
        best one, or the fallback when no keyword occurs. */
    method IdentifyDocumentType() returns (r: string)
      ensures r == DocumentTypeOf(text)
    {
      var lower := LowerStr(text);
      var scores: seq<nat> := [];
      for t := 0 to |DocumentTypes|
        invariant |scores| == t
        invariant forall j :: 0 <= j < t ==> scores[j] == PresentCount(DocumentTypes[j].1, lower)
      {
        scores := scores + [PresentCount(DocumentTypes[t].1, lower)];
      }
      assert scores == TypeScores(lower);
      var best := FirstMax(scores);
      if scores[best] > 0 {
        r := DocumentTypes[best].0;
      } else {
        r := UnknownType;
      }
    }

    method ExtractParties() returns (r: seq<Party>)
      requires Valid()
      modifies this
      ensures Valid() && r == PartiesOf(partyMatches) && parties == Some(r)
      ensures dates == old(dates) && amounts == old(amounts) && clauses == old(clauses)
    {
      if parties.None? {
        var found := FindParties(partyMatches);
        parties := Some(found);
      }
      r := parties.value;
    }

    method ExtractDates() returns (r: seq<DateEntry>)
      requires Valid()
      modifies this
      ensures Valid() && r == DatesOf(text) && dates == Some(r)
      ensures parties == old(parties) && amounts == old(amounts) && clauses == old(clauses)
    {
      if dates.None? {
        var found := FindDates(text);
        dates := Some(found);
      }
      r := dates.value;
    }

    method ExtractMonetaryAmounts() returns (r: seq<AmountEntry>)
      requires Valid()
      modifies this
      ensures Valid() && r == AmountsOf(text) && amounts == Some(r)
      ensures parties == old(parties) && dates == old(dates) && clauses == old(clauses)
    {
      if amounts.None? {
        var found := FindAmounts(text);
        amounts := Some(found);
      }
      r := amounts.value;
    }

    method IdentifyClauses() returns (r: seq<ClauseHits>)
      requires Valid()
      modifies this
      ensures Valid() && r == ClausesOf(text) && clauses == Some(r)
      ensures parties == old(parties) && dates == old(dates) && amounts == old(amounts)
    {
      if clauses.None? {
        var found := FindClauses(text);
        clauses := Some(found);
      }
      r := clauses.value;
    }

    /** `get_legal_summary`: the base statistics first, then the legal
        analyses, each memo filled on the way. */
    method GetLegalSummary(scorer: string -> SentimentOutcome, now: string) returns (r: LegalSummary)
      requires Valid()
      modifies this, base
      ensures Valid() && r == LegalSummaryOf(text, partyMatches, scorer(CleanText(text)), now)
      ensures parties.Some? && dates.Some? && amounts.Some? && clauses.Some?
    {
      var baseStats := base.GetSummaryStatistics(scorer);
      var kind := IdentifyDocumentType();
      var found := ExtractParties();
      var ds := ExtractDates();
      var as_ := ExtractMonetaryAmounts();
      var hits := IdentifyClauses();
      var risk := RiskOf(text);
      r := LegalSummary(
        DocumentInfo(kind, now),
        found,
        SlicePrefix(ds, 5),
        SlicePrefix(as_, 5),
        ClauseCounts(hits),
        risk,
        baseStats);
    }
  }
}
