/** `AnalysisService` (app/services/analysis_service.py): the analyses the
    API offers, each wrapping what the analyzers report in the response
    models, the keyword comparison of two documents, and the batch run.

    The sentiment scorer, the party matches and the clock are parameters,
    as they are for the analyzers. */
module Service {
  import opened Wrappers
  import opened Strings
  import opened TextNormalizer
  import opened TextAnalysis
  import opened Keywords
  import opened Analyzer
  import opened LegalText
  import opened Parties
  import opened LegalAnalysis
  import opened Schemas

  const TextFailed: string := "Text analysis failed: "
  const LegalFailed: string := "Legal analysis failed: "
  const FeedbackFailed: string := "Feedback analysis failed: "
  const UnknownTypeMessage: string := "Unknown analysis type: "

  /** What a response model says when it refuses a score. */
  const ReadabilityRejected: string := "validation error for ReadabilityScore"
  const SentimentRejected: string := "validation error for SentimentAnalysis"
  const RiskRejected: string := "validation error for RiskAssessment"

  // ---------------------------------------------------------------------
  // `analyze_text`.

  /** Building the text response: a score outside its model's bounds raises,
      and the service turns that into its own error. */
  function TextResponse(stats: SummaryStatistics): Result<SummaryStatistics, string> {
    if !ReadabilityFits(stats.readability) then Failure(TextFailed + ReadabilityRejected)
    else if !SentimentFits(stats.sentiment) then Failure(TextFailed + SentimentRejected)
    else Success(stats)
  }

  /** `analyze_text` fails only when the sentiment scorer leaves its ranges,
      and then with the service's prefix; otherwise it reports the analyzer's
      summary. */
  function TextAnalysisOf(text: string, outcome: SentimentOutcome): (r: Result<SummaryStatistics, string>)
    ensures r.Success? <==> SentimentFits(SentimentOf(outcome))
    ensures r.Success? ==> r.value == Summary(text, outcome)
    ensures r.Failure? ==> r.error == TextFailed + SentimentRejected
  {
    var ws := WordsOf(CleanText(text));
    ReadabilityAlwaysFits(|ws|, |SentencesOf(CleanText(text))|, TotalSyllables(ws));
    TextResponse(Summary(text, outcome))
  }

  method AnalyzeText(text: string, scorer: string -> SentimentOutcome) returns (r: Result<SummaryStatistics, string>)
    ensures r == TextAnalysisOf(text, scorer(CleanText(text)))
  {
    var analyzer := new TextAnalyzer(text);
    var stats := analyzer.GetSummaryStatistics(scorer);
    r := TextResponse(stats);
  }

  // ---------------------------------------------------------------------
  // `analyze_legal_document`.

  function LegalResponse(summary: LegalSummary): Result<LegalSummary, string> {
    if !RiskFits(summary.riskAssessment) then Failure(LegalFailed + RiskRejected) else Success(summary)
  }

  /** The legal response model checks only the risk assessment, which always
      fits, so the legal analysis never fails. */
  function LegalAnalysisOf(text: string, m: PartyMatches, outcome: SentimentOutcome, now: string): (r: Result<LegalSummary, string>)
    requires Shaped(m)
    ensures r == Success(LegalSummaryOf(text, m, outcome, now))
  {
    RiskAlwaysFits(text);
    LegalResponse(LegalSummaryOf(text, m, outcome, now))
  }

  method AnalyzeLegalDocument(text: string, documentType: Option<string>, partyMatches: PartyMatches,
                              scorer: string -> SentimentOutcome, now: string)
    returns (r: Result<LegalSummary, string>)
    requires Shaped(partyMatches)
    ensures r == LegalAnalysisOf(text, partyMatches, scorer(CleanText(text)), now)
  {
    var analyzer := new LegalAnalyzer(text, documentType, partyMatches);
    var summary := analyzer.GetLegalSummary(scorer, now);
    r := LegalResponse(summary);
  }

  // ---------------------------------------------------------------------
  // `analyze_feedback`.

  datatype FeedbackSummary = FeedbackSummary(
    sentiment: Sentiment,
    keyPoints: seq<string>,
    wordCount: nat,
    readability: Readability)

  /** The sentences with more than three white-space separated tokens, in
      their order. */
  function LongSentences(ss: seq<string>): seq<string>
  {
    if ss == [] then []
    else LongSentences(ss[..|ss| - 1]) + (if |Split(ss[|ss| - 1])| > 3 then [ss[|ss| - 1]] else [])
  }

  /** The key points: the long sentences among the first five. */
  function KeyPointsOf(sentences: seq<string>): seq<string> {
    LongSentences(SlicePrefix(sentences, 5))
  }

  /** `xs` is `ys` with some elements left out. */
  ghost predicate Subsequence<T>(xs: seq<T>, ys: seq<T>)
    decreases |ys|
  {
    if xs == [] then true
    else if ys == [] then false
    else
      || (xs[|xs| - 1] == ys[|ys| - 1] && Subsequence(xs[..|xs| - 1], ys[..|ys| - 1]))
      || Subsequence(xs, ys[..|ys| - 1])
  }

  lemma {:induction false} LongSentencesSpec(ss: seq<string>)
    ensures Subsequence(LongSentences(ss), ss)
    ensures |LongSentences(ss)| <= |ss|
    ensures forall x :: x in LongSentences(ss) <==> x in ss && |Split(x)| > 3
    ensures forall x :: multiset(LongSentences(ss))[x] == if |Split(x)| > 3 then multiset(ss)[x] else 0
  {
    LongSentencesCount(ss);
    if ss != [] {
      var front := ss[..|ss| - 1];
      var last := ss[|ss| - 1];
      LongSentencesSpec(front);
      assert ss == front + [last];
      var r := LongSentences(ss);
      if |Split(last)| > 3 {
        assert r == LongSentences(front) + [last];
        assert r[..|r| - 1] == LongSentences(front);
      } else {
        assert r == LongSentences(front);
      }
    }
  }

  /** Each long sentence is kept as often as it occurs, and no other is kept. */
  lemma {:induction false} LongSentencesCount(ss: seq<string>)
    ensures forall x :: multiset(LongSentences(ss))[x] == if |Split(x)| > 3 then multiset(ss)[x] else 0
  {
    if ss != [] {
      var front := ss[..|ss| - 1];
      var last := ss[|ss| - 1];
      LongSentencesCount(front);
      assert ss == front + [last];
      assert multiset(ss) == multiset(front) + multiset{last};
      if |Split(last)| > 3 {
        assert multiset(LongSentences(ss)) == multiset(LongSentences(front)) + multiset{last};
      } else {
        assert LongSentences(ss) == LongSentences(front);
      }
    }
  }

  /** At most five key points, in sentence order, exactly the long sentences
      among the first five, each as often as it occurs there. */
  lemma KeyPointsSpec(sentences: seq<string>)
    ensures |KeyPointsOf(sentences)| <= 5
    ensures Subsequence(KeyPointsOf(sentences), SlicePrefix(sentences, 5))
    ensures forall x :: x in KeyPointsOf(sentences) <==> x in SlicePrefix(sentences, 5) && |Split(x)| > 3
    ensures forall x :: multiset(KeyPointsOf(sentences))[x] == if |Split(x)| > 3 then multiset(SlicePrefix(sentences, 5))[x] else 0
  {
    LongSentencesSpec(SlicePrefix(sentences, 5));
  }

  /** The key-point loop of `analyze_feedback`. */
  method KeyPoints(sentences: seq<string>) returns (points: seq<string>)
    ensures points == KeyPointsOf(sentences)
  {
    var firstFive := SlicePrefix(sentences, 5);
    points := [];
    var i := 0;
    while i < |firstFive|
      invariant 0 <= i <= |firstFive|
      invariant points == LongSentences(firstFive[..i])
    {
      assert firstFive[..i + 1][..i] == firstFive[..i];
      if |Split(firstFive[i])| > 3 {
        points := points + [firstFive[i]];
      }
      i := i + 1;
    }
    assert firstFive[..i] == firstFive;
  }

  function FeedbackResponse(sentiment: Sentiment, keyPoints: seq<string>, wordCount: nat, readability: Readability)
    : Result<FeedbackSummary, string>
  {
    if !SentimentFits(sentiment) then Failure(FeedbackFailed + SentimentRejected)
    else if !ReadabilityFits(readability) then Failure(FeedbackFailed + ReadabilityRejected)
    else Success(FeedbackSummary(sentiment, keyPoints, wordCount, readability))
  }

  /** `analyze_feedback` fails only when the sentiment scorer leaves its
      ranges; otherwise it reports the sentiment, the key points, the word
      count and the readability of the cleaned text. */
  function FeedbackAnalysisOf(text: string, outcome: SentimentOutcome): (r: Result<FeedbackSummary, string>)
    ensures r.Success? <==> SentimentFits(SentimentOf(outcome))
    ensures r.Failure? ==> r.error == FeedbackFailed + SentimentRejected
    ensures r.Success? ==>
      && r.value.sentiment == SentimentOf(outcome)
      && r.value.keyPoints == KeyPointsOf(SentencesOf(CleanText(text)))
      && r.value.wordCount == |WordsOf(CleanText(text))|
      && r.value.readability == ReadabilityOf(|WordsOf(CleanText(text))|, |SentencesOf(CleanText(text))|, TotalSyllables(WordsOf(CleanText(text))))
      && ReadabilityFits(r.value.readability)
  {
    var cleaned := CleanText(text);
    var ws := WordsOf(cleaned);
    var ss := SentencesOf(cleaned);
    ReadabilityAlwaysFits(|ws|, |ss|, TotalSyllables(ws));
    FeedbackResponse(SentimentOf(outcome), KeyPointsOf(ss), |ws|, ReadabilityOf(|ws|, |ss|, TotalSyllables(ws)))
  }

  method AnalyzeFeedback(text: string, scorer: string -> SentimentOutcome) returns (r: Result<FeedbackSummary, string>)
    ensures r == FeedbackAnalysisOf(text, scorer(CleanText(text)))
  {
    var analyzer := new TextAnalyzer(text);
    var sentiment := analyzer.SentimentAnalysis(scorer);
    var readability := analyzer.ReadabilityScore();
    var sentences := analyzer.Sentences();
    var keyPoints := KeyPoints(sentences);
    var words := analyzer.WordCount();
    r := FeedbackResponse(sentiment, keyPoints, words, readability);
  }

  // ---------------------------------------------------------------------
  // `compare_documents`.

  datatype Comparison = Comparison(
    similarityScore: real,
    keyDifferences: seq<string>,
    commonElements: seq<string>,
    recommendation: string)

  const NoDifferences: string := "No significant differences found"
  const NoCommonElements: string := "No common elements found"

  /** The words of a document's twenty most frequent keywords. */
  function KeywordSet(text: string): set<string> {
    set k | k in ExtractKeywords(WordsOf(CleanText(text)), 20) :: k.word
  }

  /** The share of the keywords of either document that both have, in
      percent. */
  function Similarity(a: set<string>, b: set<string>): real {
    if a + b != {} then (|a * b| as real / |a + b| as real) * 100.0 else 0.0
  }

  lemma CardinalityParts(a: set<string>, b: set<string>)
    ensures |a + b| == |a * b| + |a - b| + |b - a|
  {
    assert a + b == (a * b) + (a - b) + (b - a);
    assert (a * b) * (a - b) == {};
    assert ((a * b) + (a - b)) * (b - a) == {};
  }

  lemma Ratio(x: real, y: real)
    requires 0.0 <= x <= y && 0.0 < y
    ensures 0.0 <= (x / y) * 100.0 <= 100.0
    ensures (x / y) * 100.0 == 0.0 <==> x == 0.0
    ensures (x / y) * 100.0 == 100.0 <==> x == y
  {
    var q := x / y;
    assert q * y == x;
    assert 0.0 <= q;
  }

  /** The similarity is a percentage, zero without keywords or without shared
      ones, and a full hundred exactly for equal keyword sets. */
  lemma SimilaritySpec(a: set<string>, b: set<string>)
    ensures 0.0 <= Similarity(a, b) <= 100.0
    ensures a + b == {} ==> Similarity(a, b) == 0.0
    ensures Similarity(a, b) == 0.0 <==> a * b == {}
    ensures a + b != {} ==> (Similarity(a, b) == 100.0 <==> a == b)
  {
    CardinalityParts(a, b);
    if a + b != {} {
      Ratio(|a * b| as real, |a + b| as real);
      if |a * b| == |a + b| {
        assert a - b == {} && b - a == {};
        SameSets(a, b);
      }
    }
  }

  lemma SameSets(a: set<string>, b: set<string>)
    requires a - b == {} && b - a == {}
    ensures a == b
  {
    forall x ensures x in a <==> x in b {
      if x in a { assert x !in a - b; }
      if x in b { assert x !in b - a; }
    }
  }

  /** Swapping the documents leaves the similarity unchanged. */
  lemma SimilaritySymmetric(a: set<string>, b: set<string>)
    ensures Similarity(a, b) == Similarity(b, a)
  {
    assert a + b == b + a;
    assert a * b == b * a;
  }

  /** A duplicate-free listing of the words of a set, standing for
      `list(s)`, whose order the source leaves to the set's implementation. */
  ghost function Listing(s: set<string>): (r: seq<string>)
    ensures |r| == |s|
    ensures forall x :: x in r <==> x in s
    ensures forall i, j :: 0 <= i < j < |r| ==> r[i] != r[j]
    decreases |s|
  {
    if s == {} then []
    else
      var x :| x in s;
      var rest := Listing(s - {x});
      assert forall y :: y in [x] + rest <==> y == x || y in rest;
      [x] + rest
  }

  /** `list(s)[:10]`. */
  ghost function FirstTen(s: set<string>): (r: seq<string>)
    ensures |r| == if |s| < 10 then |s| else 10
    ensures forall x :: x in r ==> x in s
    ensures forall i, j :: 0 <= i < j < |r| ==> r[i] != r[j]
    ensures r == [] <==> s == {}
  {
    var all := Listing(s);
    var r := SlicePrefix(all, 10);
    assert forall i :: 0 <= i < |r| ==> r[i] == all[i];
    r
  }

  function DifferenceLine(document: string, words: seq<string>): string {
    "Unique to Document " + document + ": " + Join(", ", words)
  }

  /** One line per document with keywords the other lacks. */
  ghost function Differences(a: set<string>, b: set<string>): seq<string> {
    (if a - b != {} then [DifferenceLine("1", FirstTen(a - b))] else [])
    + (if b - a != {} then [DifferenceLine("2", FirstTen(b - a))] else [])
  }

  function Recommendation(score: real): (r: string)
    ensures r == "Documents are highly similar" <==> score > 70.0
    ensures r == "Documents have moderate similarity" <==> 40.0 < score <= 70.0
    ensures r == "Documents are substantially different" <==> score <= 40.0
  {
    if score > 70.0 then "Documents are highly similar"
    else if score > 40.0 then "Documents have moderate similarity"
    else "Documents are substantially different"
  }

  /** The comparison of two keyword sets, before rounding the score. */
  ghost function CompareSets(a: set<string>, b: set<string>): Comparison {
    var score := Similarity(a, b);
    var differences := Differences(a, b);
    var common := FirstTen(a * b);
    Comparison(
      score,
      if differences == [] then [NoDifferences] else differences,
      if common == [] then [NoCommonElements] else common,
      Recommendation(score))
  }

  /** `compare_documents`. */
  ghost function CompareDocuments(doc1: string, doc2: string): Comparison {
    CompareSets(KeywordSet(doc1), KeywordSet(doc2))
  }

  /** The lists of a comparison: a line for each one-sided difference naming
      at most ten of its words, at most ten shared words, and a sentinel in
      place of an empty list. */
  lemma ComparisonLists(a: set<string>, b: set<string>)
    ensures var c := CompareSets(a, b);
      && 1 <= |c.keyDifferences| <= 2
      && (a == b ==> c.keyDifferences == [NoDifferences])
      && (a - b != {} ==> c.keyDifferences[0] == DifferenceLine("1", FirstTen(a - b)))
      && (b - a != {} ==> c.keyDifferences[|c.keyDifferences| - 1] == DifferenceLine("2", FirstTen(b - a)))
      && (|c.keyDifferences| == 2 <==> a - b != {} && b - a != {})
      && (a * b == {} ==> c.commonElements == [NoCommonElements])
      && (a * b != {} ==> c.commonElements == FirstTen(a * b))
      && |c.commonElements| <= 10
  {
    DifferenceLines(a, b);
  }

  lemma DifferenceLines(a: set<string>, b: set<string>)
    ensures var d := CompareSets(a, b).keyDifferences;
      && 1 <= |d| <= 2
      && (a == b ==> d == [NoDifferences])
      && (a - b != {} ==> d[0] == DifferenceLine("1", FirstTen(a - b)))
      && (b - a != {} ==> d[|d| - 1] == DifferenceLine("2", FirstTen(b - a)))
      && (|d| == 2 <==> a - b != {} && b - a != {})
  {
    var d := CompareSets(a, b).keyDifferences;
    assert d == if Differences(a, b) == [] then [NoDifferences] else Differences(a, b);
    if a == b {
      assert a - b == {} && b - a == {};
    } else if a - b == {} && b - a == {} {
      SameSets(a, b);
    }
  }

  /** The shared words come from both keyword sets, without repetition. */
  lemma CommonElementsShared(a: set<string>, b: set<string>)
    requires a * b != {}
    ensures forall x :: x in CompareSets(a, b).commonElements ==> x in a && x in b
    ensures forall i, j :: 0 <= i < j < |CompareSets(a, b).commonElements| ==>
      CompareSets(a, b).commonElements[i] != CompareSets(a, b).commonElements[j]
  {
    assert CompareSets(a, b).commonElements == FirstTen(a * b);
  }

  /** The score is symmetric, and a percentage that the comparison response
      model accepts. */
  lemma CompareScore(doc1: string, doc2: string)
    ensures CompareDocuments(doc1, doc2).similarityScore == CompareDocuments(doc2, doc1).similarityScore
    ensures 0.0 <= CompareDocuments(doc1, doc2).similarityScore <= 100.0
    ensures KeywordSet(doc1) + KeywordSet(doc2) == {} ==> CompareDocuments(doc1, doc2).similarityScore == 0.0
  {
    SimilaritySpec(KeywordSet(doc1), KeywordSet(doc2));
    SimilaritySymmetric(KeywordSet(doc1), KeywordSet(doc2));
  }

  /** A document with keywords is fully similar to itself and shows no
      differences. */
  lemma CompareSelf(doc: string)
    requires KeywordSet(doc) != {}
    ensures CompareDocuments(doc, doc).similarityScore == 100.0
    ensures CompareDocuments(doc, doc).keyDifferences == [NoDifferences]
    ensures CompareDocuments(doc, doc).commonElements == FirstTen(KeywordSet(doc))
    ensures CompareDocuments(doc, doc).recommendation == "Documents are highly similar"
  {
    var a := KeywordSet(doc);
    SimilaritySpec(a, a);
    ComparisonLists(a, a);
    assert a * a == a;
  }

  // ---------------------------------------------------------------------
  // `batch_analyze`.

  datatype Report =
    | TextReport(stats: SummaryStatistics)
    | LegalReport(summary: LegalSummary)
    | FeedbackReport(feedback: FeedbackSummary)

  datatype BatchItem = Succeeded(index: nat, result: Report) | Failed(index: nat, error: string)

  datatype BatchOutcome = BatchOutcome(
    totalProcessed: nat,
    results: seq<BatchItem>,
    failedCount: nat,
    errors: Option<seq<string>>)

  /** The result of one item: the analysis its type names, or the unknown
      type error. */
  function ItemOf(kind: string, index: nat, text: string, outcome: SentimentOutcome, m: ShapedMatches, now: string)
    : (r: BatchItem)
    ensures r.index == index
    ensures kind !in AnalysisTypes ==> r == Failed(index, UnknownTypeMessage + kind)
  {
    if kind == "text" then
      match TextAnalysisOf(text, outcome)
      case Success(s) => Succeeded(index, TextReport(s))
      case Failure(e) => Failed(index, e)
    else if kind == "legal" then
      match LegalAnalysisOf(text, m, outcome, now)
      case Success(s) => Succeeded(index, LegalReport(s))
      case Failure(e) => Failed(index, e)
    else if kind == "feedback" then
      match FeedbackAnalysisOf(text, outcome)
      case Success(s) => Succeeded(index, FeedbackReport(s))
      case Failure(e) => Failed(index, e)
    else Failed(index, UnknownTypeMessage + kind)
  }

  /** How the batch treats the text at an index. */
  function ItemRunner(kind: string, scorer: string -> SentimentOutcome, parties: string -> ShapedMatches, now: string)
    : (nat, string) -> BatchItem
  {
    (i: nat, t: string) => ItemOf(kind, i, t, scorer(CleanText(t)), parties(t), now)
  }

  /** The result list: one item per text, each from its index and its text
      alone. */
  function Items(texts: seq<string>, run: (nat, string) -> BatchItem): (r: seq<BatchItem>)
    ensures |r| == |texts|
  {
    if texts == [] then []
    else Items(texts[..|texts| - 1], run) + [run(|texts| - 1, texts[|texts| - 1])]
  }

  function FailedCount(items: seq<BatchItem>): nat {
    if items == [] then 0
    else FailedCount(items[..|items| - 1]) + (if items[|items| - 1].Failed? then 1 else 0)
  }

  function ErrorLine(item: BatchItem): string
    requires item.Failed?
  {
    "Text " + NatToString(item.index) + ": " + item.error
  }

  function ErrorLines(items: seq<BatchItem>): seq<string> {
    if items == [] then []
    else ErrorLines(items[..|items| - 1]) + (if items[|items| - 1].Failed? then [ErrorLine(items[|items| - 1])] else [])
  }

  function BatchFrom(texts: seq<string>, run: (nat, string) -> BatchItem): BatchOutcome {
    var items := Items(texts, run);
    var errors := ErrorLines(items);
    BatchOutcome(|texts|, items, FailedCount(items), if errors == [] then None else Some(errors))
  }

  /** What `batch_analyze` returns. */
  function BatchOf(kind: string, texts: seq<string>, scorer: string -> SentimentOutcome,
                   parties: string -> ShapedMatches, now: string): BatchOutcome
  {
    BatchFrom(texts, ItemRunner(kind, scorer, parties, now))
  }

  lemma {:induction false} ItemsAt(texts: seq<string>, run: (nat, string) -> BatchItem, i: nat)
    requires i < |texts|
    ensures Items(texts, run)[i] == run(i, texts[i])
  {
    var n := |texts| - 1;
    if i < n {
      ItemsAt(texts[..n], run, i);
    }
  }

  /** The failure count is the number of failed items, which is the number
      of error lines; it is zero exactly when every item succeeded. */
  lemma {:induction false} FailedCountSpec(items: seq<BatchItem>)
    ensures FailedCount(items) == |ErrorLines(items)| <= |items|
    ensures FailedCount(items) == 0 <==> forall i :: 0 <= i < |items| ==> items[i].Succeeded?
    ensures FailedCount(items) == |items| <==> forall i :: 0 <= i < |items| ==> items[i].Failed?
  {
    if items != [] {
      var front := items[..|items| - 1];
      FailedCountSpec(front);
      assert forall i :: 0 <= i < |front| ==> front[i] == items[i];
    }
  }

  /** Every error line names a failed item. */
  lemma {:induction false} ErrorLinesFailed(items: seq<BatchItem>, j: nat)
    requires j < |ErrorLines(items)|
    ensures exists i :: 0 <= i < |items| && items[i].Failed? && ErrorLines(items)[j] == ErrorLine(items[i])
  {
    var front := items[..|items| - 1];
    var last := items[|items| - 1];
    if j < |ErrorLines(front)| {
      ErrorLinesFailed(front, j);
      var i :| 0 <= i < |front| && front[i].Failed? && ErrorLines(front)[j] == ErrorLine(front[i]);
      assert items[i] == front[i];
    } else {
      assert last.Failed? && ErrorLines(items)[j] == ErrorLine(last);
    }
  }

  /** A batch reports every text in order, each item from its own text, and
      counts its failures consistently. */
  lemma BatchFromSpec(texts: seq<string>, run: (nat, string) -> BatchItem)
    ensures var r := BatchFrom(texts, run);
      && r.totalProcessed == |texts| == |r.results|
      && (forall i :: 0 <= i < |texts| ==> r.results[i] == run(i, texts[i]))
      && r.failedCount <= |texts|
      && (r.errors.None? <==> r.failedCount == 0)
      && (r.errors.Some? ==> |r.errors.value| == r.failedCount)
      && (r.failedCount == 0 <==> forall i :: 0 <= i < |texts| ==> r.results[i].Succeeded?)
      && (r.failedCount == |texts| <==> forall i :: 0 <= i < |texts| ==> r.results[i].Failed?)
  {
    var items := Items(texts, run);
    forall i | 0 <= i < |texts| ensures items[i] == run(i, texts[i]) {
      ItemsAt(texts, run, i);
    }
    FailedCountSpec(items);
  }

  /** Item `i` of a batch carries index `i` and is the analysis of text `i`
      under the batch's type. */
  lemma BatchItems(kind: string, texts: seq<string>, scorer: string -> SentimentOutcome,
                   parties: string -> ShapedMatches, now: string, i: nat)
    requires i < |texts|
    ensures var r := BatchOf(kind, texts, scorer, parties, now);
      && |r.results| == |texts|
      && r.results[i] == ItemOf(kind, i, texts[i], scorer(CleanText(texts[i])), parties(texts[i]), now)
      && r.results[i].index == i
  {
    ItemsAt(texts, ItemRunner(kind, scorer, parties, now), i);
  }

  /** An analysis type outside the known three fails every item with the
      unknown type error. */
  lemma BatchUnknownType(kind: string, texts: seq<string>, scorer: string -> SentimentOutcome,
                         parties: string -> ShapedMatches, now: string)
    requires kind !in AnalysisTypes
    ensures var r := BatchOf(kind, texts, scorer, parties, now);
      && (forall i :: 0 <= i < |texts| ==> r.results[i] == Failed(i, UnknownTypeMessage + kind))
      && r.failedCount == |texts|
      && (texts != [] ==> r.errors.Some?)
  {
    var run := ItemRunner(kind, scorer, parties, now);
    var items := Items(texts, run);
    forall i | 0 <= i < |texts| ensures items[i] == Failed(i, UnknownTypeMessage + kind) {
      ItemsAt(texts, run, i);
    }
    FailedCountSpec(items);
  }

  /** The type dispatch of one item. */
  method RunItem(kind: string, idx: nat, text: string, scorer: string -> SentimentOutcome,
                 parties: string -> ShapedMatches, now: string)
    returns (item: BatchItem)
    ensures item == ItemOf(kind, idx, text, scorer(CleanText(text)), parties(text), now)
  {
    if kind == "text" {
      var result := AnalyzeText(text, scorer);
      item := match result case Success(s) => Succeeded(idx, TextReport(s)) case Failure(e) => Failed(idx, e);
    } else if kind == "legal" {
      var result := AnalyzeLegalDocument(text, None, parties(text), scorer, now);
      item := match result case Success(s) => Succeeded(idx, LegalReport(s)) case Failure(e) => Failed(idx, e);
    } else if kind == "feedback" {
      var result := AnalyzeFeedback(text, scorer);
      item := match result case Success(s) => Succeeded(idx, FeedbackReport(s)) case Failure(e) => Failed(idx, e);
    } else {
      item := Failed(idx, UnknownTypeMessage + kind);
    }
  }

  /** `batch_analyze`: analyse each text in turn, recording a failure
      without stopping. */
  method BatchAnalyze(texts: seq<string>, kind: string, scorer: string -> SentimentOutcome,
                      parties: string -> ShapedMatches, now: string)
    returns (r: BatchOutcome)
    ensures r == BatchOf(kind, texts, scorer, parties, now)
  {
    ghost var run := ItemRunner(kind, scorer, parties, now);
    var results: seq<BatchItem> := [];
    var failedCount := 0;
    var errors: seq<string> := [];
    var idx := 0;
    while idx < |texts|
      invariant 0 <= idx <= |texts|
      invariant results == Items(texts[..idx], run)
      invariant failedCount == FailedCount(results)
      invariant errors == ErrorLines(results)
    {
      var text := texts[idx];
      var item := RunItem(kind, idx, text, scorer, parties, now);
      assert item == run(idx, text);
      if item.Failed? {
        failedCount := failedCount + 1;
        errors := errors + [ErrorLine(item)];
      }
      results := results + [item];
      assert texts[..idx + 1][..idx] == texts[..idx];
      idx := idx + 1;
    }
    assert texts[..idx] == texts;
    r := BatchOutcome(|texts|, results, failedCount, if errors == [] then None else Some(errors));
  }
}
