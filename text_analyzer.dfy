/** The `TextAnalyzer` object (app/core/text_analyzer.py): the text, its
    cleaned form, the word and sentence lists it computes on first use, and
    the statistics it reports. */
module Analyzer {
  import opened Wrappers
  import opened Strings
  import opened TextNormalizer
  import opened TextAnalysis
  import opened Keywords

  datatype BasicStats = BasicStats(
    wordCount: nat,
    sentenceCount: nat,
    characterCount: nat,
    characterCountNoSpaces: nat,
    averageWordLength: real,
    averageSentenceLength: real)

  datatype SummaryStatistics = SummaryStatistics(
    basicStats: BasicStats,
    readability: Readability,
    sentiment: Sentiment,
    topKeywords: seq<Keyword>)

  /** What `get_summary_statistics` reports for `text`, given what the
      sentiment scorer says about the cleaned text. */
  function Summary(text: string, outcome: SentimentOutcome): SummaryStatistics
  {
    var cleaned := CleanText(text);
    var ws := WordsOf(cleaned);
    var ss := SentencesOf(cleaned);
    SummaryStatistics(
      BasicStats(|ws|, |ss|, CharacterCount(text, true), CharacterCount(text, false),
                 AverageWordLength(ws), AverageSentenceLength(|ws|, |ss|)),
      ReadabilityOf(|ws|, |ss|, TotalSyllables(ws)),
      SentimentOf(outcome),
      ExtractKeywords(ws, 5))
  }

  /** Leaving out spaces, line feeds and tabs never adds characters. */
  lemma SummaryCharacters(text: string, outcome: SentimentOutcome)
    ensures Summary(text, outcome).basicStats.characterCountNoSpaces
      <= Summary(text, outcome).basicStats.characterCount == |text|
  {
    assert Summary(text, outcome).basicStats.characterCount == CharacterCount(text, true);
    assert Summary(text, outcome).basicStats.characterCountNoSpaces == CharacterCount(text, false);
  }

  /** A text with words has sentences, and its words average at least one
      character. */
  lemma SummaryWords(text: string, outcome: SentimentOutcome)
    requires Summary(text, outcome).basicStats.wordCount > 0
    ensures Summary(text, outcome).basicStats.sentenceCount > 0
    ensures Summary(text, outcome).basicStats.averageWordLength >= 1.0
  {
    var cleaned := CleanText(text);
    var ws := WordsOf(cleaned);
    assert Summary(text, outcome).basicStats.wordCount == |ws|;
    assert Summary(text, outcome).basicStats.sentenceCount == |SentencesOf(cleaned)|;
    assert Summary(text, outcome).basicStats.averageWordLength == AverageWordLength(ws);
    WordsNeedSentences(cleaned);
    AverageWordLengthAtLeastOne(ws);
  }

  /** The readability level is the "Unable to calculate" sentinel exactly when
      the text has no words. */
  lemma SummaryReadability(text: string, outcome: SentimentOutcome)
    ensures (Summary(text, outcome).readability.readabilityLevel == "Unable to calculate")
      <==> Summary(text, outcome).basicStats.wordCount == 0
  {
    var cleaned := CleanText(text);
    var ws := WordsOf(cleaned);
    assert Summary(text, outcome).readability == ReadabilityOf(|ws|, |SentencesOf(cleaned)|, TotalSyllables(ws));
    if ws != [] {
      WordsNeedSentences(cleaned);
    }
  }

  /** The summary lists at most five keywords. */
  lemma SummaryKeywords(text: string, outcome: SentimentOutcome)
    ensures |Summary(text, outcome).topKeywords| <= 5
  {
    KeywordsBounded(WordsOf(CleanText(text)), 5);
  }

  class TextAnalyzer {
    const text: string
    const cleanedText: string
    var wordList: Option<seq<string>>
    var sentenceList: Option<seq<string>>

    /** The cleaned text comes from the text, and a filled memo holds the list
        its property computes. */
    ghost predicate Valid()
      reads this
    {
      && cleanedText == CleanText(text)
      && (wordList.Some? ==> wordList.value == WordsOf(cleanedText))
      && (sentenceList.Some? ==> sentenceList.value == SentencesOf(cleanedText))
    }

    constructor (text: string)
      ensures Valid() && this.text == text
      ensures wordList == None && sentenceList == None
    {
      this.text := text;
      cleanedText := CleanText(text);
      wordList := None;
      sentenceList := None;
    }

    /** The `words` property: computed once, then served from the memo. */
    method Words() returns (ws: seq<string>)
      requires Valid()
      modifies this
      ensures Valid() && ws == WordsOf(cleanedText)
      ensures wordList == Some(ws) && sentenceList == old(sentenceList)
    {
      if wordList.None? {
        wordList := Some(WordsOf(cleanedText));
      }
      ws := wordList.value;
    }

    /** The `sentences` property: computed once, then served from the memo. */
    method Sentences() returns (ss: seq<string>)
      requires Valid()
      modifies this
      ensures Valid() && ss == SentencesOf(cleanedText)
      ensures sentenceList == Some(ss) && wordList == old(wordList)
    {
      if sentenceList.None? {
        sentenceList := Some(SentencesOf(cleanedText));
      }
      ss := sentenceList.value;
    }

    method WordCount() returns (n: nat)
      requires Valid()
      modifies this
      ensures Valid() && n == |WordsOf(cleanedText)|
      ensures wordList == Some(WordsOf(cleanedText)) && sentenceList == old(sentenceList)
    {
      var ws := Words();
      n := |ws|;
    }

    method SentenceCount() returns (n: nat)
      requires Valid()
      modifies this
      ensures Valid() && n == |SentencesOf(cleanedText)|
      ensures sentenceList == Some(SentencesOf(cleanedText)) && wordList == old(wordList)
    {
      var ss := Sentences();
      n := |ss|;
    }

    method CharacterCount(includeSpaces: bool) returns (n: nat)
      ensures n == TextAnalysis.CharacterCount(text, includeSpaces)
    {
      n := TextAnalysis.CharacterCount(text, includeSpaces);
    }

    method AverageWordLength() returns (r: real)
      requires Valid()
      modifies this
      ensures Valid() && r == TextAnalysis.AverageWordLength(WordsOf(cleanedText))
      ensures wordList == Some(WordsOf(cleanedText)) && sentenceList == old(sentenceList)
    {
      var ws := Words();
      r := TextAnalysis.AverageWordLength(ws);
    }

    method AverageSentenceLength() returns (r: real)
      requires Valid()
      modifies this
      ensures Valid() && r == TextAnalysis.AverageSentenceLength(|WordsOf(cleanedText)|, |SentencesOf(cleanedText)|)
      ensures wordList == Some(WordsOf(cleanedText)) && sentenceList == Some(SentencesOf(cleanedText))
    {
      var ss := Sentences();
      var words := WordCount();
      var sentences := SentenceCount();
      r := TextAnalysis.AverageSentenceLength(words, sentences);
    }

    /** `readability_score`: the syllables are counted only when there are
        both words and sentences. */
    method ReadabilityScore() returns (r: Readability)
      requires Valid()
      modifies this
      ensures Valid()
      ensures r == ReadabilityOf(|WordsOf(cleanedText)|, |SentencesOf(cleanedText)|, TotalSyllables(WordsOf(cleanedText)))
      ensures wordList == Some(WordsOf(cleanedText)) && sentenceList == Some(SentencesOf(cleanedText))
    {
      var words := WordCount();
      var sentences := SentenceCount();
      if sentences == 0 || words == 0 {
        r := Readability(0.0, "Unable to calculate");
      } else {
        var ws := Words();
        var syllables := CountSyllables(ws);
        var score := Clamp(Flesch(words, sentences, syllables));
        r := Readability(score, LevelOf(score));
      }
    }

    /** `sentiment_analysis`, with the sentiment scorer as a parameter. */
    method SentimentAnalysis(scorer: string -> SentimentOutcome) returns (r: Sentiment)
      requires Valid()
      ensures r == SentimentOf(scorer(CleanText(text)))
    {
      r := SentimentOf(scorer(cleanedText));
    }

    method ExtractKeywords(topN: int) returns (r: seq<Keyword>)
      requires Valid()
      modifies this
      ensures Valid() && r == Keywords.ExtractKeywords(WordsOf(cleanedText), topN)
      ensures wordList == Some(WordsOf(cleanedText)) && sentenceList == old(sentenceList)
    {
      var ws := Words();
      var table := CountFrequencies(ws);
      r := SlicePrefix(SortByFrequency(table), topN);
    }

    method GetSummaryStatistics(scorer: string -> SentimentOutcome) returns (r: SummaryStatistics)
      requires Valid()
      modifies this
      ensures Valid() && r == Summary(text, scorer(cleanedText))
      ensures wordList == Some(WordsOf(cleanedText)) && sentenceList == Some(SentencesOf(cleanedText))
    {
      var readability := ReadabilityScore();
      var sentiment := SentimentAnalysis(scorer);
      var keywords := ExtractKeywords(5);
      var words := WordCount();
      var sentences := SentenceCount();
      var withSpaces := CharacterCount(true);
      var withoutSpaces := CharacterCount(false);
      var averageWord := AverageWordLength();
      var averageSentence := AverageSentenceLength();
      r := SummaryStatistics(
        BasicStats(words, sentences, withSpaces, withoutSpaces, averageWord, averageSentence),
        readability, sentiment, keywords);
    }
  }
}
