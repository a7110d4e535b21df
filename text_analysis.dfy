/** The statistics of `TextAnalyzer` (app/core/text_analyzer.py): counts,
    averages, the syllable heuristic, the Flesch reading-ease score and its
    level, the sentiment label and the keyword ranking, and the analyser
    object that memoises its word and sentence lists. */
module TextAnalysis {
  import opened Wrappers
  import opened Strings
  import opened TextNormalizer

  // ---------------------------------------------------------------------
  // Counts and averages.

  /** `character_count`: the raw length, or the length once every space, line
      feed and tab is removed. */
  function CharacterCount(text: string, includeSpaces: bool): (n: nat)
    ensures n <= |text|
    ensures n == |text| <==> includeSpaces || All(text, NonLayout)
    ensures !includeSpaces ==> n == |text| - (multiset(text)[' '] + multiset(text)['\n'] + multiset(text)['\t'])
  {
    KeepFull(text, NonLayout);
    LayoutCount(text);
    if includeSpaces then |text| else |Keep(text, NonLayout)|
  }

  /** Removing spaces, line feeds and tabs removes exactly their occurrences. */
  lemma {:induction false} LayoutCount(s: string)
    ensures |Keep(s, NonLayout)| == |s| - (multiset(s)[' '] + multiset(s)['\n'] + multiset(s)['\t'])
  {
    if s != [] {
      LayoutCount(s[1..]);
      assert s == [s[0]] + s[1..];
      assert multiset(s) == multiset{s[0]} + multiset(s[1..]);
    }
  }

  /** The number of characters of all the words together. */
  function TotalLength(words: seq<string>): nat
  {
    if words == [] then 0 else |words[0]| + TotalLength(words[1..])
  }

  lemma {:induction false} TotalLengthAtLeast(words: seq<string>)
    requires forall i :: 0 <= i < |words| ==> words[i] != []
    ensures TotalLength(words) >= |words|
  {
    if words != [] {
      TotalLengthAtLeast(words[1..]);
    }
  }

  /** `average_word_length` before rounding. */
  function AverageWordLength(words: seq<string>): (r: real)
    ensures words == [] ==> r == 0.0
    ensures words != [] ==> r * (|words| as real) == TotalLength(words) as real
  {
    if words == [] then 0.0 else TotalLength(words) as real / (|words| as real)
  }

  /** Words are non-empty, so a text with words averages at least one character. */
  lemma AverageWordLengthAtLeastOne(words: seq<string>)
    requires words != []
    requires forall i :: 0 <= i < |words| ==> words[i] != []
    ensures AverageWordLength(words) >= 1.0
  {
    TotalLengthAtLeast(words);
  }

  /** `average_sentence_length` before rounding: words per sentence. */
  function AverageSentenceLength(wordCount: nat, sentenceCount: nat): (r: real)
    ensures sentenceCount == 0 ==> r == 0.0
    ensures sentenceCount > 0 ==> r * (sentenceCount as real) == wordCount as real
  {
    if sentenceCount == 0 then 0.0 else wordCount as real / (sentenceCount as real)
  }

  // ---------------------------------------------------------------------
  // Syllables.

  /** The estimate for one word: one per run of vowels, one less for a final
      `e`, and never less than one. */
  function WordSyllables(word: string): (n: nat)
    ensures n >= 1
  {
    var w := LowerStr(word);
    var endsWithE := w != [] && w[|w| - 1] == 'e';
    assert endsWithE ==> Starts(w, Vowel, false) >= 1 by {
      if endsWithE {
        StartsAtLeastOne(w, Vowel, |w| - 1);
      }
    }
    var count := Starts(w, Vowel, false) - (if endsWithE then 1 else 0);
    if count == 0 then 1 else count
  }

  /** `_count_syllables` summed over a word list. */
  function TotalSyllables(words: seq<string>): nat
  {
    if words == [] then 0 else TotalSyllables(words[..|words| - 1]) + WordSyllables(words[|words| - 1])
  }

  /** Every word has at least one syllable. */
  lemma {:induction false} TotalSyllablesAtLeast(words: seq<string>)
    ensures TotalSyllables(words) >= |words|
  {
    if words != [] {
      TotalSyllablesAtLeast(words[..|words| - 1]);
    }
  }

  /** The vowel runs of the rest of `w`, given whether the previous character
      was a vowel: `Starts` read from position `j`. */
  lemma StartsStep(w: string, j: nat, prev: bool)
    requires j < |w|
    ensures Starts(w[j..], Vowel, prev)
      == (if In(w[j], Vowel) && !prev then 1 else 0) + Starts(w[j + 1..], Vowel, In(w[j], Vowel))
  {
    assert w[j..][1..] == w[j + 1..];
  }

  /** `_count_syllables`: the loop over words, and over the characters of each. */
  method CountSyllables(words: seq<string>) returns (syllableCount: nat)
    ensures syllableCount == TotalSyllables(words)
  {
    syllableCount := 0;
    var i := 0;
    while i < |words|
      invariant 0 <= i <= |words|
      invariant syllableCount == TotalSyllables(words[..i])
    {
      var word := LowerStr(words[i]);
      var count: int := 0;
      var previousWasVowel := false;
      var j := 0;
      while j < |word|
        invariant 0 <= j <= |word|
        invariant count + Starts(word[j..], Vowel, previousWasVowel) == Starts(word, Vowel, false)
      {
        StartsStep(word, j, previousWasVowel);
        var isVowel := In(word[j], Vowel);
        if isVowel && !previousWasVowel {
          count := count + 1;
        }
        previousWasVowel := isVowel;
        j := j + 1;
      }
      if word != [] && word[|word| - 1] == 'e' {
        count := count - 1;
      }
      if count == 0 {
        count := 1;
      }
      assert count == WordSyllables(words[i]);
      assert words[..i + 1][..i] == words[..i];
      syllableCount := syllableCount + count;
      i := i + 1;
    }
    assert words[..i] == words;
  }

  // ---------------------------------------------------------------------
  // Readability.

  /** The Flesch Reading Ease formula. */
  function Flesch(words: nat, sentences: nat, syllables: nat): real
    requires words > 0 && sentences > 0
  {
    206.835 - 1.015 * ((words as real) / (sentences as real)) - 84.6 * ((syllables as real) / (words as real))
  }

  /** `max(0, min(100, score))`. */
  function Clamp(score: real): (r: real)
    ensures 0.0 <= r <= 100.0
    ensures 0.0 <= score <= 100.0 ==> r == score
    ensures score < 0.0 ==> r == 0.0
    ensures score > 100.0 ==> r == 100.0
  {
    if score > 100.0 then 100.0 else if score < 0.0 then 0.0 else score
  }

  /** The level names, easiest first. */
  const Levels: seq<string> :=
    ["Very Easy", "Easy", "Fairly Easy", "Standard", "Fairly Difficult", "Difficult", "Very Difficult"]

  /** The lowest score of each level but the last. */
  const LevelFloors: seq<real> := [90.0, 80.0, 70.0, 60.0, 50.0, 30.0]

  /** The level of a clamped score. */
  function LevelOf(score: real): string
  {
    if score >= 90.0 then "Very Easy"
    else if score >= 80.0 then "Easy"
    else if score >= 70.0 then "Fairly Easy"
    else if score >= 60.0 then "Standard"
    else if score >= 50.0 then "Fairly Difficult"
    else if score >= 30.0 then "Difficult"
    else "Very Difficult"
  }

  /** How many of `floors` lie above `score`. */
  function CountAbove(score: real, floors: seq<real>): (k: nat)
    ensures k <= |floors|
  {
    if floors == [] then 0 else (if score < floors[0] then 1 else 0) + CountAbove(score, floors[1..])
  }

  /** The position in `Levels` of the level for `score`: the number of floors
      above it. */
  function LevelRank(score: real): (k: nat)
    ensures k < |Levels|
  {
    CountAbove(score, LevelFloors)
  }

  /** The thresholds read as a table: the level of a score is the entry of
      `Levels` at the number of floors above the score. */
  lemma LevelFollowsFloors(score: real)
    ensures LevelOf(score) == Levels[LevelRank(score)]
  {
    var f := LevelFloors;
    var f5 := f[1..][1..][1..][1..][1..];
    assert f5 == [30.0] && f5[1..] == [];
    var f4 := f[1..][1..][1..][1..];
    assert f4 == [50.0] + f5;
    var f3 := f[1..][1..][1..];
    assert f3 == [60.0] + f4;
    var f2 := f[1..][1..];
    assert f2 == [70.0] + f3;
    var f1 := f[1..];
    assert f1 == [80.0] + f2;
    assert f == [90.0] + f1;
    assert CountAbove(score, f) == (if score < 90.0 then 1 else 0) + CountAbove(score, f1);
    assert CountAbove(score, f1) == (if score < 80.0 then 1 else 0) + CountAbove(score, f2);
    assert CountAbove(score, f2) == (if score < 70.0 then 1 else 0) + CountAbove(score, f3);
    assert CountAbove(score, f3) == (if score < 60.0 then 1 else 0) + CountAbove(score, f4);
    assert CountAbove(score, f4) == (if score < 50.0 then 1 else 0) + CountAbove(score, f5);
    assert CountAbove(score, f5) == (if score < 30.0 then 1 else 0);
  }

  lemma {:induction false} CountAboveMonotone(a: real, b: real, floors: seq<real>)
    requires a <= b
    ensures CountAbove(b, floors) <= CountAbove(a, floors)
  {
    if floors != [] {
      CountAboveMonotone(a, b, floors[1..]);
    }
  }

  /** A higher score never has a harder level. */
  lemma LevelMonotone(a: real, b: real)
    requires a <= b
    ensures LevelRank(b) <= LevelRank(a)
  {
    CountAboveMonotone(a, b, LevelFloors);
  }

  datatype Readability = Readability(fleschReadingEase: real, readabilityLevel: string)

  /** `readability_score` before rounding, from the word, sentence and syllable
      counts. */
  function ReadabilityOf(words: nat, sentences: nat, syllables: nat): (r: Readability)
    ensures sentences == 0 || words == 0 ==> r == Readability(0.0, "Unable to calculate")
    ensures sentences > 0 && words > 0 ==>
      && r.fleschReadingEase == Clamp(Flesch(words, sentences, syllables))
      && 0.0 <= r.fleschReadingEase <= 100.0
      && r.readabilityLevel in Levels
      && r.readabilityLevel == Levels[LevelRank(r.fleschReadingEase)]
  {
    if sentences == 0 || words == 0 then Readability(0.0, "Unable to calculate")
    else
      var score := Clamp(Flesch(words, sentences, syllables));
      LevelFollowsFloors(score);
      Readability(score, LevelOf(score))
  }

  /** More syllables for the same words and sentences never make a text read
      easier. */
  lemma MoreSyllablesHarder(words: nat, sentences: nat, s1: nat, s2: nat)
    requires words > 0 && sentences > 0 && s1 <= s2
    ensures Clamp(Flesch(words, sentences, s2)) <= Clamp(Flesch(words, sentences, s1))
  {
    var w := words as real;
    assert (s1 as real) / w <= (s2 as real) / w by {
      DivMonotone(s1 as real, s2 as real, w);
    }
  }

  lemma DivMonotone(a: real, b: real, w: real)
    requires a <= b && w > 0.0
    ensures a / w <= b / w
  {
    assert b / w - a / w == (b - a) / w;
  }

  // ---------------------------------------------------------------------
  // Sentiment.

  /** What the external sentiment scorer gives for a text: a polarity in
      [-1, 1] and a subjectivity in [0, 1], or the message of the exception it
      raised. Its internals are not part of this model. */
  datatype SentimentOutcome = Scored(polarity: real, subjectivity: real) | Raised(message: string)

  datatype Sentiment = Sentiment(polarity: real, subjectivity: real, sentiment: string, error: Option<string>)

  function SentimentLabel(polarity: real): string
  {
    if polarity > 0.3 then "Positive" else if polarity < -0.3 then "Negative" else "Neutral"
  }

  /** The label of a polarity and of its opposite are mirror images. */
  lemma SentimentLabelMirror(polarity: real)
    ensures SentimentLabel(polarity) == "Positive" <==> SentimentLabel(-polarity) == "Negative"
    ensures SentimentLabel(polarity) == "Neutral" <==> SentimentLabel(-polarity) == "Neutral"
  {
  }

  /** `sentiment_analysis` before rounding. */
  function SentimentOf(outcome: SentimentOutcome): (r: Sentiment)
    ensures outcome.Raised? ==> r == Sentiment(0.0, 0.0, "Unable to analyze", Some(outcome.message))
    ensures outcome.Scored? ==>
      && r.polarity == outcome.polarity && r.subjectivity == outcome.subjectivity && r.error == None
      && (r.sentiment == "Positive" <==> outcome.polarity > 0.3)
      && (r.sentiment == "Negative" <==> outcome.polarity < -0.3)
      && (r.sentiment == "Neutral" <==> -0.3 <= outcome.polarity <= 0.3)
  {
    match outcome
    case Raised(message) => Sentiment(0.0, 0.0, "Unable to analyze", Some(message))
    case Scored(p, s) => Sentiment(p, s, SentimentLabel(p), None)
  }
}
