# SmartDoc AI backend: the analysis core in Dafny

This project models the analysis core of the SmartDoc AI backend, a web
service that analyses general text, customer feedback and South African
legal documents. The model covers:

- the `TextAnalyzer`: it cleans the text, splits it into words and
  sentences, and reports counts, averages, a Flesch readability score
  with its level, a sentiment label and the most frequent keywords;
- the `LegalAnalyzer`: it guesses the document type, lists the parties,
  dates and rand amounts with their context, finds the clauses, scores
  the risk terms and builds the legal summary;
- the `AnalysisService`: it wraps each analysis in its response model,
  extracts the key points of feedback, compares two documents by their
  keywords and runs a batch of analyses;
- the request and response models: field constraints, validators,
  enumerations and score bounds;
- the `DocumentLoader` checks: file names, extensions and sizes, and the
  order in which `load_from_bytes` applies its guards.

Modules follow the source files:

- `Strings` and `Wrappers` hold shared helpers;
- `TextNormalizer`, `TextAnalysis`, `Keywords` and `Analyzer` model
  `text_analyzer.py`;
- `LegalPatterns`, `LegalText`, `Parties` and `LegalAnalysis` model
  `legal_analyzer.py`;
- `Schemas` models `schemas.py`;
- `Service` models `analysis_service.py`;
- `DocumentLoader` models `document_loader.py`.

The two analyzers are classes. Their lazily computed lists (`_word_list`,
`_parties` and the others) are `Option` fields that each method fills on
first use, and `Valid()` says that a filled field holds the list its
specification function computes. The loops of the source are methods:
syllable counting, word frequencies, the pattern passes, key points and
the batch. Each is proved equal to a specification function, and the
properties are proved about those functions as lemmas.

Things outside the core are parameters:

- the TextBlob sentiment scorer is a function from the cleaned text to a
  `SentimentOutcome` (scores, or the message of an exception);
- the clock is a `now` string;
- the party regular expressions are the captured groups they return
  (`PartyMatches`);
- the PDF and Word extractors are a function from format and bytes to a
  result.

The date, amount and clause patterns are written out as matchers, and
their `finditer` scan is leftmost and non-overlapping (`LegalPatterns`).
Characters are ASCII: Python's `\s`, `\w`, `\d` and `str.lower()` are
restricted to their ASCII meaning.

Where the description of the system and the code differ, the model
follows the code:

- The `min_length` constraint of a request applies to the raw value,
  before the validator strips it. A ten-character text made of spaces and
  one letter passes `min_length` and is then stripped to one character.
  A legal text needs fifty characters both before and after stripping.
- The batch validator's "At least one text is required" cannot be
  reached through the request model, because `min_items=1` refuses the
  empty list first. `TextsNotEmpty` still models that message.
- `batch_analyze` raises "Unknown analysis type" for any other type, but
  through the API the `AnalysisType` enumeration admits only the three
  known types. `BatchRequest` and `BatchUnknownType` show both sides.
- `analyze_text` and `analyze_feedback` cannot fail because of the
  readability score, since it always lies within its model's bounds; only
  a sentiment scorer that leaves [-1, 1] or [0, 1] makes their
  `SentimentAnalysis` model refuse the result.
- `analyze_legal_document` never fails. Its sentiment sits in the
  `text_statistics` dictionary, which no response model validates, and
  the `RiskAssessment` it does validate always fits (`LegalAnalysisOf`).

## Model

| member | source | states |
|---|---|---|
| TextNormalizer.CleanTextIsJoinedTokens | app/core/text_analyzer.py:30-42 | the cleaned text is the white-space-separated tokens of the text joined by single spaces, with nothing before or after |
| TextNormalizer.WordsAreLowerWordRuns | app/core/text_analyzer.py:45-55 | the words are non-empty runs of word characters with no upper-case letter that spell out exactly the word characters of the lower-cased text; the i-th word is the lower-cased slice `cleaned[a..b]` at the i-th span, that slice is a maximal run of word characters (the characters at `a - 1` and `b` are not word characters), and the spans go strictly left to right |
| TextNormalizer.SplitOnTerminators | app/core/text_analyzer.py:67 | splitting on sentence terminators gives at least one part, no part contains a terminator, and the first part is empty exactly when the text is empty or begins with a terminator |
| TextNormalizer.SplitOnTerminatorsRuns | app/core/text_analyzer.py:67 | the parts are exactly the maximal runs of non-terminators, in order, with one empty part in front when the text is empty or begins with a terminator and one at the end when it ends with one; no other part is empty |
| TextNormalizer.SplitOnTerminatorsChunk | app/core/text_analyzer.py:67 | in a text that begins with a non-terminator, the first part is the whole leading run of non-terminators |
| TextNormalizer.LeadPiece | app/core/text_analyzer.py:67 | defines the empty part that `re.split` yields before a leading terminator or for the empty text |
| TextNormalizer.TrailPiece | app/core/text_analyzer.py:67 | defines the empty part that `re.split` yields after a trailing terminator |
| TextNormalizer.SplitOnTerminatorsParts | app/core/text_analyzer.py:67 | the parts spell out the text without its terminators, and there is one part more than the number of runs of terminators |
| TextNormalizer.NonBlankStrippedParts | app/core/text_analyzer.py:68 | every part that is kept is stripped, non-empty and has no terminator |
| TextNormalizer.NonBlankStrippedContent | app/core/text_analyzer.py:68 | dropping the blank parts and stripping the rest loses no character other than white space |
| TextNormalizer.SentencesShape | app/core/text_analyzer.py:58-69 | every sentence is non-empty, stripped and has no terminator, and the sentences hold every non-space, non-terminator character of the cleaned text in order |
| TextNormalizer.WordsNeedSentences | app/core/text_analyzer.py:54-68 | a text with at least one word has at least one sentence |
| TextNormalizer.CollapseSpaces | app/core/text_analyzer.py:41 | defines `re.sub(r'\s+', ' ', s)`: each maximal run of white space becomes one space and the text between the runs is copied; with the strip, `CleanTextIsJoinedTokens` states its effect |
| TextNormalizer.CleanText | app/core/text_analyzer.py:30-42 | defines `_clean_text` as the collapse followed by the strip; `CleanTextIsJoinedTokens` states what it yields |
| TextNormalizer.WordsOf | app/core/text_analyzer.py:45-55 | defines `words` as the maximal runs of word characters of the lower-cased cleaned text, left to right; `WordsAreLowerWordRuns` states their shape and positions |
| TextNormalizer.WordSpans | app/core/text_analyzer.py:54 | defines where each match of `\b\w+\b` lies in the cleaned text, for `WordsAreLowerWordRuns` |
| TextNormalizer.NonBlankStripped | app/core/text_analyzer.py:68 | the comprehension keeps at most one sentence per part; `NonBlankStrippedKeeps` states which |
| TextNormalizer.NonBlankFrom | app/core/text_analyzer.py:68 | the positions of the parts that are not blank once stripped: exactly those, in increasing order |
| TextNormalizer.NonBlankStrippedKeeps | app/core/text_analyzer.py:68 | the j-th kept sentence is the stripped form of the j-th part that is not blank once stripped; blank parts yield nothing and the order is kept |
| TextNormalizer.NonBlankStrippedFrom | app/core/text_analyzer.py:68 | the same, for the parts from a given position on |
| TextNormalizer.NonBlankStrippedAppend | app/core/text_analyzer.py:68 | the comprehension over two lists of parts is the two comprehensions one after the other |
| TextNormalizer.SentencesAreStrippedRuns | app/core/text_analyzer.py:58-69 | the sentences are the maximal runs of non-terminators of the cleaned text, stripped, with the blank ones dropped; the i-th run is the slice at the i-th span, each span is a maximal run, and the spans go strictly left to right |
| TextNormalizer.SentencesOf | app/core/text_analyzer.py:58-69 | defines `sentences` as the split on terminator runs, then the comprehension; `SentencesAreStrippedRuns` and `SentencesShape` state what the sentences are |
| TextAnalysis.CharacterCount | app/core/text_analyzer.py:89-102 | the count never exceeds the length of the text, and it equals that length exactly when spaces are included or the text has no space, line feed or tab; without spaces it is the length less the number of spaces, line feeds and tabs |
| TextAnalysis.LayoutCount | app/core/text_analyzer.py:100 | removing spaces, line feeds and tabs shortens the text by exactly their number of occurrences |
| TextAnalysis.AverageWordLength | app/core/text_analyzer.py:104-114 | 0 for no words; otherwise the average times the number of words is the total of the word lengths |
| TextAnalysis.AverageWordLengthAtLeastOne | app/core/text_analyzer.py:104-114 | non-empty words average at least one character |
| TextAnalysis.AverageSentenceLength | app/core/text_analyzer.py:116-125 | 0 for no sentences; otherwise the average times the number of sentences is the word count |
| TextAnalysis.WordSyllables | app/core/text_analyzer.py:184-200 | every word counts at least one syllable |
| TextAnalysis.TotalSyllablesAtLeast | app/core/text_analyzer.py:173-204 | a text has at least as many syllables as words |
| TextAnalysis.CountSyllables | app/core/text_analyzer.py:173-204 | the nested loop over words and characters computes the total of the per-word syllable counts |
| TextAnalysis.Clamp | app/core/text_analyzer.py:150 | the clamped score lies in [0, 100]; a score already in range is unchanged, one below is 0 and one above is 100 |
| TextAnalysis.LevelFollowsFloors | app/core/text_analyzer.py:153-166 | the level is the one whose rank is the number of floors (90, 80, 70, 60, 50, 30) the score does not reach |
| TextAnalysis.LevelMonotone | app/core/text_analyzer.py:153-166 | a higher score never gets a harder level |
| TextAnalysis.ReadabilityOf | app/core/text_analyzer.py:127-171 | no words or no sentences gives 0 and "Unable to calculate"; otherwise the score is the Flesch reading-ease formula 206.835 - 1.015 * words / sentences - 84.6 * syllables / words clamped to [0, 100], and the level is one of the seven, picked by the score's rank |
| TextAnalysis.MoreSyllablesHarder | app/core/text_analyzer.py:149-150 | with the same words and sentences, more syllables never raise the reading ease |
| TextAnalysis.SentimentLabelMirror | app/core/text_analyzer.py:219-224 | negating the polarity swaps "Positive" and "Negative" and keeps "Neutral" |
| TextAnalysis.SentimentOf | app/core/text_analyzer.py:206-237 | a raising scorer gives 0, 0, "Unable to analyze" and its message; otherwise the scores pass through, and the label is "Positive" iff polarity > 0.3, "Negative" iff < -0.3, else "Neutral" |
| TextAnalysis.TotalLength | app/core/text_analyzer.py:113 | defines `sum(len(word) for word in self.words)`; `AverageWordLength` uses it |
| TextAnalysis.TotalSyllables | app/core/text_analyzer.py:173-204 | defines the syllable total as the sum of the per-word counts; `CountSyllables` proves the nested loop computes it |
| TextAnalysis.Flesch | app/core/text_analyzer.py:147-149 | defines the Flesch Reading Ease formula with the source's constants 206.835, 1.015 and 84.6 |
| TextAnalysis.LevelOf | app/core/text_analyzer.py:153-166 | defines the level chain with the floors 90, 80, 70, 60, 50 and 30; `LevelFollowsFloors` states it by rank |
| TextAnalysis.LevelRank | app/core/text_analyzer.py:153-166 | the rank of a score names one of the seven levels |
| TextAnalysis.SentimentLabel | app/core/text_analyzer.py:219-224 | defines the label by the thresholds 0.3 and -0.3; `SentimentOf` states both directions |
| Keywords.Candidates | app/core/text_analyzer.py:250-261 | a word is a candidate exactly when it occurs in the text, is longer than two characters and is not a stop word |
| Keywords.CandidatesCount | app/core/text_analyzer.py:260-262 | keeping only candidates does not change how often a candidate occurs |
| Keywords.FirstOccurrences | app/core/text_analyzer.py:259-262 | the table's key order: distinct words, exactly those of the input; `FirstOccurrencesOrdered` states their order |
| Keywords.FirstIndex | app/core/text_analyzer.py:259-262 | the position of the first occurrence of a value, or the length when there is none: nothing before it equals the value |
| Keywords.FirstIndexAppend | app/core/text_analyzer.py:259-262 | appending an element moves no first occurrence, and a new element first occurs at the end |
| Keywords.FirstOccurrencesOrdered | app/core/text_analyzer.py:259-262 | the keys come in the order in which they first occur in the input, as a dict's keys do |
| Keywords.CandidatesFirstIndex | app/core/text_analyzer.py:259-262 | two candidates first occur in the same order among the candidates as among all the words |
| Keywords.TableOrder | app/core/text_analyzer.py:259-262 | the frequency table's entries come in the order in which their words first occur in the text |
| Keywords.FrequencyTableSpec | app/core/text_analyzer.py:259-262 | every entry is a candidate word of the text with its number of occurrences, no word appears twice, and every candidate word has an entry |
| Keywords.CountFrequencies | app/core/text_analyzer.py:259-262 | the dictionary-building loop yields the frequency table, in first-occurrence order |
| Keywords.SortByFrequency | app/core/text_analyzer.py:265 | sorting is a permutation of the table |
| Keywords.SortDescending | app/core/text_analyzer.py:265 | the sorted table is in non-increasing order of frequency |
| Keywords.SortStable | app/core/text_analyzer.py:265 | the sort is stable: the entries of any one frequency keep their order |
| Keywords.SortedTie | app/core/text_analyzer.py:265 | two entries of equal frequency that are in order after the sort were in that order before it |
| Keywords.WithFrequencyKeeps | app/core/text_analyzer.py:265 | two entries of one frequency keep their order among the entries of that frequency |
| Keywords.WithFrequencyFrom | app/core/text_analyzer.py:265 | two entries in order among those of one frequency are in that order in the whole list |
| Keywords.KeywordsCounted | app/core/text_analyzer.py:239-266 | every keyword returned is a candidate with its exact count, which is at least one |
| Keywords.KeywordsOrdered | app/core/text_analyzer.py:239-266 | the keywords are distinct and in non-increasing order of frequency |
| Keywords.KeywordsTies | app/core/text_analyzer.py:239-266 | keywords of equal frequency come in the order in which their words first occur in the text |
| Keywords.TieInTable | app/core/text_analyzer.py:259-265 | two sorted entries of equal frequency come in the order in which their words first occur in the text |
| Keywords.KeywordsTop | app/core/text_analyzer.py:265-266 | a candidate word that was left out occurs no more often than any keyword returned |
| Keywords.KeywordsBounded | app/core/text_analyzer.py:266 | at most `top_n` keywords, and never more than there are distinct candidates |
| Keywords.IsCandidate | app/core/text_analyzer.py:250-261 | defines the filter: not one of the 47 stop words and longer than two characters |
| Keywords.FrequencyTable | app/core/text_analyzer.py:259-262 | defines `word_freq.items()`: the candidates in first-occurrence order, each with its count; `FrequencyTableSpec` states it |
| Keywords.Insert | app/core/text_analyzer.py:265 | inserting an entry into the sorted list adds exactly that entry |
| Keywords.ExtractKeywords | app/core/text_analyzer.py:239-266 | defines `extract_keywords` as the stable descending sort of the table cut to `top_n`; `KeywordsCounted`, `KeywordsOrdered`, `KeywordsTop` and `KeywordsBounded` state its properties |
| Analyzer.SummaryCharacters | app/core/text_analyzer.py:283-284 | the count without spaces is at most the count with spaces, which is the length of the text |
| Analyzer.SummaryWords | app/core/text_analyzer.py:281-285 | a text with words has sentences, and its words average at least one character |
| Analyzer.SummaryReadability | app/core/text_analyzer.py:138-142 | the readability is "Unable to calculate" exactly when the text has no words |
| Analyzer.SummaryKeywords | app/core/text_analyzer.py:277 | the summary lists at most five keywords |
| Analyzer.TextAnalyzer.constructor | app/core/text_analyzer.py:18-28 | the analyzer keeps the text and its cleaned form, and no list is computed yet |
| Analyzer.TextAnalyzer.Words | app/core/text_analyzer.py:44-55 | returns the words of the cleaned text and memoises them; the sentence list is untouched |
| Analyzer.TextAnalyzer.Sentences | app/core/text_analyzer.py:57-69 | returns the sentences of the cleaned text and memoises them; the word list is untouched |
| Analyzer.TextAnalyzer.WordCount | app/core/text_analyzer.py:71-78 | the number of words |
| Analyzer.TextAnalyzer.SentenceCount | app/core/text_analyzer.py:80-87 | the number of sentences |
| Analyzer.TextAnalyzer.CharacterCount | app/core/text_analyzer.py:89-102 | the character count of the raw text |
| Analyzer.TextAnalyzer.AverageWordLength | app/core/text_analyzer.py:104-114 | the average word length of the words |
| Analyzer.TextAnalyzer.AverageSentenceLength | app/core/text_analyzer.py:116-125 | words per sentence, with both lists memoised |
| Analyzer.TextAnalyzer.ReadabilityScore | app/core/text_analyzer.py:127-171 | the readability of the word, sentence and syllable counts |
| Analyzer.TextAnalyzer.SentimentAnalysis | app/core/text_analyzer.py:206-237 | the sentiment of the scorer's outcome on the cleaned text |
| Analyzer.TextAnalyzer.ExtractKeywords | app/core/text_analyzer.py:239-266 | the top keywords of the words |
| Analyzer.TextAnalyzer.GetSummaryStatistics | app/core/text_analyzer.py:268-290 | the summary of the text, with both lists memoised |
| Analyzer.Summary | app/core/text_analyzer.py:268-290 | defines what `get_summary_statistics` reports; the `Summary...` lemmas state its properties |
| LegalPatterns.DigitsAt | app/core/legal_analyzer.py:172-237 | the maximal run of digits at a position |
| LegalPatterns.MatchEnd | app/core/legal_analyzer.py:43-53 | a pattern match at a position ends after it and within the text |
| LegalPatterns.Scan | app/core/legal_analyzer.py:263 | `finditer`: every span is a match of the pattern at its start, and the spans are in order and do not overlap |
| LegalPatterns.ScanComplete | app/core/legal_analyzer.py:263 | every position where the pattern matches lies inside a reported span, and nothing matches before the first span |
| LegalPatterns.ScanEmptyIff | app/core/legal_analyzer.py:263 | the scan finds nothing exactly when the pattern matches nowhere |
| LegalPatterns.DatesTrimmed | app/core/legal_analyzer.py:172-192 | the three date patterns begin and end with a digit |
| LegalPatterns.PrefixAmountsTrimmed | app/core/legal_analyzer.py:217-237 | an "R" or "ZAR" amount begins with that letter and ends with a digit |
| LegalPatterns.SuffixAmountTrimmed | app/core/legal_analyzer.py:227 | an amount written with "Rand" begins with a digit and ends with "d" or "s" |
| LegalPatterns.MatchTrimmed | app/core/legal_analyzer.py:43-53 | a match of a trimmed pattern neither starts nor ends with white space |
| LegalPatterns.ClausePatternsWellFormed | app/core/legal_analyzer.py:43-53 | there are ten clause patterns, all well formed |
| LegalPatterns.ClausePatternsTrimmed | app/core/legal_analyzer.py:43-53 | no clause pattern matches white space at either end |
| LegalPatterns.FirstAlt | app/core/legal_analyzer.py:172 | the month alternation picks the first alternative the text begins with, and none before it matches |
| LegalPatterns.SpacesAt | app/core/legal_analyzer.py:172 | `\s+` and `\s*` take the maximal run of white space at a position |
| LegalPatterns.DayMonthYearAt | app/core/legal_analyzer.py:172 | defines the match end of `\b(\d{1,2})\s+(January\|...\|December)\s+(\d{4})\b`, ignoring case; `DatesTrimmed` states its shape |
| LegalPatterns.YearMonthDayAt | app/core/legal_analyzer.py:182 | defines the match end of `\b(\d{4})[/-](\d{1,2})[/-](\d{1,2})\b` |
| LegalPatterns.DayMonthYearNumericAt | app/core/legal_analyzer.py:192 | defines the match end of `\b(\d{1,2})[/-](\d{1,2})[/-](\d{4})\b` |
| LegalPatterns.GroupsEnd | app/core/legal_analyzer.py:217 | `(?:[,\s]\d{3})*` ends within the text, on a digit when it took a group |
| LegalPatterns.NumberEnd | app/core/legal_analyzer.py:217 | the amount number takes at least its leading digits and ends on a digit |
| LegalPatterns.RandPrefixAt | app/core/legal_analyzer.py:217 | defines the match end of `R\s*(amount)`; `PrefixAmountsTrimmed` states its shape |
| LegalPatterns.RandSuffixAt | app/core/legal_analyzer.py:227 | defines the match end of `(amount)\s*Rands?`, ignoring case; `SuffixAmountTrimmed` states its shape |
| LegalPatterns.ZarPrefixAt | app/core/legal_analyzer.py:237 | defines the match end of `ZAR\s*(amount)` |
| LegalPatterns.Ends | app/core/legal_analyzer.py:263 | one entry per position of the text, each absent or the end of a match that lies after its start |
| LegalPatterns.Contains | app/core/legal_analyzer.py:285-286 | defines Python's `term in text` on strings; `OccursContains` and `ContainsOccurs` state both directions |
| LegalPatterns.OccursAt | app/core/legal_analyzer.py:285-286 | defines an occurrence of one string inside another at a position |
| LegalPatterns.OccursContains | app/core/legal_analyzer.py:285-286 | a string that occurs at some position is found by `Contains` |
| LegalPatterns.ContainsOccurs | app/core/legal_analyzer.py:285-286 | a string that `Contains` finds occurs at some position |
| LegalPatterns.BoundaryBefore | app/core/legal_analyzer.py:171-192 | defines `\b` in front of a word character: the start of the text or a non-word character before it |
| LegalPatterns.BoundaryAfter | app/core/legal_analyzer.py:171-192 | defines `\b` after a word character: the end of the text or a non-word character after it |
| LegalPatterns.ScanFrom | app/core/legal_analyzer.py:263 | `finditer` from a position: every span is a match at its start, after that position, and the spans do not overlap and go left to right |
| LegalPatterns.ScanCovers | app/core/legal_analyzer.py:263 | every position where the pattern matches lies inside one of the spans found |
| LegalPatterns.ScanLeftmost | app/core/legal_analyzer.py:263 | the first span starts at the first position where the pattern matches |
| LegalText.ContextEllipses | app/core/legal_analyzer.py:315-336 | the context starts with "..." when the window starts after the text's start, ends with "..." when it stops before the text's end, is the stripped text when the window covers everything, and is at most six characters longer than its window; a window that starts at the text's start gives the stripped window with no leading "...", and one that reaches the text's end gives no trailing "..." |
| LegalText.ContextShowsMatch | app/core/legal_analyzer.py:315-336 | a match that does not begin or end with white space appears whole in its context |
| LegalText.PresentCount | app/core/legal_analyzer.py:285-286 | no more terms are found than there are terms; `PresentCountIs` states the exact count |
| LegalText.PresentFrom | app/core/legal_analyzer.py:285-286 | the set of positions of the terms that occur in the text |
| LegalText.PresentCountIs | app/core/legal_analyzer.py:285-286 | the count is the number of positions of the list whose term occurs in the text |
| LegalText.PresentCountFrom | app/core/legal_analyzer.py:285-286 | the same, for the terms from a given position on |
| LegalText.PresentCountHas | app/core/legal_analyzer.py:285-286 | a term that occurs is counted |
| LegalText.PresentCountMonotone | app/core/legal_analyzer.py:285-286 | a text containing every term another contains counts at least as many |
| LegalText.RiskScore | app/core/legal_analyzer.py:290-293 | the score lies in [0, 100]: 100 when three times the high count plus the medium count reaches 50, else that raw score over 50, times 100 |
| LegalText.RiskOf | app/core/legal_analyzer.py:276-313 | at most 17 high and 13 medium terms; the total is their sum; the level is "High Risk" iff score >= 70, "Medium Risk" iff 40 <= score < 70, else "Low Risk", with the matching colour |
| LegalText.RiskMonotone | app/core/legal_analyzer.py:283-293 | a text containing every risk term another contains scores at least as high |
| LegalText.ObligationsCountTwice | app/core/legal_analyzer.py:27-31 | "obligations" contains both the medium terms "obligation" and "obligations", so it counts twice |
| LegalText.FirstMax | app/core/legal_analyzer.py:96 | `max(scores, key=scores.get)`: the first type with the highest score |
| LegalText.DocumentTypeOf | app/core/legal_analyzer.py:71-97 | "Unknown Document Type" when no type keyword occurs in the lower-cased text, else the first type with the most keywords present |
| LegalText.UnknownIsNoType | app/core/legal_analyzer.py:95-97 | the type is unknown exactly when every type scores zero |
| LegalText.WindowStart | app/core/legal_analyzer.py:327 | defines `max(0, start - chars)` |
| LegalText.WindowEnd | app/core/legal_analyzer.py:328 | defines `min(len(text), end + chars)` |
| LegalText.Ellipsis | app/core/legal_analyzer.py:331-334 | defines the "..." added on a cut side, and nothing on an uncut one |
| LegalText.Context | app/core/legal_analyzer.py:315-336 | defines `_get_context`: the stripped window with "..." on each cut side; `ContextEllipses` and `ContextShowsMatch` state its properties |
| LegalText.RiskLevelOf | app/core/legal_analyzer.py:296-304 | defines the level by the thresholds 70 and 40; `RiskOf` states both directions |
| LegalText.RiskColorOf | app/core/legal_analyzer.py:296-304 | defines the colour by the same thresholds; `RiskOf` states both directions |
| LegalText.TypeScores | app/core/legal_analyzer.py:91-93 | one score for each of the document types |
| Parties.Names | app/core/legal_analyzer.py:120 | the names of the parties found so far, in order |
| Parties.OfferSide | app/core/legal_analyzer.py:131-137 | a side of a "between" match is added, as an entity with its role, exactly when it has at most ten words and its name is new |
| Parties.AddAllKeeps | app/core/legal_analyzer.py:110-154 | adding candidates keeps the earlier parties in front, keeps names distinct, adds nothing that was not a candidate, and every candidate's name ends up listed |
| Parties.AddAllFirstWins | app/core/legal_analyzer.py:120-153 | the first candidate with a new name is the one kept |
| Parties.SuffixPassShaped | app/core/legal_analyzer.py:114-125 | every company candidate is a company with the role "Party" whose name ends with a space and one of the suffixes |
| Parties.BetweenPassShaped | app/core/legal_analyzer.py:128-137 | every "between" candidate is an entity of at most ten words |
| Parties.RolePassShaped | app/core/legal_analyzer.py:140-154 | every role candidate is an entity with its role, of at most eight words |
| Parties.PartiesSpec | app/core/legal_analyzer.py:99-157 | the party names are distinct, and the list is the single "Not identified" party exactly when no pass found a candidate |
| Parties.PartiesShaped | app/core/legal_analyzer.py:110-156 | when candidates exist, every party listed is one of them and has the shape of its pass |
| Parties.PartiesFirstWins | app/core/legal_analyzer.py:120-153 | each candidate whose name no earlier candidate used is listed |
| Parties.CompanyCandidates | app/core/legal_analyzer.py:117-125 | defines the candidates of one suffix: "<captured name> <suffix>" as a company with the role "Party" |
| Parties.SuffixPass | app/core/legal_analyzer.py:114-125 | defines pass 1 as the suffixes in order; `SuffixPassShaped` states its shape |
| Parties.Side | app/core/legal_analyzer.py:131-137 | defines one side of a "between" match, kept when it has at most ten words |
| Parties.BetweenPass | app/core/legal_analyzer.py:128-137 | defines pass 2 as the first and then the second side of each match; `BetweenPassShaped` states its shape |
| Parties.RoleCandidates | app/core/legal_analyzer.py:150-154 | defines the candidates of one role: names of at most eight words |
| Parties.RolePass | app/core/legal_analyzer.py:140-154 | defines pass 3 as the roles in order; `RolePassShaped` states its shape |
| Parties.AllCandidates | app/core/legal_analyzer.py:110-154 | defines the candidates of the three passes, one pass after the other |
| Parties.AddParty | app/core/legal_analyzer.py:120-124 | defines the append guarded by `name not in [p['name'] for p in parties]`; `AddAllKeeps` and `AddAllFirstWins` state its effect |
| Parties.AddAll | app/core/legal_analyzer.py:110-154 | defines offering the candidates one after the other |
| Parties.PartiesOf | app/core/legal_analyzer.py:99-157 | defines `extract_parties`: the de-duplicated candidates, or the "Not identified" party; `PartiesSpec`, `PartiesShaped` and `PartiesFirstWins` state its properties |
| LegalAnalysis.MatchShown | app/core/legal_analyzer.py:174-243 | the text of a date or amount match appears in its context |
| LegalAnalysis.LowerMatchShown | app/core/legal_analyzer.py:260-267 | a clause matched in the lower-cased text appears, in its original case, in its context |
| LegalAnalysis.DatesShown | app/core/legal_analyzer.py:159-202 | every date entry is the placeholder or has one of the three formats and appears in its context |
| LegalAnalysis.NoDatesIffNoMatch | app/core/legal_analyzer.py:201 | the placeholder "No dates found" is reported exactly when none of the three patterns matches |
| LegalAnalysis.OfferDates | app/core/legal_analyzer.py:174-198 | one date pass's loop appends one entry per match, in order |
| LegalAnalysis.AmountsShown | app/core/legal_analyzer.py:204-247 | every amount entry is the placeholder or is in "ZAR (Rands)" and appears in its context |
| LegalAnalysis.NoAmountsIffNoMatch | app/core/legal_analyzer.py:246 | the placeholder "No amounts found" is reported exactly when none of the three patterns matches |
| LegalAnalysis.OfferAmounts | app/core/legal_analyzer.py:219-243 | one amount pass's loop appends one entry per match, in order |
| LegalAnalysis.OccurrencesAt | app/core/legal_analyzer.py:266-268 | each occurrence is the 150-character context of its match |
| LegalAnalysis.CollectOccurrences | app/core/legal_analyzer.py:264-268 | the occurrence loop yields one context per match, in order |
| LegalAnalysis.ClausesSpec | app/core/legal_analyzer.py:249-274 | a clause type is listed exactly when its pattern matches, with its occurrences; every listed type is one of the ten and has occurrences |
| LegalAnalysis.ClauseOccurrencesShown | app/core/legal_analyzer.py:262-268 | one occurrence per match, each containing the matched text |
| LegalAnalysis.OfferCompanies | app/core/legal_analyzer.py:114-125 | the loop over the suffixes adds the company candidates of every suffix, in order |
| LegalAnalysis.OfferCompany | app/core/legal_analyzer.py:117-125 | the loop over one suffix's matches adds "<name> <suffix>" for each match whose name is new |
| LegalAnalysis.OfferBetween | app/core/legal_analyzer.py:128-137 | the "between" loop adds its candidates |
| LegalAnalysis.OfferRoles | app/core/legal_analyzer.py:149-154 | the loop over the roles adds the role candidates of every role, in order |
| LegalAnalysis.OfferRole | app/core/legal_analyzer.py:150-154 | the loop over one role's matches adds each new name of at most eight words |
| LegalAnalysis.FindParties | app/core/legal_analyzer.py:110-156 | the three passes with the placeholder give the party list |
| LegalAnalysis.FindDates | app/core/legal_analyzer.py:169-201 | the three date passes with the placeholder give the date list |
| LegalAnalysis.FindAmounts | app/core/legal_analyzer.py:214-246 | the three amount passes with the placeholder give the amount list |
| LegalAnalysis.FindClauses | app/core/legal_analyzer.py:259-273 | the clause loop gives the clause list |
| LegalAnalysis.LegalSummaryLists | app/core/legal_analyzer.py:350-363 | the summary keeps the first five dates and amounts, all of them when there are at most five, never an empty list, and every party |
| LegalAnalysis.ClauseCountsSpec | app/core/legal_analyzer.py:364-367 | one count per clause type found, in order, each the number of its occurrences and at least one |
| LegalAnalysis.LegalAnalyzer.constructor | app/core/legal_analyzer.py:56-69 | a fresh analyzer over the text, with nothing computed yet |
| LegalAnalysis.LegalAnalyzer.IdentifyDocumentType | app/core/legal_analyzer.py:71-97 | the document type of the text |
| LegalAnalysis.LegalAnalyzer.ExtractParties | app/core/legal_analyzer.py:99-157 | the parties, memoised, the other lists untouched |
| LegalAnalysis.LegalAnalyzer.ExtractDates | app/core/legal_analyzer.py:159-202 | the dates, memoised, the other lists untouched |
| LegalAnalysis.LegalAnalyzer.ExtractMonetaryAmounts | app/core/legal_analyzer.py:204-247 | the amounts, memoised, the other lists untouched |
| LegalAnalysis.LegalAnalyzer.IdentifyClauses | app/core/legal_analyzer.py:249-274 | the clauses, memoised, the other lists untouched |
| LegalAnalysis.LegalAnalyzer.GetLegalSummary | app/core/legal_analyzer.py:338-369 | the legal summary of the text, with every list memoised |
| LegalAnalysis.DateAt | app/core/legal_analyzer.py:175-179 | defines one date entry: the matched text, the format's name and the 100-character context |
| LegalAnalysis.DateEntries | app/core/legal_analyzer.py:174-179 | one entry per match of a pass |
| LegalAnalysis.DatePasses | app/core/legal_analyzer.py:169-198 | defines the three date passes, one after the other |
| LegalAnalysis.DatesOf | app/core/legal_analyzer.py:159-202 | defines `extract_dates`: the passes, or the "No dates found" entry; `DatesShown` and `NoDatesIffNoMatch` state its properties |
| LegalAnalysis.AmountAt | app/core/legal_analyzer.py:220-224 | defines one amount entry: the matched text, "ZAR (Rands)" and the 100-character context |
| LegalAnalysis.AmountEntries | app/core/legal_analyzer.py:219-224 | one entry per match of a pass |
| LegalAnalysis.AmountPasses | app/core/legal_analyzer.py:214-243 | defines the three amount passes, one after the other |
| LegalAnalysis.AmountsOf | app/core/legal_analyzer.py:204-247 | defines `extract_monetary_amounts`: the passes, or the "No amounts found" entry; `AmountsShown` and `NoAmountsIffNoMatch` state its properties |
| LegalAnalysis.Occurrences | app/core/legal_analyzer.py:266-268 | one occurrence per match |
| LegalAnalysis.ClauseOccurrences | app/core/legal_analyzer.py:263-268 | defines the occurrences of one clause pattern in the lower-cased text |
| LegalAnalysis.ClausesFrom | app/core/legal_analyzer.py:262-273 | defines the clause dictionary over the given patterns, keeping a type only when it has occurrences |
| LegalAnalysis.ClausesOf | app/core/legal_analyzer.py:249-274 | defines `identify_clauses` over the ten clause patterns; `ClausesSpec` and `ClauseOccurrencesShown` state its properties |
| LegalAnalysis.CollectClauses | app/core/legal_analyzer.py:262-273 | the loop over the clause patterns gives the clause dictionary |
| LegalAnalysis.ClauseCounts | app/core/legal_analyzer.py:364-367 | defines the count per clause type; `ClauseCountsSpec` states it |
| LegalAnalysis.LegalSummaryOf | app/core/legal_analyzer.py:338-370 | defines what `get_legal_summary` reports; `LegalSummaryLists` and `ClauseCountsSpec` state its properties |
| Schemas.NotEmpty | app/models/schemas.py:54-58 | a value is refused, with the validator's message, exactly when it is blank; otherwise the result is the value without surrounding white space, non-empty |
| Schemas.NotEmptyIdempotent | app/models/schemas.py:54-58 | validating a validated text changes nothing |
| Schemas.LegalNotEmpty | app/models/schemas.py:113-119 | a blank text and a stripped text under 50 characters are refused with their own messages; what passes is the stripped text, at least 50 long |
| Schemas.TextsNotEmpty | app/models/schemas.py:328-335 | an empty list or any blank item is refused with its message; otherwise every item is stripped, in order |
| Schemas.TextRequest | app/models/schemas.py:51-58 | accepted exactly when the raw text has at least 10 characters and is not blank; a shorter text fails the length constraint first |
| Schemas.FeedbackRequest | app/models/schemas.py:182-189 | accepted exactly when the raw text has at least 10 characters and is not blank |
| Schemas.LegalRequest | app/models/schemas.py:110-119 | accepted exactly when the text is not blank and has at least 50 characters after stripping |
| Schemas.BatchRequest | app/models/schemas.py:323-335 | accepted exactly when there are 1 to 10 texts, none blank, and the type is "text", "legal" or "feedback" |
| Schemas.ReadabilityAlwaysFits | app/models/schemas.py:81 | every readability the analyzer reports lies within [0, 100] |
| Schemas.RiskAlwaysFits | app/models/schemas.py:153-154 | every risk assessment has a score in [0, 100] and one of the three risk levels |
| Schemas.SentimentFitsIff | app/models/schemas.py:87-88 | the sentiment fits its model exactly when the scorer raised or kept polarity in [-1, 1] and subjectivity in [0, 1] |
| Schemas.TextNotEmpty | app/models/schemas.py:54-58 | defines `TextAnalysisRequest.text_not_empty` as the blank check with "Text content cannot be empty" |
| Schemas.FeedbackNotEmpty | app/models/schemas.py:185-189 | defines `FeedbackAnalysisRequest.text_not_empty` as the blank check with "Feedback text cannot be empty" |
| Schemas.ReadabilityFits | app/models/schemas.py:81 | defines the bound `ge=0, le=100` on the reading ease |
| Schemas.SentimentFits | app/models/schemas.py:87-88 | defines the bounds on polarity and subjectivity |
| Schemas.RiskFits | app/models/schemas.py:153-154 | defines the bound on the risk score and the `RiskLevel` values |
| Service.TextAnalysisOf | app/services/analysis_service.py:26-55 | the text analysis succeeds, with the analyzer's summary, exactly when the sentiment fits its model; otherwise it fails with "Text analysis failed: " and the validation error |
| Service.AnalyzeText | app/services/analysis_service.py:26-55 | the method builds an analyzer and gives the text analysis of the scorer's outcome |
| Service.LegalAnalysisOf | app/services/analysis_service.py:58-90 | the legal analysis always succeeds with the legal summary |
| Service.AnalyzeLegalDocument | app/services/analysis_service.py:58-90 | the method builds a legal analyzer and gives the legal analysis |
| Service.LongSentencesSpec | app/services/analysis_service.py:115-117 | the sentences kept are a subsequence of the input, holding exactly those of more than three words, each as many times as it occurs |
| Service.KeyPointsSpec | app/services/analysis_service.py:111-117 | at most five key points, a subsequence of the first five sentences, holding exactly those of more than three words, each as many times as it occurs among the first five |
| Service.KeyPoints | app/services/analysis_service.py:111-117 | the key-point loop gives the key points |
| Service.FeedbackAnalysisOf | app/services/analysis_service.py:93-127 | succeeds exactly when the sentiment fits its model, with the sentiment, the key points, the word count and the readability of the word, sentence and syllable counts of the cleaned text (which fits its model); otherwise fails with "Feedback analysis failed: " |
| Service.AnalyzeFeedback | app/services/analysis_service.py:93-127 | the method gives the feedback analysis of the scorer's outcome |
| Service.SimilaritySpec | app/services/analysis_service.py:150-156 | the similarity lies in [0, 100], is 0 when there are no keywords, is 0 exactly when no keyword is shared, and is 100 exactly when the keyword sets are equal |
| Service.SimilaritySymmetric | app/services/analysis_service.py:150-156 | the similarity does not depend on the order of the documents |
| Service.Listing | app/services/analysis_service.py:164-169 | a listing of a set has each member once |
| Service.FirstTen | app/services/analysis_service.py:164-169 | ten members of the set, or all of them when there are fewer, distinct, and empty only for the empty set |
| Service.Recommendation | app/services/analysis_service.py:171-177 | "highly similar" iff the score is above 70, "moderate" iff above 40 and at most 70, "substantially different" iff at most 40 |
| Service.ComparisonLists | app/services/analysis_service.py:158-182 | one or two difference lines, the first for words only in document 1 and the last for words only in document 2; the sentinel exactly when both sets agree |
| Service.DifferenceLines | app/services/analysis_service.py:158-166 | one or two difference lines: the first names words only in document 1, the last words only in document 2, two lines exactly when both sides have such words, and the sentinel for equal sets |
| Service.CommonElementsShared | app/services/analysis_service.py:169 | the common elements are distinct keywords of both documents |
| Service.CompareScore | app/services/analysis_service.py:130-184 | the comparison score is symmetric, lies in [0, 100], and is 0 when neither document has keywords |
| Service.CompareSelf | app/services/analysis_service.py:130-184 | a document with keywords compared with itself scores 100, has no differences, shares its keywords and is "highly similar" |
| Service.ItemOf | app/services/analysis_service.py:205-231 | each batch item carries its index, and an unknown type fails with "Unknown analysis type: " and the type |
| Service.ItemsAt | app/services/analysis_service.py:205-231 | the i-th result is the run of the i-th text at index i |
| Service.FailedCountSpec | app/services/analysis_service.py:221-224 | the failure count is the number of error lines, is 0 exactly when every item succeeded, and is the number of texts exactly when every item failed |
| Service.ErrorLinesFailed | app/services/analysis_service.py:223-224 | every error line is "Text <index>: <error>" of a failed item |
| Service.BatchFromSpec | app/services/analysis_service.py:201-238 | one result per text, in order; the errors are absent exactly when nothing failed, otherwise one per failure |
| Service.BatchItems | app/services/analysis_service.py:205-220 | each batch result is the analysis of its own text at its own index |
| Service.BatchUnknownType | app/services/analysis_service.py:213-214 | with an unknown type every item fails, and so the failure count is the number of texts |
| Service.RunItem | app/services/analysis_service.py:207-231 | the dispatch on the analysis type gives the batch item |
| Service.BatchAnalyze | app/services/analysis_service.py:190-238 | the batch loop gives the batch outcome |
| Service.TextResponse | app/services/analysis_service.py:44-55 | defines building the text response: a score outside its model raises, and the service adds "Text analysis failed: " |
| Service.LegalResponse | app/services/analysis_service.py:77-90 | defines building the legal response, where only the risk assessment is validated |
| Service.LongSentences | app/services/analysis_service.py:115-117 | defines the sentences of more than three tokens; `LongSentencesSpec` states it |
| Service.LongSentencesCount | app/services/analysis_service.py:115-117 | each sentence of more than three tokens is kept as often as it occurs, and no other sentence is kept |
| Service.KeyPointsOf | app/services/analysis_service.py:111-117 | defines the key points over `sentences[:5]`; `KeyPointsSpec` states it |
| Service.FeedbackResponse | app/services/analysis_service.py:119-127 | defines building the feedback response with "Feedback analysis failed: " |
| Service.KeywordSet | app/services/analysis_service.py:146-147 | defines the set of a document's twenty most frequent keywords |
| Service.Similarity | app/services/analysis_service.py:150-156 | defines the share of common keywords in percent, 0 without keywords; `SimilaritySpec` states its properties |
| Service.Differences | app/services/analysis_service.py:159-166 | defines the difference lines; `ComparisonLists` states them |
| Service.CompareSets | app/services/analysis_service.py:150-183 | defines the comparison of two keyword sets |
| Service.CompareDocuments | app/services/analysis_service.py:130-187 | defines `compare_documents`; `CompareScore`, `CompareSelf` and `ComparisonLists` state its properties |
| Service.ItemRunner | app/services/analysis_service.py:207-214 | defines the dispatch on the analysis type for one text |
| Service.Items | app/services/analysis_service.py:205-231 | one result per text |
| Service.FailedCount | app/services/analysis_service.py:202-222 | defines the number of failed items |
| Service.ErrorLines | app/services/analysis_service.py:223-224 | defines the error lines of the failed items, in order |
| Service.ErrorLine | app/services/analysis_service.py:223 | defines the line "Text <index>: <error>" of one failed item |
| Service.DifferenceLine | app/services/analysis_service.py:164-166 | defines the line "Unique to Document <n>: " followed by the words joined by ", " |
| Service.BatchFrom | app/services/analysis_service.py:201-238 | defines the batch outcome of a runner; `BatchFromSpec` states it |
| Service.BatchOf | app/services/analysis_service.py:190-238 | defines what `batch_analyze` returns; `BatchItems`, `BatchUnknownType` and `BatchAnalyze` state its properties |
| Strings.Strip | app/core/text_analyzer.py:42 | defines `str.strip()`; `StripIs`, `StripSlice`, `StripEmpty` and `StripClean` state what it yields |
| Strings.StripIs | app/core/text_analyzer.py:42 | stripping drops the leading run of white space, then the trailing one |
| Strings.StripSlice | app/core/text_analyzer.py:42 | the stripped text is a slice of the text, only white space lies around it, and it has no white space at either end |
| Strings.StripEmpty | app/core/text_analyzer.py:68 | stripping gives the empty string exactly when the text is all white space |
| Strings.StripClean | app/core/text_analyzer.py:42 | a text with no white space at either end is unchanged |
| Strings.Split | app/services/analysis_service.py:116 | `str.split()`: the pieces are non-empty and hold no white space; `RunsAreMaximal` states which they are |
| Strings.RunsAreMaximal | app/core/text_analyzer.py:54 | the runs spell out the characters of the class in order, one run per place where one starts; the i-th run is the slice at the i-th span, each span is a maximal run, and the spans go strictly left to right |
| Strings.LowerStr | app/core/text_analyzer.py:54 | `str.lower()`: the same length, each character lower-cased |
| Strings.SlicePrefix | app/core/text_analyzer.py:266 | Python's `s[:n]`: a prefix of `s`, of length `n` capped at the length of `s`, or for a negative `n` the length less `-n`, never below zero |
| Strings.Count | app/core/text_analyzer.py:259-262 | defines the number of occurrences of a value; `CountIsMultiplicity` states it |
| Strings.CountIsMultiplicity | app/core/text_analyzer.py:259-262 | the number of occurrences of a value is its multiplicity in the sequence |
| DocumentLoader.Name | app/utils/document_loader.py:37-38 | the name of a path has no slash and is never "." |
| DocumentLoader.RFind | app/utils/document_loader.py:37-38 | the last position of the character, or -1 when it is absent |
| DocumentLoader.SuffixOf | app/utils/document_loader.py:37-38 | the suffix is empty or a dot with at least one more character and no other dot, taken from the end of a longer name |
| DocumentLoader.SuffixOfExtension | app/utils/document_loader.py:37-38 | a non-empty stem followed by an extension has that extension as its suffix |
| DocumentLoader.SupportedByExtension | app/utils/document_loader.py:28-39 | a file is supported exactly when its lower-cased suffix is one of the four extensions |
| DocumentLoader.SupportedHasExtension | app/utils/document_loader.py:24-39 | a supported name is a non-empty stem followed by one of the four extensions, in any case |
| DocumentLoader.ExtensionIsSupported | app/utils/document_loader.py:24-39 | every non-empty stem followed by one of the four extensions, in any case, is supported |
| DocumentLoader.ValidateFileSize | app/utils/document_loader.py:42-53 | a size is valid exactly when it is at most 10485760 bytes |
| DocumentLoader.SupportedHasFormat | app/utils/document_loader.py:116-126 | every supported extension has an extractor, so the "Unsupported extension" branch is never taken |
| DocumentLoader.LoadFromBytes | app/utils/document_loader.py:97-130 | an unsupported name fails with its suffix, then an oversize payload fails; a success is the extractor's text for the file's format |
| DocumentLoader.LoadChecksFirst | app/utils/document_loader.py:108-113 | when a guard refuses, the load fails and no extractor is consulted |
| DocumentLoader.GetFileInfo | app/utils/document_loader.py:284-303 | the info agrees with the two predicates, reports the lower-cased suffix and the size in both units |
| DocumentLoader.AfterLastSlash | app/utils/document_loader.py:37 | the text after the last slash: a suffix of the path with no slash, preceded by a slash unless it is the whole path |
| DocumentLoader.Suffix | app/utils/document_loader.py:37 | defines `Path(filename).suffix` as the suffix of the name |
| DocumentLoader.SupportedName | app/utils/document_loader.py:37-38 | defines a name whose lower-cased suffix is in `SUPPORTED_EXTENSIONS` |
| DocumentLoader.IsSupported | app/utils/document_loader.py:28-39 | defines `is_supported`; `SupportedByExtension` states it |
| DocumentLoader.FormatOf | app/utils/document_loader.py:116-123 | defines the extractor chosen for each extension |

## Left out

- Rounding: `round(x, 2)` and `round(x, 3)` on scores and sizes are left out. Scores are exact reals. The source rounds polarity and subjectivity to three places before its model checks their bounds (app/services/analysis_service.py:44-55), so a polarity in (1, 1.0005) passes there but is refused by `SentimentFitsIff`; TextBlob keeps polarity within [-1, 1], so this does not arise with the scorer the source uses.
- Unicode: character classes and `str.lower()` are ASCII only.
- TextBlob: the sentiment scorer is a parameter, and its internals are not modelled.
- `datetime.now()` is the parameter `now`. A batch uses one timestamp for every item.
- Set order: `list(set)` in `compare_documents` has an order the model does not fix. `Listing` picks some order, so `FirstTen` states which words may appear and not which ten.
- Service.CompareDocuments: a ghost function, because it lists sets in an order chosen by `Listing`. Its properties are stated in `CompareScore`, `CompareSelf` and `ComparisonLists`.
- The party regular expressions: `extract_parties` is modelled on the groups each pattern captures (`PartyMatches`). The shapes those groups take (character classes, length limits of 2 to 50 or 100) are not modelled.
- `get_analysis_summary` is not part of this model: it only formats text for display.
- `load_from_file`, the text decoders and the PDF and Word extractors are file and library I/O. `load_from_bytes` takes the extractor as a parameter.
- The web routes, authentication, configuration and database service are not part of this model.
- Pydantic error messages are abbreviated to `FieldError` values and a "validation error for" line. Pydantic reports every failing field, while the model reports the first.
- The `document_type` argument of the legal analyzer is stored but never read, as in the source.
- `LegalAnalyzer` extends `TextAnalyzer` in the source. The model holds a `TextAnalyzer` in `base` instead.
- File names use `/` as the only separator, as `PurePosixPath` does. The Windows separator is not modelled.
- Logging is left out.
