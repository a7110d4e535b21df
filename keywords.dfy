/** `extract_keywords` of `TextAnalyzer` (app/core/text_analyzer.py): count
    the words that are not stop words and are longer than two characters,
    keep the counts in first-occurrence order (the order of a Python dict),
    sort them by frequency, highest first, with a stable sort, and take the
    first `top_n`. */
module Keywords {
  import opened Strings

  const StopWords: set<string> := {
    "the", "a", "an", "and", "or", "but", "in", "on", "at", "to", "for",
    "of", "with", "by", "from", "as", "is", "was", "are", "were", "been",
    "be", "have", "has", "had", "do", "does", "did", "will", "would",
    "could", "should", "may", "might", "must", "can", "this", "that",
    "these", "those", "i", "you", "he", "she", "it", "we", "they"
  }

  predicate IsCandidate(w: string) {
    w !in StopWords && |w| > 2
  }

  datatype Keyword = Keyword(word: string, frequency: nat)

  // ---------------------------------------------------------------------
  // The frequency table.

  /** The words that are counted, in order. */
  function Candidates(words: seq<string>): (r: seq<string>)
    ensures forall x :: x in r <==> x in words && IsCandidate(x)
  {
    if words == [] then []
    else
      var rest := Candidates(words[..|words| - 1]);
      var w := words[|words| - 1];
      assert words == words[..|words| - 1] + [w];
      if IsCandidate(w) then rest + [w] else rest
  }

  /** A candidate occurs as often among the candidates as among all words. */
  lemma {:induction false} CandidatesCount(words: seq<string>, x: string)
    requires IsCandidate(x)
    ensures Count(Candidates(words), x) == Count(words, x)
  {
    if words != [] {
      var init, w := words[..|words| - 1], words[|words| - 1];
      CandidatesCount(init, x);
      assert words == init + [w];
      CountAppend(init, [w], x);
      if IsCandidate(w) {
        CountAppend(Candidates(init), [w], x);
      }
    }
  }

  predicate Distinct<T(==)>(s: seq<T>) {
    forall i, j :: 0 <= i < j < |s| ==> s[i] != s[j]
  }

  /** The position of the first `x` in `xs`, or `|xs|` when there is none. */
  function FirstIndex<T(==)>(xs: seq<T>, x: T): (i: nat)
    ensures i <= |xs|
    ensures i < |xs| <==> x in xs
    ensures i < |xs| ==> xs[i] == x
    ensures forall k :: 0 <= k < i ==> xs[k] != x
  {
    if xs == [] then 0 else if xs[0] == x then 0 else 1 + FirstIndex(xs[1..], x)
  }

  /** Appending an element moves no first occurrence, and places a new
      element's first occurrence at the end. */
  lemma {:induction false} FirstIndexAppend<T>(xs: seq<T>, w: T, y: T)
    ensures FirstIndex(xs + [w], y) == if y in xs then FirstIndex(xs, y) else if y == w then |xs| else |xs| + 1
  {
    if xs != [] {
      FirstIndexAppend(xs[1..], w, y);
      assert (xs + [w])[1..] == xs[1..] + [w];
    }
  }

  lemma FirstIndexExtend<T>(xs: seq<T>, w: T)
    ensures forall y :: y in xs ==> FirstIndex(xs + [w], y) == FirstIndex(xs, y)
    ensures w !in xs ==> FirstIndex(xs + [w], w) == |xs|
  {
    forall y | y in xs ensures FirstIndex(xs + [w], y) == FirstIndex(xs, y) {
      FirstIndexAppend(xs, w, y);
    }
    FirstIndexAppend(xs, w, w);
  }

  /** The distinct elements of `xs` in order of first occurrence: the keys of a
      dict filled from `xs`. */
  function FirstOccurrences(xs: seq<string>): (r: seq<string>)
    ensures Distinct(r)
    ensures forall x :: x in r <==> x in xs
  {
    if xs == [] then []
    else
      var rest := FirstOccurrences(xs[..|xs| - 1]);
      var x := xs[|xs| - 1];
      assert xs == xs[..|xs| - 1] + [x];
      if x in rest then rest else rest + [x]
  }

  /** The keys come in the order in which they first occur in `xs`. */
  lemma {:induction false} FirstOccurrencesOrdered(xs: seq<string>, i: nat, j: nat)
    requires i < j < |FirstOccurrences(xs)|
    ensures FirstIndex(xs, FirstOccurrences(xs)[i]) < FirstIndex(xs, FirstOccurrences(xs)[j])
  {
    var init, x := xs[..|xs| - 1], xs[|xs| - 1];
    assert xs == init + [x];
    var rest := FirstOccurrences(init);
    var r := FirstOccurrences(xs);
    assert r == if x in rest then rest else rest + [x];
    assert r[i] == rest[i] && r[i] in init;
    FirstIndexAppend(init, x, r[i]);
    FirstIndexAppend(init, x, r[j]);
    if j < |rest| {
      assert r[j] == rest[j] && r[j] in init;
      FirstOccurrencesOrdered(init, i, j);
    } else {
      assert r[j] == x && x !in init;
    }
  }

  /** `word_freq.items()`: each distinct candidate with its number of
      occurrences, in order of first occurrence. */
  function FrequencyTable(words: seq<string>): seq<Keyword>
  {
    var c := Candidates(words);
    var d := FirstOccurrences(c);
    seq(|d|, i requires 0 <= i < |d| => Keyword(d[i], Count(c, d[i])))
  }

  /** The table lists every candidate once, with its count among all the words. */
  lemma FrequencyTableSpec(words: seq<string>)
    ensures var t := FrequencyTable(words);
      && (forall i :: 0 <= i < |t| ==> IsCandidate(t[i].word) && t[i].word in words && t[i].frequency == Count(words, t[i].word))
      && (forall i, j :: 0 <= i < j < |t| ==> t[i].word != t[j].word)
      && (forall x :: x in words && IsCandidate(x) ==> exists i :: 0 <= i < |t| && t[i].word == x)
  {
    var t := FrequencyTable(words);
    forall i | 0 <= i < |t|
      ensures IsCandidate(t[i].word) && t[i].word in words && t[i].frequency == Count(words, t[i].word)
    {
      CandidatesCount(words, t[i].word);
    }
    var d := FirstOccurrences(Candidates(words));
    forall x | x in words && IsCandidate(x) ensures exists i :: 0 <= i < |t| && t[i].word == x {
      var i :| 0 <= i < |d| && d[i] == x;
      assert t[i].word == x;
    }
  }

  lemma CountOne(s: seq<string>, x: string, y: string)
    ensures Count(s + [y], x) == Count(s, x) + (if x == y then 1 else 0)
  {
    CountAppend(s, [y], x);
    assert [y][1..] == [];
  }

  /** The dict `freq`, with key order `order`, holds the counts of `c`. */
  ghost predicate Tracks(freq: map<string, nat>, order: seq<string>, c: seq<string>) {
    && order == FirstOccurrences(c)
    && (forall w :: w in freq <==> w in order)
    && (forall w :: w in freq ==> freq[w] == Count(c, w))
  }

  /** `word_freq[word] = word_freq.get(word, 0) + 1` keeps the dict tracking
      the candidates seen so far. */
  lemma TracksStep(freq: map<string, nat>, order: seq<string>, c: seq<string>, word: string)
    requires Tracks(freq, order, c)
    ensures Tracks(freq[word := (if word in freq then freq[word] else 0) + 1],
                   if word in freq then order else order + [word], c + [word])
  {
    FirstOccurrencesStep(c, word);
    CountsStep(freq, c, word);
  }

  /** Adding one to the count of `word` keeps the counts right. */
  lemma CountsStep(freq: map<string, nat>, c: seq<string>, word: string)
    requires forall w :: w in freq <==> w in c
    requires forall w :: w in freq ==> freq[w] == Count(c, w)
    ensures var freq' := freq[word := (if word in freq then freq[word] else 0) + 1];
      forall w :: w in freq' ==> freq'[w] == Count(c + [word], w)
  {
    forall w | w in freq || w == word
      ensures Count(c + [word], w) == (if w in freq then freq[w] else 0) + (if w == word then 1 else 0)
    {
      CountOne(c, w, word);
      if w !in freq {
        CountAbsent(c, w);
      }
    }
  }

  /** One more element extends the key order only when it is new. */
  lemma FirstOccurrencesStep(c: seq<string>, word: string)
    ensures FirstOccurrences(c + [word]) == if word in FirstOccurrences(c) then FirstOccurrences(c) else FirstOccurrences(c) + [word]
  {
    assert (c + [word])[..|c|] == c;
  }

  lemma {:induction false} CountAbsent(s: seq<string>, x: string)
    requires x !in s
    ensures Count(s, x) == 0
  {
    if s != [] {
      CountAbsent(s[1..], x);
    }
  }

  /** The loop of `extract_keywords` that fills `word_freq`; the dict is the map
      `freq` together with its key order `order`. */
  method CountFrequencies(words: seq<string>) returns (table: seq<Keyword>)
    ensures table == FrequencyTable(words)
  {
    var freq: map<string, nat> := map[];
    var order: seq<string> := [];
    for i := 0 to |words|
      invariant Tracks(freq, order, Candidates(words[..i]))
    {
      var word := words[i];
      assert words[..i + 1][..i] == words[..i];
      if word !in StopWords && |word| > 2 {
        TracksStep(freq, order, Candidates(words[..i]), word);
        if word !in freq {
          order := order + [word];
        }
        freq := freq[word := (if word in freq then freq[word] else 0) + 1];
      }
    }
    assert words[..|words|] == words;
    table := seq(|order|, k requires 0 <= k < |order| => Keyword(order[k], freq[order[k]]));
  }

  // ---------------------------------------------------------------------
  // The stable sort, highest frequency first.

  /** Put `k` after every entry counted more often and before the rest. */
  function Insert(k: Keyword, sorted: seq<Keyword>): (r: seq<Keyword>)
    ensures multiset(r) == multiset(sorted) + multiset{k}
  {
    if sorted == [] || k.frequency >= sorted[0].frequency then [k] + sorted
    else
      assert sorted == [sorted[0]] + sorted[1..];
      [sorted[0]] + Insert(k, sorted[1..])
  }

  /** `sorted(items, key=frequency, reverse=True)`. */
  function SortByFrequency(items: seq<Keyword>): (r: seq<Keyword>)
    ensures multiset(r) == multiset(items)
  {
    if items == [] then []
    else
      assert items == [items[0]] + items[1..];
      Insert(items[0], SortByFrequency(items[1..]))
  }

  predicate Descending(s: seq<Keyword>) {
    forall i, j :: 0 <= i < j < |s| ==> s[i].frequency >= s[j].frequency
  }

  lemma {:induction false} InsertDescending(k: Keyword, s: seq<Keyword>)
    requires Descending(s)
    ensures Descending(Insert(k, s))
  {
    if s != [] && k.frequency < s[0].frequency {
      InsertDescending(k, s[1..]);
      var r := Insert(k, s[1..]);
      forall x | x in r ensures x.frequency <= s[0].frequency {
        assert x in multiset(r);
      }
    }
  }

  /** The result is in order of frequency, highest first. */
  lemma {:induction false} SortDescending(items: seq<Keyword>)
    ensures Descending(SortByFrequency(items))
  {
    if items != [] {
      SortDescending(items[1..]);
      InsertDescending(items[0], SortByFrequency(items[1..]));
    }
  }

  /** The entries with frequency `f`, in order. */
  function WithFrequency(s: seq<Keyword>, f: nat): seq<Keyword>
  {
    if s == [] then [] else (if s[0].frequency == f then [s[0]] else []) + WithFrequency(s[1..], f)
  }

  lemma {:induction false} InsertWithFrequency(k: Keyword, s: seq<Keyword>, f: nat)
    requires Descending(s)
    ensures WithFrequency(Insert(k, s), f) == (if k.frequency == f then [k] else []) + WithFrequency(s, f)
  {
    if s != [] && k.frequency < s[0].frequency {
      InsertWithFrequency(k, s[1..], f);
      if s[0].frequency == f {
        assert k.frequency != f;
      }
    }
  }

  /** The sort is stable: entries of equal frequency keep their order. */
  lemma {:induction false} SortStable(items: seq<Keyword>, f: nat)
    ensures WithFrequency(SortByFrequency(items), f) == WithFrequency(items, f)
  {
    if items != [] {
      SortStable(items[1..], f);
      SortDescending(items[1..]);
      InsertWithFrequency(items[0], SortByFrequency(items[1..]), f);
    }
  }

  /** Two entries of frequency `f`, in order, keep their order among the
      entries of that frequency. */
  lemma {:induction false} WithFrequencyKeeps(s: seq<Keyword>, f: nat, i: nat, j: nat) returns (p: nat, q: nat)
    requires i < j < |s| && s[i].frequency == f && s[j].frequency == f
    ensures p < q < |WithFrequency(s, f)|
    ensures WithFrequency(s, f)[p] == s[i] && WithFrequency(s, f)[q] == s[j]
  {
    var w := WithFrequency(s[1..], f);
    if i == 0 {
      var q1 := WithFrequencyHas(s[1..], f, j - 1);
      p, q := 0, q1 + 1;
    } else {
      var p1, q1 := WithFrequencyKeeps(s[1..], f, i - 1, j - 1);
      if s[0].frequency == f {
        p, q := p1 + 1, q1 + 1;
      } else {
        p, q := p1, q1;
      }
    }
  }

  lemma {:induction false} WithFrequencyHas(s: seq<Keyword>, f: nat, i: nat) returns (p: nat)
    requires i < |s| && s[i].frequency == f
    ensures p < |WithFrequency(s, f)| && WithFrequency(s, f)[p] == s[i]
  {
    if i == 0 {
      p := 0;
    } else {
      var p1 := WithFrequencyHas(s[1..], f, i - 1);
      p := if s[0].frequency == f then p1 + 1 else p1;
    }
  }

  /** Two entries in order among those of frequency `f` are in that order in
      the whole list. */
  lemma {:induction false} WithFrequencyFrom(s: seq<Keyword>, f: nat, p: nat, q: nat) returns (i: nat, j: nat)
    requires p < q < |WithFrequency(s, f)|
    ensures i < j < |s| && s[i] == WithFrequency(s, f)[p] && s[j] == WithFrequency(s, f)[q]
  {
    var h: seq<Keyword> := if s[0].frequency == f then [s[0]] else [];
    var w := WithFrequency(s[1..], f);
    assert WithFrequency(s, f) == h + w;
    var k := |h|;
    if p < k {
      var j1 := WithFrequencyAt(s[1..], f, q - k);
      i, j := 0, j1 + 1;
    } else {
      var i1, j1 := WithFrequencyFrom(s[1..], f, p - k, q - k);
      i, j := i1 + 1, j1 + 1;
    }
  }

  lemma {:induction false} WithFrequencyAt(s: seq<Keyword>, f: nat, p: nat) returns (i: nat)
    requires p < |WithFrequency(s, f)|
    ensures i < |s| && s[i] == WithFrequency(s, f)[p]
  {
    var h: seq<Keyword> := if s[0].frequency == f then [s[0]] else [];
    var w := WithFrequency(s[1..], f);
    assert WithFrequency(s, f) == h + w;
    var k := |h|;
    if p < k {
      i := 0;
    } else {
      var i1 := WithFrequencyAt(s[1..], f, p - k);
      i := i1 + 1;
    }
  }

  /** Candidates first occur in the same order among the candidates as among
      all the words. */
  lemma {:induction false} CandidatesFirstIndex(words: seq<string>, x: string, y: string)
    requires x in Candidates(words) && y in Candidates(words)
    requires FirstIndex(Candidates(words), x) < FirstIndex(Candidates(words), y)
    ensures FirstIndex(words, x) < FirstIndex(words, y)
  {
    var init, w := words[..|words| - 1], words[|words| - 1];
    assert words == init + [w];
    var c := Candidates(init);
    FirstIndexExtend(init, w);
    if IsCandidate(w) {
      FirstIndexExtend(c, w);
      if y in c {
        assert x in c;
        CandidatesFirstIndex(init, x, y);
      } else {
        assert y == w && y !in init;
        assert x in c && x in init;
      }
    } else {
      CandidatesFirstIndex(init, x, y);
    }
  }

  // ---------------------------------------------------------------------
  // The ranking.

  /** `extract_keywords(top_n)`; a negative `top_n` drops entries from the end,
      as Python's slice does. */
  function ExtractKeywords(words: seq<string>, topN: int): seq<Keyword>
  {
    SlicePrefix(SortByFrequency(FrequencyTable(words)), topN)
  }

  /** Each keyword is a candidate word with its exact number of occurrences. */
  lemma KeywordsCounted(words: seq<string>, topN: int)
    ensures var r := ExtractKeywords(words, topN);
      forall i :: 0 <= i < |r| ==>
        IsCandidate(r[i].word) && r[i].frequency == Count(words, r[i].word) && r[i].frequency >= 1
  {
    var t := FrequencyTable(words);
    var s := SortByFrequency(t);
    var r := ExtractKeywords(words, topN);
    FrequencyTableSpec(words);
    forall i | 0 <= i < |r|
      ensures IsCandidate(r[i].word) && r[i].frequency == Count(words, r[i].word) && r[i].frequency >= 1
    {
      assert r[i] == s[i];
      assert r[i] in multiset(t);
      CountPositive(words, r[i].word);
    }
  }

  /** No word is listed twice, and the counts never increase along the list. */
  lemma KeywordsOrdered(words: seq<string>, topN: int)
    ensures var r := ExtractKeywords(words, topN);
      forall i, j :: 0 <= i < j < |r| ==> r[i].word != r[j].word && r[i].frequency >= r[j].frequency
  {
    var t := FrequencyTable(words);
    var s := SortByFrequency(t);
    var r := ExtractKeywords(words, topN);
    FrequencyTableSpec(words);
    SortDescending(t);
    forall i, j | 0 <= i < j < |r| ensures r[i].word != r[j].word && r[i].frequency >= r[j].frequency {
      assert r[i] == s[i] && r[j] == s[j];
      SortedWordsDistinct(t, s, i, j);
    }
  }

  /** Keywords of equal frequency come in the order in which their words first
      occur in the text. */
  lemma KeywordsTies(words: seq<string>, topN: int)
    ensures var r := ExtractKeywords(words, topN);
      forall i, j :: 0 <= i < j < |r| && r[i].frequency == r[j].frequency ==>
        FirstIndex(words, r[i].word) < FirstIndex(words, r[j].word)
  {
    var r := ExtractKeywords(words, topN);
    forall i, j | 0 <= i < j < |r| && r[i].frequency == r[j].frequency
      ensures FirstIndex(words, r[i].word) < FirstIndex(words, r[j].word)
    {
      TieInTable(words, i, j);
    }
  }

  lemma TieInTable(words: seq<string>, i: nat, j: nat)
    requires var s := SortByFrequency(FrequencyTable(words)); i < j < |s| && s[i].frequency == s[j].frequency
    ensures var s := SortByFrequency(FrequencyTable(words));
      FirstIndex(words, s[i].word) < FirstIndex(words, s[j].word)
  {
    var a, b := SortedTie(FrequencyTable(words), i, j);
    TableOrder(words, a, b);
  }

  /** Two entries of equal frequency, in order after the sort, were in that
      order before it. */
  lemma SortedTie(t: seq<Keyword>, i: nat, j: nat) returns (a: nat, b: nat)
    requires var s := SortByFrequency(t); i < j < |s| && s[i].frequency == s[j].frequency
    ensures var s := SortByFrequency(t); a < b < |t| && t[a] == s[i] && t[b] == s[j]
  {
    var s := SortByFrequency(t);
    var f := s[i].frequency;
    var p, q := WithFrequencyKeeps(s, f, i, j);
    SortStable(t, f);
    a, b := WithFrequencyFrom(t, f, p, q);
  }

  /** The table's entries come in the order in which their words first occur. */
  lemma TableOrder(words: seq<string>, a: nat, b: nat)
    requires a < b < |FrequencyTable(words)|
    ensures FirstIndex(words, FrequencyTable(words)[a].word) < FirstIndex(words, FrequencyTable(words)[b].word)
  {
    var c := Candidates(words);
    var d := FirstOccurrences(c);
    assert |FrequencyTable(words)| == |d|;
    FirstOccurrencesOrdered(c, a, b);
    assert FrequencyTable(words)[a].word == d[a] && FrequencyTable(words)[b].word == d[b];
    assert d[a] in d && d[b] in d;
    CandidatesFirstIndex(words, d[a], d[b]);
  }

  /** The sorted table holds an entry for every candidate, with its count. */
  lemma SortedEntry(words: seq<string>, x: string) returns (m: nat)
    requires x in words && IsCandidate(x)
    ensures m < |SortByFrequency(FrequencyTable(words))|
    ensures SortByFrequency(FrequencyTable(words))[m] == Keyword(x, Count(words, x))
  {
    var t := FrequencyTable(words);
    FrequencyTableSpec(words);
    var k :| 0 <= k < |t| && t[k].word == x;
    assert t[k] in multiset(SortByFrequency(t));
    m :| 0 <= m < |SortByFrequency(t)| && SortByFrequency(t)[m] == t[k];
  }

  /** No candidate left out occurs more often than a keyword that is kept. */
  lemma KeywordsTop(words: seq<string>, topN: int, x: string)
    requires x in words && IsCandidate(x)
    requires forall j :: 0 <= j < |ExtractKeywords(words, topN)| ==> ExtractKeywords(words, topN)[j].word != x
    ensures forall i :: 0 <= i < |ExtractKeywords(words, topN)| ==> Count(words, x) <= ExtractKeywords(words, topN)[i].frequency
  {
    var s := SortByFrequency(FrequencyTable(words));
    var r := ExtractKeywords(words, topN);
    var m := SortedEntry(words, x);
    SortDescending(FrequencyTable(words));
    forall i | 0 <= i < |r| ensures Count(words, x) <= r[i].frequency {
      assert r[i] == s[i];
      assert i < m;
    }
  }

  /** At most one entry per distinct candidate, and at most `top_n`. */
  lemma KeywordsBounded(words: seq<string>, topN: int)
    ensures |ExtractKeywords(words, topN)| <= |FirstOccurrences(Candidates(words))|
    ensures topN >= 0 ==> |ExtractKeywords(words, topN)| <= topN
  {
    assert |SortByFrequency(FrequencyTable(words))| == |FrequencyTable(words)| by {
      var t := FrequencyTable(words);
      assert |multiset(SortByFrequency(t))| == |multiset(t)|;
    }
  }

  lemma {:induction false} CountPositive(s: seq<string>, x: string)
    requires x in s
    ensures Count(s, x) >= 1
  {
    if s[0] != x {
      CountPositive(s[1..], x);
    }
  }

  /** A permutation of a table with distinct words has distinct words. */
  lemma SortedWordsDistinct(t: seq<Keyword>, s: seq<Keyword>, i: nat, j: nat)
    requires forall a, b :: 0 <= a < b < |t| ==> t[a].word != t[b].word
    requires multiset(s) == multiset(t)
    requires i < j < |s|
    ensures s[i].word != s[j].word
  {
    if s[i].word == s[j].word {
      assert s[i] in multiset(t) && s[j] in multiset(t);
      var a :| 0 <= a < |t| && t[a] == s[i];
      var b :| 0 <= b < |t| && t[b] == s[j];
      assert a == b;
      assert s[i] == s[j];
      MultisetTwice(s, i, j);
      MultisetOnce(t, a);
      assert false;
    }
  }

  /** An element at two positions occurs at least twice. */
  lemma MultisetTwice<T>(s: seq<T>, i: nat, j: nat)
    requires i < j < |s| && s[i] == s[j]
    ensures multiset(s)[s[i]] >= 2
  {
    assert s == s[..i] + [s[i]] + s[i + 1..j] + [s[j]] + s[j + 1..];
  }

  /** In a table with distinct words an entry occurs once. */
  lemma MultisetOnce(t: seq<Keyword>, a: nat)
    requires forall x, y :: 0 <= x < y < |t| ==> t[x].word != t[y].word
    requires a < |t|
    ensures multiset(t)[t[a]] == 1
  {
    var k := t[a];
    assert t == t[..a] + [k] + t[a + 1..];
    assert k !in t[..a] && k !in t[a + 1..] by {
      forall x | 0 <= x < |t| && x != a ensures t[x] != k {
        if x < a { assert t[x].word != t[a].word; } else { assert t[a].word != t[x].word; }
      }
    }
  }
}
