/** Whitespace normalisation and tokenisation of `TextAnalyzer`
    (app/core/text_analyzer.py): `_clean_text`, `words` and `sentences`. */
module TextNormalizer {
  import opened Strings

  /** `re.sub(r'\s+', ' ', s)`: each maximal run of white space becomes one
      space; the text between the runs is copied. */
  function CollapseSpaces(s: string): string
    decreases |s|
  {
    if s == [] then []
    else if IsSpace(s[0]) then " " + CollapseSpaces(s[RunLength(s, Space)..])
    else
      var n := RunLength(s, NonSpace);
      s[..n] + CollapseSpaces(s[n..])
  }

  /** `_clean_text`: collapse white space, then strip the ends. */
  function CleanText(text: string): string
  {
    Strip(CollapseSpaces(text))
  }

  // ---------------------------------------------------------------------
  // The cleaned text is the text's white-space separated tokens joined by
  // single spaces (the same string as `' '.join(text.split())`).

  lemma SplitOfSpaces(s: string)
    requires forall i :: 0 <= i < |s| ==> IsSpace(s[i])
    ensures Split(s) == []
  {
    RunsSkip(s, |s|, NonSpace);
    assert s[|s|..] == [];
  }

  /** One space behind the tokens when the text ends in white space. */
  function EndSpace(s: string): string
  {
    if s != [] && IsSpace(s[|s| - 1]) then " " else ""
  }

  lemma JoinCons(t: string, ts: seq<string>)
    requires ts != []
    ensures Join(" ", [t] + ts) == t + " " + Join(" ", ts)
  {
    assert ([t] + ts)[1..] == ts;
  }

  lemma Glue(t: string, j: string, e: string)
    ensures t + (" " + (j + e)) == t + " " + j + e
  {
  }

  /** A text that does not start with white space collapses to its joined tokens,
      followed by one space when it ends with white space. */
  lemma {:induction false} CollapseFromToken(s: string)
    requires s == [] || !IsSpace(s[0])
    ensures CollapseSpaces(s) == Join(" ", Split(s)) + EndSpace(s)
    decreases |s|
  {
    if s != [] {
      var n := RunLength(s, NonSpace);
      var t, rest := s[..n], s[n..];
      if rest == [] {
        assert Split(s) == [t] + Split(rest);
        assert CollapseSpaces(s) == t + [];
      } else {
        var m := RunLength(rest, Space);
        var rest2 := rest[m..];
        CollapseFromToken(rest2);
        RunsSkip(rest, m, NonSpace);
        CollapseTokenStep(s, n, m);
      }
    }
  }

  /** The step of CollapseFromToken past one token and the white space behind it. */
  lemma CollapseTokenStep(s: string, n: nat, m: nat)
    requires s != [] && !IsSpace(s[0]) && n == RunLength(s, NonSpace) && n < |s|
    requires m == RunLength(s[n..], Space)
    requires Split(s[n..]) == Split(s[n..][m..])
    requires CollapseSpaces(s[n..][m..]) == Join(" ", Split(s[n..][m..])) + EndSpace(s[n..][m..])
    ensures CollapseSpaces(s) == Join(" ", Split(s)) + EndSpace(s)
  {
    CollapseTokenUnfold(s, n, m);
    EndSpaceStep(s, n, m);
    var t, rest2 := s[..n], s[n..][m..];
    var j, e := Join(" ", Split(rest2)), EndSpace(rest2);
    if rest2 == [] {
      assert Split(s) == [t];
    } else {
      RestStartsToken(s, n, m);
      JoinCons(t, Split(rest2));
      Glue(t, j, e);
    }
  }

  /** One token and the white space behind it, unfolded. */
  lemma CollapseTokenUnfold(s: string, n: nat, m: nat)
    requires s != [] && !IsSpace(s[0]) && n == RunLength(s, NonSpace) && n < |s|
    requires m == RunLength(s[n..], Space)
    ensures CollapseSpaces(s) == s[..n] + (" " + CollapseSpaces(s[n..][m..]))
    ensures Split(s) == [s[..n]] + Split(s[n..])
  {
    var rest := s[n..];
    assert rest[0] == s[n];
  }

  /** The text behind the white space is empty or starts a token. */
  lemma RestStartsToken(s: string, n: nat, m: nat)
    requires n < |s| && m == RunLength(s[n..], Space) && s[n..][m..] != []
    ensures Split(s[n..][m..]) != []
  {
    var rest2 := s[n..][m..];
    assert rest2[0] == s[n..][m];
  }

  /** Whether the text ends in white space is decided behind the first token. */
  lemma EndSpaceStep(s: string, n: nat, m: nat)
    requires n < |s| && m == RunLength(s[n..], Space)
    ensures EndSpace(s) == if s[n..][m..] == [] then " " else EndSpace(s[n..][m..])
  {
    var rest := s[n..];
    if rest[m..] == [] {
      assert s[|s| - 1] == rest[|rest| - 1];
    } else {
      assert s[|s| - 1] == rest[m..][|rest[m..]| - 1];
    }
  }

  lemma {:induction false} JoinedTokensEnds(ts: seq<string>)
    requires forall i :: 0 <= i < |ts| ==> ts[i] != [] && All(ts[i], NonSpace)
    ensures var r := Join(" ", ts); r != [] ==> !IsSpace(r[0]) && !IsSpace(r[|r| - 1])
    ensures ts != [] ==> Join(" ", ts) != []
  {
    if |ts| > 1 {
      JoinedTokensEnds(ts[1..]);
      var r := Join(" ", ts);
      assert r == ts[0] + " " + Join(" ", ts[1..]);
      assert r[0] == ts[0][0];
      assert r[|r| - 1] == Join(" ", ts[1..])[|Join(" ", ts[1..])| - 1];
    }
  }

  /** `_clean_text(text) == ' '.join(text.split())`. */
  lemma CleanTextIsJoinedTokens(text: string)
    ensures CleanText(text) == Join(" ", Split(text))
  {
    if text != [] && IsSpace(text[0]) {
      var m := RunLength(text, Space);
      LeadingSpaces(text, m);
      CleanFromToken(text[m..], " ");
    } else {
      CleanFromToken(text, "");
      assert "" + CollapseSpaces(text) == CollapseSpaces(text);
    }
  }

  /** Leading white space collapses to one space and holds no token. */
  lemma LeadingSpaces(text: string, m: nat)
    requires text != [] && IsSpace(text[0]) && m == RunLength(text, Space)
    ensures CollapseSpaces(text) == " " + CollapseSpaces(text[m..])
    ensures Split(text) == Split(text[m..])
    ensures text[m..] == [] || !IsSpace(text[m..][0])
  {
    RunsSkip(text, m, NonSpace);
    if m < |text| {
      assert text[m..][0] == text[m];
    }
  }

  /** A collapsed text that starts with a token strips, behind at most one
      space, to its joined tokens. */
  lemma CleanFromToken(s: string, lead: string)
    requires s == [] || !IsSpace(s[0])
    requires lead == "" || lead == " "
    ensures Strip(lead + CollapseSpaces(s)) == Join(" ", Split(s))
  {
    CollapseFromToken(s);
    var j, e := Join(" ", Split(s)), EndSpace(s);
    JoinedTokensEnds(Split(s));
    StripAround(lead, j, e);
  }

  /** Strip drops white space around a string with non-space ends. */
  lemma StripAround(lead: string, j: string, e: string)
    requires forall i :: 0 <= i < |lead| ==> IsSpace(lead[i])
    requires forall i :: 0 <= i < |e| ==> IsSpace(e[i])
    requires j != [] ==> !IsSpace(j[0]) && !IsSpace(j[|j| - 1])
    ensures Strip(lead + (j + e)) == j
  {
    if j == [] {
      StripEmpty(lead + (j + e));
    } else {
      StripPadded(lead, j, e);
      assert lead + j + e == lead + (j + e);
    }
  }

  // ---------------------------------------------------------------------
  // Words.

  /** `words`: `re.findall(r'\b\w+\b', cleaned.lower())`, the maximal runs of
      word characters of the lower-cased text. */
  function WordsOf(cleaned: string): seq<string>
  {
    Runs(LowerStr(cleaned), Word)
  }

  lemma {:induction false} RunsInherit(s: string, p: CharClass, q: CharClass)
    requires forall i :: 0 <= i < |s| ==> In(s[i], q)
    ensures forall i, j :: 0 <= i < |Runs(s, p)| && 0 <= j < |Runs(s, p)[i]| ==> In(Runs(s, p)[i][j], q)
    decreases |s|
  {
    if s != [] {
      if !In(s[0], p) {
        RunsInherit(s[1..], p, q);
      } else {
        var n := RunLength(s, p);
        RunsInherit(s[n..], p, q);
        assert Runs(s, p) == [s[..n]] + Runs(s[n..], p);
      }
    }
  }

  /** Where the words of `cleaned` lie: the spans of the word-character runs
      of the lower-cased text. */
  function WordSpans(cleaned: string): seq<(nat, nat)>
  {
    RunSpans(LowerStr(cleaned), Word)
  }

  /** Every word is a non-empty lower-case `\w` run; together the words are all
      the word characters of the text, and there is one word per place where a
      run of word characters begins. The i-th word is the lower-cased slice
      of `cleaned` at the i-th span, that slice is a maximal run of word
      characters of `cleaned`, and the spans go left to right. */
  lemma WordsAreLowerWordRuns(cleaned: string)
    ensures var ws := WordsOf(cleaned);
      && (forall i :: 0 <= i < |ws| ==> ws[i] != [] && forall j :: 0 <= j < |ws[i]| ==> IsWordChar(ws[i][j]) && !IsUpper(ws[i][j]))
      && Concat(ws) == Keep(LowerStr(cleaned), Word)
      && |ws| == Starts(LowerStr(cleaned), Word, false)
    ensures var ws, sp := WordsOf(cleaned), WordSpans(cleaned);
      && |sp| == |ws|
      && (forall i :: 0 <= i < |ws| ==> ws[i] == LowerStr(cleaned[sp[i].0..sp[i].1]) && IsRun(cleaned, Word, sp[i].0, sp[i].1))
      && (forall i, j :: 0 <= i < j < |sp| ==> sp[i].1 < sp[j].0)
  {
    RunsInherit(LowerStr(cleaned), Word, NonUpper);
    RunsAreMaximal(LowerStr(cleaned), Word);
    WordsAtSpans(cleaned);
  }

  /** The i-th word is the lower-cased slice of `cleaned` at the i-th span,
      and that slice is a maximal run of word characters of `cleaned`. */
  lemma WordsAtSpans(cleaned: string)
    ensures var ws, sp := WordsOf(cleaned), WordSpans(cleaned);
      |sp| == |ws| && forall i :: 0 <= i < |ws| ==> ws[i] == LowerStr(cleaned[sp[i].0..sp[i].1]) && IsRun(cleaned, Word, sp[i].0, sp[i].1)
  {
    var low := LowerStr(cleaned);
    RunsAreMaximal(low, Word);
    var sp := WordSpans(cleaned);
    forall i | 0 <= i < |sp|
      ensures low[sp[i].0..sp[i].1] == LowerStr(cleaned[sp[i].0..sp[i].1])
      ensures IsRun(cleaned, Word, sp[i].0, sp[i].1)
    {
      assert sp[i] in sp;
      LowerRun(cleaned, sp[i].0, sp[i].1);
    }
  }

  /** Lower-casing neither moves the word-character runs nor changes a slice's
      lower-cased form. */
  lemma LowerRun(cleaned: string, a: nat, b: nat)
    requires IsRun(LowerStr(cleaned), Word, a, b)
    ensures LowerStr(cleaned)[a..b] == LowerStr(cleaned[a..b])
    ensures IsRun(cleaned, Word, a, b)
  {
    var low := LowerStr(cleaned);
    assert forall j :: a <= j < b ==> In(low[j], Word);
    assert a > 0 ==> !In(low[a - 1], Word);
    assert b < |cleaned| ==> !In(low[b], Word);
  }

  // ---------------------------------------------------------------------
  // Sentences.

  /** `re.split(r'[.!?]+', s)`: the pieces between runs of terminators,
      including the empty ones at the ends. */
  function SplitOnTerminators(s: string): (r: seq<string>)
    ensures |r| >= 1
    ensures forall i :: 0 <= i < |r| ==> All(r[i], NonTerminator)
    ensures r[0] == [] <==> (s == [] || IsTerminator(s[0]))
    decreases |s|
  {
    if s == [] then [[]]
    else if IsTerminator(s[0]) then [[]] + SplitOnTerminators(s[RunLength(s, Terminator)..])
    else
      var rest := SplitOnTerminators(s[1..]);
      [[s[0]] + rest[0]] + rest[1..]
  }

  /** The empty piece `re.split` yields before a leading run of terminators,
      and for the empty text. */
  function LeadPiece(s: string): seq<string> {
    if s == [] || IsTerminator(s[0]) then [[]] else []
  }

  /** The empty piece `re.split` yields after a trailing run of terminators. */
  function TrailPiece(s: string): seq<string> {
    if s != [] && IsTerminator(s[|s| - 1]) then [[]] else []
  }

  /** The pieces are the maximal runs of non-terminators, left to right, with
      an empty piece in front when the text is empty or begins with a
      terminator and one at the end when it ends with a terminator; no other
      piece is empty. */
  lemma {:induction false} SplitOnTerminatorsRuns(s: string)
    ensures SplitOnTerminators(s) == LeadPiece(s) + Runs(s, NonTerminator) + TrailPiece(s)
    decreases |s|
  {
    if s == [] {
    } else if IsTerminator(s[0]) {
      SplitAfterTerminators(s);
    } else {
      SplitAfterRun(s);
    }
  }

  lemma {:induction false} SplitAfterTerminators(s: string)
    requires s != [] && IsTerminator(s[0])
    ensures SplitOnTerminators(s) == LeadPiece(s) + Runs(s, NonTerminator) + TrailPiece(s)
    decreases |s|, 0
  {
    var m := RunLength(s, Terminator);
    RunsSkip(s, m, NonTerminator);
    if m == |s| {
      AllTerminators(s);
    } else {
      SplitOnTerminatorsRuns(s[m..]);
      TerminatorsThenRun(s, m);
    }
  }

  lemma AllTerminators(s: string)
    requires s != [] && IsTerminator(s[0])
    requires RunLength(s, Terminator) == |s|
    requires Runs(s, NonTerminator) == Runs(s[|s|..], NonTerminator)
    ensures SplitOnTerminators(s) == LeadPiece(s) + Runs(s, NonTerminator) + TrailPiece(s)
  {
    SplitAtTerminator(s);
    assert s[|s|..] == [];
    assert IsTerminator(s[|s| - 1]);
  }

  lemma TerminatorsThenRun(s: string, m: nat)
    requires s != [] && IsTerminator(s[0])
    requires m == RunLength(s, Terminator) < |s|
    requires Runs(s, NonTerminator) == Runs(s[m..], NonTerminator)
    requires SplitOnTerminators(s[m..]) == LeadPiece(s[m..]) + Runs(s[m..], NonTerminator) + TrailPiece(s[m..])
    ensures SplitOnTerminators(s) == LeadPiece(s) + Runs(s, NonTerminator) + TrailPiece(s)
  {
    SplitAtTerminator(s);
    assert !IsTerminator(s[m]);
    PiecesAfter(s, m);
    Regroup(SplitOnTerminators(s), SplitOnTerminators(s[m..]), [], Runs(s, NonTerminator), TrailPiece(s));
  }

  lemma Regroup<T>(x: seq<T>, y: seq<T>, e: T, r: seq<T>, t: seq<T>)
    requires x == [e] + y && y == [] + r + t
    ensures x == [e] + r + t
  {
  }

  lemma SplitAtTerminator(s: string)
    requires s != [] && IsTerminator(s[0])
    ensures SplitOnTerminators(s) == [[]] + SplitOnTerminators(s[RunLength(s, Terminator)..])
  {
  }

  lemma PiecesAfter(s: string, m: nat)
    requires m < |s| && !IsTerminator(s[m])
    ensures LeadPiece(s[m..]) == [] && TrailPiece(s[m..]) == TrailPiece(s)
  {
    assert s[m..][0] == s[m];
    assert s[m..][|s[m..]| - 1] == s[|s| - 1];
  }

  lemma {:induction false} SplitAfterRun(s: string)
    requires s != [] && !IsTerminator(s[0])
    ensures SplitOnTerminators(s) == LeadPiece(s) + Runs(s, NonTerminator) + TrailPiece(s)
    decreases |s|, 0
  {
    var n := RunLength(s, NonTerminator);
    var u := s[n..];
    SplitOnTerminatorsChunk(s);
    assert SplitOnTerminators(s) == [s[..n]] + SplitOnTerminators(u)[1..];
    assert Runs(s, NonTerminator) == [s[..n]] + Runs(u, NonTerminator);
    assert LeadPiece(s) == [];
    if n == |s| {
      assert u == [];
      assert TrailPiece(s) == [];
    } else {
      SplitOnTerminatorsRuns(u);
      assert LeadPiece(u) == [[]];
      assert u[|u| - 1] == s[|s| - 1];
      assert TrailPiece(u) == TrailPiece(s);
      assert SplitOnTerminators(u)[1..] == Runs(u, NonTerminator) + TrailPiece(u);
    }
  }

  /** A text that begins with a non-terminator: its first piece is the whole
      leading run of non-terminators. */
  lemma {:induction false} SplitOnTerminatorsChunk(s: string)
    requires s != [] && !IsTerminator(s[0])
    ensures var n := RunLength(s, NonTerminator);
      SplitOnTerminators(s) == [s[..n]] + SplitOnTerminators(s[n..])[1..]
    decreases |s|
  {
    var t := s[1..];
    if t == [] || IsTerminator(t[0]) {
      ChunkLast(s);
    } else {
      SplitOnTerminatorsChunk(t);
      ChunkStep(s);
    }
  }

  lemma ChunkLast(s: string)
    requires s != [] && !IsTerminator(s[0])
    requires s[1..] == [] || IsTerminator(s[1..][0])
    ensures var n := RunLength(s, NonTerminator);
      SplitOnTerminators(s) == [s[..n]] + SplitOnTerminators(s[n..])[1..]
  {
    var t := s[1..];
    var rest := SplitOnTerminators(t);
    assert SplitOnTerminators(s) == [[s[0]] + rest[0]] + rest[1..];
    assert RunLength(t, NonTerminator) == 0;
    assert RunLength(s, NonTerminator) == 1;
    assert rest[0] == [];
    assert [s[0]] + rest[0] == s[..1];
    assert SplitOnTerminators(s) == [s[..1]] + SplitOnTerminators(s[1..])[1..];
  }

  lemma ChunkStep(s: string)
    requires s != [] && !IsTerminator(s[0])
    requires s[1..] != [] && !IsTerminator(s[1..][0])
    requires var n := RunLength(s[1..], NonTerminator);
      SplitOnTerminators(s[1..]) == [s[1..][..n]] + SplitOnTerminators(s[1..][n..])[1..]
    ensures var n := RunLength(s, NonTerminator);
      SplitOnTerminators(s) == [s[..n]] + SplitOnTerminators(s[n..])[1..]
  {
    var t := s[1..];
    var rest := SplitOnTerminators(t);
    var n := RunLength(s, NonTerminator);
    assert SplitOnTerminators(s) == [[s[0]] + rest[0]] + rest[1..];
    assert n == 1 + RunLength(t, NonTerminator);
    assert t[..n - 1] == s[1..n];
    assert t[n - 1..] == s[n..];
    assert rest[0] == s[1..n];
    assert [s[0]] + s[1..n] == s[..n];
  }

  /** The split loses only the terminators, and makes one cut per run of them. */
  lemma SplitOnTerminatorsParts(s: string)
    ensures Concat(SplitOnTerminators(s)) == Keep(s, NonTerminator)
    ensures |SplitOnTerminators(s)| == 1 + Starts(s, Terminator, false)
  {
    SplitOnTerminatorsConcat(s);
    SplitOnTerminatorsCount(s);
  }

  lemma {:induction false} SplitOnTerminatorsConcat(s: string)
    ensures Concat(SplitOnTerminators(s)) == Keep(s, NonTerminator)
    decreases |s|
  {
    if s == [] {
    } else if IsTerminator(s[0]) {
      var m := RunLength(s, Terminator);
      SplitOnTerminatorsConcat(s[m..]);
      KeepSplit(s, m, NonTerminator);
      KeepNone(s[..m], NonTerminator);
    } else {
      var rest := SplitOnTerminators(s[1..]);
      SplitOnTerminatorsConcat(s[1..]);
      assert Concat(rest) == rest[0] + Concat(rest[1..]);
      assert SplitOnTerminators(s)[1..] == rest[1..];
    }
  }

  lemma {:induction false} SplitOnTerminatorsCount(s: string)
    ensures |SplitOnTerminators(s)| == 1 + Starts(s, Terminator, false)
    decreases |s|
  {
    if s == [] {
    } else if IsTerminator(s[0]) {
      var m := RunLength(s, Terminator);
      SplitOnTerminatorsCount(s[m..]);
      if m > 1 {
        StartsInsideRun(s, Terminator, 1);
      } else {
        assert s[1..] == s[m..];
      }
    } else {
      SplitOnTerminatorsCount(s[1..]);
    }
  }

  /** `[p.strip() for p in parts if p.strip()]`. */
  function NonBlankStripped(parts: seq<string>): (r: seq<string>)
    ensures |r| <= |parts|
  {
    if parts == [] then []
    else (if Strip(parts[0]) != [] then [Strip(parts[0])] else []) + NonBlankStripped(parts[1..])
  }

  /** The positions from `k` on of the parts that are not blank once
      stripped, in increasing order. */
  function NonBlankFrom(parts: seq<string>, k: nat): (r: seq<nat>)
    ensures forall j :: 0 <= j < |r| ==> k <= r[j] < |parts| && Strip(parts[r[j]]) != []
    ensures forall i :: k <= i < |parts| && Strip(parts[i]) != [] ==> i in r
    ensures forall j, l :: 0 <= j < l < |r| ==> r[j] < r[l]
    decreases |parts| - k
  {
    if k >= |parts| then []
    else (if Strip(parts[k]) != [] then [k] else []) + NonBlankFrom(parts, k + 1)
  }

  /** The comprehension keeps, in order, the stripped form of every part that
      is not blank once stripped, and nothing for a blank part. */
  lemma NonBlankStrippedKeeps(parts: seq<string>)
    ensures var r := NonBlankStripped(parts); var at := NonBlankFrom(parts, 0);
      |r| == |at| && forall j :: 0 <= j < |r| ==> r[j] == Strip(parts[at[j]])
  {
    NonBlankStrippedFrom(parts, 0);
    assert parts[0..] == parts;
  }

  lemma {:induction false} NonBlankStrippedFrom(parts: seq<string>, k: nat)
    requires k <= |parts|
    ensures var r := NonBlankStripped(parts[k..]); var at := NonBlankFrom(parts, k);
      |r| == |at| && forall j :: 0 <= j < |r| ==> r[j] == Strip(parts[at[j]])
    decreases |parts| - k
  {
    if k < |parts| {
      NonBlankStrippedFrom(parts, k + 1);
      assert parts[k..][0] == parts[k];
      assert parts[k..][1..] == parts[k + 1..];
    }
  }

  /** The comprehension over two lists of parts is the two comprehensions one
      after the other. */
  lemma {:induction false} NonBlankStrippedAppend(a: seq<string>, b: seq<string>)
    ensures NonBlankStripped(a + b) == NonBlankStripped(a) + NonBlankStripped(b)
  {
    if a == [] {
      assert a + b == b;
    } else {
      NonBlankStrippedAppend(a[1..], b);
      assert (a + b)[0] == a[0];
      assert (a + b)[1..] == a[1..] + b;
      var h := if Strip(a[0]) != [] then [Strip(a[0])] else [];
      assert NonBlankStripped(a + b) == h + NonBlankStripped(a[1..] + b);
      assert NonBlankStripped(a) == h + NonBlankStripped(a[1..]);
      Assoc(h, NonBlankStripped(a[1..]), NonBlankStripped(b));
    }
  }

  /** `sentences`. */
  function SentencesOf(cleaned: string): seq<string>
  {
    NonBlankStripped(SplitOnTerminators(cleaned))
  }

  /** What a sentence looks like: non-empty, no white space at either end, and
      no terminator inside. */
  predicate IsSentence(x: string) {
    x != [] && !IsSpace(x[0]) && !IsSpace(x[|x| - 1]) && All(x, NonTerminator)
  }

  lemma StripPart(p: string)
    requires All(p, NonTerminator)
    ensures Strip(p) != [] ==> IsSentence(Strip(p))
  {
    StripSlice(p);
    var s := Strip(p);
    var k := RunLength(p, Space);
    forall j | 0 <= j < |s| ensures In(s[j], NonTerminator) {
      assert s[j] == p[k + j];
    }
  }

  /** Each kept part is a stripped, non-blank part. */
  lemma {:induction false} NonBlankStrippedParts(parts: seq<string>)
    requires forall i :: 0 <= i < |parts| ==> All(parts[i], NonTerminator)
    ensures forall i :: 0 <= i < |NonBlankStripped(parts)| ==> IsSentence(NonBlankStripped(parts)[i])
  {
    if parts != [] {
      NonBlankStrippedParts(parts[1..]);
      assert forall i :: 0 <= i < |NonBlankStripped(parts[1..])| ==> IsSentence(NonBlankStripped(parts[1..])[i]);
      StripPart(parts[0]);
      var s := Strip(parts[0]);
      var r := NonBlankStripped(parts);
      var r1 := NonBlankStripped(parts[1..]);
      if s != [] {
        assert r == [s] + r1;
        forall i | 0 <= i < |r| ensures IsSentence(r[i]) {
          if i > 0 {
            assert r[i] == r1[i - 1];
          } else {
            assert r[0] == s && IsSentence(s);
          }
        }
      } else {
        assert r == [] + r1;
      }
    }
  }

  /** Stripping and dropping blank parts loses only white space. */
  lemma {:induction false} NonBlankStrippedContent(parts: seq<string>)
    ensures Keep(Concat(NonBlankStripped(parts)), Content) == Keep(Concat(parts), Content)
  {
    if parts != [] {
      NonBlankStrippedContent(parts[1..]);
      var p := parts[0];
      var s := Strip(p);
      var c1 := Concat(NonBlankStripped(parts[1..]));
      assert Concat(parts) == p + Concat(parts[1..]);
      KeepAppend(p, Concat(parts[1..]), Content);
      StripKeepsContent(p, Content);
      if s != [] {
        assert NonBlankStripped(parts) == [s] + NonBlankStripped(parts[1..]);
        assert Concat(NonBlankStripped(parts)) == s + c1;
        KeepAppend(s, c1, Content);
      } else {
        assert NonBlankStripped(parts) == [] + NonBlankStripped(parts[1..]);
        assert Keep(s, Content) == [];
        assert Keep(p, Content) == [];
        assert Keep(Concat(parts), Content) == [] + Keep(Concat(parts[1..]), Content);
        assert NonBlankStripped(parts) == NonBlankStripped(parts[1..]);
      }
    }
  }

  lemma {:induction false} KeepKeep(s: string, p: CharClass, q: CharClass)
    requires forall i :: 0 <= i < |s| ==> (In(s[i], p) ==> In(s[i], q))
    ensures Keep(Keep(s, q), p) == Keep(s, p)
  {
    if s != [] {
      KeepKeep(s[1..], p, q);
      var k1 := Keep(s[1..], q);
      if In(s[0], q) {
        assert Keep(s, q) == [s[0]] + k1;
        KeepAppend([s[0]], k1, p);
        assert [s[0]][1..] == [];
        assert Keep([s[0]], p) == (if In(s[0], p) then [s[0]] else []) + Keep([], p);
      } else {
        assert !In(s[0], p);
        assert Keep(s, q) == [] + k1;
        assert Keep(s, q) == k1;
        assert Keep(s, p) == [] + Keep(s[1..], p);
      }
    }
  }

  /** Every sentence is non-empty, has no white space at its ends and no `.`,
      `!` or `?`; and the sentences together keep every character of the text
      that is neither white space nor a terminator, in order. */
  lemma SentencesShape(cleaned: string)
    ensures var ss := SentencesOf(cleaned);
      && (forall i :: 0 <= i < |ss| ==> IsSentence(ss[i]))
      && Keep(Concat(ss), Content) == Keep(cleaned, Content)
  {
    var parts := SplitOnTerminators(cleaned);
    NonBlankStrippedParts(parts);
    NonBlankStrippedContent(parts);
    SplitOnTerminatorsParts(cleaned);
    KeepKeep(cleaned, Content, NonTerminator);
  }

  /** The sentences are the maximal runs of non-terminators of the text,
      stripped, with the blank ones dropped; the i-th run is the slice of the
      text at the i-th span, the spans are maximal runs and they come left to
      right without touching. */
  lemma SentencesAreStrippedRuns(cleaned: string)
    ensures SentencesOf(cleaned) == NonBlankStripped(Runs(cleaned, NonTerminator))
    ensures var rs := Runs(cleaned, NonTerminator); var sp := RunSpans(cleaned, NonTerminator);
      && |rs| == |sp|
      && (forall i :: 0 <= i < |sp| ==> rs[i] == cleaned[sp[i].0..sp[i].1] && IsRun(cleaned, NonTerminator, sp[i].0, sp[i].1))
      && (forall i, j :: 0 <= i < j < |sp| ==> sp[i].1 < sp[j].0)
  {
    var lead := LeadPiece(cleaned);
    var rs := Runs(cleaned, NonTerminator);
    var trail := TrailPiece(cleaned);
    SplitOnTerminatorsRuns(cleaned);
    NonBlankStrippedAppend(lead + rs, trail);
    NonBlankStrippedAppend(lead, rs);
    assert Strip([]) == [];
    assert NonBlankStripped(lead) == [] && NonBlankStripped(trail) == [];
    RunsAreMaximal(cleaned, NonTerminator);
    var sp := RunSpans(cleaned, NonTerminator);
    forall i | 0 <= i < |sp| ensures IsRun(cleaned, NonTerminator, sp[i].0, sp[i].1) {
      assert sp[i] in sp;
    }
  }

  /** A text with a word has a sentence: a word character is neither white
      space nor a terminator, so some sentence keeps it. */
  lemma WordsNeedSentences(cleaned: string)
    requires WordsOf(cleaned) != []
    ensures SentencesOf(cleaned) != []
  {
    var low := LowerStr(cleaned);
    var ws := WordsOf(cleaned);
    WordsAreLowerWordRuns(cleaned);
    assert |Concat(ws)| >= |ws[0]| > 0;
    var i := KeepWitness(low, Word);
    assert In(cleaned[i], Content);
    KeepHas(cleaned, i, Content);
    SentencesShape(cleaned);
  }
}
