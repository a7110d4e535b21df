/** Character classes and string helpers shared by the analysers.

    The analysers use Python's `re` classes `\s`, `\w`, `\d`, and the string
    methods `lower`, `strip` and `split`. Here they are defined for ASCII text. */
module Strings {

  /** `\s` and `str.isspace`: tab, line feed, vertical tab, form feed, carriage
      return, the four ASCII separators and the space. */
  predicate IsSpace(c: char) {
    c == ' ' || ('\t' <= c <= '\r') || ('\U{1C}' <= c <= '\U{1F}')
  }

  predicate IsDigit(c: char) { '0' <= c <= '9' }

  predicate IsUpper(c: char) { 'A' <= c <= 'Z' }

  predicate IsLetter(c: char) { IsUpper(c) || 'a' <= c <= 'z' }

  /** `\w`: letters, digits and the underscore. */
  predicate IsWordChar(c: char) { IsLetter(c) || IsDigit(c) || c == '_' }

  /** The sentence terminators of the pattern `[.!?]+`. */
  predicate IsTerminator(c: char) { c == '.' || c == '!' || c == '?' }

  /** The classes of characters that the analysers filter, cut and count by. */
  datatype CharClass =
    | Space          // `\s`
    | NonSpace
    | Word           // `\w`
    | NonUpper
    | Terminator     // `[.!?]`
    | NonTerminator
    | Content        // neither white space nor a terminator
    | Vowel          // one of "aeiouy"
    | NonLayout      // not a space, a line feed or a tab

  predicate In(c: char, k: CharClass) {
    match k
    case Space => IsSpace(c)
    case NonSpace => !IsSpace(c)
    case Word => IsWordChar(c)
    case NonUpper => !IsUpper(c)
    case Terminator => IsTerminator(c)
    case NonTerminator => !IsTerminator(c)
    case Content => !IsSpace(c) && !IsTerminator(c)
    case Vowel => c == 'a' || c == 'e' || c == 'i' || c == 'o' || c == 'u' || c == 'y'
    case NonLayout => c != ' ' && c != '\n' && c != '\t'
  }

  /** `str.lower` on one character. */
  function Lower(c: char): (r: char)
    ensures !IsUpper(r)
    ensures IsWordChar(r) == IsWordChar(c) && IsSpace(r) == IsSpace(c) && IsDigit(r) == IsDigit(c)
    ensures !IsUpper(c) ==> r == c
  {
    if IsUpper(c) then (c as int + 32) as char else c
  }

  function LowerStr(s: string): (r: string)
    ensures |r| == |s|
    ensures forall i :: 0 <= i < |s| ==> r[i] == Lower(s[i])
  {
    seq(|s|, i requires 0 <= i < |s| => Lower(s[i]))
  }

  /** Every character of `s` satisfies `p`. */
  predicate All(s: string, p: CharClass) {
    forall i :: 0 <= i < |s| ==> In(s[i], p)
  }

  /** The characters of `s` that satisfy `p`, in order. */
  function Keep(s: string, p: CharClass): (r: string)
    ensures |r| <= |s|
    ensures forall i :: 0 <= i < |r| ==> In(r[i], p)
  {
    if s == [] then [] else (if In(s[0], p) then [s[0]] else []) + Keep(s[1..], p)
  }

  lemma {:induction false} KeepAppend(a: string, b: string, p: CharClass)
    ensures Keep(a + b, p) == Keep(a, p) + Keep(b, p)
  {
    if a == [] {
      assert a + b == b;
    } else {
      assert (a + b)[1..] == a[1..] + b;
      KeepAppend(a[1..], b, p);
    }
  }

  /** Keep of a string cut in two at `i`. */
  lemma KeepSplit(s: string, i: nat, p: CharClass)
    requires i <= |s|
    ensures Keep(s, p) == Keep(s[..i], p) + Keep(s[i..], p)
  {
    assert s == s[..i] + s[i..];
    KeepAppend(s[..i], s[i..], p);
  }

  /** The number of leading characters of `s` that satisfy `p`. */
  function RunLength(s: string, p: CharClass): (n: nat)
    ensures n <= |s|
    ensures forall i :: 0 <= i < n ==> In(s[i], p)
    ensures n < |s| ==> !In(s[n], p)
  {
    if s == [] || !In(s[0], p) then 0 else 1 + RunLength(s[1..], p)
  }

  /** The maximal runs of characters satisfying `p`, left to right: what
      `re.findall` returns for the pattern that matches one such run. */
  function Runs(s: string, p: CharClass): (r: seq<string>)
    ensures forall i :: 0 <= i < |r| ==> r[i] != [] && All(r[i], p)
    decreases |s|
  {
    if s == [] then []
    else if !In(s[0], p) then Runs(s[1..], p)
    else
      var n := RunLength(s, p);
      [s[..n]] + Runs(s[n..], p)
  }

  /** How many positions of `s` begin a run of `p`-characters, given whether
      the character before `s` satisfied `p`. */
  function Starts(s: string, p: CharClass, prev: bool): nat
  {
    if s == [] then 0
    else (if In(s[0], p) && !prev then 1 else 0) + Starts(s[1..], p, In(s[0], p))
  }

  function Concat(xs: seq<string>): string
  {
    if xs == [] then [] else xs[0] + Concat(xs[1..])
  }

  lemma {:induction false} ConcatAppend(xs: seq<string>, ys: seq<string>)
    ensures Concat(xs + ys) == Concat(xs) + Concat(ys)
  {
    if xs == [] {
      assert xs + ys == ys;
    } else {
      assert (xs + ys)[1..] == xs[1..] + ys;
      ConcatAppend(xs[1..], ys);
    }
  }

  /** Inside a run, the characters still to come are counted as one run. */
  lemma {:induction false} StartsInsideRun(s: string, p: CharClass, k: nat)
    requires k <= RunLength(s, p) && k > 0
    ensures Starts(s[k..], p, true) == Starts(s[RunLength(s, p)..], p, false)
    decreases RunLength(s, p) - k
  {
    var n := RunLength(s, p);
    if k < n {
      assert s[k..][1..] == s[k + 1..];
      StartsInsideRun(s, p, k + 1);
    }
  }

  /** `s[a..b]` is a maximal run of `p`-characters of `s`: it is non-empty,
      and neither the character before it nor the one after it satisfies `p`. */
  predicate IsRun(s: string, p: CharClass, a: int, b: int) {
    0 <= a < b <= |s| && (forall j :: a <= j < b ==> In(s[j], p))
    && (a == 0 || !In(s[a - 1], p)) && (b == |s| || !In(s[b], p))
  }

  /** Where the run of `p`-characters that begins at position `k` ends. */
  function RunEnd(s: string, p: CharClass, k: nat): (e: nat)
    requires k <= |s|
    ensures k <= e <= |s|
    ensures forall j :: k <= j < e ==> In(s[j], p)
    ensures e < |s| ==> !In(s[e], p)
    decreases |s| - k
  {
    if k == |s| || !In(s[k], p) then k else RunEnd(s, p, k + 1)
  }

  /** The positions `(start, end)` of the runs of `p` in `s` from position `k`
      on, left to right. */
  function RunSpansFrom(s: string, p: CharClass, k: nat): (r: seq<(nat, nat)>)
    requires k <= |s|
    ensures forall i :: 0 <= i < |r| ==> k <= r[i].0 < r[i].1 <= |s|
    ensures forall i, j :: 0 <= i < j < |r| ==> r[i].1 < r[j].0
    decreases |s| - k
  {
    if k == |s| then []
    else if !In(s[k], p) then RunSpansFrom(s, p, k + 1)
    else
      var e := RunEnd(s, p, k);
      [(k, e)] + RunSpansFrom(s, p, e)
  }

  /** `s[a..b]` holds only `p`-characters and cannot be extended to the
      right, nor to the left unless it begins at `k`. */
  predicate RunFrom(s: string, p: CharClass, k: nat, a: nat, b: nat) {
    k <= a < b <= |s| && (forall j :: a <= j < b ==> In(s[j], p))
    && (a == k || !In(s[a - 1], p)) && (b == |s| || !In(s[b], p))
  }

  /** Every span from position `k` on is a run, maximal unless it begins at `k`. */
  lemma {:induction false} RunSpansMaximal(s: string, p: CharClass, k: nat)
    requires k <= |s|
    ensures forall sp :: sp in RunSpansFrom(s, p, k) ==> RunFrom(s, p, k, sp.0, sp.1)
    decreases |s| - k
  {
    if k < |s| {
      if !In(s[k], p) {
        RunSpansMaximal(s, p, k + 1);
        RunSpansSkip(s, p, k);
      } else {
        var e := RunEnd(s, p, k);
        RunSpansMaximal(s, p, e);
        RunSpansAfterRun(s, p, k);
      }
    }
  }

  /** A span after a character outside `p` cannot be extended to the left. */
  lemma RunSpansSkip(s: string, p: CharClass, k: nat)
    requires k < |s| && !In(s[k], p)
    requires forall sp :: sp in RunSpansFrom(s, p, k + 1) ==> RunFrom(s, p, k + 1, sp.0, sp.1)
    ensures forall sp :: sp in RunSpansFrom(s, p, k) ==> RunFrom(s, p, k, sp.0, sp.1)
  {
    assert RunSpansFrom(s, p, k) == RunSpansFrom(s, p, k + 1);
    forall sp | sp in RunSpansFrom(s, p, k)
      ensures RunFrom(s, p, k, sp.0, sp.1)
    {
      assert RunFrom(s, p, k + 1, sp.0, sp.1);
    }
  }

  /** The spans after the run at `k` begin past its end, so cannot be
      extended to the left either. */
  lemma RunSpansAfterRun(s: string, p: CharClass, k: nat)
    requires k < |s| && In(s[k], p)
    requires forall sp :: sp in RunSpansFrom(s, p, RunEnd(s, p, k)) ==> RunFrom(s, p, RunEnd(s, p, k), sp.0, sp.1)
    ensures forall sp :: sp in RunSpansFrom(s, p, k) ==> RunFrom(s, p, k, sp.0, sp.1)
  {
    var e := RunEnd(s, p, k);
    var rest := RunSpansFrom(s, p, e);
    assert RunSpansFrom(s, p, k) == [(k, e)] + rest;
    forall sp | sp in rest
      ensures RunFrom(s, p, k, sp.0, sp.1)
    {
      assert RunFrom(s, p, e, sp.0, sp.1);
      assert In(s[sp.0], p);
    }
  }

  function RunSpans(s: string, p: CharClass): seq<(nat, nat)>
  {
    RunSpansFrom(s, p, 0)
  }

  /** The run length at `k` is measured by `RunEnd`. */
  lemma RunLengthAt(s: string, p: CharClass, k: nat)
    requires k <= |s|
    ensures RunLength(s[k..], p) == RunEnd(s, p, k) - k
  {
    var e := RunEnd(s, p, k);
    assert forall i :: 0 <= i < e - k ==> s[k..][i] == s[k + i];
    RunLengthIs(s[k..], p, e - k);
  }

  /** The slices of `s` between the given spans, in order. */
  function Slices(s: string, spans: seq<(nat, nat)>): (r: seq<string>)
    requires forall i :: 0 <= i < |spans| ==> spans[i].0 <= spans[i].1 <= |s|
    ensures |r| == |spans|
    ensures forall i :: 0 <= i < |r| ==> r[i] == s[spans[i].0..spans[i].1]
  {
    if spans == [] then [] else [s[spans[0].0..spans[0].1]] + Slices(s, spans[1..])
  }

  /** The runs from position `k` are the slices between the spans. */
  lemma {:induction false} RunsAtSpans(s: string, p: CharClass, k: nat)
    requires k <= |s|
    ensures Runs(s[k..], p) == Slices(s, RunSpansFrom(s, p, k))
    decreases |s| - k
  {
    if k < |s| {
      if !In(s[k], p) {
        RunsAtSpans(s, p, k + 1);
        RunsSkipOne(s, p, k);
      } else {
        var e := RunEnd(s, p, k);
        RunsAtSpans(s, p, e);
        RunsAtRun(s, p, k);
        RunSpansAtRun(s, p, k);
        SlicesCons(s, (k, e), RunSpansFrom(s, p, e));
      }
    }
  }

  lemma RunsSkipOne(s: string, p: CharClass, k: nat)
    requires k < |s| && !In(s[k], p)
    ensures Runs(s[k..], p) == Runs(s[k + 1..], p)
  {
    assert s[k..][1..] == s[k + 1..];
  }

  /** Unfolding a run that starts at `k`. */
  lemma RunsAtRun(s: string, p: CharClass, k: nat)
    requires k < |s| && In(s[k], p)
    ensures Runs(s[k..], p) == [s[k..RunEnd(s, p, k)]] + Runs(s[RunEnd(s, p, k)..], p)
  {
    var e := RunEnd(s, p, k);
    RunLengthAt(s, p, k);
    SliceParts(s, k, e);
    RunsUnfold(s[k..], p, e - k, s[k..e], s[e..]);
  }

  lemma RunsUnfold(t: string, p: CharClass, n: nat, u: string, v: string)
    requires t != [] && In(t[0], p) && n == RunLength(t, p)
    requires u == t[..n] && v == t[n..]
    ensures Runs(t, p) == [u] + Runs(v, p)
  {
  }

  lemma SliceParts(s: string, k: nat, e: nat)
    requires k <= e <= |s|
    ensures s[k..][e - k..] == s[e..] && s[k..][..e - k] == s[k..e]
    ensures k < |s| ==> s[k..][0] == s[k]
  {
  }

  lemma RunSpansAtRun(s: string, p: CharClass, k: nat)
    requires k < |s| && In(s[k], p)
    ensures RunSpansFrom(s, p, k) == [(k, RunEnd(s, p, k))] + RunSpansFrom(s, p, RunEnd(s, p, k))
  {
  }

  lemma SlicesCons(s: string, x: (nat, nat), spans: seq<(nat, nat)>)
    requires x.0 <= x.1 <= |s|
    requires forall i :: 0 <= i < |spans| ==> spans[i].0 <= spans[i].1 <= |s|
    ensures Slices(s, [x] + spans) == [s[x.0..x.1]] + Slices(s, spans)
  {
    assert ([x] + spans)[1..] == spans;
  }

  /** The runs are exactly the `p`-characters of `s`, one per place where a
      run starts: the i-th is the slice `s[a..b]` of a maximal run, and the
      runs appear left to right without touching. */
  lemma RunsAreMaximal(s: string, p: CharClass)
    ensures Concat(Runs(s, p)) == Keep(s, p)
    ensures |Runs(s, p)| == Starts(s, p, false)
    ensures Runs(s, p) == Slices(s, RunSpans(s, p))
    ensures forall sp :: sp in RunSpans(s, p) ==> IsRun(s, p, sp.0, sp.1)
    ensures forall i, j :: 0 <= i < j < |RunSpans(s, p)| ==> RunSpans(s, p)[i].1 < RunSpans(s, p)[j].0
  {
    RunsConcat(s, p);
    RunsCount(s, p);
    RunsAtSpans(s, p, 0);
    RunSpansMaximal(s, p, 0);
    assert s[0..] == s;
  }

  lemma {:induction false} RunsConcat(s: string, p: CharClass)
    ensures Concat(Runs(s, p)) == Keep(s, p)
    decreases |s|
  {
    if s == [] {
    } else if !In(s[0], p) {
      RunsConcat(s[1..], p);
    } else {
      var n := RunLength(s, p);
      RunsConcat(s[n..], p);
      KeepSplit(s, n, p);
      KeepAll(s[..n], p);
    }
  }

  lemma {:induction false} RunsCount(s: string, p: CharClass)
    ensures |Runs(s, p)| == Starts(s, p, false)
    decreases |s|
  {
    if s == [] {
    } else if !In(s[0], p) {
      RunsCount(s[1..], p);
    } else {
      var n := RunLength(s, p);
      RunsCount(s[n..], p);
      if n > 1 {
        StartsInsideRun(s, p, 1);
      } else {
        assert s[1..] == s[n..];
      }
    }
  }

  /** Keep loses nothing exactly when every character satisfies `p`. */
  lemma {:induction false} KeepFull(s: string, p: CharClass)
    ensures |Keep(s, p)| == |s| <==> All(s, p)
  {
    if s != [] {
      KeepFull(s[1..], p);
      assert All(s, p) <==> In(s[0], p) && All(s[1..], p);
    }
  }

  lemma {:induction false} KeepAll(s: string, p: CharClass)
    requires forall i :: 0 <= i < |s| ==> In(s[i], p)
    ensures Keep(s, p) == s
  {
    if s != [] {
      KeepAll(s[1..], p);
    }
  }

  lemma {:induction false} KeepNone(s: string, p: CharClass)
    requires forall i :: 0 <= i < |s| ==> !In(s[i], p)
    ensures Keep(s, p) == []
  {
    if s != [] {
      KeepNone(s[1..], p);
    }
  }

  /** A character of class `p` survives in `Keep(s, p)`. */
  lemma KeepHas(s: string, i: nat, p: CharClass)
    requires i < |s| && In(s[i], p)
    ensures Keep(s, p) != []
  {
    KeepSplit(s, i, p);
    assert s[i..][0] == s[i];
  }

  /** Whatever `Keep(s, p)` holds comes from a character of `s` of class `p`. */
  lemma {:induction false} KeepWitness(s: string, p: CharClass) returns (i: nat)
    requires Keep(s, p) != []
    ensures i < |s| && In(s[i], p)
  {
    if In(s[0], p) {
      i := 0;
    } else {
      var j := KeepWitness(s[1..], p);
      i := j + 1;
    }
  }

  lemma {:induction false} StartsAtLeastOne(s: string, p: CharClass, k: nat)
    requires k < |s| && In(s[k], p)
    ensures Starts(s, p, false) >= 1
  {
    if !In(s[0], p) {
      StartsAtLeastOne(s[1..], p, k - 1);
    }
  }

  /** Characters that do not satisfy `p` and come first do not change the runs. */
  lemma {:induction false} RunsSkip(s: string, k: nat, p: CharClass)
    requires k <= |s| && forall i :: 0 <= i < k ==> !In(s[i], p)
    ensures Runs(s, p) == Runs(s[k..], p)
  {
    if k > 0 {
      RunsSkip(s[1..], k - 1, p);
      assert s[1..][k - 1..] == s[k..];
    }
  }

  /** `str.split()` with no argument: the maximal runs of non-space characters. */
  function Split(s: string): (r: seq<string>)
    ensures forall i :: 0 <= i < |r| ==> r[i] != [] && All(r[i], NonSpace)
  {
    Runs(s, NonSpace)
  }

  /** The number of trailing characters of `s` that satisfy `p`. */
  function TrailLength(s: string, p: CharClass): (n: nat)
    ensures n <= |s|
    ensures forall i :: |s| - n <= i < |s| ==> In(s[i], p)
    ensures n < |s| ==> !In(s[|s| - 1 - n], p)
  {
    if s == [] || !In(s[|s| - 1], p) then 0 else 1 + TrailLength(s[..|s| - 1], p)
  }

  /** The run length is the one position where the `p`-prefix stops. */
  lemma {:induction false} RunLengthIs(s: string, p: CharClass, k: nat)
    requires k <= |s| && (forall i :: 0 <= i < k ==> In(s[i], p)) && (k < |s| ==> !In(s[k], p))
    ensures RunLength(s, p) == k
  {
    if k > 0 {
      RunLengthIs(s[1..], p, k - 1);
    }
  }

  lemma {:induction false} TrailLengthIs(s: string, p: CharClass, k: nat)
    requires k <= |s| && (forall i :: |s| - k <= i < |s| ==> In(s[i], p)) && (k < |s| ==> !In(s[|s| - 1 - k], p))
    ensures TrailLength(s, p) == k
  {
    if k > 0 {
      TrailLengthIs(s[..|s| - 1], p, k - 1);
    }
  }

  /** `str.strip()` with no argument: drop the white space at both ends. */
  function Strip(s: string): (r: string)
  {
    StripTrailing(StripLeading(s))
  }

  function StripLeading(s: string): string {
    if s != [] && IsSpace(s[0]) then StripLeading(s[1..]) else s
  }

  function StripTrailing(s: string): string {
    if s != [] && IsSpace(s[|s| - 1]) then StripTrailing(s[..|s| - 1]) else s
  }

  lemma {:induction false} StripLeadingIs(s: string)
    ensures StripLeading(s) == s[RunLength(s, Space)..]
  {
    if s != [] && IsSpace(s[0]) {
      StripLeadingIs(s[1..]);
      assert s[1..][RunLength(s[1..], Space)..] == s[1 + RunLength(s[1..], Space)..];
    }
  }

  lemma {:induction false} StripTrailingIs(s: string)
    ensures StripTrailing(s) == s[..|s| - TrailLength(s, Space)]
  {
    if s != [] && IsSpace(s[|s| - 1]) {
      var u := s[..|s| - 1];
      StripTrailingIs(u);
      assert u[..|u| - TrailLength(u, Space)] == s[..|s| - 1 - TrailLength(u, Space)];
    }
  }

  /** Strip drops the leading run of white space, then the trailing one. */
  lemma StripIs(s: string)
    ensures Strip(s) == var t := s[RunLength(s, Space)..]; t[..|t| - TrailLength(t, Space)]
  {
    StripLeadingIs(s);
    StripTrailingIs(s[RunLength(s, Space)..]);
  }

  /** Strip cuts a slice out of `s`, drops only white space around it, and
      leaves no white space at either end. */
  lemma StripSlice(s: string)
    ensures RunLength(s, Space) + |Strip(s)| <= |s|
    ensures Strip(s) == s[RunLength(s, Space)..RunLength(s, Space) + |Strip(s)|]
    ensures forall k :: RunLength(s, Space) + |Strip(s)| <= k < |s| ==> IsSpace(s[k])
    ensures Strip(s) != [] ==> !IsSpace(Strip(s)[0]) && !IsSpace(Strip(s)[|Strip(s)| - 1])
  {
    StripIs(s);
    var i := RunLength(s, Space);
    CutBetween(s, i, TrailLength(s[i..], Space));
  }

  /** The middle of `s` between `i` leading and `n` trailing characters. */
  lemma CutBetween(s: string, i: nat, n: nat)
    requires i <= |s| && n <= |s| - i
    requires i < |s| ==> !IsSpace(s[i])
    requires forall k :: |s| - i - n <= k < |s| - i ==> IsSpace(s[i..][k])
    requires n < |s| - i ==> !IsSpace(s[i..][|s| - i - 1 - n])
    ensures s[i..][..|s| - i - n] == s[i..|s| - n]
    ensures forall k :: |s| - n <= k < |s| ==> IsSpace(s[k])
    ensures n < |s| - i ==> !IsSpace(s[i]) && !IsSpace(s[|s| - 1 - n])
  {
    forall k | |s| - n <= k < |s| ensures IsSpace(s[k]) {
      assert s[k] == s[i..][k - i];
    }
  }

  /** A string that has no white space at its ends is unchanged by Strip. */
  lemma StripClean(s: string)
    requires s != [] ==> !IsSpace(s[0]) && !IsSpace(s[|s| - 1])
    ensures Strip(s) == s
  {
    if s != [] {
      StripIs(s);
      RunLengthIs(s, Space, 0);
      TrailLengthIs(s, Space, 0);
      assert s[0..] == s;
    }
  }

  /** Strip gives the empty string exactly when `s` is all white space. */
  lemma StripEmpty(s: string)
    ensures Strip(s) == [] <==> forall k :: 0 <= k < |s| ==> IsSpace(s[k])
  {
    StripSlice(s);
    if forall k :: 0 <= k < |s| ==> IsSpace(s[k]) {
      RunLengthIs(s, Space, |s|);
    }
  }

  /** White space around a string with non-space ends is what Strip drops. */
  lemma StripPadded(x: string, j: string, y: string)
    requires forall i :: 0 <= i < |x| ==> IsSpace(x[i])
    requires forall i :: 0 <= i < |y| ==> IsSpace(y[i])
    requires j != [] && !IsSpace(j[0]) && !IsSpace(j[|j| - 1])
    ensures Strip(x + j + y) == j
  {
    StripLeadingPadded(x, j + y);
    assert x + j + y == x + (j + y);
    StripTrailingPadded(j, y);
  }

  lemma {:induction false} StripLeadingPadded(x: string, u: string)
    requires forall i :: 0 <= i < |x| ==> IsSpace(x[i])
    requires u != [] && !IsSpace(u[0])
    ensures StripLeading(x + u) == u
    decreases |x|
  {
    if x == [] {
      assert x + u == u;
    } else {
      StripLeadingPadded(x[1..], u);
      assert (x + u)[1..] == x[1..] + u;
    }
  }

  lemma {:induction false} StripTrailingPadded(v: string, y: string)
    requires forall i :: 0 <= i < |y| ==> IsSpace(y[i])
    requires v != [] && !IsSpace(v[|v| - 1])
    ensures StripTrailing(v + y) == v
    decreases |y|
  {
    if y == [] {
      assert v + y == v;
    } else {
      StripTrailingPadded(v, y[..|y| - 1]);
      assert (v + y)[..|v + y| - 1] == v + y[..|y| - 1];
    }
  }

  /** Keep of a slice whose surroundings have no `p`-character. */
  lemma KeepSlice(s: string, i: nat, j: nat, p: CharClass)
    requires i <= j <= |s|
    requires forall k :: 0 <= k < i ==> !In(s[k], p)
    requires forall k :: j <= k < |s| ==> !In(s[k], p)
    ensures Keep(s[i..j], p) == Keep(s, p)
  {
    KeepSplit(s, j, p);
    KeepNone(s[j..], p);
    KeepSplit(s[..j], i, p);
    KeepNone(s[..j][..i], p);
    assert s[..j][i..] == s[i..j];
  }

  /** Characters that are never white space survive Strip unchanged. */
  lemma StripKeepsContent(s: string, p: CharClass)
    requires forall k :: 0 <= k < |s| && IsSpace(s[k]) ==> !In(s[k], p)
    ensures Keep(Strip(s), p) == Keep(s, p)
  {
    StripSlice(s);
    KeepSlice(s, RunLength(s, Space), RunLength(s, Space) + |Strip(s)|, p);
  }

  /** `sep.join(xs)`. */
  function Join(sep: string, xs: seq<string>): string
  {
    if xs == [] then [] else if |xs| == 1 then xs[0] else xs[0] + sep + Join(sep, xs[1..])
  }

  lemma Assoc<T>(a: seq<T>, b: seq<T>, c: seq<T>)
    ensures a + (b + c) == a + b + c
  {
  }

  /** Occurrences of `x` in `s`. */
  function Count<T(==)>(s: seq<T>, x: T): nat
  {
    if s == [] then 0 else (if s[0] == x then 1 else 0) + Count(s[1..], x)
  }

  /** The number of occurrences is the multiplicity in the sequence. */
  lemma {:induction false} CountIsMultiplicity<T>(s: seq<T>, x: T)
    ensures Count(s, x) == multiset(s)[x]
  {
    if s != [] {
      CountIsMultiplicity(s[1..], x);
      assert s == [s[0]] + s[1..];
    }
  }

  lemma {:induction false} CountAppend<T>(a: seq<T>, b: seq<T>, x: T)
    ensures Count(a + b, x) == Count(a, x) + Count(b, x)
  {
    if a == [] {
      assert a + b == b;
    } else {
      assert (a + b)[1..] == a[1..] + b;
      CountAppend(a[1..], b, x);
    }
  }

  /** Python's `s[:n]`; a negative `n` counts from the end. */
  function SlicePrefix<T>(s: seq<T>, n: int): (r: seq<T>)
    ensures r <= s
    ensures 0 <= n ==> |r| == if n < |s| then n else |s|
    ensures n < 0 ==> |r| == if -n < |s| then |s| + n else 0
  {
    if 0 <= n then (if n < |s| then s[..n] else s)
    else (if -n < |s| then s[..|s| + n] else [])
  }

  function DigitChar(d: nat): (c: char)
    requires d < 10
    ensures IsDigit(c)
  {
    ('0' as int + d) as char
  }

  /** `str(n)` for a natural number. */
  function NatToString(n: nat): (r: string)
    ensures r != [] && forall i :: 0 <= i < |r| ==> IsDigit(r[i])
  {
    if n < 10 then [DigitChar(n)] else NatToString(n / 10) + [DigitChar(n % 10)]
  }
}
