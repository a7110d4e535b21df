/** The request and response models (app/models/schemas.py): the field
    constraints and `@validator` checks on incoming text, the value sets of
    the enumerations, and the numeric bounds on reported scores. */
module Schemas {
  import opened Wrappers
  import opened Strings
  import opened TextAnalysis
  import opened LegalText

  /** The values of `AnalysisType`. */
  const AnalysisTypes: set<string> := {"text", "legal", "feedback"}

  /** The values of `RiskLevel`. */
  const RiskLevels: set<string> := {"Low Risk", "Medium Risk", "High Risk"}

  const TextMinLength: nat := 10
  const LegalMinLength: nat := 50
  const BatchMinItems: nat := 1
  const BatchMaxItems: nat := 10

  /** Why a request is refused: a `Field` constraint or a validator's
      `ValueError`. */
  datatype FieldError =
    | TooShort(minLength: nat)
    | TooFewItems(minItems: nat)
    | TooManyItems(maxItems: nat)
    | NotAChoice(value: string)
    | Invalid(message: string)

  /** Nothing but white space. */
  predicate Blank(v: string) {
    forall k :: 0 <= k < |v| ==> IsSpace(v[k])
  }

  /** `v` is `t` with white space, and only white space, around it. */
  predicate PaddedBy(v: string, t: string) {
    var i := RunLength(v, Space);
    && i + |t| <= |v|
    && v[i..i + |t|] == t
    && Blank(v[..i])
    && Blank(v[i + |t|..])
  }

  lemma StripPaddedBy(v: string)
    ensures PaddedBy(v, Strip(v))
    ensures Strip(v) == [] <==> Blank(v)
  {
    StripSlice(v);
    StripEmpty(v);
  }

  /** The shared shape of the string validators: refuse `v` when it is empty
      or strips to nothing, else hand on the stripped text. */
  function NotEmpty(v: string, message: string): (r: Result<string, FieldError>)
    ensures r.Failure? <==> Blank(v)
    ensures r.Failure? ==> r.error == Invalid(message)
    ensures r.Success? ==> PaddedBy(v, r.value) && r.value != []
    ensures r.Success? ==> !IsSpace(r.value[0]) && !IsSpace(r.value[|r.value| - 1])
  {
    StripPaddedBy(v);
    StripSlice(v);
    if v == [] || Strip(v) == [] then Failure(Invalid(message)) else Success(Strip(v))
  }

  /** A validated text is its own validation. */
  lemma NotEmptyIdempotent(v: string, message: string)
    requires NotEmpty(v, message).Success?
    ensures NotEmpty(NotEmpty(v, message).value, message) == NotEmpty(v, message)
  {
    var t := NotEmpty(v, message).value;
    StripClean(t);
    assert !IsSpace(t[0]);
  }

  /** `TextAnalysisRequest.text_not_empty`. */
  function TextNotEmpty(v: string): Result<string, FieldError> {
    NotEmpty(v, "Text content cannot be empty")
  }

  /** `FeedbackAnalysisRequest.text_not_empty`. */
  function FeedbackNotEmpty(v: string): Result<string, FieldError> {
    NotEmpty(v, "Feedback text cannot be empty")
  }

  /** `LegalAnalysisRequest.text_not_empty`: a blank text and a stripped
      text under fifty characters are refused with their own messages. */
  function LegalNotEmpty(v: string): (r: Result<string, FieldError>)
    ensures r.Failure? <==> Blank(v) || |Strip(v)| < LegalMinLength
    ensures Blank(v) ==> r == Failure(Invalid("Legal document text cannot be empty"))
    ensures !Blank(v) && |Strip(v)| < LegalMinLength ==>
      r == Failure(Invalid("Legal document text too short (minimum 50 characters)"))
    ensures r.Success? ==> PaddedBy(v, r.value) && |r.value| >= LegalMinLength
  {
    StripPaddedBy(v);
    match NotEmpty(v, "Legal document text cannot be empty")
    case Failure(e) => Failure(e)
    case Success(t) =>
      if |t| < 50 then Failure(Invalid("Legal document text too short (minimum 50 characters)"))
      else Success(t)
  }

  lemma SomeBlank(v: seq<string>)
    ensures (exists i :: 0 <= i < |v| && (v[i] == [] || Strip(v[i]) == []))
      <==> (exists i :: 0 <= i < |v| && Blank(v[i]))
  {
    forall i | 0 <= i < |v| ensures (v[i] == [] || Strip(v[i]) == []) <==> Blank(v[i]) {
      StripPaddedBy(v[i]);
    }
  }

  /** `BatchAnalysisRequest.texts_not_empty`: refuse an empty list or any
      blank item, else hand on the stripped items in order. */
  function TextsNotEmpty(v: seq<string>): (r: Result<seq<string>, FieldError>)
    ensures r.Failure? <==> v == [] || exists i :: 0 <= i < |v| && Blank(v[i])
    ensures v == [] ==> r == Failure(Invalid("At least one text is required"))
    ensures v != [] && r.Failure? ==> r == Failure(Invalid("All texts must have content"))
    ensures r.Success? ==> |r.value| == |v| && forall i :: 0 <= i < |v| ==>
      PaddedBy(v[i], r.value[i]) && r.value[i] != [] && r.value[i] == Strip(v[i])
  {
    SomeBlank(v);
    if v == [] then Failure(Invalid("At least one text is required"))
    else if exists i :: 0 <= i < |v| && (v[i] == [] || Strip(v[i]) == []) then
      Failure(Invalid("All texts must have content"))
    else
      StrippedAll(v);
      Success(seq(|v|, i requires 0 <= i < |v| => Strip(v[i])))
  }

  lemma StrippedAll(v: seq<string>)
    ensures forall i :: 0 <= i < |v| ==> PaddedBy(v[i], Strip(v[i]))
  {
    forall i | 0 <= i < |v| ensures PaddedBy(v[i], Strip(v[i])) {
      StripPaddedBy(v[i]);
    }
  }

  // ---------------------------------------------------------------------
  // Whole requests: the `Field` constraint on the raw value comes first,
  // then the validator.

  /** The `text` field of `TextAnalysisRequest`. */
  function TextRequest(text: string): (r: Result<string, FieldError>)
    ensures r.Success? <==> |text| >= TextMinLength && !Blank(text)
    ensures |text| < TextMinLength ==> r == Failure(TooShort(TextMinLength))
    ensures r.Success? ==> PaddedBy(text, r.value) && 1 <= |r.value| <= |text|
  {
    if |text| < 10 then Failure(TooShort(10)) else TextNotEmpty(text)
  }

  /** The `text` field of `FeedbackAnalysisRequest`. */
  function FeedbackRequest(text: string): (r: Result<string, FieldError>)
    ensures r.Success? <==> |text| >= TextMinLength && !Blank(text)
    ensures |text| < TextMinLength ==> r == Failure(TooShort(TextMinLength))
    ensures r.Success? ==> PaddedBy(text, r.value) && 1 <= |r.value| <= |text|
  {
    if |text| < 10 then Failure(TooShort(10)) else FeedbackNotEmpty(text)
  }

  /** The `text` field of `LegalAnalysisRequest`: at least fifty characters
      both before and after stripping. */
  function LegalRequest(text: string): (r: Result<string, FieldError>)
    ensures r.Success? <==> !Blank(text) && |Strip(text)| >= LegalMinLength
    ensures r.Success? ==> PaddedBy(text, r.value) && LegalMinLength <= |r.value| <= |text|
  {
    StripSlice(text);
    if |text| < 50 then Failure(TooShort(50)) else LegalNotEmpty(text)
  }

  /** `BatchAnalysisRequest`: one to ten texts, each with content, and a
      known analysis type. */
  function BatchRequest(texts: seq<string>, analysisType: string): (r: Result<(seq<string>, string), FieldError>)
    ensures r.Success? <==>
      && BatchMinItems <= |texts| <= BatchMaxItems
      && (forall i :: 0 <= i < |texts| ==> !Blank(texts[i]))
      && analysisType in AnalysisTypes
    ensures r.Success? ==>
      && |r.value.0| == |texts|
      && (forall i :: 0 <= i < |texts| ==> PaddedBy(texts[i], r.value.0[i]) && r.value.0[i] != [])
      && r.value.1 == analysisType
  {
    if |texts| < 1 then Failure(TooFewItems(1))
    else if |texts| > 10 then Failure(TooManyItems(10))
    else match TextsNotEmpty(texts)
      case Failure(e) => Failure(e)
      case Success(stripped) =>
        if analysisType !in AnalysisTypes then Failure(NotAChoice(analysisType))
        else Success((stripped, analysisType))
  }

  // ---------------------------------------------------------------------
  // Score bounds of the response models.

  /** `ReadabilityScore.flesch_reading_ease` lies in [0, 100]. */
  predicate ReadabilityFits(r: Readability) {
    0.0 <= r.fleschReadingEase <= 100.0
  }

  /** `SentimentAnalysis`: polarity in [-1, 1], subjectivity in [0, 1]. */
  predicate SentimentFits(s: Sentiment) {
    -1.0 <= s.polarity <= 1.0 && 0.0 <= s.subjectivity <= 1.0
  }

  /** `RiskAssessment`: a score in [0, 100] and a `RiskLevel` value. */
  predicate RiskFits(r: RiskAssessment) {
    0.0 <= r.riskScore <= 100.0 && r.riskLevel in RiskLevels
  }

  /** Every readability the analyzer reports fits its response model. */
  lemma ReadabilityAlwaysFits(words: nat, sentences: nat, syllables: nat)
    ensures ReadabilityFits(ReadabilityOf(words, sentences, syllables))
  {
    if sentences == 0 || words == 0 {
      assert ReadabilityOf(words, sentences, syllables).fleschReadingEase == 0.0;
    }
  }

  /** Every risk assessment fits its response model. */
  lemma RiskAlwaysFits(text: string)
    ensures RiskFits(RiskOf(text))
  {
    var r := RiskOf(text);
    assert r.riskLevel == RiskLevelOf(r.riskScore);
  }

  /** A reported sentiment fits its response model exactly when the scorer
      raised or stayed within its ranges. */
  lemma SentimentFitsIff(outcome: SentimentOutcome)
    ensures SentimentFits(SentimentOf(outcome)) <==>
      outcome.Raised? || (-1.0 <= outcome.polarity <= 1.0 && 0.0 <= outcome.subjectivity <= 1.0)
  {
  }
}
