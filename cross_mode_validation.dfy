/**
 * checkCrossModeValidation of js/cross-mode-validation.js: whether a wrong answer would have
 * been right for the other kind of question on the same kanji (a reading typed for a meaning
 * question, or a meaning typed for a reading question).
 */
module CrossModeValidation {
  import opened Nullable
  import opened JsString
  import opened QuizCards
  import RomanjiConverter

  datatype OtherMode = Reading | Meaning

  /** The object checkCrossModeValidation returns when it does not return `null`. */
  datatype CrossModeHit = CrossModeHit(isCorrectInOtherMode: bool, otherMode: OtherMode, correctAnswer: string)

  /** The first of `xs`, in list order, whose normalized form is one of `targets`. */
  function FirstNormalizedIn(xs: seq<string>, targets: set<string>): (r: Option<string>)
    ensures r.Some? ==> r.value in xs && Normalize(r.value) in targets
    decreases |xs|
  {
    if xs == [] then None
    else if Normalize(xs[0]) in targets then Some(xs[0])
    else FirstNormalizedIn(xs[1..], targets)
  }

  /** `userAnswer.replace(/[a-zA-Z]/g, "")` */
  function WithoutLetters(s: string): string {
    KeepChars(s, c => !IsAsciiLetter(c))
  }

  /** `userAnswer.replace(/[^a-zA-Z]/g, "")` */
  function LettersOnly(s: string): string {
    KeepChars(s, IsAsciiLetter)
  }

  /** A mix of ASCII letters and hiragana, as "てn". */
  predicate IsMixedScript(s: string) {
    HasAsciiLetter(s) && HasHiragana(s)
  }

  /** The answer read as romaji: its hiragana romanized, then its letters appended. */
  function CombinedRomanji(s: string): string {
    RomanjiConverter.ToRomanji(WithoutLetters(s)) + LettersOnly(s)
  }

  /** The normalized forms a reading may take to count as the answer of a meaning question. */
  function ReadingTargets(userAnswer: string): set<string> {
    {Normalize(userAnswer), Normalize(RomanjiConverter.ToHiragana(userAnswer))}
  }

  /** The normalized forms a meaning may take to count as the answer of a reading question. */
  function MeaningTargets(userAnswer: string): set<string> {
    if IsMixedScript(userAnswer) then {Normalize(userAnswer), Normalize(CombinedRomanji(userAnswer))}
    else {Normalize(userAnswer)}
  }

  /**
   * What checkCrossModeValidation(card, userAnswer) returns: `None` for `null`. A meaning
   * question looks for a reading, a reading question for a meaning; every other question
   * type gives `None`.
   */
  function CheckCrossModeValidation(card: Option<Card>, userAnswer: string): (r: Option<CrossModeHit>)
    ensures r.Some? ==> card.Some? && Trim(userAnswer) != [] && r.value.isCorrectInOtherMode
    ensures r.Some? && r.value.otherMode == Reading ==>
      card.value.questionType == KanjiToEnglish && r.value.correctAnswer in card.value.item.readings
    ensures r.Some? && r.value.otherMode == Meaning ==>
      card.value.questionType == KanjiToReading && r.value.correctAnswer in card.value.item.meanings
  {
    if card.None? || Trim(userAnswer) == [] then None
    else if card.value.questionType == KanjiToEnglish then
      var reading := FirstNormalizedIn(card.value.item.readings, ReadingTargets(userAnswer));
      if reading.Some? then Some(CrossModeHit(true, Reading, reading.value)) else None
    else if card.value.questionType == KanjiToReading then
      var meaning := FirstNormalizedIn(card.value.item.meanings, MeaningTargets(userAnswer));
      if meaning.Some? then Some(CrossModeHit(true, Meaning, meaning.value)) else None
    else None
  }

  // ---------------------------------------------------------------------------------------
  // Properties

  /** The search returns the first element, in list order, whose normalized form is a target. */
  lemma {:induction false} FirstNormalizedInIsFirst(xs: seq<string>, targets: set<string>, i: int)
    requires 0 <= i < |xs| && Normalize(xs[i]) in targets
    requires forall j :: 0 <= j < i ==> Normalize(xs[j]) !in targets
    ensures FirstNormalizedIn(xs, targets) == Some(xs[i])
    decreases i
  {
    if i > 0 {
      forall j | 0 <= j < i - 1
        ensures Normalize(xs[1..][j]) !in targets
      {
        assert xs[1..][j] == xs[j + 1];
      }
      assert xs[1..][i - 1] == xs[i];
      FirstNormalizedInIsFirst(xs[1..], targets, i - 1);
    }
  }

  /** The search finds nothing exactly when no element normalizes to a target. */
  lemma {:induction false} FirstNormalizedInNone(xs: seq<string>, targets: set<string>)
    ensures FirstNormalizedIn(xs, targets).None? <==> forall i :: 0 <= i < |xs| ==> Normalize(xs[i]) !in targets
    decreases |xs|
  {
    if xs != [] && Normalize(xs[0]) !in targets {
      var rest := xs[1..];
      FirstNormalizedInNone(rest, targets);
      forall j | 0 <= j < |rest|
        ensures rest[j] == xs[j + 1]
      {
      }
    }
  }

  /** A missing card or a blank answer is never right in the other mode. */
  lemma NoCardOrBlank(card: Option<Card>, userAnswer: string)
    requires card.None? || Trim(userAnswer) == []
    ensures CheckCrossModeValidation(card, userAnswer).None?
  {
  }

  /**
   * On a meaning question, the hit is the first reading that normalizes to the normalized
   * answer or to the normalized hiragana conversion of the answer.
   */
  lemma ReadingForMeaningQuestion(item: Item, userAnswer: string, i: int)
    requires Trim(userAnswer) != [] && 0 <= i < |item.readings|
    requires Normalize(item.readings[i]) in ReadingTargets(userAnswer)
    requires forall j :: 0 <= j < i ==> Normalize(item.readings[j]) !in ReadingTargets(userAnswer)
    ensures CheckCrossModeValidation(Some(Card(item, KanjiToEnglish)), userAnswer)
         == Some(CrossModeHit(true, Reading, item.readings[i]))
  {
    FirstNormalizedInIsFirst(item.readings, ReadingTargets(userAnswer), i);
  }

  /**
   * On a reading question, the hit is the first meaning that normalizes to the normalized
   * answer or, for a mixed-script answer only, to its normalized romaji reading.
   */
  lemma MeaningForReadingQuestion(item: Item, userAnswer: string, i: int)
    requires Trim(userAnswer) != [] && 0 <= i < |item.meanings|
    requires Normalize(item.meanings[i]) in MeaningTargets(userAnswer)
    requires forall j :: 0 <= j < i ==> Normalize(item.meanings[j]) !in MeaningTargets(userAnswer)
    ensures CheckCrossModeValidation(Some(Card(item, KanjiToReading)), userAnswer)
         == Some(CrossModeHit(true, Meaning, item.meanings[i]))
  {
    FirstNormalizedInIsFirst(item.meanings, MeaningTargets(userAnswer), i);
  }

  /** Without hits among the readings or meanings searched, the check gives `null`. */
  lemma NoHit(card: Card, userAnswer: string)
    requires card.questionType == KanjiToEnglish ==>
      forall j :: 0 <= j < |card.item.readings| ==> Normalize(card.item.readings[j]) !in ReadingTargets(userAnswer)
    requires card.questionType == KanjiToReading ==>
      forall j :: 0 <= j < |card.item.meanings| ==> Normalize(card.item.meanings[j]) !in MeaningTargets(userAnswer)
    ensures CheckCrossModeValidation(Some(card), userAnswer).None?
  {
    FirstNormalizedInNone(card.item.readings, ReadingTargets(userAnswer));
    FirstNormalizedInNone(card.item.meanings, MeaningTargets(userAnswer));
  }

  /** An answer not mixing letters and hiragana is only compared to the meanings as typed. */
  lemma UnmixedComparesAsTyped(userAnswer: string)
    requires !HasAsciiLetter(userAnswer) || !HasHiragana(userAnswer)
    ensures MeaningTargets(userAnswer) == {Normalize(userAnswer)}
  {
  }

  /** Questions other than meaning and reading questions never report the other mode. */
  lemma OtherQuestionTypes(item: Item, t: QuestionType, userAnswer: string)
    requires t != KanjiToEnglish && t != KanjiToReading
    ensures CheckCrossModeValidation(Some(Card(item, t)), userAnswer).None?
  {
  }
}
