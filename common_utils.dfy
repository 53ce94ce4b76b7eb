/**
 * The shared helpers of js/common-utils.js the quiz relies on: the Fisher-Yates shuffle,
 * the count of enabled quiz modes, and the exact-then-fuzzy answer check.
 */
module CommonUtils {
  import opened Nullable
  import opened JsString
  import opened FuzzyMatch

  // ---------------------------------------------------------------------------------------
  // shuffleArray (js/common-utils.js:9-16)

  /**
   * A shuffled copy of `arr`. The source draws each swap index with `Math.random`; here it is
   * any index in `[0, i]`.
   */
  method ShuffleArray<T>(arr: array<T>) returns (shuffled: array<T>)
    ensures fresh(shuffled)
    ensures shuffled.Length == arr.Length
    ensures multiset(shuffled[..]) == multiset(arr[..])
    ensures arr[..] == old(arr[..])
  {
    shuffled := new T[arr.Length](k requires 0 <= k < arr.Length reads arr => arr[k]);
    assert shuffled[..] == arr[..];
    if shuffled.Length == 0 {
      return;
    }
    var i := shuffled.Length - 1;
    while i > 0
      invariant 0 <= i < shuffled.Length
      invariant multiset(shuffled[..]) == multiset(arr[..])
    {
      var j :| 0 <= j <= i;
      shuffled[i], shuffled[j] := shuffled[j], shuffled[i];
      i := i - 1;
    }
  }

  // ---------------------------------------------------------------------------------------
  // getQuizModeInfo (js/common-utils.js:22-31)

  /** The three mode toggles of the setup screen. */
  datatype QuizModes = QuizModes(kanjiToEnglish: bool, reading: bool, englishToKanji: bool)

  datatype ModeInfo = ModeInfo(modesCount: int, isMultiMode: bool)

  /** How many modes are enabled, and whether more than one is. */
  function GetQuizModeInfo(m: QuizModes): (info: ModeInfo)
    ensures 0 <= info.modesCount <= 3
    ensures info.modesCount == 0 <==> !m.kanjiToEnglish && !m.reading && !m.englishToKanji
    ensures info.modesCount == 3 <==> m.kanjiToEnglish && m.reading && m.englishToKanji
    ensures info.isMultiMode <==> info.modesCount > 1
    ensures info.isMultiMode <==>
      (m.kanjiToEnglish && m.reading) || (m.kanjiToEnglish && m.englishToKanji) || (m.reading && m.englishToKanji)
  {
    var count := (if m.kanjiToEnglish then 1 else 0) + (if m.reading then 1 else 0)
      + (if m.englishToKanji then 1 else 0);
    ModeInfo(count, count > 1)
  }

  // ---------------------------------------------------------------------------------------
  // validateAnswer (js/common-utils.js:55-94)

  /** The object validateAnswer returns. */
  datatype Validation = Validation(isCorrect: bool, hasTypo: bool, matchedAnswer: Option<string>)

  const INCORRECT := Validation(false, false, None)

  /** `s.trim().toLowerCase()` */
  function Normalized(s: string): string {
    Lower(Trim(s))
  }

  /** Candidate `i` equals the normalized answer once normalized itself. */
  predicate MatchesAt(normalized: string, cs: seq<string>, i: int) {
    0 <= i < |cs| && Normalized(cs[i]) == normalized
  }

  /** The first candidate, as given, whose normalized form is `normalized`. */
  function FirstExact(normalized: string, cs: seq<string>): Option<string>
    decreases |cs|
  {
    if cs == [] then None
    else if Normalized(cs[0]) == normalized then Some(cs[0])
    else FirstExact(normalized, cs[1..])
  }

  /** The candidates as the fuzzy stage sees them: each one normalized. */
  function NormalizedCandidates(cs: seq<string>): seq<Value> {
    seq(|cs|, i requires 0 <= i < |cs| => Str(Normalized(cs[i])))
  }

  const FUZZY_THRESHOLD := 80

  /** What validateAnswer(userAnswer, correctAnswers, useFuzzy) returns. */
  function Validate(userAnswer: string, correctAnswers: seq<string>, useFuzzy: bool, lib: Library): Validation {
    var normalized := Normalized(userAnswer);
    match FirstExact(normalized, correctAnswers)
    case Some(c) => Validation(true, false, Some(c))
    case None =>
      if !useFuzzy then INCORRECT
      else
        var f := BestFuzzyMatch(Str(normalized), Some(NormalizedCandidates(correctAnswers)), FUZZY_THRESHOLD, lib);
        if f.isMatch then Validation(true, f.hasTypo, f.bestMatch) else INCORRECT
  }

  /** validateAnswer: the exact loop with its early return, then the fuzzy stage. */
  method ValidateAnswer(userAnswer: string, correctAnswers: seq<string>, useFuzzy: bool, lib: Library)
    returns (r: Validation)
    ensures r == Validate(userAnswer, correctAnswers, useFuzzy, lib)
  {
    var normalized := Lower(Trim(userAnswer));
    var i := 0;
    while i < |correctAnswers|
      invariant 0 <= i <= |correctAnswers|
      invariant FirstExact(normalized, correctAnswers) == FirstExact(normalized, correctAnswers[i..])
    {
      assert correctAnswers[i..][1..] == correctAnswers[i + 1..];
      var correct := correctAnswers[i];
      if Lower(Trim(correct)) == normalized {
        return Validation(true, false, Some(correct));
      }
      i := i + 1;
    }
    if useFuzzy {
      var normalizedCorrect := NormalizedCandidates(correctAnswers);
      var fuzzyResult := FindBestFuzzyMatch(Str(normalized), Some(normalizedCorrect), FUZZY_THRESHOLD, lib);
      if fuzzyResult.isMatch {
        return Validation(true, fuzzyResult.hasTypo, fuzzyResult.bestMatch);
      }
    }
    return INCORRECT;
  }

  /** The exact stage finds the first candidate, as given, that matches once normalized. */
  lemma {:induction false} FirstExactIsFirst(normalized: string, cs: seq<string>, i: int)
    requires MatchesAt(normalized, cs, i)
    requires forall j :: 0 <= j < i ==> !MatchesAt(normalized, cs, j)
    ensures FirstExact(normalized, cs) == Some(cs[i])
    decreases i
  {
    if i > 0 {
      assert !MatchesAt(normalized, cs, 0);
      forall j | 0 <= j < i - 1
        ensures !MatchesAt(normalized, cs[1..], j)
      {
        assert !MatchesAt(normalized, cs, j + 1);
        assert cs[1..][j] == cs[j + 1];
      }
      assert cs[1..][i - 1] == cs[i];
      FirstExactIsFirst(normalized, cs[1..], i - 1);
    }
  }

  /** The exact stage finds nothing exactly when no candidate matches once normalized. */
  lemma {:induction false} FirstExactNone(normalized: string, cs: seq<string>)
    ensures FirstExact(normalized, cs).None? <==> forall i :: 0 <= i < |cs| ==> !MatchesAt(normalized, cs, i)
    decreases |cs|
  {
    if cs != [] && Normalized(cs[0]) != normalized {
      var rest := cs[1..];
      FirstExactNone(normalized, rest);
      assert FirstExact(normalized, cs) == FirstExact(normalized, rest);
      assert !MatchesAt(normalized, cs, 0);
      forall j | 0 <= j < |rest|
        ensures MatchesAt(normalized, rest, j) <==> MatchesAt(normalized, cs, j + 1)
      {
        assert rest[j] == cs[j + 1];
      }
      forall i | 1 <= i < |cs|
        ensures MatchesAt(normalized, cs, i) <==> MatchesAt(normalized, rest, i - 1)
      {
        assert rest[i - 1] == cs[i];
      }
    } else if cs != [] {
      assert MatchesAt(normalized, cs, 0);
    }
  }

  /**
   * The first candidate equal to the answer once both are trimmed and lower-cased is accepted
   * as given, without a typo, whether or not fuzzy matching is on.
   */
  lemma ValidateExact(userAnswer: string, cs: seq<string>, useFuzzy: bool, lib: Library, i: int)
    requires MatchesAt(Normalized(userAnswer), cs, i)
    requires forall j :: 0 <= j < i ==> !MatchesAt(Normalized(userAnswer), cs, j)
    ensures Validate(userAnswer, cs, useFuzzy, lib) == Validation(true, false, Some(cs[i]))
  {
    FirstExactIsFirst(Normalized(userAnswer), cs, i);
  }

  /** Without fuzzy matching, an answer is correct exactly when some candidate matches exactly. */
  lemma ValidateWithoutFuzzy(userAnswer: string, cs: seq<string>, lib: Library)
    ensures Validate(userAnswer, cs, false, lib).isCorrect <==> exists i :: MatchesAt(Normalized(userAnswer), cs, i)
    ensures !Validate(userAnswer, cs, false, lib).isCorrect ==> Validate(userAnswer, cs, false, lib) == INCORRECT
  {
    FirstExactNone(Normalized(userAnswer), cs);
  }

  /**
   * The shape of every answer: an incorrect answer has no typo and no matched answer; a correct
   * one names a candidate, as given or normalized; a typo is only reported for a normalized
   * candidate the fuzzy stage chose.
   */
  lemma ValidateSound(userAnswer: string, cs: seq<string>, useFuzzy: bool, lib: Library)
    ensures var r := Validate(userAnswer, cs, useFuzzy, lib);
      && (!r.isCorrect ==> r == INCORRECT)
      && (r.isCorrect ==>
            r.matchedAnswer.Some? &&
            exists c :: c in cs && (r.matchedAnswer.value == c || r.matchedAnswer.value == Normalized(c)))
      && (r.hasTypo ==> r.isCorrect && exists c :: c in cs && r.matchedAnswer.value == Normalized(c))
  {
    var normalized := Normalized(userAnswer);
    FirstExactNone(normalized, cs);
    match FirstExact(normalized, cs)
    case Some(c) =>
      FirstExactIn(normalized, cs);
    case None =>
      if useFuzzy {
        var vs := NormalizedCandidates(cs);
        BestFuzzyMatchSound(Str(normalized), vs, FUZZY_THRESHOLD, lib);
        var f := BestFuzzyMatch(Str(normalized), Some(vs), FUZZY_THRESHOLD, lib);
        if f.isMatch {
          FuzzyCandidateIsNormalized(f.bestMatch.value, cs);
        }
      }
  }

  /** The exact stage returns one of the candidates. */
  lemma {:induction false} FirstExactIn(normalized: string, cs: seq<string>)
    ensures FirstExact(normalized, cs).Some? ==> FirstExact(normalized, cs).value in cs
    decreases |cs|
  {
    if cs != [] && Normalized(cs[0]) != normalized {
      FirstExactIn(normalized, cs[1..]);
    }
  }

  /**
   * The fuzzy stage chooses among exactly the normalized candidates: a text is one of its
   * candidates iff it is the normalized form of a candidate as given.
   */
  lemma FuzzyCandidateIsNormalized(t: string, cs: seq<string>)
    ensures IsCandidate(t, NormalizedCandidates(cs)) <==> exists c :: c in cs && t == Normalized(c)
  {
    var vs := NormalizedCandidates(cs);
    if IsCandidate(t, vs) {
      var v :| v in vs && v.Str? && Trim(v.str) == t;
      var i :| 0 <= i < |vs| && vs[i] == v;
      LowerKeepsTrimmed(cs[i]);
      assert cs[i] in cs && t == Normalized(cs[i]);
    }
    if exists c :: c in cs && t == Normalized(c) {
      var c :| c in cs && t == Normalized(c);
      var i :| 0 <= i < |cs| && cs[i] == c;
      LowerKeepsTrimmed(c);
      assert vs[i] in vs && vs[i].Str? && Trim(vs[i].str) == t;
    }
  }
}
