/**
 * The quiz of js/quiz-core.js without its display: the queue built from the selected items
 * and modes, the grading of an answer by question type, and the state checkAnswer updates
 * (the queue, the current index, the wait for "continue" and the score sets).
 */
module QuizCore {
  import opened Nullable
  import opened JsString
  import opened FuzzyMatch
  import opened CommonUtils
  import opened QuizCards
  import opened CrossModeValidation
  import opened UiUtils

  // ---------------------------------------------------------------------------------------
  // The queue (js/quiz-core.js:118-156)

  /** The question types of the enabled modes, in the order the queue adds them. */
  function EnabledTypes(m: QuizModes): (ts: seq<QuestionType>)
    ensures |ts| == GetQuizModeInfo(m).modesCount
  {
    (if m.kanjiToEnglish then [KanjiToEnglish] else [])
    + (if m.reading then [KanjiToReading] else [])
    + (if m.englishToKanji then [EnglishToReadingOrKanji] else [])
  }

  /** One card of `item` per question type, in order. */
  function CardsOf(item: Item, ts: seq<QuestionType>): (cs: seq<Card>)
    ensures |cs| == |ts|
    ensures forall j :: 0 <= j < |ts| ==> cs[j] == Card(item, ts[j])
  {
    seq(|ts|, j requires 0 <= j < |ts| => Card(item, ts[j]))
  }

  /** The cards of every item for every question type, item by item. */
  function Cards(items: seq<Item>, ts: seq<QuestionType>): seq<Card>
    decreases |items|
  {
    if items == [] then [] else CardsOf(items[0], ts) + Cards(items[1..], ts)
  }

  /** The queue before shuffling: if no mode added a card, one meaning question per item. */
  function QueueFor(items: seq<Item>, m: QuizModes): seq<Card> {
    var q := Cards(items, EnabledTypes(m));
    if q == [] then Cards(items, [KanjiToEnglish]) else q
  }

  lemma {:induction false} CardsAppend(a: seq<Item>, b: seq<Item>, ts: seq<QuestionType>)
    ensures Cards(a + b, ts) == Cards(a, ts) + Cards(b, ts)
    decreases |a|
  {
    if a == [] {
      assert a + b == b;
    } else {
      assert (a + b)[0] == a[0];
      assert (a + b)[1..] == a[1..] + b;
      CardsAppend(a[1..], b, ts);
    }
  }

  lemma {:induction false} CardsLength(items: seq<Item>, ts: seq<QuestionType>)
    ensures |Cards(items, ts)| == |items| * |ts|
    decreases |items|
  {
    if items != [] {
      CardsLength(items[1..], ts);
      assert |items| * |ts| == |ts| + (|items| - 1) * |ts|;
    }
  }

  /** Card `j` of item `i` sits at position `i * |ts| + j`. */
  lemma {:induction false} CardsAt(items: seq<Item>, ts: seq<QuestionType>, i: int, j: int)
    requires 0 <= i < |items| && 0 <= j < |ts|
    ensures i * |ts| + j < |Cards(items, ts)|
    ensures Cards(items, ts)[i * |ts| + j] == Card(items[i], ts[j])
    decreases i
  {
    var head := CardsOf(items[0], ts);
    var rest := Cards(items[1..], ts);
    assert Cards(items, ts) == head + rest;
    if i > 0 {
      CardsAt(items[1..], ts, i - 1, j);
      ShiftByRow(i, |ts|, j);
      assert (head + rest)[|ts| + ((i - 1) * |ts| + j)] == rest[(i - 1) * |ts| + j];
    }
  }

  lemma ShiftByRow(i: int, t: int, j: int)
    ensures i * t + j == t + ((i - 1) * t + j)
  {
  }

  /**
   * The queue holds, item by item and in mode order, one card per enabled mode, or one
   * meaning question per item when no mode is enabled; its length follows.
   */
  lemma QueueLayout(items: seq<Item>, m: QuizModes, i: int, j: int)
    requires 0 <= i < |items|
    requires var ts := if GetQuizModeInfo(m).modesCount == 0 then [KanjiToEnglish] else EnabledTypes(m);
      0 <= j < |ts|
    ensures var ts := if GetQuizModeInfo(m).modesCount == 0 then [KanjiToEnglish] else EnabledTypes(m);
      && |QueueFor(items, m)| == |items| * |ts|
      && i * |ts| + j < |QueueFor(items, m)|
      && QueueFor(items, m)[i * |ts| + j] == Card(items[i], ts[j])
  {
    var ts := if GetQuizModeInfo(m).modesCount == 0 then [KanjiToEnglish] else EnabledTypes(m);
    CardsLength(items, EnabledTypes(m));
    assert |Cards(items, EnabledTypes(m))| == |items| * |EnabledTypes(m)|;
    if GetQuizModeInfo(m).modesCount != 0 {
      assert |items| * |EnabledTypes(m)| >= |EnabledTypes(m)|;
    }
    assert QueueFor(items, m) == Cards(items, ts);
    CardsLength(items, ts);
    CardsAt(items, ts, i, j);
  }

  /** The loop of startQuiz that pushes one card per enabled mode, then the fallback. */
  method BuildQueue(items: seq<Item>, m: QuizModes) returns (queue: seq<Card>)
    ensures queue == QueueFor(items, m)
  {
    queue := [];
    var i := 0;
    while i < |items|
      invariant 0 <= i <= |items|
      invariant queue == Cards(items[..i], EnabledTypes(m))
    {
      var item := items[i];
      var added: seq<Card> := [];
      if m.kanjiToEnglish {
        added := added + [Card(item, KanjiToEnglish)];
      }
      if m.reading {
        added := added + [Card(item, KanjiToReading)];
      }
      if m.englishToKanji {
        added := added + [Card(item, EnglishToReadingOrKanji)];
      }
      assert added == CardsOf(item, EnabledTypes(m));
      queue := queue + added;
      CardsAppend(items[..i], [item], EnabledTypes(m));
      assert items[..i + 1] == items[..i] + [item];
      assert Cards([item], EnabledTypes(m)) == CardsOf(item, EnabledTypes(m)) + Cards([], EnabledTypes(m));
      i := i + 1;
    }
    assert items[..|items|] == items;
    if |queue| == 0 {
      queue := seq(|items|, k requires 0 <= k < |items| => Card(items[k], KanjiToEnglish));
      SingleTypeCards(items, KanjiToEnglish);
    }
  }

  lemma {:induction false} SingleTypeCards(items: seq<Item>, t: QuestionType)
    ensures Cards(items, [t]) == seq(|items|, k requires 0 <= k < |items| => Card(items[k], t))
    decreases |items|
  {
    if items != [] {
      SingleTypeCards(items[1..], t);
    }
  }

  // ---------------------------------------------------------------------------------------
  // Grading (js/quiz-core.js:302-333)

  datatype Grading = Grading(ok: bool, hasTypo: bool)

  /**
   * How an answer is graded: a reading question wants a reading exactly (after trimming), a
   * kanji question the kanji, the reverse question the kanji or a reading; a meaning
   * question goes through validateAnswer with fuzzy matching. Other types are never right.
   */
  function Grade(card: Card, raw: string, lib: Library): Grading {
    var answer := Trim(raw);
    match card.questionType
    case KanjiToReading => Grading(answer in card.item.readings, false)
    case KanjiToEnglish =>
      var v := Validate(raw, card.item.meanings, true, lib);
      Grading(v.isCorrect, v.hasTypo)
    case EnglishToKanji => Grading(answer == card.Kanji(), false)
    case EnglishToReadingOrKanji => Grading(answer == card.Kanji() || answer in card.item.readings, false)
    case Unknown(_) => Grading(false, false)
  }

  /** The search of the readings with its `break`. */
  method ContainsReading(readings: seq<string>, answer: string) returns (found: bool)
    ensures found <==> answer in readings
  {
    found := false;
    var i := 0;
    while i < |readings|
      invariant 0 <= i <= |readings|
      invariant answer !in readings[..i]
    {
      if answer == readings[i] {
        found := true;
        break;
      }
      i := i + 1;
    }
    assert found || readings[..i] == readings;
  }

  /** The grading branch of checkAnswer. */
  method GradeAnswer(card: Card, raw: string, lib: Library) returns (g: Grading)
    ensures g == Grade(card, raw, lib)
  {
    var answer := Trim(raw);
    var ok := false;
    var hasTypo := false;
    if card.questionType == KanjiToReading {
      ok := ContainsReading(card.item.readings, answer);
    } else if card.questionType == KanjiToEnglish {
      var validationResult := ValidateAnswer(raw, card.item.meanings, true, lib);
      ok := validationResult.isCorrect;
      hasTypo := validationResult.hasTypo;
    } else if card.questionType == EnglishToKanji {
      ok := answer == card.Kanji();
    } else if card.questionType == EnglishToReadingOrKanji {
      if answer == card.Kanji() {
        ok := true;
      } else {
        ok := ContainsReading(card.item.readings, answer);
      }
    }
    g := Grading(ok, hasTypo);
  }

  lemma TrimTwice(s: string)
    ensures Trim(Trim(s)) == Trim(s)
  {
    TrimIdentity(Trim(s));
  }

  /** Grading depends on the answer only up to surrounding white space. */
  lemma GradeTrimmed(card: Card, raw: string, lib: Library)
    ensures Grade(card, Trim(raw), lib) == Grade(card, raw, lib)
  {
    TrimTwice(raw);
    if card.questionType == KanjiToEnglish {
      assert Normalized(Trim(raw)) == Normalized(raw);
    }
  }

  /** Only a meaning question can report a typo, and only on a correct answer. */
  lemma TypoOnlyOnMeaning(card: Card, raw: string, lib: Library)
    ensures Grade(card, raw, lib).hasTypo ==> Grade(card, raw, lib).ok && card.questionType == KanjiToEnglish
  {
    if card.questionType == KanjiToEnglish {
      ValidateSound(raw, card.item.meanings, true, lib);
    }
  }

  // ---------------------------------------------------------------------------------------
  // checkAnswer (js/quiz-core.js:286-584)

  /** The globals of the quiz that checkAnswer reads and writes. */
  datatype QuizState = QuizState(
    queue: seq<Card>,
    currentIndex: int,
    awaitingContinue: bool,
    correctCount: int,
    incorrectCount: int,
    correctKanji: set<string>,
    incorrectKanji: set<string>,
    correctQuestions: set<string>,
    incorrectQuestions: set<string>,
    userInputHistory: map<string, map<OtherMode, string>>)

  /** The current index points at a card, or is 0 for an empty queue. */
  predicate ValidState(s: QuizState) {
    0 <= s.currentIndex && (s.currentIndex < |s.queue| || (s.queue == [] && s.currentIndex == 0))
  }

  /** How checkAnswer ends. */
  datatype Outcome =
    | Ignored                  // waiting for "continue", no current card, or a blank answer
    | WrongMode(hit: CrossModeHit) // right for the other mode: try again
    | Unfinished               // a reading answer still holding romaji: correct it
    | Correct
    | Incorrect

  /**
   * The verdict on a non-blank answer to `card`: graded first; a wrong answer is checked
   * against the other mode, then, for a reading question, for leftover Latin letters.
   */
  function Verdict(card: Card, raw: string, lib: Library): Outcome {
    if Grade(card, raw, lib).ok then Correct
    else
      var cross := CheckCrossModeValidation(Some(card), raw);
      if cross.Some? && cross.value.isCorrectInOtherMode then WrongMode(cross.value)
      else if card.questionType == KanjiToReading && HasAsciiLetter(raw) then Unfinished
      else Incorrect
  }

  function Classify(s: QuizState, raw: string, lib: Library): Outcome {
    if s.awaitingContinue || !(0 <= s.currentIndex < |s.queue|) || Trim(raw) == [] then Ignored
    else Verdict(s.queue[s.currentIndex], raw, lib)
  }

  /** `userInputHistory.get(kanji)[mode] = raw`, creating the entry when missing. */
  function Remember(h: map<string, map<OtherMode, string>>, kanji: string, mode: OtherMode, raw: string)
    : (r: map<string, map<OtherMode, string>>)
    ensures r.Keys == h.Keys + {kanji} && mode in r[kanji] && r[kanji][mode] == raw
    ensures forall k :: k in h && k != kanji ==> r[k] == h[k]
    ensures forall m :: kanji in h && m in h[kanji] && m != mode ==> m in r[kanji] && r[kanji][m] == h[kanji][m]
    ensures r[kanji].Keys == (if kanji in h then h[kanji].Keys else {}) + {mode}
  {
    var entry := if kanji in h then h[kanji] else map[];
    h[kanji := entry[mode := raw]]
  }

  /** The queue without its card at `i`, as `queue.splice(i, 1)`. */
  function Without(q: seq<Card>, i: int): seq<Card>
    requires 0 <= i < |q|
  {
    q[..i] + q[i + 1..]
  }

  /**
   * A correct answer: the kanji is recorded, then the question (multi-mode) or the count
   * (single mode); the card leaves the queue; an emptied queue shows the completion counts.
   */
  function AfterCorrect(s: QuizState, multi: bool): QuizState
    requires 0 <= s.currentIndex < |s.queue|
  {
    var i := s.currentIndex;
    var card := s.queue[i];
    var id := QuestionId(card);
    var q := Without(s.queue, i);
    var t := s.(
      queue := q,
      currentIndex := if i >= |q| then 0 else i,
      correctKanji := s.correctKanji + {card.Kanji()},
      correctQuestions := if multi && id !in s.incorrectQuestions then s.correctQuestions + {id} else s.correctQuestions,
      correctCount := if !multi && card.Kanji() !in s.incorrectKanji then s.correctCount + 1 else s.correctCount);
    if q == [] then
      var c := CompletionCounts(multi, t.correctCount, t.correctQuestions, t.incorrectQuestions, t.incorrectKanji);
      t.(correctCount := c.correctCount, incorrectCount := c.incorrectCount)
    else t
  }

  /** A wrong answer: the kanji (and in multi-mode the question) is recorded as wrong and the
   *  card goes to the end of the queue until "continue". */
  function AfterIncorrect(s: QuizState, multi: bool): QuizState
    requires 0 <= s.currentIndex < |s.queue|
  {
    var i := s.currentIndex;
    var card := s.queue[i];
    var q := Without(s.queue, i) + [card];
    s.(
      queue := q,
      currentIndex := if i >= |q| then 0 else i,
      awaitingContinue := true,
      incorrectKanji := s.incorrectKanji + {card.Kanji()},
      incorrectQuestions := if multi then s.incorrectQuestions + {QuestionId(card)} else s.incorrectQuestions)
  }

  /** The state after checkAnswer. */
  function AfterAnswer(s: QuizState, modes: QuizModes, raw: string, lib: Library): QuizState {
    var multi := GetQuizModeInfo(modes).isMultiMode;
    match Classify(s, raw, lib)
    case Correct => AfterCorrect(s, multi)
    case Incorrect => AfterIncorrect(s, multi)
    case WrongMode(hit) =>
      s.(userInputHistory := Remember(s.userInputHistory, s.queue[s.currentIndex].Kanji(), hit.otherMode, raw))
    case _ => s
  }

  lemma SpliceMultiset(q: seq<Card>, i: int)
    requires 0 <= i < |q|
    ensures multiset(Without(q, i)) + multiset{q[i]} == multiset(q)
  {
    assert q == q[..i] + [q[i]] + q[i + 1..];
  }

  /** checkAnswer keeps the current index on a card, or at 0 once the queue is empty. */
  lemma AnswerKeepsValid(s: QuizState, modes: QuizModes, raw: string, lib: Library)
    requires ValidState(s)
    ensures ValidState(AfterAnswer(s, modes, raw, lib))
  {
  }

  /**
   * An ignored answer and leftover romaji change nothing; a wrong-mode answer only records
   * the input under the kanji and the other mode.
   */
  lemma NoChangeUnlessGraded(s: QuizState, modes: QuizModes, raw: string, lib: Library)
    requires !Classify(s, raw, lib).Correct? && !Classify(s, raw, lib).Incorrect?
    ensures var t := AfterAnswer(s, modes, raw, lib);
      && t.(userInputHistory := s.userInputHistory) == s
      && (Classify(s, raw, lib).WrongMode? ==>
            var k := s.queue[s.currentIndex].Kanji();
            k in t.userInputHistory && t.userInputHistory[k][Classify(s, raw, lib).hit.otherMode] == raw)
      && (!Classify(s, raw, lib).WrongMode? ==> t == s)
  {
  }

  /** A wrong-mode outcome only happens for a wrong answer to a meaning or a reading question. */
  lemma WrongModeShape(card: Card, raw: string, lib: Library)
    requires Verdict(card, raw, lib).WrongMode?
    ensures !Grade(card, raw, lib).ok
    ensures card.questionType == KanjiToEnglish || card.questionType == KanjiToReading
    ensures Verdict(card, raw, lib).hit.correctAnswer in card.item.readings + card.item.meanings
  {
  }

  /**
   * A correct answer removes the current card: the queue loses exactly that card, the index
   * stays unless it fell off the end, no wait starts, and an emptied queue carries the
   * completion counts.
   */
  lemma CorrectRemovesCard(s: QuizState, modes: QuizModes, raw: string, lib: Library)
    requires Classify(s, raw, lib) == Correct
    ensures var t := AfterAnswer(s, modes, raw, lib);
      && |t.queue| == |s.queue| - 1
      && multiset(t.queue) + multiset{s.queue[s.currentIndex]} == multiset(s.queue)
      && t.queue == s.queue[..s.currentIndex] + s.queue[s.currentIndex + 1..]
      && t.currentIndex == (if s.currentIndex < |t.queue| then s.currentIndex else 0)
      && !t.awaitingContinue
      && s.queue[s.currentIndex].Kanji() in t.correctKanji
      && (t.queue == [] && GetQuizModeInfo(modes).isMultiMode ==>
            t.correctCount == |t.correctQuestions| && t.incorrectCount == |t.incorrectQuestions|)
      && (t.queue == [] && !GetQuizModeInfo(modes).isMultiMode ==> t.incorrectCount == |t.incorrectKanji|)
      && (t.queue != [] ==> t.incorrectCount == s.incorrectCount)
  {
    SpliceMultiset(s.queue, s.currentIndex);
  }

  /**
   * A wrong answer moves the current card to the end: the queue keeps its cards, the index
   * stays in range, and the quiz waits for "continue".
   */
  lemma IncorrectMovesCardToEnd(s: QuizState, modes: QuizModes, raw: string, lib: Library)
    requires Classify(s, raw, lib) == Incorrect
    ensures var t := AfterAnswer(s, modes, raw, lib);
      && |t.queue| == |s.queue|
      && multiset(t.queue) == multiset(s.queue)
      && t.queue[|t.queue| - 1] == s.queue[s.currentIndex]
      && t.currentIndex == s.currentIndex < |t.queue|
      && t.awaitingContinue
      && s.queue[s.currentIndex].Kanji() in t.incorrectKanji
      && (GetQuizModeInfo(modes).isMultiMode ==> QuestionId(s.queue[s.currentIndex]) in t.incorrectQuestions)
  {
    SpliceMultiset(s.queue, s.currentIndex);
  }

  /**
   * Score tracking: the sets only grow (once wrong, always wrong); a question becomes correct
   * only in multi-mode and only if it was never wrong; the single-mode count grows by one at
   * most, and only for a kanji never answered wrongly, until the completion screen.
   */
  lemma ScoreTracking(s: QuizState, modes: QuizModes, raw: string, lib: Library)
    ensures var t := AfterAnswer(s, modes, raw, lib);
      && s.incorrectQuestions <= t.incorrectQuestions
      && s.incorrectKanji <= t.incorrectKanji
      && s.correctQuestions <= t.correctQuestions
      && s.correctKanji <= t.correctKanji
      && (forall id :: id in t.correctQuestions && id !in s.correctQuestions ==>
            id !in s.incorrectQuestions && GetQuizModeInfo(modes).isMultiMode)
      && (t.queue != [] ==> t.correctCount == s.correctCount || t.correctCount == s.correctCount + 1)
      && (t.queue != [] && t.correctCount != s.correctCount ==>
            !GetQuizModeInfo(modes).isMultiMode && s.queue[s.currentIndex].Kanji() !in s.incorrectKanji)
  {
  }

  /** checkAnswer never adds a card: the queue only loses or reorders its cards. */
  lemma QueueOnlyShrinks(s: QuizState, modes: QuizModes, raw: string, lib: Library)
    ensures multiset(AfterAnswer(s, modes, raw, lib).queue) <= multiset(s.queue)
  {
    match Classify(s, raw, lib)
    case Correct => SpliceMultiset(s.queue, s.currentIndex);
    case Incorrect => SpliceMultiset(s.queue, s.currentIndex);
    case _ =>
  }

  /** The verdict branch of checkAnswer: grading, the other mode, then leftover romaji. */
  method JudgeAnswer(card: Card, raw: string, lib: Library) returns (outcome: Outcome)
    ensures outcome == Verdict(card, raw, lib)
  {
    var g := GradeAnswer(card, raw, lib);
    if !g.ok {
      var crossModeCheck := CheckCrossModeValidation(Some(card), raw);
      if crossModeCheck.Some? && crossModeCheck.value.isCorrectInOtherMode {
        return WrongMode(crossModeCheck.value);
      }
    }
    if card.questionType == KanjiToReading && !g.ok {
      if HasAsciiLetter(raw) {
        return Unfinished;
      }
    }
    outcome := if g.ok then Correct else Incorrect;
  }

  // ---------------------------------------------------------------------------------------
  // The quiz's globals

  class Quiz {
    var queue: seq<Card>
    var currentIndex: int
    var modes: QuizModes
    var awaitingContinue: bool
    var correctCount: int
    var incorrectCount: int
    var originalQueueLength: int
    var correctKanji: set<string>
    var incorrectKanji: set<string>
    var allKanjiData: seq<Item>
    var userInputHistory: map<string, map<OtherMode, string>>
    var correctQuestions: set<string>
    var incorrectQuestions: set<string>

    function State(): QuizState
      reads this
    {
      QuizState(queue, currentIndex, awaitingContinue, correctCount, incorrectCount, correctKanji,
                incorrectKanji, correctQuestions, incorrectQuestions, userInputHistory)
    }

    /** The globals hold `s`, field by field. */
    predicate Is(s: QuizState)
      reads this
    {
      && queue == s.queue && currentIndex == s.currentIndex && awaitingContinue == s.awaitingContinue
      && correctCount == s.correctCount && incorrectCount == s.incorrectCount
      && correctKanji == s.correctKanji && incorrectKanji == s.incorrectKanji
      && correctQuestions == s.correctQuestions && incorrectQuestions == s.incorrectQuestions
      && userInputHistory == s.userInputHistory
    }

    /** The initial values of the globals (js/quiz-core.js:20-41). */
    constructor ()
      ensures State() == QuizState([], 0, false, 0, 0, {}, {}, {}, {}, map[])
      ensures modes == QuizModes(true, false, false)
      ensures originalQueueLength == 0 && allKanjiData == []
    {
      queue := [];
      currentIndex := 0;
      modes := QuizModes(true, false, false);
      awaitingContinue := false;
      correctCount := 0;
      incorrectCount := 0;
      originalQueueLength := 0;
      correctKanji := {};
      incorrectKanji := {};
      allKanjiData := [];
      userInputHistory := map[];
      correctQuestions := {};
      incorrectQuestions := {};
    }

    /** The resets at the start of startQuiz (js/quiz-core.js:83-95). */
    method ResetScores(items: seq<Item>)
      modifies this
      ensures currentIndex == 0 && correctCount == 0 && incorrectCount == 0
      ensures correctKanji == {} && incorrectKanji == {} && correctQuestions == {} && incorrectQuestions == {}
      ensures allKanjiData == items
      ensures queue == old(queue) && awaitingContinue == old(awaitingContinue) && modes == old(modes)
      ensures userInputHistory == old(userInputHistory) && originalQueueLength == old(originalQueueLength)
    {
      allKanjiData := items;
      currentIndex := 0;
      correctCount := 0;
      incorrectCount := 0;
      correctKanji := {};
      incorrectKanji := {};
      correctQuestions := {};
      incorrectQuestions := {};
    }

    /**
     * startQuiz without its display and prefetch: the scores are reset, and the queue is a
     * shuffle of the cards of the selected modes (js/quiz-core.js:82-156, 193).
     */
    method StartQuiz(items: seq<Item>, toggles: QuizModes)
      modifies this
      ensures currentIndex == 0 && !awaitingContinue && correctCount == 0 && incorrectCount == 0
      ensures correctKanji == {} && incorrectKanji == {} && correctQuestions == {} && incorrectQuestions == {}
      ensures userInputHistory == old(userInputHistory)
      ensures multiset(queue) == multiset(QueueFor(items, toggles))
      ensures originalQueueLength == |queue|
      ensures modes == toggles && allKanjiData == items
      ensures ValidState(State())
    {
      ResetScores(items);
      modes := toggles;
      var shuffled := ShuffledQueue(items, toggles);
      queue := shuffled;
      originalQueueLength := |shuffled|;
      awaitingContinue := false;
    }

    /** The state part of showCard: the wait for "continue" ends (js/quiz-core.js:193). */
    method ShowCard()
      modifies this
      ensures State() == old(State()).(awaitingContinue := false)
      ensures modes == old(modes) && originalQueueLength == old(originalQueueLength)
      ensures allKanjiData == old(allKanjiData)
    {
      awaitingContinue := false;
    }

    /** The counts showCompletionScreen sets, given `getQuizModeInfo().isMultiMode` (js/ui-utils.js:98-115). */
    method ShowCompletionScreen(isMultiMode: bool)
      modifies this
      ensures var c := CompletionCounts(isMultiMode, old(correctCount), correctQuestions, incorrectQuestions, incorrectKanji);
        Is(old(State()).(correctCount := c.correctCount, incorrectCount := c.incorrectCount))
      ensures modes == old(modes) && originalQueueLength == old(originalQueueLength)
      ensures allKanjiData == old(allKanjiData)
    {
      if isMultiMode {
        correctCount := |correctQuestions|;
        incorrectCount := |incorrectQuestions|;
      } else {
        incorrectCount := |incorrectKanji|;
      }
    }

    /** The correct-answer branch of checkAnswer (js/quiz-core.js:402-442). */
    method RecordCorrect(multi: bool)
      requires 0 <= currentIndex < |queue|
      modifies this
      ensures Is(AfterCorrect(old(State()), multi))
      ensures modes == old(modes) && originalQueueLength == old(originalQueueLength)
      ensures allKanjiData == old(allKanjiData)
    {
      var card := queue[currentIndex];
      correctKanji := correctKanji + {card.Kanji()};
      if multi {
        var questionId := QuestionId(card);
        if questionId !in incorrectQuestions {
          correctQuestions := correctQuestions + {questionId};
        }
      } else if card.Kanji() !in incorrectKanji {
        correctCount := correctCount + 1;
      }
      queue := queue[..currentIndex] + queue[currentIndex + 1..];
      currentIndex := if currentIndex >= |queue| then 0 else currentIndex;
      if |queue| == 0 {
        ShowCompletionScreen(multi);
      }
    }

    /** The wrong-answer branch of checkAnswer (js/quiz-core.js:443-583). */
    method RecordIncorrect(multi: bool)
      requires 0 <= currentIndex < |queue|
      modifies this
      ensures Is(AfterIncorrect(old(State()), multi))
      ensures modes == old(modes) && originalQueueLength == old(originalQueueLength)
      ensures allKanjiData == old(allKanjiData)
    {
      var card := queue[currentIndex];
      incorrectKanji := incorrectKanji + {card.Kanji()};
      if multi {
        incorrectQuestions := incorrectQuestions + {QuestionId(card)};
      }
      queue := queue[..currentIndex] + queue[currentIndex + 1..] + [card];
      currentIndex := if currentIndex >= |queue| then 0 else currentIndex;
      awaitingContinue := true;
    }

    /** checkAnswer without its display: the guards, the verdict, then the state updates. */
    method CheckAnswer(raw: string, lib: Library)
      modifies this
      ensures Is(AfterAnswer(old(State()), modes, raw, lib))
      ensures modes == old(modes) && originalQueueLength == old(originalQueueLength)
      ensures allKanjiData == old(allKanjiData)
    {
      if awaitingContinue {
        return;
      }
      if !(0 <= currentIndex < |queue|) {
        return;
      }
      var card := queue[currentIndex];
      if |Trim(raw)| == 0 {
        return;
      }
      var outcome := JudgeAnswer(card, raw, lib);
      assert outcome == Classify(State(), raw, lib);
      var info := GetQuizModeInfo(modes);
      match outcome {
        case WrongMode(hit) =>
          userInputHistory := Remember(userInputHistory, card.Kanji(), hit.otherMode, raw);
        case Correct =>
          RecordCorrect(info.isMultiMode);
        case Incorrect =>
          RecordIncorrect(info.isMultiMode);
        case _ =>
      }
    }
  }

  /** `shuffle(queue)` of the built queue, through an array copy. */
  method ShuffledQueue(items: seq<Item>, m: QuizModes) returns (queue: seq<Card>)
    ensures multiset(queue) == multiset(QueueFor(items, m))
  {
    var built := BuildQueue(items, m);
    var cards := new Card[|built|](k requires 0 <= k < |built| => built[k]);
    assert cards[..] == built;
    var shuffled := ShuffleArray(cards);
    queue := shuffled[..];
  }
}
