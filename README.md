# WaniKanji quiz core in Dafny

A model of the logic at the heart of WaniKanji, a browser flashcard app for WaniKani kanji.
The model covers:

- the romaji ⇄ hiragana transliterator;
- the answer-grading pipeline: exact and fuzzy matching of meanings, and the "right answer
  for the other mode" check;
- the quiz queue and the updates `checkAnswer` makes to it and to the score sets;
- lesson navigation and learn-mode batching;
- the small pure helpers: SRS stage names and colours, the progress bar, HTML escaping,
  question-id decoding, completion counts and the kanji filters.

Each core JavaScript file becomes one module:

| module | file |
|---|---|
| `RomanjiConverter` | `js/romanji-converter.js` |
| `FuzzyMatch` | `js/fuzzy-match.js` |
| `CommonUtils` | `js/common-utils.js` |
| `CrossModeValidation` | `js/cross-mode-validation.js` |
| `QuizCore` | `js/quiz-core.js` |
| `UiUtils` | `js/ui-utils.js` |
| `LearnKanjiCore` | `js/learn-kanji-core.js` |
| `LessonCore` | `js/lesson-core.js` |
| `SetupUi` | `js/setup-ui.js` |
| `SrsUtils` | `js/srs-utils.js` |

Shared modules:

- `Nullable`: `null`/`undefined` as `Option`, and a JavaScript value that may not be a string.
- `JsString`: the string builtins the code relies on: `trim`, `toLowerCase`, global
  `replace`, `split`/`join`, `includes`, `String(n)`.
- `QuizCards`: cards, question ids and `normalize`.
- `RewriteRules`: conversion tables as ordered rule lists, with lookup, the stable
  longest-key-first sort and the replace pass.
- `RomanjiTables`: the two tables of `js/romanji-converter.js`, written row for row.
- `RomanjiExamples`: concrete conversions.

The model takes the form of the code:

- Pure code (`getSimpleStageName`, `checkCrossModeValidation`, `normalize`, `escapeHtml`)
  becomes functions with lemmas.
- Loops become methods with invariants, each proved equal to a specification function:
  - the replace loops of the transliterator;
  - the scoring loop of `findBestFuzzyMatch`;
  - the exact-match loop of `validateAnswer`;
  - the queue construction of `startQuiz`;
  - the id collection of `prefetchAllRelatedSubjects`;
  - `generateProgressBar`.
- The swap loop of `shuffleArray` picks its swap index at random, so it equals no function.
  It is proved to return a fresh array that is a permutation of the input, leaving the input
  unchanged.
- Globals that the code updates in place become classes whose methods modify their fields:
  - `QuizCore.Quiz` for the quiz globals;
  - `LearnKanjiCore.LearnMode` for learn mode;
  - `LessonCore.Lessons` for lessons.
- `checkAnswer` is specified by the function `QuizCore.AfterAnswer` on a `QuizState` value.
  The lemmas about the quiz are stated on that function.

Where the code and its description disagree, the model follows the code. The lemmas show
what the code does:

- "konnichiwa" becomes こんいちわ, not こんにちわ. The `nn` → ん rule runs before every other
  rule (`RomanjiExamples.ToHiraganaDoubleNBeforeVowel` shows "nna" → んあ).
- Kana → romaji → kana does not round-trip for っ. It romanizes to "tsu", which converts back
  to つ (`RomanjiExamples.SmallTsuDoesNotRoundTrip`).
- In `findBestFuzzyMatch`, a case-insensitive exact match is returned with similarity 100
  without its own score being compared with the threshold, provided no earlier candidate threw
  or scored 100 (`FuzzyMatch.ExactMatchWins`). Earlier candidates are still scored and checked
  against the threshold first.
- `checkAnswer` grades `english-to-kanji` cards, but `startQuiz` never queues one.
- `"n\t"` becomes `"ん "`: the `n\s` rule writes a space in place of the matched white-space
  character (`RomanjiExamples.ToHiraganaNBeforeTab`).

Some string constants (the stage words in `SetupUi`, the colour classes) are written as
concatenations of short pieces. Each piece is equal to the source's literal. The split only
lets the verifier reason about the characters of the word.

## Model

| member | source | states |
|---|---|---|
| RomanjiConverter.ConvertRomanjiToHiragana | js/romanji-converter.js:273-369 | The method's result equals the specification `ToHiragana`. `ToHiragana` is: lower-case; `nn` → ん; the palatal replaces; the small-tsu rule; the longest-key-first pass over the table without `n`, applying only keys present; then the two `n` rules. |
| RomanjiConverter.ReplacePresentKeys | js/romanji-converter.js:356-360 | The loop that replaces a key only when the text includes it gives the same text as replacing every key in turn. |
| RomanjiConverter.HiraganaToRomanji | js/romanji-converter.js:113-126 | The method's result equals `ToRomanji`: every key of the kana table, longest first, replaced globally by its romaji. |
| RomanjiConverter.ReplaceEachKey | js/romanji-converter.js:118-124 | The `for` loop of global replaces equals the rule pass `ApplyRules` over the same keys. |
| RomanjiConverter.ToHiraganaIgnoresCase | js/romanji-converter.js:274 | Converting a string gives the same result as converting its lower-case form ("SHA" and "sha" agree). |
| RomanjiConverter.ToHiraganaKeepsNonLatin | js/romanji-converter.js:276-366 | Text without ASCII letters, such as kana-only input, is returned unchanged. |
| RomanjiConverter.CollapseLeavesNoDoubleN | js/romanji-converter.js:277 | After the `nn` → ん rule no `nn` is left, so no later rule can see a doubled `n`. |
| RomanjiConverter.SmallTsuKeepsDoubleN | js/romanji-converter.js:336-342 | The small-tsu rule keeps a doubled `n` as it is and never writes っ for it. |
| RomanjiConverter.SmallTsuDoubledConsonant | js/romanji-converter.js:336-342 | A doubled consonant other than `n` becomes っ followed by the consonant. No single consonant is a table key, so the consonant stays a Latin letter for the table pass to complete. |
| RomanjiConverter.SmallTsuSkipsVowel | js/romanji-converter.js:336 | A vowel never starts a geminate: the rule moves past it unchanged. |
| RomanjiConverter.ToHiraganaKey | js/romanji-converter.js:130-271 | Every table key other than `n` that no palatal rewrite applies to and that has no doubled consonant converts to the kana the table gives it. That covers the keys without `y` or `h`, the keys shorter than three letters (ha, ya, ...), and the three-letter keys that are no palatal key (shi, chi). |
| RomanjiConverter.ToHiraganaPalatal | js/romanji-converter.js:280-333 | Every palatal digraph (`kya` … `ryo`, `sha`, `cha`, `jya`) converts whole to its two-kana spelling, ahead of any shorter rule. |
| RomanjiConverter.VowelFreeStages | js/romanji-converter.js:344-366 | Lower-case text with no vowel, no `y` or `h` and no doubled consonant passes every stage before the two `n` rules unchanged; only those rules can touch its `n`. |
| RomanjiConverter.TablePassKeepsVowelFree | js/romanji-converter.js:344-360 | Every key of the table without `n` holds a vowel, so vowel-free text passes the table unchanged; a lone `n` is never converted by the table. |
| RomanjiConverter.TrailingNBeforeConsonant | js/romanji-converter.js:365 | An `n` at the very end is left alone by the `n`-before-consonant rule. |
| RomanjiConverter.TrailingNBeforeWhitespace | js/romanji-converter.js:366 | An `n` at the very end is left alone by the `n`-before-space rule. |
| RomanjiConverter.ToRomanjiToken | js/romanji-converter.js:4-124 | Every key of the kana table romanizes to its table value. Two-kana keys go first, so きゃ gives "kya", not "kiゃ". |
| RomanjiConverter.ToRomanjiKeepsNonKana | js/romanji-converter.js:113-124 | Text with no hiragana at all passes through romanization unchanged. |
| RomanjiConverter.ToRomanjiKeepsCharacter | js/romanji-converter.js:113-124 | A character that no key of the kana table contains (a space, a digit, a letter, or a kana outside the table such as ゐ) is copied where it stands, and the text on either side of it is romanized separately: no key matches across it. |
| RomanjiConverter.ToRomanjiKeepsSuffix | js/romanji-converter.js:113-124 | Text without hiragana after kana is kept as it is, with the kana before it romanized. |
| RomanjiConverter.ToRomanjiKeepsPrefix | js/romanji-converter.js:113-124 | Text without hiragana before kana is kept as it is, with the kana after it romanized. |
| RomanjiConverter.WithoutNTransliterates | js/romanji-converter.js:346-347 | The table without `n` still maps Latin words to kana words, and each of its keys holds a vowel. |
| RomanjiTables.KanaTableTransliterates | js/romanji-converter.js:5-111 | Every row of the kana table maps a hiragana word to a Latin word. |
| RomanjiTables.PalatalLookup | js/romanji-converter.js:280-333 | Every palatal key is three Latin letters with `y` or `h` in the middle, and its value is written without Latin letters. |
| RewriteRules.SortByKeyLength | js/romanji-converter.js:351-353 | The sorted keys are a permutation of the table, longest first, with keys of equal length in table order: a stable sort. |
| RewriteRules.TokenPass | js/romanji-converter.js:356-360 | The longest-first pass over a transliterating table turns any single key into its value. |
| RewriteRules.SortedPassAbsent | js/romanji-converter.js:356-360 | The pass leaves text unchanged when no key occurs in it. |
| RewriteRules.LookupWithoutKey | js/romanji-converter.js:346-347 | Deleting `n` from the copy of the table changes the lookup of no other key. |
| RewriteRules.ApplyRulesSkipsForeign | js/romanji-converter.js:356-360 | Rules whose keys are written in a script that the text avoids leave the text unchanged. |
| RomanjiExamples.ToHiraganaSha | js/romanji-converter.js:296 | "sha" → しゃ. |
| RomanjiExamples.ToHiraganaKyo | js/romanji-converter.js:288 | "kyo" → きょ. |
| RomanjiExamples.ToHiraganaJya | js/romanji-converter.js:281 | "jya" → じゃ. |
| RomanjiExamples.ToHiraganaCapitals | js/romanji-converter.js:274 | "SHA" → しゃ, because the input is lower-cased first. |
| RomanjiExamples.ToHiraganaTsu | js/romanji-converter.js:181 | "tsu" → つ. |
| RomanjiExamples.ToHiraganaYa | js/romanji-converter.js:240 | "ya" → や: too short for a palatal rewrite, so it goes to the table. |
| RomanjiExamples.ToHiraganaShi | js/romanji-converter.js:160 | "shi" → し: it has an `h` but is no palatal key, so it goes to the table. |
| RomanjiExamples.ToHiraganaNa | js/romanji-converter.js:362-366 | "na" → な: `n` followed by a vowel is handled by the table. |
| RomanjiExamples.ToHiraganaDoubleNBeforeVowel | js/romanji-converter.js:277 | "nna" → んあ, so "konnichiwa" loses its に. |
| RomanjiExamples.ToHiraganaDoubledConsonant | js/romanji-converter.js:336-342 | "kka" → っか. |
| RomanjiExamples.ToHiraganaTrailingN | js/romanji-converter.js:362-366 | A lone trailing "n" stays "n" while the user may still type a vowel. |
| RomanjiExamples.ToHiraganaNBeforeConsonant | js/romanji-converter.js:365 | "nb" → んb. |
| RomanjiExamples.ToHiraganaNBeforeTab | js/romanji-converter.js:366 | "n\t" → "ん ": any white space after `n` becomes a plain space. |
| RomanjiExamples.ToHiraganaStrayConsonant | js/romanji-converter.js:336-360 | A letter that is not in the table ("q", "l") is kept, not removed. |
| RomanjiExamples.ToRomanjiKya | js/romanji-converter.js:83 | きゃ → "kya". |
| RomanjiExamples.ToRomanjiSmallTsu | js/romanji-converter.js:110 | っ → "tsu". |
| RomanjiExamples.ToRomanjiMixed | js/romanji-converter.js:11 | "かq" → "kaq": a letter after kana is kept. |
| RomanjiExamples.KanaTableLacksWi | js/romanji-converter.js:5-111 | No key of the kana table contains the obsolete kana ゐ. |
| RomanjiExamples.ToRomanjiUnmappedKana | js/romanji-converter.js:113-124 | "かゐ" → "kaゐ": a kana outside the table is kept. |
| RomanjiExamples.SmallTsuDoesNotRoundTrip | js/romanji-converter.js:110 | っ → "tsu" → つ, which differs from っ (js/romanji-converter.js:181): kana do not round-trip. |
| FuzzyMatch.FindBestFuzzyMatch | js/fuzzy-match.js:11-162 | The method, with its loop, `continue`, `break`, early returns and exception fallback, returns `BestFuzzyMatch`: the default result on degenerate input; else exact-only matching when the library is missing or throws; else the scoring loop. |
| FuzzyMatch.ExactMatchOnly | js/fuzzy-match.js:57-77 | The fallback loop returns the case-insensitive exact match on the trimmed candidates, skipping non-strings. |
| FuzzyMatch.DegenerateInputs | js/fuzzy-match.js:13-49 | A non-string answer, a blank answer, a non-array or an empty list of candidates all give the default result. |
| FuzzyMatch.ExactMatchIsFirst | js/fuzzy-match.js:62-76 | The fallback matches exactly when some candidate equals the answer ignoring case; otherwise it gives the default result. |
| FuzzyMatch.ExactMatchAtFirst | js/fuzzy-match.js:62-71 | The fallback returns the first such candidate, trimmed, with similarity 100 and no typo. |
| FuzzyMatch.ExactMatchWins | js/fuzzy-match.js:101-109 | With the library present, the first case-insensitive exact candidate (no earlier one throwing or scoring 100) is returned at once, with similarity 100 and no typo. |
| FuzzyMatch.BestFuzzyMatchSound | js/fuzzy-match.js:84-121 | Every result is the default or a match on a trimmed candidate. A typo is reported exactly when similarity is below 100. A fuzzy match reaches the threshold; only an exact match may not. |
| FuzzyMatch.BestFuzzyMatchIsFirstBest | js/fuzzy-match.js:79-127 | When no candidate matches exactly and none throws, the result is the first candidate with the highest score, provided that score reaches the threshold and is positive; ties keep the earlier candidate; a 100 ends the loop. |
| FuzzyMatch.MaxScore | js/fuzzy-match.js:113-121 | The highest score is at least every candidate's score and is reached by one of them. |
| CommonUtils.ShuffleArray | js/common-utils.js:9-16 | The result is a new array of the same length and is a permutation of the input. The input is unchanged. |
| CommonUtils.GetQuizModeInfo | js/common-utils.js:22-31 | `modesCount` lies in 0..3: 0 exactly when no mode is on, 3 exactly when all are. `isMultiMode` holds exactly when `modesCount > 1`, that is, when at least two modes are on. |
| CommonUtils.ValidateAnswer | js/common-utils.js:55-94 | The method's two loops give `Validate`: first the exact normalized match, then, if fuzzy matching is on, the fuzzy stage at threshold 80. |
| CommonUtils.ValidateExact | js/common-utils.js:58-67 | The first candidate whose trimmed, lower-cased form equals the trimmed, lower-cased answer is returned as given: correct, no typo. |
| CommonUtils.ValidateWithoutFuzzy | js/common-utils.js:69-93 | With fuzzy matching off, the answer is correct exactly when some candidate matches exactly; otherwise the result is `{false, false, null}`. |
| CommonUtils.ValidateSound | js/common-utils.js:55-94 | A typo implies a correct answer. A wrong answer has no matched answer. A correct answer was matched to a candidate, or to a normalized candidate. |
| CommonUtils.FuzzyCandidateIsNormalized | js/common-utils.js:70-77 | The fuzzy stage chooses among exactly the normalized candidates: a text is one of its candidates iff it is the trimmed, lower-cased form of a candidate as given. |
| CrossModeValidation.CheckCrossModeValidation | js/cross-mode-validation.js:4-67 | A hit needs a card and a non-blank answer and is always `isCorrectInOtherMode`. A reading hit comes from a meaning question and is one of its readings; a meaning hit comes from a reading question and is one of its meanings. |
| CrossModeValidation.NoCardOrBlank | js/cross-mode-validation.js:5-7 | A missing card or a blank answer gives `null`. |
| CrossModeValidation.ReadingForMeaningQuestion | js/cross-mode-validation.js:12-32 | On a meaning question the hit is the first reading whose normal form is that of the answer or of its hiragana conversion. |
| CrossModeValidation.MeaningForReadingQuestion | js/cross-mode-validation.js:34-61 | On a reading question the hit is the first meaning whose normal form is that of the answer, or, for a mixed letters-and-hiragana answer, that of its romaji reading. |
| CrossModeValidation.NoHit | js/cross-mode-validation.js:12-66 | Without a matching reading or meaning, the result is `null`. |
| CrossModeValidation.UnmixedComparesAsTyped | js/cross-mode-validation.js:46-49 | An answer that does not mix ASCII letters and hiragana is compared only as typed. |
| CrossModeValidation.OtherQuestionTypes | js/cross-mode-validation.js:64-66 | Every other question type gives `null`. |
| CrossModeValidation.FirstNormalizedInNone | js/cross-mode-validation.js:16-43 | The search fails exactly when no element normalizes to a target. |
| QuizCards.NormalizeIsNormal | js/quiz-core.js:43-45 | `normalize` maps null to "". Its output has no white space at either end, single spaces between words, and no upper-case letter. |
| QuizCards.NormalizeIdempotent | js/quiz-core.js:43-45 | Normalizing twice is normalizing once. |
| QuizCards.NormalizeNormal | js/quiz-core.js:43-45 | Text already in normal form is left unchanged. |
| QuizCore.BuildQueue | js/quiz-core.js:118-156 | The loop builds `QueueFor`: one card per item per enabled mode, or one meaning question per item when no mode is on. |
| QuizCore.QueueLayout | js/quiz-core.js:118-156 | Card `j` of item `i` sits at `i * m + j`, in item order and then mode order (meaning, reading, meaning → reading). The queue holds `items × m` cards, where `m` is the number of enabled modes, or 1 when none is. |
| QuizCore.EnabledTypes | js/quiz-core.js:121-145 | One question type per enabled mode: as many as `getQuizModeInfo` counts. |
| QuizCore.ShuffledQueue | js/quiz-core.js:48-50 | The shuffled queue is a permutation of the built queue. |
| QuizCore.Quiz.StartQuiz | js/quiz-core.js:82-184 | The scores and sets are reset. The queue is a permutation of `QueueFor` for the items and modes. `originalQueueLength` is its length. The index is 0 and no wait is pending. |
| QuizCore.GradeAnswer | js/quiz-core.js:299-333 | The grading branch equals `Grade`. A reading question needs a reading, exactly after trimming. A meaning question goes through `validateAnswer` with fuzzy matching. A kanji question needs the kanji. The reverse question takes the kanji or a reading. |
| QuizCore.ContainsReading | js/quiz-core.js:304-309 | The search of the readings, with its `break`, finds the answer exactly when the answer is a reading. |
| QuizCore.GradeTrimmed | js/quiz-core.js:299-333 | Grading ignores white space around the answer. |
| QuizCore.TypoOnlyOnMeaning | js/quiz-core.js:310-316 | Only a correct answer to a meaning question can report a typo. |
| QuizCore.JudgeAnswer | js/quiz-core.js:299-400 | The verdict equals `Verdict`: graded first. A wrong answer that is right in the other mode asks for another try. A reading answer still holding Latin letters asks for a correction. Anything else is wrong. |
| QuizCore.WrongModeShape | js/quiz-core.js:335-397 | A wrong-mode verdict comes only from a wrong answer to a meaning or reading question. It names one of the card's readings or meanings. |
| QuizCore.Quiz.CheckAnswer | js/quiz-core.js:286-584 | The new globals are `AfterAnswer` of the old ones: no change when waiting, without a card or on a blank answer; the input recorded on a wrong-mode answer; the correct or the incorrect update otherwise. |
| QuizCore.NoChangeUnlessGraded | js/quiz-core.js:287-400 | An ignored answer and leftover romaji change nothing. A wrong-mode answer only records the input under that kanji and mode. |
| QuizCore.CorrectRemovesCard | js/quiz-core.js:402-442 | A correct answer removes exactly the current card. The index stays unless it fell off the end, then it becomes 0. The kanji is recorded. An emptied queue carries the completion counts. |
| QuizCore.IncorrectMovesCardToEnd | js/quiz-core.js:443-583 | A wrong answer moves the current card to the end: same length, same multiset, index kept in range. The quiz waits for "continue". The kanji, and in multi-mode the question, are recorded as wrong. |
| QuizCore.ScoreTracking | js/quiz-core.js:410-456 | The four sets only grow. A question newly counted correct is multi-mode and was never wrong. The single-mode count grows by at most one, and only for a kanji never answered wrongly. |
| QuizCore.QueueOnlyShrinks | js/quiz-core.js:286-584 | No answer ever adds a card to the queue. |
| QuizCore.AnswerKeepsValid | js/quiz-core.js:434-437 | The index keeps pointing at a card, or is 0 once the queue is empty, after both the removal and the move to the end (js/quiz-core.js:573-578). |
| QuizCore.Remember | js/quiz-core.js:352-357 | Recording an input sets the entry for that kanji and mode and keeps every other entry. The kanji's entry holds exactly its old modes plus this one, so a kanji seen for the first time gets an entry holding only this mode. |
| QuizCore.Quiz.RecordCorrect | js/quiz-core.js:402-442 | The globals become `AfterCorrect` of the old ones. |
| QuizCore.Quiz.RecordIncorrect | js/quiz-core.js:443-583 | The globals become `AfterIncorrect` of the old ones. |
| QuizCore.Quiz.ShowCard | js/quiz-core.js:192-193 | Showing a card ends the wait for "continue" and changes nothing else. |
| QuizCore.Quiz.ShowCompletionScreen | js/ui-utils.js:98-115 | The counts become those of `CompletionCounts`; nothing else changes. |
| QuizCore.Quiz.constructor | js/quiz-core.js:20-41 | The initial values of the quiz globals. |
| UiUtils.Escape | js/ui-utils.js:11-18 | The output is at least as long as the input and contains no `<`, `>`, `"` or `'`. |
| UiUtils.UnescapeEscape | js/ui-utils.js:7-19 | Escaping loses nothing: replacing the five entities back gives the text. |
| UiUtils.EscapeFixedPoint | js/ui-utils.js:11-18 | Text without any of the five special characters is its own escape. |
| UiUtils.DecodeQuestionIdOfCard | js/ui-utils.js:187-189 | Decoding the question id of a card whose kanji has no "-" gives back that kanji and question type. |
| UiUtils.DisplayedListsPartition | js/ui-utils.js:178-181 | The correct list and the incorrect list of the multi-mode results are disjoint and together show every answered question once, so their sizes add up to the number of questions answered. The correct list is the whole correct set exactly when no question is in both sets. |
| LearnKanjiCore.LearnMode.InitializeLearnKanjiMode | js/learn-kanji-core.js:135-149 | The pool is the selection and nothing is learned. The index is 0. The batch is the first `min(5, n)` items. |
| LearnKanjiCore.LearnMode.ShowLearnModeProgressScreen | js/learn-kanji-core.js:154-183 | The batch is the pool slice of the current index, so the class invariant holds afterwards exactly when the learned kanji are the prefix of the earlier batches. It shows the 1-based batch number, `ceil(total / 5)` batches, the batch size, the learned count, and a remaining count that includes the batch. |
| LearnKanjiCore.TotalBatches | js/learn-kanji-core.js:160-161 | `ceil(total / 5)`: the fewest batches of five that hold the pool. |
| LearnKanjiCore.LearnMode.ContinueToNextBatch | js/learn-kanji-core.js:283-302 | The batch joins the learned kanji and the index moves on. Learning completes exactly when the next batch would start past the pool, and then everything is learned. |
| LearnKanjiCore.LearnMode.QuizCoversPrefix | js/learn-kanji-core.js:214-223 | The quiz items, learned kanji and then the batch, are the pool prefix up to and including the current batch. |
| LearnKanjiCore.LearnMode.ProgressMessageReadsBack | js/learn-kanji-core.js:250-259 | While the continue button shows, the progress message reads back as the learned count (learned plus batch), the pool size and the remaining count. Otherwise it is "You've completed all b kanji!" with `b` the pool size. |
| LearnKanjiCore.LearnMode.ContinueIffMoreBatches | js/learn-kanji-core.js:250-268 | The continue button is shown exactly when another batch follows, that is, exactly when `continueToNextBatch` does not complete the learning. |
| LearnKanjiCore.PrefixPlusBatch | js/learn-kanji-core.js:285-289 | Learned kanji plus batch `i` are the pool prefix of `i + 1` batches, so the learned kanji always stay a pool prefix. |
| LearnKanjiCore.AllBatchesCoverPool | js/learn-kanji-core.js:292-297 | Everything is learned exactly when the batches reach the end of the pool. |
| LearnKanjiCore.LearnMode.ExitLearnMode | js/learn-kanji-core.js:341-347 | The flag, pool, batch, learned kanji, index and token are reset. |
| LearnKanjiCore.LearnMode.constructor | js/learn-kanji-core.js:4-9 | The initial values of the learn-mode globals. |
| LessonCore.Lessons.StartLessons | js/lesson-core.js:10-14 | The items become the queue and the data, with the token, at index 0. |
| LessonCore.Lessons.NextLesson | js/lesson-core.js:271-279 | The index moves on only before the last lesson; at the last lesson the lessons complete instead. The index stays in range. |
| LessonCore.Lessons.PreviousLesson | js/lesson-core.js:281-286 | The index moves back only after the first lesson and stays in range. |
| LessonCore.Lessons.ButtonsMatchNavigation | js/lesson-core.js:256-269 | The previous button is disabled exactly when `previousLesson` would stay. The label is "Complete Lessons →" exactly when `nextLesson` would complete. |
| LessonCore.Lessons.ProgressTextReadsBack | js/lesson-core.js:248-254 | The progress text reads "Lesson a / b", with `a` the 1-based index and `b` the number of lessons. |
| LessonCore.CollectRelatedSubjectIds | js/lesson-core.js:38-53 | The ids to prefetch are exactly the component and visually-similar subject ids of all the items. |
| LessonCore.AddAll | js/lesson-core.js:44-51 | Adding a list of ids to the set gives the union. |
| LessonCore.Lessons.constructor | js/lesson-core.js:4-7 | The initial values of the lesson globals. |
| SrsUtils.GetSimpleStageName | js/srs-utils.js:4-24 | The name is always one of the six names of the stage order (js/event-handlers.js:326-333). |
| SrsUtils.StageNamesFollowOrder | js/srs-utils.js:8-22 | Stages 1 to 9 map monotonically onto the stage order, never to "locked". |
| SrsUtils.OutsideBucketsLocked | js/srs-utils.js:23 | Any number outside the buckets gives "locked": below 1, above 9, between 4 and 5, or a non-integer above 6. |
| SetupUi.StageNameAgrees | js/setup-ui.js:354-371 | The first word of the long stage name, lower-cased, is the simple stage name of the same stage: "Apprentice n", "Guru n", "Master", "Enlightened", "Burned", "Locked". |
| SetupUi.StageNameLevel | js/setup-ui.js:356-362 | Apprentice stages carry their number 1-4, and guru stages carry `n - 4`. |
| SetupUi.ColorFollowsStageName | js/setup-ui.js:267-293 | The colour class follows the stage bucket of `getSimpleStageName`. `null` alone gives the neutral class. |
| SetupUi.GenerateProgressBar | js/setup-ui.js:376-413 | The loop builds `ProgressBar`: the container with one segment per step, the first `filled` of them marked. |
| SetupUi.BarSegments | js/setup-ui.js:384-403 | A bar has segments exactly for stages 1-6: 4 with `stage` filled for apprentice stages, 2 with `stage - 4` filled for guru stages. |
| SetupUi.EmptyBar | js/setup-ui.js:377-382 | Without segments the bar is "", or an empty container when `alwaysShowContainer` is set. |
| SetupUi.RenderFlags | js/setup-ui.js:405-409 | The loop writes `segments` segment divs: the first `filled` of them (all of them if `filled` is larger) carry the class "filled", the rest do not. |
| SetupUi.ProgressBarMarkup | js/setup-ui.js:386-412 | For stages 1-6 the bar is the container around the filled segment divs followed by the unfilled ones, of class "apprentice" with 4 segments and `stage` filled, or of class "guru" with 2 segments and `stage - 4` filled. |
| SetupUi.CountFlags | js/setup-ui.js:405-411 | As many segments are filled as `filled`. |
| SetupUi.FilteredKanjiSound | js/setup-ui.js:243-257 | The filtered kanji form an order-preserving subsequence of all kanji. They are exactly those with no assignment or a stage below 5 (SRS filter), and with an unlocked assignment (unlocked filter). |
| SetupUi.FilterIsSubsequence | js/setup-ui.js:243-257 | `filter` keeps an order-preserving subsequence, made of exactly the elements that pass. |
| JsString.TrimEmptyIffBlank | js/cross-mode-validation.js:5 | `trim()` gives "" exactly for text made of white space only. |
| JsString.LowerIdempotent | js/romanji-converter.js:274 | Lower-casing twice is lower-casing once. |
| JsString.ParseNatToString | js/lesson-core.js:248-254 | The decimal text of a number reads back as that number. |

## Left out

- DOM work is not modelled:
  - rendering, `innerHTML`, toasts, confetti and `setTimeout`;
  - the hint, feedback, mnemonic and correct-box HTML of `showCard` and `checkAnswer`;
  - lesson display, and the button, focus and loading states.
- `fetch` and the prefetch of related subjects are not modelled. The same goes for the
  subject caches (`cachedSubjects`, `cachedQuizSubjects`), `localStorage` and everything
  `async`. Only the id collection of `prefetchAllRelatedSubjects` is modelled.
- The loading-state save and restore and the request-id or `AbortController` race handling of
  `js/setup-ui.js` are left out. They are concurrency and UI.
- `js/event-handlers.js`, `js/api.js` and `js/kanji-item-utils.js` are not part of this model.
  Only the stage order of js/event-handlers.js:326-333 is used.
- `fuzzball.ratio` is a foreign library. It is a parameter: missing, or a function returning
  a percentage or throwing. Its edit-distance ratio is not re-implemented.
- `Math.random` in `shuffleArray` is a nondeterministic choice of the swap index in `[0, i]`.
  No claim is made about the distribution.
- Case mapping covers ASCII `A`-`Z` only. White space is the set JavaScript's `\s` and `trim`
  use. Regular expressions are modelled as explicit scans and global replaces.
- CommonUtils.ValidateAnswer takes a string answer and string candidates: the source calls
  `.trim()` on both and throws on anything else.
- SetupUi.GetSrsStageName takes an integer stage. A non-integer stage (the source would print
  "Apprentice 2.5"), `null` and non-numbers are not modelled.
- SetupUi.GenerateProgressBar takes an optional integer stage: JavaScript's `null`/`undefined`
  is the missing stage, and non-integer stages are not modelled.
- SetupUi.FilteredKanjiSound models the assignment map with a stage number per item; JavaScript's coercion of a
  missing `srs_stage` to a number is not modelled.
- LearnKanjiCore.LearnMode.InitializeLearnKanjiMode does not start the lessons itself;
  starting them is `LessonCore.Lessons.StartLessons`.
- The `useSrsFilter` and `lastQuizItems` bookkeeping and the mode label of the completion
  screen only feed the display and the "retry incorrect" entry point, and are left out.
- The order in which `Array.from(new Set(...))` lists ids is not modelled: the ids to prefetch
  are a set.
- `showLearnQuizCompletionScreen`, `startLearnModeQuiz` and `redoLearnQuiz` are modelled by
  their item lists and the continue rule (`QuizKanji`, `Remaining`, `ShowsContinue`,
  `ProgressMessage`); calling the quiz and the screen changes is left out.
