/**
 * The cards of the quiz in js/quiz-core.js: the kanji item a card is made from, its question
 * type, the question id the score sets record, and the answer normalization shared with the
 * cross-mode check.
 */
module QuizCards {
  import opened Nullable
  import opened JsString

  /** A kanji item as the quiz uses it (the other fields of a subject only feed the display). */
  datatype Item = Item(kanji: string, meanings: seq<string>, readings: seq<string>)

  /** The `questionType` of a card; `Unknown` stands for any other string. */
  datatype QuestionType =
    | KanjiToEnglish
    | KanjiToReading
    | EnglishToKanji
    | EnglishToReadingOrKanji
    | Unknown(name: string)

  /** The string the source stores in `questionType`. */
  function TypeName(t: QuestionType): string {
    match t
    case KanjiToEnglish => "kanji-to-english"
    case KanjiToReading => "kanji-to-reading"
    case EnglishToKanji => "english-to-kanji"
    case EnglishToReadingOrKanji => "english-to-reading-or-kanji"
    case Unknown(name) => name
  }

  /** `{ ...item, questionType }` */
  datatype Card = Card(item: Item, questionType: QuestionType) {
    function Kanji(): string { item.kanji }
  }

  /** The question id `${card.kanji}-${card.questionType}` (js/quiz-core.js:418, 452). */
  function QuestionId(card: Card): string {
    card.Kanji() + "-" + TypeName(card.questionType)
  }

  // ---------------------------------------------------------------------------------------
  // normalize (js/quiz-core.js:43-45)

  /** `normalize(str)` for a string: trimmed, lower-cased, runs of white space made one space. */
  function Normalize(s: string): string {
    CollapseWhitespace(Lower(Trim(s)))
  }

  /** `normalize(str)` for a value that may be `null` or `undefined`, which give "". */
  function NormalizeNullable(s: Option<string>): string {
    Normalize(s.GetOr(""))
  }

  /** A normalized string: no white space at either end, single spaces inside, no capital. */
  predicate IsNormal(r: string) {
    && (r == [] || (!IsWhitespace(r[0]) && !IsWhitespace(r[|r| - 1])))
    && SingleSpaced(r)
    && forall i :: 0 <= i < |r| ==> !IsAsciiUpper(r[i])
  }

  /** Every result of `normalize` is normal, and `null` normalizes to "". */
  lemma NormalizeIsNormal(s: string)
    ensures IsNormal(Normalize(s))
    ensures NormalizeNullable(None) == []
  {
    var t := Lower(Trim(s));
    if t != [] {
      assert !IsWhitespace(LowerChar(Trim(s)[0])) && !IsWhitespace(LowerChar(Trim(s)[|t| - 1]));
    }
    CollapseEnds(t);
    CollapseSingleSpaces(t);
    CollapseKeepsLower(t);
  }

  /** A normal string is its own normalization. */
  lemma NormalizeNormal(r: string)
    requires IsNormal(r)
    ensures Normalize(r) == r
  {
    TrimIdentity(r);
    LowerIdentity(r);
    CollapseIdentity(r);
  }

  /** `normalize` is idempotent. */
  lemma NormalizeIdempotent(s: string)
    ensures Normalize(Normalize(s)) == Normalize(s)
  {
    NormalizeIsNormal(s);
    NormalizeNormal(Normalize(s));
  }
}
