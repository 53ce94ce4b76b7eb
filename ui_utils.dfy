/**
 * The pure helpers of js/ui-utils.js: HTML escaping, the decoding of question ids on the
 * completion screen, the correct questions it lists and the counts it shows.
 */
module UiUtils {
  import opened Nullable
  import opened JsString
  import opened QuizCards

  // ---------------------------------------------------------------------------------------
  // escapeHtml (js/ui-utils.js:7-19)

  /** The characters `/[&<>"']/` matches. */
  predicate IsSpecial(c: char) {
    c == '&' || c == '<' || c == '>' || c == '"' || c == '\''
  }

  /** The replacement the escape map gives one character; any other character is kept. */
  function EscapeChar(c: char): string {
    if c == '&' then "&amp;"
    else if c == '<' then "&lt;"
    else if c == '>' then "&gt;"
    else if c == '"' then "&quot;"
    else if c == '\'' then "&#039;"
    else [c]
  }

  /** `String(text).replace(/[&<>"']/g, (m) => map[m])`, one character at a time. */
  function Escape(s: string): (r: string)
    ensures |r| >= |s|
    ensures '<' !in r && '>' !in r && '"' !in r && '\'' !in r
    decreases |s|
  {
    if s == [] then [] else EscapeChar(s[0]) + Escape(s[1..])
  }

  /** escapeHtml(text): "" for `null` or `undefined`. */
  function EscapeHtml(text: Option<string>): string {
    match text
    case None => ""
    case Some(s) => Escape(s)
  }

  /** A reference inverse: the five entities back to their characters. */
  function Unescape(s: string): string
    decreases |s|
  {
    if s == [] then []
    else if |s| >= 5 && s[..5] == "&amp;" then "&" + Unescape(s[5..])
    else if |s| >= 4 && s[..4] == "&lt;" then "<" + Unescape(s[4..])
    else if |s| >= 4 && s[..4] == "&gt;" then ">" + Unescape(s[4..])
    else if |s| >= 6 && s[..6] == "&quot;" then "\"" + Unescape(s[6..])
    else if |s| >= 6 && s[..6] == "&#039;" then "'" + Unescape(s[6..])
    else [s[0]] + Unescape(s[1..])
  }

  /** Unescaping an entity followed by more text. */
  lemma UnescapeEntity(ent: string, c: char, t: string)
    requires (ent, c) in {("&amp;", '&'), ("&lt;", '<'), ("&gt;", '>'), ("&quot;", '"'), ("&#039;", '\'')}
    ensures Unescape(ent + t) == [c] + Unescape(t)
  {
    var e := ent + t;
    assert e[..|ent|] == ent && e[|ent|..] == t;
    if ent != "&amp;" {
      assert e[1] == ent[1] != 'a';
    }
    if ent == "&gt;" || ent == "&quot;" || ent == "&#039;" {
      assert e[1] == ent[1] != 'l';
    }
    if ent == "&quot;" || ent == "&#039;" {
      assert e[1] == ent[1] != 'g';
    }
    if ent == "&#039;" {
      assert e[1] == ent[1] != 'q';
    }
  }

  /** Unescaping the escape of one character gives that character back. */
  lemma UnescapeChar(c: char, t: string)
    ensures Unescape(EscapeChar(c) + t) == [c] + Unescape(t)
  {
    if c == '&' {
      UnescapeEntity("&amp;", c, t);
    } else if c == '<' {
      UnescapeEntity("&lt;", c, t);
    } else if c == '>' {
      UnescapeEntity("&gt;", c, t);
    } else if c == '"' {
      UnescapeEntity("&quot;", c, t);
    } else if c == '\'' {
      UnescapeEntity("&#039;", c, t);
    } else {
      var e := [c] + t;
      assert e[0] == c && e[1..] == t;
    }
  }

  /** Escaping loses nothing: unescaping gives the text back. */
  lemma {:induction false} UnescapeEscape(s: string)
    ensures Unescape(Escape(s)) == s
    decreases |s|
  {
    if s != [] {
      UnescapeChar(s[0], Escape(s[1..]));
      UnescapeEscape(s[1..]);
    }
  }

  /** Text without any of the five special characters is its own escape. */
  lemma {:induction false} EscapeFixedPoint(s: string)
    requires forall i :: 0 <= i < |s| ==> !IsSpecial(s[i])
    ensures Escape(s) == s
    decreases |s|
  {
    if s != [] {
      EscapeFixedPoint(s[1..]);
    }
  }

  // ---------------------------------------------------------------------------------------
  // Question ids on the completion screen (js/ui-utils.js:178-189, 238-241)

  /** The kanji and the question type read back from a question id. */
  datatype DecodedId = DecodedId(kanji: string, questionType: string)

  /** `parts = id.split("-")`: the kanji is `parts[0]`, the type `parts.slice(1).join("-")`. */
  function DecodeQuestionId(id: string): DecodedId {
    var parts := Split(id, '-');
    DecodedId(parts[0], Join(parts[1..], "-"))
  }

  /** Decoding inverts the question id of a card whose kanji has no "-". */
  lemma DecodeQuestionIdOfCard(card: Card)
    requires '-' !in card.Kanji()
    ensures DecodeQuestionId(QuestionId(card)) == DecodedId(card.Kanji(), TypeName(card.questionType))
  {
    var name := TypeName(card.questionType);
    SplitAfterFirst(card.Kanji(), '-', name);
    assert QuestionId(card) == card.Kanji() + ['-'] + name;
    assert Split(QuestionId(card), '-')[1..] == Split(name, '-');
    JoinSplit(name, '-');
  }

  /**
   * The correct questions listed in multi-mode: those answered correctly and never
   * answered incorrectly.
   */
  function DisplayedCorrectQuestions(correctQuestions: set<string>, incorrectQuestions: set<string>): set<string> {
    set id | id in correctQuestions && id !in incorrectQuestions
  }

  /**
   * The two lists of the multi-mode results show every answered question exactly once: the
   * correct list and the incorrect list are disjoint and together hold every question in
   * either set, so their sizes add up to the number of questions answered. The correct list
   * is the whole correct set exactly when no question is in both sets.
   */
  lemma DisplayedListsPartition(correctQuestions: set<string>, incorrectQuestions: set<string>)
    ensures var shown := DisplayedCorrectQuestions(correctQuestions, incorrectQuestions);
      && shown !! incorrectQuestions
      && shown + incorrectQuestions == correctQuestions + incorrectQuestions
      && |shown| + |incorrectQuestions| == |correctQuestions + incorrectQuestions|
      && (shown == correctQuestions <==> correctQuestions !! incorrectQuestions)
  {
    var shown := DisplayedCorrectQuestions(correctQuestions, incorrectQuestions);
    assert shown == correctQuestions - incorrectQuestions;
    assert shown + incorrectQuestions == correctQuestions + incorrectQuestions;
    if shown == correctQuestions {
      forall id | id in correctQuestions
        ensures id !in incorrectQuestions
      {
        assert id in shown;
      }
    }
  }

  // ---------------------------------------------------------------------------------------
  // The counts of showCompletionScreen (js/ui-utils.js:98-115)

  datatype Counts = Counts(correctCount: int, incorrectCount: int)

  /**
   * In multi-mode the counts are the sizes of the two question sets; in single mode the
   * correct count stays and the incorrect count is the number of kanji answered wrongly.
   */
  function CompletionCounts(isMultiMode: bool, correctCount: int, correctQuestions: set<string>,
                            incorrectQuestions: set<string>, incorrectKanji: set<string>): Counts
  {
    if isMultiMode then Counts(|correctQuestions|, |incorrectQuestions|)
    else Counts(correctCount, |incorrectKanji|)
  }
}
