/**
 * findBestFuzzyMatch of js/fuzzy-match.js: the best acceptable answer for a typed answer,
 * scored by the fuzzball library's `ratio`. The library is a parameter: it may be missing, and
 * its `ratio` may throw, in which case only case-insensitive equality is accepted.
 */
module FuzzyMatch {
  import opened Nullable
  import opened JsString

  /** A similarity percentage, as `fuzzball.ratio` returns it. */
  type Percent = n: int | 0 <= n <= 100

  /** One call of `fuzzball.ratio`: a similarity, or an exception. */
  datatype Score = Ratio(pct: Percent) | Threw

  /** The `fuzzball` global: not loaded, or loaded with its `ratio` function. */
  datatype Library = Missing | Fuzzball(ratio: (string, string) -> Score)

  /** The object findBestFuzzyMatch returns. */
  datatype MatchResult = MatchResult(isMatch: bool, hasTypo: bool, bestMatch: Option<string>, similarity: int)

  /** The default result (js/fuzzy-match.js:13-18). */
  const NO_MATCH := MatchResult(false, false, None, 0)

  const DEFAULT_THRESHOLD := 80

  /** A case-insensitive exact match (js/fuzzy-match.js:66-71, 103-108). */
  function ExactHit(t: string): MatchResult {
    MatchResult(true, false, Some(t), 100)
  }

  /** A fuzzy match scoring `n`: a typo unless the score is 100 (js/fuzzy-match.js:115-120). */
  function FuzzyHit(t: string, n: int): MatchResult {
    MatchResult(true, n < 100, Some(t), n)
  }

  /** `a.toLowerCase() === b.toLowerCase()` */
  predicate SameIgnoringCase(a: string, b: string) {
    Lower(a) == Lower(b)
  }

  /** Candidate `i` is a string whose trimmed form equals `answer`, ignoring case. */
  predicate ExactAt(answer: string, cs: seq<Value>, i: int) {
    0 <= i < |cs| && cs[i].Str? && SameIgnoringCase(answer, Trim(cs[i].str))
  }

  /** `t` is the trimmed form of one of the candidates. */
  predicate IsCandidate(t: string, cs: seq<Value>) {
    exists v :: v in cs && v.Str? && Trim(v.str) == t
  }

  // ---------------------------------------------------------------------------------------
  // Specification

  /**
   * The exact-match fallback (js/fuzzy-match.js:62-76, 135-158): the first string candidate
   * equal to the answer once trimmed, ignoring case; non-strings are skipped.
   */
  function ExactMatch(answer: string, cs: seq<Value>): MatchResult
    decreases |cs|
  {
    if cs == [] then NO_MATCH
    else if ExactAt(answer, cs, 0) then ExactHit(Trim(cs[0].str))
    else ExactMatch(answer, cs[1..])
  }

  /** How the scoring loop ends: with a result, or by an exception from `ratio`. */
  datatype Scan = Finished(result: MatchResult) | Failed

  /**
   * The scoring loop (js/fuzzy-match.js:82-127) from the current best result on: non-strings
   * and blank candidates are skipped, an exact match returns at once, and a score replaces the
   * best result only when it reaches the threshold and beats the best score so far. A score of
   * 100 ends the loop.
   */
  function FuzzyScan(answer: string, cs: seq<Value>, threshold: int, ratio: (string, string) -> Score,
                     best: MatchResult): Scan
    decreases |cs|
  {
    if cs == [] then Finished(best)
    else if cs[0].NotString? || Trim(cs[0].str) == [] then FuzzyScan(answer, cs[1..], threshold, ratio, best)
    else
      var t := Trim(cs[0].str);
      if SameIgnoringCase(answer, t) then Finished(ExactHit(t))
      else match ratio(answer, t)
        case Threw => Failed
        case Ratio(n) =>
          var next := if n >= threshold && n > best.similarity then FuzzyHit(t, n) else best;
          if n == 100 then Finished(next) else FuzzyScan(answer, cs[1..], threshold, ratio, next)
  }

  /**
   * What findBestFuzzyMatch(answer, candidates, threshold) returns (js/fuzzy-match.js:11-162).
   * `None` for the candidates stands for a value that is not an array.
   */
  function BestFuzzyMatch(answer: Value, candidates: Option<seq<Value>>, threshold: int, lib: Library): MatchResult {
    if answer.NotString? || Trim(answer.str) == [] || candidates.None? || candidates.value == [] then NO_MATCH
    else
      var a := Trim(answer.str);
      match lib
      case Missing => ExactMatch(a, candidates.value)
      case Fuzzball(ratio) =>
        match FuzzyScan(a, candidates.value, threshold, ratio, NO_MATCH)
        case Finished(r) => r
        case Failed => ExactMatch(a, candidates.value)
  }

  // ---------------------------------------------------------------------------------------
  // The loops

  /** The exact-match fallback loop, with its early return. */
  method ExactMatchOnly(answer: string, cs: seq<Value>) returns (r: MatchResult)
    ensures r == ExactMatch(answer, cs)
  {
    var i := 0;
    while i < |cs|
      invariant 0 <= i <= |cs|
      invariant ExactMatch(answer, cs) == ExactMatch(answer, cs[i..])
    {
      assert cs[i..][1..] == cs[i + 1..];
      if cs[i].Str? {
        var trimmed := Trim(cs[i].str);
        if Lower(answer) == Lower(trimmed) {
          return ExactHit(trimmed);
        }
      }
      i := i + 1;
    }
    return NO_MATCH;
  }

  /** findBestFuzzyMatch: the guards, then the scoring loop or the fallback. */
  method FindBestFuzzyMatch(answer: Value, candidates: Option<seq<Value>>, threshold: int, lib: Library)
    returns (r: MatchResult)
    ensures r == BestFuzzyMatch(answer, candidates, threshold, lib)
  {
    if answer.NotString? {
      return NO_MATCH;
    }
    var a := Trim(answer.str);
    if |a| == 0 || candidates.None? || |candidates.value| == 0 {
      return NO_MATCH;
    }
    var cs := candidates.value;
    if lib.Missing? {
      r := ExactMatchOnly(a, cs);
      return;
    }
    var best := NO_MATCH;
    var i := 0;
    while i < |cs|
      invariant 0 <= i <= |cs|
      invariant FuzzyScan(a, cs, threshold, lib.ratio, NO_MATCH) == FuzzyScan(a, cs[i..], threshold, lib.ratio, best)
    {
      assert cs[i..][1..] == cs[i + 1..];
      if cs[i].Str? {
        var trimmed := Trim(cs[i].str);
        if |trimmed| > 0 {
          if Lower(a) == Lower(trimmed) {
            return ExactHit(trimmed);
          }
          var score := lib.ratio(a, trimmed);
          if score.Threw? {
            r := ExactMatchOnly(a, cs);
            return;
          }
          var similarity := score.pct;
          if similarity >= threshold && similarity > best.similarity {
            best := FuzzyHit(trimmed, similarity);
          }
          if similarity == 100 {
            return best;
          }
        }
      }
      i := i + 1;
    }
    return best;
  }

  // ---------------------------------------------------------------------------------------
  // Properties

  /**
   * The exact-match fallback finds the first candidate equal to the answer ignoring case, and
   * reports no match when there is none.
   */
  lemma {:induction false} ExactMatchIsFirst(answer: string, cs: seq<Value>)
    ensures ExactMatch(answer, cs).isMatch <==> exists i :: ExactAt(answer, cs, i)
    ensures !ExactMatch(answer, cs).isMatch ==> ExactMatch(answer, cs) == NO_MATCH
    decreases |cs|
  {
    if cs != [] && !ExactAt(answer, cs, 0) {
      var rest := cs[1..];
      assert ExactMatch(answer, cs) == ExactMatch(answer, rest);
      ExactMatchIsFirst(answer, rest);
      forall i | ExactAt(answer, rest, i)
        ensures ExactAt(answer, cs, i + 1)
      {
        assert rest[i] == cs[i + 1];
      }
      forall i | ExactAt(answer, cs, i)
        ensures ExactAt(answer, rest, i - 1)
      {
        assert rest[i - 1] == cs[i];
      }
    }
  }

  /** The exact-match fallback returns the first exact candidate. */
  lemma {:induction false} ExactMatchAtFirst(answer: string, cs: seq<Value>, i: int)
    requires ExactAt(answer, cs, i)
    requires forall j :: 0 <= j < i ==> !ExactAt(answer, cs, j)
    ensures ExactMatch(answer, cs) == ExactHit(Trim(cs[i].str))
    decreases i
  {
    if i > 0 {
      var rest := cs[1..];
      assert !ExactAt(answer, cs, 0);
      assert ExactMatch(answer, cs) == ExactMatch(answer, rest);
      forall j | 0 <= j < i - 1
        ensures !ExactAt(answer, rest, j)
      {
        assert !ExactAt(answer, cs, j + 1);
        assert rest[j] == cs[j + 1];
      }
      assert rest[i - 1] == cs[i];
      ExactMatchAtFirst(answer, rest, i - 1);
    }
  }

  /** A non-string or blank answer, or a missing or empty list, gives the default result. */
  lemma DegenerateInputs(answer: Value, candidates: Option<seq<Value>>, threshold: int, lib: Library)
    requires answer.NotString? || Trim(answer.str) == [] || candidates.None? || candidates.value == []
    ensures BestFuzzyMatch(answer, candidates, threshold, lib) == NO_MATCH
  {
  }

  /** What every result satisfies: the default, or a match on one of the candidates. */
  predicate Sound(r: MatchResult, answer: string, cs: seq<Value>, threshold: int) {
    r == NO_MATCH ||
    (r.isMatch && r.bestMatch.Some? && IsCandidate(r.bestMatch.value, cs)
     && 0 < r.similarity <= 100 && r.hasTypo == (r.similarity < 100)
     && (r.similarity >= threshold || SameIgnoringCase(answer, r.bestMatch.value)))
  }

  /** The first exact candidate, given that candidate `i` is one. */
  lemma {:induction false} FirstExact(answer: string, cs: seq<Value>, i: int) returns (k: int)
    requires ExactAt(answer, cs, i)
    ensures ExactAt(answer, cs, k) && k <= i
    ensures forall j :: 0 <= j < k ==> !ExactAt(answer, cs, j)
    decreases i
  {
    if exists j :: 0 <= j < i && ExactAt(answer, cs, j) {
      var j :| 0 <= j < i && ExactAt(answer, cs, j);
      k := FirstExact(answer, cs, j);
    } else {
      k := i;
    }
  }

  lemma ExactMatchSound(answer: string, cs: seq<Value>, threshold: int)
    ensures Sound(ExactMatch(answer, cs), answer, cs, threshold)
  {
    ExactMatchIsFirst(answer, cs);
    if ExactMatch(answer, cs).isMatch {
      var i :| ExactAt(answer, cs, i);
      var k := FirstExact(answer, cs, i);
      ExactMatchAtFirst(answer, cs, k);
      assert cs[k] in cs;
    }
  }

  /**
   * The scoring loop over a part `cs` of the list `all`, started from a sound best result,
   * ends with a sound result.
   */
  lemma {:induction false} FuzzyScanSound(answer: string, cs: seq<Value>, all: seq<Value>, threshold: int,
                                          ratio: (string, string) -> Score, best: MatchResult)
    requires forall v :: v in cs ==> v in all
    requires Sound(best, answer, all, threshold)
    ensures FuzzyScan(answer, cs, threshold, ratio, best).Finished? ==>
      Sound(FuzzyScan(answer, cs, threshold, ratio, best).result, answer, all, threshold)
    decreases |cs|
  {
    if cs != [] {
      var rest := cs[1..];
      assert forall v :: v in rest ==> v in cs;
      assert cs[0] in all;
      if cs[0].Str? && Trim(cs[0].str) != [] {
        var t := Trim(cs[0].str);
        if !SameIgnoringCase(answer, t) && ratio(answer, t).Ratio? {
          var n := ratio(answer, t).pct;
          var next := if n >= threshold && n > best.similarity then FuzzyHit(t, n) else best;
          assert Sound(next, answer, all, threshold);
          if n != 100 {
            assert FuzzyScan(answer, cs, threshold, ratio, best) == FuzzyScan(answer, rest, threshold, ratio, next);
            FuzzyScanSound(answer, rest, all, threshold, ratio, next);
          }
        } else if SameIgnoringCase(answer, t) {
          assert FuzzyScan(answer, cs, threshold, ratio, best) == Finished(ExactHit(t));
        }
      } else {
        assert FuzzyScan(answer, cs, threshold, ratio, best) == FuzzyScan(answer, rest, threshold, ratio, best);
        FuzzyScanSound(answer, rest, all, threshold, ratio, best);
      }
    }
  }

  /** Every result of findBestFuzzyMatch is the default or a sound match on a candidate. */
  lemma BestFuzzyMatchSound(answer: Value, cs: seq<Value>, threshold: int, lib: Library)
    requires answer.Str?
    ensures Sound(BestFuzzyMatch(answer, Some(cs), threshold, lib), Trim(answer.str), cs, threshold)
  {
    var a := Trim(answer.str);
    ExactMatchSound(a, cs, threshold);
    if lib.Fuzzball? {
      FuzzyScanSound(a, cs, cs, threshold, lib.ratio, NO_MATCH);
    }
  }

  /** Lowering keeps the length, so a non-empty answer never matches a blank candidate. */
  lemma NotSameAsEmpty(a: string)
    requires a != []
    ensures !SameIgnoringCase(a, [])
  {
    assert |Lower(a)| == |a|;
  }

  /** A head that neither matches exactly, throws nor scores 100 leaves the loop running. */
  lemma PassHead(answer: string, cs: seq<Value>, threshold: int, ratio: (string, string) -> Score,
                 best: MatchResult) returns (next: MatchResult)
    requires cs != []
    requires cs[0].Str? && Trim(cs[0].str) != [] ==>
      !SameIgnoringCase(answer, Trim(cs[0].str)) && ratio(answer, Trim(cs[0].str)).Ratio?
      && ratio(answer, Trim(cs[0].str)).pct < 100
    ensures FuzzyScan(answer, cs, threshold, ratio, best) == FuzzyScan(answer, cs[1..], threshold, ratio, next)
  {
    if cs[0].Str? && Trim(cs[0].str) != [] {
      var t := Trim(cs[0].str);
      var n := ratio(answer, t).pct;
      next := if n >= threshold && n > best.similarity then FuzzyHit(t, n) else best;
    } else {
      next := best;
    }
  }

  /**
   * An exact candidate ends the scoring loop, whatever the scores before it, provided none of
   * the earlier candidates threw or scored 100.
   */
  lemma {:induction false} ExactBeatsFuzzy(answer: string, cs: seq<Value>, threshold: int,
                                           ratio: (string, string) -> Score, best: MatchResult, i: int)
    requires answer != [] && ExactAt(answer, cs, i)
    requires forall j :: 0 <= j < i && cs[j].Str? && Trim(cs[j].str) != [] ==>
      !SameIgnoringCase(answer, Trim(cs[j].str)) && ratio(answer, Trim(cs[j].str)).Ratio?
      && ratio(answer, Trim(cs[j].str)).pct < 100
    ensures FuzzyScan(answer, cs, threshold, ratio, best) == Finished(ExactHit(Trim(cs[i].str)))
    decreases i
  {
    NotSameAsEmpty(answer);
    if i > 0 {
      var rest := cs[1..];
      assert rest[i - 1] == cs[i];
      forall j | 0 <= j < i - 1 && rest[j].Str? && Trim(rest[j].str) != []
        ensures !SameIgnoringCase(answer, Trim(rest[j].str)) && ratio(answer, Trim(rest[j].str)).Ratio?
          && ratio(answer, Trim(rest[j].str)).pct < 100
      {
        assert rest[j] == cs[j + 1];
      }
      var next := PassHead(answer, cs, threshold, ratio, best);
      ExactBeatsFuzzy(answer, rest, threshold, ratio, next, i - 1);
    } else {
      assert Trim(cs[0].str) != [];
    }
  }

  /**
   * findBestFuzzyMatch returns an exact candidate over any fuzzy score before it, provided none
   * of the earlier candidates threw or scored 100; it then agrees with the exact-match fallback.
   */
  lemma ExactMatchWins(answer: string, cs: seq<Value>, threshold: int, ratio: (string, string) -> Score, i: int)
    requires Trim(answer) != [] && ExactAt(Trim(answer), cs, i)
    requires forall j :: 0 <= j < i && cs[j].Str? && Trim(cs[j].str) != [] ==>
      !SameIgnoringCase(Trim(answer), Trim(cs[j].str)) && ratio(Trim(answer), Trim(cs[j].str)).Ratio?
      && ratio(Trim(answer), Trim(cs[j].str)).pct < 100
    ensures BestFuzzyMatch(Str(answer), Some(cs), threshold, Fuzzball(ratio)) == ExactHit(Trim(cs[i].str))
    ensures ExactMatch(Trim(answer), cs) == ExactHit(Trim(cs[i].str))
  {
    var a := Trim(answer);
    ExactBeatsFuzzy(a, cs, threshold, ratio, NO_MATCH, i);
    NotSameAsEmpty(a);
    ExactMatchAtFirst(a, cs, i);
  }

  /** Neither exact matches nor exceptions among the candidates: only scores decide. */
  predicate ScoresOnly(answer: string, ratio: (string, string) -> Score, cs: seq<Value>) {
    forall i :: 0 <= i < |cs| && cs[i].Str? && Trim(cs[i].str) != [] ==>
      !SameIgnoringCase(answer, Trim(cs[i].str)) && ratio(answer, Trim(cs[i].str)).Ratio?
  }

  /** The score the loop gives a candidate, -1 for one it skips or that throws. */
  function ScoreOf(answer: string, ratio: (string, string) -> Score, v: Value): (n: int)
    ensures -1 <= n <= 100
    ensures n >= 0 ==> v.Str? && Trim(v.str) != []
  {
    if v.NotString? || Trim(v.str) == [] then -1
    else match ratio(answer, Trim(v.str))
      case Ratio(n) => n
      case Threw => -1
  }

  /** The highest score among the candidates, -1 for none. */
  function MaxScore(answer: string, ratio: (string, string) -> Score, cs: seq<Value>): (m: int)
    ensures -1 <= m <= 100
    ensures forall i :: 0 <= i < |cs| ==> ScoreOf(answer, ratio, cs[i]) <= m
    ensures m == -1 || exists i :: 0 <= i < |cs| && ScoreOf(answer, ratio, cs[i]) == m
    decreases |cs|
  {
    if cs == [] then -1
    else
      var h := ScoreOf(answer, ratio, cs[0]);
      var m := MaxScore(answer, ratio, cs[1..]);
      assert forall i :: 1 <= i < |cs| ==> cs[i] == cs[1..][i - 1];
      if h >= m then h else m
  }

  /** The position of the first candidate scoring `m`, or the length of the list for none. */
  function FirstAtScore(answer: string, ratio: (string, string) -> Score, cs: seq<Value>, m: int): (k: nat)
    ensures k <= |cs|
    ensures k < |cs| ==> ScoreOf(answer, ratio, cs[k]) == m
    ensures forall j :: 0 <= j < k ==> ScoreOf(answer, ratio, cs[j]) != m
    decreases |cs|
  {
    if cs == [] then 0
    else if ScoreOf(answer, ratio, cs[0]) == m then 0
    else
      assert forall i :: 1 <= i < |cs| ==> cs[i] == cs[1..][i - 1];
      1 + FirstAtScore(answer, ratio, cs[1..], m)
  }

  /** A candidate scoring `m` bounds the position of the first one. */
  lemma {:induction false} FirstAtScoreFinds(answer: string, ratio: (string, string) -> Score, cs: seq<Value>,
                                             m: int, i: int)
    requires 0 <= i < |cs| && ScoreOf(answer, ratio, cs[i]) == m
    ensures FirstAtScore(answer, ratio, cs, m) <= i
    decreases i
  {
    if ScoreOf(answer, ratio, cs[0]) != m {
      assert cs[1..][i - 1] == cs[i];
      FirstAtScoreFinds(answer, ratio, cs[1..], m, i - 1);
    }
  }

  /**
   * A reference definition of the scoring loop when only scores decide: the first candidate
   * with the highest score, when that score reaches the threshold and beats the starting one.
   */
  ghost function FirstBest(answer: string, cs: seq<Value>, threshold: int, ratio: (string, string) -> Score,
                           best: MatchResult): MatchResult
  {
    var m := MaxScore(answer, ratio, cs);
    if m >= threshold && m > best.similarity && m >= 0 then
      var i :| 0 <= i < |cs| && ScoreOf(answer, ratio, cs[i]) == m;
      FirstAtScoreFinds(answer, ratio, cs, m, i);
      var k := FirstAtScore(answer, ratio, cs, m);
      FuzzyHit(Trim(cs[k].str), m)
    else best
  }

  /** When only scores decide, the scoring loop picks the first candidate with the highest score. */
  lemma {:induction false} FuzzyScanIsFirstBest(answer: string, cs: seq<Value>, threshold: int,
                                                ratio: (string, string) -> Score, best: MatchResult)
    requires ScoresOnly(answer, ratio, cs) && best.similarity >= 0
    ensures FuzzyScan(answer, cs, threshold, ratio, best) == Finished(FirstBest(answer, cs, threshold, ratio, best))
    decreases |cs|
  {
    if cs != [] {
      var rest := cs[1..];
      assert forall i :: 1 <= i < |cs| ==> cs[i] == rest[i - 1];
      assert ScoresOnly(answer, ratio, rest);
      var h := ScoreOf(answer, ratio, cs[0]);
      if h < 0 {
        assert FuzzyScan(answer, cs, threshold, ratio, best) == FuzzyScan(answer, rest, threshold, ratio, best);
        FuzzyScanIsFirstBest(answer, rest, threshold, ratio, best);
        FirstBestSkip(answer, cs, threshold, ratio, best);
      } else {
        var t := Trim(cs[0].str);
        var next := if h >= threshold && h > best.similarity then FuzzyHit(t, h) else best;
        if h == 100 {
          assert FuzzyScan(answer, cs, threshold, ratio, best) == Finished(next);
          FirstBestFull(answer, cs, threshold, ratio, best);
        } else {
          assert FuzzyScan(answer, cs, threshold, ratio, best) == FuzzyScan(answer, rest, threshold, ratio, next);
          FuzzyScanIsFirstBest(answer, rest, threshold, ratio, next);
          FirstBestStep(answer, cs, threshold, ratio, best);
        }
      }
    }
  }

  /** A skipped head does not change the reference result. */
  lemma FirstBestSkip(answer: string, cs: seq<Value>, threshold: int, ratio: (string, string) -> Score,
                      best: MatchResult)
    requires cs != [] && ScoreOf(answer, ratio, cs[0]) < 0 && best.similarity >= 0
    ensures FirstBest(answer, cs, threshold, ratio, best) == FirstBest(answer, cs[1..], threshold, ratio, best)
  {
    var m := MaxScore(answer, ratio, cs[1..]);
    assert MaxScore(answer, ratio, cs) == m;
    if m >= 0 {
      assert FirstAtScore(answer, ratio, cs, m) == 1 + FirstAtScore(answer, ratio, cs[1..], m);
    }
  }

  /** A head scoring 100 is the reference result, or the starting one when that already wins. */
  lemma FirstBestFull(answer: string, cs: seq<Value>, threshold: int, ratio: (string, string) -> Score,
                      best: MatchResult)
    requires cs != [] && ScoreOf(answer, ratio, cs[0]) == 100
    ensures FirstBest(answer, cs, threshold, ratio, best)
         == if 100 >= threshold && 100 > best.similarity then FuzzyHit(Trim(cs[0].str), 100) else best
  {
    assert MaxScore(answer, ratio, cs) == 100;
    assert FirstAtScore(answer, ratio, cs, 100) == 0;
  }

  /** A scored head moves into the starting result exactly as the loop does. */
  lemma FirstBestStep(answer: string, cs: seq<Value>, threshold: int, ratio: (string, string) -> Score,
                      best: MatchResult)
    requires cs != [] && 0 <= ScoreOf(answer, ratio, cs[0]) && best.similarity >= 0
    ensures var h := ScoreOf(answer, ratio, cs[0]);
      var next := if h >= threshold && h > best.similarity then FuzzyHit(Trim(cs[0].str), h) else best;
      FirstBest(answer, cs, threshold, ratio, best) == FirstBest(answer, cs[1..], threshold, ratio, next)
  {
    var h := ScoreOf(answer, ratio, cs[0]);
    var m := MaxScore(answer, ratio, cs[1..]);
    assert MaxScore(answer, ratio, cs) == if h >= m then h else m;
    if m > h {
      assert FirstAtScore(answer, ratio, cs, m) == 1 + FirstAtScore(answer, ratio, cs[1..], m);
    } else {
      assert FirstAtScore(answer, ratio, cs, h) == 0;
    }
  }

  /**
   * When no candidate matches exactly and none throws, findBestFuzzyMatch returns the first
   * candidate with the highest score if that score reaches the threshold and is positive, and
   * the default result otherwise.
   */
  lemma BestFuzzyMatchIsFirstBest(answer: string, cs: seq<Value>, threshold: int, ratio: (string, string) -> Score)
    requires Trim(answer) != [] && cs != [] && ScoresOnly(Trim(answer), ratio, cs)
    ensures BestFuzzyMatch(Str(answer), Some(cs), threshold, Fuzzball(ratio))
         == FirstBest(Trim(answer), cs, threshold, ratio, NO_MATCH)
  {
    FuzzyScanIsFirstBest(Trim(answer), cs, threshold, ratio, NO_MATCH);
  }
}
