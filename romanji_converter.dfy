/**
 * The romaji/hiragana transliterator of js/romanji-converter.js.
 *
 * `convertRomanjiToHiragana` threads one string through a fixed pipeline of global rewrites:
 * lower-casing, `nn` to ん, the palatal digraphs, doubled consonants to っ, a longest-key-first
 * pass over the romaji table without its `n` row, and finally a lone `n` before a consonant or
 * white space to ん. `hiraganaToRomanji` is a single longest-key-first pass over the kana table.
 * Each is a method with the source's loop, proved equal to a function over strings, and the
 * lemmas below state what the conversions do.
 */
module RomanjiConverter {
  import opened JsString
  import opened Nullable
  import opened RewriteRules
  import opened RomanjiTables

  /** The class `[bcdfghjklmnpqrstvwxyz]`: the consonants whose doubling marks a geminate. */
  predicate IsGeminable(c: char) { IsAsciiLower(c) && !IsVowel(c) }

  /** The class `[bcdfghjklmpqrstvwxz]`: the consonants before which a lone `n` is ん. */
  predicate IsNasalContext(c: char) { IsGeminable(c) && c != 'n' && c != 'y' }

  lemma PalatalRulesTransliterate()
    ensures AllTransliterate(PALATAL_RULES, Latin, Kana)
  {
  }

  lemma RomajiTableTransliterates()
    ensures AllTransliterate(ROMANJI_TO_HIRAGANA, Latin, Kana)
  {
  }

  /** The palatal rewrites (js/romanji-converter.js:281-333), applied in source order. */
  function PalatalPass(s: string): string {
    PalatalRulesTransliterate();
    ApplyRules(PALATAL_RULES, s)
  }

  /**
   * `s.replace(/([bcdfghjklmnpqrstvwxyz])\1/g, ...)` (js/romanji-converter.js:336-342): from left
   * to right, a doubled consonant other than `n` becomes っ and the consonant looked up in the
   * table (or kept when it is no key); a doubled `n` is kept as it is.
   */
  function SmallTsu(s: string): string
    decreases |s|
  {
    if |s| >= 2 && IsGeminable(s[0]) && s[1] == s[0] then
      (if s[0] == 'n' then s[..2] else "っ" + Lookup(ROMANJI_TO_HIRAGANA, [s[0]]).GetOr([s[0]]))
      + SmallTsu(s[2..])
    else if s == [] then []
    else [s[0]] + SmallTsu(s[1..])
  }

  /** The keys of `mappingWithoutN`, longest first (js/romanji-converter.js:346-353). */
  const TABLE_PASS_RULES: seq<Rule> := SortByKeyLength(WithoutKey(ROMANJI_TO_HIRAGANA, "n"))

  lemma WithoutNTransliterates()
    ensures AllTransliterate(WithoutKey(ROMANJI_TO_HIRAGANA, "n"), Latin, Kana)
    ensures forall i :: 0 <= i < |WithoutKey(ROMANJI_TO_HIRAGANA, "n")| ==>
      HasVowel(WithoutKey(ROMANJI_TO_HIRAGANA, "n")[i].key)
  {
    var w := WithoutKey(ROMANJI_TO_HIRAGANA, "n");
    forall i | 0 <= i < |w|
      ensures Transliterates(w[i], Latin, Kana) && HasVowel(w[i].key)
    {
      var j :| 0 <= j < |ROMANJI_TO_HIRAGANA| && ROMANJI_TO_HIRAGANA[j] == w[i];
      assert IsRomajiRow(ROMANJI_TO_HIRAGANA[j]);
    }
  }

  lemma TablePassRulesTransliterate()
    ensures AllTransliterate(TABLE_PASS_RULES, Latin, Kana)
    ensures forall i :: 0 <= i < |TABLE_PASS_RULES| ==> HasVowel(TABLE_PASS_RULES[i].key)
  {
    var w := WithoutKey(ROMANJI_TO_HIRAGANA, "n");
    WithoutNTransliterates();
    SortedTransliterate(w, Latin, Kana);
    forall i | 0 <= i < |TABLE_PASS_RULES|
      ensures HasVowel(TABLE_PASS_RULES[i].key)
    {
      assert TABLE_PASS_RULES[i] in multiset(w);
    }
  }

  /** The loop over the sorted keys (js/romanji-converter.js:356-360). */
  function TablePass(s: string): string {
    TablePassRulesTransliterate();
    ApplyRules(TABLE_PASS_RULES, s)
  }

  /** `s.replace(/n([bcdfghjklmpqrstvwxz])/g, "ん$1")` (js/romanji-converter.js:365). */
  function NBeforeConsonant(s: string): string
    decreases |s|
  {
    if |s| >= 2 && s[0] == 'n' && IsNasalContext(s[1]) then "ん" + [s[1]] + NBeforeConsonant(s[2..])
    else if s == [] then []
    else [s[0]] + NBeforeConsonant(s[1..])
  }

  /** `s.replace(/n\s/g, "ん ")` (js/romanji-converter.js:366): the white space becomes a space. */
  function NBeforeWhitespace(s: string): string
    decreases |s|
  {
    if |s| >= 2 && s[0] == 'n' && IsWhitespace(s[1]) then "ん " + NBeforeWhitespace(s[2..])
    else if s == [] then []
    else [s[0]] + NBeforeWhitespace(s[1..])
  }

  /** What `convertRomanjiToHiragana(romanji)` returns (js/romanji-converter.js:273-369). */
  function ToHiragana(romanji: string): string {
    var collapsed := ReplaceAll(Lower(romanji), "nn", "ん");
    NBeforeWhitespace(NBeforeConsonant(TablePass(SmallTsu(PalatalPass(collapsed)))))
  }

  /**
   * The key loop of convertRomanjiToHiragana (js/romanji-converter.js:356-360): each key, in
   * order, is replaced everywhere in the text, when the text includes it.
   */
  method ReplacePresentKeys(rules: seq<Rule>, s: string) returns (result: string)
    requires NonEmptyKeys(rules)
    ensures result == ApplyRules(rules, s)
  {
    result := s;
    for i := 0 to |rules|
      invariant ApplyRules(rules[i..], result) == ApplyRules(rules, s)
    {
      var rule := rules[i];
      ApplyRulesStep(rules, i, result);
      if Includes(result, rule.key) {
        result := ReplaceAll(result, rule.key, rule.value);
      } else {
        ReplaceAllAbsent(result, rule.key, rule.value);
      }
    }
    assert rules[|rules|..] == [];
  }

  /** `convertRomanjiToHiragana`, step by step on a mutable result. */
  method ConvertRomanjiToHiragana(romanji: string) returns (result: string)
    ensures result == ToHiragana(romanji)
  {
    result := Lower(romanji);
    result := ReplaceAll(result, "nn", "ん");
    result := PalatalPass(result);
    result := SmallTsu(result);
    TablePassRulesTransliterate();
    result := ReplacePresentKeys(TABLE_PASS_RULES, result);
    result := NBeforeConsonant(result);
    result := NBeforeWhitespace(result);
  }

  /** `Object.keys(hiraganaToRomanjiMap)` sorted longest first (js/romanji-converter.js:115-117). */
  const KANA_PASS_RULES: seq<Rule> := SortByKeyLength(HIRAGANA_TO_ROMANJI)

  lemma KanaPassRulesTransliterate()
    ensures AllTransliterate(KANA_PASS_RULES, Kana, Latin)
  {
    KanaTableTransliterates();
    SortedTransliterate(HIRAGANA_TO_ROMANJI, Kana, Latin);
  }

  /** What `hiraganaToRomanji(hiragana)` returns (js/romanji-converter.js:4-127). */
  function ToRomanji(hiragana: string): string {
    KanaPassRulesTransliterate();
    ApplyRules(KANA_PASS_RULES, hiragana)
  }

  /**
   * The key loop of hiraganaToRomanji (js/romanji-converter.js:119-124): each key, in order, is
   * replaced everywhere in the text.
   */
  method ReplaceEachKey(rules: seq<Rule>, s: string) returns (result: string)
    requires NonEmptyKeys(rules)
    ensures result == ApplyRules(rules, s)
  {
    result := s;
    for i := 0 to |rules|
      invariant ApplyRules(rules[i..], result) == ApplyRules(rules, s)
    {
      ApplyRulesStep(rules, i, result);
      result := ReplaceAll(result, rules[i].key, rules[i].value);
    }
    assert rules[|rules|..] == [];
  }

  /** `hiraganaToRomanji`: the key loop over the sorted keys of the kana table. */
  method HiraganaToRomanji(hiragana: string) returns (result: string)
    ensures result == ToRomanji(hiragana)
  {
    KanaPassRulesTransliterate();
    result := ReplaceEachKey(KANA_PASS_RULES, hiragana);
  }

  // ---------------------------------------------------------------------------------------
  // Stages that leave a string alone

  lemma {:induction false} SmallTsuKeeps(s: string)
    requires Avoids(s, Latin)
    ensures SmallTsu(s) == s
    decreases |s|
  {
    if s != [] {
      SmallTsuKeeps(s[1..]);
      assert s == [s[0]] + s[1..];
    }
  }

  lemma {:induction false} NBeforeConsonantKeeps(s: string)
    requires 'n' !in s
    ensures NBeforeConsonant(s) == s
    decreases |s|
  {
    if s != [] {
      assert s[0] != 'n';
      assert 'n' !in s[1..];
      NBeforeConsonantKeeps(s[1..]);
      assert s == [s[0]] + s[1..];
    }
  }

  lemma {:induction false} NBeforeWhitespaceKeeps(s: string)
    requires 'n' !in s
    ensures NBeforeWhitespace(s) == s
    decreases |s|
  {
    if s != [] {
      assert s[0] != 'n';
      assert 'n' !in s[1..];
      NBeforeWhitespaceKeeps(s[1..]);
      assert s == [s[0]] + s[1..];
    }
  }

  /** Every palatal key has `y` or `h` second, so a string with neither is not rewritten. */
  lemma PalatalPassKeeps(s: string)
    requires 'y' !in s && 'h' !in s
    ensures PalatalPass(s) == s
  {
    forall i | 0 <= i < |PALATAL_RULES|
      ensures !Includes(s, PALATAL_RULES[i].key)
    {
      AbsentByCharacter(s, PALATAL_RULES[i].key, 1);
    }
    ApplyRulesAbsent(PALATAL_RULES, s);
  }

  /** None of the five vowels occurs in `s`. */
  predicate NoVowel(s: string) {
    'a' !in s && 'e' !in s && 'i' !in s && 'o' !in s && 'u' !in s
  }

  lemma {:induction false} VowelAt(s: string) returns (j: nat)
    requires HasVowel(s)
    ensures j < |s| && IsVowel(s[j])
    decreases |s|
  {
    if IsVowel(s[0]) {
      j := 0;
    } else {
      var k := VowelAt(s[1..]);
      j := k + 1;
    }
  }

  /**
   * Every key of the table pass holds a vowel, so the pass leaves a string without vowels as it
   * is: Latin letters that no key covers, such as `q` or `l`, are kept and not removed
   * (js/romanji-converter.js:346-360).
   */
  lemma TablePassKeepsVowelFree(s: string)
    requires NoVowel(s)
    ensures TablePass(s) == s
  {
    TablePassRulesTransliterate();
    forall i | 0 <= i < |TABLE_PASS_RULES|
      ensures !Includes(s, TABLE_PASS_RULES[i].key)
    {
      var j := VowelAt(TABLE_PASS_RULES[i].key);
      assert TABLE_PASS_RULES[i].key[j] !in s;
      AbsentByCharacter(s, TABLE_PASS_RULES[i].key, j);
    }
    ApplyRulesAbsent(TABLE_PASS_RULES, s);
  }

  /** Every palatal key is Latin, so text without Latin letters passes the palatal stage. */
  lemma PalatalPassSkipsForeign(s: string)
    requires Avoids(s, Latin)
    ensures PalatalPass(s) == s
  {
    PalatalRulesTransliterate();
    ApplyRulesSkipsForeign(PALATAL_RULES, s, Latin, Kana);
  }

  /** Every table key is Latin, so text without Latin letters passes the table stage. */
  lemma TablePassSkipsForeign(s: string)
    requires Avoids(s, Latin)
    ensures TablePass(s) == s
  {
    TablePassRulesTransliterate();
    ApplyRulesSkipsForeign(TABLE_PASS_RULES, s, Latin, Kana);
  }

  /** The stages after the palatal rewrites leave text without Latin letters alone. */
  lemma KanaThroughLaterStages(s: string)
    requires Avoids(s, Latin)
    ensures NBeforeWhitespace(NBeforeConsonant(TablePass(SmallTsu(s)))) == s
  {
    SmallTsuKeeps(s);
    TablePassSkipsForeign(s);
    assert 'n' !in s by {
      assert !InScript('n', Kana);
    }
    NBeforeConsonantKeeps(s);
    NBeforeWhitespaceKeeps(s);
  }

  /** The stages after `nn`, on a string without ASCII letters, change nothing. */
  lemma LaterStagesKeepNonLatin(s: string)
    requires !HasAsciiLetter(s)
    ensures NBeforeWhitespace(NBeforeConsonant(TablePass(SmallTsu(PalatalPass(s))))) == s
  {
    assert Avoids(s, Latin);
    PalatalPassSkipsForeign(s);
    KanaThroughLaterStages(s);
  }

  // ---------------------------------------------------------------------------------------
  // The forward conversion

  /** The input is lower-cased first, so its case does not matter (js/romanji-converter.js:274). */
  lemma ToHiraganaIgnoresCase(s: string)
    ensures ToHiragana(s) == ToHiragana(Lower(s))
  {
    LowerIdempotent(s);
  }

  /**
   * Every rewrite pattern holds a Latin letter, so text without ASCII letters, hiragana-only
   * text in particular, comes back unchanged (js/romanji-converter.js:276-366).
   */
  lemma ToHiraganaKeepsNonLatin(s: string)
    requires !HasAsciiLetter(s)
    ensures ToHiragana(s) == s
  {
    LowerIdentity(s);
    assert forall i :: 0 <= i < |s| ==> s[i] != "nn"[0];
    AbsentByCharacter(s, "nn", 0);
    ReplaceAllAbsent(s, "nn", "ん");
    LaterStagesKeepNonLatin(s);
  }

  /** After `nn` has become ん no `nn` is left, so no later stage sees a doubled `n`. */
  lemma {:induction false} CollapseLeavesNoDoubleN(s: string)
    ensures !Includes(ReplaceAll(s, "nn", "ん"), "nn")
    ensures var r := ReplaceAll(s, "nn", "ん");
      r != [] && r[0] == 'n' ==> s != [] && s[0] == 'n' && !(|s| >= 2 && s[1] == 'n')
    decreases |s|
  {
    var r := ReplaceAll(s, "nn", "ん");
    if |s| < 2 {
      AbsentByLength(r, "nn");
    } else if s[..2] == "nn" {
      var t := ReplaceAll(s[2..], "nn", "ん");
      CollapseLeavesNoDoubleN(s[2..]);
      assert r == ['ん'] + t;
      IncludesCons('ん', t, "nn");
      assert !OccursAt(r, "nn", 0) by {
        if |r| >= 2 {
          assert r[..2][0] == 'ん';
        }
      }
    } else {
      var t := ReplaceAll(s[1..], "nn", "ん");
      CollapseLeavesNoDoubleN(s[1..]);
      assert r == [s[0]] + t;
      IncludesCons(s[0], t, "nn");
      assert !OccursAt(r, "nn", 0) by {
        if s[0] == 'n' {
          assert s[1] != 'n';
          assert t == [] || t[0] != 'n';
        }
      }
    }
  }

  /** A doubled `n` that reaches the small-tsu rewrite is returned as it is, never as っ. */
  lemma SmallTsuKeepsDoubleN(s: string)
    ensures SmallTsu("nn" + s) == "nn" + SmallTsu(s)
  {
    assert ("nn" + s)[2..] == s;
  }

  /** No single consonant is a key of the romaji table: its keys are `n` or hold a vowel. */
  lemma NoConsonantKey(c: char)
    requires IsGeminable(c) && c != 'n'
    ensures Lookup(ROMANJI_TO_HIRAGANA, [c]) == None
  {
    forall i | 0 <= i < |ROMANJI_TO_HIRAGANA|
      ensures ROMANJI_TO_HIRAGANA[i].key != [c]
    {
      var r := ROMANJI_TO_HIRAGANA[i];
      assert IsRomajiRow(r);
      if r.key == [c] {
        assert r.key[1..] == [];
        assert !HasVowel(r.key);
      }
    }
  }

  /**
   * A doubled consonant other than `n` becomes っ followed by that consonant, left for the table
   * pass to complete (js/romanji-converter.js:336-342).
   */
  lemma SmallTsuDoubledConsonant(c: char, s: string)
    requires IsGeminable(c) && c != 'n'
    ensures SmallTsu([c, c] + s) == ['っ', c] + SmallTsu(s)
  {
    var t := [c, c] + s;
    assert t[0] == c && t[1] == c && t[2..] == s;
    NoConsonantKey(c);
  }

  /** A vowel is never the start of a geminate: doubled vowels are left to the table. */
  lemma SmallTsuSkipsVowel(c: char, s: string)
    requires IsVowel(c)
    ensures SmallTsu([c] + s) == [c] + SmallTsu(s)
  {
    assert ([c] + s)[1..] == s;
  }

  // ---------------------------------------------------------------------------------------
  // Short inputs, converted whole

  /** A key of the table pass on its own becomes its value. */
  lemma TablePassToken(w: string, v: string)
    requires Lookup(ROMANJI_TO_HIRAGANA, w) == Some(v) && w != "n"
    ensures TablePass(w) == v
  {
    LookupWithoutKey(ROMANJI_TO_HIRAGANA, "n", w);
    WithoutNTransliterates();
    TokenPass(WithoutKey(ROMANJI_TO_HIRAGANA, "n"), w, v, Latin, Kana);
  }

  /** A key of the kana table on its own becomes its romaji. */
  lemma ToRomanjiToken(w: string, v: string)
    requires Lookup(HIRAGANA_TO_ROMANJI, w) == Some(v)
    ensures ToRomanji(w) == v
  {
    KanaTableTransliterates();
    TokenPass(HIRAGANA_TO_ROMANJI, w, v, Kana, Latin);
  }

  /** Text without hiragana is returned as it is. */
  lemma ToRomanjiKeepsNonKana(s: string)
    requires Avoids(s, Kana)
    ensures ToRomanji(s) == s
  {
    KanaPassRulesTransliterate();
    ApplyRulesSkipsForeign(KANA_PASS_RULES, s, Kana, Latin);
  }

  /** No key of the kana table contains `c`: a non-hiragana character, or a kana such as ゐ. */
  predicate KanaTableLacks(c: char) {
    forall i :: 0 <= i < |HIRAGANA_TO_ROMANJI| ==> c !in HIRAGANA_TO_ROMANJI[i].key
  }

  lemma NonKanaUnkeyed(c: char)
    requires !IsHiragana(c) || KanaTableLacks(c)
    ensures NonEmptyKeys(KANA_PASS_RULES) && Unkeyed(KANA_PASS_RULES, c)
  {
    KanaPassRulesTransliterate();
    forall i | 0 <= i < |KANA_PASS_RULES|
      ensures c !in KANA_PASS_RULES[i].key
    {
      var r := KANA_PASS_RULES[i];
      assert r in multiset(HIRAGANA_TO_ROMANJI);
      var j :| 0 <= j < |HIRAGANA_TO_ROMANJI| && HIRAGANA_TO_ROMANJI[j] == r;
      assert Transliterates(r, Kana, Latin);
    }
  }

  /**
   * A character that no key of the kana table contains, such as a space, a digit, a letter or
   * a kana outside the table, is copied as it is, wherever it stands, and the text on either
   * side of it is romanized on its own.
   */
  lemma ToRomanjiKeepsCharacter(x: string, c: char, y: string)
    requires !IsHiragana(c) || KanaTableLacks(c)
    ensures ToRomanji(x + [c] + y) == ToRomanji(x) + [c] + ToRomanji(y)
  {
    NonKanaUnkeyed(c);
    assert x + [c] + y == x + ([c] + y);
    ApplyRulesSplit(KANA_PASS_RULES, x, [c] + y);
    ApplyRulesAfterUnkeyed(KANA_PASS_RULES, c, y);
  }

  /** Text without hiragana after kana is kept as it is: "かq" romanizes to "kaq". */
  lemma ToRomanjiKeepsSuffix(x: string, t: string)
    requires Avoids(t, Kana)
    ensures ToRomanji(x + t) == ToRomanji(x) + t
  {
    if t != [] {
      assert !InScript(t[0], Kana);
      NonKanaUnkeyed(t[0]);
      ApplyRulesSplit(KANA_PASS_RULES, x, t);
      ToRomanjiKeepsNonKana(t);
    } else {
      assert x + t == x;
    }
  }

  /** Text without hiragana before kana is kept as it is. */
  lemma ToRomanjiKeepsPrefix(p: string, x: string)
    requires Avoids(p, Kana)
    ensures ToRomanji(p + x) == p + ToRomanji(x)
  {
    KanaPassRulesTransliterate();
    ApplyRulesAfterPrefix(KANA_PASS_RULES, p, x, Kana, Latin);
  }

  /** Kana already in place before a syllable is kept, and the syllable is converted. */
  lemma TablePassAfterKana(p: string, w: string, v: string, s: string, r: string)
    requires Avoids(p, Latin)
    requires Lookup(ROMANJI_TO_HIRAGANA, w) == Some(v) && w != "n"
    requires s == p + w && r == p + v
    ensures TablePass(s) == r
  {
    TablePassRulesTransliterate();
    ApplyRulesAfterPrefix(TABLE_PASS_RULES, p, w, Latin, Kana);
    TablePassToken(w, v);
  }

  /** The forward conversion as its stages, each result named. */
  lemma ToHiraganaStages(s: string, collapsed: string, palatal: string, geminated: string, table: string)
    requires ReplaceAll(Lower(s), "nn", "ん") == collapsed
    requires PalatalPass(collapsed) == palatal
    requires SmallTsu(palatal) == geminated
    requires TablePass(geminated) == table
    ensures ToHiragana(s) == NBeforeWhitespace(NBeforeConsonant(table))
  {
  }

  /** Lower-case text without `nn` comes out of the first two steps as it went in. */
  lemma CollapseKeeps(s: string)
    requires forall i :: 0 <= i < |s| ==> !IsAsciiUpper(s[i])
    requires !Includes(s, "nn")
    ensures ReplaceAll(Lower(s), "nn", "ん") == s
  {
    LowerIdentity(s);
    ReplaceAllAbsent(s, "nn", "ん");
  }

  /** Every palatal key has three letters, so shorter text is not rewritten. */
  lemma PalatalPassShort(s: string)
    requires |s| < 3
    ensures PalatalPass(s) == s
  {
    forall i | 0 <= i < |PALATAL_RULES|
      ensures !Includes(s, PALATAL_RULES[i].key)
    {
      AbsentByLength(s, PALATAL_RULES[i].key);
    }
    ApplyRulesAbsent(PALATAL_RULES, s);
  }

  /** No consonant is followed by itself. */
  predicate NoDoubledConsonant(s: string) {
    |s| < 2 || (!(IsGeminable(s[0]) && s[1] == s[0]) && NoDoubledConsonant(s[1..]))
  }

  lemma {:induction false} SmallTsuKeepsUndoubled(s: string)
    requires NoDoubledConsonant(s)
    ensures SmallTsu(s) == s
    decreases |s|
  {
    if s != [] {
      SmallTsuKeepsUndoubled(s[1..]);
      assert s == [s[0]] + s[1..];
    }
  }

  lemma {:induction false} UndoubledHasNoNN(s: string)
    requires NoDoubledConsonant(s)
    ensures !Includes(s, "nn")
    decreases |s|
  {
    if |s| >= 2 {
      UndoubledHasNoNN(s[1..]);
      assert IsGeminable('n');
      IncludesCons(s[0], s[1..], "nn");
      assert s == [s[0]] + s[1..];
    } else {
      AbsentByLength(s, "nn");
    }
  }

  /** A row of the romaji table maps a lower-case word to kana, which holds no `n`. */
  lemma TableRowScripts(w: string, k: string)
    requires Lookup(ROMANJI_TO_HIRAGANA, w) == Some(k)
    ensures IsWord(w, Latin) && IsWord(k, Kana) && 'n' !in k
  {
    RomajiTableTransliterates();
    var i :| 0 <= i < |ROMANJI_TO_HIRAGANA| && ROMANJI_TO_HIRAGANA[i] == Rule(w, k);
    assert Transliterates(ROMANJI_TO_HIRAGANA[i], Latin, Kana);
    assert forall j :: 0 <= j < |k| ==> IsHiragana(k[j]);
  }

  /**
   * A word no palatal rewrite applies to: it has no `y` or `h`, it is shorter than every
   * palatal key (ha, ya, ...), or it is a three-letter word that is no palatal key (shi, chi).
   */
  predicate NotPalatal(w: string) {
    ('y' !in w && 'h' !in w) || |w| < 3 || (|w| == 3 && Lookup(PALATAL_RULES, w) == None)
  }

  lemma NotPalatalKeeps(w: string)
    requires NotPalatal(w)
    ensures PalatalPass(w) == w
  {
    if 'y' !in w && 'h' !in w {
      PalatalPassKeeps(w);
    } else if |w| < 3 {
      PalatalPassShort(w);
    } else {
      PalatalPassSyllable(w);
    }
  }

  /** Neither the palatal rewrites nor the small-tsu rule touch such text. */
  lemma EarlyStagesKeep(w: string)
    requires NotPalatal(w)
    requires NoDoubledConsonant(w)
    ensures SmallTsu(PalatalPass(w)) == w
  {
    NotPalatalKeeps(w);
    SmallTsuKeepsUndoubled(w);
  }

  lemma TableStageKey(w: string, k: string)
    requires Lookup(ROMANJI_TO_HIRAGANA, w) == Some(k) && w != "n"
    requires NotPalatal(w)
    requires NoDoubledConsonant(w)
    ensures TablePass(SmallTsu(PalatalPass(w))) == k
  {
    EarlyStagesKeep(w);
    TablePassToken(w, k);
  }

  /** The stages after `nn` turn a key of the romaji table into its kana. */
  lemma LaterStagesKey(w: string, k: string)
    requires Lookup(ROMANJI_TO_HIRAGANA, w) == Some(k) && w != "n"
    requires NotPalatal(w)
    requires NoDoubledConsonant(w)
    ensures NBeforeWhitespace(NBeforeConsonant(TablePass(SmallTsu(PalatalPass(w))))) == k
  {
    TableStageKey(w, k);
    TableRowScripts(w, k);
    NBeforeConsonantKeeps(k);
    NBeforeWhitespaceKeeps(k);
  }

  /**
   * A key of the romaji table typed on its own, other than the lone `n`, converts to its kana
   * when neither the palatal rewrites nor the small-tsu rule apply to it: keys without `y` or
   * `h`, and the short keys such as shi, chi, ha or ya that are no palatal key.
   */
  lemma ToHiraganaKey(w: string, k: string)
    requires Lookup(ROMANJI_TO_HIRAGANA, w) == Some(k) && w != "n"
    requires NotPalatal(w)
    requires NoDoubledConsonant(w)
    ensures ToHiragana(w) == k
  {
    TableRowScripts(w, k);
    UndoubledHasNoNN(w);
    CollapseKeeps(w);
    LaterStagesKey(w, k);
  }

  // ---------------------------------------------------------------------------------------
  // Palatal syllables

  /**
   * Every palatal key has three letters, so on a three-letter word the palatal rewrites act as
   * one lookup: the first rule for the word, if any, gives its kana.
   */
  lemma PalatalPassSyllable(w: string)
    requires |w| == 3
    ensures PalatalPass(w) == Lookup(PALATAL_RULES, w).GetOr(w)
  {
    PalatalRowsPass(PALATAL_RULES, w);
  }

  /** A three-letter word whose middle letter is not `n` holds no `nn`. */
  lemma NoNNAroundMiddle(w: string)
    requires |w| == 3 && w[1] != 'n'
    ensures !Includes(w, "nn")
  {
    forall i | 0 <= i <= |w| - 2
      ensures !OccursAt(w, "nn", i)
    {
      assert w[1] == w[i..i + 2][1 - i];
    }
  }

  /** A palatal syllable typed on its own becomes its two kana (js/romanji-converter.js:281-333). */
  lemma ToHiraganaPalatal(w: string, k: string)
    requires Lookup(PALATAL_RULES, w) == Some(k)
    ensures ToHiragana(w) == k
  {
    PalatalLookup(PALATAL_RULES, w, k);
    NoNNAroundMiddle(w);
    CollapseKeeps(w);
    PalatalPassSyllable(w);
    KanaThroughLaterStages(k);
    ToHiraganaStages(w, w, k, SmallTsu(k), TablePass(SmallTsu(k)));
  }

  // ---------------------------------------------------------------------------------------
  // The context-dependent `n`

  /**
   * Lower-case text without vowels, `y`, `h` or doubled consonants reaches the `n` rules as
   * typed: the stages before them have nothing to rewrite.
   */
  lemma VowelFreeStages(s: string)
    requires forall i :: 0 <= i < |s| ==> !IsAsciiUpper(s[i])
    requires NoVowel(s) && 'y' !in s && 'h' !in s && NoDoubledConsonant(s)
    ensures ToHiragana(s) == NBeforeWhitespace(NBeforeConsonant(s))
  {
    UndoubledCollapseKeeps(s);
    VowelFreeTableStage(s);
    ToHiraganaStages(s, s, s, s, s);
  }

  lemma UndoubledCollapseKeeps(s: string)
    requires forall i :: 0 <= i < |s| ==> !IsAsciiUpper(s[i])
    requires NoDoubledConsonant(s)
    ensures ReplaceAll(Lower(s), "nn", "ん") == s
  {
    UndoubledHasNoNN(s);
    CollapseKeeps(s);
  }

  lemma VowelFreeTableStage(s: string)
    requires NoVowel(s)
    requires 'y' !in s && 'h' !in s && NoDoubledConsonant(s)
    ensures PalatalPass(s) == s && SmallTsu(s) == s && TablePass(s) == s
  {
    PalatalPassKeeps(s);
    SmallTsuKeepsUndoubled(s);
    TablePassKeepsVowelFree(s);
  }

  /** An `n` at the end of the text has nothing after it and is left for the next keystroke. */
  lemma {:induction false} TrailingNBeforeConsonant(s: string)
    ensures NBeforeConsonant(s + "n") == NBeforeConsonant(s) + "n"
    decreases |s|
  {
    if |s| >= 2 && s[0] == 'n' && IsNasalContext(s[1]) {
      assert (s + "n")[2..] == s[2..] + "n";
      TrailingNBeforeConsonant(s[2..]);
    } else if |s| == 1 {
      var t := s + "n";
      assert t[1..] == "n" && NBeforeConsonant(t[1..]) == "n";
    } else if s != [] {
      assert (s + "n")[1..] == s[1..] + "n";
      TrailingNBeforeConsonant(s[1..]);
    }
  }

  lemma {:induction false} TrailingNBeforeWhitespace(s: string)
    ensures NBeforeWhitespace(s + "n") == NBeforeWhitespace(s) + "n"
    decreases |s|
  {
    if |s| >= 2 && s[0] == 'n' && IsWhitespace(s[1]) {
      assert (s + "n")[2..] == s[2..] + "n";
      TrailingNBeforeWhitespace(s[2..]);
    } else if |s| == 1 {
      var t := s + "n";
      assert t[1..] == "n" && NBeforeWhitespace(t[1..]) == "n";
    } else if s != [] {
      assert (s + "n")[1..] == s[1..] + "n";
      TrailingNBeforeWhitespace(s[1..]);
    }
  }
}
