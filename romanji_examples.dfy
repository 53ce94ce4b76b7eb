/**
 * Worked conversions proved for the converter functions: a syllable from the middle of the
 * romaji table, the doubled `n` before a vowel, and the small tsu that does not survive a
 * round trip through romaji.
 */
module RomanjiExamples {
  import opened JsString
  import opened Nullable
  import opened RewriteRules
  import opened RomanjiTables
  import opened RomanjiConverter

  /**
   * The romaji table looked up series by series: the series before the `m`-th have no key with
   * the same first letter, and the `m`-th series holds the key.
   */
  lemma LookupRomaji(m: nat, k: string, v: string)
    requires m < |ROMANJI_SERIES| && k != []
    requires forall j :: 0 <= j < m ==> NoKeyStartsWith(ROMANJI_SERIES[j], k[0])
    requires Lookup(ROMANJI_SERIES[m], k) == Some(v)
    ensures Lookup(ROMANJI_TO_HIRAGANA, k) == Some(v)
  {
    RomajiFlatten(ROMANJI_SERIES);
    LookupPastInitials(ROMANJI_SERIES, m, k, v);
  }

  lemma LookupA()
    ensures Lookup(ROMANJI_TO_HIRAGANA, "a") == Some("あ")
  {
    LookupRomaji(0, "a", "あ");
  }

  /** No series before the T series has a key starting with `t`. */
  lemma SeriesBeforeT()
    ensures forall j :: 0 <= j < 9 ==> NoKeyStartsWith(ROMANJI_SERIES[j], 't')
  {
  }

  lemma TSeriesTsu()
    ensures Lookup(ROMANJI_SERIES[9], "tsu") == Some("つ")
  {
    assert ROMANJI_SERIES[9] == T_SERIES;
  }

  lemma LookupTsu()
    ensures Lookup(ROMANJI_TO_HIRAGANA, "tsu") == Some("つ")
  {
    SeriesBeforeT();
    TSeriesTsu();
    LookupRomaji(9, "tsu", "つ");
  }

  lemma LookupSmallTsu()
    ensures Lookup(HIRAGANA_TO_ROMANJI, "っ") == Some("tsu")
  {
    KanaTableParts();
    LookupAppend(SINGLE_KANA + DIGRAPHS, SMALL_TSU_KANA, "っ");
    LookupAppend(SINGLE_KANA, DIGRAPHS, "っ");
    forall i | 0 <= i < |SINGLE_KANA|
      ensures SINGLE_KANA[i].key != "っ"
    {
      assert !IsSmallKana(SINGLE_KANA[i].key[0]);
    }
    assert Lookup(SMALL_TSU_KANA, "っ") == Some("tsu");
  }

  /** The palatal rules looked up series by series, as the romaji table is. */
  lemma LookupPalatal(m: nat, k: string, v: string)
    requires m < |PALATAL_SERIES| && k != []
    requires forall j :: 0 <= j < m ==> NoKeyStartsWith(PALATAL_SERIES[j], k[0])
    requires Lookup(PALATAL_SERIES[m], k) == Some(v)
    ensures Lookup(PALATAL_RULES, k) == Some(v)
  {
    PalatalFlatten(PALATAL_SERIES);
    LookupPastInitials(PALATAL_SERIES, m, k, v);
  }

  lemma LookupSha()
    ensures Lookup(PALATAL_RULES, "sha") == Some("しゃ")
  {
    assert forall j :: 0 <= j < 3 ==> NoKeyStartsWith(PALATAL_SERIES[j], 's');
    assert Lookup(PALATAL_SERIES[3], "sha") == Some("しゃ");
    LookupPalatal(3, "sha", "しゃ");
  }

  // ---------------------------------------------------------------------------------------
  // Conversions

  /** A syllable of the table is converted to its kana. */
  lemma ToHiraganaTsu()
    ensures ToHiragana("tsu") == "つ"
  {
    LookupTsu();
    assert NoDoubledConsonant("tsu");
    ToHiraganaKey("tsu", "つ");
  }

  lemma LookupYa()
    ensures Lookup(ROMANJI_TO_HIRAGANA, "ya") == Some("や")
  {
    assert forall j :: 0 <= j < 22 ==> NoKeyStartsWith(ROMANJI_SERIES[j], 'y');
    assert ROMANJI_SERIES[22] == Y_SERIES;
    LookupRomaji(22, "ya", "や");
  }

  /** A key with `y` that is too short for a palatal rewrite goes straight to the table. */
  lemma ToHiraganaYa()
    ensures ToHiragana("ya") == "や"
  {
    LookupYa();
    assert NoDoubledConsonant("ya");
    ToHiraganaKey("ya", "や");
  }

  lemma LookupShi()
    ensures Lookup(ROMANJI_TO_HIRAGANA, "shi") == Some("し")
  {
    assert forall j :: 0 <= j < 5 ==> NoKeyStartsWith(ROMANJI_SERIES[j], 's');
    assert ROMANJI_SERIES[5] == S_SERIES;
    LookupRomaji(5, "shi", "し");
  }

  /** shi is the one s-syllable with `h` that is no palatal key. */
  lemma PalatalMissShi()
    ensures Lookup(PALATAL_RULES, "shi") == None
  {
    var gs := PALATAL_SERIES;
    assert forall j :: 0 <= j < |gs| ==> Lookup(gs[j], "shi") == None;
    PalatalFlatten(gs);
    LookupPastGroups(gs, |gs|, "shi");
    assert gs[|gs|..] == [];
  }

  /** A three-letter key with `h` that is no palatal key goes straight to the table. */
  lemma ToHiraganaShi()
    ensures ToHiragana("shi") == "し"
  {
    LookupShi();
    PalatalMissShi();
    assert NoDoubledConsonant("shi");
    ToHiraganaKey("shi", "し");
  }

  /** A palatal syllable is written with its small ya, yu or yo. */
  lemma ToHiraganaSha()
    ensures ToHiragana("sha") == "しゃ"
  {
    LookupSha();
    ToHiraganaPalatal("sha", "しゃ");
  }

  lemma LookupKyo()
    ensures Lookup(PALATAL_RULES, "kyo") == Some("きょ")
  {
    assert NoKeyStartsWith(PALATAL_SERIES[0], 'k');
    assert Lookup(PALATAL_SERIES[1], "kyo") == Some("きょ");
    LookupPalatal(1, "kyo", "きょ");
  }

  lemma ToHiraganaKyo()
    ensures ToHiragana("kyo") == "きょ"
  {
    LookupKyo();
    ToHiraganaPalatal("kyo", "きょ");
  }

  lemma LookupJya()
    ensures Lookup(PALATAL_RULES, "jya") == Some("じゃ")
  {
    assert Lookup(PALATAL_SERIES[0], "jya") == Some("じゃ");
    LookupPalatal(0, "jya", "じゃ");
  }

  lemma ToHiraganaJya()
    ensures ToHiragana("jya") == "じゃ"
  {
    LookupJya();
    ToHiraganaPalatal("jya", "じゃ");
  }

  /** Capitals are read as their lower-case letters. */
  lemma ToHiraganaCapitals()
    ensures ToHiragana("SHA") == "しゃ"
  {
    ToHiraganaIgnoresCase("SHA");
    assert Lower("SHA") == "sha";
    ToHiraganaSha();
  }

  lemma LookupKya()
    ensures Lookup(HIRAGANA_TO_ROMANJI, "きゃ") == Some("kya")
  {
    KanaTableParts();
    LookupAppend(SINGLE_KANA + DIGRAPHS, SMALL_TSU_KANA, "きゃ");
    LookupAppend(SINGLE_KANA, DIGRAPHS, "きゃ");
    assert forall i :: 0 <= i < |SINGLE_KANA| ==> |SINGLE_KANA[i].key| == 1;
    LookupFlatten(DIGRAPH_ROWS, "きゃ");
    assert Lookup(KYA_DIGRAPHS, "きゃ") == Some("kya");
  }

  /** A kana and its small ya, yu or yo are read together, not one by one. */
  lemma ToRomanjiKya()
    ensures ToRomanji("きゃ") == "kya"
  {
    LookupKya();
    ToRomanjiToken("きゃ", "kya");
  }

  lemma LookupSingleKa()
    ensures Lookup(SINGLE_KANA, "か") == Some("ka")
  {
    assert SINGLE_KANA_ROWS[0] == A_ROW && SINGLE_KANA_ROWS[1] == KA_ROW;
    assert Lookup(A_ROW, "か") == None && Lookup(KA_ROW, "か") == Some("ka");
    SingleKanaFlatten(SINGLE_KANA_ROWS);
    LookupInGroup(SINGLE_KANA_ROWS, 1, "か", "ka");
  }

  lemma LookupKanaKa()
    ensures Lookup(HIRAGANA_TO_ROMANJI, "か") == Some("ka")
  {
    KanaTableParts();
    LookupAppend(SINGLE_KANA + DIGRAPHS, SMALL_TSU_KANA, "か");
    LookupAppend(SINGLE_KANA, DIGRAPHS, "か");
    LookupSingleKa();
  }

  /** A Latin letter after a kana is kept: "かq" romanizes to "kaq". */
  lemma ToRomanjiMixed()
    ensures ToRomanji("かq") == "kaq"
  {
    LookupKanaKa();
    ToRomanjiToken("か", "ka");
    assert Avoids("q", Kana);
    ToRomanjiKeepsSuffix("か", "q");
    assert "かq" == "か" + "q" && "kaq" == "ka" + "q";
  }

  lemma SingleKanaLackWi()
    ensures Unkeyed(SINGLE_KANA, 'ゐ')
  {
    var c := 'ゐ';
    assert Unkeyed(A_ROW, c) && Unkeyed(KA_ROW, c) && Unkeyed(GA_ROW, c) && Unkeyed(SA_ROW, c);
    assert Unkeyed(ZA_ROW, c) && Unkeyed(TA_ROW, c) && Unkeyed(DA_ROW, c) && Unkeyed(NA_ROW, c);
    assert Unkeyed(HA_ROW, c) && Unkeyed(BA_ROW, c) && Unkeyed(PA_ROW, c) && Unkeyed(MA_ROW, c);
    assert Unkeyed(YA_ROW, c) && Unkeyed(RA_ROW, c) && Unkeyed(WA_ROW, c);
    SingleKanaFlatten(SINGLE_KANA_ROWS);
    UnkeyedFlatten(SINGLE_KANA_ROWS, c);
  }

  lemma DigraphsLackWi()
    ensures Unkeyed(DIGRAPHS, 'ゐ')
  {
    var c := 'ゐ';
    assert Unkeyed(KYA_DIGRAPHS, c) && Unkeyed(GYA_DIGRAPHS, c) && Unkeyed(SHA_DIGRAPHS, c);
    assert Unkeyed(JA_DIGRAPHS, c) && Unkeyed(CHA_DIGRAPHS, c) && Unkeyed(NYA_DIGRAPHS, c);
    assert Unkeyed(HYA_DIGRAPHS, c) && Unkeyed(BYA_DIGRAPHS, c) && Unkeyed(PYA_DIGRAPHS, c);
    assert Unkeyed(MYA_DIGRAPHS, c) && Unkeyed(RYA_DIGRAPHS, c);
    DigraphFlatten(DIGRAPH_ROWS);
    UnkeyedFlatten(DIGRAPH_ROWS, c);
  }

  /** The obsolete kana ゐ is in no key of the kana table. */
  lemma KanaTableLacksWi()
    ensures KanaTableLacks('ゐ')
  {
    SingleKanaLackWi();
    DigraphsLackWi();
    KanaTableParts();
    forall i | 0 <= i < |HIRAGANA_TO_ROMANJI|
      ensures 'ゐ' !in HIRAGANA_TO_ROMANJI[i].key
    {
      if i < |SINGLE_KANA| {
        assert HIRAGANA_TO_ROMANJI[i] == SINGLE_KANA[i];
      } else if i < |SINGLE_KANA| + |DIGRAPHS| {
        assert HIRAGANA_TO_ROMANJI[i] == DIGRAPHS[i - |SINGLE_KANA|];
      } else {
        assert HIRAGANA_TO_ROMANJI[i] == Rule("っ", "tsu");
      }
    }
  }

  /** A kana outside the table passes through romanization: "かゐ" gives "kaゐ". */
  lemma ToRomanjiUnmappedKana()
    ensures ToRomanji("かゐ") == "kaゐ"
  {
    KanaTableLacksWi();
    LookupKanaKa();
    ToRomanjiToken("か", "ka");
    ToRomanjiKeepsCharacter("か", 'ゐ', "");
    ToRomanjiKeepsNonKana("");
    assert "か" + ['ゐ'] + "" == "かゐ" && "ka" + ['ゐ'] + "" == "kaゐ";
  }

  /** The small tsu is converted to `tsu` on the way to romaji. */
  lemma ToRomanjiSmallTsu()
    ensures ToRomanji("っ") == "tsu"
  {
    LookupSmallTsu();
    ToRomanjiToken("っ", "tsu");
  }

  /** The small tsu does not survive a round trip: its romaji reads back as the full-size つ. */
  lemma SmallTsuDoesNotRoundTrip()
    ensures ToHiragana(ToRomanji("っ")) == "つ" != "っ"
  {
    ToRomanjiSmallTsu();
    ToHiraganaTsu();
  }

  // `nn` followed by a vowel: the `nn` is taken first, so the vowel stands alone.

  lemma CollapseDoubleNBeforeVowel()
    ensures ReplaceAll(Lower("nna"), "nn", "ん") == "んa"
  {
    LowerIdentity("nna");
    assert "nna"[..2] == "nn" && "nna"[2..] == "a";
  }

  lemma TablePassAfterN()
    ensures TablePass("んa") == "んあ"
  {
    LookupA();
    assert "ん" + "a" == "んa" && "ん" + "あ" == "んあ";
    TablePassAfterKana("ん", "a", "あ", "んa", "んあ");
  }

  lemma MiddleStagesAfterN()
    ensures PalatalPass("んa") == "んa" && SmallTsu("んa") == "んa"
  {
    PalatalPassKeeps("んa");
  }

  lemma LastStagesAfterN()
    ensures NBeforeWhitespace(NBeforeConsonant("んあ")) == "んあ"
  {
    NBeforeConsonantKeeps("んあ");
    NBeforeWhitespaceKeeps("んあ");
  }

  lemma ToHiraganaDoubleNBeforeVowel()
    ensures ToHiragana("nna") == "んあ"
  {
    CollapseDoubleNBeforeVowel();
    MiddleStagesAfterN();
    TablePassAfterN();
    LastStagesAfterN();
    ToHiraganaStages("nna", "んa", "んa", "んa", "んあ");
  }

  // A doubled consonant becomes a small tsu before its syllable.

  lemma LookupKa()
    ensures Lookup(ROMANJI_TO_HIRAGANA, "ka") == Some("か")
  {
    assert NoKeyStartsWith(ROMANJI_SERIES[0], 'k');
    assert Lookup(ROMANJI_SERIES[1], "ka") == Some("か");
    LookupRomaji(1, "ka", "か");
  }

  lemma EarlyStagesKka()
    ensures ReplaceAll(Lower("kka"), "nn", "ん") == "kka" && PalatalPass("kka") == "kka"
  {
    assert !Includes("kka", "nn") by {
      AbsentByCharacter("kka", "nn", 0);
    }
    CollapseKeeps("kka");
    PalatalPassKeeps("kka");
  }

  lemma SmallTsuKka()
    ensures SmallTsu("kka") == "っka"
  {
    assert "kka" == ['k', 'k'] + "a";
    SmallTsuDoubledConsonant('k', "a");
    assert SmallTsu("a") == "a";
  }

  lemma TablePassKka()
    ensures TablePass("っka") == "っか"
  {
    LookupKa();
    assert "っ" + "ka" == "っka" && "っ" + "か" == "っか";
    TablePassAfterKana("っ", "ka", "か", "っka", "っか");
  }

  lemma LastStagesKka()
    ensures NBeforeWhitespace(NBeforeConsonant("っか")) == "っか"
  {
    NBeforeConsonantKeeps("っか");
    NBeforeWhitespaceKeeps("っか");
  }

  lemma ToHiraganaDoubledConsonant()
    ensures ToHiragana("kka") == "っか"
  {
    EarlyStagesKka();
    SmallTsuKka();
    TablePassKka();
    LastStagesKka();
    ToHiraganaStages("kka", "kka", "kka", "っka", "っか");
  }

  // The lone `n` and consonants no syllable uses: the stages before the `n` rules keep them.

  /** `s` is lower case, without vowels, `y`, `h` or doubled consonants. */
  predicate ReachesNRules(s: string) {
    (forall i :: 0 <= i < |s| ==> !IsAsciiUpper(s[i]))
    && NoVowel(s) && 'y' !in s && 'h' !in s && NoDoubledConsonant(s)
  }

  lemma ToHiraganaByNRules(s: string, r: string)
    requires ReachesNRules(s)
    requires NBeforeWhitespace(NBeforeConsonant(s)) == r
    ensures ToHiragana(s) == r
  {
    VowelFreeStages(s);
  }

  /** A trailing `n` stays Latin, waiting for the next keystroke. */
  lemma ToHiraganaTrailingN()
    ensures ToHiragana("n") == "n"
  {
    assert ReachesNRules("n");
    assert NBeforeConsonant("n") == "n" && NBeforeWhitespace("n") == "n";
    ToHiraganaByNRules("n", "n");
  }

  lemma NRulesNb()
    ensures NBeforeWhitespace(NBeforeConsonant("nb")) == "んb"
  {
    assert NBeforeConsonant("nb") == "んb";
  }

  /** An `n` before a consonant is ん. */
  lemma ToHiraganaNBeforeConsonant()
    ensures ToHiragana("nb") == "んb"
  {
    assert ReachesNRules("nb");
    NRulesNb();
    ToHiraganaByNRules("nb", "んb");
  }

  lemma NRulesNTab()
    ensures NBeforeWhitespace(NBeforeConsonant("n\t")) == "ん "
  {
    assert NBeforeConsonant("n\t") == "n\t";
  }

  /** An `n` before white space is ん followed by a space. */
  lemma ToHiraganaNBeforeTab()
    ensures ToHiragana("n\t") == "ん "
  {
    assert ReachesNRules("n\t");
    NRulesNTab();
    ToHiraganaByNRules("n\t", "ん ");
  }

  /** A consonant no syllable uses is kept, not removed. */
  lemma ToHiraganaStrayConsonant(c: char)
    requires c == 'q' || c == 'l'
    ensures ToHiragana([c]) == [c]
  {
    assert ReachesNRules([c]);
    NBeforeConsonantKeeps([c]);
    NBeforeWhitespaceKeeps([c]);
    ToHiraganaByNRules([c], [c]);
  }

  /** No series before the N series has a key starting with `n`. */
  lemma SeriesBeforeN()
    ensures forall j :: 0 <= j < 12 ==> NoKeyStartsWith(ROMANJI_SERIES[j], 'n')
  {
  }

  lemma LookupNa()
    ensures Lookup(ROMANJI_TO_HIRAGANA, "na") == Some("な")
  {
    SeriesBeforeN();
    assert Lookup(ROMANJI_SERIES[12], "na") == Some("な");
    LookupRomaji(12, "na", "な");
  }

  /** Followed by a vowel, `n` is read with it. */
  lemma ToHiraganaNa()
    ensures ToHiragana("na") == "な"
  {
    LookupNa();
    assert NoDoubledConsonant("na");
    ToHiraganaKey("na", "な");
  }
}
