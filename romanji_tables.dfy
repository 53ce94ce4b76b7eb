/**
 * The conversion tables of js/romanji-converter.js, as ordered lists of rules. Every row is
 * typed with the shape it has in the source: this is checked row by row, so that the
 * transliteration lemmas can rely on those shapes without reading the tables again.
 */
module RomanjiTables {
  import opened JsString
  import opened RewriteRules
  import opened Nullable

  predicate IsVowel(c: char) { c == 'a' || c == 'e' || c == 'i' || c == 'o' || c == 'u' }

  /** `s` holds a vowel (written recursively so that it can be checked on a literal row). */
  predicate HasVowel(s: string) { s != [] && (IsVowel(s[0]) || HasVowel(s[1..])) }

  /** The small kana, which only ever follow another kana. */
  predicate IsSmallKana(c: char) {
    c in {'ぁ', 'ぃ', 'ぅ', 'ぇ', 'ぉ', 'っ', 'ゃ', 'ゅ', 'ょ', 'ゎ'}
  }

  /** A row of the romaji table: a Latin key that is `n` or holds a vowel, and a hiragana value. */
  predicate IsRomajiRow(r: Rule) {
    Transliterates(r, Latin, Kana) && (r.key == "n" || HasVowel(r.key))
  }

  type RomajiRow = r: Rule | IsRomajiRow(r) witness Rule("a", "あ")

  /** A palatal digraph rule: a consonant, `y` or `h`, then a vowel, written as two kana. */
  predicate IsPalatalRow(r: Rule) {
    Transliterates(r, Latin, Kana) && |r.key| == 3 && (r.key[1] == 'y' || r.key[1] == 'h')
  }

  type PalatalRow = r: Rule | IsPalatalRow(r) witness Rule("kya", "きゃ")

  /** Every key found in a table of palatal rows has the palatal shape. */
  lemma PalatalLookup(rs: seq<PalatalRow>, w: string, k: string)
    requires Lookup(rs, w) == Some(k)
    ensures |w| == 3 && (w[1] == 'y' || w[1] == 'h')
    ensures IsWord(w, Latin) && Avoids(k, Latin)
  {
    var i :| 0 <= i < |rs| && rs[i] == Rule(w, k);
    assert IsPalatalRow(rs[i]);
    WordAvoidsOther(k, Kana, Latin);
  }

  /** All palatal keys have three letters, so on a three-letter word a pass is one lookup. */
  lemma PalatalRowsPass(rs: seq<PalatalRow>, w: string)
    requires |w| == 3
    ensures NonEmptyKeys(rs) && ApplyRules(rs, w) == Lookup(rs, w).GetOr(w)
  {
    assert AllTransliterate(rs, Latin, Kana);
    assert forall i :: 0 <= i < |rs| ==> |rs[i].key| == |w|;
    SameLengthPass(rs, w, Latin, Kana);
  }

  /** A row of the kana table: hiragana rewritten to a Latin word. */
  predicate IsKanaRow(r: Rule) { Transliterates(r, Kana, Latin) }

  /** A one-kana row: a single full-size kana. */
  predicate IsSingleKanaRow(r: Rule) { IsKanaRow(r) && |r.key| == 1 && !IsSmallKana(r.key[0]) }

  type SingleKanaRow = r: Rule | IsSingleKanaRow(r) witness Rule("あ", "a")

  /** A two-kana row: a kana followed by a small ya, yu or yo. */
  predicate IsDigraphRow(r: Rule) { IsKanaRow(r) && |r.key| == 2 }

  type DigraphRow = r: Rule | IsDigraphRow(r) witness Rule("きゃ", "kya")

  // The map of hiraganaToRomanji (js/romanji-converter.js:5-111), one gojuon row per constant.
  const A_ROW: seq<SingleKanaRow> := [
    Rule("あ", "a"), Rule("い", "i"), Rule("う", "u"), Rule("え", "e"), Rule("お", "o")
  ]
  const KA_ROW: seq<SingleKanaRow> := [
    Rule("か", "ka"), Rule("き", "ki"), Rule("く", "ku"), Rule("け", "ke"), Rule("こ", "ko")
  ]
  const GA_ROW: seq<SingleKanaRow> := [
    Rule("が", "ga"), Rule("ぎ", "gi"), Rule("ぐ", "gu"), Rule("げ", "ge"), Rule("ご", "go")
  ]
  const SA_ROW: seq<SingleKanaRow> := [
    Rule("さ", "sa"), Rule("し", "shi"), Rule("す", "su"), Rule("せ", "se"), Rule("そ", "so")
  ]
  const ZA_ROW: seq<SingleKanaRow> := [
    Rule("ざ", "za"), Rule("じ", "ji"), Rule("ず", "zu"), Rule("ぜ", "ze"), Rule("ぞ", "zo")
  ]
  const TA_ROW: seq<SingleKanaRow> := [
    Rule("た", "ta"), Rule("ち", "chi"), Rule("つ", "tsu"), Rule("て", "te"), Rule("と", "to")
  ]
  const DA_ROW: seq<SingleKanaRow> := [
    Rule("だ", "da"), Rule("ぢ", "ji"), Rule("づ", "zu"), Rule("で", "de"), Rule("ど", "do")
  ]
  const NA_ROW: seq<SingleKanaRow> := [
    Rule("な", "na"), Rule("に", "ni"), Rule("ぬ", "nu"), Rule("ね", "ne"), Rule("の", "no")
  ]
  const HA_ROW: seq<SingleKanaRow> := [
    Rule("は", "ha"), Rule("ひ", "hi"), Rule("ふ", "fu"), Rule("へ", "he"), Rule("ほ", "ho")
  ]
  const BA_ROW: seq<SingleKanaRow> := [
    Rule("ば", "ba"), Rule("び", "bi"), Rule("ぶ", "bu"), Rule("べ", "be"), Rule("ぼ", "bo")
  ]
  const PA_ROW: seq<SingleKanaRow> := [
    Rule("ぱ", "pa"), Rule("ぴ", "pi"), Rule("ぷ", "pu"), Rule("ぺ", "pe"), Rule("ぽ", "po")
  ]
  const MA_ROW: seq<SingleKanaRow> := [
    Rule("ま", "ma"), Rule("み", "mi"), Rule("む", "mu"), Rule("め", "me"), Rule("も", "mo")
  ]
  const YA_ROW: seq<SingleKanaRow> := [Rule("や", "ya"), Rule("ゆ", "yu"), Rule("よ", "yo")]
  const RA_ROW: seq<SingleKanaRow> := [
    Rule("ら", "ra"), Rule("り", "ri"), Rule("る", "ru"), Rule("れ", "re"), Rule("ろ", "ro")
  ]
  const WA_ROW: seq<SingleKanaRow> := [Rule("わ", "wa"), Rule("を", "wo"), Rule("ん", "n")]
  const SINGLE_KANA_ROWS: seq<seq<SingleKanaRow>> := [A_ROW, KA_ROW, GA_ROW, SA_ROW, ZA_ROW, TA_ROW, DA_ROW, NA_ROW, HA_ROW, BA_ROW, PA_ROW, MA_ROW, YA_ROW, RA_ROW, WA_ROW]
  const KYA_DIGRAPHS: seq<DigraphRow> := [Rule("きゃ", "kya"), Rule("きゅ", "kyu"), Rule("きょ", "kyo")]
  const GYA_DIGRAPHS: seq<DigraphRow> := [Rule("ぎゃ", "gya"), Rule("ぎゅ", "gyu"), Rule("ぎょ", "gyo")]
  const SHA_DIGRAPHS: seq<DigraphRow> := [Rule("しゃ", "sha"), Rule("しゅ", "shu"), Rule("しょ", "sho")]
  const JA_DIGRAPHS: seq<DigraphRow> := [Rule("じゃ", "ja"), Rule("じゅ", "ju"), Rule("じょ", "jo")]
  const CHA_DIGRAPHS: seq<DigraphRow> := [Rule("ちゃ", "cha"), Rule("ちゅ", "chu"), Rule("ちょ", "cho")]
  const NYA_DIGRAPHS: seq<DigraphRow> := [Rule("にゃ", "nya"), Rule("にゅ", "nyu"), Rule("にょ", "nyo")]
  const HYA_DIGRAPHS: seq<DigraphRow> := [Rule("ひゃ", "hya"), Rule("ひゅ", "hyu"), Rule("ひょ", "hyo")]
  const BYA_DIGRAPHS: seq<DigraphRow> := [Rule("びゃ", "bya"), Rule("びゅ", "byu"), Rule("びょ", "byo")]
  const PYA_DIGRAPHS: seq<DigraphRow> := [Rule("ぴゃ", "pya"), Rule("ぴゅ", "pyu"), Rule("ぴょ", "pyo")]
  const MYA_DIGRAPHS: seq<DigraphRow> := [Rule("みゃ", "mya"), Rule("みゅ", "myu"), Rule("みょ", "myo")]
  const RYA_DIGRAPHS: seq<DigraphRow> := [Rule("りゃ", "rya"), Rule("りゅ", "ryu"), Rule("りょ", "ryo")]
  const DIGRAPH_ROWS: seq<seq<DigraphRow>> := [KYA_DIGRAPHS, GYA_DIGRAPHS, SHA_DIGRAPHS, JA_DIGRAPHS, CHA_DIGRAPHS, NYA_DIGRAPHS, HYA_DIGRAPHS, BYA_DIGRAPHS, PYA_DIGRAPHS, MYA_DIGRAPHS, RYA_DIGRAPHS]

  const SINGLE_KANA: seq<SingleKanaRow> := Flatten(SINGLE_KANA_ROWS)

  const DIGRAPHS: seq<DigraphRow> := Flatten(DIGRAPH_ROWS)

  /** The keys of hiraganaToRomanji in insertion order: one-kana keys, digraphs, then っ. */
  const SMALL_TSU_KANA: seq<Rule> := [Rule("っ", "tsu")]

  const HIRAGANA_TO_ROMANJI: seq<Rule> := Flatten([SINGLE_KANA, DIGRAPHS, SMALL_TSU_KANA])

  lemma {:induction false} SingleKanaFlatten(gs: seq<seq<SingleKanaRow>>)
    ensures Flatten<SingleKanaRow>(gs) == Flatten<Rule>(gs)
  {
    if gs != [] {
      SingleKanaFlatten(gs[1..]);
    }
  }

  lemma {:induction false} DigraphFlatten(gs: seq<seq<DigraphRow>>)
    ensures Flatten<DigraphRow>(gs) == Flatten<Rule>(gs)
  {
    if gs != [] {
      DigraphFlatten(gs[1..]);
    }
  }

  /** The kana table is its three parts one after the other. */
  lemma KanaTableParts()
    ensures HIRAGANA_TO_ROMANJI == SINGLE_KANA + DIGRAPHS + SMALL_TSU_KANA
  {
    var gs: seq<seq<Rule>> := [SINGLE_KANA, DIGRAPHS, SMALL_TSU_KANA];
    assert gs[0] == SINGLE_KANA && gs[1..] == [DIGRAPHS, SMALL_TSU_KANA];
    assert gs[1..][0] == DIGRAPHS && gs[1..][1..] == [SMALL_TSU_KANA];
    assert gs[1..][1..][0] == SMALL_TSU_KANA && gs[1..][1..][1..] == [];
    assert Flatten(gs[1..][1..]) == SMALL_TSU_KANA + [];
    assert Flatten(gs[1..]) == DIGRAPHS + Flatten(gs[1..][1..]);
    assert Flatten(gs) == SINGLE_KANA + Flatten(gs[1..]);
  }

  /** Every row of the kana table rewrites hiragana to a Latin word. */
  lemma KanaTableTransliterates()
    ensures AllTransliterate(HIRAGANA_TO_ROMANJI, Kana, Latin)
  {
    KanaTableParts();
    forall i | 0 <= i < |HIRAGANA_TO_ROMANJI|
      ensures Transliterates(HIRAGANA_TO_ROMANJI[i], Kana, Latin)
    {
      if i < |SINGLE_KANA| {
        assert HIRAGANA_TO_ROMANJI[i] == SINGLE_KANA[i];
      } else if i < |SINGLE_KANA| + |DIGRAPHS| {
        assert HIRAGANA_TO_ROMANJI[i] == DIGRAPHS[i - |SINGLE_KANA|];
      } else {
        assert HIRAGANA_TO_ROMANJI[i] == Rule("っ", "tsu");
        assert IsWord("tsu", Latin);
      }
    }
  }

  // The romanjiToHiragana table (js/romanji-converter.js:130-271) in source order, in groups of
  // at most seven rows: each series of the source's comments is split into its plain syllables
  // and its palatal digraphs, and the S, T and H series in their voiced halves as well.
  const BASIC_VOWELS: seq<RomajiRow> := [
    Rule("a", "あ"), Rule("i", "い"), Rule("u", "う"), Rule("e", "え"), Rule("o", "お")
  ]
  const K_SERIES: seq<RomajiRow> := [
    Rule("ka", "か"), Rule("ki", "き"), Rule("ku", "く"), Rule("ke", "け"), Rule("ko", "こ")
  ]
  const KY_SERIES: seq<RomajiRow> := [Rule("kya", "きゃ"), Rule("kyu", "きゅ"), Rule("kyo", "きょ")]
  const G_SERIES: seq<RomajiRow> := [
    Rule("ga", "が"), Rule("gi", "ぎ"), Rule("gu", "ぐ"), Rule("ge", "げ"), Rule("go", "ご")
  ]
  const GY_SERIES: seq<RomajiRow> := [Rule("gya", "ぎゃ"), Rule("gyu", "ぎゅ"), Rule("gyo", "ぎょ")]
  const S_SERIES: seq<RomajiRow> := [
    Rule("sa", "さ"), Rule("shi", "し"), Rule("si", "し"), Rule("su", "す"), Rule("se", "せ"),
    Rule("so", "そ")
  ]
  const SH_SERIES: seq<RomajiRow> := [Rule("sha", "しゃ"), Rule("shu", "しゅ"), Rule("sho", "しょ")]
  const Z_SERIES: seq<RomajiRow> := [
    Rule("za", "ざ"), Rule("ji", "じ"), Rule("zu", "ず"), Rule("ze", "ぜ"), Rule("zo", "ぞ")
  ]
  const J_SERIES: seq<RomajiRow> := [Rule("ja", "じゃ"), Rule("ju", "じゅ"), Rule("jo", "じょ")]
  const T_SERIES: seq<RomajiRow> := [
    Rule("ta", "た"), Rule("chi", "ち"), Rule("ti", "ち"), Rule("tsu", "つ"), Rule("tu", "つ"),
    Rule("te", "て"), Rule("to", "と")
  ]
  const CH_SERIES: seq<RomajiRow> := [Rule("cha", "ちゃ"), Rule("chu", "ちゅ"), Rule("cho", "ちょ")]
  const D_SERIES: seq<RomajiRow> := [Rule("da", "だ"), Rule("de", "で"), Rule("do", "ど")]
  const N_SERIES: seq<RomajiRow> := [
    Rule("na", "な"), Rule("ni", "に"), Rule("nu", "ぬ"), Rule("ne", "ね"), Rule("no", "の")
  ]
  const NY_SERIES: seq<RomajiRow> := [Rule("nya", "にゃ"), Rule("nyu", "にゅ"), Rule("nyo", "にょ")]
  const H_SERIES: seq<RomajiRow> := [
    Rule("ha", "は"), Rule("hi", "ひ"), Rule("fu", "ふ"), Rule("hu", "ふ"), Rule("he", "へ"),
    Rule("ho", "ほ")
  ]
  const HY_SERIES: seq<RomajiRow> := [Rule("hya", "ひゃ"), Rule("hyu", "ひゅ"), Rule("hyo", "ひょ")]
  const B_SERIES: seq<RomajiRow> := [
    Rule("ba", "ば"), Rule("bi", "び"), Rule("bu", "ぶ"), Rule("be", "べ"), Rule("bo", "ぼ")
  ]
  const BY_SERIES: seq<RomajiRow> := [Rule("bya", "びゃ"), Rule("byu", "びゅ"), Rule("byo", "びょ")]
  const P_SERIES: seq<RomajiRow> := [
    Rule("pa", "ぱ"), Rule("pi", "ぴ"), Rule("pu", "ぷ"), Rule("pe", "ぺ"), Rule("po", "ぽ")
  ]
  const PY_SERIES: seq<RomajiRow> := [Rule("pya", "ぴゃ"), Rule("pyu", "ぴゅ"), Rule("pyo", "ぴょ")]
  const M_SERIES: seq<RomajiRow> := [
    Rule("ma", "ま"), Rule("mi", "み"), Rule("mu", "む"), Rule("me", "め"), Rule("mo", "も")
  ]
  const MY_SERIES: seq<RomajiRow> := [Rule("mya", "みゃ"), Rule("myu", "みゅ"), Rule("myo", "みょ")]
  const Y_SERIES: seq<RomajiRow> := [Rule("ya", "や"), Rule("yu", "ゆ"), Rule("yo", "よ")]
  const R_SERIES: seq<RomajiRow> := [
    Rule("ra", "ら"), Rule("ri", "り"), Rule("ru", "る"), Rule("re", "れ"), Rule("ro", "ろ")
  ]
  const RY_SERIES: seq<RomajiRow> := [Rule("rya", "りゃ"), Rule("ryu", "りゅ"), Rule("ryo", "りょ")]
  const W_SERIES: seq<RomajiRow> := [Rule("wa", "わ"), Rule("wo", "を"), Rule("n", "ん")]
  const SMALL_TSU: seq<RomajiRow> := [Rule("xtsu", "っ"), Rule("xtu", "っ")]
  const LONG_VOWELS: seq<RomajiRow> := [
    Rule("aa", "ああ"), Rule("ii", "いい"), Rule("uu", "うう"), Rule("ee", "ええ"), Rule("oo", "おお"),
    Rule("ou", "おう"), Rule("ei", "えい")
  ]
  const ROMANJI_SERIES: seq<seq<RomajiRow>> := [
    BASIC_VOWELS, K_SERIES, KY_SERIES, G_SERIES, GY_SERIES, S_SERIES, SH_SERIES, Z_SERIES,
    J_SERIES, T_SERIES, CH_SERIES, D_SERIES, N_SERIES, NY_SERIES, H_SERIES, HY_SERIES, B_SERIES,
    BY_SERIES, P_SERIES, PY_SERIES, M_SERIES, MY_SERIES, Y_SERIES, R_SERIES, RY_SERIES, W_SERIES,
    SMALL_TSU, LONG_VOWELS
  ]

  const ROMANJI_TO_HIRAGANA: seq<RomajiRow> := Flatten(ROMANJI_SERIES)

  /** Flattening series of romaji rows gives the same rules as flattening them as plain rules. */
  lemma {:induction false} RomajiFlatten(gs: seq<seq<RomajiRow>>)
    ensures Flatten<RomajiRow>(gs) == Flatten<Rule>(gs)
  {
    if gs != [] {
      RomajiFlatten(gs[1..]);
    }
  }

  // The palatal rewrites of convertRomanjiToHiragana (js/romanji-converter.js:281-333), in order.
  const J_PALATALS: seq<PalatalRow> := [Rule("jya", "じゃ"), Rule("jyu", "じゅ"), Rule("jyo", "じょ")]
  const K_PALATALS: seq<PalatalRow> := [Rule("kya", "きゃ"), Rule("kyu", "きゅ"), Rule("kyo", "きょ")]
  const G_PALATALS: seq<PalatalRow> := [Rule("gya", "ぎゃ"), Rule("gyu", "ぎゅ"), Rule("gyo", "ぎょ")]
  const S_PALATALS: seq<PalatalRow> := [Rule("sha", "しゃ"), Rule("shu", "しゅ"), Rule("sho", "しょ")]
  const T_PALATALS: seq<PalatalRow> := [Rule("cha", "ちゃ"), Rule("chu", "ちゅ"), Rule("cho", "ちょ")]
  const N_PALATALS: seq<PalatalRow> := [Rule("nya", "にゃ"), Rule("nyu", "にゅ"), Rule("nyo", "にょ")]
  const H_PALATALS: seq<PalatalRow> := [Rule("hya", "ひゃ"), Rule("hyu", "ひゅ"), Rule("hyo", "ひょ")]
  const B_PALATALS: seq<PalatalRow> := [Rule("bya", "びゃ"), Rule("byu", "びゅ"), Rule("byo", "びょ")]
  const P_PALATALS: seq<PalatalRow> := [Rule("pya", "ぴゃ"), Rule("pyu", "ぴゅ"), Rule("pyo", "ぴょ")]
  const M_PALATALS: seq<PalatalRow> := [Rule("mya", "みゃ"), Rule("myu", "みゅ"), Rule("myo", "みょ")]
  const R_PALATALS: seq<PalatalRow> := [Rule("rya", "りゃ"), Rule("ryu", "りゅ"), Rule("ryo", "りょ")]
  const PALATAL_SERIES: seq<seq<PalatalRow>> := [J_PALATALS, K_PALATALS, G_PALATALS, S_PALATALS, T_PALATALS, N_PALATALS, H_PALATALS, B_PALATALS, P_PALATALS, M_PALATALS, R_PALATALS]

  const PALATAL_RULES: seq<PalatalRow> := Flatten(PALATAL_SERIES)

  /** Flattening series of palatal rows gives the same rules as flattening them as plain rules. */
  lemma {:induction false} PalatalFlatten(gs: seq<seq<PalatalRow>>)
    ensures Flatten<PalatalRow>(gs) == Flatten<Rule>(gs)
  {
    if gs != [] {
      PalatalFlatten(gs[1..]);
    }
  }
}
