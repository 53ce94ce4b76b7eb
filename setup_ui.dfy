/**
 * The pure helpers of js/setup-ui.js: the SRS stage names and colour classes of the preview,
 * the segmented progress bar, and the client-side filters of the kanji count.
 */
module SetupUi {
  import opened Nullable
  import opened JsString
  import opened SrsUtils

  // ---------------------------------------------------------------------------------------
  // getSrsStageName (js/setup-ui.js:354-371)

  // The capitalised words of the display names. The longer ones are written in pieces of
  // a few letters: the verifier unfolds `Lower` over a long literal only at great cost.
  const APPRENTICE_WORD := "App" + "ren" + "tice"
  const GURU_WORD := "Guru"
  const MASTER_WORD := "Ma" + "ster"
  const ENLIGHTENED_WORD := "Enl" + "igh" + "tened"
  const BURNED_WORD := "Bu" + "rned"
  const LOCKED_WORD := "Lo" + "cked"

  /** The display name of an integer stage. */
  function GetSrsStageName(srsStage: int): string {
    if 1 <= srsStage <= 4 then APPRENTICE_WORD + " " + NatToString(srsStage)
    else if 5 <= srsStage <= 6 then GURU_WORD + " " + NatToString(srsStage - 4)
    else if srsStage == 7 then MASTER_WORD
    else if srsStage == 8 then ENLIGHTENED_WORD
    else if srsStage == 9 then BURNED_WORD
    else LOCKED_WORD
  }

  /** The first word of a name. */
  function FirstWord(s: string): string {
    Split(s, ' ')[0]
  }

  lemma FirstWordOf(a: string, b: string)
    requires ' ' !in a
    ensures FirstWord(a + " " + b) == a
  {
    SplitAfterFirst(a, ' ', b);
    assert a + " " + b == a + [' '] + b;
  }

  /**
   * The display name and the filter name use the same buckets: the first word of the
   * display name, lower-cased, is the simple stage name.
   */
  lemma StageNameAgrees(srsStage: int)
    ensures Lower(FirstWord(GetSrsStageName(srsStage))) == GetSimpleStageName(Some(srsStage as real))
  {
    if 1 <= srsStage <= 6 {
      NumberedStageAgrees(srsStage);
    } else {
      SingleWordStageAgrees(srsStage);
    }
  }

  lemma NumberedStageAgrees(srsStage: int)
    requires 1 <= srsStage <= 6
    ensures Lower(FirstWord(GetSrsStageName(srsStage))) == GetSimpleStageName(Some(srsStage as real))
  {
    if srsStage <= 4 {
      LowerApprentice();
      FirstWordOf(APPRENTICE_WORD, NatToString(srsStage));
    } else {
      LowerGuru();
      FirstWordOf(GURU_WORD, NatToString(srsStage - 4));
    }
  }

  lemma SingleWordStageAgrees(srsStage: int)
    requires !(1 <= srsStage <= 6)
    ensures Lower(FirstWord(GetSrsStageName(srsStage))) == GetSimpleStageName(Some(srsStage as real))
  {
    var name := GetSrsStageName(srsStage);
    if srsStage == 7 {
      LowerMaster();
      SingleWordAgrees(name, "master");
    } else if srsStage == 8 {
      LowerEnlightened();
      SingleWordAgrees(name, "enlightened");
    } else if srsStage == 9 {
      LowerBurned();
      SingleWordAgrees(name, "burned");
    } else {
      LowerLocked();
      SingleWordAgrees(name, "locked");
    }
  }

  /** A name without a space is its own first word. */
  lemma SingleWordAgrees(name: string, lowered: string)
    requires ' ' !in name && Lower(name) == lowered
    ensures Lower(FirstWord(name)) == lowered
  {
  }

  /** A word of two pieces lowers to the two pieces lowered. */
  lemma LowerTwo(a: string, b: string, la: string, lb: string)
    requires Lower(a) == la && Lower(b) == lb
    ensures Lower(a + b) == la + lb
  {
    LowerAppend(a, b);
  }

  /** A word of three pieces lowers to the three pieces lowered. */
  lemma LowerThree(a: string, b: string, c: string, la: string, lb: string, lc: string)
    requires Lower(a) == la && Lower(b) == lb && Lower(c) == lc
    ensures Lower(a + b + c) == la + lb + lc
  {
    LowerAppend(a + b, c);
    LowerAppend(a, b);
  }

  lemma LowerApprentice()
    ensures ' ' !in APPRENTICE_WORD && Lower(APPRENTICE_WORD) == "apprentice"
  {
    LowerApprenticePieces();
    LowerThree("App", "ren", "tice", "app", "ren", "tice");
  }

  lemma LowerGuru()
    ensures ' ' !in GURU_WORD && Lower(GURU_WORD) == "guru"
  {
  }

  lemma LowerMaster()
    ensures ' ' !in MASTER_WORD && Lower(MASTER_WORD) == "master"
  {
    LowerMasterPieces();
    LowerTwo("Ma", "ster", "ma", "ster");
  }

  lemma LowerEnlightened()
    ensures ' ' !in ENLIGHTENED_WORD && Lower(ENLIGHTENED_WORD) == "enlightened"
  {
    LowerEnlightenedPieces();
    LowerThree("Enl", "igh", "tened", "enl", "igh", "tened");
  }

  lemma LowerBurned()
    ensures ' ' !in BURNED_WORD && Lower(BURNED_WORD) == "burned"
  {
    LowerBurnedPieces();
    LowerTwo("Bu", "rned", "bu", "rned");
  }

  lemma LowerLocked()
    ensures ' ' !in LOCKED_WORD && Lower(LOCKED_WORD) == "locked"
  {
    LowerLockedPieces();
    LowerTwo("Lo", "cked", "lo", "cked");
  }

  lemma LowerApprenticePieces()
    ensures Lower("App") == "app" && Lower("ren") == "ren" && Lower("tice") == "tice"
  {
  }

  lemma LowerMasterPieces()
    ensures Lower("Ma") == "ma" && Lower("ster") == "ster"
  {
  }

  lemma LowerEnlightenedPieces()
    ensures Lower("Enl") == "enl" && Lower("igh") == "igh" && Lower("tened") == "tened"
  {
  }

  lemma LowerBurnedPieces()
    ensures Lower("Bu") == "bu" && Lower("rned") == "rned"
  {
  }

  lemma LowerLockedPieces()
    ensures Lower("Lo") == "lo" && Lower("cked") == "cked"
  {
  }

  /** The number in an apprentice or guru name is the position within that bucket. */
  lemma StageNameLevel(srsStage: int)
    requires 1 <= srsStage <= 6
    ensures var level := if srsStage <= 4 then srsStage else srsStage - 4;
      exists w, digits :: GetSrsStageName(srsStage) == w + " " + digits && ParseDigits(digits) == level
  {
    var level := if srsStage <= 4 then srsStage else srsStage - 4;
    ParseNatToString(level);
    var w := if srsStage <= 4 then APPRENTICE_WORD else GURU_WORD;
    assert GetSrsStageName(srsStage) == w + " " + NatToString(level);
  }

  // ---------------------------------------------------------------------------------------
  // getSrsStageColorClass (js/setup-ui.js:267-293)

  // The class lists are written in pieces: the verifier reads the characters of a short
  // literal, and the distinctness proof below needs their fourth character.
  const NEUTRAL := "bg-neutral/60 " + "text-neutral-content " + "border-neutral"
  const APPRENTICE_COLOR := "bg-secondary/40 " + "text-base-content " + "border-secondary/50"
  const GURU_COLOR := "bg-primary/40 " + "text-base-content " + "border-primary/50"
  const MASTER_COLOR := "bg-info/40 " + "text-base-content " + "border-info/50"
  const ENLIGHTENED_COLOR := "bg-success/40 " + "text-base-content " + "border-success/50"
  const BURNED_COLOR := "bg-warning/40 " + "text-base-content " + "border-warning/50"
  const FALLBACK_COLOR := "bg-base-300 " + "text-base-content " + "border-base-content/20"

  /** The colour classes of a preview tile. */
  function GetSrsStageColorClass(srsStage: Option<real>): string {
    if srsStage.None? then NEUTRAL
    else
      var s := srsStage.value;
      if 1.0 <= s <= 4.0 then APPRENTICE_COLOR
      else if 5.0 <= s <= 6.0 then GURU_COLOR
      else if s == 7.0 then MASTER_COLOR
      else if s == 8.0 then ENLIGHTENED_COLOR
      else if s == 9.0 then BURNED_COLOR
      else FALLBACK_COLOR
  }

  /** A reference by bucket name: each stage name has its colour, "locked" the fallback. */
  function ColorOfStageName(name: string): string {
    if name == "apprentice" then APPRENTICE_COLOR
    else if name == "guru" then GURU_COLOR
    else if name == "master" then MASTER_COLOR
    else if name == "enlightened" then ENLIGHTENED_COLOR
    else if name == "burned" then BURNED_COLOR
    else FALLBACK_COLOR
  }

  /**
   * The colours follow the filter buckets: a known stage is coloured by its bucket, and only
   * a missing assignment is neutral.
   */
  lemma ColorFollowsStageName(srsStage: Option<real>)
    ensures srsStage.Some? ==> GetSrsStageColorClass(srsStage) == ColorOfStageName(GetSimpleStageName(srsStage))
    ensures GetSrsStageColorClass(srsStage) == NEUTRAL <==> srsStage.None?
  {
    assert NEUTRAL[3] == 'n';
    assert APPRENTICE_COLOR[3] == 's' && GURU_COLOR[3] == 'p' && MASTER_COLOR[3] == 'i';
    assert ENLIGHTENED_COLOR[3] == 's' && BURNED_COLOR[3] == 'w' && FALLBACK_COLOR[3] == 'b';
  }

  // ---------------------------------------------------------------------------------------
  // generateProgressBar (js/setup-ui.js:374-413)

  const CONTAINER_OPEN := "<div class=\"progress-segments\">"
  const CONTAINER_CLOSE := "</div>"

  /** The segments of a bar, how many are filled, and the stage class. */
  datatype Plan = Plan(segments: nat, filledSegments: nat, stageClass: string)

  /** Apprentice stages get four segments, guru stages two; other stages get no bar. */
  function SegmentPlan(srsStage: int): Option<Plan> {
    if 1 <= srsStage <= 4 then Some(Plan(4, srsStage, "apprentice"))
    else if 5 <= srsStage <= 6 then Some(Plan(2, srsStage - 4, "guru"))
    else None
  }

  /** One segment div. */
  function Segment(stageClass: string, filled: bool): string {
    "<div class=\"progress-segment " + stageClass + " " + (if filled then "filled" else "") + "\"></div>"
  }

  /** The flags of a bar: segment `i` is filled when `i < filled`. */
  function Flags(segments: nat, filled: nat): seq<bool> {
    seq(segments, i requires 0 <= i < segments => i < filled)
  }

  /** The segment divs for the flags, in order. */
  function Render(stageClass: string, fs: seq<bool>): string
    decreases |fs|
  {
    if fs == [] then "" else Render(stageClass, fs[..|fs| - 1]) + Segment(stageClass, fs[|fs| - 1])
  }

  /** The bar for a stage, as the loop builds it. */
  function ProgressBar(srsStage: Option<int>, alwaysShowContainer: bool): string {
    var empty := if alwaysShowContainer then CONTAINER_OPEN + CONTAINER_CLOSE else "";
    if srsStage.None? then empty
    else match SegmentPlan(srsStage.value)
      case None => empty
      case Some(p) => CONTAINER_OPEN + Render(p.stageClass, Flags(p.segments, p.filledSegments)) + CONTAINER_CLOSE
  }

  /** generateProgressBar, with its loop over the segments. */
  method GenerateProgressBar(srsStage: Option<int>, alwaysShowContainer: bool) returns (html: string)
    ensures html == ProgressBar(srsStage, alwaysShowContainer)
  {
    if srsStage.None? {
      return if alwaysShowContainer then CONTAINER_OPEN + CONTAINER_CLOSE else "";
    }
    var stage := srsStage.value;
    var segments := 1;
    var filledSegments := 0;
    var stageClass := "";
    if 1 <= stage <= 4 {
      segments := 4;
      filledSegments := stage;
      stageClass := "apprentice";
    } else if 5 <= stage <= 6 {
      segments := 2;
      filledSegments := stage - 4;
      stageClass := "guru";
    } else {
      return if alwaysShowContainer then CONTAINER_OPEN + CONTAINER_CLOSE else "";
    }
    var segmentsHtml := "";
    var i := 0;
    while i < segments
      invariant 0 <= i <= segments
      invariant segmentsHtml == Render(stageClass, Flags(i, filledSegments))
    {
      var isFilled := i < filledSegments;
      assert Flags(i + 1, filledSegments)[..i] == Flags(i, filledSegments);
      segmentsHtml := segmentsHtml + Segment(stageClass, isFilled);
      i := i + 1;
    }
    html := CONTAINER_OPEN + segmentsHtml + CONTAINER_CLOSE;
  }

  /** How many flags are set. */
  function CountFilled(fs: seq<bool>): nat
    decreases |fs|
  {
    if fs == [] then 0 else CountFilled(fs[..|fs| - 1]) + (if fs[|fs| - 1] then 1 else 0)
  }

  lemma {:induction false} CountFlags(segments: nat, filled: nat)
    requires filled <= segments
    ensures CountFilled(Flags(segments, filled)) == filled
    decreases segments
  {
    if segments > 0 {
      var fs := Flags(segments, filled);
      assert fs[..segments - 1] == Flags(segments - 1, if filled == segments then filled - 1 else filled) by {
        if filled == segments {
          forall i | 0 <= i < segments - 1
            ensures fs[i] == Flags(segments - 1, filled - 1)[i]
          {
          }
        }
      }
      CountFlags(segments - 1, if filled == segments then filled - 1 else filled);
    }
  }

  /** `n` copies of a piece of markup. */
  function Repeat(piece: string, n: nat): string
    decreases n
  {
    if n == 0 then "" else Repeat(piece, n - 1) + piece
  }

  /**
   * The markup of the segments: `segments` divs, the first `filled` of them (all of them
   * when `filled` is larger) with the "filled" class, the rest without it.
   */
  lemma {:induction false} RenderFlags(stageClass: string, segments: nat, filled: nat)
    ensures var k := if filled < segments then filled else segments;
      Render(stageClass, Flags(segments, filled))
        == Repeat(Segment(stageClass, true), k) + Repeat(Segment(stageClass, false), segments - k)
    decreases segments
  {
    if segments > 0 {
      var fs := Flags(segments, filled);
      assert fs[..segments - 1] == Flags(segments - 1, filled);
      RenderFlags(stageClass, segments - 1, filled);
      var t, f := Segment(stageClass, true), Segment(stageClass, false);
      if filled < segments {
        var k := filled;
        assert Repeat(t, k) + Repeat(f, segments - 1 - k) + f == Repeat(t, k) + Repeat(f, segments - k);
      }
    }
  }

  /**
   * The html of a bar for an apprentice or guru stage: the container around four (apprentice)
   * or two (guru) segment divs of the stage's class, of which the first `stage`
   * (apprentice) or `stage - 4` (guru) are filled.
   */
  lemma ProgressBarMarkup(srsStage: int, alwaysShowContainer: bool)
    requires 1 <= srsStage <= 6
    ensures var p := SegmentPlan(srsStage).value;
      && p.stageClass == (if srsStage <= 4 then "apprentice" else "guru")
      && p.segments == (if srsStage <= 4 then 4 else 2)
      && p.filledSegments == (if srsStage <= 4 then srsStage else srsStage - 4)
      && ProgressBar(Some(srsStage), alwaysShowContainer) == WrappedBar(p)
  {
    var p := SegmentPlan(srsStage).value;
    assert ProgressBar(Some(srsStage), alwaysShowContainer)
      == CONTAINER_OPEN + Render(p.stageClass, Flags(p.segments, p.filledSegments)) + CONTAINER_CLOSE;
    WrappedBarRenders(p);
  }

  /** The container around the filled segment divs, then the unfilled ones. */
  function WrappedBar(p: Plan): string
    requires p.filledSegments <= p.segments
  {
    CONTAINER_OPEN + Repeat(Segment(p.stageClass, true), p.filledSegments)
    + Repeat(Segment(p.stageClass, false), p.segments - p.filledSegments) + CONTAINER_CLOSE
  }

  lemma WrappedBarRenders(p: Plan)
    requires p.filledSegments <= p.segments
    ensures WrappedBar(p) == CONTAINER_OPEN + Render(p.stageClass, Flags(p.segments, p.filledSegments)) + CONTAINER_CLOSE
  {
    RenderFlags(p.stageClass, p.segments, p.filledSegments);
  }

  /**
   * A bar has segments only for apprentice and guru stages: four or two of them, of which
   * the first `stage` (apprentice) or `stage - 4` (guru) are filled, never more than there
   * are segments.
   */
  lemma BarSegments(srsStage: int)
    ensures SegmentPlan(srsStage).Some? <==> 1 <= srsStage <= 6
    ensures SegmentPlan(srsStage).Some? ==>
      var p := SegmentPlan(srsStage).value;
      && 1 <= p.filledSegments <= p.segments
      && CountFilled(Flags(p.segments, p.filledSegments)) == p.filledSegments
      && (forall i :: 0 <= i < p.segments ==> Flags(p.segments, p.filledSegments)[i] == (i < p.filledSegments))
      && (p.segments == 4 <==> srsStage <= 4)
  {
    if SegmentPlan(srsStage).Some? {
      var p := SegmentPlan(srsStage).value;
      CountFlags(p.segments, p.filledSegments);
    }
  }

  /** A missing stage and a stage past guru give the same empty result. */
  lemma EmptyBar(srsStage: Option<int>, alwaysShowContainer: bool)
    requires srsStage.None? || !(1 <= srsStage.value <= 6)
    ensures ProgressBar(srsStage, alwaysShowContainer) == (if alwaysShowContainer then CONTAINER_OPEN + CONTAINER_CLOSE else "")
  {
  }

  // ---------------------------------------------------------------------------------------
  // The filters of updateKanjiCountAndPreview (js/setup-ui.js:240-257)

  /** The fields of an assignment the filters read. */
  datatype Assignment = Assignment(srsStage: real, unlocked: bool)

  /** `allKanji.filter(keep)` */
  function Filter<T>(s: seq<T>, keep: T -> bool): seq<T>
    decreases |s|
  {
    if s == [] then []
    else (if keep(s[0]) then [s[0]] else []) + Filter(s[1..], keep)
  }

  /** `r` is `s` with some elements left out, in the same order. */
  predicate IsSubsequence<T(==)>(r: seq<T>, s: seq<T>)
    decreases |s|
  {
    if r == [] then true
    else if s == [] then false
    else if r[0] == s[0] then IsSubsequence(r[1..], s[1..])
    else IsSubsequence(r, s[1..])
  }

  /** Filtering keeps, in order, exactly the elements that pass. */
  lemma {:induction false} FilterIsSubsequence<T>(s: seq<T>, keep: T -> bool)
    ensures IsSubsequence(Filter(s, keep), s)
    ensures forall x :: x in Filter(s, keep) <==> x in s && keep(x)
    decreases |s|
  {
    if s != [] {
      FilterIsSubsequence(s[1..], keep);
      var rest := Filter(s[1..], keep);
      if keep(s[0]) {
        assert Filter(s, keep) == [s[0]] + rest;
        assert (([s[0]] + rest)[1..]) == rest;
      } else {
        assert Filter(s, keep) == rest;
        SubsequenceOfTail(rest, s);
      }
    }
  }

  lemma {:induction false} SubsequenceOfTail<T>(r: seq<T>, s: seq<T>)
    requires s != [] && IsSubsequence(r, s[1..])
    ensures IsSubsequence(r, s)
    decreases |s|, 0
  {
    if r != [] && r[0] == s[0] {
      SubsequenceDropHead(r, s[1..]);
    }
  }

  lemma {:induction false} SubsequenceDropHead<T>(r: seq<T>, s: seq<T>)
    requires r != [] && IsSubsequence(r, s)
    ensures IsSubsequence(r[1..], s)
    decreases |s|, 1
  {
    if r[0] != s[0] {
      SubsequenceDropHead(r, s[1..]);
    }
    SubsequenceOfTail(r[1..], s);
  }

  /** The SRS filter: never unlocked, or below Guru. */
  predicate BelowGuru(assignments: map<int, Assignment>, id: int) {
    id !in assignments || assignments[id].srsStage < 5.0
  }

  /** The unlocked filter: an assignment that is unlocked. */
  predicate Unlocked(assignments: map<int, Assignment>, id: int) {
    id in assignments && assignments[id].unlocked
  }

  /** The kanji counted and previewed, each kanji known by its id. */
  function FilteredKanji(allKanji: seq<int>, assignments: map<int, Assignment>, useSrsFilter: bool,
                         unlockedOnly: bool): seq<int>
  {
    var afterSrs := if useSrsFilter then Filter(allKanji, id => BelowGuru(assignments, id)) else allKanji;
    if unlockedOnly then Filter(afterSrs, id => Unlocked(assignments, id)) else afterSrs
  }

  /**
   * The filtered kanji are, in order, some of all kanji, and a kanji is kept exactly when
   * it passes every filter that is on.
   */
  lemma FilteredKanjiSound(allKanji: seq<int>, assignments: map<int, Assignment>, useSrsFilter: bool,
                           unlockedOnly: bool)
    ensures IsSubsequence(FilteredKanji(allKanji, assignments, useSrsFilter, unlockedOnly), allKanji)
    ensures forall id :: id in FilteredKanji(allKanji, assignments, useSrsFilter, unlockedOnly) <==>
      id in allKanji && (useSrsFilter ==> BelowGuru(assignments, id)) && (unlockedOnly ==> Unlocked(assignments, id))
  {
    var srs := id => BelowGuru(assignments, id);
    var unl := id => Unlocked(assignments, id);
    var afterSrs := if useSrsFilter then Filter(allKanji, srs) else allKanji;
    if useSrsFilter {
      FilterIsSubsequence(allKanji, srs);
    } else {
      SubsequenceRefl(allKanji);
    }
    if unlockedOnly {
      FilterIsSubsequence(afterSrs, unl);
      SubsequenceTrans(Filter(afterSrs, unl), afterSrs, allKanji);
    }
  }

  lemma {:induction false} SubsequenceRefl<T>(s: seq<T>)
    ensures IsSubsequence(s, s)
    decreases |s|
  {
    if s != [] {
      SubsequenceRefl(s[1..]);
    }
  }

  lemma {:induction false} SubsequenceTrans<T>(a: seq<T>, b: seq<T>, c: seq<T>)
    requires IsSubsequence(a, b) && IsSubsequence(b, c)
    ensures IsSubsequence(a, c)
    decreases |c|
  {
    if a != [] && c != [] {
      if b[0] == c[0] {
        if a[0] == b[0] {
          SubsequenceTrans(a[1..], b[1..], c[1..]);
        } else {
          SubsequenceTrans(a, b[1..], c[1..]);
          SubsequenceOfTail(a, c);
        }
      } else {
        SubsequenceTrans(a, b, c[1..]);
        SubsequenceOfTail(a, c);
      }
    }
  }
}
