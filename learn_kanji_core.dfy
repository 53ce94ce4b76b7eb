/**
 * Learn mode of js/learn-kanji-core.js: the selected kanji are learned in batches of five;
 * each batch gets lessons and then a quiz over everything learned so far.
 */
module LearnKanjiCore {
  import opened JsString

  const BATCH_SIZE := 5

  function Min(a: int, b: int): int {
    if a <= b then a else b
  }

  /** `s.slice(start, end)` for non-negative bounds: both are clamped to the length. */
  function Slice<T>(s: seq<T>, start: nat, end: nat): (r: seq<T>)
    ensures |r| == if Min(end, |s|) <= start then 0 else Min(end, |s|) - start
    ensures forall k :: 0 <= k < |r| ==> r[k] == s[start + k]
  {
    if Min(end, |s|) <= start then [] else s[start..Min(end, |s|)]
  }

  /** The batch the progress screen takes: items `[i*5, min(i*5+5, total))` of the pool. */
  function BatchAt<T>(pool: seq<T>, i: nat): seq<T> {
    Slice(pool, i * BATCH_SIZE, Min(i * BATCH_SIZE + BATCH_SIZE, |pool|))
  }

  /** How many kanji the first `i` batches hold. */
  function LearnedCount(total: nat, i: nat): nat {
    Min(i * BATCH_SIZE, total)
  }

  /** `Math.ceil(total / BATCH_SIZE)` */
  function TotalBatches(total: nat): (b: nat)
    ensures b * BATCH_SIZE >= total
    ensures b > 0 ==> (b - 1) * BATCH_SIZE < total
  {
    (total + BATCH_SIZE - 1) / BATCH_SIZE
  }

  /**
   * Batch `i` is what follows the first `i` batches: learned kanji plus the batch are the
   * pool prefix of the first `i + 1` batches.
   */
  lemma PrefixPlusBatch<T>(pool: seq<T>, i: nat)
    ensures pool[..LearnedCount(|pool|, i)] + BatchAt(pool, i) == pool[..LearnedCount(|pool|, i + 1)]
  {
    var a, b := LearnedCount(|pool|, i), LearnedCount(|pool|, i + 1);
    if a < |pool| {
      assert BatchAt(pool, i) == pool[a..b];
      assert pool[..b] == pool[..a] + pool[a..b];
    }
  }

  /** The batches cover the pool: after `TotalBatches` batches everything is learned. */
  lemma AllBatchesCoverPool(total: nat, i: nat)
    ensures LearnedCount(total, i) == total <==> i * BATCH_SIZE >= total
    ensures i >= TotalBatches(total) ==> LearnedCount(total, i) == total
  {
  }

  /** What the progress screen shows, apart from its text. */
  datatype Progress = Progress(currentBatchNum: int, totalBatches: int, batchSize: int,
                               alreadyLearned: int, remaining: int)

  /** Which screen `continueToNextBatch` leads to. */
  datatype Next = LearningComplete | NextBatch

  class LearnMode<T> {
    var learnKanjiMode: bool
    var learnKanjiPool: seq<T>
    var currentLearnBatch: seq<T>
    var learnedKanji: seq<T>
    var currentBatchIndex: nat
    var learnKanjiApiToken: string

    /**
     * The learned kanji are the pool prefix of the completed batches, and the current
     * batch is the next slice of the pool.
     */
    ghost predicate Valid()
      reads this
    {
      && learnedKanji == learnKanjiPool[..LearnedCount(|learnKanjiPool|, currentBatchIndex)]
      && currentLearnBatch == BatchAt(learnKanjiPool, currentBatchIndex)
    }

    /** The initial values of the globals (js/learn-kanji-core.js:4-9). */
    constructor ()
      ensures Valid()
      ensures !learnKanjiMode && learnKanjiPool == [] && currentLearnBatch == [] && learnedKanji == []
      ensures currentBatchIndex == 0 && learnKanjiApiToken == ""
    {
      learnKanjiMode := false;
      learnKanjiPool := [];
      currentLearnBatch := [];
      learnedKanji := [];
      currentBatchIndex := 0;
      learnKanjiApiToken := "";
    }

    /**
     * initializeLearnKanjiMode without the lessons it then starts: the pool is the
     * selection, nothing is learned, and the batch is the first `min(5, n)` items.
     */
    method InitializeLearnKanjiMode(selectedItems: seq<T>, token: string)
      modifies this
      ensures Valid()
      ensures learnKanjiMode && learnKanjiPool == selectedItems && learnedKanji == []
      ensures currentBatchIndex == 0 && learnKanjiApiToken == token
      ensures currentLearnBatch == selectedItems[..Min(BATCH_SIZE, |selectedItems|)]
    {
      learnKanjiMode := true;
      learnKanjiPool := selectedItems;
      learnedKanji := [];
      currentBatchIndex := 0;
      learnKanjiApiToken := token;
      var startIdx := 0;
      var endIdx := Min(BATCH_SIZE, |selectedItems|);
      currentLearnBatch := Slice(learnKanjiPool, startIdx, endIdx);
    }

    /**
     * The batch arithmetic of showLearnModeProgressScreen: the batch is taken from the pool
     * again, and the remaining count includes it.
     */
    method ShowLearnModeProgressScreen() returns (p: Progress)
      modifies this
      ensures currentLearnBatch == BatchAt(learnKanjiPool, currentBatchIndex)
      ensures Valid() <==> learnedKanji == learnKanjiPool[..LearnedCount(|learnKanjiPool|, currentBatchIndex)]
      ensures old(Valid()) ==> Valid()
      ensures learnKanjiMode == old(learnKanjiMode) && learnKanjiPool == old(learnKanjiPool)
      ensures learnedKanji == old(learnedKanji) && currentBatchIndex == old(currentBatchIndex)
      ensures learnKanjiApiToken == old(learnKanjiApiToken)
      ensures p.currentBatchNum == currentBatchIndex + 1
      ensures p.totalBatches == TotalBatches(|learnKanjiPool|)
      ensures p.batchSize == |currentLearnBatch| && p.alreadyLearned == |learnedKanji|
      ensures p.remaining == |learnKanjiPool| - |learnedKanji|
    {
      var totalKanji := |learnKanjiPool|;
      var totalBatches := (totalKanji + BATCH_SIZE - 1) / BATCH_SIZE;
      var startIdx := currentBatchIndex * BATCH_SIZE;
      var endIdx := Min(startIdx + BATCH_SIZE, totalKanji);
      currentLearnBatch := Slice(learnKanjiPool, startIdx, endIdx);
      p := Progress(currentBatchIndex + 1, totalBatches, |currentLearnBatch|, |learnedKanji|,
                    totalKanji - |learnedKanji|);
    }

    /** The kanji quizzed by startLearnModeQuiz and redoLearnQuiz: learned, then the batch. */
    function QuizKanji(): seq<T>
      reads this
    {
      learnedKanji + currentLearnBatch
    }

    /** Kanji not yet learned once the current batch counts as learned. */
    function Remaining(): int
      reads this
    {
      |learnKanjiPool| - (|learnedKanji| + |currentLearnBatch|)
    }

    /** The continue button of showLearnQuizCompletionScreen is shown exactly when kanji remain. */
    predicate ShowsContinue()
      reads this
    {
      Remaining() > 0
    }

    /** The progress message of showLearnQuizCompletionScreen. */
    function ProgressMessage(): string
      reads this
    {
      var total := |learnKanjiPool|;
      var learned := |learnedKanji| + |currentLearnBatch|;
      if total - learned > 0 then
        "You've learned " + NatToString(learned) + " out of " + NatToString(total) + " kanji. "
        + NatToString(total - learned) + " kanji remaining."
      else "You've completed all " + NatToString(total) + " kanji!"
    }

    /**
     * The progress message agrees with the continue button: while kanji remain it reads back
     * as the learned count, the pool size and the remaining count; once none remain (the
     * button hidden) it is the completion message with the pool size.
     */
    lemma ProgressMessageReadsBack()
      ensures ShowsContinue() ==> exists a, b, c ::
                && ProgressMessage() == "You've learned " + a + " out of " + b + " kanji. " + c + " kanji remaining."
                && ParseDigits(a) == |learnedKanji| + |currentLearnBatch|
                && ParseDigits(b) == |learnKanjiPool|
                && ParseDigits(c) == Remaining()
      ensures !ShowsContinue() ==> exists b ::
                && ProgressMessage() == "You've completed all " + b + " kanji!"
                && ParseDigits(b) == |learnKanjiPool|
    {
      var learned := |learnedKanji| + |currentLearnBatch|;
      ParseNatToString(learned);
      ParseNatToString(|learnKanjiPool|);
      if ShowsContinue() {
        ParseNatToString(Remaining());
        var a, b, c := NatToString(learned), NatToString(|learnKanjiPool|), NatToString(Remaining());
        assert ProgressMessage() == "You've learned " + a + " out of " + b + " kanji. " + c + " kanji remaining.";
      } else {
        var b := NatToString(|learnKanjiPool|);
        assert ProgressMessage() == "You've completed all " + b + " kanji!";
      }
    }

    /** Every quiz covers the pool prefix of all batches up to and including the current one. */
    lemma QuizCoversPrefix()
      requires Valid()
      ensures QuizKanji() == learnKanjiPool[..LearnedCount(|learnKanjiPool|, currentBatchIndex + 1)]
      ensures Remaining() == |learnKanjiPool| - LearnedCount(|learnKanjiPool|, currentBatchIndex + 1)
    {
      PrefixPlusBatch(learnKanjiPool, currentBatchIndex);
    }

    /**
     * The continue button is shown exactly when the next batch is not past the end of the
     * pool, that is, exactly when continueToNextBatch leads to another batch.
     */
    lemma ContinueIffMoreBatches()
      requires Valid()
      ensures ShowsContinue() <==> (currentBatchIndex + 1) * BATCH_SIZE < |learnKanjiPool|
    {
      QuizCoversPrefix();
    }

    /**
     * continueToNextBatch: the batch joins the learned kanji and the index moves on; the
     * learning is complete exactly when the next batch would start past the pool, and then
     * everything is learned. Otherwise the progress screen takes the next batch.
     */
    method ContinueToNextBatch() returns (next: Next)
      requires Valid()
      modifies this
      ensures Valid()
      ensures learnedKanji == old(learnedKanji) + old(currentLearnBatch)
      ensures currentBatchIndex == old(currentBatchIndex) + 1
      ensures learnKanjiPool == old(learnKanjiPool) && learnKanjiMode == old(learnKanjiMode)
      ensures learnKanjiApiToken == old(learnKanjiApiToken)
      ensures next == LearningComplete <==> currentBatchIndex * BATCH_SIZE >= |learnKanjiPool|
      ensures next == LearningComplete ==> learnedKanji == learnKanjiPool && currentLearnBatch == []
    {
      PrefixPlusBatch(learnKanjiPool, currentBatchIndex);
      learnedKanji := learnedKanji + currentLearnBatch;
      currentLearnBatch := [];
      currentBatchIndex := currentBatchIndex + 1;
      var totalKanji := |learnKanjiPool|;
      var startIdx := currentBatchIndex * BATCH_SIZE;
      if startIdx >= totalKanji {
        assert learnKanjiPool[..totalKanji] == learnKanjiPool;
        next := LearningComplete;
      } else {
        var _ := ShowLearnModeProgressScreen();
        next := NextBatch;
      }
    }

    /** exitLearnMode resets the learn-mode globals. */
    method ExitLearnMode()
      modifies this
      ensures Valid()
      ensures !learnKanjiMode && learnKanjiPool == [] && currentLearnBatch == [] && learnedKanji == []
      ensures currentBatchIndex == 0 && learnKanjiApiToken == ""
    {
      learnKanjiMode := false;
      learnKanjiPool := [];
      currentLearnBatch := [];
      learnedKanji := [];
      currentBatchIndex := 0;
      learnKanjiApiToken := "";
    }
  }
}
