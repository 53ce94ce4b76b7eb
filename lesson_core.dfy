/**
 * The lesson viewer of js/lesson-core.js without its display: the lesson queue, the index of
 * the lesson shown, the navigation rules and the ids of related subjects to prefetch.
 */
module LessonCore {
  import opened Nullable
  import opened JsString

  /** The fields of a lesson item the state logic reads. */
  datatype LessonItem = LessonItem(
    kanji: string,
    componentSubjectIds: Option<seq<int>>,
    visuallySimilarSubjectIds: Option<seq<int>>)

  /** The ids an item lists, in either field; a missing field lists none. */
  function RelatedIds(item: LessonItem): set<int> {
    (if item.componentSubjectIds.Some? then set id | id in item.componentSubjectIds.value else {})
    + (if item.visuallySimilarSubjectIds.Some? then set id | id in item.visuallySimilarSubjectIds.value else {})
  }

  /** The ids of related subjects across all items. */
  ghost predicate RelatedToSome(items: seq<LessonItem>, id: int) {
    exists i :: 0 <= i < |items| && id in RelatedIds(items[i])
  }

  /** `ids.forEach((id) => allSubjectIds.add(id))` */
  method AddAll(s: set<int>, ids: seq<int>) returns (r: set<int>)
    ensures r == s + set id | id in ids
  {
    r := s;
    var k := 0;
    while k < |ids|
      invariant 0 <= k <= |ids|
      invariant r == s + set id | id in ids[..k]
    {
      assert ids[..k + 1] == ids[..k] + [ids[k]];
      r := r + {ids[k]};
      k := k + 1;
    }
    assert ids[..k] == ids;
  }

  /**
   * The id collection of prefetchAllRelatedSubjects: the set holds exactly the component
   * and visually similar subject ids of all items.
   */
  method CollectRelatedSubjectIds(items: seq<LessonItem>) returns (allSubjectIds: set<int>)
    ensures forall id :: id in allSubjectIds <==> RelatedToSome(items, id)
  {
    allSubjectIds := {};
    var i := 0;
    while i < |items|
      invariant 0 <= i <= |items|
      invariant forall id :: id in allSubjectIds <==> RelatedToSome(items[..i], id)
    {
      var item := items[i];
      var before := allSubjectIds;
      if item.componentSubjectIds.Some? {
        allSubjectIds := AddAll(allSubjectIds, item.componentSubjectIds.value);
      }
      if item.visuallySimilarSubjectIds.Some? {
        allSubjectIds := AddAll(allSubjectIds, item.visuallySimilarSubjectIds.value);
      }
      assert allSubjectIds == before + RelatedIds(item);
      RelatedStep(items, i);
      i := i + 1;
    }
    assert items[..i] == items;
  }

  lemma RelatedStep(items: seq<LessonItem>, i: int)
    requires 0 <= i < |items|
    ensures forall id :: RelatedToSome(items[..i + 1], id) <==> RelatedToSome(items[..i], id) || id in RelatedIds(items[i])
  {
  }

  const COMPLETE_LABEL := "Complete Lessons →"
  const NEXT_LABEL := "Next →"

  class Lessons {
    var lessonQueue: seq<LessonItem>
    var currentLessonIndex: int
    var lessonKanjiData: seq<LessonItem>
    var apiToken: string

    /** The index points at a lesson, or is 0 for an empty queue. */
    predicate Valid()
      reads this
    {
      0 <= currentLessonIndex && (currentLessonIndex < |lessonQueue| || (lessonQueue == [] && currentLessonIndex == 0))
    }

    /** The initial values of the globals (js/lesson-core.js:4-7). */
    constructor ()
      ensures Valid()
      ensures lessonQueue == [] && currentLessonIndex == 0 && lessonKanjiData == [] && apiToken == ""
    {
      lessonQueue := [];
      currentLessonIndex := 0;
      lessonKanjiData := [];
      apiToken := "";
    }

    /** The state reset of startLessons; the prefetch and the display are left to the caller. */
    method StartLessons(items: seq<LessonItem>, token: string)
      modifies this
      ensures Valid()
      ensures lessonQueue == items && lessonKanjiData == items && apiToken == token && currentLessonIndex == 0
    {
      lessonQueue := items;
      lessonKanjiData := items;
      apiToken := token;
      currentLessonIndex := 0;
    }

    /** nextLesson: moves on unless at the last lesson, where the lessons complete instead. */
    method NextLesson() returns (completed: bool)
      requires Valid()
      modifies this
      ensures Valid()
      ensures completed <==> !(old(currentLessonIndex) < |lessonQueue| - 1)
      ensures currentLessonIndex == if completed then old(currentLessonIndex) else old(currentLessonIndex) + 1
      ensures lessonQueue == old(lessonQueue) && lessonKanjiData == old(lessonKanjiData) && apiToken == old(apiToken)
    {
      if currentLessonIndex < |lessonQueue| - 1 {
        currentLessonIndex := currentLessonIndex + 1;
        completed := false;
      } else {
        completed := true;
      }
    }

    /** previousLesson: moves back unless at the first lesson. */
    method PreviousLesson()
      requires Valid()
      modifies this
      ensures Valid()
      ensures currentLessonIndex == if old(currentLessonIndex) > 0 then old(currentLessonIndex) - 1 else old(currentLessonIndex)
      ensures lessonQueue == old(lessonQueue) && lessonKanjiData == old(lessonKanjiData) && apiToken == old(apiToken)
    {
      if currentLessonIndex > 0 {
        currentLessonIndex := currentLessonIndex - 1;
      }
    }

    /** The previous button is disabled on the first lesson. */
    predicate PreviousDisabled()
      reads this
    {
      currentLessonIndex == 0
    }

    /** The label of the next button. */
    function NextLabel(): string
      reads this
    {
      if currentLessonIndex == |lessonQueue| - 1 then COMPLETE_LABEL else NEXT_LABEL
    }

    /** The text of updateLessonProgress. */
    function ProgressText(): string
      requires currentLessonIndex >= 0
      reads this
    {
      "Lesson " + NatToString(currentLessonIndex + 1) + " / " + NatToString(|lessonQueue|)
    }

    /**
     * The buttons announce what the navigation does: a disabled previous button means
     * previousLesson stays, and the "Complete Lessons" label means nextLesson completes.
     * An empty queue is never shown: the start buttons are disabled while nothing is
     * selected, so startLessons always receives at least one item.
     */
    lemma ButtonsMatchNavigation()
      requires Valid() && lessonQueue != []
      ensures PreviousDisabled() <==> !(currentLessonIndex > 0)
      ensures NextLabel() == COMPLETE_LABEL <==> !(currentLessonIndex < |lessonQueue| - 1)
    {
      assert COMPLETE_LABEL != NEXT_LABEL by {
        assert COMPLETE_LABEL[0] != NEXT_LABEL[0];
      }
    }

    /** The progress text reads back as the 1-based position and the number of lessons. */
    lemma ProgressTextReadsBack()
      requires Valid()
      ensures exists a, b ::
                && ProgressText() == "Lesson " + a + " / " + b
                && ParseDigits(a) == currentLessonIndex + 1
                && ParseDigits(b) == |lessonQueue|
    {
      var a, b := NatToString(currentLessonIndex + 1), NatToString(|lessonQueue|);
      ParseNatToString(currentLessonIndex + 1);
      ParseNatToString(|lessonQueue|);
      assert ProgressText() == "Lesson " + a + " / " + b;
    }
  }
}
