/**
 * getSimpleStageName of js/srs-utils.js: the SRS stage of an assignment bucketed into the six
 * stage names the setup screen filters by.
 */
module SrsUtils {
  import opened Nullable

  /** The stage names in the order the stage filter lists them (js/event-handlers.js:326-333). */
  const STAGE_ORDER: seq<string> := ["locked", "apprentice", "guru", "master", "enlightened", "burned"]

  /**
   * The bucket of a stage: `null`/`undefined` and every number outside the buckets
   * (0, negatives, above 9, fractions between buckets) are "locked".
   */
  function GetSimpleStageName(srsStage: Option<real>): (r: string)
    ensures r in STAGE_ORDER
  {
    if srsStage.None? then "locked"
    else
      var s := srsStage.value;
      if 1.0 <= s <= 4.0 then "apprentice"
      else if 5.0 <= s <= 6.0 then "guru"
      else if s == 7.0 then "master"
      else if s == 8.0 then "enlightened"
      else if s == 9.0 then "burned"
      else "locked"
  }

  /** The position of a stage name in the stage order. */
  function StageRank(name: string): (k: int)
    ensures 0 <= k < |STAGE_ORDER| && (name in STAGE_ORDER ==> STAGE_ORDER[k] == name)
  {
    if name == "apprentice" then 1
    else if name == "guru" then 2
    else if name == "master" then 3
    else if name == "enlightened" then 4
    else if name == "burned" then 5
    else 0
  }

  /**
   * On the integer stages 1 to 9 the buckets follow the stage order: a later stage is never
   * in an earlier bucket; stages outside them are locked.
   */
  lemma StageNamesFollowOrder(a: int, b: int)
    requires 1 <= a <= b <= 9
    ensures StageRank(GetSimpleStageName(Some(a as real))) <= StageRank(GetSimpleStageName(Some(b as real)))
    ensures StageRank(GetSimpleStageName(Some(a as real))) >= 1
  {
  }

  /** Every stage below 1 or above 9, and every fraction between buckets, is locked. */
  lemma OutsideBucketsLocked(s: real)
    requires s < 1.0 || s > 9.0 || 4.0 < s < 5.0 || (6.0 < s && s.Floor as real != s)
    ensures GetSimpleStageName(Some(s)) == "locked"
  {
  }
}
