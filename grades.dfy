/**
 * The static grade table of the action and the two linear scans over it:
 * the descending scan that turns a score into a grade, and the ascending
 * first-match scan that turns a grade into its badge colour.
 */
module Grades {

  /** One tier of the table: its label, the least score that earns it, and its badge colour. */
  datatype GradeRange = GradeRange(grade: string, minScore: int, color: string)

  /** The 18 tiers, ascending by `minScore`, from D- to SSS. */
  const GRADE_RANGES: seq<GradeRange> := [
    GradeRange("D-", 0, "933"),
    GradeRange("D", 5, "933"),
    GradeRange("D+", 10, "933"),
    GradeRange("C-", 20, "999"),
    GradeRange("C", 30, "999"),
    GradeRange("C+", 40, "999"),
    GradeRange("B-", 60, "669"),
    GradeRange("B", 80, "669"),
    GradeRange("B+", 100, "669"),
    GradeRange("A-", 150, "396"),
    GradeRange("A", 200, "396"),
    GradeRange("A+", 300, "396"),
    GradeRange("S-", 500, "FB2"),
    GradeRange("S", 800, "FB2"),
    GradeRange("S+", 1200, "FB2"),
    GradeRange("SS", 2000, "F84"),
    GradeRange("SS+", 3500, "F84"),
    GradeRange("SSS", 5000, "F42")
  ]

  /** The colour used when a grade is not in the table. */
  const DEFAULT_COLOR: string := "999"

  /** Every label of the table. */
  ghost predicate IsLabel(g: string) {
    exists i :: 0 <= i < |GRADE_RANGES| && GRADE_RANGES[i].grade == g
  }

  /** Each tier's threshold is strictly below the next one's. */
  ghost predicate StepAscending(s: seq<GradeRange>) {
    forall i :: 0 <= i < |s| - 1 ==> s[i].minScore < s[i + 1].minScore
  }

  /** Any two tiers are strictly ordered by threshold as they are by position. */
  ghost predicate StrictlyAscending(s: seq<GradeRange>) {
    forall i, j :: 0 <= i < j < |s| ==> s[i].minScore < s[j].minScore
  }

  lemma {:induction false} StepToStrict(s: seq<GradeRange>)
    requires StepAscending(s)
    ensures StrictlyAscending(s)
  {
    if |s| > 1 {
      StepToStrict(s[1..]);
      forall i, j | 0 <= i < j < |s| ensures s[i].minScore < s[j].minScore {
        if 0 < i {
          assert s[1..][i - 1] == s[i] && s[1..][j - 1] == s[j];
        } else if 1 < j {
          assert s[1..][0] == s[1] && s[1..][j - 1] == s[j];
        }
      }
    }
  }

  /** The table is strictly ascending, its lowest threshold is 0 and its labels are distinct and non-empty. */
  lemma TableShape()
    ensures |GRADE_RANGES| == 18
    ensures GRADE_RANGES[0].minScore == 0
    ensures StrictlyAscending(GRADE_RANGES)
    ensures forall i :: 0 <= i < |GRADE_RANGES| ==> GRADE_RANGES[i].grade != ""
    ensures forall i, j :: 0 <= i < j < |GRADE_RANGES| ==> GRADE_RANGES[i].grade != GRADE_RANGES[j].grade
  {
    StepToStrict(GRADE_RANGES);
  }

  /**
   * The index of the highest tier whose threshold is at most `score`: the
   * tier the descending scan stops at, so the score lies in that tier's
   * half-open band `[minScore, next minScore)`. Defined for every score the
   * engine can produce (scores are never negative).
   */
  function TierIndex(score: int): (i: nat)
    requires score >= 0
    ensures i < |GRADE_RANGES|
    ensures GRADE_RANGES[i].minScore <= score
    ensures forall j :: i < j < |GRADE_RANGES| ==> score < GRADE_RANGES[j].minScore
  {
    TierAtOrBelow(score, |GRADE_RANGES| - 1)
  }

  /** Scan from tier `k` downwards for the first threshold at most `score`. */
  function TierAtOrBelow(score: int, k: nat): (i: nat)
    requires score >= 0 && k < |GRADE_RANGES|
    requires forall j :: k < j < |GRADE_RANGES| ==> score < GRADE_RANGES[j].minScore
    ensures i <= k
    ensures GRADE_RANGES[i].minScore <= score
    ensures forall j :: i < j < |GRADE_RANGES| ==> score < GRADE_RANGES[j].minScore
    decreases k
  {
    if GRADE_RANGES[k].minScore <= score || k == 0 then k else TierAtOrBelow(score, k - 1)
  }

  /** A score exactly at a tier's threshold selects that tier, not the one below it. */
  lemma ThresholdSelectsItsTier(i: nat)
    requires i < |GRADE_RANGES|
    ensures TierIndex(GRADE_RANGES[i].minScore) == i
  {
    TableShape();
  }

  /** A higher score never selects a lower tier. */
  lemma TierMonotone(a: int, b: int)
    requires 0 <= a <= b
    ensures TierIndex(a) <= TierIndex(b)
  {
  }

  /**
   * The grade assignment of the rating step: scan the table from the top
   * and take the first tier whose threshold the score reaches. If the scan
   * finds nothing the grade keeps its prior value, and an empty grade falls
   * back to the lowest tier's label.
   */
  method SelectGrade(score: int, prior: string) returns (grade: string)
    ensures score >= 0 ==> grade == GRADE_RANGES[TierIndex(score)].grade
    ensures score >= 0 ==> IsLabel(grade) && grade != ""
    ensures score < 0 ==> grade == (if prior == "" then GRADE_RANGES[0].grade else prior)
  {
    grade := prior;
    var i := |GRADE_RANGES|;
    while i > 0
      invariant 0 <= i <= |GRADE_RANGES|
      invariant forall j :: i <= j < |GRADE_RANGES| ==> score < GRADE_RANGES[j].minScore
      invariant grade == prior
    {
      i := i - 1;
      if score >= GRADE_RANGES[i].minScore {
        grade := GRADE_RANGES[i].grade;
        TableShape();
        return;
      }
    }
    if grade == "" {
      grade := GRADE_RANGES[0].grade;
    }
  }

  /**
   * The badge colour of a grade: the colour of the first tier carrying that
   * label, or the default colour when no tier does.
   */
  method GradeColor(grade: string) returns (color: string)
    ensures forall i :: 0 <= i < |GRADE_RANGES| && GRADE_RANGES[i].grade == grade ==> color == GRADE_RANGES[i].color
    ensures !IsLabel(grade) ==> color == DEFAULT_COLOR
  {
    TableShape();
    color := DEFAULT_COLOR;
    for i := 0 to |GRADE_RANGES|
      invariant forall j :: 0 <= j < i ==> GRADE_RANGES[j].grade != grade
      invariant color == DEFAULT_COLOR
    {
      if GRADE_RANGES[i].grade == grade {
        color := GRADE_RANGES[i].color;
        return;
      }
    }
  }
}
