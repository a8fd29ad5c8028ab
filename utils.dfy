/**
 * The pure rules of `lib/utils.ts`: the fixed internship duration, the end
 * date of an internship and the grade cascade.
 */
module Utils {

  /** The internship policy: every internship lasts sixteen weeks. */
  const DefaultWeeks: int := 16

  /** `calculateDuration`: the start date is ignored, the answer is always the policy length. */
  function CalculateDuration(startDay: int): (weeks: int)
    ensures weeks == DefaultWeeks
  {
    DefaultWeeks
  }

  /**
   * `calculateEndDate`: the start date moved forward by `weeks` whole weeks.
   * Calendar dates are day numbers, so adding days is adding integers.
   */
  function CalculateEndDate(startDay: int, weeks: int): (endDay: int)
    ensures endDay - startDay == 7 * weeks
    ensures weeks >= 0 ==> startDay <= endDay
  {
    var endDay := startDay;
    endDay + weeks * 7
  }

  /** `calculateEndDate` called without its second argument, or with the weeks of `calculateDuration`. */
  lemma DefaultEndDate(startDay: int)
    ensures CalculateEndDate(startDay, DefaultWeeks) == startDay + 112
    ensures CalculateEndDate(startDay, CalculateDuration(startDay)) == startDay + 112
  {
  }

  /** The seven grade strings the cascade can produce, lowest first. */
  const Grades: seq<string> := ["F", "D", "C", "B", "B+", "A", "A+"]

  /** `calculateGrade`: the first threshold, from the top, that the marks reach. */
  function CalculateGrade(marks: real): (grade: string)
    ensures grade in Grades
  {
    if marks >= 90.0 then "A+"
    else if marks >= 80.0 then "A"
    else if marks >= 70.0 then "B+"
    else if marks >= 60.0 then "B"
    else if marks >= 50.0 then "C"
    else if marks >= 40.0 then "D"
    else "F"
  }

  /** The position of a grade in the order F < D < C < B < B+ < A < A+. */
  function GradeRank(grade: string): (rank: int)
    requires grade in Grades
    ensures 0 <= rank < |Grades| && Grades[rank] == grade
  {
    if grade == "F" then 0
    else if grade == "D" then 1
    else if grade == "C" then 2
    else if grade == "B" then 3
    else if grade == "B+" then 4
    else if grade == "A" then 5
    else 6
  }

  /** The lowest mark that earns a grade other than F, in rank order (index 0 belongs to D). */
  const Thresholds: seq<real> := [40.0, 50.0, 60.0, 70.0, 80.0, 90.0]

  /** How many thresholds the marks reach: an independent description of the cascade. */
  function ThresholdsReached(marks: real, ts: seq<real>): (n: nat)
    ensures n <= |ts|
  {
    if ts == [] then 0
    else (if marks >= ts[0] then 1 else 0) + ThresholdsReached(marks, ts[1..])
  }

  /**
   * The top-down cascade agrees with counting reached thresholds: the grade's
   * rank is the number of thresholds the marks reach.
   */
  lemma {:induction false} GradeIsThresholdCount(marks: real)
    ensures GradeRank(CalculateGrade(marks)) == ThresholdsReached(marks, Thresholds)
  {
    ReachedStep(marks, [90.0]);
    ReachedStep(marks, [80.0, 90.0]);
    ReachedStep(marks, [70.0, 80.0, 90.0]);
    ReachedStep(marks, [60.0, 70.0, 80.0, 90.0]);
    ReachedStep(marks, [50.0, 60.0, 70.0, 80.0, 90.0]);
    ReachedStep(marks, Thresholds);
  }

  /** One unfolding of ThresholdsReached. */
  lemma ReachedStep(marks: real, ts: seq<real>)
    requires ts != []
    ensures ThresholdsReached(marks, ts) == (if marks >= ts[0] then 1 else 0) + ThresholdsReached(marks, ts[1..])
  {
  }

  /**
   * The cascade is equivalent to seven non-overlapping bands, each closed at
   * its lower bound and open at its upper bound.
   */
  lemma GradeBands(marks: real)
    ensures CalculateGrade(marks) == "A+" <==> 90.0 <= marks
    ensures CalculateGrade(marks) == "A" <==> 80.0 <= marks < 90.0
    ensures CalculateGrade(marks) == "B+" <==> 70.0 <= marks < 80.0
    ensures CalculateGrade(marks) == "B" <==> 60.0 <= marks < 70.0
    ensures CalculateGrade(marks) == "C" <==> 50.0 <= marks < 60.0
    ensures CalculateGrade(marks) == "D" <==> 40.0 <= marks < 50.0
    ensures CalculateGrade(marks) == "F" <==> marks < 40.0
  {
  }

  /** The boundary cases at each side of the top and bottom thresholds. */
  lemma GradeBoundaries()
    ensures CalculateGrade(90.0) == "A+" && CalculateGrade(89.0) == "A"
    ensures CalculateGrade(89.5) == "A"
    ensures CalculateGrade(40.0) == "D" && CalculateGrade(39.0) == "F"
    ensures CalculateGrade(39.5) == "F"
  {
  }

  /** More marks never give a lower grade. */
  lemma GradeMonotone(lo: real, hi: real)
    requires lo <= hi
    ensures GradeRank(CalculateGrade(lo)) <= GradeRank(CalculateGrade(hi))
  {
  }
}
