/** The course evaluation strategies of src/patterns/solid/OpenClosed.ts.
    The module-count rule is a pure if-chain, written once for the
    "bad" evaluator and once as a strategy. The two accumulating strategies
    are methods whose loops walk the modules (and, for difficulty, each
    module's assignments), proved against functions that state the totals.
    The evaluator holds one strategy at a time and delegates to it. */
module OpenClosed {
  import opened Types

  // ---------------------------------------------------------------------
  // Module count

  const Advanced: string := "Advanced Course"
  const Intermediate: string := "Intermediate Course"
  const Beginner: string := "Beginner Course"

  /** `BadCourseEvaluator.evaluateCourse`. */
  function BadEvaluateCourse(course: Course): string
    reads course
  {
    if |course.modules| > 10 then "Advanced Course"
    else if |course.modules| > 5 then "Intermediate Course"
    else "Beginner Course"
  }

  /** `ModuleCountEvaluationStrategy.evaluate`. */
  function ModuleCountEvaluate(course: Course): string
    reads course
  {
    if |course.modules| > 10 then Advanced
    else if |course.modules| > 5 then Intermediate
    else Beginner
  }

  /** The strategy reproduces the hard-coded evaluator exactly. */
  lemma ModuleCountMatchesBadEvaluator(course: Course)
    ensures ModuleCountEvaluate(course) == BadEvaluateCourse(course)
  {
  }

  /** The three bands of the module count. */
  lemma ModuleCountBands(course: Course)
    ensures ModuleCountEvaluate(course) == Advanced <==> |course.modules| >= 11
    ensures ModuleCountEvaluate(course) == Intermediate <==> 6 <= |course.modules| <= 10
    ensures ModuleCountEvaluate(course) == Beginner <==> |course.modules| <= 5
  {
  }

  /** Beginner 0, Intermediate 1, Advanced 2. */
  function BandRank(rating: string): nat
  {
    if rating == Advanced then 2 else if rating == Intermediate then 1 else 0
  }

  /** More modules never give a lower band. */
  lemma ModuleCountMonotone(c: Course, c': Course)
    requires |c.modules| <= |c'.modules|
    ensures BandRank(ModuleCountEvaluate(c)) <= BandRank(ModuleCountEvaluate(c'))
  {
  }

  // ---------------------------------------------------------------------
  // Assignment difficulty

  /** Every assignment of the modules, module by module, in order. */
  function AllAssignments(ms: seq<Module>): seq<Assignment>
    reads ms
  {
    if ms == [] then [] else AllAssignments(ms[..|ms| - 1]) + ms[|ms| - 1].assignments
  }

  /** The sum of `maxPoints`. */
  function TotalPoints(as_: seq<Assignment>): int
  {
    if as_ == [] then 0 else TotalPoints(as_[..|as_| - 1]) + as_[|as_| - 1].maxPoints
  }

  /** The mean maxPoints, or 0 for no assignments. */
  function AverageDifficulty(ms: seq<Module>): (r: real)
    reads ms
    ensures |AllAssignments(ms)| == 0 ==> r == 0.0
    ensures |AllAssignments(ms)| > 0 ==> r * |AllAssignments(ms)| as real == TotalPoints(AllAssignments(ms)) as real
  {
    var n := |AllAssignments(ms)|;
    if n > 0 then TotalPoints(AllAssignments(ms)) as real / n as real else 0.0
  }

  const Hard: string := "Hard Course"
  const Medium: string := "Medium Course"
  const Easy: string := "Easy Course"

  function DifficultyLabel(average: real): (r: string)
    ensures r == Hard <==> average > 80.0
    ensures r == Medium <==> 50.0 < average <= 80.0
    ensures r == Easy <==> average <= 50.0
  {
    if average > 80.0 then Hard else if average > 50.0 then Medium else Easy
  }

  lemma {:induction false} TotalPointsAppend(as_: seq<Assignment>, bs: seq<Assignment>)
    ensures TotalPoints(as_ + bs) == TotalPoints(as_) + TotalPoints(bs)
    decreases |bs|
  {
    if bs == [] {
      assert as_ + bs == as_;
    } else {
      assert (as_ + bs)[..|as_ + bs| - 1] == as_ + bs[..|bs| - 1];
      TotalPointsAppend(as_, bs[..|bs| - 1]);
    }
  }

  /** `AssignmentDifficultyEvaluationStrategy.evaluate`: sums maxPoints and
      counts assignments over every module, then labels the mean. */
  method AssignmentDifficultyEvaluate(course: Course) returns (rating: string)
    ensures rating == DifficultyLabel(AverageDifficulty(course.modules))
  {
    var totalPoints := 0;
    var assignmentCount := 0;
    var i := 0;
    while i < |course.modules|
      invariant 0 <= i <= |course.modules|
      invariant totalPoints == TotalPoints(AllAssignments(course.modules[..i]))
      invariant assignmentCount == |AllAssignments(course.modules[..i])|
    {
      var m := course.modules[i];
      assert course.modules[..i + 1][..i] == course.modules[..i];
      ghost var before := AllAssignments(course.modules[..i]);
      var j := 0;
      assert before + m.assignments[..j] == before;
      while j < |m.assignments|
        invariant 0 <= j <= |m.assignments|
        invariant totalPoints == TotalPoints(before + m.assignments[..j])
        invariant assignmentCount == |before + m.assignments[..j]|
      {
        assert (before + m.assignments[..j + 1])[..|before| + j] == before + m.assignments[..j];
        totalPoints := totalPoints + m.assignments[j].maxPoints;
        assignmentCount := assignmentCount + 1;
        j := j + 1;
      }
      assert m.assignments[..j] == m.assignments;
      i := i + 1;
    }
    assert course.modules[..i] == course.modules;
    var averageDifficulty := if assignmentCount > 0 then totalPoints as real / assignmentCount as real else 0.0;
    rating := if averageDifficulty > 80.0 then Hard else if averageDifficulty > 50.0 then Medium else Easy;
  }

  /** A course without assignments is easy. */
  lemma NoAssignmentsIsEasy(ms: seq<Module>)
    requires AllAssignments(ms) == []
    ensures DifficultyLabel(AverageDifficulty(ms)) == Easy
  {
  }

  /** Adding a module appends its assignments after the others'. */
  lemma AllAssignmentsOfAppend(ms: seq<Module>, m: Module)
    ensures AllAssignments(ms + [m]) == AllAssignments(ms) + m.assignments
  {
    assert (ms + [m])[..|ms|] == ms;
  }

  // ---------------------------------------------------------------------
  // Time requirement

  /** The hours one module's content adds: half an hour per material, three
      per assignment. */
  function ContentHours(m: Module): real
    reads m
  {
    |m.materials| as real * 0.5 + |m.assignments| as real * 3.0
  }

  function TotalContentHours(ms: seq<Module>): real
    reads ms
  {
    if ms == [] then 0.0 else TotalContentHours(ms[..|ms| - 1]) + ContentHours(ms[|ms| - 1])
  }

  /** Two hours per module plus the content hours. */
  function EstimatedHours(ms: seq<Module>): real
    reads ms
  {
    |ms| as real * 2.0 + TotalContentHours(ms)
  }

  function MaterialCount(ms: seq<Module>): nat
    reads ms
  {
    if ms == [] then 0 else MaterialCount(ms[..|ms| - 1]) + |ms[|ms| - 1].materials|
  }

  function AssignmentCount(ms: seq<Module>): nat
    reads ms
  {
    if ms == [] then 0 else AssignmentCount(ms[..|ms| - 1]) + |ms[|ms| - 1].assignments|
  }

  /** The estimate in terms of the three counts. */
  function Hours(modules: nat, materials: nat, assignments: nat): real
  {
    2.0 * modules as real + 0.5 * materials as real + 3.0 * assignments as real
  }

  /** The estimate depends only on how many modules, materials and
      assignments the course has. */
  lemma {:induction false} EstimatedHoursByCounts(ms: seq<Module>)
    ensures EstimatedHours(ms) == Hours(|ms|, MaterialCount(ms), AssignmentCount(ms))
  {
    if ms != [] {
      EstimatedHoursByCounts(ms[..|ms| - 1]);
    }
  }

  const FullSemester: string := "Full Semester Course"
  const HalfSemester: string := "Half Semester Course"
  const Short: string := "Short Course"
  const Mini: string := "Mini Course"

  function TimeLabel(hours: real): (r: string)
    ensures r == FullSemester <==> hours > 100.0
    ensures r == HalfSemester <==> 50.0 < hours <= 100.0
    ensures r == Short <==> 20.0 < hours <= 50.0
    ensures r == Mini <==> hours <= 20.0
  {
    if hours > 100.0 then FullSemester
    else if hours > 50.0 then HalfSemester
    else if hours > 20.0 then Short
    else Mini
  }

  /** Mini 0, Short 1, Half Semester 2, Full Semester 3. */
  function TimeRank(rating: string): nat
  {
    if rating == FullSemester then 3 else if rating == HalfSemester then 2 else if rating == Short then 1 else 0
  }

  /** More hours never give a shorter category. */
  lemma TimeLabelMonotone(h: real, h': real)
    requires h <= h'
    ensures TimeRank(TimeLabel(h)) <= TimeRank(TimeLabel(h'))
  {
  }

  /** Adding a module, a material or an assignment never moves a course to
      a shorter category. */
  lemma MoreContentNeverShorter(modules: nat, materials: nat, assignments: nat,
                                modules': nat, materials': nat, assignments': nat)
    requires modules <= modules' && materials <= materials' && assignments <= assignments'
    ensures TimeRank(TimeLabel(Hours(modules, materials, assignments)))
      <= TimeRank(TimeLabel(Hours(modules', materials', assignments')))
  {
    TimeLabelMonotone(Hours(modules, materials, assignments), Hours(modules', materials', assignments'));
  }

  /** A course with no modules has no hours and is a mini course. */
  lemma NoModulesIsMini(ms: seq<Module>)
    requires ms == []
    ensures TimeLabel(EstimatedHours(ms)) == Mini
  {
  }

  /** `TimeRequirementEvaluationStrategy.evaluate`: starts from two hours
      per module and adds each module's content hours. */
  method TimeRequirementEvaluate(course: Course) returns (rating: string)
    ensures rating == TimeLabel(EstimatedHours(course.modules))
  {
    var estimatedHours := |course.modules| as real * 2.0;
    var i := 0;
    while i < |course.modules|
      invariant 0 <= i <= |course.modules|
      invariant estimatedHours == |course.modules| as real * 2.0 + TotalContentHours(course.modules[..i])
    {
      var m := course.modules[i];
      assert course.modules[..i + 1][..i] == course.modules[..i];
      estimatedHours := estimatedHours + |m.materials| as real * 0.5;
      estimatedHours := estimatedHours + |m.assignments| as real * 3.0;
      i := i + 1;
    }
    assert course.modules[..i] == course.modules;
    if estimatedHours > 100.0 {
      rating := FullSemester;
    } else if estimatedHours > 50.0 {
      rating := HalfSemester;
    } else if estimatedHours > 20.0 {
      rating := Short;
    } else {
      rating := Mini;
    }
  }

  // ---------------------------------------------------------------------
  // The evaluator

  /** The concrete strategies of the file. */
  datatype EvaluationStrategy = ModuleCountStrategy | AssignmentDifficultyStrategy | TimeRequirementStrategy

  /** What `strategy.evaluate(course)` returns. */
  function Evaluation(strategy: EvaluationStrategy, course: Course): string
    reads course, course.modules
  {
    match strategy
    case ModuleCountStrategy => ModuleCountEvaluate(course)
    case AssignmentDifficultyStrategy => DifficultyLabel(AverageDifficulty(course.modules))
    case TimeRequirementStrategy => TimeLabel(EstimatedHours(course.modules))
  }

  class CourseEvaluator {
    var evaluationStrategy: EvaluationStrategy

    constructor (evaluationStrategy: EvaluationStrategy)
      ensures this.evaluationStrategy == evaluationStrategy
    {
      this.evaluationStrategy := evaluationStrategy;
    }

    /** Replaces the strategy; later evaluations use the new one. */
    method SetEvaluationStrategy(evaluationStrategy: EvaluationStrategy)
      modifies this
      ensures this.evaluationStrategy == evaluationStrategy
    {
      this.evaluationStrategy := evaluationStrategy;
    }

    /** Delegates to the current strategy. */
    method EvaluateCourse(course: Course) returns (rating: string)
      ensures rating == Evaluation(evaluationStrategy, course)
    {
      match evaluationStrategy
      case ModuleCountStrategy =>
        rating := ModuleCountEvaluate(course);
      case AssignmentDifficultyStrategy =>
        rating := AssignmentDifficultyEvaluate(course);
      case TimeRequirementStrategy =>
        rating := TimeRequirementEvaluate(course);
    }
  }
}
