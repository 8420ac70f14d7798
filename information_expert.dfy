/** The read-model queries of src/patterns/grasp/InformationExpert.ts. An
    expert object only holds the records it was built from and never changes
    them, so each query is a function of those records: the assignment for
    AssignmentExpert, the submission and its assignment for SubmissionExpert.
    Dates are millisecond timestamps; the averages and percentages, which
    JavaScript computes in floating point, are exact reals here. */

module AssignmentExpert {
  import opened SeqUtil
  import opened Types
  import ConstraintValidator

  predicate IsGradedSubmission(s: Submission) { s.grade.Some? }

  /** The graded submissions, in submission order. */
  function GradedSubmissions(a: Assignment): (r: seq<Submission>)
    ensures forall i :: 0 <= i < |r| ==> r[i] in a.submissions && r[i].grade.Some?
    ensures forall i :: 0 <= i < |a.submissions| && a.submissions[i].grade.Some? ==> a.submissions[i] in r
  {
    Filter(a.submissions, IsGradedSubmission)
  }

  function SubmissionCount(a: Assignment): nat
  {
    |a.submissions|
  }

  function GradedCount(a: Assignment): (r: nat)
    ensures r <= SubmissionCount(a)
  {
    |GradedSubmissions(a)|
  }

  /** The `reduce` step: ungraded entries contribute 0. */
  function GradeTotal(subs: seq<Submission>): int
  {
    if subs == [] then 0
    else (match subs[0].grade case Some(g) => g case None => 0) + GradeTotal(subs[1..])
  }

  /** `total / count` for a positive count. */
  function Mean(total: int, count: nat): (r: real)
    requires count > 0
    ensures r * count as real == total as real
  {
    total as real / count as real
  }

  lemma {:induction false} ProductAsReal(n: nat, m: int)
    ensures (n * m) as real == n as real * m as real
  {
    if n > 0 {
      ProductAsReal(n - 1, m);
      assert n * m == (n - 1) * m + m;
    }
  }

  lemma MeanScales(total: int, count: nat, r: real)
    requires count > 0 && r == Mean(total, count)
    ensures r * count as real == total as real
  {
  }

  /** A total of `count` values from [0, hi] has its mean in [0, hi]. */
  lemma MeanBounds(total: int, count: nat, hi: int)
    requires count > 0 && 0 <= total <= count * hi
    ensures 0.0 <= Mean(total, count) <= hi as real
  {
    ProductAsReal(count, hi);
    var r, c := Mean(total, count), count as real;
    assert r * c == total as real;
  }

  /** The mean grade of the graded submissions, or 0 when none is graded. */
  function GetAverageGrade(a: Assignment): (r: real)
    ensures GradedCount(a) == 0 ==> r == 0.0
    ensures GradedCount(a) > 0 ==> r == Mean(GradeTotal(GradedSubmissions(a)), GradedCount(a))
  {
    var n, total := GradedCount(a), GradeTotal(GradedSubmissions(a));
    if n == 0 then 0.0 else Mean(total, n)
  }

  /** Once something is graded, the average times the number of graded
      submissions gives back their grade total. */
  lemma AverageTimesCount(a: Assignment)
    requires GradedCount(a) > 0
    ensures GetAverageGrade(a) * GradedCount(a) as real == GradeTotal(GradedSubmissions(a)) as real
  {
    var n, total := GradedCount(a), GradeTotal(GradedSubmissions(a));
    assert GetAverageGrade(a) == Mean(total, n);
    MeanScales(total, n, GetAverageGrade(a));
  }

  /** Grades within [0, hi] add up to between 0 and |subs|*hi. */
  lemma {:induction false} GradeTotalBounds(subs: seq<Submission>, hi: int)
    requires forall i :: 0 <= i < |subs| ==> subs[i].grade.Some? && ConstraintValidator.ValidateGrade(subs[i].grade.value, hi)
    ensures 0 <= GradeTotal(subs) <= |subs| * hi
  {
    if subs != [] {
      assert forall i :: 0 <= i < |subs| - 1 ==> subs[1..][i] == subs[i + 1];
      GradeTotalBounds(subs[1..], hi);
      assert |subs| * hi == hi + (|subs| - 1) * hi;
    }
  }

  /** When every graded submission carries a valid grade, the average is
      not negative, and it is at most maxPoints once something is graded. */
  lemma AverageWithinPoints(a: Assignment)
    requires forall s :: s in a.submissions && s.grade.Some? ==> ConstraintValidator.ValidateGrade(s.grade.value, a.maxPoints)
    ensures 0.0 <= GetAverageGrade(a)
    ensures GradedCount(a) > 0 ==> GetAverageGrade(a) <= a.maxPoints as real
  {
    var graded := GradedSubmissions(a);
    if |graded| > 0 {
      forall i | 0 <= i < |graded|
        ensures graded[i].grade.Some? && ConstraintValidator.ValidateGrade(graded[i].grade.value, a.maxPoints)
      {
        assert graded[i] in a.submissions;
      }
      GradeTotalBounds(graded, a.maxPoints);
      MeanBounds(GradeTotal(graded), |graded|, a.maxPoints);
    }
  }

  /** `submittedAt > dueDate`: strictly after the due date. */
  predicate IsSubmissionLate(a: Assignment, s: Submission)
  {
    s.submittedAt > a.dueDate
  }

  function LateSubmissions(a: Assignment): (r: seq<Submission>)
    ensures forall i :: 0 <= i < |r| ==> r[i] in a.submissions && IsSubmissionLate(a, r[i])
    ensures forall i :: 0 <= i < |a.submissions| && IsSubmissionLate(a, a.submissions[i]) ==> a.submissions[i] in r
  {
    Filter(a.submissions, (s: Submission) => IsSubmissionLate(a, s))
  }

  function GetLateSubmissionsCount(a: Assignment): (r: nat)
    ensures r <= SubmissionCount(a)
  {
    |LateSubmissions(a)|
  }

  /** `some`: some submission is the student's. */
  predicate HasStudentSubmitted(a: Assignment, studentId: string)
  {
    exists i :: 0 <= i < |a.submissions| && a.submissions[i].studentId == studentId
  }

  function IsBy(studentId: string): Submission -> bool
  {
    (s: Submission) => s.studentId == studentId
  }

  /** `find`: the first submission of the student, if any. */
  function GetStudentSubmission(a: Assignment, studentId: string): (r: Option<Submission>)
    ensures r.Some? ==> r.value in a.submissions && r.value.studentId == studentId
  {
    match Find(a.submissions, IsBy(studentId))
    case None => None
    case Some(i) => Some(a.submissions[i])
  }

  /** The two lookups agree, and the submission found is the first of the
      student's. */
  lemma SubmittedIffFound(a: Assignment, studentId: string)
    ensures HasStudentSubmitted(a, studentId) <==> GetStudentSubmission(a, studentId).Some?
    ensures GetStudentSubmission(a, studentId).Some? ==>
      exists k :: 0 <= k < |a.submissions| && a.submissions[k] == GetStudentSubmission(a, studentId).value
        && forall j :: 0 <= j < k ==> a.submissions[j].studentId != studentId
  {
    var found := Find(a.submissions, IsBy(studentId));
    if found.Some? {
      var k := found.value;
      assert a.submissions[k].studentId == studentId;
      assert forall j :: 0 <= j < k ==> !IsBy(studentId)(a.submissions[j]);
    } else {
      assert forall j :: 0 <= j < |a.submissions| ==> !IsBy(studentId)(a.submissions[j]);
    }
  }

  /** False for an assignment without submissions, otherwise `every`. */
  predicate AreAllSubmissionsGraded(a: Assignment)
  {
    |a.submissions| != 0 && forall i :: 0 <= i < |a.submissions| ==> a.submissions[i].grade.Some?
  }

  /** All graded exactly when there is a submission and none is left out
      of the graded count. */
  lemma AllGradedIffCountsMatch(a: Assignment)
    ensures AreAllSubmissionsGraded(a) <==> SubmissionCount(a) > 0 && GradedCount(a) == SubmissionCount(a)
  {
    FilterKeepsAll(a.submissions, IsGradedSubmission);
  }

  /** Every submission is either late or not: the late count and the count
      of the others add up to the submission count. */
  lemma {:induction false} LateAndOnTimePartition(a: Assignment, subs: seq<Submission>)
    ensures |Filter(subs, (s: Submission) => IsSubmissionLate(a, s))|
      + |Filter(subs, (s: Submission) => !IsSubmissionLate(a, s))| == |subs|
  {
    if subs != [] {
      LateAndOnTimePartition(a, subs[1..]);
    }
  }
}

module SubmissionExpert {
  import opened SeqUtil
  import opened Types
  import AssignmentExpert

  const MillisecondsPerDay: int := 1000 * 3600 * 24

  predicate IsGraded(s: Submission) { s.grade.Some? }

  /** `grade || 0`. */
  function GetPointsAchieved(s: Submission): (r: int)
    ensures s.grade.None? ==> r == 0
    ensures s.grade.Some? ==> r == s.grade.value
  {
    match s.grade case Some(g) => g case None => 0
  }

  /** The grade as a percentage of maxPoints, 0 when ungraded. A graded
      submission needs a non-zero maxPoints: JavaScript would yield
      Infinity or NaN there. */
  function GetPercentageScore(s: Submission, a: Assignment): (r: real)
    requires s.grade.Some? ==> a.maxPoints != 0
    ensures s.grade.None? ==> r == 0.0
    ensures s.grade.Some? ==> r * a.maxPoints as real == 100.0 * s.grade.value as real
  {
    if !IsGraded(s) then 0.0
    else (GetPointsAchieved(s) as real / a.maxPoints as real) * 100.0
  }

  predicate IsSubmittedOnTime(s: Submission, a: Assignment)
  {
    s.submittedAt <= a.dueDate
  }

  /** On time (at or before the due date) is exactly not late. */
  lemma OnTimeIsNotLate(s: Submission, a: Assignment)
    ensures IsSubmittedOnTime(s, a) <==> !AssignmentExpert.IsSubmissionLate(a, s)
    ensures s.submittedAt == a.dueDate ==> IsSubmittedOnTime(s, a)
  {
  }

  /** `Math.ceil(n / d)` for a positive divisor. */
  function CeilDiv(n: int, d: int): (r: int)
    requires d > 0
    ensures (r - 1) * d < n <= r * d
  {
    var q := n / d;
    assert n == d * q + n % d;
    if n % d == 0 then q else q + 1
  }

  /** 0 when on time; otherwise the lateness in whole days, rounded up, so
      one millisecond late is one day late. */
  function GetDaysLate(s: Submission, a: Assignment): (r: int)
    ensures IsSubmittedOnTime(s, a) ==> r == 0
    ensures !IsSubmittedOnTime(s, a) ==> r >= 1
    ensures !IsSubmittedOnTime(s, a) ==>
      (r - 1) * MillisecondsPerDay < s.submittedAt - a.dueDate <= r * MillisecondsPerDay
  {
    if IsSubmittedOnTime(s, a) then 0
    else CeilDiv(s.submittedAt - a.dueDate, MillisecondsPerDay)
  }

  /** Graded with at least 60 percent. */
  predicate IsPassing(s: Submission, a: Assignment)
    requires s.grade.Some? ==> a.maxPoints != 0
    ensures IsPassing(s, a) ==> IsGraded(s) && GetPercentageScore(s, a) >= 60.0
  {
    if !IsGraded(s) then false else GetPercentageScore(s, a) >= 60.0
  }

  /** For a positive maxPoints, passing is the integer test
      100 * grade >= 60 * maxPoints. */
  lemma PassingInPoints(s: Submission, a: Assignment)
    requires a.maxPoints > 0
    ensures IsPassing(s, a) <==> s.grade.Some? && 100 * s.grade.value >= 60 * a.maxPoints
  {
    if s.grade.Some? {
      var p, m, g := GetPercentageScore(s, a), a.maxPoints as real, s.grade.value as real;
      assert p * m == 100.0 * g;
      if p >= 60.0 {
        assert p * m >= 60.0 * m;
      } else {
        assert p * m < 60.0 * m;
      }
    }
  }

  /** The characters `String.prototype.trim` removes: white space and line
      terminators (ECMAScript, sections 12.2 and 12.3). */
  predicate IsJsWhitespace(c: char)
  {
    c == '\t' || c == '\n' || c == '\U{000B}' || c == '\U{000C}' || c == '\r' || c == ' '
    || c == '\U{00A0}' || c == '\U{1680}' || ('\U{2000}' <= c <= '\U{200A}')
    || c == '\U{2028}' || c == '\U{2029}' || c == '\U{202F}' || c == '\U{205F}'
    || c == '\U{3000}' || c == '\U{FEFF}'
  }

  predicate AllWhitespace(s: string)
  {
    forall i :: 0 <= i < |s| ==> IsJsWhitespace(s[i])
  }

  /** The longest suffix of `s` that does not start with white space. */
  function TrimStart(s: string): (r: string)
    ensures |r| <= |s| && r == s[|s| - |r|..]
    ensures AllWhitespace(s[..|s| - |r|])
    ensures r != [] ==> !IsJsWhitespace(r[0])
  {
    if s != [] && IsJsWhitespace(s[0]) then
      var r := TrimStart(s[1..]);
      assert s[..|s| - |r|] == [s[0]] + s[1..][..|s[1..]| - |r|];
      r
    else s
  }

  /** The longest prefix of `s` that does not end with white space. */
  function TrimEnd(s: string): (r: string)
    ensures |r| <= |s| && r == s[..|r|]
    ensures AllWhitespace(s[|r|..])
    ensures r != [] ==> !IsJsWhitespace(r[|r| - 1])
  {
    if s != [] && IsJsWhitespace(s[|s| - 1]) then
      var r := TrimEnd(s[..|s| - 1]);
      assert s[|r|..] == s[..|s| - 1][|r|..] + [s[|s| - 1]];
      r
    else s
  }

  function Trim(s: string): string
  {
    TrimEnd(TrimStart(s))
  }

  /** Trimming leaves nothing exactly when the text is all white space. */
  lemma TrimEmptyIffBlank(s: string)
    ensures Trim(s) == [] <==> AllWhitespace(s)
  {
    var t := TrimStart(s);
    assert s == s[..|s| - |t|] + t;
    if t != [] {
      assert TrimEnd(t) != [];
      assert !IsJsWhitespace(s[|s| - |t|]);
    } else {
      assert s == s[..|s| - |t|];
    }
  }

  /** Feedback is present and not blank. */
  predicate HasFeedback(s: Submission)
  {
    s.feedback.Some? && Trim(s.feedback.value) != ""
  }

  lemma HasFeedbackIffVisibleText(s: Submission)
    ensures HasFeedback(s) <==> s.feedback.Some? && !AllWhitespace(s.feedback.value)
  {
    if s.feedback.Some? {
      TrimEmptyIffBlank(s.feedback.value);
    }
  }
}
