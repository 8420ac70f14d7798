/** The OCL-style invariants of the domain model, one Dafny module per
    validator class of src/patterns/ocl/OCLConstraints.ts. Every check is a
    pure predicate; the human-readable constraint descriptions and the formal
    OCL text the classes also return are not modelled. */

module ConstraintValidator {
  import opened SeqUtil
  import opened Types

  /** A grade value lies in [0, maxPoints], inclusive at both ends. */
  predicate ValidateGrade(value: int, maxPoints: int)
  {
    value >= 0 && value <= maxPoints
  }

  lemma GradeRangeInclusive(value: int, maxPoints: int)
    ensures ValidateGrade(value, maxPoints) <==> 0 <= value <= maxPoints
    ensures ValidateGrade(0, maxPoints) <==> maxPoints >= 0
    ensures ValidateGrade(maxPoints, maxPoints) <==> maxPoints >= 0
    ensures ValidateGrade(value, 0) <==> value == 0
  {
  }

  /** The student's submissions for the assignment: the `filter` both
      submission checks start from. */
  function SubmissionsBy(assignment: Assignment, studentId: string): (r: seq<Submission>)
    ensures forall i :: 0 <= i < |r| ==> r[i] in assignment.submissions && r[i].studentId == studentId
    ensures forall s :: s in assignment.submissions && s.studentId == studentId ==> s in r
  {
    Filter(assignment.submissions, (s: Submission) => s.studentId == studentId)
  }

  /** True when the student has not submitted yet (the filtered list is empty). */
  predicate ValidateSubmission(assignment: Assignment, studentId: string)
    ensures ValidateSubmission(assignment, studentId) <==>
      forall s :: s in assignment.submissions ==> s.studentId != studentId
  {
    var r := SubmissionsBy(assignment, studentId);
    assert r != [] ==> r[0] in r;
    |r| == 0
  }

  /** After a submission by the student is appended the check fails; one by
      anybody else leaves the check's answer for the student as it was. */
  lemma SubmissionAppend(assignment: Assignment, s: Submission, studentId: string)
    ensures var a' := assignment.(submissions := assignment.submissions + [s]);
      && !ValidateSubmission(a', s.studentId)
      && (s.studentId != studentId ==> ValidateSubmission(a', studentId) == ValidateSubmission(assignment, studentId))
  {
    var a' := assignment.(submissions := assignment.submissions + [s]);
    assert a'.submissions[|assignment.submissions|] == s;
    forall t | t in a'.submissions && t != s ensures t in assignment.submissions {
    }
  }
}

module CourseConstraint {
  import opened Types

  /** `Object.values(CourseStatus).includes(status)`. */
  predicate IsValidStatus(status: CourseStatus)
  {
    status in {DRAFT, ACTIVE, ARCHIVED}
  }

  /** The status enum is closed, so every status value is valid. */
  lemma EveryStatusIsValid(status: CourseStatus)
    ensures IsValidStatus(status)
  {
  }

  /** The bounds are strict: more than 3 and fewer than 100 characters. */
  predicate IsTitleValid(title: string)
    ensures IsTitleValid(title) <==> 4 <= |title| <= 99
  {
    |title| > 3 && |title| < 100
  }

  /** The bounds are strict: more than 10 and fewer than 500 characters. */
  predicate IsDescriptionValid(description: string)
    ensures IsDescriptionValid(description) <==> 11 <= |description| <= 499
  {
    |description| > 10 && |description| < 500
  }
}

module AssignmentConstraint {
  import CourseConstraint

  /** `dueDate > new Date()`, the clock reading given as `now`. */
  predicate IsValidDueDate(dueDate: int, now: int)
    ensures IsValidDueDate(dueDate, now) <==> dueDate >= now + 1
  {
    dueDate > now
  }

  predicate IsTitleValid(title: string)
    ensures IsTitleValid(title) <==> 4 <= |title| <= 99
  {
    |title| > 3 && |title| < 100
  }

  predicate IsDescriptionValid(description: string)
    ensures IsDescriptionValid(description) <==> 11 <= |description| <= 499
  {
    |description| > 10 && |description| < 500
  }

  /** Assignments and courses share the same title and description windows. */
  lemma SameWindowsAsCourse(title: string, description: string)
    ensures IsTitleValid(title) == CourseConstraint.IsTitleValid(title)
    ensures IsDescriptionValid(description) == CourseConstraint.IsDescriptionValid(description)
  {
  }
}

module SubmissionConstraint {
  import opened SeqUtil
  import opened Types
  import ConstraintValidator

  /** Valid only when the student has no submission for the assignment yet. */
  predicate Validate(assignment: Assignment, studentId: string)
    ensures Validate(assignment, studentId) <==>
      forall s :: s in assignment.submissions ==> s.studentId != studentId
  {
    var existing := Filter(assignment.submissions, (s: Submission) => s.studentId == studentId);
    assert existing != [] ==> existing[0] in existing;
    |existing| == 0
  }

  /** The two submission checks of the constraint file agree on every input. */
  lemma AgreesWithValidator(assignment: Assignment, studentId: string)
    ensures Validate(assignment, studentId) == ConstraintValidator.ValidateSubmission(assignment, studentId)
  {
  }
}

module UserConstraint {
  import opened SeqUtil
  import opened Types

  /** `Object.values(UserRole).includes(role)`. */
  predicate IsValidRole(role: UserRole)
  {
    role in {STUDENT, TEACHER, ADMIN}
  }

  lemma EveryRoleIsValid(role: UserRole)
    ensures IsValidRole(role)
  {
  }

  predicate IsAsciiLetter(c: char) { 'a' <= c <= 'z' || 'A' <= c <= 'Z' }

  predicate IsAsciiDigit(c: char) { '0' <= c <= '9' }

  /** The class `[a-zA-Z0-9._%+-]` of the local part. */
  predicate IsLocalChar(c: char)
  {
    IsAsciiLetter(c) || IsAsciiDigit(c) || c == '.' || c == '_' || c == '%' || c == '+' || c == '-'
  }

  /** The class `[a-zA-Z0-9.-]` of the domain. */
  predicate IsDomainChar(c: char)
  {
    IsAsciiLetter(c) || IsAsciiDigit(c) || c == '.' || c == '-'
  }

  /** Every character of `s` in positions [lo, hi) belongs to the class. */
  predicate LocalBetween(s: string, lo: int, hi: int) { forall i :: lo <= i < hi && 0 <= i < |s| ==> IsLocalChar(s[i]) }

  predicate DomainBetween(s: string, lo: int, hi: int) { forall i :: lo <= i < hi && 0 <= i < |s| ==> IsDomainChar(s[i]) }

  predicate LettersBetween(s: string, lo: int, hi: int) { forall i :: lo <= i < hi && 0 <= i < |s| ==> IsAsciiLetter(s[i]) }

  /** A match of `^[a-zA-Z0-9._%+-]+@[a-zA-Z0-9.-]+\.[a-zA-Z]{2,}$`, stated
      directly: some '@' and some later '.' split the string into a
      non-empty local part, a non-empty domain and a top-level domain of at
      least two letters. */
  ghost predicate MatchesEmailPattern(email: string)
  {
    exists at, dot :: PatternSplit(email, at, dot)
  }

  /** The '@' at `at` and the '.' at `dot` split `email` as the pattern requires. */
  predicate PatternSplit(email: string, at: int, dot: int)
  {
    && 1 <= at && at + 1 < dot && dot + 3 <= |email|
    && email[at] == '@' && email[dot] == '.'
    && LocalBetween(email, 0, at) && DomainBetween(email, at + 1, dot) && LettersBetween(email, dot + 1, |email|)
  }

  /** The regular-expression test, computed: the first '@' ends the local
      part, and the last '.' starts the top-level domain. */
  predicate IsEmailValid(email: string)
  {
    match (IndexOf(email, '@'), LastIndexOf(email, '.'))
    case (Some(at), Some(dot)) => PatternSplit(email, at, dot)
    case _ => false
  }

  /** The computed test accepts exactly the strings the pattern matches. */
  lemma EmailValidIffPattern(email: string)
    ensures IsEmailValid(email) <==> MatchesEmailPattern(email)
  {
    if MatchesEmailPattern(email) {
      var at, dot :| PatternSplit(email, at, dot);
      PatternSplitIsUnique(email, at, dot);
    }
  }

  /** A split, when there is one, is at the first '@' and the last '.'. */
  lemma PatternSplitIsUnique(email: string, at: int, dot: int)
    requires PatternSplit(email, at, dot)
    ensures IndexOf(email, '@') == Some(at)
    ensures LastIndexOf(email, '.') == Some(dot)
  {
    assert forall i :: 0 <= i < at ==> IsLocalChar(email[i]);
    assert forall i :: dot < i < |email| ==> IsAsciiLetter(email[i]);
    var first := IndexOf(email, '@').value;
    var last := LastIndexOf(email, '.').value;
    assert first <= at;
    assert last >= dot;
  }

  /** Every accepted address contains exactly one '@'. */
  lemma EmailHasOneAt(email: string)
    requires IsEmailValid(email)
    ensures exists at :: 0 <= at < |email| && email[at] == '@' && AllOthersNotAt(email, at)
  {
    var at := IndexOf(email, '@').value;
    var dot := LastIndexOf(email, '.').value;
    assert forall j :: at < j < dot ==> IsDomainChar(email[j]);
    assert forall j :: dot < j < |email| ==> IsAsciiLetter(email[j]);
    assert AllOthersNotAt(email, at);
  }

  predicate AllOthersNotAt(email: string, at: int)
  {
    forall j :: 0 <= j < |email| && j != at ==> email[j] != '@'
  }
}

module RoleConstraint {
  import opened Types

  /** An admin, or the user whose id is the course's teacherId. */
  predicate CanAccessCourse(user: User, course: Course)
  {
    user.role == ADMIN || course.teacherId == user.id
  }

  predicate CanModifyCourse(user: User, course: Course)
  {
    user.role == ADMIN || course.teacherId == user.id
  }

  /** Access and modification rights coincide: always for an admin, and
      otherwise exactly for the course's teacher. */
  lemma AccessEqualsModify(user: User, course: Course)
    ensures CanAccessCourse(user, course) == CanModifyCourse(user, course)
    ensures user.role == ADMIN ==> CanModifyCourse(user, course)
    ensures user.role != ADMIN ==> (CanModifyCourse(user, course) <==> user.id == course.teacherId)
  {
  }
}

module GradeConstraint {
  import opened Types
  import ConstraintValidator

  /** A grade is valid for an assignment when its value lies in [0, maxPoints]. */
  predicate Validate(grade: Grade, assignment: Assignment)
    ensures Validate(grade, assignment) == ConstraintValidator.ValidateGrade(grade.value, assignment.maxPoints)
  {
    grade.value >= 0 && grade.value <= assignment.maxPoints
  }
}
