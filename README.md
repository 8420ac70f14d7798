# Domain rules of the school-management system, in Dafny

This project models the domain-rule layer of a school-management web
application (the `src/patterns/` tree). The layer has three parts:

- **The entity model and its invariants.** Grade ranges, one submission per
  student, title and description windows, a closed set of course statuses and
  user roles, an email pattern, and who may access or modify a course.
- **The aggregate mutations.** A controller and a set of creators append
  modules, materials and assignments to courses and modules in place. Each
  new part gets an `order` equal to the old count, and the course's
  `updatedAt` is bumped.
- **The patterns built on those entities.** An observer bus that turns
  course events into per-student notifications. Decorators that change how a
  course is presented. Read-model queries over an assignment's submissions.
  Course-evaluation strategies. A user-class hierarchy with a user manager.
  Notification handlers. A role-dispatching user factory.

Each source file has its own module, or one module per class when the file
holds several independent validator or expert classes:

| file | Dafny |
|---|---|
| `seq_util.dfy` | `SeqUtil`: the JavaScript array methods the core uses (`filter`, `find`, `indexOf`, `includes` + `push`, `indexOf` + `splice`), and `IndexOf`/`LastIndexOf` of a character in a string, by which the model decides the e-mail pattern that `isEmailValid` tests with a `RegExp` |
| `types.dfy` | `Types`: records as datatypes; `Course` and `Module` as classes, since their lists and `updatedAt` are updated in place |
| `ocl_constraints.dfy` | `ConstraintValidator`, `CourseConstraint`, `AssignmentConstraint`, `SubmissionConstraint`, `UserConstraint`, `RoleConstraint`, `GradeConstraint` |
| `course_controller.dfy` | `CourseController` |
| `creator.dfy` | `Creator` |
| `observer_pattern.dfy` | `ObserverPattern` |
| `course_decorator.dfy` | `CourseDecorator` |
| `information_expert.dfy` | `AssignmentExpert`, `SubmissionExpert` |
| `open_closed.dfy` | `OpenClosed` |
| `liskov_substitution.dfy` | `LiskovSubstitution` |
| `notification_handlers.dfy` | `NotificationHandlers` |
| `user_factory.dfy` | `UserFactory`, `UserService` |

Some inputs are parameters instead of being computed:

- Random ids (`Math.random().toString(36)…`, `uuidv4()`) are passed in as `id`.
- The observer fan-out takes `uuid: nat -> string`, which gives the id for
  each delivery index.
- The clock (`new Date()`) is an integer in milliseconds. Each reading is its
  own parameter: `createdAt` and `updatedAt` for a new course, `now` where an
  operation reads the clock once, and `clock: nat -> int` for the observer
  fan-out, which gives the reading for each delivery index.
- The locale date formatting of the time-limited decorator is the function
  `formatDate`.

## Model

| member | source | states |
|---|---|---|
| SeqUtil.Filter | src/patterns/ocl/OCLConstraints.ts:16-18 | the result holds only elements of the input that pass the test, and every passing input element is in it |
| SeqUtil.FilterAppend | src/patterns/solid/LiskovSubstitution.ts:139-142 | filtering distributes over concatenation, so filtered elements keep insertion order |
| SeqUtil.FilterKeepsAll | src/patterns/grasp/InformationExpert.ts:74-82 | the filter keeps every element exactly when every element passes |
| SeqUtil.Find | src/patterns/grasp/CourseController.ts:76 | the index found holds a passing element and no earlier element passes; None exactly when no element passes |
| SeqUtil.IndexOf | src/patterns/behavioral/ObserverPattern.ts:38 | the first index holding the value; None exactly when the value is absent |
| SeqUtil.LastIndexOf | src/patterns/ocl/OCLConstraints.ts:137-138 | the last index holding the value, or None exactly when it is absent; the e-mail check finds the last '.' with it |
| SeqUtil.AppendIfAbsent | src/patterns/behavioral/ObserverPattern.ts:30-35 | the value is present afterwards, the old list is a prefix of the result, and nothing else is added |
| SeqUtil.AppendIfAbsentIdempotent | src/patterns/behavioral/ObserverPattern.ts:30-35 | appending-if-absent twice is the same as once |
| SeqUtil.AppendIfAbsentNoDuplicates | src/patterns/behavioral/ObserverPattern.ts:30-35 | a duplicate-free list stays duplicate-free |
| SeqUtil.RemoveFirst | src/patterns/behavioral/ObserverPattern.ts:37-42 | an absent value leaves the list unchanged; otherwise exactly the first occurrence is cut out |
| SeqUtil.RemoveAfterAppend | src/patterns/behavioral/ObserverPattern.ts:30-42 | removing a value just appended to a list without it restores the list |
| SeqUtil.RemoveFirstNoDuplicates | src/patterns/behavioral/ObserverPattern.ts:37-42 | in a duplicate-free list, removal leaves the value absent, keeps every other element and stays duplicate-free |
| Types.Module.constructor | src/patterns/grasp/CourseController.ts:42-50 | a new module holds the given fields and empty material and assignment lists |
| Types.Course.constructor | src/patterns/grasp/CourseController.ts:20-29 | a new course has no modules and holds the given fields; createdAt and updatedAt are two separate clock readings |
| Types.AppendKeepsOrdersDistinct | src/patterns/grasp/Creator.ts:51-55 | appending a module whose order is the old count keeps every order equal to its index, so orders stay pairwise distinct |
| ConstraintValidator.GradeRangeInclusive | src/patterns/ocl/OCLConstraints.ts:8-11 | a grade is valid exactly in [0, maxPoints], inclusive at both ends; with maxPoints 0 only 0 is valid |
| ConstraintValidator.ValidateGrade | src/patterns/ocl/OCLConstraints.ts:8-11 | no contract of its own; GradeRangeInclusive states that it holds exactly for 0 ≤ value ≤ maxPoints, both ends included |
| ConstraintValidator.SubmissionsBy | src/patterns/ocl/OCLConstraints.ts:16-18 | exactly the assignment's submissions whose studentId is the student's |
| ConstraintValidator.ValidateSubmission | src/patterns/ocl/OCLConstraints.ts:14-22 | true exactly when no submission of the assignment has that studentId |
| ConstraintValidator.SubmissionAppend | src/patterns/ocl/OCLConstraints.ts:14-22 | once a submission is appended, its student fails the check; another student's answer does not change |
| CourseConstraint.EveryStatusIsValid | src/patterns/ocl/OCLConstraints.ts:27-30 | every value of the closed status enum passes the status check |
| CourseConstraint.IsValidStatus | src/patterns/ocl/OCLConstraints.ts:27-30 | no contract of its own; EveryStatusIsValid states that it holds for every value of the closed status enum |
| CourseConstraint.IsTitleValid | src/patterns/ocl/OCLConstraints.ts:32-35 | valid exactly for 4 to 99 characters (both bounds strict in the source) |
| CourseConstraint.IsDescriptionValid | src/patterns/ocl/OCLConstraints.ts:41-44 | valid exactly for 11 to 499 characters |
| AssignmentConstraint.IsValidDueDate | src/patterns/ocl/OCLConstraints.ts:66-69 | a due date is valid exactly when it lies strictly after the current time |
| AssignmentConstraint.IsTitleValid | src/patterns/ocl/OCLConstraints.ts:71-74 | valid exactly for 4 to 99 characters |
| AssignmentConstraint.IsDescriptionValid | src/patterns/ocl/OCLConstraints.ts:76-79 | valid exactly for 11 to 499 characters |
| AssignmentConstraint.SameWindowsAsCourse | src/patterns/ocl/OCLConstraints.ts:32-44 | assignments and courses use the same title and description windows |
| SubmissionConstraint.Validate | src/patterns/ocl/OCLConstraints.ts:105-113 | true exactly when the student has no submission for the assignment |
| SubmissionConstraint.AgreesWithValidator | src/patterns/ocl/OCLConstraints.ts:105-113 | the two submission checks of the file agree on every input |
| UserConstraint.EveryRoleIsValid | src/patterns/ocl/OCLConstraints.ts:130-133 | every value of the closed role enum passes the role check |
| UserConstraint.IsValidRole | src/patterns/ocl/OCLConstraints.ts:130-133 | no contract of its own; EveryRoleIsValid states that it holds for every value of the closed role enum |
| UserConstraint.MatchesEmailPattern | src/patterns/ocl/OCLConstraints.ts:135-139 | no contract of its own: the regular expression's language, stated independently as "some '@' and later '.' split the address into the three character classes" |
| UserConstraint.IsEmailValid | src/patterns/ocl/OCLConstraints.ts:135-139 | no contract of its own; EmailValidIffPattern states that it accepts exactly the addresses MatchesEmailPattern describes |
| UserConstraint.EmailValidIffPattern | src/patterns/ocl/OCLConstraints.ts:135-139 | the computed test accepts exactly the strings matching `^[a-zA-Z0-9._%+-]+@[a-zA-Z0-9.-]+\.[a-zA-Z]{2,}$`, stated as the existence of a split into local part, domain and top-level domain |
| UserConstraint.PatternSplitIsUnique | src/patterns/ocl/OCLConstraints.ts:135-139 | any split that matches the pattern is at the first '@' and the last '.' |
| UserConstraint.EmailHasOneAt | src/patterns/ocl/OCLConstraints.ts:135-139 | every accepted address contains exactly one '@' |
| RoleConstraint.AccessEqualsModify | src/patterns/ocl/OCLConstraints.ts:160-168 | access and modification rights coincide: always for an admin, and otherwise exactly for the course's teacher |
| RoleConstraint.CanAccessCourse | src/patterns/ocl/OCLConstraints.ts:160-163 | no contract of its own; AccessEqualsModify states that it holds for every admin and otherwise exactly for the course's teacher |
| RoleConstraint.CanModifyCourse | src/patterns/ocl/OCLConstraints.ts:165-168 | no contract of its own; AccessEqualsModify states that it coincides with CanAccessCourse |
| GradeConstraint.Validate | src/patterns/ocl/OCLConstraints.ts:189-192 | a grade record is valid exactly when its value passes the validator's range check against the assignment's maxPoints |
| CourseController.CreateCourse | src/patterns/grasp/CourseController.ts:12-32 | null exactly for a student; otherwise a fresh course owned by the user, without modules, ACTIVE for an admin and DRAFT for a teacher, with createdAt and updatedAt the two clock readings |
| CourseController.AddModule | src/patterns/grasp/CourseController.ts:35-57 | refused (null, nothing changed) exactly when the user may not modify the course; otherwise one fresh empty module is appended with order = old count, and updatedAt = now; orders stay equal to indices |
| CourseController.FindModule | src/patterns/grasp/CourseController.ts:76 | the index of the first module with the id, or None exactly when no module has it |
| CourseController.AddAssignment | src/patterns/grasp/CourseController.ts:60-99 | succeeds exactly when the user may modify the course and a module with the id exists; on success only the first such module's assignment list grows by the new assignment and updatedAt = now; on failure nothing changes; the module list is never changed |
| Creator.CreateCourse | src/patterns/grasp/Creator.ts:12-32 | null exactly for a student; otherwise a fresh DRAFT course owned by the creator, for admins too |
| Creator.CreateModule | src/patterns/grasp/Creator.ts:43-59 | appends one fresh empty module with order = old count and sets updatedAt; orders stay equal to indices |
| Creator.CreateMaterial | src/patterns/grasp/Creator.ts:70-84 | appends one material with order = old material count and the type string as given; assignments unchanged |
| Creator.CreateAssignment | src/patterns/grasp/Creator.ts:95-116 | appends one assignment with no submissions; materials unchanged |
| ObserverPattern.StudentNotificationObserver.constructor | src/patterns/behavioral/ObserverPattern.ts:93-95 | the observer is bound to the given student |
| ObserverPattern.StudentNotificationObserver.Update | src/patterns/behavioral/ObserverPattern.ts:97-136 | every notification produced is unread, addressed to the bound student, and carries the given id and creation time |
| ObserverPattern.GradeOnlyForItsStudent | src/patterns/behavioral/ObserverPattern.ts:112-124 | a grade event yields a notification exactly for the student it names, of type GRADE titled "Grade Posted" |
| ObserverPattern.OtherKindsOfEvent | src/patterns/behavioral/ObserverPattern.ts:100-136 | assignment events always yield an ASSIGNMENT notification titled "New Assignment"; announcements always yield an ANNOUNCEMENT copying the title and message; any other type yields nothing |
| ObserverPattern.TypeTag | src/patterns/behavioral/ObserverPattern.ts:52-101 | each of the three event variants has its own tag and no other payload carries it, so switching on the tag is matching on the variant |
| ObserverPattern.Registered | src/patterns/behavioral/ObserverPattern.ts:30-35 | after registering, the observer is in the list, and a duplicate-free list stays duplicate-free |
| ObserverPattern.Unregistered | src/patterns/behavioral/ObserverPattern.ts:37-42 | unregistering an absent observer changes nothing; in a duplicate-free list the observer is gone afterwards and the list stays duplicate-free |
| ObserverPattern.RemovalKeepsNoDuplicates | src/patterns/behavioral/ObserverPattern.ts:37-42 | removal from a duplicate-free list leaves it duplicate-free and without the observer |
| ObserverPattern.RegisterIdempotent | src/patterns/behavioral/ObserverPattern.ts:30-35 | registering twice is registering once |
| ObserverPattern.RegisterThenUnregister | src/patterns/behavioral/ObserverPattern.ts:30-42 | registering a new observer and then unregistering it restores the list |
| ObserverPattern.CourseSubject.constructor | src/patterns/behavioral/ObserverPattern.ts:23-28 | a new subject has no observers |
| ObserverPattern.CourseSubject.Register | src/patterns/behavioral/ObserverPattern.ts:30-35 | the list becomes Registered(old list), and stays duplicate-free |
| ObserverPattern.CourseSubject.Unregister | src/patterns/behavioral/ObserverPattern.ts:37-42 | the list becomes Unregistered(old list), and stays duplicate-free |
| ObserverPattern.CourseSubject.NotifyObservers | src/patterns/behavioral/ObserverPattern.ts:44-46 | exactly one delivery per registered observer, in registration order, each being that observer's Update of the event with the delivery's own uuid and clock reading |
| ObserverPattern.CourseSubject.AddAssignment | src/patterns/behavioral/ObserverPattern.ts:49-59 | every observer receives one assignment_added event for this course |
| ObserverPattern.CourseSubject.PublishGrade | src/patterns/behavioral/ObserverPattern.ts:61-73 | every observer receives one grade_published event, and exactly the observers bound to the named student produce a notification |
| ObserverPattern.CourseSubject.AddAnnouncement | src/patterns/behavioral/ObserverPattern.ts:75-86 | every observer receives one announcement_added event for this course |
| CourseDecorator.IdAndModulesPassThrough | src/patterns/structural/CourseDecorator.ts:23-62 | through any chain of layers, the id and the module list are the base course's own |
| CourseDecorator.BasicCourseIsTransparent | src/patterns/structural/CourseDecorator.ts:16-38 | the basic component presents the course's own id, title, description and modules |
| CourseDecorator.LayerPresentation | src/patterns/structural/CourseDecorator.ts:82-126 | each layer's contribution: certificate adds " (Certificate Available)" to the title, premium adds " (Premium)" and the premium note, time-limited adds "Access until: " and the formatted date to the description |
| CourseDecorator.TitleFollowsWrappingOrder | src/patterns/structural/CourseDecorator.ts:52-101 | the title is the base title followed by the layers' suffixes in wrapping order, innermost first |
| CourseDecorator.SuffixesAppend | src/patterns/structural/CourseDecorator.ts:82-101 | one more layer adds its suffix at the end |
| CourseDecorator.DescriptionFollowsWrappingOrder | src/patterns/structural/CourseDecorator.ts:56-125 | the description is the base description followed by the layers' notes in wrapping order, innermost first: the premium materials note, the access date of a time-limited layer, nothing for a certificate layer |
| CourseDecorator.NotesAppend | src/patterns/structural/CourseDecorator.ts:103-125 | one more layer adds its note at the end |
| CourseDecorator.AllThreeLayers | src/patterns/structural/CourseDecorator.ts:66-126 | time-limited, then premium, then certificate gives "<title> (Premium) (Certificate Available)" |
| CourseDecorator.GetId | src/patterns/structural/CourseDecorator.ts:23-49 | no contract of its own; IdAndModulesPassThrough states that every layer returns the base course's id |
| CourseDecorator.GetModules | src/patterns/structural/CourseDecorator.ts:35-61 | no contract of its own; IdAndModulesPassThrough states that every layer returns the base course's modules |
| CourseDecorator.GetTitle | src/patterns/structural/CourseDecorator.ts:27-100 | no contract of its own; TitleFollowsWrappingOrder states that it is the base title followed by the layers' suffixes, innermost first |
| CourseDecorator.GetDescription | src/patterns/structural/CourseDecorator.ts:31-125 | no contract of its own; DescriptionFollowsWrappingOrder states that it is the base description followed by the layers' notes in wrapping order, and LayerPresentation what each layer appends |
| CourseDecorator.IsAccessible | src/patterns/structural/CourseDecorator.ts:120-122 | accessible exactly strictly before the end of access |
| CourseDecorator.IndexOfSubstring | src/patterns/structural/CourseDecorator.ts:79 | the first position where the placeholder occurs, or None when it does not occur |
| CourseDecorator.JsReplaceFirst | src/patterns/structural/CourseDecorator.ts:79 | the string is unchanged when the pattern does not occur; otherwise the text before its first occurrence and the text after it are kept, and only that occurrence is replaced |
| CourseDecorator.Substitution | src/patterns/structural/CourseDecorator.ts:79 | no contract of its own; SubstitutionWithoutDollar states that a replacement without '$' is inserted literally, and DollarNameIsNotInserted that "$&" stands for the matched text |
| CourseDecorator.GenerateCertificateAsWritten | src/patterns/structural/CourseDecorator.ts:78-80 | no contract of its own; AsWrittenAgreesWithoutDollar states that it equals GenerateCertificate for names without '$', and DollarNameIsNotInserted gives a name for which it does not |
| CourseDecorator.GenerateCertificate | src/patterns/structural/CourseDecorator.ts:78-80 | corrected: the name is inserted literally in place of the first placeholder, and everything else is kept |
| CourseDecorator.SubstitutionWithoutDollar | src/patterns/structural/CourseDecorator.ts:79 | a replacement string without '$' is inserted literally by JavaScript's substitution |
| CourseDecorator.AsWrittenAgreesWithoutDollar | src/patterns/structural/CourseDecorator.ts:78-80 | for names without '$' the code as written and the corrected version agree |
| CourseDecorator.DollarNameIsNotInserted | src/patterns/structural/CourseDecorator.ts:78-80 | as written, the name "$&" leaves the template "{studentName}" unchanged, while the corrected version yields "$&" |
| AssignmentExpert.GradedSubmissions | src/patterns/grasp/InformationExpert.ts:23-26 | exactly the graded submissions |
| AssignmentExpert.SubmissionCount | src/patterns/grasp/InformationExpert.ts:18-20 | no contract of its own; GradedCount, GetLateSubmissionsCount and LateAndOnTimePartition bound the other counts by it |
| AssignmentExpert.GradedCount | src/patterns/grasp/InformationExpert.ts:18-27 | the graded count is at most the submission count |
| AssignmentExpert.GetAverageGrade | src/patterns/grasp/InformationExpert.ts:30-45 | 0 when nothing is graded; otherwise the mean of the graded grades' total over the graded count |
| AssignmentExpert.AverageTimesCount | src/patterns/grasp/InformationExpert.ts:38-43 | once something is graded, average × graded count = sum of the graded grades |
| AssignmentExpert.Mean | src/patterns/grasp/InformationExpert.ts:43 | the mean times the count gives back the total |
| AssignmentExpert.MeanBounds | src/patterns/grasp/InformationExpert.ts:43 | the mean of values in [0, hi] lies in [0, hi] |
| AssignmentExpert.GradeTotalBounds | src/patterns/grasp/InformationExpert.ts:39-42 | grades in [0, hi] sum to between 0 and count × hi |
| AssignmentExpert.AverageWithinPoints | src/patterns/grasp/InformationExpert.ts:30-45 | with valid grades the average is never negative, and once something is graded it is at most maxPoints |
| AssignmentExpert.IsSubmissionLate | src/patterns/grasp/InformationExpert.ts:48-50 | no contract of its own; OnTimeIsNotLate states that late is exactly not on time, and LateAndOnTimePartition that late and not-late submissions add up to all of them |
| AssignmentExpert.LateSubmissions | src/patterns/grasp/InformationExpert.ts:53-57 | exactly the submissions made strictly after the due date |
| AssignmentExpert.GetLateSubmissionsCount | src/patterns/grasp/InformationExpert.ts:53-57 | the late count is at most the submission count |
| AssignmentExpert.GetStudentSubmission | src/patterns/grasp/InformationExpert.ts:67-71 | a found submission belongs to the assignment and to the student |
| AssignmentExpert.HasStudentSubmitted | src/patterns/grasp/InformationExpert.ts:60-64 | no contract of its own; SubmittedIffFound states that it holds exactly when GetStudentSubmission finds a submission |
| AssignmentExpert.SubmittedIffFound | src/patterns/grasp/InformationExpert.ts:60-71 | `some` holds exactly when `find` returns a submission, and the one returned is the student's first |
| AssignmentExpert.AreAllSubmissionsGraded | src/patterns/grasp/InformationExpert.ts:74-82 | no contract of its own; AllGradedIffCountsMatch states that it holds exactly when there are submissions and all of them are graded |
| AssignmentExpert.AllGradedIffCountsMatch | src/patterns/grasp/InformationExpert.ts:74-82 | all graded exactly when there is a submission and the graded count equals the submission count |
| AssignmentExpert.LateAndOnTimePartition | src/patterns/grasp/InformationExpert.ts:48-57 | the late and the not-late submissions together number the submission count |
| SubmissionExpert.GetPointsAchieved | src/patterns/grasp/InformationExpert.ts:101-103 | the grade when graded, else 0 |
| SubmissionExpert.IsGraded | src/patterns/grasp/InformationExpert.ts:96-98 | no contract of its own; GetPointsAchieved and IsPassing state what a missing grade gives |
| SubmissionExpert.GetPercentageScore | src/patterns/grasp/InformationExpert.ts:106-112 | 0 when ungraded; otherwise percentage × maxPoints = 100 × grade |
| SubmissionExpert.IsSubmittedOnTime | src/patterns/grasp/InformationExpert.ts:115-117 | no contract of its own; OnTimeIsNotLate states that it is exactly the negation of IsSubmissionLate |
| SubmissionExpert.OnTimeIsNotLate | src/patterns/grasp/InformationExpert.ts:48-117 | on time (≤ due date) is exactly not late (> due date); a submission at the due date is on time |
| SubmissionExpert.CeilDiv | src/patterns/grasp/InformationExpert.ts:126 | the ceiling quotient r satisfies (r-1)·d < n ≤ r·d |
| SubmissionExpert.GetDaysLate | src/patterns/grasp/InformationExpert.ts:120-129 | 0 when on time; otherwise at least 1 and the lateness in whole days rounded up |
| SubmissionExpert.IsPassing | src/patterns/grasp/InformationExpert.ts:132-139 | passing implies graded with a percentage of at least 60 |
| SubmissionExpert.PassingInPoints | src/patterns/grasp/InformationExpert.ts:132-139 | for positive maxPoints, passing is exactly 100 × grade ≥ 60 × maxPoints |
| SubmissionExpert.TrimStart | src/patterns/grasp/InformationExpert.ts:144 | the longest suffix not starting with white space; everything dropped is white space |
| SubmissionExpert.TrimEnd | src/patterns/grasp/InformationExpert.ts:144 | the longest prefix not ending with white space; everything dropped is white space |
| SubmissionExpert.Trim | src/patterns/grasp/InformationExpert.ts:144 | no contract of its own; it is TrimEnd after TrimStart, so their ensures give that exactly the leading and trailing white space is dropped, and TrimEmptyIffBlank that the result is empty exactly for all-white-space text |
| SubmissionExpert.TrimEmptyIffBlank | src/patterns/grasp/InformationExpert.ts:144 | trimming leaves nothing exactly when the text is all white space |
| SubmissionExpert.HasFeedback | src/patterns/grasp/InformationExpert.ts:142-145 | no contract of its own; HasFeedbackIffVisibleText states that it holds exactly when the feedback is present and has a character that is not white space |
| SubmissionExpert.HasFeedbackIffVisibleText | src/patterns/grasp/InformationExpert.ts:142-145 | feedback counts exactly when it is present and has a character that is not white space |
| OpenClosed.BadEvaluateCourse | src/patterns/solid/OpenClosed.ts:8-23 | no contract of its own; ModuleCountMatchesBadEvaluator states that the module-count strategy agrees with it on every course |
| OpenClosed.ModuleCountEvaluate | src/patterns/solid/OpenClosed.ts:34-43 | no contract of its own; ModuleCountBands states its three bands as iffs, and ModuleCountMonotone that more modules never lower the band |
| OpenClosed.ModuleCountMatchesBadEvaluator | src/patterns/solid/OpenClosed.ts:9-43 | the strategy and the hard-coded evaluator agree on every course |
| OpenClosed.ModuleCountBands | src/patterns/solid/OpenClosed.ts:35-43 | Advanced for more than 10 modules, Intermediate for 6 to 10, Beginner for at most 5 |
| OpenClosed.ModuleCountMonotone | src/patterns/solid/OpenClosed.ts:35-43 | a course with at least as many modules as another never gets a lower band from the module-count strategy (Beginner < Intermediate < Advanced) |
| OpenClosed.AverageDifficulty | src/patterns/solid/OpenClosed.ts:58 | 0 without assignments; otherwise mean × count = total maxPoints |
| OpenClosed.DifficultyLabel | src/patterns/solid/OpenClosed.ts:60-66 | Hard above 80, Medium in (50, 80], Easy at most 50 |
| OpenClosed.TotalPointsAppend | src/patterns/solid/OpenClosed.ts:51-56 | the point total of a concatenation is the sum of the totals |
| OpenClosed.AssignmentDifficultyEvaluate | src/patterns/solid/OpenClosed.ts:46-67 | the nested loops produce the label of the mean maxPoints over all assignments of all modules |
| OpenClosed.NoAssignmentsIsEasy | src/patterns/solid/OpenClosed.ts:58-66 | a course without assignments is an Easy Course |
| OpenClosed.AllAssignmentsOfAppend | src/patterns/solid/OpenClosed.ts:51-56 | a new module's assignments come after the others' |
| OpenClosed.EstimatedHoursByCounts | src/patterns/solid/OpenClosed.ts:73-78 | the estimate is 2·modules + 0.5·materials + 3·assignments |
| OpenClosed.TimeLabel | src/patterns/solid/OpenClosed.ts:80-88 | Full Semester above 100 hours, Half Semester in (50, 100], Short in (20, 50], Mini at most 20 |
| OpenClosed.TimeLabelMonotone | src/patterns/solid/OpenClosed.ts:80-88 | more hours never give a shorter category |
| OpenClosed.MoreContentNeverShorter | src/patterns/solid/OpenClosed.ts:73-88 | adding modules, materials or assignments never moves a course to a shorter category |
| OpenClosed.NoModulesIsMini | src/patterns/solid/OpenClosed.ts:73-88 | a course without modules is a Mini Course |
| OpenClosed.TimeRequirementEvaluate | src/patterns/solid/OpenClosed.ts:70-90 | the loop produces the label of the estimated hours |
| OpenClosed.Evaluation | src/patterns/solid/OpenClosed.ts:104-107 | no contract of its own; CourseEvaluator.EvaluateCourse states that the evaluator returns it for its current strategy, and the per-strategy lemmas state what each strategy yields |
| OpenClosed.CourseEvaluator.constructor | src/patterns/solid/OpenClosed.ts:96-98 | the evaluator starts with the given strategy |
| OpenClosed.CourseEvaluator.SetEvaluationStrategy | src/patterns/solid/OpenClosed.ts:100-102 | the new strategy replaces the old one |
| OpenClosed.CourseEvaluator.EvaluateCourse | src/patterns/solid/OpenClosed.ts:104-107 | the result is the current strategy's evaluation of the course |
| LiskovSubstitution.Student.constructor | src/patterns/solid/LiskovSubstitution.ts:41-44 | a new student has no enrolled courses |
| LiskovSubstitution.Student.EnrollInCourse | src/patterns/solid/LiskovSubstitution.ts:54-58 | the list becomes AppendIfAbsent(old list), and stays duplicate-free |
| LiskovSubstitution.Student.GetEnrolledCourseIds | src/patterns/solid/LiskovSubstitution.ts:60-62 | no contract of its own; the list EnrollInCourse maintains, returned as a value, so that, as with the source's spread copy, a caller cannot change the student through it |
| LiskovSubstitution.Teacher.constructor | src/patterns/solid/LiskovSubstitution.ts:69-72 | a new teacher teaches no courses |
| LiskovSubstitution.Teacher.AssignToCourse | src/patterns/solid/LiskovSubstitution.ts:89-93 | the list becomes AppendIfAbsent(old list), and stays duplicate-free |
| LiskovSubstitution.Teacher.GetTeachingCourseIds | src/patterns/solid/LiskovSubstitution.ts:95-97 | no contract of its own; the list AssignToCourse maintains, returned as a value, so that, as with the source's spread copy, a caller cannot change the teacher through it |
| LiskovSubstitution.Admin.constructor | src/patterns/solid/LiskovSubstitution.ts:102-104 | the admin holds the given id, name and email |
| LiskovSubstitution.GetId | src/patterns/solid/LiskovSubstitution.ts:20-22 | no contract of its own; the subclass's id as its constructor stored it (the constructors' ensures), on which UserById and LaterDuplicateIsShadowed rest |
| LiskovSubstitution.GetName | src/patterns/solid/LiskovSubstitution.ts:24-26 | no contract of its own; the subclass's name as its constructor stored it |
| LiskovSubstitution.GetEmail | src/patterns/solid/LiskovSubstitution.ts:28-30 | no contract of its own; the subclass's email as its constructor stored it |
| LiskovSubstitution.CourseIdListBehaviour | src/patterns/solid/LiskovSubstitution.ts:54-93 | enrolling or assigning is idempotent, keeps the earlier ids in place, adds only when absent and keeps the list duplicate-free |
| LiskovSubstitution.GetRole | src/patterns/solid/LiskovSubstitution.ts:46-108 | no contract of its own; RoleIsFixedBySubclass states that each subclass reports its own role and no other subclass reports it |
| LiskovSubstitution.GetPermissions | src/patterns/solid/LiskovSubstitution.ts:50-124 | no contract of its own; PermissionHierarchy states the inclusions between the three lists |
| LiskovSubstitution.RoleIsFixedBySubclass | src/patterns/solid/LiskovSubstitution.ts:46-108 | each subclass reports its own role, and only it does |
| LiskovSubstitution.PermissionHierarchy | src/patterns/solid/LiskovSubstitution.ts:50-124 | every teacher permission is an admin permission; only students may submit assignments; everyone may view courses |
| LiskovSubstitution.UserById | src/patterns/solid/LiskovSubstitution.ts:135-137 | the first user with the id, or None exactly when no user has it |
| LiskovSubstitution.UsersWithPermission | src/patterns/solid/LiskovSubstitution.ts:139-142 | exactly the users whose permission list contains the permission |
| LiskovSubstitution.Teachers | src/patterns/solid/LiskovSubstitution.ts:144-147 | exactly the Teacher instances |
| LiskovSubstitution.QueriesAfterAdd | src/patterns/solid/LiskovSubstitution.ts:131-147 | adding a user extends each query's answer at its end, exactly when the user qualifies |
| LiskovSubstitution.AdminsAreNotTeachers | src/patterns/solid/LiskovSubstitution.ts:144-147 | no admin is returned among the teachers |
| LiskovSubstitution.LaterDuplicateIsShadowed | src/patterns/solid/LiskovSubstitution.ts:131-137 | adding a user with an id already present does not change which user that id finds |
| LiskovSubstitution.UserManager.constructor | src/patterns/solid/LiskovSubstitution.ts:129 | a new manager has no users |
| LiskovSubstitution.UserManager.AddUser | src/patterns/solid/LiskovSubstitution.ts:131-133 | the user is appended, without deduplication |
| LiskovSubstitution.UserManager.GetUserById | src/patterns/solid/LiskovSubstitution.ts:135-137 | a found user is the first managed user with the id, as `find` returns it; None exactly when no user has it |
| LiskovSubstitution.UserManager.GetUsersWithPermission | src/patterns/solid/LiskovSubstitution.ts:139-142 | exactly the managed users holding the permission |
| LiskovSubstitution.UserManager.GetTeachers | src/patterns/solid/LiskovSubstitution.ts:144-147 | exactly the managed users whose role is TEACHER |
| NotificationHandlers.CreateHandler | src/patterns/grasp/PolymorphismAndProtectedVariation.ts:120-136 | the handler kind matches the notification type, in both directions, and it holds the notification |
| NotificationHandlers.GetNotificationDetails | src/patterns/grasp/PolymorphismAndProtectedVariation.ts:20-22 | no contract of its own; HandlerFollowsTable states that the factory's handler hands back the notification unchanged |
| NotificationHandlers.FormatMessage | src/patterns/grasp/PolymorphismAndProtectedVariation.ts:25-105 | no contract of its own; HandlerFollowsTable and MessageLayout state that it is the type's prefix, the title, a newline and the message |
| NotificationHandlers.GetActionUrl | src/patterns/grasp/PolymorphismAndProtectedVariation.ts:28-110 | no contract of its own; HandlerFollowsTable states the URL per type, and UrlIdentifiesType that the URL determines the type |
| NotificationHandlers.GetPriority | src/patterns/grasp/PolymorphismAndProtectedVariation.ts:31-115 | no contract of its own; PriorityOrder states that priorities lie in 1..3 with GRADE alone at 1 and SYSTEM alone at 3 |
| NotificationHandlers.HandlerFollowsTable | src/patterns/grasp/PolymorphismAndProtectedVariation.ts:13-116 | the handler's message, URL and priority are those of the per-type table, and its details are the notification unchanged |
| NotificationHandlers.PriorityOrder | src/patterns/grasp/PolymorphismAndProtectedVariation.ts:59-115 | priorities lie in 1..3; grade alone has priority 1 and system alone has 3 |
| NotificationHandlers.UrlIdentifiesType | src/patterns/grasp/PolymorphismAndProtectedVariation.ts:53-110 | two notifications get the same action URL exactly when they have the same type |
| NotificationHandlers.MessageLayout | src/patterns/grasp/PolymorphismAndProtectedVariation.ts:49-105 | a formatted message is the type's prefix, then the title, one newline, then the message |
| UserFactory.CreateUser | src/patterns/creational/UserFactory.ts:12-43 | each creator copies id, name and email and fixes its own role |
| UserFactory.CreatorsAreDistinct | src/patterns/creational/UserFactory.ts:12-43 | two creators give the same role exactly when they are the same creator |
| UserService.CreatorFor | src/patterns/creational/UserFactory.ts:47-60 | the creator the switch picks makes users of exactly the requested role, whatever the name, email and id |
| UserService.CreateUser | src/patterns/creational/UserFactory.ts:46-65 | the user has exactly the requested role, name and email, and the given id |
| UserService.SameInputsDifferOnlyInId | src/patterns/creational/UserFactory.ts:13-42 | two users created from the same name, email and role differ at most in their ids |

## Left out

- Console logging is not modelled. This covers `console.error` in the controller and creators, `console.log` in the observer, and `NotificationHandler.sendNotification`. It is I/O without results.
- The constraint classes' `get…Constraint()` description strings and `getFormalOCL()` texts are not modelled. They are constant documentation strings.
- `NotificationService` is not modelled. It only combines `createHandler` with the logging `sendNotification`.
- Random ids, `uuidv4()`, `new Date()` and `toLocaleDateString()` are parameters, as listed above. The properties hold for every value of them; none assumes that two ids differ or that two clock readings are equal or ordered.
- Dates are integer millisecond timestamps. The averages, percentages and hour estimates are exact reals, not IEEE doubles. `getDaysLate` uses exact integer ceiling division.
- String lengths are counted in Dafny characters. JavaScript counts UTF-16 code units, so the title and description windows can differ on text outside the Basic Multilingual Plane.
- Grades and maxPoints are integers. The TypeScript `number` also admits fractions.
- `SubmissionExpert.GetPercentageScore` and `SubmissionExpert.IsPassing`: for a graded submission they require maxPoints ≠ 0. JavaScript would divide by zero there and yield Infinity or NaN.
- `submission.grade || 0` treats a grade of 0 like a missing one. Both give 0, so modelling the grade as an `Option<int>` loses nothing.
- `TypeTag` and the event payload: the observer's `data` is untyped (`any`). The model covers the three payloads the subject raises, plus `OtherEvent`, whose tag type `UnknownTag` excludes the three known tags. Missing or ill-typed `details` fields are not modelled.
- The open interfaces are closed in the model, since each becomes a datatype or a single class. `Observer` (ObserverPattern.ts:17) is only `StudentNotificationObserver`. `CourseEvaluationStrategy` (OpenClosed.ts:29) is the three strategies. `CourseComponent` (CourseDecorator.ts:8) is the basic course and the three layers. `UserCreator` (UserFactory.ts:8) is the three creators. The properties proved hold for these implementations only, not for further ones a caller might add.
- `createHandler`'s `default` branch cannot be reached. The notification type is the closed four-value enum, so the SYSTEM case is the only route to the system handler.
- `UserService.createUser`'s "Invalid user role" error cannot be reached either, because the role enum is closed.
- The material `type` string is stored as given, with no check against the MaterialType enum. The source casts it with `as any`.
- Decorator accessors `getCertificateTemplate`, `getExtraMaterials` and `getAccessEndDate` are the datatype's fields. `isAccessible` is offered only on a time-limited layer itself, as in the code: outer layers do not forward it.

Behaviour the code does not have:

- The code has no composer that sorts decorator layers into a fixed priority order. The title reflects the order in which the layers are wrapped (`TitleFollowsWrappingOrder`). The title "<title> (Premium) (Certificate Available)" results when the layers are wrapped time-limited, then premium, then certificate (`AllThreeLayers`).
- The controller has no submit or grade operation, and it raises no domain events. Only `CourseSubject`'s own methods notify.
- The two course factories differ. The controller's `createCourse` makes an admin's course ACTIVE at once. Creator's `createCourse` makes every course a DRAFT.
- Observer delivery has no per-observer failure isolation. `forEach` would stop at the first observer that throws, and a modelled observer never fails.

## Findings

| source | as written | input that shows it | evidently intended | confidence | as-written member | corrected member |
|---|---|---|---|---|---|---|
| src/patterns/structural/CourseDecorator.ts:79 | `template.replace('{studentName}', studentName)` passes the name as a replacement *pattern*, so `$&`, `$$`, `` $` `` and `$'` in it are expanded by JavaScript (ECMAScript, section 22.1.3.19.1, GetSubstitution) | template "{studentName}" and student name "$&" give "{studentName}" instead of "$&" | the name is inserted literally, for example with a replacer function | not executed | CourseDecorator.GenerateCertificateAsWritten (shown by CourseDecorator.DollarNameIsNotInserted) | CourseDecorator.GenerateCertificate |
