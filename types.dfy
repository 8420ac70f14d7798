/** The domain records of the school-management core. Dates are integer
    milliseconds since the epoch and strings are `seq<char>`. Optional
    members (`grade?`, `feedback?`, ...) are `Option`s.

    Course and Module are classes because the creator and controller
    operations push onto their lists and reassign `updatedAt` in place. The
    fields that no core operation changes are `const`, so functions may read
    them without a `reads` clause. Every other record is never mutated by
    the core and is a datatype. */
module Types {
  import opened SeqUtil

  datatype UserRole = STUDENT | TEACHER | ADMIN

  datatype User = User(id: string, name: string, email: string, role: UserRole)

  datatype CourseStatus = DRAFT | ACTIVE | ARCHIVED

  /** `type` is stored as the string the caller passed: the material creator
      casts it without checking it against the four material kinds. */
  datatype Material = Material(
    id: string,
    title: string,
    materialType: string,
    content: string,
    moduleId: string,
    order: int)

  datatype Submission = Submission(
    id: string,
    studentId: string,
    assignmentId: string,
    content: string,
    submittedAt: int,
    grade: Option<int>,
    feedback: Option<string>)

  datatype Assignment = Assignment(
    id: string,
    title: string,
    description: string,
    dueDate: int,
    moduleId: string,
    maxPoints: int,
    submissions: seq<Submission>)

  datatype EnrollmentStatus = ENROLLMENT_ACTIVE | COMPLETED | DROPPED

  datatype Enrollment = Enrollment(
    id: string,
    studentId: string,
    courseId: string,
    enrolledAt: int,
    status: EnrollmentStatus,
    progress: int)

  datatype NotificationType = ANNOUNCEMENT | ASSIGNMENT | GRADE | SYSTEM

  datatype Notification = Notification(
    id: string,
    userId: string,
    title: string,
    message: string,
    notificationType: NotificationType,
    isRead: bool,
    createdAt: int)

  /** A calendar entry. */
  datatype Event = Event(
    id: string,
    title: string,
    description: Option<string>,
    startTime: int,
    endTime: int,
    location: Option<string>,
    courseId: Option<string>,
    users: seq<string>,
    date: int,
    attendees: Option<int>)

  datatype Grade = Grade(
    id: string,
    value: int,
    feedback: Option<string>,
    assignmentId: string,
    studentId: string,
    gradedBy: string,
    gradedAt: int)

  class Module {
    const id: string
    const title: string
    const description: string
    const courseId: string
    const order: int
    var materials: seq<Material>
    var assignments: seq<Assignment>

    /** A module with no materials and no assignments yet. */
    constructor (id: string, title: string, description: string, courseId: string, order: int)
      ensures this.id == id && this.title == title && this.description == description
      ensures this.courseId == courseId && this.order == order
      ensures materials == [] && assignments == []
    {
      this.id := id;
      this.title := title;
      this.description := description;
      this.courseId := courseId;
      this.order := order;
      materials := [];
      assignments := [];
    }
  }

  class Course {
    const id: string
    const title: string
    const description: string
    const teacherId: string
    const status: CourseStatus
    const createdAt: int
    var modules: seq<Module>
    var updatedAt: int

    /** A course with no modules. The creation and update times are two
        separate clock readings, which need not be equal. */
    constructor (id: string, title: string, description: string, teacherId: string,
                 status: CourseStatus, createdAt: int, updatedAt: int)
      ensures this.id == id && this.title == title && this.description == description
      ensures this.teacherId == teacherId && this.status == status
      ensures modules == [] && this.createdAt == createdAt && this.updatedAt == updatedAt
    {
      this.id := id;
      this.title := title;
      this.description := description;
      this.teacherId := teacherId;
      this.status := status;
      this.createdAt := createdAt;
      modules := [];
      this.updatedAt := updatedAt;
    }
  }

  /** Module `order`s are the positions 0, 1, 2, ... of the modules in their
      course; the creator keeps this by giving each new module the old count. */
  predicate OrdersAreIndices(ms: seq<Module>) {
    forall i :: 0 <= i < |ms| ==> ms[i].order == i
  }

  /** Appending a module whose order is the old count keeps the orders
      equal to the positions, hence pairwise distinct. */
  lemma {:induction false} AppendKeepsOrdersDistinct(ms: seq<Module>, m: Module)
    requires OrdersAreIndices(ms) && m.order == |ms|
    ensures OrdersAreIndices(ms + [m])
    ensures forall i, j :: 0 <= i < j < |ms + [m]| ==> (ms + [m])[i].order != (ms + [m])[j].order
  {
    var t := ms + [m];
    assert forall i :: 0 <= i < |ms| ==> t[i] == ms[i];
  }
}
