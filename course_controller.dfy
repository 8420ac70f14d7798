/** The use-case controller of src/patterns/grasp/CourseController.ts:
    role-gated course creation and the two aggregate mutations, each of which
    either appends exactly one record and bumps `updatedAt`, or fails and
    changes nothing. The random id and the clock are parameters. */
module CourseController {
  import opened SeqUtil
  import opened Types
  import RoleConstraint

  /** Only teachers and admins may create a course. The course belongs to
      the creating user and has no modules; an admin's course is ACTIVE at
      once, a teacher's starts as DRAFT. */
  method CreateCourse(user: User, title: string, description: string, id: string,
                      createdAt: int, updatedAt: int)
    returns (course: Course?)
    ensures course == null <==> user.role == STUDENT
    ensures course != null ==> fresh(course)
    ensures course != null ==>
      && course.id == id && course.title == title && course.description == description
      && course.teacherId == user.id && course.modules == []
      && course.status == (if user.role == ADMIN then ACTIVE else DRAFT)
      && course.createdAt == createdAt && course.updatedAt == updatedAt
  {
    if user.role != TEACHER && user.role != ADMIN {
      return null;
    }
    course := new Course(id, title, description, user.id,
                         if user.role == ADMIN then ACTIVE else DRAFT, createdAt, updatedAt);
  }

  /** Adds a module at the end of the course. Refused (null, nothing
      changed) unless the user may modify the course. */
  method AddModule(user: User, course: Course, title: string, description: string, id: string, now: int)
    returns (m: Module?)
    modifies course
    ensures m == null <==> !RoleConstraint.CanModifyCourse(user, course)
    ensures m == null ==> course.modules == old(course.modules) && course.updatedAt == old(course.updatedAt)
    ensures m != null ==>
      && fresh(m)
      && course.modules == old(course.modules) + [m]
      && m.id == id && m.title == title && m.description == description
      && m.courseId == course.id && m.order == |old(course.modules)|
      && m.materials == [] && m.assignments == []
      && course.updatedAt == now
    ensures OrdersAreIndices(old(course.modules)) ==> OrdersAreIndices(course.modules)
  {
    if user.id != course.teacherId && user.role != ADMIN {
      return null;
    }
    m := new Module(id, title, description, course.id, |course.modules|);
    if OrdersAreIndices(course.modules) {
      AppendKeepsOrdersDistinct(course.modules, m);
    }
    course.modules := course.modules + [m];
    course.updatedAt := now;
  }

  /** The index of the first module with the given id (`modules.find`). */
  function FindModule(modules: seq<Module>, moduleId: string): (r: Option<nat>)
    ensures r.Some? ==> r.value < |modules| && modules[r.value].id == moduleId
    ensures r.Some? ==> forall j :: 0 <= j < r.value ==> modules[j].id != moduleId
    ensures r.None? <==> forall j :: 0 <= j < |modules| ==> modules[j].id != moduleId
  {
    Find(modules, (m: Module) => m.id == moduleId)
  }

  /** Adds an assignment with no submissions to the first module whose id is
      `moduleId`. It succeeds exactly when the user may modify the course
      and such a module exists, whatever the title, description, due date
      and points; on failure nothing changes. No module is added or removed,
      and only the target module's assignment list changes. */
  method AddAssignment(user: User, course: Course, moduleId: string, title: string, description: string,
                       dueDate: int, maxPoints: int, id: string, now: int)
    returns (r: Option<Assignment>)
    modifies course, course.modules
    ensures course.modules == old(course.modules)
    ensures r.Some? <==> RoleConstraint.CanModifyCourse(user, course) && FindModule(course.modules, moduleId).Some?
    ensures r.None? ==> course.updatedAt == old(course.updatedAt)
    ensures r.None? ==> forall m :: m in course.modules ==>
      m.assignments == old(m.assignments) && m.materials == old(m.materials)
    ensures r.Some? ==>
      var target := course.modules[FindModule(course.modules, moduleId).value];
      && r.value == Assignment(id, title, description, dueDate, moduleId, maxPoints, [])
      && target.assignments == old(target.assignments) + [r.value]
      && target.materials == old(target.materials)
      && course.updatedAt == now
      && forall m :: m in course.modules && m != target ==>
           m.assignments == old(m.assignments) && m.materials == old(m.materials)
  {
    if user.id != course.teacherId && user.role != ADMIN {
      return None;
    }
    var found := FindModule(course.modules, moduleId);
    if found.None? {
      return None;
    }
    var target := course.modules[found.value];
    var assignment := Assignment(id, title, description, dueDate, moduleId, maxPoints, []);
    target.assignments := target.assignments + [assignment];
    course.updatedAt := now;
    r := Some(assignment);
  }
}
