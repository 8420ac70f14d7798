/** The creators of src/patterns/grasp/Creator.ts: each aggregate creates its
    own parts and appends them at the end, with `order` the old count. The
    random ids and the clock are parameters. */
module Creator {
  import opened Types

  /** Only teachers and admins may create a course; it is always a DRAFT
      owned by the creating user, with no modules. */
  method CreateCourse(teacher: User, title: string, description: string, id: string,
                      createdAt: int, updatedAt: int)
    returns (course: Course?)
    ensures course == null <==> teacher.role == STUDENT
    ensures course != null ==> fresh(course)
    ensures course != null ==>
      && course.id == id && course.title == title && course.description == description
      && course.teacherId == teacher.id && course.status == DRAFT && course.modules == []
      && course.createdAt == createdAt && course.updatedAt == updatedAt
  {
    if teacher.role != TEACHER && teacher.role != ADMIN {
      return null;
    }
    course := new Course(id, title, description, teacher.id, DRAFT, createdAt, updatedAt);
  }

  /** Appends one empty module whose order is the old module count; the
      earlier modules stay as they were and `updatedAt` becomes `now`. */
  method CreateModule(course: Course, title: string, description: string, id: string, now: int)
    returns (m: Module)
    modifies course
    ensures fresh(m)
    ensures course.modules == old(course.modules) + [m]
    ensures m.id == id && m.title == title && m.description == description
    ensures m.courseId == course.id && m.order == |old(course.modules)|
    ensures m.materials == [] && m.assignments == []
    ensures course.updatedAt == now
    ensures OrdersAreIndices(old(course.modules)) ==> OrdersAreIndices(course.modules)
  {
    m := new Module(id, title, description, course.id, |course.modules|);
    if OrdersAreIndices(course.modules) {
      AppendKeepsOrdersDistinct(course.modules, m);
    }
    course.modules := course.modules + [m];
    course.updatedAt := now;
  }

  /** Appends one material whose order is the old material count. The type
      string is stored as given. The module's assignments are untouched. */
  method CreateMaterial(target: Module, title: string, materialType: string, content: string, id: string)
    returns (material: Material)
    modifies target
    ensures material == Material(id, title, materialType, content, target.id, |old(target.materials)|)
    ensures target.materials == old(target.materials) + [material]
    ensures target.assignments == old(target.assignments)
  {
    material := Material(id, title, materialType, content, target.id, |target.materials|);
    target.materials := target.materials + [material];
  }

  /** Appends one assignment with no submissions. The module's materials are
      untouched, and so is the course: `updatedAt` is not bumped here. */
  method CreateAssignment(target: Module, title: string, description: string, dueDate: int,
                          maxPoints: int, id: string)
    returns (assignment: Assignment)
    modifies target
    ensures assignment == Assignment(id, title, description, dueDate, target.id, maxPoints, [])
    ensures target.assignments == old(target.assignments) + [assignment]
    ensures target.materials == old(target.materials)
  {
    assignment := Assignment(id, title, description, dueDate, target.id, maxPoints, []);
    target.assignments := target.assignments + [assignment];
  }
}
