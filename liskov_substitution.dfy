/** The user hierarchy of src/patterns/solid/LiskovSubstitution.ts. Student
    and Teacher carry a course-id list that only grows, without duplicates;
    Admin carries none. The abstract base class becomes the datatype
    `BaseUser`, one variant per subclass, so that the manager can hold
    any of them and dispatch `getRole` and `getPermissions` on the variant;
    the objects themselves are compared by reference. */
module LiskovSubstitution {
  import opened SeqUtil
  import opened Types

  const StudentPermissions: seq<string> := ["view_course", "submit_assignment", "view_grades"]

  const TeacherPermissions: seq<string> :=
    ["view_course", "create_course", "edit_course", "create_assignment", "grade_assignment",
     "view_student_progress"]

  const AdminPermissions: seq<string> :=
    ["view_course", "create_course", "edit_course", "delete_course", "create_assignment",
     "edit_assignment", "delete_assignment", "grade_assignment", "view_student_progress",
     "manage_users", "system_settings"]

  class Student {
    const id: string
    const name: string
    const email: string
    var enrolledCourseIds: seq<string>

    ghost predicate Valid()
      reads this
    {
      NoDuplicates(enrolledCourseIds)
    }

    constructor (id: string, name: string, email: string)
      ensures Valid()
      ensures this.id == id && this.name == name && this.email == email && enrolledCourseIds == []
    {
      this.id := id;
      this.name := name;
      this.email := email;
      enrolledCourseIds := [];
    }

    /** Appends the id unless the student is already enrolled in it. */
    method EnrollInCourse(courseId: string)
      requires Valid()
      modifies this
      ensures Valid()
      ensures enrolledCourseIds == AppendIfAbsent(old(enrolledCourseIds), courseId)
    {
      AppendIfAbsentNoDuplicates(enrolledCourseIds, courseId);
      if courseId !in enrolledCourseIds {
        enrolledCourseIds := enrolledCourseIds + [courseId];
      }
    }

    /** A copy of the list; a sequence is a value, so the copy is the list. */
    function GetEnrolledCourseIds(): seq<string>
      reads this
    {
      enrolledCourseIds
    }
  }

  class Teacher {
    const id: string
    const name: string
    const email: string
    var teachingCourseIds: seq<string>

    ghost predicate Valid()
      reads this
    {
      NoDuplicates(teachingCourseIds)
    }

    constructor (id: string, name: string, email: string)
      ensures Valid()
      ensures this.id == id && this.name == name && this.email == email && teachingCourseIds == []
    {
      this.id := id;
      this.name := name;
      this.email := email;
      teachingCourseIds := [];
    }

    /** Appends the id unless the teacher already teaches it. */
    method AssignToCourse(courseId: string)
      requires Valid()
      modifies this
      ensures Valid()
      ensures teachingCourseIds == AppendIfAbsent(old(teachingCourseIds), courseId)
    {
      AppendIfAbsentNoDuplicates(teachingCourseIds, courseId);
      if courseId !in teachingCourseIds {
        teachingCourseIds := teachingCourseIds + [courseId];
      }
    }

    function GetTeachingCourseIds(): seq<string>
      reads this
    {
      teachingCourseIds
    }
  }

  class Admin {
    const id: string
    const name: string
    const email: string

    constructor (id: string, name: string, email: string)
      ensures this.id == id && this.name == name && this.email == email
    {
      this.id := id;
      this.name := name;
      this.email := email;
    }
  }

  /** Enrolling (or assigning) twice is enrolling once, the earlier ids keep
      their places, and the list stays free of duplicates. */
  lemma CourseIdListBehaviour(ids: seq<string>, courseId: string)
    ensures AppendIfAbsent(AppendIfAbsent(ids, courseId), courseId) == AppendIfAbsent(ids, courseId)
    ensures courseId in AppendIfAbsent(ids, courseId)
    ensures AppendIfAbsent(ids, courseId)[..|ids|] == ids
    ensures courseId in ids ==> AppendIfAbsent(ids, courseId) == ids
    ensures courseId !in ids ==> AppendIfAbsent(ids, courseId) == ids + [courseId]
    ensures NoDuplicates(ids) ==> NoDuplicates(AppendIfAbsent(ids, courseId))
  {
    AppendIfAbsentIdempotent(ids, courseId);
    AppendIfAbsentNoDuplicates(ids, courseId);
  }

  /** A user of any subclass. */
  datatype BaseUser = StudentUser(student: Student) | TeacherUser(teacher: Teacher) | AdminUser(admin: Admin)

  function GetId(u: BaseUser): string
  {
    match u
    case StudentUser(s) => s.id
    case TeacherUser(t) => t.id
    case AdminUser(a) => a.id
  }

  function GetName(u: BaseUser): string
  {
    match u
    case StudentUser(s) => s.name
    case TeacherUser(t) => t.name
    case AdminUser(a) => a.name
  }

  function GetEmail(u: BaseUser): string
  {
    match u
    case StudentUser(s) => s.email
    case TeacherUser(t) => t.email
    case AdminUser(a) => a.email
  }

  function GetRole(u: BaseUser): UserRole
  {
    match u
    case StudentUser(_) => STUDENT
    case TeacherUser(_) => TEACHER
    case AdminUser(_) => ADMIN
  }

  function GetPermissions(u: BaseUser): seq<string>
  {
    match u
    case StudentUser(_) => StudentPermissions
    case TeacherUser(_) => TeacherPermissions
    case AdminUser(_) => AdminPermissions
  }

  /** Each subclass reports its own role, and no other subclass reports it. */
  lemma RoleIsFixedBySubclass(u: BaseUser)
    ensures GetRole(u) == STUDENT <==> u.StudentUser?
    ensures GetRole(u) == TEACHER <==> u.TeacherUser?
    ensures GetRole(u) == ADMIN <==> u.AdminUser?
  {
  }

  /** Admins can do everything teachers can; only students may submit
      assignments; every user may view courses. */
  lemma PermissionHierarchy(u: BaseUser)
    ensures forall p :: p in TeacherPermissions ==> p in AdminPermissions
    ensures "submit_assignment" in GetPermissions(u) <==> u.StudentUser?
    ensures "view_course" in GetPermissions(u)
  {
    assert TeacherPermissions[0] == AdminPermissions[0];
    assert TeacherPermissions[1] == AdminPermissions[1];
    assert TeacherPermissions[2] == AdminPermissions[2];
    assert TeacherPermissions[3] == AdminPermissions[4];
    assert TeacherPermissions[4] == AdminPermissions[7];
    assert TeacherPermissions[5] == AdminPermissions[8];
    assert StudentPermissions[1] == "submit_assignment";
    assert GetPermissions(u)[0] == "view_course";
  }

  function HasPermission(permission: string): BaseUser -> bool
  {
    (u: BaseUser) => permission in GetPermissions(u)
  }

  predicate IsTeacher(u: BaseUser) { GetRole(u) == TEACHER }

  function IsIdentifiedBy(id: string): BaseUser -> bool
  {
    (u: BaseUser) => GetId(u) == id
  }

  /** `users[k]` is the first user whose id is `id`. */
  predicate FirstWithId(users: seq<BaseUser>, k: int, id: string)
  {
    0 <= k < |users| && GetId(users[k]) == id && forall j :: 0 <= j < k ==> GetId(users[j]) != id
  }

  /** `users.find(user => user.getId() === id)`. */
  function UserById(users: seq<BaseUser>, id: string): (r: Option<BaseUser>)
    ensures r.Some? ==> exists k :: FirstWithId(users, k, id) && users[k] == r.value
    ensures r.None? <==> forall j :: 0 <= j < |users| ==> GetId(users[j]) != id
  {
    var k := Find(users, IsIdentifiedBy(id));
    if k.None? then
      assert forall j :: 0 <= j < |users| ==> !IsIdentifiedBy(id)(users[j]);
      None
    else
      assert forall j :: 0 <= j < k.value ==> !IsIdentifiedBy(id)(users[j]);
      assert FirstWithId(users, k.value, id);
      Some(users[k.value])
  }

  /** The users holding the permission, in the order they were added. */
  function UsersWithPermission(users: seq<BaseUser>, permission: string): (r: seq<BaseUser>)
    ensures forall i :: 0 <= i < |r| ==> r[i] in users && permission in GetPermissions(r[i])
    ensures forall i :: 0 <= i < |users| && permission in GetPermissions(users[i]) ==> users[i] in r
  {
    Filter(users, HasPermission(permission))
  }

  /** The users whose role is TEACHER: exactly the Teacher instances. */
  function Teachers(users: seq<BaseUser>): (r: seq<BaseUser>)
    ensures forall i :: 0 <= i < |r| ==> r[i] in users && r[i].TeacherUser?
    ensures forall i :: 0 <= i < |users| && users[i].TeacherUser? ==> users[i] in r
  {
    Filter(users, IsTeacher)
  }

  /** Adding a user extends each query's answer at its end, and only when the
      new user qualifies: the answers keep insertion order. */
  lemma QueriesAfterAdd(users: seq<BaseUser>, u: BaseUser, permission: string)
    ensures UsersWithPermission(users + [u], permission) ==
      UsersWithPermission(users, permission) + (if permission in GetPermissions(u) then [u] else [])
    ensures Teachers(users + [u]) == Teachers(users) + (if u.TeacherUser? then [u] else [])
  {
    FilterAppend(users, [u], HasPermission(permission));
    FilterAppend(users, [u], IsTeacher);
    assert [u][1..] == [];
  }

  /** No admin is among the teachers, whatever the admin may do. */
  lemma AdminsAreNotTeachers(users: seq<BaseUser>)
    ensures forall i :: 0 <= i < |Teachers(users)| ==> !Teachers(users)[i].AdminUser?
  {
  }

  /** Adding does not deduplicate: a later user with the same id is never
      the one found. */
  lemma LaterDuplicateIsShadowed(users: seq<BaseUser>, u: BaseUser)
    requires UserById(users, GetId(u)).Some?
    ensures UserById(users + [u], GetId(u)) == UserById(users, GetId(u))
  {
    var id := GetId(u);
    var k := Find(users, IsIdentifiedBy(id));
    var k' := Find(users + [u], IsIdentifiedBy(id));
    assert forall j :: 0 <= j < |users| ==> (users + [u])[j] == users[j];
    assert k'.Some? && k'.value <= k.value;
    assert k'.value == k.value;
  }

  class UserManager {
    var users: seq<BaseUser>

    constructor ()
      ensures users == []
    {
      users := [];
    }

    /** Appends the user, even when one with the same id is already there. */
    method AddUser(user: BaseUser)
      modifies this
      ensures users == old(users) + [user]
    {
      users := users + [user];
    }

    function GetUserById(id: string): (r: Option<BaseUser>)
      reads this
      ensures r.Some? ==> exists k :: FirstWithId(users, k, id) && users[k] == r.value
      ensures r.None? <==> forall j :: 0 <= j < |users| ==> GetId(users[j]) != id
    {
      UserById(users, id)
    }

    function GetUsersWithPermission(permission: string): (r: seq<BaseUser>)
      reads this
      ensures forall i :: 0 <= i < |r| ==> r[i] in users && permission in GetPermissions(r[i])
      ensures forall i :: 0 <= i < |users| && permission in GetPermissions(users[i]) ==> users[i] in r
    {
      UsersWithPermission(users, permission)
    }

    function GetTeachers(): (r: seq<BaseUser>)
      reads this
      ensures forall i :: 0 <= i < |r| ==> r[i] in users && GetRole(r[i]) == TEACHER
      ensures forall i :: 0 <= i < |users| && GetRole(users[i]) == TEACHER ==> users[i] in r
    {
      Teachers(users)
    }
  }
}
