/** The factory method of src/patterns/creational/UserFactory.ts. Each
    creator builds a user record with its own role; the service picks the
    creator by role. The `uuidv4()` id is a parameter. */
module UserFactory {
  import opened Types

  /** The three concrete creators. */
  datatype UserCreator = StudentCreator | TeacherCreator | AdminCreator

  /** `creator.createUser(name, email)`, with `id` the fresh uuid. */
  function CreateUser(creator: UserCreator, name: string, email: string, id: string): (u: User)
    ensures u.id == id && u.name == name && u.email == email
    ensures creator.StudentCreator? ==> u.role == STUDENT
    ensures creator.TeacherCreator? ==> u.role == TEACHER
    ensures creator.AdminCreator? ==> u.role == ADMIN
  {
    match creator
    case StudentCreator => User(id, name, email, STUDENT)
    case TeacherCreator => User(id, name, email, TEACHER)
    case AdminCreator => User(id, name, email, ADMIN)
  }

  /** Distinct creators make users of distinct roles. */
  lemma CreatorsAreDistinct(c: UserCreator, d: UserCreator, name: string, email: string, id: string)
    ensures CreateUser(c, name, email, id).role == CreateUser(d, name, email, id).role <==> c == d
  {
  }
}

module UserService {
  import opened Types
  import UserFactory

  /** The creator the service's switch selects for a role. The role enum is
      closed, so the `Invalid user role` branch cannot be reached. */
  function CreatorFor(role: UserRole): (c: UserFactory.UserCreator)
    ensures forall name, email, id :: UserFactory.CreateUser(c, name, email, id).role == role
  {
    match role
    case STUDENT => UserFactory.StudentCreator
    case TEACHER => UserFactory.TeacherCreator
    case ADMIN => UserFactory.AdminCreator
  }

  /** `UserService.createUser`: the user has exactly the requested role,
      name and email. */
  function CreateUser(name: string, email: string, role: UserRole, id: string): (u: User)
    ensures u == User(id, name, email, role)
  {
    UserFactory.CreateUser(CreatorFor(role), name, email, id)
  }

  /** Two calls with the same name, email and role give users that differ at
      most in their ids. */
  lemma SameInputsDifferOnlyInId(name: string, email: string, role: UserRole, id1: string, id2: string)
    ensures CreateUser(name, email, role, id1).(id := id2) == CreateUser(name, email, role, id2)
    ensures CreateUser(name, email, role, id1) == CreateUser(name, email, role, id2) <==> id1 == id2
  {
  }
}
