/** The notification bus of src/patterns/behavioral/ObserverPattern.ts: a
    course subject keeps a duplicate-free list of observers and delivers
    every event to each of them, in registration order. The only observer of
    the core, the per-student one, answers an event with the Notification it
    would record, or with None. Observers are compared by reference, as
    `includes` and `indexOf` compare objects. The uuid source and the clock
    are parameters; the console logging is left out. */
module ObserverPattern {
  import opened SeqUtil
  import opened Types

  /** A `type` tag that is none of the three the subject raises. */
  type UnknownTag = t: string | t !in {"assignment_added", "grade_published", "announcement_added"} witness ""

  /** The payload's `details`, one variant per event type the subject raises.
      `OtherEvent` stands for a payload whose type tag is none of these. */
  datatype EventDetails =
    | AssignmentAdded(assignmentTitle: string)
    | GradePublished(studentId: string, assignmentTitle: string, grade: int)
    | AnnouncementAdded(title: string, message: string)
    | OtherEvent(typeTag: UnknownTag)

  /** The value passed to `notifyObservers`: `{ type, courseId, details }`. */
  datatype CourseEvent = CourseEvent(courseId: string, details: EventDetails)

  /** The `type` tag of the payload: each variant has its own tag, so the
      observer's switch on the tag is a match on the variant. */
  function TypeTag(e: CourseEvent): (t: string)
    ensures t == "assignment_added" <==> e.details.AssignmentAdded?
    ensures t == "grade_published" <==> e.details.GradePublished?
    ensures t == "announcement_added" <==> e.details.AnnouncementAdded?
  {
    match e.details
    case AssignmentAdded(_) => "assignment_added"
    case GradePublished(_, _, _) => "grade_published"
    case AnnouncementAdded(_, _) => "announcement_added"
    case OtherEvent(t) => t
  }

  class StudentNotificationObserver {
    const student: User

    constructor (student: User)
      ensures this.student == student
    {
      this.student := student;
    }

    /** The notification the observer records for `data`, with id `id`
        (a fresh uuid) created at `now`. Every notification is unread and
        addressed to the bound student. */
    function Update(data: CourseEvent, id: string, now: int): (r: Option<Notification>)
      ensures r.Some? ==> r.value.id == id && r.value.userId == student.id
      ensures r.Some? ==> !r.value.isRead && r.value.createdAt == now
    {
      match data.details
      case AssignmentAdded(title) =>
        Some(Notification(id, student.id, "New Assignment",
          "A new assignment \"" + title + "\" has been added to your course.", ASSIGNMENT, false, now))
      case GradePublished(studentId, title, _) =>
        if studentId == student.id then
          Some(Notification(id, student.id, "Grade Posted",
            "Your grade for \"" + title + "\" has been posted.", GRADE, false, now))
        else None
      case AnnouncementAdded(title, message) =>
        Some(Notification(id, student.id, title, message, ANNOUNCEMENT, false, now))
      case OtherEvent(_) => None
    }
  }

  /** A grade event yields a notification only for the student it names:
      a GRADE "Grade Posted" one. */
  lemma GradeOnlyForItsStudent(o: StudentNotificationObserver, courseId: string, studentId: string,
                               title: string, grade: int, id: string, now: int)
    ensures var r := o.Update(CourseEvent(courseId, GradePublished(studentId, title, grade)), id, now);
      && (r.Some? <==> studentId == o.student.id)
      && (r.Some? ==> r.value.notificationType == GRADE && r.value.title == "Grade Posted")
  {
  }

  /** An assignment event always yields an ASSIGNMENT "New Assignment"
      notification; an announcement always yields an ANNOUNCEMENT that copies
      the event's title and message; any other event yields nothing. */
  lemma OtherKindsOfEvent(o: StudentNotificationObserver, e: CourseEvent, id: string, now: int)
    ensures e.details.AssignmentAdded? ==>
      o.Update(e, id, now).Some? &&
      o.Update(e, id, now).value.notificationType == ASSIGNMENT &&
      o.Update(e, id, now).value.title == "New Assignment"
    ensures e.details.AnnouncementAdded? ==>
      o.Update(e, id, now).Some? &&
      o.Update(e, id, now).value.notificationType == ANNOUNCEMENT &&
      o.Update(e, id, now).value.title == e.details.title &&
      o.Update(e, id, now).value.message == e.details.message
    ensures e.details.OtherEvent? ==> o.Update(e, id, now).None?
  {
  }

  /** `register`: the list with `o` added at the end unless already there. */
  function Registered(observers: seq<StudentNotificationObserver>, o: StudentNotificationObserver): (r: seq<StudentNotificationObserver>)
    ensures o in r
    ensures NoDuplicates(observers) ==> NoDuplicates(r)
  {
    AppendIfAbsentNoDuplicates(observers, o);
    AppendIfAbsent(observers, o)
  }

  /** `unregister`: the list without `o`, the others kept in order. */
  function Unregistered(observers: seq<StudentNotificationObserver>, o: StudentNotificationObserver): (r: seq<StudentNotificationObserver>)
    ensures o !in observers ==> r == observers
    ensures NoDuplicates(observers) ==> NoDuplicates(r) && o !in r
  {
    RemovalKeepsNoDuplicates(observers, o);
    RemoveFirst(observers, o)
  }

  lemma RemovalKeepsNoDuplicates(observers: seq<StudentNotificationObserver>, o: StudentNotificationObserver)
    ensures NoDuplicates(observers) ==> NoDuplicates(RemoveFirst(observers, o)) && o !in RemoveFirst(observers, o)
  {
    if NoDuplicates(observers) {
      RemoveFirstNoDuplicates(observers, o);
    }
  }

  /** Registering twice is registering once. */
  lemma RegisterIdempotent(observers: seq<StudentNotificationObserver>, o: StudentNotificationObserver)
    ensures Registered(Registered(observers, o), o) == Registered(observers, o)
  {
    AppendIfAbsentIdempotent(observers, o);
  }

  /** Registering a new observer and unregistering it restores the list. */
  lemma RegisterThenUnregister(observers: seq<StudentNotificationObserver>, o: StudentNotificationObserver)
    requires o !in observers
    ensures Unregistered(Registered(observers, o), o) == observers
  {
    RemoveAfterAppend(observers, o);
  }

  class CourseSubject {
    const courseId: string
    var observers: seq<StudentNotificationObserver>

    /** The observer list never holds the same observer twice. */
    ghost predicate Valid()
      reads this
    {
      NoDuplicates(observers)
    }

    constructor (courseId: string)
      ensures Valid() && this.courseId == courseId && observers == []
    {
      this.courseId := courseId;
      observers := [];
    }

    method Register(o: StudentNotificationObserver)
      requires Valid()
      modifies this
      ensures Valid()
      ensures observers == Registered(old(observers), o)
    {
      if o !in observers {
        observers := observers + [o];
      }
    }

    method Unregister(o: StudentNotificationObserver)
      requires Valid()
      modifies this
      ensures Valid()
      ensures observers == Unregistered(old(observers), o)
    {
      var index := IndexOf(observers, o);
      if index.Some? {
        observers := observers[..index.value] + observers[index.value + 1..];
      }
    }

    /** Calls `update` once on every registered observer, in registration
        order, and collects what each one produced. The i-th delivery gets
        the uuid `uuid(i)`. */
    method NotifyObservers(data: CourseEvent, uuid: nat -> string, clock: nat -> int)
      returns (delivered: seq<Option<Notification>>)
      ensures |delivered| == |observers|
      ensures forall i :: 0 <= i < |observers| ==> delivered[i] == observers[i].Update(data, uuid(i), clock(i))
    {
      delivered := [];
      var i := 0;
      while i < |observers|
        invariant 0 <= i <= |observers|
        invariant |delivered| == i
        invariant forall j :: 0 <= j < i ==> delivered[j] == observers[j].Update(data, uuid(j), clock(j))
      {
        delivered := delivered + [observers[i].Update(data, uuid(i), clock(i))];
        i := i + 1;
      }
    }

    /** Raises one assignment_added event for this course. */
    method AddAssignment(assignmentTitle: string, uuid: nat -> string, clock: nat -> int)
      returns (delivered: seq<Option<Notification>>)
      ensures |delivered| == |observers|
      ensures forall i :: 0 <= i < |observers| ==>
        delivered[i] == observers[i].Update(CourseEvent(courseId, AssignmentAdded(assignmentTitle)), uuid(i), clock(i))
    {
      delivered := NotifyObservers(CourseEvent(courseId, AssignmentAdded(assignmentTitle)), uuid, clock);
    }

    /** Raises one grade_published event for this course. */
    method PublishGrade(studentId: string, assignmentTitle: string, grade: int, uuid: nat -> string, clock: nat -> int)
      returns (delivered: seq<Option<Notification>>)
      ensures |delivered| == |observers|
      ensures forall i :: 0 <= i < |observers| ==>
        delivered[i] == observers[i].Update(CourseEvent(courseId, GradePublished(studentId, assignmentTitle, grade)), uuid(i), clock(i))
      ensures forall i :: 0 <= i < |observers| ==> (delivered[i].Some? <==> observers[i].student.id == studentId)
    {
      delivered := NotifyObservers(CourseEvent(courseId, GradePublished(studentId, assignmentTitle, grade)), uuid, clock);
    }

    /** Raises one announcement_added event for this course. */
    method AddAnnouncement(title: string, message: string, uuid: nat -> string, clock: nat -> int)
      returns (delivered: seq<Option<Notification>>)
      ensures |delivered| == |observers|
      ensures forall i :: 0 <= i < |observers| ==>
        delivered[i] == observers[i].Update(CourseEvent(courseId, AnnouncementAdded(title, message)), uuid(i), clock(i))
    {
      delivered := NotifyObservers(CourseEvent(courseId, AnnouncementAdded(title, message)), uuid, clock);
    }
  }
}
