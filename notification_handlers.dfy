/** The notification handlers of
    src/patterns/grasp/PolymorphismAndProtectedVariation.ts. The abstract
    handler and its four subclasses become one datatype with a variant per
    subclass; each polymorphic method is a function that matches on the
    variant. The logging template method is not modelled. */
module NotificationHandlers {
  import opened Types

  datatype NotificationHandler =
    | AssignmentNotificationHandler(notification: Notification)
    | GradeNotificationHandler(notification: Notification)
    | AnnouncementNotificationHandler(notification: Notification)
    | SystemNotificationHandler(notification: Notification)

  function GetNotificationDetails(h: NotificationHandler): Notification
  {
    h.notification
  }

  function FormatMessage(h: NotificationHandler): string
  {
    var n := h.notification;
    match h
    case AssignmentNotificationHandler(_) => "Assignment Notification: " + n.title + "\n" + n.message
    case GradeNotificationHandler(_) => "Grade Update: " + n.title + "\n" + n.message
    case AnnouncementNotificationHandler(_) => "Announcement: " + n.title + "\n" + n.message
    case SystemNotificationHandler(_) => "System Notification: " + n.title + "\n" + n.message
  }

  function GetActionUrl(h: NotificationHandler): string
  {
    match h
    case AssignmentNotificationHandler(_) => "/assignments/view"
    case GradeNotificationHandler(_) => "/grades/view"
    case AnnouncementNotificationHandler(_) => "/announcements/view"
    case SystemNotificationHandler(_) => "/dashboard"
  }

  /** A smaller number is more urgent. */
  function GetPriority(h: NotificationHandler): int
  {
    match h
    case AssignmentNotificationHandler(_) => 2
    case GradeNotificationHandler(_) => 1
    case AnnouncementNotificationHandler(_) => 2
    case SystemNotificationHandler(_) => 3
  }

  /** `NotificationHandlerFactory.createHandler`: the handler for the
      notification's type, holding the notification itself. */
  function CreateHandler(notification: Notification): (h: NotificationHandler)
    ensures h.notification == notification
    ensures h.AssignmentNotificationHandler? <==> notification.notificationType == ASSIGNMENT
    ensures h.GradeNotificationHandler? <==> notification.notificationType == GRADE
    ensures h.AnnouncementNotificationHandler? <==> notification.notificationType == ANNOUNCEMENT
    ensures h.SystemNotificationHandler? <==> notification.notificationType == SYSTEM
  {
    match notification.notificationType
    case ASSIGNMENT => AssignmentNotificationHandler(notification)
    case GRADE => GradeNotificationHandler(notification)
    case ANNOUNCEMENT => AnnouncementNotificationHandler(notification)
    case SYSTEM => SystemNotificationHandler(notification)
  }

  /** The presentation table, per notification type: message prefix,
      action URL and priority. */
  datatype Presentation = Presentation(prefix: string, url: string, priority: int)

  function PresentationOf(t: NotificationType): Presentation
  {
    match t
    case ASSIGNMENT => Presentation("Assignment Notification: ", "/assignments/view", 2)
    case GRADE => Presentation("Grade Update: ", "/grades/view", 1)
    case ANNOUNCEMENT => Presentation("Announcement: ", "/announcements/view", 2)
    case SYSTEM => Presentation("System Notification: ", "/dashboard", 3)
  }

  /** The handler the factory picks presents the notification as the table
      says for its type, and hands back the notification unchanged. */
  lemma HandlerFollowsTable(n: Notification)
    ensures var h := CreateHandler(n); var p := PresentationOf(n.notificationType);
      && GetNotificationDetails(h) == n
      && FormatMessage(h) == p.prefix + n.title + "\n" + n.message
      && GetActionUrl(h) == p.url
      && GetPriority(h) == p.priority
  {
  }

  /** Grade notifications are the only ones of top priority and system ones
      the only ones of the lowest; every priority is in 1..3. */
  lemma PriorityOrder(n: Notification)
    ensures 1 <= GetPriority(CreateHandler(n)) <= 3
    ensures GetPriority(CreateHandler(n)) == 1 <==> n.notificationType == GRADE
    ensures GetPriority(CreateHandler(n)) == 3 <==> n.notificationType == SYSTEM
  {
  }

  /** Different types lead to different action URLs, so the URL tells the
      type back. */
  lemma UrlIdentifiesType(n: Notification, m: Notification)
    ensures GetActionUrl(CreateHandler(n)) == GetActionUrl(CreateHandler(m)) <==> n.notificationType == m.notificationType
  {
    var u, v := GetActionUrl(CreateHandler(n)), GetActionUrl(CreateHandler(m));
    if n.notificationType != m.notificationType {
      assert u[1] != v[1] || |u| != |v|;
    }
  }

  /** A formatted message starts with its type's prefix, and the title and
      message follow it, separated by one newline. */
  lemma MessageLayout(n: Notification)
    ensures var f, p := FormatMessage(CreateHandler(n)), PresentationOf(n.notificationType).prefix;
      && |f| == |p| + |n.title| + 1 + |n.message|
      && f[..|p|] == p
      && f[|p|..|p| + |n.title|] == n.title
      && f[|p| + |n.title|] == '\n'
      && f[|p| + |n.title| + 1..] == n.message
  {
    var f, p := FormatMessage(CreateHandler(n)), PresentationOf(n.notificationType).prefix;
    assert f == p + n.title + "\n" + n.message;
  }
}
