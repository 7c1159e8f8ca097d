/** The notification record and the notification table the post and comment
    services write to (internal/model/notification.go,
    internal/repository/notification_repository.go). */
module Notifications {
  import opened Wrappers

  datatype Notification = Notification(
    userId: int,
    actorId: int,
    postId: int,
    commentId: int,
    kind: string,
    message: string,
    read: bool)

  class NotificationTable {
    var rows: seq<Notification>

    constructor ()
      ensures rows == []
    {
      rows := [];
    }

    /** CreateNotification: inserts the row; the driver's error is wrapped. */
    method Create(n: Notification, dbErr: Option<Error>) returns (err: Outcome)
      modifies this
      ensures dbErr.Some? ==> err == Fail(Wrap("failed to create notification", dbErr.value)) && rows == old(rows)
      ensures dbErr.None? ==> err == Pass && rows == old(rows) + [n]
    {
      if dbErr.Some? {
        return Fail(Wrap("failed to create notification", dbErr.value));
      }
      rows := rows + [n];
      err := Pass;
    }
  }
}
