/** internal/service/comment_service.go: adding a comment (and notifying the
    post's owner) and building the tree of replies under a parent comment. */
module CommentService {
  import opened Wrappers
  import opened Notifications
  import PostService

  /** A comment; `replies` is filled in only by ShowReplies. */
  datatype Comment = Comment(
    id: int,
    userId: int,
    postId: int,
    parentId: Option<int>,
    content: string,
    replies: seq<Comment>)

  datatype AddCommentRequest = AddCommentRequest(postId: int, userId: int, parentId: Option<int>, content: string)

  class CommentTable {
    var rows: seq<Comment>
    var nextId: int

    ghost predicate Valid()
      reads this
    {
      forall i :: 0 <= i < |rows| ==> rows[i].id < nextId
    }

    constructor ()
      ensures Valid() && rows == [] && nextId == 1
    {
      rows, nextId := [], 1;
    }

    /** CreateComment: inserts the comment under a fresh id. */
    method Create(c: Comment, dbErr: Option<Error>) returns (created: Comment, err: Outcome)
      requires Valid()
      modifies this
      ensures Valid()
      ensures dbErr.Some? ==> err == Fail(Wrap("failed to create comment", dbErr.value)) &&
                              rows == old(rows) && nextId == old(nextId)
      ensures dbErr.None? ==> err == Pass && created == c.(id := old(nextId)) &&
                              rows == old(rows) + [created] && nextId == old(nextId) + 1
    {
      created := c;
      if dbErr.Some? {
        return created, Fail(Wrap("failed to create comment", dbErr.value));
      }
      created := c.(id := nextId);
      rows := rows + [created];
      nextId := nextId + 1;
      err := Pass;
    }
  }

  // ---------------------------------------------------------------------
  // AddComment

  /** The record AddComment stores: the request's fields, no replies. */
  function NewComment(req: AddCommentRequest): (c: Comment)
    ensures c.userId == req.userId && c.postId == req.postId && c.parentId == req.parentId && c.content == req.content
    ensures c.replies == []
  {
    Comment(0, req.userId, req.postId, req.parentId, req.content, [])
  }

  /** The notification of a comment: to the post's owner, from the
      commenter, naming the post and the new comment, unread. */
  function CommentNotification(owner: int, req: AddCommentRequest, commentId: int): (n: Notification)
    ensures n.userId == owner && n.actorId == req.userId && n.postId == req.postId && n.commentId == commentId
    ensures n.kind == "comment" && n.message == "New comment on your post" && !n.read
  {
    Notification(owner, req.userId, req.postId, commentId, "comment", "New comment on your post", false)
  }

  /** AddComment: the post must exist; the comment is stored; the post's
      owner is notified if and only if someone else commented. A failed
      notification is reported although the comment stays stored. */
  method AddComment(posts: PostService.PostTable, comments: CommentTable, notifications: NotificationTable,
                    req: AddCommentRequest, lookupErr: Option<Error>, createErr: Option<Error>, notifyErr: Option<Error>)
    returns (r: Result<Comment>)
    requires comments.Valid()
    modifies comments, notifications
    ensures comments.Valid()
    ensures posts.GetDetail(req.postId, lookupErr).Err? ==>
              r == Err(New("post not found")) &&
              comments.rows == old(comments.rows) && notifications.rows == old(notifications.rows)
    ensures posts.GetDetail(req.postId, lookupErr).Ok? ==>
              var owner := posts.GetDetail(req.postId, lookupErr).value.userId;
              var created := NewComment(req).(id := old(comments.nextId));
              && (createErr.Some? ==>
                    r == Err(New("error creating comment")) &&
                    comments.rows == old(comments.rows) && notifications.rows == old(notifications.rows))
              && (createErr.None? ==> comments.rows == old(comments.rows) + [created])
              && (createErr.None? && owner == req.userId ==>
                    r == Ok(created) && notifications.rows == old(notifications.rows))
              && (createErr.None? && owner != req.userId && notifyErr.Some? ==>
                    r == Err(New("error creating notification")) && notifications.rows == old(notifications.rows))
              && (createErr.None? && owner != req.userId && notifyErr.None? ==>
                    r == Ok(created) &&
                    notifications.rows == old(notifications.rows) + [CommentNotification(owner, req, created.id)])
  {
    var post := posts.GetDetail(req.postId, lookupErr);
    if post.Err? {
      return Err(New("post not found"));
    }
    var created, err := comments.Create(NewComment(req), createErr);
    if err.Fail? {
      return Err(New("error creating comment"));
    }
    if post.value.userId != req.userId {
      var notified := notifications.Create(CommentNotification(post.value.userId, req, created.id), notifyErr);
      if notified.Fail? {
        return Err(New("error creating notification"));
      }
    }
    r := Ok(created);
  }

  // ---------------------------------------------------------------------
  // ShowReplies

  /** The comments whose parent is `pid`, in row order. */
  function Children(rows: seq<Comment>, pid: int): (r: seq<Comment>)
    ensures forall c :: c in r ==> c in rows && c.parentId == Some(pid)
    ensures forall c :: c in rows && c.parentId == Some(pid) ==> c in r
  {
    if rows == [] then []
    else
      var last := rows[|rows| - 1];
      assert forall c :: c in rows ==> c in rows[..|rows| - 1] || c == last by {
        assert rows == rows[..|rows| - 1] + [last];
      }
      Children(rows[..|rows| - 1], pid) + if last.parentId == Some(pid) then [last] else []
  }

  /** GetRepliesByParentID over the comment rows: `failing` maps each parent
      id whose query fails to the driver's error. */
  function GetReplies(rows: seq<Comment>, failing: map<int, Error>, pid: int): (r: Result<seq<Comment>>)
    ensures r.Err? <==> pid in failing
    ensures r.Err? ==> r.error == Wrap("failed to get replies", failing[pid])
    ensures r.Ok? ==> r.value == Children(rows, pid)
  {
    if pid in failing then Err(Wrap("failed to get replies", failing[pid])) else Ok(Children(rows, pid))
  }

  /** The parent relation is acyclic, witnessed by a rank that strictly
      drops from every parent to each of its children. */
  ghost predicate Ranked(rows: seq<Comment>, rank: map<int, nat>)
  {
    forall i :: 0 <= i < |rows| && rows[i].parentId.Some? ==>
      rows[i].id in rank && rows[i].parentId.value in rank && rank[rows[i].id] < rank[rows[i].parentId.value]
  }

  ghost function Height(rank: map<int, nat>, pid: int): nat
  {
    if pid in rank then rank[pid] else 0
  }

  /** A reply fetch fails with the wrapped error of some parent whose query
      fails. */
  ghost predicate FromFailingQuery(e: Error, failing: map<int, Error>)
  {
    exists q :: q in failing && e == Wrap("failed to get replies", failing[q])
  }

  /** The reply tree under `pid`: its direct children, each carrying its own
      reply tree; the first failing query, in visiting order, is the result. */
  function ReplyTree(rows: seq<Comment>, failing: map<int, Error>, pid: int, ghost rank: map<int, nat>): (r: Result<seq<Comment>>)
    requires Ranked(rows, rank)
    ensures r.Err? ==> FromFailingQuery(r.error, failing)
    ensures r.Ok? ==> pid !in failing && |r.value| == |Children(rows, pid)|
    decreases Height(rank, pid), 1
  {
    match GetReplies(rows, failing, pid)
    case Err(e) => Err(e)
    case Ok(cs) => Attach(rows, failing, cs, rank, pid)
  }

  /** The comments `cs`, children of `pid`, each with its reply tree. */
  function Attach(rows: seq<Comment>, failing: map<int, Error>, cs: seq<Comment>, ghost rank: map<int, nat>, ghost pid: int)
    : (r: Result<seq<Comment>>)
    requires Ranked(rows, rank)
    requires forall c :: c in cs ==> c in rows && c.parentId == Some(pid)
    ensures r.Err? ==> FromFailingQuery(r.error, failing)
    ensures r.Ok? ==> |r.value| == |cs|
    decreases Height(rank, pid), 0, |cs|
  {
    if cs == [] then Ok([])
    else
      var c := cs[0];
      assert c in rows && c.parentId == Some(pid);
      match ReplyTree(rows, failing, c.id, rank)
      case Err(e) => Err(e)
      case Ok(replies) =>
        match Attach(rows, failing, cs[1..], rank, pid)
        case Err(e) => Err(e)
        case Ok(rest) => Ok([c.(replies := replies)] + rest)
  }

  /** Attaching succeeds exactly when every child's tree does, and then the
      i-th result is the i-th child with its tree as replies. */
  lemma {:induction false} AttachShape(rows: seq<Comment>, failing: map<int, Error>, cs: seq<Comment>,
                                       rank: map<int, nat>, pid: int)
    requires Ranked(rows, rank)
    requires forall c :: c in cs ==> c in rows && c.parentId == Some(pid)
    ensures Attach(rows, failing, cs, rank, pid).Ok? <==>
              forall i :: 0 <= i < |cs| ==> ReplyTree(rows, failing, cs[i].id, rank).Ok?
    ensures Attach(rows, failing, cs, rank, pid).Ok? ==>
              forall i :: 0 <= i < |cs| ==>
                Attach(rows, failing, cs, rank, pid).value[i] == cs[i].(replies := ReplyTree(rows, failing, cs[i].id, rank).value)
    decreases |cs|
  {
    if cs != [] {
      AttachShape(rows, failing, cs[1..], rank, pid);
      AttachStep(rows, failing, cs, rank, pid);
      assert forall i :: 1 <= i < |cs| ==> cs[i] == cs[1..][i - 1];
    }
  }

  /** The top level of the tree is the direct children of `pid`, in order,
      each carrying its own reply tree; the whole call succeeds exactly when
      the query for `pid` and every child's tree succeed. */
  lemma ReplyTreeShape(rows: seq<Comment>, failing: map<int, Error>, pid: int, rank: map<int, nat>)
    requires Ranked(rows, rank)
    ensures var cs := Children(rows, pid);
            ReplyTree(rows, failing, pid, rank).Ok? <==>
              pid !in failing && forall i :: 0 <= i < |cs| ==> ReplyTree(rows, failing, cs[i].id, rank).Ok?
    ensures var cs := Children(rows, pid);
            ReplyTree(rows, failing, pid, rank).Ok? ==>
              forall i :: 0 <= i < |cs| ==>
                ReplyTree(rows, failing, pid, rank).value[i] == cs[i].(replies := ReplyTree(rows, failing, cs[i].id, rank).value)
  {
    if pid !in failing {
      AttachShape(rows, failing, Children(rows, pid), rank, pid);
    }
  }

  /** The result of the source's in-place loop once the first i comments
      carry their trees: those i, then what the rest attaches to. */
  function Prepend(done: seq<Comment>, r: Result<seq<Comment>>): (p: Result<seq<Comment>>)
    ensures p.Ok? <==> r.Ok?
  {
    if r.Ok? then Ok(done + r.value) else r
  }

  lemma PrependNothing(r: Result<seq<Comment>>)
    ensures Prepend([], r) == r
  {
    if r.Ok? {
      assert [] + r.value == r.value;
    }
  }

  lemma PrependTwice(xs: seq<Comment>, ys: seq<Comment>, r: Result<seq<Comment>>)
    ensures Prepend(xs, Prepend(ys, r)) == Prepend(xs + ys, r)
  {
    if r.Ok? {
      assert xs + (ys + r.value) == (xs + ys) + r.value;
    }
  }

  /** One step of Attach: the first child's tree, then the rest. */
  lemma AttachStep(rows: seq<Comment>, failing: map<int, Error>, cs: seq<Comment>, rank: map<int, nat>, pid: int)
    requires Ranked(rows, rank) && cs != []
    requires forall c :: c in cs ==> c in rows && c.parentId == Some(pid)
    ensures var first := ReplyTree(rows, failing, cs[0].id, rank);
            Attach(rows, failing, cs, rank, pid) ==
              if first.Err? then Err(first.error)
              else Prepend([cs[0].(replies := first.value)], Attach(rows, failing, cs[1..], rank, pid))
  {
  }

  /** A child of `pid` sits strictly lower in the rank than `pid`. */
  lemma ChildLower(rows: seq<Comment>, rank: map<int, nat>, pid: int, c: Comment)
    requires Ranked(rows, rank) && c in rows && c.parentId == Some(pid)
    ensures Height(rank, c.id) < Height(rank, pid)
  {
    var k :| 0 <= k < |rows| && rows[k] == c;
  }

  /** One turn of fetchReplies' loop: with child i's tree in hand, the
      whole result is either that tree's error or the first i + 1 children
      done followed by what the rest attaches to. */
  lemma FetchStep(rows: seq<Comment>, failing: map<int, Error>, cs: seq<Comment>, rank: map<int, nat>, pid: int,
                  done: seq<Comment>, i: nat, replies: Result<seq<Comment>>)
    requires Ranked(rows, rank) && i < |cs|
    requires forall c :: c in cs ==> c in rows && c.parentId == Some(pid)
    requires replies == ReplyTree(rows, failing, cs[i].id, rank)
    ensures replies.Err? ==> Prepend(done, Attach(rows, failing, cs[i..], rank, pid)) == Err(replies.error)
    ensures replies.Ok? ==>
              Prepend(done, Attach(rows, failing, cs[i..], rank, pid)) ==
              Prepend(done + [cs[i].(replies := replies.value)], Attach(rows, failing, cs[i + 1..], rank, pid))
  {
    assert cs[i..][0] == cs[i] && cs[i..][1..] == cs[i + 1..];
    AttachStep(rows, failing, cs[i..], rank, pid);
    if replies.Ok? {
      PrependTwice(done, [cs[i].(replies := replies.value)], Attach(rows, failing, cs[i + 1..], rank, pid));
    }
  }

  /** Replacing element i splits the sequence at i + 1 as expected. */
  lemma UpdateAt(xs: seq<Comment>, i: nat, x: Comment)
    requires i < |xs|
    ensures xs[i := x][..i + 1] == xs[..i] + [x]
    ensures xs[i := x][i + 1..] == xs[i + 1..]
  {
  }

  /** fetchReplies: fetch the children of `pid`, then replace each child in
      place by the child with its replies, recursively; any error ends the
      whole call and is returned unchanged. `rank` witnesses that the parent
      relation is acyclic, without which the recursion does not end. */
  method FetchReplies(rows: seq<Comment>, failing: map<int, Error>, pid: int, ghost rank: map<int, nat>)
    returns (r: Result<seq<Comment>>)
    requires Ranked(rows, rank)
    ensures r == ReplyTree(rows, failing, pid, rank)
    decreases Height(rank, pid)
  {
    var fetched := GetReplies(rows, failing, pid);
    if fetched.Err? {
      return Err(fetched.error);
    }
    var comments := fetched.value;
    ghost var cs := comments;
    PrependNothing(Attach(rows, failing, cs, rank, pid));
    assert cs[0..] == cs;
    var i := 0;
    while i < |comments|
      invariant 0 <= i <= |comments| == |cs|
      invariant comments[i..] == cs[i..]
      invariant ReplyTree(rows, failing, pid, rank) == Prepend(comments[..i], Attach(rows, failing, cs[i..], rank, pid))
    {
      assert comments[i] == cs[i..][0] == cs[i];
      ChildLower(rows, rank, pid, cs[i]);
      var replies := FetchReplies(rows, failing, comments[i].id, rank);
      FetchStep(rows, failing, cs, rank, pid, comments[..i], i, replies);
      if replies.Err? {
        return Err(replies.error);
      }
      var attached := comments[i].(replies := replies.value);
      UpdateAt(comments, i, attached);
      comments := comments[i := attached];
      i := i + 1;
    }
    assert cs[i..] == [] && comments[..i] == comments;
    assert Attach(rows, failing, [], rank, pid) == Ok([]);
    assert comments + [] == comments;
    r := Ok(comments);
  }

  /** ShowReplies: the reply tree under the requested parent. */
  method ShowReplies(rows: seq<Comment>, failing: map<int, Error>, parentId: int, ghost rank: map<int, nat>)
    returns (r: Result<seq<Comment>>)
    requires Ranked(rows, rank)
    ensures r == ReplyTree(rows, failing, parentId, rank)
    ensures r.Err? ==> FromFailingQuery(r.error, failing)
  {
    r := FetchReplies(rows, failing, parentId, rank);
  }
}
